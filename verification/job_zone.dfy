/**
 * Jobs, threads and the zone as the objects of lkm/sched/sched.c: the thread table, the job list, the
 * wait queue and the administrators' calls, one caller at a time. (How they interleave is Lifecycle's
 * subject; the job states and the effect of each operation are the ones defined there.)
 */
module JobZone {
  import opened Options
  import opened L = Lifecycle

  const EINVAL := 22

  /** A thread entry together with the task it stands for. */
  class Thread {
    const pid: nat
    var job: Option<Job>
    var listed: bool    // the entry is linked into a slot
    var dead: bool
    var saved: RunState // thread->task_state
    var run: RunState   // thread->task->state
    var kills: nat      // SIGKILLs sent

    // __init_thread
    constructor (pid: nat, run: RunState)
      ensures this.pid == pid && job == None && !listed && !dead && this.run == run && kills == 0
    {
      this.pid, this.run := pid, run;
      job, listed, dead, saved, kills := None, false, false, TaskRunning, 0;
    }

    // go_to_heaven
    method GoToHeaven()
      modifies this`run, this`dead, this`kills
      ensures dead && kills == old(kills) + (if old(dead) then 0 else 1)
      ensures run == if old(dead) then old(run) else saved
    {
      if dead { return; }
      run := saved;
      dead := true;
      kills := kills + 1;
    }
  }

  // ---------- lists ----------

  predicate NoDup<T(==)>(q: seq<T>) { forall i, k :: 0 <= i < k < |q| ==> q[i] != q[k] }

  // list_del: the first occurrence goes, the rest keeps its order.
  lemma {:induction false} WithoutAt<T>(q: seq<T>, x: T) returns (i: nat)
    ensures i <= |q| && forall k :: 0 <= k < i ==> q[k] != x
    ensures if i < |q| then q[i] == x && Without(q, x) == q[..i] + q[i + 1..] else Without(q, x) == q
  {
    i := 0;
    if q != [] && q[0] != x {
      i := WithoutAt(q[1..], x);
      if i < |q| - 1 { assert q[..i + 1] + q[i + 2..] == [q[0]] + (q[1..][..i] + q[1..][i + 1..]); }
      i := i + 1;
    }
  }
  lemma WithoutDrops<T>(q: seq<T>, x: T)
    requires NoDup(q)
    ensures NoDup(Without(q, x)) && x !in Without(q, x)
    ensures forall k :: 0 <= k < |Without(q, x)| ==> Without(q, x)[k] in q
    ensures forall k :: 0 <= k < |q| && q[k] != x ==> q[k] in Without(q, x)
  {
    var i := WithoutAt(q, x);
    var w := Without(q, x);
    hide Without;
    forall k | 0 <= k < |q| && q[k] != x ensures q[k] in w {
      if i < |q| { assert w[if k < i then k else k - 1] == q[k]; }
    }
  }

  // ---------- the thread table ----------

  // The table holds exactly the threads of s, each once, each in the slot of its pid modulo the size.
  ghost predicate TableIs(t: seq<seq<Thread>>, s: set<Thread>) {
    && |t| > 0
    && (forall i :: 0 <= i < |t| ==> NoDup(t[i]))
    && (forall i, k :: 0 <= i < |t| && 0 <= k < |t[i]| ==> t[i][k] in s && t[i][k].pid % |t| == i)
    && (forall th :: th in s ==> th in t[th.pid % |t|])
  }
  // __attach_to_job links an entry only if it is not linked; list_del_init of an unlinked entry does nothing.
  function Added(t: seq<seq<Thread>>, th: Thread): seq<seq<Thread>>
    requires |t| > 0
  {
    var i := th.pid % |t|;
    if th in t[i] then t else t[i := t[i] + [th]]
  }
  function Removed(t: seq<seq<Thread>>, th: Thread): seq<seq<Thread>>
    requires |t| > 0
  {
    var i := th.pid % |t|;
    t[i := Without(t[i], th)]
  }

  lemma AddedIs(t: seq<seq<Thread>>, s: set<Thread>, th: Thread)
    requires TableIs(t, s)
    ensures TableIs(Added(t, th), s + {th})
  {
    var i := th.pid % |t|;
    var u := Added(t, th);
    forall x | x in s + {th} ensures x in u[x.pid % |t|] {
      if x != th { assert x in t[x.pid % |t|]; }
    }
  }
  lemma RemovedIs(t: seq<seq<Thread>>, s: set<Thread>, th: Thread)
    requires TableIs(t, s)
    ensures TableIs(Removed(t, th), s - {th})
  {
    var i := th.pid % |t|;
    var u := Removed(t, th);
    WithoutDrops(t[i], th);
    assert u[i] == Without(t[i], th);
    forall k, m | 0 <= k < |u| && 0 <= m < |u[k]| ensures u[k][m] in s - {th} && u[k][m].pid % |t| == k {
      var x := u[k][m];
      assert x in u[k];
      if k == i {
        assert x == Without(t[i], th)[m];
        assert x in t[i] && x != th;
        var n :| 0 <= n < |t[i]| && t[i][n] == x;
      }
    }
    forall x | x in s - {th} ensures x in u[x.pid % |t|] { assert x in t[x.pid % |t|]; }
  }
  // In a table that agrees with a set, a thread is in one place at most, and in one if it is a member.
  predicate Stands(t: seq<seq<Thread>>, i: int, k: int, th: Thread) {
    0 <= i < |t| && 0 <= k < |t[i]| && t[i][k] == th
  }
  lemma OnePlaceOnly(t: seq<seq<Thread>>, s: set<Thread>, th: Thread)
    requires TableIs(t, s)
    ensures forall i, k, i', k' :: Stands(t, i, k, th) && Stands(t, i', k', th) ==> i == i' && k == k'
    ensures th in s <==> exists k :: Stands(t, th.pid % |t|, k, th)
  {
    forall i, k, i', k' | Stands(t, i, k, th) && Stands(t, i', k', th) ensures i == i' && k == k' {
      assert i == t[i][k].pid % |t| == i';
      assert NoDup(t[i]);
    }
    if th in s {
      var i := th.pid % |t|;
      var k :| 0 <= k < |t[i]| && t[i][k] == th;
      assert Stands(t, i, k, th);
    }
  }
  lemma Inhabited(t: seq<seq<Thread>>, s: set<Thread>, i: nat)
    requires TableIs(t, s) && i < |t|
    ensures t[i] != [] ==> s != {}
  {
    if t[i] != [] { assert t[i][0] in s; }
  }

  lemma SomeMember(q: seq<Thread>, s: set<Thread>)
    requires forall th :: th in q ==> th in s
    ensures q != [] ==> s != {}
  {
    if q != [] { assert q[0] in s; }
  }

  datatype TableOp = Attach(th: Thread) | Detach(th: Thread)

  function TableAfter(t: seq<seq<Thread>>, ops: seq<TableOp>): seq<seq<Thread>>
    requires |t| > 0
    decreases |ops|
  {
    if ops == [] then t
    else TableAfter(match ops[0] case Attach(th) => Added(t, th) case Detach(th) => Removed(t, th), ops[1..])
  }
  function MembersAfter(s: set<Thread>, ops: seq<TableOp>): set<Thread>
    decreases |ops|
  {
    if ops == [] then s
    else MembersAfter(match ops[0] case Attach(th) => s + {th} case Detach(th) => s - {th}, ops[1..])
  }
  // After any sequence of attaches and detaches the table agrees with the plain set of members.
  lemma {:induction false} TableAgrees(t: seq<seq<Thread>>, s: set<Thread>, ops: seq<TableOp>)
    requires TableIs(t, s)
    ensures TableIs(TableAfter(t, ops), MembersAfter(s, ops))
    decreases |ops|
  {
    if ops != [] {
      AddedIs(t, s, ops[0].th);
      RemovedIs(t, s, ops[0].th);
      match ops[0] {
        case Attach(th) => TableAgrees(Added(t, th), s + {th}, ops[1..]);
        case Detach(th) => TableAgrees(Removed(t, th), s - {th}, ops[1..]);
      }
    }
  }

  // Who is left on a queue by wake_up: waiters that were not asleep.
  function StillAwake(q: seq<Thread>): (r: seq<Thread>)
    reads (set th | th in q)`run
    ensures forall th :: th in r ==> th in q && !Sleeping(th.run)
    ensures forall th :: th in q && !Sleeping(th.run) ==> th in r
    ensures NoDup(q) ==> NoDup(r)
  {
    if q == [] then []
    else
      var r := StillAwake(q[..|q| - 1]);
      var th := q[|q| - 1];
      if Sleeping(th.run) then r else r + [th]
  }

  // ... in the order in which they stood there.
  lemma {:induction false} StillAwakeSplits(a: seq<Thread>, b: seq<Thread>)
    ensures StillAwake(a + b) == StillAwake(a) + StillAwake(b)
    decreases |b|
  {
    if b == [] {
      assert a + b == a;
    } else {
      var n := |b| - 1;
      assert (a + b)[..|a + b| - 1] == a + b[..n];
      StillAwakeSplits(a, b[..n]);
    }
  }
  lemma OneAwake(th: Thread)
    ensures StillAwake([th]) == if Sleeping(th.run) then [] else [th]
  {
    assert [th][..0] == [];
  }
  function Runs(q: seq<Thread>): (r: seq<RunState>)
    reads (set th | th in q)`run
    ensures |r| == |q| && forall i :: 0 <= i < |q| ==> r[i] == q[i].run
  {
    if q == [] then [] else Runs(q[..|q| - 1]) + [q[|q| - 1].run]
  }

  /** A job: its thread table, its reference count, its state and the queue of suspended threads. */
  class Job {
    var id: int
    var state: JobState
    var alive: int
    const table: array<seq<Thread>>
    var suspended: seq<Thread>
    ghost var members: set<Thread>

    ghost predicate Valid()
      reads this`members, this`suspended, table, members`listed, members`job
    {
      && TableIs(table[..], members)
      && (forall th :: th in members ==> th.listed && th.job == Some(this))
      && NoDup(suspended) && (forall th :: th in suspended ==> th in members)
    }

    // __ya_init_job up to the zone lock: all slots empty, then the creating thread attached.
    constructor (size: nat, first: Thread)
      requires size > 0 && !first.listed
      modifies first`job, first`listed
      ensures Valid() && fresh(table) && table.Length == size && members == {first}
      ensures table[..] == Added(seq(size, _ => []), first)
      ensures state == RUNNING && alive == 1 && suspended == []
    {
      table := new seq<Thread>[size];
      state, alive, suspended := RUNNING, 1, [];
      id, members := -1, {};
      new;
      var i := 0;
      while i < size
        invariant 0 <= i <= size
        invariant forall k :: 0 <= k < i ==> table[k] == []
        invariant members == {} && suspended == [] && state == RUNNING && alive == 1
        modifies table
      {
        table[i] := [];
        i := i + 1;
      }
      assert table[..] == seq(size, _ => []);
      AttachThread(first);
    }

    // __attach_to_job
    method AttachThread(th: Thread)
      requires Valid() && (th.listed ==> th in members)
      modifies table, this`members, th`job, th`listed
      ensures Valid() && members == old(members) + {th} && table[..] == Added(old(table[..]), th)
      ensures th in table[th.pid % table.Length]
      ensures !old(th.listed) ==> table[th.pid % table.Length] == old(table[th.pid % table.Length]) + [th]
      ensures forall i :: 0 <= i < table.Length && i != th.pid % table.Length ==> table[i] == old(table[i])
    {
      ghost var t := table[..];
      AddedIs(t, members, th);
      var slot := th.pid % table.Length;
      assert th.listed <==> th in t[slot] by { if th in t[slot] { var k :| 0 <= k < |t[slot]| && t[slot][k] == th; } }
      th.job := Some(this);
      if !th.listed {
        table[slot] := table[slot] + [th];
        th.listed := true;
      }
      members := members + {th};
    }

    // __detach_from_job, which finds the slot by the pid of current; it is the slot that holds the
    // entry because current is the thread itself. A waiter must not be detached.
    method DetachThread(th: Thread, current: nat) returns (locked: nat)
      requires Valid() && th in members && th !in suspended && current == th.pid
      modifies table, this`members, th`listed
      ensures Valid() && members == old(members) - {th} && table[..] == Removed(old(table[..]), th) && !th.listed
      ensures locked == current % table.Length && locked < table.Length && th in old(table[..])[locked]
      ensures forall i :: 0 <= i < table.Length ==> th !in table[i]
    {
      ghost var t := table[..];
      RemovedIs(t, members, th);
      locked := current % table.Length;
      WithoutDrops(table[locked], th);
      table[locked] := Without(table[locked], th);
      th.listed := false;
      members := members - {th};
      assert table[..] == Removed(t, th);
      forall i | 0 <= i < table.Length ensures th !in table[i] { assert table[i] == table[..][i]; }
    }

    lemma NobodyListed()
      requires Valid() && members == {}
      ensures suspended == [] && forall i :: 0 <= i < table.Length ==> table[i] == []
    {
      SomeMember(suspended, members);
      forall i | 0 <= i < table.Length ensures table[i] == [] {
        Inhabited(table[..], members, i);
      }
    }

    // go_to_bed: prepare_to_wait links the waiter once, in front.
    method GoToBed(th: Thread)
      requires Valid() && th in members
      modifies this`suspended, th`run
      ensures Valid() && th.run == TaskInterruptible
      ensures suspended == if th in old(suspended) then old(suspended) else [th] + old(suspended)
    {
      if th !in suspended { suspended := [th] + suspended; }
      th.run := TaskInterruptible;
    }
    // get_up: finish_wait, then the state saved on the way in.
    method GetUp(th: Thread)
      requires Valid()
      modifies this`suspended, th`run
      ensures Valid() && th.run == th.saved && suspended == Without(old(suspended), th) && th !in suspended
    {
      WithoutDrops(suspended, th);
      suspended := Without(suspended, th);
      th.run := TaskRunning;
      th.run := th.saved;
    }

    // wake_up: every sleeping waiter is made runnable and taken off, no other.
    method WakeUp()
      requires NoDup(suspended)
      modifies this`suspended, (set th | th in suspended)`run
      ensures suspended == old(StillAwake(suspended))
      ensures forall th :: th in old(suspended) ==> th.run == if Sleeping(old(th.run)) then TaskRunning else old(th.run)
    {
      ghost var q := suspended;
      var rest: seq<Thread> := [];
      var i := 0;
      while i < |suspended|
        invariant 0 <= i <= |suspended| && suspended == q
        invariant rest == old(StillAwake(q[..i]))
        invariant forall k :: 0 <= k < i ==> q[k].run == if Sleeping(old(q[k].run)) then TaskRunning else old(q[k].run)
        invariant forall k :: i <= k < |q| ==> q[k].run == old(q[k].run)
      {
        assert q[..i + 1][..i] == q[..i];
        if Sleeping(suspended[i].run) {
          suspended[i].run := TaskRunning;
        } else {
          rest := rest + [suspended[i]];
        }
        i := i + 1;
      }
      assert q[..i] == q;
      suspended := rest;
    }

    // What one administrator's operation does to a job that was in state `prev`, with the queue q and
    // the states `runs` of its waiters, of whom `rest` were not asleep.
    ghost predicate Administered(op: AdminOp, prev: JobState, q: seq<Thread>, runs: seq<RunState>, rest: seq<Thread>)
      reads this`state, this`suspended, (set th | th in q)`run
    {
      && |runs| == |q| && state == AdminNext(op, prev)
      && suspended == (if AdminWakes(op, prev) then rest else q)
      && forall i :: 0 <= i < |q| ==>
           q[i].run == if AdminWakes(op, prev) && Sleeping(runs[i]) then TaskRunning else runs[i]
    }
    ghost predicate Same(prev: JobState, q: seq<Thread>, runs: seq<RunState>)
      reads this`state, this`suspended, (set th | th in q)`run
    {
      state == prev && suspended == q && Runs(q) == runs
    }
    // __kill_job, __suspend_job and __resume_job
    method Kill() returns (ret: int)
      requires Valid()
      modifies this`state, this`suspended, (set th | th in suspended)`run
      ensures Valid() && ret == 0
      ensures Administered(L.Kill, old(state), old(suspended), old(Runs(suspended)), old(StillAwake(suspended)))
    {
      var prev := state;
      state := KILLED;
      if prev == SUSPENDED { WakeUp(); }
      return 0;
    }
    method Suspend() returns (ret: int)
      requires Valid()
      modifies this`state
      ensures Valid() && ret == 0
      ensures Administered(L.Suspend, old(state), old(suspended), old(Runs(suspended)), old(StillAwake(suspended)))
    {
      state := SUSPENDED;
      return 0;
    }
    method Resume() returns (ret: int)
      requires Valid()
      modifies this`state, this`suspended, (set th | th in suspended)`run
      ensures Valid() && ret == 0
      ensures Administered(L.Resume, old(state), old(suspended), old(Runs(suspended)), old(StillAwake(suspended)))
    {
      if state == SUSPENDED {
        state := RUNNING;
        WakeUp();
      }
      return 0;
    }
  }

  function Waiters(jobs: seq<Job>): set<Thread>
    reads (set j | j in jobs)`suspended
  {
    set j, th | j in jobs && th in j.suspended :: th
  }

  // Strictly increasing ids, and no shared table.
  predicate Ordered(q: seq<Job>)
    reads (set j | j in q)`id
  {
    forall i, k :: 0 <= i < k < |q| ==> q[i].id < q[k].id && q[i].table != q[k].table
  }
  lemma OrderedNoDup(q: seq<Job>)
    requires Ordered(q)
    ensures NoDup(q)
  {
  }
  lemma WithoutOrdered(q: seq<Job>, x: Job)
    requires Ordered(q)
    ensures Ordered(Without(q, x))
    ensures forall k :: 0 <= k < |Without(q, x)| ==> Without(q, x)[k] in q
  {
    var i := WithoutAt(q, x);
    hide Without;
  }

  /** The one zone: the list of jobs, in the order of their ids. */
  class Zone {
    var jobs: seq<Job>
    var maxJid: int

    ghost predicate Valid()
      reads this, set j | j in jobs, set j | j in jobs :: j.table
      reads (set j, th | j in jobs && th in j.members :: th)`listed
      reads (set j, th | j in jobs && th in j.members :: th)`job
    {
      && (forall j :: j in jobs ==> j.Valid() && j.id <= maxJid)
      && Ordered(jobs)
    }

    // __init_zone
    constructor ()
      ensures Valid() && jobs == [] && maxJid == -1
    {
      jobs, maxJid := [], -1;
    }

    // search_job_by_id
    method SearchJobById(jid: int) returns (r: Option<Job>)
      requires Valid()
      ensures forall j :: j in jobs ==> (j.id == jid <==> r == Some(j))
      ensures r.Some? ==> r.value in jobs
    {
      var i := 0;
      while i < |jobs|
        invariant 0 <= i <= |jobs|
        invariant forall k :: 0 <= k < i ==> jobs[k].id != jid
      {
        if jobs[i].id == jid {
          return Some(jobs[i]);
        }
        i := i + 1;
      }
      return None;
    }

    // __ya_init_job under the zone lock.
    method NewJob(job: Job)
      requires Valid() && job !in jobs && job.Valid() && forall j :: j in jobs ==> j.table != job.table
      modifies this, job`id
      ensures Valid() && jobs == old(jobs) + [job] && maxJid == old(maxJid) + 1 == job.id
    {
      maxJid := maxJid + 1;
      job.id := maxJid;
      jobs := jobs + [job];
    }

    // ya_del_job up to the free: unlinked, with nobody waiting and nobody attached.
    method DelJob(job: Job)
      requires Valid() && job in jobs && job.members == {} && job.suspended == []
      modifies this`jobs
      ensures Valid() && jobs == Without(old(jobs), job) && job !in jobs
      ensures forall i :: 0 <= i < job.table.Length ==> job.table[i] == []
    {
      job.NobodyListed();
      WithoutOrdered(jobs, job);
      OrderedNoDup(jobs);
      WithoutDrops(jobs, job);
      hide TableIs, NoDup, Ordered;
      jobs := Without(jobs, job);
    }

    // put_thread
    method PutThread(job: Job)
      requires Valid() && job in jobs && (job.alive == 1 ==> job.members == {} && job.suspended == [])
      modifies this`jobs, job`alive
      ensures Valid() && job.alive == old(job.alive) - 1
      ensures jobs == if job.alive == 0 then Without(old(jobs), job) else old(jobs)
    {
      job.alive := job.alive - 1;
      if job.alive == 0 { DelJob(job); }
    }

    lemma Apart(job: Job, th: Thread)
      requires Valid() && job in jobs && th in job.members
      ensures forall j :: j in jobs && j != job ==> th !in j.members && j.table != job.table
    {
      var i :| 0 <= i < |jobs| && jobs[i] == job;
      forall j | j in jobs && j != job ensures th !in j.members && j.table != job.table {
        var k :| 0 <= k < |jobs| && jobs[k] == j;
      }
    }

    // ya_del_thread: detach, then give back the reference.
    method DelThread(job: Job, th: Thread, current: nat)
      requires Valid() && job in jobs && th in job.members && th !in job.suspended && current == th.pid
      requires job.alive >= |job.members|
      modifies this`jobs, job`alive, job`members, job.table, th`listed
      ensures Valid() && job.alive == old(job.alive) - 1 && job.members == old(job.members) - {th}
      ensures jobs == if job.alive == 0 then Without(old(jobs), job) else old(jobs)
    {
      ghost var ms := job.members;
      Apart(job, th);
      hide TableIs, NoDup, Ordered, Added, Removed, Without;
      var locked := job.DetachThread(th, current);
      assert |job.members| == |ms| - 1;
      if job.alive == 1 { job.NobodyListed(); }
      PutThread(job);
    }

    // kill_job, suspend_job and resume_job: the one job with this id, or -EINVAL and nothing at all.
    method KillJob(zid: int, jid: int) returns (ret: int)
      requires Valid()
      modifies (set j | j in jobs)`state, (set j | j in jobs)`suspended, Waiters(jobs)`run
      ensures Valid()
      ensures ret == if zid == 0 && exists j :: j in jobs && j.id == jid then 0 else -EINVAL
      ensures forall j :: j in jobs && zid == 0 && j.id == jid ==>
        j.Administered(L.Kill, old(j.state), old(j.suspended), old(Runs(j.suspended)), old(StillAwake(j.suspended)))
      ensures forall j :: j in jobs && !(zid == 0 && j.id == jid) ==>
        j.Same(old(j.state), old(j.suspended), old(Runs(j.suspended)))
    {
      hide TableIs, NoDup, StillAwake, Runs, AdminNext, AdminWakes;
      if zid != 0 { return -EINVAL; }
      var r := SearchJobById(jid);
      if r == None { return -EINVAL; }
      ret := r.value.Kill();
    }
    method SuspendJob(zid: int, jid: int) returns (ret: int)
      requires Valid()
      modifies (set j | j in jobs)`state
      ensures Valid()
      ensures ret == if zid == 0 && exists j :: j in jobs && j.id == jid then 0 else -EINVAL
      ensures forall j :: j in jobs && zid == 0 && j.id == jid ==>
        j.Administered(L.Suspend, old(j.state), old(j.suspended), old(Runs(j.suspended)), old(StillAwake(j.suspended)))
      ensures forall j :: j in jobs && !(zid == 0 && j.id == jid) ==>
        j.Same(old(j.state), old(j.suspended), old(Runs(j.suspended)))
    {
      hide TableIs, NoDup, StillAwake, Runs, AdminNext, AdminWakes;
      if zid != 0 { return -EINVAL; }
      var r := SearchJobById(jid);
      if r == None { return -EINVAL; }
      ret := r.value.Suspend();
    }
    method ResumeJob(zid: int, jid: int) returns (ret: int)
      requires Valid()
      modifies (set j | j in jobs)`state, (set j | j in jobs)`suspended, Waiters(jobs)`run
      ensures Valid()
      ensures ret == if zid == 0 && exists j :: j in jobs && j.id == jid then 0 else -EINVAL
      ensures forall j :: j in jobs && zid == 0 && j.id == jid ==>
        j.Administered(L.Resume, old(j.state), old(j.suspended), old(Runs(j.suspended)), old(StillAwake(j.suspended)))
      ensures forall j :: j in jobs && !(zid == 0 && j.id == jid) ==>
        j.Same(old(j.state), old(j.suspended), old(Runs(j.suspended)))
    {
      hide TableIs, NoDup, StillAwake, Runs, AdminNext, AdminWakes;
      if zid != 0 { return -EINVAL; }
      var r := SearchJobById(jid);
      if r == None { return -EINVAL; }
      ret := r.value.Resume();
    }
  }
}
