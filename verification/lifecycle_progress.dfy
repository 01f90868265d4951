/** Administration over whole runs: the history of a job's state, kills that reach every thread, pinned jobs. */
module LifecycleProgress {
  import opened Options
  import opened Lifecycle
  import opened LifecycleInvariant
  import opened LifecycleSteps
  import opened LifecycleTheorems

  // ---------- a job's state is the history of what administrators wrote ----------

  function Fold(st: JobState, ops: seq<AdminOp>): JobState
    decreases |ops|
  {
    if ops == [] then st else AdminNext(ops[|ops| - 1], Fold(st, ops[..|ops| - 1]))
  }

  // The operations written to job j during a run, in order.
  function Written(s: State, es: seq<Event>, j: Ref): seq<AdminOp>
    decreases |es|
  {
    if es == [] then []
    else
      (if es[0].AdminWrite? && s.lock.ByAdmin? && s.lock.pc.Read? && s.lock.pc.h == j then [s.lock.pc.op] else [])
      + Written(Apply(s, es[0]), es[1..], j)
  }

  lemma {:induction false} FoldSplit(st: JobState, a: seq<AdminOp>, b: seq<AdminOp>)
    ensures Fold(st, a + b) == Fold(Fold(st, a), b)
    decreases |b|
  {
    if b == [] {
      assert a + b == a;
    } else {
      var b' := b[..|b| - 1];
      FoldSplit(st, a, b');
      assert (a + b)[..|a + b| - 1] == a + b';
    }
  }

  // Only an administrator's write changes a job's state.
  ghost predicate SameStates(s: State, m: State) {
    forall j :: j in s.jobs && j in m.jobs ==> m.jobs[j].state == s.jobs[j].state
  }
  lemma OnlyAdminsWrite(s: State, e: Event)
    requires Inv(s) && !e.AdminWrite?
    ensures SameStates(s, Apply(s, e))
  {
    if e.ExecCreate? { FreshRef(s); }
    else if SchedEvent(e) { SchedSameStates(s, e); }
    else if !AdminEvent(e) { OtherSameStates(s, e); }
  }
  lemma SchedSameStates(s: State, e: Event)
    requires SchedEvent(e)
    ensures SameStates(s, Apply(s, e))
  {
    hide Apply;
    Framed(s, e);
  }
  lemma OtherSameStates(s: State, e: Event)
    requires !SchedEvent(e) && !AdminEvent(e) && !e.ExecCreate?
    ensures SameStates(s, Apply(s, e))
  {
  }

  lemma WrittenFirst(s: State, es: seq<Event>, j: Ref)
    requires es != []
    ensures Written(s, es, j) == Written(s, [es[0]], j) + Written(Apply(s, es[0]), es[1..], j)
  {
    hide Apply;
    assert [es[0]][1..] == [];
  }
  // In any interleaving, the state of a job is what its own operations, in order, make of it.
  lemma {:induction false} StateIsHistory(s: State, es: seq<Event>, j: Ref)
    requires Inv(s) && j in s.jobs && j in Exec(s, es).jobs
    ensures Exec(s, es).jobs[j].state == Fold(s.jobs[j].state, Written(s, es, j))
    decreases |es|
  {
    if es != [] {
      var m := Apply(s, es[0]);
      Step(s, es[0]);
      JobsStep(s, es[0]);
      assert JobOk(s, j);
      if j !in m.jobs { FreedForGood(m, es[1..], j); }
      HistoryStep(s, es[0], j);
      hide Inv, Apply, Fold, Written;
      StateIsHistory(m, es[1..], j);
      var w := Written(s, [es[0]], j);
      WrittenFirst(s, es, j);
      FoldSplit(s.jobs[j].state, w, Written(m, es[1..], j));
    }
  }
  lemma HistoryStep(s: State, e: Event, j: Ref)
    requires Inv(s) && j in s.jobs && j in Apply(s, e).jobs
    ensures Apply(s, e).jobs[j].state == Fold(s.jobs[j].state, Written(s, [e], j))
  {
    if !e.AdminWrite? { OnlyAdminsWrite(s, e); }
    var w := Written(s, [e], j);
    assert [e][1..] == [] && (w != [] ==> w[..0] == []);
  }

  // ops[i] and only resumes after it.
  predicate LastStrong(ops: seq<AdminOp>, i: int) {
    0 <= i < |ops| && ops[i] != Resume && forall k :: i < k < |ops| ==> ops[k] == Resume
  }

  // KILLED iff the last kill-or-suspend was a kill, SUSPENDED iff the very last operation was a suspend.
  lemma {:induction false} HistoryClosedForm(ops: seq<AdminOp>)
    ensures Fold(RUNNING, ops) == KILLED <==> exists i :: LastStrong(ops, i) && ops[i] == Kill
    ensures Fold(RUNNING, ops) == SUSPENDED <==> ops != [] && ops[|ops| - 1] == Suspend
    decreases |ops|
  {
    if ops != [] {
      var n := |ops| - 1;
      var p := ops[..n];
      HistoryClosedForm(p);
      if ops[n] == Resume {
        forall i ensures LastStrong(ops, i) <==> LastStrong(p, i) {
          if LastStrong(p, i) {
            forall k | i < k < |ops| ensures ops[k] == Resume { assert k < n ==> p[k] == ops[k]; }
          }
          if LastStrong(ops, i) {
            forall k | i < k < |p| ensures p[k] == Resume { assert p[k] == ops[k]; }
          }
        }
        assert forall i :: LastStrong(p, i) ==> p[i] == ops[i];
      } else {
        assert LastStrong(ops, n);
        assert forall i :: LastStrong(ops, i) ==> i == n;
      }
    }
  }

  // A job that does not exist yet is created RUNNING, and nobody has written to it.
  lemma BornStep(s: State, e: Event, j: Ref)
    requires Inv(s) && j !in s.jobs
    ensures Written(s, [e], j) == []
    ensures j in Apply(s, e).jobs ==> Apply(s, e).jobs[j].state == RUNNING
  {
    JobsStep(s, e);
    if SchedEvent(e) { SchedSameList(s, e); }
    else if AdminEvent(e) { AdminSameList(s, e); }
    else if !e.ExecCreate? && !e.DelFree? && !e.ExecAppend? && !e.DelUnlink? { OtherSameList(s, e); }
  }
  lemma {:induction false} BornRunning(s: State, es: seq<Event>, j: Ref)
    requires Inv(s) && j !in s.jobs && j in Exec(s, es).jobs
    ensures Exec(s, es).jobs[j].state == Fold(RUNNING, Written(s, es, j))
    decreases |es|
  {
    hide Inv, Apply, Fold, Written;
    if es != [] {
      var m := Apply(s, es[0]);
      Step(s, es[0]);
      BornStep(s, es[0], j);
      WrittenFirst(s, es, j);
      assert Written(s, es, j) == Written(m, es[1..], j);
      if j in m.jobs { StateIsHistory(m, es[1..], j); } else { BornRunning(m, es[1..], j); }
    }
  }
  // So in every reachable state a job is killed, suspended or running by its own history alone.
  lemma StateInClosedForm(es: seq<Event>, j: Ref)
    requires j in Exec(Init, es).jobs
    ensures var st, ops := Exec(Init, es).jobs[j].state, Written(Init, es, j);
      && st == Fold(RUNNING, ops)
      && (st == KILLED <==> exists i :: LastStrong(ops, i) && ops[i] == Kill)
      && (st == SUSPENDED <==> ops != [] && ops[|ops| - 1] == Suspend)
  {
    assert Inv(Init);
    BornRunning(Init, es, j);
    HistoryClosedForm(Written(Init, es, j));
  }

  // Resumes alone never revive a killed job; a suspend followed by a resume does.
  lemma {:induction false} ResumesDoNotRevive(ops: seq<AdminOp>)
    requires forall i :: 0 <= i < |ops| ==> ops[i] == Resume
    ensures Fold(KILLED, ops) == KILLED && Fold(KILLED, [Suspend, Resume] + ops) == RUNNING
    decreases |ops|
  {
    var two := [Suspend, Resume];
    assert two[..1] == [Suspend] && [Suspend][..0] == [];
    if ops == [] {
      assert two + ops == two;
    } else {
      var p := ops[..|ops| - 1];
      ResumesDoNotRevive(p);
      assert (two + ops)[..|two + ops| - 1] == two + p;
    }
  }

  // ---------- kills ----------

  // Whose step an event is; a wake-up is somebody else's.
  predicate OwnStep(e: Event, t: Tid) {
    match e
    case Spawn(u) => u == t
    case SetRun(u, _) => u == t
    case Wakeup(_) => false
    case ExecCreate(u) => u == t case ExecLock(u) => u == t case ExecAppend(u) => u == t
    case ExecUnlock(u) => u == t case ExecPublish(u) => u == t
    case ForkBegin(u) => u == t case ForkChild(u, _) => u == t case ForkOk(u) => u == t case ForkFail(u) => u == t
    case Tail(u, _) => u == t
    case ExitBegin(u) => u == t case ExitFree(u) => u == t case ExitDrop(u) => u == t
    case DelLock(u) => u == t case DelUnlink(u) => u == t case DelUnlock(u) => u == t case DelFree(u) => u == t
    case Die(u) => u == t
    case Begin(u) => u == t case Bed(u) => u == t case Look(u) => u == t case Settle(u) => u == t
    case Restore(u) => u == t case Heaven(u) => u == t case LeaveCheck(u) => u == t case LeaveUp(u) => u == t
    case _ => false
  }

  // Nobody else moves a task's program points, entry or membership; at most it is made runnable.
  ghost predicate OnlyRun(s: State, m: State, t: Tid) {
    t in s.tasks && t in m.tasks && m.tasks[t] == s.tasks[t].(run := m.tasks[t].run)
    && (m.tasks[t].run == s.tasks[t].run || m.tasks[t].run == TaskRunning)
  }
  lemma OthersLeaveAlone(s: State, e: Event, t: Tid)
    requires t in s.tasks && !OwnStep(e, t)
    ensures OnlyRun(s, Apply(s, e), t)
  {
    if SchedEvent(e) { SchedLeaveAlone(s, e, t); }
    else if AdminEvent(e) { AdminLeaveAlone(s, e, t); }
    else { LifeLeaveAlone(s, e, t); }
  }
  lemma SchedLeaveAlone(s: State, e: Event, t: Tid)
    requires t in s.tasks && !OwnStep(e, t) && SchedEvent(e)
    ensures OnlyRun(s, Apply(s, e), t)
  {
    hide Apply;
    Framed(s, e);
  }
  lemma AdminLeaveAlone(s: State, e: Event, t: Tid)
    requires t in s.tasks && AdminEvent(e)
    ensures OnlyRun(s, Apply(s, e), t)
  {
  }
  lemma LifeLeaveAlone(s: State, e: Event, t: Tid)
    requires t in s.tasks && !OwnStep(e, t) && !SchedEvent(e) && !AdminEvent(e)
    ensures OnlyRun(s, Apply(s, e), t)
  {
    hide OnlyRun;
    if ForkEvent(e) { ForkLeaveAlone(s, e, t); } else { RestLeaveAlone(s, e, t); }
  }
  lemma ForkLeaveAlone(s: State, e: Event, t: Tid)
    requires t in s.tasks && !OwnStep(e, t) && ForkEvent(e)
    ensures OnlyRun(s, Apply(s, e), t)
  {
  }
  lemma RestLeaveAlone(s: State, e: Event, t: Tid)
    requires t in s.tasks && !OwnStep(e, t) && !SchedEvent(e) && !AdminEvent(e) && !ForkEvent(e)
    ensures OnlyRun(s, Apply(s, e), t)
  {
  }

  // ---------- who wakes whom ----------

  // The wake_up of the queue of t's own job.
  predicate WakesJobOf(s: State, e: Event, t: Tid) {
    && e.AdminWake? && s.lock.ByAdmin? && s.lock.pc.WakePending?
    && t in s.tasks && s.tasks[t].entry.Some? && s.tasks[t].entry.value.job == s.lock.pc.h
  }
  lemma ForkKeepsOthers(s: State, e: Event, t: Tid)
    requires t in s.tasks && !OwnStep(e, t) && ForkEvent(e)
    ensures t in Apply(s, e).tasks && Apply(s, e).tasks[t] == s.tasks[t]
  {
  }
  lemma RestKeepsOthers(s: State, e: Event, t: Tid)
    requires t in s.tasks && !OwnStep(e, t) && e != Wakeup(t) && !SchedEvent(e) && !AdminEvent(e) && !ForkEvent(e)
    ensures t in Apply(s, e).tasks && Apply(s, e).tasks[t] == s.tasks[t]
  {
  }
  lemma AdminKeepsOthers(s: State, e: Event, t: Tid)
    requires Inv(s) && t in s.tasks && AdminEvent(e) && !WakesJobOf(s, e, t)
    ensures t in Apply(s, e).tasks && Apply(s, e).tasks[t] == s.tasks[t]
  {
    if e.AdminWake? && s.lock.ByAdmin? && s.lock.pc.WakePending? { assert JobOk(s, s.lock.pc.h); }
  }
  // A task is changed by its own steps, by a wake-up meant for it, and by the wake_up of its own job,
  // and by nothing else.
  lemma NobodyElse(s: State, e: Event, t: Tid)
    requires Inv(s) && t in s.tasks && !OwnStep(e, t) && e != Wakeup(t) && !WakesJobOf(s, e, t)
    ensures t in Apply(s, e).tasks && Apply(s, e).tasks[t] == s.tasks[t]
  {
    hide Inv, Apply;
    if SchedEvent(e) { Framed(s, e); }
    else if AdminEvent(e) { AdminKeepsOthers(s, e, t); }
    else if ForkEvent(e) { ForkKeepsOthers(s, e, t); }
    else { RestKeepsOthers(s, e, t); }
  }
  // None of these happens to t during a run.
  predicate Unwoken(s: State, es: seq<Event>, t: Tid)
    decreases |es|
  {
    es == [] ||
    (!OwnStep(es[0], t) && es[0] != Wakeup(t) && !WakesJobOf(s, es[0], t) && Unwoken(Apply(s, es[0]), es[1..], t))
  }
  lemma {:induction false} NobodyElseRun(s: State, es: seq<Event>, t: Tid)
    requires Inv(s) && t in s.tasks && Unwoken(s, es, t)
    ensures t in Exec(s, es).tasks && Exec(s, es).tasks[t] == s.tasks[t]
    decreases |es|
  {
    hide Inv, Apply;
    if es != [] {
      Step(s, es[0]);
      NobodyElse(s, es[0], t);
      NobodyElseRun(Apply(s, es[0]), es[1..], t);
    }
  }
  // A committed sleeper sleeps on, queued on a job that is suspended or about to wake it, until its own
  // job's queue is woken or somebody wakes it in person.
  lemma SleepsUntilWoken(es: seq<Event>, more: seq<Event>, t: Tid)
    requires t in Exec(Init, es).tasks && Committed(Exec(Init, es).tasks[t]) && Unwoken(Exec(Init, es), more, t)
    ensures var s, m := Exec(Init, es), Exec(Init, es + more);
      && t in m.tasks && m.tasks[t] == s.tasks[t] && m.tasks[t].entry.Some?
      && var j := m.tasks[t].entry.value.job;
         j in m.jobs && t in m.jobs[j].queue && (m.jobs[j].state == SUSPENDED || m.lock == ByAdmin(WakePending(j)))
  {
    hide Inv, Apply, Exec;
    Reachable(es);
    ExecSplit(Init, es, more);
    NobodyElseRun(Exec(Init, es), more, t);
    NoLostWakeup(es + more, t);
  }

  predicate InJob(s: State, t: Tid, j: Ref) {
    t in s.tasks && s.tasks[t].attached && s.tasks[t].entry.Some? && s.tasks[t].entry.value.job == j
  }
  predicate DeadlyPc(pc: SchedPc) {
    pc == Saved || pc == Queued || pc == Saw(KILLED) || pc == Raised(KILLED) || pc == Doomed
  }
  // Dead already, or inside a hook that can only end dead if the job is killed.
  predicate Passing(s: State, t: Tid, j: Ref) {
    InJob(s, t, j) &&
    (s.tasks[t].entry.value.dead
     || DeadlyPc(s.tasks[t].pc))
  }
  lemma PassStep(s: State, e: Event, t: Tid, j: Ref)
    requires Inv(s) && Passing(s, t, j) && j in s.jobs && s.jobs[j].state == KILLED
    requires InJob(Apply(s, e), t, j)
    ensures Passing(Apply(s, e), t, j)
  {
    if !OwnStep(e, t) { OthersLeaveAlone(s, e, t); } else { assert TaskOk(s, t); PassOwn(s, e, t, j); }
  }
  lemma PassOwn(s: State, e: Event, t: Tid, j: Ref)
    requires Passing(s, t, j) && j in s.jobs && s.jobs[j].state == KILLED && OwnStep(e, t) && TaskOk(s, t)
    requires InJob(Apply(s, e), t, j)
    ensures Passing(Apply(s, e), t, j)
  {
    hide Passing;
    if SchedEvent(e) { PassSched(s, e, t, j); } else { PassLife(s, e, t, j); }
  }
  lemma PassLife(s: State, e: Event, t: Tid, j: Ref)
    requires Passing(s, t, j) && j in s.jobs && s.jobs[j].state == KILLED && OwnStep(e, t) && TaskOk(s, t)
    requires !SchedEvent(e) && InJob(Apply(s, e), t, j)
    ensures Passing(Apply(s, e), t, j)
  {
  }
  lemma PassSched(s: State, e: Event, t: Tid, j: Ref)
    requires Passing(s, t, j) && j in s.jobs && s.jobs[j].state == KILLED && OwnStep(e, t) && SchedEvent(e)
    ensures Passing(Apply(s, e), t, j)
  {
    if e.Begin? || e.Bed? || e.Look? || e.Settle? { PassDown(s, e, t, j); } else { PassUp(s, e, t, j); }
  }
  lemma PassDown(s: State, e: Event, t: Tid, j: Ref)
    requires Passing(s, t, j) && j in s.jobs && s.jobs[j].state == KILLED && OwnStep(e, t)
    requires e.Begin? || e.Bed? || e.Look? || e.Settle?
    ensures Passing(Apply(s, e), t, j)
  {
  }
  lemma PassUp(s: State, e: Event, t: Tid, j: Ref)
    requires Passing(s, t, j) && j in s.jobs && s.jobs[j].state == KILLED && OwnStep(e, t)
    requires e.Restore? || e.Heaven? || e.LeaveCheck? || e.LeaveUp?
    ensures Passing(Apply(s, e), t, j)
  {
  }

  // Throughout the run the job is killed and the thread belongs to it.
  predicate KilledThroughout(s: State, es: seq<Event>, t: Tid, j: Ref)
    decreases |es|
  {
    j in s.jobs && s.jobs[j].state == KILLED && InJob(s, t, j) &&
      (es == [] || KilledThroughout(Apply(s, es[0]), es[1..], t, j))
  }
  // Some step of the run is the beginning of t's enter_schedule_hook.
  predicate Entered(s: State, es: seq<Event>, t: Tid)
    decreases |es|
  {
    es != [] &&
      ((es[0] == Begin(t) && AtPc(s, t, Out) && !Holding(s.tasks[t].act)) || Entered(Apply(s, es[0]), es[1..], t))
  }

  lemma {:induction false} PassRun(s: State, es: seq<Event>, t: Tid, j: Ref)
    requires Inv(s) && KilledThroughout(s, es, t, j) && (Passing(s, t, j) || Entered(s, es, t))
    ensures Passing(Exec(s, es), t, j)
    decreases |es|
  {
    if es != [] {
      var m := Apply(s, es[0]);
      Step(s, es[0]);
      if Passing(s, t, j) {
        PassStep(s, es[0], t, j);
      } else if es[0] == Begin(t) && AtPc(s, t, Out) && !Holding(s.tasks[t].act) {
        assert TaskOk(s, t);
        assert Passing(m, t, j);
      }
      PassRun(m, es[1..], t, j);
    }
  }

  // In a job that stays killed, once every thread has been through one scheduling point, all are
  // dead, and none was ever sent more than one SIGKILL.
  lemma KillReachesEveryThread(es: seq<Event>, more: seq<Event>, j: Ref)
    requires forall t :: t in Attached(Exec(Exec(Init, es), more), j) ==>
      && KilledThroughout(Exec(Init, es), more, t, j) && Entered(Exec(Init, es), more, t)
      && Exec(Exec(Init, es), more).tasks[t].pc == Out
    ensures var s' := Exec(Exec(Init, es), more);
      forall t :: t in Attached(s', j) ==> s'.tasks[t].entry.value.dead && s'.tasks[t].entry.value.kills <= 1
  {
    var s := Exec(Init, es);
    var s' := Exec(s, more);
    Reachable(es);
    Runs(s, more);
    forall t | t in Attached(s', j) ensures s'.tasks[t].entry.value.dead && s'.tasks[t].entry.value.kills <= 1 {
      PassRun(s, more, t, j);
      assert TaskOk(s', t);
    }
  }

  function Living(s: State, j: Ref): set<Tid> { set t | t in Attached(s, j) && !s.tasks[t].entry.value.dead }

  predicate Alive(s: State, t: Tid, j: Ref) { InJob(s, t, j) && !s.tasks[t].entry.value.dead }
  predicate ExitEvent(e: Event) { e.ExitBegin? || e.ExitFree? || e.ExitDrop? || e.Die? }
  lemma LivingFork(s: State, e: Event, t: Tid, j: Ref)
    requires ForkEvent(e) && !e.Tail? && Alive(Apply(s, e), t, j)
    ensures Alive(s, t, j)
  {
  }
  lemma LivingExit(s: State, e: Event, t: Tid, j: Ref)
    requires ExitEvent(e) && Alive(Apply(s, e), t, j)
    ensures Alive(s, t, j)
  {
  }
  lemma LivingRest(s: State, e: Event, t: Tid, j: Ref)
    requires j in s.jobs && j < s.nextRef && !ForkEvent(e) && !ExitEvent(e) && !SchedEvent(e) && !AdminEvent(e)
    requires Alive(Apply(s, e), t, j)
    ensures Alive(s, t, j)
  {
  }
  lemma LivingSched(s: State, e: Event, t: Tid, j: Ref)
    requires SchedEvent(e) && Alive(Apply(s, e), t, j)
    ensures Alive(s, t, j)
  {
  }
  // Unless a fork's child attaches itself, the living threads of a job only become fewer ...
  lemma LivingStep(s: State, e: Event, j: Ref)
    requires Inv(s) && j in s.jobs && !e.Tail?
    ensures Living(Apply(s, e), j) <= Living(s, j)
  {
    assert JobOk(s, j);
    forall t | t in Living(Apply(s, e), j) ensures t in Living(s, j) {
      assert Alive(Apply(s, e), t, j);
      if SchedEvent(e) { LivingSched(s, e, t, j); }
      else if AdminEvent(e) { if t in s.tasks { AdminLeaveAlone(s, e, t); } }
      else if ForkEvent(e) { LivingFork(s, e, t, j); }
      else if ExitEvent(e) { LivingExit(s, e, t, j); }
      else { LivingRest(s, e, t, j); }
    }
  }
  lemma {:induction false} LivingShrinks(s: State, es: seq<Event>, j: Ref)
    requires Inv(s) && j in s.jobs && j in Exec(s, es).jobs && forall i :: 0 <= i < |es| ==> !es[i].Tail?
    ensures Living(Exec(s, es), j) <= Living(s, j)
    decreases |es|
  {
    if es != [] {
      var m := Apply(s, es[0]);
      Step(s, es[0]);
      assert JobOk(s, j);
      JobsStep(s, es[0]);
      if j !in m.jobs { FreedForGood(m, es[1..], j); }
      LivingStep(s, es[0], j);
      LivingShrinks(m, es[1..], j);
    }
  }

  // ... and each trip to heaven takes exactly one.
  lemma HeavenTakesOne(s: State, t: Tid, j: Ref)
    requires Inv(s) && t in Living(s, j) && s.tasks[t].pc == Doomed
    ensures var m := Apply(s, Heaven(t));
      Living(m, j) == Living(s, j) - {t} && m.tasks[t].entry.value.kills == s.tasks[t].entry.value.kills + 1 == 1
  {
    var m := Apply(s, Heaven(t));
    assert TaskOk(s, t);
    forall u ensures u in Living(m, j) <==> u in Living(s, j) && u != t { }
  }

  // ---------- jobs that are never destroyed, pointers that dangle ----------

  // A child whose thread entry could not be allocated pins its job for ever.
  lemma {:induction false} OrphanPinsJob(s: State, es: seq<Event>, j: Ref)
    requires Inv(s) && j in s.jobs && s.jobs[j].leaked > 0
    ensures j in Exec(s, es).jobs && Exec(s, es).jobs[j].leaked >= s.jobs[j].leaked
    decreases |es|
  {
    if es != [] {
      Step(s, es[0]);
      PinStep(s, es[0], j);
      OrphanPinsJob(Apply(s, es[0]), es[1..], j);
    }
  }
  lemma PinStep(s: State, e: Event, j: Ref)
    requires Inv(s) && j in s.jobs && s.jobs[j].leaked > 0
    ensures j in Apply(s, e).jobs && Apply(s, e).jobs[j].leaked >= s.jobs[j].leaked
  {
    if e.DelFree? { PinFree(s, e.t, j); }
    else if e.ExecCreate? { FreshRef(s); }
    else if SchedEvent(e) { PinSched(s, e, j); }
    else if AdminEvent(e) { PinAdmin(s, e, j); }
    else { PinLife(s, e, j); }
  }
  lemma PinFree(s: State, t: Tid, j: Ref)
    requires Inv(s) && j in s.jobs && s.jobs[j].leaked > 0
    ensures j in DoDelFree(s, t).jobs && DoDelFree(s, t).jobs[j] == s.jobs[j]
  {
    if t in s.tasks && s.tasks[t].act.DelUnlocked? { OnlyDestroyer(s, t, s.tasks[t].act.j); }
  }
  lemma PinAdmin(s: State, e: Event, j: Ref)
    requires j in s.jobs && AdminEvent(e)
    ensures j in Apply(s, e).jobs && Apply(s, e).jobs[j].leaked == s.jobs[j].leaked
  {
  }
  lemma PinSched(s: State, e: Event, j: Ref)
    requires j in s.jobs && SchedEvent(e)
    ensures j in Apply(s, e).jobs && Apply(s, e).jobs[j].leaked == s.jobs[j].leaked
  {
    hide Apply;
    Framed(s, e);
  }
  lemma PinLife(s: State, e: Event, j: Ref)
    requires j in s.jobs && !SchedEvent(e) && !AdminEvent(e) && !e.DelFree? && !e.ExecCreate?
    ensures j in Apply(s, e).jobs && Apply(s, e).jobs[j].leaked >= s.jobs[j].leaked
  {
  }

  // ... but past its exit hook a task is still a member of a job that may be gone, so the timer
  // hook's unlocked read of the state can touch freed memory: a lone thread that exits.
  function LoneTask(attached: bool, act: Act): Task {
    Task(if act.ExecWant? || act.ExecAppended? then None else Some(0),
         if attached then Some(Entry(0, false, TaskRunning, 0)) else None,
         attached, act, Out, TaskRunning)
  }
  function LoneState(k: Task, jid: int, alive: int, zone: seq<Ref>, lock: Lock): State {
    State(map[1 := k], map[0 := Job(jid, RUNNING, alive, {}, 0)], zone, jid, lock, 1, false)
  }
  lemma LoneCreated()
    ensures Exec(Init, [Spawn(1), ExecCreate(1)]) == LoneState(LoneTask(true, ExecWant(0)), -1, 1, [], Unlocked)
  {
    ExecTwo(Init, Spawn(1), ExecCreate(1));
  }
  lemma LoneAppended()
    ensures Exec(LoneState(LoneTask(true, ExecWant(0)), -1, 1, [], Unlocked), [ExecLock(1), ExecAppend(1)])
         == LoneState(LoneTask(true, ExecAppended(0)), 0, 1, [0], ByTask(1))
  {
    ExecTwo(LoneState(LoneTask(true, ExecWant(0)), -1, 1, [], Unlocked), ExecLock(1), ExecAppend(1));
  }
  lemma LonePublished()
    ensures Exec(LoneState(LoneTask(true, ExecAppended(0)), 0, 1, [0], ByTask(1)), [ExecUnlock(1), ExecPublish(1)])
         == LoneState(LoneTask(true, User), 0, 1, [0], Unlocked)
  {
    ExecTwo(LoneState(LoneTask(true, ExecAppended(0)), 0, 1, [0], ByTask(1)), ExecUnlock(1), ExecPublish(1));
  }
  lemma LoneDetached()
    ensures Exec(LoneState(LoneTask(true, User), 0, 1, [0], Unlocked), [ExitBegin(1), ExitFree(1)])
         == LoneState(LoneTask(false, ExitPut(0)), 0, 1, [0], Unlocked)
  {
    ExecTwo(LoneState(LoneTask(true, User), 0, 1, [0], Unlocked), ExitBegin(1), ExitFree(1));
  }
  lemma LoneDropped()
    ensures Exec(LoneState(LoneTask(false, ExitPut(0)), 0, 1, [0], Unlocked), [ExitDrop(1), DelLock(1)])
         == LoneState(LoneTask(false, DelLocked(0, true)), 0, 0, [0], ByTask(1))
  {
    ExecTwo(LoneState(LoneTask(false, ExitPut(0)), 0, 1, [0], Unlocked), ExitDrop(1), DelLock(1));
  }
  lemma LoneUnlinked()
    ensures Exec(LoneState(LoneTask(false, DelLocked(0, true)), 0, 0, [0], ByTask(1)), [DelUnlink(1), DelUnlock(1)])
         == LoneState(LoneTask(false, DelUnlocked(0, true)), 0, 0, [], Unlocked)
  {
    ExecTwo(LoneState(LoneTask(false, DelLocked(0, true)), 0, 0, [0], ByTask(1)), DelUnlink(1), DelUnlock(1));
  }
  lemma ExecTwo(s: State, d: Event, e: Event)
    ensures Exec(s, [d, e]) == Apply(Apply(s, d), e)
  {
    assert [d, e][1..] == [e] && [e][1..] == [];
    assert Exec(Apply(s, d), [e]) == Exec(Apply(Apply(s, d), e), []);
  }
  lemma {:induction false} ExecSplit(s: State, a: seq<Event>, b: seq<Event>)
    ensures Exec(s, a + b) == Exec(Exec(s, a), b)
    decreases |a|
  {
    if a == [] {
      assert a + b == b;
    } else {
      assert (a + b)[1..] == a[1..] + b;
      ExecSplit(Apply(s, a[0]), a[1..], b);
    }
  }
  lemma TimerReadCanDangle() returns (es: seq<Event>)
    ensures var s := Exec(Init, es);
      1 in s.tasks && s.tasks[1].act == Gone && s.tasks[1].home == Some(0) && 0 !in s.jobs
  {
    LoneCreated(); LoneAppended(); LonePublished(); LoneDetached(); LoneDropped(); LoneUnlinked();
    es := [Spawn(1), ExecCreate(1)];
    ExecSplit(Init, es, [ExecLock(1), ExecAppend(1)]);
    es := es + [ExecLock(1), ExecAppend(1)];
    ExecSplit(Init, es, [ExecUnlock(1), ExecPublish(1)]);
    es := es + [ExecUnlock(1), ExecPublish(1)];
    ExecSplit(Init, es, [ExitBegin(1), ExitFree(1)]);
    es := es + [ExitBegin(1), ExitFree(1)];
    ExecSplit(Init, es, [ExitDrop(1), DelLock(1)]);
    es := es + [ExitDrop(1), DelLock(1)];
    ExecSplit(Init, es, [DelUnlink(1), DelUnlock(1)]);
    es := es + [DelUnlink(1), DelUnlock(1)];
    LoneFreed(es);
    es := es + [DelFree(1)];
  }
  lemma LoneFreed(es: seq<Event>)
    requires Exec(Init, es) == LoneState(LoneTask(false, DelUnlocked(0, true)), 0, 0, [], Unlocked)
    ensures var s := Exec(Init, es + [DelFree(1)]);
      1 in s.tasks && s.tasks[1].act == Gone && s.tasks[1].home == Some(0) && 0 !in s.jobs
  {
    ExecSplit(Init, es, [DelFree(1)]);
    assert [DelFree(1)][1..] == [];
  }
}
