/**
 * The hooks as the code runs them: each statement is one atomic step of the interleaving system, and
 * between any two of them the other tasks and the administrators take whatever steps they like.
 */
module Hooks {
  import opened Options
  import opened Lifecycle
  import opened LifecycleInvariant
  import opened LifecycleSteps
  import opened LifecycleTheorems
  import opened LifecycleProgress

  // Steps that are not t's own.
  predicate Foreign(t: Tid, env: seq<Event>) { forall i :: 0 <= i < |env| ==> !OwnStep(env[i], t) }
  // What the others do at the i-th pause.
  function Pause(env: seq<seq<Event>>, i: nat): seq<Event> { if i < |env| then env[i] else [] }
  predicate AllForeign(t: Tid, env: seq<seq<Event>>) { forall i :: 0 <= i < |env| ==> Foreign(t, env[i]) }

  // ---------- what one step makes of the task that takes it ----------

  lemma BeginMoves(s: State, t: Tid)
    requires Inv(s) && AtPc(s, t, Out) && s.tasks[t].attached && !Holding(s.tasks[t].act)
    ensures var k, m := s.tasks[t], Apply(s, Begin(t));
      t in m.tasks && m.tasks[t] == k.(entry := Some(k.entry.value.(saved := k.run)), pc := Saved)
  {
    assert TaskOk(s, t);
  }
  lemma BedMoves(s: State, t: Tid)
    requires Inv(s) && AtPc(s, t, Saved)
    ensures var m := Apply(s, Bed(t)); t in m.tasks && m.tasks[t] == s.tasks[t].(run := TaskInterruptible, pc := Queued)
  {
    assert TaskOk(s, t);
  }
  lemma LookMoves(s: State, t: Tid)
    requires Inv(s) && AtPc(s, t, Queued)
    ensures var j, m := s.tasks[t].entry.value.job, Apply(s, Look(t));
      j in s.jobs && t in m.tasks && m.tasks[t] == s.tasks[t].(pc := Saw(s.jobs[j].state))
  {
    assert TaskOk(s, t);
  }
  lemma SettleMoves(s: State, t: Tid, st: JobState)
    requires Inv(s) && AtPc(s, t, Saw(st))
    ensures var k, m := s.tasks[t], Apply(s, Settle(t));
      t in m.tasks &&
        m.tasks[t] == if st == SUSPENDED then k.(pc := Asleep) else k.(run := TaskRunning, pc := Raised(st))
  {
    assert TaskOk(s, t);
  }
  lemma RestoreMoves(s: State, t: Tid, st: JobState)
    requires AtPc(s, t, Raised(st))
    ensures var k, m := s.tasks[t], Apply(s, Restore(t));
      t in m.tasks && m.tasks[t] == k.(run := k.entry.value.saved, pc := if st == KILLED then Doomed else Out)
  {
  }
  lemma HeavenMoves(s: State, t: Tid)
    requires AtPc(s, t, Doomed)
    ensures var k, m := s.tasks[t], Apply(s, Heaven(t));
      var e := k.entry.value;
      t in m.tasks && m.tasks[t] == if e.dead then k.(pc := Out)
        else k.(pc := Out, run := e.saved, entry := Some(e.(dead := true, kills := e.kills + 1)))
  {
  }
  lemma LeaveCheckMoves(s: State, t: Tid)
    requires Inv(s) && AtPc(s, t, Asleep)
    ensures var j, m := s.tasks[t].entry.value.job, Apply(s, LeaveCheck(t));
      j in s.jobs && t in m.tasks && m.tasks[t] == s.tasks[t].(pc := if t in s.jobs[j].queue then Rising else Out)
    ensures s.tasks[t].run != TaskRunning ==> t in s.jobs[s.tasks[t].entry.value.job].queue
  {
    assert TaskOk(s, t);
  }
  lemma LeaveUpMoves(s: State, t: Tid)
    requires Inv(s) && AtPc(s, t, Rising)
    ensures var m := Apply(s, LeaveUp(t));
      t in m.tasks && m.tasks[t] == s.tasks[t].(run := TaskRunning, pc := Raised(RUNNING))
  {
    assert TaskOk(s, t);
  }
  // A thread is on no queue but its own job's.
  lemma QueuedOnOwn(s: State, t: Tid)
    requires Inv(s) && t in s.tasks
    ensures forall j :: j in s.jobs && t in s.jobs[j].queue ==>
      s.tasks[t].pc != Out && s.tasks[t].entry.Some? && s.tasks[t].entry.value.job == j
  {
    forall j | j in s.jobs && t in s.jobs[j].queue
      ensures s.tasks[t].pc != Out && s.tasks[t].entry.Some? && s.tasks[t].entry.value.job == j
    {
      assert JobOk(s, j);
    }
  }
  // A thread outside the two hooks is on no queue.
  lemma OutIsUnqueued(s: State, t: Tid)
    requires Inv(s) && t in s.tasks && s.tasks[t].pc == Out
    ensures forall j :: j in s.jobs ==> t !in s.jobs[j].queue
  {
    forall j | j in s.jobs ensures t !in s.jobs[j].queue { assert JobOk(s, j); }
  }

  // The state of job j after the first n steps of a run.
  predicate StateWas(es: seq<Event>, n: nat, j: Ref, st: JobState) {
    n <= |es| && var s := Exec(Init, es[..n]); j in s.jobs && s.jobs[j].state == st
  }

  // The n-th step of a run took a reference to the job, gave one back and left some, or passed the one of
  // t's fork on to its child.
  ghost predicate Taken(es: seq<Event>, n: nat, o: Option<Ref>) {
    n < |es| && var s, m := Exec(Init, es[..n]), Exec(Init, es[..n + 1]);
    o.Some? ==> o.value in s.jobs && o.value in m.jobs && m.jobs[o.value].alive == s.jobs[o.value].alive + 1
  }
  ghost predicate GivenBack(es: seq<Event>, n: nat, o: Option<Ref>) {
    n < |es| && var s, m := Exec(Init, es[..n]), Exec(Init, es[..n + 1]);
    o.Some? ==> o.value in s.jobs && o.value in m.jobs && m.jobs[o.value].alive == s.jobs[o.value].alive - 1 >= 1
  }
  ghost predicate PassedOn(es: seq<Event>, n: nat, o: Option<Ref>, t: Tid, c: Tid) {
    n < |es| && var s, m := Exec(Init, es[..n]), Exec(Init, es[..n + 1]);
    && m.jobs == s.jobs && At(m, c, Newborn) && m.tasks[c].home == o
    && (o.Some? ==> t in Flights(s, o.value) && Flights(m, o.value) == Flights(s, o.value) - {t} + {c})
  }
  // The n-th step woke the job's queue: whoever slept on it is runnable and off it; no other waiter, task
  // or job has changed.
  ghost predicate Woken(es: seq<Event>, n: nat, h: Ref) {
    n < |es| && es[n] == AdminWake && WakesQueue(Exec(Init, es[..n]), Exec(Init, es[..n + 1]), h)
  }
  ghost predicate WakesQueue(s: State, m: State, h: Ref) {
    && h in s.jobs && m.jobs.Keys == s.jobs.Keys && m.tasks.Keys == s.tasks.Keys
    && m.zone == s.zone && m.maxJid == s.maxJid && m.nextRef == s.nextRef
    && (forall t :: t in m.jobs[h].queue <==> t in s.jobs[h].queue && t in s.tasks && !Sleeping(s.tasks[t].run))
    && m.jobs[h] == s.jobs[h].(queue := m.jobs[h].queue)
    && (forall j :: j in s.jobs && j != h ==> m.jobs[j] == s.jobs[j])
    && (forall t :: t in s.tasks && t in s.jobs[h].queue && Sleeping(s.tasks[t].run) ==>
          m.tasks[t] == s.tasks[t].(run := TaskRunning))
    && (forall t :: t in s.tasks && !(t in s.jobs[h].queue && Sleeping(s.tasks[t].run)) ==> m.tasks[t] == s.tasks[t])
  }
  // The n-th step put the job at the end of the list, under the next id.
  ghost predicate Numbered(es: seq<Event>, n: nat, j: Ref) {
    n < |es| && Numbers(Exec(Init, es[..n]), Exec(Init, es[..n + 1]), j)
  }
  predicate Numbers(s: State, m: State, j: Ref) {
    j in m.jobs && m.jobs[j].jid == m.maxJid == s.maxJid + 1 && m.zone == s.zone + [j]
  }
  // The n-th step dropped one reference to the job and changed no other; it was the last one or not.
  ghost predicate GivenUp(es: seq<Event>, n: nat, j: Ref, last: bool) {
    n < |es| && GivesUp(Exec(Init, es[..n]), Exec(Init, es[..n + 1]), j, last)
  }
  predicate GivesUp(s: State, m: State, j: Ref, last: bool) {
    && j in s.jobs && m.jobs == s.jobs[j := s.jobs[j].(alive := s.jobs[j].alive - 1)]
    && (last <==> s.jobs[j].alive == 1)
  }
  predicate NoWake(es: seq<Event>, n: nat) { forall i :: n <= i < |es| ==> es[i] != AdminWake }
  predicate Undisturbed(env: seq<seq<Event>>) { forall i :: 0 <= i < |env| ==> env[i] == [] }

  // What happened in a run stays so in its continuations.
  lemma Lasts(es: seq<Event>, fs: seq<Event>, n: nat)
    requires es <= fs && n < |es|
    ensures fs[..n] == es[..n] && fs[..n + 1] == es[..n + 1] && fs[n] == es[n]
  {
  }

  // What enter_schedule_hook leaves of a task that saw its job in state `seen`.
  predicate Passed(k: Task, k': Task, seen: JobState)
    requires k.entry.Some?
  {
    var e := k.entry.value.(saved := k.run);
    match seen
    case RUNNING => k' == k.(entry := Some(e))
    case KILLED =>
      k' == k.(entry := Some(e.(dead := true, kills := e.kills + if e.dead then 0 else 1)), run := k'.run)
      && (k'.run == k.run || (e.dead && k'.run == TaskRunning))
    case SUSPENDED =>
      k' == k.(entry := Some(e), pc := Asleep, run := k'.run) && (k'.run == TaskInterruptible || k'.run == TaskRunning)
  }

  // How far an exiting task got: it was no member, gave its reference back, gave the last one back and
  // destroyed the job, or still spins on the zone lock.
  datatype Exit = NotMember | Dropped | Destroyed | Spinning

  // How execve_agent ended, and how an administrator's call did.
  datatype Execve = NonJob | NewJob | ExistingJob | Waits
  datatype Answer = Obeyed | Einval | Held

  // What a tick does: nothing, ask for rescheduling, or read freed memory.
  datatype Tick = Ignored | Resched | Dangling

  // What may happen while an administrator holds the lock: anything but another administrator's work.
  predicate Locked(env: seq<seq<Event>>) { forall i :: 0 <= i < |env| ==> NotAdmin(env[i]) }
  predicate NotAdmin(es: seq<Event>) { forall i :: 0 <= i < |es| ==> !AdminEvent(es[i]) || es[i].AdminLock? }

  // No job of before has changed its state.
  ghost predicate StatesKept(s: State, m: State) {
    m.nextRef >= s.nextRef && forall j :: j in m.jobs && j < s.nextRef ==>
      j in s.jobs && m.jobs[j].state == s.jobs[j].state
  }

  /** The running kernel: its state, and the run that led there. */
  class Kernel {
    var now: State
    ghost var trace: seq<Event>

    ghost predicate Valid()
      reads this
    {
      now == Exec(Init, trace)
    }
    constructor ()
      ensures Valid() && trace == []
    {
      now, trace := Init, [];
    }

    method Do(e: Event)
      requires Valid()
      modifies this
      ensures Valid() && trace == old(trace) + [e] && now == Apply(old(now), e) && !now.fault
      ensures Inv(old(now)) && Inv(now)
    {
      hide Apply, Inv;
      Reachable(trace);
      Step(now, e);
      NoFault(Apply(now, e));
      ExecSplit(Init, trace, [e]);
      ExecOne(now, e);
      now := Apply(now, e);
      trace := trace + [e];
    }

    // The others run.
    method Interfere(t: Tid, env: seq<Event>)
      requires Valid() && t in now.tasks && Foreign(t, env)
      modifies this
      ensures Valid() && trace == old(trace) + env
      ensures Inv(now) && OnlyRun(old(now), now, t)
    {
      hide Apply, Inv, OwnStep;
      Reachable(trace);
      var i := 0;
      while i < |env|
        invariant 0 <= i <= |env|
        invariant Valid() && trace == old(trace) + env[..i]
        invariant Inv(now) && OnlyRun(old(now), now, t)
      {
        OthersLeaveAlone(now, env[i], t);
        Do(env[i]);
        assert env[..i + 1] == env[..i] + [env[i]];
        i := i + 1;
      }
      assert env[..i] == env;
    }

    // The first half of enter_schedule_hook: save the state, enqueue, read the job's state.
    method BedAndLook(t: Tid, env: seq<seq<Event>>) returns (st: JobState, ghost look: nat)
      requires Valid() && Inv(now) && AtPc(now, t, Out) && now.tasks[t].attached && !Holding(now.tasks[t].act)
      requires AllForeign(t, env)
      modifies this
      ensures Valid() && Inv(now) && look <= |trace| && old(trace) <= trace[..look] && t in now.tasks
      ensures var k, k' := old(now).tasks[t], now.tasks[t];
        && k' == k.(entry := Some(k.entry.value.(saved := k.run)), pc := Saw(st), run := k'.run)
        && (k'.run == TaskInterruptible || k'.run == TaskRunning)
      ensures StateWas(trace, look, old(now).tasks[t].entry.value.job, st)
    {
      hide Apply, Inv, OwnStep, Holding;
      BeginMoves(now, t);
      Do(Begin(t));
      Interfere(t, Pause(env, 0));
      BedMoves(now, t);
      Do(Bed(t));
      Interfere(t, Pause(env, 1));
      LookMoves(now, t);
      look := |trace|;
      ghost var there := trace;
      Do(Look(t));
      Interfere(t, Pause(env, 2));
      st := now.tasks[t].pc.st;
      assert trace[..look] == there;
    }

    // enter_schedule_hook: whatever the others do meanwhile, the task sleeps if and only if it saw its
    // job suspended, is dead if it saw it killed, and otherwise is exactly as it was.
    method EnterScheduleHook(t: Tid, env: seq<seq<Event>>) returns (seen: Option<JobState>, ghost look: nat)
      requires Valid() && t in now.tasks && now.tasks[t].pc == Out && !Holding(now.tasks[t].act) && AllForeign(t, env)
      modifies this
      ensures Valid() && old(trace) <= trace && t in now.tasks
      ensures seen == None <==> !old(now).tasks[t].attached
      ensures seen == None ==> now == old(now)
      ensures seen.Some? ==> old(now).tasks[t].entry.Some? && Passed(old(now).tasks[t], now.tasks[t], seen.value)
      ensures seen.Some? ==>
        |old(trace)| <= look && StateWas(trace, look, old(now).tasks[t].entry.value.job, seen.value)
      ensures seen != Some(SUSPENDED) ==> forall j :: j in now.jobs ==> t !in now.jobs[j].queue
    {
      hide Apply, Inv, OwnStep, Holding, Exec;
      Reachable(trace);
      look := 0;
      AttachedHasEntry(now, t);
      if !now.tasks[t].attached {
        OutIsUnqueued(now, t);
        return None, 0;
      }
      var st;
      st, look := BedAndLook(t, env);
      ghost var there := trace[..look];
      seen := Some(st);
      SettleMoves(now, t, st);
      Do(Settle(t));
      if st != SUSPENDED {
        Interfere(t, Pause(env, 3));
        RestoreMoves(now, t, st);
        Do(Restore(t));
        if st == KILLED {
          Interfere(t, Pause(env, 4));
          HeavenMoves(now, t);
          Do(Heaven(t));
        }
        OutIsUnqueued(now, t);
      }
      assert trace[..look] == there;
    }

    // leave_schedule_hook: a task still on its queue gets up, in the state saved on the way in; one that
    // was woken by its job runs already and stays as it is.
    method LeaveScheduleHook(t: Tid, env: seq<seq<Event>>) returns (gotUp: bool)
      requires Valid() && t in now.tasks && (now.tasks[t].pc == Out || now.tasks[t].pc == Asleep) && AllForeign(t, env)
      modifies this
      ensures Valid() && old(trace) <= trace && t in now.tasks
      ensures old(now).tasks[t].pc == Out ==> now == old(now)
      ensures gotUp <==> exists j :: j in old(now).jobs && t in old(now).jobs[j].queue
      ensures gotUp ==> old(now).tasks[t].entry.Some?
      ensures gotUp ==> now.tasks[t] == old(now).tasks[t].(pc := Out, run := old(now).tasks[t].entry.value.saved)
      ensures !gotUp ==> now.tasks[t] == old(now).tasks[t].(pc := Out)
      ensures !gotUp && old(now).tasks[t].pc == Asleep ==> now.tasks[t].run == TaskRunning
      ensures forall j :: j in now.jobs ==> t !in now.jobs[j].queue
    {
      hide Apply, Inv, OwnStep, Exec;
      Reachable(trace);
      AttachedHasEntry(now, t);
      gotUp := false;
      QueuedOnOwn(now, t);
      if now.tasks[t].pc == Asleep {
        LeaveCheckMoves(now, t);
        Do(LeaveCheck(t));
        if now.tasks[t].pc == Rising {
          gotUp := true;
          Interfere(t, Pause(env, 0));
          LeaveUpMoves(now, t);
          Do(LeaveUp(t));
          Interfere(t, Pause(env, 1));
          RestoreMoves(now, t, RUNNING);
          Do(Restore(t));
        }
      }
      OutIsUnqueued(now, t);
    }

    // do_fork_agent around _do_fork, which fails if the child's pid is taken or for its own reasons. Either
    // way the parent is as before; the first step takes a reference, which a failed fork gives back with
    // its last step, leaving the job alive, and a successful one passes on to the child.
    method DoForkAgent(t: Tid, child: Tid, succeeds: bool, env: seq<seq<Event>>) returns (ok: bool, ghost birth: nat)
      requires Valid() && At(now, t, User) && AllForeign(t, env)
      modifies this
      ensures Valid() && old(trace) + [ForkBegin(t)] <= trace && OnlyRun(old(now), now, t)
      ensures ok ==> succeeds
      ensures !ok ==> !succeeds || child in now.tasks
      ensures now.tasks[t].home.Some? ==> now.tasks[t].home.value in now.jobs
      ensures Taken(trace, |old(trace)|, old(now).tasks[t].home)
      ensures !ok ==> GivenBack(trace, |trace| - 1, old(now).tasks[t].home)
      ensures ok ==> PassedOn(trace, birth, old(now).tasks[t].home, t, child)
      ensures Undisturbed(env) && now.tasks[t].home.Some? ==> now.tasks[t].home.value in old(now).jobs
      ensures Undisturbed(env) && now.tasks[t].home.Some? ==>
        now.jobs[now.tasks[t].home.value].alive == old(now).jobs[now.tasks[t].home.value].alive + if ok then 1 else 0
    {
      hide Apply, Inv, OwnStep, Exec, Taken, GivenBack, PassedOn, Foreign;
      birth := 0;
      ghost var first := |trace|;
      ForkBegins(t);
      ghost var es, begun := trace, now;
      assert Undisturbed(env) ==> Pause(env, 0) == [] && Pause(env, 1) == [];
      NoPause(t, env);
      Interfere(t, Pause(env, 0));
      assert Undisturbed(env) ==> trace == es && now == begun;
      ok := succeeds && child !in now.tasks;
      if ok {
        birth := ForkBorn(t, child, Pause(env, 1));
      } else {
        ForkFails(t);
      }
      TakenLasts(es, trace, first, old(now).tasks[t].home);
      if now.tasks[t].home.Some? { MemberJob(now, t, now.tasks[t].home.value); }
    }
    method ForkBegins(t: Tid)
      requires Valid() && At(now, t, User)
      modifies this
      ensures Valid() && Inv(now) && trace == old(trace) + [ForkBegin(t)]
      ensures t in now.tasks && now.tasks[t] == old(now).tasks[t].(act := Forking(old(now).tasks[t].home))
      ensures Taken(trace, |old(trace)|, old(now).tasks[t].home)
      ensures var o := old(now).tasks[t].home;
        o.Some? ==>
          o.value in old(now).jobs && o.value in now.jobs &&
          now.jobs[o.value].alive == old(now).jobs[o.value].alive + 1
    {
      hide Apply, Inv, Exec;
      Reachable(trace);
      ForkBeginMoves(now, t);
      Do(ForkBegin(t));
      assert trace[..|old(trace)| + 1] == trace && trace[..|old(trace)|] == old(trace);
    }
    // A fork that fails: put_thread.
    method ForkFails(t: Tid)
      requires Valid() && Inv(now) && t in now.tasks && At(now, t, Forking(now.tasks[t].home))
      modifies this
      ensures Valid() && Inv(now) && trace == old(trace) + [ForkFail(t)] && now.tasks.Keys == old(now).tasks.Keys
      ensures now.tasks[t] == old(now).tasks[t].(act := User)
      ensures GivenBack(trace, |old(trace)|, old(now).tasks[t].home)
      ensures var o := old(now).tasks[t].home;
        o.Some? ==>
          o.value in old(now).jobs && o.value in now.jobs &&
          now.jobs[o.value].alive == old(now).jobs[o.value].alive - 1
    {
      hide Apply, Inv, Exec;
      ForkFailMoves(now, t);
      Do(ForkFail(t));
      assert trace[..|old(trace)| + 1] == trace && trace[..|old(trace)|] == old(trace);
    }
    // A fork that succeeds, up to its return.
    method ForkBorn(t: Tid, child: Tid, pause: seq<Event>) returns (ghost birth: nat)
      requires Valid() && Inv(now) && t in now.tasks && At(now, t, Forking(now.tasks[t].home)) && child !in now.tasks
      requires Foreign(t, pause)
      modifies this
      ensures Valid() && Inv(now) && old(trace) <= trace && |old(trace)| <= birth
      ensures t in now.tasks && now.tasks[t] == old(now).tasks[t].(act := User, run := now.tasks[t].run)
      ensures now.tasks[t].run == old(now).tasks[t].run || now.tasks[t].run == TaskRunning
      ensures PassedOn(trace, birth, old(now).tasks[t].home, t, child)
      ensures pause == [] ==> now.jobs == old(now).jobs
    {
      hide Apply, Inv, OwnStep, Exec;
      birth := |trace|;
      ForkChildMoves(now, t, child);
      Do(ForkChild(t, child));
      assert trace[..birth + 1] == trace && trace[..birth] == old(trace);
      ghost var es := trace;
      Interfere(t, pause);
      assert pause == [] ==> trace == es;
      ForkOkMoves(now, t);
      Do(ForkOk(t));
      Lasts(es, trace, birth);
    }

    // schedule_tail_agent: the child attaches itself, or becomes an orphan that its job counts for ever.
    method ScheduleTailAgent(t: Tid, gotEntry: bool)
      requires Valid() && At(now, t, Newborn)
      modifies this
      ensures Valid() && trace == old(trace) + [Tail(t, gotEntry)] && At(now, t, User)
      ensures TailLeaves(old(now), now, t, gotEntry) && now.tasks[t].home == old(now).tasks[t].home
      ensures now.tasks[t].attached <==> now.tasks[t].home.Some? && gotEntry
      ensures now.tasks[t].home.Some? ==> now.tasks[t].home.value in now.jobs
      ensures now.tasks[t].attached ==>
        now.tasks[t].entry == Some(Entry(now.tasks[t].home.value, false, TaskRunning, 0))
      ensures now.tasks[t].home.Some? && !gotEntry ==> now.jobs[now.tasks[t].home.value].leaked >= 1
    {
      Reachable(trace);
      TailMoves(now, t, gotEntry);
      Do(Tail(t, gotEntry));
    }

    // enter_exit_hook: the entry is gone, the reference given back, and the last one out frees the job.
    method EnterExitHook(t: Tid, env: seq<seq<Event>>, spins: seq<seq<Event>>)
      returns (r: Exit, ghost dropped: nat)
      requires Valid() && At(now, t, User) && AllForeign(t, env) && AllForeign(t, spins)
      modifies this
      ensures Valid() && old(trace) <= trace && t in now.tasks && now.tasks[t].entry == None && !now.tasks[t].attached
      ensures r == NotMember <==> !old(now).tasks[t].attached
      ensures r != NotMember ==> old(now).tasks[t].entry.Some?
      ensures r != NotMember ==> GivenUp(trace, dropped, old(now).tasks[t].entry.value.job, r != Dropped)
      ensures r == Spinning || now.tasks[t].act == Gone
      ensures r == Spinning ==> now.lock != Unlocked
      ensures r == Destroyed ==> old(now).tasks[t].entry.Some? && old(now).tasks[t].entry.value.job !in now.jobs
      ensures r == Dropped ==> old(now).tasks[t].entry.Some? && old(now).tasks[t].entry.value.job in now.jobs
    {
      hide Apply, Inv, OwnStep, Exec, GivenUp;
      Reachable(trace);
      AttachedHasEntry(now, t);
      dropped := 0;
      if !now.tasks[t].attached {
        ExitBeginMoves(now, t);
        Do(ExitBegin(t));
        return NotMember, 0;
      }
      ghost var j := now.tasks[t].entry.value.job;
      LeaveTable(t, j, env);
      dropped := |trace|;
      DropReference(t, j);
      ghost var es := trace;
      if now.tasks[t].act == Gone { return Dropped, dropped; }
      Interfere(t, Pause(env, 2));
      var done := DelJob(t, j, env, spins);
      GivenUpLasts(es, trace, dropped, j, true);
      r := if done then Destroyed else Spinning;
    }
    // __detach_from_job and the free of the entry.
    method LeaveTable(t: Tid, ghost j: Ref, env: seq<seq<Event>>)
      requires Valid() && Inv(now) && At(now, t, User) && now.tasks[t].attached && AllForeign(t, env)
      requires now.tasks[t].entry.Some? && now.tasks[t].entry.value.job == j
      modifies this
      ensures Valid() && Inv(now) && old(trace) <= trace && At(now, t, ExitPut(j))
      ensures now.tasks[t].entry == None && !now.tasks[t].attached
    {
      hide Apply, Inv, OwnStep, Exec;
      ExitBeginMoves(now, t);
      Do(ExitBegin(t));
      Interfere(t, Pause(env, 0));
      ExitFreeMoves(now, t, j);
      Do(ExitFree(t));
      Interfere(t, Pause(env, 1));
    }

    // put_thread at the end of __fini_thread.
    method DropReference(t: Tid, ghost j: Ref)
      requires Valid() && Inv(now) && At(now, t, ExitPut(j))
      modifies this
      ensures Valid() && Inv(now) && trace == old(trace) + [ExitDrop(t)] && t in now.tasks && j in now.jobs
      ensures now.tasks[t] == old(now).tasks[t].(act := now.tasks[t].act)
      ensures now.tasks[t].act == Gone || now.tasks[t].act == DelWant(j, true)
      ensures GivenUp(trace, |old(trace)|, j, now.tasks[t].act != Gone)
    {
      hide Apply, Inv, Exec;
      ExitDropMoves(now, t, j);
      Do(ExitDrop(t));
      assert trace[..|old(trace)| + 1] == trace && trace[..|old(trace)|] == old(trace);
    }

    // execve_agent: a task that is no member and names the zone becomes the first thread of a new job,
    // under the id after the last one given out.
    method ExecveAgent(t: Tid, namesZone: bool, gotMemory: bool, env: seq<seq<Event>>, spins: seq<seq<Event>>)
      returns (r: Execve, ghost j: Ref, ghost listed: nat)
      requires Valid() && At(now, t, User) && AllForeign(t, env) && AllForeign(t, spins)
      modifies this
      ensures Valid() && old(trace) <= trace && t in now.tasks
      ensures r == ExistingJob <==> old(now).tasks[t].home.Some?
      ensures r == Waits ==> now.lock != Unlocked
      ensures r == NonJob <==> old(now).tasks[t].home == None && !(namesZone && gotMemory)
      ensures r == ExistingJob || r == NonJob ==> now == old(now)
      ensures r == NewJob ==> At(now, t, User) && now.tasks[t].attached && now.tasks[t].home == Some(j)
      ensures r == NewJob ==> now.tasks[t].entry == Some(Entry(j, false, TaskRunning, 0))
      ensures r == NewJob ==> |old(trace)| <= listed && Numbered(trace, listed, j)
      ensures r == NewJob ==> j !in old(now).jobs && j in now.zone && j in now.jobs && now.jobs[j].jid > old(now).maxJid
    {
      hide Apply, Inv, OwnStep, Exec;
      Reachable(trace);
      ghost var es := trace;
      j, listed := now.nextRef, 0;
      if now.tasks[t].home.Some? { return ExistingJob, j, 0; }
      if !(namesZone && gotMemory) { return NonJob, j, 0; }
      ExecCreateMoves(now, t);
      Do(ExecCreate(t));
      var free := AwaitLock(t, spins);
      if !free { return Waits, j, 0; }
      listed := CreateListed(t, j, env);
      MemberJob(now, t, j);
      assert trace == es + trace[|es|..];
      NewId(es, trace[|es|..], j);
      r := NewJob;
    }

    // From the zone lock to init_job.
    method CreateListed(t: Tid, ghost j: Ref, env: seq<seq<Event>>) returns (ghost listed: nat)
      requires Valid() && Inv(now) && At(now, t, ExecWant(j)) && now.lock == Unlocked && AllForeign(t, env)
      modifies this
      ensures Valid() && Inv(now) && old(trace) <= trace && t in now.tasks
      ensures var k, k' := old(now).tasks[t], now.tasks[t]; k' == k.(act := User, home := Some(j), run := k'.run)
      ensures |old(trace)| <= listed && Numbered(trace, listed, j)
    {
      hide Apply, Inv, OwnStep, Exec;
      ExecLockMoves(now, t, j);
      Do(ExecLock(t));
      Interfere(t, Pause(env, 0));
      ExecAppendMoves(now, t, j);
      AppendNumbers(now, t);
      listed := |trace|;
      ghost var there := trace;
      Do(ExecAppend(t));
      ghost var es := trace;
      assert es[..listed + 1] == es && es[..listed] == there;
      Interfere(t, Pause(env, 1));
      ExecUnlockMoves(now, t, j);
      Do(ExecUnlock(t));
      Interfere(t, Pause(env, 2));
      ExecPublishMoves(now, t, j);
      Do(ExecPublish(t));
      Lasts(es, trace, listed);
    }

    // Everybody runs.
    method Everybody(es: seq<Event>)
      requires Valid()
      modifies this
      ensures Valid() && trace == old(trace) + es && Inv(now)
      ensures NotAdmin(es) && old(now).lock.ByAdmin? ==> now.lock == old(now).lock
      ensures NotAdmin(es) ==> StatesKept(old(now), now) && NoWake(trace, |old(trace)|)
    {
      hide Apply, Inv, AdminEvent, Exec;
      Reachable(trace);
      NotAdminNoWake(es);
      var i := 0;
      while i < |es|
        invariant 0 <= i <= |es|
        invariant Valid() && trace == old(trace) + es[..i] && Inv(now)
        invariant NotAdmin(es) && old(now).lock.ByAdmin? ==> now.lock == old(now).lock
        invariant NotAdmin(es) ==> StatesKept(old(now), now)
      {
        if NotAdmin(es) { NotAdminStep(now, es[i]); }
        Do(es[i]);
        assert es[..i + 1] == es[..i] + [es[i]];
        i := i + 1;
      }
      assert es[..i] == es;
    }

    // The zone lock for an administrator.
    method AwaitAdmin(spins: seq<seq<Event>>) returns (free: bool)
      requires Valid()
      modifies this
      ensures Valid() && Inv(now) && old(trace) <= trace && (free <==> now.lock == Unlocked)
    {
      hide Inv, Exec;
      Reachable(trace);
      var i := 0;
      while now.lock != Unlocked && i < |spins|
        invariant 0 <= i <= |spins| && Valid() && Inv(now) && old(trace) <= trace
      {
        Everybody(spins[i]);
        i := i + 1;
      }
      free := now.lock == Unlocked;
    }

    // __kill_job, __suspend_job and __resume_job, under the lock: the state is written, and the queue is
    // woken once if the operation asks for it, else not at all.
    method Operate(op: AdminOp, ghost h: Ref, env: seq<seq<Event>>) returns (ghost woke: Option<nat>)
      requires Valid() && Inv(now) && Locked(env) && now.lock == ByAdmin(Found(op, h)) && h in now.jobs
      requires h < now.nextRef
      modifies this
      ensures Valid() && Inv(now) && old(trace) <= trace && now.lock == ByAdmin(Finished)
      ensures h in now.jobs ==> now.jobs[h].state == AdminNext(op, old(now).jobs[h].state)
      ensures woke.Some? <==> AdminWakes(op, old(now).jobs[h].state)
      ensures woke.Some? ==> |old(trace)| <= woke.value && Woken(trace, woke.value, h)
      ensures woke == None ==> NoWake(trace, |old(trace)|)
    {
      hide Apply, Inv, AdminEvent, Exec, Woken;
      woke := None;
      Everybody(Pause(env, 1));
      AdminReadMoves(now, op, h);
      Do(AdminRead);
      Everybody(Pause(env, 2));
      AdminWriteMoves(now, op, h);
      Do(AdminWrite);
      Everybody(Pause(env, 3));
      if now.lock != ByAdmin(Finished) {
        woke := Some(|trace|);
        Wake(h, Pause(env, 4));
      }
    }
    method Wake(ghost h: Ref, pause: seq<Event>)
      requires Valid() && Inv(now) && NotAdmin(pause) && now.lock == ByAdmin(WakePending(h))
      modifies this
      ensures Valid() && Inv(now) && old(trace) <= trace && now.lock == ByAdmin(Finished)
      ensures Woken(trace, |old(trace)|, h)
      ensures StatesKept(old(now), now)
    {
      hide Apply, Inv, AdminEvent, Exec;
      AdminWakeMoves(now, h);
      JobsStep(now, AdminWake);
      OnlyAdminsWrite(now, AdminWake);
      Do(AdminWake);
      assert trace[..|old(trace)| + 1] == trace && trace[..|old(trace)|] == old(trace);
      ghost var es := trace;
      Everybody(pause);
      Lasts(es, trace, |old(trace)|);
    }

    // kill_job, suspend_job and resume_job in the middle of everything else: the one job that bears the
    // id when the list is searched gets the new state and its queue the wake-up, or no job bears it.
    method Administer(op: AdminOp, zid: int, jid: int, env: seq<seq<Event>>, spins: seq<seq<Event>>)
      returns (r: Answer, ghost h: Ref, ghost found: nat, ghost prev: JobState, ghost woke: Option<nat>)
      requires Valid() && Locked(env)
      modifies this
      ensures Valid() && old(trace) <= trace && |old(trace)| <= found <= |trace|
      ensures zid != 0 ==> r == Einval && now == old(now)
      ensures zid == 0 ==> (r != Held <==> now.lock == Unlocked)
      ensures zid == 0 && r == Einval ==>
        forall g :: g in Exec(Init, trace[..found]).zone ==> !Bears(Exec(Init, trace[..found]), g, jid)
      ensures r == Obeyed ==> h in Exec(Init, trace[..found]).zone && Bears(Exec(Init, trace[..found]), h, jid)
      ensures r == Obeyed ==> StateWas(trace, found, h, prev)
      ensures r == Obeyed && h in now.jobs ==> now.jobs[h].state == AdminNext(op, prev)
      ensures woke.Some? <==> r == Obeyed && AdminWakes(op, prev)
      ensures woke.Some? ==> found <= woke.value && Woken(trace, woke.value, h)
      ensures woke == None ==> NoWake(trace, found)
    {
      hide Apply, Inv, AdminEvent, Exec, Woken;
      h, prev, found, woke := 0, RUNNING, |trace|, None;
      if zid != 0 { return Einval, h, found, prev, None; }
      var free := AwaitAdmin(spins);
      found := |trace|;
      if !free { return Held, h, found, prev, None; }
      h, found := LockAndSearch(op, jid, Pause(env, 0));
      ghost var there := trace[..found];
      if now.lock == ByAdmin(Finished) {
        r := Einval;
        Everybody(Pause(env, 1));
      } else {
        prev := now.jobs[h].state;
        woke := Operate(op, h, env);
        r := Obeyed;
      }
      AdminUnlockMoves(now);
      ghost var es := trace;
      Do(AdminUnlock);
      if woke.Some? { WokenLasts(es, trace, woke.value, h); }
      assert trace[..found] == there;
    }
    // Up to the end of search_job_by_id.
    method LockAndSearch(op: AdminOp, jid: int, pause: seq<Event>) returns (ghost h: Ref, ghost found: nat)
      requires Valid() && now.lock == Unlocked && NotAdmin(pause)
      modifies this
      ensures Valid() && Inv(now) && old(trace) <= trace && |old(trace)| <= found < |trace| && NoWake(trace, found)
      ensures var s := Exec(Init, trace[..found]);
        if now.lock == ByAdmin(Finished) then forall g :: g in s.zone ==> !Bears(s, g, jid)
        else now.lock == ByAdmin(Found(op, h)) && h in s.zone && Bears(s, h, jid)
      ensures now.lock != ByAdmin(Finished) ==>
        h in now.jobs && h < now.nextRef && StateWas(trace, found, h, now.jobs[h].state)
    {
      hide Apply, Inv, AdminEvent, Exec;
      h := 0;
      AdminLockMoves(now, op, jid);
      Do(AdminLock(op, jid));
      Everybody(pause);
      found := |trace|;
      ghost var there := trace;
      SearchIsExact(trace, jid);
      AdminSearchMoves(now, op, jid);
      Do(AdminSearch);
      if now.lock != ByAdmin(Finished) { h := now.lock.pc.h; }
      assert trace[..found] == there;
    }

    // sat_interrupt_agent, whose read of the job takes no lock: it asks for rescheduling exactly when the
    // job is to be stopped, and can dangle only behind the exit hook.
    method SatInterruptAgent(t: Tid) returns (r: Tick)
      requires Valid() && t in now.tasks
      ensures r == Resched <==>
        now.tasks[t].home.Some? && exists st :: st != RUNNING && StateWas(trace, |trace|, now.tasks[t].home.value, st)
      ensures r == Dangling <==> now.tasks[t].home.Some? && now.tasks[t].home.value !in now.jobs
      ensures r == Dangling ==> now.tasks[t].act == Gone
    {
      hide Apply, Inv, Exec;
      assert trace[..|trace|] == trace;
      if now.tasks[t].home == None { return Ignored; }
      var j := now.tasks[t].home.value;
      if now.tasks[t].act != Gone { TimerReadSafe(trace, t, j); }
      if j !in now.jobs { return Dangling; }
      var st := now.jobs[j].state;
      if st == SUSPENDED || st == KILLED {
        assert StateWas(trace, |trace|, j, st);
        return Resched;
      }
      r := Ignored;
    }

    // spin_lock
    method AwaitLock(t: Tid, spins: seq<seq<Event>>) returns (free: bool)
      requires Valid() && Inv(now) && t in now.tasks && AllForeign(t, spins)
      modifies this
      ensures Valid() && Inv(now) && old(trace) <= trace && OnlyRun(old(now), now, t)
      ensures (free <==> now.lock == Unlocked)
    {
      hide Apply, Inv, OwnStep, Exec;
      var i := 0;
      while now.lock != Unlocked && i < |spins|
        invariant 0 <= i <= |spins|
        invariant Valid() && Inv(now) && old(trace) <= trace && OnlyRun(old(now), now, t)
      {
        Interfere(t, spins[i]);
        i := i + 1;
      }
      free := now.lock == Unlocked;
    }

    // ya_del_job up to the free.
    method DelJob(t: Tid, ghost j: Ref, env: seq<seq<Event>>, spins: seq<seq<Event>>) returns (done: bool)
      requires Valid() && Inv(now) && At(now, t, DelWant(j, true)) && AllForeign(t, env) && AllForeign(t, spins)
      modifies this
      ensures Valid() && old(trace) <= trace && t in now.tasks
      ensures var k, k' := old(now).tasks[t], now.tasks[t]; k' == k.(act := k'.act, run := k'.run)
      ensures done ==> now.tasks[t].act == Gone && j !in now.jobs
      ensures !done ==> now.lock != Unlocked
    {
      hide Apply, Inv, OwnStep, Exec;
      var free := AwaitLock(t, spins);
      if !free { return false; }
      DelLockMoves(now, t, j);
      Do(DelLock(t));
      Interfere(t, Pause(env, 3));
      DelUnlinkMoves(now, t, j);
      Do(DelUnlink(t));
      Interfere(t, Pause(env, 4));
      DelUnlockMoves(now, t, j);
      Do(DelUnlock(t));
      Interfere(t, Pause(env, 5));
      ghost var s := now;
      Do(DelFree(t));
      DelFreeMoves(s, t, j);
      return true;
    }
  }

  lemma NoPause(t: Tid, env: seq<seq<Event>>)
    requires AllForeign(t, env)
    ensures Foreign(t, Pause(env, 0)) && Foreign(t, Pause(env, 1))
  {
  }
  lemma TakenLasts(es: seq<Event>, fs: seq<Event>, n: nat, o: Option<Ref>)
    requires es <= fs && Taken(es, n, o)
    ensures Taken(fs, n, o)
  {
    Lasts(es, fs, n);
  }
  lemma GivenUpLasts(es: seq<Event>, fs: seq<Event>, n: nat, j: Ref, last: bool)
    requires es <= fs && GivenUp(es, n, j, last)
    ensures GivenUp(fs, n, j, last)
  {
    Lasts(es, fs, n);
  }
  lemma WokenLasts(es: seq<Event>, fs: seq<Event>, n: nat, h: Ref)
    requires es <= fs && Woken(es, n, h)
    ensures Woken(fs, n, h)
  {
    Lasts(es, fs, n);
  }
  lemma ForkBeginMoves(s: State, t: Tid)
    requires Inv(s) && At(s, t, User)
    ensures var m := Apply(s, ForkBegin(t)); t in m.tasks && m.tasks[t] == s.tasks[t].(act := Forking(s.tasks[t].home))
    ensures var m, o := Apply(s, ForkBegin(t)), s.tasks[t].home;
      o.Some? ==> o.value in s.jobs && o.value in m.jobs && m.jobs[o.value].alive == s.jobs[o.value].alive + 1
  {
    if s.tasks[t].home.Some? { MemberJob(s, t, s.tasks[t].home.value); }
  }
  lemma ForkChildMoves(s: State, t: Tid, c: Tid)
    requires t in s.tasks && s.tasks[t].act.Forking? && s.tasks[t].pc == Out && c !in s.tasks
    ensures var k, m := s.tasks[t], Apply(s, ForkChild(t, c));
      && t in m.tasks && m.tasks[t] == k.(act := Forked(k.act.of)) && At(m, c, Newborn) && m.tasks[c].home == k.home
      && m.jobs == s.jobs
    ensures var k, m := s.tasks[t], Apply(s, ForkChild(t, c));
      k.home.Some? && k.act.of == k.home ==>
        t in Flights(s, k.home.value) && Flights(m, k.home.value) == Flights(s, k.home.value) - {t} + {c}
  {
  }
  lemma ForkOkMoves(s: State, t: Tid)
    requires t in s.tasks && s.tasks[t].act.Forked? && s.tasks[t].pc == Out
    ensures var m := Apply(s, ForkOk(t)); t in m.tasks && m.tasks[t] == s.tasks[t].(act := User) && m.jobs == s.jobs
  {
  }
  lemma ForkFailMoves(s: State, t: Tid)
    requires Inv(s) && t in s.tasks && s.tasks[t].act.Forking? && s.tasks[t].pc == Out
    ensures var m := Apply(s, ForkFail(t)); m.tasks.Keys == s.tasks.Keys && m.tasks[t] == s.tasks[t].(act := User)
    ensures var m, o := Apply(s, ForkFail(t)), s.tasks[t].act.of;
      o.Some? ==> o.value in s.jobs && o.value in m.jobs && m.jobs[o.value].alive == s.jobs[o.value].alive - 1 >= 1
  {
    if s.tasks[t].act.of.Some? {
      ForkFailMember(s, t, s.tasks[t].act.of.value);
      MemberJob(s, t, s.tasks[t].act.of.value);
    }
  }
  // What schedule_tail_agent changes: the child's own entry, or the count of orphans.
  predicate TailLeaves(s: State, m: State, t: Tid, ok: bool)
    requires t in s.tasks
  {
    var k := s.tasks[t];
    match k.home
    case None => m.tasks == s.tasks[t := k.(act := User)] && m.jobs == s.jobs
    case Some(j) =>
      if ok then
        && m.tasks == s.tasks[t := k.(act := User, entry := Some(Entry(j, false, TaskRunning, 0)), attached := true)]
        && m.jobs == s.jobs
      else
        && m.tasks == s.tasks[t := k.(act := User)]
        && j in s.jobs && m.jobs == s.jobs[j := s.jobs[j].(leaked := s.jobs[j].leaked + 1)]
  }
  lemma TailMoves(s: State, t: Tid, ok: bool)
    requires Inv(s) && At(s, t, Newborn)
    ensures var m := Apply(s, Tail(t, ok)); At(m, t, User) && m.tasks[t].home == s.tasks[t].home
    ensures var m := Apply(s, Tail(t, ok)); m.tasks[t].home.Some? ==> m.tasks[t].home.value in m.jobs
    ensures TailLeaves(s, Apply(s, Tail(t, ok)), t, ok)
  {
    assert TaskOk(s, t);
    if s.tasks[t].home.Some? { MemberJob(s, t, s.tasks[t].home.value); }
  }
  lemma ExitBeginMoves(s: State, t: Tid)
    requires Inv(s) && At(s, t, User)
    ensures var k, m := s.tasks[t], Apply(s, ExitBegin(t));
      && t in m.tasks && (k.attached ==> k.entry.Some?) && (!k.attached ==> k.entry == None)
      && m.tasks[t] ==
           if k.attached then k.(attached := false, act := ExitDetached(k.entry.value.job)) else k.(act := Gone)
  {
    assert TaskOk(s, t);
  }
  lemma ExitFreeMoves(s: State, t: Tid, j: Ref)
    requires Inv(s) && At(s, t, ExitDetached(j))
    ensures var m := Apply(s, ExitFree(t)); t in m.tasks && m.tasks[t] == s.tasks[t].(entry := None, act := ExitPut(j))
  {
    assert TaskOk(s, t) && JobOk(s, j);
  }
  lemma ExitDropMoves(s: State, t: Tid, j: Ref)
    requires Inv(s) && At(s, t, ExitPut(j))
    ensures var m := Apply(s, ExitDrop(t)); t in m.tasks && j in m.jobs && GivesUp(s, m, j, m.tasks[t].act != Gone)
    ensures var k := Apply(s, ExitDrop(t)).tasks[t];
      k == s.tasks[t].(act := k.act) && (k.act == Gone || k.act == DelWant(j, true))
  {
    assert TaskOk(s, t);
  }
  lemma DelLockMoves(s: State, t: Tid, j: Ref)
    requires At(s, t, DelWant(j, true)) && s.lock == Unlocked
    ensures var m := Apply(s, DelLock(t)); t in m.tasks && m.tasks[t] == s.tasks[t].(act := DelLocked(j, true))
  {
  }
  lemma DelUnlinkMoves(s: State, t: Tid, j: Ref)
    requires Inv(s) && At(s, t, DelLocked(j, true))
    ensures var m := Apply(s, DelUnlink(t)); t in m.tasks && m.tasks[t] == s.tasks[t].(act := DelUnlinked(j, true))
  {
    assert TaskOk(s, t);
  }
  lemma DelUnlockMoves(s: State, t: Tid, j: Ref)
    requires At(s, t, DelUnlinked(j, true))
    ensures var m := Apply(s, DelUnlock(t)); t in m.tasks && m.tasks[t] == s.tasks[t].(act := DelUnlocked(j, true))
  {
  }
  lemma DelFreeMoves(s: State, t: Tid, j: Ref)
    requires At(s, t, DelUnlocked(j, true)) && !Apply(s, DelFree(t)).fault
    ensures var m := Apply(s, DelFree(t)); t in m.tasks && m.tasks[t] == s.tasks[t].(act := Gone) && j !in m.jobs
  {
  }

  predicate Bears(s: State, g: Ref, jid: int) { g in s.jobs && s.jobs[g].jid == jid }

  lemma ExecCreateMoves(s: State, t: Tid)
    requires Inv(s) && At(s, t, User) && s.tasks[t].home == None
    ensures var j, m := s.nextRef, Apply(s, ExecCreate(t));
      && j !in s.jobs && t in m.tasks
      && m.tasks[t] == s.tasks[t].(entry := Some(Entry(j, false, TaskRunning, 0)), attached := true, act := ExecWant(j))
  {
    assert TaskOk(s, t);
    FreshRef(s);
  }
  lemma ExecLockMoves(s: State, t: Tid, j: Ref)
    requires At(s, t, ExecWant(j)) && s.lock == Unlocked
    ensures var m := Apply(s, ExecLock(t)); t in m.tasks && m.tasks[t] == s.tasks[t].(act := ExecLocked(j))
  {
  }
  lemma ExecAppendMoves(s: State, t: Tid, j: Ref)
    requires Inv(s) && At(s, t, ExecLocked(j))
    ensures var m := Apply(s, ExecAppend(t)); t in m.tasks && m.tasks[t] == s.tasks[t].(act := ExecAppended(j))
  {
    assert TaskOk(s, t);
  }
  lemma ExecUnlockMoves(s: State, t: Tid, j: Ref)
    requires At(s, t, ExecAppended(j))
    ensures var m := Apply(s, ExecUnlock(t)); t in m.tasks && m.tasks[t] == s.tasks[t].(act := ExecBody(j))
  {
  }
  lemma ExecPublishMoves(s: State, t: Tid, j: Ref)
    requires At(s, t, ExecBody(j))
    ensures var m := Apply(s, ExecPublish(t)); t in m.tasks && m.tasks[t] == s.tasks[t].(act := User, home := Some(j))
  {
  }
  // A job created since is listed under an id larger than all before.
  lemma NewId(es: seq<Event>, more: seq<Event>, j: Ref)
    requires j >= Exec(Init, es).nextRef && j in Exec(Init, es + more).zone
    ensures j in Exec(Init, es + more).jobs && Exec(Init, es + more).jobs[j].jid > Exec(Init, es).maxJid
  {
    hide Inv, Exec;
    Reachable(es);
    ExecSplit(Init, es, more);
    ListRun(Exec(Init, es), more);
    ListedIsOld(Exec(Init, es));
    ListedIsOld(Exec(Init, es + more));
  }
  lemma ListedIsOld(s: State)
    requires Inv(s)
    ensures forall h :: h in s.zone ==> h in s.jobs && h < s.nextRef
  {
    forall h | h in s.zone ensures h in s.jobs && h < s.nextRef { assert JobOk(s, h); }
  }

  lemma NotAdminNoWake(es: seq<Event>)
    ensures NotAdmin(es) ==> NoWake(es, 0)
  {
  }
  lemma NotAdminStep(s: State, e: Event)
    requires Inv(s) && (!AdminEvent(e) || e.AdminLock?)
    ensures s.lock.ByAdmin? ==> Apply(s, e).lock == s.lock
    ensures StatesKept(s, Apply(s, e))
  {
    JobsStep(s, e);
    OnlyAdminsWrite(s, e);
    if s.lock.ByAdmin? { LockStays(s, e); }
  }
  lemma LockStays(s: State, e: Event)
    requires Inv(s) && s.lock.ByAdmin? && (!AdminEvent(e) || e.AdminLock?)
    ensures Apply(s, e).lock == s.lock
  {
    hide Inv;
    if e.ExecAppend? || e.ExecUnlock? || e.DelUnlink? || e.DelUnlock? { NobodyHolds(s, e.t); }
    else if SchedEvent(e) { SchedLock(s, e); }
    else if ForkEvent(e) { ForkLock(s, e); }
    else { RestLock(s, e); }
  }
  lemma NobodyHolds(s: State, t: Tid)
    requires Inv(s) && s.lock.ByAdmin?
    ensures t in s.tasks ==> !Holding(s.tasks[t].act)
  {
    assert t in s.tasks ==> TaskOk(s, t);
  }
  lemma ForkLock(s: State, e: Event)
    requires ForkEvent(e)
    ensures Apply(s, e).lock == s.lock
  {
  }
  lemma RestLock(s: State, e: Event)
    requires s.lock.ByAdmin? && !SchedEvent(e) && !ForkEvent(e) && (!AdminEvent(e) || e.AdminLock?)
    requires !e.ExecAppend? && !e.ExecUnlock? && !e.DelUnlink? && !e.DelUnlock?
    ensures Apply(s, e).lock == s.lock
  {
  }
  lemma SchedLock(s: State, e: Event)
    requires SchedEvent(e)
    ensures Apply(s, e).lock == s.lock
  {
    hide Apply;
    Framed(s, e);
  }
  lemma AdminLockMoves(s: State, op: AdminOp, jid: int)
    requires s.lock == Unlocked
    ensures Apply(s, AdminLock(op, jid)).lock == ByAdmin(Searching(op, jid))
  {
  }
  lemma AdminSearchMoves(s: State, op: AdminOp, jid: int)
    requires Inv(s) && s.lock == ByAdmin(Searching(op, jid))
    ensures var m, r := Apply(s, AdminSearch), FindJob(s.jobs, s.zone, jid);
      && m.jobs == s.jobs && m.nextRef == s.nextRef
      && m.lock == ByAdmin(if r.Some? then Found(op, r.value) else Finished)
      && (r.Some? ==> r.value in s.zone && r.value in s.jobs && r.value < s.nextRef)
  {
    FindJobHas(s.jobs, s.zone, jid);
    ListedIsOld(s);
  }
  lemma AdminReadMoves(s: State, op: AdminOp, h: Ref)
    requires Inv(s) && s.lock == ByAdmin(Found(op, h))
    ensures var m := Apply(s, AdminRead);
      h in s.jobs && m.jobs == s.jobs && m.nextRef == s.nextRef && m.lock == ByAdmin(Read(op, h, s.jobs[h].state))
  {
  }
  lemma AdminWriteMoves(s: State, op: AdminOp, h: Ref)
    requires Inv(s) && s.lock.ByAdmin? && s.lock.pc.Read? && s.lock.pc.op == op && s.lock.pc.h == h
    ensures var m := Apply(s, AdminWrite);
      && h in s.jobs && h in m.jobs && m.jobs[h].state == AdminNext(op, s.jobs[h].state) && m.nextRef == s.nextRef
      && m.lock == ByAdmin(if AdminWakes(op, s.jobs[h].state) then WakePending(h) else Finished)
  {
  }
  lemma AdminWakeMoves(s: State, h: Ref)
    requires Inv(s) && s.lock == ByAdmin(WakePending(h))
    ensures WakesQueue(s, Apply(s, AdminWake), h)
    ensures var m := Apply(s, AdminWake);
      h in m.jobs && h in s.jobs && m.jobs[h].state == s.jobs[h].state && m.nextRef == s.nextRef &&
        m.lock == ByAdmin(Finished)
  {
  }
  lemma AdminUnlockMoves(s: State)
    requires s.lock == ByAdmin(Finished)
    ensures Apply(s, AdminUnlock) == s.(lock := Unlocked)
  {
  }

  lemma ExecOne(s: State, e: Event)
    ensures Exec(s, [e]) == Apply(s, e)
  {
    assert [e][1..] == [];
    assert Exec(Apply(s, e), []) == Apply(s, e);
  }
  lemma NoFault(s: State)
    requires Inv(s)
    ensures !s.fault
  {
  }
  lemma AttachedHasEntry(s: State, t: Tid)
    requires Inv(s) && t in s.tasks
    ensures s.tasks[t].attached ==> s.tasks[t].entry.Some?
    ensures s.tasks[t].pc != Out ==> s.tasks[t].entry.Some?
  {
    assert TaskOk(s, t);
  }
}
