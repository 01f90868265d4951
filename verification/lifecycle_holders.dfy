/** Who keeps a job in existence, and how the slot table follows a run. */
module LifecycleHolders {
  import opened Options
  import opened Lifecycle
  import opened LifecycleInvariant
  import opened LifecycleSteps
  import opened LifecycleTheorems
  import opened LifecycleProgress

  // ---------- a job exists exactly as long as somebody holds or destroys it ----------

  // A thread's own reference, a fork in flight, or the task that destroys the job.
  predicate HeldBy(k: Task, j: Ref) { OwnRef(k, j) || FlightRef(k, j) || Dying(k.act, j) }
  ghost predicate Held(s: State, j: Ref) { exists t :: t in s.tasks && HeldBy(s.tasks[t], j) }
  predicate Orphaned(s: State, j: Ref) { j in s.jobs && s.jobs[j].leaked > 0 }

  // A job whose count is zero is being destroyed.
  ghost predicate Claimed(s: State, j: Ref) { exists t :: t in s.tasks && Dying(s.tasks[t].act, j) }
  ghost predicate CountOk(s: State, j: Ref)
    requires j in s.jobs
  {
    s.jobs[j].alive > 0 || Claimed(s, j)
  }
  ghost predicate CountsOk(s: State) { forall j :: j in s.jobs ==> CountOk(s, j) }

  // The destroyer stays the destroyer until the job is gone.
  lemma ClaimStays(s: State, e: Event, j: Ref)
    requires Inv(s) && j in Apply(s, e).jobs && Claimed(s, j)
    ensures Claimed(Apply(s, e), j)
  {
    var t :| t in s.tasks && Dying(s.tasks[t].act, j);
    if !OwnStep(e, t) {
      OthersLeaveAlone(s, e, t);
    } else {
      NoFault(s, e);
      DestroyerGoesOn(s, e, t, j);
    }
    assert t in Apply(s, e).tasks && Dying(Apply(s, e).tasks[t].act, j);
  }
  lemma NoFault(s: State, e: Event)
    requires Inv(s)
    ensures !Apply(s, e).fault
  {
    Step(s, e);
  }
  lemma DestroyerGoesOn(s: State, e: Event, t: Tid, j: Ref)
    requires t in s.tasks && Dying(s.tasks[t].act, j) && OwnStep(e, t) && j in Apply(s, e).jobs && !Apply(s, e).fault
    ensures t in Apply(s, e).tasks && Dying(Apply(s, e).tasks[t].act, j)
  {
    hide Apply;
    if SchedEvent(e) { Framed(s, e); }
    else if ForkEvent(e) || ExitEvent(e) { OtherDoors(s, e, t); }
    else if e.DelLock? || e.DelUnlink? || e.DelUnlock? || e.DelFree? { DelGoesOn(s, e, t, j); }
    else { RestDoors(s, e, t); }
  }
  predicate Destroying(a: Act) { a.DelWant? || a.DelLocked? || a.DelUnlinked? || a.DelUnlocked? }
  lemma DelGoesOn(s: State, e: Event, t: Tid, j: Ref)
    requires t in s.tasks && Dying(s.tasks[t].act, j) && OwnStep(e, t) && j in Apply(s, e).jobs && !Apply(s, e).fault
    requires e.DelLock? || e.DelUnlink? || e.DelUnlock? || e.DelFree?
    ensures t in Apply(s, e).tasks && Dying(Apply(s, e).tasks[t].act, j)
  {
  }
  lemma OtherDoors(s: State, e: Event, t: Tid)
    requires t in s.tasks && OwnStep(e, t) && Destroying(s.tasks[t].act)
    requires ForkEvent(e) || ExitEvent(e)
    ensures Apply(s, e) == s
  {
  }
  lemma RestDoors(s: State, e: Event, t: Tid)
    requires t in s.tasks && OwnStep(e, t) && Destroying(s.tasks[t].act)
    requires !SchedEvent(e) && !AdminEvent(e) && !ForkEvent(e) && !ExitEvent(e)
    requires !e.DelLock? && !e.DelUnlink? && !e.DelUnlock? && !e.DelFree?
    ensures t in Apply(s, e).tasks && Apply(s, e).tasks[t].act == s.tasks[t].act
  {
  }

  // Whoever takes the count to zero becomes the destroyer.
  lemma ExitCounts(s: State, e: Event, j: Ref)
    requires j in s.jobs && s.jobs[j].alive > 0 && j in Apply(s, e).jobs && ExitEvent(e)
    ensures CountOk(Apply(s, e), j)
  {
    var m := Apply(s, e);
    assert m.jobs[j].alive == s.jobs[j].alive || (e.t in m.tasks && Dying(m.tasks[e.t].act, j)) || m.jobs[j].alive > 0;
  }
  lemma ForkCounts(s: State, e: Event, j: Ref)
    requires Inv(s) && j in s.jobs && s.jobs[j].alive > 0 && j in Apply(s, e).jobs && ForkEvent(e)
    ensures Apply(s, e).jobs[j].alive > 0
  {
    if e.ForkFail? && At(s, e.t, Forking(Some(j))) { MemberJob(s, e.t, j); }
  }
  lemma RestCounts(s: State, e: Event, j: Ref)
    requires j in s.jobs && j < s.nextRef && j in Apply(s, e).jobs
    requires !SchedEvent(e) && !AdminEvent(e) && !ForkEvent(e) && !ExitEvent(e)
    ensures Apply(s, e).jobs[j].alive == s.jobs[j].alive
  {
  }
  lemma AdminCounts(s: State, e: Event, j: Ref)
    requires j in s.jobs && AdminEvent(e) && j in Apply(s, e).jobs
    ensures Apply(s, e).jobs[j].alive == s.jobs[j].alive
  {
  }
  lemma CountStays(s: State, e: Event, j: Ref)
    requires Inv(s) && j in s.jobs && s.jobs[j].alive > 0 && j in Apply(s, e).jobs
    ensures CountOk(Apply(s, e), j)
  {
    assert JobOk(s, j);
    hide Inv, JobOk, Apply;
    if SchedEvent(e) { Framed(s, e); }
    else if AdminEvent(e) { AdminCounts(s, e, j); }
    else if ForkEvent(e) { ForkCounts(s, e, j); }
    else if ExitEvent(e) { ExitCounts(s, e, j); }
    else { RestCounts(s, e, j); }
  }
  lemma NewJobCounted(s: State, e: Event, j: Ref)
    requires Inv(s) && j !in s.jobs && j in Apply(s, e).jobs
    ensures Apply(s, e).jobs[j].alive == 1
  {
    hide Inv, JobOk;
    if SchedEvent(e) { SchedSameList(s, e); }
    else if AdminEvent(e) { AdminSameList(s, e); }
    else if !e.ExecCreate? && !e.DelFree? && !e.ExecAppend? && !e.DelUnlink? { OtherSameList(s, e); }
  }
  lemma CountsStep(s: State, e: Event)
    requires Inv(s) && CountsOk(s)
    ensures CountsOk(Apply(s, e))
  {
    forall j | j in Apply(s, e).jobs ensures CountOk(Apply(s, e), j) {
      hide Inv, Apply;
      if j !in s.jobs { NewJobCounted(s, e, j); }
      else if s.jobs[j].alive > 0 { CountStays(s, e, j); }
      else { assert CountOk(s, j); ClaimStays(s, e, j); }
    }
  }
  lemma {:induction false} CountsRun(s: State, es: seq<Event>)
    requires Inv(s) && CountsOk(s)
    ensures CountsOk(Exec(s, es))
    decreases |es|
  {
    hide Inv, CountsOk;
    if es != [] {
      Step(s, es[0]);
      CountsStep(s, es[0]);
      CountsRun(Apply(s, es[0]), es[1..]);
    }
  }

  lemma HolderHasJob(s: State, t: Tid, j: Ref)
    requires Inv(s) && t in s.tasks && HeldBy(s.tasks[t], j)
    ensures j in s.jobs
  {
    assert TaskOk(s, t);
    if FlightRef(s.tasks[t], j) { MemberJob(s, t, j); }
  }
  lemma NoHolders(s: State, j: Ref)
    requires !Held(s, j)
    ensures Owners(s, j) == {} && Flights(s, j) == {}
  {
    forall t ensures t !in Owners(s, j) && t !in Flights(s, j) {
      assert t in s.tasks ==> !HeldBy(s.tasks[t], j);
    }
  }
  lemma CountedIsHeld(s: State, j: Ref)
    requires j in s.jobs && JobOk(s, j) && s.jobs[j].alive > 0 && s.jobs[j].leaked <= 0
    ensures Held(s, j)
  {
    if !Held(s, j) { NoHolders(s, j); }
  }
  // In every reachable state the jobs are exactly those that a thread, a fork in flight, a destroyer or
  // an orphan accounts for: none leaks but through orphans.
  lemma JobExistsIff(es: seq<Event>, j: Ref)
    ensures var s := Exec(Init, es); j in s.jobs <==> Held(s, j) || Orphaned(s, j)
  {
    var s := Exec(Init, es);
    Reachable(es);
    assert Inv(Init);
    CountsRun(Init, es);
    if Held(s, j) {
      var t :| t in s.tasks && HeldBy(s.tasks[t], j);
      HolderHasJob(s, t, j);
    }
    if j in s.jobs {
      assert JobOk(s, j) && CountOk(s, j);
      if s.jobs[j].alive > 0 {
        if s.jobs[j].leaked <= 0 { CountedIsHeld(s, j); }
      } else {
        var t :| t in s.tasks && Dying(s.tasks[t].act, j);
        assert HeldBy(s.tasks[t], j);
      }
    }
  }

  // The timer hook's unlocked read of a member's job is safe exactly if the task has not left its exit
  // hook, or somebody else still accounts for the job.
  lemma TimerReadIff(es: seq<Event>, t: Tid, j: Ref)
    requires t in Exec(Init, es).tasks && Exec(Init, es).tasks[t].home == Some(j)
    ensures var s := Exec(Init, es);
      j in s.jobs <==>
        s.tasks[t].act != Gone || Orphaned(s, j) || exists u :: u in s.tasks && u != t && HeldBy(s.tasks[u], j)
  {
    var s := Exec(Init, es);
    Reachable(es);
    JobExistsIff(es, j);
    if s.tasks[t].act != Gone { TimerReadSafe(es, t, j); }
    else { assert TaskOk(s, t) && !HeldBy(s.tasks[t], j); }
  }

  // ---------- who is attached, event by event ----------

  // What a step does to the thread table of job j.
  datatype Move = Stay | Joins(t: Tid) | Leaves(t: Tid)

  function MoveOf(s: State, e: Event, j: Ref): Move {
    match e
    case ExecCreate(t) =>
      if At(s, t, User) && s.tasks[t].home == None && s.tasks[t].entry == None && j == s.nextRef then Joins(t) else Stay
    case Tail(t, ok) => if At(s, t, Newborn) && s.tasks[t].home == Some(j) && ok then Joins(t) else Stay
    case ExitBegin(t) =>
      if At(s, t, User) && t in Attached(s, j) then Leaves(t) else Stay
    case _ => Stay
  }
  function Moved(a: set<Tid>, m: Move): set<Tid> {
    match m
    case Stay => a
    case Joins(t) => a + {t}
    case Leaves(t) => a - {t}
  }

  lemma SchedAttached(s: State, e: Event, j: Ref)
    requires SchedEvent(e)
    ensures Attached(Apply(s, e), j) == Attached(s, j)
  {
    hide Apply;
    Framed(s, e);
    var m := Apply(s, e);
    assert forall t :: t in Attached(m, j) <==> t in Attached(s, j);
  }
  lemma AdminAttached(s: State, e: Event, j: Ref)
    requires AdminEvent(e)
    ensures Attached(Apply(s, e), j) == Attached(s, j)
  {
  }
  lemma ForkAttached(s: State, e: Event, j: Ref)
    requires Inv(s) && ForkEvent(e)
    ensures Attached(Apply(s, e), j) == Moved(Attached(s, j), MoveOf(s, e, j))
  {
    NoFault(s, e);
    hide Inv;
  }
  lemma ExitAttached(s: State, e: Event, j: Ref)
    requires Inv(s) && ExitEvent(e)
    ensures Attached(Apply(s, e), j) == Moved(Attached(s, j), MoveOf(s, e, j))
  {
    NoFault(s, e);
    assert e.t in s.tasks ==> TaskOk(s, e.t);
    hide Inv;
  }
  lemma RestAttached(s: State, e: Event, j: Ref)
    requires Inv(s) && !SchedEvent(e) && !AdminEvent(e) && !ForkEvent(e) && !ExitEvent(e)
    ensures Attached(Apply(s, e), j) == Moved(Attached(s, j), MoveOf(s, e, j))
  {
    NoFault(s, e);
    hide Inv;
  }
  lemma AttachedStep(s: State, e: Event, j: Ref)
    requires Inv(s)
    ensures Attached(Apply(s, e), j) == Moved(Attached(s, j), MoveOf(s, e, j))
  {
    hide Apply, Inv, Attached;
    if SchedEvent(e) { SchedAttached(s, e, j); }
    else if AdminEvent(e) { AdminAttached(s, e, j); }
    else if ForkEvent(e) { ForkAttached(s, e, j); }
    else if ExitEvent(e) { ExitAttached(s, e, j); }
    else { RestAttached(s, e, j); }
  }
}
