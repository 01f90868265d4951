/** Every event keeps the invariant. */
module LifecycleSteps {
  import opened Options
  import opened Lifecycle
  import opened LifecycleInvariant

  ghost predicate SameRefs(k: Task, k': Task) {
    forall j :: OwnRef(k, j) == OwnRef(k', j) && FlightRef(k, j) == FlightRef(k', j)
  }
  ghost predicate SameRoles(k: Task, k': Task) {
    forall j :: Creating(k.act, j) == Creating(k'.act, j) && Dying(k.act, j) == Dying(k'.act, j)
  }
  // The zone lock is kept, or taken or given back by t.
  predicate LockMove(l: Lock, l': Lock, t: Tid) {
    l' == l || (l == Unlocked && l' == ByTask(t)) || (l == ByTask(t) && l' == Unlocked)
  }
  ghost predicate QueuedStays(s: State, t: Tid, k': Task) {
    forall j :: j in s.jobs && t in s.jobs[j].queue ==>
      k'.attached && k'.entry.Some? && k'.entry.value.job == j && Waiting(k'.pc)
  }

  // A step that changes one task, and at most moves the zone lock.
  lemma Quiet(s: State, s': State, t: Tid)
    requires Inv(s) && t in s.tasks && t in s'.tasks
    requires s' == s.(tasks := s.tasks[t := s'.tasks[t]], lock := s'.lock)
    requires LockMove(s.lock, s'.lock, t)
    requires SameRefs(s.tasks[t], s'.tasks[t]) && SameRoles(s.tasks[t], s'.tasks[t])
    requires QueuedStays(s, t, s'.tasks[t])
    requires TaskOk(s', t)
    ensures Inv(s')
  {
    RefCounts(s, s', t);
    forall u | u in s'.tasks ensures TaskOk(s', u) {
      if u != t { assert TaskOk(s, u); }
    }
    forall j | j in s'.jobs ensures JobOk(s', j) { assert JobOk(s, j); }
  }

  // What a step that changes one task and the counts or queue membership of one job must respect.
  ghost predicate OneJobStep(s: State, s': State, t: Tid, j: Ref) {
    && t in s.tasks && t in s'.tasks && j in s.jobs && j in s'.jobs
    && s' == s.(tasks := s.tasks[t := s'.tasks[t]], jobs := s.jobs[j := s'.jobs[j]])
    && s'.jobs[j].jid == s.jobs[j].jid && s'.jobs[j].state == s.jobs[j].state
    && s'.jobs[j].leaked >= s.jobs[j].leaked && (s.jobs[j].alive == 0 ==> s'.jobs[j].alive == 0)
    && s'.jobs[j].alive - s.jobs[j].alive == s'.jobs[j].leaked - s.jobs[j].leaked
         + Count(OwnRef(s'.tasks[t], j)) - Count(OwnRef(s.tasks[t], j))
         + Count(FlightRef(s'.tasks[t], j)) - Count(FlightRef(s.tasks[t], j))
    && (forall i :: i != j ==>
         OwnRef(s.tasks[t], i) == OwnRef(s'.tasks[t], i) && FlightRef(s.tasks[t], i) == FlightRef(s'.tasks[t], i))
    && (s'.jobs[j].leaked > 0 ==> j in s.zone)
    && (s'.jobs[j].leaked > s.jobs[j].leaked ==> forall u :: u in s.tasks ==> !Creating(s.tasks[u].act, j))
    && s'.jobs[j].queue - {t} == s.jobs[j].queue - {t}
    && QueuedStays(s', t, s'.tasks[t])
  }

  lemma OneJobTask(s: State, s': State, t: Tid, j: Ref, u: Tid)
    requires Inv(s) && OneJobStep(s, s', t, j)
    requires u != t && u in s.tasks
    ensures TaskOk(s', u)
  {
    assert TaskOk(s, u);
    assert u in s'.jobs[j].queue <==> u in s'.jobs[j].queue - {t};
    assert u in s.jobs[j].queue <==> u in s.jobs[j].queue - {t};
  }

  lemma OneJobJobs(s: State, s': State, t: Tid, j: Ref)
    requires Inv(s) && OneJobStep(s, s', t, j)
    ensures forall i :: i in s'.jobs ==> JobOk(s', i)
  {
    RefCounts(s, s', t);
    assert forall u :: u != t ==> (u in s'.jobs[j].queue <==> u in s'.jobs[j].queue - {t});
    assert forall u :: u != t ==> (u in s.jobs[j].queue <==> u in s.jobs[j].queue - {t});
    forall i | i in s'.jobs ensures JobOk(s', i) { assert JobOk(s, i); }
  }

  lemma OneJob(s: State, s': State, t: Tid, j: Ref)
    requires Inv(s) && OneJobStep(s, s', t, j)
    requires TaskOk(s', t) && SoleOk(s')
    ensures Inv(s')
  {
    OneJobJobs(s, s', t, j);
    forall u | u in s'.tasks ensures TaskOk(s', u) {
      if u != t { OneJobTask(s, s', t, j, u); }
    }
  }

  // SoleOk survives when one task changes and gains neither a creating nor a dying role,
  // nor a reference to a job that is still being created.
  lemma SoleKept(s: State, s': State, t: Tid)
    requires SoleOk(s) && t in s.tasks && t in s'.tasks && s'.tasks == s.tasks[t := s'.tasks[t]]
    requires forall j :: Creating(s'.tasks[t].act, j) ==> Creating(s.tasks[t].act, j)
    requires forall j :: Dying(s'.tasks[t].act, j) ==> Dying(s.tasks[t].act, j)
    requires forall j :: OwnRef(s'.tasks[t], j) ==>
      OwnRef(s.tasks[t], j) || (forall u :: u in s.tasks ==> !Creating(s.tasks[u].act, j))
    requires forall j :: FlightRef(s'.tasks[t], j) ==>
      FlightRef(s.tasks[t], j) || (forall u :: u in s.tasks ==> !Creating(s.tasks[u].act, j))
    ensures SoleOk(s')
  {
  }

  // ---------- scheduling points ----------

  lemma StepBegin(s: State, t: Tid)
    requires Inv(s)
    ensures Inv(DoBegin(s, t))
  {
    if DoBegin(s, t) != s { assert TaskOk(s, t); Quiet(s, DoBegin(s, t), t); }
  }
  lemma StepLook(s: State, t: Tid)
    requires Inv(s)
    ensures Inv(DoLook(s, t))
  {
    if DoLook(s, t) != s { assert TaskOk(s, t); Quiet(s, DoLook(s, t), t); }
  }
  lemma StepRestore(s: State, t: Tid)
    requires Inv(s)
    ensures Inv(DoRestore(s, t))
  {
    if DoRestore(s, t) != s { assert TaskOk(s, t); Quiet(s, DoRestore(s, t), t); }
  }
  lemma StepHeaven(s: State, t: Tid)
    requires Inv(s)
    ensures Inv(DoHeaven(s, t))
  {
    if DoHeaven(s, t) != s { assert TaskOk(s, t); Quiet(s, DoHeaven(s, t), t); }
  }
  lemma StepLeaveCheck(s: State, t: Tid)
    requires Inv(s)
    ensures Inv(DoLeaveCheck(s, t))
  {
    if DoLeaveCheck(s, t) != s { assert TaskOk(s, t); Quiet(s, DoLeaveCheck(s, t), t); }
  }
  lemma StepBed(s: State, t: Tid)
    requires Inv(s)
    ensures Inv(DoBed(s, t))
  {
    var s' := DoBed(s, t);
    if s' != s {
      assert TaskOk(s, t);
      SoleKept(s, s', t);
      OneJob(s, s', t, s.tasks[t].entry.value.job);
    }
  }
  lemma StepSettle(s: State, t: Tid)
    requires Inv(s)
    ensures Inv(DoSettle(s, t))
  {
    var s' := DoSettle(s, t);
    if s' != s {
      assert TaskOk(s, t);
      if s.tasks[t].pc.st == SUSPENDED {
        Quiet(s, s', t);
      } else {
        SoleKept(s, s', t);
        OneJob(s, s', t, s.tasks[t].entry.value.job);
      }
    }
  }
  lemma StepLeaveUp(s: State, t: Tid)
    requires Inv(s)
    ensures Inv(DoLeaveUp(s, t))
  {
    var s' := DoLeaveUp(s, t);
    if s' != s {
      assert TaskOk(s, t);
      SoleKept(s, s', t);
      OneJob(s, s', t, s.tasks[t].entry.value.job);
    }
  }

  // ---------- execve ----------

  lemma StepExecLock(s: State, t: Tid)
    requires Inv(s)
    ensures Inv(DoExecLock(s, t))
  {
    if DoExecLock(s, t) != s { assert TaskOk(s, t); Quiet(s, DoExecLock(s, t), t); }
  }
  lemma StepExecUnlock(s: State, t: Tid)
    requires Inv(s)
    ensures Inv(DoExecUnlock(s, t))
  {
    if DoExecUnlock(s, t) != s { assert TaskOk(s, t); Quiet(s, DoExecUnlock(s, t), t); }
  }
  lemma StepExecPublish(s: State, t: Tid)
    requires Inv(s)
    ensures Inv(DoExecPublish(s, t))
  {
    if DoExecPublish(s, t) != s { assert TaskOk(s, t); Quiet(s, DoExecPublish(s, t), t); }
  }

  // Nothing about the task concerns job j.
  ghost predicate Untouched(k: Task, j: Ref) {
    !OwnRef(k, j) && !FlightRef(k, j) && !Creating(k.act, j) && !Dying(k.act, j)
  }

  lemma NoRefs(s: State, j: Ref)
    requires forall t :: t in s.tasks ==> Untouched(s.tasks[t], j)
    ensures Owners(s, j) == {} && Flights(s, j) == {}
  {
    forall t ensures t !in Owners(s, j) && t !in Flights(s, j) { assert t in s.tasks ==> Untouched(s.tasks[t], j); }
  }

  // Nothing refers to an address that has not been allocated yet.
  lemma FreshRef(s: State)
    requires Inv(s)
    ensures s.nextRef !in s.jobs && s.nextRef !in s.zone
    ensures forall t :: t in s.tasks ==> Untouched(s.tasks[t], s.nextRef)
  {
    assert s.nextRef in s.jobs ==> JobOk(s, s.nextRef);
    forall t | t in s.tasks ensures Untouched(s.tasks[t], s.nextRef) { assert TaskOk(s, t); }
  }

  lemma StepExecCreate(s: State, t: Tid)
    requires Inv(s)
    ensures Inv(DoExecCreate(s, t))
  {
    var s' := DoExecCreate(s, t);
    if s' != s {
      var j := s.nextRef;
      FreshRef(s);
      NoRefs(s, j);
      ExecCreateTasks(s, t);
      RefCounts(s, s', t);
      assert TaskOk(s, t);
      forall i | i in s'.jobs ensures JobOk(s', i) {
        if i != j { assert JobOk(s, i); }
      }
    }
  }
  lemma ExecCreateTask(s: State, t: Tid, u: Tid)
    requires Inv(s) && DoExecCreate(s, t) != s && u in DoExecCreate(s, t).tasks
    ensures TaskOk(DoExecCreate(s, t), u)
  {
    FreshRef(s);
    assert TaskOk(s, u) && Untouched(s.tasks[u], s.nextRef);
  }
  lemma ExecCreateTasks(s: State, t: Tid)
    requires Inv(s) && DoExecCreate(s, t) != s
    ensures var s' := DoExecCreate(s, t); SoleOk(s') && forall u :: u in s'.tasks ==> TaskOk(s', u)
  {
    hide Inv, TaskOk, SoleOk;
    forall u | u in DoExecCreate(s, t).tasks ensures TaskOk(DoExecCreate(s, t), u) { ExecCreateTask(s, t, u); }
    ExecCreateSole(s, t);
  }
  lemma ExecCreateSole(s: State, t: Tid)
    requires Inv(s) && DoExecCreate(s, t) != s
    ensures SoleOk(DoExecCreate(s, t))
  {
    var s', j := DoExecCreate(s, t), s.nextRef;
    FreshRef(s);
    assert forall u :: u in s'.tasks && u != t ==> s'.tasks[u] == s.tasks[u] && Untouched(s'.tasks[u], j);
    assert forall i :: i != j ==> Untouched(s'.tasks[t], i);
  }

  // Nobody but its creator has anything to do with a job that is not yet on the list.
  lemma OnlyCreator(s: State, t: Tid, j: Ref)
    requires Inv(s) && t in s.tasks && Creating(s.tasks[t].act, j)
    ensures j in s.jobs && OwnRef(s.tasks[t], j)
    ensures forall u :: u in s.tasks && u != t ==> Untouched(s.tasks[u], j)
  {
    assert TaskOk(s, t) && JobOk(s, j);
    Covered(s, j);
    forall u | u in s.tasks && u != t ensures Untouched(s.tasks[u], j) { assert TaskOk(s, u); }
  }

  lemma StepExecAppend(s: State, t: Tid)
    requires Inv(s)
    ensures Inv(DoExecAppend(s, t))
  {
    if t in s.tasks && s.tasks[t].act.ExecLocked? && s.tasks[t].pc == Out {
      var s', j := DoExecAppend(s, t), s.tasks[t].act.j;
      OnlyCreator(s, t, j);
      ExecAppendTasks(s, t);
      ExecAppendJobs(s, t);
      SoleKept(s, s', t);
    }
  }
  lemma ExecAppendJobs(s: State, t: Tid)
    requires Inv(s) && t in s.tasks && s.tasks[t].act.ExecLocked? && s.tasks[t].pc == Out
    ensures var s' := DoExecAppend(s, t);
      (forall i :: i in s'.jobs ==> JobOk(s', i)) && Sorted(s'.jobs, s'.zone, s'.maxJid)
  {
    var s', j := DoExecAppend(s, t), s.tasks[t].act.j;
    OnlyCreator(s, t, j);
    RefCounts(s, s', t);
    forall i | i in s'.jobs ensures JobOk(s', i) { assert JobOk(s, i); }
    assert TaskOk(s, t);
  }
  lemma ExecAppendTasks(s: State, t: Tid)
    requires Inv(s) && t in s.tasks && s.tasks[t].act.ExecLocked? && s.tasks[t].pc == Out
    ensures var s' := DoExecAppend(s, t); forall u :: u in s'.tasks ==> TaskOk(s', u)
  {
    var s', j := DoExecAppend(s, t), s.tasks[t].act.j;
    OnlyCreator(s, t, j);
    forall u | u in s'.tasks ensures TaskOk(s', u) {
      assert TaskOk(s, u);
      if u != t { assert Untouched(s.tasks[u], j); }
    }
  }

  // ---------- the surroundings ----------

  lemma StepSetRun(s: State, t: Tid, r: RunState)
    requires Inv(s)
    ensures Inv(Apply(s, SetRun(t, r)))
  {
    var s' := Apply(s, SetRun(t, r));
    if s' != s { assert TaskOk(s, t); Quiet(s, s', t); }
  }
  lemma StepWakeup(s: State, t: Tid)
    requires Inv(s)
    ensures Inv(Apply(s, Wakeup(t)))
  {
    var s' := Apply(s, Wakeup(t));
    if s' != s { assert TaskOk(s, t); Quiet(s, s', t); }
  }
  lemma StepDie(s: State, t: Tid)
    requires Inv(s)
    ensures Inv(DoDie(s, t))
  {
    if DoDie(s, t) != s { assert TaskOk(s, t); Quiet(s, DoDie(s, t), t); }
  }

  // A task that appears holds at most references in flight.
  lemma NewTask(s: State, s': State, t: Tid)
    requires Inv(s) && t !in s.tasks && t in s'.tasks && s' == s.(tasks := s.tasks[t := s'.tasks[t]])
    requires forall j :: Untouched(s'.tasks[t], j)
    requires TaskOk(s', t)
    ensures Inv(s')
  {
    RefCounts(s, s', t);
    forall u | u in s'.tasks ensures TaskOk(s', u) {
      if u != t { assert TaskOk(s, u); }
    }
    forall j | j in s'.jobs ensures JobOk(s', j) { assert JobOk(s, j) && Untouched(s'.tasks[t], j); }
    NewTaskSole(s, s', t);
  }
  lemma NewTaskSole(s: State, s': State, t: Tid)
    requires SoleOk(s) && t !in s.tasks && t in s'.tasks && s'.tasks == s.tasks[t := s'.tasks[t]]
    requires forall j :: Untouched(s'.tasks[t], j)
    ensures SoleOk(s')
  {
    forall j ensures !OwnRef(s'.tasks[t], j) && !FlightRef(s'.tasks[t], j) && !Creating(s'.tasks[t].act, j) &&
      !Dying(s'.tasks[t].act, j) {
      assert Untouched(s'.tasks[t], j);
    }
  }
  lemma StepSpawn(s: State, t: Tid)
    requires Inv(s)
    ensures Inv(Apply(s, Spawn(t)))
  {
    if t !in s.tasks { NewTask(s, Apply(s, Spawn(t)), t); }
  }

  // ---------- fork ----------

  // A member's job is not being created by anybody.
  lemma MemberNotCreating(s: State, t: Tid, j: Ref, u: Tid)
    requires Inv(s) && t in s.tasks && u in s.tasks
    requires (s.tasks[t].home == Some(j) && (s.tasks[t].act == User || s.tasks[t].act.Newborn?)) ||
      s.tasks[t].act == Forking(Some(j))
    ensures !Creating(s.tasks[u].act, j)
  {
    assert TaskOk(s, t) && TaskOk(s, u);
    if Creating(s.tasks[u].act, j) {
      OnlyCreator(s, u, j);
    }
  }
  // A member's job counts the member, and nobody is still creating it.
  lemma MemberJob(s: State, t: Tid, j: Ref)
    requires Inv(s) && t in s.tasks
    requires (s.tasks[t].home == Some(j) && (s.tasks[t].act == User || s.tasks[t].act.Newborn?)) ||
      s.tasks[t].act == Forking(Some(j))
    ensures j in s.jobs && j in s.zone && JobOk(s, j) && s.jobs[j].alive >= 1
    ensures s.tasks[t].act == Forking(Some(j)) ==> s.jobs[j].alive >= 2
    ensures forall u :: u in s.tasks ==> !Creating(s.tasks[u].act, j)
  {
    assert TaskOk(s, t);
    var k := s.tasks[t];
    assert k.entry.Some? && !k.act.Newborn? ==> OwnRef(k, j);
    assert k.act.Newborn? || k.act.Forking? ==> FlightRef(k, j);
    assert JobOk(s, j);
    Covered(s, j);
    forall u | u in s.tasks ensures !Creating(s.tasks[u].act, j) { MemberNotCreating(s, t, j, u); }
  }

  lemma ForkBeginMember(s: State, t: Tid, j: Ref)
    requires Inv(s) && At(s, t, User) && s.tasks[t].home == Some(j)
    ensures var s' := DoForkBegin(s, t); OneJobStep(s, s', t, j) && TaskOk(s', t) && SoleOk(s')
  {
    MemberJob(s, t, j);
    assert TaskOk(s, t);
    SoleKept(s, DoForkBegin(s, t), t);
  }
  lemma StepForkBegin(s: State, t: Tid)
    requires Inv(s)
    ensures Inv(DoForkBegin(s, t))
  {
    if At(s, t, User) {
      match s.tasks[t].home
      case None =>
        assert TaskOk(s, t);
        Quiet(s, DoForkBegin(s, t), t);
      case Some(j) =>
        ForkBeginMember(s, t, j);
        OneJob(s, DoForkBegin(s, t), t, j);
    }
  }
  lemma StepForkOk(s: State, t: Tid)
    requires Inv(s)
    ensures Inv(DoForkOk(s, t))
  {
    if DoForkOk(s, t) != s { assert TaskOk(s, t); Quiet(s, DoForkOk(s, t), t); }
  }

  // The parent hands its extra reference over to the newborn child.
  lemma StepForkChild(s: State, t: Tid, c: Tid)
    requires Inv(s)
    ensures Inv(DoForkChild(s, t, c))
  {
    var s' := DoForkChild(s, t, c);
    if s' != s {
      ForkChildTasks(s, t, c);
      ForkChildCounts(s, t, c);
      forall j | j in s'.jobs ensures JobOk(s', j) { assert JobOk(s, j); }
      ForkChildSole(s, t, c);
    }
  }
  lemma ForkChildTask(s: State, t: Tid, c: Tid, u: Tid)
    requires Inv(s) && DoForkChild(s, t, c) != s && u in DoForkChild(s, t, c).tasks && u != c
    ensures TaskOk(DoForkChild(s, t, c), u)
  {
    assert TaskOk(s, u);
  }
  lemma ForkChildTasks(s: State, t: Tid, c: Tid)
    requires Inv(s) && DoForkChild(s, t, c) != s
    ensures var s' := DoForkChild(s, t, c); forall u :: u in s'.tasks ==> TaskOk(s', u)
  {
    hide Inv, TaskOk, DoForkChild;
    ForkChildNewborn(s, t, c);
    forall u | u in DoForkChild(s, t, c).tasks ensures TaskOk(DoForkChild(s, t, c), u) {
      if u != c { ForkChildTask(s, t, c, u); }
    }
  }
  lemma ForkChildNewborn(s: State, t: Tid, c: Tid)
    requires Inv(s) && DoForkChild(s, t, c) != s
    ensures TaskOk(DoForkChild(s, t, c), c)
  {
    assert TaskOk(s, t);
    forall j | s.tasks[t].home == Some(j) ensures j in s.jobs && j in s.zone {
      assert s.tasks[t].act == Forking(Some(j));
      MemberJob(s, t, j);
    }
  }
  lemma ForkChildCounts(s: State, t: Tid, c: Tid)
    requires Inv(s) && DoForkChild(s, t, c) != s
    ensures var s' := DoForkChild(s, t, c);
      forall j :: |Owners(s', j)| == |Owners(s, j)| && |Flights(s', j)| == |Flights(s, j)|
  {
    var s' := DoForkChild(s, t, c);
    assert TaskOk(s, t);
    var m := PutTask(s, t, s'.tasks[t]);
    RefCounts(s, m, t);
    RefCounts(m, s', c);
    forall j ensures |Owners(s', j)| == |Owners(s, j)| && |Flights(s', j)| == |Flights(s, j)| {
      assert FlightRef(s'.tasks[c], j) == FlightRef(s.tasks[t], j);
      assert OwnRef(s'.tasks[t], j) == OwnRef(s.tasks[t], j) && !FlightRef(s'.tasks[t], j) && !OwnRef(s'.tasks[c], j);
    }
  }
  lemma ForkChildSole(s: State, t: Tid, c: Tid)
    requires Inv(s) && DoForkChild(s, t, c) != s
    ensures SoleOk(DoForkChild(s, t, c))
  {
    var s' := DoForkChild(s, t, c);
    assert TaskOk(s, t);
    assert forall j :: FlightRef(s'.tasks[c], j) ==> FlightRef(s.tasks[t], j);
    assert forall j :: !OwnRef(s'.tasks[c], j) && !Creating(s'.tasks[c].act, j) && !Dying(s'.tasks[c].act, j);
    assert forall j :: !FlightRef(s'.tasks[t], j) && OwnRef(s'.tasks[t], j) == OwnRef(s.tasks[t], j);
    assert forall j :: !Creating(s'.tasks[t].act, j) && !Dying(s'.tasks[t].act, j);
  }

  // A failed fork gives the reference back and never reaches zero, since the parent is a member.
  lemma ForkFailMember(s: State, t: Tid, j: Ref)
    requires Inv(s) && At(s, t, Forking(Some(j)))
    ensures var s' := DoForkFail(s, t);
      s'.tasks[t].act == User && OneJobStep(s, s', t, j) && TaskOk(s', t) && SoleOk(s')
  {
    MemberJob(s, t, j);
    assert TaskOk(s, t);
    SoleKept(s, DoForkFail(s, t), t);
  }
  lemma StepForkFail(s: State, t: Tid)
    requires Inv(s)
    ensures Inv(DoForkFail(s, t))
  {
    if t in s.tasks && s.tasks[t].act.Forking? && s.tasks[t].pc == Out {
      match s.tasks[t].act.of
      case None =>
        assert TaskOk(s, t);
        Quiet(s, DoForkFail(s, t), t);
      case Some(j) =>
        ForkFailMember(s, t, j);
        OneJob(s, DoForkFail(s, t), t, j);
    }
  }

  lemma TailMember(s: State, t: Tid, j: Ref, ok: bool)
    requires Inv(s) && At(s, t, Newborn) && s.tasks[t].home == Some(j)
    ensures var s' := DoTail(s, t, ok); j in s.jobs && j in s'.jobs && TaskOk(s', t) && SoleOk(s')
  {
    MemberJob(s, t, j);
    assert TaskOk(s, t);
    SoleKept(s, DoTail(s, t, ok), t);
  }
  lemma TailStep(s: State, t: Tid, j: Ref, ok: bool)
    requires Inv(s) && At(s, t, Newborn) && s.tasks[t].home == Some(j)
    ensures OneJobStep(s, DoTail(s, t, ok), t, j)
  {
    var s' := DoTail(s, t, ok);
    MemberJob(s, t, j);
    assert TaskOk(s, t);
    assert s' == s.(tasks := s.tasks[t := s'.tasks[t]], jobs := s.jobs[j := s'.jobs[j]]);
  }
  lemma StepTail(s: State, t: Tid, ok: bool)
    requires Inv(s)
    ensures Inv(DoTail(s, t, ok))
  {
    if At(s, t, Newborn) {
      match s.tasks[t].home
      case None =>
        assert TaskOk(s, t);
        Quiet(s, DoTail(s, t, ok), t);
      case Some(j) =>
        TailMember(s, t, j, ok);
        TailStep(s, t, j, ok);
        OneJob(s, DoTail(s, t, ok), t, j);
    }
  }

  // ---------- exit and destruction ----------

  lemma StepExitBegin(s: State, t: Tid)
    requires Inv(s)
    ensures Inv(DoExitBegin(s, t))
  {
    if DoExitBegin(s, t) != s { ExitBeginTask(s, t); Quiet(s, DoExitBegin(s, t), t); }
  }
  // A task that runs its exit hook is not on any wait queue.
  lemma ExitBeginTask(s: State, t: Tid)
    requires Inv(s) && DoExitBegin(s, t) != s
    ensures TaskOk(DoExitBegin(s, t), t) && !DoExitBegin(s, t).fault
    ensures forall j :: j in s.jobs ==> t !in s.jobs[j].queue
  {
    assert TaskOk(s, t);
    forall j | j in s.jobs ensures t !in s.jobs[j].queue { assert JobOk(s, j); }
  }

  lemma ExitFreeTask(s: State, t: Tid)
    requires Inv(s) && t in s.tasks && s.tasks[t].act.ExitDetached? && s.tasks[t].pc == Out
    ensures var s', j := DoExitFree(s, t), s.tasks[t].act.j;
      j in s.jobs && t !in s.jobs[j].queue && !s'.fault && TaskOk(s', t) && QueuedStays(s, t, s'.tasks[t])
  {
    assert TaskOk(s, t);
    forall i | i in s.jobs ensures t !in s.jobs[i].queue { assert JobOk(s, i); }
  }
  lemma StepExitFree(s: State, t: Tid)
    requires Inv(s)
    ensures Inv(DoExitFree(s, t))
  {
    if t in s.tasks && s.tasks[t].act.ExitDetached? && s.tasks[t].pc == Out {
      ExitFreeTask(s, t);
      assert TaskOk(s, t);
      Quiet(s, DoExitFree(s, t), t);
    }
  }

  // The task that takes the count to zero is the only one to destroy the job.
  lemma ExitDropTask(s: State, t: Tid)
    requires Inv(s) && t in s.tasks && s.tasks[t].act.ExitPut? && s.tasks[t].pc == Out
    ensures var s', j := DoExitDrop(s, t), s.tasks[t].act.j; j in s.jobs && TaskOk(s', t) && OneJobStep(s, s', t, j)
  {
    var j := s.tasks[t].act.j;
    assert TaskOk(s, t) && JobOk(s, j);
    Covered(s, j);
    assert OwnRef(s.tasks[t], j);
    forall i | i in s.jobs ensures t !in s.jobs[i].queue { assert JobOk(s, i); }
  }
  lemma ExitDropSole(s: State, t: Tid)
    requires Inv(s) && t in s.tasks && s.tasks[t].act.ExitPut? && s.tasks[t].pc == Out
    ensures SoleOk(DoExitDrop(s, t))
  {
    var s', j := DoExitDrop(s, t), s.tasks[t].act.j;
    assert TaskOk(s, t) && JobOk(s, j);
    Covered(s, j);
    assert OwnRef(s.tasks[t], j);
    forall u | u in s.tasks ensures !Dying(s.tasks[u].act, j) { assert TaskOk(s, u); }
    assert forall i :: !Creating(s'.tasks[t].act, i) && !FlightRef(s'.tasks[t], i) && !OwnRef(s'.tasks[t], i);
    assert forall i :: Dying(s'.tasks[t].act, i) ==> i == j;
  }
  lemma StepExitDrop(s: State, t: Tid)
    requires Inv(s)
    ensures Inv(DoExitDrop(s, t))
  {
    if t in s.tasks && s.tasks[t].act.ExitPut? && s.tasks[t].pc == Out {
      ExitDropTask(s, t);
      ExitDropSole(s, t);
      OneJob(s, DoExitDrop(s, t), t, s.tasks[t].act.j);
    }
  }
  lemma StepDelLock(s: State, t: Tid)
    requires Inv(s)
    ensures Inv(DoDelLock(s, t))
  {
    if DoDelLock(s, t) != s { assert TaskOk(s, t); Quiet(s, DoDelLock(s, t), t); }
  }
  lemma StepDelUnlock(s: State, t: Tid)
    requires Inv(s)
    ensures Inv(DoDelUnlock(s, t))
  {
    if DoDelUnlock(s, t) != s { assert TaskOk(s, t); Quiet(s, DoDelUnlock(s, t), t); }
  }

  // A job whose count is zero: no thread, fork or other destroyer has anything to do with it.
  lemma OnlyDestroyer(s: State, t: Tid, j: Ref)
    requires Inv(s) && t in s.tasks && Dying(s.tasks[t].act, j)
    ensures j in s.jobs && s.jobs[j].queue == {} && s.jobs[j].leaked == 0
    ensures forall u :: u in s.tasks && u != t ==> Untouched(s.tasks[u], j)
    ensures forall u :: u in s.tasks ==> !OwnRef(s.tasks[u], j) && !FlightRef(s.tasks[u], j)
  {
    assert TaskOk(s, t) && JobOk(s, j);
    Covered(s, j);
    forall u | u in s.tasks ensures !OwnRef(s.tasks[u], j) && !FlightRef(s.tasks[u], j) &&
      (u != t ==> Untouched(s.tasks[u], j)) {
      assert TaskOk(s, u);
      assert Creating(s.tasks[u].act, j) ==> OwnRef(s.tasks[u], j);
    }
    forall u ensures u !in s.jobs[j].queue {
      assert u in s.jobs[j].queue ==> OwnRef(s.tasks[u], j);
    }
  }

  lemma WithoutOk(jobs: map<Ref, Job>, zone: seq<Ref>, maxJid: int, j: Ref)
    requires Sorted(jobs, zone, maxJid)
    ensures Sorted(jobs, Without(zone, j), maxJid)
    ensures forall i :: i in Without(zone, j) <==> i in zone && i != j
  {
    if zone != [] {
      WithoutOk(jobs, zone[1..], maxJid, j);
      assert forall i :: i in zone <==> i == zone[0] || i in zone[1..];
      if zone[0] != j {
        var r := Without(zone[1..], j);
        assert Without(zone, j) == [zone[0]] + r;
        forall k | 0 <= k < |r| ensures jobs[zone[0]].jid < jobs[r[k]].jid {
          assert r[k] in r;
          assert r[k] in zone[1..];
        }
      } else {
        assert zone[0] !in zone[1..];
      }
    }
  }

  lemma DelUnlinkTask(s: State, t: Tid, u: Tid)
    requires Inv(s) && t in s.tasks && s.tasks[t].act.DelLocked? && s.tasks[t].pc == Out
    requires u in DoDelUnlink(s, t).tasks
    ensures TaskOk(DoDelUnlink(s, t), u)
  {
    var j := s.tasks[t].act.j;
    assert TaskOk(s, t) && TaskOk(s, u);
    OnlyDestroyer(s, t, j);
    WithoutOk(s.jobs, s.zone, s.maxJid, j);
    if u != t { assert Untouched(s.tasks[u], j); }
  }
  lemma DelUnlinkTasks(s: State, t: Tid)
    requires Inv(s) && t in s.tasks && s.tasks[t].act.DelLocked? && s.tasks[t].pc == Out
    ensures var s' := DoDelUnlink(s, t); !s'.fault && forall u :: u in s'.tasks ==> TaskOk(s', u)
  {
    assert TaskOk(s, t);
    forall u | u in DoDelUnlink(s, t).tasks ensures TaskOk(DoDelUnlink(s, t), u) { DelUnlinkTask(s, t, u); }
  }
  lemma StepDelUnlink(s: State, t: Tid)
    requires Inv(s)
    ensures Inv(DoDelUnlink(s, t))
  {
    if t in s.tasks && s.tasks[t].act.DelLocked? && s.tasks[t].pc == Out {
      var s', j := DoDelUnlink(s, t), s.tasks[t].act.j;
      assert TaskOk(s, t);
      OnlyDestroyer(s, t, j);
      DelUnlinkTasks(s, t);
      WithoutOk(s.jobs, s.zone, s.maxJid, j);
      RefCounts(s, s', t);
      forall i | i in s'.jobs ensures JobOk(s', i) { assert JobOk(s, i); }
      SoleKept(s, s', t);
    }
  }

  lemma DelFreeOthers(s: State, t: Tid, u: Tid)
    requires Inv(s) && t in s.tasks && s.tasks[t].act.DelUnlocked? && s.tasks[t].pc == Out && u in s.tasks && u != t
    ensures TaskOk(DoDelFree(s, t), u)
  {
    var j := s.tasks[t].act.j;
    OnlyDestroyer(s, t, j);
    assert TaskOk(s, u) && Untouched(s.tasks[u], j);
  }
  lemma DelFreeTask(s: State, t: Tid, u: Tid)
    requires Inv(s) && t in s.tasks && s.tasks[t].act.DelUnlocked? && s.tasks[t].pc == Out && u in DoDelFree(s, t).tasks
    ensures TaskOk(DoDelFree(s, t), u)
  {
    if u != t { DelFreeOthers(s, t, u); }
    else {
      assert TaskOk(s, t);
      OnlyDestroyer(s, t, s.tasks[t].act.j);
    }
  }
  lemma DelFreeTasks(s: State, t: Tid)
    requires Inv(s) && t in s.tasks && s.tasks[t].act.DelUnlocked? && s.tasks[t].pc == Out
    ensures var s' := DoDelFree(s, t); !s'.fault && forall u :: u in s'.tasks ==> TaskOk(s', u)
  {
    var s', j := DoDelFree(s, t), s.tasks[t].act.j;
    assert TaskOk(s, t);
    OnlyDestroyer(s, t, j);
    forall u | u in s'.tasks ensures TaskOk(s', u) {
      DelFreeTask(s, t, u);
    }
  }
  lemma StepDelFree(s: State, t: Tid)
    requires Inv(s)
    ensures Inv(DoDelFree(s, t))
  {
    if t in s.tasks && s.tasks[t].act.DelUnlocked? && s.tasks[t].pc == Out {
      var s', j := DoDelFree(s, t), s.tasks[t].act.j;
      assert TaskOk(s, t);
      OnlyDestroyer(s, t, j);
      DelFreeTasks(s, t);
      RefCounts(s, s', t);
      forall i | i in s'.jobs ensures JobOk(s', i) { assert JobOk(s, i); }
      SoleKept(s, s', t);
    }
  }

  // ---------- administrators ----------

  // Moves of the lock word that leave tasks and jobs alone.
  lemma AdminMove(s: State, s': State)
    requires Inv(s) && s' == s.(lock := s'.lock)
    requires !s.lock.ByTask? && !s'.lock.ByTask?
    requires s.lock.ByAdmin? ==> !s.lock.pc.WakePending?
    requires AdminOk(s')
    ensures Inv(s')
  {
    forall u | u in s'.tasks ensures TaskOk(s', u) { assert TaskOk(s, u); }
    forall i | i in s'.jobs ensures JobOk(s', i) {
      assert JobOk(s, i) && Owners(s, i) == Owners(s', i) && Flights(s, i) == Flights(s', i);
    }
  }

  lemma FindJobOnList(jobs: map<Ref, Job>, zone: seq<Ref>, jid: int)
    ensures FindJob(jobs, zone, jid).Some? ==> FindJob(jobs, zone, jid).value in zone
  {
  }

  lemma StepAdminLock(s: State, op: AdminOp, jid: int)
    requires Inv(s)
    ensures Inv(DoAdminLock(s, op, jid))
  {
    if s.lock == Unlocked { AdminMove(s, DoAdminLock(s, op, jid)); }
  }
  lemma StepAdminSearch(s: State)
    requires Inv(s)
    ensures Inv(DoAdminSearch(s))
  {
    if s.lock.ByAdmin? && s.lock.pc.Searching? {
      FindJobOnList(s.jobs, s.zone, s.lock.pc.jid);
      AdminMove(s, DoAdminSearch(s));
    }
  }
  lemma StepAdminRead(s: State)
    requires Inv(s)
    ensures Inv(DoAdminRead(s))
  {
    if s.lock.ByAdmin? && s.lock.pc.Found? { AdminMove(s, DoAdminRead(s)); }
  }
  lemma StepAdminUnlock(s: State)
    requires Inv(s)
    ensures Inv(DoAdminUnlock(s))
  {
    if s.lock == ByAdmin(Finished) { AdminMove(s, DoAdminUnlock(s)); }
  }
  lemma StepAdminWrite(s: State)
    requires Inv(s)
    ensures Inv(DoAdminWrite(s))
  {
    if s.lock.ByAdmin? && s.lock.pc.Read? {
      var s' := DoAdminWrite(s);
      forall u | u in s'.tasks ensures TaskOk(s', u) { assert TaskOk(s, u); }
      forall i | i in s'.jobs ensures JobOk(s', i) {
        assert JobOk(s, i) && Owners(s, i) == Owners(s', i) && Flights(s, i) == Flights(s', i);
      }
      assert SoleOk(s');
    }
  }

  // wake_up changes only run states, so every reference and role stays.
  lemma WakeSame(s: State, h: Ref)
    requires h in s.jobs
    ensures WakeAll(s, h).tasks.Keys == s.tasks.Keys
    ensures forall t :: t in s.tasks ==> WakeAll(s, h).tasks[t] == s.tasks[t].(run := WakeAll(s, h).tasks[t].run)
    ensures forall i :: Owners(WakeAll(s, h), i) == Owners(s, i) && Flights(WakeAll(s, h), i) == Flights(s, i)
  {
    var s' := WakeAll(s, h);
    assert s'.tasks.Keys == s.tasks.Keys;
    assert forall t :: t in s.tasks ==> s'.tasks[t] == s.tasks[t].(run := s'.tasks[t].run);
    assert forall t, i :: t in s.tasks ==>
      OwnRef(s'.tasks[t], i) == OwnRef(s.tasks[t], i) && FlightRef(s'.tasks[t], i) == FlightRef(s.tasks[t], i);
    forall i ensures Owners(s', i) == Owners(s, i) && Flights(s', i) == Flights(s, i) {
      assert forall t :: t in Owners(s', i) <==> t in Owners(s, i);
      assert forall t :: t in Flights(s', i) <==> t in Flights(s, i);
    }
  }
  lemma WakeTask(s: State, t: Tid)
    requires Inv(s) && s.lock.ByAdmin? && s.lock.pc.WakePending? && t in s.tasks
    ensures t in DoAdminWake(s).tasks && TaskOk(DoAdminWake(s), t)
  {
    assert TaskOk(s, t);
    hide Creating, Dying, Linked, OwnRef, FlightRef, Inv;
    WakeOne(s, t);
  }
  lemma WakeOne(s: State, t: Tid)
    requires s.lock.ByAdmin? && s.lock.pc.WakePending? && s.lock.pc.h in s.jobs && t in s.tasks
    ensures t in DoAdminWake(s).tasks
    ensures var k, m := s.tasks[t], DoAdminWake(s).tasks[t]; SameRoles(k, m) && SameRefs(k, m) && m == k.(run := m.run)
  {
  }
  lemma WakeJob(s: State, i: Ref)
    requires Inv(s) && s.lock.ByAdmin? && s.lock.pc.WakePending? && i in DoAdminWake(s).jobs
    ensures JobOk(DoAdminWake(s), i)
  {
    var s' := DoAdminWake(s);
    WakeSame(s, s.lock.pc.h);
    assert JobOk(s, i) && Owners(s', i) == Owners(s, i) && Flights(s', i) == Flights(s, i);
  }
  // Nobody's part in a job has changed.
  ghost predicate AllRoles(s: State, s': State) {
    && s'.tasks.Keys == s.tasks.Keys
    && (forall t :: t in s.tasks ==> s'.tasks[t].act == s.tasks[t].act)
    && (forall t, j :: t in s.tasks ==> OwnRef(s'.tasks[t], j) == OwnRef(s.tasks[t], j))
    && (forall t, j :: t in s.tasks ==> FlightRef(s'.tasks[t], j) == FlightRef(s.tasks[t], j))
  }
  lemma SoleSame(s: State, s': State)
    requires SoleOk(s) && AllRoles(s, s')
    ensures SoleOk(s')
  {
    hide OwnRef, FlightRef, Creating, Dying;
  }
  lemma WakeRoles(s: State)
    requires s.lock.ByAdmin? && s.lock.pc.WakePending? && s.lock.pc.h in s.jobs
    ensures AllRoles(s, DoAdminWake(s))
  {
    hide Sleeping;
    WakeSame(s, s.lock.pc.h);
  }
  lemma WakeSole(s: State)
    requires Inv(s) && s.lock.ByAdmin? && s.lock.pc.WakePending?
    ensures SoleOk(DoAdminWake(s))
  {
    WakeRoles(s);
    SoleSame(s, DoAdminWake(s));
  }
  lemma StepAdminWake(s: State)
    requires Inv(s)
    ensures Inv(DoAdminWake(s))
  {
    if s.lock.ByAdmin? && s.lock.pc.WakePending? {
      var s', h := DoAdminWake(s), s.lock.pc.h;
      WakeSame(s, h);
      forall u | u in s'.tasks ensures TaskOk(s', u) { WakeTask(s, u); }
      forall i | i in s'.jobs ensures JobOk(s', i) { WakeJob(s, i); }
      WakeSole(s);
    }
  }

  // ---------- every event, every run ----------

  lemma StepLife(s: State, e: Event)
    requires Inv(s)
    requires e.Spawn? || e.SetRun? || e.Wakeup? || e.ExecCreate? || e.ExecLock? || e.ExecAppend? || e.ExecUnlock? ||
      e.ExecPublish? || e.ForkBegin? || e.ForkChild? || e.ForkOk? || e.ForkFail? || e.Tail?
    ensures Inv(Apply(s, e))
  {
    hide Inv;
    match e
    case Spawn(t) => StepSpawn(s, t);
    case SetRun(t, r) => StepSetRun(s, t, r);
    case Wakeup(t) => StepWakeup(s, t);
    case ExecCreate(t) => StepExecCreate(s, t);
    case ExecLock(t) => StepExecLock(s, t);
    case ExecAppend(t) => StepExecAppend(s, t);
    case ExecUnlock(t) => StepExecUnlock(s, t);
    case ExecPublish(t) => StepExecPublish(s, t);
    case ForkBegin(t) => StepForkBegin(s, t);
    case ForkChild(t, c) => StepForkChild(s, t, c);
    case ForkOk(t) => StepForkOk(s, t);
    case ForkFail(t) => StepForkFail(s, t);
    case Tail(t, ok) => StepTail(s, t, ok);
  }
  lemma StepExit(s: State, e: Event)
    requires Inv(s)
    requires e.ExitBegin? || e.ExitFree? || e.ExitDrop? || e.DelLock? || e.DelUnlink? || e.DelUnlock? || e.DelFree? ||
      e.Die?
    ensures Inv(Apply(s, e))
  {
    hide Inv;
    match e
    case ExitBegin(t) => StepExitBegin(s, t);
    case ExitFree(t) => StepExitFree(s, t);
    case ExitDrop(t) => StepExitDrop(s, t);
    case DelLock(t) => StepDelLock(s, t);
    case DelUnlink(t) => StepDelUnlink(s, t);
    case DelUnlock(t) => StepDelUnlock(s, t);
    case DelFree(t) => StepDelFree(s, t);
    case Die(t) => StepDie(s, t);
  }
  lemma StepEnter(s: State, e: Event)
    requires Inv(s)
    requires e.Begin? || e.Bed? || e.Look? || e.Settle?
    ensures Inv(Apply(s, e))
  {
    hide Inv;
    match e
    case Begin(t) => StepBegin(s, t);
    case Bed(t) => StepBed(s, t);
    case Look(t) => StepLook(s, t);
    case Settle(t) => StepSettle(s, t);
  }
  lemma StepRise(s: State, e: Event)
    requires Inv(s)
    requires e.Restore? || e.Heaven? || e.LeaveCheck? || e.LeaveUp?
    ensures Inv(Apply(s, e))
  {
    hide Inv;
    match e
    case Restore(t) => StepRestore(s, t);
    case Heaven(t) => StepHeaven(s, t);
    case LeaveCheck(t) => StepLeaveCheck(s, t);
    case LeaveUp(t) => StepLeaveUp(s, t);
  }
  lemma StepAdminFind(s: State, e: Event)
    requires Inv(s)
    requires e.AdminLock? || e.AdminSearch? || e.AdminRead?
    ensures Inv(Apply(s, e))
  {
    hide Inv;
    match e
    case AdminLock(op, jid) => StepAdminLock(s, op, jid);
    case AdminSearch => StepAdminSearch(s);
    case AdminRead => StepAdminRead(s);
  }
  lemma StepAdminAct(s: State, e: Event)
    requires Inv(s)
    requires e.AdminWrite? || e.AdminWake? || e.AdminUnlock?
    ensures Inv(Apply(s, e))
  {
    hide Inv;
    match e
    case AdminWrite => StepAdminWrite(s);
    case AdminWake => StepAdminWake(s);
    case AdminUnlock => StepAdminUnlock(s);
  }
  lemma Step(s: State, e: Event)
    requires Inv(s)
    ensures Inv(Apply(s, e))
  {
    hide Inv;
    match e
    case Begin(_) | Bed(_) | Look(_) | Settle(_) => StepEnter(s, e);
    case Restore(_) | Heaven(_) | LeaveCheck(_) | LeaveUp(_) => StepRise(s, e);
    case AdminLock(_, _) | AdminSearch | AdminRead => StepAdminFind(s, e);
    case AdminWrite | AdminWake | AdminUnlock => StepAdminAct(s, e);
    case ExitBegin(_) | ExitFree(_) | ExitDrop(_) | Die(_) => StepExit(s, e);
    case DelLock(_) | DelUnlink(_) | DelUnlock(_) | DelFree(_) => StepExit(s, e);
    case _ => StepLife(s, e);
  }

  lemma {:induction false} Runs(s: State, es: seq<Event>)
    requires Inv(s)
    ensures Inv(Exec(s, es))
    decreases |es|
  {
    if es != [] {
      Step(s, es[0]);
      Runs(Apply(s, es[0]), es[1..]);
    }
  }

  lemma Reachable(es: seq<Event>)
    ensures Inv(Exec(Init, es))
  {
    assert Inv(Init);
    Runs(Init, es);
  }
}
