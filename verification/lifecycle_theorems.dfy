/** What the invariant means over whole runs: conservation, safety, wakeups, administration, kills. */
module LifecycleTheorems {
  import opened Options
  import opened Lifecycle
  import opened LifecycleInvariant
  import opened LifecycleSteps

  // ---------- references and destruction ----------

  function Attached(s: State, j: Ref): set<Tid> {
    set t | t in s.tasks && s.tasks[t].attached && s.tasks[t].entry.Some? && s.tasks[t].entry.value.job == j
  }
  // Detached from the table by the exit hook, reference not yet dropped.
  function Leaving(s: State, j: Ref): set<Tid> {
    set t | t in s.tasks && (s.tasks[t].act == ExitDetached(j) || s.tasks[t].act == ExitPut(j))
  }
  function ParentsInFork(s: State, j: Ref): set<Tid> { set t | t in s.tasks && s.tasks[t].act == Forking(Some(j)) }
  function Newborns(s: State, j: Ref): set<Tid> {
    set t | t in s.tasks && s.tasks[t].act == Newborn && s.tasks[t].home == Some(j)
  }

  // Each reference belongs to exactly one of the four groups.
  lemma Partition(s: State, j: Ref)
    requires Inv(s)
    ensures Owners(s, j) == Attached(s, j) + Leaving(s, j) && Attached(s, j) !! Leaving(s, j)
    ensures Flights(s, j) == ParentsInFork(s, j) + Newborns(s, j) && ParentsInFork(s, j) !! Newborns(s, j)
  {
    forall t ensures (t in Owners(s, j) <==> t in Attached(s, j) || t in Leaving(s, j)) &&
      !(t in Attached(s, j) && t in Leaving(s, j)) {
      assert t in s.tasks ==> TaskOk(s, t);
    }
    forall t ensures t in Flights(s, j) <==> t in ParentsInFork(s, j) || t in Newborns(s, j) { }
  }

  // alive_proc is exactly the threads, the forks in flight and the orphans.
  lemma ReferenceConservation(es: seq<Event>, j: Ref)
    requires j in Exec(Init, es).jobs
    ensures var s := Exec(Init, es);
      s.jobs[j].alive ==
        |Attached(s, j)| + |Leaving(s, j)| + |ParentsInFork(s, j)| + |Newborns(s, j)| + s.jobs[j].leaked
  {
    Reachable(es);
    assert JobOk(Exec(Init, es), j);
    Partition(Exec(Init, es), j);
  }

  // No run touches a freed job, frees a linked waiter, unlinks an unlinked job, or frees a job in use.
  lemma NeverFaults(es: seq<Event>)
    ensures !Exec(Init, es).fault
  {
    Reachable(es);
  }

  // What the scheduling hooks leave of a task: its program point, its membership and its place in the table.
  predicate SameMember(k: Task, m: Task) {
    && m.act == k.act && m.home == k.home && m.attached == k.attached && m.entry.Some? == k.entry.Some?
    && (k.entry.Some? ==> m.entry.value.job == k.entry.value.job)
  }
  // A step of the scheduling hooks moves one task and at most queues.
  ghost predicate SchedFrame(s: State, m: State, t: Tid) {
    && m.zone == s.zone && m.maxJid == s.maxJid && m.nextRef == s.nextRef && m.lock == s.lock
    && m.tasks.Keys == s.tasks.Keys && m.jobs.Keys == s.jobs.Keys
    && (forall u :: u in s.tasks && u != t ==> m.tasks[u] == s.tasks[u])
    && (t in s.tasks ==> SameMember(s.tasks[t], m.tasks[t]))
    && (forall j :: j in s.jobs ==> m.jobs[j] == s.jobs[j].(queue := m.jobs[j].queue))
  }
  lemma DownFrame(s: State, t: Tid)
    ensures SchedFrame(s, DoBegin(s, t), t) && SchedFrame(s, DoBed(s, t), t)
  {
  }
  lemma LookFrame(s: State, t: Tid)
    ensures SchedFrame(s, DoLook(s, t), t)
  {
  }
  lemma SettleFrame(s: State, t: Tid)
    ensures SchedFrame(s, DoSettle(s, t), t)
  {
  }
  lemma UpFrame(s: State, t: Tid)
    ensures SchedFrame(s, DoRestore(s, t), t) && SchedFrame(s, DoHeaven(s, t), t)
  {
  }
  lemma LeaveFrame(s: State, t: Tid)
    ensures SchedFrame(s, DoLeaveCheck(s, t), t) && SchedFrame(s, DoLeaveUp(s, t), t)
  {
  }
  lemma Framed(s: State, e: Event)
    requires SchedEvent(e)
    ensures SchedFrame(s, Apply(s, e), e.t)
  {
    hide SchedFrame, DoBegin, DoBed, DoLook, DoSettle, DoRestore, DoHeaven, DoLeaveCheck, DoLeaveUp;
    DownFrame(s, e.t);
    LookFrame(s, e.t);
    SettleFrame(s, e.t);
    UpFrame(s, e.t);
    LeaveFrame(s, e.t);
  }

  // Only creation and destruction touch the set of jobs, and only they and the list steps the list.
  ghost predicate SameList(s: State, m: State) {
    && m.zone == s.zone && m.maxJid == s.maxJid && m.nextRef == s.nextRef && m.jobs.Keys == s.jobs.Keys
    && forall h :: h in s.jobs ==> m.jobs[h].jid == s.jobs[h].jid
  }
  lemma SchedSameList(s: State, e: Event)
    requires SchedEvent(e)
    ensures SameList(s, Apply(s, e))
  {
    hide Apply;
    Framed(s, e);
  }
  lemma AdminSameList(s: State, e: Event)
    requires AdminEvent(e)
    ensures SameList(s, Apply(s, e))
  {
  }
  predicate ForkEvent(e: Event) { e.ForkBegin? || e.ForkChild? || e.ForkOk? || e.ForkFail? || e.Tail? }
  lemma ForkSameList(s: State, e: Event)
    requires ForkEvent(e)
    ensures SameList(s, Apply(s, e))
  {
  }
  lemma RestSameList(s: State, e: Event)
    requires !SchedEvent(e) && !AdminEvent(e) && !ForkEvent(e)
    requires !e.ExecCreate? && !e.DelFree? && !e.ExecAppend? && !e.DelUnlink?
    ensures SameList(s, Apply(s, e))
  {
  }
  lemma OtherSameList(s: State, e: Event)
    requires !SchedEvent(e) && !AdminEvent(e) && !e.ExecCreate? && !e.DelFree? && !e.ExecAppend? && !e.DelUnlink?
    ensures SameList(s, Apply(s, e))
  {
    hide SameList;
    if ForkEvent(e) { ForkSameList(s, e); } else { RestSameList(s, e); }
  }

  // A job comes into being only at a new address.
  lemma JobsStep(s: State, e: Event)
    ensures Apply(s, e).nextRef >= s.nextRef
    ensures forall j :: j in Apply(s, e).jobs ==> j in s.jobs || j >= s.nextRef
  {
    if SchedEvent(e) { SchedSameList(s, e); }
    else if AdminEvent(e) { AdminSameList(s, e); }
    else if !e.ExecCreate? && !e.DelFree? && !e.ExecAppend? && !e.DelUnlink? { OtherSameList(s, e); }
  }
  // A freed job is gone for good, so the free of NeverFaults happens at most once per job.
  lemma {:induction false} FreedForGood(s: State, es: seq<Event>, j: Ref)
    requires j !in s.jobs && j < s.nextRef
    ensures j !in Exec(s, es).jobs
    decreases |es|
  {
    if es != [] {
      JobsStep(s, es[0]);
      FreedForGood(Apply(s, es[0]), es[1..], j);
    }
  }

  predicate HasJob(p: AdminPc) { p.Found? || p.Read? || p.WakePending? }
  // An administrator's job exists and is listed as long as he works on it.
  lemma AdminHoldsJob(es: seq<Event>)
    requires Exec(Init, es).lock.ByAdmin? && HasJob(Exec(Init, es).lock.pc)
    ensures var s := Exec(Init, es); s.lock.pc.h in s.jobs && s.lock.pc.h in s.zone
  {
    Reachable(es);
  }

  // When a job is about to be freed: off the list, no waiter, no thread, no fork, no other destroyer.
  lemma FreeFindsNothing(es: seq<Event>, t: Tid, j: Ref)
    requires t in Exec(Init, es).tasks && Dying(Exec(Init, es).tasks[t].act, j)
    ensures var s := Exec(Init, es);
      && j in s.jobs && s.jobs[j].alive == 0 && s.jobs[j].queue == {} && s.jobs[j].leaked == 0
      && Attached(s, j) == {} && Flights(s, j) == {}
      && (forall u :: u in s.tasks && u != t ==> !Dying(s.tasks[u].act, j))
      && (s.tasks[t].act == DelUnlocked(j, true) ==>
            && j !in s.zone && (s.lock.ByAdmin? && HasJob(s.lock.pc) ==> s.lock.pc.h != j)
            && Unused(s, j) && DoDelFree(s, t).jobs == s.jobs - {j})
  {
    var s := Exec(Init, es);
    Reachable(es);
    OnlyDestroyer(s, t, j);
    assert TaskOk(s, t);
    forall u ensures u !in Attached(s, j) && u !in Flights(s, j) { assert u in s.tasks ==> !OwnRef(s.tasks[u], j); }
    forall u | u in s.tasks && u != t ensures !Dying(s.tasks[u].act, j) { assert Untouched(s.tasks[u], j); }
  }

  // A failed fork never destroys the job: the parent is still counted.
  lemma FailedForkKeepsJob(es: seq<Event>, t: Tid, j: Ref)
    requires At(Exec(Init, es), t, Forking(Some(j)))
    ensures var s, s' := Exec(Init, es), Apply(Exec(Init, es), ForkFail(t));
      j in s.jobs && j in s'.jobs && s'.jobs[j].alive == s.jobs[j].alive - 1 >= 1 && s'.tasks[t].act == User
  {
    var s := Exec(Init, es);
    Reachable(es);
    ForkFailMember(s, t, j);
    MemberJob(s, t, j);
  }

  // ---------- wait queues ----------

  // Whoever is queued is attached to that job and between its enter and leave hooks.
  lemma WaiterContainment(es: seq<Event>, t: Tid, j: Ref)
    requires j in Exec(Init, es).jobs && t in Exec(Init, es).jobs[j].queue
    ensures var s := Exec(Init, es);
      t in s.tasks && t in Attached(s, j) && Waiting(s.tasks[t].pc) && !s.tasks[t].act.ExitDetached? &&
        !Holding(s.tasks[t].act)
  {
    Reachable(es);
    assert JobOk(Exec(Init, es), j) && TaskOk(Exec(Init, es), t);
  }

  // Has read SUSPENDED and is not runnable: it sleeps until somebody wakes it.
  predicate Committed(k: Task) { (k.pc == Asleep || k.pc == Saw(SUSPENDED)) && k.run != TaskRunning }

  // A committed sleeper is on its job's queue, and the job is suspended or its wake_up is on its way.
  lemma NoLostWakeup(es: seq<Event>, t: Tid)
    requires t in Exec(Init, es).tasks && Committed(Exec(Init, es).tasks[t])
    ensures var s := Exec(Init, es);
      s.tasks[t].entry.Some? && s.tasks[t].entry.value.job in s.jobs && t in s.jobs[s.tasks[t].entry.value.job].queue
    ensures var s, j := Exec(Init, es), Exec(Init, es).tasks[t].entry.value.job;
      s.jobs[j].state == SUSPENDED || s.lock == ByAdmin(WakePending(j))
  {
    Reachable(es);
    assert TaskOk(Exec(Init, es), t);
  }

  // After a resume or kill has released the lock nobody in the job is left sleeping, although
  // __kill_job skips the wake-up unless the job was suspended.
  lemma NobodySleepsThroughKill(es: seq<Event>, j: Ref)
    requires j in Exec(Init, es).jobs && Exec(Init, es).jobs[j].state != SUSPENDED && !Exec(Init, es).lock.ByAdmin?
    ensures var s := Exec(Init, es); forall t :: t in Attached(s, j) ==> !Committed(s.tasks[t])
  {
    var s := Exec(Init, es);
    forall t | t in Attached(s, j) ensures !Committed(s.tasks[t]) {
      if Committed(s.tasks[t]) { NoLostWakeup(es, t); }
    }
  }

  // Exactly an operation that ends a suspension wakes the queue.
  lemma WakesIff(op: AdminOp, prev: JobState)
    ensures AdminWakes(op, prev) <==> prev == SUSPENDED && AdminNext(op, prev) != SUSPENDED
  {
  }

  // The TASK_DEAD branch of enter_schedule_hook is never taken: the exit hook has removed the entry.
  lemma DeadBranchUnreachable(es: seq<Event>, t: Tid)
    requires t in Exec(Init, es).tasks && Exec(Init, es).tasks[t].run == TaskDead
    ensures Exec(Init, es).tasks[t].entry == None && DoBegin(Exec(Init, es), t) == Exec(Init, es)
  {
    Reachable(es);
    assert TaskOk(Exec(Init, es), t);
  }

  // The timer hook reads the job without a lock. That is safe until the task has left its exit hook
  // (and not beyond: TimerReadCanDangle).
  lemma TimerReadSafe(es: seq<Event>, t: Tid, j: Ref)
    requires t in Exec(Init, es).tasks && Exec(Init, es).tasks[t].home == Some(j) && Exec(Init, es).tasks[t].act != Gone
    ensures j in Exec(Init, es).jobs
  {
    Reachable(es);
    assert TaskOk(Exec(Init, es), t);
  }

  // At most one SIGKILL per thread entry, and only to a thread that is marked dead by it.
  lemma AtMostOneSigkill(es: seq<Event>, t: Tid)
    requires t in Exec(Init, es).tasks && Exec(Init, es).tasks[t].entry.Some?
    ensures var e := Exec(Init, es).tasks[t].entry.value; e.kills == 0 || (e.kills == 1 && e.dead)
  {
    Reachable(es);
    assert TaskOk(Exec(Init, es), t);
  }

  // ---------- the zone list ----------

  lemma FindJobUnique(jobs: map<Ref, Job>, zone: seq<Ref>, maxJid: int, h: Ref)
    requires Sorted(jobs, zone, maxJid) && h in zone
    ensures FindJob(jobs, zone, jobs[h].jid) == Some(h)
  {
    if zone[0] != h {
      assert h in zone[1..];
      FindJobUnique(jobs, zone[1..], maxJid, h);
      var i :| 0 <= i < |zone| && zone[i] == h;
      assert jobs[zone[0]].jid < jobs[zone[i]].jid;
    }
  }
  lemma FindJobHas(jobs: map<Ref, Job>, zone: seq<Ref>, jid: int)
    ensures var r := FindJob(jobs, zone, jid);
      r.Some? ==> r.value in zone && r.value in jobs && jobs[r.value].jid == jid
  {
  }

  // search_job_by_id returns the one listed job with that id, and NULL iff there is none.
  lemma SearchIsExact(es: seq<Event>, jid: int)
    ensures var s := Exec(Init, es);
      && (forall h :: h in s.zone ==>
           h in s.jobs && (s.jobs[h].jid == jid <==> FindJob(s.jobs, s.zone, jid) == Some(h)))
      && (FindJob(s.jobs, s.zone, jid) == None <==> forall h :: h in s.zone ==> s.jobs[h].jid != jid)
  {
    var s := Exec(Init, es);
    Reachable(es);
    FindJobHas(s.jobs, s.zone, jid);
    forall h | h in s.zone && s.jobs[h].jid == jid ensures FindJob(s.jobs, s.zone, jid) == Some(h) {
      FindJobUnique(s.jobs, s.zone, s.maxJid, h);
    }
    var r := FindJob(s.jobs, s.zone, jid);
    assert r.Some? ==> r.value in s.zone && r.value in s.jobs && s.jobs[r.value].jid == jid;
    if r.Some? {
      var g: Ref := r.value;
      assert g in s.zone && s.jobs[g].jid == jid;
      assert exists h :: h in s.zone && s.jobs[h].jid == jid;
    }
  }

  // list_add_tail of a new job, under the next id.
  lemma AppendNumbers(s: State, t: Tid)
    requires Inv(s) && t in s.tasks && s.tasks[t].act.ExecLocked?
    ensures var m, j := Apply(s, ExecAppend(t)), s.tasks[t].act.j;
      j in m.jobs && m.maxJid == s.maxJid + 1 && m.jobs[j].jid == s.maxJid + 1 && m.zone == s.zone + [j]
  {
    assert TaskOk(s, t);
  }

  // From the end of its creation to the end of its last thread, a job can be found by its id.
  lemma ThreadsJobIsFound(es: seq<Event>, t: Tid, j: Ref)
    requires t in Attached(Exec(Init, es), j) && !Creating(Exec(Init, es).tasks[t].act, j)
    ensures var s := Exec(Init, es); j in s.jobs && FindJob(s.jobs, s.zone, s.jobs[j].jid) == Some(j)
  {
    var s := Exec(Init, es);
    Reachable(es);
    assert TaskOk(s, t);
    assert OwnRef(s.tasks[t], j);
    FindJobUnique(s.jobs, s.zone, s.maxJid, j);
  }

  // One event: the list gains at most a job with a larger id, and listed jobs keep their ids.
  ghost predicate ListGrows(s: State, m: State) {
    && m.maxJid >= s.maxJid
    && forall h :: h in m.zone ==>
         h in m.jobs && ((h in s.zone && h in s.jobs && m.jobs[h].jid == s.jobs[h].jid) || m.jobs[h].jid > s.maxJid)
  }
  lemma ListSame(s: State, m: State)
    requires SameList(s, m) && Sorted(s.jobs, s.zone, s.maxJid)
    ensures ListGrows(s, m)
  {
  }
  lemma ListAppend(s: State, t: Tid)
    requires Inv(s) && Inv(Apply(s, ExecAppend(t)))
    ensures ListGrows(s, Apply(s, ExecAppend(t)))
  {
    if t in s.tasks { assert TaskOk(s, t); }
    hide TaskOk, JobOk, SoleOk, AdminOk;
  }
  lemma ListUnlink(s: State, t: Tid)
    requires Inv(s) && Inv(Apply(s, DelUnlink(t)))
    ensures ListGrows(s, Apply(s, DelUnlink(t)))
  {
    hide TaskOk, JobOk, SoleOk, AdminOk;
    if t in s.tasks && s.tasks[t].act.DelLocked? { WithoutOk(s.jobs, s.zone, s.maxJid, s.tasks[t].act.j); }
  }
  lemma ListOthers(s: State, e: Event)
    requires Inv(s) && Inv(Apply(s, e)) && (e.ExecCreate? || e.DelFree?)
    ensures ListGrows(s, Apply(s, e))
  {
    if e.ExecCreate? { FreshRef(s); }
    hide TaskOk, JobOk, SoleOk, AdminOk;
  }
  lemma ListStep(s: State, e: Event)
    requires Inv(s) && Inv(Apply(s, e))
    ensures ListGrows(s, Apply(s, e))
  {
    var m := Apply(s, e);
    hide TaskOk, JobOk, SoleOk, AdminOk, Apply, ListGrows, SameList;
    if SchedEvent(e) { SchedSameList(s, e); ListSame(s, m); }
    else if AdminEvent(e) { AdminSameList(s, e); ListSame(s, m); }
    else if e.ExecAppend? { ListAppend(s, e.t); }
    else if e.DelUnlink? { ListUnlink(s, e.t); }
    else if e.ExecCreate? || e.DelFree? { ListOthers(s, e); }
    else { OtherSameList(s, e); ListSame(s, m); }
  }
  lemma {:induction false} ListRun(s: State, es: seq<Event>)
    requires Inv(s)
    ensures Inv(Exec(s, es)) && Exec(s, es).maxJid >= s.maxJid
    ensures forall h :: h in Exec(s, es).zone ==>
      (h in s.zone && Exec(s, es).jobs[h].jid == s.jobs[h].jid) || Exec(s, es).jobs[h].jid > s.maxJid
    decreases |es|
  {
    if es != [] {
      Step(s, es[0]);
      ListStep(s, es[0]);
      ListRun(Apply(s, es[0]), es[1..]);
    }
  }

  // Two jobs that were ever on the list, at whatever times, have different ids.
  lemma IdsNeverReused(es: seq<Event>, more: seq<Event>, h: Ref, g: Ref)
    requires h in Exec(Init, es).zone && g in Exec(Exec(Init, es), more).zone && h != g
    ensures var s, s' := Exec(Init, es), Exec(Exec(Init, es), more);
      h in s.jobs && g in s'.jobs && s.jobs[h].jid != s'.jobs[g].jid
  {
    Reachable(es);
    ListRun(Exec(Init, es), more);
  }
}
