/** What each step leaves of a job: who may change its orphan count, its queue and the counter of ids. */
module LifecycleFrames {
  import opened Options
  import opened Lifecycle
  import opened LifecycleInvariant
  import opened LifecycleSteps
  import opened LifecycleTheorems
  import opened LifecycleProgress
  import opened LifecycleHolders

  // ---------- orphans ----------

  function NewOrphans(s: State, e: Event, j: Ref): nat {
    if e.Tail? && !e.ok && At(s, e.t, Newborn) && s.tasks[e.t].home == Some(j) then 1 else 0
  }
  lemma ForkOrphans(s: State, e: Event, j: Ref)
    requires j in s.jobs && ForkEvent(e)
    ensures j in Apply(s, e).jobs && Apply(s, e).jobs[j].leaked == s.jobs[j].leaked + NewOrphans(s, e, j)
  {
  }
  lemma RestOrphans(s: State, e: Event, j: Ref)
    requires j in s.jobs && j < s.nextRef && j in Apply(s, e).jobs && !SchedEvent(e) && !AdminEvent(e) && !ForkEvent(e)
    ensures Apply(s, e).jobs[j].leaked == s.jobs[j].leaked
  {
  }
  // Only a child whose entry could not be allocated adds to the orphans, and nobody takes from them.
  lemma OrphansStep(s: State, e: Event, j: Ref)
    requires Inv(s) && j in s.jobs && j in Apply(s, e).jobs
    ensures Apply(s, e).jobs[j].leaked == s.jobs[j].leaked + NewOrphans(s, e, j)
  {
    assert JobOk(s, j);
    hide Inv, Apply, JobOk;
    if SchedEvent(e) { PinSched(s, e, j); }
    else if AdminEvent(e) { PinAdmin(s, e, j); }
    else if ForkEvent(e) { ForkOrphans(s, e, j); }
    else { RestOrphans(s, e, j); }
  }

  // ---------- queues ----------

  predicate OwnJob(s: State, t: Tid, j: Ref) {
    t in s.tasks && s.tasks[t].entry.Some? && s.tasks[t].entry.value.job == j
  }
  // go_to_bed enqueues, get_up dequeues oneself, wake_up all sleepers; nothing else touches a queue.
  function QueueAfter(s: State, e: Event, j: Ref): set<Tid>
    requires j in s.jobs
  {
    var q := s.jobs[j].queue;
    match e
    case Bed(t) => if AtPc(s, t, Saved) && OwnJob(s, t, j) then q + {t} else q
    case Settle(t) => if (AtPc(s, t, Saw(RUNNING)) || AtPc(s, t, Saw(KILLED))) && OwnJob(s, t, j) then q - {t} else q
    case LeaveUp(t) => if AtPc(s, t, Rising) && OwnJob(s, t, j) then q - {t} else q
    case AdminWake =>
      if s.lock == ByAdmin(WakePending(j)) then set t | t in q && !(t in s.tasks && Sleeping(s.tasks[t].run)) else q
    case _ => q
  }
  lemma SchedQueue(s: State, e: Event, j: Ref)
    requires j in s.jobs && SchedEvent(e)
    ensures j in Apply(s, e).jobs && Apply(s, e).jobs[j].queue == QueueAfter(s, e, j)
  {
    if e.Begin? || e.Bed? || e.Look? { DownQueue(s, e, j); }
    else if e.Settle? { SettleQueue(s, e.t, j); }
    else { UpQueue(s, e, j); }
  }
  lemma DownQueue(s: State, e: Event, j: Ref)
    requires j in s.jobs && (e.Begin? || e.Bed? || e.Look?)
    ensures j in Apply(s, e).jobs && Apply(s, e).jobs[j].queue == QueueAfter(s, e, j)
  {
  }
  lemma SettleQueue(s: State, t: Tid, j: Ref)
    requires j in s.jobs
    ensures j in DoSettle(s, t).jobs && DoSettle(s, t).jobs[j].queue == QueueAfter(s, Settle(t), j)
  {
  }
  lemma UpQueue(s: State, e: Event, j: Ref)
    requires j in s.jobs && (e.Restore? || e.Heaven? || e.LeaveCheck? || e.LeaveUp?)
    ensures j in Apply(s, e).jobs && Apply(s, e).jobs[j].queue == QueueAfter(s, e, j)
  {
  }
  lemma AdminQueue(s: State, e: Event, j: Ref)
    requires j in s.jobs && AdminEvent(e)
    ensures j in Apply(s, e).jobs && Apply(s, e).jobs[j].queue == QueueAfter(s, e, j)
  {
  }
  lemma RestQueue(s: State, e: Event, j: Ref)
    requires j in s.jobs && j < s.nextRef && j in Apply(s, e).jobs && !SchedEvent(e) && !AdminEvent(e)
    ensures Apply(s, e).jobs[j].queue == s.jobs[j].queue
  {
  }
  lemma QueueStep(s: State, e: Event, j: Ref)
    requires Inv(s) && j in s.jobs && j in Apply(s, e).jobs
    ensures Apply(s, e).jobs[j].queue == QueueAfter(s, e, j)
  {
    assert JobOk(s, j);
    hide Inv, Apply, JobOk;
    if SchedEvent(e) { SchedQueue(s, e, j); }
    else if AdminEvent(e) { AdminQueue(s, e, j); }
    else { RestQueue(s, e, j); }
  }

  // ---------- ids, and the end of a task ----------

  // Ids are given out one by one, to jobs that are put on the list.
  lemma IdsOneByOne(s: State, e: Event)
    requires Inv(s)
    ensures Apply(s, e).maxJid ==
      if e.ExecAppend? && e.t in s.tasks && s.tasks[e.t].act.ExecLocked? then s.maxJid + 1 else s.maxJid
  {
    if e.ExecAppend? { if e.t in s.tasks { assert TaskOk(s, e.t); } }
    hide Inv;
    if SchedEvent(e) { SchedSameList(s, e); }
    else if AdminEvent(e) { AdminSameList(s, e); }
    else if !e.ExecCreate? && !e.DelFree? && !e.ExecAppend? && !e.DelUnlink? { OtherSameList(s, e); }
  }
  // A task past its exit hook can die, and then schedules as TASK_DEAD.
  lemma Dies(s: State, t: Tid)
    requires At(s, t, Gone)
    ensures var m := Apply(s, Die(t)); m == s.(tasks := s.tasks[t := s.tasks[t].(run := TaskDead)])
  {
  }

  // ---------- what the rest of the kernel may do to a task ----------

  // Outside the hooks a task sets its own state as it likes, and anybody may wake a sleeper, which stays
  // on its queue.
  lemma KernelActs(s: State, t: Tid, r: RunState)
    requires t in s.tasks && r != TaskDead && s.tasks[t].run != TaskDead
    ensures s.tasks[t].pc == Out ==> Apply(s, SetRun(t, r)) == s.(tasks := s.tasks[t := s.tasks[t].(run := r)])
    ensures Apply(s, Wakeup(t)).tasks[t] == s.tasks[t].(run := TaskRunning)
    ensures Apply(s, Wakeup(t)).jobs == s.jobs
  {
  }
}
