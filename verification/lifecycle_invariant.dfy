/**
 * The inductive invariant of the lifecycle system: reference counts, thread entries, zone list,
 * wait queues and zone lock, kept by every event and so by every interleaving.
 */
module LifecycleInvariant {
  import opened Options
  import opened Lifecycle

  function Count(b: bool): int { if b then 1 else 0 }

  predicate Dying(a: Act, j: Ref) { (a.DelWant? || a.DelLocked? || a.DelUnlinked? || a.DelUnlocked?) && a.j == j }
  predicate Linked(a: Act, j: Ref) { (a.DelWant? || a.DelLocked?) && a.j == j }
  predicate Creating(a: Act, j: Ref) { a == ExecWant(j) || a == ExecLocked(j) }

  // ---------- per task ----------

  ghost predicate EntryOk(s: State, k: Task) {
    && (k.entry.Some? ==> k.entry.value.job in s.jobs)
    && (k.attached <==> k.entry.Some? && !k.act.ExitDetached?)
    && (k.pc != Out ==> k.attached)
    && (k.run == TaskDead ==> k.act == Gone)
    && (k.entry.Some? ==> k.entry.value.kills <= 1 && (k.entry.value.kills == 1 ==> k.entry.value.dead))
    && (k.entry.Some? ==> k.entry.value.saved != TaskDead)
  }

  // A member either has its entry in that job or is an orphan that the job's leak count covers.
  ghost predicate HomeOk(s: State, k: Task) {
    match k.home
    case None => k.entry == None
    case Some(j) => if k.entry.Some? then k.entry.value.job == j else j in s.jobs && s.jobs[j].leaked > 0
  }

  ghost predicate ActOk(s: State, k: Task) {
    match k.act
    case User => HomeOk(s, k)
    case Forking(o) => o == k.home && HomeOk(s, k)
    case Forked(o) => o == k.home && HomeOk(s, k)
    case Newborn => k.entry == None && (k.home.Some? ==> k.home.value in s.jobs)
    case ExecWant(j) => k.home == None && k.entry.Some? && k.entry.value.job == j && j in s.jobs &&
      s.jobs[j].leaked == 0
    case ExecLocked(j) => k.home == None && k.entry.Some? && k.entry.value.job == j && j in s.jobs &&
      s.jobs[j].leaked == 0
    case ExecAppended(j) => k.home == None && k.entry.Some? && k.entry.value.job == j
    case ExecBody(j) => k.home == None && k.entry.Some? && k.entry.value.job == j
    case ExitDetached(j) => k.home == Some(j) && k.entry.Some? && k.entry.value.job == j
    case ExitPut(j) => k.home == Some(j) && k.entry == None && j in s.jobs
    case DelWant(j, x) => x && k.home == Some(j) && k.entry == None && j in s.jobs && s.jobs[j].alive == 0
    case DelLocked(j, x) => x && k.home == Some(j) && k.entry == None && j in s.jobs && s.jobs[j].alive == 0
    case DelUnlinked(j, x) => x && k.home == Some(j) && k.entry == None && j in s.jobs && s.jobs[j].alive == 0
    case DelUnlocked(j, x) => x && k.home == Some(j) && k.entry == None && j in s.jobs && s.jobs[j].alive == 0
    case Gone => k.entry == None
  }

  // On the list exactly from the creator's list_add_tail to the destroyer's list_del.
  ghost predicate PlaceOk(s: State, k: Task) {
    && (forall j :: OwnRef(k, j) && !Creating(k.act, j) ==> j in s.zone)
    && (forall j :: FlightRef(k, j) ==> j in s.zone)
    && (forall j :: Creating(k.act, j) ==> j !in s.zone)
    && (forall j :: Dying(k.act, j) ==> (j in s.zone <==> Linked(k.act, j)))
  }

  // No lost wakeup: a sleeper is queued, and once it has committed itself to sleep its job is suspended
  // or its wake-up is on the way.
  ghost predicate SleepOk(s: State, t: Tid, k: Task) {
    Waiting(k.pc) && k.run != TaskRunning && k.entry.Some? && k.entry.value.job in s.jobs ==>
      && t in s.jobs[k.entry.value.job].queue
      && (k.pc == Asleep || k.pc == Saw(SUSPENDED) ==>
            s.jobs[k.entry.value.job].state == SUSPENDED || s.lock == ByAdmin(WakePending(k.entry.value.job)))
  }

  ghost predicate TaskOk(s: State, t: Tid)
    requires t in s.tasks
  {
    var k := s.tasks[t];
    && EntryOk(s, k) && ActOk(s, k) && PlaceOk(s, k) && SleepOk(s, t, k)
    && (Holding(k.act) <==> s.lock == ByTask(t))
    && (Holding(k.act) ==> k.pc == Out)
  }

  // ---------- per job ----------

  predicate Waiting(pc: SchedPc) { pc == Queued || pc.Saw? || pc == Asleep || pc == Rising }

  ghost predicate QueueOk(s: State, j: Ref)
    requires j in s.jobs
  {
    forall t :: t in s.jobs[j].queue ==>
      t in s.tasks && s.tasks[t].attached && s.tasks[t].entry.Some? && s.tasks[t].entry.value.job == j &&
        Waiting(s.tasks[t].pc)
  }

  ghost predicate JobOk(s: State, j: Ref)
    requires j in s.jobs
  {
    && s.jobs[j].alive == |Owners(s, j)| + |Flights(s, j)| + s.jobs[j].leaked
    && QueueOk(s, j)
    && (s.jobs[j].leaked > 0 ==> j in s.zone)
    && j < s.nextRef
  }

  // ---------- the zone ----------

  ghost predicate Sorted(jobs: map<Ref, Job>, zone: seq<Ref>, maxJid: int) {
    && (forall i :: 0 <= i < |zone| ==> zone[i] in jobs && jobs[zone[i]].jid <= maxJid)
    && (forall i, k :: 0 <= i < k < |zone| ==> jobs[zone[i]].jid < jobs[zone[k]].jid)
  }

  ghost predicate AdminOk(s: State) {
    s.lock.ByAdmin? ==>
      match s.lock.pc
      case Found(_, h) => h in s.zone
      case Read(_, h, prev) => h in s.zone && h in s.jobs && s.jobs[h].state == prev
      case WakePending(h) => h in s.zone
      case _ => true
  }

  // A job being created belongs to its creator alone, and at most one task destroys a job.
  ghost predicate SoleOk(s: State) {
    && (forall t, u, j {:trigger Creating(s.tasks[t].act, j), OwnRef(s.tasks[u], j)} ::
          t in s.tasks && u in s.tasks && Creating(s.tasks[t].act, j) && OwnRef(s.tasks[u], j) ==> t == u)
    && (forall t, u, j {:trigger Creating(s.tasks[t].act, j), FlightRef(s.tasks[u], j)} ::
          t in s.tasks && u in s.tasks && Creating(s.tasks[t].act, j) ==> !FlightRef(s.tasks[u], j))
    && (forall t, u, j {:trigger Dying(s.tasks[t].act, j), Dying(s.tasks[u].act, j)} ::
          t in s.tasks && u in s.tasks && Dying(s.tasks[t].act, j) && Dying(s.tasks[u].act, j) ==> t == u)
  }

  ghost predicate Inv(s: State) {
    && !s.fault
    && (forall t :: t in s.tasks ==> TaskOk(s, t))
    && (forall j :: j in s.jobs ==> JobOk(s, j))
    && Sorted(s.jobs, s.zone, s.maxJid)
    && AdminOk(s)
    && (s.lock.ByTask? ==> s.lock.t in s.tasks)
    && SoleOk(s)
  }

  // ---------- counting references ----------

  lemma CardAdd(a: set<Tid>, b: set<Tid>, t: Tid)
    requires a - {t} == b - {t}
    ensures |b| == |a| + Count(t in b) - Count(t in a)
  {
    var c := a - {t};
    assert t in a ==> a == c + {t};
    assert t !in a ==> a == c;
    assert t in b ==> b == c + {t};
    assert t !in b ==> b == c;
  }

  // Replacing one task changes the number of references by what that task holds.
  lemma RefCounts(s: State, s': State, t: Tid)
    requires t in s'.tasks && s'.tasks == s.tasks[t := s'.tasks[t]]
    ensures forall j :: |Owners(s', j)| - |Owners(s, j)| ==
                        Count(OwnRef(s'.tasks[t], j)) - Count(t in s.tasks && OwnRef(s.tasks[t], j))
    ensures forall j :: |Flights(s', j)| - |Flights(s, j)| ==
                        Count(FlightRef(s'.tasks[t], j)) - Count(t in s.tasks && FlightRef(s.tasks[t], j))
  {
    forall j
      ensures |Owners(s', j)| - |Owners(s, j)| ==
              Count(OwnRef(s'.tasks[t], j)) - Count(t in s.tasks && OwnRef(s.tasks[t], j))
      ensures |Flights(s', j)| - |Flights(s, j)| ==
              Count(FlightRef(s'.tasks[t], j)) - Count(t in s.tasks && FlightRef(s.tasks[t], j))
    {
      CardAdd(Owners(s, j), Owners(s', j), t);
      CardAdd(Flights(s, j), Flights(s', j), t);
    }
  }

  // The count covers whoever holds a reference.
  lemma Covered(s: State, j: Ref)
    requires j in s.jobs && JobOk(s, j)
    ensures s.jobs[j].alive >= s.jobs[j].leaked >= 0
    ensures forall t :: t in s.tasks && OwnRef(s.tasks[t], j) ==> s.jobs[j].alive >= 1 + s.jobs[j].leaked
    ensures forall t :: t in s.tasks && FlightRef(s.tasks[t], j) ==> s.jobs[j].alive >= 1 + s.jobs[j].leaked
    ensures forall t, u :: t in s.tasks && u in s.tasks && OwnRef(s.tasks[t], j) && FlightRef(s.tasks[u], j) ==>
      s.jobs[j].alive >= 2
  {
    assert forall t :: t in s.tasks && OwnRef(s.tasks[t], j) ==> t in Owners(s, j);
    assert forall t :: t in s.tasks && FlightRef(s.tasks[t], j) ==> t in Flights(s, j);
  }
}
