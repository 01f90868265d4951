/**
 * Jobs, threads and administrators as one interleaving system.
 *
 * Every event below is one atomic step of lkm/sched/sched.c, lkm/sched/sched.h or the hooks under lkm/hook.
 * An event whose program point is not reached, or that would spin on the zone lock, changes
 * nothing, so a sequence of events is an arbitrary interleaving of tasks and administrators.
 * A step that touches freed memory, frees something still linked, or unlinks something that is
 * not linked, raises `fault`.
 */
module Lifecycle {
  import opened Options

  type Tid = int
  // The address of a job. Every allocation yields a new one, so that a stale pointer is visible.
  type Ref = int

  datatype JobState = RUNNING | SUSPENDED | KILLED
  datatype RunState = TaskRunning | TaskInterruptible | TaskUninterruptible | TaskDead
  datatype AdminOp = Kill | Suspend | Resume

  // A ya_thread_t: its job, thread->state == YA_THREAD_DEAD, thread->task_state, SIGKILLs sent.
  datatype Entry = Entry(job: Ref, dead: bool, saved: RunState, kills: nat)

  // Where a task stands on its way through execve, fork, schedule_tail, exit and job destruction.
  datatype Act =
    | User
    | ExecWant(j: Ref) | ExecLocked(j: Ref) | ExecAppended(j: Ref) | ExecBody(j: Ref)
    | Forking(of: Option<Ref>) | Forked(of: Option<Ref>)
    | Newborn
    | ExitDetached(j: Ref) | ExitPut(j: Ref)
    | DelWant(j: Ref, exiting: bool) | DelLocked(j: Ref, exiting: bool)
    | DelUnlinked(j: Ref, exiting: bool) | DelUnlocked(j: Ref, exiting: bool)
    | Gone

  // Where a task stands inside enter_schedule_hook or leave_schedule_hook.
  datatype SchedPc = Out | Saved | Queued | Saw(st: JobState) | Raised(st: JobState) | Doomed | Asleep | Rising

  // `home` is the membership inherited through fork; `attached` says the entry is in the thread table.
  datatype Task = Task(home: Option<Ref>, entry: Option<Entry>, attached: bool, act: Act, pc: SchedPc, run: RunState)
  // `leaked` counts the children whose thread entry could not be allocated.
  datatype Job = Job(jid: int, state: JobState, alive: int, queue: set<Tid>, leaked: nat)

  datatype AdminPc =
    | Searching(op: AdminOp, jid: int) | Found(op: AdminOp, h: Ref) | Read(op: AdminOp, h: Ref, prev: JobState)
    | WakePending(h: Ref) | Finished
  datatype Lock = Unlocked | ByTask(t: Tid) | ByAdmin(pc: AdminPc)

  datatype State = State(
    tasks: map<Tid, Task>, jobs: map<Ref, Job>, zone: seq<Ref>, maxJid: int, lock: Lock, nextRef: Ref, fault: bool)

  datatype Event =
    | Spawn(t: Tid) | SetRun(t: Tid, r: RunState) | Wakeup(t: Tid)
    | ExecCreate(t: Tid) | ExecLock(t: Tid) | ExecAppend(t: Tid) | ExecUnlock(t: Tid) | ExecPublish(t: Tid)
    | ForkBegin(t: Tid) | ForkChild(t: Tid, c: Tid) | ForkOk(t: Tid) | ForkFail(t: Tid) | Tail(t: Tid, ok: bool)
    | ExitBegin(t: Tid) | ExitFree(t: Tid) | ExitDrop(t: Tid)
    | DelLock(t: Tid) | DelUnlink(t: Tid) | DelUnlock(t: Tid) | DelFree(t: Tid) | Die(t: Tid)
    | Begin(t: Tid) | Bed(t: Tid) | Look(t: Tid) | Settle(t: Tid) | Restore(t: Tid) | Heaven(t: Tid)
    | LeaveCheck(t: Tid) | LeaveUp(t: Tid)
    | AdminLock(op: AdminOp, jid: int) | AdminSearch | AdminRead | AdminWrite | AdminWake | AdminUnlock

  predicate SchedEvent(e: Event) {
    e.Begin? || e.Bed? || e.Look? || e.Settle? || e.Restore? || e.Heaven? || e.LeaveCheck? || e.LeaveUp?
  }
  predicate AdminEvent(e: Event) {
    e.AdminLock? || e.AdminSearch? || e.AdminRead? || e.AdminWrite? || e.AdminWake? || e.AdminUnlock?
  }

  const Init := State(map[], map[], [], -1, Unlocked, 0, false)

  // ---------- helpers ----------

  function PutTask(s: State, t: Tid, k: Task): State { s.(tasks := s.tasks[t := k]) }
  function PutJob(s: State, j: Ref, b: Job): State { s.(jobs := s.jobs[j := b]) }
  function Fault(s: State): State { s.(fault := true) }

  predicate At(s: State, t: Tid, act: Act) { t in s.tasks && s.tasks[t].act == act && s.tasks[t].pc == Out }
  predicate AtPc(s: State, t: Tid, pc: SchedPc) { t in s.tasks && s.tasks[t].pc == pc && s.tasks[t].entry.Some? }

  // Program points at which the task holds the zone spin lock.
  predicate Holding(a: Act) { a.ExecLocked? || a.ExecAppended? || a.DelLocked? || a.DelUnlinked? }
  predicate Sleeping(r: RunState) { r == TaskInterruptible || r == TaskUninterruptible }

  function Without<T(==)>(list: seq<T>, x: T): seq<T> {
    if list == [] then [] else if list[0] == x then list[1..] else [list[0]] + Without(list[1..], x)
  }

  // search_job_by_id: the first job on the list with this id.
  function FindJob(jobs: map<Ref, Job>, zone: seq<Ref>, jid: int): Option<Ref> {
    if zone == [] then None
    else if zone[0] in jobs && jobs[zone[0]].jid == jid then Some(zone[0])
    else FindJob(jobs, zone[1..], jid)
  }

  // The state an operation leaves, and whether it goes on to wake the queue.
  function AdminNext(op: AdminOp, prev: JobState): JobState {
    match op
    case Kill => KILLED
    case Suspend => SUSPENDED
    case Resume => if prev == SUSPENDED then RUNNING else prev
  }
  predicate AdminWakes(op: AdminOp, prev: JobState) { op != Suspend && prev == SUSPENDED }

  // put_thread: drop one reference; whoever reaches zero must destroy the job.
  function PutThread(s: State, t: Tid, j: Ref, exiting: bool): State
    requires t in s.tasks
  {
    if j !in s.jobs then Fault(s)
    else
      var b := s.jobs[j];
      var a := if b.alive - 1 == 0 then DelWant(j, exiting) else if exiting then Gone else User;
      PutJob(PutTask(s, t, s.tasks[t].(act := a)), j, b.(alive := b.alive - 1))
  }

  // wake_up: every waiter that really sleeps becomes runnable and leaves the queue.
  function WakeAll(s: State, j: Ref): State
    requires j in s.jobs
  {
    var q := s.jobs[j].queue;
    var woken := set t | t in q && t in s.tasks && Sleeping(s.tasks[t].run);
    s.(tasks := map t | t in s.tasks :: if t in woken then s.tasks[t].(run := TaskRunning) else s.tasks[t],
       jobs := s.jobs[j := s.jobs[j].(queue := q - woken)])
  }

  // finish_wait: runnable again, and off the queue if still on it.
  function FinishWait(s: State, t: Tid, j: Ref, pc: SchedPc): State
    requires t in s.tasks && j in s.jobs
  {
    PutJob(PutTask(s, t, s.tasks[t].(run := TaskRunning, pc := pc)), j, s.jobs[j].(queue := s.jobs[j].queue - {t}))
  }

  // ---------- execve ----------

  // ya_new_job up to the lock: the job, its first thread and its first reference.
  function DoExecCreate(s: State, t: Tid): State {
    if !At(s, t, User) || s.tasks[t].home.Some? || s.tasks[t].entry.Some? then s
    else
      var j := s.nextRef;
      var e := Entry(j, false, TaskRunning, 0);
      PutJob(PutTask(s, t, s.tasks[t].(entry := Some(e), attached := true, act := ExecWant(j))),
             j, Job(-1, RUNNING, 1, {}, 0)).(nextRef := j + 1)
  }
  function DoExecLock(s: State, t: Tid): State {
    if t in s.tasks && s.tasks[t].act.ExecWant? && s.tasks[t].pc == Out && s.lock == Unlocked
    then PutTask(s, t, s.tasks[t].(act := ExecLocked(s.tasks[t].act.j))).(lock := ByTask(t)) else s
  }
  function DoExecAppend(s: State, t: Tid): State {
    if t in s.tasks && s.tasks[t].act.ExecLocked? && s.tasks[t].pc == Out then
      var j := s.tasks[t].act.j;
      if j !in s.jobs then Fault(s)
      else PutJob(PutTask(s, t, s.tasks[t].(act := ExecAppended(j))), j, s.jobs[j].(jid := s.maxJid + 1))
           .(maxJid := s.maxJid + 1, zone := s.zone + [j])
    else s
  }
  function DoExecUnlock(s: State, t: Tid): State {
    if t in s.tasks && s.tasks[t].act.ExecAppended? && s.tasks[t].pc == Out
    then PutTask(s, t, s.tasks[t].(act := ExecBody(s.tasks[t].act.j))).(lock := Unlocked) else s
  }
  // init_job, after the original execve returned.
  function DoExecPublish(s: State, t: Tid): State {
    if t in s.tasks && s.tasks[t].act.ExecBody? && s.tasks[t].pc == Out
    then PutTask(s, t, s.tasks[t].(act := User, home := Some(s.tasks[t].act.j))) else s
  }

  // ---------- fork ----------

  function DoForkBegin(s: State, t: Tid): State {
    if !At(s, t, User) then s
    else
      var k := s.tasks[t];
      var s1 := PutTask(s, t, k.(act := Forking(k.home)));
      match k.home
      case None => s1
      case Some(j) => if j !in s.jobs then Fault(s) else PutJob(s1, j, s.jobs[j].(alive := s.jobs[j].alive + 1))
  }
  function DoForkChild(s: State, t: Tid, c: Tid): State {
    if t in s.tasks && s.tasks[t].act.Forking? && s.tasks[t].pc == Out && c !in s.tasks then
      var k := s.tasks[t];
      PutTask(PutTask(s, t, k.(act := Forked(k.act.of))), c, Task(k.home, None, false, Newborn, Out, TaskRunning))
    else s
  }
  function DoForkOk(s: State, t: Tid): State {
    if t in s.tasks && s.tasks[t].act.Forked? && s.tasks[t].pc == Out
    then PutTask(s, t, s.tasks[t].(act := User)) else s
  }
  function DoForkFail(s: State, t: Tid): State {
    if t in s.tasks && s.tasks[t].act.Forking? && s.tasks[t].pc == Out then
      match s.tasks[t].act.of
      case None => PutTask(s, t, s.tasks[t].(act := User))
      case Some(j) => PutThread(s, t, j, false)
    else s
  }
  // schedule_tail_agent in the child.
  function DoTail(s: State, t: Tid, ok: bool): State {
    if !At(s, t, Newborn) then s
    else
      var k := s.tasks[t];
      match k.home
      case None => PutTask(s, t, k.(act := User))
      case Some(j) =>
        if j !in s.jobs then Fault(s)
        else if ok then
          PutTask(s, t, k.(act := User, entry := Some(Entry(j, false, TaskRunning, 0)), attached := true))
        else PutJob(PutTask(s, t, k.(act := User)), j, s.jobs[j].(leaked := s.jobs[j].leaked + 1))
  }

  // ---------- exit ----------

  function DoExitBegin(s: State, t: Tid): State {
    if !At(s, t, User) then s
    else
      var k := s.tasks[t];
      if k.attached && k.entry.Some? then
        if k.entry.value.job !in s.jobs then Fault(s)
        else PutTask(s, t, k.(attached := false, act := ExitDetached(k.entry.value.job)))
      else PutTask(s, t, k.(act := Gone))
  }
  function DoExitFree(s: State, t: Tid): State {
    if t in s.tasks && s.tasks[t].act.ExitDetached? && s.tasks[t].pc == Out then
      var j := s.tasks[t].act.j;
      if j !in s.jobs || t in s.jobs[j].queue then Fault(s)
      else PutTask(s, t, s.tasks[t].(entry := None, act := ExitPut(j)))
    else s
  }
  function DoExitDrop(s: State, t: Tid): State {
    if t in s.tasks && s.tasks[t].act.ExitPut? && s.tasks[t].pc == Out
    then PutThread(s, t, s.tasks[t].act.j, true) else s
  }
  function DoDelLock(s: State, t: Tid): State {
    if t in s.tasks && s.tasks[t].act.DelWant? && s.tasks[t].pc == Out && s.lock == Unlocked
    then PutTask(s, t, s.tasks[t].(act := DelLocked(s.tasks[t].act.j, s.tasks[t].act.exiting))).(lock := ByTask(t))
    else s
  }
  function DoDelUnlink(s: State, t: Tid): State {
    if t in s.tasks && s.tasks[t].act.DelLocked? && s.tasks[t].pc == Out then
      var j := s.tasks[t].act.j;
      if j !in s.jobs || j !in s.zone then Fault(s)
      else PutTask(s, t, s.tasks[t].(act := DelUnlinked(j, s.tasks[t].act.exiting))).(zone := Without(s.zone, j))
    else s
  }
  function DoDelUnlock(s: State, t: Tid): State {
    if t in s.tasks && s.tasks[t].act.DelUnlinked? && s.tasks[t].pc == Out
    then PutTask(s, t, s.tasks[t].(act := DelUnlocked(s.tasks[t].act.j, s.tasks[t].act.exiting))).(lock := Unlocked)
    else s
  }
  function DoDelFree(s: State, t: Tid): State {
    if t in s.tasks && s.tasks[t].act.DelUnlocked? && s.tasks[t].pc == Out then
      var j := s.tasks[t].act.j;
      if j !in s.jobs || s.jobs[j].queue != {} || !Unused(s, j) then Fault(s)
      else PutTask(s, t, s.tasks[t].(act := if s.tasks[t].act.exiting then Gone else User)).(jobs := s.jobs - {j})
    else s
  }
  // No thread entry, fork in flight, list link or lock holder still refers to the job.
  predicate Unused(s: State, j: Ref) {
    && (forall t :: t in s.tasks ==> !OwnRef(s.tasks[t], j) && !FlightRef(s.tasks[t], j))
    && j !in s.zone
    && (s.lock.ByAdmin? && (s.lock.pc.Found? || s.lock.pc.Read? || s.lock.pc.WakePending?) ==> s.lock.pc.h != j)
  }
  function DoDie(s: State, t: Tid): State {
    if At(s, t, Gone) then PutTask(s, t, s.tasks[t].(run := TaskDead)) else s
  }

  // ---------- enter_schedule_hook and leave_schedule_hook ----------

  function DoBegin(s: State, t: Tid): State {
    if AtPc(s, t, Out) && s.tasks[t].attached && !Holding(s.tasks[t].act) then
      var k := s.tasks[t];
      var e := k.entry.value;
      if k.run == TaskDead then PutTask(s, t, k.(entry := Some(e.(dead := true))))
      else PutTask(s, t, k.(entry := Some(e.(saved := k.run)), pc := Saved))
    else s
  }
  function DoBed(s: State, t: Tid): State {
    if AtPc(s, t, Saved) then
      var k := s.tasks[t];
      var j := k.entry.value.job;
      if j !in s.jobs then Fault(s)
      else
        PutJob(PutTask(s, t, k.(run := TaskInterruptible, pc := Queued)), j, s.jobs[j].(queue := s.jobs[j].queue + {t}))
    else s
  }
  function DoLook(s: State, t: Tid): State {
    if AtPc(s, t, Queued) then
      var j := s.tasks[t].entry.value.job;
      if j !in s.jobs then Fault(s) else PutTask(s, t, s.tasks[t].(pc := Saw(s.jobs[j].state)))
    else s
  }
  function DoSettle(s: State, t: Tid): State {
    if t in s.tasks && s.tasks[t].pc.Saw? && s.tasks[t].entry.Some? then
      var k := s.tasks[t];
      var j := k.entry.value.job;
      if k.pc.st == SUSPENDED then PutTask(s, t, k.(pc := Asleep))
      else if j !in s.jobs then Fault(s)
      else FinishWait(s, t, j, Raised(k.pc.st))
    else s
  }
  function DoRestore(s: State, t: Tid): State {
    if t in s.tasks && s.tasks[t].pc.Raised? && s.tasks[t].entry.Some? then
      var k := s.tasks[t];
      PutTask(s, t, k.(run := k.entry.value.saved, pc := if k.pc.st == KILLED then Doomed else Out))
    else s
  }
  // go_to_heaven: at most one SIGKILL per thread entry.
  function DoHeaven(s: State, t: Tid): State {
    if AtPc(s, t, Doomed) then
      var k := s.tasks[t];
      var e := k.entry.value;
      if e.dead then PutTask(s, t, k.(pc := Out))
      else PutTask(s, t, k.(pc := Out, run := e.saved, entry := Some(e.(dead := true, kills := e.kills + 1))))
    else s
  }
  function DoLeaveCheck(s: State, t: Tid): State {
    if AtPc(s, t, Asleep) then
      var j := s.tasks[t].entry.value.job;
      if j !in s.jobs then Fault(s)
      else PutTask(s, t, s.tasks[t].(pc := if t in s.jobs[j].queue then Rising else Out))
    else s
  }
  function DoLeaveUp(s: State, t: Tid): State {
    if AtPc(s, t, Rising) then
      var j := s.tasks[t].entry.value.job;
      if j !in s.jobs then Fault(s) else FinishWait(s, t, j, Raised(RUNNING))
    else s
  }

  // ---------- administrators ----------

  function DoAdminLock(s: State, op: AdminOp, jid: int): State {
    if s.lock == Unlocked then s.(lock := ByAdmin(Searching(op, jid))) else s
  }
  function DoAdminSearch(s: State): State {
    if s.lock.ByAdmin? && s.lock.pc.Searching? then
      match FindJob(s.jobs, s.zone, s.lock.pc.jid)
      case None => s.(lock := ByAdmin(Finished))
      case Some(h) => s.(lock := ByAdmin(Found(s.lock.pc.op, h)))
    else s
  }
  function DoAdminRead(s: State): State {
    if s.lock.ByAdmin? && s.lock.pc.Found? then
      var h := s.lock.pc.h;
      if h !in s.jobs then Fault(s) else s.(lock := ByAdmin(Read(s.lock.pc.op, h, s.jobs[h].state)))
    else s
  }
  function DoAdminWrite(s: State): State {
    if s.lock.ByAdmin? && s.lock.pc.Read? then
      var p := s.lock.pc;
      if p.h !in s.jobs then Fault(s)
      else PutJob(s, p.h, s.jobs[p.h].(state := AdminNext(p.op, p.prev)))
           .(lock := ByAdmin(if AdminWakes(p.op, p.prev) then WakePending(p.h) else Finished))
    else s
  }
  function DoAdminWake(s: State): State {
    if s.lock.ByAdmin? && s.lock.pc.WakePending? then
      var h := s.lock.pc.h;
      if h !in s.jobs then Fault(s) else WakeAll(s, h).(lock := ByAdmin(Finished))
    else s
  }
  function DoAdminUnlock(s: State): State {
    if s.lock == ByAdmin(Finished) then s.(lock := Unlocked) else s
  }

  // ---------- one event, and a whole run ----------

  function Apply(s: State, e: Event): State {
    match e
    case Spawn(t) => if t in s.tasks then s else PutTask(s, t, Task(None, None, false, User, Out, TaskRunning))
    case SetRun(t, r) =>
      if t in s.tasks && s.tasks[t].pc == Out && r != TaskDead && s.tasks[t].run != TaskDead
      then PutTask(s, t, s.tasks[t].(run := r)) else s
    case Wakeup(t) =>
      if t in s.tasks && Sleeping(s.tasks[t].run) then PutTask(s, t, s.tasks[t].(run := TaskRunning)) else s
    case ExecCreate(t) => DoExecCreate(s, t)
    case ExecLock(t) => DoExecLock(s, t)
    case ExecAppend(t) => DoExecAppend(s, t)
    case ExecUnlock(t) => DoExecUnlock(s, t)
    case ExecPublish(t) => DoExecPublish(s, t)
    case ForkBegin(t) => DoForkBegin(s, t)
    case ForkChild(t, c) => DoForkChild(s, t, c)
    case ForkOk(t) => DoForkOk(s, t)
    case ForkFail(t) => DoForkFail(s, t)
    case Tail(t, ok) => DoTail(s, t, ok)
    case ExitBegin(t) => DoExitBegin(s, t)
    case ExitFree(t) => DoExitFree(s, t)
    case ExitDrop(t) => DoExitDrop(s, t)
    case DelLock(t) => DoDelLock(s, t)
    case DelUnlink(t) => DoDelUnlink(s, t)
    case DelUnlock(t) => DoDelUnlock(s, t)
    case DelFree(t) => DoDelFree(s, t)
    case Die(t) => DoDie(s, t)
    case Begin(t) => DoBegin(s, t)
    case Bed(t) => DoBed(s, t)
    case Look(t) => DoLook(s, t)
    case Settle(t) => DoSettle(s, t)
    case Restore(t) => DoRestore(s, t)
    case Heaven(t) => DoHeaven(s, t)
    case LeaveCheck(t) => DoLeaveCheck(s, t)
    case LeaveUp(t) => DoLeaveUp(s, t)
    case AdminLock(op, jid) => DoAdminLock(s, op, jid)
    case AdminSearch => DoAdminSearch(s)
    case AdminRead => DoAdminRead(s)
    case AdminWrite => DoAdminWrite(s)
    case AdminWake => DoAdminWake(s)
    case AdminUnlock => DoAdminUnlock(s)
  }

  function Exec(s: State, es: seq<Event>): State
    decreases |es|
  {
    if es == [] then s else Exec(Apply(s, es[0]), es[1..])
  }

  // ---------- who holds a reference ----------

  // A thread's own reference, kept until put_thread in __fini_thread.
  predicate OwnRef(k: Task, j: Ref) { (k.entry.Some? && k.entry.value.job == j) || k.act == ExitPut(j) }
  // A reference taken by do_fork_agent and not yet passed on by schedule_tail_agent or rolled back.
  predicate FlightRef(k: Task, j: Ref) { k.act == Forking(Some(j)) || (k.act == Newborn && k.home == Some(j)) }

  function Owners(s: State, j: Ref): set<Tid> { set t | t in s.tasks && OwnRef(s.tasks[t], j) }
  function Flights(s: State, j: Ref): set<Tid> { set t | t in s.tasks && FlightRef(s.tasks[t], j) }
}
