# YASched kernel module: job protocol and live code patching

This project models the two cores of the YASched kernel module and proves what they guarantee.

**The job protocol** (`lkm/sched`, `lkm/hook`). `execve` creates a job; `fork` takes a reference in the parent
and attaches the child in `schedule_tail`; `do_exit` gives the entry and the reference back, and whoever drops the
last reference destroys the job. Administrators suspend, resume and kill jobs under the zone lock; threads read
the job's state without it, at every scheduling point.

- `lifecycle.dfy` is the system as atomic steps: each event is one statement of one hook or of one
  administrator's call, a run is any sequence of events, and a step that touches freed memory, unlinks what is not
  linked or frees what is still in use raises `fault`.
- `lifecycle_invariant.dfy` and `lifecycle_steps.dfy` give one inductive invariant over reference counts, thread
  entries, zone list, wait queues and lock, and one lemma per event.
- `lifecycle_theorems.dfy`, `lifecycle_progress.dfy`, `lifecycle_holders.dfy` and `lifecycle_frames.dfy` say what that means over whole runs.
- `hooks.dfy` has the hooks and the administrators' calls as methods on a running kernel: one step per statement,
  and arbitrary steps of everybody else between any two of them.
- `job_zone.dfy` has the objects of `lkm/sched/sched.c` themselves: the thread table, the job list, the wait queue;
  `thread_table.dfy` shows that a job's table follows any run of the system.

**The patching engine** (`lkm/arch/x86_64`, `lkm/inception.c`, `memmem` of `lkm/lib.c`). It finds call sites by
byte search, exchanges their 32-bit displacements, builds trampolines from copied function prologues, unwinds a
failed installation and waits for running hooks on removal.

- `addresses.dfy`: displacements, sign extension and the `0xffffffff00000000 |` decode, on 64-bit addresses.
- `memory.dfy`: kernel text as an array of bytes, `memmem`, the exchange, and sequences of exchanges undone last in,
  first out or in order. `switchpoints.dfy`: where each `switch_*` looks.
- `overlaps.dfy`: displacement fields that overlap each other.
- `inception.dfy`: the module's variables and the methods from `switch_execve` to `perform_inception` and
  `remove_inception`.
- `machine.dfy`, `trampolines.dfy`, `hooked_kernel.dfy`: a small x86 machine, the three trampolines on it, and the
  setup functions with the code they leave behind run on it.
- `usage_count.dfy`: `ya_count` and the drain loop.

`options.dfy` is the optional value. `dafny verify dfyconfig.toml` checks everything.

## What was found

Where the code does less than its comments or its design promise, the model follows the code.

- `__switch_do_fork` restarts its search at the function's first byte every time and only shrinks the window, so it
  ever looks at one jump and one call. `ForkPatchesIff` says which sites are patched. The loop can also run out and
  report success without patching anything (`Silent` in `ForkOutcome`).
- No fork site is patched twice, even if the fields overlap (`NoForkTwice`): half-overwritten displacements never
  lead back to `_do_fork` behind an opcode.
- `restore_do_fork` restores in the order of installation. A failed or removed installation gives every byte back
  if and only if the fork sites hide no changed byte from one another (`UnwoundIff`; in `OverlapSpoils`, `sys_fork`
  is a call inside the field of `sys_clone`'s call and `sys_vfork` has none, and the failed ninth step leaves a byte
  changed; `DisjointForksUnwind` is the usual case where it holds). Everything else is undone last in, first
  out and comes back even if windows overlap.
- `switch_pgfault_handler` does not check either search; a miss is a NULL access (`Oops`), not `-ENOSYS`.
- `enter_schedule` does not save `%rdi`, `__schedule()`'s argument; `enter_exit` does (`EnterLosesArgument`,
  `ExitRefines`). Continuing behind the copied prologue is undisturbed from offset 8 on, and below that only if the
  swapped bytes there happen to be the original ones (`ReentryIff`).
- `leave_schedule` ends in `leaveq`, so it is the original epilogue if and only if `%rbp` points just above the five
  saved registers (`LeaveRefinesIff`).
- KILLED is not final: a suspend followed by a resume revives a killed job (`ResumesDoNotRevive`).
- The `TASK_DEAD` branch of `enter_schedule_hook` is never taken (`DeadBranchUnreachable`).
- A child whose thread entry could not be allocated pins its job for ever (`OrphanPinsJob`).
- The timer hook's unlocked read of the job is safe until the task has left its exit hook (`TimerReadSafe`). After
  that it is safe iff somebody else still accounts for the job (`TimerReadIff`; `TimerReadCanDangle` is a concrete
  run in which nobody does).
- `get_up` writes back the state saved before the check, so a wake-up from some other queue that arrives inside
  `enter_schedule_hook` is lost: `EnterScheduleHook` returns the very state it found, whatever happened meanwhile.

## How the steps were cut

- `__ya_init_job` up to `lock_ya_zone` is one step: until then nobody else can reach the job. `init_job` is a step of
  its own, after the original `execve`. `search_job_by_task` is the membership inherited through fork, and
  `search_thread_by_task` the entry attached at lkm/sched/sched.c:72-76; `mgmt/job.h`, `mgmt/job.c` and
  `mgmt/zone.h` are not part of this model.
- `prepare_to_wait`, `finish_wait` and `wake_up` are one step each, with Linux' meaning: `wake_up` makes every waiter
  that sleeps on that queue runnable and takes it off.
- `init_job` and `is_ya_thread` see only membership. Parsing the environment comes down to one input, whether
  it names the zone; allocation to one input, whether it succeeds in the end.
- An access outside the image is an `Oops`: the text stays as far as it was patched, and the kernel does not go on. A
  failed lookup of the system call table counts as a failed lookup of `SyS_execve`.

## Model

| member | source | states |
|---|---|---|
| LifecycleSteps.Step | lkm/sched/sched.c:66-346 | every atomic step of every task and administrator keeps the joint invariant of counts, entries, list, queues and lock |
| LifecycleSteps.Reachable | lkm/hook/sched.c:22-90 | the invariant holds after every interleaving from the empty system |
| LifecycleSteps.FreshRef | lkm/sched/sched.c:196-208 | no task, list or lock holder refers to the address of the next job |
| LifecycleSteps.OnlyCreator | lkm/sched/sched.c:160-180 | until it is linked, a job is known to the task that creates it and to nobody else |
| LifecycleSteps.OnlyDestroyer | lkm/sched/sched.h:52-57 | between the count reaching zero and the free, no other task holds, uses or destroys the job |
| LifecycleSteps.MemberJob | lkm/hook/fork.c:73-79 | a member's job exists, is listed and counts the member; a parent in fork counts twice |
| LifecycleTheorems.ReferenceConservation | lkm/hook/fork.c:71-87 | in every run `alive_proc` is attached threads + leaving threads + parents in fork + children before `schedule_tail` + orphans |
| LifecycleTheorems.NeverFaults | lkm/sched/sched.c:262-346 | no run touches a freed job, frees a linked waiter, or frees a job that anything still refers to |
| LifecycleTheorems.FreedForGood | lkm/sched/sched.c:331-346 | a freed job never comes back, so it is freed at most once |
| LifecycleTheorems.FreeFindsNothing | lkm/sched/sched.c:331-343 | a job being destroyed has count zero, empty queue, empty table, no fork in flight, one destroyer, and at the free no link and no lock holder |
| LifecycleTheorems.FailedForkKeepsJob | lkm/hook/fork.c:85-87 | the rollback of a failed fork leaves the count at one or more; it never destroys the job |
| LifecycleTheorems.WaiterContainment | lkm/hook/sched.c:50-86 | a queued thread is attached to that job and between its enter and leave hooks, never in exit and never holding the lock |
| LifecycleTheorems.NoLostWakeup | lkm/sched/sched.c:211-246 | a thread that has committed itself to sleep is on its job's queue, and the job is SUSPENDED or its `wake_up` is on the way |
| LifecycleTheorems.NobodySleepsThroughKill | lkm/sched/sched.c:211-225 | once an administrator has unlocked, no thread of a job that is not SUSPENDED is left asleep, although `__kill_job` wakes only suspended jobs |
| LifecycleTheorems.WakesIff | lkm/sched/sched.c:221-242 | the queue is woken exactly by an operation that ends a suspension |
| LifecycleTheorems.AdminHoldsJob | lkm/sched/sched.c:272-280 | the job an administrator works on exists and is listed until he is done |
| LifecycleTheorems.DeadBranchUnreachable | lkm/hook/sched.c:45-48 | a task in TASK_DEAD has no thread entry any more |
| LifecycleTheorems.TimerReadSafe | lkm/hook/timer.c:41-57 | until it has left its exit hook, a member's job is not freed |
| LifecycleTheorems.AtMostOneSigkill | lkm/sched/sched.h:83-93 | a thread entry gets at most one SIGKILL, and is marked dead by it |
| LifecycleTheorems.FindJobUnique | lkm/sched/sched.c:248-260 | in an ordered list the search finds a listed job by its id |
| LifecycleTheorems.SearchIsExact | lkm/sched/sched.c:248-260 | in every reachable state the search returns the one listed job with the id, and NULL iff there is none |
| LifecycleTheorems.AppendNumbers | lkm/sched/sched.c:174-180 | a new job goes to the end of the list under the id after `max_jid` |
| LifecycleFrames.IdsOneByOne | lkm/sched/sched.c:28-29 | no other step moves `max_jid` |
| LifecycleTheorems.ThreadsJobIsFound | lkm/sched/sched.c:174-180 | as long as a thread is attached after creation, its job can be found by id |
| LifecycleTheorems.ListRun | lkm/sched/sched.c:174-180 | over any run the list gains only jobs with larger ids, and listed jobs keep theirs |
| LifecycleTheorems.IdsNeverReused | lkm/sched/sched.c:28-29 | two jobs listed at whatever times have different ids |
| LifecycleProgress.OnlyAdminsWrite | lkm/sched/sched.c:211-246 | nothing but an administrator's write changes a job's state |
| LifecycleProgress.StateIsHistory | lkm/sched/sched.c:211-246 | in any interleaving a job's state is what its own operations, in order, make of it |
| LifecycleProgress.HistoryClosedForm | lkm/sched/sched.c:211-246 | KILLED iff the last operation that was no resume was a kill; SUSPENDED iff the very last operation was a suspend |
| LifecycleProgress.StateInClosedForm | lkm/sched/sched.c:211-246 | in every reachable state, so for every job and the operations written to it since its creation |
| LifecycleProgress.ResumesDoNotRevive | lkm/sched/sched.c:235-246 | any number of resumes leaves a killed job killed; a suspend and a resume revive it |
| LifecycleProgress.OthersLeaveAlone | lkm/hook/sched.c:50-64 | nobody else moves a task's program points, entry or membership; at most it is made runnable |
| LifecycleProgress.NobodyElse | lkm/sched/sched.c:221-242 | a task is changed only by its own steps, by a wake-up meant for it, and by the `wake_up` of its own job's queue |
| LifecycleProgress.SleepsUntilWoken | lkm/hook/sched.c:50-64 | a committed sleeper stays exactly as it is, queued on a job that is suspended or about to wake it, until one of the latter two happens |
| LifecycleFrames.QueueStep | lkm/sched/sched.h:62-81 | every step's effect on every queue: `go_to_bed` adds, `get_up` takes oneself off, `wake_up` the sleepers of that queue, nothing else touches one |
| LifecycleFrames.OrphansStep | lkm/hook/fork.c:35-43 | only a child whose entry could not be allocated becomes an orphan of its job |
| LifecycleProgress.PassRun | lkm/hook/sched.c:42-64 | in a killed job, a thread that has begun its enter hook can only come out dead |
| LifecycleProgress.KillReachesEveryThread | lkm/hook/sched.c:54-64 | in a job that stays KILLED, once every thread has passed a scheduling point all are dead, with at most one SIGKILL each |
| LifecycleProgress.LivingShrinks | lkm/hook/fork.c:34-43 | without a child attaching itself, the set of living threads of a job only shrinks |
| LifecycleProgress.HeavenTakesOne | lkm/sched/sched.h:83-93 | each trip to heaven of a living thread takes exactly that thread out of the living, with its first SIGKILL |
| LifecycleProgress.OrphanPinsJob | lkm/hook/fork.c:40-43 | a job with an orphan child is never destroyed |
| LifecycleProgress.TimerReadCanDangle | lkm/hook/timer.c:41-57 | a run after which a task that has exited is still a member of a freed job |
| LifecycleHolders.JobExistsIff | lkm/sched/sched.h:52-57 | in every reachable state a job exists iff a thread, a fork in flight, its destroyer or an orphan accounts for it |
| LifecycleHolders.TimerReadIff | lkm/hook/timer.c:41-57 | a member's job exists iff the member has not left its exit hook or somebody else accounts for the job |
| LifecycleHolders.AttachedStep | lkm/sched/sched.c:66-143 | exactly which steps attach or detach whom |
| ThreadTable.TableFollowsRun | lkm/sched/sched.c:66-143 | after any run the slot table that has seen a job's attaches and detaches holds the attached threads, each once and in its slot |
| Hooks.Kernel.Interfere | lkm/hook/sched.c:50-54 | whatever others do between two statements, the task itself is unchanged but for being made runnable |
| Hooks.Kernel.BedAndLook | lkm/hook/sched.c:50-54 | saved its state, enqueued, and read the state the job had at that moment |
| Hooks.Kernel.EnterScheduleHook | lkm/hook/sched.c:22-68 | asleep if it saw SUSPENDED; dead, off the queue, with one SIGKILL more only if it was alive, if it saw KILLED; otherwise exactly the task it was; not a thread: no change |
| Hooks.Kernel.LeaveScheduleHook | lkm/hook/sched.c:71-90 | a task still on its queue gets up into the state saved on the way in; one woken by its job runs already and is otherwise unchanged; on no queue afterwards |
| Hooks.Kernel.DoForkAgent | lkm/hook/fork.c:60-92 | the first step takes one reference; a failed fork gives it back with its last step and leaves the job alive, a successful one passes it on to the child, a member of the same job; the parent is as before |
| Hooks.Kernel.ScheduleTailAgent | lkm/hook/fork.c:23-46 | the child is attached to its live job with a fresh entry, or its job counts one orphan more; nothing else changes |
| Hooks.Kernel.EnterExitHook | lkm/hook/exit.c:18-37 | the entry is gone and exactly one reference dropped; if it was the last one the job is freed, unless the task still waits for a held lock |
| Hooks.Kernel.DelJob | lkm/sched/sched.c:331-343 | locks, unlinks, unlocks and frees the job, or still waits for a held lock |
| Hooks.Kernel.ExecveAgent | lkm/hook/execve.c:143-177 | a task that is no member and names the zone becomes the first thread of a new job, listed last under the next id; members and others are unchanged |
| Hooks.NewId | lkm/sched/sched.c:174-180 | a job that was listed since has an id larger than the largest of before |
| Hooks.Kernel.Operate | lkm/sched/sched.c:211-246 | under the lock, in any interleaving, the job found gets the operation's state, and its queue is woken, once, iff the operation ends a suspension; that wake-up changes no task off the queue and no other job |
| Hooks.Kernel.Administer | lkm/sched/sched.c:262-329 | the one job that bears the id when the list is searched gets the new state and, iff due, the wake-up, or -EINVAL means none bears it; an unknown zone changes nothing; the lock is free again |
| Hooks.Kernel.SatInterruptAgent | lkm/hook/timer.c:26-61 | asks for rescheduling iff the job is not RUNNING; reads freed memory iff the job is gone, and so only behind the exit hook |
| JobZone.Thread.GoToHeaven | lkm/sched/sched.h:83-93 | dead afterwards, one SIGKILL more only the first time, the saved task state restored |
| JobZone.Job.constructor | lkm/sched/sched.c:146-169 | all slots empty but for the first thread in its own, RUNNING, one reference, nobody waiting |
| JobZone.Job.AttachThread | lkm/sched/sched.c:66-78 | the entry stands in slot pid mod size, at the end unless it was linked already; no other slot changes; the table agrees with the members |
| JobZone.Job.DetachThread | lkm/sched/sched.c:125-136 | the slot locked is pid mod size, the one that holds the entry, which is then in no slot; the table agrees with the members |
| JobZone.AddedIs | lkm/sched/sched.c:72-77 | linking keeps every member once and in its slot |
| JobZone.RemovedIs | lkm/sched/sched.c:131-135 | unlinking takes out that member and no other |
| JobZone.OnePlaceOnly | lkm/sched/sched.c:72-76 | a thread is in at most one place of the table, and in slot pid mod size iff it is a member |
| JobZone.TableAgrees | lkm/sched/sched.c:66-143 | after any sequence of attaches and detaches the table agrees with the plain set |
| JobZone.Job.GoToBed | lkm/sched/sched.h:62-67 | queued once, TASK_INTERRUPTIBLE |
| JobZone.Job.GetUp | lkm/sched/sched.h:75-81 | off the queue, in the saved state |
| JobZone.StillAwake | lkm/sched/sched.c:221-222 | who stays queued after a wake-up: exactly the waiters that were not asleep, each once |
| JobZone.StillAwakeSplits | lkm/sched/sched.c:221-222 | they stay in their order |
| JobZone.Job.WakeUp | lkm/sched/sched.c:221-222 | sleeping waiters are made runnable and leave the queue, the others stay as they are |
| JobZone.Job.Kill | lkm/sched/sched.c:211-225 | KILLED; the queue is woken iff the job was SUSPENDED |
| JobZone.Job.Suspend | lkm/sched/sched.c:227-233 | SUSPENDED whatever it was, nobody woken |
| JobZone.Job.Resume | lkm/sched/sched.c:235-246 | RUNNING and woken iff it was SUSPENDED, else unchanged |
| JobZone.WithoutAt | lkm/sched/sched.c:338-340 | `list_del` takes out one link and keeps the order of the rest |
| JobZone.WithoutOrdered | lkm/sched/sched.c:338-340 | the list stays strictly increasing in id |
| JobZone.Zone.SearchJobById | lkm/sched/sched.c:249-260 | the one job with the id, none iff there is none |
| JobZone.Zone.NewJob | lkm/sched/sched.c:171-180 | appended under the next id; the list stays strictly increasing and below `max_jid` |
| JobZone.Zone.DelJob | lkm/sched/sched.c:332-343 | unlinked, with all slots empty; ids stay ordered |
| JobZone.Zone.PutThread | lkm/sched/sched.h:52-57 | one reference less; at zero the job is unlinked, else it stays |
| JobZone.Zone.DelThread | lkm/sched/sched.c:110-143 | the entry leaves the table and the reference is dropped; the last one unlinks the job |
| JobZone.Zone.KillJob | lkm/sched/sched.c:262-283 | changes exactly the job with this id, or nothing and -EINVAL |
| JobZone.Zone.SuspendJob | lkm/sched/sched.c:285-306 | changes exactly the job with this id, or nothing and -EINVAL |
| JobZone.Zone.ResumeJob | lkm/sched/sched.c:308-329 | changes exactly the job with this id, or nothing and -EINVAL |
| Addresses.JumpLands | lkm/arch/x86_64/apic_timer.c:67-69 | the truncated displacement makes the CPU land on the agent iff the agent is within 2 GiB |
| Addresses.TopIsNear | lkm/arch/x86_64/apic_timer.c:67-69 | that holds for any two places in the top 2 GiB |
| Addresses.DecodeExact | lkm/arch/x86_64/apic_timer.c:70-71 | the zero-extending decode equals the CPU's target iff that lies in the top 4 GiB, whatever the carry |
| Addresses.DecodeOfDisp | lkm/arch/x86_64/fork.c:171-187 | decoding a patched site yields the agent |
| Addresses.FieldRoundTrip | lkm/arch/x86_64/kutils.h:27-35 | a displacement written as four bytes reads back as itself |
| Memory.FindIsLeast | lkm/lib.c:32-60 | the specified search is the least occurrence, and none iff there is none |
| Memory.MemMem | lkm/lib.c:32-60 | `memmem` returns the least index at which the needle occurs, NULL iff there is none, also for empty and oversized needles |
| Memory.Image.Xchg | lkm/arch/x86_64/kutils.h:27-45 | text and variable swap exactly the window, and write protection is on again |
| Memory.SwapTwice | lkm/arch/x86_64/kutils.h:27-45 | exchanging twice restores text and variable |
| Memory.LifoRestores | lkm/inception.c:97-121 | any exchanges undone last in, first out give back every byte, overlapping or not |
| Memory.FifoRestores | lkm/arch/x86_64/fork.c:200-211 | undone in order, a byte becomes what the last patch over it replaced |
| Memory.FifoRestoresIff | lkm/arch/x86_64/fork.c:200-211 | undoing in order is the identity iff that is the original byte everywhere |
| Memory.DisjointBeneath | lkm/arch/x86_64/fork.c:200-211 | which holds for pairwise disjoint windows |
| Memory.LastingWindow | lkm/inception.c:68-93 | a window that no later exchange overlaps still holds what was put there |
| SwitchPoints.TimerSiteIsThirdCall | lkm/arch/x86_64/apic_timer.c:42-67 | the timer's switch point is the field of the third 0xe8 byte at or after the entry |
| SwitchPoints.ThirdCallIsFound | lkm/arch/x86_64/apic_timer.c:42-67 | the third call is found iff each gap fits its 512-byte window |
| SwitchPoints.TimerSiteIff | lkm/arch/x86_64/apic_timer.c:42-67 | when it is found, when it is missing and when the search leaves the image, for every image |
| SwitchPoints.SearchIsFirst | lkm/lib.c:51-59 | a search for 0xe8 finds p iff p is the first such byte within the window, and misses iff there is none |
| SwitchPoints.ExecveSiteIff | lkm/arch/x86_64/syscalls.c:93-117 | the site is the field of the first call behind the first call, if that one calls getname, each within 64 bytes; else there is none |
| SwitchPoints.PgfaultSiteIff | lkm/arch/x86_64/page_fault.c:64-69 | the site is the field of the second call, each within 512 bytes; a miss is a fault |
| SwitchPoints.TailSiteIff | lkm/arch/x86_64/fork.c:104-109 | the site is the field of the first call within 64 bytes |
| SwitchPoints.SearchIsRounds | lkm/arch/x86_64/fork.c:158-190 | the fork search depends on the first jump and the first call only |
| SwitchPoints.RestIsModulo | lkm/arch/x86_64/fork.c:158-171 | the shrinking window ends at the remainder of the division by the candidate's offset |
| SwitchPoints.ForkSearchClosedForm | lkm/arch/x86_64/fork.c:150-191 | the whole loop in closed form, with all four outcomes |
| SwitchPoints.ForkPatchesIff | lkm/arch/x86_64/fork.c:150-191 | exactly which site is patched: the first jump, or the first call in what it leaves of the window, if it leads to `_do_fork`, or with that unresolved to a function that begins with 0x55 or 0x41 0x57 |
| SwitchPoints.ForkCrashesIff | lkm/arch/x86_64/fork.c:150-191 | the search leaves the image iff its window does, or one of the two sites it looks at |
| SwitchPoints.PatchedSiteNotTaken | lkm/arch/x86_64/fork.c:171-188 | a site that leads to the agent is not taken for an original one |
| SwitchPoints.Redirects | lkm/arch/x86_64/syscalls.c:112-117 | a rewritten call goes to the agent, and the decoded original is what the CPU called before, iff that is in the top 4 GiB |
| Patching.UnwoundByte | lkm/inception.c:127-140 | what removal makes of each byte |
| Patching.UnwoundIff | lkm/inception.c:127-140 | removal is the identity on the kernel text iff the fork sites hide no changed byte from one another |
| Patching.DisjointForksUnwind | lkm/inception.c:127-140 | in particular for pairwise disjoint fork sites, or none, however the other windows overlap |
| Patching.MemCpy | lkm/arch/x86_64/sched.c:98-99 | the bytes are copied if the ranges do not overlap, nothing outside the destination changes |
| Patching.Inception.SwitchExecve | lkm/arch/x86_64/syscalls.c:84-124 | exchanges the field of the second call if the first one calls getname, records its target, else changes nothing |
| Patching.Inception.SwitchPgfault | lkm/arch/x86_64/page_fault.c:43-88 | exchanges the field of the second call and records its target; a miss is an access to NULL |
| Patching.Inception.SwitchTimer | lkm/arch/x86_64/apic_timer.c:26-91 | exchanges the field of the third call and records its target, else changes nothing |
| Patching.Inception.SwitchScheduleTail | lkm/arch/x86_64/fork.c:97-121 | exchanges the field of the first call and records its target, else changes nothing |
| Patching.Inception.Restore | lkm/arch/x86_64/apic_timer.c:93-98 | exchanges again, nothing for a site never found |
| Patching.Inception.ScanSignature | lkm/arch/x86_64/sched.c:94-103 | the offset of the first `48 83 ec`, 64 if there is none |
| Patching.SignatureIff | lkm/arch/x86_64/sched.c:94-103 | the specified offset is the first `48 83 ec` among 64 places, 64 if there is none |
| Patching.ScheduleBodyIff | lkm/arch/x86_64/sched.c:86-93 | `__schedule()` is what the CPU reaches from the first call within 64 bytes of `schedule()` |
| Patching.EpilogueSiteIff | lkm/arch/x86_64/sched.c:145-153 | the epilogue is the first one within 4096 bytes |
| Patching.JumpBytesMean | lkm/arch/x86_64/sched.c:113-116 | the eight bytes are the opcode, a field that lands on the trampoline iff it is within reach, and the three bytes behind the assembled jump |
| Patching.Inception.BuildTramp | lkm/arch/x86_64/sched.c:97-100 | the trampoline becomes prologue, tail and the rest, whenever prologue and tail fit the 64 nops |
| Patching.Inception.SetupEnterSchedule | lkm/arch/x86_64/sched.c:79-124 | builds the trampoline, exchanges the first eight bytes of `__schedule()` and sets the re-entry point, or leaves the text alone |
| Patching.Inception.SetupLeaveSchedule | lkm/arch/x86_64/sched.c:146-164 | exchanges the first eight bytes of the first matching epilogue, or leaves the text alone |
| Patching.Inception.SetupEnterExit | lkm/arch/x86_64/exit.c:52-99 | as for `__schedule()`, with the `sub` in the copy, or leaves the text alone |
| Patching.Inception.SearchFork | lkm/arch/x86_64/fork.c:152-190 | the loop terminates and computes the specified search |
| Patching.Inception.SwitchOneFork | lkm/arch/x86_64/fork.c:150-191 | exchanges the site the search found, which led to `_do_fork` |
| Patching.Inception.RestoreDoFork | lkm/arch/x86_64/fork.c:200-211 | all three sites exchanged again, in the order of installation |
| Patching.Inception.ForkStepsCases | lkm/arch/x86_64/fork.c:224-236 | the first search that fails ends the ninth step there; it is complete iff none of the three fails |
| Patching.Inception.SwitchDoFork | lkm/arch/x86_64/fork.c:213-237 | all three searches, each on what the one before has left; a failing one restores what was patched, once |
| Patching.Inception.OverlapSpoils | lkm/arch/x86_64/fork.c:200-237 | a call inside the field of another call and a third search that fails: the failed ninth step does not restore the text |
| Overlaps.OverlapUp | lkm/arch/x86_64/fork.c:171-187 | a second field written s bytes behind the first leaves the first one leading to the original only if agent and original coincide |
| Overlaps.OverlapDown | lkm/arch/x86_64/fork.c:158-187 | the same s bytes before it, since both times an opcode stands in front of the first field |
| Overlaps.NotTakenAgain | lkm/arch/x86_64/fork.c:158-188 | after writing a second field anywhere, a first one behind an opcode does not lead to `_do_fork` again |
| Patching.Inception.ForkStepsPlan | lkm/arch/x86_64/fork.c:158-188 | each site the three searches yield stands behind a call or jump opcode and led to `_do_fork` when its turn came |
| Patching.Inception.NoForkTwice | lkm/arch/x86_64/fork.c:150-191 | with `_do_fork` resolved and another agent, the three sites are pairwise different, however their fields overlap |
| Patching.Inception.PlanAt | lkm/inception.c:68-90 | every new value stands where the search of its own step found the place |
| Patching.Inception.SitesInOrder | lkm/inception.c:68-90 | the seven sites by name, each found in the text its predecessors left |
| Patching.Inception.FailureIsReal | lkm/inception.c:68-93 | a step that fails for want of its site could not have been taken |
| Patching.Inception.EveryCallRedirected | lkm/inception.c:68-93 | after a complete installation a hooked call goes to its agent, unless a later patch overlaps it |
| Patching.Inception.EveryJumpLeads | lkm/inception.c:83-93 | and `__schedule()`, its epilogue and `do_exit()` jump to their trampolines, unless a later patch overlaps them |
| Patching.Inception.PerformInception | lkm/inception.c:63-125 | all nine steps in order, or the reason the first failing one gives and the text unwound; before the fork sites that is the original text; after a fault, the text as far as it was patched |
| Patching.Inception.RemoveInception | lkm/inception.c:127-140 | the restores after a complete installation leave the unwound text |
| Machine.StraightRuns | lkm/arch/x86_64/sched.c:97-98 | position-independent code does the same wherever its bytes stand |
| Machine.HookReturns | lkm/arch/x86_64/sched.c:46 | a hook that obeys the calling convention returns to its caller with callee-saved registers and stack kept |
| Trampolines.JumpStep | lkm/arch/x86_64/sched.c:113-119 | the eight exchanged bytes jump to the trampoline |
| Trampolines.EnterRefines | lkm/arch/x86_64/sched.c:33-47 | patched `__schedule()` reaches the end of its prologue in the same state, after exactly one hook call; from offset 8 on the code there is the original |
| Trampolines.ReentryIff | lkm/arch/x86_64/sched.c:111-119 | below offset 8, iff the exchanged bytes behind the re-entry point equal the original ones |
| Trampolines.EnterLosesArgument | lkm/arch/x86_64/sched.c:46-47 | a hook within the calling convention can lose %rdi |
| Trampolines.ExitKeeps | lkm/arch/x86_64/exit.c:40-44 | the pushes and pops around the hook keep %rbx, %rdi, the callee-saved registers and the stack |
| Trampolines.ExitRefines | lkm/arch/x86_64/exit.c:26-50 | patched `do_exit()` reaches the end of its prologue, `sub` included, after exactly one hook call, with %rdi kept |
| Trampolines.EpilogueRuns | lkm/arch/x86_64/sched.c:137-144 | the original epilogue pops six registers and returns |
| Trampolines.LeaveTrampRuns | lkm/arch/x86_64/sched.c:50-58 | `leave_schedule` calls the hook once, pops five, leaves and returns |
| Trampolines.LeaveRefinesIff | lkm/arch/x86_64/sched.c:49-58 | same return address, stack and callee-saved registers iff %rbp points just above the five saved registers |
| HookedKernel.HookEnterSchedule | lkm/arch/x86_64/sched.c:79-124 | the function hooked is the one the first call in `schedule()` arrives at; with its first `sub` at 8 to 50, the image as left behind runs it as before with one hook call |
| HookedKernel.HookEnterExit | lkm/arch/x86_64/exit.c:52-99 | the same for `do_exit()`, with the signature at 4 to 42 |
| HookedKernel.HookLeaveSchedule | lkm/arch/x86_64/sched.c:146-164 | after the setup, the image as left behind returns from `__schedule()` as before, iff the frame is as it should be, with one hook call |
| UsageCount.TotalWithout | lkm/inception.c:142-147 | one execution less, its weight less |
| UsageCount.WeightsTell | lkm/hook/sched.c:20 | no two hooks have the same weight, so one execution inside can be told from the counter |
| UsageCount.ZeroMeansNobody | lkm/inception.c:142-147 | the 64-bit counter is zero iff nobody is inside |
| UsageCount.CounterReadsZero | lkm/hook/sched.c:20-90 | over any run of nested hooks on any threads |
| UsageCount.Usage.Add | lkm/hook/timer.c:32 | the counter stays the sum of the weights of those inside |
| UsageCount.Usage.Sub | lkm/hook/timer.c:60 | the counter stays the sum of the weights of those inside |
| UsageCount.Usage.Drain | lkm/inception.c:142-147 | the loop is left at the first poll that finds nobody inside, and only then |

## Left out

- Patching.MemCpy: says nothing about the copied bytes when the ranges overlap, as C leaves that open; so trampolines with the signature beyond offset 50 (42 for `do_exit()`) are unspecified.
- Patching.Inception.RemoveInception: starts from a complete installation, the only state in which the module stays loaded.
- Patching.Inception.constructor: a freshly loaded module; a second attempt after a failed one in the same module is not modelled.
- Hooks.Kernel.EnterScheduleHook: assumes, like the code, that the task does not hold a spin lock when it schedules.
- Hooks.Kernel.DoForkAgent: between its own statements only other tasks move; the same task rescheduling inside `_do_fork` is covered by the theorems over runs, where its steps may come in any order the program points allow.
- HookedKernel.HookEnterSchedule: assumes that `jmp enter_schedule` was assembled with the opcode 0xe9, since `setup_enter_schedule_hook` keeps the assembler's first byte; `do_exit()`'s setup writes it.
- HookedKernel.HookLeaveSchedule: assumes the same of `jmp leave_schedule`.
- Patching.Inception.EveryJumpLeads: assumes the same of both.
- Trampolines.EnterRefines: the copied instructions are position-independent straight-line code, so without other calls, jumps and loops; the pushes and pops the trampolines use are decoded, all other such instructions are a parameter, and memory is a map of words that the stack accesses at exact addresses. Stack alignment, flags and interrupts are not modelled.
- UsageCount.ZeroMeansNobody: fewer than 2^32 executions at a time; a thread in a trampoline, before the add or after the sub of its hook, is not inside in the sense of the counter.
- Liveness: a task that waits for the zone lock is shown to wait only while it is held; that it gets it is a matter of the scheduler.
- Assumptions of a lifecycle run: all hooks stay installed, a task keeps its pid between attach and detach (no multi-threaded exec), the id counter does not wrap around.
- Creation up to the zone lock is one step, although the new thread is attached before the queue is initialised; rescheduling in between is not modelled.
- Weak memory: the `wmb()` calls order the steps as written.
- The `printk` of `ya_del_job` behind the free, which reads the freed job and a NULL pointer: modelled up to the free.
- The debug variants (`INCEPTION_DEBUG`), older kernel versions, `verify_symbol` (always true) and `switch_schedule_call` (does nothing).
- Symbol, vector and MSR lookups, the decoding of the fork stubs and of the system call table: inputs.
- procfs entries, ioctl, module loading, caches, and the command line tools under `cli`.
