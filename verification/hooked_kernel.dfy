/**
 * The setup functions and the machine together: what running the image means before and after
 * setup_enter_schedule_hook, setup_leave_schedule_hook and setup_enter_exit_hook have done their work.
 */
module HookedKernel {
  import opened Options
  import opened Addresses
  import opened Memory
  import opened SwitchPoints
  import opened Patching
  import opened Machine
  import opened Trampolines

  // The instructions, and one of the module's hooks: its address and what it does.
  datatype World = World(isa: Isa, hookAddr: int, hook: Data -> Data)

  ghost predicate Sound(w: World) { PrefixDetermined(w.isa) && Abi(w.hook) }

  // Image and trampoline as code, with the two pointer variables of the trampoline.
  function Kernel(w: World, text: seq<byte>, base: int, tramp: seq<byte>, at: int, slots: map<int, int>): Env {
    Env(w.isa, text, base, tramp, at, slots, w.hookAddr, w.hook)
  }
  predicate Slots(hookSlot: int, backSlot: int) { 0 <= hookSlot < P32 && 0 <= backSlot < P32 && hookSlot != backSlot }

  // From the function's first byte to the end of its copied prologue both kernels run to the same
  // address; the hooked one has called the hook once, and keeps what the calling convention keeps.
  ghost predicate OneHookCall(e0: Env, e1: Env, f: nat, n: nat, d: Data, k: nat, extra: nat, h: Data)
    requires f + n <= |e0.text|
  {
    var code := e0.text[f..f + n];
    StraightRun(e0.isa, code, d).Some? ==>
      var m, p := StraightSteps(e0.isa, code), StraightRun(e0.isa, code, d).value;
      && Run(e0, Cpu(e0.base + f, d, k), m) == Some(Cpu(e0.base + f + n, p, k))
      && Run(e1, Cpu(e0.base + f, d, k), 1 + m + extra) == Some(Cpu(e0.base + f + n, h, k + 1))
      && Keeps(p, h)
  }

  // What __schedule() and do_exit() have done by the end of the hooked prologue.
  function AfterEnter(e: Env, f: nat, n: nat, d: Data): Data
    requires f + n <= |e.text|
  {
    match StraightRun(e.isa, e.text[f..f + n], d)
    case None => d
    case Some(p) => HookCall(e.hook, p, e.trampBase + n + 7)
  }
  function AfterExit(e: Env, f: nat, n: nat, d: Data): Data
    requires f + n <= |e.text|
  {
    match StraightRun(e.isa, e.text[f..f + n], d)
    case None => d
    case Some(p) => ExitCall(e.hook, p, e.trampBase + n + 9)
  }

  lemma SlotsHold(e: Env, hookSlot: int, backSlot: int, back: int)
    requires hookSlot != backSlot && e.slots == map[hookSlot := e.hookAddr, backSlot := back]
    ensures SlotIs(e, hookSlot, e.hookAddr) && SlotIs(e, backSlot, back)
  {
  }

  lemma EnterFromCopy(e0: Env, e1: Env, f: nat, i: nat, template: seq<byte>, hookSlot: int, backSlot: int)
    requires Slots(hookSlot, backSlot) && CopyInstalled(e0, e1, f, i, template, EnterTail(hookSlot, backSlot))
    requires e0.slots == map[hookSlot := e0.hookAddr, backSlot := e0.base + f + i]
    requires PrefixDetermined(e0.isa) && Abi(e0.hook) && i >= 8
    ensures forall d: Data, k: nat :: OneHookCall(e0, e1, f, i, d, k, 2, AfterEnter(e0, f, i, d))
    ensures e1.text[f + i..] == e0.text[f + i..]
  {
    hide CopyInstalled, JumpInstalled, StraightRun, StraightSteps, Run, HookCall;
    hide Keeps, Abi, PrefixDetermined, EnterTail, SlotIs;
    SlotsHold(e0, hookSlot, backSlot, e0.base + f + i);
    CopyBytes(e0, e1, f, i, template, EnterTail(hookSlot, backSlot));
    SameCode(e0, e1, f, template, f + i);
    forall d: Data, k: nat ensures OneHookCall(e0, e1, f, i, d, k, 2, AfterEnter(e0, f, i, d)) {
      if StraightRun(e0.isa, e0.text[f..f + i], d).Some? {
        EnterRefines(e0, e1, f, i, template, hookSlot, backSlot, d, k);
      }
    }
  }
  lemma ExitFromCopy(e0: Env, e1: Env, f: nat, n: nat, template: seq<byte>, hookSlot: int, backSlot: int)
    requires Slots(hookSlot, backSlot) && CopyInstalled(e0, e1, f, n, template, ExitTail(hookSlot, backSlot))
    requires e0.slots == map[hookSlot := e0.hookAddr, backSlot := e0.base + f + n]
    requires PrefixDetermined(e0.isa) && Abi(e0.hook) && n >= 8
    ensures forall d: Data, k: nat :: OneHookCall(e0, e1, f, n, d, k, 6, AfterExit(e0, f, n, d))
    ensures e1.text[f + n..] == e0.text[f + n..]
  {
    hide CopyInstalled, JumpInstalled, StraightRun, StraightSteps, Run, ExitCall;
    hide Keeps, Abi, PrefixDetermined, ExitTail, SlotIs;
    SlotsHold(e0, hookSlot, backSlot, e0.base + f + n);
    CopyBytes(e0, e1, f, n, template, ExitTail(hookSlot, backSlot));
    SameCode(e0, e1, f, template, f + n);
    forall d: Data, k: nat ensures OneHookCall(e0, e1, f, n, d, k, 6, AfterExit(e0, f, n, d)) {
      if StraightRun(e0.isa, e0.text[f..f + n], d).Some? {
        ExitRefines(e0, e1, f, n, template, hookSlot, backSlot, d, k);
      }
    }
  }

  // The trampoline lies in the top 2 GiB, away from the image, with these bytes behind its nops.
  predicate TrampReady(inc: Inception, at: int, tramp: seq<byte>, tail: seq<byte>) {
    && InTop(at, |tramp|) && (at + |tramp| <= inc.base || inc.base + inc.image.text.Length <= at)
    && NUM_OF_NOP + |tail| <= |tramp| && tramp[NUM_OF_NOP..NUM_OF_NOP + |tail|] == tail
  }

  lemma EnterCopied(inc: Inception, e0: Env, e1: Env, f: nat, n: nat, tail: seq<byte>)
    requires inc.Valid() && inc.jmpEnter[0] == 0xe9 && f + 8 <= |e0.text| && f + n <= |e0.text|
    requires n + |tail| <= NUM_OF_NOP && |e0.text| == inc.image.text.Length
    requires e0.base == inc.base && e0.trampBase == inc.agents.enterTramp
    requires TrampReady(inc, inc.agents.enterTramp, e0.tramp, tail)
    requires e1.text == SwapText(e0.text, inc.EnterJump(f)) && e1.tramp == CopiedTramp(e0.tramp, e0.text, f, n, |tail|)
    requires e1 == e0.(text := e1.text, tramp := e1.tramp)
    ensures CopyInstalled(e0, e1, f, n, inc.jmpEnter, tail)
  {
    hide SwapText, Disp, Le32, JumpBytes;
  }

  // Executing the call at c arrives at f, with the return address pushed.
  ghost predicate Arrives(e: Env, c: nat, f: nat, d: Data, k: nat) {
    Machine.Step(e, Cpu(e.base + c, d, k)) == Some(Cpu(e.base + f, Push(d, e.base + c + 5), k))
  }
  lemma CallArrives(e: Env, c: nat, f: nat)
    requires c + 5 <= |e.text| && e.text[c] == 0xe8
    requires CpuTarget(e.base + c + 1, U32(e.text[c + 1..c + 5])) == e.base + f
    ensures forall d: Data, k: nat :: Arrives(e, c, f, d, k)
  {
    hide CpuTarget, U32;
    var w := Window(e, e.base + c);
    assert w == e.text[c..] && w[1..5] == e.text[c + 1..c + 5];
  }
  // The function found is the one that schedule() calls first.
  ghost predicate CalledFirst(e: Env, schedule: nat, c: nat, f: nat) {
    && FirstCall(e.text, schedule, 64, c)
    && forall d: Data, k: nat :: Arrives(e, c, f, d, k)
  }
  lemma BodyIsCalled(e: Env, schedule: nat, f: nat) returns (c: nat)
    requires P64 - P31 <= e.base && e.base + |e.text| <= P64 && ScheduleBody(e.text, e.base, schedule) == Found(f)
    ensures CalledFirst(e, schedule, c, f)
  {
    var s := Search(e.text, schedule, 64, CALL);
    c := s.p;
    SearchIsFirst(e.text, schedule, 64, c);
    ScheduleBodyIff(e.text, e.base, schedule, c, f);
    CallArrives(e, c, f);
  }

  // setup_enter_schedule_hook: if __schedule() has its "sub" at an offset from 8 to 50, the kernel
  // afterwards is the kernel before, with one call of the hook at the entry of __schedule().
  method HookEnterSchedule(inc: Inception, ghost w: World, ghost hookSlot: int, ghost backSlot: int)
    returns (r: Outcome, ghost c: nat, ghost f: nat, ghost i: nat, ghost e0: Env, ghost e1: Env)
    requires inc.Valid() && inc.jmpEnter[0] == 0xe9 && Slots(hookSlot, backSlot) && Sound(w)
    requires TrampReady(inc, inc.agents.enterTramp, inc.enterTramp[..], EnterTail(hookSlot, backSlot))
    modifies inc`enter, inc`schedule, inc`scheduleStart, inc.image, inc.image.text, inc.enterTramp
    ensures r == Done ==> inc.scheduleStart == inc.base + f + i
    ensures var slots := map[hookSlot := w.hookAddr, backSlot := inc.scheduleStart];
      && e0 == Kernel(w, old(inc.image.text[..]), inc.base, old(inc.enterTramp[..]), inc.agents.enterTramp, slots)
      && e1 == Kernel(w, inc.image.text[..], inc.base, inc.enterTramp[..], inc.agents.enterTramp, slots)
    ensures r == Done ==> CalledFirst(e0, inc.symbols.schedule, c, f) && f + 66 <= |e0.text|
    ensures r == Done ==> i <= 64 && (i < 64 ==> SubAt(e0.text, f + i))
    ensures r == Done ==> forall x :: f <= x < f + i ==> !SubAt(e0.text, x)
    ensures r == Done && 8 <= i <= 50 ==> f + i <= |e0.text| && e1.text[f + i..] == e0.text[f + i..]
    ensures r == Done && 8 <= i <= 50 ==>
      forall d: Data, k: nat :: OneHookCall(e0, e1, f, i, d, k, 2, AfterEnter(e0, f, i, d))
  {
    hide CalledFirst, SubAt, ScheduleBody, SignatureOffset, CopiedTramp, EnterTail, SwapText, SwapHold, JumpBytes;
    hide OneHookCall, AfterEnter, CopyInstalled, JumpInstalled, TrampReady, PrefixDetermined, Abi;
    ghost var t, tr := inc.image.text[..], inc.enterTramp[..];
    r := inc.SetupEnterSchedule();
    c, f, i := 0, inc.schedule, 0;
    ghost var slots := map[hookSlot := w.hookAddr, backSlot := inc.scheduleStart];
    e0 := Kernel(w, t, inc.base, tr, inc.agents.enterTramp, slots);
    e1 := Kernel(w, inc.image.text[..], inc.base, inc.enterTramp[..], inc.agents.enterTramp, slots);
    if r == Done {
      c := BodyIsCalled(e0, inc.symbols.schedule, f);
      i := SignatureOffset(t, f);
      SignatureIff(t, f, i);
      if 8 <= i <= 50 {
        EnterCopied(inc, e0, e1, f, i, EnterTail(hookSlot, backSlot));
        EnterFromCopy(e0, e1, f, i, inc.jmpEnter, hookSlot, backSlot);
      }
    }
  }

  lemma ExitCopied(inc: Inception, e0: Env, e1: Env, f: nat, n: nat, q: Site, tail: seq<byte>)
    requires inc.Valid() && inc.ExitJump(f, q) && f + 8 <= |e0.text| && f + n <= |e0.text| && n + |tail| <= NUM_OF_NOP
    requires e0.base == inc.base && e0.trampBase == inc.agents.exitTramp && |e0.text| == inc.image.text.Length
    requires TrampReady(inc, inc.agents.exitTramp, e0.tramp, tail)
    requires e1 == e0.(text := SwapText(e0.text, q), tramp := CopiedTramp(e0.tramp, e0.text, f, n, |tail|))
    ensures CopyInstalled(e0, e1, f, n, q.hold, tail)
  {
    hide SwapText, Disp, Le32;
    assert q.hold == q.hold[..5] + q.hold[5..];
    assert q == Site(Some(f), JumpBytes(0xe9, q.hold, e0.trampBase, e0.base + f));
  }

  // setup_enter_exit_hook: the same for do_exit(), whose copied prologue includes the "sub"; and its
  // argument in %rdi survives the hook.
  method HookEnterExit(inc: Inception, ghost w: World, ghost hookSlot: int, ghost backSlot: int)
    returns (r: Outcome, ghost f: nat, ghost n: nat, ghost e0: Env, ghost e1: Env)
    requires inc.Valid() && Slots(hookSlot, backSlot) && Sound(w)
    requires TrampReady(inc, inc.agents.exitTramp, inc.exitTramp[..], ExitTail(hookSlot, backSlot))
    modifies inc`exit, inc`exitReenter, inc.image, inc.image.text, inc.exitTramp
    ensures r == Done ==> inc.exitReenter == inc.base + f + n
    ensures var slots := map[hookSlot := w.hookAddr, backSlot := inc.exitReenter];
      && e0 == Kernel(w, old(inc.image.text[..]), inc.base, old(inc.exitTramp[..]), inc.agents.exitTramp, slots)
      && e1 == Kernel(w, inc.image.text[..], inc.base, inc.exitTramp[..], inc.agents.exitTramp, slots)
    ensures r == Done ==>
      inc.symbols.doExit == Some(f) && f + 66 <= |e0.text| && 4 <= n <= 68
    ensures r == Done && n < 68 ==> SubAt(e0.text, f + n - 4)
    ensures r == Done ==> forall x :: f <= x < f + n - 4 ==> !SubAt(e0.text, x)
    ensures r == Done && 8 <= n <= 46 ==> f + n <= |e0.text| && e1.text[f + n..] == e0.text[f + n..]
    ensures r == Done && 8 <= n <= 46 ==>
      forall d: Data, k: nat :: OneHookCall(e0, e1, f, n, d, k, 6, AfterExit(e0, f, n, d))
  {
    hide SubAt, SignatureOffset, CopiedTramp, ExitTail, SwapText, SwapHold;
    hide OneHookCall, AfterExit, CopyInstalled, JumpInstalled;
    hide TrampReady, PrefixDetermined, Abi;
    ghost var t, tr, q := inc.image.text[..], inc.exitTramp[..], Site(None, []);
    r, q := inc.SetupEnterExit();
    f, n := 0, 0;
    ghost var slots := map[hookSlot := w.hookAddr, backSlot := inc.exitReenter];
    e0 := Kernel(w, t, inc.base, tr, inc.agents.exitTramp, slots);
    e1 := Kernel(w, inc.image.text[..], inc.base, inc.exitTramp[..], inc.agents.exitTramp, slots);
    if r == Done {
      f := inc.symbols.doExit.value;
      n := SignatureOffset(t, f) + 4;
      SignatureIff(t, f, n - 4);
      if 8 <= n <= 46 {
        ExitCopied(inc, e0, e1, f, n, q, ExitTail(hookSlot, backSlot));
        ExitFromCopy(e0, e1, f, n, q.hold, hookSlot, backSlot);
      }
    }
  }

  // Both kernels return from d: the hooked one after one call of the hook, and to the same place with
  // the same callee-saved registers and stack exactly when %rbp points just above the saved registers.
  ghost predicate SameExitIff(e0: Env, e1: Env, f: nat, d: Data, k: nat) {
    var a, b := Run(e0, Cpu(e0.base + f, d, k), 7), Run(e1, Cpu(e0.base + f, d, k), 9);
    && a.Some? && b.Some? && a.value.calls == k && b.value.calls == k + 1
    && (SameReturn(a.value, b.value) <==> Get(d, RBP) == Get(d, RSP) + 40)
  }

  lemma EpilogueIsCode(e: Env, f: nat)
    requires Occurs(e.text, f, EPILOGUE)
    ensures CodeAt(e, e.base + f, EPILOGUE)
  {
    assert e.text[f..][..|EPILOGUE|] == e.text[f..f + |EPILOGUE|];
  }
  lemma LeavePatched(inc: Inception, e0: Env, e1: Env, f: nat, q: Site)
    requires inc.Valid() && inc.jmpLeave[0] == 0xe9 && q == inc.LeaveJump(f) && f + 8 <= |e0.text|
    requires e0.base == inc.base && e0.trampBase == inc.agents.leaveTramp && |e0.text| == inc.image.text.Length
    requires InTop(e0.trampBase, |e0.tramp|) && |e0.tramp| > 0 && Apart(e0)
    requires e1 == e0.(text := SwapText(e0.text, q))
    ensures JumpInstalled(e0, e1, f, inc.jmpLeave)
  {
    hide SwapText, JumpBytes;
  }
  lemma LeaveCopied(e0: Env, e1: Env, f: nat, template: seq<byte>, slot: int)
    requires 0 <= slot < P32 && JumpInstalled(e0, e1, f, template) && Occurs(e0.text, f, EPILOGUE)
    requires e1.tramp == LeaveTramp(slot) && e0.slots == map[slot := e0.hookAddr] && PrefixDetermined(e0.isa)
    requires Abi(e0.hook)
    ensures forall d: Data, k: nat :: SameExitIff(e0, e1, f, d, k)
  {
    hide JumpInstalled, CodeAt, LeaveTramp, Run, Abi, PrefixDetermined, SameReturn, Get, EPILOGUE, Occurs;
    EpilogueIsCode(e0, f);
    forall d: Data, k: nat ensures SameExitIff(e0, e1, f, d, k) {
      LeaveRefinesIff(e0, e1, f, template, slot, d, k);
    }
  }

  lemma EpilogueThere(t: seq<byte>, from: nat)
    requires EpilogueSite(t, from).Found?
    ensures Occurs(t, EpilogueSite(t, from).p, EPILOGUE)
  {
    FindIsLeast(t, from, SCHEDULE_FUNC_SZ, EPILOGUE);
  }
  // setup_leave_schedule_hook, at the epilogue found in __schedule().
  method HookLeaveSchedule(inc: Inception, ghost w: World, ghost slot: int)
    returns (r: Outcome, ghost f: nat, ghost e0: Env, ghost e1: Env)
    requires inc.Valid() && inc.jmpLeave[0] == 0xe9 && 0 <= slot < P32 && Sound(w)
    requires InTop(inc.agents.leaveTramp, 18)
    requires (inc.agents.leaveTramp + 18 <= inc.base || inc.base + inc.image.text.Length <= inc.agents.leaveTramp)
    modifies inc`leave, inc.image, inc.image.text
    ensures e0 ==
      Kernel(w, old(inc.image.text[..]), inc.base, LeaveTramp(slot), inc.agents.leaveTramp, map[slot := w.hookAddr])
    ensures e1 == e0.(text := inc.image.text[..])
    ensures r == Done ==> EpilogueSite(e0.text, inc.schedule) == Found(f) && EpilogueAt(e0.text, f)
    ensures r == Done ==> forall d: Data, k: nat :: SameExitIff(e0, e1, f, d, k)
  {
    hide EpilogueAt;
    hide SwapText, SwapHold, JumpBytes, SameExitIff, EPILOGUE, EpilogueSite, JumpInstalled, Occurs, LeaveTramp;
    ghost var t := inc.image.text[..];
    r := inc.SetupLeaveSchedule();
    f := 0;
    e0 := Kernel(w, t, inc.base, LeaveTramp(slot), inc.agents.leaveTramp, map[slot := w.hookAddr]);
    e1 := e0.(text := inc.image.text[..]);
    if r == Done {
      f := EpilogueSite(t, inc.schedule).p;
      EpilogueThere(t, inc.schedule);
      EpilogueSiteIff(t, inc.schedule, f);
      LeavePatched(inc, e0, e1, f, inc.LeaveJump(f));
      LeaveCopied(e0, e1, f, inc.jmpLeave, slot);
    }
  }
}
