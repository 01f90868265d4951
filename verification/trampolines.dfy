/**
 * The three trampolines of lkm/arch/x86_64/sched.c and exit.c on the machine: patched code does what
 * the original does, plus exactly one call of the hook.
 */
module Trampolines {
  import opened Options
  import opened Addresses
  import opened Memory
  import opened SwitchPoints
  import opened Patching
  import opened Machine

  // call *slot and jmpq *slot
  function IndirectCall(slot: int): (b: seq<byte>)
    requires 0 <= slot < P32
    ensures |b| == 7
  {
    [0xff, 0x14, 0x25] + Le32(slot)
  }
  function IndirectJump(slot: int): (b: seq<byte>)
    requires 0 <= slot < P32
    ensures |b| == 7
  {
    [0xff, 0x24, 0x25] + Le32(slot)
  }
  // What stands behind the nops of enter_schedule and of enter_exit, and the whole of leave_schedule.
  function EnterTail(hook: int, back: int): (b: seq<byte>)
    requires 0 <= hook < P32 && 0 <= back < P32
    ensures |b| == ENTER_TAIL
  {
    IndirectCall(hook) + IndirectJump(back)
  }
  function ExitTail(hook: int, back: int): (b: seq<byte>)
    requires 0 <= hook < P32 && 0 <= back < P32
    ensures |b| == EXIT_TAIL
  {
    [0x53, 0x57] + IndirectCall(hook) + [0x5f, 0x5b] + IndirectJump(back)
  }
  const POPS: seq<byte> := [0x5b, 0x41, 0x5c, 0x41, 0x5d, 0x41, 0x5e, 0x41, 0x5f]
  function LeaveTramp(hook: int): (b: seq<byte>)
    requires 0 <= hook < P32
    ensures |b| == 18
  {
    IndirectCall(hook) + (POPS + [0xc9]) + [0xc3]
  }

  predicate InTop(base: int, n: int) { P64 - P31 <= base && base + n <= P64 }

  // The first eight bytes at f give way to a jump, as the setup functions leave them.
  ghost predicate JumpInstalled(e0: Env, e1: Env, f: nat, template: seq<byte>) {
    && InTop(e0.base, |e0.text|) && InTop(e0.trampBase, |e0.tramp|) && |e0.tramp| > 0 && Apart(e0)
    && |template| == 8 && f + 8 <= |e0.text| && |e1.tramp| == |e0.tramp|
    && e1 == e0.(tramp := e1.tramp, text :=
         SwapText(e0.text, Site(Some(f), JumpBytes(0xe9, template, e0.trampBase, e0.base + f))))
  }
  // ... and the trampoline starts with the first n bytes of the code, followed by its tail.
  ghost predicate CopyInstalled(e0: Env, e1: Env, f: nat, n: nat, template: seq<byte>, tail: seq<byte>) {
    && JumpInstalled(e0, e1, f, template)
    && f + n <= |e0.text| && n + |tail| <= NUM_OF_NOP && NUM_OF_NOP + |tail| <= |e0.tramp|
    && e0.tramp[NUM_OF_NOP..NUM_OF_NOP + |tail|] == tail
    && e1.tramp == CopiedTramp(e0.tramp, e0.text, f, n, |tail|)
  }
  predicate SlotIs(e: Env, slot: int, a: int) { slot in e.slots && e.slots[slot] == a }

  lemma JumpStep(e0: Env, e1: Env, f: nat, template: seq<byte>, d: Data, k: nat)
    requires JumpInstalled(e0, e1, f, template)
    ensures Machine.Step(e1, Cpu(e0.base + f, d, k)) == Some(Cpu(e0.trampBase, d, k))
  {
    hide SwapText, Disp, CpuTarget, Le32, U32;
    var at := e0.base + f;
    var jump := JumpBytes(0xe9, template, e0.trampBase, at);
    var w := Window(e1, at);
    JumpWindow(e0, e1, f, template);
    assert w[..8][..5] == w[..5] && w[..5][1..] == w[1..5];
    assert jump[..5] == [0xe9] + Le32(Disp(e0.trampBase, at + 1));
    assert w[1..5] == Le32(Disp(e0.trampBase, at + 1));
    FieldRoundTrip(Disp(e0.trampBase, at + 1));
    TopIsNear(e0.trampBase, at + 5);
    JumpLands(e0.trampBase, at + 1);
  }
  lemma JumpWindow(e0: Env, e1: Env, f: nat, template: seq<byte>)
    requires JumpInstalled(e0, e1, f, template)
    ensures var w := Window(e1, e0.base + f);
      |w| >= 8 && w[..8] == JumpBytes(0xe9, template, e0.trampBase, e0.base + f) && w[0] == 0xe9
  {
    hide Disp, Le32;
    var jump := JumpBytes(0xe9, template, e0.trampBase, e0.base + f);
    assert Peek(e1.text, f, 8) == jump;
    assert e1.text[f..][..8] == e1.text[f..f + 8];
    assert jump[0] == 0xe9;
  }
  // Behind the eight bytes both texts are the same code.
  lemma SameCode(e0: Env, e1: Env, f: nat, template: seq<byte>, x: nat)
    requires JumpInstalled(e0, e1, f, template) && f + 8 <= x <= |e0.text|
    ensures e1.text[x..] == e0.text[x..]
  {
    assert forall y :: x <= y < |e0.text| ==> e1.text[y] == e0.text[y];
  }

  lemma CallStep(e: Env, c: Cpu, slot: int)
    requires 0 <= slot < P32 && CodeAt(e, c.rip, IndirectCall(slot)) && SlotIs(e, slot, e.hookAddr) && Abi(e.hook)
    ensures Machine.Step(e, c) == Some(Cpu(c.rip + 7, HookCall(e.hook, c.data, c.rip + 7), c.calls + 1))
    ensures Keeps(c.data, HookCall(e.hook, c.data, c.rip + 7))
  {
    hide Le32, U32, Window, Abi, Keeps, HookCall;
    var w := Window(e, c.rip);
    assert w[..7] == IndirectCall(slot);
    assert w[0] == w[..7][0] && w[1] == w[..7][1] && w[2] == w[..7][2] && w[3..7] == w[..7][3..7];
    assert IndirectCall(slot)[3..7] == Le32(slot);
    FieldRoundTrip(slot);
    HookReturns(e.hook, c.data, c.rip + 7);
  }
  lemma BackStep(e: Env, c: Cpu, slot: int, a: int)
    requires 0 <= slot < P32 && CodeAt(e, c.rip, IndirectJump(slot)) && SlotIs(e, slot, a)
    ensures Machine.Step(e, c) == Some(c.(rip := a))
  {
    hide Le32, U32, Window;
    var w := Window(e, c.rip);
    assert w[..7] == IndirectJump(slot);
    assert w[0] == w[..7][0] && w[1] == w[..7][1] && w[2] == w[..7][2] && w[3..7] == w[..7][3..7];
    assert IndirectJump(slot)[3..7] == Le32(slot);
    FieldRoundTrip(slot);
  }

  // The prologue in place, and its copy reached through the jump.
  lemma PrologueInPlace(e0: Env, f: nat, n: nat, d: Data, k: nat)
    requires f + n <= |e0.text| && PrefixDetermined(e0.isa) && Apart(e0)
    requires StraightRun(e0.isa, e0.text[f..f + n], d).Some?
    ensures var code := e0.text[f..f + n];
      Run(e0, Cpu(e0.base + f, d, k), StraightSteps(e0.isa, code)) ==
        Some(Cpu(e0.base + f + n, StraightRun(e0.isa, code, d).value, k))
  {
    hide StraightRun, StraightSteps, Run;
    var code, c0 := e0.text[f..f + n], Cpu(e0.base + f, d, k);
    assert n > 0 ==> CodeAt(e0, c0.rip, code) by { assert e0.text[f..][..n] == code; }
    StraightRuns(e0, c0, code);
  }
  lemma CopyBytes(e0: Env, e1: Env, f: nat, n: nat, template: seq<byte>, tail: seq<byte>)
    requires CopyInstalled(e0, e1, f, n, template, tail) && tail != []
    ensures JumpInstalled(e0, e1, f, template) && f + n <= |e0.text| && Apart(e0) && Apart(e1) && e1.isa == e0.isa
    ensures n > 0 ==> CodeAt(e1, e0.trampBase, e0.text[f..f + n])
    ensures CodeAt(e1, e0.trampBase + n, tail)
  {
    hide SwapText, JumpBytes;
    var code := e0.text[f..f + n];
    assert e1.tramp == code + tail + e0.tramp[n + |tail|..];
    assert e1.tramp[0..][..n] == code;
    assert e1.tramp[n..][..|tail|] == tail;
  }
  lemma PrologueCopied(e0: Env, e1: Env, f: nat, n: nat, template: seq<byte>, tail: seq<byte>, d: Data, k: nat)
    requires CopyInstalled(e0, e1, f, n, template, tail) && tail != [] && PrefixDetermined(e0.isa)
    requires StraightRun(e0.isa, e0.text[f..f + n], d).Some?
    ensures var code := e0.text[f..f + n];
      Run(e1, Cpu(e0.base + f, d, k), 1 + StraightSteps(e0.isa, code)) ==
        Some(Cpu(e0.trampBase + n, StraightRun(e0.isa, code, d).value, k))
  {
    hide CopyInstalled, JumpInstalled, Apart, PrefixDetermined, StraightRun, StraightSteps, Machine.Step, CodeAt;
    CopyBytes(e0, e1, f, n, template, tail);
    JumpStep(e0, e1, f, template, d, k);
    StraightRuns(e1, Cpu(e0.trampBase, d, k), e0.text[f..f + n]);
  }

  // ---------- enter_schedule ----------

  // Two more steps after the copy: one call of the hook, and back to the original code.
  lemma EnterTailRuns(e: Env, c: Cpu, hookSlot: int, backSlot: int, back: int)
    requires 0 <= hookSlot < P32 && 0 <= backSlot < P32 && Apart(e) && CodeAt(e, c.rip, EnterTail(hookSlot, backSlot))
    requires SlotIs(e, hookSlot, e.hookAddr) && SlotIs(e, backSlot, back) && Abi(e.hook)
    ensures Run(e, c, 2) == Some(Cpu(back, HookCall(e.hook, c.data, c.rip + 7), c.calls + 1))
    ensures Keeps(c.data, HookCall(e.hook, c.data, c.rip + 7))
  {
    hide Machine.Step, Window, HookCall, Keeps, Abi, IndirectCall, IndirectJump;
    var tail := EnterTail(hookSlot, backSlot);
    assert tail[..7] == IndirectCall(hookSlot) && tail[7..] == IndirectJump(backSlot);
    assert Window(e, c.rip)[..7] == Window(e, c.rip)[..14][..7];
    CallStep(e, c, hookSlot);
    CodeMoves(e, c.rip, tail, 7);
    var c1 := Cpu(c.rip + 7, HookCall(e.hook, c.data, c.rip + 7), c.calls + 1);
    BackStep(e, c1, backSlot, back);
    assert Run(e, c1, 1) == Run(e, c1.(rip := back), 0);
  }

  // Patched code reaches the point behind the copied prologue in the same state as the original, but
  // for exactly one call of the hook, which keeps what the calling convention keeps.
  lemma EnterRefines(e0: Env, e1: Env, f: nat, i: nat, template: seq<byte>, hookSlot: int,
      backSlot: int, d: Data, k: nat)
    requires 0 <= hookSlot < P32 && 0 <= backSlot < P32
    requires CopyInstalled(e0, e1, f, i, template, EnterTail(hookSlot, backSlot))
    requires SlotIs(e0, hookSlot, e0.hookAddr) && SlotIs(e0, backSlot, e0.base + f + i)
    requires PrefixDetermined(e0.isa) && Abi(e0.hook) && StraightRun(e0.isa, e0.text[f..f + i], d).Some?
    ensures var code := e0.text[f..f + i];
      var m, p := StraightSteps(e0.isa, code), StraightRun(e0.isa, code, d).value;
      var h := HookCall(e0.hook, p, e0.trampBase + i + 7);
      && Run(e0, Cpu(e0.base + f, d, k), m) == Some(Cpu(e0.base + f + i, p, k))
      && Run(e1, Cpu(e0.base + f, d, k), 1 + m + 2) == Some(Cpu(e0.base + f + i, h, k + 1))
      && Keeps(p, h)
    ensures i >= 8 ==> e1.text[f + i..] == e0.text[f + i..]
  {
    hide CopyInstalled, JumpInstalled, Apart, PrefixDetermined, StraightRun, StraightSteps, Run;
    hide CodeAt, HookCall, Keeps, Abi, SlotIs, EnterTail;
    CopyBytes(e0, e1, f, i, template, EnterTail(hookSlot, backSlot));
    var code := e0.text[f..f + i];
    var m := StraightSteps(e0.isa, code);
    PrologueInPlace(e0, f, i, d, k);
    PrologueCopied(e0, e1, f, i, template, EnterTail(hookSlot, backSlot), d, k);
    SlotsSame(e0, e1, f, i, template, EnterTail(hookSlot, backSlot), hookSlot, e0.hookAddr);
    SlotsSame(e0, e1, f, i, template, EnterTail(hookSlot, backSlot), backSlot, e0.base + f + i);
    var c := Cpu(e0.trampBase + i, StraightRun(e0.isa, code, d).value, k);
    EnterTailRuns(e1, c, hookSlot, backSlot, e0.base + f + i);
    RunSplit(e1, Cpu(e0.base + f, d, k), 1 + m, 2);
    if i >= 8 { SameCode(e0, e1, f, template, f + i); }
  }
  lemma SlotsSame(e0: Env, e1: Env, f: nat, n: nat, template: seq<byte>, tail: seq<byte>, slot: int, a: int)
    requires CopyInstalled(e0, e1, f, n, template, tail)
    ensures SlotIs(e0, slot, a) ==> SlotIs(e1, slot, a)
    ensures e1.hook == e0.hook && e1.hookAddr == e0.hookAddr
  {
  }

  // The code behind the re-entry point is the original one iff the swapped bytes behind it are.
  lemma ReentryIff(e0: Env, e1: Env, f: nat, template: seq<byte>, i: nat)
    requires JumpInstalled(e0, e1, f, template) && i <= 8
    ensures e1.text[f + i..] == e0.text[f + i..] <==>
      JumpBytes(0xe9, template, e0.trampBase, e0.base + f)[i..] == e0.text[f + i..f + 8]
  {
    hide JumpBytes;
    var jump := JumpBytes(0xe9, template, e0.trampBase, e0.base + f);
    SameCode(e0, e1, f, template, f + 8);
    assert Peek(e1.text, f, 8) == jump;
    assert e1.text[f + i..f + 8] == e1.text[f..f + 8][i..];
    assert e1.text[f + i..] == e1.text[f + i..f + 8] + e1.text[f + 8..];
    assert e0.text[f + i..] == e0.text[f + i..f + 8] + e0.text[f + 8..];
    assert e1.text[f + i..][..8 - i] == e1.text[f + i..f + 8] && e0.text[f + i..][..8 - i] == e0.text[f + i..f + 8];
  }

  // enter_schedule does not save %rdi: a hook within the calling convention may lose __schedule()'s argument.
  function ScratchHook(): Data -> Data { d => Set(d, RDI, Get(d, RDI) + 1) }
  lemma EnterLosesArgument(p: Data, ret: int)
    ensures Abi(ScratchHook()) && Get(HookCall(ScratchHook(), p, ret), RDI) != Get(p, RDI)
  {
    forall d ensures Keeps(d, ScratchHook()(d)) { }
  }

  // ---------- enter_exit ----------

  // What the tail of enter_exit makes of the registers: %rbx and %rdi saved around the hook.
  function ExitCall(hook: Data -> Data, p: Data, ret: int): Data {
    PopTo(PopTo(HookCall(hook, Push(Push(p, Get(p, RBX)), Get(p, RDI)), ret), RDI), RBX)
  }
  lemma ExitKeeps(hook: Data -> Data, p: Data, ret: int)
    requires Abi(hook)
    ensures Keeps(p, ExitCall(hook, p, ret)) && Get(ExitCall(hook, p, ret), RDI) == Get(p, RDI)
  {
    var a := Push(p, Get(p, RBX));
    var b := Push(a, Get(p, RDI));
    var h := HookCall(hook, b, ret);
    HookReturns(hook, b, ret);
    var q := ExitCall(hook, p, ret);
    assert Get(h, RSP) == Get(b, RSP) && Load(h, Get(b, RSP)) == Get(p, RDI) && Load(h, Get(b, RSP) + 8) == Get(p, RBX);
    forall r | CalleeSaved(r) ensures Get(q, r) == Get(p, r) { assert Get(h, r) == Get(b, r); }
    forall x | x >= Get(p, RSP) ensures Load(q, x) == Load(p, x) { assert Load(h, x) == Load(b, x); }
  }

  // One decoded instruction off the front of straight-line code.
  lemma StraightOne(isa: Isa, code: seq<byte>, d: Data, i: Instr, n: nat)
    requires DecodeInstr(isa, code) == (i, n) && Straight(i) && 0 < n <= |code|
    ensures StraightRun(isa, code, d) == StraightRun(isa, code[n..], Effect(isa, i, code[..n], d))
    ensures StraightSteps(isa, code) == 1 + StraightSteps(isa, code[n..])
  {
  }
  lemma PushesRun(isa: Isa, d: Data)
    ensures StraightRun(isa, [0x53, 0x57], d) == Some(Push(Push(d, Get(d, RBX)), Get(d, RDI)))
    ensures StraightSteps(isa, [0x53, 0x57]) == 2
  {
    var d1 := Push(d, Get(d, RBX));
    StraightOne(isa, [0x53, 0x57], d, PushReg(RBX), 1);
    assert [0x53, 0x57][1..] == [0x57] && [0x57][1..] == [];
    StraightOne(isa, [0x57], d1, PushReg(RDI), 1);
  }
  lemma PopsRun(isa: Isa, d: Data)
    ensures StraightRun(isa, [0x5f, 0x5b], d) == Some(PopTo(PopTo(d, RDI), RBX))
    ensures StraightSteps(isa, [0x5f, 0x5b]) == 2
  {
    StraightOne(isa, [0x5f, 0x5b], d, PopReg(RDI), 1);
    assert [0x5f, 0x5b][1..] == [0x5b] && [0x5b][1..] == [];
    StraightOne(isa, [0x5b], PopTo(d, RDI), PopReg(RBX), 1);
  }

  // Six more steps after the copy, which includes the "sub": two pushes, the call, two pops, and back.
  lemma ExitTailRuns(e: Env, c: Cpu, hookSlot: int, backSlot: int, back: int)
    requires 0 <= hookSlot < P32 && 0 <= backSlot < P32 && Apart(e) && PrefixDetermined(e.isa)
    requires CodeAt(e, c.rip, ExitTail(hookSlot, backSlot))
    requires SlotIs(e, hookSlot, e.hookAddr) && SlotIs(e, backSlot, back) && Abi(e.hook)
    ensures Run(e, c, 6) == Some(Cpu(back, ExitCall(e.hook, c.data, c.rip + 9), c.calls + 1))
  {
    hide Machine.Step, Window, HookCall, Keeps, Abi, IndirectCall, IndirectJump;
    hide StraightRun, StraightSteps, CodeAt, PopTo, Push, Get;
    hide Apart, PrefixDetermined, Run;
    ExitParts(e, c.rip, hookSlot, backSlot);
    PushesRun(e.isa, c.data);
    StraightRuns(e, c, [0x53, 0x57]);
    var c1 := Cpu(c.rip + 2, Push(Push(c.data, Get(c.data, RBX)), Get(c.data, RDI)), c.calls);
    CallStep(e, c1, hookSlot);
    var c2 := Cpu(c.rip + 9, HookCall(e.hook, c1.data, c.rip + 9), c.calls + 1);
    PopsRun(e.isa, c2.data);
    StraightRuns(e, c2, [0x5f, 0x5b]);
    var c3 := Cpu(c.rip + 11, PopTo(PopTo(c2.data, RDI), RBX), c2.calls);
    BackStep(e, c3, backSlot, back);
    RunOne(e, c1, c2);
    RunOne(e, c3, c3.(rip := back));
    RunSplit(e, c, 2, 4);
    RunSplit(e, c1, 1, 3);
    RunSplit(e, c2, 2, 1);
  }
  lemma RunOne(e: Env, c: Cpu, c': Cpu)
    requires Machine.Step(e, c) == Some(c')
    ensures Run(e, c, 1) == Some(c')
  {
    assert Run(e, c, 1) == Run(e, c', 0);
  }
  // A stretch of a tail from its i-th byte on.
  lemma TailPart(e: Env, a: int, tail: seq<byte>, i: nat, part: seq<byte>)
    requires Apart(e) && CodeAt(e, a, tail) && i < |tail| && i + |part| <= |tail| && tail[i..][..|part|] == part
    ensures CodeAt(e, a + i, part)
  {
    hide Window, CodeAt, Apart;
    CodeMoves(e, a, tail, i);
    CodePart(e, a + i, tail[i..], part);
  }
  lemma ExitBytes(hookSlot: int, backSlot: int)
    requires 0 <= hookSlot < P32 && 0 <= backSlot < P32
    ensures var tail := ExitTail(hookSlot, backSlot);
      && tail[0..][..2] == [0x53, 0x57] && tail[2..][..7] == IndirectCall(hookSlot)
      && tail[9..][..2] == [0x5f, 0x5b] && tail[11..][..7] == IndirectJump(backSlot)
  {
    hide IndirectCall, IndirectJump;
  }
  lemma ExitParts(e: Env, a: int, hookSlot: int, backSlot: int)
    requires 0 <= hookSlot < P32 && 0 <= backSlot < P32 && Apart(e) && CodeAt(e, a, ExitTail(hookSlot, backSlot))
    ensures CodeAt(e, a, [0x53, 0x57]) && CodeAt(e, a + 2, IndirectCall(hookSlot))
    ensures CodeAt(e, a + 9, [0x5f, 0x5b]) && CodeAt(e, a + 11, IndirectJump(backSlot))
  {
    hide IndirectCall, IndirectJump, ExitTail, CodeAt, Window, Apart;
    var tail := ExitTail(hookSlot, backSlot);
    ExitBytes(hookSlot, backSlot);
    TailPart(e, a, tail, 0, [0x53, 0x57]);
    TailPart(e, a, tail, 2, IndirectCall(hookSlot));
    TailPart(e, a, tail, 9, [0x5f, 0x5b]);
    TailPart(e, a, tail, 11, IndirectJump(backSlot));
  }
  lemma CodePart(e: Env, a: int, code: seq<byte>, part: seq<byte>)
    requires CodeAt(e, a, code) && |part| <= |code| && code[..|part|] == part
    ensures CodeAt(e, a, part)
  {
    assert Window(e, a)[..|part|] == Window(e, a)[..|code|][..|part|];
  }

  // do_exit(): the copy includes the "sub" that made the signature; the rest as for __schedule(), and
  // here %rdi, the argument, is kept as well.
  lemma ExitRefines(e0: Env, e1: Env, f: nat, n: nat, template: seq<byte>, hookSlot: int,
      backSlot: int, d: Data, k: nat)
    requires 0 <= hookSlot < P32 && 0 <= backSlot < P32
    requires CopyInstalled(e0, e1, f, n, template, ExitTail(hookSlot, backSlot))
    requires SlotIs(e0, hookSlot, e0.hookAddr) && SlotIs(e0, backSlot, e0.base + f + n)
    requires PrefixDetermined(e0.isa) && Abi(e0.hook) && StraightRun(e0.isa, e0.text[f..f + n], d).Some?
    ensures var code := e0.text[f..f + n];
      var m, p := StraightSteps(e0.isa, code), StraightRun(e0.isa, code, d).value;
      var h := ExitCall(e0.hook, p, e0.trampBase + n + 9);
      && Run(e0, Cpu(e0.base + f, d, k), m) == Some(Cpu(e0.base + f + n, p, k))
      && Run(e1, Cpu(e0.base + f, d, k), 1 + m + 6) == Some(Cpu(e0.base + f + n, h, k + 1))
      && Keeps(p, h) && Get(h, RDI) == Get(p, RDI)
    ensures n >= 8 ==> e1.text[f + n..] == e0.text[f + n..]
  {
    hide CopyInstalled, JumpInstalled, Apart, PrefixDetermined, StraightRun, StraightSteps, Run;
    hide CodeAt, ExitCall, Keeps, Abi, SlotIs, ExitTail, Get;
    var tail := ExitTail(hookSlot, backSlot);
    CopyBytes(e0, e1, f, n, template, tail);
    var code := e0.text[f..f + n];
    var m, p := StraightSteps(e0.isa, code), StraightRun(e0.isa, code, d).value;
    PrologueInPlace(e0, f, n, d, k);
    PrologueCopied(e0, e1, f, n, template, tail, d, k);
    SlotsSame(e0, e1, f, n, template, tail, hookSlot, e0.hookAddr);
    SlotsSame(e0, e1, f, n, template, tail, backSlot, e0.base + f + n);
    ExitTailRuns(e1, Cpu(e0.trampBase + n, p, k), hookSlot, backSlot, e0.base + f + n);
    RunSplit(e1, Cpu(e0.base + f, d, k), 1 + m, 6);
    ExitKeeps(e0.hook, p, e0.trampBase + n + 9);
    if n >= 8 { SameCode(e0, e1, f, template, f + n); }
  }

  // ---------- leave_schedule ----------

  // pop %rbx; pop %r12; pop %r13; pop %r14; pop %r15
  function FivePops(d: Data): Data { PopTo(PopTo(PopTo(PopTo(PopTo(d, RBX), R12), R13), R14), R15) }

  lemma FivePopsRun(isa: Isa, rest: seq<byte>, d: Data)
    ensures StraightRun(isa, POPS + rest, d) == StraightRun(isa, rest, FivePops(d))
    ensures StraightSteps(isa, POPS + rest) == 5 + StraightSteps(isa, rest)
  {
    var c := POPS + rest;
    assert c[1..] == [0x41, 0x5c, 0x41, 0x5d, 0x41, 0x5e, 0x41, 0x5f] + rest;
    StraightOne(isa, c, d, PopReg(RBX), 1);
    ExtendedPops(isa, rest, PopTo(d, RBX));
  }
  lemma ExtendedPops(isa: Isa, rest: seq<byte>, d: Data)
    ensures var c := [0x41, 0x5c, 0x41, 0x5d, 0x41, 0x5e, 0x41, 0x5f] + rest;
      && StraightRun(isa, c, d) == StraightRun(isa, rest, PopTo(PopTo(PopTo(PopTo(d, R12), R13), R14), R15))
      && StraightSteps(isa, c) == 4 + StraightSteps(isa, rest)
  {
    hide PopTo, StraightRun, StraightSteps;
    var c: seq<byte> := [0x41, 0x5c, 0x41, 0x5d, 0x41, 0x5e, 0x41, 0x5f] + rest;
    var d1 := PopTo(d, R12);
    var d2 := PopTo(d1, R13);
    var d3 := PopTo(d2, R14);
    StraightOne(isa, c, d, PopReg(R12), 2);
    assert c[2..] == [0x41, 0x5d, 0x41, 0x5e, 0x41, 0x5f] + rest;
    StraightOne(isa, c[2..], d1, PopReg(R13), 2);
    assert c[2..][2..] == [0x41, 0x5e, 0x41, 0x5f] + rest;
    StraightOne(isa, c[2..][2..], d2, PopReg(R14), 2);
    assert c[2..][2..][2..] == [0x41, 0x5f] + rest;
    StraightOne(isa, c[2..][2..][2..], d3, PopReg(R15), 2);
    assert c[2..][2..][2..][2..] == rest;
  }

  // The original epilogue restores %rbp from behind the five registers ...
  function EpilogueData(d: Data): Data { PopTo(FivePops(d), RBP) }
  // ... leave_schedule from wherever %rbp points.
  function LeaveData(d: Data): Data { PopTo(Set(FivePops(d), RSP, Get(FivePops(d), RBP)), RBP) }

  lemma EpilogueRuns(e: Env, c: Cpu)
    requires Apart(e) && PrefixDetermined(e.isa) && CodeAt(e, c.rip, EPILOGUE)
    ensures Run(e, c, 7) == Some(Cpu(Top(EpilogueData(c.data)), Drop(EpilogueData(c.data)), c.calls))
  {
    hide Window, CodeAt, PopTo, Top, Drop, Apart, PrefixDetermined;
    var code := POPS + [0x5d];
    assert EPILOGUE[..10] == code && EPILOGUE[10..] == [0xc3];
    CodePart(e, c.rip, EPILOGUE, code);
    CodeMoves(e, c.rip, EPILOGUE, 10);
    FivePopsRun(e.isa, [0x5d], c.data);
    StraightOne(e.isa, [0x5d], FivePops(c.data), PopReg(RBP), 1);
    assert [0x5d][1..] == [];
    StraightRuns(e, c, code);
    RetRuns(e, c, Cpu(c.rip + 10, EpilogueData(c.data), c.calls), 6);
  }
  lemma RetRuns(e: Env, c: Cpu, m: Cpu, n: nat)
    requires Run(e, c, n) == Some(m) && CodeAt(e, m.rip, [0xc3])
    ensures Run(e, c, n + 1) == Some(Cpu(Top(m.data), Drop(m.data), m.calls))
  {
    hide Window, Top, Drop;
    var w := Window(e, m.rip);
    assert w[0] == w[..1][0];
    RunOne(e, m, Cpu(Top(m.data), Drop(m.data), m.calls));
    RunSplit(e, c, n, 1);
  }
  lemma LeaveTrampRuns(e: Env, c: Cpu, slot: int)
    requires 0 <= slot < P32 && Apart(e) && PrefixDetermined(e.isa) && Abi(e.hook)
    requires CodeAt(e, c.rip, LeaveTramp(slot)) && SlotIs(e, slot, e.hookAddr)
    ensures var h := HookCall(e.hook, c.data, c.rip + 7);
      Run(e, c, 8) == Some(Cpu(Top(LeaveData(h)), Drop(LeaveData(h)), c.calls + 1)) && Keeps(c.data, h)
  {
    hide Window, CodeAt, PopTo, Top, Drop, Apart, PrefixDetermined, Keeps;
    hide Abi, HookCall, SlotIs, Machine.Step, IndirectCall, Set, Get;
    var tramp, code := LeaveTramp(slot), POPS + [0xc9];
    assert tramp[..7] == IndirectCall(slot) && tramp[7..] == code + [0xc3] && tramp[7..][..10] == code &&
      tramp[17..] == [0xc3];
    CodePart(e, c.rip, tramp, IndirectCall(slot));
    CodeMoves(e, c.rip, tramp, 7);
    CodeMoves(e, c.rip, tramp, 17);
    CodePart(e, c.rip + 7, tramp[7..], code);
    CallStep(e, c, slot);
    var h := HookCall(e.hook, c.data, c.rip + 7);
    var c1 := Cpu(c.rip + 7, h, c.calls + 1);
    FivePopsRun(e.isa, [0xc9], h);
    StraightOne(e.isa, [0xc9], FivePops(h), Leave, 1);
    assert [0xc9][1..] == [];
    StraightRuns(e, c1, code);
    RunOne(e, c, c1);
    RunSplit(e, c, 1, 6);
    RetRuns(e, c, Cpu(c.rip + 17, LeaveData(h), c.calls + 1), 7);
  }

  // What both epilogues leave, spelled out from the stack pointer at their start.
  lemma EpilogueMeans(d: Data)
    ensures var q, sp := EpilogueData(d), Get(d, RSP);
      && Get(q, RSP) == sp + 48 && Top(q) == Load(d, sp + 48) && Get(q, RBP) == Load(d, sp + 40) && q.mem == d.mem
      && Get(q, RBX) == Load(d, sp) && Get(q, R12) == Load(d, sp + 8) && Get(q, R13) == Load(d, sp + 16)
      && Get(q, R14) == Load(d, sp + 24) && Get(q, R15) == Load(d, sp + 32)
  {
  }
  lemma LeaveMeans(d: Data)
    ensures var q, sp, bp := LeaveData(d), Get(d, RSP), Get(d, RBP);
      && Get(q, RSP) == bp + 8 && Top(q) == Load(d, bp + 8) && Get(q, RBP) == Load(d, bp) && q.mem == d.mem
      && Get(q, RBX) == Load(d, sp) && Get(q, R12) == Load(d, sp + 8) && Get(q, R13) == Load(d, sp + 16)
      && Get(q, R14) == Load(d, sp + 24) && Get(q, R15) == Load(d, sp + 32)
  {
  }

  // Same return address, stack pointer, callee-saved registers and caller's stack.
  ghost predicate SameReturn(a: Cpu, b: Cpu) {
    && a.rip == b.rip && (forall r :: CalleeSaved(r) ==> Get(a.data, r) == Get(b.data, r))
    && (forall x :: x >= Get(a.data, RSP) ==> Load(a.data, x) == Load(b.data, x))
  }

  // Returning through leave_schedule calls the hook once, and is the original return exactly when the
  // frame pointer points just above the five saved registers.
  lemma LeaveRefinesIff(e0: Env, e1: Env, f: nat, template: seq<byte>, slot: int, d: Data, k: nat)
    requires 0 <= slot < P32 && JumpInstalled(e0, e1, f, template) && CodeAt(e0, e0.base + f, EPILOGUE)
    requires e1.tramp == LeaveTramp(slot) && SlotIs(e0, slot, e0.hookAddr) && PrefixDetermined(e0.isa) && Abi(e0.hook)
    ensures Run(e0, Cpu(e0.base + f, d, k), 7).Some? && Run(e1, Cpu(e0.base + f, d, k), 9).Some?
    ensures var a, b := Run(e0, Cpu(e0.base + f, d, k), 7).value, Run(e1, Cpu(e0.base + f, d, k), 9).value;
      && a.calls == k && b.calls == k + 1
      && (SameReturn(a, b) <==> Get(d, RBP) == Get(d, RSP) + 40)
  {
    hide Window, CodeAt, Apart, PrefixDetermined, Abi, EpilogueData, LeaveData;
    hide Machine.Step, Run, SwapText, JumpBytes, LeaveTramp, SameReturn, EPILOGUE;
    JumpStep(e0, e1, f, template, d, k);
    LeaveSetting(e0, e1, f, template, slot);
    var h := HookCall(e0.hook, d, e0.trampBase + 7);
    EpilogueRuns(e0, Cpu(e0.base + f, d, k));
    LeaveTrampRuns(e1, Cpu(e0.trampBase, d, k), slot);
    RunOne(e1, Cpu(e0.base + f, d, k), Cpu(e0.trampBase, d, k));
    RunSplit(e1, Cpu(e0.base + f, d, k), 1, 8);
    ReturnsAgree(d, h, k);
  }
  lemma LeaveSetting(e0: Env, e1: Env, f: nat, template: seq<byte>, slot: int)
    requires 0 <= slot < P32 && JumpInstalled(e0, e1, f, template) && e1.tramp == LeaveTramp(slot)
    requires SlotIs(e0, slot, e0.hookAddr)
    ensures Apart(e0) && Apart(e1) && e1.isa == e0.isa && e1.hook == e0.hook && e1.hookAddr == e0.hookAddr
    ensures SlotIs(e1, slot, e1.hookAddr)
    ensures CodeAt(e1, e0.trampBase, LeaveTramp(slot))
  {
    assert Window(e1, e0.trampBase) == e1.tramp;
  }
  lemma ReturnsAgree(d: Data, h: Data, k: nat)
    requires Keeps(d, h)
    ensures SameReturn(Cpu(Top(EpilogueData(d)), Drop(EpilogueData(d)), k),
      Cpu(Top(LeaveData(h)), Drop(LeaveData(h)), k + 1))
      <==> Get(d, RBP) == Get(d, RSP) + 40
  {
    EpilogueMeans(d);
    LeaveMeans(h);
    hide EpilogueData, LeaveData;
    var a, b := Drop(EpilogueData(d)), Drop(LeaveData(h));
    assert Get(h, RSP) == Get(d, RSP) && Get(h, RBP) == Get(d, RBP);
    assert Get(a, RSP) == Get(d, RSP) + 56 && Get(b, RSP) == Get(d, RBP) + 16;
    if Get(d, RBP) == Get(d, RSP) + 40 {
      var sp := Get(d, RSP);
      assert Load(h, sp) == Load(d, sp) && Load(h, sp + 8) == Load(d, sp + 8) && Load(h, sp + 16) == Load(d, sp + 16)
        && Load(h, sp + 24) == Load(d, sp + 24) && Load(h, sp + 32) == Load(d, sp + 32)
        && Load(h, sp + 40) == Load(d, sp + 40) && Load(h, sp + 48) == Load(d, sp + 48);
      forall r | CalleeSaved(r) ensures Get(a, r) == Get(b, r) { }
      forall x | x >= Get(a, RSP) ensures Load(a, x) == Load(b, x) { assert Load(h, x) == Load(d, x); }
    } else {
      assert CalleeSaved(RSP);
    }
  }
}
