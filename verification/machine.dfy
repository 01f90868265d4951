/**
 * A small model of the CPU: bytes are fetched and decoded, an instruction changes registers and
 * memory. Relative jumps and calls, the indirect call and jump of the trampolines, and the pushes, pops, leave
 * and ret they use are decoded here; every other position-independent straight-line instruction is
 * left to a parameter.
 */
module Machine {
  import opened Options
  import opened Addresses

  datatype Reg = RAX | RCX | RDX | RBX | RSP | RBP | RSI | RDI | R8 | R9 | R10 | R11 | R12 | R13 | R14 | R15

  // Registers and memory words; what is not in a map is zero.
  datatype Data = Data(regs: map<Reg, int>, mem: map<int, int>)

  function Get(d: Data, r: Reg): int { if r in d.regs then d.regs[r] else 0 }
  function Set(d: Data, r: Reg, v: int): Data { d.(regs := d.regs[r := v]) }
  function Load(d: Data, a: int): int { if a in d.mem then d.mem[a] else 0 }
  function Push(d: Data, v: int): Data {
    var sp := Get(d, RSP) - 8;
    Set(d, RSP, sp).(mem := d.mem[sp := v])
  }
  function Top(d: Data): int { Load(d, Get(d, RSP)) }
  function Drop(d: Data): Data { Set(d, RSP, Get(d, RSP) + 8) }
  function PopTo(d: Data, r: Reg): Data { Set(Drop(d), r, Top(d)) }

  // The instructions left open: how long they are, and what they do to registers and memory. They
  // cannot see where they are.
  datatype Isa = Isa(length: seq<byte> -> nat, effect: (seq<byte>, Data) -> Data)

  // An instruction's length depends on its own bytes only.
  ghost predicate PrefixDetermined(isa: Isa) {
    forall w, v :: 0 < isa.length(w) <= |w| && isa.length(w) <= |v| && v[..isa.length(w)] == w[..isa.length(w)]
      ==> isa.length(v) == isa.length(w)
  }

  datatype Instr =
    | Jmp(disp: int) | Call(disp: int) | CallInd(slot: int) | JmpInd(slot: int) | Ret
    | PushReg(r: Reg) | PopReg(r: Reg) | Leave | Other | Bad

  // Other relative or indirect jumps and calls, and loops: not to be copied elsewhere.
  predicate Branch(w: seq<byte>)
    requires |w| > 0
  {
    || w[0] == 0xeb || 0x70 <= w[0] <= 0x7f || 0xe0 <= w[0] <= 0xe3
    || (w[0] == 0x0f && |w| > 1 && 0x80 <= w[1] <= 0x8f)
    || (w[0] == 0xff && |w| > 1 && 2 <= w[1] / 8 % 8 <= 5)
  }
  // The instruction at the beginning of w, with its length.
  function DecodeInstr(isa: Isa, w: seq<byte>): (Instr, nat) {
    if |w| == 0 then (Bad, 0)
    else if w[0] == 0xe9 then (if |w| >= 5 then (Jmp(U32(w[1..5])), 5) else (Bad, 0))
    else if w[0] == 0xe8 then (if |w| >= 5 then (Call(U32(w[1..5])), 5) else (Bad, 0))
    else if w[0] == 0xff then
      (if |w| < 3 then (Bad, 0)
       else if w[1] == 0x14 && w[2] == 0x25 then (if |w| >= 7 then (CallInd(U32(w[3..7])), 7) else (Bad, 0))
       else if w[1] == 0x24 && w[2] == 0x25 then (if |w| >= 7 then (JmpInd(U32(w[3..7])), 7) else (Bad, 0))
       else if Branch(w) then (Bad, 0)
       else (Other, isa.length(w)))
    else if w[0] == 0x0f && |w| < 2 then (Bad, 0)
    else if Branch(w) then (Bad, 0)
    else if w[0] == 0x41 then
      (if |w| < 2 then (Bad, 0)
       else if w[1] == 0x5c then (PopReg(R12), 2) else if w[1] == 0x5d then (PopReg(R13), 2)
       else if w[1] == 0x5e then (PopReg(R14), 2) else if w[1] == 0x5f then (PopReg(R15), 2)
       else (Other, isa.length(w)))
    else if w[0] == 0x53 then (PushReg(RBX), 1) else if w[0] == 0x57 then (PushReg(RDI), 1)
    else if w[0] == 0x5b then (PopReg(RBX), 1) else if w[0] == 0x5d then (PopReg(RBP), 1)
    else if w[0] == 0x5f then (PopReg(RDI), 1)
    else if w[0] == 0xc3 then (Ret, 1) else if w[0] == 0xc9 then (Leave, 1)
    else (Other, isa.length(w))
  }

  predicate Straight(i: Instr) { i.PushReg? || i.PopReg? || i.Leave? || i.Other? }

  function Effect(isa: Isa, i: Instr, code: seq<byte>, d: Data): Data
    requires Straight(i)
  {
    match i
    case PushReg(r) => Push(d, Get(d, r))
    case PopReg(r) => PopTo(d, r)
    case Leave => PopTo(Set(d, RSP, Get(d, RBP)), RBP)
    case Other => isa.effect(code, d)
  }

  // What runs where: two pieces of code, the pointer variables, and the hook behind a known address.
  datatype Env = Env(isa: Isa, text: seq<byte>, base: int, tramp: seq<byte>, trampBase: int,
                     slots: map<int, int>, hookAddr: int, hook: Data -> Data)

  predicate Apart(e: Env) { e.trampBase + |e.tramp| <= e.base || e.base + |e.text| <= e.trampBase }

  // The bytes from address a to the end of its piece of code.
  function Window(e: Env, a: int): seq<byte> {
    if e.base <= a < e.base + |e.text| then e.text[a - e.base..]
    else if e.trampBase <= a < e.trampBase + |e.tramp| then e.tramp[a - e.trampBase..]
    else []
  }

  // rip, registers and memory, and how often the hook has been called.
  datatype Cpu = Cpu(rip: int, data: Data, calls: nat)

  // A called hook runs to its ret.
  function HookCall(hook: Data -> Data, d: Data, ret: int): Data { Drop(hook(Push(d, ret))) }

  function Step(e: Env, c: Cpu): Option<Cpu> {
    var w := Window(e, c.rip);
    var (i, n) := DecodeInstr(e.isa, w);
    if n == 0 || n > |w| then None
    else match i
      case Jmp(d) => Some(c.(rip := CpuTarget(c.rip + 1, d)))
      case Call(d) => Some(Cpu(CpuTarget(c.rip + 1, d), Push(c.data, c.rip + 5), c.calls))
      case CallInd(s) =>
        if s in e.slots && e.slots[s] == e.hookAddr then
          Some(Cpu(Top(e.hook(Push(c.data, c.rip + 7))), HookCall(e.hook, c.data, c.rip + 7), c.calls + 1))
        else None
      case JmpInd(s) => if s in e.slots then Some(c.(rip := e.slots[s])) else None
      case Ret => Some(Cpu(Top(c.data), Drop(c.data), c.calls))
      case Bad => None
      case _ => Some(Cpu(c.rip + n, Effect(e.isa, i, w[..n], c.data), c.calls))
  }

  function Run(e: Env, c: Cpu, n: nat): Option<Cpu>
    decreases n, c
  {
    if n == 0 then Some(c) else match Step(e, c) case None => None case Some(c') => Run(e, c', n - 1)
  }
  lemma {:induction false} RunSplit(e: Env, c: Cpu, m: nat, n: nat)
    requires Run(e, c, m).Some?
    ensures Run(e, c, m + n) == Run(e, Run(e, c, m).value, n)
    decreases m
  {
    hide Step;
    if m > 0 { RunSplit(e, Step(e, c).value, m - 1, n); }
  }

  // ---------- straight-line code ----------

  // Running exactly these bytes from beginning to end, wherever they are.
  function StraightRun(isa: Isa, code: seq<byte>, d: Data): Option<Data>
    decreases |code|
  {
    if code == [] then Some(d)
    else
      var (i, n) := DecodeInstr(isa, code);
      if !Straight(i) || n == 0 || n > |code| then None
      else StraightRun(isa, code[n..], Effect(isa, i, code[..n], d))
  }
  function StraightSteps(isa: Isa, code: seq<byte>): nat
    decreases |code|
  {
    if code == [] then 0
    else
      var n := DecodeInstr(isa, code).1;
      if n == 0 || n > |code| then 0 else 1 + StraightSteps(isa, code[n..])
  }

  predicate CodeAt(e: Env, a: int, code: seq<byte>) { |code| <= |Window(e, a)| && Window(e, a)[..|code|] == code }

  // Decoding does not depend on what follows the instruction.
  lemma DecodeStable(isa: Isa, w: seq<byte>, v: seq<byte>)
    requires PrefixDetermined(isa) && |w| <= |v| && v[..|w|] == w
    requires Straight(DecodeInstr(isa, w).0) && 0 < DecodeInstr(isa, w).1 <= |w|
    ensures DecodeInstr(isa, v) == DecodeInstr(isa, w)
  {
    assert forall k :: 0 <= k < |w| ==> v[k] == v[..|w|][k];
    var n := isa.length(w);
    if 0 < n <= |w| { assert v[..n] == v[..|w|][..n]; }
  }

  lemma CodeMoves(e: Env, a: int, code: seq<byte>, n: nat)
    requires Apart(e) && CodeAt(e, a, code) && n <= |code|
    ensures n < |code| ==> CodeAt(e, a + n, code[n..])
  {
    if n < |code| {
      var w := Window(e, a);
      assert Window(e, a + n) == w[n..];
      assert w[n..][..|code| - n] == w[..|code|][n..];
    }
  }

  // One straight-line instruction does the same wherever its bytes are.
  lemma StraightStep(e: Env, c: Cpu, code: seq<byte>)
    requires PrefixDetermined(e.isa) && code != [] && CodeAt(e, c.rip, code)
    requires Straight(DecodeInstr(e.isa, code).0) && 0 < DecodeInstr(e.isa, code).1 <= |code|
    ensures var (i, n) := DecodeInstr(e.isa, code);
      Step(e, c) == Some(Cpu(c.rip + n, Effect(e.isa, i, code[..n], c.data), c.calls))
  {
    hide DecodeInstr, Window, Effect, CpuTarget, HookCall;
    var n := DecodeInstr(e.isa, code).1;
    var w := Window(e, c.rip);
    DecodeStable(e.isa, code, w);
    assert w[..n] == w[..|code|][..n];
  }
  lemma {:induction false} StraightRuns(e: Env, c: Cpu, code: seq<byte>)
    requires PrefixDetermined(e.isa) && Apart(e) && (code != [] ==> CodeAt(e, c.rip, code))
    requires StraightRun(e.isa, code, c.data).Some?
    ensures Run(e, c, StraightSteps(e.isa, code)) ==
      Some(Cpu(c.rip + |code|, StraightRun(e.isa, code, c.data).value, c.calls))
    decreases |code|
  {
    hide Step, DecodeInstr, Window, Effect, CodeAt;
    if code != [] {
      var (i, n) := DecodeInstr(e.isa, code);
      StraightStep(e, c, code);
      CodeMoves(e, c.rip, code, n);
      StraightRuns(e, Cpu(c.rip + n, Effect(e.isa, i, code[..n], c.data), c.calls), code[n..]);
    }
  }

  // ---------- hooks that obey the calling convention ----------

  predicate CalleeSaved(r: Reg) { r == RBX || r == RBP || r == RSP || r == R12 || r == R13 || r == R14 || r == R15 }

  // The hook gives back the callee-saved registers and leaves the caller's stack alone.
  ghost predicate Abi(hook: Data -> Data) {
    forall d :: Keeps(d, hook(d))
  }
  ghost predicate Keeps(d: Data, d': Data) {
    && (forall r :: CalleeSaved(r) ==> Get(d', r) == Get(d, r))
    && (forall a :: a >= Get(d, RSP) ==> Load(d', a) == Load(d, a))
  }

  lemma HookReturns(hook: Data -> Data, d: Data, ret: int)
    requires Abi(hook)
    ensures Top(hook(Push(d, ret))) == ret && Keeps(d, HookCall(hook, d, ret))
  {
    var p := Push(d, ret);
    var h := hook(p);
    assert Keeps(p, h);
    assert Load(p, Get(p, RSP)) == ret;
    forall a | a >= Get(d, RSP) ensures Load(Drop(h), a) == Load(d, a) {
      assert a >= Get(p, RSP);
      assert Load(h, a) == Load(p, a);
    }
    forall r | CalleeSaved(r) ensures Get(Drop(h), r) == Get(d, r) {
      assert Get(h, r) == Get(p, r);
    }
  }
}
