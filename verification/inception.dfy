/**
 * The module's patching state and the methods that install and remove the hooks: the switch_* and
 * setup_* functions of lkm/arch/x86_64 and perform_inception / remove_inception of lkm/inception.c.
 */
module Patching {
  import opened Options
  import opened Addresses
  import opened Memory
  import opened SwitchPoints
  import opened Overlaps

  // Addresses of the agents and of the three trampolines.
  datatype Agents = Agents(
    execve: int, pgfault: int, timer: int, tail: int, fork: int, enterTramp: int, leaveTramp: int, exitTramp: int)
  // What the kernel tells: symbol and vector lookups that may fail, as indices into the image.
  datatype Symbols = Symbols(
    sysExecve: Option<nat>, getname: int, pgfaultEntry: Option<nat>, timerEntry: Option<nat>, retFromFork: Option<nat>,
    schedule: nat, doExit: Option<nat>, sysClone: nat, sysFork: nat, sysVfork: nat, doFork: int)

  const NOP: byte := 0x90
  const ENTER_TAIL: nat := 14
  const EXIT_TAIL: nat := 18
  const OTHERS: nat := 7  // sites that are not fork sites

  // The eight bytes at a jmp_* label with the 32-bit field after the opcode replaced.
  function JumpBytes(opcode: byte, template: seq<byte>, target: int, at: int): (b: seq<byte>)
    requires |template| == 8
    ensures |b| == 8
  {
    [opcode] + Le32(Disp(target, at + 1)) + template[5..]
  }

  // Those bytes are the given opcode, a field that makes the CPU land on the target, and the three bytes
  // that stood behind the assembled jump.
  lemma JumpBytesMean(opcode: byte, template: seq<byte>, target: int, at: int)
    requires |template| == 8 && 0 <= at && at + 1 < P64 && 0 <= target < P64
    ensures var b := JumpBytes(opcode, template, target, at);
      && b[0] == opcode && b[5..] == template[5..]
      && (CpuTarget(at + 1, U32(b[1..5])) == target <==> Near(target, at + 5))
  {
    hide Le32, U32, Disp, CpuTarget, Near;
    var d := Disp(target, at + 1);
    var b := JumpBytes(opcode, template, target, at);
    assert b[1..5] == Le32(d);
    FieldRoundTrip(d);
    JumpLands(target, at + 1);
  }

  // The offset of the first "sub $imm8,%rsp" within a function's first 64 bytes, or 64.
  function SignatureOffset(t: seq<byte>, from: nat): (i: nat)
    requires from + NUM_OF_NOP + 2 <= |t|
    ensures i <= NUM_OF_NOP
  {
    match Find(t, from, NUM_OF_NOP + 2, SUB_RSP)
    case None => NUM_OF_NOP
    case Some(p) => p - from
  }

  // "sub $imm8,%rsp" at x.
  predicate SubAt(t: seq<byte>, x: int) {
    0 <= x && x + 3 <= |t| && t[x] == 0x48 && t[x + 1] == 0x83 && t[x + 2] == 0xec
  }
  lemma OccursIsSub(t: seq<byte>, x: int)
    ensures Occurs(t, x, SUB_RSP) <==> SubAt(t, x)
  {
    if 0 <= x && x + 3 <= |t| { assert t[x..x + 3] == [t[x], t[x + 1], t[x + 2]]; }
  }
  lemma SignatureIff(t: seq<byte>, from: nat, i: nat)
    requires from + 66 <= |t|
    ensures SignatureOffset(t, from) == i <==>
      i <= 64 && (i < 64 ==> SubAt(t, from + i)) && forall x :: from <= x < from + i ==> !SubAt(t, x)
  {
    FindIsLeast(t, from, NUM_OF_NOP + 2, SUB_RSP);
    forall x ensures Occurs(t, x, SUB_RSP) <==> SubAt(t, x) { OccursIsSub(t, x); }
    hide Occurs, SubAt, Find;
    var k := SignatureOffset(t, from);
    assert k < 64 ==> SubAt(t, from + k);
    assert forall x :: from <= x < from + k ==> !SubAt(t, x);
  }

  // __schedule(), from the first call in schedule().
  function ScheduleBody(t: seq<byte>, base: int, schedule: nat): (r: Located)
    ensures r.Found? ==> r.p + NUM_OF_NOP + 2 <= |t|
  {
    var c := Field(t, Search(t, schedule, 64, CALL));
    if !c.Found? then c
    else
      var a := OrHigh(CpuTarget(base + c.p, U32(t[c.p..c.p + 4])));
      if base <= a && a - base + NUM_OF_NOP + 2 <= |t| then Found(a - base) else Fault
  }

  // In the top 2 GiB the "or" with the high half changes no target there, nor makes one of another.
  lemma HighTarget(sp: int, d: int, a: int)
    requires P64 - P31 <= sp && sp + 4 <= P64 && 0 <= d < P32 && P64 - P31 <= a < P64
    ensures OrHigh(CpuTarget(sp, d)) == a <==> CpuTarget(sp, d) == a
  {
  }
  // __schedule() is what the CPU reaches from the first call in schedule(), at c within 64 bytes.
  lemma ScheduleBodyIff(t: seq<byte>, base: int, schedule: nat, c: nat, f: nat)
    requires P64 - P31 <= base && base + |t| <= P64
    ensures FirstCall(t, schedule, 64, c) ==>
      (ScheduleBody(t, base, schedule) == Found(f) <==>
         c + 5 <= |t| && CpuTarget(base + c + 1, U32(t[c + 1..c + 5])) == base + f && f + 66 <= |t|)
    ensures ScheduleBody(t, base, schedule) == Missing <==> NoCall(t, schedule, 64)
    ensures schedule + 64 > |t| ==> ScheduleBody(t, base, schedule) == Fault
    ensures ScheduleBody(t, base, schedule).Found? ==> Reached(t, schedule, 64)
  {
    SearchIsFirst(t, schedule, 64, c);
    hide Search, CpuTarget, OrHigh, U32;
    if FirstCall(t, schedule, 64, c) && c + 5 <= |t| {
      var d := U32(t[c + 1..c + 5]);
      if f < |t| { HighTarget(base + c + 1, d, base + f); }
      var a := OrHigh(CpuTarget(base + c + 1, d));
      if base <= a && a - base < |t| { HighTarget(base + c + 1, d, a); }
    }
  }

  function EpilogueSite(t: seq<byte>, from: nat): (r: Located)
    ensures r.Found? ==> r.p + |EPILOGUE| <= |t|
  {
    if from + SCHEDULE_FUNC_SZ > |t| then Fault
    else match Find(t, from, SCHEDULE_FUNC_SZ, EPILOGUE)
      case None => Missing
      case Some(p) => Found(p)
  }

  // pop %rbx, %r12, %r13, %r14, %r15, %rbp and ret at p.
  predicate EpilogueAt(t: seq<byte>, p: int) {
    0 <= p && p + 11 <= |t| &&
    t[p..p + 11] == [0x5b, 0x41, 0x5c, 0x41, 0x5d, 0x41, 0x5e, 0x41, 0x5f, 0x5d, 0xc3]
  }
  // The epilogue hooked is the first one within 4096 bytes of __schedule().
  lemma EpilogueSiteIff(t: seq<byte>, from: nat, p: nat)
    ensures EpilogueSite(t, from) == Found(p) <==>
      && from + 4096 <= |t| && from <= p && p + 11 <= from + 4096 && EpilogueAt(t, p)
      && forall x :: from <= x < p ==> !EpilogueAt(t, x)
    ensures EpilogueSite(t, from) == Missing <==>
      from + 4096 <= |t| && forall x :: from <= x && x + 11 <= from + 4096 ==> !EpilogueAt(t, x)
    ensures EpilogueSite(t, from) == Fault <==> from + 4096 > |t|
  {
    if from + SCHEDULE_FUNC_SZ <= |t| {
      FindIsLeast(t, from, SCHEDULE_FUNC_SZ, EPILOGUE);
      assert forall x :: Occurs(t, x, EPILOGUE) <==> EpilogueAt(t, x);
      hide Occurs, EpilogueAt, Find, EPILOGUE;
      var r := Find(t, from, SCHEDULE_FUNC_SZ, EPILOGUE);
      assert r.Some? ==> EpilogueAt(t, r.value) && forall x :: from <= x < r.value ==> !EpilogueAt(t, x);
    }
  }

  // The trampoline after its prologue copy: n bytes of the original, then the tail that stood behind the nops.
  function CopiedTramp(tramp: seq<byte>, t: seq<byte>, from: nat, n: nat, tail: nat): seq<byte>
    requires from + n <= |t| && n + tail <= NUM_OF_NOP && NUM_OF_NOP + tail <= |tramp|
  {
    t[from..from + n] + tramp[NUM_OF_NOP..NUM_OF_NOP + tail] + tramp[n + tail..]
  }

  // The order of removal: the fork sites fs as they were installed, all others os last in, first out.
  ghost function Unwound(t: seq<byte>, os: seq<Site>, fs: seq<Site>): (r: seq<byte>)
    requires AllFit(t, os) && AllFit(t, fs)
    ensures |r| == |t|
  {
    var m := Install(t, os);
    assert AllFit(m, fs);
    var u := Install(m, fs);
    assert AllFit(u, Held(m, fs));
    var v := RemoveFifo(u, Held(m, fs));
    assert AllFit(v, Held(t, os));
    RemoveLifo(v, Held(t, os))
  }
  // A byte that the other sites patch over always comes back; any other depends on the fork sites alone.
  ghost predicate ForksHideNothing(t: seq<byte>, os: seq<Site>, fs: seq<Site>)
    requires AllFit(t, os)
  {
    forall x :: 0 <= x < |t| && !Touched(os, x) ==> Beneath(Install(t, os), fs, x) == t[x]
  }

  lemma UnwoundByte(t: seq<byte>, os: seq<Site>, fs: seq<Site>, x: nat)
    requires AllFit(t, os) && AllFit(t, fs) && x < |t|
    ensures Unwound(t, os, fs)[x] == if Touched(os, x) then t[x] else Beneath(Install(t, os), fs, x)
  {
    var m := Install(t, os);
    assert AllFit(m, fs);
    LifoRestores(t, os);
    LifoByte(RemoveFifo(Install(m, fs), Held(m, fs)), m, Held(t, os), x);
    HeldTouch(t, os, x);
    FifoRestores(m, fs, x);
  }

  // All or nothing, and install-then-remove: every byte comes back iff the fork sites, which are
  // restored in the order they were patched, hide no changed byte from one another.
  lemma UnwoundIff(t: seq<byte>, os: seq<Site>, fs: seq<Site>)
    requires AllFit(t, os) && AllFit(t, fs)
    ensures Unwound(t, os, fs) == t <==> ForksHideNothing(t, os, fs)
  {
    forall x | 0 <= x < |t|
      ensures Unwound(t, os, fs)[x] == if Touched(os, x) then t[x] else Beneath(Install(t, os), fs, x)
    {
      UnwoundByte(t, os, fs, x);
    }
    if ForksHideNothing(t, os, fs) {
      assert forall x :: 0 <= x < |t| ==> Unwound(t, os, fs)[x] == t[x];
    }
  }
  // In particular with pairwise disjoint fork sites, or none.
  lemma DisjointForksUnwind(t: seq<byte>, os: seq<Site>, fs: seq<Site>)
    requires AllFit(t, os) && AllFit(t, fs)
    requires forall i, k :: 0 <= i < k < |fs| ==> Disjoint(fs[i], fs[k])
    ensures Unwound(t, os, fs) == t
  {
    forall x | 0 <= x < |t| && !Touched(os, x) ensures Beneath(Install(t, os), fs, x) == t[x] {
      DisjointBeneath(Install(t, os), fs, x);
      InstallByte(t, os, x);
      Untouched(t, os, x);
    }
    UnwoundIff(t, os, fs);
  }

  // memcpy: exact when the ranges do not overlap; otherwise only the bytes outside the destination are known.
  method MemCpy(dst: array<byte>, d: nat, src: array<byte>, s: nat, n: nat)
    requires d + n <= dst.Length && s + n <= src.Length
    modifies dst
    ensures dst != src || d + n <= s || s + n <= d ==> dst[..] == Poke(old(dst[..]), d, old(src[s..s + n]))
    ensures forall x :: 0 <= x < dst.Length && !(d <= x < d + n) ==> dst[x] == old(dst[x])
  {
    var k := 0;
    while k < n
      invariant 0 <= k <= n
      invariant forall x :: 0 <= x < dst.Length && !(d <= x < d + k) ==> dst[x] == old(dst[x])
      invariant dst != src || d + n <= s || s + n <= d ==> forall x :: d <= x < d + k ==> dst[x] == old(src[s + x - d])
    {
      dst[d + k] := src[s + k];
      k := k + 1;
    }
    assert dst != src || d + n <= s || s + n <= d ==> dst[..] == Poke(old(dst[..]), d, old(src[s..s + n]));
  }

  lemma PokedTwice(tr: seq<byte>, v: seq<byte>, w: seq<byte>)
    requires |v| + |w| <= |tr|
    ensures Poke(Poke(tr, 0, v), |v|, w) == v + w + tr[|v| + |w|..]
  {
    var mid := Poke(tr, 0, v);
    assert mid[..|v|] == v && mid[|v| + |w|..] == tr[|v| + |w|..];
  }
  lemma CopyThenTail(tr: seq<byte>, t: seq<byte>, from: nat, n: nat, tail: nat)
    requires from + n <= |t| && n + tail <= NUM_OF_NOP && NUM_OF_NOP + tail <= |tr|
    ensures var mid := Poke(tr, 0, t[from..from + n]);
      Poke(mid, n, Peek(mid, NUM_OF_NOP, tail)) == CopiedTramp(tr, t, from, n, tail)
  {
    var v := t[from..from + n];
    var mid := Poke(tr, 0, v);
    var w := tr[NUM_OF_NOP..NUM_OF_NOP + tail];
    assert Peek(mid, NUM_OF_NOP, tail) == w;
    PokedTwice(tr, v, w);
  }

  /** The C globals of the patching code. */
  class Inception {
    const image: Image
    const base: int              // address of image.text[0]
    const agents: Agents
    const symbols: Symbols
    const jmpEnter: seq<byte>    // the bytes assembled at jmp_enter_schedule and jmp_leave_schedule
    const jmpLeave: seq<byte>
    const enterTramp: array<byte>
    const exitTramp: array<byte>  // followed by the eight bytes at jmp_do_exit

    var execve: Site
    var pgfault: Site
    var timer: Site
    var tail: Site
    var enter: Site
    var leave: Site
    var exit: Site
    var clone: Site
    var fork: Site
    var vfork: Site
    var origExecve: int
    var origPgfault: int
    var origTimer: int
    var origTail: int
    var schedule: nat            // index of __schedule()
    var scheduleStart: int       // where the enter trampoline returns to
    var exitReenter: int         // where the exit trampoline returns to

    // A module just loaded: every switch point is NULL.
    constructor (image: Image, base: int, agents: Agents, symbols: Symbols,
                 jmpEnter: seq<byte>, jmpLeave: seq<byte>, enterTramp: array<byte>, exitTramp: array<byte>)
      requires P64 - P31 <= base && base + image.text.Length <= P64
      requires |jmpEnter| == 8 && |jmpLeave| == 8
      requires enterTramp != exitTramp && enterTramp != image.text && exitTramp != image.text
      requires enterTramp.Length >= NUM_OF_NOP + ENTER_TAIL && exitTramp.Length >= NUM_OF_NOP + EXIT_TAIL + 8
      ensures Valid() && Fresh() && this.image == image && this.base == base && this.agents == agents
      ensures this.symbols == symbols
    {
      this.image, this.base, this.agents, this.symbols := image, base, agents, symbols;
      this.jmpEnter, this.jmpLeave := jmpEnter, jmpLeave;
      this.enterTramp, this.exitTramp := enterTramp, exitTramp;
      execve, pgfault, timer, tail := Site(None, []), Site(None, []), Site(None, []), Site(None, []);
      enter, leave, exit := Site(None, []), Site(None, []), Site(None, []);
      clone, fork, vfork := Site(None, []), Site(None, []), Site(None, []);
    }

    predicate Valid() {
      && P64 - P31 <= base && base + image.text.Length <= P64
      && |jmpEnter| == 8 && |jmpLeave| == 8
      && enterTramp != exitTramp && enterTramp != image.text && exitTramp != image.text
      && enterTramp.Length >= NUM_OF_NOP + ENTER_TAIL && exitTramp.Length >= NUM_OF_NOP + EXIT_TAIL + 8
    }
    predicate Fresh()
      reads this
    {
      && execve == Site(None, []) && pgfault == Site(None, []) && timer == Site(None, []) && tail == Site(None, [])
      && enter == Site(None, []) && leave == Site(None, []) && exit == Site(None, [])
      && clone == Site(None, []) && fork == Site(None, []) && vfork == Site(None, [])
    }
    function Others(): seq<Site>
      reads this
    {
      [execve, pgfault, timer, tail, enter, leave, exit]
    }
    function Forks(): seq<Site>
      reads this
    {
      [clone, fork, vfork]
    }

    // The exchange that redirects a call, and the ones that put a jump over a function's first bytes.
    function CallTo(p: nat, agent: int): Site { Site(Some(p), Le32(Disp(agent, base + p))) }
    predicate CallPlan(site: Located, s: Site, agent: int) { site.Found? && s == CallTo(site.p, agent) }
    // The text and the variable before and after one exchange.
    predicate Exchanged(t: seq<byte>, t': seq<byte>, q: Site, s: Site) {
      Fits(t, q) && t' == SwapText(t, q) && s == SwapHold(t, q)
    }
    function EnterJump(p: nat): Site
      requires Valid()
    {
      Site(Some(p), JumpBytes(jmpEnter[0], jmpEnter, agents.enterTramp, base + p))
    }
    function LeaveJump(p: nat): Site
      requires Valid()
    {
      Site(Some(p), JumpBytes(jmpLeave[0], jmpLeave, agents.leaveTramp, base + p))
    }
    // The last three bytes are whatever stands at jmp_do_exit.
    predicate ExitJump(p: nat, s: Site) {
      s.point == Some(p) && |s.hold| == 8 && s.hold[..5] == [0xe9] + Le32(Disp(agents.exitTramp, base + p + 1))
    }

    // restore_*: exchange again, unless the site was never found.
    method Restore(s: Site) returns (s': Site)
      requires Fits(image.text[..], s)
      modifies image, image.text
      ensures image.text[..] == SwapText(old(image.text[..]), s) && s' == SwapHold(old(image.text[..]), s)
    {
      if s.point.Some? {
        s' := image.Xchg(s);
      } else {
        s' := s;
      }
    }

    method FindOpcode(from: nat, len: nat, b: byte) returns (r: Located)
      ensures r == Search(image.text[..], from, len, b)
    {
      if from + len > image.text.Length {
        return Fault;
      }
      FindOneByte(image.text[..], from, len, b);
      var p := MemMem(image.text, from, len, [b]);
      return if p.Some? then Found(p.value) else Missing;
    }
    method FindCallField(from: nat, len: nat) returns (r: Located)
      ensures r == Field(image.text[..], Search(image.text[..], from, len, CALL))
    {
      var c := FindOpcode(from, len, CALL);
      if !c.Found? { return c; }
      return if c.p + 5 <= image.text.Length then Found(c.p + 1) else Fault;
    }
    function TargetAt(p: nat): int
      requires p + 4 <= image.text.Length
      reads image.text
    {
      Target(image.text[..], base, p)
    }

    // ---------- switch_* ----------

    method SwitchExecve() returns (r: Outcome, ghost q: Site)
      modifies this`execve, this`origExecve, image, image.text
      ensures var t, site :=
        old(image.text[..]), ExecveSite(old(image.text[..]), base, symbols.sysExecve, symbols.getname);
        if r == Done then
          && CallPlan(site, q, agents.execve) && Exchanged(t, image.text[..], q, execve)
          && origExecve == Target(t, base, site.p)
        else image.text[..] == t && execve == old(execve) && site == if r == Enosys then Missing else Fault
    {
      hide Search, Field, SwapText, SwapHold, Disp, Le32, U32, Decode;
      q := Site(None, []);
      if symbols.sysExecve == None { return Enosys, q; }
      var c := FindCallField(symbols.sysExecve.value, 64);
      if !c.Found? { return if c == Missing then Enosys else Oops, q; }
      if TargetAt(c.p) != symbols.getname { return Enosys, q; }
      c := FindCallField(c.p + 4, 64);
      if !c.Found? { return if c == Missing then Enosys else Oops, q; }
      origExecve := TargetAt(c.p);
      q := CallTo(c.p, agents.execve);
      execve := image.Xchg(CallTo(c.p, agents.execve));
      return Done, q;
    }

    method SwitchPgfault() returns (r: Outcome, ghost q: Site)
      modifies this`pgfault, this`origPgfault, image, image.text
      ensures var t, site := old(image.text[..]), PgfaultSite(old(image.text[..]), symbols.pgfaultEntry);
        if r == Done then
          && CallPlan(site, q, agents.pgfault) && Exchanged(t, image.text[..], q, pgfault)
          && origPgfault == Target(t, base, site.p)
        else image.text[..] == t && pgfault == old(pgfault) && site == if r == Enosys then Missing else Fault
    {
      hide Search, Field, SwapText, SwapHold, Disp, Le32, U32, Decode;
      q := Site(None, []);
      if symbols.pgfaultEntry == None { return Enosys, q; }
      var c := FindOpcode(symbols.pgfaultEntry.value, MAX_OFFSET, CALL);
      if !c.Found? { return Oops, q; }
      c := FindCallField(c.p + 1, MAX_OFFSET);
      if !c.Found? { return Oops, q; }
      origPgfault := TargetAt(c.p);
      q := CallTo(c.p, agents.pgfault);
      pgfault := image.Xchg(CallTo(c.p, agents.pgfault));
      return Done, q;
    }

    method SwitchTimer() returns (r: Outcome, ghost q: Site)
      modifies this`timer, this`origTimer, image, image.text
      ensures var t, site := old(image.text[..]), TimerSite(old(image.text[..]), symbols.timerEntry);
        if r == Done then
          && CallPlan(site, q, agents.timer) && Exchanged(t, image.text[..], q, timer)
          && origTimer == Target(t, base, site.p)
        else image.text[..] == t && timer == old(timer) && site == if r == Enosys then Missing else Fault
    {
      hide Search, Field, SwapText, SwapHold, Disp, Le32, U32, Decode;
      q := Site(None, []);
      if symbols.timerEntry == None { return Enosys, q; }
      var c := FindOpcode(symbols.timerEntry.value, MAX_OFFSET, CALL);
      if !c.Found? { return if c == Missing then Enosys else Oops, q; }
      c := FindOpcode(c.p + 1, MAX_OFFSET, CALL);
      if !c.Found? { return if c == Missing then Enosys else Oops, q; }
      c := FindCallField(c.p + 1, MAX_OFFSET);
      if !c.Found? { return if c == Missing then Enosys else Oops, q; }
      origTimer := TargetAt(c.p);
      q := CallTo(c.p, agents.timer);
      timer := image.Xchg(CallTo(c.p, agents.timer));
      return Done, q;
    }

    method SwitchScheduleTail() returns (r: Outcome, ghost q: Site)
      modifies this`tail, this`origTail, image, image.text
      ensures var t, site := old(image.text[..]), TailSite(old(image.text[..]), symbols.retFromFork);
        if r == Done then
          && CallPlan(site, q, agents.tail) && Exchanged(t, image.text[..], q, tail)
          && origTail == Target(t, base, site.p)
        else image.text[..] == t && tail == old(tail) && site == if r == Enosys then Missing else Fault
    {
      hide Search, Field, SwapText, SwapHold, Disp, Le32, U32, Decode;
      q := Site(None, []);
      if symbols.retFromFork == None { return Enosys, q; }
      var c := FindCallField(symbols.retFromFork.value, 64);
      if !c.Found? { return if c == Missing then Enosys else Oops, q; }
      origTail := TargetAt(c.p);
      q := CallTo(c.p, agents.tail);
      tail := image.Xchg(CallTo(c.p, agents.tail));
      return Done, q;
    }

    // ---------- setup_*_hook ----------

    // The byte scan for "48 83 ec"; 64 when it runs out.
    method ScanSignature(from: nat) returns (i: nat)
      requires from + NUM_OF_NOP + 2 <= image.text.Length
      ensures i == SignatureOffset(image.text[..], from)
      ensures i <= 64 && (i < 64 ==> SubAt(image.text[..], from + i))
      ensures forall x :: from <= x < from + i ==> !SubAt(image.text[..], x)
    {
      ghost var t := image.text[..];
      i := 0;
      while i < NUM_OF_NOP
        invariant i <= NUM_OF_NOP
        invariant forall x :: from <= x < from + i ==> !SubAt(t, x)
      {
        var p := from + i;
        if image.text[p] == 0x48 && image.text[p + 1] == 0x83 && image.text[p + 2] == 0xec {
          assert SubAt(t, p);
          SignatureIff(t, from, i);
          return;
        }
        i := i + 1;
      }
      SignatureIff(t, from, i);
    }

    // The two copies that turn the nops of a trampoline into the original prologue and the tail.
    method BuildTramp(tramp: array<byte>, from: nat, n: nat, tail: nat)
      requires tramp != image.text && from + n <= image.text.Length
      requires n + tail <= tramp.Length && NUM_OF_NOP + tail <= tramp.Length
      modifies tramp
      ensures n + tail <= NUM_OF_NOP ==> tramp[..] == CopiedTramp(old(tramp[..]), old(image.text[..]), from, n, tail)
    {
      hide Poke, CopiedTramp;
      ghost var tr, v := tramp[..], image.text[from..from + n];
      assert v == image.text[..][from..from + n];
      MemCpy(tramp, 0, image.text, from, n);
      ghost var mid := tramp[..];
      assert mid == Poke(tr, 0, v);
      ghost var w := tramp[NUM_OF_NOP..NUM_OF_NOP + tail];
      assert w == Peek(mid, NUM_OF_NOP, tail);
      MemCpy(tramp, n, tramp, NUM_OF_NOP, tail);
      if n + tail <= NUM_OF_NOP {
        assert tramp[..] == Poke(mid, n, w);
        CopyThenTail(tr, image.text[..], from, n, tail);
      }
    }

    method SetupEnterSchedule() returns (r: Outcome)
      requires Valid()
      modifies this`enter, this`schedule, this`scheduleStart, image, image.text, enterTramp
      ensures var t, tr := old(image.text[..]), old(enterTramp[..]);
        var body := ScheduleBody(t, base, symbols.schedule);
        && (r == Oops <==> body == Fault)
        && (r != Done ==> image.text[..] == t && enter == old(enter))
        && (r == Enosys ==> body == Missing || enterTramp[0] == NOP) && (r == Done ==> body.Found?)
        && (!body.Found? ==> enterTramp[..] == tr)
        && (body.Found? ==>
              var i := SignatureOffset(t, body.p);
              && (i == NUM_OF_NOP ==> enterTramp[..] == tr)
              && (i + ENTER_TAIL <= NUM_OF_NOP ==> enterTramp[..] == CopiedTramp(tr, t, body.p, i, ENTER_TAIL))
              && (r == Done ==>
                    && enterTramp[0] != NOP && schedule == body.p && scheduleStart == base + body.p + i
                    && Exchanged(t, image.text[..], EnterJump(body.p), enter)))
    {
      hide Search, Field, SignatureOffset, CopiedTramp, SwapText, SwapHold, JumpBytes, CpuTarget, U32, OrHigh;
      var c := FindCallField(symbols.schedule, 64);
      if !c.Found? { return if c == Missing then Enosys else Oops; }
      var a := OrHigh(CpuTarget(base + c.p, U32(image.text[c.p..c.p + 4])));
      assert image.text[..][c.p..c.p + 4] == image.text[c.p..c.p + 4];
      if a < base || a - base + NUM_OF_NOP + 2 > image.text.Length { return Oops; }
      schedule := a - base;
      var i := ScanSignature(schedule);
      if i < NUM_OF_NOP {
        BuildTramp(enterTramp, schedule, i, ENTER_TAIL);
      }
      if enterTramp[0] == NOP { return Enosys; }
      scheduleStart := base + schedule + i;
      enter := image.Xchg(EnterJump(schedule));
      return Done;
    }

    method SetupLeaveSchedule() returns (r: Outcome)
      requires Valid()
      modifies this`leave, image, image.text
      ensures var t, site := old(image.text[..]), EpilogueSite(old(image.text[..]), schedule);
        if r == Done then
          site.Found? && Exchanged(t, image.text[..], LeaveJump(site.p), leave)
        else image.text[..] == t && leave.point == None && site == if r == Enosys then Missing else Fault
    {
      leave := Site(None, []);
      if schedule + SCHEDULE_FUNC_SZ > image.text.Length { return Oops; }
      var p := MemMem(image.text, schedule, SCHEDULE_FUNC_SZ, EPILOGUE);
      if p == None { return Enosys; }
      leave := image.Xchg(LeaveJump(p.value));
      return Done;
    }

    method SetupEnterExit() returns (r: Outcome, ghost q: Site)
      requires Valid()
      modifies this`exit, this`exitReenter, image, image.text, exitTramp
      ensures var t, tr := old(image.text[..]), old(exitTramp[..]);
        && (r != Done ==> image.text[..] == t && exit == old(exit))
        && (r == Enosys ==> symbols.doExit == None || exitTramp[0] == NOP) && (r == Done ==> symbols.doExit.Some?)
        && (r == Oops <==> symbols.doExit.Some? && symbols.doExit.value + NUM_OF_NOP + 4 > image.text.Length)
        && (symbols.doExit.Some? && r != Oops ==>
              var from := symbols.doExit.value;
              var i := SignatureOffset(t, from);
              && (i == NUM_OF_NOP ==> exitTramp[..] == tr)
              && (i + 4 + EXIT_TAIL <= NUM_OF_NOP ==> exitTramp[..] == CopiedTramp(tr, t, from, i + 4, EXIT_TAIL))
              && (r == Done ==>
                    && exitTramp[0] != NOP && exitReenter == base + from + i + 4
                    && ExitJump(from, q) && Exchanged(t, image.text[..], q, exit)))
      ensures r == Done ==> |q.hold| == 8 && q.hold[5..] == exitTramp[87..90]
    {
      hide SignatureOffset, CopiedTramp, SwapText, SwapHold, Disp, Le32;
      q := Site(None, []);
      if symbols.doExit == None { return Enosys, q; }
      var from := symbols.doExit.value;
      if from + NUM_OF_NOP + 4 > image.text.Length { return Oops, q; }
      var i := ScanSignature(from);
      if i < NUM_OF_NOP {
        BuildTramp(exitTramp, from, i + 4, EXIT_TAIL);
      }
      if exitTramp[0] == NOP { return Enosys, q; }
      exitReenter := base + from + i + 4;
      var hex :=
        JumpBytes(0xe9, exitTramp[NUM_OF_NOP + EXIT_TAIL..NUM_OF_NOP + EXIT_TAIL + 8], agents.exitTramp, base + from);
      q := Site(Some(from), hex);
      exit := image.Xchg(Site(Some(from), hex));
      return Done, q;
    }

    // ---------- the three fork sites ----------

    // The loop of __switch_do_fork: it restarts at sys every time and only shrinks the window.
    method SearchFork(sys: nat) returns (r: ForkResult)
      ensures r == ForkSearch(image.text[..], base, sys, 0, symbols.doFork)
    {
      hide ForkCandidate, ForkMatch;
      var distance := 0;
      ghost var t := image.text[..];
      ghost var result := ForkSearch(t, base, sys, 0, symbols.doFork);
      while distance < FORK_WINDOW
        invariant ForkSearch(t, base, sys, distance, symbols.doFork) == result
        decreases FORK_WINDOW - distance
      {
        var c := FindCandidate(sys, FORK_WINDOW - distance);
        if c == Missing { return NotFound; }
        if c == Fault || c.p + 5 > image.text.Length { return Crash; }
        var p := c.p + 1;
        distance := distance + (p - sys);
        var m := ForkMatch(image.text[..], base, p, symbols.doFork);
        if m == None { return Crash; }
        if m.value { return Patch(p); }
      }
      return Silent;
    }
    method FindCandidate(sys: nat, window: nat) returns (c: Located)
      ensures c == ForkCandidate(image.text[..], sys, window)
    {
      c := FindOpcode(sys, window, JMP);
      if c == Missing { c := FindOpcode(sys, window, CALL); }
    }

    // The exchange that one use of the macro makes.
    function ForkCall(r: ForkResult): Site { if r.Patch? then CallTo(r.p, agents.fork) else Site(None, []) }

    // No exchange, or one at a place behind a call or jump opcode that led to _do_fork.
    predicate LedToFork(t: seq<byte>, s: Site) {
      || s == Site(None, [])
      || (s.point.Some? && 0 < s.point.value && s.point.value + 4 <= |t| && IsOpcode(t[s.point.value - 1])
          && s == CallTo(s.point.value, agents.fork)
          && ForkMatch(t, base, s.point.value, symbols.doFork) == Some(true))
    }

    // One use of the macro.
    method SwitchOneFork(sys: nat) returns (r: ForkResult, s: Site)
      modifies image, image.text
      ensures r == ForkSearch(old(image.text[..]), base, sys, 0, symbols.doFork)
      ensures LedToFork(old(image.text[..]), ForkCall(r)) && Fits(old(image.text[..]), ForkCall(r))
      ensures image.text[..] == SwapText(old(image.text[..]), ForkCall(r))
      ensures s == SwapHold(old(image.text[..]), ForkCall(r))
    {
      hide ForkSearch, ForkMatch, Disp, Le32;
      r := SearchFork(sys);
      s := Site(None, []);
      if r.Patch? {
        PatchFits(image.text[..], base, sys, 0, symbols.doFork);
        s := image.Xchg(CallTo(r.p, agents.fork));
      }
    }

    // restore_do_fork: in the order of installation.
    method RestoreDoFork()
      requires AllFit(image.text[..], Forks())
      modifies this`clone, this`fork, this`vfork, image, image.text
      ensures AllFit(old(image.text[..]), old(Forks()))
      ensures image.text[..] == RemoveFifo(old(image.text[..]), old(Forks()))
      ensures Forks() == Held(old(image.text[..]), old(Forks()))
    {
      ghost var t := image.text[..];
      assert Fits(t, Forks()[0]) && Fits(t, Forks()[1]) && Fits(t, Forks()[2]);
      ThreeExchanges(t, clone, fork, vfork);
      clone := Restore(clone);
      fork := Restore(fork);
      vfork := Restore(vfork);
    }

    // The new bytes of the three fork sites: each led to _do_fork when it was patched.
    ghost predicate ForkPlan(t: seq<byte>, fs: seq<Site>) {
      && |fs| == 3 && Fits(t, fs[0]) && Fits(t, fs[1]) && Fits(t, fs[2])
      && LedToFork(t, fs[0]) && LedToFork(SwapText(t, fs[0]), fs[1])
      && LedToFork(SwapText(SwapText(t, fs[0]), fs[1]), fs[2])
    }

    // A window that still holds the way to the agent is not patched again.
    lemma AgentWindowNotTaken(t: seq<byte>, a: Site, b: Site)
      requires Valid() && |t| == image.text.Length && Resolved() && LedToFork(t, b)
      requires a.point.Some? && a.point.value + 4 <= |t| && a == CallTo(a.point.value, agents.fork)
      requires Peek(t, a.point.value, 4) == a.hold
      ensures b.point != a.point
    {
      hide Disp, Le32, U32;
      if b.point == a.point {
        var p := a.point.value;
        assert Poke(t, p, a.hold) == t by { assert t == t[..p] + t[p..p + 4] + t[p + 4..]; }
        PatchedSiteNotTaken(t, base, p, agents.fork, symbols.doFork);
      }
    }
    // kallsyms knew _do_fork, and the agent is some other function of the top 4 GiB.
    predicate Resolved() { HIGH <= agents.fork < P64 && symbols.doFork != 0 && agents.fork != symbols.doFork }

    // The three searches, each on what the one before has left; a search that fails ends them.
    function Fork(t: seq<byte>, sys: nat): ForkResult { ForkSearch(t, base, sys, 0, symbols.doFork) }
    function Patched(t: seq<byte>, r: ForkResult): seq<byte> {
      if Fits(t, ForkCall(r)) then SwapText(t, ForkCall(r)) else t
    }
    function ForkSteps(t: seq<byte>): (Outcome, seq<Site>) {
      var a := Fork(t, symbols.sysClone);
      var t1 := Patched(t, a);
      var b := if a == NotFound || a == Crash then a else Fork(t1, symbols.sysFork);
      var t2 := Patched(t1, b);
      var c := if b == NotFound || b == Crash then b else Fork(t2, symbols.sysVfork);
      (if c == Crash then Oops else if c == NotFound then Enosys else Done, [ForkCall(a), ForkCall(b), ForkCall(c)])
    }

    // The three uses of the macro.
    method SwitchForks() returns (last: ForkResult, ghost fs: seq<Site>)
      requires clone == Site(None, []) && fork == Site(None, []) && vfork == Site(None, [])
      modifies this`clone, this`fork, this`vfork, image, image.text
      ensures (if last == Crash then Oops else if last == NotFound then Enosys else Done, fs) ==
        ForkSteps(old(image.text[..]))
      ensures ForkPlan(old(image.text[..]), fs) && AllFit(old(image.text[..]), fs)
      ensures image.text[..] == Install(old(image.text[..]), fs) && Forks() == Held(old(image.text[..]), fs)
    {
      hide LedToFork, ForkSearch, CallTo, ForkSteps, Patched, SwapText, SwapHold;
      ghost var t := image.text[..];
      var a, b;
      a, clone := SwitchOneFork(symbols.sysClone);
      ghost var t1 := image.text[..];
      NoExchange(t1);
      PatchedIs(t, a);
      b, last := a, a;
      if a != NotFound && a != Crash {
        b, fork := SwitchOneFork(symbols.sysFork);
        last := b;
      }
      ghost var t2 := image.text[..];
      NoExchange(t2);
      PatchedIs(t1, b);
      if b != NotFound && b != Crash {
        last, vfork := SwitchOneFork(symbols.sysVfork);
      }
      fs := [ForkCall(a), ForkCall(b), ForkCall(last)];
      ThreeExchanges(t, fs[0], fs[1], fs[2]);
      ForkStepsAre(t, a, b, last);
    }
    lemma PatchedIs(t: seq<byte>, r: ForkResult)
      requires Fits(t, ForkCall(r))
      ensures Patched(t, r) == SwapText(t, ForkCall(r))
    {
    }
    lemma ForkStepsAre(t: seq<byte>, a: ForkResult, b: ForkResult, c: ForkResult)
      requires a == Fork(t, symbols.sysClone)
      requires b == if a == NotFound || a == Crash then a else Fork(Patched(t, a), symbols.sysFork)
      requires c == if b == NotFound || b == Crash then b else Fork(Patched(Patched(t, a), b), symbols.sysVfork)
      ensures ForkSteps(t) ==
        (if c == Crash then Oops else if c == NotFound then Enosys else Done, [ForkCall(a), ForkCall(b), ForkCall(c)])
    {
    }
    // All three sites, or none: a search that fails puts back what was patched so far, once.
    method SwitchDoFork() returns (r: Outcome, ghost fs: seq<Site>)
      requires clone == Site(None, []) && fork == Site(None, []) && vfork == Site(None, [])
      modifies this`clone, this`fork, this`vfork, image, image.text
      ensures (r, fs) == ForkSteps(old(image.text[..]))
      ensures ForkPlan(old(image.text[..]), fs) && AllFit(old(image.text[..]), fs)
      ensures r != Enosys ==>
        image.text[..] == Install(old(image.text[..]), fs) && Forks() == Held(old(image.text[..]), fs)
      ensures r == Enosys ==> AllFit(Install(old(image.text[..]), fs), Held(old(image.text[..]), fs))
      ensures r == Enosys ==>
        image.text[..] == RemoveFifo(Install(old(image.text[..]), fs), Held(old(image.text[..]), fs))
    {
      hide ForkSteps, ForkPlan, Held;
      var last;
      last, fs := SwitchForks();
      if last == NotFound {
        RestoreDoFork();
      }
      r := if last == Crash then Oops else if last == NotFound then Enosys else Done;
    }
    lemma NoExchange(t: seq<byte>)
      ensures Fits(t, Site(None, [])) && LedToFork(t, Site(None, [])) && SwapText(t, Site(None, [])) == t
      ensures SwapHold(t, Site(None, [])) == Site(None, [])
    {
    }

    predicate Ends(r: ForkResult) { r == NotFound || r == Crash }
    // The first search that finds nothing, or leaves the image, ends the installation there; only if none
    // of the three does is it complete.
    lemma ForkStepsCases(t: seq<byte>)
      ensures var a, none := Fork(t, symbols.sysClone), Site(None, []);
        && (a == NotFound ==> ForkSteps(t) == (Enosys, [none, none, none]))
        && (a == Crash ==> ForkSteps(t).0 == Oops)
      ensures var a, none := Fork(t, symbols.sysClone), Site(None, []);
        var b := Fork(Patched(t, a), symbols.sysFork);
        && (!Ends(a) && b == NotFound ==> ForkSteps(t) == (Enosys, [ForkCall(a), none, none]))
        && (!Ends(a) && b == Crash ==> ForkSteps(t).0 == Oops)
      ensures var a := Fork(t, symbols.sysClone);
        var b := Fork(Patched(t, a), symbols.sysFork);
        var c := Fork(Patched(Patched(t, a), b), symbols.sysVfork);
        && (!Ends(a) && !Ends(b) ==> ForkSteps(t).1 == [ForkCall(a), ForkCall(b), ForkCall(c)])
        && (ForkSteps(t).0 == Done <==> !Ends(a) && !Ends(b) && !Ends(c))
    {
      hide ForkSearch, CallTo;
    }

    // The sites of the three searches: each one led to _do_fork when its turn came.
    lemma ForkStepsPlan(t: seq<byte>)
      ensures ForkPlan(t, ForkSteps(t).1)
    {
      hide CallTo, ForkSearch, SwapText, ForkMatch;
      var a := Fork(t, symbols.sysClone);
      var t1 := Patched(t, a);
      var b := if a == NotFound || a == Crash then a else Fork(t1, symbols.sysFork);
      var t2 := Patched(t1, b);
      var c := if b == NotFound || b == Crash then b else Fork(t2, symbols.sysVfork);
      SearchLed(t, symbols.sysClone);
      SearchLed(t1, symbols.sysFork);
      SearchLed(t2, symbols.sysVfork);
      NoExchange(t);
      NoExchange(t1);
      NoExchange(t2);
    }
    lemma SearchLed(t: seq<byte>, sys: nat)
      ensures LedToFork(t, ForkCall(Fork(t, sys))) && Fits(t, ForkCall(Fork(t, sys)))
    {
      PatchFits(t, base, sys, 0, symbols.doFork);
    }

    // With _do_fork resolved no fork site is patched twice, however the fields overlap.
    lemma NoForkTwice(t: seq<byte>)
      requires Valid() && |t| == image.text.Length && Resolved()
      ensures var fs := ForkSteps(t).1;
        forall i, k :: 0 <= i < k < 3 && fs[i].point.Some? ==> fs[k].point != fs[i].point
    {
      var fs := ForkSteps(t).1;
      ForkStepsPlan(t);
      hide ForkSteps, ForkMatch, Disp, Le32, Peek;
      var t1 := SwapText(t, fs[0]);
      var t2 := SwapText(t1, fs[1]);
      if fs[0].point.Some? { AgentWindowNotTaken(t1, fs[0], fs[1]); }
      if fs[1].point.Some? { AgentWindowNotTaken(t2, fs[1], fs[2]); }
      if fs[0].point.Some? {
        if fs[1].point.Some? {
          FirstNotTaken(t, fs[0].point.value, fs[1].point.value, fs[2]);
        } else {
          AgentWindowNotTaken(t2, fs[0], fs[2]);
        }
      }
    }
    lemma FirstNotTaken(t: seq<byte>, p: nat, q: nat, third: Site)
      requires Valid() && |t| == image.text.Length && Resolved()
      requires 0 < p && p + 4 <= |t| && q + 4 <= |t| && p != q && IsOpcode(t[p - 1])
      requires ForkMatch(SwapText(t, CallTo(p, agents.fork)), base, q, symbols.doFork) == Some(true)
      requires LedToFork(SwapText(SwapText(t, CallTo(p, agents.fork)), CallTo(q, agents.fork)), third)
      ensures third.point != Some(p)
    {
      hide Disp, Le32, Target, Poke;
      NotTakenAgain(t, base, p, q, agents.fork, symbols.doFork);
    }

    // ---------- fork sites that overlap: what a failure leaves behind ----------

    // A call and a second call inside its field, both to _do_fork once the first is patched, then nothing.
    predicate CallInCall(u: seq<byte>, c: nat) {
      && c + 240 <= |u|
      && u[c] == CALL && u[c + 1] == 0x11 && u[c + 2] == 0 && u[c + 3] == 0 && u[c + 4] == 0xff && u[c + 5] == 0xff
      && forall x :: c + 6 <= x < c + 240 ==> u[x] == NOP
    }
    predicate SpoiltSetting(c: nat) {
      && Valid() && symbols.sysClone == c && symbols.sysFork == c + 1 && symbols.sysVfork == c + 100
      && agents.fork == base + c + 0x10ed && symbols.doFork == base + c + 6 - 0xfffff0
    }
    lemma SpoiltDisps(c: nat)
      requires SpoiltSetting(c) && c + 240 <= image.text.Length
      ensures CallTo(c + 1, agents.fork) == Site(Some(c + 1), [CALL, 0x10, 0, 0])
      ensures CallTo(c + 2, agents.fork) == Site(Some(c + 2), [0xe7, 0x10, 0, 0])
    {
      hide Wrap64;
      LowHalf(agents.fork - (base + c + 1) - 4);
      LowHalf(agents.fork - (base + c + 2) - 4);
      assert Disp(agents.fork, base + c + 1) == 0x10e8 && Disp(agents.fork, base + c + 2) == 0x10e7;
    }
    lemma SpoiltTarget(c: nat, p: nat, low: byte)
      requires SpoiltSetting(c) && c + 240 <= image.text.Length && p + low == c + 0x12
      ensures Decode(base + p, U32([low, 0, 0, 0xff])) == symbols.doFork
    {
      hide Wrap64;
      assert U32([low, 0, 0, 0xff]) == 0xff00_0000 + low;
      var a := symbols.doFork;
      LowHalf(0xff00_0000 + low + base + p + 4);
      assert 0xff00_0000 + low + base + p + 4 == (a - HIGH) + P32 * P32;
      ModShift(a - HIGH, P32);
    }
    // The search finds the call at its first byte.
    lemma SpoiltSearch(u: seq<byte>, c: nat, s: nat, low: byte)
      requires SpoiltSetting(c) && |u| == image.text.Length && c + 240 <= |u| && s + 1 + low == c + 0x12
      requires s + FORK_WINDOW <= |u|
      requires u[s] == CALL && u[s + 1..s + 5] == [low, 0, 0, 0xff]
      requires forall x :: s <= x < s + FORK_WINDOW ==> u[x] != JMP
      ensures Fork(u, s) == Patch(s + 1)
    {
      hide Decode, U32;
      assert FindByte(u, s, FORK_WINDOW, JMP) == None;
      assert FindByte(u, s, FORK_WINDOW, CALL) == Some(s);
      SpoiltTarget(c, s + 1, low);
    }

    // When the third search fails, restore_do_fork leaves the second byte of the first field changed.
    lemma OverlapSpoils(t: seq<byte>, os: seq<Site>, c: nat)
      requires SpoiltSetting(c) && |t| == image.text.Length && AllFit(t, os)
      requires CallInCall(Install(t, os), c) && !Touched(os, c + 2)
      ensures var (r, fs) := ForkSteps(Install(t, os)); r == Enosys && AllFit(t, fs) && Unwound(t, os, fs) != t
    {
      var u := Install(t, os);
      var a, b, none := CallTo(c + 1, agents.fork), CallTo(c + 2, agents.fork), Site(None, []);
      var fs := [a, b, none];
      SpoiltDisps(c);
      SpoiltSteps(u, c);
      hide ForkSteps, Install, Unwound, Held, CallTo, SpoiltSetting, Beneath, Value, Touched;
      ThreeFit(t, a, b);
      BeneathSecond(u, a, b, c + 2);
      UnwoundByte(t, os, fs, c + 2);
      InstallByte(t, os, c + 2);
      Untouched(t, os, c + 2);
    }
    lemma ThreeFit(t: seq<byte>, a: Site, b: Site)
      requires Fits(t, a) && Fits(t, b)
      ensures AllFit(t, [a, b, Site(None, [])])
    {
    }
    // Under the second window lies what the first one put there.
    lemma BeneathSecond(u: seq<byte>, a: Site, b: Site, x: nat)
      requires x < |u| && Covers(a, x) && Covers(b, x)
      ensures Beneath(u, [a, b, Site(None, [])], x) == a.hold[x - a.point.value]
    {
      var fs := [a, b, Site(None, [])];
      assert Front(fs) == [a, b] && Front([a, b]) == [a];
    }
    lemma SpoiltSteps(u: seq<byte>, c: nat)
      requires SpoiltSetting(c) && |u| == image.text.Length && CallInCall(u, c)
      ensures ForkSteps(u) == (Enosys, [CallTo(c + 1, agents.fork), CallTo(c + 2, agents.fork), Site(None, [])])
    {
      hide ForkSearch, CallTo;
      SpoiltDisps(c);
      assert u[c + 1..c + 5] == [0x11, 0, 0, 0xff];
      SpoiltSearch(u, c, c, 0x11);
      var u1 := SwapText(u, CallTo(c + 1, agents.fork));
      assert u1[c + 2..c + 6] == [0x10, 0, 0, 0xff];
      SpoiltSearch(u1, c, c + 1, 0x10);
      var u2 := SwapText(u1, CallTo(c + 2, agents.fork));
      NothingFound(u2, c + 100);
    }
    lemma NothingFound(u: seq<byte>, s: nat)
      requires s + FORK_WINDOW <= |u| && forall x :: s <= x < s + FORK_WINDOW ==> u[x] == NOP
      ensures Fork(u, s) == NotFound
    {
      assert FindByte(u, s, FORK_WINDOW, JMP) == None && FindByte(u, s, FORK_WINDOW, CALL) == None;
    }

    // ---------- perform_inception and remove_inception ----------

    // What the next step exchanges, after those in `done` have made t of the kernel text.
    ghost predicate StepPlan(t: seq<byte>, done: seq<Site>, s: Site)
      requires Valid()
    {
      match |done|
      case 0 => CallPlan(ExecveSite(t, base, symbols.sysExecve, symbols.getname), s, agents.execve)
      case 1 => CallPlan(PgfaultSite(t, symbols.pgfaultEntry), s, agents.pgfault)
      case 2 => CallPlan(TimerSite(t, symbols.timerEntry), s, agents.timer)
      case 3 => CallPlan(TailSite(t, symbols.retFromFork), s, agents.tail)
      case 4 => var body := ScheduleBody(t, base, symbols.schedule); body.Found? && s == EnterJump(body.p)
      case 5 =>
        done[4].point.Some? && var end := EpilogueSite(t, done[4].point.value); end.Found? && s == LeaveJump(end.p)
      case 6 => symbols.doExit.Some? && ExitJump(symbols.doExit.value, s)
      case _ => false
    }

    // Why the step after those in `done` cannot be taken.
    ghost predicate StepFails(t: seq<byte>, done: seq<Site>, r: Outcome)
      requires Valid()
      reads this`schedule, enterTramp, exitTramp
    {
      var missing := if r == Enosys then Missing else Fault;
      match |done|
      case 0 => ExecveSite(t, base, symbols.sysExecve, symbols.getname) == missing
      case 1 => PgfaultSite(t, symbols.pgfaultEntry) == missing
      case 2 => TimerSite(t, symbols.timerEntry) == missing
      case 3 => TailSite(t, symbols.retFromFork) == missing
      case 4 => ScheduleBody(t, base, symbols.schedule) == missing || (r == Enosys && enterTramp[0] == NOP)
      case 5 => EpilogueSite(t, schedule) == missing
      case 6 =>
        if r == Enosys then symbols.doExit == None || exitTramp[0] == NOP
        else symbols.doExit.Some? && symbols.doExit.value + NUM_OF_NOP + 4 > |t|
      case _ => ForkSteps(t).0 == r
    }

    // Everything but the fork sites, as far as it was installed: each new value where its search finds it.
    ghost predicate OthersPlan(t: seq<byte>, os: seq<Site>)
      requires Valid()
      decreases |os|
    {
      && AllFit(t, os)
      && (os != [] ==>
           AllFit(t, Front(os)) && OthersPlan(t, Front(os)) && StepPlan(Install(t, Front(os)), Front(os), Last(os)))
    }
    // Every new value, not just the last one, stands where the search of its own step found the place.
    lemma {:induction false} PlanAt(t: seq<byte>, os: seq<Site>, k: nat)
      requires Valid() && OthersPlan(t, os) && k < |os|
      ensures AllFit(t, os[..k]) && StepPlan(Install(t, os[..k]), os[..k], os[k])
      decreases |os|
    {
      if k == |os| - 1 {
        assert os[..k] == Front(os);
      } else {
        PlanAt(t, Front(os), k);
        assert Front(os)[..k] == os[..k];
      }
    }
    // The seven searches, by name and in the order of perform_inception.
    lemma SitesInOrder(t: seq<byte>, os: seq<Site>)
      requires Valid() && OthersPlan(t, os) && AllFit(t, os) && |os| == 7
      ensures forall k :: 0 <= k < 7 ==> os[k].point.Some? && AllFit(t, os[..k])
      ensures ExecveSite(Install(t, os[..0]), base, symbols.sysExecve, symbols.getname) == Found(os[0].point.value)
      ensures PgfaultSite(Install(t, os[..1]), symbols.pgfaultEntry) == Found(os[1].point.value)
      ensures TimerSite(Install(t, os[..2]), symbols.timerEntry) == Found(os[2].point.value)
      ensures TailSite(Install(t, os[..3]), symbols.retFromFork) == Found(os[3].point.value)
      ensures ScheduleBody(Install(t, os[..4]), base, symbols.schedule) == Found(os[4].point.value)
      ensures EpilogueSite(Install(t, os[..5]), os[4].point.value) == Found(os[5].point.value)
      ensures symbols.doExit == Some(os[6].point.value)
    {
      hide OthersPlan, Install, ExecveSite, PgfaultSite, TimerSite, TailSite;
      hide ScheduleBody, EpilogueSite, JumpBytes, Disp, Le32;
      PlanAt(t, os, 0);
      PlanAt(t, os, 1);
      PlanAt(t, os, 2);
      PlanAt(t, os, 3);
      PlanAt(t, os, 4);
      PlanAt(t, os, 5);
      PlanAt(t, os, 6);
    }
    // A step that fails for want of its site could not have been taken.
    lemma FailureIsReal(t: seq<byte>, done: seq<Site>, r: Outcome, s: Site)
      requires Valid() && StepFails(t, done, r) && (|done| < 4 || (|done| == 5 && done[4].point == Some(schedule)))
      ensures !StepPlan(t, done, s)
    {
      hide ExecveSite, PgfaultSite, TimerSite, TailSite, EpilogueSite;
    }
    function AgentOf(k: nat): int {
      match k case 0 => agents.execve case 1 => agents.pgfault case 2 => agents.timer case _ => agents.tail
    }
    lemma PlannedCall(t: seq<byte>, os: seq<Site>, k: nat)
      requires Valid() && |t| == image.text.Length && OthersPlan(t, os) && AllFit(t, os) && k < 4 && k < |os|
      ensures os[k].point.Some? && os[k].point.value + 4 <= |t| && os[k] == CallTo(os[k].point.value, AgentOf(k))
    {
      hide OthersPlan, ExecveSite, PgfaultSite, TimerSite, TailSite, Disp, Le32, Install;
      PlanAt(t, os, k);
      assert Fits(t, os[k]);
    }
    // After a complete installation, a hooked call goes to its agent, unless a later patch overlaps it.
    lemma EveryCallRedirected(t: seq<byte>, os: seq<Site>, fs: seq<Site>, k: nat)
      requires Valid() && |t| == image.text.Length && OthersPlan(t, os) && AllFit(t, os) && AllFit(Install(t, os), fs)
      requires k < 4 && k < |os| && P64 - P31 <= AgentOf(k) < P64
      requires Lasts(os, fs, k)
      ensures os[k].point.Some? && os[k].point.value + 4 <= |t|
      ensures var p := os[k].point.value;
        CpuTarget(base + p, U32(Peek(Install(Install(t, os), fs), p, 4))) == AgentOf(k)
    {
      hide OthersPlan, Install, Peek, AllFit, Lasts, CpuTarget, Disp, U32, Le32, CallTo, AgentOf;
      PlannedCall(t, os, k);
      var p := os[k].point.value;
      LastingWindow(t, os, fs, k);
      CallLands(p, AgentOf(k));
    }
    // The eight bytes that put a jump over a function, and where that jump goes.
    function TrampOf(k: nat): int {
      match k
      case 4 => agents.enterTramp
      case 5 => agents.leaveTramp
      case _ => agents.exitTramp
    }
    predicate IsJump(p: nat, hold: seq<byte>, target: int) {
      |hold| == 8 && hold[0] == 0xe9 && CpuTarget(base + p + 1, U32(hold[1..5])) == target
    }
    lemma PlannedJump(t: seq<byte>, os: seq<Site>, k: nat)
      requires Valid() && |t| == image.text.Length && OthersPlan(t, os) && AllFit(t, os) && 4 <= k < OTHERS && k < |os|
      requires jmpEnter[0] == 0xe9 && jmpLeave[0] == 0xe9
      ensures os[k].point.Some? && |os[k].hold| == 8 && os[k].point.value + 8 <= |t|
      ensures os[k].hold[..5] == [0xe9] + Le32(Disp(TrampOf(k), base + os[k].point.value + 1))
    {
      hide OthersPlan, ScheduleBody, EpilogueSite, Disp, Le32, Install;
      PlanAt(t, os, k);
      assert Fits(t, os[k]);
    }
    lemma JumpGoes(p: nat, hold: seq<byte>, target: int)
      requires Valid() && p + 8 <= image.text.Length && P64 - P31 <= target < P64 && |hold| == 8
      requires hold[..5] == [0xe9] + Le32(Disp(target, base + p + 1))
      ensures IsJump(p, hold, target)
    {
      hide Disp, Le32, U32, CpuTarget, Near;
      assert hold[0] == hold[..5][0] && hold[1..5] == hold[..5][1..];
      FieldRoundTrip(Disp(target, base + p + 1));
      TopIsNear(target, base + p + 5);
      JumpLands(target, base + p + 1);
    }
    // ... and __schedule(), its epilogue and do_exit() jump to their trampolines.
    lemma EveryJumpLeads(t: seq<byte>, os: seq<Site>, fs: seq<Site>, k: nat)
      requires Valid() && |t| == image.text.Length && OthersPlan(t, os) && AllFit(t, os) && AllFit(Install(t, os), fs)
      requires jmpEnter[0] == 0xe9 && jmpLeave[0] == 0xe9
      requires 4 <= k < OTHERS && k < |os| && P64 - P31 <= TrampOf(k) < P64
      requires Lasts(os, fs, k)
      ensures os[k].point.Some? && os[k].point.value + 8 <= |t|
      ensures var p := os[k].point.value; IsJump(p, Peek(Install(Install(t, os), fs), p, 8), TrampOf(k))
    {
      hide OthersPlan, Install, Peek, AllFit, Lasts, IsJump, Disp, Le32, TrampOf, Fits;
      PlannedJump(t, os, k);
      LastingWindow(t, os, fs, k);
      JumpGoes(os[k].point.value, os[k].hold, TrampOf(k));
    }
    lemma CallLands(p: nat, agent: int)
      requires Valid() && p + 4 <= image.text.Length && P64 - P31 <= agent < P64
      ensures |CallTo(p, agent).hold| == 4 && CpuTarget(base + p, U32(CallTo(p, agent).hold)) == agent
    {
      FieldRoundTrip(Disp(agent, base + p));
      TopIsNear(agent, base + p + 4);
      JumpLands(agent, base + p);
    }
    // Where the installation stands after the steps in os.
    ghost predicate Standing(t: seq<byte>, os: seq<Site>)
      requires Valid()
      reads this, image.text
    {
      && |os| <= OTHERS && OthersPlan(t, os) && AllFit(t, os)
      && image.text[..] == Install(t, os) && Others()[..|os|] == Held(t, os)
    }
    lemma PlanGrows(t: seq<byte>, os: seq<Site>, q: Site, t': seq<byte>, s: Site)
      requires Valid() && OthersPlan(t, os) && AllFit(t, os)
      requires StepPlan(Install(t, os), os, q) && Exchanged(Install(t, os), t', q, s)
      ensures OthersPlan(t, os + [q]) && AllFit(t, os + [q])
      ensures t' == Install(t, os + [q]) && Held(t, os + [q]) == Held(t, os) + [s]
    {
      InstallOne(t, os, q);
      assert Front(os + [q]) == os && Last(os + [q]) == q;
    }

    // The restore of the site installed last, of those still installed.
    method RestoreTop(s: Site, ghost hs: seq<Site>, ghost k: nat) returns (s': Site)
      requires 0 < k <= |hs| && s == hs[k - 1] && AllFit(image.text[..], hs[..k])
      modifies image, image.text
      ensures AllFit(old(image.text[..]), hs[..k]) && AllFit(image.text[..], hs[..k - 1])
      ensures RemoveLifo(image.text[..], hs[..k - 1]) == RemoveLifo(old(image.text[..]), hs[..k])
    {
      LifoStep(image.text[..], hs, k);
      s' := Restore(s);
    }

    // The labels fork_err (7), exit_err (6) and leave_sched_err (5), falling through.
    method UnwindHooks(k: nat, ghost hs: seq<Site>)
      requires k <= OTHERS && hs == Others() && AllFit(image.text[..], hs[..k])
      modifies this`exit, this`leave, this`enter, image, image.text
      ensures AllFit(old(image.text[..]), hs[..k])
      ensures var m := if k < 4 then k else 4;
        AllFit(image.text[..], hs[..m]) &&
          RemoveLifo(image.text[..], hs[..m]) == RemoveLifo(old(image.text[..]), hs[..k])
    {
      hide RemoveLifo, AllFit;
      if k >= 7 { exit := RestoreTop(exit, hs, 7); }
      if k >= 6 { leave := RestoreTop(leave, hs, 6); }
      if k >= 5 { enter := RestoreTop(enter, hs, 5); }
    }
    // The labels from enter_sched_err (4) down to syscalls_err (0).
    method UnwindCalls(k: nat, ghost hs: seq<Site>)
      requires k <= 4 <= |hs| && hs[..4] == [execve, pgfault, timer, tail] && AllFit(image.text[..], hs[..k])
      modifies this`tail, this`timer, this`pgfault, this`execve, image, image.text
      ensures AllFit(old(image.text[..]), hs[..k])
      ensures image.text[..] == RemoveLifo(old(image.text[..]), hs[..k])
    {
      assert hs[..4][0] == hs[0] && hs[..4][1] == hs[1] && hs[..4][2] == hs[2] && hs[..4][3] == hs[3];
      hide RemoveLifo, AllFit;
      if k >= 4 { tail := RestoreTop(tail, hs, 4); }
      if k >= 3 { timer := RestoreTop(timer, hs, 3); }
      if k >= 2 { pgfault := RestoreTop(pgfault, hs, 2); }
      if k >= 1 { execve := RestoreTop(execve, hs, 1); }
      Bottom(image.text[..], hs);
    }
    // goto the label for k installed sites.
    method UnwindFrom(k: nat)
      requires k <= OTHERS && AllFit(image.text[..], Others()[..k])
      modifies this`execve, this`pgfault, this`timer, this`tail, this`enter, this`leave, this`exit, image, image.text
      ensures AllFit(old(image.text[..]), old(Others())[..k])
      ensures image.text[..] == RemoveLifo(old(image.text[..]), old(Others())[..k])
    {
      ghost var hs := Others();
      UnwindHooks(k, hs);
      UnwindCalls(if k < 4 then k else 4, hs);
    }

    // switch_syscalls and switch_pgfault_handler.
    method InstallFirstCalls() returns (r: Outcome, n: nat, ghost os: seq<Site>)
      requires Valid() && Fresh()
      modifies this`execve, this`pgfault, this`origExecve, this`origPgfault, image, image.text
      ensures |os| == n && Standing(old(image.text[..]), os) && n <= 2 && (r == Done <==> n == 2)
      ensures r != Done ==> StepFails(Install(old(image.text[..]), os), os, r)
    {
      hide ExecveSite, PgfaultSite, CallPlan, Exchanged, OthersPlan, Install, Held, AllFit;
      ghost var t := image.text[..];
      ghost var q;
      n, os := 0, [];
      Nothing(t);
      r, q := SwitchExecve();
      if r != Done { return; }
      PlanGrows(t, os, q, image.text[..], execve);
      n, os := 1, os + [q];
      assert Others()[..1] == [execve];
      r, q := SwitchPgfault();
      if r != Done { return; }
      PlanGrows(t, os, q, image.text[..], pgfault);
      n, os := 2, os + [q];
      assert Others()[..2] == [execve, pgfault];
    }
    // switch_smp_apic_timer_interrupt and switch_schedule_tail; switch_schedule_call, before them, does nothing.
    method InstallLastCalls(ghost t: seq<byte>, ghost first: seq<Site>)
      returns (r: Outcome, n: nat, ghost os: seq<Site>)
      requires Valid() && Standing(t, first) && |first| == 2
      modifies this`timer, this`tail, this`origTimer, this`origTail, image, image.text
      ensures |os| == n && Standing(t, os) && 2 <= n <= 4 && (r == Done <==> n == 4)
      ensures r != Done ==> StepFails(Install(t, os), os, r)
    {
      hide TimerSite, TailSite, CallPlan, Exchanged, OthersPlan, Install, Held, AllFit;
      ghost var q;
      n, os := 2, first;
      r, q := SwitchTimer();
      if r != Done { return; }
      PlanGrows(t, os, q, image.text[..], timer);
      n, os := 3, os + [q];
      assert Others()[..3] == Others()[..2] + [timer];
      r, q := SwitchScheduleTail();
      if r != Done { return; }
      PlanGrows(t, os, q, image.text[..], tail);
      n, os := 4, os + [q];
      assert Others()[..4] == Others()[..3] + [tail];
    }
    // The two hooks in __schedule().
    method InstallScheduleHooks(ghost t: seq<byte>, ghost calls: seq<Site>)
      returns (r: Outcome, n: nat, ghost os: seq<Site>)
      requires Valid() && Standing(t, calls) && |calls| == 4
      modifies this`enter, this`leave, this`schedule, this`scheduleStart, image, image.text, enterTramp
      ensures |os| == n && Standing(t, os) && 4 <= n <= 6 && (r == Done <==> n == 6)
      ensures r != Done ==> StepFails(Install(t, os), os, r)
    {
      hide ScheduleBody, EpilogueSite, SignatureOffset, CopiedTramp, EnterJump, LeaveJump;
      hide Exchanged, OthersPlan, Install, Held, AllFit;
      ghost var q;
      n, os := 4, calls;
      r := SetupEnterSchedule();
      if r != Done { return; }
      q := EnterJump(schedule);
      PlanGrows(t, os, q, image.text[..], enter);
      n, os := 5, os + [q];
      assert Others()[..5] == Others()[..4] + [enter];
      r := SetupLeaveSchedule();
      if r != Done { assert Others()[..5] == Others()[..4] + [enter]; return; }
      EnterJumpAt(schedule);
      q := LeaveJump(EpilogueSite(Install(t, os), schedule).p);
      PlanGrows(t, os, q, image.text[..], leave);
      n, os := 6, os + [q];
      assert Others()[..6] == Others()[..5] + [leave];
    }
    // The hook at the beginning of do_exit().
    method InstallExitHook(ghost t: seq<byte>, ghost done: seq<Site>) returns (r: Outcome, n: nat, ghost os: seq<Site>)
      requires Valid() && Standing(t, done) && |done| == 6
      modifies this`exit, this`exitReenter, image, image.text, exitTramp
      ensures |os| == n && Standing(t, os) && 6 <= n <= 7 && (r == Done <==> n == 7)
      ensures r != Done ==> StepFails(Install(t, os), os, r)
    {
      hide SignatureOffset, CopiedTramp, ExitJump, Exchanged, OthersPlan, Install, Held, AllFit;
      ghost var q;
      n, os := 6, done;
      r, q := SetupEnterExit();
      if r != Done { return; }
      PlanGrows(t, os, q, image.text[..], exit);
      n, os := 7, os + [q];
      assert Others()[..7] == Others()[..6] + [exit];
    }
    lemma EnterJumpAt(p: nat)
      requires Valid()
      ensures EnterJump(p).point == Some(p)
    {
    }

    // Nine steps; a failure unwinds whatever was installed. os and fs are the new values of the
    // exchanges made, fs those of the fork sites.
    method PerformInception() returns (r: Outcome, ghost os: seq<Site>, ghost fs: seq<Site>)
      requires Valid() && Fresh()
      modifies this, image, image.text, enterTramp, exitTramp
      ensures |os| <= OTHERS && AllFit(old(image.text[..]), os) && OthersPlan(old(image.text[..]), os)
      ensures r != Done ==> StepFails(Install(old(image.text[..]), os), os, r)
      ensures fs == if |os| == OTHERS then ForkSteps(Install(old(image.text[..]), os)).1 else []
      ensures r == Done ==> |os| == OTHERS && ForkSteps(Install(old(image.text[..]), os)).0 == Done
      ensures r == Done ==> ForkPlan(Install(old(image.text[..]), os), fs) && Installed(old(image.text[..]), os, fs)
      ensures r == Enosys ==> AllFit(old(image.text[..]), fs) && image.text[..] == Unwound(old(image.text[..]), os, fs)
      ensures r == Enosys && |os| < OTHERS ==> image.text[..] == old(image.text[..])
      ensures r == Oops ==> AllFit(Install(old(image.text[..]), os), fs)
      ensures r == Oops ==> image.text[..] == Install(Install(old(image.text[..]), os), fs)
    {
      hide OthersPlan, Install, Held, RemoveLifo, RemoveFifo, Unwound, ForkPlan, ForkSteps, StepFails;
      ghost var t := image.text[..];
      var n;
      r, n, os := InstallOthers();
      fs := [];
      Nothing(Install(t, os));
      if r == Done {
        r, fs := SwitchDoFork();
        LastStepFails(Install(t, os), os, r);
      }
      if r == Oops || (r == Done && n == OTHERS) { return; }
      UnwoundForks(t, os, fs);
      UnwindFrom(n);
      UnwoundAlone(t, os);
    }
    // The first eight steps.
    method InstallOthers() returns (r: Outcome, n: nat, ghost os: seq<Site>)
      requires Valid() && Fresh()
      modifies this`execve, this`pgfault, this`timer, this`tail, this`enter, this`leave, this`exit,
        this`origExecve, this`origPgfault, this`origTimer, this`origTail,
        this`schedule, this`scheduleStart, this`exitReenter,
        image, image.text, enterTramp, exitTramp
      ensures |os| == n && Standing(old(image.text[..]), os) && (r == Done <==> n == OTHERS)
      ensures r != Done ==> StepFails(Install(old(image.text[..]), os), os, r)
    {
      hide OthersPlan, Install, Held, StepFails, AllFit;
      ghost var t := image.text[..];
      r, n, os := InstallFirstCalls();
      if r == Done {
        r, n, os := InstallLastCalls(t, os);
      }
      if r == Done {
        r, n, os := InstallScheduleHooks(t, os);
      }
      if r == Done {
        r, n, os := InstallExitHook(t, os);
      }
    }
    lemma LastStepFails(t: seq<byte>, os: seq<Site>, r: Outcome)
      requires Valid() && |os| == OTHERS && ForkSteps(t).0 == r
      ensures StepFails(t, os, r)
    {
    }

    // The text and the variables after all nine steps.
    ghost predicate Installed(t: seq<byte>, os: seq<Site>, fs: seq<Site>)
      reads this, image.text
    {
      && AllFit(t, os) && AllFit(Install(t, os), fs)
      && image.text[..] == Install(Install(t, os), fs)
      && Others() == Held(t, os) && Forks() == Held(Install(t, os), fs)
    }

    // remove_inception up to the drain loop.
    method RemoveInception(ghost t: seq<byte>, ghost os: seq<Site>, ghost fs: seq<Site>)
      requires Installed(t, os, fs)
      modifies this, image, image.text
      ensures AllFit(t, os) && AllFit(t, fs) && image.text[..] == Unwound(t, os, fs)
    {
      assert Others()[..OTHERS] == Others();
      RestoreDoFork();
      UnwindFrom(OTHERS);
      UnwoundForks(t, os, fs);
    }

    lemma Nothing(t: seq<byte>)
      requires Valid()
      ensures AllFit(t, []) && OthersPlan(t, []) && Install(t, []) == t && Held(t, []) == []
    {
    }
  }

  lemma UnwoundForks(t: seq<byte>, os: seq<Site>, fs: seq<Site>)
    requires AllFit(t, os) && AllFit(Install(t, os), fs)
    ensures AllFit(t, fs) && AllFit(Install(Install(t, os), fs), Held(Install(t, os), fs))
    ensures var v := RemoveFifo(Install(Install(t, os), fs), Held(Install(t, os), fs));
      AllFit(v, Held(t, os)) && Unwound(t, os, fs) == RemoveLifo(v, Held(t, os))
  {
    assert forall k :: 0 <= k < |fs| ==> Fits(Install(t, os), fs[k]);
    assert forall k :: 0 <= k < |os| ==> Fits(t, Held(t, os)[k]);
  }
  lemma UnwoundAlone(t: seq<byte>, os: seq<Site>)
    requires AllFit(t, os)
    ensures AllFit(Install(t, os), Held(t, os)) && RemoveLifo(Install(t, os), Held(t, os)) == t
    ensures AllFit(t, []) && Unwound(t, os, []) == t
  {
    LifoRestores(t, os);
    DisjointForksUnwind(t, os, []);
  }

  lemma Bottom(t: seq<byte>, hs: seq<Site>)
    ensures AllFit(t, hs[..0]) && RemoveLifo(t, hs[..0]) == t
  {
  }
  lemma LifoStep(t: seq<byte>, hs: seq<Site>, k: nat)
    requires 0 < k <= |hs| && AllFit(t, hs[..k])
    ensures Fits(t, hs[k - 1]) && AllFit(SwapText(t, hs[k - 1]), hs[..k - 1])
    ensures RemoveLifo(t, hs[..k]) == RemoveLifo(SwapText(t, hs[k - 1]), hs[..k - 1])
  {
    assert Last(hs[..k]) == hs[k - 1] && Front(hs[..k]) == hs[..k - 1];
    assert hs[..k][k - 1] == hs[k - 1];
    assert forall i :: 0 <= i < k - 1 ==> hs[..k][i] == hs[..k - 1][i];
  }

  lemma InstallNone(t: seq<byte>)
    ensures AllFit(t, []) && Install(t, []) == t && Held(t, []) == []
  {
  }
  lemma ThreeExchanges(t: seq<byte>, a: Site, b: Site, c: Site)
    requires Fits(t, a) && Fits(t, b) && Fits(t, c)
    ensures AllFit(t, [a, b, c]) && AllFit(t, [a, b]) && AllFit(t, [a]) && AllFit(t, [])
    ensures Install(t, []) == t && Install(t, [a]) == SwapText(t, a)
    ensures Install(t, [a, b]) == SwapText(SwapText(t, a), b)
    ensures Install(t, [a, b, c]) == SwapText(SwapText(SwapText(t, a), b), c)
    ensures Held(t, [a, b, c]) ==
      [SwapHold(t, a), SwapHold(SwapText(t, a), b), SwapHold(SwapText(SwapText(t, a), b), c)]
  {
    hide Install, Held, SwapText, SwapHold;
    InstallNone(t);
    InstallOne(t, [], a);
    InstallOne(t, [a], b);
    InstallOne(t, [a, b], c);
    assert [] + [a] == [a] && [a] + [b] == [a, b] && [a, b] + [c] == [a, b, c];
  }

  lemma {:induction false} PatchFits(t: seq<byte>, base: int, sys: nat, distance: nat, orig: int)
    ensures var r := ForkSearch(t, base, sys, distance, orig);
      r.Patch? ==> sys < r.p && r.p + 4 <= |t| && IsOpcode(t[r.p - 1]) && ForkMatch(t, base, r.p, orig) == Some(true)
    decreases FORK_WINDOW - distance
  {
    hide ForkMatch;
    if distance < FORK_WINDOW {
      var c := ForkCandidate(t, sys, FORK_WINDOW - distance);
      if c.Found? { PatchFits(t, base, sys, distance + (c.p + 1 - sys), orig); }
    }
  }
}
