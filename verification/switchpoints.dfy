/** Finding the places to patch: what each switch_* and setup_* searches for in the kernel text. */
module SwitchPoints {
  import opened Options
  import opened Addresses
  import opened Memory

  datatype Outcome = Done | Enosys | Oops

  // A found index, nothing found, or an access outside the image.
  datatype Located = Found(p: nat) | Missing | Fault

  const CALL: byte := 0xe8
  const JMP: byte := 0xe9
  const SUB_RSP: seq<byte> := [0x48, 0x83, 0xec]
  const EPILOGUE: seq<byte> := [0x5b, 0x41, 0x5c, 0x41, 0x5d, 0x41, 0x5e, 0x41, 0x5f, 0x5d, 0xc3]
  const MAX_OFFSET: nat := 512
  const NUM_OF_NOP: nat := 64
  const SCHEDULE_FUNC_SZ: nat := 4096
  const FORK_WINDOW: nat := 128

  // memmem for one opcode byte.
  function Search(t: seq<byte>, from: nat, len: nat, b: byte): (r: Located)
    ensures r.Found? ==> from <= r.p < from + len <= |t| && t[r.p] == b
  {
    if from + len > |t| then Fault
    else match FindByte(t, from, len, b)
      case None => Missing
      case Some(p) => Found(p)
  }
  // The displacement field behind a one-byte opcode at c.
  function Field(t: seq<byte>, c: Located): (r: Located)
    ensures r.Found? ==> c.Found? && r.p == c.p + 1 && r.p + 4 <= |t|
  {
    if !c.Found? then c else if c.p + 5 <= |t| then Found(c.p + 1) else Fault
  }
  function Target(t: seq<byte>, base: int, p: nat): int
    requires p + 4 <= |t|
  {
    Decode(base + p, U32(t[p..p + 4]))
  }

  // switch_execve: the second call in SyS_execve, provided the first one calls getname.
  function ExecveSite(t: seq<byte>, base: int, entry: Option<nat>, getname: int): Located {
    if entry == None then Missing
    else
      var first := Field(t, Search(t, entry.value, 64, CALL));
      if !first.Found? then first
      else if Target(t, base, first.p) != getname then Missing
      else Field(t, Search(t, first.p + 4, 64, CALL))
  }
  // switch_pgfault_handler: the second call; the searches are not checked, so a miss dereferences NULL.
  function PgfaultSite(t: seq<byte>, entry: Option<nat>): Located {
    if entry == None then Missing
    else
      var first := Search(t, entry.value, MAX_OFFSET, CALL);
      if !first.Found? then Fault
      else
        var second := Field(t, Search(t, first.p + 1, MAX_OFFSET, CALL));
        if second.Found? then second else Fault
  }
  // switch_smp_apic_timer_interrupt: the third call.
  function TimerSite(t: seq<byte>, entry: Option<nat>): Located {
    if entry == None then Missing
    else
      var first := Search(t, entry.value, MAX_OFFSET, CALL);
      if !first.Found? then first
      else
        var second := Search(t, first.p + 1, MAX_OFFSET, CALL);
        if !second.Found? then second
        else Field(t, Search(t, second.p + 1, MAX_OFFSET, CALL))
  }
  // switch_schedule_tail: the first call in ret_from_fork.
  function TailSite(t: seq<byte>, entry: Option<nat>): Located {
    if entry == None then Missing else Field(t, Search(t, entry.value, 64, CALL))
  }

  // ---------- the third call ----------

  function Calls(t: seq<byte>, lo: nat, hi: nat): nat
    requires hi <= |t|
    decreases hi - lo
  {
    if lo >= hi then 0 else (if t[lo] == CALL then 1 else 0) + Calls(t, lo + 1, hi)
  }
  lemma {:induction false} NoCalls(t: seq<byte>, lo: nat, hi: nat)
    requires hi <= |t| && forall i :: lo <= i < hi ==> t[i] != CALL
    ensures Calls(t, lo, hi) == 0
    decreases hi - lo
  {
    if lo < hi {
      NoCalls(t, lo + 1, hi);
    }
  }
  lemma {:induction false} CallsSplit(t: seq<byte>, lo: nat, mid: nat, hi: nat)
    requires lo <= mid <= hi <= |t|
    ensures Calls(t, lo, hi) == Calls(t, lo, mid) + Calls(t, mid, hi)
    decreases mid - lo
  {
    if lo < mid { CallsSplit(t, lo + 1, mid, hi); }
  }
  // From one hit to just past the next there is exactly one call opcode.
  lemma HitIsNext(t: seq<byte>, from: nat, len: nat, p: nat)
    requires Search(t, from, len, CALL) == Found(p)
    ensures from <= p < |t| && t[p] == CALL && Calls(t, from, p) == 0 && Calls(t, from, p + 1) == 1
  {
    NoCalls(t, from, p);
    CallsSplit(t, from, p, p + 1);
  }
  lemma AfterTwo(t: seq<byte>, lo: nat, p1: nat, p2: nat, p3: nat)
    requires lo <= p1 < p2 < p3 <= |t|
    ensures Calls(t, lo, p3) == Calls(t, lo, p1 + 1) + Calls(t, p1 + 1, p2 + 1) + Calls(t, p2 + 1, p3)
  {
    CallsSplit(t, lo, p1 + 1, p3);
    CallsSplit(t, p1 + 1, p2 + 1, p3);
  }

  // The timer's switch point is the field of the third 0xe8 byte at or after the handler's entry.
  lemma TimerSiteIsThirdCall(t: seq<byte>, entry: nat)
    requires TimerSite(t, Some(entry)).Found?
    ensures var q := TimerSite(t, Some(entry)).p; entry < q <= |t| && t[q - 1] == CALL && Calls(t, entry, q - 1) == 2
  {
    hide Search, Field, TimerSite, Calls;
    var p1, p2, p3 := TimerChain(t, entry);
    HitIsNext(t, entry, MAX_OFFSET, p1);
    HitIsNext(t, p1 + 1, MAX_OFFSET, p2);
    HitIsNext(t, p2 + 1, MAX_OFFSET, p3);
    AfterTwo(t, entry, p1, p2, p3);
  }
  lemma TimerChain(t: seq<byte>, entry: nat) returns (p1: nat, p2: nat, p3: nat)
    requires TimerSite(t, Some(entry)).Found?
    ensures Search(t, entry, MAX_OFFSET, CALL) == Found(p1) && Search(t, p1 + 1, MAX_OFFSET, CALL) == Found(p2)
    ensures Search(t, p2 + 1, MAX_OFFSET, CALL) == Found(p3) && TimerSite(t, Some(entry)) == Found(p3 + 1)
  {
    p1 := Search(t, entry, MAX_OFFSET, CALL).p;
    p2 := Search(t, p1 + 1, MAX_OFFSET, CALL).p;
    p3 := Search(t, p2 + 1, MAX_OFFSET, CALL).p;
  }

  // Conversely, the third call is found exactly when each gap fits its 512-byte window.
  lemma ThirdCallIsFound(t: seq<byte>, entry: nat, p1: nat, p2: nat, p3: nat)
    requires entry <= p1 < p2 < p3 && p3 + 5 <= |t| && p2 + 1 + MAX_OFFSET <= |t|
    requires t[p1] == CALL && t[p2] == CALL && t[p3] == CALL && Calls(t, entry, p3) == 2
    ensures TimerSite(t, Some(entry)) == Found(p3 + 1) <==>
      p1 < entry + MAX_OFFSET && p2 < p1 + 1 + MAX_OFFSET && p3 < p2 + 1 + MAX_OFFSET
  {
    Gaps(t, entry, p1, p2, p3);
    NextHit(t, entry, p1);
    NextHit(t, p1 + 1, p2);
    NextHit(t, p2 + 1, p3);
  }
  lemma Gaps(t: seq<byte>, entry: nat, p1: nat, p2: nat, p3: nat)
    requires entry <= p1 < p2 < p3 < |t| && t[p1] == CALL && t[p2] == CALL && Calls(t, entry, p3) == 2
    ensures Calls(t, entry, p1) == 0 && Calls(t, p1 + 1, p2) == 0 && Calls(t, p2 + 1, p3) == 0
  {
    AfterTwo(t, entry, p1, p2, p3);
    CallsSplit(t, entry, p1, p1 + 1);
    CallsSplit(t, p1 + 1, p2, p2 + 1);
  }
  lemma NextHit(t: seq<byte>, from: nat, p: nat)
    requires from <= p < |t| && t[p] == CALL && Calls(t, from, p) == 0 && from + MAX_OFFSET <= |t|
    ensures Search(t, from, MAX_OFFSET, CALL) == if p < from + MAX_OFFSET then Found(p) else Missing
  {
    forall i | from <= i < p ensures t[i] != CALL { CallsSplit(t, from, i, p); }
  }

  // ---------- which call each site is ----------

  // The first 0xe8 byte at or after `from`, found within w bytes of the image; none there; and no
  // third possibility but that the window leaves the image.
  predicate FirstCall(t: seq<byte>, from: nat, w: nat, p: int) {
    from <= p < from + w <= |t| && t[p] == 0xe8 && Calls(t, from, p) == 0
  }
  predicate NoCall(t: seq<byte>, from: nat, w: nat) { from + w <= |t| && Calls(t, from, from + w) == 0 }

  lemma SearchIsFirst(t: seq<byte>, from: nat, w: nat, p: int)
    ensures FirstCall(t, from, w, p) <==> p >= 0 && Search(t, from, w, CALL) == Found(p)
    ensures NoCall(t, from, w) <==> Search(t, from, w, CALL) == Missing
    ensures from + w > |t| <==> Search(t, from, w, CALL) == Fault
  {
    if from + w <= |t| {
      var r := Search(t, from, w, CALL);
      if r.Found? {
        NoCalls(t, from, r.p);
        CallsSplit(t, from, r.p, from + w);
      } else {
        NoCalls(t, from, from + w);
      }
      if FirstCall(t, from, w, p) {
        CallsSplit(t, from, p, from + w);
        if r.Found? && r.p < p { CallsSplit(t, from, r.p, p); }
      }
    }
  }

  // switch_schedule_tail: the first call within 64 bytes.
  lemma TailSiteIff(t: seq<byte>, entry: nat, q: nat)
    ensures TailSite(t, Some(entry)) == Found(q) <==> q > 0 && FirstCall(t, entry, 64, q - 1) && q + 4 <= |t|
    ensures TailSite(t, Some(entry)) == Missing <==> NoCall(t, entry, 64)
    ensures TailSite(t, None) == Missing
  {
    SearchIsFirst(t, entry, 64, q - 1);
    hide Search;
  }

  // switch_pgfault_handler: behind the first call at p, within 512 bytes, the next one, within 512 more.
  lemma PgfaultSiteIff(t: seq<byte>, entry: nat, p: nat, q: nat)
    ensures FirstCall(t, entry, 512, p) ==>
      (PgfaultSite(t, Some(entry)) == Found(q) <==> q > 0 && FirstCall(t, p + 1, 512, q - 1) && q + 4 <= |t|)
    ensures FirstCall(t, entry, 512, p) && !Reached(t, p + 1, 512) ==> PgfaultSite(t, Some(entry)) == Fault
    ensures !Reached(t, entry, 512) ==> PgfaultSite(t, Some(entry)) == Fault
    ensures PgfaultSite(t, Some(entry)) != Missing && PgfaultSite(t, None) == Missing
    ensures FirstCall(t, entry, 512, p) && q > 0 && FirstCall(t, p + 1, 512, q - 1) ==> Calls(t, entry, q - 1) == 1
  {
    SearchIsFirst(t, entry, 512, p);
    SearchIsFirst(t, p + 1, 512, q - 1);
    if FirstCall(t, entry, 512, p) && q > 0 && FirstCall(t, p + 1, 512, q - 1) {
      CallsSplit(t, entry, p, q - 1);
      CallsSplit(t, p, p + 1, q - 1);
    }
    hide Search;
  }
  // The window lies inside the image and holds a call.
  predicate Reached(t: seq<byte>, from: nat, w: nat) { from + w <= |t| && !NoCall(t, from, w) }

  // switch_execve: if the first call, at p within 64 bytes, calls getname, the next one within 64 bytes
  // behind it; without either call, or if the first one calls something else, none.
  lemma ExecveSiteIff(t: seq<byte>, base: int, entry: nat, getname: int, p: nat, q: nat)
    ensures FirstCall(t, entry, 64, p) ==>
      (ExecveSite(t, base, Some(entry), getname) == Found(q) <==>
         p + 5 <= |t| && Target(t, base, p + 1) == getname && q > 0 && FirstCall(t, p + 5, 64, q - 1) && q + 4 <= |t|)
    ensures FirstCall(t, entry, 64, p) ==>
      (ExecveSite(t, base, Some(entry), getname) == Missing <==>
         p + 5 <= |t| && (Target(t, base, p + 1) != getname || NoCall(t, p + 5, 64)))
    ensures NoCall(t, entry, 64) ==> ExecveSite(t, base, Some(entry), getname) == Missing
    ensures entry + 64 > |t| ==> ExecveSite(t, base, Some(entry), getname) == Fault
    ensures ExecveSite(t, base, None, getname) == Missing
  {
    SearchIsFirst(t, entry, 64, p);
    SearchIsFirst(t, p + 5, 64, q - 1);
    hide Search, Target;
  }

  // switch_smp_apic_timer_interrupt: the third call, each within 512 bytes of the one before.
  lemma TimerSiteIff(t: seq<byte>, entry: nat, p1: nat, p2: nat, q: nat)
    ensures FirstCall(t, entry, 512, p1) && FirstCall(t, p1 + 1, 512, p2) ==>
      (TimerSite(t, Some(entry)) == Found(q) <==> q > 0 && FirstCall(t, p2 + 1, 512, q - 1) && q + 4 <= |t|)
    ensures FirstCall(t, entry, 512, p1) && FirstCall(t, p1 + 1, 512, p2) ==>
      (TimerSite(t, Some(entry)) == Missing <==> NoCall(t, p2 + 1, 512))
    ensures FirstCall(t, entry, 512, p1) && !Reached(t, p1 + 1, 512) ==>
      TimerSite(t, Some(entry)) == if NoCall(t, p1 + 1, 512) then Missing else Fault
    ensures !Reached(t, entry, 512) ==> TimerSite(t, Some(entry)) == if NoCall(t, entry, 512) then Missing else Fault
    ensures TimerSite(t, None) == Missing
  {
    SearchIsFirst(t, entry, 512, p1);
    SearchIsFirst(t, p1 + 1, 512, p2);
    SearchIsFirst(t, p2 + 1, 512, q - 1);
    hide Search;
  }

  // ---------- the fork sites ----------

  // Does the field at p lead to _do_fork? Without its address, the target's first bytes decide.
  function ForkMatch(t: seq<byte>, base: int, p: nat, orig: int): Option<bool>
    requires p + 4 <= |t|
  {
    var a := Target(t, base, p);
    if a == orig then Some(true)
    else if orig != 0 then Some(false)
    else if a < base || a >= base + |t| then None
    else if t[a - base] == 0x55 then Some(true)
    else if t[a - base] != 0x41 then Some(false)
    else if a + 1 < base + |t| then Some(t[a - base + 1] == 0x57)
    else None
  }

  // Patch the field, leave the loop unpatched but reporting success, fail, or fault.
  datatype ForkResult = Patch(p: nat) | Silent | NotFound | Crash

  function ForkCandidate(t: seq<byte>, sys: nat, window: nat): (r: Located)
    ensures r.Found? ==> sys <= r.p < sys + window
  {
    var jmp := Search(t, sys, window, JMP);
    if jmp == Missing then Search(t, sys, window, CALL) else jmp
  }

  // __switch_do_fork: every round searches from the start of the function, in a smaller window.
  function ForkSearch(t: seq<byte>, base: int, sys: nat, distance: nat, orig: int): ForkResult
    decreases FORK_WINDOW - distance, sys
  {
    if distance >= FORK_WINDOW then Silent
    else
      var c := ForkCandidate(t, sys, FORK_WINDOW - distance);
      if c == Missing then NotFound
      else if c == Fault || c.p + 5 > |t| then Crash
      else match ForkMatch(t, base, c.p + 1, orig)
        case None => Crash
        case Some(hit) => if hit then Patch(c.p + 1) else ForkSearch(t, base, sys, distance + (c.p + 1 - sys), orig)
  }

  // The offset of the first opcode, or the window size when there is none.
  function First(t: seq<byte>, sys: nat, b: byte): (k: nat)
    requires sys + FORK_WINDOW <= |t|
    ensures k <= FORK_WINDOW
  {
    match FindByte(t, sys, FORK_WINDOW, b)
    case None => FORK_WINDOW
    case Some(p) => p - sys
  }

  lemma FindInWindow(t: seq<byte>, sys: nat, w: nat, b: byte)
    requires sys + FORK_WINDOW <= |t| && w <= FORK_WINDOW
    ensures Search(t, sys, w, b) == if First(t, sys, b) < w then Found(sys + First(t, sys, b)) else Missing
  {
  }

  // What the loop sees behind the opcode at offset k: nothing if that lies outside the image.
  function Look(t: seq<byte>, base: int, sys: nat, k: nat, orig: int): Option<bool> {
    if sys + k + 5 <= |t| then ForkMatch(t, base, sys + k + 1, orig) else None
  }

  // One round as a matter of offsets: the first jump at j, the first call at c, and what is seen there.
  function Rounds(w: int, sys: nat, j: nat, c: nat, jump: Option<bool>, call: Option<bool>): ForkResult
    decreases w, j
  {
    if w <= 0 then Silent
    else if j < w then
      if jump == None then Crash
      else if jump.value then Patch(sys + j + 1) else Rounds(w - (j + 1), sys, j, c, jump, call)
    else if c < w then
      if call == None then Crash
      else if call.value then Patch(sys + c + 1) else Rounds(w - (c + 1), sys, j, c, jump, call)
    else NotFound
  }
  lemma CandidateInWindow(t: seq<byte>, sys: nat, w: nat)
    requires sys + FORK_WINDOW <= |t| && w <= FORK_WINDOW
    ensures var j, c := First(t, sys, JMP), First(t, sys, CALL);
      ForkCandidate(t, sys, w) == if j < w then Found(sys + j) else if c < w then Found(sys + c) else Missing
  {
    FindInWindow(t, sys, w, JMP);
    FindInWindow(t, sys, w, CALL);
  }
  lemma SearchRound(t: seq<byte>, base: int, sys: nat, distance: nat, orig: int, k: nat)
    requires sys + FORK_WINDOW <= |t| && distance < FORK_WINDOW && k < FORK_WINDOW
    requires ForkCandidate(t, sys, FORK_WINDOW - distance) == Found(sys + k)
    ensures ForkSearch(t, base, sys, distance, orig) ==
      match Look(t, base, sys, k, orig)
      case None => Crash
      case Some(hit) => if hit then Patch(sys + k + 1) else ForkSearch(t, base, sys, distance + k + 1, orig)
  {
    hide ForkMatch, ForkCandidate;
  }
  lemma {:induction false} SearchIsRounds(t: seq<byte>, base: int, sys: nat, distance: nat, orig: int, j: nat, c: nat)
    requires sys + FORK_WINDOW <= |t| && j == First(t, sys, JMP) && c == First(t, sys, CALL)
    ensures ForkSearch(t, base, sys, distance, orig) ==
      Rounds(FORK_WINDOW - distance, sys, j, c, Look(t, base, sys, j, orig), Look(t, base, sys, c, orig))
    decreases FORK_WINDOW - distance
  {
    hide Look, ForkCandidate, First;
    if distance < FORK_WINDOW {
      var w := FORK_WINDOW - distance;
      CandidateInWindow(t, sys, w);
      if j < w {
        SearchRound(t, base, sys, distance, orig, j);
        if Look(t, base, sys, j, orig) == Some(false) { SearchIsRounds(t, base, sys, distance + j + 1, orig, j, c); }
      } else if c < w {
        SearchRound(t, base, sys, distance, orig, c);
        if Look(t, base, sys, c, orig) == Some(false) { SearchIsRounds(t, base, sys, distance + c + 1, orig, j, c); }
      }
    }
  }
  // What repeated subtraction of k + 1 leaves: the remainder.
  function Rest(w: nat, k: nat): (r: nat)
    ensures r <= k && r <= w
    decreases w, k
  {
    if w <= k then w else Rest(w - (k + 1), k)
  }
  lemma {:induction false} RestIsModulo(w: nat, k: nat)
    ensures Rest(w, k) == w % (k + 1)
    decreases w
  {
    if w > k {
      RestIsModulo(w - (k + 1), k);
      var q := (w - (k + 1)) / (k + 1);
      assert w == (q + 1) * (k + 1) + Rest(w, k);
      ModuloUnique(w, k + 1, q + 1, Rest(w, k));
    } else {
      ModuloUnique(w, k + 1, 0, w);
    }
  }
  lemma ModuloUnique(w: nat, m: int, q: nat, r: nat)
    requires m > 0 && r < m && w == q * m + r
    ensures w % m == r
  {
    var d := w / m - q;
    assert d * m == r - w % m;
    assert d >= 1 ==> d * m >= m;
    assert d <= -1 ==> d * m <= -m;
  }
  // While the same candidate is found and does not match, the window shrinks by the same amount.
  lemma {:induction false} RoundsRest(w: nat, sys: nat, j: nat, c: nat, jump: Option<bool>, call: Option<bool>)
    ensures jump == Some(false) ==> Rounds(w, sys, j, c, jump, call) == Rounds(Rest(w, j), sys, j, c, jump, call)
    ensures w <= j && call == Some(false) ==>
      Rounds(w, sys, j, c, jump, call) == Rounds(Rest(w, c), sys, j, c, jump, call)
    decreases w
  {
    if w > j { RoundsRest(w - (j + 1), sys, j, c, jump, call); }
    else if w > c { RoundsRest(w - (c + 1), sys, j, c, jump, call); }
  }

  // What is left of the window when the loop gets to the calls: all of it without a jump, else what the
  // jump's offset leaves over.
  function CallWindow(j: nat): nat { if j < 128 then 128 % (j + 1) else 128 }

  function RoundsOutcome(sys: nat, j: nat, c: nat, jump: Option<bool>, call: Option<bool>): ForkResult {
    var w := CallWindow(j);
    if j < 128 && jump == None then Crash
    else if j < 128 && jump.value then Patch(sys + j + 1)
    else if w == 0 then Silent
    else if c >= w then NotFound
    else if call == None then Crash
    else if call.value then Patch(sys + c + 1)
    else if w % (c + 1) == 0 then Silent
    else NotFound
  }
  lemma RoundsClosedForm(sys: nat, j: nat, c: nat, jump: Option<bool>, call: Option<bool>)
    requires j <= FORK_WINDOW && c <= FORK_WINDOW
    ensures Rounds(FORK_WINDOW, sys, j, c, jump, call) == RoundsOutcome(sys, j, c, jump, call)
  {
    if j < FORK_WINDOW {
      RestIsModulo(FORK_WINDOW, j);
      RoundsRest(FORK_WINDOW, sys, j, c, jump, call);
    }
    var w := if j < FORK_WINDOW then Rest(FORK_WINDOW, j) else FORK_WINDOW;
    RestIsModulo(w, c);
    RoundsRest(w, sys, j, c, jump, call);
  }

  function ForkOutcome(t: seq<byte>, base: int, sys: nat, orig: int): ForkResult {
    if sys + 128 > |t| then Crash
    else
      var j, c := First(t, sys, JMP), First(t, sys, CALL);
      RoundsOutcome(sys, j, c, Look(t, base, sys, j, orig), Look(t, base, sys, c, orig))
  }
  // The whole search in closed form: only the first jump, then the first call in what remains of the
  // window modulo the jump's offset, are ever looked at.
  lemma ForkSearchClosedForm(t: seq<byte>, base: int, sys: nat, orig: int)
    ensures ForkSearch(t, base, sys, 0, orig) == ForkOutcome(t, base, sys, orig)
  {
    if sys + FORK_WINDOW <= |t| {
      hide First, Look, ForkSearch, Rounds, RoundsOutcome;
      var j, c := First(t, sys, JMP), First(t, sys, CALL);
      SearchIsRounds(t, base, sys, 0, orig, j, c);
      RoundsClosedForm(sys, j, c, Look(t, base, sys, j, orig), Look(t, base, sys, c, orig));
    }
  }

  // The call or jump at x leads to _do_fork: to its address, or, if that is not known, to a function that
  // begins with "push %rbp" or "push %r15".
  predicate LeadsToFork(t: seq<byte>, base: int, x: nat, orig: int) {
    x + 5 <= |t| &&
    var g := Target(t, base, x + 1) - base;
    if orig != 0 then g == orig - base
    else 0 <= g < |t| && (t[g] == 0x55 || (t[g] == 0x41 && g + 1 < |t| && t[g + 1] == 0x57))
  }
  // Looking at it leaves the image: its field does, or, without the address, the bytes it leads to do.
  predicate LooksOutside(t: seq<byte>, base: int, x: nat, orig: int) {
    x + 5 > |t| ||
    var g := Target(t, base, x + 1) - base;
    orig == 0 && (g < 0 || g >= |t| || (t[g] == 0x41 && g + 1 == |t|))
  }
  lemma LookMeans(t: seq<byte>, base: int, sys: nat, k: nat, orig: int)
    ensures Look(t, base, sys, k, orig) == Some(true) <==> LeadsToFork(t, base, sys + k, orig)
    ensures Look(t, base, sys, k, orig) == None <==> LooksOutside(t, base, sys + k, orig)
  {
  }

  // A site is patched exactly if it leads to _do_fork and is the function's first jump opcode, or its
  // first call opcode in the window that a first jump elsewhere leaves over.
  lemma ForkPatchesIff(t: seq<byte>, base: int, sys: nat, orig: int, p: nat)
    requires sys + 128 <= |t|
    ensures var j, c := First(t, sys, 0xe9), First(t, sys, 0xe8);
      ForkSearch(t, base, sys, 0, orig) == Patch(p) <==>
        || (j < 128 && p == sys + j + 1 && LeadsToFork(t, base, sys + j, orig))
        || (c < CallWindow(j) && p == sys + c + 1 && LeadsToFork(t, base, sys + c, orig)
            && GoesPast(t, base, sys, j, orig))
  {
    hide First, Look, ForkSearch, LeadsToFork, LooksOutside;
    ForkSearchClosedForm(t, base, sys, orig);
    LookMeans(t, base, sys, First(t, sys, JMP), orig);
    LookMeans(t, base, sys, First(t, sys, CALL), orig);
  }
  // There is no jump, or it can be looked at and leads elsewhere.
  predicate GoesPast(t: seq<byte>, base: int, sys: nat, j: nat, orig: int) {
    j < 128 ==> !LeadsToFork(t, base, sys + j, orig) && !LooksOutside(t, base, sys + j, orig)
  }
  // The search leaves the image exactly if its window does, or one of the two sites it looks at.
  lemma ForkCrashesIff(t: seq<byte>, base: int, sys: nat, orig: int)
    ensures ForkSearch(t, base, sys, 0, orig) == Crash <==>
      || sys + 128 > |t|
      || (var j, c := First(t, sys, 0xe9), First(t, sys, 0xe8);
          || (j < 128 && LooksOutside(t, base, sys + j, orig))
          || (c < CallWindow(j) && LooksOutside(t, base, sys + c, orig) && GoesPast(t, base, sys, j, orig)))
  {
    hide First, Look, ForkSearch, LeadsToFork, LooksOutside;
    ForkSearchClosedForm(t, base, sys, orig);
    if sys + 128 <= |t| {
      LookMeans(t, base, sys, First(t, sys, JMP), orig);
      LookMeans(t, base, sys, First(t, sys, CALL), orig);
    }
  }

  // Once redirected to an agent other than _do_fork, a site is not taken for an original one again.
  lemma PatchedSiteNotTaken(t: seq<byte>, base: int, p: nat, agent: int, orig: int)
    requires p + 4 <= |t| && 0 <= base + p < P64 && HIGH <= agent < P64 && orig != 0 && agent != orig
    ensures ForkMatch(Poke(t, p, Le32(Disp(agent, base + p))), base, p, orig) == Some(false)
  {
    DecodeOfDisp(agent, base + p);
    FieldRoundTrip(Disp(agent, base + p));
  }

  // Rewriting a field redirects the CPU to the agent, and what it called before is what was decoded.
  lemma Redirects(t: seq<byte>, base: int, p: nat, agent: int)
    requires p + 4 <= |t| && P64 - P31 <= base && base + |t| <= P64 && P64 - P31 <= agent < P64
    ensures var t' := Poke(t, p, Le32(Disp(agent, base + p)));
      && CpuTarget(base + p, U32(t'[p..p + 4])) == agent && Target(t', base, p) == agent
      && (CpuTarget(base + p, U32(t[p..p + 4])) >= HIGH <==>
           Target(t, base, p) == CpuTarget(base + p, U32(t[p..p + 4])))
  {
    TopIsNear(agent, base + p + 4);
    JumpLands(agent, base + p);
    FieldRoundTrip(Disp(agent, base + p));
    DecodeExact(base + p, U32(t[p..p + 4]));
    DecodeOfDisp(agent, base + p);
  }
}
