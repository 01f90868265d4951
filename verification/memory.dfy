/**
 * Kernel text as a byte array, byte search in it, and the exchange of a patch value with it.
 */
module Memory {
  import opened Options
  import opened Addresses

  // ---------- search ----------

  predicate Occurs(t: seq<byte>, i: int, needle: seq<byte>) {
    0 <= i && i + |needle| <= |t| && t[i..i + |needle|] == needle
  }

  // The least index in the haystack t[from..from + len] at which the needle occurs.
  function Find(t: seq<byte>, from: nat, len: nat, needle: seq<byte>): (r: Option<nat>)
    requires from + len <= |t|
    ensures r.Some? ==> from <= r.value && r.value + |needle| <= from + len
    decreases len, from
  {
    if |needle| > len then None
    else if Occurs(t, from, needle) then Some(from)
    else if len == 0 then None
    else Find(t, from + 1, len - 1, needle)
  }

  lemma {:induction false} FindIsLeast(t: seq<byte>, from: nat, len: nat, needle: seq<byte>)
    requires from + len <= |t|
    ensures var r := Find(t, from, len, needle);
      && (r.Some? ==> Occurs(t, r.value, needle) && forall i :: from <= i < r.value ==> !Occurs(t, i, needle))
      && (r == None <==> forall i :: from <= i <= from + len - |needle| ==> !Occurs(t, i, needle))
    decreases len
  {
    if |needle| <= len && !Occurs(t, from, needle) && len > 0 { FindIsLeast(t, from + 1, len - 1, needle); }
  }

  // memmem, as a loop over a moving pointer.
  method MemMem(text: array<byte>, haystack: nat, len: nat, needle: seq<byte>) returns (r: Option<nat>)
    requires haystack + len <= text.Length
    ensures r == Find(text[..], haystack, len, needle)
    ensures r.Some? ==> haystack <= r.value <= haystack + len - |needle| && Occurs(text[..], r.value, needle)
    ensures r.Some? ==> forall i :: haystack <= i < r.value ==> !Occurs(text[..], i, needle)
    ensures r == None <==> forall i :: haystack <= i <= haystack + len - |needle| ==> !Occurs(text[..], i, needle)
  {
    hide Find;
    FindIsLeast(text[..], haystack, len, needle);
    var lastPossible := haystack + len - |needle|;
    if |needle| == 0 {
      assert Occurs(text[..], haystack, needle);
      return Some(haystack);
    }
    if len < |needle| {
      return None;
    }
    var begin := haystack;
    while begin <= lastPossible
      invariant haystack <= begin <= lastPossible + 1
      invariant forall i :: haystack <= i < begin ==> !Occurs(text[..], i, needle)
    {
      if text[begin] == needle[0] && text[begin + 1..begin + |needle|] == needle[1..] {
        assert text[..][begin..begin + |needle|] == [text[begin]] + text[begin + 1..begin + |needle|];
        assert Occurs(text[..], begin, needle);
        return Some(begin);
      }
      assert text[..][begin..begin + |needle|][1..] == text[begin + 1..begin + |needle|];
      begin := begin + 1;
    }
    return None;
  }

  // The one-byte search, without slices.
  function FindByte(t: seq<byte>, from: nat, len: nat, b: byte): (r: Option<nat>)
    requires from + len <= |t|
    ensures r.Some? ==> from <= r.value < from + len && t[r.value] == b
    ensures r.Some? ==> forall i :: from <= i < r.value ==> t[i] != b
    ensures r == None ==> forall i :: from <= i < from + len ==> t[i] != b
    decreases len, from
  {
    if len == 0 then None else if t[from] == b then Some(from) else FindByte(t, from + 1, len - 1, b)
  }
  lemma {:induction false} FindOneByte(t: seq<byte>, from: nat, len: nat, b: byte)
    requires from + len <= |t|
    ensures Find(t, from, len, [b]) == FindByte(t, from, len, b)
    decreases len
  {
    if len > 0 {
      assert t[from..from + 1] == [t[from]];
      FindOneByte(t, from + 1, len - 1, b);
    }
  }

  // ---------- the exchange ----------

  function Peek(t: seq<byte>, p: nat, n: nat): (v: seq<byte>)
    requires p + n <= |t|
    ensures |v| == n
  {
    t[p..p + n]
  }
  function Poke(t: seq<byte>, p: nat, v: seq<byte>): (r: seq<byte>)
    requires p + |v| <= |t|
    ensures |r| == |t| && Peek(r, p, |v|) == v
    ensures forall x :: 0 <= x < |t| && !(p <= x < p + |v|) ==> r[x] == t[x]
    ensures forall x :: p <= x < p + |v| ==> r[x] == v[x - p]
  {
    t[..p] + v + t[p + |v|..]
  }

  // A switch point and the variable exchanged with it; None is the NULL pointer of a site never found.
  datatype Site = Site(point: Option<nat>, hold: seq<byte>)

  predicate Fits(t: seq<byte>, s: Site) { s.point.Some? ==> s.point.value + |s.hold| <= |t| }

  // xchg: the field takes what the variable held ...
  function SwapText(t: seq<byte>, s: Site): (r: seq<byte>)
    requires Fits(t, s)
    ensures |r| == |t|
  {
    if s.point == None then t else Poke(t, s.point.value, s.hold)
  }
  // ... and the variable what was there.
  function SwapHold(t: seq<byte>, s: Site): (r: Site)
    requires Fits(t, s)
    ensures r.point == s.point && |r.hold| == |s.hold|
  {
    if s.point == None then s else s.(hold := Peek(t, s.point.value, |s.hold|))
  }

  // Exchanging twice changes nothing.
  lemma SwapTwice(t: seq<byte>, s: Site)
    requires Fits(t, s)
    ensures SwapText(SwapText(t, s), SwapHold(t, s)) == t
    ensures SwapHold(SwapText(t, s), SwapHold(t, s)) == s
  {
    if s.point.Some? {
      var p, n := s.point.value, |s.hold|;
      assert t == t[..p] + t[p..p + n] + t[p + n..];
    }
  }

  /** Kernel text behind the write-protect bit of CR0. */
  class Image {
    const text: array<byte>
    var writeProtect: bool

    constructor (text: array<byte>)
      ensures this.text == text && writeProtect
    {
      this.text := text;
      writeProtect := true;
    }

    method ChangePrivilege(readOnly: bool)
      modifies this
      ensures writeProtect == readOnly
    {
      writeProtect := readOnly;
    }

    method Store(a: nat, v: byte)
      requires a < text.Length && !writeProtect
      modifies text
      ensures text[..] == old(text[..])[a := v]
    {
      text[a] := v;
    }

    // __ya_xchgl and __ya_xchgq: four or eight bytes, with the write protection lifted meanwhile.
    method Xchg(s: Site) returns (s': Site)
      requires Fits(text[..], s) && s.point.Some?
      modifies this, text
      ensures text[..] == SwapText(old(text[..]), s) && s' == SwapHold(old(text[..]), s)
      ensures writeProtect
    {
      var p := s.point.value;
      s' := s.(hold := text[p..p + |s.hold|]);
      ChangePrivilege(false);
      var i := 0;
      while i < |s.hold|
        invariant 0 <= i <= |s.hold| && !writeProtect
        invariant text[..] == Poke(old(text[..]), p, s.hold[..i])
      {
        Store(p + i, s.hold[i]);
        i := i + 1;
      }
      assert s.hold[..i] == s.hold;
      ChangePrivilege(true);
    }
  }

  // ---------- many exchanges ----------

  ghost predicate AllFit(t: seq<byte>, ps: seq<Site>) { forall k :: 0 <= k < |ps| ==> Fits(t, ps[k]) }

  function Front(ps: seq<Site>): (r: seq<Site>)
    requires ps != []
    ensures |r| == |ps| - 1
  {
    ps[..|ps| - 1]
  }
  function Last(ps: seq<Site>): Site
    requires ps != []
  {
    ps[|ps| - 1]
  }

  function Install(t: seq<byte>, ps: seq<Site>): (r: seq<byte>)
    requires AllFit(t, ps)
    ensures |r| == |t|
    decreases |ps|
  {
    if ps == [] then t else assert Fits(t, Last(ps)); SwapText(Install(t, Front(ps)), Last(ps))
  }
  // What the variables hold after all sites were exchanged in order.
  function Held(t: seq<byte>, ps: seq<Site>): (hs: seq<Site>)
    requires AllFit(t, ps)
    ensures |hs| == |ps|
    ensures AllFit(t, hs) && forall k :: 0 <= k < |hs| ==> hs[k].point == ps[k].point && |hs[k].hold| == |ps[k].hold|
    decreases |ps|
  {
    if ps == [] then [] else assert Fits(t, Last(ps)); Held(t, Front(ps)) + [SwapHold(Install(t, Front(ps)), Last(ps))]
  }
  function RemoveLifo(t: seq<byte>, hs: seq<Site>): (r: seq<byte>)
    requires AllFit(t, hs)
    ensures |r| == |t|
    decreases |hs|
  {
    if hs == [] then t else assert Fits(t, Last(hs)); RemoveLifo(SwapText(t, Last(hs)), Front(hs))
  }
  // Removing in the order of installation is installing what the variables hold.
  function RemoveFifo(t: seq<byte>, hs: seq<Site>): (r: seq<byte>)
    requires AllFit(t, hs)
    ensures |r| == |t|
  {
    Install(t, hs)
  }

  lemma InstallOne(t: seq<byte>, a: seq<Site>, s: Site)
    requires AllFit(t, a) && Fits(t, s)
    ensures AllFit(t, a + [s])
    ensures Install(t, a + [s]) == SwapText(Install(t, a), s)
    ensures Held(t, a + [s]) == Held(t, a) + [SwapHold(Install(t, a), s)]
  {
    assert Front(a + [s]) == a && Last(a + [s]) == s;
  }

  // Last in, first out restores the text, whether or not the windows overlap.
  lemma {:induction false} LifoRestores(t: seq<byte>, ps: seq<Site>)
    requires AllFit(t, ps)
    ensures RemoveLifo(Install(t, ps), Held(t, ps)) == t
    decreases |ps|
  {
    if ps != [] {
      assert Fits(t, Last(ps));
      LifoRestores(t, Front(ps));
      SwapTwice(Install(t, Front(ps)), Last(ps));
      assert Front(Held(t, ps)) == Held(t, Front(ps));
    }
  }

  predicate Covers(s: Site, x: int) { s.point.Some? && s.point.value <= x < s.point.value + |s.hold| }
  predicate Touched(ps: seq<Site>, x: int)
    decreases |ps|
  {
    ps != [] && (Covers(Last(ps), x) || Touched(Front(ps), x))
  }

  // The byte at x after installing, and the byte at x before the last window that covers it was installed.
  function Value(t: seq<byte>, ps: seq<Site>, x: nat): byte
    requires x < |t|
    decreases |ps|
  {
    if ps == [] then t[x]
    else if Covers(Last(ps), x) then Last(ps).hold[x - Last(ps).point.value]
    else Value(t, Front(ps), x)
  }
  function Beneath(t: seq<byte>, ps: seq<Site>, x: nat): byte
    requires x < |t|
    decreases |ps|
  {
    if ps == [] then t[x]
    else if Covers(Last(ps), x) then Value(t, Front(ps), x)
    else Beneath(t, Front(ps), x)
  }

  lemma {:induction false} InstallByte(t: seq<byte>, ps: seq<Site>, x: nat)
    requires x < |t| && AllFit(t, ps)
    ensures Install(t, ps)[x] == Value(t, ps, x)
    decreases |ps|
  {
    if ps != [] {
      assert Fits(t, Last(ps));
      InstallByte(t, Front(ps), x);
    }
  }
  lemma {:induction false} FifoByte(t: seq<byte>, u: seq<byte>, ps: seq<Site>, x: nat)
    requires x < |t| && |u| == |t| && AllFit(t, ps) && AllFit(u, Held(t, ps))
    ensures RemoveFifo(u, Held(t, ps))[x] == if Touched(ps, x) then Beneath(t, ps, x) else u[x]
    decreases |ps|
  {
    if ps != [] {
      var hs := Held(t, ps);
      assert Fits(t, Last(ps)) && Fits(u, Last(hs));
      assert Front(hs) == Held(t, Front(ps)) && Last(hs) == SwapHold(Install(t, Front(ps)), Last(ps));
      FifoByte(t, u, Front(ps), x);
      InstallByte(t, Front(ps), x);
      assert Covers(Last(hs), x) == Covers(Last(ps), x);
      assert RemoveFifo(u, hs) == SwapText(Install(u, Front(hs)), Last(hs));
    }
  }
  lemma {:induction false} Untouched(t: seq<byte>, ps: seq<Site>, x: nat)
    requires x < |t| && !Touched(ps, x)
    ensures Value(t, ps, x) == t[x] && Beneath(t, ps, x) == t[x]
    decreases |ps|
  {
    if ps != [] { Untouched(t, Front(ps), x); }
  }

  // Last in, first out: a byte under some window does not depend on the text, any other stays.
  lemma {:induction false} LifoByte(u: seq<byte>, v: seq<byte>, hs: seq<Site>, x: nat)
    requires |u| == |v| && x < |u| && AllFit(u, hs) && AllFit(v, hs)
    ensures RemoveLifo(u, hs)[x] == if Touched(hs, x) then RemoveLifo(v, hs)[x] else u[x]
    decreases |hs|
  {
    if hs != [] {
      assert Fits(u, Last(hs)) && Fits(v, Last(hs));
      LifoByte(SwapText(u, Last(hs)), SwapText(v, Last(hs)), Front(hs), x);
      LifoByte(SwapText(v, Last(hs)), SwapText(u, Last(hs)), Front(hs), x);
    }
  }
  lemma {:induction false} HeldTouch(t: seq<byte>, ps: seq<Site>, x: int)
    requires AllFit(t, ps)
    ensures Touched(Held(t, ps), x) == Touched(ps, x)
    decreases |ps|
  {
    if ps != [] {
      HeldTouch(t, Front(ps), x);
      assert Front(Held(t, ps)) == Held(t, Front(ps));
      assert Covers(Last(Held(t, ps)), x) == Covers(Last(ps), x);
    }
  }

  lemma FifoRestores(t: seq<byte>, ps: seq<Site>, x: nat)
    requires x < |t| && AllFit(t, ps)
    ensures RemoveFifo(Install(t, ps), Held(t, ps))[x] == Beneath(t, ps, x)
  {
    FifoByte(t, Install(t, ps), ps, x);
    InstallByte(t, ps, x);
    if !Touched(ps, x) { Untouched(t, ps, x); }
  }

  // Restoring in the order of installation is the identity iff, wherever windows overlap, the byte
  // that the last covering patch replaced happens to be the original one.
  lemma FifoRestoresIff(t: seq<byte>, ps: seq<Site>)
    requires AllFit(t, ps)
    ensures RemoveFifo(Install(t, ps), Held(t, ps)) == t <==> forall x :: 0 <= x < |t| ==> Beneath(t, ps, x) == t[x]
  {
    var r := RemoveFifo(Install(t, ps), Held(t, ps));
    forall x | 0 <= x < |t| ensures r[x] == Beneath(t, ps, x) { FifoRestores(t, ps, x); }
    if forall x :: 0 <= x < |t| ==> Beneath(t, ps, x) == t[x] {
      assert forall x :: 0 <= x < |t| ==> r[x] == t[x];
    }
  }

  predicate Disjoint(a: Site, b: Site) {
    a.point == None || b.point == None || a.point.value + |a.hold| <= b.point.value ||
      b.point.value + |b.hold| <= a.point.value
  }
  // In particular when the windows are pairwise disjoint.
  lemma {:induction false} DisjointBeneath(t: seq<byte>, ps: seq<Site>, x: nat)
    requires x < |t| && forall i, k :: 0 <= i < k < |ps| ==> Disjoint(ps[i], ps[k])
    ensures Beneath(t, ps, x) == t[x]
    decreases |ps|
  {
    if ps != [] {
      if Covers(Last(ps), x) {
        forall k | 0 <= k < |ps| - 1 ensures !Covers(ps[k], x) { assert Disjoint(ps[k], ps[|ps| - 1]); }
        NoneCovers(Front(ps), x);
        Untouched(t, Front(ps), x);
      } else {
        DisjointBeneath(t, Front(ps), x);
      }
    }
  }
  lemma {:induction false} NoneCovers(ps: seq<Site>, x: int)
    requires forall k :: 0 <= k < |ps| ==> !Covers(ps[k], x)
    ensures !Touched(ps, x)
    decreases |ps|
  {
    if ps != [] { NoneCovers(Front(ps), x); }
  }

  // A window that no later exchange covers keeps what was put there.
  lemma {:induction false} ValueAt(t: seq<byte>, ps: seq<Site>, k: nat, x: nat)
    requires x < |t| && k < |ps| && Covers(ps[k], x) && forall m :: k < m < |ps| ==> !Covers(ps[m], x)
    ensures Value(t, ps, x) == ps[k].hold[x - ps[k].point.value]
    decreases |ps|
  {
    if k < |ps| - 1 { ValueAt(t, Front(ps), k, x); }
  }
  // No later exchange, in ps or in qs, overlaps ps[k].
  ghost predicate Lasts(ps: seq<Site>, qs: seq<Site>, k: nat)
    requires k < |ps|
  {
    && (forall m :: k < m < |ps| ==> Disjoint(ps[k], ps[m]))
    && (forall m :: 0 <= m < |qs| ==> Disjoint(ps[k], qs[m]))
  }
  lemma LastingWindow(t: seq<byte>, ps: seq<Site>, qs: seq<Site>, k: nat)
    requires AllFit(t, ps) && AllFit(Install(t, ps), qs) && k < |ps| && ps[k].point.Some? && Lasts(ps, qs, k)
    ensures Fits(t, ps[k]) && Peek(Install(Install(t, ps), qs), ps[k].point.value, |ps[k].hold|) == ps[k].hold
  {
    var p, n := ps[k].point.value, |ps[k].hold|;
    assert Fits(t, ps[k]);
    var u := Install(Install(t, ps), qs);
    forall x | p <= x < p + n ensures u[x] == ps[k].hold[x - p] {
      forall m | k < m < |ps| ensures !Covers(ps[m], x) { assert Disjoint(ps[k], ps[m]); }
      forall m | 0 <= m < |qs| ensures !Covers(qs[m], x) { assert Disjoint(ps[k], qs[m]); }
      ValueAt(t, ps, k, x);
      InstallByte(t, ps, x);
      NoneCovers(qs, x);
      Untouched(Install(t, ps), qs, x);
      InstallByte(Install(t, ps), qs, x);
    }
    assert Peek(u, p, n) == ps[k].hold;
  }
}
