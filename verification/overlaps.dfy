/**
 * Two fork sites whose displacement fields overlap: whether writing the second one can make the first
 * one look like a way to _do_fork again.
 */
module Overlaps {
  import opened Addresses
  import opened Memory
  import opened SwitchPoints

  // Adding a small number, byte by byte with the carry; the carry out of the top is lost.
  function Plus(b: seq<byte>, r: int): (c: seq<byte>)
    requires |b| == 4 && -4 < r < 4
    ensures |c| == 4
  {
    var (c0, k0) := Digit(b[0] + r);
    var (c1, k1) := Digit(b[1] + k0);
    var (c2, k2) := Digit(b[2] + k1);
    [c0, c1, c2, Digit(b[3] + k2).0]
  }
  function Digit(v: int): (r: (byte, int))
    requires -256 <= v < 512
    ensures v == r.0 + 256 * r.1 && -1 <= r.1 <= 1
  {
    if v < 0 then (v + 256, -1) else if v >= 256 then (v - 256, 1) else (v, 0)
  }
  lemma PlusAdds(b: seq<byte>, r: int)
    requires |b| == 4 && -4 < r < 4
    ensures U32(Plus(b, r)) == (U32(b) + r) % P32
  {
  }
  lemma LowByte(a: byte, v: int, b: byte, w: int)
    requires (a as int) + 256 * v == (b as int) + 256 * w
    ensures a == b && v == w
  {
  }
  lemma SameField(a: seq<byte>, b: seq<byte>)
    requires |a| == 4 && |b| == 4 && U32(a) == U32(b)
    ensures a == b
  {
    var a1: int, a2: int, a3: int := a[1], a[2], a[3];
    var b1: int, b2: int, b3: int := b[1], b[2], b[3];
    LowByte(a[0], a1 + 256 * a2 + 65536 * a3, b[0], b1 + 256 * b2 + 65536 * b3);
    LowByte(a[1], a2 + 256 * a3, b[1], b2 + 256 * b3);
    LowByte(a[2], a3, b[2], b3);
  }

  // What __switch_do_fork searches for in front of a field.
  predicate IsOpcode(b: byte) { b == CALL || b == JMP }

  // The second field begins s bytes behind the first.
  lemma OverlapUp(x: seq<byte>, o: seq<byte>, s: int)
    requires |x| == 4 && |o| == 4 && 0 < s < 4
    requires Plus(o, -s)[..4 - s] == x[s..]
    requires o == x[..s] + Plus(x, -s)[..4 - s]
    ensures o == x
  {
  }
  // ... and s bytes before it, where it covers the opcode in front of the first field.
  lemma OverlapDown(x: seq<byte>, o: seq<byte>, s: int)
    requires |x| == 4 && |o| == 4 && 0 < s < 4
    requires Plus(o, s)[s..] == x[..4 - s]
    requires o == Plus(x, s)[s..] + x[4 - s..]
    requires IsOpcode(Plus(o, s)[s - 1]) && IsOpcode(Plus(x, s)[s - 1])
    ensures o == x
  {
  }

  // What the two fields read after the first and after the second write.
  lemma WriteUp(t: seq<byte>, p: nat, x: seq<byte>, e: seq<byte>, s: nat)
    requires |x| == 4 && |e| == 4 && 0 < s < 4 && p + s + 4 <= |t|
    ensures var t1 := Poke(t, p, x); var t2 := Poke(t1, p + s, e);
      Peek(t1, p + s, 4)[..4 - s] == x[s..] && Peek(t2, p, 4) == x[..s] + e[..4 - s]
  {
  }
  lemma WriteDown(t: seq<byte>, p: nat, x: seq<byte>, e: seq<byte>, s: nat)
    requires |x| == 4 && |e| == 4 && 0 < s < 4 && s <= p && p + 4 <= |t|
    ensures var t1 := Poke(t, p, x); var t2 := Poke(t1, p - s, e);
      Peek(t1, p - s, 4)[s..] == x[..4 - s] && Peek(t2, p, 4) == e[s..] + x[4 - s..]
    ensures var t1 := Poke(t, p, x); var t2 := Poke(t1, p - s, e);
      Peek(t1, p - s, 4)[s - 1] == t[p - 1] && e[s - 1] == t2[p - 1]
  {
  }
  lemma WriteApart(t: seq<byte>, p: nat, q: nat, x: seq<byte>, e: seq<byte>)
    requires |x| == 4 && |e| == 4 && p + 4 <= |t| && q + 4 <= |t| && (p + 4 <= q || q + 4 <= p)
    ensures Peek(Poke(Poke(t, p, x), q, e), p, 4) == x
  {
  }

  // A field that decodes to an address holds the displacement to it, and s bytes on it would be s less.
  lemma FieldIsDisp(sp: int, d: int)
    requires 0 <= sp < P64 && 0 <= d < P32
    ensures d == Disp(Decode(sp, d), sp)
  {
    hide Wrap64;
    var v := d + sp + 4;
    LowHalf(v);
    LowHalf(Decode(sp, d) - sp - 4);
    assert Decode(sp, d) - sp - 4 == v % P32 + (-sp - 4) + (P32 - 1) * P32;
    ModShift(v % P32 + (-sp - 4), P32 - 1);
    ModAdd(v, -sp - 4);
  }
  lemma DispShifts(a: int, sp: int, s: int)
    ensures Disp(a, sp + s) == (Disp(a, sp) - s) % P32
  {
    hide Wrap64;
    LowHalf(a - sp - 4);
    LowHalf(a - (sp + s) - 4);
    ModAdd(a - sp - 4, -s);
  }
  lemma ModShift(x: int, k: int)
    ensures (x + k * P32) % P32 == x % P32
  {
  }
  lemma ModAdd(x: int, y: int)
    ensures (x % P32 + y) % P32 == (x + y) % P32
  {
    assert x + y == x % P32 + y + x / P32 * P32;
    ModShift(x % P32 + y, x / P32);
  }
  // Fields at base + p and base + q that lead to `a` hold the same value but for the distance.
  lemma ShiftedFields(base: int, p: nat, q: nat, b: seq<byte>, c: seq<byte>)
    requires |b| == 4 && |c| == 4 && 0 <= base + p < P64 && 0 <= base + q < P64 && -4 < p - q < 4
    requires Decode(base + p, U32(b)) == Decode(base + q, U32(c))
    ensures c == Plus(b, p - q)
  {
    var a := Decode(base + p, U32(b));
    FieldIsDisp(base + p, U32(b));
    FieldIsDisp(base + q, U32(c));
    DispShifts(a, base + p, q - p);
    PlusAdds(b, p - q);
    SameField(c, Plus(b, p - q));
  }

  // The field at p, behind an opcode, was made to lead to the agent, and then the field at q, which led
  // to orig. Then the one at p does not lead to orig again, behind an opcode.
  lemma NotTakenAgain(t: seq<byte>, base: int, p: nat, q: nat, agent: int, orig: int)
    requires 0 < p && p + 4 <= |t| && q + 4 <= |t| && p != q && P64 - P31 <= base && base + |t| <= P64
    requires HIGH <= agent < P64 && agent != orig && IsOpcode(t[p - 1])
    requires Target(Poke(t, p, Le32(Disp(agent, base + p))), base, q) == orig
    ensures var t2 := Poke(Poke(t, p, Le32(Disp(agent, base + p))), q, Le32(Disp(agent, base + q)));
      IsOpcode(t2[p - 1]) ==> Target(t2, base, p) != orig
  {
    hide U32, Le32, Disp, Decode, Plus, Poke;
    var x, e := Le32(Disp(agent, base + p)), Le32(Disp(agent, base + q));
    var t1 := Poke(t, p, x);
    var t2 := Poke(t1, q, e);
    var g, o := Peek(t1, q, 4), Peek(t2, p, 4);
    FieldRoundTrip(Disp(agent, base + p));
    FieldRoundTrip(Disp(agent, base + q));
    DecodeOfDisp(agent, base + p);
    DecodeOfDisp(agent, base + q);
    if IsOpcode(t2[p - 1]) && Target(t2, base, p) == orig {
      if -4 < p - q < 4 {
        ShiftedFields(base, p, q, x, e);
        ShiftedFields(base, p, q, o, g);
        if p < q {
          WriteUp(t, p, x, e, q - p);
          OverlapUp(x, o, q - p);
        } else {
          WriteDown(t, p, x, e, p - q);
          OverlapDown(x, o, p - q);
        }
      } else {
        WriteApart(t, p, q, x, e);
      }
    }
  }
}
