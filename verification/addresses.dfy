/**
 * 64-bit addresses, little-endian 32-bit displacements, and what they mean to the CPU and to the
 * module. Addresses are integers in [0, 2^64); wrap-around is written out.
 */
module Addresses {
  type byte = x: int | 0 <= x < 256

  const P31 := 0x8000_0000
  const P32 := 0x1_0000_0000
  const P64 := 0x1_0000_0000_0000_0000
  const HIGH := 0xffff_ffff_0000_0000

  function Wrap64(x: int): (r: int)
    ensures 0 <= r < P64
  {
    x % P64
  }

  // A 32-bit immediate as the CPU takes it: sign-extended.
  function Sx(d: int): int { if d < P31 then d else d - P32 }

  // Where a relative call or jump whose displacement field is at sp goes: relative to the next instruction.
  function CpuTarget(sp: int, d: int): int { Wrap64(sp + 4 + Sx(d)) }

  // (unsigned int)(agent - sp - 4)
  function Disp(agent: int, sp: int): (d: int)
    ensures 0 <= d < P32
  {
    Wrap64(agent - sp - 4) % P32
  }

  // 0xffffffff00000000 | v: the high half becomes ones, the low half stays.
  function OrHigh(v: int): int { HIGH + v % P32 }

  // 0xffffffff00000000 | (*sp + sp + 4), with *sp read as an unsigned int.
  function Decode(sp: int, d: int): int { OrHigh(Wrap64(d + sp + 4)) }

  // At most 2 GiB apart, in the sense of a signed 32-bit displacement.
  predicate Near(agent: int, next: int) {
    var d := Wrap64(agent - next);
    d < P31 || d >= P64 - P31
  }

  // The truncated displacement lands on the agent exactly when the agent is within reach.
  lemma JumpLands(agent: int, sp: int)
    requires 0 <= agent < P64 && 0 <= sp < P64
    ensures CpuTarget(sp, Disp(agent, sp)) == agent <==> Near(agent, sp + 4)
  {
    var q := Wrap64(agent - sp - 4);
    var k := (agent - sp - 4) / P64;
    assert agent - sp - 4 == k * P64 + q;
    var h := q / P32;
    var d := q % P32;
    assert q == h * P32 + d && 0 <= h < P32;
    // sp + 4 + Sx(d) differs from agent by a multiple of 2^32, which is a multiple of 2^64 only at the two ends.
    var e := if d < P31 then h else h + 1;
    assert sp + 4 + Sx(d) == agent - k * P64 - e * P32;
    Modular(agent, k, e);
    assert q < P31 <==> h == 0 && d < P31;
    assert q >= P64 - P31 <==> h == P32 - 1 && d >= P31;
  }
  lemma Modular(agent: int, k: int, e: int)
    requires 0 <= agent < P64 && 0 <= e <= P32
    ensures Wrap64(agent - k * P64 - e * P32) == agent <==> e == 0 || e == P32
  {
  }
  lemma WrapShift(x: int, k: int)
    ensures Wrap64(x + k * P64) == Wrap64(x)
  {
  }

  // Everything in the top 2 GiB is within reach of everything else there.
  lemma TopIsNear(agent: int, next: int)
    requires P64 - P31 <= agent < P64 && P64 - P31 <= next <= P64
    ensures Near(agent, next)
  {
  }

  // The zero-extending decode finds the CPU's target exactly when that lies in the top 4 GiB.
  lemma DecodeExact(sp: int, d: int)
    requires 0 <= sp < P64 && 0 <= d < P32
    ensures Decode(sp, d) == CpuTarget(sp, d) <==> CpuTarget(sp, d) >= HIGH
  {
  }
  lemma LowHalf(x: int)
    ensures Wrap64(x) % P32 == x % P32
  {
  }

  // Reading back what was written at a switch point yields the agent: no site is taken for the original again.
  lemma DecodeOfDisp(agent: int, sp: int)
    requires HIGH <= agent < P64 && 0 <= sp < P64
    ensures Decode(sp, Disp(agent, sp)) == agent
  {
    var d := Disp(agent, sp);
    LowHalf(agent - sp - 4);
    LowHalf(d + sp + 4);
    var q := (agent - sp - 4) / P32;
    assert agent - sp - 4 == q * P32 + d;
    assert d + sp + 4 == agent - q * P32;
    assert (agent - q * P32) % P32 == agent % P32 by {
      var a := agent / P32;
      assert agent - q * P32 == (a - q) * P32 + agent % P32;
      assert (agent - q * P32) / P32 == a - q;
    }
    assert agent == HIGH + agent % P32;
  }

  // ---------- little-endian fields ----------

  function Le32(v: int): (b: seq<byte>)
    requires 0 <= v < P32
    ensures |b| == 4
  {
    [v % 256, v / 256 % 256, v / 65536 % 256, v / 16777216]
  }
  function U32(b: seq<byte>): (v: int)
    requires |b| == 4
    ensures 0 <= v < P32
  {
    var b0: int, b1: int, b2: int, b3: int := b[0], b[1], b[2], b[3];
    b0 + 256 * b1 + 65536 * b2 + 16777216 * b3
  }
  lemma FieldRoundTrip(v: int)
    requires 0 <= v < P32
    ensures U32(Le32(v)) == v
  {
    var w := v / 256;
    var x := w / 256;
    assert v / 65536 == x && v / 16777216 == x / 256;
    assert v == v % 256 + 256 * w && w == w % 256 + 256 * x && x == x % 256 + 256 * (x / 256);
  }
}
