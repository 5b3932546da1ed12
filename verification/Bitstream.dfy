/** Numbers as the bit streams a serial link carries, least significant bit first. */
module Bitstream {
  function Pow2(n: nat): (p: nat)
    ensures p >= 1
  {
    if n == 0 then 1 else 2 * Pow2(n - 1)
  }

  /** The n low bits of v. */
  function Bits(v: nat, n: nat): (b: seq<bool>)
    ensures |b| == n
  {
    if n == 0 then [] else [v % 2 == 1] + Bits(v / 2, n - 1)
  }

  function Val(b: seq<bool>): (v: nat)
    ensures v < Pow2(|b|)
  {
    if b == [] then 0 else (if b[0] then 1 else 0) + 2 * Val(b[1..])
  }

  function Zeros(n: nat): (b: seq<bool>)
    ensures |b| == n
  {
    seq(n, _ => false)
  }

  /** Writing n bits and reading them back keeps v exactly if v fits in n bits. */
  lemma {:induction false} ValBits(v: nat, n: nat)
    ensures Val(Bits(v, n)) == v <==> v < Pow2(n)
  {
    if n > 0 {
      ValBits(v / 2, n - 1);
      assert Bits(v, n)[1..] == Bits(v / 2, n - 1);
    }
  }

  lemma {:induction false} BitsVal(b: seq<bool>)
    ensures Bits(Val(b), |b|) == b
  {
    if b != [] {
      BitsVal(b[1..]);
      assert Val(b) / 2 == Val(b[1..]);
    }
  }

  lemma {:induction false} BitsOfZero(n: nat)
    ensures Bits(0, n) == Zeros(n)
  {
    if n > 0 {
      BitsOfZero(n - 1);
    }
  }
}
