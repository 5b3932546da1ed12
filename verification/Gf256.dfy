/** Arithmetic in GF(2^8) and the substitution of single bytes, after sections 4 and 5.1.1 of FIPS-197. */
module Gf256 {
  function Xor(a: bv8, b: bv8): bv8 {
    a ^ b
  }

  function Sum4(a: bv8, b: bv8, c: bv8, d: bv8): bv8 {
    Xor(Xor(a, b), Xor(c, d))
  }

  lemma XorLaws(a: bv8, b: bv8, c: bv8)
    ensures Xor(a, b) == Xor(b, a) && Xor(Xor(a, b), c) == Xor(a, Xor(b, c))
    ensures Xor(a, a) == 0 && Xor(a, 0) == a && Xor(0, a) == a
  {
  }

  lemma XorSwap(a: bv8, b: bv8, c: bv8, d: bv8)
    ensures Xor(Xor(a, b), Xor(c, d)) == Xor(Xor(a, c), Xor(b, d))
  {
    hide Xor;
    XorLaws(a, b, Xor(c, d));
    XorLaws(b, c, d);
    XorLaws(c, b, d);
    XorLaws(a, c, Xor(b, d));
  }

  lemma SumAdds(a: bv8, b: bv8, c: bv8, d: bv8, e: bv8, f: bv8, g: bv8, h: bv8)
    ensures Sum4(Xor(a, e), Xor(b, f), Xor(c, g), Xor(d, h)) == Xor(Sum4(a, b, c, d), Sum4(e, f, g, h))
  {
    hide Xor;
    XorSwap(a, e, b, f);
    XorSwap(c, g, d, h);
    XorSwap(Xor(a, b), Xor(e, f), Xor(c, d), Xor(g, h));
  }

  // ---- multiplication -----------------------------------------------------------------

  /** Section 4.2.1: multiplication by {02} modulo x^8 + x^4 + x^3 + x + 1. */
  function Xtime(b: bv8): bv8 {
    Xor(b << 1, if b & 0x80 != 0 then 0x1B else 0)
  }

  function Keep(k: bool, b: bv8): bv8 {
    if k then b else 0
  }

  lemma ShiftAdds(a: bv8, b: bv8)
    ensures Xor(a, b) << 1 == Xor(a << 1, b << 1)
  {
  }

  predicate High(b: bv8) {
    b & 0x80 != 0
  }

  lemma HighAdds(a: bv8, b: bv8)
    ensures High(Xor(a, b)) == (High(a) != High(b))
  {
  }

  lemma XtimeParts(b: bv8)
    ensures Xtime(b) == Xor(b << 1, Keep(High(b), 0x1B))
  {
    hide Xor;
  }

  lemma XtimeLinear(a: bv8, b: bv8)
    ensures Xtime(Xor(a, b)) == Xor(Xtime(a), Xtime(b))
  {
    hide Xor, Xtime, High, Keep;
    XtimeParts(Xor(a, b));
    XtimeParts(a);
    XtimeParts(b);
    ShiftAdds(a, b);
    HighAdds(a, b);
    KeepLaws(High(a), High(b), 0, 0x1B);
    XorSwap(a << 1, b << 1, Keep(High(a), 0x1B), Keep(High(b), 0x1B));
  }

  lemma KeepLaws(j: bool, k: bool, a: bv8, b: bv8)
    ensures Keep(k, Xor(a, b)) == Xor(Keep(k, a), Keep(k, b))
    ensures Xor(Keep(j, b), Keep(k, b)) == Keep(j != k, b)
    ensures Keep(false, b) == 0 && Keep(true, b) == b
  {
    XorLaws(b, b, b);
    XorLaws(0, 0, 0);
    hide Xor;
  }

  /** Section 4.2: the product, as the sum of the multiples of b that the bits of a select. */
  function Mul(a: bv8, b: bv8): bv8 {
    var b1 := Xtime(b);
    var b2 := Xtime(b1);
    var b3 := Xtime(b2);
    var b4 := Xtime(b3);
    var b5 := Xtime(b4);
    var b6 := Xtime(b5);
    var b7 := Xtime(b6);
    Xor(Sum4(Keep(a & 1 != 0, b), Keep(a & 2 != 0, b1), Keep(a & 4 != 0, b2), Keep(a & 8 != 0, b3)),
        Sum4(Keep(a & 0x10 != 0, b4), Keep(a & 0x20 != 0, b5), Keep(a & 0x40 != 0, b6), Keep(a & 0x80 != 0, b7)))
  }

  lemma MulAdds(a: bv8, b: bv8, c: bv8)
    ensures Mul(a, Xor(b, c)) == Xor(Mul(a, b), Mul(a, c))
  {
    hide Xor, Xtime, Keep, Sum4;
    var b1, c1 := Xtime(b), Xtime(c);
    var b2, c2 := Xtime(b1), Xtime(c1);
    var b3, c3 := Xtime(b2), Xtime(c2);
    var b4, c4 := Xtime(b3), Xtime(c3);
    var b5, c5 := Xtime(b4), Xtime(c4);
    var b6, c6 := Xtime(b5), Xtime(c5);
    var b7, c7 := Xtime(b6), Xtime(c6);
    XtimeLinear(b, c);
    XtimeLinear(b1, c1);
    XtimeLinear(b2, c2);
    XtimeLinear(b3, c3);
    XtimeLinear(b4, c4);
    XtimeLinear(b5, c5);
    XtimeLinear(b6, c6);
    FourAdd(a & 1 != 0, a & 2 != 0, a & 4 != 0, a & 8 != 0, b, b1, b2, b3, c, c1, c2, c3);
    FourAdd(a & 0x10 != 0, a & 0x20 != 0, a & 0x40 != 0, a & 0x80 != 0, b4, b5, b6, b7, c4, c5, c6, c7);
    XorSwap(Sum4(Keep(a & 1 != 0, b), Keep(a & 2 != 0, b1), Keep(a & 4 != 0, b2), Keep(a & 8 != 0, b3)),
            Sum4(Keep(a & 1 != 0, c), Keep(a & 2 != 0, c1), Keep(a & 4 != 0, c2), Keep(a & 8 != 0, c3)),
            Sum4(Keep(a & 0x10 != 0, b4), Keep(a & 0x20 != 0, b5), Keep(a & 0x40 != 0, b6), Keep(a & 0x80 != 0, b7)),
            Sum4(Keep(a & 0x10 != 0, c4), Keep(a & 0x20 != 0, c5), Keep(a & 0x40 != 0, c6), Keep(a & 0x80 != 0, c7)));
  }

  lemma FourAdd(j: bool, k: bool, l: bool, m: bool, b: bv8, b1: bv8, b2: bv8, b3: bv8,
                c: bv8, c1: bv8, c2: bv8, c3: bv8)
    ensures Sum4(Keep(j, Xor(b, c)), Keep(k, Xor(b1, c1)), Keep(l, Xor(b2, c2)), Keep(m, Xor(b3, c3)))
            == Xor(Sum4(Keep(j, b), Keep(k, b1), Keep(l, b2), Keep(m, b3)),
                   Sum4(Keep(j, c), Keep(k, c1), Keep(l, c2), Keep(m, c3)))
  {
    hide Xor, Keep, Sum4;
    KeepLaws(j, j, b, c);
    KeepLaws(k, k, b1, c1);
    KeepLaws(l, l, b2, c2);
    KeepLaws(m, m, b3, c3);
    SumAdds(Keep(j, b), Keep(k, b1), Keep(l, b2), Keep(m, b3), Keep(j, c), Keep(k, c1), Keep(l, c2), Keep(m, c3));
  }

  lemma XtimeKeep(k: bool, b: bv8)
    ensures Xtime(Keep(k, b)) == Keep(k, Xtime(b))
  {
    assert Xtime(0) == 0;
    hide Xtime;
  }

  lemma XtimeSum4(a: bv8, b: bv8, c: bv8, d: bv8)
    ensures Xtime(Sum4(a, b, c, d)) == Sum4(Xtime(a), Xtime(b), Xtime(c), Xtime(d))
  {
    hide Xor, Xtime;
    XtimeLinear(Xor(a, b), Xor(c, d));
    XtimeLinear(a, b);
    XtimeLinear(c, d);
  }

  lemma XtimeFour(j: bool, k: bool, l: bool, m: bool, a: bv8, b: bv8, c: bv8, d: bv8)
    ensures Xtime(Sum4(Keep(j, a), Keep(k, b), Keep(l, c), Keep(m, d)))
            == Sum4(Keep(j, Xtime(a)), Keep(k, Xtime(b)), Keep(l, Xtime(c)), Keep(m, Xtime(d)))
  {
    hide *;
    XtimeSum4(Keep(j, a), Keep(k, b), Keep(l, c), Keep(m, d));
    XtimeKeep(j, a);
    XtimeKeep(k, b);
    XtimeKeep(l, c);
    XtimeKeep(m, d);
  }

  /** Xtime moves out of a product. */
  lemma MulXtime(a: bv8, b: bv8)
    ensures Mul(a, Xtime(b)) == Xtime(Mul(a, b))
  {
    hide Xor, Xtime, Keep, Sum4;
    var b1 := Xtime(b);
    var b2 := Xtime(b1);
    var b3 := Xtime(b2);
    var b4 := Xtime(b3);
    var b5 := Xtime(b4);
    var b6 := Xtime(b5);
    var b7 := Xtime(b6);
    XtimeLinear(
      Sum4(Keep(a & 1 != 0, b), Keep(a & 2 != 0, b1), Keep(a & 4 != 0, b2), Keep(a & 8 != 0, b3)),
      Sum4(Keep(a & 0x10 != 0, b4), Keep(a & 0x20 != 0, b5), Keep(a & 0x40 != 0, b6), Keep(a & 0x80 != 0, b7)));
    XtimeFour(a & 1 != 0, a & 2 != 0, a & 4 != 0, a & 8 != 0, b, b1, b2, b3);
    XtimeFour(a & 0x10 != 0, a & 0x20 != 0, a & 0x40 != 0, a & 0x80 != 0, b4, b5, b6, b7);
  }

  /** A byte is the sum of its bits. */
  lemma SumOfBits(a: bv8)
    ensures a == Xor(Sum4(Keep(a & 1 != 0, 1), Keep(a & 2 != 0, 2), Keep(a & 4 != 0, 4), Keep(a & 8 != 0, 8)),
                     Sum4(Keep(a & 0x10 != 0, 0x10), Keep(a & 0x20 != 0, 0x20),
                          Keep(a & 0x40 != 0, 0x40), Keep(a & 0x80 != 0, 0x80)))
  {
  }

  lemma Powers()
    ensures Xtime(1) == 2 && Xtime(2) == 4 && Xtime(4) == 8 && Xtime(8) == 0x10
    ensures Xtime(0x10) == 0x20 && Xtime(0x20) == 0x40 && Xtime(0x40) == 0x80
  {
  }

  lemma MulOne(a: bv8)
    ensures Mul(a, 1) == a
  {
    hide Xor, Xtime, Keep, Sum4;
    Powers();
    SumOfBits(a);
  }

  lemma KeepMul(a: bv8, k: bool, b: bv8)
    ensures Mul(a, Keep(k, b)) == Keep(k, Mul(a, b))
  {
    hide Mul;
    MulZero(a);
  }

  lemma MulZero(a: bv8)
    ensures Mul(a, 0) == 0
  {
    hide Mul, Xor;
    MulAdds(a, 0, 0);
    XorLaws(0, 0, 0);
    XorLaws(Mul(a, 0), 0, 0);
  }

  lemma MulSum4(a: bv8, b: bv8, c: bv8, d: bv8, e: bv8)
    ensures Mul(a, Sum4(b, c, d, e)) == Sum4(Mul(a, b), Mul(a, c), Mul(a, d), Mul(a, e))
  {
    hide Mul, Xor;
    MulAdds(a, Xor(b, c), Xor(d, e));
    MulAdds(a, b, c);
    MulAdds(a, d, e);
  }

  lemma MulFour(a: bv8, j: bool, k: bool, l: bool, m: bool, b: bv8, c: bv8, d: bv8, e: bv8)
    ensures Mul(a, Sum4(Keep(j, b), Keep(k, c), Keep(l, d), Keep(m, e)))
            == Sum4(Keep(j, Mul(a, b)), Keep(k, Mul(a, c)), Keep(l, Mul(a, d)), Keep(m, Mul(a, e)))
  {
    hide *;
    MulSum4(a, Keep(j, b), Keep(k, c), Keep(l, d), Keep(m, e));
    KeepMul(a, j, b);
    KeepMul(a, k, c);
    KeepMul(a, l, d);
    KeepMul(a, m, e);
  }

  /** Both are the sum of those multiples of the product of c and b that the bits of a select. */
  lemma MulOfMul(a: bv8, b: bv8, c: bv8)
    ensures Mul(c, Mul(a, b)) == Mul(a, Mul(c, b))
  {
    hide Xor, Xtime, Keep, Sum4;
    var b1 := Xtime(b);
    var b2 := Xtime(b1);
    var b3 := Xtime(b2);
    var b4 := Xtime(b3);
    var b5 := Xtime(b4);
    var b6 := Xtime(b5);
    var b7 := Xtime(b6);
    MulXtime(c, b);
    MulXtime(c, b1);
    MulXtime(c, b2);
    MulXtime(c, b3);
    MulXtime(c, b4);
    MulXtime(c, b5);
    MulXtime(c, b6);
    MulFour(c, a & 1 != 0, a & 2 != 0, a & 4 != 0, a & 8 != 0, b, b1, b2, b3);
    MulFour(c, a & 0x10 != 0, a & 0x20 != 0, a & 0x40 != 0, a & 0x80 != 0, b4, b5, b6, b7);
    MulAdds(c,
      Sum4(Keep(a & 1 != 0, b), Keep(a & 2 != 0, b1), Keep(a & 4 != 0, b2), Keep(a & 8 != 0, b3)),
      Sum4(Keep(a & 0x10 != 0, b4), Keep(a & 0x20 != 0, b5), Keep(a & 0x40 != 0, b6), Keep(a & 0x80 != 0, b7)));
  }

  lemma MulLaws(a: bv8, b: bv8, c: bv8)
    ensures Mul(a, b) == Mul(b, a) && Mul(Mul(a, b), c) == Mul(a, Mul(b, c)) && Mul(a, 1) == a
  {
    hide *;
    MulOne(a);
    MulOne(b);
    MulOne(Mul(a, b));
    MulOfMul(a, 1, b);
    MulOfMul(Mul(a, b), 1, c);
    MulOne(c);
    MulOfMul(a, b, c);
    MulOfMul(b, 1, c);
  }

  // ---- the inverse --------------------------------------------------------------------

  /** Section 5.1.1: the multiplicative inverse, and 0 for 0. */
  predicate IsInverse(a: bv8, v: bv8) {
    if a == 0 then v == 0 else Mul(a, v) == 1
  }

  lemma InverseIsUnique(a: bv8, v: bv8, w: bv8)
    requires IsInverse(a, v) && IsInverse(a, w)
    ensures v == w
  {
    hide Mul;
    // v = v (a w) = (v a) w = w
    MulLaws(v, a, w);
    MulLaws(w, 1, 1);
    MulLaws(1, w, 1);
  }

  lemma InverseIsMutual(a: bv8, v: bv8)
    requires IsInverse(a, v)
    ensures IsInverse(v, a)
  {
    hide Mul;
    MulLaws(a, v, 1);
    MulZero(a);
  }

  ghost function Inverse(a: bv8): bv8 {
    if exists v :: IsInverse(a, v) then (var v :| IsInverse(a, v); v) else 0
  }

  lemma InverseIs(a: bv8, v: bv8)
    requires IsInverse(a, v)
    ensures Inverse(a) == v
  {
    hide IsInverse;
    InverseIsUnique(a, Inverse(a), v);
  }

  // ---- substitution -------------------------------------------------------------------

  function Rotate1(b: bv8): bv8 { (b << 1) | (b >> 7) }
  function Rotate2(b: bv8): bv8 { (b << 2) | (b >> 6) }
  function Rotate3(b: bv8): bv8 { (b << 3) | (b >> 5) }
  function Rotate4(b: bv8): bv8 { (b << 4) | (b >> 4) }
  function Rotate6(b: bv8): bv8 { (b << 6) | (b >> 2) }

  /** Section 5.1.1: bit i is the sum of bits i, i + 4, i + 5, i + 6 and i + 7 modulo 8 and of bit i
      of {63}. */
  function Affine(b: bv8): bv8 {
    Xor(Xor(Xor(b, Rotate4(b)), Xor(Rotate3(b), Rotate2(b))), Xor(Rotate1(b), 0x63))
  }

  /** Section 5.3.2: the inverse of that map. */
  function InvAffine(b: bv8): bv8 {
    Xor(Xor(Rotate1(b), Rotate3(b)), Xor(Rotate6(b), 0x05))
  }

  lemma AffineInverts(b: bv8)
    ensures Affine(InvAffine(b)) == b && InvAffine(Affine(b)) == b
  {
    AffineOfInverse(b);
    InverseOfAffine(b);
    hide *;
  }

  lemma AffineOfInverse(b: bv8)
    ensures Affine(InvAffine(b)) == b
  {
  }

  lemma InverseOfAffine(b: bv8)
    ensures InvAffine(Affine(b)) == b
  {
  }

  /** Section 5.1.1. */
  ghost function SubByte(a: bv8): bv8 {
    Affine(Inverse(a))
  }

  /** Section 5.3.2. */
  ghost function InvSubByte(b: bv8): bv8 {
    Inverse(InvAffine(b))
  }
}
