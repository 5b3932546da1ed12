/** The AES functions of FIPS-197 on a four-by-four state of bytes. */
module Fips197 {
  import opened AesSbox
  import opened Gf256

  /** A column, row 0 first: in the core bits 31 to 24 of a word are row 0. */
  datatype Column = Column(r0: bv8, r1: bv8, r2: bv8, r3: bv8)

  datatype Block = Block(c0: Column, c1: Column, c2: Column, c3: Column)

  /** Byte r of a word. */
  function Byte(a: Column, r: int): bv8
    requires 0 <= r < 4
  {
    if r == 0 then a.r0 else if r == 1 then a.r1 else if r == 2 then a.r2 else a.r3
  }

  /** The entry s[r, c]. */
  function At(s: Block, r: int, c: int): bv8
    requires 0 <= r < 4 && 0 <= c < 4
  {
    Byte(if c == 0 then s.c0 else if c == 1 then s.c1 else if c == 2 then s.c2 else s.c3, r)
  }

  function AddColumn(a: Column, b: Column): Column {
    Column(Xor(a.r0, b.r0), Xor(a.r1, b.r1), Xor(a.r2, b.r2), Xor(a.r3, b.r3))
  }

  /** Section 5.1.4, and `AddRoundKey`. */
  function AddRoundKey(s: Block, k: Block): Block {
    Block(AddColumn(s.c0, k.c0), AddColumn(s.c1, k.c1), AddColumn(s.c2, k.c2), AddColumn(s.c3, k.c3))
  }

  /** Entry by entry it is the exclusive or with the round key. */
  lemma AddRoundKeyAdds(s: Block, k: Block, r: int, c: int)
    requires 0 <= r < 4 && 0 <= c < 4
    ensures At(AddRoundKey(s, k), r, c) == At(s, r, c) ^ At(k, r, c)
  {
    assert r in {0, 1, 2, 3} && c in {0, 1, 2, 3};
  }

  ghost function SubColumn(a: Column): Column {
    Column(SubByte(a.r0), SubByte(a.r1), SubByte(a.r2), SubByte(a.r3))
  }

  ghost function InvSubColumn(a: Column): Column {
    Column(InvSubByte(a.r0), InvSubByte(a.r1), InvSubByte(a.r2), InvSubByte(a.r3))
  }

  /** Sections 5.1.1 and 5.3.2. */
  ghost function SubBytes(s: Block): Block {
    Block(SubColumn(s.c0), SubColumn(s.c1), SubColumn(s.c2), SubColumn(s.c3))
  }

  ghost function InvSubBytes(s: Block): Block {
    Block(InvSubColumn(s.c0), InvSubColumn(s.c1), InvSubColumn(s.c2), InvSubColumn(s.c3))
  }

  /** Sections 5.1.2 and 5.3.1, as the row rotations of `Shiftrow`. */
  function ShiftRows(s: Block): Block {
    Block(
      Column(s.c0.r0, s.c1.r1, s.c2.r2, s.c3.r3),
      Column(s.c1.r0, s.c2.r1, s.c3.r2, s.c0.r3),
      Column(s.c2.r0, s.c3.r1, s.c0.r2, s.c1.r3),
      Column(s.c3.r0, s.c0.r1, s.c1.r2, s.c2.r3))
  }

  function InvShiftRows(s: Block): Block {
    Block(
      Column(s.c0.r0, s.c3.r1, s.c2.r2, s.c1.r3),
      Column(s.c1.r0, s.c0.r1, s.c3.r2, s.c2.r3),
      Column(s.c2.r0, s.c1.r1, s.c0.r2, s.c3.r3),
      Column(s.c3.r0, s.c2.r1, s.c1.r2, s.c0.r3))
  }

  /** The rotations move s[r, c] as sections 5.1.2 and 5.3.1 prescribe. */
  lemma ShiftRowsMoves(s: Block, r: int, c: int)
    requires 0 <= r < 4 && 0 <= c < 4
    ensures At(ShiftRows(s), r, c) == At(s, r, (c + r) % 4)
    ensures At(InvShiftRows(s), r, (c + r) % 4) == At(s, r, c)
  {
    assert r in {0, 1, 2, 3} && c in {0, 1, 2, 3};
  }

  // ---- MixColumns ---------------------------------------------------------------------

  /** Multiplication by the constant whose bits are given, {08}, {04}, {02} and {01}. */
  function Times(k8: bool, k4: bool, k2: bool, k1: bool, b: bv8): bv8 {
    var b2 := Xtime(b);
    var b4 := Xtime(b2);
    var b8 := Xtime(b4);
    Sum4(Keep(k8, b8), Keep(k4, b4), Keep(k2, b2), Keep(k1, b))
  }

  function By2(b: bv8): bv8 { Times(false, false, true, false, b) }
  function By3(b: bv8): bv8 { Times(false, false, true, true, b) }
  function By9(b: bv8): bv8 { Times(true, false, false, true, b) }
  function ByB(b: bv8): bv8 { Times(true, false, true, true, b) }
  function ByD(b: bv8): bv8 { Times(true, true, false, true, b) }
  function ByE(b: bv8): bv8 { Times(true, true, true, false, b) }

  /** Section 5.1.3. */
  function MixColumn(a: Column): Column {
    Column(
      Sum4(By2(a.r0), By3(a.r1), a.r2, a.r3),
      Sum4(a.r0, By2(a.r1), By3(a.r2), a.r3),
      Sum4(a.r0, a.r1, By2(a.r2), By3(a.r3)),
      Sum4(By3(a.r0), a.r1, a.r2, By2(a.r3)))
  }

  /** Section 5.3.3. */
  function InvMixColumn(a: Column): Column {
    Column(
      Sum4(ByE(a.r0), ByB(a.r1), ByD(a.r2), By9(a.r3)),
      Sum4(By9(a.r0), ByE(a.r1), ByB(a.r2), ByD(a.r3)),
      Sum4(ByD(a.r0), By9(a.r1), ByE(a.r2), ByB(a.r3)),
      Sum4(ByB(a.r0), ByD(a.r1), By9(a.r2), ByE(a.r3)))
  }

  function MixColumns(s: Block): Block {
    Block(MixColumn(s.c0), MixColumn(s.c1), MixColumn(s.c2), MixColumn(s.c3))
  }

  function InvMixColumns(s: Block): Block {
    Block(InvMixColumn(s.c0), InvMixColumn(s.c1), InvMixColumn(s.c2), InvMixColumn(s.c3))
  }

  lemma SumRotates(a: bv8, b: bv8, c: bv8, d: bv8)
    ensures Sum4(a, b, c, d) == Sum4(b, c, d, a)
    ensures Sum4(a, 0, 0, 0) == a
  {
    hide Xor;
    XorLaws(a, b, Xor(c, d));
    XorLaws(a, Xor(b, Xor(c, d)), a);
    XorLaws(b, c, d);
    XorLaws(Xor(b, c), d, a);
    XorLaws(0, 0, 0);
  }

  /** A table of sixteen bytes summed by rows and by columns. */
  lemma SumTransposed(a: Column, b: Column, c: Column, d: Column)
    ensures Sum4(Sum4(a.r0, a.r1, a.r2, a.r3), Sum4(b.r0, b.r1, b.r2, b.r3),
                 Sum4(c.r0, c.r1, c.r2, c.r3), Sum4(d.r0, d.r1, d.r2, d.r3))
         == Sum4(Sum4(a.r0, b.r0, c.r0, d.r0), Sum4(a.r1, b.r1, c.r1, d.r1),
                 Sum4(a.r2, b.r2, c.r2, d.r2), Sum4(a.r3, b.r3, c.r3, d.r3))
  {
    hide Xor;
    SumAdds(a.r0, a.r1, a.r2, a.r3, b.r0, b.r1, b.r2, b.r3);
    SumAdds(c.r0, c.r1, c.r2, c.r3, d.r0, d.r1, d.r2, d.r3);
    SumAdds(Xor(a.r0, b.r0), Xor(a.r1, b.r1), Xor(a.r2, b.r2), Xor(a.r3, b.r3),
            Xor(c.r0, d.r0), Xor(c.r1, d.r1), Xor(c.r2, d.r2), Xor(c.r3, d.r3));
  }

  lemma TimesLinear(k8: bool, k4: bool, k2: bool, k1: bool, a: bv8, b: bv8)
    ensures Times(k8, k4, k2, k1, Xor(a, b)) == Xor(Times(k8, k4, k2, k1, a), Times(k8, k4, k2, k1, b))
  {
    hide Xtime, Xor, Sum4, Keep;
    var a2, b2 := Xtime(a), Xtime(b);
    var a4, b4 := Xtime(a2), Xtime(b2);
    var a8, b8 := Xtime(a4), Xtime(b4);
    XtimeLinear(a, b);
    XtimeLinear(a2, b2);
    XtimeLinear(a4, b4);
    KeepLaws(k8, k8, a8, b8);
    KeepLaws(k4, k4, a4, b4);
    KeepLaws(k2, k2, a2, b2);
    KeepLaws(k1, k1, a, b);
    SumAdds(Keep(k8, a8), Keep(k4, a4), Keep(k2, a2), Keep(k1, a),
            Keep(k8, b8), Keep(k4, b4), Keep(k2, b2), Keep(k1, b));
  }

  lemma FourTermsLinear(k8: bool, k4: bool, k2: bool, k1: bool, a: bv8, b: bv8, c: bv8, d: bv8)
    ensures Times(k8, k4, k2, k1, Sum4(a, b, c, d))
         == Sum4(Times(k8, k4, k2, k1, a), Times(k8, k4, k2, k1, b), Times(k8, k4, k2, k1, c), Times(k8, k4, k2, k1, d))
  {
    hide Times, Xor;
    TimesLinear(k8, k4, k2, k1, a, b);
    TimesLinear(k8, k4, k2, k1, c, d);
    TimesLinear(k8, k4, k2, k1, Xor(a, b), Xor(c, d));
  }

  // A polynomial in x of degree at most 4, applied to a byte.

  datatype Multiplier = Multiplier(k16: bool, k8: bool, k4: bool, k2: bool, k1: bool)

  function Apply(k: Multiplier, b: bv8): bv8 {
    var b2 := Xtime(b);
    var b4 := Xtime(b2);
    var b8 := Xtime(b4);
    Xor(Keep(k.k16, Xtime(b8)), Times(k.k8, k.k4, k.k2, k.k1, b))
  }

  function AddMultipliers(j: Multiplier, k: Multiplier): Multiplier {
    Multiplier(j.k16 != k.k16, j.k8 != k.k8, j.k4 != k.k4, j.k2 != k.k2, j.k1 != k.k1)
  }

  lemma TimesAdds(j8: bool, j4: bool, j2: bool, j1: bool, k8: bool, k4: bool, k2: bool, k1: bool, b: bv8)
    ensures Xor(Times(j8, j4, j2, j1, b), Times(k8, k4, k2, k1, b)) == Times(j8 != k8, j4 != k4, j2 != k2, j1 != k1, b)
  {
    hide Xtime, Xor, Sum4, Keep;
    var b2 := Xtime(b);
    var b4 := Xtime(b2);
    var b8 := Xtime(b4);
    KeepLaws(j8, k8, b8, b8);
    KeepLaws(j4, k4, b4, b4);
    KeepLaws(j2, k2, b2, b2);
    KeepLaws(j1, k1, b, b);
    SumAdds(Keep(j8, b8), Keep(j4, b4), Keep(j2, b2), Keep(j1, b),
            Keep(k8, b8), Keep(k4, b4), Keep(k2, b2), Keep(k1, b));
  }

  lemma ApplyParts(k: Multiplier, b: bv8)
    ensures Apply(k, b) == Xor(Keep(k.k16, Xtime(Xtime(Xtime(Xtime(b))))), Times(k.k8, k.k4, k.k2, k.k1, b))
  {
    hide Xtime, Xor, Times, Keep;
  }

  lemma AddedParts(j: Multiplier, k: Multiplier)
    ensures AddMultipliers(j, k) == Multiplier(j.k16 != k.k16, j.k8 != k.k8, j.k4 != k.k4, j.k2 != k.k2, j.k1 != k.k1)
  {
  }

  lemma ApplyAdds(j: Multiplier, k: Multiplier, b: bv8)
    ensures Xor(Apply(j, b), Apply(k, b)) == Apply(AddMultipliers(j, k), b)
  {
    hide *;
    ApplyParts(j, b);
    ApplyParts(k, b);
    ApplyParts(AddMultipliers(j, k), b);
    AddedParts(j, k);
    var b16 := Xtime(Xtime(Xtime(Xtime(b))));
    KeepLaws(j.k16, k.k16, b16, b16);
    TimesAdds(j.k8, j.k4, j.k2, j.k1, k.k8, k.k4, k.k2, k.k1, b);
    XorSwap(Keep(j.k16, b16), Times(j.k8, j.k4, j.k2, j.k1, b), Keep(k.k16, b16), Times(k.k8, k.k4, k.k2, k.k1, b));
  }

  /** k times b, 2b and 3b, for a constant k of degree at most 3. */
  lemma TimesIsApply(k8: bool, k4: bool, k2: bool, k1: bool, b: bv8)
    ensures Times(k8, k4, k2, k1, b) == Apply(Multiplier(false, k8, k4, k2, k1), b)
    ensures Times(k8, k4, k2, k1, By2(b)) == Apply(Multiplier(k8, k4, k2, k1, false), b)
    ensures Times(k8, k4, k2, k1, By3(b))
         == Apply(AddMultipliers(Multiplier(k8, k4, k2, k1, false), Multiplier(false, k8, k4, k2, k1)), b)
  {
    hide Xtime, Xor, Keep, Sum4;
    var b2 := Xtime(b);
    var b4 := Xtime(b2);
    var b8 := Xtime(b4);
    KeepLaws(false, false, Xtime(b8), b);
    KeepLaws(false, false, b, Xtime(b8));
    XorLaws(Times(k8, k4, k2, k1, b), 0, 0);
    SmallConstants(b);
    XorSums(Keep(k8, Xtime(b8)), Keep(k4, b8), Keep(k2, b4), Keep(k1, b2));
    TimesLinear(k8, k4, k2, k1, b2, b);
    ApplyAdds(Multiplier(k8, k4, k2, k1, false), Multiplier(false, k8, k4, k2, k1), b);
  }

  lemma SmallConstants(b: bv8)
    ensures By2(b) == Xtime(b) && By3(b) == Xor(Xtime(b), b)
  {
    hide Xtime, Xor, Keep;
    var b2 := Xtime(b);
    KeepLaws(false, false, b, Xtime(b2));
    KeepLaws(false, false, b, Xtime(Xtime(b2)));
    KeepLaws(false, false, b, b2);
    KeepLaws(false, false, b2, b);
    XorLaws(Xor(b2, b), 0, 0);
    XorLaws(b2, 0, 0);
    XorLaws(b, 0, 0);
    XorLaws(0, 0, 0);
  }

  lemma XorSums(p: bv8, q: bv8, r: bv8, s: bv8)
    ensures Sum4(p, q, r, s) == Xor(p, Sum4(q, r, s, 0))
  {
    hide Xor;
    XorLaws(p, q, Xor(r, s));
    XorLaws(q, r, s);
    XorLaws(s, 0, 0);
  }

  lemma FourApply(i: Multiplier, j: Multiplier, k: Multiplier, l: Multiplier, b: bv8)
    ensures Sum4(Apply(i, b), Apply(j, b), Apply(k, b), Apply(l, b))
         == Apply(AddMultipliers(AddMultipliers(i, j), AddMultipliers(k, l)), b)
  {
    hide Apply, Xor;
    ApplyAdds(i, j, b);
    ApplyAdds(k, l, b);
    ApplyAdds(AddMultipliers(i, j), AddMultipliers(k, l), b);
  }

  const MUL9: Multiplier := Multiplier(false, true, false, false, true)
  const MULB: Multiplier := Multiplier(false, true, false, true, true)
  const MULD: Multiplier := Multiplier(false, true, true, false, true)
  const MULE: Multiplier := Multiplier(false, true, true, true, false)

  /** The same multiplier times x, and times x + 1. */
  function Doubled(k: Multiplier): Multiplier {
    Multiplier(k.k8, k.k4, k.k2, k.k1, false)
  }

  function Tripled(k: Multiplier): Multiplier {
    AddMultipliers(Doubled(k), k)
  }

  lemma ConstantsApply(b: bv8)
    ensures By9(b) == Apply(MUL9, b) && By9(By2(b)) == Apply(Doubled(MUL9), b) && By9(By3(b)) == Apply(Tripled(MUL9), b)
    ensures ByB(b) == Apply(MULB, b) && ByB(By2(b)) == Apply(Doubled(MULB), b) && ByB(By3(b)) == Apply(Tripled(MULB), b)
    ensures ByD(b) == Apply(MULD, b) && ByD(By2(b)) == Apply(Doubled(MULD), b) && ByD(By3(b)) == Apply(Tripled(MULD), b)
    ensures ByE(b) == Apply(MULE, b) && ByE(By2(b)) == Apply(Doubled(MULE), b) && ByE(By3(b)) == Apply(Tripled(MULE), b)
  {
    hide Times, Apply;
    TimesIsApply(true, false, false, true, b);
    TimesIsApply(true, false, true, true, b);
    TimesIsApply(true, true, false, true, b);
    TimesIsApply(true, true, true, false, b);
  }

  lemma ApplyConstants(b: bv8)
    ensures Apply(Multiplier(false, false, false, false, true), b) == b
    ensures Apply(Multiplier(false, false, false, false, false), b) == 0
  {
    hide Xtime, Xor, Keep;
    var b2 := Xtime(b);
    KeepLaws(false, false, b, b);
    KeepLaws(false, false, b2, b2);
    KeepLaws(false, false, b2, Xtime(b2));
    KeepLaws(false, false, b2, Xtime(Xtime(b2)));
    KeepLaws(false, false, b2, Xtime(Xtime(Xtime(b2))));
    XorLaws(b, 0, 0);
    XorLaws(0, 0, 0);
  }

  /** The product of the two circulant matrices is the identity, entry by entry. */
  lemma MatrixProduct(b: bv8)
    ensures Sum4(ByE(By2(b)), ByB(b), ByD(b), By9(By3(b))) == b
    ensures Sum4(ByE(By3(b)), ByB(By2(b)), ByD(b), By9(b)) == 0
    ensures Sum4(ByE(b), ByB(By3(b)), ByD(By2(b)), By9(b)) == 0
    ensures Sum4(ByE(b), ByB(b), ByD(By3(b)), By9(By2(b))) == 0
  {
    hide Apply, By2, By3, By9, ByB, ByD, ByE, Sum4;
    ConstantsApply(b);
    ApplyConstants(b);
    FourApply(Doubled(MULE), MULB, MULD, Tripled(MUL9), b);
    FourApply(Tripled(MULE), Doubled(MULB), MULD, MUL9, b);
    FourApply(MULE, Tripled(MULB), Doubled(MULD), MUL9, b);
    FourApply(MULE, MULB, Tripled(MULD), Doubled(MUL9), b);
  }

  /** Multiplications by constants commute. */
  lemma ConstantsCommute(b: bv8)
    ensures By2(By9(b)) == By9(By2(b)) && By3(By9(b)) == By9(By3(b))
    ensures By2(ByB(b)) == ByB(By2(b)) && By3(ByB(b)) == ByB(By3(b))
    ensures By2(ByD(b)) == ByD(By2(b)) && By3(ByD(b)) == ByD(By3(b))
    ensures By2(ByE(b)) == ByE(By2(b)) && By3(ByE(b)) == ByE(By3(b))
  {
    hide Xtime, Times;
    XtimeCommutes(true, false, false, true, b);
    XtimeCommutes(true, false, true, true, b);
    XtimeCommutes(true, true, false, true, b);
    XtimeCommutes(true, true, true, false, b);
  }

  lemma XtimeCommutes(k8: bool, k4: bool, k2: bool, k1: bool, b: bv8)
    ensures By2(Times(k8, k4, k2, k1, b)) == Times(k8, k4, k2, k1, By2(b))
    ensures By3(Times(k8, k4, k2, k1, b)) == Times(k8, k4, k2, k1, By3(b))
  {
    hide Xtime, Xor, Keep;
    var t := Times(k8, k4, k2, k1, b);
    var b2 := Xtime(b);
    var b4 := Xtime(b2);
    var b8 := Xtime(b4);
    SmallConstants(b);
    SmallConstants(t);
    XtimeOfKeep(k8, b8);
    XtimeOfKeep(k4, b4);
    XtimeOfKeep(k2, b2);
    XtimeOfKeep(k1, b);
    XtimeLinear(Keep(k8, b8), Keep(k4, b4));
    XtimeLinear(Keep(k2, b2), Keep(k1, b));
    XtimeLinear(Xor(Keep(k8, b8), Keep(k4, b4)), Xor(Keep(k2, b2), Keep(k1, b)));
    TimesLinear(k8, k4, k2, k1, b2, b);
  }

  lemma XtimeOfKeep(k: bool, b: bv8)
    ensures Xtime(Keep(k, b)) == Keep(k, Xtime(b))
  {
  }

  lemma MatrixProductReversed(b: bv8)
    ensures Sum4(By2(ByE(b)), By3(By9(b)), ByD(b), ByB(b)) == b
    ensures Sum4(By2(ByB(b)), By3(ByE(b)), By9(b), ByD(b)) == 0
    ensures Sum4(By2(ByD(b)), By3(ByB(b)), ByE(b), By9(b)) == 0
    ensures Sum4(By2(By9(b)), By3(ByD(b)), ByB(b), ByE(b)) == 0
  {
    hide Apply, By2, By3, By9, ByB, ByD, ByE, Sum4;
    ConstantsCommute(b);
    ConstantsApply(b);
    ApplyConstants(b);
    FourApply(Doubled(MULE), Tripled(MUL9), MULD, MULB, b);
    FourApply(Doubled(MULB), Tripled(MULE), MUL9, MULD, b);
    FourApply(Doubled(MULD), Tripled(MULB), MULE, MUL9, b);
    FourApply(Doubled(MUL9), Tripled(MULD), MULB, MULE, b);
  }

  /** One row of InvMixColumn after MixColumn; the other rows are rotations of it. */
  lemma InvRowOfMix(a: bv8, b: bv8, c: bv8, d: bv8)
    ensures Sum4(ByE(Sum4(By2(a), By3(b), c, d)), ByB(Sum4(a, By2(b), By3(c), d)),
                 ByD(Sum4(a, b, By2(c), By3(d))), By9(Sum4(By3(a), b, c, By2(d)))) == a
  {
    hide Times, Sum4;
    FourTermsLinear(true, true, true, false, By2(a), By3(b), c, d);
    FourTermsLinear(true, false, true, true, a, By2(b), By3(c), d);
    FourTermsLinear(true, true, false, true, a, b, By2(c), By3(d));
    FourTermsLinear(true, false, false, true, By3(a), b, c, By2(d));
    SumTransposed(Column(ByE(By2(a)), ByE(By3(b)), ByE(c), ByE(d)), Column(ByB(a), ByB(By2(b)), ByB(By3(c)), ByB(d)),
                  Column(ByD(a), ByD(b), ByD(By2(c)), ByD(By3(d))), Column(By9(By3(a)), By9(b), By9(c), By9(By2(d))));
    MatrixProduct(a);
    MatrixProduct(b);
    MatrixProduct(c);
    MatrixProduct(d);
    SumRotates(a, a, a, a);
  }

  lemma MixRowOfInv(a: bv8, b: bv8, c: bv8, d: bv8)
    ensures Sum4(By2(Sum4(ByE(a), ByB(b), ByD(c), By9(d))), By3(Sum4(By9(a), ByE(b), ByB(c), ByD(d))),
                 Sum4(ByD(a), By9(b), ByE(c), ByB(d)), Sum4(ByB(a), ByD(b), By9(c), ByE(d))) == a
  {
    hide Times, Sum4;
    FourTermsLinear(false, false, true, false, ByE(a), ByB(b), ByD(c), By9(d));
    FourTermsLinear(false, false, true, true, By9(a), ByE(b), ByB(c), ByD(d));
    SumTransposed(Column(By2(ByE(a)), By2(ByB(b)), By2(ByD(c)), By2(By9(d))),
                  Column(By3(By9(a)), By3(ByE(b)), By3(ByB(c)), By3(ByD(d))),
                  Column(ByD(a), By9(b), ByE(c), ByB(d)), Column(ByB(a), ByD(b), By9(c), ByE(d)));
    MatrixProductReversed(a);
    MatrixProductReversed(b);
    MatrixProductReversed(c);
    MatrixProductReversed(d);
    SumRotates(a, a, a, a);
  }

  /** Section 5.2: the cyclic permutation of a word. */
  function RotWord(a: Column): Column {
    Column(a.r1, a.r2, a.r3, a.r0)
  }

  lemma RotWordRotates(a: Column, i: int)
    requires 0 <= i < 4
    ensures Byte(RotWord(a), i) == Byte(a, (i + 1) % 4)
  {
    assert i in {0, 1, 2, 3};
  }

  /** The matrices are circulant. */
  lemma MixColumnRotates(a: Column)
    ensures MixColumn(RotWord(a)) == RotWord(MixColumn(a))
    ensures InvMixColumn(RotWord(a)) == RotWord(InvMixColumn(a))
  {
    hide Times, Sum4;
    SumRotates(a.r0, By2(a.r1), By3(a.r2), a.r3);
    SumRotates(a.r0, a.r1, By2(a.r2), By3(a.r3));
    SumRotates(By3(a.r0), a.r1, a.r2, By2(a.r3));
    SumRotates(By2(a.r0), By3(a.r1), a.r2, a.r3);
    SumRotates(By9(a.r0), ByE(a.r1), ByB(a.r2), ByD(a.r3));
    SumRotates(ByD(a.r0), By9(a.r1), ByE(a.r2), ByB(a.r3));
    SumRotates(ByB(a.r0), ByD(a.r1), By9(a.r2), ByE(a.r3));
    SumRotates(ByE(a.r0), ByB(a.r1), ByD(a.r2), By9(a.r3));
  }

  lemma TopRowInverts(a: Column)
    ensures InvMixColumn(MixColumn(a)).r0 == a.r0 && MixColumn(InvMixColumn(a)).r0 == a.r0
  {
    hide By2, By3, By9, ByB, ByD, ByE, Sum4;
    InvRowOfMix(a.r0, a.r1, a.r2, a.r3);
    MixRowOfInv(a.r0, a.r1, a.r2, a.r3);
  }

  lemma MixColumnInverts(a: Column)
    ensures InvMixColumn(MixColumn(a)) == a && MixColumn(InvMixColumn(a)) == a
  {
    hide MixColumn, InvMixColumn;
    var b := RotWord(a);
    var c := RotWord(b);
    var d := RotWord(c);
    TopRowInverts(a);
    TopRowInverts(b);
    TopRowInverts(c);
    TopRowInverts(d);
    MixColumnRotates(a);
    MixColumnRotates(b);
    MixColumnRotates(c);
    MixColumnRotates(MixColumn(a));
    MixColumnRotates(MixColumn(b));
    MixColumnRotates(MixColumn(c));
    MixColumnRotates(InvMixColumn(a));
    MixColumnRotates(InvMixColumn(b));
    MixColumnRotates(InvMixColumn(c));
  }

  // ---- the cipher ---------------------------------------------------------------------

  /** The layers undo each other. */
  lemma LayersInvert(s: Block, k: Block)
    ensures AddRoundKey(AddRoundKey(s, k), k) == s
    ensures InvSubBytes(SubBytes(s)) == s && SubBytes(InvSubBytes(s)) == s
    ensures InvShiftRows(ShiftRows(s)) == s && ShiftRows(InvShiftRows(s)) == s
    ensures InvMixColumns(MixColumns(s)) == s && MixColumns(InvMixColumns(s)) == s
  {
    hide MixColumn, InvMixColumn, SubByte, InvSubByte, Xor;
    AddColumnInverts(s.c0, k.c0);
    AddColumnInverts(s.c1, k.c1);
    AddColumnInverts(s.c2, k.c2);
    AddColumnInverts(s.c3, k.c3);
    SubColumnInverts(s.c0);
    SubColumnInverts(s.c1);
    SubColumnInverts(s.c2);
    SubColumnInverts(s.c3);
    MixColumnInverts(s.c0);
    MixColumnInverts(s.c1);
    MixColumnInverts(s.c2);
    MixColumnInverts(s.c3);
  }

  lemma AddColumnInverts(a: Column, k: Column)
    ensures AddColumn(AddColumn(a, k), k) == a
  {
    hide Xor;
    XorLaws(a.r0, k.r0, k.r0);
    XorLaws(a.r1, k.r1, k.r1);
    XorLaws(a.r2, k.r2, k.r2);
    XorLaws(a.r3, k.r3, k.r3);
    XorLaws(k.r0, k.r0, k.r0);
    XorLaws(k.r1, k.r1, k.r1);
    XorLaws(k.r2, k.r2, k.r2);
    XorLaws(k.r3, k.r3, k.r3);
  }

  lemma SubColumnInverts(a: Column)
    ensures InvSubColumn(SubColumn(a)) == a && SubColumn(InvSubColumn(a)) == a
  {
    hide SubByte, InvSubByte;
    SubByteInverts(a.r0);
    SubByteInverts(a.r1);
    SubByteInverts(a.r2);
    SubByteInverts(a.r3);
  }

  /** The round keys, number 0 first. */
  type Schedule = nat -> Block

  /** Section 5.1: the state after the key additions 0 to r, for r < Nr. */
  ghost function EncryptRounds(data: Block, w: Schedule, r: nat): Block {
    if r == 0 then AddRoundKey(data, w(0))
    else AddRoundKey(MixColumns(ShiftRows(SubBytes(EncryptRounds(data, w, r - 1)))), w(r))
  }

  ghost function Cipher(data: Block, w: Schedule, nr: nat): Block
    requires nr > 0
  {
    AddRoundKey(ShiftRows(SubBytes(EncryptRounds(data, w, nr - 1))), w(nr))
  }

  /** Section 5.3: the state after the key additions nr down to nr - r, with the InvMixColumns
      that follows all but the first of them. */
  ghost function DecryptRounds(data: Block, w: Schedule, nr: nat, r: nat): Block
    requires r <= nr
  {
    if r == 0 then AddRoundKey(data, w(nr))
    else InvMixColumns(AddRoundKey(InvSubBytes(InvShiftRows(DecryptRounds(data, w, nr, r - 1))), w(nr - r)))
  }

  ghost function InvCipher(data: Block, w: Schedule, nr: nat): Block
    requires nr > 0
  {
    AddRoundKey(InvSubBytes(InvShiftRows(DecryptRounds(data, w, nr, nr - 1))), w(0))
  }

  lemma {:induction false} DecryptRetraces(data: Block, w: Schedule, nr: nat, r: nat)
    requires r < nr
    ensures DecryptRounds(Cipher(data, w, nr), w, nr, r) == ShiftRows(SubBytes(EncryptRounds(data, w, nr - 1 - r)))
  {
    hide AddRoundKey, MixColumns, InvMixColumns, ShiftRows, InvShiftRows, SubBytes, InvSubBytes;
    if r == 0 {
      LayersInvert(ShiftRows(SubBytes(EncryptRounds(data, w, nr - 1))), w(nr));
    } else {
      DecryptRetraces(data, w, nr, r - 1);
      var e := EncryptRounds(data, w, nr - r);
      var before := ShiftRows(SubBytes(EncryptRounds(data, w, nr - r - 1)));
      LayersInvert(SubBytes(e), w(0));
      LayersInvert(e, w(0));
      LayersInvert(MixColumns(before), w(nr - r));
      LayersInvert(before, w(0));
    }
  }

  /** Decrypting an encryption returns the block, for every key schedule and round number. */
  lemma InvCipherInvertsCipher(data: Block, w: Schedule, nr: nat)
    requires nr > 0
    ensures InvCipher(Cipher(data, w, nr), w, nr) == data
  {
    hide AddRoundKey, MixColumns, InvMixColumns, ShiftRows, InvShiftRows, SubBytes, InvSubBytes;
    DecryptRetraces(data, w, nr, nr - 1);
    var e := EncryptRounds(data, w, 0);
    LayersInvert(SubBytes(e), w(0));
    LayersInvert(e, w(0));
    LayersInvert(data, w(0));
  }

  // ---- the key schedule ---------------------------------------------------------------

  /** Rcon[j] of section 5.2: {02} to the power j - 1 in the first byte. */
  function Rcon(j: nat): bv8
    requires j > 0
  {
    if j == 1 then 1 else Xtime(Rcon(j - 1))
  }

  /** Section 5.2: word i of the key expansion. */
  ghost function ScheduleWord(key: seq<Column>, i: nat): Column
    requires key != []
  {
    var nk := |key|;
    if i < nk then key[i]
    else
      var temp := ScheduleWord(key, i - 1);
      var t := if i % nk == 0 then AddColumn(SubColumn(RotWord(temp)), Column(Rcon(i / nk), 0, 0, 0))
               else if nk > 6 && i % nk == 4 then SubColumn(temp)
               else temp;
      AddColumn(ScheduleWord(key, i - nk), t)
  }

  /** Round key r is the words 4r to 4r + 3. */
  ghost function RoundKey(key: seq<Column>, r: nat): Block
    requires key != []
  {
    Block(ScheduleWord(key, 4 * r), ScheduleWord(key, 4 * r + 1),
          ScheduleWord(key, 4 * r + 2), ScheduleWord(key, 4 * r + 3))
  }
}
