/** `Mixcol`, forward and inverse: eleven-bit sums reduced once, at the end. */
module AesMixcol {
  import opened Fips197
  import opened Gf256

  /** A byte shifted left by the positions of a constant's bits, not reduced. */
  function Wide(k8: bool, k4: bool, k2: bool, k1: bool, b: bv8): bv11 {
    var w := b as bv11;
    WSum(WKeep(k8, w << 3), WKeep(k4, w << 2), WKeep(k2, w << 1), WKeep(k1, w))
  }

  function WKeep(k: bool, a: bv11): bv11 {
    if k then a else 0
  }

  function WXor(a: bv11, b: bv11): bv11 {
    a ^ b
  }

  function WSum(a: bv11, b: bv11, c: bv11, d: bv11): bv11 {
    WXor(WXor(a, b), WXor(c, d))
  }

  // Adding a multiple of the field polynomial when its top bit is set.
  function Clear10(t: bv11): bv11 { WXor(t, WKeep(t & 0x400 != 0, 0x46C)) }
  function Clear9(t: bv11): bv11 { WXor(t, WKeep(t & 0x200 != 0, 0x236)) }
  function Clear8(t: bv11): bv11 { WXor(t, WKeep(t & 0x100 != 0, 0x11B)) }
  function LowByte(t: bv11): bv8 { (t & 0xFF) as bv8 }

  /** Forward: only bit 8 can be set, and one multiple of the field polynomial clears it. */
  function ReduceOnce(t: bv11): bv8 {
    LowByte(Clear8(t))
  }

  /** Inverse: bits 10, 9 and 8 are cleared in turn. */
  function ReduceThrice(t: bv11): bv8 {
    LowByte(Clear8(Clear9(Clear10(t))))
  }

  function W1(b: bv8): bv11 { Wide(false, false, false, true, b) }
  function W2(b: bv8): bv11 { Wide(false, false, true, false, b) }
  function W3(b: bv8): bv11 { Wide(false, false, true, true, b) }
  function W9(b: bv8): bv11 { Wide(true, false, false, true, b) }
  function WB(b: bv8): bv11 { Wide(true, false, true, true, b) }
  function WD(b: bv8): bv11 { Wide(true, true, false, true, b) }
  function WE(b: bv8): bv11 { Wide(true, true, true, false, b) }

  /** Architecture `fwd`. */
  function MixcolFwd(a: Column): Column {
    Column(
      ReduceOnce(WSum(W2(a.r0), W3(a.r1), W1(a.r2), W1(a.r3))),
      ReduceOnce(WSum(W1(a.r0), W2(a.r1), W3(a.r2), W1(a.r3))),
      ReduceOnce(WSum(W1(a.r0), W1(a.r1), W2(a.r2), W3(a.r3))),
      ReduceOnce(WSum(W3(a.r0), W1(a.r1), W1(a.r2), W2(a.r3))))
  }

  /** Architecture `inv`. */
  function MixcolInv(a: Column): Column {
    Column(
      ReduceThrice(WSum(WE(a.r0), WB(a.r1), WD(a.r2), W9(a.r3))),
      ReduceThrice(WSum(W9(a.r0), WE(a.r1), WB(a.r2), WD(a.r3))),
      ReduceThrice(WSum(WD(a.r0), W9(a.r1), WE(a.r2), WB(a.r3))),
      ReduceThrice(WSum(WB(a.r0), WD(a.r1), W9(a.r2), WE(a.r3))))
  }

  lemma WXorLaws(a: bv11, b: bv11, c: bv11)
    ensures WXor(a, b) == WXor(b, a) && WXor(WXor(a, b), c) == WXor(a, WXor(b, c))
    ensures WXor(a, a) == 0 && WXor(a, 0) == a
  {
  }

  /** (a + [j]c) + (b + [k]c) = (a + b) + [j + k]c */
  lemma WXorKeep(a: bv11, b: bv11, j: bool, k: bool, c: bv11)
    ensures WXor(WXor(a, WKeep(j, c)), WXor(b, WKeep(k, c))) == WXor(WXor(a, b), WKeep(j != k, c))
  {
    var x, y := WKeep(j, c), WKeep(k, c);
    WXorLaws(c, c, c);
    WXorLaws(c, 0, c);
    WXorLaws(0, c, c);
    WXorLaws(0, 0, c);
    hide WXor;
    WXorLaws(a, x, WXor(b, y));
    WXorLaws(x, b, y);
    WXorLaws(b, x, y);
    WXorLaws(a, b, WXor(x, y));
  }

  lemma Clear10Linear(a: bv11, b: bv11)
    ensures Clear10(WXor(a, b)) == WXor(Clear10(a), Clear10(b))
  {
    assert WXor(a, b) & 0x400 != 0 <==> (a & 0x400 != 0) != (b & 0x400 != 0);
    hide WXor, WKeep;
    WXorKeep(a, b, a & 0x400 != 0, b & 0x400 != 0, 0x46C);
  }

  lemma Clear9Linear(a: bv11, b: bv11)
    ensures Clear9(WXor(a, b)) == WXor(Clear9(a), Clear9(b))
  {
    assert WXor(a, b) & 0x200 != 0 <==> (a & 0x200 != 0) != (b & 0x200 != 0);
    hide WXor, WKeep;
    WXorKeep(a, b, a & 0x200 != 0, b & 0x200 != 0, 0x236);
  }

  lemma Clear8Linear(a: bv11, b: bv11)
    ensures Clear8(WXor(a, b)) == WXor(Clear8(a), Clear8(b))
  {
    assert WXor(a, b) & 0x100 != 0 <==> (a & 0x100 != 0) != (b & 0x100 != 0);
    hide WXor, WKeep;
    WXorKeep(a, b, a & 0x100 != 0, b & 0x100 != 0, 0x11B);
  }

  lemma LowByteLinear(a: bv11, b: bv11)
    ensures LowByte(WXor(a, b)) == Xor(LowByte(a), LowByte(b))
  {
  }

  lemma ReduceLinear(a: bv11, b: bv11)
    ensures ReduceThrice(WXor(a, b)) == Xor(ReduceThrice(a), ReduceThrice(b))
  {
    hide Clear10, Clear9, Clear8, LowByte, Xor, WXor;
    Clear10Linear(a, b);
    Clear9Linear(Clear10(a), Clear10(b));
    Clear8Linear(Clear9(Clear10(a)), Clear9(Clear10(b)));
    LowByteLinear(Clear8(Clear9(Clear10(a))), Clear8(Clear9(Clear10(b))));
  }

  /** Reducing a wide product gives the product in the field. */
  lemma ReduceWide(k8: bool, k4: bool, k2: bool, k1: bool, b: bv8)
    ensures ReduceThrice(Wide(k8, k4, k2, k1, b)) == Times(k8, k4, k2, k1, b)
  {
    var w := b as bv11;
    ReduceShifts(b);
    hide ReduceThrice, Xor, WXor, Xtime;
    ReduceSum(WKeep(k8, w << 3), WKeep(k4, w << 2), WKeep(k2, w << 1), WKeep(k1, w));
    ReduceKeep(k8, w << 3);
    ReduceKeep(k4, w << 2);
    ReduceKeep(k2, w << 1);
    ReduceKeep(k1, w);
    hide WKeep, Keep, WSum, Sum4;
  }

  lemma ReduceKeep(k: bool, a: bv11)
    ensures ReduceThrice(WKeep(k, a)) == Keep(k, ReduceThrice(a))
  {
    hide ReduceThrice;
    ReduceZero();
  }

  lemma ReduceZero()
    ensures ReduceThrice(0) == 0
  {
    hide WXor;
    WXorLaws(0, 0, 0);
  }

  lemma ReduceShifts(b: bv8)
    ensures var w := b as bv11;
            ReduceThrice(w << 3) == Xtime(Xtime(Xtime(b))) && ReduceThrice(w << 2) == Xtime(Xtime(b))
            && ReduceThrice(w << 1) == Xtime(b) && ReduceThrice(w) == b
  {
    ReduceShift3(b);
    ReduceShift2(b);
    ReduceShift1(b);
    hide *;
  }

  lemma ReduceShift3(b: bv8)
    ensures ReduceThrice(b as bv11 << 3) == Xtime(Xtime(Xtime(b)))
  {
  }

  lemma ReduceShift2(b: bv8)
    ensures ReduceThrice(b as bv11 << 2) == Xtime(Xtime(b))
  {
  }

  lemma ReduceShift1(b: bv8)
    ensures ReduceThrice(b as bv11 << 1) == Xtime(b) && ReduceThrice(b as bv11) == b
  {
  }

  lemma ReduceSum(a: bv11, b: bv11, c: bv11, d: bv11)
    ensures ReduceThrice(WSum(a, b, c, d)) == Sum4(ReduceThrice(a), ReduceThrice(b), ReduceThrice(c), ReduceThrice(d))
  {
    hide ReduceThrice, WXor, Xor;
    ReduceLinear(a, b);
    ReduceLinear(c, d);
    ReduceLinear(WXor(a, b), WXor(c, d));
  }

  /** The inverse circuit is InvMixColumns of section 5.3.3. */
  lemma MixcolInvIsInvMixColumn(a: Column)
    ensures MixcolInv(a) == InvMixColumn(a)
  {
    hide ReduceThrice, WSum, Wide, Times, Sum4;
    ReduceAll(a.r0);
    ReduceAll(a.r1);
    ReduceAll(a.r2);
    ReduceAll(a.r3);
    ReduceSum(WE(a.r0), WB(a.r1), WD(a.r2), W9(a.r3));
    ReduceSum(W9(a.r0), WE(a.r1), WB(a.r2), WD(a.r3));
    ReduceSum(WD(a.r0), W9(a.r1), WE(a.r2), WB(a.r3));
    ReduceSum(WB(a.r0), WD(a.r1), W9(a.r2), WE(a.r3));
  }

  lemma ReduceAll(b: bv8)
    ensures ReduceThrice(W9(b)) == By9(b) && ReduceThrice(WB(b)) == ByB(b)
    ensures ReduceThrice(WD(b)) == ByD(b) && ReduceThrice(WE(b)) == ByE(b)
    ensures ReduceThrice(W2(b)) == By2(b) && ReduceThrice(W3(b)) == By3(b) && ReduceThrice(W1(b)) == b
  {
    hide ReduceThrice, Wide, Times, Xtime;
    ReduceWide(true, false, false, true, b);
    ReduceWide(true, false, true, true, b);
    ReduceWide(true, true, false, true, b);
    ReduceWide(true, true, true, false, b);
    ReduceWide(false, false, true, false, b);
    ReduceWide(false, false, true, true, b);
    ReduceWide(false, false, false, true, b);
    TimesOne(b);
  }

  lemma TimesOne(b: bv8)
    ensures Times(false, false, false, true, b) == b
  {
    hide Xtime, Xor;
    XorLaws(0, 0, 0);
    XorLaws(b, 0, 0);
  }

  /** Below 2^9 one reduction is enough, and the forward sums stay there. */
  lemma OnceIsThrice(t: bv11)
    requires t & 0x600 == 0
    ensures ReduceOnce(t) == ReduceThrice(t)
  {
  }

  lemma SmallSum(a: bv11, b: bv11)
    requires a & 0x600 == 0 && b & 0x600 == 0
    ensures WXor(a, b) & 0x600 == 0
  {
  }

  lemma SmallWide(b: bv8)
    ensures W1(b) & 0x600 == 0 && W2(b) & 0x600 == 0 && W3(b) & 0x600 == 0
  {
  }

  lemma ForwardRow(a: bv11, b: bv11, c: bv11, d: bv11)
    requires a & 0x600 == 0 && b & 0x600 == 0 && c & 0x600 == 0 && d & 0x600 == 0
    ensures ReduceOnce(WSum(a, b, c, d)) == Sum4(ReduceThrice(a), ReduceThrice(b), ReduceThrice(c), ReduceThrice(d))
  {
    hide ReduceThrice, ReduceOnce, WXor, Sum4;
    SmallSum(a, b);
    SmallSum(c, d);
    SmallSum(WXor(a, b), WXor(c, d));
    OnceIsThrice(WSum(a, b, c, d));
    ReduceSum(a, b, c, d);
  }

  /** The forward circuit is MixColumns of section 5.1.3. */
  lemma MixcolFwdIsMixColumn(a: Column)
    ensures MixcolFwd(a) == MixColumn(a)
  {
    hide ReduceThrice, ReduceOnce, WSum, W1, W2, W3, By2, By3, Sum4;
    ReduceAll(a.r0);
    ReduceAll(a.r1);
    ReduceAll(a.r2);
    ReduceAll(a.r3);
    SmallWide(a.r0);
    SmallWide(a.r1);
    SmallWide(a.r2);
    SmallWide(a.r3);
    ForwardRow(W2(a.r0), W3(a.r1), W1(a.r2), W1(a.r3));
    ForwardRow(W1(a.r0), W2(a.r1), W3(a.r2), W1(a.r3));
    ForwardRow(W1(a.r0), W1(a.r1), W2(a.r2), W3(a.r3));
    ForwardRow(W3(a.r0), W1(a.r1), W1(a.r2), W2(a.r3));
  }
}
