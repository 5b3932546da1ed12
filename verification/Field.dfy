/** GF(3^97): the ring laws of the residues, and inverses under the irreducibility of p. */
module Field {
  import opened F3
  import opened Poly
  import opened F3m
  import opened Modulus
  import opened F3mInv
  import opened F3mCubic

  // ---- ring laws ----------------------------------------------------------------------

  lemma FMulAssoc(a: Elem, b: Elem, c: Elem)
    ensures FMul(FMul(a, b), c) == FMul(a, FMul(b, c))
  {
    var f, g, h := ToPoly(a), ToPoly(b), ToPoly(c);
    RedToPoly(c);
    RedToPoly(b);
    RedTimes(g, h);
    RedTimes(f, Times(g, h));
    RedTimes(f, g);
    RedTimes(h, Times(f, g));
    TimesAssoc(f, g, h);
    TimesComm(Times(f, g), h);
    FMulIsProduct(FMul(a, b), c);
  }

  lemma FMulPlus(a: Elem, b: Elem, c: Elem)
    ensures FMul(a, VAdd(b, c)) == VAdd(FMul(a, b), FMul(a, c))
    ensures FMul(VAdd(b, c), a) == VAdd(FMul(b, a), FMul(c, a))
    ensures FMul(a, VNeg(b)) == VNeg(FMul(a, b)) == FMul(VNeg(a), b)
    ensures FMul(a, Zero) == Zero == FMul(Zero, a)
  {
    hide Act, ToPoly, VAdd, VNeg, VScale;
    ActLinear(ToPoly(a), b, c, TWO);
    ActLinear(ToPoly(b), a, a, TWO);
    VSubIsAddScale(b, b);
    VSubIsAddScale(a, a);
    VSubIsAddScale(FMul(a, b), FMul(a, b));
    FMulIsProduct(a, VAdd(b, c));
    FMulIsProduct(a, b);
    FMulIsProduct(a, c);
    FMulIsProduct(a, VNeg(b));
    FMulIsProduct(VNeg(a), b);
    FMulIsProduct(a, Zero);
  }

  /** a + a = -a, and the double negative. */
  lemma NegLaws(a: Elem, b: Elem)
    ensures VAdd(a, a) == VNeg(a) && VNeg(VNeg(a)) == a
    ensures VNeg(VAdd(a, b)) == VAdd(VNeg(a), VNeg(b))
    ensures VSub(a, b) == VAdd(a, VNeg(b))
  {
    VSubIsAddScale(a, b);
    forall i | 0 <= i < M
      ensures Add(a[i], a[i]) == Neg(a[i]) && Neg(Neg(a[i])) == a[i]
      ensures Neg(Add(a[i], b[i])) == Add(Neg(a[i]), Neg(b[i]))
    {
    }
  }

  /** Every law of a commutative ring of characteristic 3, at one triple. */
  lemma Ring(a: Elem, b: Elem, c: Elem)
    ensures VAdd(a, b) == VAdd(b, a) && VAdd(VAdd(a, b), c) == VAdd(a, VAdd(b, c))
    ensures VAdd(a, Zero) == a == VAdd(Zero, a) && VAdd(a, VNeg(a)) == Zero == VAdd(VNeg(a), a)
    ensures VSub(a, b) == VAdd(a, VNeg(b)) && VAdd(a, a) == VNeg(a) && VNeg(VNeg(a)) == a
    ensures VNeg(VAdd(a, b)) == VAdd(VNeg(a), VNeg(b))
    ensures FMul(a, b) == FMul(b, a) && FMul(FMul(a, b), c) == FMul(a, FMul(b, c))
    ensures FMul(a, VAdd(b, c)) == VAdd(FMul(a, b), FMul(a, c))
    ensures FMul(VAdd(b, c), a) == VAdd(FMul(b, a), FMul(c, a))
    ensures FMul(a, VNeg(b)) == VNeg(FMul(a, b)) == FMul(VNeg(a), b)
    ensures FMul(a, OneElem) == a == FMul(OneElem, a) && FMul(a, Zero) == Zero
  {
    hide Act, ToPoly, VAdd, VNeg, VSub, Red, FMul;
    VAddLaws(a, b, c);
    VAddLaws(VNeg(a), a, c);
    NegLaws(a, b);
    FMulIsProduct(a, b);
    FMulAssoc(a, b, c);
    FMulPlus(a, b, c);
    TimesOneElem(a);
    FMulIsProduct(a, OneElem);
  }

  /** The wired map is multiplicative too: cubing is the Frobenius endomorphism of the field. */
  lemma CubicTimes(a: Elem, b: Elem)
    ensures Cubic(FMul(a, b)) == FMul(Cubic(a), Cubic(b))
  {
    hide FMul, Cubic;
    CubicIsCube(a);
    CubicIsCube(b);
    CubicIsCube(FMul(a, b));
    var aa, bb := FMul(a, a), FMul(b, b);
    Exchange(a, b, a, b);
    Exchange(a, b, aa, bb);
  }

  /** (a b)(c d) = (a c)(b d) */
  lemma Exchange(a: Elem, b: Elem, c: Elem, d: Elem)
    ensures FMul(FMul(a, b), FMul(c, d)) == FMul(FMul(a, c), FMul(b, d))
  {
    hide FMul, VAdd, VNeg, VSub;
    Ring(a, b, FMul(c, d));
    Ring(b, c, d);
    Ring(b, c, d);
    Ring(c, b, d);
    Ring(a, c, FMul(b, d));
  }

  // ---- inverses -----------------------------------------------------------------------

  ghost predicate Divides(g: Poly, f: Poly) {
    exists q: Poly :: f == Times(q, g)
  }

  ghost function Lead(f: Poly): Digit {
    if f.Nil? then ZERO else if f.t.Nil? then f.c else Lead(f.t)
  }

  lemma {:induction false} LeadScale(k: Digit, f: Poly)
    requires k != ZERO
    ensures Lead(Scale(k, f)) == Mult(k, Lead(f))
  {
    DigitLaws(k, k, k);
    if f.Cons? {
      LenScale(k, f.t);
      LeadScale(k, f.t);
      DigitLaws(k, f.c, ZERO);
    }
  }

  lemma {:induction false} LeadShiftBy(n: nat, f: Poly)
    ensures Lead(ShiftBy(n, f)) == Lead(f)
    ensures f.Cons? ==> Lead(f) != ZERO
  {
    if n > 0 {
      LeadShiftBy(n - 1, f);
      LenShiftBy(n - 1, f);
    } else if f.Cons? {
      LeadShiftBy(0, f.t);
    }
  }

  /** Opposite leading terms cancel. */
  lemma {:induction false} LeadsCancel(f: Poly, g: Poly)
    requires f.Cons? && Len(f) == Len(g) && Lead(g) == Neg(Lead(f))
    ensures Len(Plus(f, g)) < Len(f)
  {
    if f.t.Cons? {
      LeadsCancel(f.t, g.t);
    } else {
      DigitLaws(f.c, f.c, f.c);
    }
  }

  /** One step of long division. */
  lemma DivisionStep(f: Poly, g: Poly) returns (w: Poly, r: Poly)
    requires g.Cons? && Len(f) >= Len(g)
    ensures f == Plus(r, Times(w, g)) && Len(r) < Len(f)
  {
    var n := Len(f) - Len(g);
    var k := Mult(Lead(f), Lead(g));
    LeadShiftBy(0, f);
    LeadShiftBy(n, g);
    DigitLaws(Lead(f), Lead(g), Lead(g));
    DigitLaws(Lead(f), Lead(f), Lead(g));
    w := Scale(k, ShiftBy(n, One));
    r := Minus(f, Times(w, g));
    TimesScale(k, ShiftBy(n, One), g);
    TimesShiftBy(n, One, g);
    TimesOne(g);
    var h := Scale(k, ShiftBy(n, g));
    LenShiftBy(n, g);
    LenScale(k, ShiftBy(n, g));
    LeadScale(k, ShiftBy(n, g));
    LenScale(TWO, h);
    LeadScale(TWO, h);
    DigitLaws(Lead(h), TWO, Lead(f));
    LeadsCancel(f, Scale(TWO, h));
    MinusLaws(f, Times(w, g));
  }

  /** Euclid: a common divisor that is a combination. */
  lemma {:induction false} Bezout(f: Poly, g: Poly) returns (u: Poly, v: Poly, d: Poly)
    ensures d == Plus(Times(u, f), Times(v, g)) && Divides(d, f) && Divides(d, g)
    decreases Len(f) + Len(g), if Len(f) < Len(g) then 1 else 0
  {
    if g.Nil? {
      u, v, d := One, Nil, f;
      TimesOne(f);
      assert f == Times(One, f) && g == Times(Nil, f);
    } else if Len(f) < Len(g) {
      v, u, d := Bezout(g, f);
      PlusComm(Times(u, f), Times(v, g));
    } else {
      var w, r := DivisionStep(f, g);
      var u1, v1, d1 := Bezout(r, g);
      d := d1;
      hide *;
      u, v := u1, Minus(v1, Times(u1, w));
      BackSubstitute(u1, v1, w, r, g, f);
      DividesSum(d, r, g, w);
    }
  }

  /** u r + v g = u f + (v - u w) g when f = r + w g. */
  lemma BackSubstitute(u: Poly, v: Poly, w: Poly, r: Poly, g: Poly, f: Poly)
    requires f == Plus(r, Times(w, g))
    ensures Plus(Times(u, r), Times(v, g)) == Plus(Times(u, f), Times(Minus(v, Times(u, w)), g))
  {
    var m := Minus(v, Times(u, w));
    MinusLaws(v, Times(u, w));
    hide *;
    TimesPlus(r, Times(w, g), u);
    TimesAssoc(u, w, g);
    TimesPlus(m, Times(u, w), g);
    var a, b, c := Times(u, r), Times(Times(u, w), g), Times(m, g);
    PlusAssoc(a, b, c);
    PlusComm(b, c);
  }

  lemma DividesSum(d: Poly, r: Poly, g: Poly, w: Poly)
    requires Divides(d, r) && Divides(d, g)
    ensures Divides(d, Plus(r, Times(w, g)))
  {
    var p: Poly :| r == Times(p, d);
    var q: Poly :| g == Times(q, d);
    TimesAssoc(w, q, d);
    TimesPlus(p, Times(w, q), d);
    assert Plus(r, Times(w, g)) == Times(Plus(p, Times(w, q)), d);
  }

  /** Modulo an irreducible p every element but 0 is coprime to p, and the inverter inverts it. */
  lemma FieldInverse(a: Elem)
    requires Irreducible() && a != Zero
    ensures Coprime(ToPoly(a), P) && FMul(a, Inverse(a)) == OneElem
  {
    hide FMul, Inverse;
    var f := ToPoly(a);
    var u, v, d := Bezout(f, P);
    NonzeroElem(a);
    ModulusLen();
    var q: Poly :| P == Times(q, d);
    var s: Poly :| f == Times(s, d);
    LenOfDivisor(q, d, P);
    LenOfDivisor(s, d, f);
    assert Len(d) == 1;
    var k := d.c;
    UnitDivisor(d, f, u, v);
    CoprimeIntro(Scale(k, u), f, Scale(k, v));
    CoprimeIsInverted(a);
  }

  lemma NonzeroElem(a: Elem)
    requires a != Zero
    ensures ToPoly(a).Cons? && Len(ToPoly(a)) <= M
  {
    LenToPoly(a);
    assert Zero == [] + Zeros(M);
    ToPolyPad([], M);
    if ToPoly(a).Nil? {
      ToPolyInjective(a, Zero);
    }
  }

  lemma LenOfDivisor(q: Poly, d: Poly, f: Poly)
    requires f.Cons? && f == Times(q, d)
    ensures q.Cons? && d.Cons? && Len(f) == Len(q) + Len(d) - 1
  {
    TimesNil(q);
    LenTimes(q, d);
  }

  lemma UnitDivisor(d: Poly, f: Poly, u: Poly, v: Poly)
    requires Len(d) == 1 && d == Plus(Times(u, f), Times(v, P))
    ensures Plus(Times(Scale(d.c, u), f), Times(Scale(d.c, v), P)) == One
  {
    var k := d.c;
    DigitLaws(k, k, k);
    assert Scale(k, d) == One;
    hide Plus, Times, Scale;
    ScalePlus(k, Times(u, f), Times(v, P));
    TimesScale(k, u, f);
    TimesScale(k, v, P);
  }

  /** Inverses are unique, so cancelling a nonzero factor is allowed. */
  lemma CancelFactor(a: Elem, b: Elem, c: Elem)
    requires Irreducible() && c != Zero && FMul(a, c) == FMul(b, c)
    ensures a == b
  {
    FieldInverse(c);
    hide *;
    Ring(a, c, Inverse(c));
    Ring(b, c, Inverse(c));
  }
}
