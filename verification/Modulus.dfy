/** Residues modulo p = x^97 + x^12 + 2: reduction by shift-and-reduce, proved to be the
    residue in the ordinary sense, and multiplication of residues. */
module Modulus {
  import opened F3
  import opened Poly
  import opened F3m

  /** The digits of the constant `PX. */
  const PX: Word := Trinomial(12, M)

  /** x^m + x^k + 2 */
  function Trinomial(k: nat, m: nat): (w: seq<Digit>)
    ensures |w| == m + 1
    ensures forall i :: 0 <= i <= m ==> w[i] == if i == 0 then TWO else if i == k || i == m then ONE else ZERO
  {
    seq(m + 1, i => if i == 0 then TWO else if i == k || i == m then ONE else ZERO)
  }

  const P: Poly := ToPoly(PX)

  ghost predicate Congruent(a: Poly, b: Poly) {
    exists q: Poly :: a == Plus(b, Times(q, P))
  }

  /** The irreducibility of p, the hypothesis under which the residues form a field. */
  ghost predicate Irreducible() {
    forall a: Poly, b: Poly :: Times(a, b) == P ==> Len(a) == 1 || Len(b) == 1
  }

  /** x * e mod p, on elements. */
  function XTimes(e: Elem): Elem {
    Func3(Widen(e))[..M]
  }

  /** e / x mod p, on elements. */
  function XDivide(e: Elem): Elem {
    Func5(Widen(e))[..M]
  }

  function Constant(c: Digit): (e: Elem)
    ensures e[0] == c && forall i :: 1 <= i < M ==> e[i] == ZERO
  {
    [c] + Zeros(M - 1)
  }

  const OneElem: Elem := Constant(ONE)

  /** The residue of a polynomial, by shift-and-reduce. */
  function Red(f: Poly): Elem {
    if f.Nil? then Zero else VAdd(Constant(f.c), XTimes(Red(f.t)))
  }

  /** f(X) applied to v, where X is multiplication by x: f * v mod p. */
  function Act(f: Poly, v: Elem): Elem {
    if f.Nil? then Zero else VAdd(VScale(f.c, v), XTimes(Act(f.t, v)))
  }

  /** The product of two residues. */
  function FMul(a: Elem, b: Elem): Elem {
    Act(ToPoly(a), b)
  }

  // ---- multiplication by x ------------------------------------------------------------

  lemma XTimesDigits(e: Elem)
    ensures XTimes(e)[0] == e[96]
    ensures XTimes(e)[12] == Sub(e[11], e[96])
    ensures forall i :: 1 <= i < M && i != 12 ==> XTimes(e)[i] == e[i - 1]
  {
    DigitLaws(e[96], e[11], ZERO);
  }

  lemma Func3OnElem(e: Elem)
    ensures Func3(Widen(e)) == Widen(XTimes(e))
    ensures Func5(Widen(e)) == Widen(XDivide(e))
  {
  }

  /** x is invertible modulo p: `func5` and `func3` undo each other. */
  lemma XInvertible(e: Elem)
    ensures XTimes(XDivide(e)) == e && XDivide(XTimes(e)) == e
  {
    var d, t := XDivide(e), XTimes(e);
    XTimesDigits(d);
    XTimesDigits(e);
    SubAddCancel(e[12], e[0]);
    SubAddCancel(e[11], e[96]);
    forall i | 0 <= i < M
      ensures XTimes(d)[i] == e[i]
    {
      if i != 0 && i != 12 {
        assert XTimes(d)[i] == d[i - 1];
      }
    }
    forall i | 0 <= i < M
      ensures XDivide(t)[i] == e[i]
    {
      if i != 96 && i != 11 {
        assert XDivide(t)[i] == t[i + 1];
      }
    }
  }

  lemma SubAddCancel(a: Digit, b: Digit)
    ensures Sub(Add(a, b), b) == a && Add(Sub(a, b), b) == a
  {
  }

  lemma XTimesLinear(a: Elem, b: Elem, k: Digit)
    ensures XTimes(VAdd(a, b)) == VAdd(XTimes(a), XTimes(b))
    ensures XTimes(VScale(k, a)) == VScale(k, XTimes(a))
    ensures XTimes(Zero) == Zero
  {
    var sum, scaled := VAdd(a, b), VScale(k, a);
    XTimesDigits(a);
    XTimesDigits(b);
    XTimesDigits(sum);
    XTimesDigits(scaled);
    XTimesDigits(Zero);
    SubLinear(a[11], a[96], b[11], b[96], k);
    forall i | 0 <= i < M
      ensures XTimes(sum)[i] == VAdd(XTimes(a), XTimes(b))[i]
    {
      if i != 0 && i != 12 {
        assert XTimes(sum)[i] == sum[i - 1];
      }
    }
    forall i | 0 <= i < M
      ensures XTimes(scaled)[i] == VScale(k, XTimes(a))[i]
    {
      if i != 0 && i != 12 {
        assert XTimes(scaled)[i] == scaled[i - 1];
      }
    }
    forall i | 0 <= i < M
      ensures XTimes(Zero)[i] == Zero[i]
    {
    }
  }

  lemma SubLinear(a: Digit, c: Digit, b: Digit, d: Digit, k: Digit)
    ensures Sub(Add(a, b), Add(c, d)) == Add(Sub(a, c), Sub(b, d))
    ensures Sub(Mult(a, k), Mult(c, k)) == Mult(Sub(a, c), k)
  {
  }

  /** x * e = (x * e mod p) + top * p, as polynomials. */
  lemma ShiftIsXTimes(e: Elem)
    ensures Shift(ToPoly(e)) == Plus(ToPoly(XTimes(e)), Scale(e[96], P))
  {
    var top := VScale(e[96], PX);
    XTimesDigits(e);
    assert [ZERO] + e == VAdd(Widen(XTimes(e)), top) by {
      forall i | 0 <= i <= M
        ensures ([ZERO] + e)[i] == Add(Widen(XTimes(e))[i], top[i])
      {
        DigitLaws(e[96], if i == 0 then ZERO else e[i - 1], ZERO);
      }
    }
    ToPolyShift(e);
    ToPolyWiden(XTimes(e));
    ToPolyAdd(Widen(XTimes(e)), top);
    ToPolyScale(e[96], PX);
  }

  // ---- reduction ----------------------------------------------------------------------

  lemma {:induction false} RedLinear(f: Poly, g: Poly, k: Digit)
    ensures Red(Plus(f, g)) == VAdd(Red(f), Red(g))
    ensures Red(Scale(k, f)) == VScale(k, Red(f))
  {
    RedScale(k, f);
    VAddLaws(Red(f), Red(g), Zero);
    if f.Cons? && g.Cons? {
      RedLinear(f.t, g.t, k);
      XTimesLinear(Red(f.t), Red(g.t), k);
      RedHorner(Add(f.c, g.c), Plus(f.t, g.t));
      ConstantSum(f.c, g.c, k);
      VAddSwap(Constant(f.c), Constant(g.c), XTimes(Red(f.t)), XTimes(Red(g.t)));
    }
  }

  lemma {:induction false} RedScale(k: Digit, f: Poly)
    ensures Red(Scale(k, f)) == VScale(k, Red(f))
  {
    if f.Cons? {
      RedScale(k, f.t);
      RedHorner(Mult(k, f.c), Scale(k, f.t));
      ConstantSum(f.c, ZERO, k);
      XTimesLinear(Red(f.t), Zero, k);
      VScaleLaws(k, ZERO, Constant(f.c), XTimes(Red(f.t)));
    } else {
      VScaleLaws(k, ZERO, Zero, Zero);
    }
  }

  lemma ConstantSum(c: Digit, d: Digit, k: Digit)
    ensures Constant(Add(c, d)) == VAdd(Constant(c), Constant(d))
    ensures Constant(Mult(k, c)) == VScale(k, Constant(c))
    ensures Constant(ZERO) == Zero
  {
    DigitLaws(c, d, k);
    DigitLaws(ZERO, ZERO, k);
  }

  lemma RedHorner(c: Digit, t: Poly)
    ensures Red(Horner(c, t)) == VAdd(Constant(c), XTimes(Red(t)))
    ensures Red(Shift(t)) == XTimes(Red(t))
  {
    XTimesLinear(Zero, Zero, ZERO);
    ConstantSum(ZERO, ZERO, ZERO);
    VAddLaws(XTimes(Red(t)), Zero, Zero);
  }

  lemma VAddSwap(a: seq<Digit>, b: seq<Digit>, c: seq<Digit>, d: seq<Digit>)
    requires |a| == |b| == |c| == |d|
    ensures VAdd(VAdd(a, b), VAdd(c, d)) == VAdd(VAdd(a, c), VAdd(b, d))
  {
    VAddLaws(a, b, VAdd(c, d));
    VAddLaws(b, c, d);
    VAddLaws(c, b, d);
    VAddLaws(a, c, VAdd(b, d));
  }

  lemma SubZeroDigit()
    ensures forall d: Digit :: Add(d, ZERO) == d == Add(ZERO, d) == Sub(d, ZERO)
    ensures Add(TWO, ONE) == Sub(ONE, ONE) == ZERO
  {
  }

  /** c + x * t on the digits, when t leaves the top free. */
  lemma HornerDigits(c: Digit, t: Elem)
    requires t[96] == ZERO
    ensures VAdd(Constant(c), XTimes(t)) == [c] + t[..96]
  {
    hide XTimes, Add, Sub, Mult, Zeros, Constant, VAdd;
    XTimesDigits(t);
    SubZeroDigit();
    var u := XTimes(t);
    forall i | 0 <= i < M
      ensures Add(Constant(c)[i], u[i]) == ([c] + t[..96])[i]
    {
      if i != 0 && i != 12 {
        assert u[i] == t[i - 1];
      }
    }
  }

  /** An element is its own residue, padded out when it is short. */
  lemma {:induction false} RedPad(v: seq<Digit>)
    requires |v| <= M
    ensures Red(ToPoly(v)) == v + Zeros(M - |v|)
  {
    if v == [] {
      assert [] + Zeros(M) == Zero;
    } else {
      var w := v[1..];
      assert ToPoly(v) == Horner(v[0], ToPoly(w));
      hide ToPoly, XTimes, Add, Mult, Zeros, Constant, VAdd, Red, Horner;
      RedPad(w);
      RedHorner(v[0], ToPoly(w));
      var t: Elem := w + Zeros(M - |w|);
      HornerDigits(v[0], t);
      PadTail(v, Zeros(M - |w|), Zeros(M - |v|));
    }
  }

  lemma PadTail(v: seq<Digit>, y: seq<Digit>, z: seq<Digit>)
    requires v != [] && |v| + |z| == M && y == z + [ZERO]
    ensures [v[0]] + (v[1..] + y)[..96] == v + z
  {
  }

  lemma RedToPoly(e: Elem)
    ensures Red(ToPoly(e)) == e
  {
    RedPad(e);
  }

  /** Reduction of a product, through either factor's residue. */
  lemma {:induction false} RedTimes(f: Poly, g: Poly)
    ensures Red(Times(f, g)) == Act(f, Red(g))
  {
    if f.Cons? {
      RedTimes(f.t, g);
      RedLinear(Scale(f.c, g), Shift(Times(f.t, g)), f.c);
      RedScale(f.c, g);
      RedHorner(ZERO, Times(f.t, g));
    }
  }

  lemma ModulusDigits(e: Elem)
    requires e == PX[1..]
    ensures VAdd(Constant(TWO), XTimes(e)) == Zero
  {
    hide XTimes, Add, Sub, Mult, Zeros, Constant, VAdd, Trinomial, ToPoly;
    XTimesDigits(e);
    SubZeroDigit();
    var u := XTimes(e);
    assert e[11] == PX[12] && e[96] == PX[97];
    forall i | 0 <= i < M
      ensures Add(Constant(TWO)[i], u[i]) == ZERO
    {
      if i != 0 && i != 12 {
        assert u[i] == e[i - 1] == PX[i];
      }
    }
  }

  lemma RedModulus()
    ensures Red(P) == Zero
  {
    hide XTimes, Add, Mult, Zeros, Constant, VAdd, Red, Horner, Trinomial;
    var e: Elem := PX[1..];
    RedToPoly(e);
    RedHorner(TWO, ToPoly(e));
    ModulusDigits(e);
  }

  // ---- the action ---------------------------------------------------------------------

  lemma {:induction false} ActLinear(f: Poly, v: Elem, w: Elem, k: Digit)
    ensures Act(f, VAdd(v, w)) == VAdd(Act(f, v), Act(f, w))
    ensures Act(f, VScale(k, v)) == VScale(k, Act(f, v))
    ensures Act(f, Zero) == Zero
    ensures Act(f, XTimes(v)) == XTimes(Act(f, v))
  {
    if f.Nil? {
      VAddLaws(Zero, Zero, Zero);
      VScaleLaws(k, ZERO, Zero, Zero);
      XTimesLinear(v, w, k);
    } else {
      var c := f.c;
      ActLinear(f.t, v, w, k);
      VScaleLaws(c, ZERO, v, w);
      VScaleLaws(c, k, v, v);
      VScaleLaws(k, c, v, v);
      DigitLaws(c, k, ZERO);
      VScaleLaws(c, ZERO, Zero, Zero);
      VAddLaws(Zero, Zero, Zero);
      XTimesLinear(Act(f.t, v), Act(f.t, w), k);
      XTimesLinear(VScale(c, v), XTimes(Act(f.t, v)), k);
      XTimesLinear(v, w, c);
      VScaleLaws(k, ZERO, VScale(c, v), XTimes(Act(f.t, v)));
      VAddSwap(VScale(c, v), VScale(c, w), XTimes(Act(f.t, v)), XTimes(Act(f.t, w)));
    }
  }

  lemma ActSub(f: Poly, v: Elem, w: Elem)
    ensures Act(f, VSub(v, w)) == VSub(Act(f, v), Act(f, w))
  {
    VSubIsAddScale(v, w);
    VSubIsAddScale(Act(f, v), Act(f, w));
    ActLinear(f, v, VScale(TWO, w), ZERO);
    ActLinear(f, w, w, TWO);
  }

  // ---- residues are residues ----------------------------------------------------------

  /** The quotient that shift-and-reduce leaves behind. */
  ghost function Quotient(f: Poly): Poly {
    if f.Nil? then Nil else Horner(Red(f.t)[96], Quotient(f.t))
  }

  /** f = Red(f) + Quotient(f) * p */
  lemma {:induction false} DivisionByP(f: Poly)
    ensures f == Plus(ToPoly(Red(f)), Times(Quotient(f), P))
  {
    if f.Nil? {
      RedToPoly(Zero);
      assert Zero == [] + Zeros(M);
      ToPolyPad([], M);
    } else {
      DivisionByP(f.t);
      var e, q := Red(f.t), Quotient(f.t);
      var c: Poly := Horner(f.c, Nil);
      // x * (e + q p) = XTimes(e) + (top + x q) p
      ShiftLaws(ZERO, ToPoly(e), Times(q, P));
      ShiftIsXTimes(e);
      TimesHorner(P, e[96], q);
      PlusAssoc(ToPoly(XTimes(e)), Scale(e[96], P), Shift(Times(q, P)));
      ShiftLaws(ZERO, f, f);
      ToPolyConstant(f.c);
      ToPolyAdd(Constant(f.c), XTimes(e));
      PlusAssoc(c, ToPoly(XTimes(e)), Times(Quotient(f), P));
    }
  }

  lemma ToPolyConstant(c: Digit)
    ensures ToPoly(Constant(c)) == Horner(c, Nil)
  {
    assert Constant(c) == [c] + Zeros(M - 1);
    ToPolyPad([c], M - 1);
    assert [c][1..] == [];
  }

  /** Shift-and-reduce decides congruence modulo p: two polynomials have the same residue
      exactly when their difference is a multiple of p. */
  lemma CongruentIffSameResidue(a: Poly, b: Poly)
    ensures Congruent(a, b) <==> Red(a) == Red(b)
  {
    if Congruent(a, b) {
      var q: Poly :| a == Plus(b, Times(q, P));
      RedLinear(b, Times(q, P), ZERO);
      RedTimes(q, P);
      RedModulus();
      ActLinear(q, Zero, Zero, ZERO);
      VAddLaws(Red(b), Zero, Zero);
    }
    if Red(a) == Red(b) {
      var qa, qb := Quotient(a), Quotient(b);
      var e := ToPoly(Red(a));
      DivisionByP(a);
      DivisionByP(b);
      // a = e + qa p = e + (qb + (qa - qb)) p = b + (qa - qb) p
      MinusLaws(qa, qb);
      PlusComm(Minus(qa, qb), qb);
      TimesPlus(qb, Minus(qa, qb), P);
      PlusAssoc(e, Times(qb, P), Times(Minus(qa, qb), P));
      assert a == Plus(b, Times(Minus(qa, qb), P));
    }
  }

  // ---- products of elements -----------------------------------------------------------

  lemma FMulIsProduct(a: Elem, b: Elem)
    ensures FMul(a, b) == Red(Times(ToPoly(a), ToPoly(b)))
    ensures FMul(a, b) == FMul(b, a)
  {
    RedTimes(ToPoly(a), ToPoly(b));
    RedTimes(ToPoly(b), ToPoly(a));
    RedToPoly(a);
    RedToPoly(b);
    TimesComm(ToPoly(a), ToPoly(b));
  }

  /** So of all elements it alone is congruent to the product modulo p. */
  lemma FMulIsOnlyProduct(a: Elem, b: Elem, e: Elem)
    ensures Congruent(ToPoly(e), Times(ToPoly(a), ToPoly(b))) <==> e == FMul(a, b)
  {
    FMulIsProduct(a, b);
    RedToPoly(e);
    CongruentIffSameResidue(ToPoly(e), Times(ToPoly(a), ToPoly(b)));
  }

  lemma TimesOneElem(a: Elem)
    ensures FMul(a, OneElem) == a == Red(ToPoly(a))
  {
    ToPolyConstant(ONE);
    RedToPoly(OneElem);
    RedToPoly(a);
    RedTimes(ToPoly(a), One);
    TimesOne(ToPoly(a));
  }

  lemma RedOne()
    ensures Red(One) == OneElem
  {
    TimesOneElem(OneElem);
    ToPolyConstant(ONE);
  }
}
