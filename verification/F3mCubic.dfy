/** `f3m_cubic`: the hand-wired Frobenius map, shown to be the cube. */
module F3mCubic {
  import opened F3
  import opened Poly
  import opened F3m
  import opened Modulus
  import opened F3mMult

  function Cubic(e: Wires): (c: Wires)
    ensures forall j :: 0 <= j < M ==> c[j] == CubicDigit(e, j)
    ensures LegalBus(e) ==> LegalBus(c)
  {
    seq(M, j requires 0 <= j < M => CubicDigit(e, j))
  }

  /** The gates behind output digit j, in the order the netlist has them: a different pattern
      for each residue of j modulo 3, with other wires near the low end. */
  function CubicDigit(e: Wires, j: int): Trit
    requires 0 <= j < M
  {
    var k := j / 3;
    if j % 3 == 0 then
      if k < 4 then Add(e[k], Add(e[89 + k], e[93 + k]))
      else if k < 12 then Add(e[k], Swap(e[85 + k]))
      else e[k]
    else if j % 3 == 1 then
      if k < 4 then Add(Swap(e[61 + k]), e[65 + k])
      else if k / 4 % 2 == 1 then Add(e[57 + k], Add(e[61 + k], e[65 + k]))
      else Add(e[65 + k], Add(e[57 + k], e[61 + k]))
    else
      if k < 4 then e[33 + k] else Add(Swap(e[29 + k]), e[33 + k])
  }

  /** Cubing x * e multiplies the cube by x^3: digit by digit, the wiring commutes with the
      shift-and-reduce blocks. */
  lemma CubicOfShift(e: Elem)
    ensures Cubic(XTimes(e)) == XTimes(XTimes(XTimes(Cubic(e))))
  {
    var u, c: Elem := XTimes(e), Cubic(e);
    Func7IsXCubed(c);
    XTimesDigits(e);
    hide XTimes, Cubic, Func7, Mult;
    forall j | 0 <= j < M
      ensures Cubic(u)[j] == Func7(c)[j]
    {
      CubicDigitOfShift(e, u, c, j);
    }
  }

  /** u is x * e and c the cube of e. */
  ghost predicate Shifted(e: Elem, u: Elem, c: Elem) {
    && u[0] == e[96] && u[12] == Sub(e[11], e[96])
    && (forall i :: 1 <= i < M && i != 12 ==> u[i] == e[i - 1])
    && (forall i :: 0 <= i < M ==> c[i] == CubicDigit(e, i))
  }

  lemma CubicDigitOfShift(e: Elem, u: Elem, c: Elem, j: int)
    requires 0 <= j < M && Shifted(e, u, c)
    ensures CubicDigit(u, j) == Func7Digit(c, j)
  {
    hide CubicDigit, Func7Digit, Shifted;
    var k := j / 3;
    if j % 3 == 0 {
      CubicDigitOfShift0(e, u, c, k);
    } else if j % 3 == 1 {
      CubicDigitOfShift1(e, u, c, k);
    } else {
      CubicDigitOfShift2(e, u, c, k);
    }
  }

  lemma CubicDigitOfShift0(e: Elem, u: Elem, c: Elem, k: nat)
    requires k <= 32 && Shifted(e, u, c)
    ensures CubicDigit(u, 3 * k) == Func7Digit(c, 3 * k)
  {
    hide Add;
    if k == 0 {
      DigitSums(e[96], e[88], e[92]);
      assert c[94] == CubicDigit(e, 94);
    } else if k == 4 {
      SumCancels(e[3], Add(e[92], e[96]), e[88]);
      assert c[9] == CubicDigit(e, 9) && c[94] == CubicDigit(e, 94);
    } else {
      assert c[3 * k - 3] == CubicDigit(e, 3 * (k - 1));
    }
  }

  lemma CubicDigitOfShift1(e: Elem, u: Elem, c: Elem, k: nat)
    requires k <= 31 && Shifted(e, u, c)
    ensures CubicDigit(u, 3 * k + 1) == Func7Digit(c, 3 * k + 1)
  {
    hide Add;
    if k == 0 {
      assert c[95] == CubicDigit(e, 95);
    } else if k == 4 {
      SumTriples(e[60], e[64], e[68]);
      assert c[10] == CubicDigit(e, 10) && c[95] == CubicDigit(e, 95);
    } else {
      assert c[3 * k - 2] == CubicDigit(e, 3 * (k - 1) + 1);
      if k > 4 {
        DigitSums(e[56 + k], e[60 + k], e[64 + k]);
      }
    }
  }

  lemma CubicDigitOfShift2(e: Elem, u: Elem, c: Elem, k: nat)
    requires k <= 31 && Shifted(e, u, c)
    ensures CubicDigit(u, 3 * k + 2) == Func7Digit(c, 3 * k + 2)
  {
    hide Add;
    if k == 0 {
      assert c[96] == CubicDigit(e, 96);
    } else if k == 4 {
      DigitLaws(e[36], Swap(e[32]), ZERO);
      assert c[11] == CubicDigit(e, 11) && c[96] == CubicDigit(e, 96);
    } else {
      assert c[3 * k - 1] == CubicDigit(e, 3 * (k - 1) + 2);
    }
  }

  lemma DigitSums(p: Digit, q: Digit, r: Digit)
    ensures Add(p, Add(q, r)) == Add(q, Add(r, p)) == Add(r, Add(p, q))
  {
  }

  lemma SumCancels(p: Digit, q: Digit, r: Digit)
    ensures Add(Add(p, q), Swap(Add(r, q))) == Add(p, Swap(r))
  {
  }

  lemma SumTriples(p: Digit, q: Digit, r: Digit)
    ensures Add(Add(Swap(q), r), Swap(Add(Swap(p), q))) == Add(p, Add(q, r))
  {
  }

  lemma CubicLinear(a: Elem, b: Elem)
    ensures Cubic(VAdd(a, b)) == VAdd(Cubic(a), Cubic(b))
  {
    var s := VAdd(a, b);
    hide Add, VAdd, Cubic;
    forall j | 0 <= j < M
      ensures CubicDigit(s, j) == Add(CubicDigit(a, j), CubicDigit(b, j))
    {
      var k := j / 3;
      if j % 3 == 0 {
        if k < 4 {
          SumOfSums(a[k], a[89 + k], a[93 + k], b[k], b[89 + k], b[93 + k]);
        } else if k < 12 {
          SumOfDifferences(a[k], a[85 + k], b[k], b[85 + k]);
        }
      } else if j % 3 == 1 {
        if k < 4 {
          SumOfDifferences(a[65 + k], a[61 + k], b[65 + k], b[61 + k]);
        } else if k / 4 % 2 == 1 {
          SumOfSums(a[57 + k], a[61 + k], a[65 + k], b[57 + k], b[61 + k], b[65 + k]);
        } else {
          SumOfSums(a[65 + k], a[57 + k], a[61 + k], b[65 + k], b[57 + k], b[61 + k]);
        }
      } else if k >= 4 {
        SumOfDifferences(a[33 + k], a[29 + k], b[33 + k], b[29 + k]);
      }
    }
  }

  lemma SumOfSums(p: Digit, q: Digit, r: Digit, s: Digit, t: Digit, u: Digit)
    ensures Add(Add(p, s), Add(Add(q, t), Add(r, u))) == Add(Add(p, Add(q, r)), Add(s, Add(t, u)))
  {
    FourSum(q, t, r, u);
    FourSum(p, s, Add(q, r), Add(t, u));
  }

  lemma FourSum(p: Digit, q: Digit, r: Digit, s: Digit)
    ensures Add(Add(p, q), Add(r, s)) == Add(Add(p, r), Add(q, s))
  {
  }

  lemma SumOfDifferences(p: Digit, q: Digit, r: Digit, s: Digit)
    ensures Add(Add(p, r), Swap(Add(q, s))) == Add(Add(p, Swap(q)), Add(r, Swap(s)))
    ensures Add(Swap(Add(q, s)), Add(p, r)) == Add(Add(Swap(q), p), Add(Swap(s), r))
  {
  }

  // ---- cubing polynomials -------------------------------------------------------------

  ghost function Cube(f: Poly): Poly {
    Times(f, Times(f, f))
  }

  lemma TripleVanishes(f: Poly)
    ensures Plus(Plus(f, f), f) == Nil && Plus(f, Plus(f, f)) == Nil
  {
    ScaleScale(ONE, ONE, f);
    ScaleLaws(ONE, f);
    PlusComm(f, Plus(f, f));
  }

  /** (x + A + A + B) + (A + B + B + y) = x + y */
  lemma MiddleTermsVanish(x: Poly, a: Poly, b: Poly, y: Poly)
    ensures Plus(Plus(Plus(x, a), Plus(a, b)), Plus(Plus(a, b), Plus(b, y))) == Plus(x, y)
  {
    hide Plus;
    var l, r := Plus(Plus(a, a), b), Plus(a, Plus(b, b));
    PlusAssoc(x, a, Plus(a, b));
    PlusAssoc(a, a, b);
    PlusAssoc(Plus(a, b), b, y);
    PlusAssoc(a, b, b);
    PlusAssoc(x, l, Plus(r, y));
    PlusAssoc(l, r, y);
    PlusSwap(Plus(a, a), b, a, Plus(b, b));
    TripleVanishes(a);
    TripleVanishes(b);
    PlusNil(y);
    PlusNil(Nil);
  }

  lemma PlusNil(f: Poly)
    ensures Plus(Nil, f) == f
  {
  }

  /** (p + q)^3 = p^3 + q^3 in characteristic 3. */
  lemma CubePlus(p: Poly, q: Poly)
    ensures Cube(Plus(p, q)) == Plus(Cube(p), Cube(q))
  {
    hide Plus, Times;
    var s := Plus(p, q);
    var pp, pq, qq := Times(p, p), Times(p, q), Times(q, q);
    TimesComm(p, q);
    TimesPlus(p, q, s);
    TimesPlus(p, q, p);
    TimesPlus(p, q, q);
    var ss := Plus(Plus(pp, pq), Plus(pq, qq));
    TimesPlus(p, q, ss);
    TimesPlus(Plus(pp, pq), Plus(pq, qq), p);
    TimesPlus(Plus(pp, pq), Plus(pq, qq), q);
    TimesPlus(pp, pq, p);
    TimesPlus(pq, qq, p);
    TimesPlus(pp, pq, q);
    TimesPlus(pq, qq, q);
    TimesAssoc(q, p, p);
    TimesAssoc(p, q, p);
    TimesAssoc(q, p, q);
    TimesAssoc(p, q, q);
    assert Times(q, pp) == Times(p, pq) && Times(q, pq) == Times(p, qq);
    MiddleTermsVanish(Times(p, pp), Times(p, pq), Times(p, qq), Times(q, qq));
  }

  lemma CubeHorner(c: Digit, t: Poly)
    ensures Cube(Horner(c, t)) == Plus(Horner(c, Nil), Shift(Shift(Shift(Cube(t)))))
  {
    var k: Poly := Horner(c, Nil);
    PlusHorner(c, Nil, ZERO, t);
    DigitLaws(c, c, c);
    assert Horner(c, t) == Plus(k, Shift(t));
    CubeConstant(c);
    hide Plus, Times, Shift, Horner;
    CubePlus(k, Shift(t));
    TimesShift(t, t);
    TimesShift(Shift(t), t);
    TimesShift(t, Shift(t));
    TimesShift(t, Times(t, t));
    TimesShift(t, Shift(Times(t, t)));
    TimesShift(t, Shift(Shift(Times(t, t))));
    TimesShift(Shift(t), Shift(Times(t, t)));
  }

  lemma CubeConstant(c: Digit)
    ensures Cube(Horner(c, Nil)) == Horner(c, Nil)
  {
    assert c in {ZERO, ONE, TWO};
  }

  /** Wiring and cubing agree on the residue of every polynomial. */
  lemma {:induction false} CubicOfRed(f: Poly)
    ensures Cubic(Red(f)) == Red(Cube(f))
  {
    if f.Nil? {
      CubicOfConstant(ZERO);
      ConstantSum(ZERO, ZERO, ZERO);
      assert Cube(f) == Nil;
    } else {
      CubicOfRed(f.t);
      CubeHorner(f.c, f.t);
      assert f == Horner(f.c, f.t);
      assert Red(f) == VAdd(Constant(f.c), XTimes(Red(f.t)));
      assert Red(Horner(f.c, Nil)) == Constant(f.c) by {
        RedHorner(f.c, Nil);
        XTimesLinear(Zero, Zero, ZERO);
        VAddLaws(Constant(f.c), Zero, Zero);
      }
      hide Red, XTimes, VAdd, Constant, Cubic, Cube, Plus, Shift, Horner;
      var g := Cube(f.t);
      CubicLinear(Constant(f.c), XTimes(Red(f.t)));
      CubicOfShift(Red(f.t));
      CubicOfConstant(f.c);
      RedHorner(f.c, g);
      RedHorner(f.c, Shift(g));
      RedHorner(f.c, Shift(Shift(g)));
      RedLinear(Horner(f.c, Nil), Shift(Shift(Shift(g))), ZERO);
    }
  }

  lemma CubicOfConstant(c: Digit)
    ensures Cubic(Constant(c)) == Constant(c)
  {
    var e := Constant(c);
    hide Constant, Cubic;
    forall j | 0 <= j < M
      ensures CubicDigit(e, j) == e[j]
    {
    }
  }

  /** The wired map is the cube of its input, for every field element; so it is additive. */
  lemma CubicIsCube(a: Elem)
    ensures Cubic(a) == FMul(a, FMul(a, a))
  {
    var f := ToPoly(a);
    RedToPoly(a);
    CubicOfRed(f);
    hide ToPoly, Red, Act, Times, Cubic;
    FMulIsProduct(a, a);
    FMulIsProduct(a, FMul(a, a));
    RedTimes(f, Times(f, f));
    RedToPoly(FMul(a, a));
    RedTimes(f, ToPoly(FMul(a, a)));
  }
}
