/** The elliptic curve y^2 = x^3 - x + 1 over GF(3^97) and its chord-and-tangent addition. */
module Curve {
  import opened F3m
  import opened Modulus
  import opened F3mInv
  import opened F3mCubic
  import opened Field

  datatype Point = Infinity | Affine(x: Elem, y: Elem)

  function Square(a: Elem): Elem {
    FMul(a, a)
  }

  function CubeOf(a: Elem): Elem {
    FMul(a, FMul(a, a))
  }

  /** x^3 - x + 1 */
  function RightHandSide(x: Elem): Elem {
    VAdd(VSub(CubeOf(x), x), OneElem)
  }

  predicate OnCurve(p: Point) {
    p.Affine? ==> Square(p.y) == RightHandSide(p.x)
  }

  function Negate(p: Point): Point {
    if p.Infinity? then p else Affine(p.x, VNeg(p.y))
  }

  /** The third point on the line of slope l through (x1, y1) and abscissa x2, reflected:
      x3 = l^2 - x1 - x2 and y3 = l (x1 - x3) - y1. */
  function Reflected(l: Elem, x1: Elem, y1: Elem, x2: Elem): Point {
    var x3 := VSub(VSub(Square(l), x1), x2);
    Affine(x3, VSub(FMul(l, VSub(x1, x3)), y1))
  }

  /** The slope of the chord, and of the tangent: 2 y y' = -1, so y' = 1 / y. */
  function Slope(p: Point, q: Point): Elem
    requires p.Affine? && q.Affine?
  {
    if p == q then Inverse(p.y) else FMul(VSub(q.y, p.y), Inverse(VSub(q.x, p.x)))
  }

  /** The group law. */
  function Sum(p: Point, q: Point): Point {
    if p.Infinity? then q
    else if q.Infinity? then p
    else if q == Negate(p) then Infinity
    else Reflected(Slope(p, q), p.x, p.y, q.x)
  }

  // ---- the algebra of a line and the curve --------------------------------------------

  /** (a + b)^3 = a^3 + b^3, because the wired cube is additive. */
  lemma CubeAdditive(a: Elem, b: Elem)
    ensures CubeOf(VAdd(a, b)) == VAdd(CubeOf(a), CubeOf(b))
    ensures CubeOf(VNeg(a)) == VNeg(CubeOf(a))
  {
    CubicIsCube(a);
    CubicIsCube(b);
    CubicIsCube(VAdd(a, b));
    CubicLinear(a, b);
    hide FMul, VAdd, VNeg, Cubic;
    Ring(a, a, a);
    Ring(VNeg(a), a, VNeg(FMul(a, a)));
    Ring(a, FMul(a, a), a);
    Ring(VNeg(a), VNeg(a), a);
  }

  /** a + b = c, moved around. */
  lemma Move(a: Elem, b: Elem, c: Elem)
    ensures VAdd(a, b) == c <==> a == VSub(c, b)
  {
    hide *;
    Ring(a, b, VNeg(b));
    Ring(b, b, b);
    Ring(c, VNeg(b), b);
    Ring(c, b, b);
  }

  /** Where the line through (x1, y1) of slope l meets the curve again, at abscissa x1 + t,
      the reflected point is on the curve. */
  lemma ReflectedOnCurve(x1: Elem, y1: Elem, l: Elem, t: Elem)
    requires Square(y1) == RightHandSide(x1)
    requires VSub(FMul(Square(l), t), FMul(l, y1)) == VSub(Square(t), OneElem)
    ensures Square(VAdd(FMul(l, t), y1)) == RightHandSide(VAdd(x1, t))
  {
    var lt, ly := FMul(l, t), FMul(l, y1);
    var lty := FMul(lt, y1);
    assert Square(VAdd(lt, y1)) == VAdd(VSub(Square(lt), lty), Square(y1)) by {
      SquareOfSum(lt, y1);
    }
    assert VSub(Square(lt), lty) == FMul(t, VSub(FMul(Square(l), t), ly)) by {
      FactorT(l, t, y1);
    }
    assert FMul(t, VSub(Square(t), OneElem)) == VSub(CubeOf(t), t) by {
      hide *;
      SubTimes(t, FMul(t, t), OneElem);
      Ring(t, t, t);
    }
    var c1, ct := CubeOf(x1), CubeOf(t);
    CubeAdditive(x1, t);
    hide *;
    // (t^3 - t) + (x1^3 - x1 + 1) = (x1^3 + t^3) - (x1 + t) + 1
    Ring(ct, t, t);
    Ring(c1, x1, x1);
    Ring(VAdd(c1, ct), VAdd(x1, t), t);
    Ring(x1, t, t);
    Ring(VAdd(ct, VNeg(t)), VAdd(c1, VNeg(x1)), OneElem);
    FourTerms(c1, VNeg(x1), ct, VNeg(t));
  }

  lemma FourTerms(a: Elem, b: Elem, c: Elem, d: Elem)
    ensures VAdd(VAdd(c, d), VAdd(a, b)) == VAdd(VAdd(a, c), VAdd(b, d))
  {
    VAddSwap(a, b, c, d);
    VAddLaws(VAdd(c, d), VAdd(a, b), a);
  }

  lemma SubTimes(a: Elem, b: Elem, c: Elem)
    ensures FMul(a, VSub(b, c)) == VSub(FMul(a, b), FMul(a, c)) == FMul(VSub(b, c), a)
  {
    hide *;
    Ring(b, c, c);
    Ring(a, b, VNeg(c));
    Ring(a, c, c);
    Ring(FMul(a, b), FMul(a, c), c);
    Ring(a, VSub(b, c), c);
  }

  /** (a + b)^2 = a^2 - a b + b^2 in characteristic 3, and the difference of squares. */
  lemma SquareOfSum(a: Elem, b: Elem)
    ensures Square(VAdd(a, b)) == VAdd(VSub(Square(a), FMul(a, b)), Square(b))
    ensures FMul(VSub(a, b), VAdd(a, b)) == VSub(Square(a), Square(b))
  {
    var aa, ab, bb := FMul(a, a), FMul(a, b), FMul(b, b);
    assert Square(a) == aa && Square(b) == bb && Square(VAdd(a, b)) == FMul(VAdd(a, b), VAdd(a, b));
    hide *;
    var s := VAdd(a, b);
    Ring(s, a, b);
    Ring(a, a, b);
    Ring(b, a, b);
    Ring(a, b, b);
    // aa + ab + (ab + bb) = aa - ab + bb
    Ring(aa, ab, VAdd(ab, bb));
    Ring(ab, ab, bb);
    Ring(aa, VNeg(ab), bb);
    Ring(aa, ab, bb);
    // a s - b s = (aa + ab) - (ab + bb)
    SubTimes(s, a, b);
    Ring(VAdd(aa, ab), VAdd(ab, bb), bb);
    Ring(ab, bb, bb);
    Ring(ab, VNeg(ab), VNeg(bb));
    Ring(aa, ab, VAdd(VNeg(ab), VNeg(bb)));
    Ring(aa, bb, bb);
    Ring(VNeg(bb), bb, bb);
  }

  lemma FactorT(l: Elem, t: Elem, y: Elem)
    ensures VSub(Square(FMul(l, t)), FMul(FMul(l, t), y)) == FMul(t, VSub(FMul(Square(l), t), FMul(l, y)))
  {
    var lt, ll, ly := FMul(l, t), FMul(l, l), FMul(l, y);
    assert Square(lt) == FMul(lt, lt) && Square(l) == ll;
    hide *;
    SubTimes(t, FMul(ll, t), ly);
    Ring(l, t, lt);
    Ring(t, l, lt);
    Ring(l, l, t);
    Ring(t, FMul(ll, t), t);
    Ring(l, lt, t);
    Ring(l, t, y);
    Ring(t, l, y);
  }

  /** The slope of a chord of the curve: l (y1 + y2) = dx^2 - 1. */
  lemma ChordSlope(x1: Elem, y1: Elem, x2: Elem, y2: Elem, l: Elem)
    requires Irreducible() && x1 != x2
    requires Square(y1) == RightHandSide(x1) && Square(y2) == RightHandSide(x2)
    requires FMul(l, VSub(x2, x1)) == VSub(y2, y1)
    ensures FMul(l, VAdd(y2, y1)) == VSub(Square(VSub(x2, x1)), OneElem)
  {
    var dx, s := VSub(x2, x1), VAdd(y2, y1);
    DifferenceNonzero(x2, x1);
    SquareOfSum(y2, y1);
    DifferenceOfCubics(x2, x1);
    assert FMul(VSub(y2, y1), s) == VSub(CubeOf(dx), dx);
    var dd := FMul(dx, dx);
    assert CubeOf(dx) == FMul(dx, dd) && Square(dx) == dd;
    hide *;
    // (l s) dx = (dx^2 - 1) dx
    Ring(l, dx, s);
    Ring(dx, s, s);
    Ring(l, s, dx);
    SubTimes(dx, dd, OneElem);
    Ring(dx, dd, dd);
    CancelFactor(FMul(l, s), VSub(dd, OneElem), dx);
  }

  lemma DifferenceNonzero(a: Elem, b: Elem)
    ensures VSub(a, b) == Zero <==> a == b
  {
    Move(Zero, b, a);
    VAddLaws(b, b, b);
  }

  lemma DifferenceOfCubics(x2: Elem, x1: Elem)
    ensures VSub(RightHandSide(x2), RightHandSide(x1)) == VSub(CubeOf(VSub(x2, x1)), VSub(x2, x1))
  {
    var c2, c1 := CubeOf(x2), CubeOf(x1);
    CubeAdditive(x2, VNeg(x1));
    CubeAdditive(x1, x1);
    var a, b := VSub(c2, x2), VSub(c1, x1);
    assert RightHandSide(x2) == VAdd(a, OneElem) && RightHandSide(x1) == VAdd(b, OneElem);
    hide *;
    Ring(x2, x1, x1);
    Ring(c2, x2, x2);
    Ring(c1, x1, x1);
    Ring(VAdd(a, OneElem), VAdd(b, OneElem), a);
    Ring(b, OneElem, a);
    FourTerms(a, OneElem, VNeg(b), VNeg(OneElem));
    Ring(VAdd(VNeg(b), VNeg(OneElem)), VAdd(a, OneElem), a);
    Ring(OneElem, a, a);
    Ring(VAdd(a, VNeg(b)), a, a);
    // (c2 - x2) - (c1 - x1) = (c2 - c1) - (x2 - x1)
    Ring(c1, VNeg(x1), x1);
    Ring(x1, x1, x1);
    Ring(x2, VNeg(x1), x1);
    Ring(VAdd(c2, VNeg(c1)), VAdd(x2, VNeg(x1)), x1);
    FourTerms(c2, VNeg(c1), VNeg(x2), x1);
    FourTerms(VNeg(c1), x1, c2, VNeg(x2));
    Ring(VNeg(x2), x1, x1);
    Ring(c2, VNeg(c1), c1);
    Ring(VAdd(VNeg(x2), x1), VAdd(c2, VNeg(c1)), c1);
  }

  /** For a chord, t = x3 - x1 is l^2 - dx and meets the condition of `ReflectedOnCurve`. */
  lemma ChordCondition(x1: Elem, y1: Elem, x2: Elem, y2: Elem, l: Elem)
    requires FMul(l, VSub(x2, x1)) == VSub(y2, y1)
    requires FMul(l, VAdd(y2, y1)) == VSub(Square(VSub(x2, x1)), OneElem)
    ensures var t := VSub(Square(l), VSub(x2, x1));
            VSub(FMul(Square(l), t), FMul(l, y1)) == VSub(Square(t), OneElem)
  {
    var dx, ll := VSub(x2, x1), FMul(l, l);
    var ld := FMul(ll, dx);
    var t := VSub(ll, dx);
    var dd, l4, ly := FMul(dx, dx), FMul(ll, ll), FMul(l, y1);
    assert Square(l) == ll && Square(dx) == dd && Square(ll) == l4;
    SquareOfSum(ll, VNeg(dx));
    assert Square(VNeg(dx)) == FMul(VNeg(dx), VNeg(dx)) && Square(t) == FMul(t, t);
    var tt := Square(t);
    Move(VSub(y2, y1), y1, y2);
    hide *;
    // l (y2 + y1) = l (dy - y1) = ll dx - l y1
    Ring(y2, VNeg(y1), y1);
    Ring(y1, y1, y1);
    Ring(VSub(y2, y1), y1, y1);
    Ring(l, VSub(y2, y1), VNeg(y1));
    Ring(l, y1, y1);
    Ring(l, l, dx);
    assert VAdd(ld, VNeg(ly)) == VSub(dd, OneElem);
    // tt = l4 + ld + dd
    Ring(ll, dx, dx);
    Ring(dx, dx, dx);
    Ring(VNeg(dx), dx, dx);
    Ring(l4, VNeg(ld), dd);
    Ring(ld, dd, dd);
    Ring(l4, dx, dx);
    assert tt == VAdd(VAdd(l4, ld), dd);
    // ll t - l y1 = (l4 - ld) + (dd - 1 - ld) = l4 + ld + dd - 1
    SubTimes(ll, ll, dx);
    Ring(FMul(ll, t), ly, ly);
    Ring(VNeg(ly), ld, VNeg(ld));
    Ring(ld, VNeg(ly), ld);
    Ring(dd, OneElem, VNeg(ld));
    Ring(l4, ld, ld);
    Ring(VNeg(ld), VNeg(ld), VSub(dd, OneElem));
    Ring(VSub(dd, OneElem), VNeg(ld), ld);
    Ring(l4, VNeg(ld), VAdd(VNeg(ld), VSub(dd, OneElem)));
    Ring(l4, VAdd(VNeg(ld), VNeg(ld)), VSub(dd, OneElem));
    Ring(VAdd(l4, ld), dd, VNeg(OneElem));
    Ring(tt, OneElem, OneElem);
  }

  /** For a tangent, t = l^2 and l y1 = 1. */
  lemma TangentCondition(y1: Elem, l: Elem)
    requires FMul(l, y1) == OneElem
    ensures VSub(FMul(Square(l), Square(l)), FMul(l, y1)) == VSub(Square(Square(l)), OneElem)
  {
  }

  lemma SquareOfNeg(a: Elem)
    ensures Square(VNeg(a)) == Square(a)
  {
    hide VNeg, FMul;
    Ring(a, a, a);
    Ring(VNeg(a), a, a);
  }

  /** The reflected point, by t = x3 - x1. */
  lemma ReflectedByT(l: Elem, x1: Elem, y1: Elem, x2: Elem, t: Elem)
    requires t == VSub(VSub(VSub(Square(l), x1), x2), x1)
    ensures Reflected(l, x1, y1, x2) == Affine(VAdd(x1, t), VNeg(VAdd(FMul(l, t), y1)))
  {
    var x3 := VSub(VSub(Square(l), x1), x2);
    assert Reflected(l, x1, y1, x2) == Affine(x3, VSub(FMul(l, VSub(x1, x3)), y1));
    hide *;
    Ring(x3, x1, x1);
    Ring(x3, VNeg(x1), x1);
    Ring(x1, t, t);
    Ring(x1, x3, x3);
    Ring(x1, x1, t);
    Ring(t, x1, x1);
    // x1 - x3 = -t
    Ring(VNeg(x1), VNeg(t), x1);
    Ring(x1, VNeg(x1), VNeg(t));
    Ring(VNeg(t), t, t);
    Ring(l, t, t);
    Ring(FMul(l, t), y1, y1);
    Ring(FMul(l, VNeg(t)), y1, y1);
  }

  /** l^2 - x1 - x2 - x1 = l^2 - (x2 - x1) in characteristic 3. */
  lemma ChordT(ll: Elem, x1: Elem, x2: Elem)
    ensures VSub(VSub(VSub(ll, x1), x2), x1) == VSub(ll, VSub(x2, x1))
  {
    hide *;
    Ring(ll, x1, x1);
    Ring(VSub(ll, x1), x2, x1);
    Ring(VSub(VSub(ll, x1), x2), x1, x1);
    Ring(ll, VNeg(x1), VNeg(x2));
    Ring(ll, VAdd(VNeg(x1), VNeg(x2)), VNeg(x1));
    Ring(VNeg(x1), VNeg(x2), VNeg(x1));
    Ring(VNeg(x2), VNeg(x1), VNeg(x1));
    Ring(VNeg(x1), x1, x1);
    Ring(x1, x1, x1);
    Ring(x2, x1, x1);
    Ring(x2, VNeg(x1), x1);
    Ring(ll, VSub(x2, x1), x1);
  }

  lemma NotOwnNegative(y: Elem)
    ensures y == VNeg(y) <==> y == Zero
  {
    hide *;
    Ring(y, VNeg(y), y);
    Ring(y, y, y);
    Ring(Zero, y, y);
  }

  /** Two points of the curve over one abscissa are equal or opposite: the cases of `Sum` are
      exhaustive. */
  lemma SameAbscissa(p: Point, q: Point)
    requires Irreducible() && p.Affine? && q.Affine? && OnCurve(p) && OnCurve(q) && p.x == q.x
    ensures p == q || q == Negate(p)
  {
    var a, b := q.y, p.y;
    SquareOfSum(a, b);
    DifferenceNonzero(a, b);
    DifferenceNonzero(Square(a), Square(b));
    hide FMul, VAdd, VSub, VNeg;
    if a != b {
      Ring(VSub(a, b), VAdd(a, b), a);
      Ring(Zero, VSub(a, b), a);
      Ring(VSub(a, b), Zero, a);
      CancelFactor(VAdd(a, b), Zero, VSub(a, b));
      Move(a, b, Zero);
      Ring(Zero, b, b);
      Ring(VNeg(b), b, b);
    }
  }

  /** The slope meets its equation: l dx = dy for a chord, l y = 1 for a tangent. */
  lemma SlopeEquation(p: Point, q: Point)
    requires Irreducible() && p.Affine? && q.Affine? && OnCurve(p) && OnCurve(q) && q != Negate(p)
    ensures p == q ==> FMul(Slope(p, q), p.y) == OneElem
    ensures p != q ==> p.x != q.x && FMul(Slope(p, q), VSub(q.x, p.x)) == VSub(q.y, p.y)
  {
    hide FMul, VSub, VNeg, Inverse;
    var l := Slope(p, q);
    if p == q {
      NotOwnNegative(p.y);
      FieldInverse(p.y);
      FMulIsProduct(l, p.y);
    } else {
      if p.x == q.x {
        SameAbscissa(p, q);
      }
      var dx, dy := VSub(q.x, p.x), VSub(q.y, p.y);
      DifferenceNonzero(q.x, p.x);
      FieldInverse(dx);
      Ring(dy, Inverse(dx), dx);
      Ring(dx, Inverse(dx), dx);
      Ring(dy, dx, dx);
    }
  }

  /** The displacement t = x3 - x1 of the sum meets the condition of `ReflectedOnCurve`. */
  lemma SlopeCondition(p: Point, q: Point)
    requires Irreducible() && p.Affine? && q.Affine? && OnCurve(p) && OnCurve(q) && q != Negate(p)
    ensures var l := Slope(p, q);
            var t := VSub(Square(l), VSub(q.x, p.x));
            VSub(FMul(Square(l), t), FMul(l, p.y)) == VSub(Square(t), OneElem)
  {
    hide FMul, VSub, VAdd, VNeg, RightHandSide, Inverse;
    var l := Slope(p, q);
    SlopeEquation(p, q);
    if p == q {
      DifferenceNonzero(q.x, p.x);
      Ring(Square(l), Zero, Zero);
      Ring(Zero, Zero, Zero);
      TangentCondition(p.y, l);
    } else {
      ChordSlope(p.x, p.y, q.x, q.y, l);
      ChordCondition(p.x, p.y, q.x, q.y, l);
    }
  }

  /** Chord-and-tangent addition stays on the curve. */
  lemma SumOnCurve(p: Point, q: Point)
    requires Irreducible() && OnCurve(p) && OnCurve(q)
    ensures OnCurve(Sum(p, q))
  {
    if p.Affine? && q.Affine? && q != Negate(p) {
      SlopeCondition(p, q);
      hide FMul, VSub, VAdd, VNeg, RightHandSide, Inverse, Slope, Reflected;
      var l := Slope(p, q);
      ChordT(Square(l), p.x, q.x);
      var t := VSub(Square(l), VSub(q.x, p.x));
      ReflectedOnCurve(p.x, p.y, l, t);
      ReflectedByT(l, p.x, p.y, q.x, t);
      SquareOfNeg(VAdd(FMul(l, t), p.y));
    }
  }

  // ---- the formulas of the circuits ---------------------------------------------------

  /** `func10`: x1 + (1/y1)^2 and -(y1 + (1/y1)^3). */
  function DoubleFormula(x1: Elem, y1: Elem): Point {
    var v1 := Inverse(y1);
    Affine(VAdd(x1, FMul(v1, v1)), VNeg(VAdd(y1, Cubic(v1))))
  }

  /** `func11`: v4^2 - (x1 + x2) and (y1 + y2) - v4^3, where v4 is the slope. */
  function ChordFormula(x1: Elem, y1: Elem, x2: Elem, y2: Elem): Point {
    var v4 := FMul(VSub(y2, y1), Inverse(VSub(x2, x1)));
    Affine(VSub(FMul(v4, v4), VAdd(x1, x2)), VSub(VAdd(y1, y2), Cubic(v4)))
  }

  lemma DoubleFormulaIsTangent(x1: Elem, y1: Elem)
    ensures DoubleFormula(x1, y1) == Reflected(Inverse(y1), x1, y1, x1)
  {
    var l := Inverse(y1);
    var ll := FMul(l, l);
    var t := VSub(VSub(VSub(Square(l), x1), x1), x1);
    CubicIsCube(l);
    ReflectedByT(l, x1, y1, x1, t);
    ChordT(ll, x1, x1);
    DifferenceNonzero(x1, x1);
    assert Square(l) == ll && DoubleFormula(x1, y1) == Affine(VAdd(x1, ll), VNeg(VAdd(y1, FMul(l, ll))));
    hide *;
    Ring(ll, Zero, Zero);
    Ring(Zero, Zero, Zero);
    Ring(y1, FMul(l, ll), x1);
  }

  lemma ChordFormulaIsChord(x1: Elem, y1: Elem, x2: Elem, y2: Elem)
    requires Irreducible() && x1 != x2
    ensures ChordFormula(x1, y1, x2, y2)
         == Reflected(FMul(VSub(y2, y1), Inverse(VSub(x2, x1))), x1, y1, x2)
  {
    var dx, dy := VSub(x2, x1), VSub(y2, y1);
    var i := Inverse(dx);
    var l := FMul(dy, i);
    var ll := FMul(l, l);
    var t := VSub(VSub(VSub(Square(l), x1), x2), x1);
    DifferenceNonzero(x2, x1);
    FieldInverse(dx);
    CubicIsCube(l);
    ReflectedByT(l, x1, y1, x2, t);
    ChordT(ll, x1, x2);
    var l3 := FMul(l, ll);
    assert Square(l) == ll;
    assert ChordFormula(x1, y1, x2, y2) == Affine(VSub(ll, VAdd(x1, x2)), VSub(VAdd(y1, y2), l3));
    hide *;
    // x: l^2 - (x1 + x2) = x1 + t
    Move(x1, t, VSub(VSub(ll, x1), x2));
    Ring(ll, x1, x2);
    Ring(VSub(ll, x1), x2, x2);
    Ring(ll, VNeg(x1), VNeg(x2));
    Ring(x1, x2, x2);
    Ring(ll, VAdd(x1, x2), x2);
    Ring(x1, t, t);
    Move(t, x1, VSub(VSub(ll, x1), x2));
    // y: -(l t + y1) = -(l^3 - dy + y1) = (y1 + y2) - l^3
    Ring(dy, i, dx);
    Ring(dx, i, i);
    Ring(dy, dx, dx);
    assert FMul(l, dx) == dy;
    SubTimes(l, ll, dx);
    Ring(l3, dy, dy);
    Ring(y2, y1, y1);
    Ring(dy, dy, dy);
    Ring(l3, VNeg(dy), y1);
    Ring(l3, VAdd(VNeg(dy), y1), y1);
    Ring(VNeg(dy), y1, y1);
    Ring(y2, VNeg(y1), VNeg(y1));
    Ring(y1, y1, y1);
    Ring(VNeg(y1), y1, y1);
    Ring(y1, y2, l3);
    Ring(VAdd(y1, y2), l3, l3);
    Ring(VNeg(l3), VAdd(y1, y2), l3);
  }

  /** The two circuits compute the group law in their cases. */
  lemma FormulasComputeSum(p: Point, q: Point)
    requires Irreducible() && p.Affine? && q.Affine? && OnCurve(p) && OnCurve(q) && q != Negate(p)
    ensures p == q ==> DoubleFormula(p.x, p.y) == Sum(p, q)
    ensures p != q ==> ChordFormula(p.x, p.y, q.x, q.y) == Sum(p, q)
  {
    hide Inverse, FMul, Reflected, DoubleFormula, ChordFormula;
    SlopeEquation(p, q);
    if p == q {
      DoubleFormulaIsTangent(p.x, p.y);
    } else {
      ChordFormulaIsChord(p.x, p.y, q.x, q.y);
    }
  }
}
