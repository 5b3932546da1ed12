/** Polynomials over GF(3), lowest coefficient first and without leading zeros, so that equal
    polynomials are equal values.  This is the mathematics the field circuits are measured
    against; nothing in it mentions a register. */
module Poly {
  import opened F3

  datatype RawPoly = Nil | Cons(c: Digit, t: RawPoly)

  predicate Normal(p: RawPoly) {
    p.Nil? || (Normal(p.t) && !(p.c == ZERO && p.t.Nil?))
  }

  type Poly = p: RawPoly | Normal(p) witness Nil

  const One: Poly := Cons(ONE, Nil)

  /** c + x * t */
  function Horner(c: Digit, t: Poly): Poly {
    if c == ZERO && t.Nil? then Nil else Cons(c, t)
  }

  /** The number of coefficients: one more than the degree, and 0 for the zero polynomial. */
  function Len(p: Poly): nat {
    if p.Nil? then 0 else 1 + Len(p.t)
  }

  function Head(p: Poly): Digit {
    if p.Nil? then ZERO else p.c
  }

  function Tail(p: Poly): Poly {
    if p.Nil? then Nil else p.t
  }

  function Plus(p: Poly, q: Poly): Poly {
    if p.Nil? then q else if q.Nil? then p else Horner(Add(p.c, q.c), Plus(p.t, q.t))
  }

  function Scale(k: Digit, p: Poly): Poly {
    if p.Nil? then Nil else Horner(Mult(k, p.c), Scale(k, p.t))
  }

  function Minus(p: Poly, q: Poly): Poly {
    Plus(p, Scale(TWO, q))
  }

  function Shift(p: Poly): Poly {
    Horner(ZERO, p)
  }

  /** x^n * p */
  function ShiftBy(n: nat, p: Poly): Poly {
    if n == 0 then p else Shift(ShiftBy(n - 1, p))
  }

  function Times(p: Poly, q: Poly): Poly {
    if p.Nil? then Nil else Plus(Scale(p.c, q), Shift(Times(p.t, q)))
  }

  // ---- additive laws ------------------------------------------------------------------

  lemma {:induction false} PlusComm(p: Poly, q: Poly)
    ensures Plus(p, q) == Plus(q, p)
  {
    if p.Cons? && q.Cons? {
      PlusComm(p.t, q.t);
      DigitLaws(p.c, q.c, ZERO);
    }
  }

  lemma PlusHeadTail(p: Poly, q: Poly)
    ensures Plus(p, q) == Horner(Add(Head(p), Head(q)), Plus(Tail(p), Tail(q)))
  {
    DigitLaws(Head(p), Head(q), ZERO);
  }

  lemma {:induction false} PlusAssoc(p: Poly, q: Poly, r: Poly)
    ensures Plus(Plus(p, q), r) == Plus(p, Plus(q, r))
  {
    if p.Cons? && q.Cons? && r.Cons? {
      PlusAssoc(p.t, q.t, r.t);
      PlusHeadTail(Plus(p, q), r);
      PlusHeadTail(p, Plus(q, r));
      DigitLaws(p.c, q.c, r.c);
    }
  }

  /** (p + q) + (r + s) == (p + r) + (q + s) */
  lemma PlusSwap(p: Poly, q: Poly, r: Poly, s: Poly)
    ensures Plus(Plus(p, q), Plus(r, s)) == Plus(Plus(p, r), Plus(q, s))
  {
    PlusAssoc(p, q, Plus(r, s));
    PlusAssoc(q, r, s);
    PlusComm(q, r);
    PlusAssoc(r, q, s);
    PlusAssoc(p, r, Plus(q, s));
  }

  lemma {:induction false} ScaleLaws(k: Digit, p: Poly)
    ensures Scale(ZERO, p) == Nil && Scale(ONE, p) == p
    ensures Plus(p, Scale(TWO, p)) == Nil
    ensures Scale(k, Horner(Head(p), Tail(p))) == Horner(Mult(k, Head(p)), Scale(k, Tail(p)))
  {
    if p.Cons? {
      ScaleLaws(k, p.t);
      DigitLaws(p.c, k, ZERO);
    } else {
      DigitLaws(k, k, ZERO);
    }
  }

  lemma {:induction false} ScalePlus(k: Digit, p: Poly, q: Poly)
    ensures Scale(k, Plus(p, q)) == Plus(Scale(k, p), Scale(k, q))
  {
    if p.Cons? && q.Cons? {
      ScalePlus(k, p.t, q.t);
      DigitLaws(k, p.c, q.c);
      ScaleHorner(k, Add(p.c, q.c), Plus(p.t, q.t));
      PlusHorner(Mult(k, p.c), Scale(k, p.t), Mult(k, q.c), Scale(k, q.t));
    }
  }

  lemma ScaleHorner(k: Digit, c: Digit, t: Poly)
    ensures Scale(k, Horner(c, t)) == Horner(Mult(k, c), Scale(k, t))
  {
    DigitLaws(k, c, ZERO);
  }

  lemma PlusHorner(c: Digit, t: Poly, d: Digit, u: Poly)
    ensures Plus(Horner(c, t), Horner(d, u)) == Horner(Add(c, d), Plus(t, u))
  {
    DigitLaws(c, d, ZERO);
    PlusComm(t, u);
  }

  lemma {:induction false} ScaleScale(k: Digit, l: Digit, p: Poly)
    ensures Scale(k, Scale(l, p)) == Scale(Mult(k, l), p)
    ensures Scale(Add(k, l), p) == Plus(Scale(k, p), Scale(l, p))
  {
    if p.Cons? {
      ScaleScale(k, l, p.t);
      DigitLaws(k, l, p.c);
      ScaleHorner(k, Mult(l, p.c), Scale(l, p.t));
      PlusHorner(Mult(k, p.c), Scale(k, p.t), Mult(l, p.c), Scale(l, p.t));
    }
  }

  lemma ShiftLaws(k: Digit, p: Poly, q: Poly)
    ensures Shift(Plus(p, q)) == Plus(Shift(p), Shift(q))
    ensures Shift(Scale(k, p)) == Scale(k, Shift(p))
    ensures p.Cons? ==> p == Plus(Horner(p.c, Nil), Shift(p.t))
  {
    PlusHorner(ZERO, p, ZERO, q);
    ScaleHorner(k, ZERO, p);
    DigitLaws(k, k, ZERO);
    if p.Cons? {
      PlusHorner(p.c, Nil, ZERO, p.t);
      DigitLaws(p.c, k, ZERO);
    }
  }

  // ---- the ring -----------------------------------------------------------------------

  lemma {:induction false} TimesNil(p: Poly)
    ensures Times(p, Nil) == Nil
  {
    if p.Cons? {
      TimesNil(p.t);
    }
  }

  lemma {:induction false} TimesHorner(p: Poly, c: Digit, t: Poly)
    ensures Times(Horner(c, t), p) == Plus(Scale(c, p), Shift(Times(t, p)))
    ensures Times(p, Horner(c, t)) == Plus(Scale(c, p), Shift(Times(p, t)))
  {
    ScaleLaws(c, p);
    if p.Cons? {
      TimesHorner(p.t, c, t);
      // p0*(c + x t) + x*(c pt + x (pt t))  ==  c*(p0 + x pt) + x*(p0 t + x (pt t))
      var a, b := Scale(c, p.t), Shift(Times(p.t, t));
      ScaleHorner(p.c, c, t);
      DigitLaws(p.c, c, ZERO);
      PlusHorner(Mult(p.c, c), Scale(p.c, t), ZERO, Plus(a, b));
      PlusAssoc(Scale(p.c, t), a, b);
      PlusComm(Scale(p.c, t), a);
      PlusAssoc(a, Scale(p.c, t), b);
      DigitLaws(Mult(p.c, c), ZERO, ZERO);
      PlusHorner(Mult(c, p.c), a, ZERO, Plus(Scale(p.c, t), b));
    }
  }

  lemma {:induction false} TimesComm(p: Poly, q: Poly)
    ensures Times(p, q) == Times(q, p)
  {
    if p.Nil? {
      TimesNil(q);
    } else {
      TimesHorner(q, p.c, p.t);
      TimesComm(p.t, q);
    }
  }

  lemma {:induction false} TimesPlus(p: Poly, q: Poly, r: Poly)
    ensures Times(Plus(p, q), r) == Plus(Times(p, r), Times(q, r))
    ensures Times(r, Plus(p, q)) == Plus(Times(r, p), Times(r, q))
  {
    if p.Cons? && q.Cons? {
      TimesPlus(p.t, q.t, r);
      TimesHorner(r, Add(p.c, q.c), Plus(p.t, q.t));
      ScaleScale(p.c, q.c, r);
      ShiftLaws(ZERO, Times(p.t, r), Times(q.t, r));
      PlusSwap(Scale(p.c, r), Scale(q.c, r), Shift(Times(p.t, r)), Shift(Times(q.t, r)));
    } else {
      PlusComm(Times(p, r), Times(q, r));
    }
    TimesComm(Plus(p, q), r);
    TimesComm(p, r);
    TimesComm(q, r);
  }

  lemma {:induction false} TimesScale(k: Digit, p: Poly, q: Poly)
    ensures Times(Scale(k, p), q) == Scale(k, Times(p, q))
    ensures Times(p, Scale(k, q)) == Scale(k, Times(p, q))
  {
    if p.Cons? {
      TimesScale(k, p.t, q);
      TimesHorner(q, Mult(k, p.c), Scale(k, p.t));
      ScaleScale(k, p.c, q);
      ScaleScale(p.c, k, q);
      DigitLaws(k, p.c, ZERO);
      ScalePlus(k, Scale(p.c, q), Shift(Times(p.t, q)));
      ShiftLaws(k, Times(p.t, q), Nil);
    }
  }

  lemma TimesShift(p: Poly, q: Poly)
    ensures Times(Shift(p), q) == Shift(Times(p, q))
    ensures Times(p, Shift(q)) == Shift(Times(p, q))
  {
    TimesHorner(q, ZERO, p);
    TimesHorner(p, ZERO, q);
    ScaleLaws(ZERO, q);
    ScaleLaws(ZERO, p);
  }

  lemma {:induction false} TimesAssoc(p: Poly, q: Poly, r: Poly)
    ensures Times(Times(p, q), r) == Times(p, Times(q, r))
  {
    if p.Cons? {
      TimesAssoc(p.t, q, r);
      TimesPlus(Scale(p.c, q), Shift(Times(p.t, q)), r);
      TimesScale(p.c, q, r);
      TimesShift(Times(p.t, q), r);
    }
  }

  lemma TimesOne(p: Poly)
    ensures Times(One, p) == p && Times(p, One) == p
  {
    ScaleLaws(ONE, p);
    TimesComm(One, p);
    assert Times(One, p) == Plus(Scale(ONE, p), Shift(Times(Nil, p)));
    PlusComm(p, Nil);
  }

  lemma {:induction false} TimesShiftBy(n: nat, p: Poly, q: Poly)
    ensures Times(ShiftBy(n, p), q) == ShiftBy(n, Times(p, q))
    ensures Times(q, ShiftBy(n, p)) == ShiftBy(n, Times(q, p))
  {
    if n > 0 {
      TimesShiftBy(n - 1, p, q);
      TimesShift(ShiftBy(n - 1, p), q);
      TimesShift(q, ShiftBy(n - 1, p));
    }
  }

  /** (p - q) + q == p, and p - q vanishes exactly when the two are equal. */
  lemma MinusLaws(p: Poly, q: Poly)
    ensures Plus(Minus(p, q), q) == p && Minus(Plus(p, q), q) == p
    ensures Minus(p, q) == Nil <==> p == q
  {
    ScaleLaws(TWO, q);
    PlusComm(q, Scale(TWO, q));
    PlusAssoc(p, Scale(TWO, q), q);
    PlusAssoc(p, q, Scale(TWO, q));
    PlusComm(p, Nil);
    PlusComm(q, Nil);
  }

  // ---- degrees ------------------------------------------------------------------------

  lemma {:induction false} LenPlus(p: Poly, q: Poly)
    ensures Len(Plus(p, q)) <= if Len(p) <= Len(q) then Len(q) else Len(p)
    ensures Len(p) != Len(q) ==> Len(Plus(p, q)) == if Len(p) <= Len(q) then Len(q) else Len(p)
  {
    if p.Cons? && q.Cons? {
      LenPlus(p.t, q.t);
    }
  }

  lemma {:induction false} LenScale(k: Digit, p: Poly)
    ensures Len(Scale(k, p)) == if k == ZERO then 0 else Len(p)
  {
    if p.Cons? {
      LenScale(k, p.t);
      DigitLaws(k, p.c, ZERO);
    }
  }

  lemma {:induction false} LenTimes(p: Poly, q: Poly)
    requires p.Cons? && q.Cons?
    ensures Len(Times(p, q)) == Len(p) + Len(q) - 1
  {
    LenScale(p.c, q);
    if p.t.Cons? {
      LenTimes(p.t, q);
    }
    LenPlus(Scale(p.c, q), Shift(Times(p.t, q)));
    PlusComm(Scale(p.c, q), Nil);
  }

  lemma {:induction false} LenShiftBy(n: nat, p: Poly)
    ensures Len(ShiftBy(n, p)) == if p.Nil? then 0 else n + Len(p)
    ensures ShiftBy(n, p).Nil? <==> p.Nil?
  {
    if n > 0 {
      LenShiftBy(n - 1, p);
    }
  }
}
