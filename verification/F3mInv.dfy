/** `f3m_inv`: inversion in GF(3^97) by a shift-style Euclidean algorithm of 2M steps. */
module F3mInv {
  import opened F3
  import opened Poly
  import opened F3m
  import opened Modulus
  import opened Shifter

  /** The registers that an iteration rewrites; d counts in unary. */
  datatype Core = Core(S: TWord, R: TWord, U: TWord, V: TWord, d: Unary)

  type Unary = b: seq<bool> | |b| == 2 * M + 2 witness seq(2 * M + 2, i => false)

  function UnaryOf(k: nat): Unary {
    seq(2 * M + 2, i => i < k)
  }

  /** What `reset` loads. */
  function CoreInit(a: Wires): Core {
    Core(PX, a + [ZERO], [ONE] + Zeros(M), Zeros(M + 1), UnaryOf(0))
  }

  /** One clock edge of S, R, U, V and d. */
  function CoreStep(c: Core): Core {
    var q := Mult(c.S[M], c.R[M]);
    var s2 := Func2(Func1(c.S, c.R, q));
    var v1 := Func1(c.V, c.U, q);
    var d1: Unary := [true] + c.d[..2 * M + 1];
    var d2: Unary := c.d[1..] + [false];
    if c.R[M] == ZERO then
      c.(R := Func2(c.R), U := Func3(c.U), d := d1)
    else if !c.d[0] then
      Core(c.R, s2, Func3(v1), c.U, d1)
    else
      c.(S := s2, V := v1, U := Func5(c.U), d := d2)
  }

  function CoreAt(n: nat, a: Wires): Core {
    if n == 0 then CoreInit(a) else CoreStep(CoreAt(n - 1, a))
  }

  /** The value `done` freezes in C: U / r_m after 2M steps. */
  function Inverse(a: Wires): Elem {
    var c := CoreAt(2 * |a|, a);
    VScale(c.R[M], c.U)[..M]
  }

  // ---- the loop invariant -------------------------------------------------------------

  /** The polynomials behind the registers after n steps. */
  datatype Ghosts = Ghosts(e: nat, d: nat, r: Poly, s: Poly, u: Poly, v: Poly, U: Elem, V: Elem)

  ghost predicate Coprime(f: Poly, g: Poly) {
    exists u: Poly, v: Poly :: Plus(Times(u, f), Times(v, g)) == One
  }

  /** R = x^(e+d) r and S = x^e s with r and s coprime, and U A = x^d r, V A = s modulo p. */
  ghost predicate Invariant(n: nat, a: Elem, c: Core, g: Ghosts) {
    && n == 2 * g.e + g.d
    && c.d == UnaryOf(g.d)
    && LegalWord(c.R) && ToPoly(c.R) == ShiftBy(g.e + g.d, g.r)
    && LegalWord(c.S) && ToPoly(c.S) == ShiftBy(g.e, g.s)
    && Plus(Times(g.u, g.r), Times(g.v, g.s)) == One
    && g.r.Cons?
    && c.U == Widen(g.U) && Act(ToPoly(a), g.U) == Red(ShiftBy(g.d, g.r))
    && c.V == Widen(g.V) && Act(ToPoly(a), g.V) == Red(g.s)
  }

  lemma {:induction false} ShiftByLaws(m: nat, n: nat, k: Digit, p: Poly, q: Poly)
    ensures ShiftBy(m, ShiftBy(n, p)) == ShiftBy(m + n, p)
    ensures ShiftBy(m, Plus(p, q)) == Plus(ShiftBy(m, p), ShiftBy(m, q))
    ensures ShiftBy(m, Scale(k, p)) == Scale(k, ShiftBy(m, p))
  {
    if m > 0 {
      ShiftByLaws(m - 1, n, k, p, q);
      ShiftLaws(k, ShiftBy(m - 1, p), ShiftBy(m - 1, q));
    }
  }

  lemma ModulusLen()
    ensures Len(P) == M + 1
  {
    LenToPoly(PX);
  }

  /** Replacing s by s - w r keeps the Bezout identity. */
  lemma BezoutStep(u: Poly, r: Poly, v: Poly, s: Poly, w: Poly)
    requires Plus(Times(u, r), Times(v, s)) == One
    ensures Plus(Times(Plus(u, Times(v, w)), r), Times(v, Minus(s, Times(w, r)))) == One
  {
    var s2 := Minus(s, Times(w, r));
    MinusLaws(s, Times(w, r));
    TimesPlus(s2, Times(w, r), v);
    TimesPlus(u, Times(v, w), r);
    TimesAssoc(v, w, r);
    PlusComm(Times(v, s2), Times(v, Times(w, r)));
    PlusAssoc(Times(u, r), Times(v, Times(w, r)), Times(v, s2));
  }

  lemma InvariantHoldsInitially(a: Elem, u: Poly, v: Poly) returns (g: Ghosts)
    requires Plus(Times(u, ToPoly(a)), Times(v, P)) == One
    ensures Invariant(0, a, CoreInit(a), g)
  {
    g := Ghosts(0, 0, ToPoly(a), P, u, v, OneElem, Zero);
    hide Add, Mult, ToPoly, Act, Red, Plus, Times, Len;
    CoprimeIsNotZero(ToPoly(a), u, v);
    ToPolyWiden(a);
    InitialWords(a);
    hide Widen, Zeros;
    TimesOneElem(a);
    ActLinear(ToPoly(a), Zero, Zero, ZERO);
    RedModulus();
  }

  lemma InitialWords(a: Elem)
    ensures a + [ZERO] == Widen(a)
    ensures [ONE] + Zeros(M) == Widen(OneElem)
    ensures Zeros(M + 1) == Widen(Zero)
    ensures LegalWord(a + [ZERO]) && LegalWord(PX)
  {
  }

  lemma CoprimeIsNotZero(f: Poly, u: Poly, v: Poly)
    requires Plus(Times(u, f), Times(v, P)) == One
    ensures f.Cons?
  {
    ModulusLen();
    if f.Nil? {
      TimesNil(u);
      if v.Cons? {
        LenTimes(v, P);
      }
    }
  }

  lemma TopCancels(s: Digit, r: Digit)
    requires r != ZERO
    ensures Sub(s, Mult(r, Mult(s, r))) == ZERO
  {
  }

  /** `func1` in polynomials; with q = s_m / r_m it clears the top digit. */
  lemma Func1IsDifference(s: Word, r: Word, q: Digit)
    ensures ToPoly(Func1(s, r, q)) == Minus(ToPoly(s), Scale(q, ToPoly(r)))
    ensures r[M] != ZERO && q == Mult(s[M], r[M]) ==> Func1(s, r, q)[M] == ZERO
  {
    if r[M] != ZERO {
      TopCancels(s[M], r[M]);
    }
    hide Add, Mult, ToPoly, Plus, Scale;
    ToPolySub(s, VScale(q, r));
    ToPolyScale(q, r);
  }

  lemma ShiftByMinus(e: nat, d: nat, q: Digit, r: Poly, s: Poly)
    ensures Minus(ShiftBy(e, s), Scale(q, ShiftBy(e + d, r))) == ShiftBy(e, Minus(s, Scale(q, ShiftBy(d, r))))
  {
    var t := Scale(q, ShiftBy(d, r));
    ShiftByLaws(e, d, q, r, r);
    ShiftByLaws(e, 0, q, ShiftBy(d, r), r);
    ShiftByLaws(e, 0, TWO, t, Scale(TWO, t));
    ShiftByLaws(e, 0, q, s, Scale(TWO, t));
  }

  /** The difference S - q R loses its top digit, and carries the factor x^e. */
  lemma Cancellation(c: Core, g: Ghosts, n: nat, a: Elem)
    requires Invariant(n, a, c, g) && c.R[M] != ZERO
    ensures var t := Func1(c.S, c.R, Mult(c.S[M], c.R[M]));
            t[M] == ZERO && ToPoly(t) == ShiftBy(g.e, Remainder(c, g))
  {
    hide Func1, Mult, ToPoly, ShiftBy, Scale, Plus, Times, Act, Red;
    var q := Mult(c.S[M], c.R[M]);
    Func1IsDifference(c.S, c.R, q);
    ShiftByMinus(g.e, g.d, q, g.r, g.s);
  }

  /** The remainder s - q x^d r that a cancellation leaves. */
  ghost function Remainder(c: Core, g: Ghosts): Poly {
    Minus(g.s, Scale(Mult(c.S[M], c.R[M]), ShiftBy(g.d, g.r)))
  }

  /** `func2` multiplies by x when the digit it drops is 0. */
  lemma Func2IsShift(w: Word)
    requires w[M] == ZERO
    ensures ToPoly(Func2(w)) == Shift(ToPoly(w))
  {
    var e: Elem := w[..M];
    assert w == Widen(e);
    ToPolyWiden(e);
    ToPolyShift(e);
  }

  /** V - q U, in the coefficients of A. */
  lemma CoefficientStep(c: Core, g: Ghosts, n: nat, a: Elem, q: Digit) returns (v1: Elem)
    requires Invariant(n, a, c, g)
    ensures Func1(c.V, c.U, q) == Widen(v1)
    ensures Act(ToPoly(a), v1) == Red(Minus(g.s, Scale(q, ShiftBy(g.d, g.r))))
  {
    var A := ToPoly(a);
    v1 := VSub(g.V, VScale(q, g.U));
    assert Func1(Widen(g.V), Widen(g.U), q) == Widen(v1) by {
      DigitLaws(q, q, ZERO);
    }
    ActSub(A, g.V, VScale(q, g.U));
    ActLinear(A, g.U, g.U, q);
    RedScale(q, ShiftBy(g.d, g.r));
    RedScale(TWO, Scale(q, ShiftBy(g.d, g.r)));
    RedLinear(g.s, Scale(TWO, Scale(q, ShiftBy(g.d, g.r))), q);
    VSubIsAddScale(Red(g.s), Red(Scale(q, ShiftBy(g.d, g.r))));
  }

  /** How far the registers can have come: r is not 0, and x^(e+d) r fits in R. */
  lemma Progress(n: nat, a: Elem, c: Core, g: Ghosts)
    requires Invariant(n, a, c, g)
    ensures g.e + g.d + Len(g.r) <= M + 1 && Len(g.r) >= 1
    ensures c.R[M] != ZERO <==> g.e + g.d + Len(g.r) == M + 1
  {
    hide ToPoly, ShiftBy, Act, Red, Plus, Times, UnaryOf;
    LenToPoly(c.R);
    LenShiftBy(g.e + g.d, g.r);
  }

  lemma UnarySteps(k: nat)
    requires k <= 2 * M
    ensures [true] + UnaryOf(k)[..2 * M + 1] == UnaryOf(k + 1)
    ensures UnaryOf(k)[0] <==> k > 0
    ensures k > 0 ==> UnaryOf(k)[1..] + [false] == UnaryOf(k - 1)
  {
  }

  lemma StepShift(n: nat, a: Elem, c: Core, g: Ghosts) returns (h: Ghosts)
    requires Invariant(n, a, c, g) && c.R[M] == ZERO
    ensures Invariant(n + 1, a, CoreStep(c), h)
  {
    hide Func1, Func2, Func3, Func5, ToPoly, Red, Act, Plus, Scale, UnaryOf;
    Progress(n, a, c, g);
    UnarySteps(g.d);
    Func2IsShift(c.R);
    Func3OnElem(g.U);
    ActLinear(ToPoly(a), g.U, g.U, ZERO);
    RedHorner(ZERO, ShiftBy(g.d, g.r));
    h := g.(d := g.d + 1, U := XTimes(g.U));
  }

  /** What the remainder does to the rest of the invariant. */
  lemma RemainderStep(n: nat, a: Elem, c: Core, g: Ghosts) returns (v1: Elem, u1: Poly)
    requires Invariant(n, a, c, g) && c.R[M] != ZERO
    ensures var q := Mult(c.S[M], c.R[M]);
            ToPoly(Func2(Func1(c.S, c.R, q))) == ShiftBy(g.e + 1, Remainder(c, g))
            && Func1(c.V, c.U, q) == Widen(v1)
    ensures Act(ToPoly(a), v1) == Red(Remainder(c, g))
    ensures Plus(Times(u1, g.r), Times(g.v, Remainder(c, g))) == One
  {
    hide Func1, Func2, Mult, ToPoly, Act, Red, Plus;
    var q := Mult(c.S[M], c.R[M]);
    var w := Scale(q, ShiftBy(g.d, One));
    Cancellation(c, g, n, a);
    Func2IsShift(Func1(c.S, c.R, q));
    v1 := CoefficientStep(c, g, n, a, q);
    u1 := Plus(g.u, Times(g.v, w));
    TimesScale(q, ShiftBy(g.d, One), g.r);
    TimesShiftBy(g.d, One, g.r);
    TimesOne(g.r);
    BezoutStep(g.u, g.r, g.v, g.s, w);
  }

  lemma StepSwap(n: nat, a: Elem, c: Core, g: Ghosts) returns (h: Ghosts)
    requires Invariant(n, a, c, g) && c.R[M] != ZERO && g.d == 0 && n < 2 * M
    ensures Invariant(n + 1, a, CoreStep(c), h)
  {
    hide Func1, Func2, Func3, Func5, ToPoly, Red, Act, UnaryOf;
    var s2 := Remainder(c, g);
    Progress(n, a, c, g);
    UnarySteps(0);
    var v1, u1 := RemainderStep(n, a, c, g);
    Func3OnElem(v1);
    ActLinear(ToPoly(a), v1, v1, ZERO);
    RedHorner(ZERO, s2);
    PlusComm(Times(u1, g.r), Times(g.v, s2));
    if s2.Nil? {
      // then r divides 1, so R is x^M times a constant and the run is over
      TimesNil(g.v);
      if u1.Cons? {
        LenTimes(u1, g.r);
      }
    }
    h := Ghosts(g.e, 1, s2, g.r, g.v, u1, XTimes(v1), g.U);
    var c2 := CoreStep(c);
    assert Act(ToPoly(a), h.U) == Red(ShiftBy(h.d, h.r));
  }

  lemma StepReduce(n: nat, a: Elem, c: Core, g: Ghosts) returns (h: Ghosts)
    requires Invariant(n, a, c, g) && c.R[M] != ZERO && g.d > 0
    ensures Invariant(n + 1, a, CoreStep(c), h)
  {
    hide Func1, Func2, Func3, Func5, ToPoly, Red, Act, Plus, Scale, UnaryOf;
    Progress(n, a, c, g);
    UnarySteps(g.d);
    var v1, u1 := RemainderStep(n, a, c, g);
    Func3OnElem(g.U);
    DivideStep(ToPoly(a), g.U, g.d, g.r);
    h := Ghosts(g.e + 1, g.d - 1, g.r, Remainder(c, g), u1, g.v, XDivide(g.U), v1);
  }

  /** Dividing U by x modulo p takes one factor x out of U A. */
  lemma DivideStep(f: Poly, u: Elem, d: nat, r: Poly)
    requires d > 0 && Act(f, u) == Red(ShiftBy(d, r))
    ensures Act(f, XDivide(u)) == Red(ShiftBy(d - 1, r))
  {
    var u1 := XDivide(u);
    XInvertible(u);
    ActLinear(f, u1, u1, ZERO);
    RedHorner(ZERO, ShiftBy(d - 1, r));
    XInvertible(Act(f, u1));
    XInvertible(Red(ShiftBy(d - 1, r)));
  }

  lemma {:induction false} InvariantHolds(n: nat, a: Elem) returns (g: Ghosts)
    requires Coprime(ToPoly(a), P) && n <= 2 * M
    ensures Invariant(n, a, CoreAt(n, a), g)
  {
    hide CoreStep, Invariant, UnaryOf, Add, Mult, CoreInit;
    if n == 0 {
      var u: Poly, v: Poly :| Plus(Times(u, ToPoly(a)), Times(v, P)) == One;
      g := InvariantHoldsInitially(a, u, v);
    } else {
      var h := InvariantHolds(n - 1, a);
      var c := CoreAt(n - 1, a);
      Progress(n - 1, a, c, h);
      UnarySteps(h.d);
      if c.R[M] == ZERO {
        g := StepShift(n - 1, a, c, h);
      } else if h.d == 0 {
        g := StepSwap(n - 1, a, c, h);
      } else {
        g := StepReduce(n - 1, a, c, h);
      }
    }
  }

  // ---- what the 2M steps compute ------------------------------------------------------

  lemma {:induction false} ToPolyShiftBy(n: nat, v: seq<Digit>)
    ensures ToPoly(Zeros(n) + v) == ShiftBy(n, ToPoly(v))
  {
    if n == 0 {
      assert Zeros(0) + v == v;
    } else {
      ToPolyShiftBy(n - 1, v);
      assert (Zeros(n) + v)[1..] == Zeros(n - 1) + v;
    }
  }

  /** After 2M steps R is a constant times x^M. */
  lemma FinalState(n: nat, a: Elem, c: Core, g: Ghosts)
    requires n == 2 * M && Invariant(n, a, c, g)
    ensures g.d == 0 && c.R[M] != ZERO && g.r == Cons(c.R[M], Nil)
  {
    Progress(n, a, c, g);
    assert g.e == M && Len(g.r) == 1;
    var k := g.r.c;
    ToPolyShiftBy(M, [k]);
    assert [k][1..] == [];
    hide Zeros;
    ToPolyInjective(c.R, Zeros(M) + [k]);
  }

  lemma CoprimeIsInverted(a: Elem)
    requires Coprime(ToPoly(a), P)
    ensures FMul(a, Inverse(a)) == OneElem
  {
    hide CoreStep, Red, Act, ToPoly, VScale;
    var n := 2 * |a|;
    var g := InvariantHolds(n, a);
    var c := CoreAt(n, a);
    FinalState(n, a, c, g);
    var k: Digit := c.R[M];
    ActLinear(ToPoly(a), g.U, g.U, k);
    RedScale(k, g.r);
    DigitLaws(k, k, k);
    RedOne();
    assert Inverse(a) == VScale(k, g.U);
  }

  lemma CongruentToOneIsCoprime(u: Poly, f: Poly)
    requires Congruent(Times(u, f), One)
    ensures Coprime(f, P)
  {
    var q: Poly :| Times(u, f) == Plus(One, Times(q, P));
    hide *;
    var v := Scale(TWO, q);
    TimesScale(TWO, q, P);
    MinusLaws(One, Times(q, P));
    assert Minus(Plus(One, Times(q, P)), Times(q, P)) == Plus(Times(u, f), Times(v, P)) by {
      MinusIsPlus(Times(u, f), Times(q, P));
    }
    CoprimeIntro(u, f, v);
  }

  lemma MinusIsPlus(p: Poly, q: Poly)
    ensures Minus(p, q) == Plus(p, Scale(TWO, q))
  {
  }

  lemma CoprimeIntro(u: Poly, f: Poly, v: Poly)
    requires Plus(Times(u, f), Times(v, P)) == One
    ensures Coprime(f, P)
  {
  }

  /** The inverter inverts exactly the elements that have an inverse: C * A = 1 modulo p if
      and only if A is coprime to p. */
  lemma InverterComputesInverse(a: Elem)
    ensures Congruent(Times(ToPoly(Inverse(a)), ToPoly(a)), One) <==> Coprime(ToPoly(a), P)
    ensures Coprime(ToPoly(a), P) ==> FMul(a, Inverse(a)) == OneElem
  {
    hide *;
    var C := ToPoly(Inverse(a));
    if Coprime(ToPoly(a), P) {
      CoprimeIsInverted(a);
      FMulIsProduct(Inverse(a), a);
      RedOne();
      CongruentIffSameResidue(Times(C, ToPoly(a)), One);
    }
    if Congruent(Times(C, ToPoly(a)), One) {
      CongruentToOneIsCoprime(C, ToPoly(a));
    }
  }

  /** Nothing overflows on the way: R never becomes 0, the digit that `func2` drops is 0, and
      the unary counter stays at or below M. */
  lemma InverterStaysInRange(a: Elem, n: nat)
    requires Coprime(ToPoly(a), P) && n <= 2 * M
    ensures var c := CoreAt(n, a);
            c.R != Zeros(M + 1)
            && (c.R[M] != ZERO ==> Func1(c.S, c.R, Mult(c.S[M], c.R[M]))[M] == ZERO)
            && exists d :: 0 <= d <= M && c.d == UnaryOf(d)
  {
    hide CoreStep, ToPoly, ShiftBy, Act, Red, Plus, Times, Add, Mult;
    var g := InvariantHolds(n, a);
    var c := CoreAt(n, a);
    Progress(n, a, c, g);
    assert c.d == UnaryOf(g.d);
    if c.R[M] != ZERO {
      Cancellation(c, g, n, a);
    }
    Func2OfZero();
    LenShiftBy(g.e + g.d, g.r);
  }

  lemma Func2OfZero()
    ensures Func2(Zeros(M + 1)) == Zeros(M + 1)
    ensures Zero + [ZERO] == Zeros(M + 1) && ToPoly(Zeros(M + 1)) == Nil
  {
    assert Zeros(M + 1) == [] + Zeros(M + 1);
    ToPolyPad([], M + 1);
  }

  lemma ZeroShifts(c: Core, k: nat)
    requires c.R == Zeros(M + 1) && c.d == UnaryOf(k) && k < 2 * M
    ensures CoreStep(c).R == c.R && CoreStep(c).d == UnaryOf(k + 1)
  {
    hide Func1, Func2, Func3, Func5;
    UnarySteps(k);
    Func2OfZero();
  }

  /** For A = 0 the run only shifts; the counter reaches 2M, still inside its register. */
  lemma {:induction false} ZeroOnlyShifts(n: nat, a: Elem)
    requires a == Zero && n <= 2 * M
    ensures CoreAt(n, a).R == Zeros(M + 1) && CoreAt(n, a).d == UnaryOf(n)
  {
    hide CoreStep, Zeros, UnaryOf;
    if n > 0 {
      ZeroOnlyShifts(n - 1, a);
      ZeroShifts(CoreAt(n - 1, a), n - 1);
    } else {
      Func2OfZero();
    }
  }

  lemma InverseOfZero(a: Elem)
    requires a == Zero
    ensures Inverse(a) == Zero
  {
    hide CoreStep;
    var n := 2 * |a|;
    ZeroOnlyShifts(n, a);
    var c := CoreAt(n, a);
    forall i | 0 <= i < M
      ensures Mult(c.U[i], ZERO) == ZERO
    {
    }
  }

  // ---- the clocked module -------------------------------------------------------------

  type Steps = b: seq<bool> | |b| == 2 * M + 1 witness Hot(2 * M + 1, 0)

  datatype Regs = Regs(core: Core, i: Steps, C: Wires, done: bool)

  /** One clock edge of the whole module. */
  function Edge(s: Regs, reset: bool, a: Wires): Regs {
    Regs(
      if reset then CoreInit(a) else CoreStep(s.core),
      if reset then Hot(2 * M + 1, 2 * M) else ShiftRight(s.i),
      if !reset && s.i[0] then VScale(s.core.R[M], s.core.U)[..M] else s.C,
      !reset && (s.i[0] || s.done))
  }

  /** The registers n edges after an edge with `reset`, from any power-up contents. */
  function After(n: nat, s0: Regs, a: Wires): Regs {
    if n == 0 then Edge(s0, true, a) else Edge(After(n - 1, s0, a), false, a)
  }

  /** The schedule: `done` first rises 2M + 1 edges after reset, in the same edge C takes its
      value, and both stay from then on. */
  lemma {:induction false} Schedule(n: nat, s0: Regs, a: Wires)
    ensures var s := After(n, s0, a);
            s.core == CoreAt(n, a) && s.i == Hot(2 * M + 1, 2 * M - n)
            && (s.done <==> n > 2 * M)
            && s.C == if n > 2 * M then Inverse(a) else s0.C
  {
    hide CoreStep;
    if n > 0 {
      Schedule(n - 1, s0, a);
      HotShifts(2 * M + 1, 2 * M - n);
    }
  }

  /** `f3m_inv` as it stands in the source, with its registers as fields. */
  class Inverter {
    var S: TWord
    var R: TWord
    var U: TWord
    var V: TWord
    var d: Unary
    var i: Steps
    var C: Wires
    var done: bool

    function State(): (s: Regs)
      reads this
      ensures s.C == C && s.done == done
    {
      Regs(Core(S, R, U, V, d), i, C, done)
    }

    /** posedge clk */
    method Clock(reset: bool, a: Wires)
      modifies this
      ensures State() == Edge(old(State()), reset, a)
    {
      hide Func1, Func2, Func3, Func5, Mult, Hot, ShiftRight, UnaryOf, VScale;
      var q := Mult(S[M], R[M]);
      var s2 := Func2(Func1(S, R, q));
      var v1 := Func1(V, U, q);
      if reset {
        done := false;
      } else if i[0] {
        done := true;
        C := VScale(R[M], U)[..M];
      }
      if reset {
        i := Hot(2 * M + 1, 2 * M);
      } else {
        i := ShiftRight(i);
      }
      if reset {
        S, R, U, V, d := PX, a + [ZERO], [ONE] + Zeros(M), Zeros(M + 1), UnaryOf(0);
      } else if R[M] == ZERO {
        R, U, d := Func2(R), Func3(U), [true] + d[..2 * M + 1];
      } else if !d[0] {
        R, S, U, V, d := s2, R, Func3(v1), U, [true] + d[..2 * M + 1];
      } else {
        S, V, U, d := s2, v1, Func5(U), d[1..] + [false];
      }
    }
  }
}
