/** `f3m_mult`: multiplication in GF(3^97), three digits of the multiplier at each clock. */
module F3mMult {
  import opened F3
  import opened Poly
  import opened F3m
  import opened Modulus
  import opened Shifter

  /** `func7`: x^3 * in mod p */
  function Func7(e: Wires): (c: Wires)
    ensures forall i :: 0 <= i < M ==> c[i] == Func7Digit(e, i)
    ensures LegalBus(e) ==> LegalBus(c)
  {
    seq(M, i requires 0 <= i < M => Func7Digit(e, i))
  }

  function Func7Digit(e: Wires, i: int): Trit
    requires 0 <= i < M
  {
    if i < 3 then e[94 + i]
    else if 12 <= i < 15 then Add(e[i - 3], Swap(e[82 + i]))
    else e[i - 3]
  }

  /** `func8`: (b2 x^2 + b1 x + b0) * a mod p */
  function Func8(a: Wires, b0: Trit, b1: Trit, b2: Trit): (c: Elem)
    ensures forall i :: 0 <= i < M ==> c[i] == Func8Digit(a, b0, b1, b2, i)
  {
    seq(M, i requires 0 <= i < M => Func8Digit(a, b0, b1, b2, i))
  }

  /** Digit i gathers a_i b0 + a_(i-1) b1 + a_(i-2) b2; what runs over the top comes back into
      digits 0 and 1 and, negated, into digits 12 and 13. */
  function Func8Digit(a: Wires, b0: Trit, b1: Trit, b2: Trit, i: int): Digit
    requires 0 <= i < M
  {
    if i == 0 then Add(Add(Mult(a[0], b0), Mult(a[95], b2)), Mult(a[96], b1))
    else if i == 1 then Add(Add(Mult(a[0], b1), Mult(a[96], b2)), Mult(a[1], b0))
    else
      var s := Add(Add(Mult(a[i], b0), Mult(a[i - 2], b2)), Mult(a[i - 1], b1));
      if i == 12 then Add(Add(s, Swap(Mult(a[96], b1))), Swap(Mult(a[95], b2)))
      else if i == 13 then Add(s, Swap(Mult(a[96], b2)))
      else s
  }

  /** The registers that an iteration rewrites. */
  datatype Core = Core(x: Wires, y: Wires, z: Elem)

  function CoreInit(a: Wires, b: Wires): Core {
    Core(a, b, Zero)
  }

  function CoreStep(c: Core): Core {
    Core(Func7(c.x), c.y[3..] + Zeros(3), VAdd(Func8(c.x, c.y[0], c.y[1], c.y[2]), c.z))
  }

  function CoreAt(n: nat, a: Wires, b: Wires): Core {
    if n == 0 then CoreInit(a, b) else CoreStep(CoreAt(n - 1, a, b))
  }

  /** The number of steps, |a| / 3 + 1 = 33. */
  function Product(a: Wires, b: Wires): Elem {
    CoreAt(|a| / 3 + 1, a, b).z
  }

  // ---- the blocks ---------------------------------------------------------------------

  lemma Func7IsXCubed(e: Elem)
    ensures Func7(e) == XTimes(XTimes(XTimes(e)))
  {
    var e1 := XTimes(e);
    var e2 := XTimes(e1);
    XTimesDigits(e);
    XTimesDigits(e1);
    XTimesDigits(e2);
    hide XTimes;
    var e3 := XTimes(e2);
    forall i | 0 <= i < M
      ensures Func7(e)[i] == e3[i]
    {
    }
  }

  lemma Func8IsSum(a: Elem, b0: Digit, b1: Digit, b2: Digit)
    ensures Func8(a, b0, b1, b2)
         == VAdd(VScale(b0, a), XTimes(VAdd(VScale(b1, a), XTimes(VScale(b2, a)))))
  {
    hide XTimes, Func8, Add, Mult, VScale, VAdd;
    var s0, s1, s2 := VScale(b0, a), VScale(b1, a), VScale(b2, a);
    var x2 := XTimes(s2);
    var s := VAdd(s1, x2);
    var x1 := XTimes(s);
    XTimesDigits(s2);
    XTimesDigits(s);
    forall i | 0 <= i < M
      ensures Func8Digit(a, b0, b1, b2, i) == Add(s0[i], x1[i])
    {
      var q := if i > 0 then s1[i - 1] else ZERO;
      var r := if i > 1 then s2[i - 2] else ZERO;
      if i == 0 {
        Func8Sums(s0[0], s1[96], s2[95]);
      } else if i == 1 {
        Func8Sums(s0[1], s1[0], s2[96]);
      } else {
        Func8Sums(s0[i], s1[i - 1], s2[i - 2]);
        Func8Carries(s0[i], s1[i - 1], s2[i - 2], s1[96], s2[95], s2[96]);
        assert x2[i - 1] == if i == 13 then Sub(s2[11], s2[96]) else s2[i - 2];
        assert s[i - 1] == Add(s1[i - 1], x2[i - 1]) && s[96] == Add(s1[96], s2[95]);
      }
    }
  }

  /** The orders of summation that the wiring uses. */
  lemma Func8Sums(p: Digit, q: Digit, r: Digit)
    ensures Add(Add(p, r), q) == Add(p, Add(q, r)) == Add(Add(q, r), p)
  {
  }

  lemma Func8Carries(p: Digit, q: Digit, r: Digit, u: Digit, v: Digit, w: Digit)
    ensures Add(Add(Add(Add(p, r), q), Swap(u)), Swap(v)) == Add(p, Sub(Add(q, r), Add(u, v)))
    ensures Add(Add(Add(p, r), q), Swap(w)) == Add(p, Add(q, Sub(r, w)))
  {
    hide Add;
    SwapAdd(u, v);
    DigitLaws(p, q, r);
    DigitLaws(p, Add(q, r), Swap(u));
    DigitLaws(Add(q, r), Swap(u), Swap(v));
    DigitLaws(p, Add(Add(q, r), Swap(u)), Swap(v));
    DigitLaws(p, Add(q, r), Swap(w));
    DigitLaws(q, r, Swap(w));
    DigitLaws(q, r, ZERO);
    DigitLaws(p, r, q);
    DigitLaws(r, q, ZERO);
    DigitLaws(p, q, Sub(r, w));
  }

  lemma SwapAdd(u: Digit, v: Digit)
    ensures Swap(Add(u, v)) == Add(Swap(u), Swap(v))
  {
  }

  // ---- the loop invariant -------------------------------------------------------------

  /** f * v with the three lowest coefficients of f taken off. */
  lemma ActThreeDigits(y: seq<Digit>, v: Elem)
    requires |y| >= 3
    ensures Act(ToPoly(y), v)
         == VAdd(Func8(v, y[0], y[1], y[2]), Act(ToPoly(y[3..]), XTimes(XTimes(XTimes(v)))))
  {
    var f := ToPoly(y[3..]);
    var s0, s1, s2 := VScale(y[0], v), VScale(y[1], v), VScale(y[2], v);
    ToPolyThree(y);
    var w := Act(f, v);
    hide *;
    ActHorner(y[2], f, v);
    ActHorner(y[1], Horner(y[2], f), v);
    ActHorner(y[0], Horner(y[1], Horner(y[2], f)), v);
    Func8IsSum(v, y[0], y[1], y[2]);
    // X(s1 + X(s2 + Xw)) = X(s1 + X s2) + XXXw
    XTimesLinear(s2, XTimes(w), ZERO);
    VAddLaws(s1, XTimes(s2), XTimes(XTimes(w)));
    XTimesLinear(VAdd(s1, XTimes(s2)), XTimes(XTimes(w)), ZERO);
    VAddLaws(s0, XTimes(VAdd(s1, XTimes(s2))), XTimes(XTimes(XTimes(w))));
    ActLinear(f, v, v, ZERO);
    ActLinear(f, XTimes(v), v, ZERO);
    ActLinear(f, XTimes(XTimes(v)), v, ZERO);
  }

  lemma ToPolyThree(y: seq<Digit>)
    requires |y| >= 3
    ensures ToPoly(y) == Horner(y[0], Horner(y[1], Horner(y[2], ToPoly(y[3..]))))
  {
    hide Horner;
    assert ToPoly(y) == Horner(y[0], ToPoly(y[1..]));
    assert y[1..][1..] == y[2..] && y[2..][1..] == y[3..];
  }

  lemma ActHorner(c: Digit, t: Poly, v: Elem)
    ensures Act(Horner(c, t), v) == VAdd(VScale(c, v), XTimes(Act(t, v)))
  {
    if c == ZERO && t.Nil? {
      hide XTimes;
      XTimesLinear(v, v, ZERO);
      VScaleLaws(ZERO, ZERO, v, v);
      VAddLaws(Zero, Zero, Zero);
    }
  }

  /** One step keeps z + x * y. */
  lemma StepKeepsSum(c: Core)
    requires LegalBus(c.x) && LegalBus(c.y)
    ensures var d := CoreStep(c);
            LegalBus(d.x) && LegalBus(d.y) && d.y == c.y[3..] + Zeros(3)
            && VAdd(d.z, Act(ToPoly(d.y), d.x)) == VAdd(c.z, Act(ToPoly(c.y), c.x))
  {
    hide Act, ToPoly, Func7, Func8, VAdd, XTimes, Zeros;
    var f8 := Func8(c.x, c.y[0], c.y[1], c.y[2]);
    var rest := Act(ToPoly(c.y[3..]), Func7(c.x));
    ActThreeDigits(c.y, c.x);
    Func7IsXCubed(c.x);
    ToPolyPad(c.y[3..], 3);
    VAddLaws(c.z, f8, rest);
    VAddLaws(f8, c.z, rest);
  }

  /** z + x * y stays A * B at every step. */
  lemma {:induction false} SumIsKept(n: nat, a: Elem, b: Elem)
    ensures var c := CoreAt(n, a, b);
            LegalBus(c.x) && LegalBus(c.y)
            && VAdd(c.z, Act(ToPoly(c.y), c.x)) == FMul(b, a)
  {
    hide Act, ToPoly, VAdd, CoreStep, Zeros;
    if n == 0 {
      VAddLaws(Act(ToPoly(b), a), Zero, Zero);
    } else {
      SumIsKept(n - 1, a, b);
      StepKeepsSum(CoreAt(n - 1, a, b));
    }
  }

  /** The multiplier operand runs out three digits at a time. */
  lemma {:induction false} OperandRunsOut(n: nat, a: Elem, b: Elem)
    requires 3 * n <= M + 2
    ensures CoreAt(n, a, b).y == if 3 * n <= M then b[3 * n..] + Zeros(3 * n) else Zero
  {
    hide Func7, Func8, VAdd, Zeros;
    if n == 0 {
      assert b[0..] + Zeros(0) == b;
    } else {
      OperandRunsOut(n - 1, a, b);
      ShiftedDigits(n, b);
    }
  }

  lemma ShiftedDigits(n: nat, b: Elem)
    requires 0 < n && 3 * n <= M + 2
    ensures (b[3 * n - 3..] + Zeros(3 * n - 3))[3..] + Zeros(3)
         == if 3 * n <= M then b[3 * n..] + Zeros(3 * n) else Zero
  {
  }

  /** The multiplier multiplies. */
  lemma MultiplierComputesProduct(a: Elem, b: Elem)
    ensures Product(a, b) == FMul(a, b)
    ensures Congruent(ToPoly(Product(a, b)), Times(ToPoly(a), ToPoly(b)))
  {
    hide Act, ToPoly, VAdd, Red, Times, CoreStep;
    var n := |a| / 3 + 1;
    SumIsKept(n, a, b);
    OperandRunsOut(n, a, b);
    var c := CoreAt(n, a, b);
    ToPolyZero();
    assert Act(ToPoly(c.y), c.x) == Zero by {
      ActNil(c.x);
    }
    VAddLaws(c.z, Zero, Zero);
    FMulIsProduct(a, b);
    RedToPoly(c.z);
    CongruentIffSameResidue(ToPoly(c.z), Times(ToPoly(a), ToPoly(b)));
  }

  lemma ToPolyZero()
    ensures ToPoly(Zero) == Nil
  {
    assert Zero == [] + Zeros(M);
    ToPolyPad([], M);
  }

  lemma ActNil(v: Elem)
    ensures Act(Nil, v) == Zero
  {
  }

  // ---- the clocked module -------------------------------------------------------------

  const STEPS: nat := M / 3 + 1

  type Steps = b: seq<bool> | |b| == STEPS + 1 witness Hot(STEPS + 1, 0)

  datatype Regs = Regs(core: Core, i: Steps, C: Wires, done: bool)

  function Edge(s: Regs, reset: bool, a: Wires, b: Wires): Regs {
    Regs(
      if reset then CoreInit(a, b) else CoreStep(s.core),
      if reset then Hot(STEPS + 1, STEPS) else ShiftRight(s.i),
      if s.i[0] then s.core.z else s.C,
      !reset && (s.i[0] || s.done))
  }

  /** The registers n edges after an edge with `reset`, from any power-up contents. */
  function After(n: nat, s0: Regs, a: Wires, b: Wires): Regs {
    if n == 0 then Edge(s0, true, a, b) else Edge(After(n - 1, s0, a, b), false, a, b)
  }

  /** `done` first rises 34 edges after reset, together with C = A * B, and both stay. */
  lemma {:induction false} Schedule(n: nat, s0: Regs, a: Wires, b: Wires)
    ensures var s := After(n, s0, a, b);
            s.core == CoreAt(n, a, b) && s.i == Hot(STEPS + 1, STEPS - n)
            && (s.done <==> n > STEPS)
            && (n > STEPS ==> s.C == Product(a, b))
  {
    hide CoreStep;
    if n > 0 {
      Schedule(n - 1, s0, a, b);
      HotShifts(STEPS + 1, STEPS - n);
      assert STEPS == |a| / 3 + 1;
    }
  }

  /** A multiplier that nobody resets: its registers after n edges, whatever its inputs do. */
  function Idle(n: nat, s0: Regs): Regs {
    if n == 0 then s0 else Edge(Idle(n - 1, s0), false, Zero, Zero)
  }

  /** Left alone for as long as its step register is wide, the multiplier holds `done` still. */
  lemma {:induction false} IdleSettles(n: nat, s0: Regs)
    requires n > STEPS
    ensures Idle(n + 1, s0).done == Idle(n, s0).done
  {
    hide CoreStep, ShiftRight;
    IdleSteps(n, s0);
    ShiftsOut(s0.i, n);
  }

  lemma {:induction false} IdleSteps(n: nat, s0: Regs)
    ensures Idle(n, s0).i == ShiftedOut(s0.i, n)
  {
    hide CoreStep;
    if n > 0 {
      IdleSteps(n - 1, s0);
    }
  }

  /** `f3m_mult` as it stands in the source, with its registers as fields. */
  class Multiplier {
    var x: Wires
    var y: Wires
    var z: Elem
    var i: Steps
    var C: Wires
    var done: bool

    function State(): (s: Regs)
      reads this
      ensures s.C == C && s.done == done
    {
      Regs(Core(x, y, z), i, C, done)
    }

    /** posedge clk */
    method Clock(reset: bool, a: Wires, b: Wires)
      modifies this
      ensures State() == Edge(old(State()), reset, a, b)
    {
      hide Func7, Func8, VAdd, Hot, ShiftRight;
      var done1 := i[0];
      var z1 := Func8(x, y[0], y[1], y[2]);
      var z2 := VAdd(z1, z);
      if done1 {
        C := z;
      }
      if reset {
        done := false;
      } else if done1 {
        done := true;
      }
      if reset {
        x, y, z, i := a, b, Zero, Hot(STEPS + 1, STEPS);
      } else {
        x, y, z, i := Func7(x), y[3..] + Zeros(3), z2, ShiftRight(i);
      }
    }
  }
}
