/** `point_scalar_mult`: double-and-add over one shared point adder, clock by clock. */
module ScalarMult {
  import opened F3m
  import opened Modulus
  import opened Curve
  import opened PointAdd
  import Bitstream
  import Pulse

  datatype Regs = Regs(adder: Adder, pulse: Pulse.Regs, pulse2: Pulse.Regs, k: nat, op: bool,
                       acc: Bus, dbl: Bus, out: Bus, done: bool)

  /** The adder's inputs: acc + (bit ? dbl : 0) when op is low, dbl + dbl when it is high. */
  function Left(s: Regs): Bus {
    if s.op then s.dbl else s.acc
  }

  function Right(s: Regs): Bus {
    Bus(s.dbl.x, s.dbl.y, (!s.op && s.k % 2 == 0) || s.dbl.zero)
  }

  function AdderOut(s: Regs): Bus {
    Bus(s.adder.x3, s.adder.y3, s.adder.zero3)
  }

  /** posedge clk */
  function Edge(s: Regs, reset: bool, p1: Bus, c: nat): (t: Regs)
    requires ValidAdder(s.adder)
    ensures ValidAdder(t.adder)
  {
    var p, p2 := Pulse.Out(s.pulse), Pulse.Out(s.pulse2);
    Regs(
      AdderEdge(s.adder, reset || p2, Left(s), Right(s)),
      Pulse.Edge(s.pulse, reset, s.adder.done),
      Pulse.Edge(s.pulse2, reset, p),
      if reset then c else if s.op && p then s.k / 2 else s.k,
      if reset then false else if p then !s.op else s.op,
      if reset then Bus(Zero, Zero, true) else if !s.op && p then AdderOut(s) else s.acc,
      if reset then p1 else if s.op && p then AdderOut(s) else s.dbl,
      if reset then Bus(Zero, Zero, true) else if s.k == 0 then s.acc else s.out,
      !reset && (s.k == 0 || s.done))
  }

  /** The registers n edges after one edge with `reset`, from any contents. */
  function After(n: nat, s0: Regs, p1: Bus, c: nat): (s: Regs)
    requires ValidAdder(s0.adder)
    ensures ValidAdder(s.adder)
  {
    if n == 0 then Edge(s0, true, p1, c) else Edge(After(n - 1, s0, p1, c), false, p1, c)
  }

  // ---- multiples of a point -----------------------------------------------------------

  function Multiple(k: nat, p: Point): Point {
    if k == 0 then Infinity else Sum(p, Multiple(k - 1, p))
  }

  /** Associativity of the group law, the hypothesis under which multiples make sense. */
  ghost predicate Associative() {
    forall p: Point, q: Point, r: Point :: OnCurve(p) && OnCurve(q) && OnCurve(r) ==>
      Sum(Sum(p, q), r) == Sum(p, Sum(q, r))
  }

  lemma {:induction false} MultipleOnCurve(k: nat, p: Point)
    requires Irreducible() && OnCurve(p)
    ensures OnCurve(Multiple(k, p))
  {
    hide Sum, Square, RightHandSide;
    if k > 0 {
      MultipleOnCurve(k - 1, p);
      SumOnCurve(p, Multiple(k - 1, p));
    }
  }

  lemma AssociativeAt(p: Point, q: Point, r: Point)
    requires Associative() && OnCurve(p) && OnCurve(q) && OnCurve(r)
    ensures Sum(Sum(p, q), r) == Sum(p, Sum(q, r))
  {
    hide Sum, OnCurve;
  }

  /** 2k p = k (p + p) */
  lemma {:induction false} MultipleOfDouble(k: nat, p: Point)
    requires Irreducible() && Associative() && OnCurve(p)
    ensures Multiple(2 * k, p) == Multiple(k, Sum(p, p))
  {
    hide *;
    if k == 0 {
      MultipleUnfolds(0, p, Sum(p, p));
    } else {
      var m := 2 * k - 2;
      MultipleOfDouble(k - 1, p);
      MultipleOnCurve(m, p);
      MultipleUnfolds(m + 1, p, p);
      MultipleUnfolds(m, p, p);
      MultipleUnfolds(k - 1, Sum(p, p), p);
      AssociativeAt(p, p, Multiple(m, p));
    }
  }

  lemma MultipleUnfolds(k: nat, p: Point, q: Point)
    ensures Multiple(k + 1, p) == Sum(p, Multiple(k, p))
    ensures Multiple(0, p) == Multiple(0, q) == Infinity
  {
    hide Sum;
  }

  // ---- the invariant ------------------------------------------------------------------

  /** What is still to be added to the accumulator, as a multiple of the doubler. */
  function Remaining(s: Regs): nat {
    if s.op then s.k - s.k % 2 else s.k
  }

  /** accumulator + remaining * doubler = c * P1 */
  ghost predicate Conserved(s: Regs, total: Point) {
    && LegalPoint(s.acc) && OnCurve(Decode(s.acc))
    && LegalPoint(s.dbl) && OnCurve(Decode(s.dbl))
    && Sum(Decode(s.acc), Multiple(Remaining(s), Decode(s.dbl))) == total
    && (s.done ==> s.k == 0 && LegalPoint(s.out) && Decode(s.out) == total)
  }

  /** Where the handshake stands: phase 0 is the clock between two additions, in which the adder
      is reset onto its new inputs; phase j + 1 is the adder's j-th clock. */
  ghost predicate InPhase(s: Regs, phase: nat) {
    && ValidAdder(s.adder)
    && if phase == 0 then
         s.adder.done && s.pulse == Pulse.Regs(true, true) && s.pulse2 == Pulse.Regs(true, false)
       else
         var j, l := phase - 1, Latency(Left(s), Right(s));
         && j <= l + 1
         && AdderAt(s.adder, j, Left(s), Right(s))
         && (j == 0 ==> s.pulse.reg1 == s.pulse.reg2)
         && (j == 1 ==> !s.pulse.reg1)
         && (j >= 2 ==> s.pulse == Pulse.Regs(j > l, false))
         && !s.pulse2.reg1 && (j >= 1 ==> !s.pulse2.reg2)
  }

  /** An adder j clocks after its reset onto p and q. */
  ghost predicate AdderAt(a: Adder, j: nat, p: Bus, q: Bus) {
    ValidAdder(a) && exists dbl0: Doubler, chord0: Chord :: AdderSchedule(j, a, dbl0, chord0, p, q)
  }

  lemma AdderIsStarted(a: Adder, p0: Bus, q0: Bus, p: Bus, q: Bus)
    requires ValidAdder(a) && (p.zero || q.zero || (p == p0 && q == q0))
    ensures AdderAt(AdderEdge(a, true, p0, q0), 0, p, q)
  {
    hide AdderEdge, AdderSchedule;
    AdderStarts(a, p0, q0, p, q);
  }

  lemma AdderAdvances(a: Adder, j: nat, p: Bus, q: Bus)
    requires ValidAdder(a) && AdderAt(a, j, p, q)
    ensures AdderAt(AdderEdge(a, false, p, q), j + 1, p, q)
  {
    hide AdderEdge, AdderSchedule;
    var dbl0: Doubler, chord0: Chord :| AdderSchedule(j, a, dbl0, chord0, p, q);
    AdderStep(j, a, dbl0, chord0, p, q);
  }

  lemma AdderDone(a: Adder, j: nat, p: Bus, q: Bus)
    requires AdderAt(a, j, p, q)
    ensures a.done <==> j >= Latency(p, q)
  {
    hide DoublerAfter, ChordAfter, AdderOutput, Latency;
  }

  lemma AdderShowsSum(a: Adder, j: nat, p: Bus, q: Bus)
    requires Irreducible() && AdderAt(a, j, p, q) && j >= Latency(p, q)
    requires LegalPoint(p) && LegalPoint(q) && OnCurve(Decode(p)) && OnCurve(Decode(q))
    ensures var out := Bus(a.x3, a.y3, a.zero3);
            LegalPoint(out) && Decode(out) == Sum(Decode(p), Decode(q)) && OnCurve(Decode(out))
  {
    hide AdderSchedule, Latency, Sum, OnCurve;
    var dbl0: Doubler, chord0: Chord :| AdderSchedule(j, a, dbl0, chord0, p, q);
    ScheduleShowsSum(j, a, dbl0, chord0, p, q);
  }

  function NextPhase(s: Regs, phase: nat): nat {
    if phase == Latency(Left(s), Right(s)) + 2 then 0 else phase + 1
  }

  /** Every handshake pulse comes once for each addition, in the clock after its `done`. */
  lemma PulseTiming(s: Regs, phase: nat)
    requires InPhase(s, phase)
    ensures Pulse.Out(s.pulse) <==> phase == Latency(Left(s), Right(s)) + 2
    ensures Pulse.Out(s.pulse2) <==> phase == 0
  {
    hide Latency, AdderAt;
    LatencyAtLeastTwo(Left(s), Right(s));
  }

  lemma LatencyAtLeastTwo(p: Bus, q: Bus)
    ensures 2 <= Latency(p, q) <= CHORD_DONE + 1
  {
  }

  lemma PhaseStep(s: Regs, phase: nat, p1: Bus, c: nat)
    requires InPhase(s, phase)
    ensures InPhase(Edge(s, false, p1, c), NextPhase(s, phase))
  {
    hide AdderEdge, AdderAt, Latency, Left, Right;
    var l := Latency(Left(s), Right(s));
    var t := Edge(s, false, p1, c);
    LatencyAtLeastTwo(Left(s), Right(s));
    PulseTiming(s, phase);
    if phase == 0 {
      AdderIsStarted(s.adder, Left(s), Right(s), Left(s), Right(s));
      InputsHeld(s, p1, c);
    } else {
      AdderDone(s.adder, phase - 1, Left(s), Right(s));
      AdderAdvances(s.adder, phase - 1, Left(s), Right(s));
      AdderDone(AdderEdge(s.adder, false, Left(s), Right(s)), phase, Left(s), Right(s));
      if phase < l + 2 {
        InputsHeld(s, p1, c);
      }
    }
  }

  /** The adder's inputs change only with the pulse. */
  lemma InputsHeld(s: Regs, p1: Bus, c: nat)
    requires ValidAdder(s.adder) && !Pulse.Out(s.pulse)
    ensures Left(Edge(s, false, p1, c)) == Left(s) && Right(Edge(s, false, p1, c)) == Right(s)
  {
    hide AdderEdge, Pulse.Out, Pulse.Edge;
  }

  // ---- conservation -------------------------------------------------------------------

  lemma SumWithInfinity(p: Point)
    ensures Sum(p, Infinity) == p && Sum(Infinity, p) == p
  {
  }

  /** Accumulating bit 0 of k moves one multiple of the doubler into the accumulator. */
  lemma AccumulateBit(acc: Point, dbl: Point, k: nat)
    requires Irreducible() && Associative() && OnCurve(acc) && OnCurve(dbl)
    ensures Sum(Sum(acc, if k % 2 == 0 then Infinity else dbl), Multiple(k - k % 2, dbl))
         == Sum(acc, Multiple(k, dbl))
  {
    hide Sum, OnCurve, Multiple, Irreducible, Associative;
    if k % 2 == 0 {
      SumWithInfinity(acc);
    } else {
      MultipleOnCurve(k - 1, dbl);
      AssociativeAt(acc, dbl, Multiple(k - 1, dbl));
      MultipleUnfolds(k - 1, dbl, dbl);
    }
  }

  /** One clock keeps accumulator + remaining * doubler: nothing moves without the pulse; with
      it, a bit has been accumulated or the doubler doubled. */
  lemma ConservedStep(s: Regs, phase: nat, p1: Bus, c: nat, total: Point)
    requires Irreducible() && Associative() && InPhase(s, phase) && Conserved(s, total)
    ensures Conserved(Edge(s, false, p1, c), total)
  {
    hide AdderEdge, AdderAt, Latency, Sum, OnCurve, Pulse.Out, Pulse.Edge, Multiple, InPhase;
    ZeroRemaining(Decode(s.acc), Decode(s.dbl));
    if Pulse.Out(s.pulse) {
      hide Conserved;
      if s.op {
        DoubleStep(s, phase, p1, c, total);
      } else {
        AccumulateStep(s, phase, p1, c, total);
      }
    }
  }

  lemma DoubleStep(s: Regs, phase: nat, p1: Bus, c: nat, total: Point)
    requires Irreducible() && Associative() && InPhase(s, phase) && Conserved(s, total)
    requires Pulse.Out(s.pulse) && s.op
    ensures Conserved(Edge(s, false, p1, c), total)
  {
    hide AdderEdge, AdderAt, Latency, Sum, OnCurve, Pulse.Out, Pulse.Edge, Multiple;
    PulseTiming(s, phase);
    AdderShowsSum(s.adder, phase - 1, Left(s), Right(s));
    MultipleOfDouble(s.k / 2, Decode(s.dbl));
    ZeroRemaining(Decode(s.acc), Decode(s.dbl));
  }

  lemma AccumulateStep(s: Regs, phase: nat, p1: Bus, c: nat, total: Point)
    requires Irreducible() && Associative() && InPhase(s, phase) && Conserved(s, total)
    requires Pulse.Out(s.pulse) && !s.op
    ensures Conserved(Edge(s, false, p1, c), total)
  {
    hide AdderEdge, AdderAt, Latency, Sum, OnCurve, Pulse.Out, Pulse.Edge, Multiple;
    PulseTiming(s, phase);
    InfinityOnCurve();
    AdderShowsSum(s.adder, phase - 1, Left(s), Right(s));
    AccumulateBit(Decode(s.acc), Decode(s.dbl), s.k);
    ZeroRemaining(Decode(s.acc), Decode(s.dbl));
  }

  lemma ZeroRemaining(acc: Point, dbl: Point)
    ensures Sum(acc, Multiple(0, dbl)) == acc
  {
  }

  lemma InfinityOnCurve()
    ensures OnCurve(Infinity)
  {
  }

  lemma Started(s0: Regs, p1: Bus, c: nat)
    requires ValidAdder(s0.adder) && LegalPoint(p1) && OnCurve(Decode(p1))
    ensures InPhase(Edge(s0, true, p1, c), 1)
    ensures Conserved(Edge(s0, true, p1, c), Multiple(c, Decode(p1)))
  {
    hide AdderEdge, AdderAt, Latency, Multiple;
    var s := Edge(s0, true, p1, c);
    AdderIsStarted(s0.adder, Left(s0), Right(s0), Left(s), Right(s));
    hide OnCurve, Sum;
    InfinityOnCurve();
    SumWithInfinity(Multiple(c, Decode(p1)));
  }

  lemma {:induction false} RunInvariant(n: nat, s0: Regs, p1: Bus, c: nat) returns (phase: nat)
    requires Irreducible() && Associative() && ValidAdder(s0.adder) && LegalPoint(p1) && OnCurve(Decode(p1))
    ensures InPhase(After(n, s0, p1, c), phase)
    ensures Conserved(After(n, s0, p1, c), Multiple(c, Decode(p1)))
  {
    hide InPhase, Conserved, Edge, Multiple, OnCurve;
    if n == 0 {
      phase := 1;
      Started(s0, p1, c);
    } else {
      var before := RunInvariant(n - 1, s0, p1, c);
      var s := After(n - 1, s0, p1, c);
      phase := NextPhase(s, before);
      PhaseStep(s, before, p1, c);
      ConservedStep(s, before, p1, c, Multiple(c, Decode(p1)));
    }
  }

  // ---- termination --------------------------------------------------------------------

  function BitLength(k: nat): nat {
    if k == 0 then 0 else 1 + BitLength(k / 2)
  }

  /** The number of bits k is written with. */
  lemma {:induction false} BitLengthIs(k: nat)
    ensures k < Bitstream.Pow2(BitLength(k))
    ensures k > 0 ==> Bitstream.Pow2(BitLength(k) - 1) <= k
  {
    if k > 0 {
      BitLengthIs(k / 2);
    }
  }

  /** More than any addition takes, with its handshake. */
  const SLOT: nat := CHORD_DONE + 4

  /** The clocks that can still pass before the scalar is used up. */
  function Work(s: Regs, phase: nat): int {
    2 * SLOT * BitLength(s.k) - (if s.op then SLOT else 0) - phase
  }

  lemma WorkStep(s: Regs, phase: nat, p1: Bus, c: nat)
    requires InPhase(s, phase) && s.k > 0
    ensures var t := Edge(s, false, p1, c);
            Work(t, NextPhase(s, phase)) < Work(s, phase) && phase < SLOT
  {
    hide AdderEdge, AdderAt, Latency, Pulse.Out, Pulse.Edge, Left, Right;
    PulseTiming(s, phase);
    LatencyAtLeastTwo(Left(s), Right(s));
  }

  lemma {:induction false} WorkRunsOut(n: nat, s0: Regs, p1: Bus, c: nat) returns (phase: nat)
    requires ValidAdder(s0.adder)
    ensures InPhase(After(n, s0, p1, c), phase)
    ensures var s := After(n, s0, p1, c);
            s.k > 0 ==> Work(s, phase) <= 2 * SLOT * BitLength(c) - n
  {
    hide InPhase, AdderEdge, AdderAt;
    if n == 0 {
      phase := 1;
      var s := Edge(s0, true, p1, c);
      AdderIsStarted(s0.adder, Left(s0), Right(s0), Left(s), Right(s));
      PhaseAtStart(s0, p1, c);
    } else {
      var before := WorkRunsOut(n - 1, s0, p1, c);
      var s := After(n - 1, s0, p1, c);
      phase := NextPhase(s, before);
      PhaseStep(s, before, p1, c);
      if s.k > 0 {
        WorkStep(s, before, p1, c);
      }
    }
  }

  lemma PhaseAtStart(s0: Regs, p1: Bus, c: nat)
    requires ValidAdder(s0.adder)
    ensures InPhase(Edge(s0, true, p1, c), 1)
  {
    hide AdderEdge, AdderAt, Latency;
    var s := Edge(s0, true, p1, c);
    AdderIsStarted(s0.adder, Left(s0), Right(s0), Left(s), Right(s));
  }

  // ---- the result ---------------------------------------------------------------------

  /** `point_scalar_mult` computes c * P1: whenever `done` is high the outputs hold c * P1, on
      every later clock too, and `done` is high at the latest 2 * SLOT clocks for each bit of c
      after reset. */
  lemma ScalarMultComputesMultiple(n: nat, s0: Regs, p1: Bus, c: nat)
    requires Irreducible() && Associative() && ValidAdder(s0.adder) && LegalPoint(p1) && OnCurve(Decode(p1))
    ensures var s := After(n, s0, p1, c);
            (s.done ==> LegalPoint(s.out) && Decode(s.out) == Multiple(c, Decode(p1)))
            && (n >= 2 * SLOT * BitLength(c) + 2 ==> s.done)
  {
    hide InPhase, Edge, Multiple, OnCurve, Sum, SLOT;
    var phase := RunInvariant(n, s0, p1, c);
    if n >= 2 * SLOT * BitLength(c) + 2 {
      var p := WorkRunsOut(n - 1, s0, p1, c);
      ScalarIsUsedUp(n - 1, After(n - 1, s0, p1, c), p, 2 * SLOT * BitLength(c));
      DoneNext(After(n - 1, s0, p1, c), p1, c);
    }
  }

  lemma ScalarIsUsedUp(n: nat, s: Regs, phase: nat, bound: nat)
    requires InPhase(s, phase) && n > bound
    requires s.k > 0 ==> Work(s, phase) <= bound - n
    ensures s.k == 0
  {
    hide AdderAt, Latency;
    LatencyAtLeastTwo(Left(s), Right(s));
  }

  lemma DoneNext(s: Regs, p1: Bus, c: nat)
    requires ValidAdder(s.adder) && s.k == 0
    ensures Edge(s, false, p1, c).done
  {
  }

  /** `point_scalar_mult` as it stands in the source; its instances are held by their registers. */
  class ScalarMultiplier {
    var adder: Adder
    var pulse: Pulse.Regs
    var pulse2: Pulse.Regs
    var k: nat
    var op: bool
    var acc: Bus  // x2, y2, zero2
    var dbl: Bus  // x4, y4, zero4
    var out: Bus  // x3, y3, zero3
    var done: bool

    function State(): Regs
      reads this
    {
      Regs(adder, pulse, pulse2, k, op, acc, dbl, out, done)
    }

    /** posedge clk */
    method Clock(reset: bool, p1: Bus, c: nat)
      requires ValidAdder(adder)
      modifies this
      ensures ValidAdder(adder) && State() == Edge(old(State()), reset, p1, c)
    {
      hide AdderEdge, Pulse.Edge, Pulse.Out;
      var p, p2 := Pulse.Out(pulse), Pulse.Out(pulse2);
      var left := if op then dbl else acc;
      var right := Bus(dbl.x, dbl.y, (!op && k % 2 == 0) || dbl.zero);
      var sum := Bus(adder.x3, adder.y3, adder.zero3);
      if reset {
        k, op, acc, dbl := c, false, Bus(Zero, Zero, true), p1;
        out, done := Bus(Zero, Zero, true), false;
      } else {
        if k == 0 {
          out, done := acc, true;
        }
        if p {
          if op {
            k, dbl := k / 2, sum;
          } else {
            acc := sum;
          }
          op := !op;
        }
      }
      pulse := Pulse.Edge(pulse, reset, adder.done);
      pulse2 := Pulse.Edge(pulse2, reset, p);
      adder := AdderEdge(adder, reset || p2, left, right);
    }
  }
}
