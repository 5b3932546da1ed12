/** `point_add` and the two engines under it, clock by clock. */
module PointAdd {
  import opened F3
  import opened F3m
  import opened Modulus
  import opened Shifter
  import Inv = F3mInv
  import Mul = F3mMult
  import opened F3mCubic
  import opened Curve
  import Pulse

  /** State numbers, counted in clock edges since reset, at which the stages are finished. */
  const INV_DONE: nat := 2 * M + 1        // the inverter shows its result
  const MUL_START: nat := INV_DONE + 2    // the first multiplier has been loaded
  const MUL_TIME: nat := Mul.STEPS + 1    // clocks from loading to result

  // ---- func10: doubling ---------------------------------------------------------------

  datatype Doubler = Doubler(inv: Inv.Regs, mul: Mul.Regs, pulse: Pulse.Regs, K: ShiftReg,
                             done: bool, x3: Wires, y3: Wires)

  function DoublerEdge(s: Doubler, reset: bool, x1: Wires, y1: Wires): (t: Doubler)
    requires |s.K| == 3
    ensures |t.K| == 3
  {
    var v1, v2 := s.inv.C, s.mul.C;
    var v3 := Cubic(v1);
    var v4, v5 := VAdd(x1, v2), VAdd(y1, v3);
    var v6 := VSwap(v5);
    var rst2 := Pulse.Out(s.pulse);
    Doubler(
      Inv.Edge(s.inv, reset, y1),
      Mul.Edge(s.mul, rst2, v1, v1),
      Pulse.Edge(s.pulse, reset, s.inv.done),
      if reset then Hot(3, 2)
      else if (s.K[2] && rst2) || (s.K[1] && s.mul.done) || s.K[0] then ShiftRight(s.K) else s.K,
      !reset && (s.K[0] || s.done),
      if reset then Zero else if s.K[0] then v4 else s.x3,
      if reset then Zero else if s.K[0] then v6 else s.y3)
  }

  /** The registers n edges after an edge with `reset`, from any contents, inputs held. */
  function DoublerAfter(n: nat, s0: Doubler, x1: Wires, y1: Wires): (s: Doubler)
    requires |s0.K| == 3
    ensures |s.K| == 3
  {
    if n == 0 then DoublerEdge(s0, true, x1, y1) else DoublerEdge(DoublerAfter(n - 1, s0, x1, y1), false, x1, y1)
  }

  const DOUBLE_DONE: nat := MUL_START + MUL_TIME + 2

  /** What the doubler computes: x1 + (1/y1)^2 and -(y1 + (1/y1)^3). */
  function DoubleX(x1: Wires, y1: Wires): Wires {
    VAdd(x1, Mul.Product(Inv.Inverse(y1), Inv.Inverse(y1)))
  }

  function DoubleY(y1: Wires): Wires {
    VSwap(VAdd(y1, Cubic(Inv.Inverse(y1))))
  }

  /** A multiplier k clocks after it was loaded with a and b. */
  ghost predicate MulAt(m: Mul.Regs, k: nat, a: Wires, b: Wires) {
    exists m0: Mul.Regs :: m == Mul.After(k, m0, a, b)
  }

  lemma MulIsLoaded(m: Mul.Regs, a: Wires, b: Wires)
    ensures MulAt(Mul.Edge(m, true, a, b), 0, a, b)
  {
    hide Mul.Edge;
    assert Mul.Edge(m, true, a, b) == Mul.After(0, m, a, b);
  }

  /** A loaded multiplier advances, whatever is on its inputs. */
  lemma MulAdvances(m: Mul.Regs, k: nat, a: Wires, b: Wires, c: Wires, d: Wires)
    requires MulAt(m, k, a, b)
    ensures MulAt(Mul.Edge(m, false, c, d), k + 1, a, b)
  {
    var m0: Mul.Regs :| m == Mul.After(k, m0, a, b);
    assert Mul.Edge(m, false, c, d) == Mul.Edge(m, false, a, b);
    hide Mul.Edge;
    assert Mul.After(k + 1, m0, a, b) == Mul.Edge(Mul.After(k, m0, a, b), false, a, b);
  }

  lemma MulShows(m: Mul.Regs, k: nat, a: Wires, b: Wires)
    requires MulAt(m, k, a, b)
    ensures (m.done <==> k >= MUL_TIME) && (k >= MUL_TIME ==> m.C == Mul.Product(a, b))
  {
    hide Mul.After, Mul.Product, Mul.CoreAt;
    var m0: Mul.Regs :| m == Mul.After(k, m0, a, b);
    Mul.Schedule(k, m0, a, b);
  }

  lemma InvShows(v: Inv.Regs, n: nat, inv0: Inv.Regs, a: Wires)
    requires v == Inv.After(n, inv0, a)
    ensures (v.done <==> n >= INV_DONE) && (n >= INV_DONE ==> v.C == Inv.Inverse(a))
    ensures Inv.Edge(v, false, a) == Inv.After(n + 1, inv0, a)
  {
    hide Inv.Edge, Inv.Inverse, Inv.CoreAt;
    Inv.Schedule(n, inv0, a);
  }

  /** The one-hot register's bit after n clocks: waiting for the inverter, for the multiplier, for the
      sums, or past its end. */
  function DoublerStage(n: nat): int {
    if n < MUL_START then 2 else if n <= MUL_START + MUL_TIME then 1 else if n < DOUBLE_DONE then 0 else -1
  }

  /** Where the doubler stands at every clock of a run. */
  ghost predicate DoublerSchedule(n: nat, s: Doubler, inv0: Inv.Regs, x1: Wires, y1: Wires) {
    && s.inv == Inv.After(n, inv0, y1)
    && s.pulse == Pulse.Regs(n > INV_DONE, n > INV_DONE + 1)
    && (n >= MUL_START ==> MulAt(s.mul, n - MUL_START, Inv.Inverse(y1), Inv.Inverse(y1)))
    && s.K == Hot(3, DoublerStage(n))
    && (s.done <==> n >= DOUBLE_DONE)
    && (n >= DOUBLE_DONE ==> s.x3 == DoubleX(x1, y1) && s.y3 == DoubleY(y1))
  }

  lemma DoublerStep(n: nat, s: Doubler, inv0: Inv.Regs, x1: Wires, y1: Wires)
    requires |s.K| == 3 && DoublerSchedule(n, s, inv0, x1, y1)
    ensures DoublerSchedule(n + 1, DoublerEdge(s, false, x1, y1), inv0, x1, y1)
  {
    hide Inv.After, Inv.Edge, Inv.Inverse, MulAt, Mul.Edge, Mul.Product, VAdd, VSwap, Cubic;
    hide Hot, ShiftRight, DoublerStage;
    var v1 := Inv.Inverse(y1);
    InvShows(s.inv, n, inv0, y1);
    DoublerMul(n, s.mul, Pulse.Out(s.pulse), s.inv.C, v1);
    if n >= MUL_START {
      MulShows(s.mul, n - MUL_START, v1, v1);
    }
    DoublerHot(n, s.K, Pulse.Out(s.pulse), s.mul.done);
  }

  lemma DoublerMul(n: nat, m: Mul.Regs, start: bool, c: Wires, v: Wires)
    requires (start <==> n == MUL_START - 1) && (n == MUL_START - 1 ==> c == v)
    requires n >= MUL_START ==> MulAt(m, n - MUL_START, v, v)
    ensures n + 1 >= MUL_START ==> MulAt(Mul.Edge(m, start, c, c), n + 1 - MUL_START, v, v)
  {
    hide *;
    if n >= MUL_START {
      MulAdvances(m, n - MUL_START, v, v, c, c);
    } else if n == MUL_START - 1 {
      MulIsLoaded(m, v, v);
    }
  }

  lemma DoublerHot(n: nat, k: ShiftReg, start: bool, done: bool)
    requires k == Hot(3, DoublerStage(n)) && (start <==> n == MUL_START - 1)
    requires n >= MUL_START ==> (done <==> n - MUL_START >= MUL_TIME)
    ensures (if (k[2] && start) || (k[1] && done) || k[0] then ShiftRight(k) else k) == Hot(3, DoublerStage(n + 1))
    ensures k[0] <==> MUL_START + MUL_TIME < n < DOUBLE_DONE
  {
    hide Hot, ShiftRight;
    if DoublerStage(n) >= 0 {
      HotShifts(3, DoublerStage(n) - 1);
    }
  }

  lemma DoublerStarts(s: Doubler, x1: Wires, y1: Wires)
    requires |s.K| == 3
    ensures DoublerSchedule(0, DoublerEdge(s, true, x1, y1), s.inv, x1, y1)
  {
    hide Inv.Edge, Mul.Edge, Cubic, VAdd, VSwap, Hot, MulAt, Inv.Inverse, DoubleX, DoubleY, ShiftRight;
  }

  lemma {:induction false} DoublerRuns(n: nat, s0: Doubler, x1: Wires, y1: Wires)
    requires |s0.K| == 3
    ensures DoublerSchedule(n, DoublerAfter(n, s0, x1, y1), s0.inv, x1, y1)
  {
    hide DoublerSchedule, DoublerEdge;
    if n == 0 {
      DoublerStarts(s0, x1, y1);
    } else {
      DoublerRuns(n - 1, s0, x1, y1);
      DoublerStep(n - 1, DoublerAfter(n - 1, s0, x1, y1), s0.inv, x1, y1);
    }
  }

  /** `func10` as it stands in the source; its instances are held by their registers. */
  class DoublingEngine {
    var inv: Inv.Regs
    var mul: Mul.Regs
    var pulse: Pulse.Regs
    var K: ShiftReg
    var done: bool
    var x3: Wires
    var y3: Wires

    function State(): Doubler
      reads this
    {
      Doubler(inv, mul, pulse, K, done, x3, y3)
    }

    /** posedge clk */
    method Clock(reset: bool, x1: Wires, y1: Wires)
      requires |K| == 3
      modifies this
      ensures |K| == 3 && State() == DoublerEdge(old(State()), reset, x1, y1)
    {
      hide Inv.Edge, Mul.Edge, Pulse.Edge, Pulse.Out, Cubic, VAdd, VSwap, Hot, ShiftRight;
      var v1, rst2 := inv.C, Pulse.Out(pulse);
      if reset {
        K, done, x3, y3 := Hot(3, 2), false, Zero, Zero;
      } else {
        if K[0] {
          done, x3, y3 := true, VAdd(x1, mul.C), VSwap(VAdd(y1, Cubic(v1)));
        }
        if (K[2] && rst2) || (K[1] && mul.done) || K[0] {
          K := ShiftRight(K);
        }
      }
      pulse := Pulse.Edge(pulse, reset, inv.done);
      inv := Inv.Edge(inv, reset, y1);
      mul := Mul.Edge(mul, rst2, v1, v1);
    }
  }

  // ---- func11: chord addition ---------------------------------------------------------

  datatype Chord = Chord(inv: Inv.Regs, mul4: Mul.Regs, mul5: Mul.Regs, pulse2: Pulse.Regs, pulse3: Pulse.Regs,
                         K: ShiftReg, done: bool, x3: Wires, y3: Wires)

  function ChordEdge(s: Chord, reset: bool, x1: Wires, y1: Wires, x2: Wires, y2: Wires): (t: Chord)
    requires |s.K| == 4
    ensures |t.K| == 4
  {
    var v1, v2 := VSub(x2, x1), VSub(y2, y1);
    var v3, v4, v5 := s.inv.C, s.mul4.C, s.mul5.C;
    var v6 := Cubic(v4);
    var v7, v8 := VAdd(x1, x2), VAdd(y1, y2);
    var v9, v10 := VSub(v5, v7), VSub(v8, v6);
    var rst2, rst3 := Pulse.Out(s.pulse2), Pulse.Out(s.pulse3);
    Chord(
      Inv.Edge(s.inv, reset, v1),
      Mul.Edge(s.mul4, rst2, v2, v3),
      Mul.Edge(s.mul5, rst3, v4, v4),
      Pulse.Edge(s.pulse2, reset, s.inv.done),
      Pulse.Edge(s.pulse3, reset, s.mul4.done),
      if reset then Hot(4, 3)
      else if (s.K[3] && rst2) || (s.K[2] && rst3) || (s.K[1] && s.mul5.done) || s.K[0] then ShiftRight(s.K)
      else s.K,
      !reset && (s.K[0] || s.done),
      if reset then Zero else if s.K[0] then v9 else s.x3,
      if reset then Zero else if s.K[0] then v10 else s.y3)
  }

  function ChordAfter(n: nat, s0: Chord, x1: Wires, y1: Wires, x2: Wires, y2: Wires): (s: Chord)
    requires |s0.K| == 4
    ensures |s.K| == 4
  {
    if n == 0 then ChordEdge(s0, true, x1, y1, x2, y2)
    else ChordEdge(ChordAfter(n - 1, s0, x1, y1, x2, y2), false, x1, y1, x2, y2)
  }

  /** The slope the first multiplier computes, and the coordinates the adders make of it. */
  function ChordL(x1: Wires, y1: Wires, x2: Wires, y2: Wires): Wires {
    Mul.Product(VSub(y2, y1), Inv.Inverse(VSub(x2, x1)))
  }

  function ChordX(x1: Wires, y1: Wires, x2: Wires, y2: Wires): Wires {
    VSub(Mul.Product(ChordL(x1, y1, x2, y2), ChordL(x1, y1, x2, y2)), VAdd(x1, x2))
  }

  function ChordY(x1: Wires, y1: Wires, x2: Wires, y2: Wires): Wires {
    VSub(VAdd(y1, y2), Cubic(ChordL(x1, y1, x2, y2)))
  }

  const MUL2_START: nat := MUL_START + MUL_TIME + 2
  const CHORD_DONE: nat := MUL2_START + MUL_TIME + 2

  /** A multiplier that has run for n clocks since something else last touched it. */
  ghost predicate IdleFor(m: Mul.Regs, n: nat) {
    exists m0: Mul.Regs :: m == Mul.Idle(n, m0)
  }

  lemma IdleStep(m: Mul.Regs, n: nat, a: Wires, b: Wires)
    requires IdleFor(m, n)
    ensures IdleFor(Mul.Edge(m, false, a, b), n + 1)
    ensures n >= MUL_TIME ==> Mul.Edge(m, false, a, b).done == m.done
  {
    var m0: Mul.Regs :| m == Mul.Idle(n, m0);
    assert Mul.Edge(m, false, a, b) == Mul.Edge(m, false, Zero, Zero);
    hide Mul.Edge;
    assert Mul.Idle(n + 1, m0) == Mul.Edge(Mul.Idle(n, m0), false, Zero, Zero);
    if n >= MUL_TIME {
      Mul.IdleSettles(n, m0);
    }
  }

  lemma IdleStart(m: Mul.Regs)
    ensures IdleFor(m, 0)
  {
    assert m == Mul.Idle(0, m);
  }

  /** Where the first half of the chord adder stands at every clock of a run.  Its multiplier is
      not reset with the rest: an old `done` may even make a stray pulse early in the run, but it
      has settled, and the pulse is over, long before the step register looks. */
  ghost predicate SlopeSchedule(n: nat, s: Chord, inv0: Inv.Regs, v1: Wires, v2: Wires) {
    && s.inv == Inv.After(n, inv0, v1)
    && s.pulse2 == Pulse.Regs(n > INV_DONE, n > INV_DONE + 1)
    && (n < MUL_START ==> IdleFor(s.mul4, n))
    && (n >= MUL_START ==> MulAt(s.mul4, n - MUL_START, v2, Inv.Inverse(v1)))
    && (MUL_TIME < n < MUL_START ==> s.pulse3.reg1 == s.mul4.done)
    && (MUL_TIME + 1 < n <= MUL_START ==> s.pulse3.reg1 == s.pulse3.reg2)
    && (n > MUL_START ==> (s.pulse3.reg1 <==> n > MUL_START + MUL_TIME))
    && (n > MUL_START + 1 ==> (s.pulse3.reg2 <==> n > MUL_START + MUL_TIME + 1))
  }

  /** And the second half, which squares the slope l and adds up. */
  ghost predicate SquareSchedule(n: nat, s: Chord, l: Wires, x3: Wires, y3: Wires) {
    && (n >= MUL2_START ==> MulAt(s.mul5, n - MUL2_START, l, l))
    && s.K == Hot(4, if n < MUL_START then 3 else if n < MUL2_START then 2
                     else if n <= MUL2_START + MUL_TIME then 1 else if n < CHORD_DONE then 0 else -1)
    && (s.done <==> n >= CHORD_DONE)
    && (n >= CHORD_DONE ==> s.x3 == x3 && s.y3 == y3)
  }

  ghost predicate ChordSchedule(n: nat, s: Chord, inv0: Inv.Regs, x1: Wires, y1: Wires, x2: Wires, y2: Wires) {
    && SlopeSchedule(n, s, inv0, VSub(x2, x1), VSub(y2, y1))
    && SquareSchedule(n, s, ChordL(x1, y1, x2, y2), ChordX(x1, y1, x2, y2), ChordY(x1, y1, x2, y2))
  }

  /** When the two handshake pulses come, and that the slope is there in time. */
  lemma SlopeHandshakes(n: nat, s: Chord, inv0: Inv.Regs, v1: Wires, v2: Wires)
    requires SlopeSchedule(n, s, inv0, v1, v2)
    ensures Pulse.Out(s.pulse2) <==> n == MUL_START - 1
    ensures n >= MUL_START ==> (Pulse.Out(s.pulse3) <==> n == MUL2_START - 1)
    ensures n >= MUL2_START - 1 ==> s.mul4.C == Mul.Product(v2, Inv.Inverse(v1))
  {
    hide MulAt, IdleFor, Mul.Product, Inv.Inverse, Inv.After;
    if n >= MUL_START {
      MulShows(s.mul4, n - MUL_START, v2, Inv.Inverse(v1));
    }
  }

  lemma SlopeStep(n: nat, s: Chord, t: Chord, inv0: Inv.Regs, v1: Wires, v2: Wires)
    requires SlopeSchedule(n, s, inv0, v1, v2)
    requires t.inv == Inv.Edge(s.inv, false, v1)
    requires t.mul4 == Mul.Edge(s.mul4, Pulse.Out(s.pulse2), v2, s.inv.C)
    requires t.pulse2 == Pulse.Edge(s.pulse2, false, s.inv.done)
    requires t.pulse3 == Pulse.Edge(s.pulse3, false, s.mul4.done)
    ensures SlopeSchedule(n + 1, t, inv0, v1, v2)
  {
    hide Inv.After, Inv.Edge, Inv.Inverse, MulAt, IdleFor, Mul.Edge;
    var v3 := Inv.Inverse(v1);
    InvShows(s.inv, n, inv0, v1);
    if n >= MUL_START {
      MulShows(s.mul4, n - MUL_START, v2, v3);
      MulAdvances(s.mul4, n - MUL_START, v2, v3, v2, s.inv.C);
    } else if n == MUL_START - 1 {
      MulIsLoaded(s.mul4, v2, v3);
    } else {
      IdleStep(s.mul4, n, v2, s.inv.C);
    }
  }

  lemma SquareStep(n: nat, s: Chord, t: Chord, rst2: bool, rst3: bool, l: Wires,
                   x3: Wires, y3: Wires, xIn: Wires, yIn: Wires)
    requires |s.K| == 4 && SquareSchedule(n, s, l, x3, y3)
    requires (rst2 <==> n == MUL_START - 1) && (n >= MUL_START ==> (rst3 <==> n == MUL2_START - 1))
    requires n >= MUL2_START - 1 ==> t.mul5 == Mul.Edge(s.mul5, rst3, l, l)
    requires t.K == if (s.K[3] && rst2) || (s.K[2] && rst3) || (s.K[1] && s.mul5.done) || s.K[0]
                    then ShiftRight(s.K) else s.K
    requires t.done <==> s.K[0] || s.done
    requires t.x3 == (if s.K[0] then xIn else s.x3) && t.y3 == if s.K[0] then yIn else s.y3
    requires n >= MUL2_START && s.mul5.C == Mul.Product(l, l) ==> xIn == x3 && yIn == y3
    ensures SquareSchedule(n + 1, t, l, x3, y3)
  {
    hide MulAt, Mul.Edge, Mul.Product, Hot, ShiftRight;
    if n >= MUL2_START {
      MulShows(s.mul5, n - MUL2_START, l, l);
      MulAdvances(s.mul5, n - MUL2_START, l, l, l, l);
    } else if n == MUL2_START - 1 {
      MulIsLoaded(s.mul5, l, l);
    }
    HotShifts(4, 2);
    HotShifts(4, 1);
    HotShifts(4, 0);
    HotShifts(4, -1);
  }

  lemma ChordStep(n: nat, s: Chord, inv0: Inv.Regs, x1: Wires, y1: Wires, x2: Wires, y2: Wires)
    requires |s.K| == 4 && ChordSchedule(n, s, inv0, x1, y1, x2, y2)
    ensures ChordSchedule(n + 1, ChordEdge(s, false, x1, y1, x2, y2), inv0, x1, y1, x2, y2)
  {
    hide SlopeSchedule, SquareSchedule, Inv.Inverse;
    hide Inv.Edge, Mul.Edge, Mul.Product, Pulse.Edge, Pulse.Out, VAdd, VSub, Cubic, Hot, ShiftRight;
    var t := ChordEdge(s, false, x1, y1, x2, y2);
    var v1, v2 := VSub(x2, x1), VSub(y2, y1);
    SlopeHandshakes(n, s, inv0, v1, v2);
    SlopeStep(n, s, t, inv0, v1, v2);
    SquareStep(n, s, t, Pulse.Out(s.pulse2), Pulse.Out(s.pulse3), ChordL(x1, y1, x2, y2),
               ChordX(x1, y1, x2, y2), ChordY(x1, y1, x2, y2),
               VSub(s.mul5.C, VAdd(x1, x2)), VSub(VAdd(y1, y2), Cubic(s.mul4.C)));
  }

  lemma ChordStarts(s: Chord, x1: Wires, y1: Wires, x2: Wires, y2: Wires)
    requires |s.K| == 4
    ensures ChordSchedule(0, ChordEdge(s, true, x1, y1, x2, y2), s.inv, x1, y1, x2, y2)
  {
    hide Inv.Edge, Mul.Edge, Cubic, VAdd, VSub, Hot, MulAt, IdleFor, Inv.Inverse, ChordL, ChordX, ChordY, ShiftRight;
    IdleStart(ChordEdge(s, true, x1, y1, x2, y2).mul4);
  }

  lemma {:induction false} ChordRuns(n: nat, s0: Chord, x1: Wires, y1: Wires, x2: Wires, y2: Wires)
    requires |s0.K| == 4
    ensures ChordSchedule(n, ChordAfter(n, s0, x1, y1, x2, y2), s0.inv, x1, y1, x2, y2)
  {
    hide ChordSchedule, ChordEdge;
    if n == 0 {
      ChordStarts(s0, x1, y1, x2, y2);
    } else {
      ChordRuns(n - 1, s0, x1, y1, x2, y2);
      ChordStep(n - 1, ChordAfter(n - 1, s0, x1, y1, x2, y2), s0.inv, x1, y1, x2, y2);
    }
  }

  /** `func11` as it stands in the source. */
  class ChordEngine {
    var inv: Inv.Regs
    var mul4: Mul.Regs
    var mul5: Mul.Regs
    var pulse2: Pulse.Regs
    var pulse3: Pulse.Regs
    var K: ShiftReg
    var done: bool
    var x3: Wires
    var y3: Wires

    function State(): Chord
      reads this
    {
      Chord(inv, mul4, mul5, pulse2, pulse3, K, done, x3, y3)
    }

    /** The engine's own always blocks. */
    method ClockRegisters(reset: bool, x1: Wires, y1: Wires, x2: Wires, y2: Wires)
      requires |K| == 4
      modifies this`K, this`done, this`x3, this`y3
      ensures var t := ChordEdge(old(State()), reset, x1, y1, x2, y2);
              K == t.K && done == t.done && x3 == t.x3 && y3 == t.y3
    {
      hide Inv.Edge, Mul.Edge, Pulse.Edge, Pulse.Out, Cubic, VAdd, VSub, Hot, ShiftRight;
      var rst2, rst3 := Pulse.Out(pulse2), Pulse.Out(pulse3);
      if reset {
        K, done, x3, y3 := Hot(4, 3), false, Zero, Zero;
      } else {
        if K[0] {
          done, x3, y3 := true, VSub(mul5.C, VAdd(x1, x2)), VSub(VAdd(y1, y2), Cubic(mul4.C));
        }
        if (K[3] && rst2) || (K[2] && rst3) || (K[1] && mul5.done) || K[0] {
          K := ShiftRight(K);
        }
      }
    }

    /** posedge clk */
    method Clock(reset: bool, x1: Wires, y1: Wires, x2: Wires, y2: Wires)
      requires |K| == 4
      modifies this
      ensures |K| == 4 && State() == ChordEdge(old(State()), reset, x1, y1, x2, y2)
    {
      hide Inv.Edge, Mul.Edge, Pulse.Edge, Pulse.Out, Cubic, VAdd, VSub, Hot, ShiftRight;
      ClockRegisters(reset, x1, y1, x2, y2);
      var v3, v4 := inv.C, mul4.C;
      var rst2, rst3 := Pulse.Out(pulse2), Pulse.Out(pulse3);
      pulse2 := Pulse.Edge(pulse2, reset, inv.done);
      pulse3 := Pulse.Edge(pulse3, reset, mul4.done);
      inv := Inv.Edge(inv, reset, VSub(x2, x1));
      mul4 := Mul.Edge(mul4, rst2, VSub(y2, y1), v3);
      mul5 := Mul.Edge(mul5, rst3, v4, v4);
    }
  }

  // ---- point_add ----------------------------------------------------------------------

  /** A point on wires: coordinates and the flag of the point at infinity. */
  datatype Bus = Bus(x: Wires, y: Wires, zero: bool)

  /** The coordinates of the point at infinity may be anything, even illegal codes. */
  predicate LegalPoint(b: Bus) {
    b.zero || (LegalBus(b.x) && LegalBus(b.y))
  }

  function Decode(b: Bus): Point
    requires LegalPoint(b)
  {
    if b.zero then Infinity else Affine(b.x, b.y)
  }

  /** The masked OR of `func9`. */
  function Masked(a: Wires, za: bool, b: Wires, zb: bool): (c: Wires)
    ensures za && !zb ==> c == b
    ensures zb && !za ==> c == a
  {
    seq(M, i requires 0 <= i < M =>
      Trit((b[i].b1 && za) || (a[i].b1 && zb), (b[i].b0 && za) || (a[i].b0 && zb)))
  }

  datatype Adder = Adder(dbl: Doubler, chord: Chord, use1: bool, cond1: bool, cond2: bool, cond3: bool,
                         cond4: bool, cond5: bool, zero3: bool, done: bool, x3: Wires, y3: Wires)

  predicate ValidAdder(s: Adder) {
    |s.dbl.K| == 3 && |s.chord.K| == 4
  }

  function AdderEdge(s: Adder, reset: bool, p: Bus, q: Bus): (t: Adder)
    requires ValidAdder(s)
    ensures ValidAdder(t)
  {
    var dbl := DoublerEdge(s.dbl, reset, p.x, p.y);
    var chord := ChordEdge(s.chord, reset, p.x, p.y, q.x, q.y);
    if reset then
      Adder(dbl, chord, false, false, false, false, false, false, false, false, Zero, Zero)
    else
      Adder(
        dbl, chord,
        p.zero || q.zero,
        !s.use1 && s.cond2 && s.cond4,
        p.x == q.x,
        p.y == q.y,
        p.y == VSwap(q.y),
        !s.use1 && s.cond2 && s.cond3,
        (s.use1 && p.zero && q.zero) || s.cond1,
        if s.use1 || s.cond1 then true else if s.cond5 then s.dbl.done else s.chord.done,
        if s.use1 then Masked(p.x, p.zero, q.x, q.zero) else if s.cond5 then s.dbl.x3 else s.chord.x3,
        if s.use1 then Masked(p.y, p.zero, q.y, q.zero) else if s.cond5 then s.dbl.y3 else s.chord.y3)
  }

  /** The registers n edges after an edge with `reset`, from any contents, inputs held. */
  function AdderAfter(n: nat, s0: Adder, p: Bus, q: Bus): (s: Adder)
    requires ValidAdder(s0)
    ensures ValidAdder(s)
  {
    if n == 0 then AdderEdge(s0, true, p, q) else AdderEdge(AdderAfter(n - 1, s0, p, q), false, p, q)
  }

  /** The state in which `done` is first high: it depends on which case applies. */
  function Latency(p: Bus, q: Bus): nat {
    if p.zero || q.zero then 2
    else if p.x == q.x && p.y == VSwap(q.y) then 3
    else if p.x == q.x && p.y == q.y then DOUBLE_DONE + 1
    else CHORD_DONE + 1
  }

  /** What the circuit presents once it is done. */
  function AdderOutput(p: Bus, q: Bus): Bus {
    if p.zero || q.zero then
      Bus(Masked(p.x, p.zero, q.x, q.zero), Masked(p.y, p.zero, q.y, q.zero), p.zero && q.zero)
    else
      var opposite := p.x == q.x && p.y == VSwap(q.y);
      if p.x == q.x && p.y == q.y then Bus(DoubleX(p.x, p.y), DoubleY(p.y), opposite)
      else Bus(ChordX(p.x, p.y, q.x, q.y), ChordY(p.x, p.y, q.x, q.y), opposite)
  }

  /** The flags are right from the second clock on, before either engine can finish. */
  ghost predicate AdderSchedule(n: nat, s: Adder, dbl0: Doubler, chord0: Chord, p: Bus, q: Bus) {
    var use1 := p.zero || q.zero;
    var opposite := !use1 && p.x == q.x && p.y == VSwap(q.y);
    var equal := !use1 && p.x == q.x && p.y == q.y;
    && |dbl0.K| == 3 && |chord0.K| == 4 && ValidAdder(s)
    && (use1 || (s.dbl == DoublerAfter(n, dbl0, p.x, p.y) && s.chord == ChordAfter(n, chord0, p.x, p.y, q.x, q.y)))
    && (n == 0 ==> !s.dbl.done && !s.chord.done)
    && (s.use1 <==> n >= 1 && use1)
    && (s.cond2 <==> n >= 1 && p.x == q.x) && (s.cond3 <==> n >= 1 && p.y == q.y)
    && (s.cond4 <==> n >= 1 && p.y == VSwap(q.y))
    && (s.cond1 <==> n >= 2 && opposite) && (s.cond5 <==> n >= 2 && equal)
    && (s.done <==> n >= Latency(p, q))
    && (n >= Latency(p, q) ==>
          && s.zero3 == AdderOutput(p, q).zero
          && (use1 || !opposite ==> s.x3 == AdderOutput(p, q).x && s.y3 == AdderOutput(p, q).y))
  }

  lemma AdderStep(n: nat, s: Adder, dbl0: Doubler, chord0: Chord, p: Bus, q: Bus)
    requires ValidAdder(s) && AdderSchedule(n, s, dbl0, chord0, p, q)
    ensures AdderSchedule(n + 1, AdderEdge(s, false, p, q), dbl0, chord0, p, q)
  {
    hide DoublerEdge, ChordEdge, DoubleX, DoubleY, ChordX, ChordY, Masked, VSwap, Hot;
    if !p.zero && !q.zero {
      assert DoublerAfter(n + 1, dbl0, p.x, p.y) == DoublerEdge(s.dbl, false, p.x, p.y);
      assert ChordAfter(n + 1, chord0, p.x, p.y, q.x, q.y) == ChordEdge(s.chord, false, p.x, p.y, q.x, q.y);
      DoublerRuns(n, dbl0, p.x, p.y);
      ChordRuns(n, chord0, p.x, p.y, q.x, q.y);
    }
    hide DoublerAfter, ChordAfter;
    hide MulAt, IdleFor, Inv.After, Inv.Inverse;
  }

  lemma EnginesReset(s: Adder, p: Bus, q: Bus)
    requires ValidAdder(s)
    ensures !DoublerEdge(s.dbl, true, p.x, p.y).done && !ChordEdge(s.chord, true, p.x, p.y, q.x, q.y).done
  {
    hide Inv.Edge, Mul.Edge, Pulse.Edge, Pulse.Out, Cubic, VAdd, VSub, VSwap, Hot, ShiftRight;
  }

  /** The reset edge loads the engines from the inputs of that moment, which must be the right
      ones unless an input is the point at infinity. */
  lemma AdderStarts(s: Adder, p0: Bus, q0: Bus, p: Bus, q: Bus)
    requires ValidAdder(s) && (p.zero || q.zero || (p == p0 && q == q0))
    ensures AdderSchedule(0, AdderEdge(s, true, p0, q0), s.dbl, s.chord, p, q)
  {
    EnginesReset(s, p0, q0);
    assert p == p0 && q == q0 ==>
      DoublerAfter(0, s.dbl, p.x, p.y) == DoublerEdge(s.dbl, true, p0.x, p0.y)
      && ChordAfter(0, s.chord, p.x, p.y, q.x, q.y) == ChordEdge(s.chord, true, p0.x, p0.y, q0.x, q0.y);
    hide DoublerEdge, ChordEdge, Masked, VSwap, DoubleX, DoubleY, ChordX, ChordY, AdderOutput, Hot;
  }

  lemma {:induction false} AdderRuns(n: nat, s0: Adder, p: Bus, q: Bus)
    requires ValidAdder(s0)
    ensures AdderSchedule(n, AdderAfter(n, s0, p, q), s0.dbl, s0.chord, p, q)
  {
    hide AdderSchedule, AdderEdge, DoublerAfter, ChordAfter, DoublerEdge, ChordEdge, AdderOutput, Latency;
    if n == 0 {
      AdderStarts(s0, p, q, p, q);
    } else {
      AdderRuns(n - 1, s0, p, q);
      AdderStep(n - 1, AdderAfter(n - 1, s0, p, q), s0.dbl, s0.chord, p, q);
    }
  }

  // ---- what the output means ----------------------------------------------------------

  /** The circuit's equality tests are equality of points. */
  lemma FlagsMeanPoints(p: Bus, q: Bus)
    requires LegalPoint(p) && LegalPoint(q) && !p.zero && !q.zero
    ensures p.x == q.x && p.y == VSwap(q.y) <==> Decode(q) == Negate(Decode(p))
    ensures p.x == q.x && p.y == q.y <==> Decode(p) == Decode(q)
  {
    var y: Elem := p.y;
    assert VSwap(q.y) == p.y <==> q.y == VNeg(y) by {
      if VSwap(q.y) == p.y {
        assert forall i :: 0 <= i < M ==> q.y[i] == VNeg(y)[i];
      }
      if q.y == VNeg(y) {
        assert forall i :: 0 <= i < M ==> VSwap(q.y)[i] == p.y[i];
      }
    }
  }

  lemma SwapIsNeg(w: Elem)
    ensures VSwap(w) == VNeg(w)
  {
  }

  lemma DoubleIsFormula(x1: Elem, y1: Elem)
    ensures LegalBus(DoubleX(x1, y1)) && LegalBus(DoubleY(y1))
    ensures Affine(DoubleX(x1, y1), DoubleY(y1)) == DoubleFormula(x1, y1)
  {
    var v := Inv.Inverse(y1);
    Mul.MultiplierComputesProduct(v, v);
    hide Inv.Inverse, Mul.Product, FMul, Cubic, VAdd, Add;
    SwapIsNeg(VAdd(y1, Cubic(v)));
  }

  lemma ChordIsFormula(x1: Elem, y1: Elem, x2: Elem, y2: Elem)
    ensures LegalBus(ChordX(x1, y1, x2, y2)) && LegalBus(ChordY(x1, y1, x2, y2))
    ensures Affine(ChordX(x1, y1, x2, y2), ChordY(x1, y1, x2, y2)) == ChordFormula(x1, y1, x2, y2)
  {
    hide Inv.Inverse, Mul.Product, FMul, Cubic, VAdd, VSub;
    Mul.MultiplierComputesProduct(VSub(y2, y1), Inv.Inverse(VSub(x2, x1)));
    var l := ChordL(x1, y1, x2, y2);
    Mul.MultiplierComputesProduct(l, l);
  }

  lemma OutputIsSum(p: Bus, q: Bus)
    requires Irreducible() && LegalPoint(p) && LegalPoint(q)
    requires OnCurve(Decode(p)) && OnCurve(Decode(q))
    ensures LegalPoint(AdderOutput(p, q)) && Decode(AdderOutput(p, q)) == Sum(Decode(p), Decode(q))
  {
    hide Masked, DoubleX, DoubleY, ChordX, ChordY, VSwap, VNeg, Reflected, Slope, RightHandSide, FMul;
    if !p.zero && !q.zero {
      FlagsMeanPoints(p, q);
      DoubleIsFormula(p.x, p.y);
      ChordIsFormula(p.x, p.y, q.x, q.y);
      hide DoubleFormula, ChordFormula;
      if Decode(q) != Negate(Decode(p)) {
        FormulasComputeSum(Decode(p), Decode(q));
      }
    }
  }

  /** An adder in its schedule shows the sum as soon as it is done. */
  lemma ScheduleShowsSum(n: nat, s: Adder, dbl0: Doubler, chord0: Chord, p: Bus, q: Bus)
    requires Irreducible() && LegalPoint(p) && LegalPoint(q) && OnCurve(Decode(p)) && OnCurve(Decode(q))
    requires ValidAdder(s) && AdderSchedule(n, s, dbl0, chord0, p, q)
    ensures var out := Bus(s.x3, s.y3, s.zero3);
            (s.done <==> n >= Latency(p, q))
            && (s.done ==> LegalPoint(out) && Decode(out) == Sum(Decode(p), Decode(q)) && OnCurve(Decode(out))
                           && (out.zero <==> Decode(q) == Negate(Decode(p))))
  {
    OutputIsSum(p, q);
    SumOnCurve(Decode(p), Decode(q));
    hide DoublerAfter, ChordAfter, Masked, DoubleX, DoubleY, ChordX, ChordY, VSwap, VNeg;
    hide RightHandSide, FMul, Reflected, Slope, DoublerEdge, ChordEdge;
    if !p.zero && !q.zero {
      FlagsMeanPoints(p, q);
    }
  }

  /** `point_add` computes the group law: `done` is low until the case's own latency, high from
      then on, and from then on the outputs carry the sum of the two points, on the curve. */
  lemma PointAddComputesSum(n: nat, s0: Adder, p: Bus, q: Bus)
    requires Irreducible() && ValidAdder(s0) && LegalPoint(p) && LegalPoint(q)
    requires OnCurve(Decode(p)) && OnCurve(Decode(q))
    ensures var s := AdderAfter(n, s0, p, q);
            var out := Bus(s.x3, s.y3, s.zero3);
            (s.done <==> n >= Latency(p, q))
            && (s.done ==> LegalPoint(out) && Decode(out) == Sum(Decode(p), Decode(q)) && OnCurve(Decode(out))
                           && (out.zero <==> Decode(q) == Negate(Decode(p))))
  {
    hide *;
    AdderRuns(n, s0, p, q);
    ScheduleShowsSum(n, AdderAfter(n, s0, p, q), s0.dbl, s0.chord, p, q);
  }

  /** The registers after an edge, one by one. */
  lemma AdderRegs(s: Adder, t: Adder, reset: bool, p: Bus, q: Bus)
    requires ValidAdder(s) && t.dbl == DoublerEdge(s.dbl, reset, p.x, p.y)
    requires t.chord == ChordEdge(s.chord, reset, p.x, p.y, q.x, q.y)
    requires t.use1 == (!reset && (p.zero || q.zero))
    requires t.cond1 == (!reset && !s.use1 && s.cond2 && s.cond4)
    requires t.cond2 == (!reset && p.x == q.x) && t.cond3 == (!reset && p.y == q.y)
    requires t.cond4 == (!reset && p.y == VSwap(q.y))
    requires t.cond5 == (!reset && !s.use1 && s.cond2 && s.cond3)
    requires t.zero3 == (!reset && ((s.use1 && p.zero && q.zero) || s.cond1))
    requires t.done == (!reset && if s.use1 || s.cond1 then true else if s.cond5 then s.dbl.done else s.chord.done)
    requires t.x3 == if reset then Zero else if s.use1 then Masked(p.x, p.zero, q.x, q.zero)
                     else if s.cond5 then s.dbl.x3 else s.chord.x3
    requires t.y3 == if reset then Zero else if s.use1 then Masked(p.y, p.zero, q.y, q.zero)
                     else if s.cond5 then s.dbl.y3 else s.chord.y3
    ensures t == AdderEdge(s, reset, p, q) && ValidAdder(t)
  {
    hide DoublerEdge, ChordEdge, Masked, VSwap;
  }

  /** `point_add` as it stands in the source: flags and output registers around the two engines. */
  class PointAdder {
    var doubler: Doubler
    var chord: Chord
    var use1: bool
    var cond1: bool
    var cond2: bool
    var cond3: bool
    var cond4: bool
    var cond5: bool
    var zero3: bool
    var done: bool
    var x3: Wires
    var y3: Wires

    function State(): Adder
      reads this
    {
      Adder(doubler, chord, use1, cond1, cond2, cond3, cond4, cond5, zero3, done, x3, y3)
    }

    /** The always block of the flags. */
    method ClockFlags(reset: bool, p: Bus, q: Bus)
      modifies this`use1, this`cond1, this`cond2, this`cond3, this`cond4, this`cond5
      ensures use1 == (!reset && (p.zero || q.zero))
      ensures cond1 == (!reset && !old(use1) && old(cond2) && old(cond4))
      ensures cond2 == (!reset && p.x == q.x) && cond3 == (!reset && p.y == q.y)
      ensures cond4 == (!reset && p.y == VSwap(q.y))
      ensures cond5 == (!reset && !old(use1) && old(cond2) && old(cond3))
    {
      hide VSwap;
      if reset {
        use1, cond1, cond2, cond3, cond4, cond5 := false, false, false, false, false, false;
      } else {
        use1, cond1, cond5 := p.zero || q.zero, !use1 && cond2 && cond4, !use1 && cond2 && cond3;
        cond2, cond3, cond4 := p.x == q.x, p.y == q.y, p.y == VSwap(q.y);
      }
    }

    /** The always blocks of the outputs. */
    method ClockOutputs(reset: bool, p: Bus, q: Bus)
      modifies this`zero3, this`done, this`x3, this`y3
      ensures zero3 == (!reset && ((use1 && p.zero && q.zero) || cond1))
      ensures done == (!reset && if use1 || cond1 then true else if cond5 then doubler.done else chord.done)
      ensures x3 == if reset then Zero else if use1 then Masked(p.x, p.zero, q.x, q.zero)
                    else if cond5 then doubler.x3 else chord.x3
      ensures y3 == if reset then Zero else if use1 then Masked(p.y, p.zero, q.y, q.zero)
                    else if cond5 then doubler.y3 else chord.y3
    {
      hide Masked;
      if reset {
        zero3, done, x3, y3 := false, false, Zero, Zero;
      } else {
        zero3 := (use1 && p.zero && q.zero) || cond1;
        done := if use1 || cond1 then true else if cond5 then doubler.done else chord.done;
        x3 := if use1 then Masked(p.x, p.zero, q.x, q.zero) else if cond5 then doubler.x3 else chord.x3;
        y3 := if use1 then Masked(p.y, p.zero, q.y, q.zero) else if cond5 then doubler.y3 else chord.y3;
      }
    }

    /** posedge clk */
    method Clock(reset: bool, p: Bus, q: Bus)
      requires ValidAdder(State())
      modifies this
      ensures ValidAdder(State()) && State() == AdderEdge(old(State()), reset, p, q)
    {
      hide AdderEdge, DoublerEdge, ChordEdge, Masked, VSwap;
      ghost var s := State();
      ClockOutputs(reset, p, q);
      ClockFlags(reset, p, q);
      doubler := DoublerEdge(doubler, reset, p.x, p.y);
      chord := ChordEdge(chord, reset, p.x, p.y, q.x, q.y);
      AdderRegs(s, State(), reset, p, q);
    }
  }
}
