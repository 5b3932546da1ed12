/** The scan chain: the TAP controller of IEEE Std 1149.1, the registers in series behind it, and
    the stream operations that place data past the other devices of the chain. */
module JtagChain {
  import opened Bitstream

  datatype Tap =
    | TestLogicReset | RunTestIdle
    | SelectDr | CaptureDr | ShiftDr | Exit1Dr | PauseDr | Exit2Dr | UpdateDr
    | SelectIr | CaptureIr | ShiftIr | Exit1Ir | PauseIr | Exit2Ir | UpdateIr

  /** The controller's next state, clause 6.1 of the standard. */
  function Next(t: Tap, tms: bool): Tap {
    match t
    case TestLogicReset => if tms then TestLogicReset else RunTestIdle
    case RunTestIdle => if tms then SelectDr else RunTestIdle
    case SelectDr => if tms then SelectIr else CaptureDr
    case CaptureDr => if tms then Exit1Dr else ShiftDr
    case ShiftDr => if tms then Exit1Dr else ShiftDr
    case Exit1Dr => if tms then UpdateDr else PauseDr
    case PauseDr => if tms then Exit2Dr else PauseDr
    case Exit2Dr => if tms then UpdateDr else ShiftDr
    case UpdateDr => if tms then SelectDr else RunTestIdle
    case SelectIr => if tms then TestLogicReset else CaptureIr
    case CaptureIr => if tms then Exit1Ir else ShiftIr
    case ShiftIr => if tms then Exit1Ir else ShiftIr
    case Exit1Ir => if tms then UpdateIr else PauseIr
    case PauseIr => if tms then Exit2Ir else PauseIr
    case Exit2Ir => if tms then UpdateIr else ShiftIr
    case UpdateIr => if tms then SelectDr else RunTestIdle
  }

  /** Where the target sits: one-bit BYPASS registers between TDI and it, and between it and TDO. */
  datatype Place = Place(prefix: nat, postfix: nat)

  /** `chain` is the data register path, its bit nearest TDO first; `captured` is what the target
      offers at Capture-DR, `updated` what it held at the last Update-DR. `ir` is the path through all
      instruction registers, `instruction` what these held at the last Update-IR. */
  datatype Line = Line(tap: Tap, chain: seq<bool>, captured: seq<bool>, updated: seq<bool>,
                       ir: seq<bool>, instruction: seq<bool>)

  ghost predicate Fits(at: Place, l: Line) {
    |l.chain| == at.postfix + |l.captured| + at.prefix
  }

  /** The target's part of the path. */
  function Target(at: Place, chain: seq<bool>, n: nat): seq<bool>
    requires |chain| == at.postfix + n + at.prefix
  {
    chain[at.postfix..at.postfix + n]
  }

  /** The bit TDO shows while `tdi` is applied; a chain of no devices is a wire. */
  function Tdo(l: Line, tdi: bool): bool {
    (l.chain + [tdi])[0]
  }

  /** One TCK cycle. */
  function Edge(at: Place, l: Line, tms: bool, tdi: bool): (m: Line)
    requires Fits(at, l)
    ensures Fits(at, m) && m.captured == l.captured && m.tap == Next(l.tap, tms) && |m.ir| == |l.ir|
  {
    var chain :=
      match l.tap
      case CaptureDr => Zeros(at.postfix) + l.captured + Zeros(at.prefix)
      case ShiftDr => (l.chain + [tdi])[1..]
      case _ => l.chain;
    var ir := if l.tap == ShiftIr then (l.ir + [tdi])[1..] else l.ir;
    l.(tap := Next(l.tap, tms), chain := chain, ir := ir,
       updated := if Next(l.tap, tms) == UpdateDr then Target(at, chain, |l.captured|) else l.updated,
       instruction := if Next(l.tap, tms) == UpdateIr then ir else l.instruction)
  }

  /** The line after `data` has been clocked through in Shift-DR. */
  function Shifted(l: Line, data: seq<bool>, last: bool): (m: Line)
    ensures |m.chain| == |l.chain| && m.captured == l.captured && m.updated == l.updated && m.ir == l.ir
    ensures m.tap == if last then Exit1Dr else ShiftDr
  {
    l.(tap := if last then Exit1Dr else ShiftDr, chain := (l.chain + data)[|data|..])
  }

  /** What TDO showed meanwhile. */
  function ShiftedOut(l: Line, data: seq<bool>): (b: seq<bool>)
    ensures |b| == |data|
  {
    (l.chain + data)[..|data|]
  }

  /** One more bit: in Shift-DR the edge that leaves the state still shifts. */
  lemma OneMore(at: Place, l: Line, data: seq<bool>, tms: bool, tdi: bool)
    requires Fits(at, l)
    ensures Edge(at, Shifted(l, data, false), tms, tdi) == Shifted(l, data + [tdi], tms)
    ensures ShiftedOut(l, data + [tdi]) == ShiftedOut(l, data) + [Tdo(Shifted(l, data, false), tdi)]
  {
    OneMoreBit(l.chain, data, tdi);
  }

  lemma OneMoreBit(c: seq<bool>, data: seq<bool>, tdi: bool)
    ensures var n := |data|;
            && ((c + data)[n..] + [tdi])[1..] == (c + (data + [tdi]))[n + 1..]
            && (c + (data + [tdi]))[..n + 1] == (c + data)[..n] + [((c + data)[n..] + [tdi])[0]]
  {
    var n := |data|;
    assert c + (data + [tdi]) == (c + data) + [tdi];
    assert (c + data)[n..] + [tdi] == (c + data + [tdi])[n..];
  }

  lemma ShiftTwice(l: Line, a: seq<bool>, b: seq<bool>, last: bool)
    ensures Shifted(Shifted(l, a, false), b, last) == Shifted(l, a + b, last)
    ensures ShiftedOut(l, a + b) == ShiftedOut(l, a) + ShiftedOut(Shifted(l, a, false), b)
  {
    var c, n := l.chain, |a|;
    assert c + (a + b) == (c + a) + b;
    assert (c + a)[n..] + b == (c + a + b)[n..];
  }

  // ---- what the stream operations are for --------------------------------------------

  /** Data written and then pushed through the prefix devices sits in the target: all of it, last
      bit at the top, if it is no longer than the register, and its last bits otherwise. */
  lemma WriteReachesTarget(at: Place, l: Line, data: seq<bool>)
    requires Fits(at, l)
    ensures var n := |l.captured|;
            var t := Target(at, Shifted(l, data + Zeros(at.prefix), true).chain, n);
            if |data| <= n then t[n - |data|..] == data else t == data[|data| - n..]
  {
    hide Shifted;
    WindowIsSuffix(l.chain, data, Zeros(at.prefix), at.postfix, |l.captured|);
    SuffixIsData(l.chain, data, |l.captured|);
    ShiftedChain(l, data + Zeros(at.prefix));
  }

  lemma ShiftedChain(l: Line, data: seq<bool>)
    ensures Shifted(l, data, true).chain == (l.chain + data)[|data|..]
  {
  }

  /** What is left in the target's place is the end of what was there and the data. */
  lemma WindowIsSuffix(chain: seq<bool>, data: seq<bool>, pad: seq<bool>, postfix: nat, n: nat)
    requires |chain| == postfix + n + |pad|
    ensures |(chain + (data + pad))[|data + pad|..]| == |chain|
    ensures (chain + (data + pad))[|data + pad|..][postfix..postfix + n] == (chain + data)[|chain| + |data| - n..]
  {
    var a, b := |data + pad|, |chain| + |data| - n;
    var t, u := (chain + (data + pad))[a..][postfix..postfix + n], (chain + data)[b..];
    forall i | 0 <= i < n
      ensures t[i] == u[i]
    {
      PrefixAt(chain, data, pad, b + i);
    }
  }

  lemma PrefixAt(chain: seq<bool>, data: seq<bool>, pad: seq<bool>, j: nat)
    requires j < |chain| + |data|
    ensures (chain + (data + pad))[j] == (chain + data)[j]
  {
  }

  lemma SuffixIsData(chain: seq<bool>, data: seq<bool>, n: nat)
    requires n <= |chain|
    ensures var t := (chain + data)[|chain| + |data| - n..];
            if |data| <= n then t[n - |data|..] == data else t == data[|data| - n..]
  {
  }

  /** After Capture-DR, skipping the postfix bits makes the next bits read the captured ones; without
      the adjustment this is so, whatever was captured, only if there is nothing to skip. */
  lemma AdjustedReadIsCaptured(at: Place, l: Line, data: seq<bool>)
    requires l.chain == Zeros(at.postfix) + l.captured + Zeros(at.prefix)
    requires |data| <= |l.captured|
    ensures ShiftedOut(Shifted(l, Zeros(at.postfix), false), data) == l.captured[..|data|]
    ensures (forall i :: 0 <= i < |data| ==> l.captured[i]) && data != [] ==>
              (ShiftedOut(l, data) == l.captured[..|data|] <==> at.postfix == 0)
  {
    var p := at.postfix;
    var c := Shifted(l, Zeros(p), false).chain;
    assert c == l.captured + Zeros(at.prefix) + Zeros(p);
    assert (c + data)[..|data|] == l.captured[..|data|];
    if p > 0 && data != [] {
      assert !ShiftedOut(l, data)[0];
    } else {
      assert (l.chain + data)[..|data|] == l.captured[..|data|];
    }
  }

  lemma ShiftsIr(at: Place, l: Line, tms: bool, tdi: bool, ir: seq<bool>, data: seq<bool>)
    requires Fits(at, l) && l.tap == ShiftIr && |ir| > 0 && l.ir == (ir + data)[|data|..]
    ensures Edge(at, l, tms, tdi).ir == (ir + (data + [tdi]))[|data| + 1..]
  {
    OneMoreBit(ir, data, tdi);
  }

  // ---- the driver --------------------------------------------------------------------

  class Probe {
    const at: Place
    var line: Line

    ghost predicate Valid()
      reads this
    {
      Fits(at, line)
    }

    constructor (at: Place, line: Line)
      requires Fits(at, line)
      ensures Valid() && this.at == at && this.line == line
    {
      this.at, this.line := at, line;
    }

    /** `jtag_write_bit` */
    method WriteBit(tms: bool, tdi: bool)
      requires Valid()
      modifies this
      ensures Valid() && line == Edge(at, old(line), tms, tdi)
    {
      line := Edge(at, line, tms, tdi);
    }

    /** `jtag_read_write_bit` */
    method ReadWriteBit(tms: bool, tdi: bool) returns (bit: bool)
      requires Valid()
      modifies this
      ensures Valid() && line == Edge(at, old(line), tms, tdi) && bit == Tdo(old(line), tdi)
    {
      bit := Tdo(line, tdi);
      line := Edge(at, line, tms, tdi);
    }

    /** `cable_common_read_stream`, of which `cable_common_write_stream` is the part that writes. */
    method CableStream(data: seq<bool>, setLast: bool) returns (bits: seq<bool>)
      requires Valid() && line.tap == ShiftDr && data != []
      modifies this
      ensures Valid() && line == Shifted(old(line), data, setLast)
      ensures bits == ShiftedOut(old(line), data)
    {
      hide Shifted, ShiftedOut, Edge, Tdo;
      ghost var was := line;
      NothingYet(was);
      bits := [];
      for i := 0 to |data| - 1
        invariant Valid()
        invariant line == Shifted(was, data[..i], false) && bits == ShiftedOut(was, data[..i])
      {
        OneMore(at, was, data[..i], false, data[i]);
        assert data[..i + 1] == data[..i] + [data[i]];
        var b := ReadWriteBit(false, data[i]);
        bits := bits + [b];
      }
      var m := |data| - 1;
      OneMore(at, was, data[..m], setLast, data[m]);
      assert data == data[..m] + [data[m]];
      var b := ReadWriteBit(setLast, data[m]);
      bits := bits + [b];
    }

    /** `jtag_write_stream`: with `setTms`, past the devices between TDI and the target. */
    method WriteStream(data: seq<bool>, setTms: bool)
      requires Valid() && line.tap == ShiftDr && data != []
      modifies this
      ensures Valid()
      ensures line == Shifted(old(line), if setTms then data + Zeros(at.prefix) else data, setTms)
    {
      NothingYet(line);
      var _ := ReadWriteStream(data, false, setTms);
    }

    /** `jtag_read_write_stream`: with `adjust`, past the devices between the target and TDO first. */
    method ReadWriteStream(data: seq<bool>, adjust: bool, setTms: bool) returns (bits: seq<bool>)
      requires Valid() && line.tap == ShiftDr && data != []
      modifies this
      ensures Valid()
      ensures var skip := if adjust then Zeros(at.postfix) else [];
              var push := if setTms then data + Zeros(at.prefix) else data;
              && line == Shifted(Shifted(old(line), skip, false), push, setTms)
              && bits == ShiftedOut(Shifted(old(line), skip, false), data)
    {
      hide Shifted, ShiftedOut, Edge, Tdo;
      ghost var was := line;
      NothingYet(was);
      assert Zeros(0) == [];
      if adjust {
        ZeroBits(at.postfix);
      }
      ghost var skipped := line;
      if !setTms {
        bits := CableStream(data, false);
      } else if at.prefix == 0 {
        assert data + Zeros(0) == data;
        bits := CableStream(data, true);
      } else {
        bits := CableStream(data, false);
        ShiftTwice(skipped, data, Zeros(at.prefix - 1), false);
        OneMore(at, skipped, data + Zeros(at.prefix - 1), true, false);
        assert data + Zeros(at.prefix - 1) + [false] == data + Zeros(at.prefix);
        ZeroBits(at.prefix - 1);
        WriteBit(true, false);
      }
    }

    /** The loops that clock n zero bits through. */
    method ZeroBits(n: nat)
      requires Valid() && line.tap == ShiftDr
      modifies this
      ensures Valid() && line == Shifted(old(line), Zeros(n), false)
    {
      hide Shifted, Edge;
      ghost var was := line;
      NothingYet(was);
      assert Zeros(0) == [];
      for i := 0 to n
        invariant Valid() && line == Shifted(was, Zeros(i), false)
      {
        OneMore(at, was, Zeros(i), false, false);
        assert Zeros(i + 1) == Zeros(i) + [false];
        WriteBit(false, false);
      }
    }

    /** The first four bits of `tap_set_ir`. */
    method SetShiftIr()
      requires Valid() && line.tap == RunTestIdle
      modifies this
      ensures Valid() && line.tap == ShiftIr && line.ir == old(line.ir) && line.captured == old(line.captured)
    {
      WriteBit(true, false);
      WriteBit(true, false);
      WriteBit(false, false);
      WriteBit(false, false);
    }

    /** Its last two, which latch the instructions. */
    method UpdateIrToIdle()
      requires Valid() && line.tap == Exit1Ir
      modifies this
      ensures Valid() && line.tap == RunTestIdle && line.captured == old(line.captured)
      ensures line.instruction == old(line.ir) == line.ir
    {
      WriteBit(true, false);
      WriteBit(false, false);
    }

    /** `cable_common_write_stream` in Shift-IR, for all the instruction registers at once. */
    method IrStream(data: seq<bool>)
      requires Valid() && line.tap == ShiftIr && |data| == |line.ir| > 0
      modifies this
      ensures Valid() && line.tap == Exit1Ir && line.ir == data && line.captured == old(line.captured)
    {
      hide Edge;
      ghost var was := line;
      for i := 0 to |data|
        invariant Valid() && line.tap == (if i < |data| then ShiftIr else Exit1Ir)
        invariant line.captured == was.captured && line.ir == (was.ir + data[..i])[i..]
      {
        ShiftsIr(at, line, i == |data| - 1, data[i], was.ir, data[..i]);
        assert data[..i] + [data[i]] == data[..i + 1];
        WriteBit(i == |data| - 1, data[i]);
      }
      assert (was.ir + data)[|data|..] == data == data[..|data|];
    }

    /** `tap_set_shift_dr` */
    method SetShiftDr()
      requires Valid() && line.tap == RunTestIdle
      modifies this
      ensures Valid() && line.tap == ShiftDr
      ensures line.chain == Zeros(at.postfix) + line.captured + Zeros(at.prefix)
      ensures line.captured == old(line.captured) && line.updated == old(line.updated)
      ensures line.ir == old(line.ir)
    {
      WriteBit(true, false);
      WriteBit(false, false);
      WriteBit(false, false);
    }

    /** `tap_exit_to_idle` */
    method ExitToIdle()
      requires Valid() && line.tap == Exit1Dr
      modifies this
      ensures Valid() && line.tap == RunTestIdle
      ensures line.captured == old(line.captured) && line.chain == old(line.chain)
      ensures line.ir == old(line.ir)
      ensures line.updated == Target(at, line.chain, |line.captured|)
    {
      WriteBit(true, false);
      WriteBit(false, false);
    }
  }

  lemma NothingYet(l: Line)
    ensures l.tap == ShiftDr ==> Shifted(l, [], false) == l
    ensures ShiftedOut(l, []) == []
  {
    assert l.chain + [] == l.chain;
  }
}
