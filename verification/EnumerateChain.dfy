/** Discovering the devices of a scan chain from the bits they shift out after reset. */
module EnumerateChain {
  import opened Bitstream
  import opened JtagChain

  type Idcode = x: int | 0 <= x < 0x1_0000_0000

  const ALLOC_SIZE: nat := 64
  const MAX_DEVICES: nat := 1024
  const INVALID_CODE: nat := 0x7f
  const DONE_CODE: nat := 0x3f

  /** A device without IDCODE offers its BYPASS bit; one with it, the start bit, 11 bits of
      manufacturer and the 20 that remain. */
  datatype Device = Bypass | IdCode(manuf: nat, rest: nat)

  predicate Legal(d: Device) {
    d.IdCode? ==> d.manuf < 2048 && d.rest < 0x10_0000
  }

  function Serialized(d: Device): (b: seq<bool>)
    ensures |b| == if d.Bypass? then 1 else 32
  {
    match d
    case Bypass => [false]
    case IdCode(m, r) => [true] + Bits(m, 11) + Bits(r, 20)
  }

  /** The whole chain's capture, the device nearest TDO first. */
  function Stream(ds: seq<Device>): seq<bool> {
    if ds == [] then [] else Serialized(ds[0]) + Stream(ds[1..])
  }

  /** What is stored for a device; (uint32_t) -1 stands for BYPASS. */
  function Code(d: Device): Idcode
    requires Legal(d)
  {
    match d
    case Bypass => 0xFFFF_FFFF
    case IdCode(m, r) => r * 4096 + m * 2 + 1
  }

  predicate AllLegal(ds: seq<Device>) {
    forall i :: 0 <= i < |ds| ==> Legal(ds[i])
  }

  function Codes(ds: seq<Device>): (w: seq<Idcode>)
    requires AllLegal(ds)
    ensures |w| == |ds|
  {
    seq(|ds|, i requires 0 <= i < |ds| => Code(ds[i]))
  }

  /** A device whose manufacturer field is the end mark the enumeration shifts in itself. */
  predicate LooksDone(d: Device) {
    d.IdCode? && d.manuf == DONE_CODE
  }

  /** The devices found: those before one that looks like the end, and at most k. */
  function Found(ds: seq<Device>, k: nat): (f: seq<Device>)
    ensures |f| <= k && |f| <= |ds| && f == ds[..|f|]
  {
    if ds == [] || k == 0 || LooksDone(ds[0]) then [] else [ds[0]] + Found(ds[1..], k - 1)
  }

  /** The whole chain is found if and only if it is short enough and no device looks like the end. */
  lemma {:induction false} FoundAllIff(ds: seq<Device>, k: nat)
    ensures Found(ds, k) == ds <==> |ds| <= k && forall i :: 0 <= i < |ds| ==> !LooksDone(ds[i])
  {
    if ds == [] || k == 0 || LooksDone(ds[0]) {
    } else {
      FoundAllIff(ds[1..], k - 1);
      var f := Found(ds[1..], k - 1);
      assert ([ds[0]] + f)[1..] == f;
      assert forall i :: 0 < i < |ds| ==> ds[i] == ds[1..][i - 1];
      assert ds == [ds[0]] + ds[1..];
    }
  }

  /** The code stored for a device with one is the 32 bits it shifted out, least significant first. */
  lemma CodeIsSerialized(d: Device)
    requires Legal(d) && d.IdCode?
    ensures Val(Serialized(d)) == Code(d)
  {
    hide Bits;
    var m, rest := Bits(d.manuf, 11), Bits(d.rest, 20);
    PowersOfFields();
    ValBits(d.manuf, 11);
    ValBits(d.rest, 20);
    ValOfParts(m, rest);
    assert [true] + m + rest == [true] + (m + rest);
    assert ([true] + (m + rest))[1..] == m + rest;
  }

  lemma PowersOfFields()
    ensures Pow2(11) == 2048 && Pow2(20) == 0x10_0000
  {
    assert Pow2(4) == 16;
    assert Pow2(8) == 256;
    assert Pow2(16) == 256 * Pow2(8) by {
      assert Pow2(12) == 16 * Pow2(8);
    }
  }

  lemma Doubled(a: nat, p: nat, b: nat, bit: nat)
    ensures bit + 2 * (a + p * b) == bit + 2 * a + 2 * p * b
  {
  }

  lemma {:induction false} ValOfParts(a: seq<bool>, b: seq<bool>)
    ensures Val(a + b) == Val(a) + Pow2(|a|) * Val(b)
  {
    if a == [] {
      assert a + b == b;
    } else {
      ValOfParts(a[1..], b);
      assert (a + b)[1..] == a[1..] + b && (a + b)[0] == a[0];
      var p, bit := Pow2(|a| - 1), if a[0] then 1 else 0;
      assert Pow2(|a|) == 2 * p && Val(a) == bit + 2 * Val(a[1..]);
      assert Val(a + b) == bit + 2 * Val(a[1..] + b);
      hide *;
      Doubled(Val(a[1..]), p, Val(b), bit);
    }
  }

  /** Codes tell devices apart, but for the IDCODE of all ones, which reads as BYPASS. */
  lemma CodeIdentifies(d: Device, e: Device)
    requires Legal(d) && Legal(e)
    ensures Code(d) == Code(e) <==> d == e || (Code(d) == 0xFFFF_FFFF && Code(e) == 0xFFFF_FFFF)
  {
  }

  // ---- the marker that follows the chain's own bits -----------------------------------

  /** `invalid_code` after n bits of it have gone out. */
  function Marker(n: nat): nat {
    if n == 0 then INVALID_CODE else Marker(n - 1) / 2
  }

  lemma {:induction false} MarkerAt(n: nat)
    ensures Marker(n) == if n >= 7 then 0 else Pow2(7 - n) - 1
    ensures Marker(n) % 2 == 1 <==> n < 7
    ensures n > 0 ==> Marker(n) < 64
  {
    hide Pow2;
    if n == 0 {
      PowerOfSeven();
    } else {
      MarkerAt(n - 1);
      if n <= 7 {
        HalfOfOnes(7 - n);
      }
    }
  }

  lemma PowerOfSeven()
    ensures Pow2(7) == 128
  {
    assert Pow2(4) == 16;
  }

  lemma HalfOfOnes(k: nat)
    ensures (Pow2(k + 1) - 1) / 2 == Pow2(k) - 1
    ensures (Pow2(k) - 1) % 2 == 1 <==> k > 0
  {
  }

  /** Bits n up to n + k of the TDI stream: seven ones, then zeros. */
  function Tdi(n: nat, k: nat): (b: seq<bool>)
    ensures |b| == k
  {
    seq(k, j => n + j < 7)
  }

  lemma {:induction false} MarkerBits(n: nat, k: nat)
    ensures Bits(Marker(n), k) == Tdi(n, k)
    decreases k
  {
    hide Marker;
    if k > 0 {
      MarkerAt(n);
      MarkerBits(n + 1, k - 1);
      assert Marker(n) / 2 == Marker(n + 1) by {
        MarkerStep(n);
      }
      assert Tdi(n, k) == [n < 7] + Tdi(n + 1, k - 1);
    }
  }

  lemma MarkerStep(n: nat)
    ensures Marker(n + 1) == Marker(n) / 2
  {
  }

  lemma MarkerJump(n: nat)
    requires n > 0
    ensures Marker(n + 11) == Marker(n) / 2048 && Marker(n + 20) == Marker(n) / 0x10_0000
  {
    hide Marker;
    MarkerAt(n);
    MarkerAt(n + 11);
    MarkerAt(n + 20);
  }

  // ---- the next bits to come out ------------------------------------------------------

  lemma EdgeIsShift(at: Place, l: Line, tdi: bool)
    requires Fits(at, l) && l.tap == ShiftDr
    ensures Edge(at, l, false, tdi) == Shifted(l, [tdi], false)
    ensures [Tdo(l, tdi)] == ShiftedOut(l, [tdi])
  {
    NothingYet(l);
    OneMore(at, l, [], false, tdi);
    assert [] + [tdi] == [tdi];
    assert [] + [Tdo(l, tdi)] == [Tdo(l, tdi)];
  }

  /** While bits of the chain are left, they come out first; the marker queues up behind them. */
  lemma ChainComesFirst(l: Line, left: seq<bool>, n: nat, k: nat)
    requires l.chain == left + Tdi(0, n) && k <= |left|
    ensures ShiftedOut(l, Tdi(n, k)) == left[..k]
    ensures Shifted(l, Tdi(n, k), false).chain == left[k..] + Tdi(0, n + k)
  {
    assert Tdi(0, n) + Tdi(n, k) == Tdi(0, n + k);
    assert l.chain + Tdi(n, k) == left + Tdi(0, n + k);
  }

  /** Once they are gone, what comes out is the marker, delayed. */
  lemma MarkerComesBack(l: Line, a: nat, n: nat, k: nat)
    requires l.chain == Tdi(a, n)
    ensures ShiftedOut(l, Tdi(a + n, k)) == Tdi(a, k)
    ensures Shifted(l, Tdi(a + n, k), false).chain == Tdi(a + k, n)
  {
    assert Tdi(a, n) + Tdi(a + n, k) == Tdi(a, n + k);
  }

  lemma SerializedParts(d: Device)
    requires d.IdCode? && Legal(d)
    ensures var b := Serialized(d);
            && b[..1] == [true] && b[1..][..11] == Bits(d.manuf, 11)
            && b[1..][11..][..20] == Bits(d.rest, 20) && b[1..][11..][20..] == []
    ensures Val(Bits(d.manuf, 11)) == d.manuf && Val(Bits(d.rest, 20)) == d.rest
  {
    hide Bits, Val;
    assert Pow2(11) == 2048 && Pow2(20) == 0x10_0000;
    ValBits(d.manuf, 11);
    ValBits(d.rest, 20);
    assert Serialized(d) == [true] + Bits(d.manuf, 11) + Bits(d.rest, 20);
  }

  // ---- the enumeration ----------------------------------------------------------------

  /** `rest` is still to come, n bits of the marker have gone in, and `code` is what is left of it. */
  ghost predicate Reading(p: Probe, rest: seq<Device>, n: nat, code: nat)
    reads p
  {
    && p.Valid() && p.line.tap == ShiftDr
    && p.line.chain == Stream(rest) + Tdi(0, n)
    && code == Marker(n)
  }

  /** The next bit, which also sends the next bit of the marker. */
  method ReadBit(p: Probe, ghost n: nat, code: nat) returns (bit: bool)
    requires p.Valid() && p.line.tap == ShiftDr && code == Marker(n)
    modifies p
    ensures p.Valid() && p.line == Shifted(old(p.line), Tdi(n, 1), false)
    ensures [bit] == ShiftedOut(old(p.line), Tdi(n, 1))
  {
    hide Shifted, ShiftedOut, Marker, Edge, Tdo;
    MarkerAt(n);
    EdgeIsShift(p.at, p.line, code % 2 == 1);
    assert Tdi(n, 1) == [code % 2 == 1];
    bit := p.ReadWriteBit(false, code % 2 == 1);
  }

  method ReadBits(p: Probe, ghost n: nat, k: nat, code: nat) returns (bits: seq<bool>)
    requires p.Valid() && p.line.tap == ShiftDr && code == Marker(n) && k > 0
    modifies p
    ensures p.Valid() && p.line == Shifted(old(p.line), Tdi(n, k), false)
    ensures bits == ShiftedOut(old(p.line), Tdi(n, k))
  {
    hide Shifted, ShiftedOut, Marker, Bits;
    NothingYet(p.line);
    MarkerBits(n, k);
    bits := p.ReadWriteStream(Bits(code, k), false, false);
  }

  /** The line after a start bit, a manufacturer field and the rest of an IDCODE. */
  function Stage(l: Line, n: nat, k: nat): Line {
    var m := Shifted(l, Tdi(n, 1), false);
    var r := Shifted(m, Tdi(n + 1, 11), false);
    if k == 1 then m else if k == 12 then r else Shifted(r, Tdi(n + 12, 20), false)
  }

  /** What the marker alone reads as. */
  lemma EndReadsAs(l: Line, n: nat)
    requires l.chain == Tdi(0, n)
    ensures ShiftedOut(l, Tdi(n, 1)) == [true]
    ensures Val(ShiftedOut(Stage(l, n, 1), Tdi(n + 1, 11))) == DONE_CODE
  {
    hide Shifted, ShiftedOut, Marker, Bits, Val;
    MarkerComesBack(l, 0, n, 1);
    MarkerComesBack(Shifted(l, Tdi(n, 1), false), 1, n, 11);
    assert Tdi(0, 1) == [true];
    MarkerBits(1, 11);
    MarkerOne();
    ValBits(DONE_CODE, 11);
  }

  lemma BypassReadsAs(l: Line, s: seq<bool>, n: nat)
    requires l.chain == Serialized(Bypass) + s + Tdi(0, n)
    ensures ShiftedOut(l, Tdi(n, 1)) == [false] && Stage(l, n, 1).chain == s + Tdi(0, n + 1)
  {
    hide Shifted, ShiftedOut, Serialized;
    BypassParts();
    ChainComesFirst(l, [false] + s, n, 1);
    assert ([false] + s)[..1] == [false] && ([false] + s)[1..] == s;
  }

  lemma IdCodeReadsAs(l: Line, d: Device, s: seq<bool>, n: nat)
    requires d.IdCode? && Legal(d) && l.chain == Serialized(d) + s + Tdi(0, n)
    ensures ShiftedOut(l, Tdi(n, 1)) == [true]
    ensures Val(ShiftedOut(Stage(l, n, 1), Tdi(n + 1, 11))) == d.manuf
    ensures Val(ShiftedOut(Stage(l, n, 12), Tdi(n + 12, 20))) == d.rest
    ensures Stage(l, n, 32).chain == s + Tdi(0, n + 32)
  {
    hide Shifted, ShiftedOut, Bits, Val, Serialized, Legal;
    var b := Serialized(d);
    SerializedParts(d);
    var b1, b2 := b[1..], b[1..][11..];
    Chunk(l, b, s, n, 1);
    Chunk(Stage(l, n, 1), b1, s, n + 1, 11);
    Chunk(Stage(l, n, 12), b2, s, n + 12, 20);
    assert [] + s == s;
  }

  lemma Chunk(l: Line, b: seq<bool>, s: seq<bool>, n: nat, k: nat)
    requires l.chain == b + s + Tdi(0, n) && k <= |b|
    ensures ShiftedOut(l, Tdi(n, k)) == b[..k]
    ensures Shifted(l, Tdi(n, k), false).chain == b[k..] + s + Tdi(0, n + k)
  {
    hide Shifted, ShiftedOut, Tdi;
    ChainComesFirst(l, b + s, n, k);
    assert (b + s)[..k] == b[..k] && (b + s)[k..] == b[k..] + s;
  }

  /** What comes next, whether devices are left or only the marker. */
  lemma ReadsAs(l: Line, rest: seq<Device>, n: nat)
    requires l.chain == Stream(rest) + Tdi(0, n) && AllLegal(rest)
    ensures var bit := ShiftedOut(l, Tdi(n, 1));
            var manuf := Val(ShiftedOut(Stage(l, n, 1), Tdi(n + 1, 11)));
            if rest == [] then
              bit == [true] && manuf == DONE_CODE
            else if rest[0].Bypass? then
              bit == [false] && Stage(l, n, 1).chain == Stream(rest[1..]) + Tdi(0, n + 1)
            else
              && bit == [true] && manuf == rest[0].manuf
              && Val(ShiftedOut(Stage(l, n, 12), Tdi(n + 12, 20))) == rest[0].rest
              && Stage(l, n, 32).chain == Stream(rest[1..]) + Tdi(0, n + 32)
  {
    hide Shifted, ShiftedOut, Val, Serialized, Stage, Tdi;
    if rest == [] {
      assert [] + Tdi(0, n) == Tdi(0, n);
      EndReadsAs(l, n);
    } else if rest[0].Bypass? {
      BypassReadsAs(l, Stream(rest[1..]), n);
    } else {
      IdCodeReadsAs(l, rest[0], Stream(rest[1..]), n);
    }
  }

  lemma BypassParts()
    ensures Serialized(Bypass) == [false]
  {
  }

  lemma MarkerOne()
    ensures Marker(1) == DONE_CODE && Pow2(11) == 2048
  {
  }

  /** One turn of the loop: the next device, or the end. */
  method ReadDevice(p: Probe, ghost rest: seq<Device>, ghost n: nat, code0: nat)
    returns (done: bool, id: Idcode, code: nat, ghost m: nat)
    requires Reading(p, rest, n, code0) && AllLegal(rest)
    modifies p
    ensures p.Valid() && p.line.tap == ShiftDr && p.line.captured == old(p.line.captured)
    ensures done <==> rest == [] || LooksDone(rest[0])
    ensures !done ==> id == Code(rest[0]) && Reading(p, rest[1..], m, code)
  {
    hide Shifted, ShiftedOut, Marker, Bits, Val, Stream;
    ReadsAs(p.line, rest, n);
    code, m, done, id := code0, n, false, 0xFFFF_FFFF;
    var start := ReadBit(p, m, code);
    assert start == [start][0];
    MarkerStep(m);
    code, m := code / 2, m + 1;
    if start {
      MarkerJump(m);
      MarkerJump(m + 11);
      var manuf := ReadBits(p, m, 11, code);
      code, m := code / 2048, m + 11;
      if Val(manuf) == DONE_CODE {
        done := true;
      } else {
        var other := ReadBits(p, m, 20, code);
        code, m := code / 0x10_0000, m + 20;
        id := Val(other) * 4096 + Val(manuf) * 2 + 1;
      }
    }
  }

  /** The first n devices are recorded, and none of them was the end. */
  ghost predicate Recorded(ds: seq<Device>, n: nat, codes: seq<Idcode>)
    requires AllLegal(ds)
  {
    && n <= MAX_DEVICES && n <= |ds| && codes == Codes(ds[..n])
    && Found(ds, MAX_DEVICES) == ds[..n] + Found(ds[n..], MAX_DEVICES - n)
  }

  lemma NothingRecorded(ds: seq<Device>)
    requires AllLegal(ds)
    ensures Recorded(ds, 0, []) && ds[0..] == ds
  {
    assert ds[0..] == ds;
  }

  lemma OneMoreRecorded(ds: seq<Device>, n: nat, codes: seq<Idcode>)
    requires AllLegal(ds) && Recorded(ds, n, codes)
    requires n < MAX_DEVICES && n < |ds| && !LooksDone(ds[n])
    ensures Recorded(ds, n + 1, codes + [Code(ds[n])]) && ds[n..][0] == ds[n] && ds[n..][1..] == ds[n + 1..]
  {
    var d, k := ds[n], MAX_DEVICES - n;
    assert ds[..n + 1] == ds[..n] + [d];
    assert ds[n..][1..] == ds[n + 1..] && ds[n..][0] == d;
    var found := Found(ds[n + 1..], k - 1);
    assert Found(ds[n..], k) == [d] + found;
    hide Found, Code, Codes, Legal, LooksDone;
    assert ds[..n] + ([d] + found) == ds[..n] + [d] + found;
    CodesOfOneMore(ds[..n], d);
  }

  lemma CodesOfOneMore(ds: seq<Device>, d: Device)
    requires AllLegal(ds) && AllLegal(ds + [d])
    ensures Legal(d) && Codes(ds + [d]) == Codes(ds) + [Code(d)]
  {
    hide Code, Legal;
    assert (ds + [d])[|ds|] == d;
  }

  lemma AllRecorded(ds: seq<Device>, n: nat, codes: seq<Idcode>)
    requires AllLegal(ds) && Recorded(ds, n, codes)
    requires n == MAX_DEVICES || n == |ds| || LooksDone(ds[n])
    ensures codes == Codes(Found(ds, MAX_DEVICES))
  {
    assert ds[..n] + [] == ds[..n];
  }

  /** `jtag_enumerate_chain`, from Run-Test/Idle back to it. */
  method EnumerateChain(p: Probe, ghost ds: seq<Device>) returns (idcodes: array<Idcode>, n: nat)
    requires p.Valid() && p.line.tap == RunTestIdle && AllLegal(ds)
    requires p.at == Place(0, 0) && p.line.captured == Stream(ds)
    modifies p
    ensures p.Valid() && p.line.tap == RunTestIdle
    ensures n <= idcodes.Length && fresh(idcodes)
    ensures idcodes[..n] == Codes(Found(ds, MAX_DEVICES))
  {
    hide Stream, Marker, Recorded, Codes, Found, Edge, Code, Pow2, Legal, LooksDone, Tdi;
    var code, reallocs := INVALID_CODE, 0;
    idcodes := new Idcode[ALLOC_SIZE];
    n := 0;
    p.SetShiftDr();
    ghost var m := 0;
    StartReading(Stream(ds));
    NothingRecorded(ds);
    assert idcodes[..0] == [];
    while n < MAX_DEVICES
      invariant n <= MAX_DEVICES && n <= |ds|
      invariant Reading(p, ds[n..], m, code)
      invariant idcodes.Length == ALLOC_SIZE * Pow2(reallocs) && n <= idcodes.Length && fresh(idcodes)
      invariant Recorded(ds, n, idcodes[..n])
      decreases MAX_DEVICES - n
    {
      ghost var codes := idcodes[..n];
      var done, id;
      done, id, code, m := ReadDevice(p, ds[n..], m, code);
      if done {
        break;
      }
      if n >= ALLOC_SIZE * Pow2(reallocs) {
        DoubleSize(reallocs);
        reallocs := reallocs + 1;
        idcodes := Enlarged(idcodes, ALLOC_SIZE * Pow2(reallocs), n);
      }
      OneMoreRecorded(ds, n, codes);
      idcodes[n] := id;
      assert idcodes[..n + 1] == codes + [id];
      n := n + 1;
    }
    AllRecorded(ds, n, idcodes[..n]);
    BackToIdle(p);
  }

  /** Through Exit1-DR and Update-DR. */
  method BackToIdle(p: Probe)
    requires p.Valid() && p.line.tap == ShiftDr
    modifies p
    ensures p.Valid() && p.line.tap == RunTestIdle
  {
    hide Edge;
    p.WriteBit(true, false);
    p.WriteBit(true, false);
    p.WriteBit(false, false);
  }

  lemma DoubleSize(r: nat)
    ensures ALLOC_SIZE * Pow2(r + 1) == 2 * ALLOC_SIZE * Pow2(r) && Pow2(0) == 1
  {
  }

  lemma StartReading(b: seq<bool>)
    ensures Marker(0) == INVALID_CODE && Zeros(0) + b + Zeros(0) == b + Tdi(0, 0) && Pow2(0) == 1
  {
  }

  /** `realloc`, of which the first n words matter. */
  method Enlarged(a: array<Idcode>, size: nat, ghost n: nat) returns (b: array<Idcode>)
    requires size >= a.Length >= n
    ensures fresh(b) && b.Length == size && b[..n] == a[..n]
  {
    b := new Idcode[size];
    for i := 0 to a.Length
      invariant b[..i] == a[..i]
    {
      b[i] := a[i];
    }
    assert a[..n] == a[..a.Length][..n];
  }
}
