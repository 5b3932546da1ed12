/** The three forms of CRC-32 in the repository: four bits at a time (Ethernet), most significant bit
    first (legacy debug unit) and reflected (advanced debug unit). */
module Crc32 {
  import opened Bitstream

  /** 32 bits, bit 0 first. */
  type Register = w: seq<bool> | |w| == 32 witness Zeros(32)
  type Nibble = n: seq<bool> | |n| == 4 witness Zeros(4)

  function Ones(): Register {
    seq(32, _ => true)
  }

  const POLY: nat := 0x04c11db7
  const REFLECTED_POLY: nat := 0xedb88320
  const MAGIC: nat := 0xc704dd7b

  function Xor(a: bool, b: bool): bool {
    a != b
  }

  // ---- the generator polynomial -------------------------------------------------------

  predicate Tap(i: int) {
    0 <= i <= 2 || i == 4 || i == 5 || i == 7 || i == 8 || 10 <= i <= 12 || i == 16
    || i == 22 || i == 23 || i == 26
  }

  predicate ReflectedTap(i: int) {
    i == 5 || i == 8 || i == 9 || i == 15 || 19 <= i <= 21 || i == 23 || i == 24
    || i == 26 || i == 27 || 29 <= i <= 31
  }

  // ---- one bit at a time --------------------------------------------------------------

  /** `legacy_crc_calc`, of which 32 bits are kept; its mask has only 28 ones. */
  function Serial(c: Register, d: bool): Register {
    seq(32, i requires 0 <= i < 32 => Xor(i > 0 && c[i - 1], Xor(d, c[31]) && i < 28 && Tap(i)))
  }

  function SerialRun(c: Register, bits: seq<bool>): Register
    decreases |bits|
  {
    if bits == [] then c else SerialRun(Serial(c, bits[0]), bits[1..])
  }

  /** One turn of the loop of `adbg_compute_crc`. */
  function Reflected(c: Register, d: bool): Register {
    seq(32, i requires 0 <= i < 32 => Xor(i < 31 && c[i + 1], Xor(d, c[0]) && ReflectedTap(i)))
  }

  function ReflectedRun(c: Register, bits: seq<bool>): Register
    decreases |bits|
  {
    if bits == [] then c else ReflectedRun(Reflected(c, bits[0]), bits[1..])
  }

  /** The wiring of the debug unit's own CRC register. */
  function WiredBit(c: Register, d: bool, i: nat): bool
    requires i < 32
  {
    match i
    case 0 => c[1]
    case 1 => c[2]
    case 2 => c[3]
    case 3 => c[4]
    case 4 => c[5]
    case 5 => Xor(Xor(c[6], d), c[0])
    case 6 => c[7]
    case 7 => c[8]
    case 8 => Xor(Xor(c[9], d), c[0])
    case 9 => Xor(Xor(c[10], d), c[0])
    case 10 => c[11]
    case 11 => c[12]
    case 12 => c[13]
    case 13 => c[14]
    case 14 => c[15]
    case 15 => Xor(Xor(c[16], d), c[0])
    case 16 => c[17]
    case 17 => c[18]
    case 18 => c[19]
    case 19 => Xor(Xor(c[20], d), c[0])
    case 20 => Xor(Xor(c[21], d), c[0])
    case 21 => Xor(Xor(c[22], d), c[0])
    case 22 => c[23]
    case 23 => Xor(Xor(c[24], d), c[0])
    case 24 => Xor(Xor(c[25], d), c[0])
    case 25 => c[26]
    case 26 => Xor(Xor(c[27], d), c[0])
    case 27 => Xor(Xor(c[28], d), c[0])
    case 28 => c[29]
    case 29 => Xor(Xor(c[30], d), c[0])
    case 30 => Xor(Xor(c[31], d), c[0])
    case _ => Xor(d, c[0])
  }

  function Wired(c: Register, d: bool): Register {
    seq(32, i requires 0 <= i < 32 => WiredBit(c, d, i))
  }

  // ---- four bits at a time ------------------------------------------------------------

  /** The part of CrcNext[i] that Enable masks, as a sum of the terms Data[k] ^ Crc[28 + k]. */
  function Feedback(f0: bool, f1: bool, f2: bool, f3: bool, i: nat): bool
    requires i < 32
  {
    match i
    case 0 => f0
    case 1 => Xor(f0, f1)
    case 2 => Xor(Xor(f0, f1), f2)
    case 3 => Xor(Xor(f1, f2), f3)
    case 4 => Xor(Xor(f0, f2), f3)
    case 5 => Xor(Xor(f0, f1), f3)
    case 6 => Xor(f1, f2)
    case 7 => Xor(Xor(f0, f2), f3)
    case 8 => Xor(Xor(f0, f1), f3)
    case 9 => Xor(f1, f2)
    case 10 => Xor(Xor(f0, f2), f3)
    case 11 => Xor(Xor(f0, f1), f3)
    case 12 => Xor(Xor(f0, f1), f2)
    case 13 => Xor(Xor(f1, f2), f3)
    case 14 => Xor(f2, f3)
    case 15 => f3
    case 16 => f0
    case 17 => f1
    case 18 => f2
    case 19 => f3
    case 20 => false
    case 21 => false
    case 22 => f0
    case 23 => Xor(f0, f1)
    case 24 => Xor(f1, f2)
    case 25 => Xor(f2, f3)
    case 26 => Xor(f0, f3)
    case 27 => f1
    case 28 => f2
    case 29 => f3
    case 30 => false
    case _ => false
  }

  /** CrcNext[i] */
  function NextBit(c: Register, d: Nibble, enable: bool, i: nat): bool
    requires i < 32
  {
    Xor(enable && Feedback(Xor(d[0], c[28]), Xor(d[1], c[29]), Xor(d[2], c[30]), Xor(d[3], c[31]), i),
        i >= 4 && c[i - 4])
  }

  function Next(c: Register, d: Nibble, enable: bool): Register {
    seq(32, i requires 0 <= i < 32 => NextBit(c, d, enable, i))
  }

  function NextRun(c: Register, ns: seq<Nibble>): Register
    decreases |ns|
  {
    if ns == [] then c else NextRun(Next(c, ns[0], true), ns[1..])
  }

  predicate CrcError(c: Register) {
    c != Bits(MAGIC, 32)
  }

  // ---- the forms are one ---------------------------------------------------------------

  function BitOf(v: nat, i: nat): bool {
    if i < 4 then (if i == 0 then v else if i == 1 then v / 2 else if i == 2 then v / 4 else v / 8) % 2 == 1
    else BitOf(v / 16, i - 4)
  }

  lemma {:induction false} BitsAt(v: nat, n: nat, i: nat)
    requires i < n
    ensures Bits(v, n)[i] == BitOf(v, i)
    decreases i
  {
    if i < 4 {
      FirstBits(v, n, i);
    } else {
      FirstBits(v, n, 3);
      FourFewer(v, n, i);
      BitsAt(v / 16, n - 4, i - 4);
    }
  }

  lemma FirstBits(v: nat, n: nat, i: nat)
    requires i < n && i < 4
    ensures Bits(v, n)[i] == BitOf(v, i)
  {
    assert Bits(v, n)[1..] == Bits(v / 2, n - 1);
    if i > 0 {
      assert Bits(v / 2, n - 1)[1..] == Bits(v / 2 / 2, n - 2);
      if i > 1 {
        assert Bits(v / 2 / 2, n - 2)[1..] == Bits(v / 2 / 2 / 2, n - 3);
      }
    }
  }

  lemma FourFewer(v: nat, n: nat, i: nat)
    requires 4 <= i < n
    ensures Bits(v, n)[i] == Bits(v / 16, n - 4)[i - 4]
  {
    assert Bits(v, n)[1..] == Bits(v / 2, n - 1);
    assert Bits(v / 2, n - 1)[1..] == Bits(v / 2 / 2, n - 2);
    assert Bits(v / 2 / 2, n - 2)[1..] == Bits(v / 2 / 2 / 2, n - 3);
    assert Bits(v / 2 / 2 / 2, n - 3)[1..] == Bits(v / 16, n - 4);
  }

  /** The taps are the polynomials' bits, and the two are mirror images. */
  lemma TapsArePolynomials(i: nat)
    requires i < 32
    ensures Tap(i) == Bits(POLY, 32)[i] && ReflectedTap(i) == Bits(REFLECTED_POLY, 32)[i]
    ensures ReflectedTap(i) == Tap(31 - i) && (Tap(i) ==> i < 28)
  {
    hide Bits;
    BitsAt(POLY, 32, i);
    BitsAt(REFLECTED_POLY, 32, i);
    PolynomialBits(i);
    ReflectedBits(i);
  }

  /** v without its k low hexadecimal digits. */
  function Drop(v: nat, k: nat): nat {
    if k == 0 then v else Drop(v / 16, k - 1)
  }

  lemma {:induction false} BitOfDigit(v: nat, k: nat, i: nat)
    requires i >= 4 * k
    ensures BitOf(v, i) == BitOf(Drop(v, k), i - 4 * k)
    decreases k
  {
    if k > 0 {
      BitOfDigit(v / 16, k - 1, i - 4);
    }
  }

  lemma PolynomialBits(i: nat)
    requires i < 32
    ensures BitOf(POLY, i) == Tap(i)
  {
    BitOfDigit(POLY, i / 4, i);
    PolynomialBitsDigits();
    hide Drop;
    match i / 4
    case 0 => DigitBits(0x4c11db7, 7, i - 0);
    case 1 => DigitBits(0x4c11db, 11, i - 4);
    case 2 => DigitBits(0x4c11d, 13, i - 8);
    case 3 => DigitBits(0x4c11, 1, i - 12);
    case 4 => DigitBits(0x4c1, 1, i - 16);
    case 5 => DigitBits(0x4c, 12, i - 20);
    case 6 => DigitBits(0x4, 4, i - 24);
    case _ => DigitBits(0x0, 0, i - 28);
  }

  lemma PolynomialBitsDigits()
    ensures Drop(POLY, 0) == 0x4c11db7
    ensures Drop(POLY, 1) == 0x4c11db
    ensures Drop(POLY, 2) == 0x4c11d
    ensures Drop(POLY, 3) == 0x4c11
    ensures Drop(POLY, 4) == 0x4c1
    ensures Drop(POLY, 5) == 0x4c
    ensures Drop(POLY, 6) == 0x4
    ensures Drop(POLY, 7) == 0x0
  {
  }

  lemma ReflectedBits(i: nat)
    requires i < 32
    ensures BitOf(REFLECTED_POLY, i) == ReflectedTap(i)
  {
    BitOfDigit(REFLECTED_POLY, i / 4, i);
    ReflectedBitsDigits();
    hide Drop;
    match i / 4
    case 0 => DigitBits(0xedb88320, 0, i - 0);
    case 1 => DigitBits(0xedb8832, 2, i - 4);
    case 2 => DigitBits(0xedb883, 3, i - 8);
    case 3 => DigitBits(0xedb88, 8, i - 12);
    case 4 => DigitBits(0xedb8, 8, i - 16);
    case 5 => DigitBits(0xedb, 11, i - 20);
    case 6 => DigitBits(0xed, 13, i - 24);
    case _ => DigitBits(0xe, 14, i - 28);
  }

  lemma ReflectedBitsDigits()
    ensures Drop(REFLECTED_POLY, 0) == 0xedb88320
    ensures Drop(REFLECTED_POLY, 1) == 0xedb8832
    ensures Drop(REFLECTED_POLY, 2) == 0xedb883
    ensures Drop(REFLECTED_POLY, 3) == 0xedb88
    ensures Drop(REFLECTED_POLY, 4) == 0xedb8
    ensures Drop(REFLECTED_POLY, 5) == 0xedb
    ensures Drop(REFLECTED_POLY, 6) == 0xed
    ensures Drop(REFLECTED_POLY, 7) == 0xe
  {
  }

  lemma DigitBits(v: nat, digit: nat, i: nat)
    requires i < 4 && v % 16 == digit
    ensures BitOf(v, i) == BitOf(digit, i)
  {
    var q := v / 16;
    if i == 1 {
      SecondBit(v, q, digit);
    } else if i == 2 {
      ThirdBit(v, q, digit);
    } else if i == 3 {
      FourthBit(v, q, digit);
    }
  }

  lemma SecondBit(v: nat, q: nat, digit: nat)
    requires v == 16 * q + digit
    ensures v / 2 % 2 == digit / 2 % 2
  {
    assert v / 2 == 8 * q + digit / 2;
  }

  lemma ThirdBit(v: nat, q: nat, digit: nat)
    requires v == 16 * q + digit
    ensures v / 4 % 2 == digit / 4 % 2
  {
    assert v / 4 == 4 * q + digit / 4;
  }

  lemma FourthBit(v: nat, q: nat, digit: nat)
    requires v == 16 * q + digit
    ensures v / 8 % 2 == digit / 8 % 2
  {
    assert v / 8 == 2 * q + digit / 8;
  }

  /** Four serial steps, each bit as a sum over the taps. */
  function Four(c: Register, d: Nibble): Register {
    Serial(Serial(Serial(Serial(c, d[3]), d[2]), d[1]), d[0])
  }

  predicate T(i: int) {
    i < 28 && Tap(i)
  }

  lemma FourAt(c: Register, d: Nibble, i: nat)
    requires i < 32
    ensures Four(c, d)[i] ==
            Xor(i >= 4 && c[i - 4],
                Xor(Xor(Xor(d[3], c[31]) && T(i - 3), Xor(d[2], c[30]) && T(i - 2)),
                    Xor(Xor(d[1], c[29]) && T(i - 1), Xor(d[0], c[28]) && T(i))))
  {
    hide Serial, T;
    NoHighTap();
    var c1 := Serial(c, d[3]);
    var c2 := Serial(c1, d[2]);
    var c3 := Serial(c2, d[1]);
    SerialAt(c, d[3], 31);
    SerialAt(c, d[3], 30);
    SerialAt(c, d[3], 29);
    SerialAt(c1, d[2], 31);
    SerialAt(c1, d[2], 30);
    SerialAt(c2, d[1], 31);
    SerialAt(c3, d[0], i);
    if i >= 1 {
      SerialAt(c2, d[1], i - 1);
    }
    if i >= 2 {
      SerialAt(c1, d[2], i - 2);
    }
    if i >= 3 {
      SerialAt(c, d[3], i - 3);
    }
  }

  lemma SerialAt(c: Register, d: bool, i: nat)
    requires i < 32
    ensures Serial(c, d)[i] == Xor(i > 0 && c[i - 1], Xor(d, c[31]) && T(i))
  {
  }

  lemma NoHighTap()
    ensures forall i :: i < 0 || i > 26 ==> !T(i)
  {
  }

  /** The wiring adds up the taps that four steps meet. */
  lemma FeedbackIsTaps(f0: bool, f1: bool, f2: bool, f3: bool, i: nat)
    requires i < 32
    ensures Feedback(f0, f1, f2, f3, i)
            == Xor(Xor(f3 && T(i - 3), f2 && T(i - 2)), Xor(f1 && T(i - 1), f0 && T(i)))
  {
  }

  /** One enabled step of the Ethernet form is four steps of the legacy form on Data[3..0]; a
      disabled one only shifts. */
  lemma NextIsFourSerial(c: Register, d: Nibble)
    ensures Next(c, d, true) == Four(c, d)
    ensures Next(c, d, false) == Zeros(4) + c[..28]
  {
    hide Four, Feedback;
    forall i | 0 <= i < 32
      ensures Next(c, d, true)[i] == Four(c, d)[i] && Next(c, d, false)[i] == (Zeros(4) + c[..28])[i]
    {
      FourAt(c, d, i);
      FeedbackIsTaps(Xor(d[0], c[28]), Xor(d[1], c[29]), Xor(d[2], c[30]), Xor(d[3], c[31]), i);
    }
  }

  // ---- whole messages ------------------------------------------------------------------

  /** The bits of the nibbles in the order they count, bit 3 of each first. */
  function MsbFirst(ns: seq<Nibble>): (b: seq<bool>)
    ensures |b| == 4 * |ns|
  {
    if ns == [] then [] else [ns[0][3], ns[0][2], ns[0][1], ns[0][0]] + MsbFirst(ns[1..])
  }

  lemma {:induction false} NextRunIsSerialRun(c: Register, ns: seq<Nibble>)
    ensures NextRun(c, ns) == SerialRun(c, MsbFirst(ns))
    decreases |ns|
  {
    hide Serial, Next, Four;
    if ns != [] {
      var d, rest := ns[0], MsbFirst(ns[1..]);
      NextIsFourSerial(c, d);
      NextRunIsSerialRun(Next(c, d, true), ns[1..]);
      FourBits(c, d, rest);
    }
  }

  lemma FourBits(c: Register, d: Nibble, rest: seq<bool>)
    ensures SerialRun(c, [d[3], d[2], d[1], d[0]] + rest) == SerialRun(Four(c, d), rest)
  {
    hide Serial, SerialRun;
    assert [d[3], d[2], d[1], d[0]] + rest == [d[3]] + ([d[2]] + ([d[1]] + ([d[0]] + rest)));
    FirstBit(c, d[3], [d[2]] + ([d[1]] + ([d[0]] + rest)));
    FirstBit(Serial(c, d[3]), d[2], [d[1]] + ([d[0]] + rest));
    FirstBit(Serial(Serial(c, d[3]), d[2]), d[1], [d[0]] + rest);
    FirstBit(Serial(Serial(Serial(c, d[3]), d[2]), d[1]), d[0], rest);
  }

  lemma FirstBit(c: Register, bit: bool, rest: seq<bool>)
    ensures SerialRun(c, [bit] + rest) == SerialRun(Serial(c, bit), rest)
  {
    hide Serial;
    assert ([bit] + rest)[1..] == rest;
  }

  /** The bits of a word from the other end. */
  function Mirror(c: Register): Register {
    seq(32, i requires 0 <= i < 32 => c[31 - i])
  }

  lemma ReflectedIsMirrored(c: Register, d: bool)
    ensures Reflected(Mirror(c), d) == Mirror(Serial(c, d))
  {
    hide Serial, T, ReflectedTap, Reflected;
    forall i | 0 <= i < 32
      ensures Reflected(Mirror(c), d)[i] == Mirror(Serial(c, d))[i]
    {
      ReflectedAt(Mirror(c), d, i);
      SerialAt(c, d, 31 - i);
      TapsAreMirrored(i);
    }
  }

  lemma TapsAreMirrored(i: nat)
    requires i < 32
    ensures ReflectedTap(i) == T(31 - i)
  {
  }

  lemma ReflectedAt(c: Register, d: bool, i: nat)
    requires i < 32
    ensures Reflected(c, d)[i] == Xor(i < 31 && c[i + 1], Xor(d, c[0]) && ReflectedTap(i))
  {
  }

  /** For every bit sequence, the reflected form is the mirror image of the legacy form. */
  lemma {:induction false} ReflectedRunIsMirrored(c: Register, bits: seq<bool>)
    ensures ReflectedRun(Mirror(c), bits) == Mirror(SerialRun(c, bits))
    decreases |bits|
  {
    hide Serial, Reflected, Mirror;
    if bits != [] {
      ReflectedIsMirrored(c, bits[0]);
      ReflectedRunIsMirrored(Serial(c, bits[0]), bits[1..]);
    }
  }

  /** The debug unit's register is wired to take the same step. */
  lemma WiredIsReflected(c: Register, d: bool)
    ensures Wired(c, d) == Reflected(c, d)
  {
    hide Reflected, WiredBit, ReflectedTap;
    forall i | 0 <= i < 32
      ensures WiredBit(c, d, i) == Reflected(c, d)[i]
    {
      ReflectedAt(c, d, i);
      WireIsTap(c, d, i);
    }
  }

  lemma WireIsTap(c: Register, d: bool, i: nat)
    requires i < 32
    ensures WiredBit(c, d, i) == Xor(i < 31 && c[i + 1], Xor(d, c[0]) && ReflectedTap(i))
  {
  }

  // ---- the residue ---------------------------------------------------------------------

  function XorWord(a: Register, b: Register): Register {
    seq(32, i requires 0 <= i < 32 => Xor(a[i], b[i]))
  }

  /** Up to 32 bits as a word, the first at the top. */
  function Top(bits: seq<bool>): Register
    requires |bits| <= 32
  {
    seq(32, i requires 0 <= i < 32 => 31 - i < |bits| && bits[31 - i])
  }

  function Shifts(c: Register, n: nat): Register
    decreases n
  {
    if n == 0 then c else Shifts(Serial(c, false), n - 1)
  }

  lemma InputJoinsState(c: Register, bits: seq<bool>)
    requires 0 < |bits| <= 32
    ensures Serial(XorWord(c, Top(bits)), false) == XorWord(Serial(c, bits[0]), Top(bits[1..]))
  {
    hide Tap;
    var x := XorWord(c, Top(bits));
    forall i | 0 <= i < 32
      ensures Serial(x, false)[i] == XorWord(Serial(c, bits[0]), Top(bits[1..]))[i]
    {
      SerialAt(x, false, i);
      SerialAt(c, bits[0], i);
    }
  }

  /** Up to 32 input bits act as if they had been added to the state beforehand. */
  lemma {:induction false} RunIsShifts(c: Register, bits: seq<bool>)
    requires |bits| <= 32
    ensures SerialRun(c, bits) == Shifts(XorWord(c, Top(bits)), |bits|)
    decreases |bits|
  {
    if bits == [] {
      assert XorWord(c, Top(bits)) == c;
    } else {
      hide Serial, XorWord, Top;
      InputJoinsState(c, bits);
      RunIsShifts(Serial(c, bits[0]), bits[1..]);
    }
  }

  lemma ShiftIsInjective(a: Register, b: Register)
    requires Serial(a, false) == Serial(b, false)
    ensures a == b
  {
    SerialAt(a, false, 0);
    SerialAt(b, false, 0);
    assert a[31] == b[31];
    forall i | 0 <= i < 31
      ensures a[i] == b[i]
    {
      SerialAt(a, false, i + 1);
      SerialAt(b, false, i + 1);
    }
  }

  lemma {:induction false} ShiftsAreInjective(a: Register, b: Register, n: nat)
    requires Shifts(a, n) == Shifts(b, n)
    ensures a == b
    decreases n
  {
    hide Serial;
    if n > 0 {
      ShiftsAreInjective(Serial(a, false), Serial(b, false), n - 1);
      ShiftIsInjective(a, b);
    }
  }

  /** A hexadecimal digit by its bits. */
  datatype Digit = Digit(b3: bool, b2: bool, b1: bool, b0: bool) {
    function Bit(m: nat): bool {
      if m == 0 then b0 else if m == 1 then b1 else if m == 2 then b2 else b3
    }
  }

  const H0 := Digit(false, false, false, false)
  const H1 := Digit(false, false, false, true)
  const H2 := Digit(false, false, true, false)
  const H3 := Digit(false, false, true, true)
  const H4 := Digit(false, true, false, false)
  const H5 := Digit(false, true, false, true)
  const H6 := Digit(false, true, true, false)
  const H7 := Digit(false, true, true, true)
  const H8 := Digit(true, false, false, false)
  const H9 := Digit(true, false, false, true)
  const HB := Digit(true, false, true, true)
  const HC := Digit(true, true, false, false)
  const HD := Digit(true, true, false, true)
  const HE := Digit(true, true, true, false)
  const HF := Digit(true, true, true, true)

  /** The word with these eight digits, most significant first. */
  function Hex(ds: seq<Digit>): Register
    requires |ds| == 8
  {
    seq(32, i requires 0 <= i < 32 => ds[7 - i / 4].Bit(i % 4))
  }

  const ZERO: Nibble := [false, false, false, false]

  /** The feedback of a top digit into digit j, counted from the right. */
  function Row(f0: bool, f1: bool, f2: bool, f3: bool, j: nat): Digit
    requires j < 8
  {
    match j
    case 0 => Digit(Xor(Xor(f1, f2), f3), Xor(Xor(f0, f1), f2), Xor(f0, f1), f0)
    case 1 => Digit(Xor(Xor(f0, f2), f3), Xor(f1, f2), Xor(Xor(f0, f1), f3), Xor(Xor(f0, f2), f3))
    case 2 => Digit(Xor(Xor(f0, f1), f3), Xor(Xor(f0, f2), f3), Xor(f1, f2), Xor(Xor(f0, f1), f3))
    case 3 => Digit(f3, Xor(f2, f3), Xor(Xor(f1, f2), f3), Xor(Xor(f0, f1), f2))
    case 4 => Digit(f3, f2, f1, f0)
    case 5 => Digit(Xor(f0, f1), f0, false, false)
    case 6 => Digit(f1, Xor(f0, f3), Xor(f2, f3), Xor(f1, f2))
    case _ => Digit(false, false, f3, f2)
  }

  lemma RowIsFeedback(f0: bool, f1: bool, f2: bool, f3: bool, j: nat, m: nat)
    requires j < 8 && m < 4
    ensures Row(f0, f1, f2, f3, j).Bit(m) == Feedback(f0, f1, f2, f3, 4 * j + m)
  {
    hide *;
    if j < 4 {
      LowRow(f0, f1, f2, f3, j, m);
    } else {
      HighRow(f0, f1, f2, f3, j, m);
    }
  }

  lemma LowRow(f0: bool, f1: bool, f2: bool, f3: bool, j: nat, m: nat)
    requires j < 4 && m < 4
    ensures Row(f0, f1, f2, f3, j).Bit(m) == Feedback(f0, f1, f2, f3, 4 * j + m)
  {
    hide Xor;
  }

  lemma HighRow(f0: bool, f1: bool, f2: bool, f3: bool, j: nat, m: nat)
    requires 4 <= j < 8 && m < 4
    ensures Row(f0, f1, f2, f3, j).Bit(m) == Feedback(f0, f1, f2, f3, 4 * j + m)
  {
    hide Xor;
  }

  /** Digit j of the next state, `below` being the digit to the right of digit j. */
  function NextDigit(top: Digit, below: Digit, j: nat): Digit
    requires j < 8
  {
    var r := Row(top.b0, top.b1, top.b2, top.b3, j);
    Digit(Xor(r.b3, below.b3), Xor(r.b2, below.b2), Xor(r.b1, below.b1), Xor(r.b0, below.b0))
  }

  lemma NextDigitBit(top: Digit, below: Digit, j: nat, m: nat)
    requires j < 8 && m < 4
    ensures NextDigit(top, below, j).Bit(m)
            == Xor(Feedback(top.b0, top.b1, top.b2, top.b3, 4 * j + m), below.Bit(m))
  {
    hide Row, Feedback;
    RowIsFeedback(top.b0, top.b1, top.b2, top.b3, j, m);
  }

  function NextDigits(a: Digit, b: Digit, c: Digit, d: Digit, e: Digit, f: Digit, g: Digit, h: Digit): (ds: seq<Digit>)
    ensures |ds| == 8
  {
    [NextDigit(a, b, 7), NextDigit(a, c, 6), NextDigit(a, d, 5), NextDigit(a, e, 4),
     NextDigit(a, f, 3), NextDigit(a, g, 2), NextDigit(a, h, 1), NextDigit(a, H0, 0)]
  }

  lemma NextDigitAt(ds: seq<Digit>, j: nat)
    requires |ds| == 8 && j < 8
    ensures NextDigits(ds[0], ds[1], ds[2], ds[3], ds[4], ds[5], ds[6], ds[7])[7 - j]
            == NextDigit(ds[0], if j == 0 then H0 else ds[8 - j], j)
  {
    hide NextDigit;
  }

  /** Digit by digit, the next state of the register under a zero nibble. */
  lemma DigitsFollow(ds: seq<Digit>)
    requires |ds| == 8
    ensures Next(Hex(ds), ZERO, true)
            == Hex(NextDigits(ds[0], ds[1], ds[2], ds[3], ds[4], ds[5], ds[6], ds[7]))
  {
    hide Hex, NextBit, NextDigits;
    var es := NextDigits(ds[0], ds[1], ds[2], ds[3], ds[4], ds[5], ds[6], ds[7]);
    var x := Hex(ds);
    forall i | 0 <= i < 32
      ensures Next(x, ZERO, true)[i] == Hex(es)[i]
    {
      DigitFollows(ds, i / 4, i % 4);
    }
  }

  lemma DigitFollows(ds: seq<Digit>, j: nat, m: nat)
    requires |ds| == 8 && j < 8 && m < 4
    ensures NextBit(Hex(ds), ZERO, true, 4 * j + m)
            == Hex(NextDigits(ds[0], ds[1], ds[2], ds[3], ds[4], ds[5], ds[6], ds[7]))[4 * j + m]
  {
    hide Feedback, NextDigit, NextDigits, Hex;
    NextDigitAt(ds, j);
    NextDigitBit(ds[0], if j == 0 then H0 else ds[8 - j], j, m);
    HexBit(ds, 7, 0);
    HexBit(ds, 7, 1);
    HexBit(ds, 7, 2);
    HexBit(ds, 7, 3);
    HexBit(NextDigits(ds[0], ds[1], ds[2], ds[3], ds[4], ds[5], ds[6], ds[7]), j, m);
    if j > 0 {
      HexBit(ds, j - 1, m);
    }
  }

  lemma HexBit(ds: seq<Digit>, j: nat, m: nat)
    requires |ds| == 8 && j < 8 && m < 4
    ensures Hex(ds)[4 * j + m] == ds[7 - j].Bit(m)
  {
  }

  lemma Step1()
    ensures Next(Hex([HF, HF, HF, HF, HF, HF, HF, HF]), ZERO, true) == Hex([HC, H7, HB, H0, H4, H2, H4, HD])
  {
    hide Next, Hex;
    DigitsFollow([HF, HF, HF, HF, HF, HF, HF, HF]);
    assert NextDigits(HF, HF, HF, HF, HF, HF, HF, HF)
        == [HC, H7, HB, H0, H4, H2, H4, HD];
  }

  lemma Step2()
    ensures Next(Hex([HC, H7, HB, H0, H4, H2, H4, HD]), ZERO, true) == Hex([H4, HE, H0, H8, HB, HF, HB, H4])
  {
    hide Next, Hex;
    DigitsFollow([HC, H7, HB, H0, H4, H2, H4, HD]);
    assert NextDigits(HC, H7, HB, H0, H4, H2, H4, HD)
        == [H4, HE, H0, H8, HB, HF, HB, H4];
  }

  lemma Step3()
    ensures Next(Hex([H4, HE, H0, H8, HB, HF, HB, H4]), ZERO, true) == Hex([HF, H3, H8, HF, H8, HD, H9, HC])
  {
    hide Next, Hex;
    DigitsFollow([H4, HE, H0, H8, HB, HF, HB, H4]);
    assert NextDigits(H4, HE, H0, H8, HB, HF, HB, H4)
        == [HF, H3, H8, HF, H8, HD, H9, HC];
  }

  lemma Step4()
    ensures Next(Hex([HF, H3, H8, HF, H8, HD, H9, HC]), ZERO, true) == Hex([H0, H0, HB, H7, H6, H4, H7, HD])
  {
    hide Next, Hex;
    DigitsFollow([HF, H3, H8, HF, H8, HD, H9, HC]);
    assert NextDigits(HF, H3, H8, HF, H8, HD, H9, HC)
        == [H0, H0, HB, H7, H6, H4, H7, HD];
  }

  lemma Step5()
    ensures Next(Hex([H0, H0, HB, H7, H6, H4, H7, HD]), ZERO, true) == Hex([H0, HB, H7, H6, H4, H7, HD, H0])
  {
    hide Next, Hex;
    DigitsFollow([H0, H0, HB, H7, H6, H4, H7, HD]);
    assert NextDigits(H0, H0, HB, H7, H6, H4, H7, HD)
        == [H0, HB, H7, H6, H4, H7, HD, H0];
  }

  lemma Step6()
    ensures Next(Hex([H0, HB, H7, H6, H4, H7, HD, H0]), ZERO, true) == Hex([HB, H7, H6, H4, H7, HD, H0, H0])
  {
    hide Next, Hex;
    DigitsFollow([H0, HB, H7, H6, H4, H7, HD, H0]);
    assert NextDigits(H0, HB, H7, H6, H4, H7, HD, H0)
        == [HB, H7, H6, H4, H7, HD, H0, H0];
  }

  lemma Step7()
    ensures Next(Hex([HB, H7, H6, H4, H7, HD, H0, H0]), ZERO, true) == Hex([H5, HD, H0, HC, H1, HB, H6, H1])
  {
    hide Next, Hex;
    DigitsFollow([HB, H7, H6, H4, H7, HD, H0, H0]);
    assert NextDigits(HB, H7, H6, H4, H7, HD, H0, H0)
        == [H5, HD, H0, HC, H1, HB, H6, H1];
  }

  lemma Step8()
    ensures Next(Hex([H5, HD, H0, HC, H1, HB, H6, H1]), ZERO, true) == Hex([HC, H7, H0, H4, HD, HD, H7, HB])
  {
    hide Next, Hex;
    DigitsFollow([H5, HD, H0, HC, H1, HB, H6, H1]);
    assert NextDigits(H5, HD, H0, HC, H1, HB, H6, H1)
        == [HC, H7, H0, H4, HD, HD, H7, HB];
  }

  lemma MagicDigits()
    ensures Hex([HC, H7, H0, H4, HD, HD, H7, HB]) == Bits(MAGIC, 32) && Hex([HF, HF, HF, HF, HF, HF, HF, HF]) == Ones()
  {
    hide Bits;
    forall i | 0 <= i < 32
      ensures Hex([HC, H7, H0, H4, HD, HD, H7, HB])[i] == Bits(MAGIC, 32)[i]
    {
      BitsAt(MAGIC, 32, i);
      MagicBits(i);
    }
  }

  lemma MagicBits(i: nat)
    requires i < 32
    ensures BitOf(MAGIC, i) == Hex([HC, H7, H0, H4, HD, HD, H7, HB])[i]
  {
    BitOfDigit(MAGIC, i / 4, i);
    MagicBitsDigits();
    hide Drop;
    match i / 4
    case 0 => DigitBits(0xc704dd7b, 11, i - 0);
    case 1 => DigitBits(0xc704dd7, 7, i - 4);
    case 2 => DigitBits(0xc704dd, 13, i - 8);
    case 3 => DigitBits(0xc704d, 13, i - 12);
    case 4 => DigitBits(0xc704, 4, i - 16);
    case 5 => DigitBits(0xc70, 0, i - 20);
    case 6 => DigitBits(0xc7, 7, i - 24);
    case _ => DigitBits(0xc, 12, i - 28);
  }

  lemma MagicBitsDigits()
    ensures Drop(MAGIC, 0) == 0xc704dd7b
    ensures Drop(MAGIC, 1) == 0xc704dd7
    ensures Drop(MAGIC, 2) == 0xc704dd
    ensures Drop(MAGIC, 3) == 0xc704d
    ensures Drop(MAGIC, 4) == 0xc704
    ensures Drop(MAGIC, 5) == 0xc70
    ensures Drop(MAGIC, 6) == 0xc7
    ensures Drop(MAGIC, 7) == 0xc
  {
  }

  function ZeroNibbles(n: nat): (z: seq<Nibble>)
    ensures |z| == n
  {
    seq(n, _ => ZERO)
  }

  /** Eight zero nibbles take the all-ones state to the magic number. */
  lemma OnesLeadToMagic()
    ensures NextRun(Ones(), ZeroNibbles(8)) == Bits(MAGIC, 32)
  {
    hide Next, Hex, Bits;
    MagicDigits();
    Step1();
    Step2();
    Step3();
    Step4();
    Step5();
    Step6();
    Step7();
    Step8();
    ZeroRun(Ones(), 7);
    ZeroRun(Hex([HC, H7, HB, H0, H4, H2, H4, HD]), 6);
    ZeroRun(Hex([H4, HE, H0, H8, HB, HF, HB, H4]), 5);
    ZeroRun(Hex([HF, H3, H8, HF, H8, HD, H9, HC]), 4);
    ZeroRun(Hex([H0, H0, HB, H7, H6, H4, H7, HD]), 3);
    ZeroRun(Hex([H0, HB, H7, H6, H4, H7, HD, H0]), 2);
    ZeroRun(Hex([HB, H7, H6, H4, H7, HD, H0, H0]), 1);
    ZeroRun(Hex([H5, HD, H0, HC, H1, HB, H6, H1]), 0);
    NoMore(Hex([HC, H7, H0, H4, HD, HD, H7, HB]));
  }

  lemma ZeroRun(c: Register, n: nat)
    ensures NextRun(c, ZeroNibbles(n + 1)) == NextRun(Next(c, ZERO, true), ZeroNibbles(n))
  {
    hide Next;
    assert ZeroNibbles(n + 1)[1..] == ZeroNibbles(n);
  }

  lemma NoMore(c: Register)
    ensures NextRun(c, ZeroNibbles(0)) == c
  {
  }

  lemma {:induction false} ZeroBits(n: nat)
    ensures MsbFirst(ZeroNibbles(n)) == Zeros(4 * n)
  {
    if n > 0 {
      ZeroBits(n - 1);
      assert ZeroNibbles(n)[1..] == ZeroNibbles(n - 1);
    }
  }

  /** The complement of a state, top bit first. */
  predicate Complements(c: Register, bits: seq<bool>)
    requires |bits| == 32
  {
    forall j :: 0 <= j < 32 ==> bits[j] == !c[31 - j]
  }

  /** From any state, 32 further bits lead to the magic number exactly if they are the complement of
      the state, top bit first. */
  lemma ResidueIff(c: Register, bits: seq<bool>)
    requires |bits| == 32
    ensures SerialRun(c, bits) == Bits(MAGIC, 32) <==> Complements(c, bits)
  {
    hide Bits, Serial, SerialRun, Shifts, NextRun, XorWord, Top, Ones;
    OnesLeadToMagic();
    NextRunIsSerialRun(Ones(), ZeroNibbles(8));
    ZeroBits(8);
    RunIsShifts(Ones(), Zeros(32));
    RunIsShifts(c, bits);
    AddZeros(Ones());
    if SerialRun(c, bits) == Bits(MAGIC, 32) {
      ShiftsAreInjective(XorWord(c, Top(bits)), Ones(), 32);
    }
    Complement(c, bits);
  }

  lemma AddZeros(c: Register)
    ensures XorWord(c, Top(Zeros(32))) == c
  {
  }

  lemma Complement(c: Register, bits: seq<bool>)
    requires |bits| == 32
    ensures XorWord(c, Top(bits)) == Ones() <==> Complements(c, bits)
  {
    var x := XorWord(c, Top(bits));
    if x == Ones() {
      forall j | 0 <= j < 32
        ensures bits[j] == !c[31 - j]
      {
        assert x[31 - j];
      }
    }
    if Complements(c, bits) {
      forall i | 0 <= i < 32
        ensures x[i]
      {
        assert bits[31 - i] == !c[31 - (31 - i)];
      }
      assert x == Ones();
    }
  }

  /** The frame check sequence of a state: the complemented CRC, top nibble first. */
  function Fcs(c: Register): (q: seq<Nibble>)
    ensures |q| == 8
  {
    seq(8, k requires 0 <= k < 8 =>
      [!c[28 - 4 * k], !c[29 - 4 * k], !c[30 - 4 * k], !c[31 - 4 * k]])
  }

  /** After any message, eight further nibbles clear CrcError if and only if they are its frame check
      sequence. */
  lemma FcsAcceptedIff(message: seq<Nibble>, q: seq<Nibble>)
    requires |q| == 8
    ensures !CrcError(NextRun(Ones(), message + q)) <==> q == Fcs(NextRun(Ones(), message))
  {
    hide Bits, Next, NextRun, SerialRun, Ones, Complements, Fcs;
    NextRunAppends(Ones(), message, q);
    var c := NextRun(Ones(), message);
    NextRunIsSerialRun(c, q);
    ResidueIff(c, MsbFirst(q));
    if q == Fcs(c) {
      FcsIsComplement(c, q);
    }
    if Complements(c, MsbFirst(q)) {
      ComplementIsFcs(c, q);
    }
  }

  lemma {:induction false} NextRunAppends(c: Register, a: seq<Nibble>, b: seq<Nibble>)
    ensures NextRun(c, a + b) == NextRun(NextRun(c, a), b)
    decreases |a|
  {
    hide Next;
    if a == [] {
      assert a + b == b;
    } else {
      assert (a + b)[1..] == a[1..] + b;
      NextRunAppends(Next(c, a[0], true), a[1..], b);
    }
  }

  lemma {:induction false} MsbFirstAt(ns: seq<Nibble>, j: nat)
    requires j < 4 * |ns|
    ensures MsbFirst(ns)[j] == ns[j / 4][3 - j % 4]
    decreases |ns|
  {
    if j >= 4 {
      MsbFirstAt(ns[1..], j - 4);
    }
  }

  lemma FcsIsComplement(c: Register, q: seq<Nibble>)
    requires q == Fcs(c)
    ensures Complements(c, MsbFirst(q))
  {
    hide Fcs;
    forall j | 0 <= j < 32
      ensures MsbFirst(q)[j] == !c[31 - j]
    {
      MsbFirstAt(q, j);
      FcsAt(c, j / 4);
      assert j == 4 * (j / 4) + j % 4;
    }
  }

  lemma ComplementIsFcs(c: Register, q: seq<Nibble>)
    requires |q| == 8 && Complements(c, MsbFirst(q))
    ensures q == Fcs(c)
  {
    hide Fcs;
    forall k | 0 <= k < 8
      ensures q[k] == Fcs(c)[k]
    {
      MsbFirstAt(q, 4 * k);
      MsbFirstAt(q, 4 * k + 1);
      MsbFirstAt(q, 4 * k + 2);
      MsbFirstAt(q, 4 * k + 3);
      FcsAt(c, k);
    }
  }

  lemma FcsAt(c: Register, k: nat)
    requires k < 8
    ensures Fcs(c)[k] == [!c[28 - 4 * k], !c[29 - 4 * k], !c[30 - 4 * k], !c[31 - 4 * k]]
  {
  }

  // ---- data by the word and by the byte ---------------------------------------------------

  lemma LowByteBit(v: nat, i: nat)
    requires i < 8
    ensures BitOf(v, i) == BitOf(v % 256, i)
  {
    hide BitOf;
    LowByte(v, v / 256, v % 256);
    if i < 4 {
      DigitBits(v, v % 16, i);
      DigitBits(v % 256, v % 16, i);
    } else {
      SkipDigit(v, i);
      SkipDigit(v % 256, i);
      DigitBits(v / 16, v / 16 % 16, i - 4);
      DigitBits(v % 256 / 16, v / 16 % 16, i - 4);
    }
  }

  lemma LowByte(v: nat, q: nat, r: nat)
    requires v == 256 * q + r
    ensures v % 16 == r % 16 && v / 16 % 16 == r / 16 % 16
  {
    assert v / 16 == 16 * q + r / 16;
  }

  lemma SkipDigit(v: nat, i: nat)
    requires i >= 4
    ensures BitOf(v, i) == BitOf(v / 16, i - 4)
  {
  }

  lemma ByteFirst(v: nat, n: nat)
    ensures Bits(v, 8 + n) == Bits(v % 256, 8) + Bits(v / 256, n)
  {
    hide Bits, BitOf;
    var b := Bits(v % 256, 8) + Bits(v / 256, n);
    forall i | 0 <= i < 8 + n
      ensures Bits(v, 8 + n)[i] == b[i]
    {
      BitsAt(v, 8 + n, i);
      if i < 8 {
        BitsAt(v % 256, 8, i);
        LowByteBit(v, i);
      } else {
        BitsAt(v / 256, n, i - 8);
        SkipDigit(v, i);
        SkipDigit(v / 16, i - 4);
        assert v / 16 / 16 == v / 256;
      }
    }
  }

  lemma {:induction false} ReflectedAppends(c: Register, a: seq<bool>, b: seq<bool>)
    ensures ReflectedRun(c, a + b) == ReflectedRun(ReflectedRun(c, a), b)
    decreases |a|
  {
    hide Reflected;
    if a == [] {
      assert a + b == b;
    } else {
      assert (a + b)[1..] == a[1..] + b;
      ReflectedAppends(Reflected(c, a[0]), a[1..], b);
    }
  }

  function ByWords(c: Register, ws: seq<nat>): Register
    decreases |ws|
  {
    if ws == [] then c else ByWords(ReflectedRun(c, Bits(ws[0], 32)), ws[1..])
  }

  function ByBytes(c: Register, bs: seq<nat>): Register
    decreases |bs|
  {
    if bs == [] then c else ByBytes(ReflectedRun(c, Bits(bs[0], 8)), bs[1..])
  }

  function LittleEndian(ws: seq<nat>): seq<nat> {
    if ws == [] then [] else
      [ws[0] % 256, ws[0] / 256 % 256, ws[0] / 256 / 256 % 256, ws[0] / 256 / 256 / 256 % 256]
      + LittleEndian(ws[1..])
  }

  lemma WordAsBytes(c: Register, w: nat, rest: seq<nat>)
    ensures var b0, b1, b2, b3 := w % 256, w / 256 % 256, w / 256 / 256 % 256, w / 256 / 256 / 256 % 256;
            ByBytes(c, [b0, b1, b2, b3] + rest) == ByBytes(ReflectedRun(c, Bits(w, 32)), rest)
  {
    hide Bits, ReflectedRun, ByBytes;
    var b0, b1, b2, b3 := w % 256, w / 256 % 256, w / 256 / 256 % 256, w / 256 / 256 / 256 % 256;
    ByteFirst(w, 24);
    ByteFirst(w / 256, 16);
    ByteFirst(w / 256 / 256, 8);
    ByteFirst(w / 256 / 256 / 256, 0);
    assert Bits(b3, 8) + Bits(w / 256 / 256 / 256 / 256, 0) == Bits(b3, 8);
    ReflectedAppends(c, Bits(b0, 8), Bits(w / 256, 24));
    var c1 := ReflectedRun(c, Bits(b0, 8));
    ReflectedAppends(c1, Bits(b1, 8), Bits(w / 256 / 256, 16));
    var c2 := ReflectedRun(c1, Bits(b1, 8));
    ReflectedAppends(c2, Bits(b2, 8), Bits(w / 256 / 256 / 256, 8));
    var c3 := ReflectedRun(c2, Bits(b2, 8));
    assert [b0, b1, b2, b3] + rest == [b0] + ([b1] + ([b2] + ([b3] + rest)));
    OneByte(c, b0, [b1] + ([b2] + ([b3] + rest)));
    OneByte(c1, b1, [b2] + ([b3] + rest));
    OneByte(c2, b2, [b3] + rest);
    OneByte(c3, b3, rest);
  }

  lemma OneByte(c: Register, b: nat, rest: seq<nat>)
    ensures ByBytes(c, [b] + rest) == ByBytes(ReflectedRun(c, Bits(b, 8)), rest)
  {
    hide ReflectedRun, Bits;
    assert ([b] + rest)[1..] == rest;
  }

  /** For every sequence of words, taking them whole equals taking their bytes, lowest first. */
  lemma {:induction false} WordsAreBytes(c: Register, ws: seq<nat>)
    ensures ByWords(c, ws) == ByBytes(c, LittleEndian(ws))
    decreases |ws|
  {
    hide Bits, ReflectedRun, ByBytes;
    if ws == [] {
      NoBytes(c);
    } else {
      WordAsBytes(c, ws[0], LittleEndian(ws[1..]));
      WordsAreBytes(ReflectedRun(c, Bits(ws[0], 32)), ws[1..]);
    }
  }

  lemma NoBytes(c: Register)
    ensures ByBytes(c, []) == c
  {
  }

  // ---- the programs and the register --------------------------------------------------------

  /** `adbg_compute_crc` */
  method ComputeCrc(crc: Register, data: nat, length: nat) returns (out: Register)
    requires length <= 32
    ensures out == ReflectedRun(crc, Bits(data, length))
  {
    hide Reflected;
    out := crc;
    var rest := data;
    for i := 0 to length
      invariant ReflectedRun(out, Bits(rest, length - i)) == ReflectedRun(crc, Bits(data, length))
    {
      assert Bits(rest, length - i)[1..] == Bits(rest / 2, length - i - 1);
      out := Reflected(out, rest % 2 == 1);
      rest := rest / 2;
    }
  }

  function Backwards(b: seq<bool>): (r: seq<bool>)
    ensures |r| == |b|
  {
    if b == [] then [] else Backwards(b[1..]) + [b[0]]
  }

  /** `legacy_write_stream`, without the shifting itself: the bit-reversed word that goes out low bit
      first, and the CRC, which is therefore taken over the bits in the order they are sent. */
  method ReverseAndSum(stream: nat, len: nat, crc: Register) returns (outdata: nat, sum: Register)
    requires 0 < len <= 32
    ensures Bits(outdata, len) == Backwards(Bits(stream, len))
    ensures sum == SerialRun(crc, Bits(outdata, len))
  {
    hide Serial, Bits, SerialRun, Backwards, BitOf;
    ghost var b := Bits(stream, len);
    NothingSent(b, crc);
    outdata := 0;
    var left := stream;
    ghost var x := 0;
    for i := 0 to len
      invariant outdata == if i < len then 2 * x else x
      invariant Bits(x, i) == Backwards(b[..i])
      invariant i < len ==> Bits(left, len - i) == b[i..]
    {
      var bit := left % 2;
      SplitBits(left, len - i);
      assert b[i..][0] == b[i] && b[i..][1..] == b[i + 1..] && b[..i + 1][..i] == b[..i];
      outdata := outdata + bit;
      JoinBits(x, i, bit);
      OneMoreBackwards(b[..i + 1]);
      x := outdata;
      if i < len - 1 {
        outdata := outdata * 2;
        left := left / 2;
      }
    }
    assert b[..len] == b && b[len..] == [];
    sum := crc;
    for i := len downto 0
      invariant sum == SerialRun(crc, Backwards(b[i..]))
    {
      BitsAt(stream, len, i);
      assert b[i..][0] == b[i] && b[i..][1..] == b[i + 1..];
      SplitBackwards(b[i..]);
      SerialAppends(crc, Backwards(b[i + 1..]), b[i]);
      sum := Serial(sum, BitOf(stream, i));
    }
    assert b[0..] == b;
  }

  lemma NothingSent(b: seq<bool>, crc: Register)
    ensures Backwards(b[..0]) == [] == Bits(0, 0) && Backwards(b[|b|..]) == [] && b[0..] == b
    ensures SerialRun(crc, []) == crc
  {
  }

  lemma SplitBits(v: nat, n: nat)
    requires n > 0
    ensures Bits(v, n)[0] == (v % 2 == 1) && Bits(v, n)[1..] == Bits(v / 2, n - 1)
  {
  }

  lemma JoinBits(x: nat, n: nat, bit: nat)
    requires bit < 2
    ensures Bits(2 * x + bit, n + 1) == [bit == 1] + Bits(x, n)
  {
    assert (2 * x + bit) / 2 == x && (2 * x + bit) % 2 == bit;
  }

  lemma {:induction false} OneMoreBackwards(b: seq<bool>)
    requires b != []
    ensures Backwards(b) == [b[|b| - 1]] + Backwards(b[..|b| - 1])
  {
    var n := |b| - 1;
    if n == 0 {
      assert b[..n] == [] && Backwards(b[1..]) == [];
    } else {
      var c, d := b[1..], b[..n];
      OneMoreBackwards(c);
      assert c[n - 1] == b[n] && c[..n - 1] == d[1..] && d[0] == b[0];
      assert Backwards(c) == [b[n]] + Backwards(d[1..]);
      assert Backwards(d) == Backwards(d[1..]) + [b[0]];
    }
  }

  lemma SplitBackwards(b: seq<bool>)
    requires b != []
    ensures Backwards(b) == Backwards(b[1..]) + [b[0]]
  {
  }

  lemma {:induction false} SerialAppends(c: Register, b: seq<bool>, bit: bool)
    ensures SerialRun(c, b + [bit]) == Serial(SerialRun(c, b), bit)
    decreases |b|
  {
    hide Serial;
    if b == [] {
      assert [] + [bit] == [bit];
    } else {
      assert (b + [bit])[1..] == b[1..] + [bit];
      SerialAppends(Serial(c, b[0]), b[1..], bit);
    }
  }

  /** `eth_crc`: the register and its clock. */
  class EthCrc {
    var crc: Register

    method Clock(reset: bool, initialize: bool, enable: bool, data: Nibble)
      modifies this
      ensures crc == if reset || initialize then Ones() else Next(old(crc), data, enable)
    {
      hide Next;
      if reset || initialize {
        crc := Ones();
      } else {
        crc := Next(crc, data, enable);
      }
    }
  }
}
