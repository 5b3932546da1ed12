/** The advanced debug interface: the commands shifted into the debug unit, and the host's cache of
    what they selected, which lets it skip transactions. */
module AdvDebug {
  import opened Bitstream
  import opened JtagChain

  const DATA_LEN: nat := 53
  const MAX_MODULES: nat := 4
  const CPU0: nat := 1
  const JSP: nat := 3
  const ERROR_LEN: nat := 33

  const IREG_WR: nat := 0x9
  const IREG_SEL: nat := 0xd

  // ---- the hardware ------------------------------------------------------------------

  /** What the debug unit has selected: a module, and in each module an internal register. */
  datatype Selection = Selection(unit: nat, reg: seq<nat>)

  predicate Legal(s: Selection) {
    s.unit < MAX_MODULES && |s.reg| == MAX_MODULES && forall m :: 0 <= m < MAX_MODULES ==> s.reg[m] < 2
  }

  /** What the unit makes of its data register at Update-DR: the top bit tells a module selection
      from a command to the selected module, whose opcode and register index are below it. */
  function Decoded(s: Selection, r: seq<bool>): (t: Selection)
    requires Legal(s) && |r| == DATA_LEN
    ensures Legal(t)
  {
    assert Val(r[50..52]) < Pow2(2) == 4;
    if r[52] then s.(unit := Val(r[50..52]))
    else if (Val(r[48..52]) == IREG_WR || Val(r[48..52]) == IREG_SEL) && s.unit != JSP then
      s.(reg := s.reg[s.unit := if r[47] then 1 else 0])
    else s
  }

  function BurstOpcode(r: seq<bool>): nat
    requires |r| == DATA_LEN
  {
    Val(r[48..52])
  }

  function BurstAddress(r: seq<bool>): nat
    requires |r| == DATA_LEN
  {
    Val(r[16..48])
  }

  function BurstCount(r: seq<bool>): nat
    requires |r| == DATA_LEN
  {
    Val(r[..16])
  }

  // ---- the commands ------------------------------------------------------------------

  /** Bitwise or. */
  function Or(a: seq<bool>, b: seq<bool>): (c: seq<bool>)
    requires |a| == |b|
    ensures |c| == |a|
  {
    seq(|a|, i requires 0 <= i < |a| => a[i] || b[i])
  }

  function ModuleCommand(chain: nat): seq<bool> {
    Bits(chain + 4, 3)
  }

  /** The six bits sent for a register: the opcode, shifted left over one index bit, or'ed with the
      whole index. */
  function RegisterCommand(opcode: nat, index: nat): (b: seq<bool>)
    ensures |b| == 6
  {
    Or(Bits(2 * opcode, 6), Bits(index, 6))
  }

  function BurstCommand(opcode: nat, address: nat, length: nat): (b: seq<bool>)
    ensures |b| == DATA_LEN
  {
    Or(Bits(length, 32), Zeros(16) + Bits(address, 32)[..16])
    + Bits(address, 32)[16..] + Bits(opcode, 4) + [false]
  }

  lemma ModuleCommandSelects(s: Selection, r: seq<bool>, chain: nat)
    requires Legal(s) && |r| == DATA_LEN && chain < MAX_MODULES
    requires r[50..] == ModuleCommand(chain)
    ensures Decoded(s, r) == s.(unit := chain)
  {
    hide Val;
    var b := Bits(chain, 2);
    assert b == [chain % 2 == 1, chain / 2 % 2 == 1] && chain / 2 < 2 by {
      assert Bits(chain, 2) == [chain % 2 == 1] + Bits(chain / 2, 1);
    }
    assert Bits(chain + 4, 3) == b + [true] by {
      ThreeBits(chain + 4);
    }
    assert r[52] == r[50..][2];
    assert r[50..52] == r[50..][..2] == b;
    assert Pow2(2) == 4;
    ValBits(chain, 2);
  }

  lemma ModuleCommandBits(chain: nat)
    requires chain < MAX_MODULES
    ensures |ModuleCommand(chain)| == 3 && ModuleCommand(chain)[2]
  {
    ThreeBits(chain + 4);
  }

  lemma ThreeBits(v: nat)
    ensures Bits(v, 3) == [v % 2 == 1, v / 2 % 2 == 1, v / 2 / 2 % 2 == 1]
  {
    assert Bits(v / 2, 2) == [v / 2 % 2 == 1] + Bits(v / 2 / 2, 1);
  }

  /** An index of one bit leaves the opcode intact. */
  lemma RegisterCommandSelects(s: Selection, r: seq<bool>, opcode: nat, index: nat)
    requires Legal(s) && |r| == DATA_LEN && s.unit != JSP && index < 2
    requires opcode == IREG_WR || opcode == IREG_SEL
    requires r[47..] == RegisterCommand(opcode, index)
    ensures Decoded(s, r) == s.(reg := s.reg[s.unit := index])
  {
    hide Val, Bits;
    SixBits(opcode, index);
    var c := r[47..];
    assert c[1..5] == Bits(opcode, 4) && !c[5];
    assert r[47] == c[0] && r[52] == c[5];
    assert r[48..52] == c[1..5];
    assert Pow2(4) == 16;
    ValBits(opcode, 4);
  }

  lemma SixBits(opcode: nat, index: nat)
    requires (opcode == IREG_WR || opcode == IREG_SEL) && index < 2
    ensures RegisterCommand(opcode, index) == [index == 1] + Bits(opcode, 4) + [false]
  {
    ShiftedOpcode(opcode);
    IndexBits(index);
    OrOf(Bits(2 * opcode, 6), Bits(index, 6), index == 1, Bits(opcode, 4) + [false]);
  }

  lemma ShiftedOpcode(opcode: nat)
    requires opcode == IREG_WR || opcode == IREG_SEL
    ensures Bits(2 * opcode, 6) == [false] + (Bits(opcode, 4) + [false])
  {
    assert Bits(2 * opcode, 6) == [2 * opcode % 2 == 1] + Bits(2 * opcode / 2, 5);
    FiveBits(opcode);
  }

  lemma IndexBits(index: nat)
    requires index < 2
    ensures Bits(index, 6) == [index == 1] + Zeros(5)
  {
    assert Bits(index, 6) == [index % 2 == 1] + Bits(index / 2, 5);
    BitsOfZero(5);
  }

  lemma OrOf(a: seq<bool>, b: seq<bool>, bit: bool, rest: seq<bool>)
    requires |rest| == 5 && a == [false] + rest && b == [bit] + Zeros(5)
    ensures Or(a, b) == [bit] + rest
  {
  }

  lemma FiveBits(opcode: nat)
    requires opcode == IREG_WR || opcode == IREG_SEL
    ensures Bits(opcode, 5) == Bits(opcode, 4) + [false]
  {
    hide Bits;
    FiveLow(opcode);
  }

  lemma FirstBit(v: nat, n: nat)
    requires n > 0
    ensures Bits(v, n) == [v % 2 == 1] + Bits(v / 2, n - 1)
  {
  }

  lemma FourMore(v: nat, n: nat)
    requires n >= 4
    ensures Bits(v, n) == [v % 2 == 1, v / 2 % 2 == 1, v / 2 / 2 % 2 == 1, v / 2 / 2 / 2 % 2 == 1]
                          + Bits(v / 2 / 2 / 2 / 2, n - 4)
  {
    hide Bits;
    FirstBit(v, n);
    FirstBit(v / 2, n - 1);
    FirstBit(v / 2 / 2, n - 2);
    FirstBit(v / 2 / 2 / 2, n - 3);
  }

  lemma BitsOne(v: nat)
    ensures Bits(v, 1) == [v % 2 == 1]
  {
  }

  /** What the six bits carry for any index at all: its low bit selects the register, the four above
      are or'ed into the opcode, the next turns the command into a module selection, and the rest is
      not sent. */
  lemma RegisterCommandCarries(r: seq<bool>, opcode: nat, index: nat)
    requires |r| == DATA_LEN && (opcode == IREG_WR || opcode == IREG_SEL)
    requires r[47..] == RegisterCommand(opcode, index)
    ensures r[47] == (index % 2 == 1) && r[52] == (index / 32 % 2 == 1)
    ensures r[48..52] == Or(Bits(opcode, 4), Bits(index / 2, 4))
  {
    hide Bits;
    var c := r[47..];
    ShiftedOpcode(opcode);
    FirstBit(index, 6);
    FiveLow(index / 2);
    assert index / 2 / 16 == index / 32;
    assert r[47] == c[0] && r[52] == c[5] && r[48..52] == c[1..5];
    assert forall i :: 0 <= i < 4 ==> c[1..5][i] == c[i + 1];
  }

  lemma FiveLow(v: nat)
    ensures Bits(v, 5) == Bits(v, 4) + [v / 16 % 2 == 1]
  {
    hide Bits;
    FourMore(v, 5);
    FourMore(v, 4);
    NoBits(v / 2 / 2 / 2 / 2);
    BitsOne(v / 2 / 2 / 2 / 2);
    assert v / 2 / 2 / 2 / 2 == v / 16;
  }

  lemma NoBits(v: nat)
    ensures Bits(v, 0) == []
  {
  }

  /** No bit of the index falls on a zero of the opcode, or on the top bit: so for 0 to 3 always. */
  predicate OpcodeSurvives(opcode: nat, index: nat) {
    index / 4 % 2 == 0 && (opcode == IREG_SEL || index / 8 % 2 == 0) && index / 32 % 2 == 0
  }

  /** The opcode arrives intact for exactly these indices. */
  lemma OpcodeSurvivesIff(r: seq<bool>, opcode: nat, index: nat)
    requires |r| == DATA_LEN && (opcode == IREG_WR || opcode == IREG_SEL)
    requires r[47..] == RegisterCommand(opcode, index)
    ensures !r[52] && Val(r[48..52]) == opcode <==> OpcodeSurvives(opcode, index)
  {
    hide Bits, Val;
    RegisterCommandCarries(r, opcode, index);
    var a, b := Bits(opcode, 4), Bits(index / 2, 4);
    assert Pow2(4) == 16;
    ValBits(opcode, 4);
    BitsVal(Or(a, b));
    assert Val(Or(a, b)) == opcode <==> Or(a, b) == a;
    OpcodeBits(opcode);
    IndexDigits(index);
    OrKeeps(a, b);
  }

  lemma OpcodeBits(opcode: nat)
    requires opcode == IREG_WR || opcode == IREG_SEL
    ensures Bits(opcode, 4) == [true, false, opcode == IREG_SEL, true]
  {
    FourMore(opcode, 4);
  }

  lemma IndexDigits(index: nat)
    ensures var b := Bits(index / 2, 4);
            |b| == 4 && b[1] == (index / 4 % 2 == 1) && b[2] == (index / 8 % 2 == 1)
  {
    hide Bits;
    FourMore(index / 2, 4);
    assert index / 2 / 2 == index / 4 && index / 2 / 2 / 2 == index / 8;
  }

  lemma OrKeeps(a: seq<bool>, b: seq<bool>)
    requires |b| == 4 && |a| == 4 && a[0] && !a[1] && a[3]
    ensures Or(a, b) == a <==> !b[1] && (a[2] || !b[2])
  {
    if !b[1] && (a[2] || !b[2]) {
      assert forall i :: 0 <= i < 4 ==> Or(a, b)[i] == a[i];
    } else {
      assert Or(a, b)[1] != a[1] || Or(a, b)[2] != a[2];
    }
  }

  /** Hence what the hardware does: where the opcode survives, it selects the register of the index's
      low bit, and otherwise, unless the command has become a module selection, another operation. */
  lemma RegisterCommandDecodes(s: Selection, r: seq<bool>, opcode: nat, index: nat)
    requires Legal(s) && |r| == DATA_LEN && s.unit != JSP && (opcode == IREG_WR || opcode == IREG_SEL)
    requires r[47..] == RegisterCommand(opcode, index)
    ensures OpcodeSurvives(opcode, index) ==> Decoded(s, r) == s.(reg := s.reg[s.unit := index % 2])
    ensures index / 32 % 2 == 1 ==> Decoded(s, r) == s.(unit := Val(r[50..52]))
    ensures !OpcodeSurvives(opcode, index) && index / 32 % 2 == 0 ==> Val(r[48..52]) != opcode
  {
    hide Val;
    RegisterCommandCarries(r, opcode, index);
    OpcodeSurvivesIff(r, opcode, index);
  }

  /** A NOP, or any burst, changes no selection. */
  lemma OtherCommandsKeep(s: Selection, r: seq<bool>, opcode: nat)
    requires Legal(s) && |r| == DATA_LEN
    requires r[48..] == Bits(opcode, 4) + [false] && opcode < 16
    requires opcode != IREG_WR && opcode != IREG_SEL
    ensures Decoded(s, r) == s
  {
    hide Val, Bits;
    assert r[52] == r[48..][4];
    assert r[48..52] == r[48..][..4] == Bits(opcode, 4);
    assert Pow2(4) == 16;
    ValBits(opcode, 4);
  }

  /** What the hardware reads of a burst command for any length: the count is its low half, and the
      other bits of a C int are or'ed into the address. */
  lemma BurstCarries(opcode: nat, address: nat, length: nat)
    requires address < 0x1_0000_0000
    ensures var r := BurstCommand(opcode, address, length);
            && BurstCount(r) == length % 0x1_0000
            && r[16..48] == Or(Bits(address, 32), Bits(length / 0x1_0000 % 0x1_0000, 32))
  {
    hide Val, Bits, Pow2;
    var r, h := BurstCommand(opcode, address, length), length / 0x1_0000;
    PowersUsed();
    LowBits(length, 16, 16);
    ValMod(length, 16);
    assert r[..16] == Bits(length, 32)[..16];
    HighBits(length, 16, 16);
    ValMod(h, 16);
    BitsVal(Bits(h, 16));
    LowBits(h % 0x1_0000, 16, 16);
    HighBitsClear(h % 0x1_0000, 16, 16);
    AddressPart(r, Bits(length, 32), Bits(address, 32), Bits(h % 0x1_0000, 32));
  }

  lemma AddressPart(r: seq<bool>, n: seq<bool>, a: seq<bool>, h: seq<bool>)
    requires |r| == DATA_LEN && |n| == |a| == |h| == 32
    requires r[..32] == Or(n, Zeros(16) + a[..16]) && r[32..48] == a[16..]
    requires h[..16] == n[16..] && h[16..] == Zeros(16)
    ensures r[16..48] == Or(a, h)
  {
    forall i | 0 <= i < 32
      ensures r[16 + i] == (a[i] || h[i])
    {
      if i < 16 {
        assert r[16 + i] == r[..32][16 + i] && h[i] == h[..16][i] && n[16 + i] == n[16..][i];
      } else {
        assert r[16 + i] == r[32..48][i - 16] && h[i] == h[16..][i - 16];
      }
    }
  }

  /** The burst command decodes back to what was asked, if and only if the length fits its field. */
  lemma BurstDecodesIff(opcode: nat, address: nat, length: nat)
    requires opcode < 16 && address < 0x1_0000_0000
    ensures var r := BurstCommand(opcode, address, length);
            && !r[52] && BurstOpcode(r) == opcode
            && (BurstCount(r) == length && BurstAddress(r) == address <==> length < 0x1_0000)
  {
    hide Val, Bits, Pow2;
    var r, a := BurstCommand(opcode, address, length), Bits(address, 32);
    assert r[48..52] == Bits(opcode, 4);
    PowersUsed();
    ValBits(opcode, 4);
    ValBits(address, 32);
    BurstCarries(opcode, address, length);
    if length < 0x1_0000 {
      BitsOfZero(32);
      assert Or(a, Zeros(32)) == a;
    }
  }

  lemma PowersUsed()
    ensures Pow2(4) == 16 && Pow2(16) == 0x1_0000 && Pow2(32) == 0x1_0000_0000
  {
    assert Pow2(8) == 256;
    assert Pow2(16) == 256 * Pow2(8);
    assert Pow2(24) == 256 * Pow2(16);
    assert Pow2(32) == 256 * Pow2(24);
  }

  lemma {:induction false} LowBits(v: nat, m: nat, n: nat)
    ensures Bits(v, m + n)[..m] == Bits(v, m)
  {
    if m > 0 {
      LowBits(v / 2, m - 1, n);
      assert Bits(v, m + n)[..m] == [v % 2 == 1] + Bits(v / 2, m - 1 + n)[..m - 1];
    }
  }

  lemma {:induction false} HighBits(v: nat, m: nat, n: nat)
    ensures Bits(v, m + n)[m..] == Bits(v / Pow2(m), n)
  {
    if m > 0 {
      HighBits(v / 2, m - 1, n);
      HalfThenRest(v, Pow2(m - 1));
      assert Bits(v, m + n)[m..] == Bits(v / 2, m - 1 + n)[m - 1..];
    }
  }

  lemma {:induction false} ValMod(v: nat, n: nat)
    ensures Val(Bits(v, n)) == v % Pow2(n)
  {
    if n > 0 {
      ValMod(v / 2, n - 1);
      HalfThenRest(v, Pow2(n - 1));
      assert Bits(v, n)[1..] == Bits(v / 2, n - 1);
    }
  }

  lemma HalfThenRest(v: nat, p: nat)
    requires p > 0
    ensures v / 2 / p == v / (2 * p) && v % (2 * p) == v % 2 + 2 * (v / 2 % p)
  {
    var q, r := v / 2 / p, v % 2 + 2 * (v / 2 % p);
    assert v / 2 == p * q + v / 2 % p;
    assert v == (2 * p) * q + r && r < 2 * p;
    Quotient(v, 2 * p, q, r);
  }

  lemma Quotient(v: nat, m: nat, q: nat, r: nat)
    requires m > 0 && v == m * q + r && r < m
    ensures v / m == q && v % m == r
  {
    var d: int := v / m - q;
    assert v == m * (v / m) + v % m;
    assert m * d == r - v % m;
    assert d >= 1 ==> m * d >= m;
    assert d <= -1 ==> m * -d >= m;
  }

  lemma HighBitsClear(v: nat, m: nat, n: nat)
    requires v < Pow2(m)
    ensures Bits(v, m + n)[m..] == Zeros(n)
  {
    hide Bits, Pow2;
    HighBits(v, m, n);
    BitsOfZero(n);
  }

  // ---- host and hardware together -----------------------------------------------------

  /** The host's cache (-1 where it knows nothing), whether the TAP's instruction selects the debug
      unit, and what the unit has selected. */
  datatype System = System(chain: int, desired: int, index: seq<int>, enabled: bool, unit: Selection)

  predicate WellFormed(s: System) {
    && -1 <= s.desired < MAX_MODULES && (s.chain == -1 || s.chain == s.desired)
    && |s.index| == MAX_MODULES && Legal(s.unit)
  }

  /** Whatever the cache claims is so. */
  predicate Coherent(s: System) {
    && WellFormed(s)
    && (s.chain == -1 || s.chain == s.unit.unit)
    && forall m :: 0 <= m < MAX_MODULES ==> s.index[m] == -1 || s.index[m] == s.unit.reg[m]
  }

  datatype Op =
    | SelectModule(chain: nat)
    | SelectRegister(index: nat)
    | CtrlWrite(index: nat)
    | CtrlRead(index: nat)
    | Burst
    | SetIr(debug: bool)
    | Reset(unit: Selection)

  /** What the callers keep to: modules and registers that exist, a module chosen first, and the
      instruction register on the debug unit for everything that talks to it. */
  predicate Allowed(s: System, op: Op) {
    match op
    case SelectModule(c) => c < MAX_MODULES && s.enabled
    case SelectRegister(i) => i < 2 && s.enabled && s.desired >= 0
    case CtrlWrite(i) => i < 2 && s.enabled && s.desired >= 0
    case CtrlRead(i) => i < 2 && s.enabled && s.desired >= 0
    case Burst => s.enabled && s.desired >= 0
    case SetIr(_) => true
    case Reset(u) => Legal(u)
  }

  /** A CPU module's control register. */
  datatype Status = Status(stall: bool, reset: bool)

  /** The modules' internal registers, one each: the bus error register with its error bit and
      address, the two control registers, and what the serial port offers. */
  datatype Contents = Contents(error: seq<bool>, cpu0: Status, cpu1: Status, serial: seq<bool>)

  type Registers = c: Contents | |c.error| == ERROR_LEN && |c.serial| == DATA_LEN
    witness Contents(Zeros(ERROR_LEN), Status(false, false), Status(false, false), Zeros(DATA_LEN))

  /** What a module shifts out, zeros behind it; its register is read for either index. */
  function Content(c: Registers, m: nat): (r: seq<bool>)
    requires m < MAX_MODULES
    ensures |r| == DATA_LEN
  {
    match m
    case 0 => c.error + Zeros(DATA_LEN - ERROR_LEN)
    case 1 => [c.cpu0.stall, c.cpu0.reset] + Zeros(DATA_LEN - 2)
    case 2 => [c.cpu1.stall, c.cpu1.reset] + Zeros(DATA_LEN - 2)
    case _ => c.serial
  }

  /** What the debug unit offers at Capture-DR: the register of the module selected. */
  function Presented(s: Selection, c: Registers): (r: seq<bool>)
    requires Legal(s)
    ensures |r| == DATA_LEN
  {
    Content(c, s.unit)
  }

  /** What the modules make of a data register at Update-DR: a write to index 0 clears the error bit
      if bit 46 is set, or loads a control register from bits 45 and 46. */
  function Written(s: Selection, c: Registers, r: seq<bool>): Registers
    requires Legal(s) && |r| == DATA_LEN
  {
    if r[52] || Val(r[48..52]) != IREG_WR || r[47] then c
    else match s.unit
      case 0 => if r[46] then c.(error := c.error[0 := false]) else c
      case 1 => c.(cpu0 := Status(r[45], r[46]))
      case 2 => c.(cpu1 := Status(r[45], r[46]))
      case _ => c
  }

  /** What a register write is for: a one clears the bus error, and two bits set stall and reset of a
      CPU. Of longer data the last bits count, and index 1 stands for no register. */
  function Loaded(c: Registers, m: nat, index: nat, data: seq<bool>): Registers
    requires m < JSP && |data| >= (if m == 0 then 1 else 2)
  {
    var n := |data|;
    if index != 0 then c
    else match m
      case 0 => if data[n - 1] then c.(error := [false] + c.error[1..]) else c
      case 1 => c.(cpu0 := Status(data[n - 2], data[n - 1]))
      case _ => c.(cpu1 := Status(data[n - 2], data[n - 1]))
  }

  /** A transaction that reaches the unit only if the instruction register selects it. */
  function Received(s: System, r: seq<bool>): System
    requires Legal(s.unit) && |r| == DATA_LEN
  {
    if s.enabled then s.(unit := Decoded(s.unit, r)) else s
  }

  /** The data register after a command whose bits end up at its top. */
  predicate Carries(r: seq<bool>, command: seq<bool>) {
    |r| == DATA_LEN >= |command| && r[DATA_LEN - |command|..] == command
  }

  /** The end of what was shifted in fills the data register from its top. */
  predicate Ends(r: seq<bool>, bits: seq<bool>) {
    |r| == DATA_LEN && if |bits| <= DATA_LEN then Carries(r, bits) else r == bits[|bits| - DATA_LEN..]
  }

  /** Some data register that carries the command: its other bits do not matter. */
  function Register(command: seq<bool>): (r: seq<bool>)
    requires |command| <= DATA_LEN
    ensures Carries(r, command)
  {
    Zeros(DATA_LEN - |command|) + command
  }

  function ModuleSelected(s: System, c: nat): System
    requires WellFormed(s) && c < MAX_MODULES
  {
    if s.chain == c then s else
      Received(s.(chain := c, desired := c), Register(ModuleCommand(c)))
  }

  function RegisterSelected(s: System, i: nat): System
    requires WellFormed(s) && s.desired >= 0
  {
    var t := ModuleSelected(s, s.desired);
    if t.index[t.chain] == i || t.chain == JSP then t else
      Received(t.(index := t.index[t.chain := i]), Register(RegisterCommand(IREG_SEL, i)))
  }

  function RegisterWritten(s: System, i: nat): System
    requires WellFormed(s) && s.desired >= 0
  {
    var t := ModuleSelected(s, s.desired);
    if t.chain == JSP then t else
      Received(t.(index := t.index[t.chain := i]), Register(RegisterCommand(IREG_WR, i)))
  }

  /** The effect of one operation on cache and hardware. */
  function Done(s: System, op: Op): System
    requires WellFormed(s) && Allowed(s, op)
  {
    match op
    case SelectModule(c) => ModuleSelected(s, c)
    case SelectRegister(i) => RegisterSelected(s, i)
    case CtrlWrite(i) => RegisterWritten(s, i)
    case CtrlRead(i) => RegisterSelected(s, i)
    case Burst => ModuleSelected(s, s.desired)
    case SetIr(debug) => s.(chain := -1, enabled := debug)
    case Reset(u) => System(-1, s.desired, [-1, -1, -1, -1], false, u)
  }

  /** A module selection leaves the requested module selected, whether or not it was skipped. */
  lemma SelectModuleWorks(s: System, c: nat)
    requires Coherent(s) && c < MAX_MODULES && s.enabled
    ensures var t := ModuleSelected(s, c);
            && Coherent(t) && t.chain == t.unit.unit == c && t.unit.reg == s.unit.reg && t.index == s.index
            && t.desired == c && t.enabled
  {
    hide Decoded;
    if s.chain != c {
      var r := Register(ModuleCommand(c));
      ModuleCommandSelects(s.unit, r, c);
    }
  }

  /** Likewise for registers: in the wanted module, the wanted register is selected. */
  lemma SelectRegisterWorks(s: System, i: nat)
    requires Coherent(s) && s.enabled && s.desired >= 0 && i < 2
    ensures var t, u := RegisterSelected(s, i), RegisterWritten(s, i);
            && Coherent(t) && t.enabled && t.chain == t.unit.unit == s.desired == t.desired
            && Coherent(u) && u.enabled && u.chain == u.unit.unit == s.desired == u.desired
            && (s.desired != JSP ==> t.unit.reg[s.desired] == i && u.unit.reg[s.desired] == i)
  {
    hide Decoded, ModuleSelected;
    SelectModuleWorks(s, s.desired);
    var t := ModuleSelected(s, s.desired);
    KeepsDesired(s);
    if t.chain != JSP {
      RegisterCommandSelects(t.unit, Register(RegisterCommand(IREG_SEL, i)), IREG_SEL, i);
      RegisterCommandSelects(t.unit, Register(RegisterCommand(IREG_WR, i)), IREG_WR, i);
    }
  }

  lemma KeepsDesired(s: System)
    requires WellFormed(s) && s.desired >= 0
    ensures ModuleSelected(s, s.desired).desired == s.desired
    ensures ModuleSelected(s, s.desired).enabled == s.enabled
    ensures ModuleSelected(s, s.desired).chain == s.desired
  {
    hide Decoded;
  }

  /** A transaction the cache skips would have changed nothing. */
  lemma SkippedWasRedundant(s: System, i: nat)
    requires Coherent(s) && s.chain >= 0 && i < 2
    ensures Received(s, Register(ModuleCommand(s.chain))) == s
    ensures s.chain != JSP && s.index[s.chain] == i ==>
              Received(s, Register(RegisterCommand(IREG_SEL, i))) == s
  {
    hide Decoded;
    ModuleCommandSelects(s.unit, Register(ModuleCommand(s.chain)), s.chain);
    if s.chain != JSP && s.index[s.chain] == i {
      RegisterCommandSelects(s.unit, Register(RegisterCommand(IREG_SEL, i)), IREG_SEL, i);
      assert s.unit.reg[s.unit.unit := i] == s.unit.reg;
    }
  }

  /** An allowed operation keeps the cache coherent. */
  lemma StepCoherent(s: System, op: Op)
    requires Coherent(s) && Allowed(s, op)
    ensures Coherent(Done(s, op))
  {
    hide Decoded, ModuleSelected, RegisterSelected, RegisterWritten;
    match op
    case SelectModule(c) => SelectModuleWorks(s, c);
    case SelectRegister(i) => SelectRegisterWorks(s, i);
    case CtrlWrite(i) => SelectRegisterWorks(s, i);
    case CtrlRead(i) => SelectRegisterWorks(s, i);
    case Burst => SelectModuleWorks(s, s.desired);
    case SetIr(_) =>
    case Reset(_) =>
  }

  /** The states a run of allowed operations can reach. */
  ghost predicate Reaches(s: System, ops: seq<Op>, t: System)
    decreases |ops|
  {
    if ops == [] then t == s else
      WellFormed(s) && Allowed(s, ops[0]) && Reaches(Done(s, ops[0]), ops[1..], t)
  }

  /** Over every run of allowed operations the cache stays coherent. */
  lemma {:induction false} CacheIsCoherent(s: System, ops: seq<Op>, t: System)
    requires Coherent(s) && Reaches(s, ops, t)
    ensures Coherent(t)
    decreases |ops|
  {
    hide Done, Coherent;
    if ops != [] {
      StepCoherent(s, ops[0]);
      CacheIsCoherent(Done(s, ops[0]), ops[1..], t);
    }
  }

  /** Whatever came before, an operation leaves the hardware with what it needs selected: the module,
      and for a register operation the register. */
  lemma RunSelects(s: System, ops: seq<Op>, t: System, op: Op)
    requires Coherent(s) && Reaches(s, ops, t) && WellFormed(t) && Allowed(t, op)
    ensures var u := Done(t, op);
            match op
            case SelectModule(c) => u.desired == u.unit.unit == c && u.unit.reg == t.unit.reg
            case SelectRegister(i) => RegisterReady(t, u, i)
            case CtrlWrite(i) => RegisterReady(t, u, i)
            case CtrlRead(i) => RegisterReady(t, u, i)
            case Burst => u.desired == u.unit.unit == t.desired && u.unit.reg == t.unit.reg
            case SetIr(debug) => u.unit == t.unit && u.enabled == debug && u.chain == -1
            case Reset(after) => u.unit == after && !u.enabled && u.chain == -1
  {
    hide Decoded, ModuleSelected, RegisterSelected, RegisterWritten;
    CacheIsCoherent(s, ops, t);
    match op
    case SelectModule(c) => SelectModuleWorks(t, c);
    case SelectRegister(i) => SelectRegisterWorks(t, i);
    case CtrlWrite(i) => SelectRegisterWorks(t, i);
    case CtrlRead(i) => SelectRegisterWorks(t, i);
    case Burst => SelectModuleWorks(t, t.desired);
    case SetIr(_) =>
    case Reset(_) =>
  }

  predicate RegisterReady(t: System, u: System, i: nat)
    requires t.desired >= 0 && Legal(u.unit)
  {
    u.desired == u.unit.unit == t.desired && (t.desired != JSP ==> u.unit.reg[t.desired] == i)
  }

  /** Exactly when the register operations keep it: the index must fit the one index bit. */
  lemma RegisterIndexMustFit(s: System, i: nat)
    requires Coherent(s) && s.enabled && 0 <= s.desired < JSP
    ensures Coherent(RegisterSelected(s, i)) <==> i < 2
    ensures Coherent(RegisterWritten(s, i)) <==> i < 2
  {
    hide Decoded, ModuleSelected;
    SelectModuleWorks(s, s.desired);
    KeepsDesired(s);
    if i < 2 {
      SelectRegisterWorks(s, i);
    } else {
      var t := ModuleSelected(s, s.desired);
      assert t.index[t.chain] != i;
      assert RegisterSelected(s, i).index[t.chain] == i == RegisterWritten(s, i).index[t.chain];
    }
  }

  /** Exactly when a module selection keeps it: the instruction register must select the debug unit,
      unless the module was selected already. */
  lemma SelectionNeedsTheUnit(s: System, c: nat)
    requires Coherent(s) && c < MAX_MODULES
    ensures Coherent(ModuleSelected(s, c)) <==> s.enabled || s.unit.unit == c
  {
    if s.enabled {
      SelectModuleWorks(s, c);
    }
  }

  // ---- the host's functions -----------------------------------------------------------

  /** Bits written in one transaction are in the target, as many as fit. */
  lemma DataArrives(at: Place, l: Line, data: seq<bool>)
    requires Fits(at, l) && |l.captured| == DATA_LEN
    ensures Ends(Target(at, Shifted(l, data + Zeros(at.prefix), true).chain, DATA_LEN), data)
  {
    hide Shifted, Target;
    WriteReachesTarget(at, l, data);
    TargetLength(at, l, data);
  }

  /** So the last of them, the command, are at its top. */
  lemma CommandArrives(r: seq<bool>, data: seq<bool>, command: seq<bool>)
    requires Ends(r, data + command) && |command| <= DATA_LEN
    ensures Carries(r, command)
  {
    var all, k := data + command, |command|;
    var m := |all|;
    assert all[m - k..] == command;
    if m <= DATA_LEN {
      assert r[DATA_LEN - k..] == r[DATA_LEN - m..][m - k..];
    } else {
      assert r[DATA_LEN - k..] == all[m - DATA_LEN..][DATA_LEN - k..];
    }
  }

  lemma TargetLength(at: Place, l: Line, data: seq<bool>)
    requires Fits(at, l)
    ensures |Target(at, Shifted(l, data + Zeros(at.prefix), true).chain, |l.captured|)| == |l.captured|
  {
  }

  /** A register write leaves in the module what it is for. */
  lemma WriteLoads(s: Selection, c: Registers, r: seq<bool>, index: nat, data: seq<bool>)
    requires Legal(s) && s.unit < JSP && index < 2 && |data| >= (if s.unit == 0 then 1 else 2)
    requires Ends(r, data + RegisterCommand(IREG_WR, index))
    ensures Written(s, c, r) == Loaded(c, s.unit, index, data)
  {
    hide Val, Bits, RegisterCommand;
    var b := RegisterCommand(IREG_WR, index);
    CommandArrives(r, data, b);
    assert r[47..] == b;
    RegisterCommandCarries(r, IREG_WR, index);
    OpcodeSurvivesIff(r, IREG_WR, index);
    DataBits(r, data, b);
  }

  lemma DataBits(r: seq<bool>, data: seq<bool>, b: seq<bool>)
    requires Ends(r, data + b) && |b| == 6 && data != []
    ensures r[46] == data[|data| - 1]
    ensures |data| >= 2 ==> r[45] == data[|data| - 2]
  {
    var all, n := data + b, |data|;
    var m := |all|;
    assert all[n - 1] == data[n - 1] && (n >= 2 ==> all[n - 2] == data[n - 2]);
    if m <= DATA_LEN {
      assert r[46] == r[DATA_LEN - m..][n - 1] && (n >= 2 ==> r[45] == r[DATA_LEN - m..][n - 2]);
    } else {
      assert r[46] == all[m - DATA_LEN..][46] && r[45] == all[m - DATA_LEN..][45];
    }
  }

  /** What was loaded is what the module then shows. */
  lemma LoadedIsRead(c: Registers, m: nat, data: seq<bool>)
    requires 0 < m < JSP && |data| >= 2
    ensures Content(Loaded(c, m, 0, data), m)[0] == data[|data| - 2]
    ensures Content(Loaded(c, m, 0, data), m)[1] == data[|data| - 1]
  {
  }

  /** Writing a one to the error register clears bit 0, and nothing else. */
  lemma ClearedIsRead(c: Registers, data: seq<bool>, j: nat)
    requires data != [] && j < DATA_LEN
    ensures Content(Loaded(c, 0, 0, data), 0)[j] == (Content(c, 0)[j] && !(j == 0 && data[|data| - 1]))
  {
    var e := Loaded(c, 0, 0, data).error;
    assert j < ERROR_LEN ==> e[j] == (c.error[j] && !(j == 0 && data[|data| - 1]));
  }

  lemma OthersAreKept(c: Registers, m: nat, index: nat, data: seq<bool>, k: nat)
    requires m < JSP && |data| >= (if m == 0 then 1 else 2) && k < MAX_MODULES
    ensures k != m || index != 0 ==> Content(Loaded(c, m, index, data), k) == Content(c, k)
  {
  }

  /** Only a register write touches the registers. */
  lemma OtherWritesNothing(s: Selection, c: Registers, r: seq<bool>, command: seq<bool>)
    requires Legal(s) && Carries(r, command)
    requires (|command| == 3 && command[2])
             || (|command| >= 5 && command[|command| - 5..] == Bits(0, 4) + [false])
    ensures Written(s, c, r) == c
  {
    hide Val, Bits;
    var k := |command|;
    assert r[52] == r[DATA_LEN - k..][k - 1];
    if k >= 5 {
      assert r[48..] == command[k - 5..];
      assert r[48..52] == r[48..][..4] == Bits(0, 4);
      ValBits(0, 4);
      assert Pow2(4) == 16;
    }
  }

  lemma SelectWritesNothing(s: Selection, c: Registers, r: seq<bool>, index: nat)
    requires Legal(s) && Carries(r, RegisterCommand(IREG_SEL, index))
    ensures Written(s, c, r) == c
  {
    hide Val, Bits, RegisterCommand;
    assert r[47..] == RegisterCommand(IREG_SEL, index);
    RegisterCommandCarries(r, IREG_SEL, index);
    OpcodeBits(IREG_SEL);
    OpcodeBits(IREG_WR);
    assert r[50] == r[48..52][2];
    BitsVal(r[48..52]);
  }

  lemma BurstWritesNothing(s: Selection, c: Registers, opcode: nat, address: nat, length: nat)
    requires Legal(s) && opcode < 16 && opcode != IREG_WR
    ensures Written(s, c, BurstCommand(opcode, address, length)) == c
  {
    hide Val, Bits;
    var r := BurstCommand(opcode, address, length);
    assert r[48..52] == Bits(opcode, 4);
    ValBits(opcode, 4);
    assert Pow2(4) == 16;
  }

  /** Two data registers that carry the same command are decoded alike. */
  lemma OnlyTheCommandCounts(s: Selection, r: seq<bool>, command: seq<bool>)
    requires Legal(s) && Carries(r, command)
    requires (|command| == 3 && command[2]) || |command| >= 6
    ensures Decoded(s, r) == Decoded(s, Register(command))
  {
    hide Val;
    var q, k := Register(command), DATA_LEN - |command|;
    assert r[k..] == q[k..];
    assert forall j :: k <= j < DATA_LEN ==> r[j] == r[k..][j - k] && q[j] == q[k..][j - k];
    assert r[50..52] == q[50..52];
    if |command| >= 6 {
      assert r[48..52] == q[48..52];
    }
  }

  /** The host's side: the globals of the command layer and the probe it drives, with the debug unit
      at the far end of it. */
  class Host {
    const probe: Probe
    const currentRegIdx: array<int>
    var currentChain: int
    var desiredChain: int
    var enabled: bool
    var unit: Selection
    var contents: Registers
    const irAt: Place
    const irSize: nat
    const debugCode: nat

    ghost predicate Valid()
      reads this, probe, currentRegIdx
    {
      && probe.Valid() && probe.line.tap == RunTestIdle && |probe.line.captured| == DATA_LEN
      && |probe.line.ir| == irAt.postfix + irSize + irAt.prefix && irSize > 0
      && currentRegIdx.Length == MAX_MODULES
      && WellFormed(State())
      && (enabled ==> probe.line.captured == Presented(unit, contents))
    }

    ghost function State(): System
      reads this, currentRegIdx
    {
      System(currentChain, desiredChain, currentRegIdx[..], enabled, unit)
    }

    /** Before the first reset the globals are zero, and so is the hardware's selection. */
    constructor (probe: Probe, irAt: Place, irSize: nat, debugCode: nat, contents: Registers)
      requires probe.Valid() && probe.line.tap == RunTestIdle && |probe.line.captured| == DATA_LEN
      requires |probe.line.ir| == irAt.postfix + irSize + irAt.prefix && irSize > 0
      ensures Valid() && Coherent(State()) && this.probe == probe && fresh(currentRegIdx)
      ensures State() == System(-1, -1, [0, 0, 0, 0], false, Selection(0, [0, 0, 0, 0])) && this.contents == contents
      ensures this.irAt == irAt && this.irSize == irSize && this.debugCode == debugCode
    {
      this.probe, this.irAt, this.irSize, this.debugCode := probe, irAt, irSize, debugCode;
      currentRegIdx := new int[MAX_MODULES](_ => 0);
      currentChain, desiredChain, enabled := -1, -1, false;
      unit := Selection(0, [0, 0, 0, 0]);
      this.contents := contents;
      new;
      assert currentRegIdx[..] == [0, 0, 0, 0];
    }

    /** The debug unit at Update-DR, if the instruction register selects it. */
    method Update()
      requires probe.Valid() && |probe.line.captured| == DATA_LEN == |probe.line.updated| && Legal(unit)
      modifies this`unit, this`contents, probe
      ensures unit == if enabled then Decoded(old(unit), old(probe.line.updated)) else old(unit)
      ensures contents == if enabled then Written(old(unit), old(contents), old(probe.line.updated)) else old(contents)
      ensures probe.Valid()
      ensures probe.line == if enabled then old(probe.line).(captured := Presented(unit, contents))
                            else old(probe.line)
    {
      hide Decoded, Written, Presented;
      if enabled {
        unit, contents := Decoded(unit, probe.line.updated), Written(unit, contents, probe.line.updated);
        probe.line := probe.line.(captured := Presented(unit, contents));
      }
    }

    /** The bits of a transaction, `low` in a stream of its own: Run-Test/Idle, through Shift-DR and
        Update-DR, back to Run-Test/Idle. */
    method ShiftCommand(low: seq<bool>, command: seq<bool>)
      requires probe.Valid() && probe.line.tap == RunTestIdle && |probe.line.captured| == DATA_LEN
      requires command != [] && |command| <= DATA_LEN
      modifies probe
      ensures probe.Valid() && probe.line.tap == RunTestIdle
      ensures probe.line.captured == old(probe.line.captured) && probe.line.ir == old(probe.line.ir)
      ensures Ends(probe.line.updated, low + command)
    {
      hide Shifted, Target, Edge, Ends;
      probe.SetShiftDr();
      ghost var l := probe.line;
      if low != [] {
        probe.WriteStream(low, false);
      } else {
        NothingYet(l);
      }
      ShiftTwice(l, low, command + Zeros(probe.at.prefix), true);
      assert low + (command + Zeros(probe.at.prefix)) == low + command + Zeros(probe.at.prefix);
      probe.WriteStream(command, true);
      DataArrives(probe.at, l, low + command);
      probe.ExitToIdle();
    }

    /** One transaction; the debug unit acts on what its data register then holds. */
    method Transact(low: seq<bool>, command: seq<bool>)
      requires Valid() && command != [] && |command| <= DATA_LEN
      requires (|command| == 3 && command[2]) || |command| >= 6
      modifies this`unit, this`contents, probe
      ensures Valid() && State() == Received(old(State()), Register(command))
      ensures Ends(probe.line.updated, low + command) && Carries(probe.line.updated, command)
      ensures contents == if enabled then Written(old(unit), old(contents), probe.line.updated) else old(contents)
    {
      hide Decoded, Written, Ends, Carries, Presented, Register;
      ShiftCommand(low, command);
      CommandArrives(probe.line.updated, low, command);
      OnlyTheCommandCounts(unit, probe.line.updated, command);
      CarriesLength(probe.line.updated, command);
      Update();
    }

    /** `adbg_select_module` */
    method SelectModule(chain: nat)
      requires Valid() && chain < MAX_MODULES
      modifies this, probe
      ensures Valid() && State() == ModuleSelected(old(State()), chain) && contents == old(contents)
    {
      hide Decoded, Presented, Written, Ends, Carries, Bits, ModuleCommand, Register;
      if currentChain == chain {
        return;
      }
      currentChain := -1;
      desiredChain := chain;
      ModuleCommandBits(chain);
      ghost var s, c := unit, contents;
      Transact([], ModuleCommand(chain));
      OtherWritesNothing(s, c, probe.line.updated, ModuleCommand(chain));
      currentChain := chain;
    }

    /** `adbg_select_ctrl_reg`; false where the source returns its error. */
    method SelectCtrlReg(index: nat) returns (ok: bool)
      requires Valid() && desiredChain >= 0
      modifies this, probe, currentRegIdx
      ensures Valid() && State() == RegisterSelected(old(State()), index) && contents == old(contents)
      ensures ok <==> desiredChain != JSP || currentRegIdx[JSP] == index
    {
      hide Decoded, ModuleSelected;
      KeepsDesired(State());
      SelectModule(desiredChain);
      if currentRegIdx[currentChain] == index {
        return true;
      }
      if currentChain == JSP {
        return false;
      }
      ghost var s, c := unit, contents;
      Transact([], RegisterCommand(IREG_SEL, index));
      SelectWritesNothing(s, c, probe.line.updated, index);
      currentRegIdx[currentChain] := index;
      ok := true;
    }

    /** `adbg_ctrl_write`: the data first, then the command behind it, which loads the register. */
    method CtrlWriteReg(index: nat, data: seq<bool>) returns (ok: bool)
      requires Valid() && desiredChain >= 0
      modifies this, probe, currentRegIdx
      ensures Valid() && State() == RegisterWritten(old(State()), index)
      ensures ok <==> desiredChain != JSP
      ensures ok ==> Ends(probe.line.updated, data + RegisterCommand(IREG_WR, index))
      ensures !(ok && enabled) ==> contents == old(contents)
      ensures ok && old(enabled && Coherent(State())) && index < 2 && |data| >= (if desiredChain == 0 then 1 else 2) ==>
                contents == Loaded(old(contents), desiredChain, index, data)
    {
      hide Decoded, ModuleSelected, Written, Ends, Loaded, RegisterCommand;
      ghost var was := State();
      KeepsDesired(was);
      SelectModule(desiredChain);
      if currentChain == JSP {
        return false;
      }
      ghost var s, c := unit, contents;
      if Coherent(was) && was.enabled {
        SelectModuleWorks(was, was.desired);
      }
      Transact(data, RegisterCommand(IREG_WR, index));
      currentRegIdx[currentChain] := index;
      ok := true;
      if Coherent(was) && was.enabled && index < 2 && |data| >= (if desiredChain == 0 then 1 else 2) {
        WriteLoads(s, c, probe.line.updated, index, data);
      }
    }

    /** The transaction that reads: past the devices before TDO the captured register comes out, while
        a NOP is pushed past the devices after TDI. */
    method ReadSelected(n: nat) returns (data: seq<bool>)
      requires Valid() && 0 < n <= DATA_LEN
      modifies this`unit, this`contents, probe
      ensures Valid() && State() == old(State()) && contents == old(contents)
      ensures enabled ==> data == Presented(unit, contents)[..n]
    {
      hide Decoded, Written, Shifted, ShiftedOut, Target, Edge, Ends, Carries, Bits, Presented;
      probe.SetShiftDr();
      ghost var at, l, skip, nop := probe.at, probe.line, Zeros(probe.at.postfix), Bits(0, 4) + [false];
      AdjustedReadIsCaptured(at, l, Zeros(n));
      data := probe.ReadWriteStream(Zeros(n), true, false);
      probe.WriteStream(Bits(0, 4) + [false], true);
      ShiftTwice(l, skip, Zeros(n), false);
      ShiftTwice(l, skip + Zeros(n), nop + Zeros(at.prefix), true);
      assert skip + Zeros(n) + (nop + Zeros(at.prefix)) == skip + Zeros(n) + nop + Zeros(at.prefix);
      DataArrives(at, l, skip + Zeros(n) + nop);
      probe.ExitToIdle();
      CommandArrives(probe.line.updated, skip + Zeros(n), nop);
      CarriesLength(probe.line.updated, nop);
      NopArrived(unit, probe.line.updated, nop);
      OtherWritesNothing(unit, contents, probe.line.updated, nop);
      Update();
    }

    /** `adbg_ctrl_read`: with a coherent cache, what is read is the register asked for. */
    method CtrlReadReg(index: nat, n: nat) returns (ok: bool, data: seq<bool>)
      requires Valid() && desiredChain >= 0 && 0 < n <= DATA_LEN
      modifies this, probe, currentRegIdx
      ensures Valid() && State() == RegisterSelected(old(State()), index) && contents == old(contents)
      ensures ok <==> desiredChain != JSP
      ensures ok && enabled ==> data == Presented(unit, contents)[..n]
      ensures ok && old(enabled && Coherent(State())) && index / 32 % 2 == 0 ==>
                data == Content(contents, desiredChain)[..n]
    {
      hide Decoded, ModuleSelected, RegisterSelected;
      ghost var was := State();
      ReadsDesired(was, index);
      var selected := SelectCtrlReg(index);
      if currentChain == JSP {
        return false, [];
      }
      data := ReadSelected(n);
      ok := true;
      if Coherent(was) && was.enabled && index / 32 % 2 == 0 {
        SelectedModule(was, index);
      }
    }

    /** `adbg_burst_command` */
    method BurstCommandOut(opcode: nat, address: nat, length: nat)
      requires Valid() && desiredChain >= 0 && address < 0x1_0000_0000
      requires opcode < 16 && opcode != IREG_WR && opcode != IREG_SEL
      modifies this, probe
      ensures Valid() && State() == ModuleSelected(old(State()), old(desiredChain))
      ensures probe.line.updated == BurstCommand(opcode, address, length) && contents == old(contents)
    {
      hide Decoded, ModuleSelected, BurstCommand, Received, Register, Ends, Carries, Presented, Bits, Written;
      SelectModule(desiredChain);
      var b := BurstCommand(opcode, address, length);
      BurstSelectsNothing(State(), opcode, address, length);
      BurstWritesNothing(unit, contents, opcode, address, length);
      Transact([], b);
      CarriesLength(probe.line.updated, b);
    }

    /** `dbg_cpu0_write_ctrl`: bit 0 stalls the CPU, bit 1 resets it. */
    method WriteCpuCtrl(data: nat)
      requires Valid() && enabled && Coherent(State())
      modifies this, probe, currentRegIdx
      ensures Valid() && enabled && Coherent(State())
      ensures contents == old(contents).(cpu0 := Status(data % 2 == 1, data / 2 % 2 == 1))
    {
      hide Decoded, ModuleSelected, RegisterWritten, Bits, Ends;
      SelectModuleWorks(State(), CPU0);
      SelectModule(CPU0);
      SelectRegisterWorks(State(), 0);
      TwoBits(data);
      var ok := CtrlWriteReg(0, Bits(data, 2));
    }

    /** `dbg_cpu0_read_ctrl` */
    method ReadCpuCtrl() returns (data: nat)
      requires Valid() && enabled && Coherent(State())
      modifies this, probe, currentRegIdx
      ensures Valid() && enabled && Coherent(State()) && contents == old(contents)
      ensures data == (if contents.cpu0.stall then 1 else 0) + (if contents.cpu0.reset then 2 else 0)
    {
      hide Decoded, ModuleSelected, RegisterSelected, Ends;
      SelectModuleWorks(State(), CPU0);
      SelectModule(CPU0);
      SelectRegisterWorks(State(), 0);
      var ok, bits := CtrlReadReg(0, 2);
      assert bits == [contents.cpu0.stall, contents.cpu0.reset];
      TwoBitsValue(bits);
      data := Val(bits);
    }

    /** `tap_set_ir`: the other devices get all ones, which is BYPASS, the target the instruction. */
    method SetIr(ir: nat)
      requires Valid()
      modifies this, probe
      ensures Valid()
      ensures |probe.line.instruction| == irAt.postfix + irSize + irAt.prefix
      ensures forall i :: 0 <= i < |probe.line.instruction| && !(irAt.postfix <= i < irAt.postfix + irSize) ==>
                probe.line.instruction[i]
      ensures probe.line.instruction[irAt.postfix..irAt.postfix + irSize] == Bits(ir, irSize)
      ensures State() == old(State()).(chain := -1, enabled := Bits(ir, irSize) == Bits(debugCode, irSize))
      ensures contents == old(contents)
    {
      hide Edge, Bits, Legal, Presented;
      var stream := High(irAt.postfix) + Bits(ir, irSize) + High(irAt.prefix);
      probe.SetShiftIr();
      probe.IrStream(stream);
      probe.UpdateIrToIdle();
      currentChain := -1;
      enabled := probe.line.instruction[irAt.postfix..irAt.postfix + irSize] == Bits(debugCode, irSize);
      if enabled {
        probe.line := probe.line.(captured := Presented(unit, contents));
      }
    }

    /** The hardware at work between two operations: its registers may change at any time. */
    method RegistersChange(after: Registers)
      requires Valid()
      modifies this`contents, probe
      ensures Valid() && State() == old(State()) && contents == after
    {
      contents := after;
      if enabled {
        probe.line := probe.line.(captured := Presented(unit, contents));
      }
    }

    /** The clocks of `tap_reset`, with a cable that drives TRST or one that does not, for which that
        bit is one more clock. */
    method ResetTap(trst: bool)
      requires probe.Valid()
      modifies probe
      ensures probe.Valid() && probe.line.tap == RunTestIdle
      ensures probe.line.captured == old(probe.line.captured) && |probe.line.ir| == old(|probe.line.ir|)
    {
      hide Edge;
      probe.WriteBit(false, false);
      ghost var t := probe.line.tap;
      for i := 0 to 8
        invariant probe.Valid() && probe.line.tap == Ones(t, i)
        invariant probe.line.captured == old(probe.line.captured) && |probe.line.ir| == old(|probe.line.ir|)
      {
        probe.WriteBit(true, false);
      }
      FiveOnesReset(t, 8);
      if !trst {
        probe.WriteBit(false, false);
      }
      probe.WriteBit(false, false);
    }

    /** `tap_reset`, from any state of the controller; the unit comes up with some selection. */
    method TapReset(after: Selection, trst: bool)
      requires probe.Valid() && |probe.line.captured| == DATA_LEN && Legal(after)
      requires |probe.line.ir| == irAt.postfix + irSize + irAt.prefix && irSize > 0
      requires currentRegIdx.Length == MAX_MODULES && -1 <= desiredChain < MAX_MODULES
      modifies this, probe, currentRegIdx
      ensures Valid() && State() == System(-1, old(desiredChain), [-1, -1, -1, -1], false, after)
    {
      hide Presented;
      ResetTap(trst);
      currentChain, enabled, unit := -1, false, after;
      for i := 0 to MAX_MODULES
        invariant forall j :: 0 <= j < i ==> currentRegIdx[j] == -1
        modifies currentRegIdx
      {
        currentRegIdx[i] := -1;
      }
      assert currentRegIdx[..] == [-1, -1, -1, -1];
    }
  }

  /** n bits that are all one. */
  function High(n: nat): seq<bool> {
    seq(n, _ => true)
  }

  lemma BurstSelectsNothing(s: System, opcode: nat, address: nat, length: nat)
    requires Legal(s.unit) && opcode < 16 && opcode != IREG_WR && opcode != IREG_SEL
    ensures Received(s, Register(BurstCommand(opcode, address, length))) == s
  {
    hide Decoded, Bits;
    var b := BurstCommand(opcode, address, length);
    assert Register(b) == b && b[48..] == Bits(opcode, 4) + [false];
    OtherCommandsKeep(s.unit, Register(b), opcode);
  }

  lemma NopArrived(s: Selection, r: seq<bool>, nop: seq<bool>)
    requires Legal(s) && Carries(r, nop) && nop == Bits(0, 4) + [false]
    ensures Decoded(s, r) == s
  {
    OtherCommandsKeep(s, r, 0);
  }

  lemma TwoBits(v: nat)
    ensures Bits(v, 2) == [v % 2 == 1, v / 2 % 2 == 1]
  {
    assert Bits(v / 2, 1) == [v / 2 % 2 == 1] + Bits(v / 2 / 2, 0);
  }

  lemma TwoBitsValue(b: seq<bool>)
    requires |b| == 2
    ensures Val(b) == (if b[0] then 1 else 0) + (if b[1] then 2 else 0)
  {
    assert b[1..] == [b[1]] && [b[1]][1..] == [];
  }

  /** A register selection leaves the module selected, unless the index makes it a module selection itself. */
  lemma SelectedModule(s: System, i: nat)
    requires Coherent(s) && s.enabled && s.desired >= 0 && s.desired != JSP && i / 32 % 2 == 0
    ensures RegisterSelected(s, i).unit.unit == s.desired
  {
    hide ModuleSelected, RegisterCommand, Val, Bits;
    SelectModuleWorks(s, s.desired);
    KeepsDesired(s);
    var r := Register(RegisterCommand(IREG_SEL, i));
    assert r[47..] == RegisterCommand(IREG_SEL, i);
    RegisterCommandCarries(r, IREG_SEL, i);
  }

  lemma ReadsDesired(s: System, i: nat)
    requires WellFormed(s) && s.desired >= 0
    ensures RegisterSelected(s, i).desired == s.desired == RegisterSelected(s, i).chain
    ensures RegisterSelected(s, i).enabled == s.enabled
  {
    hide Decoded;
  }

  lemma CarriesLength(r: seq<bool>, command: seq<bool>)
    requires Carries(r, command)
    ensures |r| == DATA_LEN && (|command| == DATA_LEN ==> r == command)
  {
  }

  /** The controller after n cycles with TMS high. */
  function Ones(t: Tap, n: nat): Tap {
    if n == 0 then t else Next(Ones(t, n - 1), true)
  }

  /** Five are enough to reset it from any state. */
  lemma {:induction false} FiveOnesReset(t: Tap, n: nat)
    requires n >= 5
    ensures Ones(t, n) == TestLogicReset
  {
    if n == 5 {
      assert Ones(t, 2) == Next(Next(t, true), true);
      assert Ones(t, 4) == Next(Next(Ones(t, 2), true), true);
      assert Ones(t, 5) == Next(Ones(t, 4), true);
    } else {
      FiveOnesReset(t, n - 1);
    }
  }
}
