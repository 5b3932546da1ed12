/** `keyexpansionV2`: the key-expansion state machine, its shift register and the key RAM. */
module KeyExpansion {
  import opened AesSbox
  import opened Fips197
  import opened Gf256

  datatype State = Init | Substitute | Shift | WriteLast | Done

  /** The generic parameter: Nk words of key, and Nr = Nk + 6 rounds by `lookupRounds`. */
  predicate KeySize(nk: nat) {
    nk == 4 || nk == 6 || nk == 8
  }

  function Rounds(nk: nat): nat {
    nk + 6
  }

  /** Figure 4 of FIPS-197. */
  lemma RoundsOfStandard()
    ensures Rounds(4) == 10 && Rounds(6) == 12 && Rounds(8) == 14
  {
  }

  datatype Regs = Regs(state: State, i: nat, wAddr: nat, roundconstant: bv8, fromSbox: Column,
                       bank: seq<Column>, keymem: seq<Block>, memOut: Block)

  /** The key port and the read address of the key RAM. */
  datatype Inputs = Inputs(keyword: Column, keywordaddr: nat, wEna: bool, keyStable: bool, roundkeyIdx: nat)

  predicate Valid(s: Regs, nk: nat) {
    KeySize(nk) && |s.bank| == nk && |s.keymem| == 16 && s.i < 64 && s.wAddr < 16
  }

  predicate ValidInputs(x: Inputs) {
    x.keywordaddr < 8 && x.roundkeyIdx < 16
  }

  /** The constants of `GF_ROUNDCONSTANTS_4_6`; those of `GF_ROUNDCONSTANTS_8` are the first eight. */
  function RoundConstant(j: nat): bv8 {
    if j == 0 then 0x01 else if j == 1 then 0x02 else if j == 2 then 0x04 else if j == 3 then 0x08
    else if j == 4 then 0x10 else if j == 5 then 0x20 else if j == 6 then 0x40 else if j == 7 then 0x80
    else if j == 8 then 0x1B else if j == 9 then 0x36 else if j == 10 then 0x6C else 0
  }

  /** The last index of the table that is instantiated for this key size. */
  function LastConstant(nk: nat): nat {
    if nk == 8 then 7 else 10
  }

  /** i / Nk, which selects the constant, and the test i mod Nk = 0. */
  function RowOf(i: nat, nk: nat): nat
    requires nk > 0
  {
    i / nk
  }

  predicate StartsRow(i: nat, nk: nat)
    requires nk > 0
  {
    i % nk == 0
  }

  /** The four S-boxes of a column. */
  function SboxColumn(a: Column): Column {
    Column(EncryptTable(a.r0), EncryptTable(a.r1), EncryptTable(a.r2), EncryptTable(a.r3))
  }

  lemma SboxIsSubColumn(a: Column)
    ensures SboxColumn(a) == SubColumn(a)
  {
    hide EncryptTable, SubByte;
    EncryptTableIsSubByte(a.r0);
    EncryptTableIsSubByte(a.r1);
    EncryptTableIsSubByte(a.r2);
    EncryptTableIsSubByte(a.r3);
  }

  /** A column as the 32-bit word on the wires, and back. */
  function Wires(a: Column): bv32 {
    (a.r0 as bv32 << 24) | (a.r1 as bv32 << 16) | (a.r2 as bv32 << 8) | a.r3 as bv32
  }

  function OfWires(w: bv32): Column {
    Column((w >> 24) as bv8, ((w >> 16) & 0xFF) as bv8, ((w >> 8) & 0xFF) as bv8, (w & 0xFF) as bv8)
  }

  /** `rot_out`: bits 23 to 0, and behind them bits 31 to 24. */
  function RotOut(a: Column): Column {
    OfWires((Wires(a) << 8) | (Wires(a) >> 24))
  }

  lemma RotOutIsRotWord(a: Column)
    ensures RotOut(a) == RotWord(a)
  {
  }

  function ToSbox(s: Regs, nk: nat): Column
    requires Valid(s, nk)
  {
    if nk == 8 && s.i % 8 == 4 then s.bank[nk - 1] else RotOut(s.bank[nk - 1])
  }

  /** The word that is shifted into the bank: w[i + Nk] when the bank starts at w[i]. */
  function LastWord(s: Regs, nk: nat): Column
    requires Valid(s, nk)
  {
    var x := if nk == 8 && s.i % 8 == 4 then s.fromSbox
             else if StartsRow(s.i, nk) then AddColumn(s.fromSbox, Column(s.roundconstant, 0, 0, 0))
             else s.bank[nk - 1];
    AddColumn(x, s.bank[0])
  }

  function NextState(s: Regs, nk: nat, keyStable: bool): State {
    if !keyStable then Init
    else match s.state
      case Init => Substitute
      case Substitute => Shift
      case Shift => if s.i == 4 * Rounds(nk) then Done else Substitute
      case WriteLast => Done
      case Done => Done
  }

  /** WRITELAST is a state of its own only on paper: no state leads into it. */
  lemma WriteLastIsNeverEntered(s: Regs, nk: nat, x: Inputs)
    requires Valid(s, nk) && ValidInputs(x)
    ensures Edge(s, nk, x).state != WriteLast
  {
    hide NextBank, SboxColumn, RoundConstant, ToSbox, RowOf;
  }

  function NextBank(s: Regs, nk: nat, x: Inputs): (bank: seq<Column>)
    requires Valid(s, nk)
    ensures |bank| == nk
  {
    if x.wEna && !x.keyStable then
      if x.keywordaddr < nk then s.bank[x.keywordaddr := x.keyword] else s.bank
    else if s.state == Shift then
      if x.keyStable then s.bank[1..] + [LastWord(s, nk)] else seq(nk, j => x.keyword)
    else s.bank
  }

  function Ready(s: Regs): bool {
    s.state == Done
  }

  /** One clock edge. */
  function Edge(s: Regs, nk: nat, x: Inputs): (t: Regs)
    requires Valid(s, nk) && ValidInputs(x)
    ensures Valid(t, nk)
  {
    hide NextBank, NextState, RoundConstant, SboxColumn, ToSbox, RowOf;
    var write := s.state == WriteLast || (s.state == Shift && s.i % 4 == 0);
    Regs(
      NextState(s, nk, x.keyStable),
      if s.state == Init then 0 else if s.state == Shift then (s.i + 1) % 64 else s.i,
      if s.state == Init then 0 else if write then (s.wAddr + 1) % 16 else s.wAddr,
      RoundConstant(RowOf(s.i, nk)),
      SboxColumn(ToSbox(s, nk)),
      NextBank(s, nk, x),
      if write then s.keymem[s.wAddr := Block(s.bank[0], s.bank[1], s.bank[2], s.bank[3])] else s.keymem,
      s.keymem[x.roundkeyIdx])
  }

  // ---- the expansion run --------------------------------------------------------------

  /** The inputs that matter stay put: the key is stable; the rest is free. */
  predicate Stable(x: Inputs) {
    ValidInputs(x) && x.keyStable
  }

  ghost predicate Held(xs: nat -> Inputs) {
    forall j: nat :: Stable(xs(j))
  }

  ghost function After(n: nat, s0: Regs, nk: nat, xs: nat -> Inputs): (s: Regs)
    requires Valid(s0, nk) && Held(xs)
    ensures Valid(s, nk)
  {
    if n == 0 then s0 else Edge(After(n - 1, s0, nk, xs), nk, xs(n - 1))
  }

  /** The bank holds w[i .. i + Nk], and the RAM the round keys below the write address. */
  ghost predicate Holds(s: Regs, key: seq<Column>, i: nat) {
    && Valid(s, |key|) && i <= 4 * Rounds(|key|)
    && s.i == i && s.wAddr == (i + 3) / 4
    && (forall j :: 0 <= j < |key| ==> s.bank[j] == ScheduleWord(key, i + j))
    && (forall r :: 0 <= r < s.wAddr ==> s.keymem[r] == RoundKey(key, r))
  }

  ghost predicate Substituting(s: Regs, key: seq<Column>, i: nat) {
    s.state == Substitute && Holds(s, key, i)
  }

  ghost predicate Shifting(s: Regs, key: seq<Column>, i: nat) {
    && s.state == Shift && Holds(s, key, i)
    && s.roundconstant == RoundConstant(RowOf(i, |key|))
    && s.fromSbox == SubColumn(ToSbox(s, |key|))
  }

  /** The finished schedule, in every register that a reader depends on. */
  ghost predicate Expanded(s: Regs, key: seq<Column>) {
    && Valid(s, |key|) && s.state == Done
    && s.i == 4 * Rounds(|key|) + 1
    && forall r :: 0 <= r <= Rounds(|key|) ==> s.keymem[r] == RoundKey(key, r)
  }

  /** The table is Rcon of section 5.2, starting from Rcon[1]. */
  lemma RoundConstantIsRcon(j: nat)
    requires j <= 10
    ensures RoundConstant(j) == Rcon(j + 1)
  {
    RconUpTo5();
    if j > 5 {
      RconUpTo11();
    }
    hide Rcon, Xtime;
  }

  lemma RconUpTo5()
    ensures Rcon(1) == 0x01 && Rcon(2) == 0x02 && Rcon(3) == 0x04 && Rcon(4) == 0x08
    ensures Rcon(5) == 0x10 && Rcon(6) == 0x20
  {
  }

  lemma RconUpTo11()
    ensures Rcon(7) == 0x40 && Rcon(8) == 0x80 && Rcon(9) == 0x1B && Rcon(10) == 0x36 && Rcon(11) == 0x6C
  {
    RconUpTo5();
  }

  /** The bounds of the index in each state. */
  predicate Bounded(s: Regs, nk: nat) {
    && Valid(s, nk) && s.i <= 4 * Rounds(nk) + 1
    && (s.state == Substitute || s.state == Shift ==> s.i <= 4 * Rounds(nk))
  }

  lemma BoundIsKept(s: Regs, nk: nat, x: Inputs)
    requires Bounded(s, nk) && ValidInputs(x)
    ensures Bounded(Edge(s, nk, x), nk)
  {
    hide NextBank, SboxColumn, RoundConstant, ToSbox, RowOf;
  }

  /** Any two clocks of which the first finds the key not stable lead there from any contents. */
  lemma BoundIsReached(s: Regs, nk: nat, x: Inputs, y: Inputs)
    requires Valid(s, nk) && ValidInputs(x) && ValidInputs(y) && !x.keyStable
    ensures Bounded(Edge(Edge(s, nk, x), nk, y), nk)
  {
    hide NextBank, SboxColumn, RoundConstant, ToSbox, RowOf;
  }

  ghost function AfterAny(n: nat, s0: Regs, nk: nat, xs: nat -> Inputs): (s: Regs)
    requires Valid(s0, nk) && forall j: nat :: ValidInputs(xs(j))
    ensures Valid(s, nk)
  {
    if n == 0 then s0 else Edge(AfterAny(n - 1, s0, nk, xs), nk, xs(n - 1))
  }

  /** The round-constant table is never read outside its range, whatever the inputs do: the key may
      become unstable, or be written, in any clock. */
  lemma {:induction false} ConstantIndexInRange(n: nat, s0: Regs, nk: nat, xs: nat -> Inputs)
    requires Bounded(s0, nk) && forall j: nat :: ValidInputs(xs(j))
    ensures var s := AfterAny(n, s0, nk, xs);
            Bounded(s, nk) && RowOf(s.i, nk) <= LastConstant(nk)
  {
    hide Edge;
    if n > 0 {
      ConstantIndexInRange(n - 1, s0, nk, xs);
      BoundIsKept(AfterAny(n - 1, s0, nk, xs), nk, xs(n - 1));
    }
    RowInRange(AfterAny(n, s0, nk, xs).i, nk);
  }

  lemma RowInRange(i: nat, nk: nat)
    requires KeySize(nk) && i <= 4 * Rounds(nk) + 1
    ensures RowOf(i, nk) <= LastConstant(nk)
    ensures nk != 6 ==> RowOf(4 * Rounds(nk) + 1, nk) == LastConstant(nk)
  {
    if nk == 8 {
    } else if nk == 6 {
    } else {
    }
  }

  lemma AddColumnComm(a: Column, b: Column)
    ensures AddColumn(a, b) == AddColumn(b, a)
  {
    hide Xor;
    XorLaws(a.r0, b.r0, 0);
    XorLaws(a.r1, b.r1, 0);
    XorLaws(a.r2, b.r2, 0);
    XorLaws(a.r3, b.r3, 0);
  }

  lemma RowShift(i: nat, nk: nat)
    requires KeySize(nk)
    ensures StartsRow(i + nk, nk) == StartsRow(i, nk) && RowOf(i + nk, nk) == RowOf(i, nk) + 1
    ensures nk == 8 ==> (i + nk) % nk == i % 8 && (i % 8 == 4 ==> !StartsRow(i, nk))
  {
    if nk == 8 {
      RowShift8(i);
    } else if nk == 6 {
      RowShift6(i);
    } else {
      RowShift4(i);
    }
  }

  lemma RowShift4(i: nat)
    ensures (i + 4) % 4 == i % 4 && (i + 4) / 4 == i / 4 + 1
  {
  }

  lemma RowShift6(i: nat)
    ensures (i + 6) % 6 == i % 6 && (i + 6) / 6 == i / 6 + 1
  {
  }

  lemma RowShift8(i: nat)
    ensures (i + 8) % 8 == i % 8 && (i + 8) / 8 == i / 8 + 1
  {
  }

  /** One step of the recurrence, as the circuit indexes it. */
  lemma WordUnfolds(key: seq<Column>, i: nat)
    requires KeySize(|key|)
    ensures var nk := |key|;
            var temp := ScheduleWord(key, i + nk - 1);
            ScheduleWord(key, i + nk) == AddColumn(ScheduleWord(key, i),
              if StartsRow(i, nk) then AddColumn(SubColumn(RotWord(temp)), Column(Rcon(RowOf(i, nk) + 1), 0, 0, 0))
              else if nk == 8 && i % 8 == 4 then SubColumn(temp)
              else temp)
  {
    hide Rcon, AddColumn, SubColumn, SboxColumn, RotWord;
    RowShift(i, |key|);
  }

  /** The expansion datapath computes the recurrence of section 5.2. */
  lemma LastWordIsWord(s: Regs, key: seq<Column>, i: nat)
    requires Shifting(s, key, i)
    ensures LastWord(s, |key|) == ScheduleWord(key, i + |key|)
  {
    hide Rcon, RoundConstant, Xtime, AddColumn, SubColumn, SboxColumn;
    hide RotWord, RotOut, ScheduleWord, RowOf, StartsRow, RoundKey;
    var nk := |key|;
    RotOutIsRotWord(s.bank[nk - 1]);
    RowInRange(i, nk);
    RoundConstantIsRcon(RowOf(i, nk));
    assert s.bank[nk - 1] == ScheduleWord(key, i + (nk - 1)) && s.bank[0] == ScheduleWord(key, i + 0);
    RowShift(i, nk);
    WordUnfolds(key, i);
    AddColumnComm(AddColumn(s.fromSbox, Column(s.roundconstant, 0, 0, 0)), s.bank[0]);
    AddColumnComm(s.fromSbox, s.bank[0]);
    AddColumnComm(s.bank[nk - 1], s.bank[0]);
  }

  lemma SubstituteStep(s: Regs, key: seq<Column>, i: nat, x: Inputs)
    requires Substituting(s, key, i) && Stable(x)
    ensures Shifting(Edge(s, |key|, x), key, i)
  {
    hide ScheduleWord, RoundConstant, SubColumn, SboxColumn, RoundKey, AddColumn, RowOf, StartsRow, RotOut;
    SboxIsSubColumn(ToSbox(s, |key|));
  }

  lemma ShiftedBank(s: Regs, key: seq<Column>, i: nat, x: Inputs)
    requires Shifting(s, key, i) && Stable(x)
    ensures var bank := NextBank(s, |key|, x);
            |bank| == |key| && forall j :: 0 <= j < |key| ==> bank[j] == ScheduleWord(key, i + 1 + j)
  {
    LastWordIsWord(s, key, i);
    var last := LastWord(s, |key|);
    assert NextBank(s, |key|, x) == s.bank[1..] + [last] by {
      hide ScheduleWord, LastWord, ToSbox, RoundKey, RowOf, RoundConstant, SubColumn;
    }
    hide *;
    HeldBank(s, key, i);
    BankMoves(s.bank, last, key, i);
  }

  lemma HeldBank(s: Regs, key: seq<Column>, i: nat)
    requires Shifting(s, key, i)
    ensures KeySize(|key|) && |s.bank| == |key|
    ensures forall j :: 0 <= j < |key| ==> s.bank[j] == ScheduleWord(key, i + j)
  {
    hide ScheduleWord, ToSbox, RoundKey, RowOf, RoundConstant, SubColumn;
  }

  lemma BankMoves(bank: seq<Column>, last: Column, key: seq<Column>, i: nat)
    requires KeySize(|key|) && |bank| == |key| && last == ScheduleWord(key, i + |key|)
    requires forall j :: 0 <= j < |key| ==> bank[j] == ScheduleWord(key, i + j)
    ensures forall j :: 0 <= j < |key| ==> (bank[1..] + [last])[j] == ScheduleWord(key, i + 1 + j)
  {
    hide ScheduleWord;
    forall j | 0 <= j < |key|
      ensures (bank[1..] + [last])[j] == ScheduleWord(key, i + 1 + j)
    {
      assert j < |key| - 1 ==> bank[j + 1] == ScheduleWord(key, i + (j + 1));
    }
  }

  lemma StoredKey(s: Regs, key: seq<Column>, i: nat)
    requires Shifting(s, key, i) && i % 4 == 0
    ensures s.wAddr == i / 4 && |s.bank| >= 4
    ensures Block(s.bank[0], s.bank[1], s.bank[2], s.bank[3]) == RoundKey(key, i / 4)
  {
    hide ScheduleWord, LastWord, ToSbox, RowOf, RoundConstant;
    assert forall j :: 0 <= j < 4 ==> s.bank[j] == ScheduleWord(key, i + j);
  }

  /** What an edge does in the shift state. */
  lemma ShiftEdge(s: Regs, nk: nat, x: Inputs)
    requires Valid(s, nk) && s.state == Shift && s.i < 60 && s.wAddr < 15 && Stable(x)
    ensures var t := Edge(s, nk, x);
            && t.state == (if s.i == 4 * Rounds(nk) then Done else Substitute)
            && t.i == s.i + 1 && t.bank == NextBank(s, nk, x)
            && t.wAddr == (if s.i % 4 == 0 then s.wAddr + 1 else s.wAddr)
            && t.keymem == if s.i % 4 == 0
                           then s.keymem[s.wAddr := Block(s.bank[0], s.bank[1], s.bank[2], s.bank[3])] else s.keymem
  {
    hide RoundConstant, SubColumn, SboxColumn, ToSbox, NextBank, RowOf;
  }

  lemma ShiftStep(s: Regs, key: seq<Column>, i: nat, x: Inputs)
    requires Shifting(s, key, i) && Stable(x)
    ensures var t := Edge(s, |key|, x);
            if i == 4 * Rounds(|key|) then Expanded(t, key) else Substituting(t, key, i + 1)
  {
    ShiftedBank(s, key, i, x);
    if i % 4 == 0 {
      StoredKey(s, key, i);
    }
    var t := Edge(s, |key|, x);
    hide *;
    ShiftedRegs(s, key, i, x);
    StoredKeys(s, t, key, i);
    Shifted(s, t, key, i);
  }

  lemma ShiftedRegs(s: Regs, key: seq<Column>, i: nat, x: Inputs)
    requires Shifting(s, key, i) && Stable(x)
    ensures var t := Edge(s, |key|, x);
            && Holds(s, key, i) && Valid(t, |key|) && t.i == i + 1 && t.wAddr == (i + 4) / 4
            && t.state == (if i == 4 * Rounds(|key|) then Done else Substitute)
            && t.bank == NextBank(s, |key|, x)
            && t.keymem == if i % 4 == 0
                           then s.keymem[s.wAddr := Block(s.bank[0], s.bank[1], s.bank[2], s.bank[3])] else s.keymem
  {
    hide ScheduleWord, RoundConstant, SubColumn, ToSbox, RoundKey, NextBank, RowOf, Edge;
    ShiftEdge(s, |key|, x);
  }

  lemma Shifted(s: Regs, t: Regs, key: seq<Column>, i: nat)
    requires Shifting(s, key, i) && Valid(t, |key|) && t.i == i + 1 && t.wAddr == (i + 4) / 4
    requires t.state == if i == 4 * Rounds(|key|) then Done else Substitute
    requires forall j :: 0 <= j < |key| ==> t.bank[j] == ScheduleWord(key, i + 1 + j)
    requires forall r :: 0 <= r < (i + 4) / 4 ==> t.keymem[r] == RoundKey(key, r)
    ensures if i == 4 * Rounds(|key|) then Expanded(t, key) else Substituting(t, key, i + 1)
  {
    hide ScheduleWord, RoundKey, RoundConstant, SubColumn, ToSbox, RowOf;
  }

  /** The RAM after the shift of index i. */
  lemma StoredKeys(s: Regs, t: Regs, key: seq<Column>, i: nat)
    requires Holds(s, key, i) && |t.keymem| == 16
    requires i % 4 == 0 ==> t.keymem == s.keymem[i / 4 := RoundKey(key, i / 4)] && s.wAddr == i / 4
    requires i % 4 != 0 ==> t.keymem == s.keymem
    ensures forall r :: 0 <= r < (i + 4) / 4 ==> t.keymem[r] == RoundKey(key, r)
  {
    hide ScheduleWord, RoundKey;
  }

  /** Where the run stands after n clocks. */
  ghost predicate RunAt(n: nat, s: Regs, key: seq<Column>) {
    && Valid(s, |key|)
    && if n == 0 then s.state == Init && s.bank == key
       else if n <= 8 * Rounds(|key|) + 2 then
         if n % 2 == 1 then Substituting(s, key, (n - 1) / 2) else Shifting(s, key, (n - 2) / 2)
       else Expanded(s, key)
  }

  lemma RunStep(n: nat, s: Regs, key: seq<Column>, x: Inputs)
    requires RunAt(n, s, key) && Stable(x)
    ensures RunAt(n + 1, Edge(s, |key|, x), key)
  {
    hide Edge, Holds, RowOf, RoundConstant, ToSbox, SubColumn, SboxColumn, RoundKey;
    if n == 0 {
      FirstStep(s, key, x);
    } else if n > 8 * Rounds(|key|) + 2 {
      DoneStep(s, key, x);
    } else if n % 2 == 1 {
      SubstituteStep(s, key, (n - 1) / 2, x);
    } else {
      ShiftStep(s, key, (n - 2) / 2, x);
    }
  }

  lemma {:induction false} ExpansionRuns(n: nat, s0: Regs, key: seq<Column>, xs: nat -> Inputs)
    requires RunAt(0, s0, key) && Held(xs)
    ensures RunAt(n, After(n, s0, |key|, xs), key)
  {
    assert Valid(s0, |key|);
    hide RunAt, Edge, Stable;
    if n > 0 {
      ExpansionRuns(n - 1, s0, key, xs);
      RunStep(n - 1, After(n - 1, s0, |key|, xs), key, xs(n - 1));
    }
  }

  lemma FirstStep(s: Regs, key: seq<Column>, x: Inputs)
    requires Valid(s, |key|) && s.state == Init && s.bank == key && Stable(x)
    ensures Substituting(Edge(s, |key|, x), key, 0)
  {
    hide RoundConstant, SubColumn, SboxColumn, AddColumn, LastWord, ToSbox, RoundKey, RowOf;
  }

  lemma DoneStep(s: Regs, key: seq<Column>, x: Inputs)
    requires Expanded(s, key) && Stable(x)
    ensures var t := Edge(s, |key|, x);
            Expanded(t, key) && (x.roundkeyIdx <= Rounds(|key|) ==> t.memOut == RoundKey(key, x.roundkeyIdx))
  {
    hide RoundConstant, SubColumn, SboxColumn, AddColumn, LastWord, ToSbox, RoundKey, RowOf;
  }

  /** From the load state with the user key in the bank and the key declared stable, the machine
      raises `ready` exactly 8 Nr + 3 clocks later, with the whole schedule of section 5.2 in the
      RAM, and holds both; on the way every round-constant index is in range. */
  lemma ReadyMeansExpanded(n: nat, s0: Regs, key: seq<Column>, xs: nat -> Inputs)
    requires RunAt(0, s0, key) && Held(xs)
    ensures var s := After(n, s0, |key|, xs);
            (Ready(s) <==> n >= 8 * Rounds(|key|) + 3)
            && (Ready(s) ==> forall r :: 0 <= r <= Rounds(|key|) ==> s.keymem[r] == RoundKey(key, r))
            && (n > 0 ==> RowOf(s.i, |key|) <= LastConstant(|key|))
  {
    hide ScheduleWord, RoundKey, Edge, After;
    ExpansionRuns(n, s0, key, xs);
    if n > 0 {
      RowInRange(After(n, s0, |key|, xs).i, |key|);
    }
  }

  // ---- loading the key ----------------------------------------------------------------

  /** While the key is not stable, a write puts the word into its place and keeps the rest, in every
      state. Without one the bank keeps its words, except that an expansion interrupted in Shift
      loads every place from the key port. */
  lemma KeyWordIsLoaded(s: Regs, nk: nat, x: Inputs)
    requires Valid(s, nk) && ValidInputs(x) && !x.keyStable
    ensures var t := Edge(s, nk, x);
            && t.state == Init
            && (x.wEna ==>
                  t.bank == if x.keywordaddr < nk then s.bank[x.keywordaddr := x.keyword] else s.bank)
            && (!x.wEna ==>
                  forall j :: 0 <= j < nk ==> t.bank[j] == if s.state == Shift then x.keyword else s.bank[j])
  {
    hide RoundConstant, SubColumn, SboxColumn, AddColumn, LastWord, ToSbox;
  }

  /** Hence Nk writes while the key is not stable load any key, whatever the unit did before, and
      leave it in the load state. */
  lemma {:induction false} KeyIsLoaded(n: nat, s0: Regs, key: seq<Column>, xs: nat -> Inputs)
    requires Valid(s0, |key|) && n <= |key| && forall j: nat :: ValidInputs(xs(j))
    requires forall j :: 0 <= j < n ==> Loads(xs(j), key, j)
    ensures var s := AfterAny(n, s0, |key|, xs);
            && (forall j :: 0 <= j < n ==> s.bank[j] == key[j])
            && (n > 0 ==> s.state == Init)
  {
    hide Edge;
    if n > 0 {
      KeyIsLoaded(n - 1, s0, key, xs);
      assert Loads(xs(n - 1), key, n - 1);
      KeyWordIsLoaded(AfterAny(n - 1, s0, |key|, xs), |key|, xs(n - 1));
    }
  }

  predicate Loads(x: Inputs, key: seq<Column>, j: nat)
    requires j < |key|
  {
    x.wEna && !x.keyStable && x.keywordaddr == j && x.keyword == key[j]
  }

  // ---- the unit -----------------------------------------------------------------------

  /** `keyexpansionV2` as it stands in the source. */
  class KeyExpander {
    const nk: nat
    var state: State
    var i: nat
    var wAddr: nat
    var roundconstant: bv8
    var fromSbox: Column  // the S-boxes' output registers
    var bank: seq<Column>
    var keymem: seq<Block>
    var memOut: Block

    constructor (nk: nat)
      requires KeySize(nk)
      ensures this.nk == nk && Valid(View(), nk)
    {
      this.nk := nk;
      var zero := Column(0, 0, 0, 0);
      var none := Block(zero, zero, zero, zero);
      state, i, wAddr, roundconstant, fromSbox := Init, 0, 0, 0, zero;
      bank, keymem, memOut := seq(nk, j => zero), seq(16, j => none), none;
    }

    function View(): Regs
      reads this
    {
      Regs(state, i, wAddr, roundconstant, fromSbox, bank, keymem, memOut)
    }

    /** The shift register, the key RAM, and the registered constant and S-boxes. */
    method ClockDatapath(x: Inputs)
      requires Valid(View(), nk) && ValidInputs(x)
      modifies this`memOut, this`keymem, this`bank, this`fromSbox, this`roundconstant
      ensures var t := Edge(old(View()), nk, x);
              && memOut == t.memOut && keymem == t.keymem && bank == t.bank
              && fromSbox == t.fromSbox && roundconstant == t.roundconstant
    {
      hide RoundConstant, SubColumn, SboxColumn, NextState;
      var shift := state == Shift;
      var rotated, last := ToSbox(View(), nk), LastWord(View(), nk);
      memOut := keymem[x.roundkeyIdx];
      if state == WriteLast || (shift && i % 4 == 0) {
        keymem := keymem[wAddr := Block(bank[0], bank[1], bank[2], bank[3])];
      }
      if x.wEna && !x.keyStable {
        if x.keywordaddr < nk {
          bank := bank[x.keywordaddr := x.keyword];
        }
      } else if shift {
        bank := if x.keyStable then bank[1..] + [last] else seq(nk, j => x.keyword);
      }
      fromSbox, roundconstant := SboxColumn(rotated), RoundConstant(i / nk);
    }

    /** rising_edge(clk) */
    method Clock(x: Inputs) returns (ready: bool)
      requires Valid(View(), nk) && ValidInputs(x)
      modifies this
      ensures Valid(View(), nk) && View() == Edge(old(View()), nk, x)
      ensures ready == Ready(old(View()))
    {
      hide RoundConstant, SubColumn, SboxColumn, NextBank, ToSbox;
      ready := state == Done;
      ClockDatapath(x);
      match state {
        case Init =>
          state, i, wAddr := Substitute, 0, 0;
        case Substitute =>
          state := Shift;
        case Shift =>
          if i % 4 == 0 {
            wAddr := (wAddr + 1) % 16;
          }
          state, i := if i == 4 * Rounds(nk) then Done else Substitute, (i + 1) % 64;
        case WriteLast =>
          state, wAddr := Done, (wAddr + 1) % 16;
        case Done =>
      }
      if !x.keyStable {
        state := Init;
      }
    }
  }
}
