/** `AES_CORE`: two round controllers over the shared key RAM, with registered S-boxes. */
module AesCore {
  import opened AesSbox
  import opened Fips197
  import opened Gf256
  import opened AesMixcol
  import opened KeyExpansion

  datatype FsmState = WaitKey | WaitData | InitialRound | DoRound | FinalRound

  /** A round controller: the state and the round index, four bits wide. */
  datatype Fsm = Fsm(state: FsmState, index: nat)

  // ---- the round controllers ----------------------------------------------------------

  /** `round_index_out` of the encrypt controller, which addresses the key RAM. */
  function EncIndexOut(f: Fsm): nat {
    match f.state
    case WaitKey => 0
    case WaitData => 0
    case InitialRound => 1
    case DoRound => (f.index + 1) % 16
    case FinalRound => 0
  }

  /** `round_index_out` of the decrypt controller, which counts down. */
  function DecIndexOut(f: Fsm, nr: nat): nat {
    match f.state
    case WaitKey => nr
    case WaitData => nr
    case InitialRound => (f.index + 15) % 16
    case DoRound => (f.index + 15) % 16
    case FinalRound => f.index
  }

  function NextFsmState(f: Fsm, dataStable: bool, keyReady: bool, lastRound: int): FsmState {
    if !keyReady then WaitKey
    else match f.state
      case WaitKey => WaitData
      case WaitData => if dataStable then InitialRound else WaitData
      case InitialRound => DoRound
      case DoRound => if f.index == lastRound then FinalRound else DoRound
      case FinalRound => WaitData
  }

  function EncFsmEdge(f: Fsm, nr: nat, dataStable: bool, keyReady: bool): Fsm {
    Fsm(NextFsmState(f, dataStable, keyReady, nr - 1), EncIndexOut(f))
  }

  function DecFsmEdge(f: Fsm, nr: nat, dataStable: bool, keyReady: bool): Fsm {
    Fsm(NextFsmState(f, dataStable, keyReady, 1), DecIndexOut(f, nr))
  }

  /** While a controller waits, it addresses the round key it will need first. */
  lemma FirstKeyAddressed(f: Fsm, nr: nat)
    requires f.state == WaitKey || f.state == WaitData
    ensures EncIndexOut(f) == 0 && DecIndexOut(f, nr) == nr
  {
  }

  lemma AddressesFit(e: Fsm, d: Fsm, nr: nat, dataStable: bool, decrypt: bool, keyReady: bool)
    requires e.index < 16 && d.index < 16 && nr < 16
    ensures EncFsmEdge(e, nr, dataStable && !decrypt, keyReady).index < 16
    ensures DecFsmEdge(d, nr, dataStable && decrypt, keyReady).index < 16
  {
    hide NextFsmState;
  }

  /** `AES_FSM_ENCRYPT` as it stands in the source. */
  class EncryptController {
    const NO_ROUNDS: nat
    var state: FsmState
    var roundIndex: nat

    constructor (nr: nat)
      ensures NO_ROUNDS == nr && Regs() == Fsm(WaitKey, 0)
    {
      NO_ROUNDS := nr;
      state, roundIndex := WaitKey, 0;
    }

    function Regs(): Fsm
      reads this
    {
      Fsm(state, roundIndex)
    }

    /** rising_edge(clk) */
    method Clock(dataStable: bool, keyReady: bool) returns (finished: bool, roundIndexOut: nat)
      modifies this
      ensures Regs() == EncFsmEdge(old(Regs()), NO_ROUNDS, dataStable, keyReady)
      ensures finished == old(state).FinalRound? && roundIndexOut == EncIndexOut(old(Regs()))
    {
      finished := false;
      var next := state;
      roundIndexOut := roundIndex;
      match state {
        case WaitKey =>
          next := if keyReady then WaitData else WaitKey;
          roundIndexOut := 0;
        case WaitData =>
          next := if dataStable then InitialRound else WaitData;
          roundIndexOut := 0;
        case InitialRound =>
          next := DoRound;
          roundIndexOut := 1;
        case DoRound =>
          next := if roundIndex == NO_ROUNDS - 1 then FinalRound else DoRound;
          roundIndexOut := (roundIndex + 1) % 16;
        case FinalRound =>
          next := WaitData;
          roundIndexOut := 0;
          finished := true;
      }
      if !keyReady {
        next := WaitKey;
      }
      state, roundIndex := next, roundIndexOut;
    }
  }

  /** `AES_FSM_DECRYPT` as it stands in the source. */
  class DecryptController {
    const NO_ROUNDS: nat
    var state: FsmState
    var roundIndex: nat

    constructor (nr: nat)
      ensures NO_ROUNDS == nr && Regs() == Fsm(WaitKey, nr)
    {
      NO_ROUNDS := nr;
      state, roundIndex := WaitKey, nr;
    }

    function Regs(): Fsm
      reads this
    {
      Fsm(state, roundIndex)
    }

    /** rising_edge(clk) */
    method Clock(dataStable: bool, keyReady: bool) returns (finished: bool, roundIndexOut: nat)
      modifies this
      ensures Regs() == DecFsmEdge(old(Regs()), NO_ROUNDS, dataStable, keyReady)
      ensures finished == old(state).FinalRound? && roundIndexOut == DecIndexOut(old(Regs()), NO_ROUNDS)
    {
      finished := false;
      var next := state;
      roundIndexOut := roundIndex;
      match state {
        case WaitKey =>
          next := if keyReady then WaitData else WaitKey;
          roundIndexOut := NO_ROUNDS;
        case WaitData =>
          next := if dataStable then InitialRound else WaitData;
          roundIndexOut := NO_ROUNDS;
        case InitialRound =>
          next := DoRound;
          roundIndexOut := (roundIndex + 15) % 16;
        case DoRound =>
          next := if roundIndex == 1 then FinalRound else DoRound;
          roundIndexOut := (roundIndex + 15) % 16;
        case FinalRound =>
          next := WaitData;
          finished := true;
      }
      if !keyReady {
        next := WaitKey;
      }
      state, roundIndex := next, roundIndexOut;
    }
  }

  // ---- the core -----------------------------------------------------------------------

  datatype Core = Core(exp: Regs, enc: Fsm, dec: Fsm, sboxEnc: Block, sboxDec: Block)

  datatype Ports = Ports(key: Inputs, dataIn: Block, dataStable: bool, decryptMode: bool)

  /** The S-boxes of the two datapaths, four for each column. */
  function SboxBlock(s: Block): Block {
    Block(SboxColumn(s.c0), SboxColumn(s.c1), SboxColumn(s.c2), SboxColumn(s.c3))
  }

  function InvSboxColumn(a: Column): Column {
    Column(DecryptTable(a.r0), DecryptTable(a.r1), DecryptTable(a.r2), DecryptTable(a.r3))
  }

  function InvSboxBlock(s: Block): Block {
    Block(InvSboxColumn(s.c0), InvSboxColumn(s.c1), InvSboxColumn(s.c2), InvSboxColumn(s.c3))
  }

  lemma SboxIsSubBytes(s: Block)
    ensures SboxBlock(s) == SubBytes(s) && InvSboxBlock(s) == InvSubBytes(s)
  {
    hide SboxColumn, SubColumn, InvSboxColumn, InvSubColumn;
    SboxIsSubColumn(s.c0);
    SboxIsSubColumn(s.c1);
    SboxIsSubColumn(s.c2);
    SboxIsSubColumn(s.c3);
    InvSboxIsInvSubColumn(s.c0);
    InvSboxIsInvSubColumn(s.c1);
    InvSboxIsInvSubColumn(s.c2);
    InvSboxIsInvSubColumn(s.c3);
  }

  lemma InvSboxIsInvSubColumn(a: Column)
    ensures InvSboxColumn(a) == InvSubColumn(a)
  {
    hide DecryptTable, InvSubByte;
    DecryptTableIsInvSubByte(a.r0);
    DecryptTableIsInvSubByte(a.r1);
    DecryptTableIsInvSubByte(a.r2);
    DecryptTableIsInvSubByte(a.r3);
  }

  function MixcolBlockFwd(s: Block): Block {
    Block(MixcolFwd(s.c0), MixcolFwd(s.c1), MixcolFwd(s.c2), MixcolFwd(s.c3))
  }

  function MixcolBlockInv(s: Block): Block {
    Block(MixcolInv(s.c0), MixcolInv(s.c1), MixcolInv(s.c2), MixcolInv(s.c3))
  }

  /** The output of the encrypt key adder: round type 00, 01 or 10 selects its other input. */
  function AddkeyOutEnc(s: Core, dataIn: Block): Block {
    var shifted := ShiftRows(s.sboxEnc);
    AddRoundKey(
      if s.enc.state == DoRound then MixcolBlockFwd(shifted)
      else if s.enc.state == FinalRound then shifted
      else dataIn,
      s.exp.memOut)
  }

  predicate InDecryptLoop(s: Core) {
    s.dec.state == DoRound || s.dec.state == FinalRound
  }

  function AddkeyOutDec(s: Core, dataIn: Block): Block {
    AddRoundKey(if InDecryptLoop(s) then s.sboxDec else dataIn, s.exp.memOut)
  }

  function ShiftrowInDec(s: Core, dataIn: Block): Block {
    var added := AddkeyOutDec(s, dataIn);
    if InDecryptLoop(s) then MixcolBlockInv(added) else added
  }

  function Result(s: Core, x: Ports): Block {
    if x.decryptMode then AddkeyOutDec(s, x.dataIn) else AddkeyOutEnc(s, x.dataIn)
  }

  function Finished(s: Core, x: Ports): bool {
    if x.decryptMode then s.dec.state == FinalRound else s.enc.state == FinalRound
  }

  predicate ValidCore(s: Core, nk: nat) {
    Valid(s.exp, nk) && s.enc.index < 16 && s.dec.index < 16
  }

  /** The read address of the key RAM follows the mode. */
  function ReadAddress(s: Core, nk: nat, x: Ports): nat {
    if x.decryptMode then DecIndexOut(s.dec, Rounds(nk)) else EncIndexOut(s.enc)
  }

  function CoreEdge(s: Core, nk: nat, x: Ports): (t: Core)
    requires ValidCore(s, nk) && ValidInputs(x.key)
    ensures ValidCore(t, nk)
  {
    Core(
      Edge(s.exp, nk, x.key.(roundkeyIdx := ReadAddress(s, nk, x))),
      EncFsmEdge(s.enc, Rounds(nk), x.dataStable && !x.decryptMode, Ready(s.exp)),
      DecFsmEdge(s.dec, Rounds(nk), x.dataStable && x.decryptMode, Ready(s.exp)),
      SboxBlock(AddkeyOutEnc(s, x.dataIn)),
      InvSboxBlock(InvShiftRows(ShiftrowInDec(s, x.dataIn))))
  }

  // ---- runs ---------------------------------------------------------------------------

  ghost function Keys(key: seq<Column>): Schedule
    requires key != []
  {
    (r: nat) => RoundKey(key, r)
  }

  /** What must hold at the ports during a run: stable key, stable data, one mode. */
  predicate Request(x: Ports, data: Block, decrypt: bool) {
    Stable(x.key) && x.dataIn == data && x.dataStable && x.decryptMode == decrypt
  }

  /** The encrypt controller n clocks into a run of nr rounds. */
  ghost predicate EncPhase(n: nat, f: Fsm, nr: nat) {
    && n <= nr + 1
    && (n > 1 ==> f.index == n - 1)
    && f.state == if n == 0 then WaitData else if n == 1 then InitialRound else if n <= nr then DoRound else FinalRound
  }

  lemma EncPhaseStep(n: nat, f: Fsm, nr: nat)
    requires EncPhase(n, f, nr) && n <= nr && 1 < nr < 15
    ensures EncPhase(n + 1, EncFsmEdge(f, nr, true, true), nr) && EncIndexOut(f) == n
  {
  }

  ghost predicate DecPhase(n: nat, f: Fsm, nr: nat) {
    && n <= nr + 1
    && (n > 0 ==> f.index == nr + 1 - n)
    && f.state == if n == 0 then WaitData else if n == 1 then InitialRound else if n <= nr then DoRound else FinalRound
  }

  lemma DecPhaseStep(n: nat, f: Fsm, nr: nat)
    requires DecPhase(n, f, nr) && n <= nr && 1 < nr < 15
    ensures DecPhase(n + 1, DecFsmEdge(f, nr, true, true), nr) && DecIndexOut(f, nr) == nr - n
  {
  }

  /** The core n clocks into an encryption of `data`. */
  ghost predicate Encrypting(n: nat, s: Core, key: seq<Column>, data: Block) {
    && Expanded(s.exp, key) && ValidCore(s, |key|)
    && EncPhase(n, s.enc, Rounds(|key|))
    && (n > 0 ==> s.exp.memOut == RoundKey(key, n - 1))
    && (n > 1 ==> s.sboxEnc == SubBytes(EncryptRounds(data, Keys(key), n - 2)))
  }

  lemma MixcolBlocks(s: Block)
    ensures MixcolBlockFwd(s) == MixColumns(s) && MixcolBlockInv(s) == InvMixColumns(s)
  {
    hide MixcolFwd, MixcolInv, MixColumn, InvMixColumn;
    MixcolFwdIsMixColumn(s.c0);
    MixcolFwdIsMixColumn(s.c1);
    MixcolFwdIsMixColumn(s.c2);
    MixcolFwdIsMixColumn(s.c3);
    MixcolInvIsInvMixColumn(s.c0);
    MixcolInvIsInvMixColumn(s.c1);
    MixcolInvIsInvMixColumn(s.c2);
    MixcolInvIsInvMixColumn(s.c3);
  }

  /** The key RAM answers one clock after it is addressed, and keeps the schedule. */
  lemma KeyRamAnswers(s: Core, key: seq<Column>, x: Ports)
    requires Expanded(s.exp, key) && ValidCore(s, |key|) && Stable(x.key)
    requires ReadAddress(s, |key|, x) <= Rounds(|key|)
    ensures var t := CoreEdge(s, |key|, x);
            Expanded(t.exp, key) && t.exp.memOut == RoundKey(key, ReadAddress(s, |key|, x)) && Ready(s.exp)
  {
    hide AddkeyOutEnc, ShiftrowInDec, SubBytes, InvSubBytes, SboxBlock, InvSboxBlock;
    hide InvShiftRows, Edge, Expanded, RoundKey;
    DoneStep(s.exp, key, x.key.(roundkeyIdx := ReadAddress(s, |key|, x)));
    assert Ready(s.exp) by {
      ExpandedIsReady(s.exp, key);
    }
  }

  lemma ExpandedIsReady(s: Regs, key: seq<Column>)
    requires Expanded(s, key)
    ensures Ready(s) && KeySize(|key|)
  {
  }

  /** The encrypt adder produces the next round's state. */
  lemma EncryptRoundOutput(n: nat, s: Core, key: seq<Column>, data: Block)
    requires Encrypting(n, s, key, data) && 1 <= n <= Rounds(|key|)
    ensures AddkeyOutEnc(s, data) == EncryptRounds(data, Keys(key), n - 1)
  {
    hide RoundKey, AddRoundKey, ShiftRows, SubBytes, MixColumns, MixcolBlockFwd, Expanded;
    MixcolBlocks(ShiftRows(s.sboxEnc));
  }

  lemma EncryptStep(n: nat, s: Core, key: seq<Column>, data: Block, x: Ports)
    requires Encrypting(n, s, key, data) && n <= Rounds(|key|) && Request(x, data, false)
    ensures Encrypting(n + 1, CoreEdge(s, |key|, x), key, data)
  {
    hide RoundKey, Edge, AddkeyOutEnc, ShiftrowInDec, SubBytes, InvSubBytes;
    hide SboxBlock, InvSboxBlock, InvShiftRows, EncryptRounds, Expanded;
    hide EncPhase, EncFsmEdge, DecFsmEdge, EncIndexOut, Ready, Keys;
    ExpandedIsReady(s.exp, key);
    EncPhaseStep(n, s.enc, Rounds(|key|));
    if n >= 1 {
      EncryptRoundOutput(n, s, key, data);
      SboxIsSubBytes(AddkeyOutEnc(s, data));
    }
    KeyRamAnswers(s, key, x);
  }

  ghost predicate Requests(xs: nat -> Ports, data: Block, decrypt: bool) {
    forall j: nat :: Request(xs(j), data, decrypt)
  }

  ghost function CoreAfter(n: nat, s0: Core, nk: nat, xs: nat -> Ports, data: Block, decrypt: bool): (s: Core)
    requires ValidCore(s0, nk) && Requests(xs, data, decrypt)
    ensures ValidCore(s, nk)
  {
    if n == 0 then s0 else CoreEdge(CoreAfter(n - 1, s0, nk, xs, data, decrypt), nk, xs(n - 1))
  }

  lemma CoreStarts(s0: Core, nk: nat, xs: nat -> Ports, data: Block, decrypt: bool)
    requires ValidCore(s0, nk) && Requests(xs, data, decrypt)
    ensures CoreAfter(0, s0, nk, xs, data, decrypt) == s0
  {
    hide CoreEdge, ValidCore, Request;
  }

  lemma CoreSteps(n: nat, s0: Core, nk: nat, xs: nat -> Ports, data: Block, decrypt: bool)
    requires n > 0 && ValidCore(s0, nk) && Requests(xs, data, decrypt)
    ensures Request(xs(n - 1), data, decrypt) && ValidInputs(xs(n - 1).key)
    ensures CoreAfter(n, s0, nk, xs, data, decrypt)
            == CoreEdge(CoreAfter(n - 1, s0, nk, xs, data, decrypt), nk, xs(n - 1))
  {
    hide CoreEdge, ValidCore;
  }

  lemma EncryptingIsValid(n: nat, s: Core, key: seq<Column>, data: Block)
    requires Encrypting(n, s, key, data)
    ensures ValidCore(s, |key|)
  {
    hide Expanded, ValidCore;
  }

  lemma {:induction false} EncryptRuns(n: nat, s0: Core, key: seq<Column>, xs: nat -> Ports, data: Block)
    requires Encrypting(0, s0, key, data) && Requests(xs, data, false) && n <= Rounds(|key|) + 1
    ensures Encrypting(n, CoreAfter(n, s0, |key|, xs, data, false), key, data)
  {
    hide *;
    EncryptingIsValid(0, s0, key, data);
    if n == 0 {
      CoreStarts(s0, |key|, xs, data, false);
    } else {
      CoreSteps(n, s0, |key|, xs, data, false);
      EncryptRuns(n - 1, s0, key, xs, data);
      EncryptStep(n - 1, CoreAfter(n - 1, s0, |key|, xs, data, false), key, data, xs(n - 1));
    }
  }

  /** An encryption of a block: `finished` rises for the first time Nr + 1 clocks after the
      request, and the result is then Cipher of section 5.1. */
  lemma EncryptionComputesCipher(n: nat, s0: Core, key: seq<Column>, xs: nat -> Ports, data: Block)
    requires Encrypting(0, s0, key, data) && Requests(xs, data, false) && n <= Rounds(|key|) + 1
    ensures var s := CoreAfter(n, s0, |key|, xs, data, false);
            (Finished(s, xs(n)) <==> n == Rounds(|key|) + 1)
            && (Finished(s, xs(n)) ==> Result(s, xs(n)) == Cipher(data, Keys(key), Rounds(|key|)))
  {
    EncryptRuns(n, s0, key, xs, data);
    hide RoundKey, AddRoundKey, ShiftRows, SubBytes, MixcolBlockFwd, EncryptRounds, Expanded, CoreEdge, CoreAfter;
    assert Request(xs(n), data, false);
  }

  /** The core n clocks into a decryption. */
  ghost predicate Decrypting(n: nat, s: Core, key: seq<Column>, data: Block) {
    var nr := Rounds(|key|);
    && Expanded(s.exp, key) && ValidCore(s, |key|)
    && DecPhase(n, s.dec, nr)
    && (n > 0 ==> s.exp.memOut == RoundKey(key, nr + 1 - n))
    && (n > 1 ==> s.sboxDec == InvSubBytes(InvShiftRows(DecryptRounds(data, Keys(key), nr, n - 2))))
  }

  lemma DecryptRoundOutput(n: nat, s: Core, key: seq<Column>, data: Block)
    requires Decrypting(n, s, key, data) && 1 <= n <= Rounds(|key|)
    ensures ShiftrowInDec(s, data) == DecryptRounds(data, Keys(key), Rounds(|key|), n - 1)
  {
    hide RoundKey, AddRoundKey, InvShiftRows, InvSubBytes, SboxBlock;
    hide InvSboxBlock, InvMixColumns, MixcolBlockInv, Expanded;
    MixcolBlocks(AddkeyOutDec(s, data));
  }

  lemma DecryptStep(n: nat, s: Core, key: seq<Column>, data: Block, x: Ports)
    requires Decrypting(n, s, key, data) && n <= Rounds(|key|) && Request(x, data, true)
    ensures Decrypting(n + 1, CoreEdge(s, |key|, x), key, data)
  {
    hide RoundKey, Edge, AddkeyOutEnc, ShiftrowInDec, SubBytes, InvSubBytes;
    hide SboxBlock, InvSboxBlock, InvShiftRows, DecryptRounds, Expanded;
    hide DecPhase, EncFsmEdge, DecFsmEdge, DecIndexOut, Ready, Keys;
    ExpandedIsReady(s.exp, key);
    DecPhaseStep(n, s.dec, Rounds(|key|));
    if n >= 1 {
      DecryptRoundOutput(n, s, key, data);
      SboxIsSubBytes(InvShiftRows(ShiftrowInDec(s, data)));
    }
    KeyRamAnswers(s, key, x);
  }

  lemma DecryptingIsValid(n: nat, s: Core, key: seq<Column>, data: Block)
    requires Decrypting(n, s, key, data)
    ensures ValidCore(s, |key|)
  {
    hide Expanded, ValidCore;
  }

  lemma {:induction false} DecryptRuns(n: nat, s0: Core, key: seq<Column>, xs: nat -> Ports, data: Block)
    requires Decrypting(0, s0, key, data) && Requests(xs, data, true) && n <= Rounds(|key|) + 1
    ensures Decrypting(n, CoreAfter(n, s0, |key|, xs, data, true), key, data)
  {
    hide *;
    DecryptingIsValid(0, s0, key, data);
    if n == 0 {
      CoreStarts(s0, |key|, xs, data, true);
    } else {
      CoreSteps(n, s0, |key|, xs, data, true);
      DecryptRuns(n - 1, s0, key, xs, data);
      DecryptStep(n - 1, CoreAfter(n - 1, s0, |key|, xs, data, true), key, data, xs(n - 1));
    }
  }

  /** A decryption of a block: as above, with InvCipher of section 5.3. */
  lemma DecryptionComputesInvCipher(n: nat, s0: Core, key: seq<Column>, xs: nat -> Ports, data: Block)
    requires Decrypting(0, s0, key, data) && Requests(xs, data, true) && n <= Rounds(|key|) + 1
    ensures var s := CoreAfter(n, s0, |key|, xs, data, true);
            (Finished(s, xs(n)) <==> n == Rounds(|key|) + 1)
            && (Finished(s, xs(n)) ==> Result(s, xs(n)) == InvCipher(data, Keys(key), Rounds(|key|)))
  {
    DecryptRuns(n, s0, key, xs, data);
    hide RoundKey, AddRoundKey, InvShiftRows, InvSubBytes, SboxBlock, InvSboxBlock;
    hide DecryptRounds, Expanded, CoreEdge, CoreAfter;
    assert Request(xs(n), data, true);
  }

  /** The core decrypts what it encrypted: a decryption run on the result of an encryption run
      under the same key ends with the original block. */
  lemma CoreRoundTrip(e0: Core, d0: Core, key: seq<Column>, xs: nat -> Ports, ys: nat -> Ports,
                      data: Block, cipher: Block)
    requires Encrypting(0, e0, key, data) && Requests(xs, data, false)
    requires var n := Rounds(|key|) + 1;
             cipher == Result(CoreAfter(n, e0, |key|, xs, data, false), xs(n))
    requires Decrypting(0, d0, key, cipher) && Requests(ys, cipher, true)
    ensures var n := Rounds(|key|) + 1;
            Result(CoreAfter(n, d0, |key|, ys, cipher, true), ys(n)) == data
  {
    var n := Rounds(|key|) + 1;
    hide CoreAfter, Result, Finished, Cipher, InvCipher, Requests;
    EncryptionComputesCipher(n, e0, key, xs, data);
    DecryptionComputesInvCipher(n, d0, key, ys, cipher);
    InvCipherInvertsCipher(data, Keys(key), Rounds(|key|));
  }

  /** Without a schedule both controllers fall back to waiting for the key; with one, they wait
      for data in the next clock, ready for a run of either kind. */
  lemma ControllersFollowKey(s: Core, key: seq<Column>, x: Ports)
    requires ValidCore(s, |key|) && ValidInputs(x.key)
    ensures var t := CoreEdge(s, |key|, x);
            (!Ready(s.exp) ==> t.enc.state == t.dec.state == WaitKey)
            && (Ready(s.exp) && s.enc.state == WaitKey ==> t.enc.state == WaitData)
            && (Ready(s.exp) && s.dec.state == WaitKey ==> t.dec.state == WaitData)
  {
    hide Edge, AddkeyOutEnc, ShiftrowInDec, SubBytes, InvSubBytes, SboxBlock, InvSboxBlock, InvShiftRows;
  }

  // ---- a whole session ----------------------------------------------------------------------

  ghost predicate Wired(xs: nat -> Ports) {
    forall j: nat :: ValidInputs(xs(j).key)
  }

  /** The core after n clocks, whatever the ports carry. */
  ghost function CoreRun(n: nat, s0: Core, nk: nat, xs: nat -> Ports): (s: Core)
    requires ValidCore(s0, nk) && Wired(xs)
    ensures ValidCore(s, nk)
  {
    if n == 0 then s0 else
      assert ValidInputs(xs(n - 1).key);
      CoreEdge(CoreRun(n - 1, s0, nk, xs), nk, xs(n - 1))
  }

  lemma RunSteps(n: nat, s0: Core, nk: nat, xs: nat -> Ports)
    requires ValidCore(s0, nk) && Wired(xs)
    ensures ValidInputs(xs(n).key)
    ensures CoreRun(n + 1, s0, nk, xs) == CoreEdge(CoreRun(n, s0, nk, xs), nk, xs(n))
    ensures CoreRun(0, s0, nk, xs) == s0
  {
    hide CoreEdge, ValidCore;
  }

  /** The inputs of the key unit inside the core. */
  function KeyPorts(s: Core, nk: nat, x: Ports): (y: Inputs)
    requires ValidCore(s, nk) && ValidInputs(x.key)
    ensures ValidInputs(y) && y.keyStable == x.key.keyStable && y.wEna == x.key.wEna
    ensures y.keyword == x.key.keyword && y.keywordaddr == x.key.keywordaddr
  {
    x.key.(roundkeyIdx := ReadAddress(s, nk, x))
  }

  lemma KeyUnitSteps(s: Core, nk: nat, x: Ports)
    requires ValidCore(s, nk) && ValidInputs(x.key)
    ensures CoreEdge(s, nk, x).exp == Edge(s.exp, nk, KeyPorts(s, nk, x))
  {
    hide Edge, SboxBlock, InvSboxBlock, AddkeyOutEnc, ShiftrowInDec, InvShiftRows, EncFsmEdge, DecFsmEdge;
  }

  /** Loading the key through the core. */
  lemma {:induction false} CoreLoadsKey(n: nat, s0: Core, key: seq<Column>, xs: nat -> Ports)
    requires ValidCore(s0, |key|) && Wired(xs) && n <= |key|
    requires forall j: nat :: j < n ==> Loads(xs(j).key, key, j)
    ensures var s := CoreRun(n, s0, |key|, xs);
            && (forall j :: 0 <= j < n ==> s.exp.bank[j] == key[j])
            && (n > 0 ==> s.exp.state == Init)
  {
    hide CoreEdge, Edge, KeyPorts;
    if n > 0 {
      CoreLoadsKey(n - 1, s0, key, xs);
      var s := CoreRun(n - 1, s0, |key|, xs);
      RunSteps(n - 1, s0, |key|, xs);
      assert Loads(xs(n - 1).key, key, n - 1);
      KeyUnitSteps(s, |key|, xs(n - 1));
      KeyWordIsLoaded(s.exp, |key|, KeyPorts(s, |key|, xs(n - 1)));
    }
  }

  /** The expansion inside the core, n clocks after the key has become stable. */
  lemma {:induction false} CoreExpands(n: nat, m: nat, s0: Core, key: seq<Column>, xs: nat -> Ports)
    requires ValidCore(s0, |key|) && Wired(xs) && RunAt(0, CoreRun(m, s0, |key|, xs).exp, key)
    requires forall j: nat :: m <= j < m + n ==> xs(j).key.keyStable
    ensures RunAt(n, CoreRun(m + n, s0, |key|, xs).exp, key)
  {
    hide CoreEdge, Edge, KeyPorts, RunAt, ValidCore;
    if n > 0 {
      CoreExpands(n - 1, m, s0, key, xs);
      var s := CoreRun(m + (n - 1), s0, |key|, xs);
      RunSteps(m + (n - 1), s0, |key|, xs);
      KeyUnitSteps(s, |key|, xs(m + (n - 1)));
      RunStep(n - 1, s.exp, key, KeyPorts(s, |key|, xs(m + (n - 1))));
    }
  }

  /** Both controllers wait for data, with the schedule in place. */
  ghost predicate Waiting(s: Core, key: seq<Column>) {
    && Expanded(s.exp, key) && ValidCore(s, |key|)
    && s.enc.state == WaitData && s.dec.state == WaitData
  }

  /** n clocks into a block, with the other controller still waiting. */
  ghost predicate Busy(n: nat, s: Core, key: seq<Column>, data: Block, decrypt: bool) {
    if decrypt then Decrypting(n, s, key, data) && s.enc.state == WaitData
    else Encrypting(n, s, key, data) && s.dec.state == WaitData
  }

  ghost function Output(key: seq<Column>, data: Block, decrypt: bool): Block
    requires key != []
  {
    if decrypt then InvCipher(data, Keys(key), Rounds(|key|)) else Cipher(data, Keys(key), Rounds(|key|))
  }

  lemma KeepsSchedule(s: Core, key: seq<Column>, x: Ports)
    requires Expanded(s.exp, key) && ValidCore(s, |key|) && Stable(x.key)
    ensures Expanded(CoreEdge(s, |key|, x).exp, key) && Ready(s.exp)
  {
    hide Edge, Expanded, KeyPorts, CoreEdge;
    KeyUnitSteps(s, |key|, x);
    DoneStep(s.exp, key, KeyPorts(s, |key|, x));
    ExpandedIsReady(s.exp, key);
  }

  /** Where the controllers go with a schedule in place. */
  lemma ControllerSteps(s: Core, key: seq<Column>, x: Ports)
    requires ValidCore(s, |key|) && ValidInputs(x.key) && Ready(s.exp)
    ensures var t := CoreEdge(s, |key|, x);
            && (s.enc.state == WaitKey || s.enc.state == FinalRound ==> t.enc.state == WaitData)
            && (s.dec.state == WaitKey || s.dec.state == FinalRound ==> t.dec.state == WaitData)
            && (s.enc.state == WaitData && (x.decryptMode || !x.dataStable) ==> t.enc.state == WaitData)
            && (s.dec.state == WaitData && (!x.decryptMode || !x.dataStable) ==> t.dec.state == WaitData)
  {
    hide Edge, AddkeyOutEnc, ShiftrowInDec, SboxBlock, InvSboxBlock, InvShiftRows;
  }

  lemma WaitingStays(s: Core, key: seq<Column>, x: Ports)
    requires Waiting(s, key) && Stable(x.key) && !x.dataStable
    ensures Waiting(CoreEdge(s, |key|, x), key) && !Finished(s, x)
  {
    hide CoreEdge, Expanded;
    KeepsSchedule(s, key, x);
    ControllerSteps(s, key, x);
  }

  lemma WaitingMayStart(s: Core, key: seq<Column>, data: Block, decrypt: bool)
    requires Waiting(s, key)
    ensures Busy(0, s, key, data, decrypt) && KeySize(|key|)
  {
    hide ValidCore;
  }

  lemma BusySteps(n: nat, s: Core, key: seq<Column>, data: Block, decrypt: bool, x: Ports)
    requires Busy(n, s, key, data, decrypt) && n <= Rounds(|key|) && Request(x, data, decrypt)
    ensures ValidCore(s, |key|) && Busy(n + 1, CoreEdge(s, |key|, x), key, data, decrypt)
  {
    hide CoreEdge, Decrypting, Encrypting, Expanded;
    BusyHasSchedule(n, s, key, data, decrypt);
    KeepsSchedule(s, key, x);
    ControllerSteps(s, key, x);
    if decrypt {
      DecryptStep(n, s, key, data, x);
    } else {
      EncryptStep(n, s, key, data, x);
    }
  }

  lemma BusyHasSchedule(n: nat, s: Core, key: seq<Column>, data: Block, decrypt: bool)
    requires Busy(n, s, key, data, decrypt)
    ensures Expanded(s.exp, key) && ValidCore(s, |key|)
  {
    hide Expanded, ValidCore;
  }

  /** A block ends with its result, and the core is ready for the next one a clock later. */
  lemma BusyEnds(n: nat, s: Core, key: seq<Column>, data: Block, decrypt: bool, x: Ports)
    requires Busy(n, s, key, data, decrypt) && Request(x, data, decrypt)
    ensures ValidCore(s, |key|) && KeySize(|key|)
    ensures n <= Rounds(|key|) ==> !Finished(s, x)
    ensures n == Rounds(|key|) + 1 ==>
              Finished(s, x) && Result(s, x) == Output(key, data, decrypt) && Waiting(CoreEdge(s, |key|, x), key)
  {
    hide CoreEdge, Expanded, RoundKey, AddRoundKey, ShiftRows, InvShiftRows, SubBytes, InvSubBytes;
    hide MixcolBlockFwd, EncryptRounds, DecryptRounds;
    BusyHasSchedule(n, s, key, data, decrypt);
    ExpandedIsReady(s.exp, key);
    KeepsSchedule(s, key, x);
    ControllerSteps(s, key, x);
  }

  /** The ports of one session: the key is written word by word and then held; block 1 is offered
      from clock b1 on and block 2 from b2 on, each until it is finished, in either mode. */
  ghost predicate Session(xs: nat -> Ports, key: seq<Column>, b1: nat, data1: Block, mode1: bool,
                          b2: nat, data2: Block, mode2: bool) {
    var nk, nr := |key|, Rounds(|key|);
    && nk + 8 * nr + 4 <= b1 && b1 + nr + 2 <= b2
    && (forall j: nat :: j < nk ==> Loads(xs(j).key, key, j))
    && (forall j: nat :: nk <= j < b2 + nr + 2 ==> xs(j).key.keyStable)
    && (forall j: nat :: nk + 8 * nr + 4 <= j < b1 ==> !xs(j).dataStable)
    && (forall j: nat :: b1 <= j < b1 + nr + 2 ==> Request(xs(j), data1, mode1))
    && (forall j: nat :: b1 + nr + 2 <= j < b2 ==> !xs(j).dataStable)
    && (forall j: nat :: b2 <= j < b2 + nr + 2 ==> Request(xs(j), data2, mode2))
  }

  /** From any contents: once the key is in and expanded, the core waits for data. */
  lemma SessionStarts(s0: Core, key: seq<Column>, xs: nat -> Ports)
    requires ValidCore(s0, |key|) && Wired(xs)
    requires forall j: nat :: j < |key| ==> Loads(xs(j).key, key, j)
    requires forall j: nat :: |key| <= j < |key| + 8 * Rounds(|key|) + 4 ==> xs(j).key.keyStable
    ensures Waiting(CoreRun(|key| + 8 * Rounds(|key|) + 4, s0, |key|, xs), key)
  {
    hide CoreEdge, Edge, Expanded, Loads;
    var nk, r := |key|, 8 * Rounds(|key|) + 3;
    CoreLoadsKey(nk, s0, key, xs);
    assert CoreRun(nk, s0, nk, xs).exp.bank == key;
    CoreExpands(r - 1, nk, s0, key, xs);
    CoreExpands(r, nk, s0, key, xs);
    RunSteps(nk + (r - 1), s0, nk, xs);
    RunSteps(nk + r, s0, nk, xs);
    NotYetReady(r - 1, CoreRun(nk + (r - 1), s0, nk, xs).exp, key);
    ControllersFollowKey(CoreRun(nk + (r - 1), s0, nk, xs), key, xs(nk + (r - 1)));
    KeepsSchedule(CoreRun(nk + r, s0, nk, xs), key, xs(nk + r));
    ControllersFollowKey(CoreRun(nk + r, s0, nk, xs), key, xs(nk + r));
  }

  lemma NotYetReady(n: nat, s: Regs, key: seq<Column>)
    requires RunAt(n, s, key) && 0 < n <= 8 * Rounds(|key|) + 2
    ensures !Ready(s)
  {
    hide Holds;
  }

  lemma {:induction false} WaitingRuns(n: nat, m: nat, s0: Core, key: seq<Column>, xs: nat -> Ports)
    requires ValidCore(s0, |key|) && Wired(xs) && Waiting(CoreRun(m, s0, |key|, xs), key)
    requires forall j: nat :: m <= j < m + n ==> xs(j).key.keyStable && !xs(j).dataStable
    ensures Waiting(CoreRun(m + n, s0, |key|, xs), key)
  {
    hide CoreEdge, Waiting, ValidCore, CoreRun;
    if n > 0 {
      WaitingRuns(n - 1, m, s0, key, xs);
      RunSteps(m + (n - 1), s0, |key|, xs);
      WaitingStays(CoreRun(m + (n - 1), s0, |key|, xs), key, xs(m + (n - 1)));
    }
  }

  lemma {:induction false} BusyRuns(n: nat, m: nat, s0: Core, key: seq<Column>, xs: nat -> Ports,
                                    data: Block, decrypt: bool)
    requires ValidCore(s0, |key|) && Wired(xs) && Waiting(CoreRun(m, s0, |key|, xs), key)
    requires n <= Rounds(|key|) + 1
    requires forall j: nat :: m <= j < m + n ==> Request(xs(j), data, decrypt)
    ensures Busy(n, CoreRun(m + n, s0, |key|, xs), key, data, decrypt)
  {
    hide CoreEdge, Waiting, ValidCore, CoreRun, Busy, Request;
    if n == 0 {
      WaitingMayStart(CoreRun(m, s0, |key|, xs), key, data, decrypt);
    } else {
      BusyRuns(n - 1, m, s0, key, xs, data, decrypt);
      RunSteps(m + (n - 1), s0, |key|, xs);
      BusySteps(n - 1, CoreRun(m + (n - 1), s0, |key|, xs), key, data, decrypt, xs(m + (n - 1)));
    }
  }

  /** The block offered in clock b is finished Rounds + 1 clocks later, not before, with its result. */
  ghost predicate Delivers(b: nat, s0: Core, key: seq<Column>, xs: nat -> Ports, data: Block, decrypt: bool)
    requires key != [] && ValidCore(s0, |key|) && Wired(xs)
  {
    var end := b + (Rounds(|key|) + 1);
    && (forall t: nat :: b <= t <= end ==> (Finished(CoreRun(t, s0, |key|, xs), xs(t)) <==> t == end))
    && Result(CoreRun(end, s0, |key|, xs), xs(end)) == Output(key, data, decrypt)
  }

  /** One block, from waiting to waiting. */
  lemma BlockRuns(m: nat, s0: Core, key: seq<Column>, xs: nat -> Ports, data: Block, decrypt: bool)
    requires ValidCore(s0, |key|) && Wired(xs) && Waiting(CoreRun(m, s0, |key|, xs), key)
    requires forall j: nat :: m <= j < m + Rounds(|key|) + 2 ==> Request(xs(j), data, decrypt)
    ensures Waiting(CoreRun(m + Rounds(|key|) + 2, s0, |key|, xs), key)
    ensures key != [] && Delivers(m, s0, key, xs, data, decrypt)
  {
    hide CoreEdge, Waiting, ValidCore, CoreRun, Busy, Request, Finished, Result, Output;
    var nr := Rounds(|key|);
    WaitingMayStart(CoreRun(m, s0, |key|, xs), key, data, decrypt);
    forall t: nat | m <= t < m + nr + 2
      ensures Finished(CoreRun(t, s0, |key|, xs), xs(t)) <==> t == m + (nr + 1)
    {
      BusyRuns(t - m, m, s0, key, xs, data, decrypt);
      assert m + (t - m) == t;
      BusyEnds(t - m, CoreRun(t, s0, |key|, xs), key, data, decrypt, xs(t));
    }
    BusyRuns(nr + 1, m, s0, key, xs, data, decrypt);
    assert Request(xs(m + (nr + 1)), data, decrypt);
    BusyEnds(nr + 1, CoreRun(m + (nr + 1), s0, |key|, xs), key, data, decrypt, xs(m + (nr + 1)));
    RunSteps(m + (nr + 1), s0, |key|, xs);
  }

  /** From any register contents: load a key, hold it, and two blocks one after the other, each in
      either mode, come out as Cipher and InvCipher say. */
  lemma SessionComputes(s0: Core, key: seq<Column>, xs: nat -> Ports, b1: nat, data1: Block, mode1: bool,
                        b2: nat, data2: Block, mode2: bool)
    requires key != [] && ValidCore(s0, |key|) && Wired(xs)
    requires Session(xs, key, b1, data1, mode1, b2, data2, mode2)
    ensures Delivers(b1, s0, key, xs, data1, mode1) && Delivers(b2, s0, key, xs, data2, mode2)
  {
    hide CoreEdge, Waiting, ValidCore, CoreRun, Request, Delivers, Loads;
    var ready, next := |key| + 8 * Rounds(|key|) + 4, b1 + Rounds(|key|) + 2;
    SessionStarts(s0, key, xs);
    WaitingRuns(b1 - ready, ready, s0, key, xs);
    BlockRuns(b1, s0, key, xs, data1, mode1);
    WaitingRuns(b2 - next, next, s0, key, xs);
    BlockRuns(b2, s0, key, xs, data2, mode2);
  }

  /** In particular one core decrypts what it has just encrypted. */
  lemma SessionRoundTrip(s0: Core, key: seq<Column>, xs: nat -> Ports, b1: nat, data: Block, b2: nat, cipher: Block)
    requires key != [] && ValidCore(s0, |key|) && Wired(xs)
    requires Session(xs, key, b1, data, false, b2, cipher, true)
    requires var t := b1 + (Rounds(|key|) + 1); cipher == Result(CoreRun(t, s0, |key|, xs), xs(t))
    ensures var t := b2 + (Rounds(|key|) + 1); Result(CoreRun(t, s0, |key|, xs), xs(t)) == data
  {
    hide CoreRun, ValidCore, Session, Result, Finished, Cipher, InvCipher;
    SessionComputes(s0, key, xs, b1, data, false, b2, cipher, true);
    InvCipherInvertsCipher(data, Keys(key), Rounds(|key|));
  }

  // ---- the core as a whole ------------------------------------------------------------------

  /** `AES_CORE` as it stands in the source: two controllers, the key unit and the S-box registers. */
  class AesUnit {
    const nk: nat
    var exp: Regs
    var enc: Fsm
    var dec: Fsm
    var sboxEnc: Block
    var sboxDec: Block

    constructor (nk: nat, exp: Regs)
      requires Valid(exp, nk)
      ensures this.nk == nk && ValidCore(State(), nk) && this.exp == exp
      ensures enc == Fsm(WaitKey, 0) && dec == Fsm(WaitKey, Rounds(nk))
    {
      this.nk, this.exp := nk, exp;
      enc, dec := Fsm(WaitKey, 0), Fsm(WaitKey, Rounds(nk));
      var zero := Column(0, 0, 0, 0);
      sboxEnc, sboxDec := Block(zero, zero, zero, zero), Block(zero, zero, zero, zero);
    }

    function State(): Core
      reads this
    {
      Core(exp, enc, dec, sboxEnc, sboxDec)
    }

    /** rising_edge(clk) */
    method Clock(x: Ports) returns (result: Block, finished: bool)
      requires ValidCore(State(), nk) && ValidInputs(x.key)
      modifies this
      ensures ValidCore(State(), nk) && State() == CoreEdge(old(State()), nk, x)
      ensures result == Result(old(State()), x) && finished == Finished(old(State()), x)
    {
      hide Edge, ShiftRows, InvShiftRows, SubBytes, InvSubBytes, SboxBlock, InvSboxBlock, Ready, NextFsmState;
      hide MixcolBlockFwd, MixcolBlockInv, AddRoundKey, EncFsmEdge, DecFsmEdge;
      var keyReady, roundKey, nr := Ready(exp), exp.memOut, Rounds(nk);
      // the encrypt datapath
      var shifted := ShiftRows(sboxEnc);
      var addEnc := AddRoundKey(
        if enc.state == DoRound then MixcolBlockFwd(shifted)
        else if enc.state == FinalRound then shifted else x.dataIn, roundKey);
      // the decrypt datapath
      var looping := dec.state == DoRound || dec.state == FinalRound;
      var addDec := AddRoundKey(if looping then sboxDec else x.dataIn, roundKey);
      var intoShift := if looping then MixcolBlockInv(addDec) else addDec;
      result, finished := addEnc, enc.state == FinalRound;
      var index := EncIndexOut(enc);
      if x.decryptMode {
        result, finished, index := addDec, dec.state == FinalRound, DecIndexOut(dec, nr);
      }
      sboxEnc, sboxDec := SboxBlock(addEnc), InvSboxBlock(InvShiftRows(intoShift));
      AddressesFit(enc, dec, nr, x.dataStable, x.decryptMode, keyReady);
      enc := EncFsmEdge(enc, nr, x.dataStable && !x.decryptMode, keyReady);
      dec := DecFsmEdge(dec, nr, x.dataStable && x.decryptMode, keyReady);
      exp := Edge(exp, nk, x.key.(roundkeyIdx := index));
    }
  }
}
