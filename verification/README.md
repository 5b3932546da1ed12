# Verification of the cryptographic cores and the debug bridge

A Dafny project that models four parts of the repository and proves what they are for. `dafny verify dfyconfig.toml`
checks all of it.

**The elliptic-curve core over GF(3^97)** (`rtl/ecg`). `F3`, `F3m` and `Shifter` are the gates, buses and one-hot
registers; `Poly` and `Modulus` are polynomials over GF(3) and residues modulo p = x^97 + x^12 + 2. `F3mInv`, `F3mMult`
and `F3mCubic` are the arithmetic modules, `Field` and `Curve` the mathematics above them, `Pulse`, `PointAdd` and
`ScalarMult` the clocked machines that chain them. RTL is one step for each clock edge; theorems start from an edge with
reset and arbitrary register contents.

**The AES core** (`rtl/aes`). `Fips197` states the standard's functions and that decryption undoes encryption;
`Gf256` is its field, with the S-box as section 5.1.1 defines it. `AesSbox` and `AesMixcol` show the tables and column
maps of the core to be the standard's, `KeyExpansion` the key schedule, `AesCore` the two controllers and datapaths with
their registered S-boxes and key RAM.

**The JTAG debug bridge** (`adv_jtag_bridge`). `MatchpointTable` is the chained hash table, `Matchpoints` software
breakpoints and hardware watchpoints, `Watchpoints` what these make the CPU do, `JtagChain`, `EnumerateChain` and
`AdvDebug` the scan chain and the selection cache over it, `MonitorProtocol` the thread that watches the target,
`RspFraming` the packets exchanged with GDB. The hardware at the other end of the cable is modelled after the RTL of the
TAP and of the debug unit.

**CRC-32** (`Crc32`) in its three forms, with the residue that Ethernet checks.

Each clocked module and each C function that changes state is a class or method whose contract equates the new state with
a function of the old one; the theorems are about that function over whole runs.

## Findings

- Inserting a hardware matchpoint that is already set takes a second watchpoint, which nothing ever returns
  and which goes on stopping the CPU after the matchpoint is removed
  (`Matchpoints.LeakIffGrantedTwice`, `Matchpoints.DuplicateInsertLeaks`, `Watchpoints.LeakKeepsStopping`).
- GDB's detach packet does not resume a stopped target: the connection to the monitor is closed before the command is
  written (`MonitorProtocol.DetachDoesNotResume`). The comment in the source says that execution should continue.
- Closing a client while the target runs sends the monitor an S and a U and drops the pipes at once. When nobody else
  sends and the CPU does not stop by itself, the target is left stalled if and only if the monitor read the S and not the
  U (`MonitorProtocol.CloseKeepsRunningIff`, `MonitorProtocol.CloseCanStall`); `MonitorProtocol.StalledIff` is the
  condition for every run.
- A packet whose escaped form has GDB_BUF_MAX - 1 bytes still fits the buffer but is dropped, as every longer one is
  (`RspFraming.PacketArrivesIff`); of a longer one what did not fit breaks into the target if and only if it holds a 0x03
  (`RspFraming.LongPacketBreaksIff`, `RspFraming.BreakNeedsLength`, `RspFraming.LongPacketCanBreak`). The server
  advertises GDB_BUF_MAX as its PacketSize, which counts frame and checksum, so a client that keeps to it is not
  affected (`RspFraming.AdvertisedSizeFits`).
- The six bits of a register command are the opcode or'ed with the whole index. The opcode survives for some indices
  beyond the one bit there is, 2 and 3 among them; register index modulo 2 is then selected while the cache records the
  index itself (`AdvDebug.OpcodeSurvivesIff`, `AdvDebug.RegisterIndexMustFit`). Every call in the repository passes
  index 0 (`adv_dbg_commands.c:534-759`, `dbg_api.c:482-647`).
- A burst length of 2^16 or more is or'ed, from bit 16 on, into the address of the burst command
  (`AdvDebug.BurstCarries`, `AdvDebug.BurstDecodesIff`).
- The state `WRITELAST` of the key expansion is never entered (`KeyExpansion.WriteLastIsNeverEntered`); the last round
  key is written by the shift at the loop bound.

## Model

| member | source | states |
|---|---|---|
| F3.GatesComputeModulo3 | rtl/ecg/f3.v:22-54 | the gate networks for sum, difference and product give a legal code whose value is the operation modulo 3, so legal codes stay legal |
| F3m.VAdd | rtl/ecg/f3m.v:53-62 | digitwise sum of two buses, legal for any input codes |
| F3m.VSub | rtl/ecg/f3m.v:99-108 | digitwise difference of two buses, legal for any input codes |
| F3m.VSubIsAddScale | rtl/ecg/f3m.v:99-108 | on legal buses the difference is the sum with the negation |
| F3m.ToPolyAdd | rtl/ecg/f3m.v:53-62 | the adder adds the polynomials the buses stand for |
| F3m.ToPolySub | rtl/ecg/f3m.v:99-108 | the subtractor subtracts them |
| Modulus.XInvertible | rtl/ecg/f3m.v:579-618 | func3 and func5 on field elements undo each other: multiplication and division by x modulo p |
| Modulus.CongruentIffSameResidue | rtl/ecg/f3m.v:579-593 | residues computed by repeated func3 steps are equal if and only if the polynomials are congruent modulo p |
| Modulus.FMulIsProduct | rtl/ecg/f3m.v:111-153 | the field product used as reference is the residue of the polynomial product, and commutes |
| Modulus.FMulIsOnlyProduct | rtl/ecg/f3m.v:111-153 | an element is congruent modulo p to the polynomial product if and only if it is the field product |
| F3mInv.InvariantHolds | rtl/ecg/f3m.v:486-554 | at every step n: n = 2e + d, R and S are shifted polynomials of bounded degree with a Bezout identity, and U, V are their cofactors of A modulo p |
| F3mInv.InverterStaysInRange | rtl/ecg/f3m.v:486-576 | for A coprime to p, at each of the first 2M steps R is not zero, the top coefficient func2 drops is zero, and the unary counter d is a legal code of at most M |
| F3mInv.InverterComputesInverse | rtl/ecg/f3m.v:486-618 | after 2M steps C * A is congruent to 1 if and only if A is coprime to p, and C is then the field inverse |
| F3mInv.InverseOfZero | rtl/ecg/f3m.v:486-554 | for A = 0 the result is 0 |
| F3mInv.ZeroOnlyShifts | rtl/ecg/f3m.v:486-554 | for A = 0 every step only shifts, and the counter d reaches 2M within its 2M + 1 bits |
| F3mInv.Schedule | rtl/ecg/f3m.v:486-554 | from any power-up contents, done is low up to the 2M-th edge after reset and high from the next one on, C changing in that edge only |
| F3mInv.Inverter.Clock | rtl/ecg/f3m.v:509-553 | one clock of the module on its registers is one step of the function the theorems are about |
| F3mMult.Func7IsXCubed | rtl/ecg/f3m.v:622-635 | func7 multiplies by x cubed modulo p |
| F3mMult.Func8IsSum | rtl/ecg/f3m.v:638-1227 | func8 gives b0*A + b1*xA + b2*x^2*A modulo p |
| F3mMult.SumIsKept | rtl/ecg/f3m.v:111-153 | z + x*y is A*B modulo p at every step, for every A and B |
| F3mMult.OperandRunsOut | rtl/ecg/f3m.v:111-153 | the digits of B move down three at a time, so after the last step nothing of y is left |
| F3mMult.MultiplierComputesProduct | rtl/ecg/f3m.v:111-153 | the register C ends up congruent to A*B modulo p, and is the field product |
| F3mMult.Schedule | rtl/ecg/f3m.v:111-153 | done is low for 33 edges after reset and high from the 34th on, when C holds the product |
| F3mMult.Multiplier.Clock | rtl/ecg/f3m.v:111-153 | one clock of the module is one step of that function |
| F3mCubic.CubicLinear | rtl/ecg/f3m.v:211-469 | the wiring respects sums |
| F3mCubic.CubicIsCube | rtl/ecg/f3m.v:211-469 | the hand-made wiring is in*in*in in the field, for every element |
| Field.CubicTimes | rtl/ecg/f3m.v:211-469 | so it respects products as well as sums |
| Field.Ring | rtl/ecg/f3m.v:111-153 | sum and product of field elements form a commutative ring |
| Field.Bezout | rtl/ecg/f3m.v:486-554 | any two polynomials have a common divisor that is a combination of them |
| Field.FieldInverse | rtl/ecg/f3m.v:486-554 | if p is irreducible, every element but 0 is coprime to p, so the inverter inverts it |
| Field.CancelFactor | rtl/ecg/f3m.v:111-153 | if p is irreducible, a nonzero factor can be cancelled |
| Curve.SameAbscissa | rtl/ecg/ecg.v:85-158 | two points with the same x are equal or opposite, so the cases of point_add are exhaustive |
| Curve.SumOnCurve | rtl/ecg/ecg.v:85-158 | the chord and tangent sum of two points of y^2 = x^3 - x + 1 lies on the curve |
| Curve.DoubleFormulaIsTangent | rtl/ecg/ecg.v:183-221 | x + (1/y)^2 and -(y + (1/y)^3) are the tangent construction in characteristic 3 |
| Curve.ChordFormulaIsChord | rtl/ecg/ecg.v:225-269 | the formulas of func11 are the chord construction |
| Curve.FormulasComputeSum | rtl/ecg/ecg.v:85-269 | whichever formula the case selects is the group sum |
| Pulse.PulseAtEachRise | rtl/ecg/fun.v:25-39 | func6 is high in exactly the clock after a rising edge of its input, so once for each completed operation |
| Pulse.RisingEdge.Clock | rtl/ecg/fun.v:25-39 | one clock of func6 |
| PointAdd.DoublerRuns | rtl/ecg/ecg.v:183-221 | the handshakes of func10: inverter, pulse, multiplier and one-hot register advance on a fixed schedule, done first rising after 233 clocks |
| PointAdd.ChordRuns | rtl/ecg/ecg.v:225-269 | the same for func11 with its two multipliers, done first rising after 269 clocks |
| PointAdd.DoublingEngine.Clock | rtl/ecg/ecg.v:183-221 | one clock of func10 |
| PointAdd.ChordEngine.Clock | rtl/ecg/ecg.v:225-269 | one clock of func11 |
| PointAdd.PointAdder.Clock | rtl/ecg/ecg.v:85-158 | one clock of point_add |
| PointAdd.AdderRuns | rtl/ecg/ecg.v:85-158 | the registered flags settle before either engine can finish, so no wrong branch is ever selected |
| PointAdd.FlagsMeanPoints | rtl/ecg/ecg.v:115-140 | the comparisons on wires are equality with the point and with its negative |
| PointAdd.OutputIsSum | rtl/ecg/ecg.v:85-179 | the value presented in each case is the sum of the two points |
| PointAdd.PointAddComputesSum | rtl/ecg/ecg.v:85-269 | done is low before the latency of the case (2, 3, 234 or 270) and high from then on; from then on the output is the group sum, on the curve, and infinity exactly when P1 = -P2 |
| ScalarMult.PulseTiming | rtl/ecg/ecg.v:56-58 | after a start the adder finishes one operation and the two pulses fire once each for it |
| ScalarMult.PhaseStep | rtl/ecg/ecg.v:26-80 | every clock keeps the adder at a definite point of one operation on inputs that stay put |
| ScalarMult.ConservedStep | rtl/ecg/ecg.v:26-80 | accumulator + k * doubler is the same point before and after every clock |
| ScalarMult.RunInvariant | rtl/ecg/ecg.v:26-80 | hence at every clock it is c * P1 |
| ScalarMult.WorkRunsOut | rtl/ecg/ecg.v:26-80 | the work left decreases with every clock until k is 0 |
| ScalarMult.BitLengthIs | rtl/ecg/ecg.v:26-80 | the bits in which that bound is linear are those k is written with |
| ScalarMult.ScalarMultComputesMultiple | rtl/ecg/ecg.v:26-80 | for every scalar and start point the outputs hold c * P1 in every clock in which done is high, and done is high from a bound linear in the bits of c |
| ScalarMult.ScalarMultiplier.Clock | rtl/ecg/ecg.v:26-80 | one clock of point_scalar_mult |
| Gf256.MulAdds | rtl/aes/mixcol_fwd.vhd:94-148 | the product of GF(2^8) that section 4.2 of FIPS-197 builds from Xtime distributes over sums |
| Gf256.MulLaws | rtl/aes/mixcol_fwd.vhd:94-148 | it is commutative and associative, with 1 as its unit |
| Gf256.InverseIsUnique | rtl/aes/sbox_arch1.vhd:94-127 | a byte has at most one multiplicative inverse in GF(2^8), 0 being its own, so section 5.1.1 of FIPS-197 names one byte |
| AesSbox.EncryptTableIsSubByte | rtl/aes/sbox_arch1.vhd:94-127 | at all 256 addresses the encrypt table holds the affine map of the inverse in GF(2^8), as section 5.1.1 defines the S-box |
| AesSbox.DecryptTableIsInvSubByte | rtl/aes/sbox_arch1.vhd:58-91 | and the decrypt table the inverse S-box of section 5.3.2 |
| AesSbox.TablesInvert | rtl/aes/sbox_arch1.vhd:58-127 | the two tables are inverse permutations of the bytes |
| Fips197.ShiftRowsMoves | rtl/aes/shiftrow_fwd.vhd:74-115 | forward and inverse row rotation move each entry where sections 5.1.2 and 5.3.1 of FIPS-197 say |
| Fips197.AddRoundKeyAdds | rtl/aes/addroundkey.vhd:68-73 | each entry of the state is the exclusive or of the entry and that of the round key |
| Fips197.RotWordRotates | rtl/aes/keyexpansionV2.vhd:262-265 | byte i of the rotated word is byte i + 1, as section 5.2 has it |
| KeyExpansion.RotOutIsRotWord | rtl/aes/keyexpansionV2.vhd:262-265 | the wiring of the 32 bits of rot_out is that rotation |
| KeyExpansion.RoundsOfStandard | rtl/aes/avs_aes_pkg.vhd:362-376 | 10, 12 and 14 rounds for keys of 4, 6 and 8 words |
| Fips197.MixColumnInverts | rtl/aes/mixcol_inv.vhd:79-159 | the two column matrices are inverse to each other over GF(2^8), both ways round |
| Fips197.LayersInvert | rtl/aes/addroundkey.vhd:68-73 | each layer of the inverse cipher undoes its counterpart |
| Fips197.InvCipherInvertsCipher | rtl/aes/aes_core.vhd:114-373 | InvCipher(Cipher(data)) = data for every block, every schedule and every number of rounds |
| AesMixcol.MixcolFwdIsMixColumn | rtl/aes/mixcol_fwd.vhd:94-148 | the forward column map with its conditional reduction is MixColumns of section 5.1.3 |
| AesMixcol.MixcolInvIsInvMixColumn | rtl/aes/mixcol_inv.vhd:79-159 | the inverse column map with its three-stage reduction of 11-bit sums is InvMixColumns of section 5.3.3 |
| KeyExpansion.ConstantIndexInRange | rtl/aes/keyexpansionV2.vhd:436-451 | from any contents that keep i within its bound, over every run with arbitrary inputs, each index read is inside the round-constant table instantiated for the key size |
| KeyExpansion.BoundIsReached | rtl/aes/keyexpansionV2.vhd:157-229 | any two clocks, the first with the key not stable, lead there from any contents at all |
| KeyExpansion.WriteLastIsNeverEntered | rtl/aes/keyexpansionV2.vhd:368-396 | no state and no input lead into WRITELAST |
| KeyExpansion.LastWordIsWord | rtl/aes/keyexpansionV2.vhd:260-357 | when the bank holds w[i..i+Nk-1], the word shifted in is w[i+Nk] of section 5.2 |
| KeyExpansion.ExpansionRuns | rtl/aes/keyexpansionV2.vhd:157-451 | for Nk = 4, 6, 8 and every key, before the shift of index i the bank holds w[i..i+Nk-1] and the RAM the round keys written so far |
| KeyExpansion.ReadyMeansExpanded | rtl/aes/keyexpansionV2.vhd:157-451 | ready rises 8*Nr + 3 clocks after the start, not before, and then KEYMEM[r] = w[4r..4r+3] for all r <= Nr |
| KeyExpansion.KeyWordIsLoaded | rtl/aes/keyexpansionV2.vhd:231-244 | while the key is not stable a write replaces that word of the bank only, in every state; without a write the bank keeps its words, except that an expansion interrupted in SHIFT fills it with the key port |
| KeyExpansion.KeyIsLoaded | rtl/aes/keyexpansionV2.vhd:231-244 | so writing the Nk words, from any contents, leaves the key in the bank and the machine in its load state |
| KeyExpansion.KeyExpander.Clock | rtl/aes/keyexpansionV2.vhd:157-451 | one clock of the unit on its registers |
| AesCore.EncryptController.Clock | rtl/aes/aes_fsm_encrypt.vhd:91-172 | one clock of the encrypt controller: next state, key address and finished |
| AesCore.DecryptController.Clock | rtl/aes/aes_fsm_decrypt.vhd:91-170 | one clock of the decrypt controller, counting down |
| AesCore.FirstKeyAddressed | rtl/aes/aes_fsm_encrypt.vhd:91-172 | while a controller waits it addresses the round key it will need first: 0, or Nr for decryption |
| AesCore.AesUnit.Clock | rtl/aes/aes_core.vhd:114-373 | one clock of the whole core, its result and finished outputs included |
| AesCore.EncryptionComputesCipher | rtl/aes/aes_core.vhd:158-262 | for 10, 12 or 14 rounds, with schedule, data and mode held, finished is high for the first time Nr + 1 clocks after the request and the result is then Cipher(data) of section 5.1, S-box and key-RAM latency included |
| AesCore.DecryptionComputesInvCipher | rtl/aes/aes_core.vhd:264-371 | likewise InvCipher(data) of section 5.3 |
| AesCore.CoreRoundTrip | rtl/aes/aes_core.vhd:114-373 | decrypting what the core encrypted gives back the block |
| AesCore.ControllersFollowKey | rtl/aes/aes_fsm_encrypt.vhd:91-128 | without a ready schedule both controllers fall back, with one they become ready for data |
| AesCore.SessionStarts | rtl/aes/aes_core.vhd:114-156 | from any contents: after the key words are written, with the key then stable until the expansion is done and noticed, the core waits for data with the schedule in place |
| AesCore.SessionComputes | rtl/aes/aes_core.vhd:114-373 | one run of one core: the key is loaded and expanded, and two blocks offered one after the other at any later clocks, each in either mode, are finished after Nr + 1 clocks and not before with the result the standard gives |
| AesCore.SessionRoundTrip | rtl/aes/aes_core.vhd:114-373 | in particular it decrypts what it has just encrypted |
| MatchpointTable.Table.Lookup | rtl/minisoc/adv_debug_sys/Software/adv_jtag_bridge/rsp-server.c:1424-1443 | finds the entry for a type and address if and only if the map has one, with its instruction |
| MatchpointTable.Table.Add | rtl/minisoc/adv_debug_sys/Software/adv_jtag_bridge/rsp-server.c:1384-1411 | extends the map by the key, or leaves everything alone if the key is there |
| MatchpointTable.Table.Delete | rtl/minisoc/adv_debug_sys/Software/adv_jtag_bridge/rsp-server.c:1464-1497 | removes exactly that key from the map and hands out its entry, at the head of a chain or inside it |
| MatchpointTable.Table.constructor | rtl/minisoc/adv_debug_sys/Software/adv_jtag_bridge/rsp-server.c:1360-1369 | 1021 empty chains are the empty map |
| MatchpointTable.ChainGrows | rtl/minisoc/adv_debug_sys/Software/adv_jtag_bridge/rsp-server.c:1402-1409 | an entry put at the head of its chain keeps keys distinct and in their bucket |
| MatchpointTable.ChainShrinks | rtl/minisoc/adv_debug_sys/Software/adv_jtag_bridge/rsp-server.c:1473-1490 | unlinking an entry leaves exactly the other keys |
| MatchpointTable.NeighboursSpread | rtl/minisoc/adv_debug_sys/Software/adv_jtag_bridge/rsp-server.c:1384-1411 | addresses less than 1021 apart fall into different buckets |
| Matchpoints.Run | rtl/minisoc/adv_debug_sys/Software/adv_jtag_bridge/rsp-server.c:2679-2955 | over every run of insert and remove packets, duplicates and removals of absent ones included: memory is the original with TRAP at exactly the memory breakpoints, and every live hardware entry has a watchpoint of its own, in use and programmed for it |
| Matchpoints.OriginalIsRecovered | rtl/minisoc/adv_debug_sys/Software/adv_jtag_bridge/rsp-server.c:2709-2723 | putting the saved instructions back gives the original memory after any run, and without memory breakpoints it is the memory |
| Matchpoints.MemoryPacketsAreIdempotent | rtl/minisoc/adv_debug_sys/Software/adv_jtag_bridge/rsp-server.c:2813-2820 | repeated packets about a memory breakpoint change nothing, and removing a new one undoes inserting it |
| Matchpoints.InsertKeepsWatching | rtl/minisoc/adv_debug_sys/Software/adv_jtag_bridge/rsp-server.c:2822-2947 | an insertion leaves live entries with pairwise distinct watchpoints, DVR, DCR, enable bit and chain bits as their entries demand |
| Matchpoints.RemoveKeepsWatching | rtl/minisoc/adv_debug_sys/Software/adv_jtag_bridge/rsp-server.c:2725-2759 | so does a removal |
| Matchpoints.LeakIffGrantedTwice | rtl/minisoc/adv_debug_sys/Software/adv_jtag_bridge/rsp-server.c:2822-2850 | a finding: the watchpoints in use are those in use at the start and those of live entries if and only if no packet of the run inserted a hardware matchpoint that was there and was granted a second watchpoint |
| Matchpoints.DuplicateInsertLeaks | rtl/minisoc/adv_debug_sys/Software/adv_jtag_bridge/rsp-server.c:2822-2850 | the smallest run that loses one: after two insertions of the same hardware matchpoint watchpoint 1 is in use without an entry, and after its removal it still is, with an empty table |
| Matchpoints.OnePacketLosesNone | rtl/minisoc/adv_debug_sys/Software/adv_jtag_bridge/rsp-server.c:2822-2850 | no run of fewer than two packets loses one |
| Watchpoints.CodeMatchesIff | rtl/minisoc/adv_debug_sys/Software/adv_jtag_bridge/spr-defs.h:382-404 | with the address in its value register, the control code of each kind matches fetches, stores, loads, or loads and stores of that address, and nothing else |
| Watchpoints.EntryStopsIff | rtl/minisoc/adv_debug_sys/Software/adv_jtag_bridge/rsp-server.c:2822-2947 | the watchpoint of a live entry stops the CPU on an access if and only if the entry asks for it, whatever the watchpoints before it in the chain do |
| Watchpoints.EnabledIff | rtl/minisoc/adv_debug_sys/Software/adv_jtag_bridge/rsp-server.c:2725-2759 | after every run from a start at which the free watchpoints are switched off, one of these is enabled if and only if an entry holds it or it has been lost, and is otherwise switched off; one that was in use keeps all its registers |
| Watchpoints.StopsAsAskedIff | rtl/minisoc/adv_debug_sys/Software/adv_jtag_bridge/rsp-server.c:2679-2955 | after every run in which no insertion is granted twice, the server's watchpoints stop the CPU on exactly the accesses that some live entry asks for |
| Watchpoints.LeakKeepsStopping | rtl/minisoc/adv_debug_sys/Software/adv_jtag_bridge/rsp-server.c:2822-2850 | a finding: after two insertions and a removal the lost watchpoint still stops the CPU on just those accesses |
| Watchpoints.OtherBitsKept | rtl/minisoc/adv_debug_sys/Software/adv_jtag_bridge/rsp-server.c:2736-2850 | no run changes a bit of DMR1 or DMR2 that belongs to no watchpoint |
| Watchpoints.EntryIff | rtl/minisoc/adv_debug_sys/Software/adv_jtag_bridge/rsp-server.c:2679-2955 | after every run the table holds exactly the matchpoints that a packet has set, a hardware one while a watchpoint was free, and that no later packet has removed |
| Matchpoints.RspServer.constructor | rtl/minisoc/adv_debug_sys/Software/adv_jtag_bridge/hwp_server.c:115-142 | at the start the table is empty and exactly the watchpoints without the present bit are marked in use |
| Matchpoints.RspServer.GetAvailableWatchpoint | rtl/minisoc/adv_debug_sys/Software/adv_jtag_bridge/hwp_server.c:1020-1038 | grants and marks the first watchpoint not in use, or returns -1 |
| Matchpoints.RspServer.ReturnWatchpoint | rtl/minisoc/adv_debug_sys/Software/adv_jtag_bridge/hwp_server.c:1043-1059 | clears the mark of that watchpoint only |
| Matchpoints.RspServer.InsertMatchpoint | rtl/minisoc/adv_debug_sys/Software/adv_jtag_bridge/rsp-server.c:2782-2955 | the whole effect of a Z packet on table, memory, grants and registers, and its reply |
| Matchpoints.RspServer.RemoveMatchpoint | rtl/minisoc/adv_debug_sys/Software/adv_jtag_bridge/rsp-server.c:2679-2769 | the whole effect of a z packet, and its reply |
| JtagChain.WriteReachesTarget | rtl/minisoc/adv_debug_sys/Software/adv_jtag_bridge/chain_commands.c:276-295 | for any numbers of BYPASS bits and any register length, a write stream with TMS leaves the written bits, and only them, at the top of the target register |
| JtagChain.AdjustedReadIsCaptured | rtl/minisoc/adv_debug_sys/Software/adv_jtag_bridge/chain_commands.c:300-330 | an adjusted read returns exactly the captured bits; an unadjusted one does, whatever was captured, only without postfix bits |
| JtagChain.Probe.CableStream | rtl/minisoc/adv_debug_sys/Software/adv_jtag_bridge/chain_commands.c:263-272 | the bit loops shift the whole stream, the last bit with TMS, and return what came out meanwhile |
| JtagChain.Probe.WriteStream | rtl/minisoc/adv_debug_sys/Software/adv_jtag_bridge/chain_commands.c:276-295 | state of chain and TAP after the stream |
| JtagChain.Probe.ReadWriteStream | rtl/minisoc/adv_debug_sys/Software/adv_jtag_bridge/chain_commands.c:300-330 | the same with the bits read |
| JtagChain.Probe.SetShiftDr | rtl/minisoc/adv_debug_sys/Software/adv_jtag_bridge/chain_commands.c:233-242 | from Run-Test/Idle to Shift-DR with the captured values in place |
| JtagChain.Probe.ExitToIdle | rtl/minisoc/adv_debug_sys/Software/adv_jtag_bridge/chain_commands.c:246-254 | through Update-DR, which latches the target, back to Run-Test/Idle |
| EnumerateChain.EnumerateChain | rtl/minisoc/adv_debug_sys/Software/adv_jtag_bridge/chain_commands.c:343-428 | for every chain of BYPASS and IDCODE devices the array holds the codes of the devices found, in order, never written outside its bounds, and the TAP is back in Run-Test/Idle |
| EnumerateChain.FoundAllIff | rtl/minisoc/adv_debug_sys/Software/adv_jtag_bridge/chain_commands.c:372-414 | all devices are found if and only if there are at most 1024 and none has the manufacturer field that marks the end |
| EnumerateChain.CodeIdentifies | rtl/minisoc/adv_debug_sys/Software/adv_jtag_bridge/chain_commands.c:385-406 | codes tell devices apart except that an IDCODE of all ones reads as BYPASS |
| EnumerateChain.CodeIsSerialized | rtl/minisoc/adv_debug_sys/Software/adv_jtag_bridge/chain_commands.c:385-406 | the code stored for a device with an IDCODE is the number its 32 bits shifted out make |
| EnumerateChain.ReadsAs | rtl/minisoc/adv_debug_sys/Software/adv_jtag_bridge/chain_commands.c:372-409 | what start bit, manufacturer field and remaining field read as, for each kind of device and for the marker coming back |
| EnumerateChain.ReadDevice | rtl/minisoc/adv_debug_sys/Software/adv_jtag_bridge/chain_commands.c:372-409 | one turn of the loop recognises the next device or the end |
| AdvDebug.ModuleCommandSelects | rtl/minisoc/adv_debug_sys/Software/adv_jtag_bridge/adv_dbg_commands.c:82-112 | the three bits sent select that module in the hardware, whatever is below them in its register |
| AdvDebug.RegisterCommandSelects | rtl/minisoc/adv_debug_sys/Software/adv_jtag_bridge/adv_dbg_commands.c:119-175 | for an index of one bit the six bits sent select that register of the selected module |
| AdvDebug.RegisterCommandCarries | rtl/minisoc/adv_debug_sys/Software/adv_jtag_bridge/adv_dbg_commands.c:154-160 | for every index: its low bit is the register bit, the four above it are or'ed into the opcode, the sixth makes it a module selection, the rest is not sent |
| AdvDebug.OpcodeSurvivesIff | rtl/minisoc/adv_debug_sys/Software/adv_jtag_bridge/adv_dbg_commands.c:154-160 | the opcode arrives intact if and only if no bit of the index falls on a zero of it: bits 2 and 5 clear, and for a write bit 3 too |
| AdvDebug.RegisterCommandDecodes | rtl/minisoc/adv_debug_sys/Hardware/adv_dbg_if/rtl/verilog/adbg_top.v:241-256 | then the hardware selects register index modulo 2; otherwise it sees a module selection or another opcode |
| AdvDebug.BurstCarries | rtl/minisoc/adv_debug_sys/Software/adv_jtag_bridge/adv_dbg_commands.c:305-325 | for every length the count read is the length modulo 2^16, and the address read is the address or'ed with bits 16 to 31 of the length |
| AdvDebug.BurstDecodesIff | rtl/minisoc/adv_debug_sys/Software/adv_jtag_bridge/adv_dbg_commands.c:305-325 | the 53-bit burst command decodes back to opcode, address and length if and only if the length is below 2^16 |
| AdvDebug.SelectModuleWorks | rtl/minisoc/adv_debug_sys/Software/adv_jtag_bridge/adv_dbg_commands.c:82-112 | after a module selection, skipped or not, the hardware has that module selected |
| AdvDebug.SelectRegisterWorks | rtl/minisoc/adv_debug_sys/Software/adv_jtag_bridge/adv_dbg_commands.c:119-237 | likewise for register selection and register writes |
| AdvDebug.SkippedWasRedundant | rtl/minisoc/adv_debug_sys/Software/adv_jtag_bridge/adv_dbg_commands.c:87-133 | a transaction the cache skips would have left the hardware as it is |
| AdvDebug.CacheIsCoherent | rtl/minisoc/adv_debug_sys/Software/adv_jtag_bridge/adv_dbg_commands.c:82-332 | over every run of selects, control reads and writes, bursts, IR loads and resets, a cached index that is not -1 is the one selected in the hardware |
| AdvDebug.RunSelects | rtl/minisoc/adv_debug_sys/Software/adv_jtag_bridge/adv_dbg_commands.c:82-332 | after every such run the next operation leaves the hardware with the module it needs selected, and a register operation with the register |
| AdvDebug.RegisterIndexMustFit | rtl/minisoc/adv_debug_sys/Software/adv_jtag_bridge/adv_dbg_commands.c:154-169 | register operations keep cache and hardware in agreement if and only if the index is below 2; for the others the cache records an index that no register has |
| AdvDebug.SelectionNeedsTheUnit | rtl/minisoc/adv_debug_sys/Software/adv_jtag_bridge/adv_dbg_commands.c:87-106 | a module selection keeps it coherent if and only if the instruction register selects the debug unit or the module was selected anyway |
| AdvDebug.FiveOnesReset | rtl/minisoc/adv_debug_sys/Hardware/jtag/tap/rtl/verilog/tap_top.v:219-304 | in the state diagram of clause 6.1 of IEEE Std 1149.1, TMS high for five or more clocks resets the controller from any state |
| AdvDebug.Host.Transact | rtl/minisoc/adv_debug_sys/Software/adv_jtag_bridge/chain_commands.c:233-295 | one transaction fills the debug unit's register from its top with the bits sent, data and command, and the unit acts on what is there |
| AdvDebug.Host.SelectModule | rtl/minisoc/adv_debug_sys/Software/adv_jtag_bridge/adv_dbg_commands.c:82-112 | effect on cache, chain and hardware |
| AdvDebug.Host.SelectCtrlReg | rtl/minisoc/adv_debug_sys/Software/adv_jtag_bridge/adv_dbg_commands.c:119-175 | the same, with the error for a module without registers |
| AdvDebug.WriteLoads | rtl/minisoc/adv_debug_sys/Hardware/adv_dbg_if/rtl/verilog/adbg_or1k_module.v:254-265 | a data register that ends in data and write command loads stall and reset of the selected CPU from the last two bits of the data, or clears the bus error if the last bit is set, and at index 1 nothing |
| AdvDebug.LoadedIsRead | rtl/minisoc/adv_debug_sys/Hardware/adv_dbg_if/rtl/verilog/adbg_or1k_status_reg.v:150-190 | the two bits written to a control register are the two that are shifted out of it |
| AdvDebug.OthersAreKept | rtl/minisoc/adv_debug_sys/Hardware/adv_dbg_if/rtl/verilog/adbg_top.v:241-256 | a register write changes no other module, and at index 1 nothing |
| AdvDebug.ClearedIsRead | rtl/minisoc/adv_debug_sys/Hardware/adv_dbg_if/rtl/verilog/adbg_wb_module.v:299-316 | a one written to the error register clears its bit 0 and keeps the address |
| AdvDebug.Host.CtrlWriteReg | rtl/minisoc/adv_debug_sys/Software/adv_jtag_bridge/adv_dbg_commands.c:187-237 | the same for a write: data and command arrive in the unit's register, and with a coherent cache the module desired has loaded the data |
| AdvDebug.Host.ReadSelected | rtl/minisoc/adv_debug_sys/Software/adv_jtag_bridge/adv_dbg_commands.c:278-288 | returns the low bits of the register selected, past any postfix devices, while the NOP it pushes changes no selection |
| AdvDebug.Host.CtrlReadReg | rtl/minisoc/adv_debug_sys/Software/adv_jtag_bridge/adv_dbg_commands.c:243-296 | with a coherent cache, the data returned is the content of the register of the module desired, whether or not the selection was skipped |
| AdvDebug.Host.WriteCpuCtrl | rtl/minisoc/adv_debug_sys/Software/adv_jtag_bridge/dbg_api.c:470-499 | from any coherent state the CPU's stall and reset bits are the low two bits of the argument afterwards, and nothing else in the unit changes |
| AdvDebug.Host.ReadCpuCtrl | rtl/minisoc/adv_debug_sys/Software/adv_jtag_bridge/dbg_api.c:504-531 | returns the two bits as a number and changes none |
| AdvDebug.Host.BurstCommandOut | rtl/minisoc/adv_debug_sys/Software/adv_jtag_bridge/adv_dbg_commands.c:305-332 | the 53 bits reach the unit and change no selection but the module asked for |
| JtagChain.Probe.IrStream | rtl/minisoc/adv_debug_sys/Software/adv_jtag_bridge/chain_commands.c:218-222 | the bits shifted in are what the instruction registers hold, in order |
| AdvDebug.Host.SetIr | rtl/minisoc/adv_debug_sys/Software/adv_jtag_bridge/chain_commands.c:181-229 | the target gets the instruction, every other device all ones, which is BYPASS; the debug unit is selected if and only if it is the debug instruction, and the module is forgotten |
| AdvDebug.Host.TapReset | rtl/minisoc/adv_debug_sys/Software/adv_jtag_bridge/chain_commands.c:122-144 | from any controller state to Run-Test/Idle, forgetting everything |
| MonitorProtocol.StepKeeps | rtl/minisoc/adv_debug_sys/Software/adv_jtag_bridge/hardware_monitor.c:115-327 | the protocol invariant survives every step of monitor, servers and CPU |
| MonitorProtocol.ProtocolIsSafe | rtl/minisoc/adv_debug_sys/Software/adv_jtag_bridge/hardware_monitor.c:172-289 | in every interleaving: a CPU believed stopped is stalled; every listener told anything was last told the current state; an RSP server with both pipes drained agrees with the monitor; at most five connections |
| MonitorProtocol.WithoutKeepsOthers | rtl/minisoc/adv_debug_sys/Software/adv_jtag_bridge/hardware_monitor.c:126-149 | swap-on-unregister removes one connection and keeps every other, contents included |
| MonitorProtocol.OnlyACommandRestarts | rtl/minisoc/adv_debug_sys/Software/adv_jtag_bridge/hardware_monitor.c:239-243 | a stopped target runs again if and only if the monitor reads a U |
| MonitorProtocol.DetachDoesNotResume | rtl/minisoc/adv_debug_sys/Software/adv_jtag_bridge/rsp-server.c:808-816 | a finding: after D the pipes are gone before the U is written, so the target resumes if and only if the monitor reads a U from a connection that is left or a later one; with no other listener and no new client it stays stalled |
| MonitorProtocol.StalledIff | rtl/minisoc/adv_debug_sys/Software/adv_jtag_bridge/hardware_monitor.c:172-289 | every run ends with the CPU stalled if and only if a stop in it, by itself or by an S read, has not been followed by a U that the monitor read while it believed the CPU stopped |
| MonitorProtocol.LastCommandDecides | rtl/minisoc/adv_debug_sys/Software/adv_jtag_bridge/hardware_monitor.c:230-248 | if the CPU does not stop by itself, the last command read decides |
| MonitorProtocol.ReadInOrder | rtl/minisoc/adv_debug_sys/Software/adv_jtag_bridge/hardware_monitor.c:224-254 | while a client is closed and nobody else sends, what the monitor reads is, in order, the beginning of what the RSP server had queued and sends |
| MonitorProtocol.CloseKeepsRunningIff | rtl/minisoc/adv_debug_sys/Software/adv_jtag_bridge/rsp-server.c:962-987 | a finding: over every interleaving in which a client is closed while the target runs, nobody else sends and the CPU does not stop by itself, the target is left stalled if and only if the monitor read the S and not the U |
| MonitorProtocol.CloseCanStall | rtl/minisoc/adv_debug_sys/Software/adv_jtag_bridge/rsp-server.c:962-987 | such a run, in which just the S is read, exists from every running state of a lone client with nothing under way |
| MonitorProtocol.ClientCanRun | rtl/minisoc/adv_debug_sys/Software/adv_jtag_bridge/rsp-server.c:940-987 | and such a state is reachable from the start |
| MonitorProtocol.PassKeeps | rtl/minisoc/adv_debug_sys/Software/adv_jtag_bridge/hardware_monitor.c:224-254 | a whole pass over the ready connections keeps the invariant |
| MonitorProtocol.PassServes | rtl/minisoc/adv_debug_sys/Software/adv_jtag_bridge/hardware_monitor.c:224-254 | a pass takes exactly the first command of each ready connection, and the last of them decides whether the target is believed to run |
| MonitorProtocol.Monitor.Register | rtl/minisoc/adv_debug_sys/Software/adv_jtag_bridge/hardware_monitor.c:82-113 | appends the new connection unless there are five |
| MonitorProtocol.Monitor.Unregister | rtl/minisoc/adv_debug_sys/Software/adv_jtag_bridge/hardware_monitor.c:115-158 | removes the first connection with these pipes, if there is one |
| MonitorProtocol.Monitor.NotifyListeners | rtl/minisoc/adv_debug_sys/Software/adv_jtag_bridge/hardware_monitor.c:312-327 | every connection, and only those, is written the event |
| MonitorProtocol.Monitor.Stall | rtl/minisoc/adv_debug_sys/Software/adv_jtag_bridge/hardware_monitor.c:296-309 | the CPU bit and the monitor's belief change together |
| MonitorProtocol.Monitor.HandleReady | rtl/minisoc/adv_debug_sys/Software/adv_jtag_bridge/hardware_monitor.c:220-259 | one pass is the sequence of steps for the ready connections, in order |
| MonitorProtocol.Monitor.HandleCommand | rtl/minisoc/adv_debug_sys/Software/adv_jtag_bridge/hardware_monitor.c:230-248 | one command read is one step, and no other connection loses a command |
| MonitorProtocol.Monitor.Poll | rtl/minisoc/adv_debug_sys/Software/adv_jtag_bridge/hardware_monitor.c:264-281 | a poll is the step that sees a stall followed by the one that announces it |
| RspFraming.UnescapeEscape | rtl/minisoc/adv_debug_sys/Software/adv_jtag_bridge/rsp-server.c:1020-1034 | unescaping undoes escaping for every byte string, whatever follows it in the buffer |
| RspFraming.FlipIsXor | rtl/minisoc/adv_debug_sys/Software/adv_jtag_bridge/rsp-server.c:1023-1028 | the escaped byte is the byte with bit 5 inverted |
| RspFraming.HexDigits | rtl/minisoc/adv_debug_sys/Software/adv_jtag_bridge/rsp-server.c:1038-1040 | the two characters sent for a checksum are read back as it |
| RspFraming.PacketArrivesIff | rtl/minisoc/adv_debug_sys/Software/adv_jtag_bridge/rsp-server.c:1098-1214 | after any noise without $ or 0x03, a sent packet is accepted with + and unescapes to the original if and only if its escaped form is at most GDB_BUF_MAX - 2 long |
| RspFraming.LongPacketIsLost | rtl/minisoc/adv_debug_sys/Software/adv_jtag_bridge/rsp-server.c:1134-1209 | a longer one is dropped and what did not fit is read as if between packets |
| RspFraming.LongPacketBreaksIff | rtl/minisoc/adv_debug_sys/Software/adv_jtag_bridge/rsp-server.c:1109-1124 | a finding: then a break is received, before anything that follows, if and only if there is a 0x03 in what did not fit; otherwise it is as if nothing had been sent |
| RspFraming.BreaksSent | rtl/minisoc/adv_debug_sys/Software/adv_jtag_bridge/rsp-server.c:1020-1034 | a 0x03 is sent exactly for data with a 0x03 or a #, whose escape is 0x7d 0x03 |
| RspFraming.BreakNeedsLength | rtl/minisoc/adv_debug_sys/Software/adv_jtag_bridge/rsp-server.c:1109-1169 | a lost packet that breaks has at least GDB_BUF_MAX bytes in its escaped form |
| RspFraming.LongPacketCanBreak | rtl/minisoc/adv_debug_sys/Software/adv_jtag_bridge/rsp-server.c:1109-1124 | and one with just as many breaks: GDB_BUF_MAX - 2 plain bytes and a # |
| RspFraming.AdvertisedSizeFits | rtl/minisoc/adv_debug_sys/Software/adv_jtag_bridge/rsp-server.c:2235-2247 | a packet that with frame and checksum keeps to the advertised PacketSize is accepted |
| RspFraming.RetransmissionRecovers | rtl/minisoc/adv_debug_sys/Software/adv_jtag_bridge/rsp-server.c:1191-1204 | a frame with a wrong checksum draws -, and the repetition is accepted |
| RspFraming.Client.PutFrame | rtl/minisoc/adv_debug_sys/Software/adv_jtag_bridge/rsp-server.c:1009-1040 | the loop emits the escaped body and the checksum of what it emitted |
| RspFraming.AcceptedAfter | rtl/minisoc/adv_debug_sys/Software/adv_jtag_bridge/rsp-server.c:1042-1050 | every character before the first + draws the frame once more, the + none, and what is behind it is left unread |
| RspFraming.NeverAccepted | rtl/minisoc/adv_debug_sys/Software/adv_jtag_bridge/rsp-server.c:1042-1050 | without a + there is one frame more than characters |
| RspFraming.Client.PutPacket | rtl/minisoc/adv_debug_sys/Software/adv_jtag_bridge/rsp-server.c:1000-1051 | one frame for each acknowledgement up to the first + or the end of the connection |
| RspFraming.Client.GetPacket | rtl/minisoc/adv_debug_sys/Software/adv_jtag_bridge/rsp-server.c:1098-1214 | for every input, the packet, the acknowledgements and the input left over |
| RspFraming.Client.ReadInto | rtl/minisoc/adv_debug_sys/Software/adv_jtag_bridge/rsp-server.c:1131-1169 | fills the buffer within bounds and keeps the checksum of what it stored |
| RspFraming.UnescapeInPlace | rtl/minisoc/adv_debug_sys/Software/adv_jtag_bridge/rsp-server.c:1325-1351 | in place, the write offset never passing the read offset, and nothing behind the result touched |
| Crc32.TapsArePolynomials | rtl/minisoc/adv_debug_sys/Software/adv_jtag_bridge/legacy_dbg_commands.c:42-58 | the taps are the bits of 0x04c11db7 and 0xedb88320, which are mirror images, and the 28-bit mask loses none |
| Crc32.NextIsFourSerial | rtl/ethernet/eth_crc.v:96-127 | one enabled nibble step is four serial steps on Data[3..0]; a disabled one shifts by four |
| Crc32.NextRunIsSerialRun | rtl/ethernet/eth_crc.v:96-139 | over any nibbles the Ethernet form is the legacy form over their bits, bit 3 first |
| Crc32.ReflectedRunIsMirrored | rtl/minisoc/adv_debug_sys/Software/adv_jtag_bridge/adv_dbg_commands.c:61-75 | for every bit sequence the reflected form is the bit reversal of the legacy form from the reversed state |
| Crc32.WiredIsReflected | rtl/minisoc/adv_debug_sys/Hardware/adv_dbg_if/rtl/verilog/adbg_crc32.v:71-102 | the debug unit's CRC wiring takes the same step as the host's function |
| Crc32.WordsAreBytes | rtl/minisoc/adv_debug_sys/Software/adv_jtag_bridge/adv_dbg_commands.c:458-461 | for every word sequence, word at a time equals byte at a time in little-endian order |
| Crc32.RunIsShifts | rtl/ethernet/eth_crc.v:96-127 | up to 32 input bits act as if they had been added to the state beforehand |
| Crc32.ResidueIff | rtl/ethernet/eth_crc.v:141-141 | from any state 32 bits lead to 0xc704dd7b if and only if they are its complement, top bit first |
| Crc32.FcsAcceptedIff | rtl/ethernet/eth_crc.v:96-141 | clause 3.2.9 of IEEE Std 802.3: after every message, eight further nibbles clear CrcError if and only if they are the complemented CRC, top nibble first |
| Crc32.OnesLeadToMagic | rtl/ethernet/eth_crc.v:141-141 | the magic number is what eight zero nibbles make of the all-ones state |
| Crc32.ComputeCrc | rtl/minisoc/adv_debug_sys/Software/adv_jtag_bridge/adv_dbg_commands.c:61-75 | the loop is the reflected form over the low bits of the data, lowest first |
| Crc32.ReverseAndSum | rtl/minisoc/adv_debug_sys/Software/adv_jtag_bridge/legacy_dbg_commands.c:61-104 | the word that goes out is the bit reversal, and the CRC is taken over the bits in the order they are sent |
| Crc32.EthCrc.Clock | rtl/ethernet/eth_crc.v:130-139 | reset and initialize load all ones, any other clock steps |

## Left out

- Two facts are hypotheses: that x^97 + x^12 + 2 is irreducible (field division, curve, scalar multiplication; inversion
  itself assumes only that A is coprime to p) and that the curve's addition is associative (scalar multiplication only).
- Power-up values are arbitrary legal register contents; X values, asynchronous reset races and clock domains are not
  modelled.
- Module instances inside `func10`, `func11`, `point_add`, `point_scalar_mult` and the AES core are held by their
  registers as values and stepped by the function their own class is proved against, not as objects.
- ScalarMult.Regs: the scalar register is a natural number, so the theorem covers every width.
- `f3m_mult3`, `f3m_nine`, and the multiplexers: they would add easy members.
- The bus wrapper of the AES core, its block-RAM S-boxes and the interrupt logic.
- Sockets, threads, select and poll, argument and BSDL parsing, cable drivers, allocation failure and transport errors;
  packets arrive parsed, and memory breakpoints lie on aligned words of existing memory.
- JtagChain.Probe.CableStream: streams are sequences of bits; the packing into 32-bit words, where the C code shifts by
  the stream length instead of the bit position for the last bit, is not modelled.
- AdvDebug.Host.SetIr: the instruction lies among the BYPASS ones as a sequence of bits; the packing into 32-bit words,
  where an instruction that reaches the end of its word makes the C code shift by 32 or more, is not modelled.
- AdvDebug.Host.CtrlReadReg: bus errors and breakpoints may set bits of the debug unit's registers at any time
  (`AdvDebug.Host.RegistersChange`); when they do is not modelled, nor is the path of another length that an instruction
  other than the debug one selects.
- Watchpoints.Matches: the debug registers mean what `spr-defs.h` says, for the comparison with an address for equality,
  the only one the server uses. The CPU of the repository is built without hardware breakpoints
  (`or1200_defines.v:934`); its own comparators are not part of this model.
- F3mMult.Func8IsSum: one fixed order of addition stands for the netlist's, which varies from digit to digit; on legal
  codes the sums are the same, on illegal ones the netlist's digits may differ.
- AdvDebug.SelectModuleWorks: the debug unit's inhibit signals during bursts and the burst data phase with its retries
  are not modelled.
- MonitorProtocol.ProtocolIsSafe: a file descriptor reused between select() and the read is not modelled; nor is a
  failed registration, which the RSP server does not notice because it tests for a negative result.
- Matchpoints.Run: writes to target memory by GDB and to debug registers by watchpoint clients between the packets are
  not modelled.
- RspFraming.Client.GetPacket: characters beyond the end of the connection do not arrive; a partial read that blocks is
  not modelled.
- Crc32.Serial: the 64-bit intermediate of `legacy_crc_calc` is kept to the 32 bits that its callers store.
- The JSP server, the serial and Ethernet datapaths around the CRC, the Java watchpoint client and the self-test.
