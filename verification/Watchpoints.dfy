/** What the CPU's debug unit makes of the registers the server programs: which accesses stop it. */
module Watchpoints {
  import opened MatchpointTable
  import opened Matchpoints

  // ---- the debug unit ----------------------------------------------------------------

  /** What the CPU does with an address. */
  datatype Access = Fetch(ea: Word) | Load(ea: Word) | Store(ea: Word)

  /** The fields of a debug control register: bit 0, bits 1 to 3, and bits 5 to 7. */
  predicate Present(dcr: Word) { dcr % 2 == 1 }
  function Condition(dcr: Word): nat { dcr / 2 % 8 }
  function CompareTo(dcr: Word): nat { dcr / 32 % 8 }

  const EQUAL: nat := 1

  /** Whether the address of this access is looked at: of fetches, loads, stores, or both of these. */
  predicate Compared(compareTo: nat, a: Access) {
    match compareTo
    case 1 => a.Fetch?
    case 2 => a.Load?
    case 3 => a.Store?
    case 6 => a.Load? || a.Store?
    case _ => false
  }

  /** A value and control register pair that compares for equality matches an access. */
  predicate Matches(dvr: Word, dcr: Word, a: Access) {
    Present(dcr) && Condition(dcr) == EQUAL && Compared(CompareTo(dcr), a) && a.ea == dvr
  }

  /** Watchpoint w: its match, combined with the watchpoint before it as its chain bits say. */
  predicate Fires(s: Debug, w: nat, a: Access)
    requires w < HWP_MAX_WP
  {
    var m, and, or := Matches(s.dvr[w], s.dcr[w], a), s.dmr1[2 * w], s.dmr1[2 * w + 1];
    if and && or then false
    else if w == 0 || (!and && !or) then m
    else if and then m && Fires(s, w - 1, a)
    else m || Fires(s, w - 1, a)
  }

  /** The watchpoint generates a breakpoint. */
  predicate Stops(s: Debug, w: nat, a: Access)
    requires w < HWP_MAX_WP
  {
    s.dmr2[12 + w] && Fires(s, w, a)
  }

  // ---- what GDB asks for -------------------------------------------------------------

  /** Hardware breakpoints are for fetches, write, read and access watchpoints for stores, loads and
      either, of exactly the address given. */
  predicate Wanted(k: Key, a: Access)
    requires Hardware(k)
  {
    a.ea == k.addr &&
      match k.kind
      case 1 => a.Fetch?
      case 2 => a.Store?
      case 3 => a.Load?
      case _ => a.Load? || a.Store?
  }

  lemma CodeMatchesIff(k: Key, a: Access)
    requires Hardware(k)
    ensures Matches(k.addr, DcrCode(k), a) <==> Wanted(k, a)
  {
    var c := DcrCode(k);
    assert Present(c) && Condition(c) == EQUAL;
    assert CompareTo(c) == match k.kind case 1 => 1 case 2 => 3 case 3 => 2 case _ => 6;
  }

  /** A live entry's watchpoint stops the CPU on the accesses asked for and on no others. */
  lemma EntryStopsIff(s: Debug, k: Key, a: Access)
    requires Watching(s) && k in s.table && Hardware(k)
    ensures s.table[k] < HWP_MAX_WP && (Stops(s, s.table[k], a) <==> Wanted(k, a))
  {
    hide Matches, Wanted, DcrCode;
    assert Watches(s, k, s.table[k]);
    CodeMatchesIff(k, a);
  }

  // ---- over whole runs ---------------------------------------------------------------

  /** Not enabled and comparing with nothing, but still there for a client to find. */
  predicate Idle(s: Debug, w: nat)
    requires w < HWP_MAX_WP
  {
    !s.dmr2[12 + w] && Present(s.dcr[w]) && CompareTo(s.dcr[w]) == 0
  }

  lemma IdleNeverStops(s: Debug, w: nat, a: Access)
    requires w < HWP_MAX_WP && Idle(s, w)
    ensures !Stops(s, w, a) && !Matches(s.dvr[w], s.dcr[w], a)
  {
  }

  /** At the start the watchpoints that can be granted are switched off. */
  predicate Clean(s0: Debug) {
    Start(s0) && forall w :: 0 <= w < HWP_MAX_WP && !s0.inUse[w] ==> Idle(s0, w)
  }

  /** Of the watchpoints not in use at the start, the live and the leaked ones are enabled and the
      others off; those in use at the start have the registers they had. */
  predicate Settled(s0: Debug, s: Debug, leaked: set<nat>) {
    forall w :: 0 <= w < HWP_MAX_WP ==>
      if s0.inUse[w] then Untouched(s0, s, w)
      else if Live(s, w) || w in leaked then s.dmr2[12 + w]
      else Idle(s, w)
  }

  predicate Untouched(s0: Debug, s: Debug, w: nat)
    requires w < HWP_MAX_WP
  {
    && s.dvr[w] == s0.dvr[w] && s.dcr[w] == s0.dcr[w] && s.dmr2[12 + w] == s0.dmr2[12 + w]
    && s.dmr1[2 * w] == s0.dmr1[2 * w] && s.dmr1[2 * w + 1] == s0.dmr1[2 * w + 1]
  }

  /** The registers of one watchpoint after a packet. */
  lemma StepRegisters(s: Debug, p: Packet, w: nat)
    requires Watching(s) && InRange(s.table) && Addressable(|s.mem|, p.key) && w < HWP_MAX_WP
    ensures var t, k := Step(s, p), p.key;
            if p.Insert? && Hardware(k) && w == FirstFree(s.inUse) then t.dmr2[12 + w]
            else if p.Remove? && Hardware(k) && k in s.table && w == s.table[k] then Idle(t, w) && t.dcr[w] == 0x01
            else Untouched(s, t, w)
  {
    hide DcrCode, FirstFree;
  }

  lemma StepSettles(s0: Debug, s: Debug, p: Packet, leaked: set<nat>)
    requires Watching(s) && InRange(s.table) && Addressable(|s.mem|, p.key)
    requires Accounted(s0, s, leaked) && Settled(s0, s, leaked)
    ensures Settled(s0, Step(s, p), leaked + if GrantedTwice(s, p) then {FirstFree(s.inUse)} else {})
  {
    hide Watching, Live, Step, Idle;
    var t, k := Step(s, p), p.key;
    var more := leaked + if GrantedTwice(s, p) then {FirstFree(s.inUse)} else {};
    if p.Remove? && Hardware(k) && k in s.table {
      LiveEntry(s, k);
    }
    forall w | 0 <= w < HWP_MAX_WP
      ensures if s0.inUse[w] then Untouched(s0, t, w)
              else if Live(t, w) || w in more then t.dmr2[12 + w]
              else Idle(t, w)
    {
      StepRegisters(s, p, w);
      LiveAfterStep(s, p, w);
      UntouchedIsIdle(s, t, w);
    }
  }

  lemma UntouchedIsIdle(s: Debug, t: Debug, w: nat)
    requires w < HWP_MAX_WP
    ensures Untouched(s, t, w) && Idle(s, w) ==> Idle(t, w)
  {
  }

  lemma {:induction false} RunSettles(s0: Debug, ps: seq<Packet>)
    requires Clean(s0) && Legal(|s0.mem|, ps)
    ensures Settled(s0, Run(s0, ps), Leaked(s0, ps))
    decreases |ps|
  {
    hide Step, Watching, GrantedTwice, Overlaid, Live, Idle;
    if ps == [] {
      NothingLive(s0);
    } else {
      hide Settled, Accounted;
      var n := |ps| - 1;
      RunSettles(s0, ps[..n]);
      var s := Run(s0, ps[..n]);
      assert Addressable(|s.mem|, ps[n].key) by {
        SameSize(s0.mem, s);
      }
      StepKeepsInvariant(s0.mem, s, ps[n]);
      RunAccounts(s0, ps[..n]);
      StepSettles(s0, s, ps[n], Leaked(s0, ps[..n]));
    }
  }

  lemma NothingLive(s: Debug)
    requires s.table == map[]
    ensures forall w :: !Live(s, w)
  {
  }

  /** After any run a watchpoint that was free at the start is enabled exactly while an entry holds it
      or it has been leaked, and otherwise it compares with nothing; a watchpoint that was in use
      keeps all its registers. */
  lemma EnabledIff(s0: Debug, ps: seq<Packet>, w: nat)
    requires Clean(s0) && Legal(|s0.mem|, ps) && w < HWP_MAX_WP
    ensures var s := Run(s0, ps);
            if s0.inUse[w] then Untouched(s0, s, w)
            else (s.dmr2[12 + w] <==> Live(s, w) || w in Leaked(s0, ps)) && (s.dmr2[12 + w] || Idle(s, w))
  {
    hide Run, Live, Leaked;
    RunSettles(s0, ps);
  }

  /** So, as long as no insertion is granted twice, the CPU is stopped by the server's watchpoints on
      just the accesses that some live entry asks for. */
  lemma StopsAsAskedIff(s0: Debug, ps: seq<Packet>, a: Access)
    requires Clean(s0) && Legal(|s0.mem|, ps) && NeverTwice(s0, ps)
    ensures var s := Run(s0, ps);
            (exists w :: 0 <= w < HWP_MAX_WP && !s0.inUse[w] && Stops(s, w, a))
            <==> (exists k :: k in s.table && Hardware(k) && Wanted(k, a))
  {
    hide Run, Leaked, Stops, Wanted, Watching;
    var s := Run(s0, ps);
    LeakedBounds(s0, ps);
    RunAccounts(s0, ps);
    if w :| 0 <= w < HWP_MAX_WP && !s0.inUse[w] && Stops(s, w, a) {
      EnabledIff(s0, ps, w);
      if !Live(s, w) {
        IdleNeverStops(s, w, a);
      }
      var k :| k in s.table && Hardware(k) && s.table[k] == w;
      EntryStopsIff(s, k, a);
    }
    if k :| k in s.table && Hardware(k) && Wanted(k, a) {
      EntryStopsIff(s, k, a);
      LiveEntry(s, k);
      assert !s0.inUse[s.table[k]];
    }
  }

  /** A leaked watchpoint goes on stopping the CPU: with the matchpoint set twice and removed, on just
      the accesses it was set for, although the table is empty. */
  lemma LeakKeepsStopping(s0: Debug, k: Key, a: Access)
    requires Start(s0) && Hardware(k) && s0.inUse == seq(HWP_MAX_WP, _ => false)
    ensures var ps := [Insert(k), Insert(k), Remove(k)];
            Legal(|s0.mem|, ps) && Run(s0, ps).table == map[] && (Stops(Run(s0, ps), 1, a) <==> Wanted(k, a))
  {
    hide *;
    DuplicateInsertLeaks(s0, k);
    SecondWatchpoint(s0, k, a);
    TwiceAndRemoved(s0, k);
  }

  lemma TwiceAndRemoved(s0: Debug, k: Key)
    requires Start(s0) && Hardware(k)
    ensures var ps := [Insert(k), Insert(k), Remove(k)];
            && Legal(|s0.mem|, ps) && InRange(s0.table) && InRange(Step(s0, Insert(k)).table)
            && var s2 := Step(Step(s0, Insert(k)), Insert(k));
               InRange(s2.table) && Run(s0, ps) == Step(s2, Remove(k))
  {
    hide Run, Step, InRange;
    var qs, ps := [Insert(k), Insert(k)], [Insert(k), Insert(k), Remove(k)];
    assert qs == [] + [Insert(k)] + [Insert(k)] && ps == qs + [Remove(k)];
    RunExtends(s0, [], Insert(k));
    RunExtends(s0, [] + [Insert(k)], Insert(k));
    RunExtends(s0, qs, Remove(k));
  }

  lemma SecondWatchpoint(s0: Debug, k: Key, a: Access)
    requires Start(s0) && Hardware(k) && s0.inUse == seq(HWP_MAX_WP, _ => false)
    ensures var s2 := Step(Step(s0, Insert(k)), Insert(k));
            InRange(s2.table) && (Stops(Step(s2, Remove(k)), 1, a) <==> Wanted(k, a))
  {
    hide Matches, DcrCode, Wanted;
    var s1 := Step(s0, Insert(k));
    assert s1.inUse[0] && !s1.inUse[1] && FirstFree(s1.inUse) == 1;
    var s2 := Step(s1, Insert(k));
    assert s2.table == map[k := 0];
    CodeMatchesIff(k, a);
  }

  /** The bits of the mode registers that belong to no watchpoint are never changed. */
  lemma {:induction false} OtherBitsKept(s0: Debug, ps: seq<Packet>, i: nat)
    requires Start(s0) && Legal(|s0.mem|, ps) && i < 32
    ensures i < 12 || i >= 20 ==> Run(s0, ps).dmr2[i] == s0.dmr2[i]
    ensures i >= 16 ==> Run(s0, ps).dmr1[i] == s0.dmr1[i]
    decreases |ps|
  {
    hide Watching, Overlaid, FirstFree, DcrCode;
    if ps != [] {
      var n := |ps| - 1;
      OtherBitsKept(s0, ps[..n], i);
      var s := Run(s0, ps[..n]);
      assert Addressable(|s.mem|, ps[n].key) by {
        SameSize(s0.mem, s);
      }
      StepKeepsInvariant(s0.mem, s, ps[n]);
    }
  }

  // ---- which entries there are -------------------------------------------------------

  /** Packet n of the run set k, and nothing has removed it since: an insertion of a hardware
      matchpoint succeeds while a watchpoint is free. */
  predicate Set(s0: Debug, ps: seq<Packet>, k: Key, n: nat)
    requires Start(s0) && Legal(|s0.mem|, ps)
  {
    && n < |ps| && ps[n] == Insert(k)
    && (k.kind == BP_MEMORY || (Hardware(k) && FirstFree(Run(s0, ps[..n]).inUse) < HWP_MAX_WP))
    && forall m :: n < m < |ps| ==> ps[m] != Remove(k)
  }

  lemma StepEntries(s: Debug, p: Packet, k: Key)
    requires InRange(s.table) && Addressable(|s.mem|, p.key)
    requires k in s.table ==> k.kind == BP_MEMORY || Hardware(k)
    ensures k in Step(s, p).table <==>
            (k in s.table && p != Remove(k))
            || (p == Insert(k) && (k.kind == BP_MEMORY || (Hardware(k) && FirstFree(s.inUse) < HWP_MAX_WP)))
  {
    hide FirstFree, DcrCode;
  }

  predicate WasSet(s0: Debug, ps: seq<Packet>, k: Key)
    requires Start(s0) && Legal(|s0.mem|, ps)
  {
    exists n: nat :: n < |ps| && Set(s0, ps, k, n)
  }

  /** The table holds, after any run, exactly the matchpoints set and not removed. */
  lemma {:induction false} EntryIff(s0: Debug, ps: seq<Packet>, k: Key)
    requires Start(s0) && Legal(|s0.mem|, ps)
    ensures k in Run(s0, ps).table <==> WasSet(s0, ps, k)
    ensures k in Run(s0, ps).table ==> k.kind == BP_MEMORY || Hardware(k)
    decreases |ps|
  {
    if ps != [] {
      hide Step, Watching, Overlaid, WasSet;
      var n := |ps| - 1;
      EntryIff(s0, ps[..n], k);
      var s := Run(s0, ps[..n]);
      assert Addressable(|s.mem|, ps[n].key) by {
        SameSize(s0.mem, s);
      }
      StepKeepsInvariant(s0.mem, s, ps[n]);
      StepEntries(s, ps[n], k);
      WasSetStep(s0, ps, k);
    }
  }

  lemma WasSetStep(s0: Debug, ps: seq<Packet>, k: Key)
    requires Start(s0) && Legal(|s0.mem|, ps) && ps != []
    ensures var n := |ps| - 1;
            var s := Run(s0, ps[..n]);
            WasSet(s0, ps, k) <==>
              ((WasSet(s0, ps[..n], k) && ps[n] != Remove(k))
               || (ps[n] == Insert(k)
                   && (k.kind == BP_MEMORY || (Hardware(k) && FirstFree(s.inUse) < HWP_MAX_WP))))
  {
    hide Run, Set, FirstFree;
    var n := |ps| - 1;
    var qs := ps[..n];
    SetLast(s0, ps, k);
    if WasSet(s0, ps, k) {
      var m: nat :| m < |ps| && Set(s0, ps, k, m);
      if m < n {
        SetEarlier(s0, ps, k, m);
      }
    }
    if WasSet(s0, qs, k) && ps[n] != Remove(k) {
      var m: nat :| m < |qs| && Set(s0, qs, k, m);
      SetEarlier(s0, ps, k, m);
    }
  }

  lemma SetEarlier(s0: Debug, ps: seq<Packet>, k: Key, m: nat)
    requires Start(s0) && Legal(|s0.mem|, ps) && m < |ps| - 1
    ensures Set(s0, ps, k, m) <==> Set(s0, ps[..|ps| - 1], k, m) && ps[|ps| - 1] != Remove(k)
  {
    hide Run, FirstFree;
    assert ps[..m] == ps[..|ps| - 1][..m];
  }

  lemma SetLast(s0: Debug, ps: seq<Packet>, k: Key)
    requires Start(s0) && Legal(|s0.mem|, ps) && ps != []
    ensures var n := |ps| - 1;
            Set(s0, ps, k, n) <==>
              (ps[n] == Insert(k)
               && (k.kind == BP_MEMORY || (Hardware(k) && FirstFree(Run(s0, ps[..n]).inUse) < HWP_MAX_WP)))
  {
    hide Run, FirstFree;
  }
}
