/** Software breakpoints and hardware watchpoints as GDB's 'Z' and 'z' packets set and clear them. */
module Matchpoints {
  import opened MatchpointTable

  const HWP_MAX_WP: nat := 8
  const TRAP: Word := 0x21000001

  const BP_MEMORY: nat := 0

  type Flags = f: seq<bool> | |f| == HWP_MAX_WP witness seq(HWP_MAX_WP, _ => false)
  type Registers = r: seq<Word> | |r| == HWP_MAX_WP witness seq(HWP_MAX_WP, _ => 0)
  /** A 32-bit register as its bits, bit 0 first. */
  type Register32 = b: seq<bool> | |b| == 32 witness seq(32, _ => false)

  /** The target's memory, the table, the watchpoint grants and the CPU's debug registers. */
  datatype Debug = Debug(mem: seq<Word>, table: map<Key, Word>, inUse: Flags,
                         dvr: Registers, dcr: Registers, dmr1: Register32, dmr2: Register32)

  datatype Reply = OK | Unsupported | E01

  datatype Packet = Insert(key: Key) | Remove(key: Key)

  predicate Hardware(k: Key) {
    1 <= k.kind <= 4
  }

  /** DCR value: condition "equal, unsigned", by what the type of matchpoint compares to. */
  function DcrCode(k: Key): Word
    requires Hardware(k)
  {
    match k.kind
    case 1 => 0x23  // instruction fetch address
    case 2 => 0x63  // store address
    case 3 => 0x43  // load address
    case _ => 0xC3  // load or store address
  }

  /** Memory breakpoints lie on words of the target's memory. */
  predicate Addressable(words: nat, k: Key) {
    k.kind == BP_MEMORY ==> k.addr % 4 == 0 && k.addr / 4 < words
  }

  /** Index of the first watchpoint not in use, or HWP_MAX_WP. */
  function FirstFree(f: seq<bool>): (w: nat)
    ensures w <= |f|
    ensures w < |f| ==> !f[w]
    ensures forall v :: 0 <= v < w ==> f[v]
  {
    if f == [] || !f[0] then 0 else
      assert forall v :: 1 <= v < |f| ==> f[v] == f[1..][v - 1];
      1 + FirstFree(f[1..])
  }

  function Programmed(s: Debug, k: Key, w: nat): Debug
    requires Hardware(k) && w < HWP_MAX_WP
  {
    s.(inUse := s.inUse[w := true],
       table := if k in s.table then s.table else s.table[k := w],
       dvr := s.dvr[w := k.addr],
       dcr := s.dcr[w := DcrCode(k)],
       dmr2 := s.dmr2[12 + w := true],
       dmr1 := s.dmr1[2 * w := false][2 * w + 1 := false])
  }

  function Inserted(s: Debug, k: Key): Debug
    requires Addressable(|s.mem|, k)
  {
    if k.kind == BP_MEMORY then
      s.(table := if k in s.table then s.table else s.table[k := s.mem[k.addr / 4]],
         mem := s.mem[k.addr / 4 := TRAP])
    else if Hardware(k) && FirstFree(s.inUse) < HWP_MAX_WP then
      Programmed(s, k, FirstFree(s.inUse))
    else s
  }

  function Released(s: Debug, w: nat): Debug
    requires w < HWP_MAX_WP
  {
    s.(inUse := s.inUse[w := false], dcr := s.dcr[w := 0x01], dmr2 := s.dmr2[12 + w := false])
  }

  /** Every hardware entry holds the number of one of the CPU's watchpoints. */
  predicate InRange(t: map<Key, Word>) {
    forall k :: k in t && Hardware(k) ==> t[k] < HWP_MAX_WP
  }

  function Removed(s: Debug, k: Key): Debug
    requires Addressable(|s.mem|, k) && InRange(s.table)
  {
    if k !in s.table || !(k.kind == BP_MEMORY || Hardware(k)) then s else
      var t := s.(table := s.table - {k});
      if k.kind == BP_MEMORY then t.(mem := s.mem[k.addr / 4 := s.table[k]])
      else Released(t, s.table[k])
  }

  function Step(s: Debug, p: Packet): Debug
    requires Addressable(|s.mem|, p.key) && InRange(s.table)
  {
    match p
    case Insert(k) => Inserted(s, k)
    case Remove(k) => Removed(s, k)
  }

  // ---- what holds between packets ----------------------------------------------------

  function WordKey(i: nat): Key
    requires 4 * i < 0x1_0000_0000
  {
    Key(BP_MEMORY, 4 * i)
  }

  /** Word i holds TRAP exactly where a memory breakpoint is, and the original elsewhere. */
  predicate Overlaid(orig: seq<Word>, s: Debug) {
    && |s.mem| == |orig| <= 0x4000_0000
    && (forall i :: 0 <= i < |orig| ==>
          s.mem[i] == if WordKey(i) in s.table then TRAP else orig[i])
    && (forall i :: 0 <= i < |orig| && WordKey(i) in s.table ==> s.table[WordKey(i)] == orig[i])
  }

  /** Watchpoint w does for the CPU what entry k asks for. */
  predicate Watches(s: Debug, k: Key, w: nat)
    requires Hardware(k)
  {
    && w < HWP_MAX_WP && s.inUse[w]
    && s.dvr[w] == k.addr && s.dcr[w] == DcrCode(k)
    && s.dmr2[12 + w] && !s.dmr1[2 * w] && !s.dmr1[2 * w + 1]
  }

  predicate Watching(s: Debug) {
    && (forall k :: k in s.table && Hardware(k) ==> Watches(s, k, s.table[k]))
    && (forall j, k :: j in s.table && k in s.table && Hardware(j) && Hardware(k) && j != k ==>
          s.table[j] != s.table[k])
  }

  predicate Invariant(orig: seq<Word>, s: Debug) {
    Overlaid(orig, s) && Watching(s)
  }

  lemma KeyOfWord(k: Key)
    requires k.kind == BP_MEMORY && k.addr % 4 == 0
    ensures k == WordKey(k.addr / 4)
  {
  }

  lemma InsertKeepsOverlay(orig: seq<Word>, s: Debug, k: Key)
    requires Overlaid(orig, s) && Addressable(|s.mem|, k)
    ensures Overlaid(orig, Inserted(s, k))
  {
    var t := Inserted(s, k);
    if k.kind == BP_MEMORY {
      KeyOfWord(k);
    }
    forall i | 0 <= i < |orig|
      ensures t.mem[i] == if WordKey(i) in t.table then TRAP else orig[i]
      ensures WordKey(i) in t.table ==> t.table[WordKey(i)] == orig[i]
    {
      assert WordKey(i) == k ==> i == k.addr / 4;
    }
  }

  lemma RemoveKeepsOverlay(orig: seq<Word>, s: Debug, k: Key)
    requires Overlaid(orig, s) && Addressable(|s.mem|, k) && InRange(s.table)
    ensures Overlaid(orig, Removed(s, k))
  {
    var t := Removed(s, k);
    if k.kind == BP_MEMORY {
      KeyOfWord(k);
    }
    forall i | 0 <= i < |orig|
      ensures t.mem[i] == if WordKey(i) in t.table then TRAP else orig[i]
      ensures WordKey(i) in t.table ==> t.table[WordKey(i)] == orig[i]
    {
      assert WordKey(i) == k ==> i == k.addr / 4;
    }
  }

  lemma InsertKeepsWatching(s: Debug, k: Key)
    requires Watching(s) && Addressable(|s.mem|, k)
    ensures Watching(Inserted(s, k))
  {
    var t := Inserted(s, k);
    forall j | j in t.table && Hardware(j)
      ensures Watches(t, j, t.table[j])
      ensures forall l :: l in t.table && Hardware(l) && j != l ==> t.table[j] != t.table[l]
    {
      if j in s.table {
        assert Watches(s, j, s.table[j]);
      }
      forall l | l in t.table && Hardware(l) && j != l
        ensures t.table[j] != t.table[l]
      {
        if l in s.table {
          assert Watches(s, l, s.table[l]);
        }
      }
    }
  }

  lemma RemoveKeepsWatching(s: Debug, k: Key)
    requires Watching(s) && Addressable(|s.mem|, k)
    ensures Watching(Removed(s, k))
  {
    var t := Removed(s, k);
    forall j | j in t.table && Hardware(j)
      ensures Watches(t, j, t.table[j])
    {
      assert Watches(s, j, s.table[j]);
      if k in s.table && Hardware(k) {
        assert s.table[j] != s.table[k];
      }
    }
  }

  // ---- runs --------------------------------------------------------------------------

  predicate Legal(words: nat, ps: seq<Packet>) {
    forall i :: 0 <= i < |ps| ==> Addressable(words, ps[i].key)
  }

  predicate Start(s0: Debug) {
    s0.table == map[] && |s0.mem| <= 0x4000_0000
  }

  /** The state after a whole run of packets, duplicates and removals of absent ones included. */
  function Run(s0: Debug, ps: seq<Packet>): (s: Debug)
    requires Start(s0) && Legal(|s0.mem|, ps)
    ensures Invariant(s0.mem, s)
    decreases |ps|
  {
    if ps == [] then s0 else
      var n := |ps| - 1;
      var s := Run(s0, ps[..n]);
      assert Addressable(|s.mem|, ps[n].key);
      StepKeepsInvariant(s0.mem, s, ps[n]);
      Step(s, ps[n])
  }

  lemma StepKeepsInvariant(orig: seq<Word>, s: Debug, p: Packet)
    requires Invariant(orig, s) && Addressable(|s.mem|, p.key)
    ensures InRange(s.table) && Invariant(orig, Step(s, p))
  {
    hide Overlaid, Inserted, Removed;
    forall k | k in s.table && Hardware(k)
      ensures s.table[k] < HWP_MAX_WP
    {
      assert Watches(s, k, s.table[k]);
    }
    match p
    case Insert(k) =>
      InsertKeepsOverlay(orig, s, k);
      InsertKeepsWatching(s, k);
    case Remove(k) =>
      RemoveKeepsOverlay(orig, s, k);
      RemoveKeepsWatching(s, k);
  }

  /** Memory with each saved instruction put back over its breakpoint. */
  function Revealed(s: Debug): (m: seq<Word>)
    requires |s.mem| <= 0x4000_0000
    ensures |m| == |s.mem|
  {
    seq(|s.mem|, i requires 0 <= i < |s.mem| =>
      if WordKey(i) in s.table then s.table[WordKey(i)] else s.mem[i])
  }

  /** Breakpoints are an invisible overlay: whatever run led here, the original is recovered from
      the table and the memory, and once no memory breakpoint is left it is the memory. */
  lemma OriginalIsRecovered(s0: Debug, ps: seq<Packet>)
    requires Start(s0) && Legal(|s0.mem|, ps)
    ensures var s := Run(s0, ps);
            && Revealed(s) == s0.mem
            && ((forall k :: k in s.table ==> k.kind != BP_MEMORY) ==> s.mem == s0.mem)
  {
    var s := Run(s0, ps);
    assert Overlaid(s0.mem, s);
    if forall k :: k in s.table ==> k.kind != BP_MEMORY {
      forall i | 0 <= i < |s.mem|
        ensures s.mem[i] == s0.mem[i]
      {
        assert WordKey(i) !in s.table;
      }
    }
  }

  /** A repeated packet about a memory breakpoint changes nothing, and removing undoes inserting. */
  lemma MemoryPacketsAreIdempotent(orig: seq<Word>, s: Debug, k: Key)
    requires Invariant(orig, s) && k.kind == BP_MEMORY && Addressable(|s.mem|, k)
    ensures var t := Inserted(s, k);
            && InRange(s.table) && InRange(t.table)
            && Inserted(t, k) == t
            && Removed(Removed(s, k), k) == Removed(s, k)
            && (k !in s.table ==> Removed(t, k) == s)
            && (k in s.table ==> t == s)
  {
    var t := Inserted(s, k);
    StepKeepsInvariant(orig, s, Insert(k));
    StepKeepsInvariant(orig, t, Insert(k));
    StepKeepsInvariant(orig, s, Remove(k));
    KeyOfWord(k);
    var i := k.addr / 4;
    assert s.mem[i] == if WordKey(i) in s.table then TRAP else orig[i];
    if k !in s.table {
      assert t.table - {k} == s.table;
      assert t.mem[i := s.mem[i]] == s.mem;
    } else {
      assert s.mem[i := TRAP] == s.mem;
    }
  }

  // ---- watchpoints that are never returned -------------------------------------------

  /** The packet asks again for a hardware matchpoint that is there, and is granted one more. */
  predicate GrantedTwice(s: Debug, p: Packet) {
    p.Insert? && Hardware(p.key) && p.key in s.table && FirstFree(s.inUse) < HWP_MAX_WP
  }

  /** Watchpoints granted to such packets during the run. */
  function Leaked(s0: Debug, ps: seq<Packet>): set<nat>
    requires Start(s0) && Legal(|s0.mem|, ps)
    decreases |ps|
  {
    if ps == [] then {} else
      var n := |ps| - 1;
      Leaked(s0, ps[..n])
      + if GrantedTwice(Run(s0, ps[..n]), ps[n]) then {FirstFree(Run(s0, ps[..n]).inUse)} else {}
  }

  predicate Live(s: Debug, w: nat) {
    exists k :: k in s.table && Hardware(k) && s.table[k] == w
  }

  /** In use is exactly: in use before the run, held by a live entry, or leaked; no overlaps. */
  predicate Accounted(s0: Debug, s: Debug, leaked: set<nat>) {
    forall w :: 0 <= w < HWP_MAX_WP ==>
      && (s.inUse[w] <==> s0.inUse[w] || Live(s, w) || w in leaked)
      && !(Live(s, w) && (s0.inUse[w] || w in leaked))
      && !(s0.inUse[w] && w in leaked)
  }

  lemma LiveAfterInsert(s: Debug, k: Key, w: nat)
    requires Watching(s) && Hardware(k) && FirstFree(s.inUse) < HWP_MAX_WP
    ensures Live(Inserted(s, k), w) <==> Live(s, w) || (k !in s.table && w == FirstFree(s.inUse))
  {
    var t := Inserted(s, k);
    if Live(s, w) {
      var j :| j in s.table && Hardware(j) && s.table[j] == w;
      assert j in t.table && t.table[j] == w;
    }
    if k !in s.table && w == FirstFree(s.inUse) {
      assert k in t.table && t.table[k] == w;
    }
  }

  lemma LiveAfterRemove(s: Debug, k: Key, w: nat)
    requires Watching(s) && InRange(s.table) && Hardware(k) && k in s.table
    ensures Live(Removed(s, k), w) <==> Live(s, w) && w != s.table[k]
  {
    var t := Removed(s, k);
    if Live(s, w) && w != s.table[k] {
      var j :| j in s.table && Hardware(j) && s.table[j] == w;
      assert j in t.table && t.table[j] == w;
    }
  }

  lemma LiveOtherwise(s: Debug, t: Debug, w: nat)
    requires forall j :: Hardware(j) ==> (j in s.table <==> j in t.table)
    requires forall j :: Hardware(j) && j in s.table && j in t.table ==> s.table[j] == t.table[j]
    ensures Live(s, w) <==> Live(t, w)
  {
    if Live(s, w) {
      var j :| j in s.table && Hardware(j) && s.table[j] == w;
      assert j in t.table && t.table[j] == w;
    }
    if Live(t, w) {
      var j :| j in t.table && Hardware(j) && t.table[j] == w;
      assert j in s.table && s.table[j] == w;
    }
  }

  /** What a packet makes of the live entries. */
  predicate LiveNext(s: Debug, p: Packet, w: nat) {
    if p.Insert? && Hardware(p.key) && FirstFree(s.inUse) < HWP_MAX_WP then
      Live(s, w) || (p.key !in s.table && w == FirstFree(s.inUse))
    else if p.Remove? && Hardware(p.key) && p.key in s.table then Live(s, w) && w != s.table[p.key]
    else Live(s, w)
  }

  lemma LiveAfterStep(s: Debug, p: Packet, w: nat)
    requires Watching(s) && InRange(s.table) && Addressable(|s.mem|, p.key)
    ensures Live(Step(s, p), w) <==> LiveNext(s, p, w)
  {
    hide Watching, Live;
    if p.Insert? && Hardware(p.key) && FirstFree(s.inUse) < HWP_MAX_WP {
      LiveAfterInsert(s, p.key, w);
    } else if p.Remove? && Hardware(p.key) && p.key in s.table {
      LiveAfterRemove(s, p.key, w);
    } else {
      LiveOtherwise(s, Step(s, p), w);
    }
  }

  lemma StepAccounts(s0: Debug, s: Debug, p: Packet, leaked: set<nat>)
    requires Watching(s) && InRange(s.table) && Addressable(|s.mem|, p.key)
    requires Accounted(s0, s, leaked)
    ensures Accounted(s0, Step(s, p),
                      leaked + if GrantedTwice(s, p) then {FirstFree(s.inUse)} else {})
  {
    hide Watching, Live;
    var t, k := Step(s, p), p.key;
    forall w | 0 <= w < HWP_MAX_WP
      ensures Live(t, w) <==> LiveNext(s, p, w)
    {
      LiveAfterStep(s, p, w);
    }
    if p.Remove? && Hardware(k) && k in s.table {
      LiveEntry(s, k);
    }
  }

  lemma LiveEntry(s: Debug, k: Key)
    requires k in s.table && Hardware(k)
    ensures Live(s, s.table[k])
  {
  }

  lemma {:induction false} RunAccounts(s0: Debug, ps: seq<Packet>)
    requires Start(s0) && Legal(|s0.mem|, ps)
    ensures Accounted(s0, Run(s0, ps), Leaked(s0, ps))
    decreases |ps|
  {
    hide Step, Watching, GrantedTwice, Overlaid;
    if ps == [] {
    } else {
      hide Accounted;
      var n := |ps| - 1;
      RunAccounts(s0, ps[..n]);
      var s := Run(s0, ps[..n]);
      assert Addressable(|s.mem|, ps[n].key) by {
        SameSize(s0.mem, s);
      }
      StepKeepsInvariant(s0.mem, s, ps[n]);
      StepAccounts(s0, s, ps[n], Leaked(s0, ps[..n]));
    }
  }

  lemma SameSize(orig: seq<Word>, s: Debug)
    requires Overlaid(orig, s)
    ensures |s.mem| == |orig|
  {
  }

  /** No packet of the run asked for a hardware matchpoint it already had and got another. */
  predicate NeverTwice(s0: Debug, ps: seq<Packet>)
    requires Start(s0) && Legal(|s0.mem|, ps)
    decreases |ps|
  {
    ps == [] ||
      var n := |ps| - 1;
      NeverTwice(s0, ps[..n]) && !GrantedTwice(Run(s0, ps[..n]), ps[n])
  }

  lemma {:induction false} LeakedBounds(s0: Debug, ps: seq<Packet>)
    requires Start(s0) && Legal(|s0.mem|, ps)
    ensures Leaked(s0, ps) == {} <==> NeverTwice(s0, ps)
    ensures forall w :: w in Leaked(s0, ps) ==> w < HWP_MAX_WP
    decreases |ps|
  {
    hide Run;
    if ps != [] {
      LeakedBounds(s0, ps[..|ps| - 1]);
    }
  }

  /** The watchpoints in use are those in use at the start and those of live entries, if and only if
      no duplicate insertion was granted: the table keeps the first number, and nothing ever
      returns the second. */
  lemma LeakIffGrantedTwice(s0: Debug, ps: seq<Packet>)
    requires Start(s0) && Legal(|s0.mem|, ps)
    ensures var s := Run(s0, ps);
            (forall w :: 0 <= w < HWP_MAX_WP ==> (s.inUse[w] <==> s0.inUse[w] || Live(s, w)))
            <==> NeverTwice(s0, ps)
  {
    hide Run, Live, Leaked;
    RunAccounts(s0, ps);
    LeakedBounds(s0, ps);
    var s := Run(s0, ps);
    if forall w :: 0 <= w < HWP_MAX_WP ==> (s.inUse[w] <==> s0.inUse[w] || Live(s, w)) {
      forall w | 0 <= w < HWP_MAX_WP
        ensures w !in Leaked(s0, ps)
      {
      }
      assert Leaked(s0, ps) == {};
    }
  }

  /** The smallest such run is the same insertion twice. After the removal too watchpoint 1 stays in
      use, although no entry is left. */
  lemma DuplicateInsertLeaks(s0: Debug, k: Key)
    requires Start(s0) && Hardware(k) && s0.inUse == seq(HWP_MAX_WP, _ => false)
    ensures var ps := [Insert(k), Insert(k)];
            Legal(|s0.mem|, ps) && Run(s0, ps).table == map[k := 0] && Run(s0, ps).inUse[1]
    ensures var ps := [Insert(k), Insert(k), Remove(k)];
            Legal(|s0.mem|, ps) && Run(s0, ps).table == map[] && Run(s0, ps).inUse[1]
  {
    hide Run;
    var ps := [Insert(k), Insert(k), Remove(k)];
    assert [Insert(k), Insert(k)] == [] + [Insert(k)] + [Insert(k)];
    assert ps == [] + [Insert(k)] + [Insert(k)] + [Remove(k)];
    RunExtends(s0, [], Insert(k));
    RunExtends(s0, [] + [Insert(k)], Insert(k));
    RunExtends(s0, [] + [Insert(k)] + [Insert(k)], Remove(k));
    var s1 := Inserted(s0, k);
    assert s1.inUse[0] && !s1.inUse[1] && FirstFree(s1.inUse) == 1;
    var s2 := Inserted(s1, k);
    assert s2.table == map[k := 0] && s2.inUse[1];
  }

  lemma OnePacketLosesNone(s0: Debug, ps: seq<Packet>)
    requires Start(s0) && Legal(|s0.mem|, ps) && |ps| < 2
    ensures var s := Run(s0, ps);
            forall w :: 0 <= w < HWP_MAX_WP ==> (s.inUse[w] <==> s0.inUse[w] || Live(s, w))
  {
    LeakIffGrantedTwice(s0, ps);
    hide Live;
    if ps != [] {
      assert ps[..0] == [] && Run(s0, []) == s0 && NeverTwice(s0, []);
    }
  }

  lemma RunExtends(s0: Debug, ps: seq<Packet>, p: Packet)
    requires Start(s0) && Legal(|s0.mem|, ps) && Addressable(|s0.mem|, p.key)
    ensures Legal(|s0.mem|, ps + [p]) && (ps == [] ==> Run(s0, ps) == s0)
    ensures var s := Run(s0, ps);
            InRange(s.table) && Addressable(|s.mem|, p.key) && Run(s0, ps + [p]) == Step(s, p)
  {
    hide Step, Watching;
    assert (ps + [p])[..|ps|] == ps;
    StepKeepsInvariant(s0.mem, Run(s0, ps), p);
  }

  // ---- the server --------------------------------------------------------------------

  /** The matchpoint side of the RSP server, with the table, the grants and the target it drives. */
  class RspServer {
    const table: Table
    const inUse: array<bool>
    var mem: seq<Word>
    var dvr: Registers
    var dcr: Registers
    var dmr1: Register32
    var dmr2: Register32

    ghost predicate Valid()
      reads this, table, table.repr
    {
      && table.Valid() && this !in table.repr && inUse !in table.repr
      && inUse.Length == HWP_MAX_WP
    }

    ghost function State(): Debug
      requires inUse.Length == HWP_MAX_WP
      reads this, table, inUse
    {
      Debug(mem, table.entries, inUse[..], dvr, dcr, dmr1, dmr2)
    }

    /** `rsp_init` and `hwp_init`: an empty table, and every watchpoint whose DCR lacks the
        "present" bit put out of use for good. */
    constructor (mem: seq<Word>, dvr: Registers, dcr: Registers, dmr1: Register32, dmr2: Register32)
      ensures Valid() && fresh(table.repr) && fresh(inUse)
      ensures table.entries == map[] && this.mem == mem
      ensures forall i :: 0 <= i < HWP_MAX_WP ==> (inUse[i] <==> dcr[i] % 2 == 0)
      ensures this.dvr == dvr && this.dcr == dcr && this.dmr1 == dmr1 && this.dmr2 == dmr2
    {
      table := new Table();
      inUse := new bool[HWP_MAX_WP](i requires 0 <= i < HWP_MAX_WP => dcr[i] % 2 == 0);
      this.mem, this.dvr, this.dcr, this.dmr1, this.dmr2 := mem, dvr, dcr, dmr1, dmr2;
    }

    /** `hwp_get_available_watchpoint`: grants the first watchpoint not in use, or returns -1. */
    method GetAvailableWatchpoint() returns (w: int)
      requires inUse.Length == HWP_MAX_WP
      modifies inUse
      ensures var f := FirstFree(old(inUse[..]));
              if f == HWP_MAX_WP then w == -1 && inUse[..] == old(inUse[..])
              else w == f && inUse[..] == old(inUse[..])[f := true]
    {
      w := -1;
      for i := 0 to HWP_MAX_WP
        invariant inUse[..] == old(inUse[..])
        invariant forall j :: 0 <= j < i ==> inUse[..][j]
      {
        if !inUse[i] {
          assert !inUse[..][i];
          inUse[i] := true;
          return i;
        }
      }
    }

    /** `hwp_return_watchpoint` */
    method ReturnWatchpoint(w: nat)
      requires inUse.Length == HWP_MAX_WP
      modifies inUse
      ensures inUse[..] == if w < HWP_MAX_WP then old(inUse[..])[w := false] else old(inUse[..])
    {
      if w < HWP_MAX_WP && inUse[w] {
        inUse[w] := false;
      }
    }

    /** The writes to the debug registers for a new hardware matchpoint. */
    method Program(k: Key, w: nat)
      requires w < HWP_MAX_WP && Hardware(k)
      modifies this`dvr, this`dcr, this`dmr1, this`dmr2
      ensures dvr == old(dvr)[w := k.addr] && dcr == old(dcr)[w := DcrCode(k)]
      ensures dmr2 == old(dmr2)[12 + w := true] && dmr1 == old(dmr1)[2 * w := false][2 * w + 1 := false]
    {
      hide DcrCode;
      dvr := dvr[w := k.addr];
      dcr := dcr[w := DcrCode(k)];
      dmr2 := dmr2[12 + w := true];
      dmr1 := dmr1[2 * w := false][2 * w + 1 := false];
    }

    /** `rsp_insert_matchpoint`, once the packet is parsed. */
    method InsertMatchpoint(k: Key) returns (r: Reply)
      requires Valid() && Addressable(|mem|, k)
      modifies this, inUse, table.repr
      ensures Valid() && State() == Inserted(old(State()), k)
      ensures r == if k.kind > 4 then E01
                   else if Hardware(k) && FirstFree(old(State()).inUse) == HWP_MAX_WP then Unsupported
                   else OK
    {
      hide FirstFree, DcrCode;
      if k.kind == BP_MEMORY {
        var word := mem[k.addr / 4];
        table.Add(k, word);
        mem := mem[k.addr / 4 := TRAP];
        r := OK;
      } else if Hardware(k) {
        var w := GetAvailableWatchpoint();
        if w == -1 {
          return Unsupported;
        }
        table.Add(k, w);
        Program(k, w);
        r := OK;
      } else {
        r := E01;
      }
    }

    /** `rsp_remove_matchpoint`, once the packet is parsed. */
    method RemoveMatchpoint(k: Key) returns (r: Reply)
      requires Valid() && Addressable(|mem|, k) && InRange(table.entries)
      modifies this, inUse, table.repr
      ensures Valid() && State() == Removed(old(State()), k)
      ensures r == if k.kind > 4 then E01 else OK
    {
      if k.kind == BP_MEMORY {
        var e := table.Delete(k);
        if e != null {
          mem := mem[k.addr / 4 := e.instr];
        } else {
          assert table.entries == old(table.entries);
        }
        r := OK;
      } else if Hardware(k) {
        var e := table.Delete(k);
        if e != null {
          var w := e.instr;
          dmr2 := dmr2[12 + w := false];
          dcr := dcr[w := 0x01];
          ReturnWatchpoint(w);
        } else {
          assert table.entries == old(table.entries);
        }
        r := OK;
      } else {
        r := E01;
      }
    }
  }
}
