/** The thread that watches the target, the servers that listen to it, and the pipes between them,
    as interleaved steps. */
module MonitorProtocol {
  const MAX_CONNECTIONS: nat := 5

  datatype Command = S | U
  datatype Event = H | R

  /** A registered pipe pair: commands not yet read by the monitor, and every event written to the
      listener, of which it has read the first `taken`. */
  datatype Conn = Conn(id: nat, commands: seq<Command>, sent: seq<Event>, taken: nat)

  /** The RSP server's side: no client, registered for a client that just connected, or serving it. */
  datatype Phase = Away | Registered(id: nat) | Connected(id: nat)

  /** `stalled` is the CPU's own stall bit, `running` the monitor's `target_is_running`; `pending` marks
      the monitor between finding a stalled CPU and announcing it. */
  datatype State = Point(stalled: bool, running: bool, pending: bool, conns: seq<Conn>,
                         rsp: Phase, targetRunning: bool)

  datatype Step =
    | CpuStops                        // a breakpoint, say
    | Serve(i: nat)                   // the monitor reads one command of connection i
    | PollSees                        // ... reads the CPU's status
    | PollTells                       // ... and announces a stall it saw
    | Register(id: nat)
    | Unregister(i: nat)
    | Send(i: nat, command: Command)  // any server's command, the RSP server's included
    | Take(i: nat)                    // another listener reads an event
    | RspAccept(id: nat)              // a client connects: register,
    | RspHello                        //   then stall the target
    | RspTake                         // the RSP server reads an event
    | RspClose                        // and finally unregisters

  // ---- one step ----------------------------------------------------------------------

  function Notified(cs: seq<Conn>, e: Event): (ds: seq<Conn>)
    ensures |ds| == |cs|
  {
    seq(|cs|, i requires 0 <= i < |cs| => cs[i].(sent := cs[i].sent + [e]))
  }

  /** `stall_cpu`, the control write succeeding. */
  function StallCpu(s: State, stall: bool): State {
    s.(stalled := stall, running := !stall)
  }

  function Obeyed(s: State, c: Command): State {
    match c
    case S =>
      var t := if s.running then StallCpu(s, true) else s;
      t.(conns := Notified(t.conns, H))
    case U =>
      var t := if !s.running then StallCpu(s, false) else s;
      t.(conns := Notified(t.conns, R))
  }

  function Served(s: State, i: nat): State
    requires i < |s.conns| && s.conns[i].commands != []
  {
    var c := s.conns[i];
    Obeyed(s.(conns := s.conns[i := c.(commands := c.commands[1..])]), c.commands[0])
  }

  /** The last connection takes the place of the one removed. */
  function Without(cs: seq<Conn>, i: nat): (ds: seq<Conn>)
    requires i < |cs|
  {
    var n := |cs| - 1;
    if i == n then cs[..n] else cs[..n][i := cs[n]]
  }

  predicate Unread(c: Conn) {
    c.taken < |c.sent|
  }

  /** Where a connection is, or |cs|. */
  function Index(cs: seq<Conn>, id: nat): (i: nat)
    ensures i <= |cs| && (i < |cs| ==> cs[i].id == id)
    ensures forall j :: 0 <= j < i ==> cs[j].id != id
  {
    if cs == [] || cs[0].id == id then 0 else
      assert forall j :: 1 <= j < |cs| ==> cs[j] == cs[1..][j - 1];
      1 + Index(cs[1..], id)
  }

  function Mine(s: State): nat {
    if s.rsp == Away then |s.conns| else Index(s.conns, s.rsp.id)
  }

  predicate Enabled(s: State, p: Step) {
    match p
    case CpuStops => true
    case Serve(i) => !s.pending && i < |s.conns| && s.conns[i].commands != []
    case PollSees => !s.pending && s.running
    case PollTells => s.pending
    case Register(id) => |s.conns| < MAX_CONNECTIONS && Index(s.conns, id) == |s.conns|
    case Unregister(i) => i < |s.conns| && i != Mine(s)
    case Send(i, _) => i < |s.conns|
    case Take(i) => i < |s.conns| && i != Mine(s) && Unread(s.conns[i])
    case RspAccept(id) =>
      s.rsp == Away && |s.conns| < MAX_CONNECTIONS && Index(s.conns, id) == |s.conns|
    case RspHello => s.rsp.Registered? && Mine(s) < |s.conns|
    case RspTake => s.rsp.Connected? && Mine(s) < |s.conns| && Unread(s.conns[Mine(s)])
    case RspClose => s.rsp.Connected? && Mine(s) < |s.conns|
  }

  function Sent(c: Conn, x: Command): Conn {
    c.(commands := c.commands + [x])
  }

  function Taken(c: Conn): Conn {
    c.(taken := c.taken + 1)
  }

  function After(s: State, p: Step): State
    requires Enabled(s, p)
  {
    match p
    case CpuStops => s.(stalled := true)
    case Serve(i) => Served(s, i)
    case PollSees => if s.stalled then s.(running := false, pending := true) else s
    case PollTells => s.(conns := Notified(s.conns, H), pending := false)
    case Register(id) => s.(conns := s.conns + [Conn(id, [], [], 0)])
    case Unregister(i) => s.(conns := Without(s.conns, i))
    case Send(i, c) => s.(conns := s.conns[i := Sent(s.conns[i], c)])
    case Take(i) => s.(conns := s.conns[i := Taken(s.conns[i])])
    case RspAccept(id) => s.(conns := s.conns + [Conn(id, [], [], 0)], rsp := Registered(id))
    case RspHello =>
      var i := Mine(s);
      s.(conns := s.conns[i := Sent(s.conns[i], S)], rsp := Connected(s.rsp.id), targetRunning := false)
    case RspTake =>
      var i := Mine(s);
      s.(conns := s.conns[i := Taken(s.conns[i])], targetRunning := s.conns[i].sent[s.conns[i].taken] == R)
    case RspClose => s.(conns := Without(s.conns, Mine(s)), rsp := Away)
  }

  // ---- what every step keeps ----------------------------------------------------------

  /** What the listeners have last been told. */
  function Announced(s: State): Event {
    if s.running || s.pending then R else H
  }

  predicate Informed(c: Conn, e: Event) {
    && c.taken <= |c.sent|
    && (c.sent != [] ==> c.sent[|c.sent| - 1] == e)
  }

  predicate DistinctIds(cs: seq<Conn>) {
    forall i, j :: 0 <= i < j < |cs| ==> cs[i].id != cs[j].id
  }

  predicate AllInformed(cs: seq<Conn>, e: Event) {
    forall i :: 0 <= i < |cs| ==> Informed(cs[i], e)
  }

  /** Unless an event or a command of its own is still under way, the RSP server is up to date. */
  predicate UpToDate(s: State) {
    s.rsp.Connected? ==>
      && Mine(s) < |s.conns|
      && (Unread(s.conns[Mine(s)]) || s.conns[Mine(s)].commands != []
          || (s.targetRunning <==> Announced(s) == R))
  }

  predicate Invariant(s: State) {
    && |s.conns| <= MAX_CONNECTIONS && DistinctIds(s.conns)
    && (!s.running ==> s.stalled) && (s.pending ==> !s.running)
    && AllInformed(s.conns, Announced(s))
    && (s.rsp.Registered? ==> Mine(s) < |s.conns|)
    && UpToDate(s)
  }

  lemma NotifiedInforms(cs: seq<Conn>, e: Event, f: Event)
    requires AllInformed(cs, e)
    ensures AllInformed(Notified(cs, f), f)
    ensures forall i :: 0 <= i < |cs| ==> Unread(Notified(cs, f)[i]) && Notified(cs, f)[i].id == cs[i].id
  {
    forall i | 0 <= i < |cs|
      ensures Informed(Notified(cs, f)[i], f) && Unread(Notified(cs, f)[i])
    {
      assert Informed(cs[i], e);
    }
  }

  /** Identities decide positions. */
  lemma SameIds(cs: seq<Conn>, ds: seq<Conn>, id: nat)
    requires |cs| == |ds| && forall i :: 0 <= i < |cs| ==> cs[i].id == ds[i].id
    ensures Index(cs, id) == Index(ds, id)
    ensures DistinctIds(cs) ==> DistinctIds(ds)
  {
  }

  /** Removing one connection keeps every other, untouched. */
  lemma WithoutKeepsOthers(cs: seq<Conn>, i: nat)
    requires i < |cs|
    ensures multiset(Without(cs, i)) + multiset{cs[i]} == multiset(cs)
  {
    var n := |cs| - 1;
    var a := cs[..n];
    assert cs == a + [cs[n]];
    if i != n {
      assert a[i] == cs[i];
      assert multiset(a[i := cs[n]]) == multiset(a) - multiset{cs[i]} + multiset{cs[n]};
    }
  }

  lemma WithoutIndices(cs: seq<Conn>, i: nat, id: nat)
    requires i < |cs| && DistinctIds(cs)
    ensures DistinctIds(Without(cs, i))
    ensures Index(cs, id) < |cs| && Index(cs, id) != i ==>
              var j := Index(Without(cs, i), id);
              j < |cs| - 1 && Without(cs, i)[j] == cs[Index(cs, id)]
  {
    var ds, k := Without(cs, i), Index(cs, id);
    if k < |cs| && k != i {
      var at := if k == |cs| - 1 then i else k;
      assert ds[at] == cs[k];
      var j := Index(ds, id);
      assert j <= at;
      assert ds[j].id == id;
    }
  }

  lemma ServeKeeps(s: State, i: nat)
    requires Invariant(s) && Enabled(s, Serve(i))
    ensures Invariant(Served(s, i))
  {
    hide Notified, Index, Informed;
    var c := s.conns[i];
    var d := c.(commands := c.commands[1..]);
    assert Informed(d, Announced(s)) by {
      CommandsDoNotInform(c, d, Announced(s));
    }
    var cs := s.conns[i := d];
    var t := Served(s, i);
    NotifiedInforms(cs, Announced(s), if c.commands[0] == S then H else R);
    if s.rsp != Away {
      SameIds(s.conns, t.conns, s.rsp.id);
    } else {
      SameIds(s.conns, t.conns, 0);
    }
  }

  lemma CommandsDoNotInform(c: Conn, d: Conn, e: Event)
    requires Informed(c, e) && c.sent == d.sent && (d.taken == c.taken || d.taken <= |d.sent|)
    ensures Informed(d, e)
  {
  }

  lemma ReplacedConn(s: State, i: nat, d: Conn)
    requires Invariant(s) && i < |s.conns|
    requires d.id == s.conns[i].id && d.sent == s.conns[i].sent
    requires d.taken == s.conns[i].taken || d.taken <= |d.sent|
    ensures var cs := s.conns[i := d];
            DistinctIds(cs) && AllInformed(cs, Announced(s)) && Mine(s.(conns := cs)) == Mine(s)
  {
    hide Informed, Index;
    CommandsDoNotInform(s.conns[i], d, Announced(s));
    SameIds(s.conns, s.conns[i := d], if s.rsp == Away then 0 else s.rsp.id);
  }

  lemma RemovalKeeps(s: State, i: nat)
    requires Invariant(s) && i < |s.conns|
    ensures var t := s.(conns := Without(s.conns, i));
            && DistinctIds(t.conns) && |t.conns| == |s.conns| - 1
            && AllInformed(t.conns, Announced(s))
            && (Mine(s) < |s.conns| && Mine(s) != i ==>
                  Mine(t) < |t.conns| && t.conns[Mine(t)] == s.conns[Mine(s)])
  {
    hide Informed, Index;
    WithoutIndices(s.conns, i, if s.rsp == Away then 0 else s.rsp.id);
  }

  lemma RegistrationKeeps(s: State, id: nat)
    requires Invariant(s) && |s.conns| < MAX_CONNECTIONS && Index(s.conns, id) == |s.conns|
    ensures var t := s.(conns := s.conns + [Conn(id, [], [], 0)]);
            && DistinctIds(t.conns) && AllInformed(t.conns, Announced(s))
            && Index(t.conns, id) == |s.conns|
            && (Mine(s) < |s.conns| ==> Mine(t) == Mine(s) && t.conns[Mine(t)] == s.conns[Mine(s)])
  {
    hide Index;
    var t := s.conns + [Conn(id, [], [], 0)];
    assert t[|s.conns|].id == id;
    assert forall j :: 0 <= j < |s.conns| ==> t[j] == s.conns[j];
    if Mine(s) < |s.conns| {
      assert t[Mine(s)].id == s.rsp.id;
      assert Index(t, s.rsp.id) <= Mine(s);
    }
  }

  lemma StepKeeps(s: State, p: Step)
    requires Invariant(s) && Enabled(s, p)
    ensures Invariant(After(s, p))
  {
    hide *;
    if p.CpuStops? || p.Serve? || p.PollSees? || p.PollTells? {
      MonitorKeeps(s, p);
    } else if p.Send? || p.Take? || p.RspHello? || p.RspTake? {
      PipeKeeps(s, p);
    } else {
      ConnectionKeeps(s, p);
    }
  }

  lemma MonitorKeeps(s: State, p: Step)
    requires Invariant(s) && Enabled(s, p) && (p.CpuStops? || p.Serve? || p.PollSees? || p.PollTells?)
    ensures Invariant(After(s, p))
  {
    hide Informed, Index, Notified, Served;
    match p
    case CpuStops =>
    case Serve(i) => ServeKeeps(s, i);
    case PollSees =>
    case PollTells => TellKeeps(s);
  }

  lemma PipeKeeps(s: State, p: Step)
    requires Invariant(s) && Enabled(s, p) && (p.Send? || p.Take? || p.RspHello? || p.RspTake?)
    ensures Invariant(After(s, p))
  {
    hide Informed, Index;
    match p
    case Send(i, c) => ReplacedConn(s, i, Sent(s.conns[i], c));
    case Take(i) => ReplacedConn(s, i, Taken(s.conns[i]));
    case RspHello => ReplacedConn(s, Mine(s), Sent(s.conns[Mine(s)], S));
    case RspTake => TakeKeeps(s);
  }

  lemma ConnectionKeeps(s: State, p: Step)
    requires Invariant(s) && Enabled(s, p)
    requires p.Register? || p.Unregister? || p.RspAccept? || p.RspClose?
    ensures Invariant(After(s, p))
  {
    hide Informed, Index, Without;
    match p
    case Register(id) => RegistrationKeeps(s, id);
    case Unregister(i) => RemovalKeeps(s, i);
    case RspAccept(id) => RegistrationKeeps(s, id);
    case RspClose => RemovalKeeps(s, Mine(s));
  }

  lemma TellKeeps(s: State)
    requires Invariant(s) && s.pending
    ensures Invariant(After(s, PollTells))
  {
    hide Informed, Index, Notified;
    NotifiedInforms(s.conns, R, H);
    SameIds(s.conns, Notified(s.conns, H), if s.rsp == Away then 0 else s.rsp.id);
  }

  lemma TakeKeeps(s: State)
    requires Invariant(s) && Enabled(s, RspTake)
    ensures Invariant(After(s, RspTake))
  {
    hide Index;
    var i := Mine(s);
    ReplacedConn(s, i, Taken(s.conns[i]));
    assert Informed(s.conns[i], Announced(s));
  }

  // ---- runs ---------------------------------------------------------------------------

  /** Monitor and CPU as they start: nobody registered, the CPU taken to be running. */
  predicate Initial(s: State) {
    s.running && !s.pending && s.conns == [] && s.rsp == Away
  }

  /** `t` follows from `s` by these steps, in any interleaving the pipes and locks allow. */
  predicate Leads(s: State, ps: seq<Step>, t: State)
    decreases |ps|
  {
    if ps == [] then t == s else Enabled(s, ps[0]) && Leads(After(s, ps[0]), ps[1..], t)
  }

  lemma {:induction false} RunKeeps(s: State, ps: seq<Step>, t: State)
    requires Invariant(s) && Leads(s, ps, t)
    ensures Invariant(t)
    decreases |ps|
  {
    hide Invariant, Enabled, After;
    if ps != [] {
      StepKeeps(s, ps[0]);
      RunKeeps(After(s, ps[0]), ps[1..], t);
    }
  }

  /** In every reachable state: a CPU believed stopped is stalled; whoever has been told anything was
      last told what the monitor last announced; and an RSP server with nothing left in either of
      its pipes agrees with the monitor, up to a stall that is just being announced. */
  lemma ProtocolIsSafe(s: State, ps: seq<Step>, t: State)
    requires Initial(s) && Leads(s, ps, t)
    ensures !t.running ==> t.stalled
    ensures forall i :: 0 <= i < |t.conns| && t.conns[i].sent != [] && !t.pending ==>
              t.conns[i].sent[|t.conns[i].sent| - 1] == if t.running then R else H
    ensures t.rsp.Connected? && !t.pending ==>
              && Mine(t) < |t.conns|
              && (!Unread(t.conns[Mine(t)]) && t.conns[Mine(t)].commands == [] ==>
                    t.targetRunning == t.running)
    ensures |t.conns| <= MAX_CONNECTIONS
  {
    hide Index;
    RunKeeps(s, ps, t);
    forall i | 0 <= i < |t.conns| && t.conns[i].sent != [] && !t.pending
      ensures t.conns[i].sent[|t.conns[i].sent| - 1] == if t.running then R else H
    {
      assert Informed(t.conns[i], Announced(t));
    }
  }

  // ---- leaving the target running, or not ----------------------------------------------

  predicate Restarts(s: State, p: Step)
    requires Enabled(s, p)
  {
    p.Serve? && s.conns[p.i].commands[0] == U
  }

  predicate EverRestarted(s: State, ps: seq<Step>, t: State)
    requires Leads(s, ps, t)
    decreases |ps|
  {
    ps != [] && (Restarts(s, ps[0]) || EverRestarted(After(s, ps[0]), ps[1..], t))
  }

  /** The CPU leaves its stall somewhere along the run. */
  predicate EverRan(s: State, ps: seq<Step>, t: State)
    requires Leads(s, ps, t)
    decreases |ps|
  {
    !s.stalled || (ps != [] && EverRan(After(s, ps[0]), ps[1..], t))
  }

  /** A stopped target runs again if and only if the monitor reads a 'U' from a connection it has. */
  lemma {:induction false} OnlyACommandRestarts(s: State, ps: seq<Step>, t: State)
    requires s.stalled && !s.running && !s.pending && Leads(s, ps, t)
    ensures EverRan(s, ps, t) <==> EverRestarted(s, ps, t)
    decreases |ps|
  {
    if ps != [] {
      var n := After(s, ps[0]);
      if Restarts(s, ps[0]) {
        assert !n.stalled;
      } else {
        assert n.stalled && !n.running && !n.pending;
        OnlyACommandRestarts(n, ps[1..], t);
      }
    }
  }

  /** What 'D' does to a stopped target. The client is closed first, which unregisters the pipes, so
      the 'U' that is written afterwards goes nowhere: no command is added. */
  function Detached(s: State): State
    requires Enabled(s, RspClose)
  {
    After(s, RspClose)
  }

  /** Hence after 'D' the target stays stalled, although it should continue, unless and until the
      monitor reads a 'U' from a connection that is left or a later one. */
  lemma DetachDoesNotResume(s: State, ps: seq<Step>, t: State)
    requires Invariant(s) && Enabled(s, RspClose) && !s.targetRunning && !s.pending
    requires !Unread(s.conns[Mine(s)]) && s.conns[Mine(s)].commands == []
    requires Leads(Detached(s), ps, t)
    ensures EverRan(Detached(s), ps, t) <==> EverRestarted(Detached(s), ps, t)
    ensures |s.conns| == 1 && (forall i :: 0 <= i < |ps| ==> !ps[i].Send? && !ps[i].RspAccept?) ==>
              t.stalled && !t.running
  {
    hide Index;
    OnlyACommandRestarts(Detached(s), ps, t);
    if |s.conns| == 1 && forall i :: 0 <= i < |ps| ==> !ps[i].Send? && !ps[i].RspAccept? {
      QuietStaysStalled(Detached(s), ps, t);
    }
  }

  predicate Quiet(s: State) {
    && s.stalled && !s.running && !s.pending && s.rsp == Away
    && forall i :: 0 <= i < |s.conns| ==> s.conns[i].commands == []
  }

  lemma {:induction false} QuietStaysStalled(s: State, ps: seq<Step>, t: State)
    requires Quiet(s) && Leads(s, ps, t)
    requires forall i :: 0 <= i < |ps| ==> !ps[i].Send? && !ps[i].RspAccept?
    ensures Quiet(t)
    decreases |ps|
  {
    hide Index;
    if ps != [] {
      QuietStaysStalled(After(s, ps[0]), ps[1..], t);
    }
  }

  // ---- when a run leaves the CPU stalled -----------------------------------------------

  /** The CPU is stalled by this step, or was already. */
  predicate Stops(s: State, p: Step)
    requires Enabled(s, p)
  {
    p.CpuStops? || (p.Serve? && s.conns[p.i].commands[0] == S)
  }

  /** A 'U' read while the monitor knows of the stall; without that it writes nothing to the CPU. */
  predicate Resumes(s: State, p: Step)
    requires Enabled(s, p)
  {
    Restarts(s, p) && !s.running
  }

  predicate EverResumed(s: State, ps: seq<Step>, t: State)
    requires Leads(s, ps, t)
    decreases |ps|
  {
    ps != [] && (Resumes(s, ps[0]) || EverResumed(After(s, ps[0]), ps[1..], t))
  }

  /** Some step of the run stops the CPU and none after it resumes it. */
  predicate StopStands(s: State, ps: seq<Step>, t: State)
    requires Leads(s, ps, t)
    decreases |ps|
  {
    ps != [] &&
      var n := After(s, ps[0]);
      (Stops(s, ps[0]) && !EverResumed(n, ps[1..], t)) || StopStands(n, ps[1..], t)
  }

  /** The monitor does not believe in a stop that has not happened. */
  predicate Sound(s: State) {
    (!s.running ==> s.stalled) && (s.pending ==> !s.running)
  }

  /** Whatever the interleaving, a run ends with the CPU stalled if and only if some stop in it, or
      the one it started from, has not been resumed since. */
  lemma {:induction false} StalledIff(s: State, ps: seq<Step>, t: State)
    requires Sound(s) && Leads(s, ps, t)
    ensures t.stalled <==> StopStands(s, ps, t) || (s.stalled && !EverResumed(s, ps, t))
    decreases |ps|
  {
    hide Notified, Without, Index;
    if ps != [] {
      OneStep(s, ps[0]);
      StalledIff(After(s, ps[0]), ps[1..], t);
    }
  }

  lemma OneStep(s: State, p: Step)
    requires Sound(s) && Enabled(s, p)
    ensures Sound(After(s, p))
    ensures After(s, p).stalled <==> Stops(s, p) || (s.stalled && !Resumes(s, p))
  {
    hide Notified, Without, Index;
  }

  /** The commands the monitor reads during the run, and those the servers send. */
  function Read(s: State, ps: seq<Step>, t: State): seq<Command>
    requires Leads(s, ps, t)
    decreases |ps|
  {
    if ps == [] then [] else
      (if ps[0].Serve? then [s.conns[ps[0].i].commands[0]] else []) + Read(After(s, ps[0]), ps[1..], t)
  }

  function Written(ps: seq<Step>): seq<Command> {
    if ps == [] then [] else (if ps[0].Send? then [ps[0].command] else []) + Written(ps[1..])
  }

  /** If the CPU does not stop by itself, the last command read decides. */
  lemma {:induction false} LastCommandDecides(s: State, ps: seq<Step>, t: State)
    requires Sound(s) && s.stalled == !s.running && !s.pending && Leads(s, ps, t)
    requires forall k :: 0 <= k < |ps| ==> !ps[k].CpuStops?
    ensures var cs := Read(s, ps, t);
            t.stalled == !t.running && (t.stalled <==> if cs == [] then s.stalled else cs[|cs| - 1] == S)
    decreases |ps|
  {
    hide Notified, Without, Index;
    if ps != [] {
      OneStep(s, ps[0]);
      LastCommandDecides(After(s, ps[0]), ps[1..], t);
    }
  }

  /** Nothing happens but what closing the RSP client takes, and what does not touch the CPU: no other
      server sends, no client connects, the CPU does not stop by itself. */
  predicate Closing(s: State, ps: seq<Step>, t: State)
    requires Leads(s, ps, t)
    decreases |ps|
  {
    ps == [] ||
      (!ps[0].CpuStops? && !ps[0].RspAccept? && !ps[0].RspHello?
       && (ps[0].Send? ==> ps[0].i == Mine(s))
       && Closing(After(s, ps[0]), ps[1..], t))
  }

  /** Only the RSP server has commands under way. */
  predicate OthersQuiet(s: State) {
    forall i :: 0 <= i < |s.conns| && i != Mine(s) ==> s.conns[i].commands == []
  }

  function Queue(s: State): seq<Command> {
    if Mine(s) < |s.conns| then s.conns[Mine(s)].commands else []
  }

  lemma ServeQueue(s: State, i: nat)
    requires Invariant(s) && OthersQuiet(s) && Enabled(s, Serve(i))
    ensures var t := After(s, Serve(i));
            i == Mine(s) && OthersQuiet(t) && Queue(s) == [s.conns[i].commands[0]] + Queue(t)
  {
    hide Index;
    SameIds(s.conns, After(s, Serve(i)).conns, if s.rsp == Away then 0 else s.rsp.id);
  }

  lemma PipeQueue(s: State, p: Step)
    requires Invariant(s) && OthersQuiet(s) && Enabled(s, p)
    requires p.Take? || p.RspTake? || p.PollTells? || (p.Send? && p.i == Mine(s))
    ensures var t := After(s, p);
            OthersQuiet(t) && Queue(t) == Queue(s) + if p.Send? then [p.command] else []
  {
    hide Index;
    SameIds(s.conns, After(s, p).conns, if s.rsp == Away then 0 else s.rsp.id);
  }

  lemma RegisterQueue(s: State, id: nat)
    requires Invariant(s) && OthersQuiet(s) && Enabled(s, Register(id))
    ensures var t := After(s, Register(id));
            OthersQuiet(t) && Queue(t) == Queue(s)
  {
    hide Index, Informed;
    RegistrationKeeps(s, id);
  }

  lemma UnregisterQueue(s: State, i: nat)
    requires Invariant(s) && OthersQuiet(s) && Enabled(s, Unregister(i))
    ensures var t := After(s, Unregister(i));
            OthersQuiet(t) && Queue(t) == Queue(s)
  {
    hide Index, Informed;
    WithoutIndices(s.conns, i, if s.rsp == Away then 0 else s.rsp.id);
  }

  /** One step moves commands along: what was queued is read, still queued, or dropped by the close. */
  lemma StepQueue(s: State, p: Step)
    requires Invariant(s) && OthersQuiet(s) && Enabled(s, p)
    requires !p.RspAccept? && !p.RspHello? && (p.Send? ==> p.i == Mine(s))
    ensures var t := After(s, p);
            && OthersQuiet(t) && (s.rsp == Away ==> t.rsp == Away)
            && (if p.RspClose? then t.rsp == Away && Queue(t) == []
                else if p.Serve? then Queue(s) == [s.conns[p.i].commands[0]] + Queue(t)
                else Queue(t) == Queue(s) + if p.Send? then [p.command] else [])
  {
    hide Index, Without;
    if p.Serve? {
      ServeQueue(s, p.i);
    } else if p.RspClose? {
      ClosedQueue(s);
    } else if p.Register? {
      RegisterQueue(s, p.id);
    } else if p.Unregister? {
      UnregisterQueue(s, p.i);
    } else if p.Take? || p.RspTake? || p.PollTells? || p.Send? {
      PipeQueue(s, p);
    }
  }

  lemma ClosedQueue(s: State)
    requires Invariant(s) && OthersQuiet(s) && Enabled(s, RspClose)
    ensures OthersQuiet(After(s, RspClose))
  {
    hide Index;
  }

  lemma {:induction false} NothingAfterClose(s: State, ps: seq<Step>, t: State)
    requires Invariant(s) && OthersQuiet(s) && s.rsp == Away && Leads(s, ps, t) && Closing(s, ps, t)
    ensures Read(s, ps, t) == [] && Written(ps) == []
    decreases |ps|
  {
    hide Index, Invariant, OthersQuiet, After;
    if ps != [] {
      StepKeeps(s, ps[0]);
      StepQueue(s, ps[0]);
      NothingAfterClose(After(s, ps[0]), ps[1..], t);
    }
  }

  /** The step's own contribution to what is read, and to what is sent. */
  function ReadNow(s: State, p: Step): seq<Command>
    requires Enabled(s, p)
  {
    if p.Serve? then [s.conns[p.i].commands[0]] else []
  }

  function WrittenNow(p: Step): seq<Command> {
    if p.Send? then [p.command] else []
  }

  lemma StepInOrder(s: State, p: Step, read: seq<Command>, written: seq<Command>)
    requires Invariant(s) && OthersQuiet(s) && Enabled(s, p)
    requires !p.RspAccept? && !p.RspHello? && (p.Send? ==> p.i == Mine(s)) && !p.RspClose?
    requires read <= Queue(After(s, p)) + written
    ensures ReadNow(s, p) + read <= Queue(s) + (WrittenNow(p) + written)
  {
    hide Index, Invariant, OthersQuiet, After, Queue, Enabled;
    StepQueue(s, p);
    var q := Queue(After(s, p));
    if p.Serve? {
      assert Queue(s) + written == ReadNow(s, p) + (q + written);
      assert [] + written == written;
    } else {
      assert Queue(s) + (WrittenNow(p) + written) == q + written;
      assert [] + read == read;
    }
  }

  lemma Unfolded(s: State, ps: seq<Step>, t: State)
    requires ps != [] && Leads(s, ps, t) && Closing(s, ps, t)
    ensures Enabled(s, ps[0]) && Leads(After(s, ps[0]), ps[1..], t) && Closing(After(s, ps[0]), ps[1..], t)
    ensures !ps[0].RspAccept? && !ps[0].RspHello? && (ps[0].Send? ==> ps[0].i == Mine(s))
    ensures Read(s, ps, t) == ReadNow(s, ps[0]) + Read(After(s, ps[0]), ps[1..], t)
    ensures Written(ps) == WrittenNow(ps[0]) + Written(ps[1..])
  {
    hide After, Enabled;
  }

  lemma NothingRead(s: State, t: State)
    requires Leads(s, [], t)
    ensures Read(s, [], t) == []
  {
  }

  /** What is read is, in order, the beginning of what was queued and is sent. */
  lemma {:induction false} ReadInOrder(s: State, ps: seq<Step>, t: State)
    requires Invariant(s) && OthersQuiet(s) && Leads(s, ps, t) && Closing(s, ps, t)
    ensures Read(s, ps, t) <= Queue(s) + Written(ps)
    decreases |ps|
  {
    hide *;
    if ps == [] {
      NothingRead(s, t);
    } else {
      Unfolded(s, ps, t);
      var n := After(s, ps[0]);
      StepKeeps(s, ps[0]);
      StepQueue(s, ps[0]);
      if ps[0].RspClose? {
        NothingAfterClose(n, ps[1..], t);
        ClosingReadsNothing(s, ps[0]);
      } else {
        ReadInOrder(n, ps[1..], t);
        StepInOrder(s, ps[0], Read(n, ps[1..], t), Written(ps[1..]));
      }
    }
  }

  lemma ClosingReadsNothing(s: State, p: Step)
    requires Enabled(s, p) && p.RspClose?
    ensures ReadNow(s, p) == []
  {
    hide Enabled;
  }

  /** Closing a client while the target runs sends 'S', then 'U', then drops the pipes. Over every
      interleaving in which nobody else sends and the CPU does not stop by itself, the target is left
      stalled if and only if the monitor read the 'S' and not the 'U'. */
  lemma CloseKeepsRunningIff(s: State, ps: seq<Step>, t: State)
    requires Invariant(s) && s.rsp.Connected? && !s.pending && s.running && !s.stalled
    requires forall i :: 0 <= i < |s.conns| ==> s.conns[i].commands == []
    requires Leads(s, ps, t) && Closing(s, ps, t) && Written(ps) == [S, U]
    ensures Read(s, ps, t) <= [S, U]
    ensures t.running == !t.stalled && (t.stalled <==> Read(s, ps, t) == [S])
  {
    hide Index, Invariant, Leads, Closing, Read;
    assert OthersQuiet(s) && Queue(s) == [];
    var cs := Read(s, ps, t);
    ReadInOrder(s, ps, t);
    assert [] + [S, U] == [S, U];
    NoStopByItself(s, ps, t);
    assert Sound(s);
    LastCommandDecides(s, ps, t);
    assert cs == [S, U][..|cs|];
  }

  lemma {:induction false} NoStopByItself(s: State, ps: seq<Step>, t: State)
    requires Leads(s, ps, t) && Closing(s, ps, t)
    ensures forall k :: 0 <= k < |ps| ==> !ps[k].CpuStops?
    decreases |ps|
  {
    hide After, Enabled;
    if ps != [] {
      NoStopByItself(After(s, ps[0]), ps[1..], t);
      assert forall k :: 1 <= k < |ps| ==> ps[k] == ps[1..][k - 1];
    }
  }

  /** The protocol with the RSP server as the only listener. */
  function Alone(stalled: bool, running: bool, c: Conn, targetRunning: bool): State {
    Point(stalled, running, false, [c], Connected(c.id), targetRunning)
  }

  lemma AloneSteps(stalled: bool, running: bool, c: Conn, r: bool, x: Command)
    ensures var s := Alone(stalled, running, c, r);
            && Mine(s) == 0
            && Enabled(s, Send(0, x)) && After(s, Send(0, x)) == Alone(stalled, running, Sent(c, x), r)
            && Enabled(s, RspClose) && After(s, RspClose) == Point(stalled, running, false, [], Away, r)
            && (Unread(c) ==>
                  Enabled(s, RspTake) && After(s, RspTake) == Alone(stalled, running, Taken(c), c.sent[c.taken] == R))
  {
    var s := Alone(stalled, running, c, r);
    assert Mine(s) == 0;
    assert [c][0 := Sent(c, x)] == [Sent(c, x)] && [c][0 := Taken(c)] == [Taken(c)];
    assert Without([c], 0) == [];
  }

  lemma AloneServes(stalled: bool, running: bool, c: Conn, r: bool)
    requires c.commands != [] && stalled == !running
    ensures var s := Alone(stalled, running, c, r);
            var go := c.commands[0] == U;
            && Enabled(s, Serve(0))
            && After(s, Serve(0))
               == Alone(!go, go, c.(commands := c.commands[1..], sent := c.sent + [if go then R else H]), r)
  {
    var d := c.(commands := c.commands[1..]);
    assert [c][0 := d] == [d];
    assert forall e :: Notified([d], e) == [d.(sent := d.sent + [e])];
  }

  lemma OneStepFirst(s: State, p: Step, ps: seq<Step>, t: State)
    requires Enabled(s, p) && Leads(After(s, p), ps, t)
    ensures Leads(s, [p] + ps, t)
  {
    hide After, Enabled;
    assert ([p] + ps)[1..] == ps;
  }

  /** A run of a closing client: what it reads and what is sent. */
  predicate Closes(s: State, ps: seq<Step>, t: State, read: seq<Command>, written: seq<Command>) {
    Leads(s, ps, t) && Closing(s, ps, t) && Read(s, ps, t) == read && Written(ps) == written
  }

  lemma ClosesFirst(s: State, p: Step, ps: seq<Step>, t: State, read: seq<Command>, written: seq<Command>)
    requires Enabled(s, p) && Closes(After(s, p), ps, t, read, written)
    requires p.RspClose? || p.Serve? || (p.Send? && p.i == Mine(s))
    ensures Closes(s, [p] + ps, t, ReadNow(s, p) + read, WrittenNow(p) + written)
  {
    hide After, Enabled, Mine;
    assert ([p] + ps)[1..] == ps;
  }

  /** From any running state with nothing under way, closing the client can leave it stalled. */
  lemma CloseCanStall(c: Conn, r: bool) returns (ps: seq<Step>, t: State)
    requires c.commands == []
    ensures Leads(Alone(false, true, c, r), ps, t) && t.stalled && !t.running && t.conns == []
    ensures ps == [Send(0, S)] + ([Serve(0)] + ([Send(0, U)] + ([RspClose] + [])))
    ensures var s := Alone(false, true, c, r); Closing(s, ps, t) && Written(ps) == [S, U] && Read(s, ps, t) == [S]
  {
    hide After, Enabled, Alone;
    var c1 := Sent(c, S);
    var c2 := c1.(commands := c1.commands[1..], sent := c1.sent + [H]);
    var c3 := Sent(c2, U);
    AloneSteps(false, true, c, r, S);
    AloneServes(false, true, c1, r);
    AloneSteps(true, false, c2, r, U);
    AloneSteps(true, false, c3, r, U);
    t := Point(true, false, false, [], Away, r);
    assert Closes(t, [], t, [], []);
    var p3 := [RspClose] + [];
    var p2 := [Send(0, U)] + p3;
    var p1 := [Serve(0)] + p2;
    ClosesFirst(Alone(true, false, c3, r), RspClose, [], t, [], []);
    var none: seq<Command> := [];
    assert none + [] == none;
    ClosesFirst(Alone(true, false, c2, r), Send(0, U), p3, t, [], []);
    assert [U] + [] == [U];
    ClosesFirst(Alone(false, true, c1, r), Serve(0), p2, t, [], [U]);
    AloneReads(false, true, c1, r, S);
    assert [] + [U] == [U] && [S] + [] == [S];
    ClosesFirst(Alone(false, true, c, r), Send(0, S), p1, t, [S], [U]);
    assert [S] + [U] == [S, U] && [] + [S] == [S];
    ps := [Send(0, S)] + p1;
  }

  lemma AloneReads(stalled: bool, running: bool, c: Conn, r: bool, x: Command)
    requires c.commands == [x]
    ensures var s := Alone(stalled, running, c, r);
            Enabled(s, Serve(0)) ==> ReadNow(s, Serve(0)) == [x]
  {
  }

  lemma Connects(r: bool)
    ensures var s0 := Point(false, true, false, [], Away, r);
            var s1 := Point(false, true, false, [Conn(1, [], [], 0)], Registered(1), r);
            && Initial(s0) && Enabled(s0, RspAccept(1)) && After(s0, RspAccept(1)) == s1
            && Enabled(s1, RspHello)
            && After(s1, RspHello) == Alone(false, true, Conn(1, [S], [], 0), false)
  {
    assert [] + [Conn(1, [], [], 0)] == [Conn(1, [], [], 0)];
    assert Sent(Conn(1, [], [], 0), S) == Conn(1, [S], [], 0) by {
      assert [] + [S] == [S];
    }
    assert [Conn(1, [], [], 0)][0 := Conn(1, [S], [], 0)] == [Conn(1, [S], [], 0)];
  }

  /** And such a state is reached from the very start: a client connects, sees the target stop, and
      lets it run. */
  lemma ClientCanRun() returns (s: State, ps: seq<Step>)
    ensures Initial(s) && Leads(s, ps, Alone(false, true, Conn(1, [], [H, R], 2), true))
  {
    hide After, Enabled, Alone;
    s := Point(false, true, false, [], Away, false);
    Connects(false);
    var stopped := Conn(1, [], [H], 0);
    var seen := Conn(1, [], [H], 1);
    var goes := Conn(1, [], [H, R], 1);
    var end := Alone(false, true, Conn(1, [], [H, R], 2), true);
    AloneServes(false, true, Conn(1, [S], [], 0), false);
    assert [S][1..] == [] && [] + [H] == [H];
    AloneSteps(true, false, stopped, false, U);
    AloneSteps(true, false, seen, false, U);
    assert [] + [U] == [U];
    AloneServes(true, false, Conn(1, [U], [H], 1), false);
    assert [U][1..] == [] && [H] + [R] == [H, R];
    AloneSteps(false, true, goes, false, U);
    var p6 := [RspTake] + [];
    var p5 := [Serve(0)] + p6;
    var p4 := [Send(0, U)] + p5;
    var p3 := [RspTake] + p4;
    var p2 := [Serve(0)] + p3;
    var p1 := [RspHello] + p2;
    assert Leads(end, [], end);
    OneStepFirst(Alone(false, true, goes, false), RspTake, [], end);
    OneStepFirst(Alone(true, false, Conn(1, [U], [H], 1), false), Serve(0), p6, end);
    OneStepFirst(Alone(true, false, seen, false), Send(0, U), p5, end);
    OneStepFirst(Alone(true, false, stopped, false), RspTake, p4, end);
    OneStepFirst(Alone(false, true, Conn(1, [S], [], 0), false), Serve(0), p3, end);
    OneStepFirst(Point(false, true, false, [Conn(1, [], [], 0)], Registered(1), false), RspHello, p2, end);
    OneStepFirst(s, RspAccept(1), p1, end);
    ps := [RspAccept(1)] + p1;
  }

  // ---- the monitor thread ---------------------------------------------------------------

  /** One pass over the connections select() reported ready. */
  function ServedAll(s: State, ready: seq<bool>, i: nat): State
    requires |ready| == |s.conns| && i <= |ready|
    requires forall j :: i <= j < |ready| && ready[j] ==> s.conns[j].commands != []
    decreases |ready| - i
  {
    if i == |ready| then s else ServedAll(if ready[i] then Served(s, i) else s, ready, i + 1)
  }

  lemma {:induction false} PassKeeps(s: State, ready: seq<bool>, i: nat)
    requires Invariant(s) && !s.pending && |ready| == |s.conns| && i <= |ready|
    requires forall j :: i <= j < |ready| && ready[j] ==> s.conns[j].commands != []
    ensures Invariant(ServedAll(s, ready, i))
    decreases |ready| - i
  {
    hide Invariant;
    if i < |ready| {
      if ready[i] {
        ServeKeeps(s, i);
      }
      PassKeeps(if ready[i] then Served(s, i) else s, ready, i + 1);
    }
  }

  /** A pass takes exactly the first command of each ready connection, and whether the target is then
      believed to run is up to the last of them. */
  lemma {:induction false} PassServes(s: State, ready: seq<bool>, i: nat, j: nat)
    requires |ready| == |s.conns| && i <= |ready| && j < |ready|
    requires forall k :: i <= k < |ready| && ready[k] ==> s.conns[k].commands != []
    ensures var t, c := ServedAll(s, ready, i), s.conns[j];
            && |t.conns| == |s.conns| && t.conns[j].id == c.id && t.conns[j].taken == c.taken
            && t.conns[j].commands == (if j >= i && ready[j] then c.commands[1..] else c.commands)
            && (j >= i && ready[j] && (forall k :: j < k < |ready| ==> !ready[k]) ==>
                  (t.running <==> c.commands[0] == U))
            && ((forall k :: i <= k < |ready| ==> !ready[k]) ==> t == s)
    decreases |ready| - i
  {
    hide Served;
    if i < |ready| {
      if ready[i] {
        forall k | 0 <= k < |ready|
          ensures |Served(s, i).conns| == |s.conns|
          ensures Served(s, i).conns[k].commands == if k == i then s.conns[k].commands[1..] else s.conns[k].commands
        {
          OneServed(s, i, k);
        }
        OneServed(s, i, j);
      }
      PassServes(if ready[i] then Served(s, i) else s, ready, i + 1, j);
    }
  }

  lemma OneServed(s: State, i: nat, j: nat)
    requires i < |s.conns| && s.conns[i].commands != [] && j < |s.conns|
    ensures var t, c := Served(s, i), s.conns[j];
            && |t.conns| == |s.conns| && t.conns[j].id == c.id && t.conns[j].taken == c.taken
            && t.conns[j].commands == (if j == i then c.commands[1..] else c.commands)
            && (t.running <==> s.conns[i].commands[0] == U)
  {
  }

  class Monitor {
    var stalled: bool  // the CPU's own bit
    var running: bool
    const connections: array<Conn>
    var num: nat

    ghost predicate Valid()
      reads this
    {
      connections.Length == MAX_CONNECTIONS && num <= MAX_CONNECTIONS
    }

    /** The RSP server's variables are not the monitor's. */
    ghost function View(): State
      requires Valid()
      reads this, connections
    {
      Point(stalled, running, false, connections[..num], Away, false)
    }

    /** `start_monitor_thread` */
    constructor (stalled: bool)
      ensures Valid() && View() == Point(stalled, true, false, [], Away, false) && fresh(connections)
    {
      this.stalled, running, num := stalled, true, 0;
      connections := new Conn[MAX_CONNECTIONS](_ => Conn(0, [], [], 0));
    }

    /** `register_with_monitor_thread`; `id` stands for the new pair of pipes. */
    method Register(id: nat) returns (ok: bool)
      requires Valid()
      modifies this, connections
      ensures Valid() && (ok <==> old(num) < MAX_CONNECTIONS)
      ensures View() == old(View()).(conns := if ok then old(View()).conns + [Conn(id, [], [], 0)]
                                                else old(View()).conns)
    {
      if num >= MAX_CONNECTIONS {
        return false;
      }
      connections[num] := Conn(id, [], [], 0);
      num := num + 1;
      assert connections[..num] == old(connections[..num]) + [Conn(id, [], [], 0)];
      ok := true;
    }

    /** `unregister_with_monitor_thread` */
    method Unregister(id: nat) returns (found: bool)
      requires Valid()
      modifies this, connections
      ensures Valid()
      ensures var cs := old(View()).conns;
              && (found <==> Index(cs, id) < |cs|)
              && View() == old(View()).(conns := if found then Without(cs, Index(cs, id)) else cs)
    {
      hide Index;
      ghost var cs := connections[..num];
      for i := 0 to num
        invariant forall j :: 0 <= j < i ==> cs[j].id != id
        invariant Valid() && View() == old(View()) && connections[..num] == cs
      {
        assert cs[i] == connections[i];
        if connections[i].id == id {
          if i != num - 1 {
            connections[i] := connections[num - 1];
          }
          num := num - 1;
          assert connections[..num] == Without(cs, i);
          return true;
        }
      }
      found := false;
    }

    /** `stall_cpu` */
    method Stall(stall: bool)
      requires Valid()
      modifies this`stalled, this`running
      ensures Valid() && View() == StallCpu(old(View()), stall)
    {
      stalled := stall;
      running := !stall;
    }

    /** `notify_listeners` */
    method NotifyListeners(e: Event)
      requires Valid()
      modifies connections
      ensures Valid() && View() == old(View()).(conns := Notified(old(View()).conns, e))
    {
      ghost var cs := connections[..num];
      for i := 0 to num
        invariant Valid()
        invariant forall j :: 0 <= j < i ==> connections[j] == cs[j].(sent := cs[j].sent + [e])
        invariant forall j :: i <= j < num ==> connections[j] == cs[j]
      {
        connections[i] := connections[i].(sent := connections[i].sent + [e]);
      }
      assert connections[..num] == Notified(cs, e);
    }

    /** The branch of the loop that reads commands. */
    method HandleReady(ready: seq<bool>)
      requires Valid() && |ready| == num
      requires forall j :: 0 <= j < num && ready[j] ==> connections[j].commands != []
      modifies this, connections
      ensures Valid() && View() == ServedAll(old(View()), ready, 0)
    {
      hide Notified;
      for i := 0 to num
        invariant Valid() && num == |ready|
        invariant forall j :: i <= j < num && ready[j] ==> View().conns[j].commands != []
        invariant ServedAll(View(), ready, i) == old(ServedAll(View(), ready, 0))
      {
        if ready[i] {
          HandleCommand(i);
        }
      }
    }

    /** One read and what it leads to. */
    method HandleCommand(i: nat)
      requires Valid() && i < num && connections[i].commands != []
      modifies this, connections
      ensures Valid() && num == old(num) && View() == Served(old(View()), i)
      ensures forall j :: 0 <= j < num && j != i ==>
                View().conns[j].commands == old(View().conns[j].commands)
    {
      ghost var cs := connections[..num];
      var c := connections[i].commands[0];
      connections[i] := connections[i].(commands := connections[i].commands[1..]);
      assert connections[..num] == cs[i := cs[i].(commands := cs[i].commands[1..])];
      match c {
        case S =>
          if running {
            Stall(true);
          }
          NotifyListeners(H);
        case U =>
          if !running {
            Stall(false);
          }
          NotifyListeners(R);
      }
    }

    /** The branch that polls the CPU: both of its steps, when nothing comes in between. */
    method Poll()
      requires Valid()
      modifies this, connections
      ensures Valid()
      ensures var s := old(View());
              View() == if !s.running then s else
                           var t := After(s, PollSees);
                           if t.pending then After(t, PollTells) else t
    {
      if running && stalled {
        running := false;
        NotifyListeners(H);
      }
    }
  }
}
