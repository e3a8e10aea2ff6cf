/** The server loop: its peers, its dial tasks and the admission checks
    (net/rlpx/p2p/server.go). */
module PeerSet {
  import opened Wrappers
  import opened Dial

  // ---------- Admission ----------

  function MaxDialedConns(noDiscovery: bool, noDial: bool, maxPeers: nat, dialRatio: nat): nat {
    if noDiscovery || noDial then 0
    else maxPeers / (if dialRatio == 0 then DEFAULT_DIAL_RATIO else dialRatio)
  }

  function MaxInboundConns(noDiscovery: bool, noDial: bool, maxPeers: nat, dialRatio: nat): int {
    maxPeers - MaxDialedConns(noDiscovery, noDial, maxPeers, dialRatio)
  }

  datatype Settings = Settings(dial: Config, maxPeers: nat, noDiscovery: bool, noDial: bool, dialRatio: nat)
  {
    /** The dialer is made for the connections the server leaves to it. */
    predicate Consistent() { dial.maxDyn == MaxDialedConns(noDiscovery, noDial, maxPeers, dialRatio) }

    function MaxInbound(): int { MaxInboundConns(noDiscovery, noDial, maxPeers, dialRatio) }
  }

  /** A connection past its handshake; `useful` when it shares a protocol with us. */
  datatype Conn = Conn(id: Id, kind: Kind, trusted: bool, useful: bool)

  datatype Refusal = TooManyPeers | Already | Self | UselessPeer

  function EncHandshakeChecks(sc: Settings, peers: map<Id, Peer>, inboundCount: int, c: Conn): Option<Refusal> {
    if !(c.trusted || c.kind.Static?) && |peers| >= sc.maxPeers then Some(TooManyPeers)
    else if !c.trusted && c.kind.Inbound? && inboundCount >= sc.MaxInbound() then Some(TooManyPeers)
    else if c.id in peers then Some(Already)
    else if c.id == sc.dial.self then Some(Self)
    else None
  }

  function ProtoHandshakeChecks(sc: Settings, peers: map<Id, Peer>, inboundCount: int, c: Conn): Option<Refusal> {
    if !c.useful then Some(UselessPeer) else EncHandshakeChecks(sc, peers, inboundCount, c)
  }

  // ---------- The loop's state ----------

  /** `clock` is the last time the dialer was given, and `lastDone` when the last dial of a node ended
      that removeStatic has not wiped out. */
  datatype Loop = Loop(
    dialer: Dialer,
    peers: map<Id, Peer>,
    inboundCount: int,
    running: seq<Task>,
    queued: seq<Task>,
    clock: int,
    lastDone: map<Id, int>)

  /** Tasks start until the limit of running ones is reached. */
  function StartTasks(running: seq<Task>, ts: seq<Task>): (r: (seq<Task>, seq<Task>))
    ensures r.0 + r.1 == running + ts && |running| <= |r.0|
    ensures |running| <= MAX_ACTIVE_DIAL_TASKS ==> |r.0| <= MAX_ACTIVE_DIAL_TASKS
    ensures |r.0| < MAX_ACTIVE_DIAL_TASKS ==> r.1 == []
  {
    var room := if |running| < MAX_ACTIVE_DIAL_TASKS then MAX_ACTIVE_DIAL_TASKS - |running| else 0;
    var k := if |ts| < room then |ts| else room;
    assert ts == ts[..k] + ts[k..];
    (running + ts[..k], ts[k..])
  }

  function RemoveFirst(ts: seq<Task>, t: Task): seq<Task> {
    if |ts| == 0 then [] else if ts[0] == t then ts[1..] else [ts[0]] + RemoveFirst(ts[1..], t)
  }

  datatype Event =
    | Schedule(now: int, random: seq<Node>)
    | StaticAdded(node: Node)
    | StaticRemoved(node: Node)
    | TrustSet(id: Id, value: bool)
    | TaskEnded(task: Task, results: seq<Node>, now: int)
    | PeerArrives(conn: Conn)
    | PeerLeaves(id: Id)

  /** When an event can happen. A dialed connection arrives while its dial task is running; time does
      not run backwards. */
  ghost predicate Possible(s: Loop, e: Event) {
    match e
    case Schedule(now, _) => s.clock <= now
    case TaskEnded(t, _, now) => t in s.running && s.clock <= now
    case PeerArrives(c) => c.kind.Inbound? || exists t :: t in s.running && t.DialTask? && t.kind == c.kind && t.dest.id == c.id
    case PeerLeaves(id) => id in s.peers
    case _ => true
  }

  /** scheduleTasks: the queue first, then new tasks if there is room. */
  ghost predicate Scheduled(sc: Settings, s: Loop, s': Loop, now: int, random: seq<Node>, tasks: seq<Task>) {
    var (running, queued) := StartTasks(s.running, s.queued);
    && s' == s.(dialer := s'.dialer, running := s'.running, queued := s'.queued, clock := s'.clock)
    && if |running| < MAX_ACTIVE_DIAL_TASKS then
         && NewTasksDone(sc.dial, s.dialer, s'.dialer, s.peers, |running| + |queued|, now, random, tasks)
         && s'.running == StartTasks(running, tasks).0 && s'.queued == queued + StartTasks(running, tasks).1
         && s'.clock == now
       else
         tasks == [] && s' == s.(running := running, queued := queued)
  }

  function Ended(s: Loop, t: Task, results: seq<Node>, now: int): Loop {
    s.(dialer := Finished(s.dialer, t, results, now), running := RemoveFirst(s.running, t), clock := now,
       lastDone := if t.DialTask? then s.lastDone[t.dest.id := now] else s.lastDone)
  }

  function Arrived(sc: Settings, s: Loop, c: Conn): Loop {
    if ProtoHandshakeChecks(sc, s.peers, s.inboundCount, c).Some? then s
    else s.(peers := s.peers[c.id := Peer(c.kind, c.trusted)],
            inboundCount := s.inboundCount + if c.kind.Inbound? then 1 else 0)
  }

  function Departed(s: Loop, id: Id): Loop {
    if id !in s.peers then s
    else s.(peers := s.peers - {id}, inboundCount := s.inboundCount - if s.peers[id].kind.Inbound? then 1 else 0)
  }

  function Trusted(s: Loop, id: Id, value: bool): Loop {
    if id !in s.peers then s else s.(peers := s.peers[id := s.peers[id].(trusted := value)])
  }

  ghost predicate Next(sc: Settings, s: Loop, s': Loop, e: Event) {
    match e
    case Schedule(now, random) => exists tasks :: Scheduled(sc, s, s', now, random, tasks)
    case StaticAdded(n) => s' == s.(dialer := AddedStatic(s.dialer, n))
    case StaticRemoved(n) =>
      s' == s.(dialer := s'.dialer, lastDone := s.lastDone - {n.id}) && RemovedStatic(s.dialer, s'.dialer, n.id)
    case TrustSet(id, value) => s' == Trusted(s, id, value)
    case TaskEnded(t, results, now) => s' == Ended(s, t, results, now)
    case PeerArrives(c) => s' == Arrived(sc, s, c)
    case PeerLeaves(id) => s' == Departed(s, id)
  }

  // ---------- Invariants ----------

  /** Nodes dialed dynamically, or connected after it. */
  function DynNodes(s: Loop): set<Id> { DynPeers(s.peers) + DynIds(s.dialer.dialing) }

  /** The history has one entry a node, and none for a node being dialed. */
  ghost predicate CleanHistory(d: Dialer) {
    && (forall p :: d.hist[p] <= 1)
    && (forall p, q | p in d.hist && q in d.hist && p.id == q.id :: p == q)
    && (forall p | p in d.hist :: p.id !in d.dialing)
  }

  function Lookups(ts: seq<Task>): nat {
    if |ts| == 0 then 0 else (if ts[0].DiscoverTask? then 1 else 0) + Lookups(ts[1..])
  }

  /** The dialer's records are its unfinished tasks: one dial task for each node being dialed, and a
      lookup task exactly while one is noted. */
  ghost predicate InOrder(d: Dialer, tasks: seq<Task>) {
    && DistinctDests(tasks) && Recorded(map[], tasks, d.dialing)
    && Lookups(tasks) == if d.lookupRunning then 1 else 0
  }

  /** A finished dial is in the history until it expires. */
  ghost predicate Remembered(hist: multiset<Past>, lastDone: map<Id, int>, clock: int) {
    forall id | id in lastDone ::
      lastDone[id] + DIAL_HISTORY_EXPIRATION < clock || Past(id, lastDone[id] + DIAL_HISTORY_EXPIRATION) in hist
  }

  ghost predicate Inv(sc: Settings, s: Loop) {
    && |DynNodes(s)| <= sc.dial.maxDyn
    && CleanHistory(s.dialer)
    && InOrder(s.dialer, s.running + s.queued) && |s.running| <= MAX_ACTIVE_DIAL_TASKS
    && s.inboundCount == |InboundPeers(s.peers)|
    && sc.dial.self !in s.peers && sc.dial.self !in s.dialer.dialing
    && Remembered(s.dialer.hist, s.lastDone, s.clock)
  }

  ghost predicate Initial(s: Loop) {
    && s.dialer.dialing == map[] && s.dialer.hist == multiset{} && !s.dialer.lookupRunning
    && s.peers == map[] && s.inboundCount == 0 && s.running == [] && s.queued == [] && s.lastDone == map[]
  }

  lemma InitialInv(sc: Settings, s: Loop)
    requires Initial(s)
    ensures Inv(sc, s)
  {
    assert DynNodes(s) == {} && InboundPeers(s.peers) == {};
  }

  // ---------- Scheduling keeps the invariant ----------

  lemma {:induction false} LookupsConcat(a: seq<Task>, b: seq<Task>)
    ensures Lookups(a + b) == Lookups(a) + Lookups(b)
  {
    if |a| == 0 {
      assert a + b == b;
    } else {
      assert (a + b)[1..] == a[1..] + b;
      LookupsConcat(a[1..], b);
    }
  }

  lemma {:induction false} NoLookups(ts: seq<Task>)
    requires forall i | 0 <= i < |ts| :: !ts[i].DiscoverTask?
    ensures Lookups(ts) == 0
  {
    if |ts| > 0 {
      NoLookups(ts[1..]);
    }
  }

  lemma HasDialConcat(a: seq<Task>, b: seq<Task>, id: Id)
    ensures HasDial(a + b, id) <==> HasDial(a, id) || HasDial(b, id)
  {
    if HasDial(a, id) {
      var i :| 0 <= i < |a| && a[i].DialTask? && a[i].dest.id == id;
      assert (a + b)[i] == a[i];
    }
    if HasDial(b, id) {
      var i :| 0 <= i < |b| && b[i].DialTask? && b[i].dest.id == id;
      assert (a + b)[|a| + i] == b[i];
    }
  }

  /** New dials on top of the recorded ones. */
  lemma RecordedConcat(all: seq<Task>, tasks: seq<Task>, before: map<Id, Kind>, dialing: map<Id, Kind>)
    requires Recorded(map[], all, before) && Recorded(before, tasks, dialing)
    ensures Recorded(map[], all + tasks, dialing)
  {
    hide HasDial;
    forall id ensures id in dialing <==> HasDial(all + tasks, id) {
      HasDialConcat(all, tasks, id);
    }
    forall i | 0 <= i < |all + tasks| && (all + tasks)[i].DialTask?
      ensures var t := (all + tasks)[i]; t.dest.id in dialing && dialing[t.dest.id] == t.kind
    {
      if i < |all| {
        assert (all + tasks)[i] == all[i];
      } else {
        assert (all + tasks)[i] == tasks[i - |all|];
      }
    }
  }

  lemma DistinctConcat(all: seq<Task>, tasks: seq<Task>, before: map<Id, Kind>)
    requires DistinctDests(all) && DistinctDests(tasks) && Recorded(map[], all, before)
    requires forall i | 0 <= i < |tasks| && tasks[i].DialTask? :: tasks[i].dest.id !in before
    ensures DistinctDests(all + tasks)
  {
  }

  /** Tasks that are not dials change nothing about the records. */
  lemma NonDialTail(before: map<Id, Kind>, dials: seq<Task>, tasks: seq<Task>, dialing: map<Id, Kind>)
    requires Recorded(before, dials, dialing) && DistinctDests(dials)
    requires dials <= tasks && forall i | |dials| <= i < |tasks| :: !tasks[i].DialTask?
    ensures Recorded(before, tasks, dialing) && DistinctDests(tasks)
  {
    forall id ensures HasDial(tasks, id) <==> HasDial(dials, id) {
      if HasDial(dials, id) {
        var i :| 0 <= i < |dials| && dials[i].DialTask? && dials[i].dest.id == id;
        assert tasks[i] == dials[i];
      }
    }
    hide HasDial;
  }

  /** What newTasks issues, dials first. */
  ghost predicate Parts(cfg: Config, d: Dialer, d': Dialer, peers: map<Id, Peer>, tasks: seq<Task>, dials: seq<Task>) {
    && dials <= tasks
    && (forall i | |dials| <= i < |tasks| :: !tasks[i].DialTask?)
    && (forall i | 0 <= i < |dials| :: dials[i].DialTask? && Free(cfg, d, d'.hist, peers, dials[i].dest))
    && DistinctDests(dials) && Recorded(d.dialing, dials, d'.dialing)
    && Lookups(tasks) == (if d'.lookupRunning then 1 else 0) - (if d.lookupRunning then 1 else 0)
  }

  lemma NewTasksParts(cfg: Config, d: Dialer, d': Dialer, peers: map<Id, Peer>, nRunning: nat, now: int, random: seq<Node>, tasks: seq<Task>)
    returns (dials: seq<Task>)
    requires NewTasksDone(cfg, d, d', peers, nRunning, now, random, tasks)
    ensures Parts(cfg, d, d', peers, tasks, dials)
    ensures Expired(d.hist, d'.hist, now)
    ensures |DynIds(d'.dialing)| <= |DynIds(d.dialing)| + (if Needed(cfg, d, peers) > 0 then Needed(cfg, d, peers) else 0)
  {
    hide Issued, DistinctDests, Recorded, Expired, StaticsDialed, StaticsKept, DynIds, Remembers, Needed, WithOthers, Lookups;
    var k: nat :| NewTasksIssued(cfg, d, d', peers, nRunning, now, random, tasks, k);
    dials := tasks[..k];
    var need := Needed(cfg, d', peers);
    assert WithOthers(d.lookupRunning, d'.lookupRunning, d'.lookupBuf, d'.hist, nRunning, need, dials, tasks);
    IssuedFree(cfg, d, d', peers, dials);
    OtherTasksLookUp(d.lookupRunning, d'.lookupRunning, d'.lookupBuf, d'.hist, nRunning, need, dials, tasks);
  }

  lemma IssuedFree(cfg: Config, d: Dialer, d': Dialer, peers: map<Id, Peer>, dials: seq<Task>)
    requires Issued(cfg, d.(hist := d'.hist), peers, dials, d'.dialing)
    ensures forall i | 0 <= i < |dials| :: dials[i].DialTask? && Free(cfg, d, d'.hist, peers, dials[i].dest)
    ensures DistinctDests(dials) && Recorded(d.dialing, dials, d'.dialing)
  {
    hide DistinctDests, Recorded, Remembers;
  }

  lemma OtherTasksLookUp(
    running: bool, running': bool, lookupBuf: seq<Node>, hist: multiset<Past>, nRunning: nat, need: int,
    dials: seq<Task>, tasks: seq<Task>)
    requires WithOthers(running, running', lookupBuf, hist, nRunning, need, dials, tasks)
    requires forall i | 0 <= i < |dials| :: dials[i].DialTask?
    ensures dials <= tasks && forall i | |dials| <= i < |tasks| :: !tasks[i].DialTask?
    ensures Lookups(tasks) == (if running' then 1 else 0) - (if running then 1 else 0)
  {
    NoLookups(dials);
    LookupsConcat(dials, tasks[|dials|..]);
    assert tasks == dials + tasks[|dials|..];
    NoLookups([]);
    if tasks != dials {
      assert tasks[|dials|..] == [tasks[|dials|]];
    }
  }

  lemma ExpiredClean(d: Dialer, d': Dialer, now: int)
    requires CleanHistory(d) && Expired(d.hist, d'.hist, now)
    requires forall id | id in d'.dialing && id !in d.dialing :: !Remembers(d'.hist, id)
    ensures CleanHistory(d')
  {
    forall p | p in d'.hist ensures p in d.hist && p.id !in d'.dialing {
      assert d'.hist[p] > 0;
    }
    forall p ensures d'.hist[p] <= 1 {
      assert d.hist[p] <= 1;
    }
  }

  lemma ExpiredRemembered(d: Dialer, d': Dialer, lastDone: map<Id, int>, clock: int, now: int)
    requires Remembered(d.hist, lastDone, clock) && Expired(d.hist, d'.hist, now) && clock <= now
    ensures Remembered(d'.hist, lastDone, now)
  {
    forall id | id in lastDone
      ensures lastDone[id] + DIAL_HISTORY_EXPIRATION < now || Past(id, lastDone[id] + DIAL_HISTORY_EXPIRATION) in d'.hist
    {
      var p := Past(id, lastDone[id] + DIAL_HISTORY_EXPIRATION);
      if !(p.exp < now) {
        assert p in d.hist && d'.hist[p] == d.hist[p];
      }
    }
  }

  lemma UnionSize(a: set<Id>, b: set<Id>)
    ensures |a + b| <= |a| + |b|
  {
    assert a + b == a + (b - a);
    assert b - a <= b;
    SubsetSize(b - a, b);
  }

  lemma SubsetSize(a: set<Id>, b: set<Id>)
    requires a <= b
    ensures |a| <= |b|
  {
    assert b == a + (b - a);
  }

  /** New dials never exceed the limit, whatever it was before. */
  lemma CapKept(cfg: Config, d: Dialer, d': Dialer, peers: map<Id, Peer>)
    requires |DynPeers(peers) + DynIds(d.dialing)| <= cfg.maxDyn
    requires |DynIds(d'.dialing)| <= |DynIds(d.dialing)| + (if Needed(cfg, d, peers) > 0 then Needed(cfg, d, peers) else 0)
    requires DynIds(d.dialing) <= DynIds(d'.dialing)
    ensures |DynPeers(peers) + DynIds(d'.dialing)| <= cfg.maxDyn
  {
    hide DynPeers, DynIds;
    if Needed(cfg, d, peers) > 0 {
      UnionSize(DynPeers(peers), DynIds(d'.dialing));
    } else {
      SameSize(DynIds(d.dialing), DynIds(d'.dialing));
    }
  }

  lemma SameSize(a: set<Id>, b: set<Id>)
    requires a <= b && |b| <= |a|
    ensures a == b
  {
    if x :| x in b && x !in a {
      SubsetSize(a, b - {x});
    }
  }

  lemma NewTasksKeep(
    cfg: Config, d: Dialer, d': Dialer, peers: map<Id, Peer>, nRunning: nat, now: int, random: seq<Node>, tasks: seq<Task>, all: seq<Task>)
    requires NewTasksDone(cfg, d, d', peers, nRunning, now, random, tasks)
    requires InOrder(d, all) && CleanHistory(d) && cfg.self !in d.dialing
    requires |DynPeers(peers) + DynIds(d.dialing)| <= cfg.maxDyn
    ensures InOrder(d', all + tasks) && CleanHistory(d') && cfg.self !in d'.dialing
    ensures |DynPeers(peers) + DynIds(d'.dialing)| <= cfg.maxDyn
    ensures forall t | t in tasks && t.DialTask? :: Free(cfg, d, d'.hist, peers, t.dest)
    ensures Expired(d.hist, d'.hist, now)
  {
    hide NewTasksDone, CheckDial, Lookups;
    var dials := NewTasksParts(cfg, d, d', peers, nRunning, now, random, tasks);
    assert DynIds(d.dialing) <= DynIds(d'.dialing);
    forall id | id in d'.dialing && id !in d.dialing ensures !Remembers(d'.hist, id) && id != cfg.self {
      var i :| 0 <= i < |dials| && dials[i].DialTask? && dials[i].dest.id == id;
      assert Free(cfg, d, d'.hist, peers, dials[i].dest);
    }
    CapKept(cfg, d, d', peers);
    ExpiredClean(d, d', now);
    NonDialTail(d.dialing, dials, tasks, d'.dialing);
    hide DynPeers, DynIds, Expired, CleanHistory, DistinctDests, Recorded;
    forall t | t in tasks && t.DialTask? ensures Free(cfg, d, d'.hist, peers, t.dest) {
      var i :| 0 <= i < |tasks| && tasks[i] == t;
      assert i < |dials| && dials[i] == t;
    }
    hide Remembers;
    RecordedConcat(all, tasks, d.dialing, d'.dialing);
    DistinctConcat(all, tasks, d.dialing);
    LookupsConcat(all, tasks);
  }

  /** A round of scheduling. Each dial it issues is to a node that is not ourselves, not connected, not
      being dialed, allowed, and not dialed within the last 30 seconds. */
  lemma ScheduleKeeps(sc: Settings, s: Loop, s': Loop, now: int, random: seq<Node>, tasks: seq<Task>)
    requires Inv(sc, s) && s.clock <= now && Scheduled(sc, s, s', now, random, tasks)
    ensures Inv(sc, s')
    ensures s'.running + s'.queued == s.running + s.queued + tasks
    ensures forall t | t in tasks && t.DialTask? ::
              && Free(sc.dial, s.dialer, s'.dialer.hist, s.peers, t.dest)
              && (t.dest.id in s.lastDone ==> s.lastDone[t.dest.id] + DIAL_HISTORY_EXPIRATION < now)
  {
    var (running, queued) := StartTasks(s.running, s.queued);
    hide NewTasksDone, InOrder, CleanHistory, DynPeers, DynIds, InboundPeers, Free, Expired, StartTasks;
    if |running| < MAX_ACTIVE_DIAL_TASKS {
      NewTasksKeep(sc.dial, s.dialer, s'.dialer, s.peers, |running| + |queued|, now, random, tasks, s.running + s.queued);
      ExpiredRemembered(s.dialer, s'.dialer, s.lastDone, s.clock, now);
      forall t | t in tasks && t.DialTask? && t.dest.id in s.lastDone
        ensures s.lastDone[t.dest.id] + DIAL_HISTORY_EXPIRATION < now
      {
        NotRemembered(sc.dial, s.dialer, s'.dialer.hist, s.peers, t.dest, s.lastDone, now);
      }
      StartTwice(s.running, s.queued, tasks);
      assert s'.running + s'.queued == s.running + s.queued + tasks;
    }
  }

  lemma StartTwice(running: seq<Task>, queued: seq<Task>, tasks: seq<Task>)
    requires |running| <= MAX_ACTIVE_DIAL_TASKS
    ensures var (r, q) := StartTasks(running, queued);
            |r| < MAX_ACTIVE_DIAL_TASKS ==>
              && StartTasks(r, tasks).0 + (q + StartTasks(r, tasks).1) == running + queued + tasks
              && |StartTasks(r, tasks).0| <= MAX_ACTIVE_DIAL_TASKS
  {
    var (r, q) := StartTasks(running, queued);
    hide StartTasks;
    if |r| < MAX_ACTIVE_DIAL_TASKS {
      assert q == [] && q + StartTasks(r, tasks).1 == StartTasks(r, tasks).1;
      assert r + q == r;
    }
  }

  lemma NotRemembered(
    cfg: Config, d: Dialer, hist: multiset<Past>, peers: map<Id, Peer>, n: Node, lastDone: map<Id, int>, now: int)
    requires Free(cfg, d, hist, peers, n) && Remembered(hist, lastDone, now) && n.id in lastDone
    ensures lastDone[n.id] + DIAL_HISTORY_EXPIRATION < now
  {
    if Past(n.id, lastDone[n.id] + DIAL_HISTORY_EXPIRATION) in hist {
      assert Remembers(hist, n.id);
    }
  }

  // ---------- The other events ----------

  lemma {:induction false} RemoveFirstSplit(ts: seq<Task>, t: Task) returns (i: nat)
    requires t in ts
    ensures i < |ts| && ts[i] == t && ts == ts[..i] + [t] + ts[i + 1..] && RemoveFirst(ts, t) == ts[..i] + ts[i + 1..]
  {
    if ts[0] == t {
      i := 0;
    } else {
      var j := RemoveFirstSplit(ts[1..], t);
      i := j + 1;
      assert ts[1..][..j] == ts[1..i] && ts[1..][j + 1..] == ts[i + 1..];
      assert ts[..i] == [ts[0]] + ts[1..i];
    }
  }

  lemma LookupsWithout(x: seq<Task>, t: Task, y: seq<Task>)
    ensures Lookups(x + [t] + y) == Lookups(x + y) + if t.DiscoverTask? then 1 else 0
  {
    LookupsConcat(x, [t]);
    LookupsConcat(x + [t], y);
    LookupsConcat(x, y);
    assert Lookups([t]) == if t.DiscoverTask? then 1 else 0 by {
      NoLookups([]);
    }
  }

  /** A dial task leaves: exactly its node is no longer being dialed. */
  lemma DialLeaves(x: seq<Task>, t: Task, y: seq<Task>, dialing: map<Id, Kind>)
    requires DistinctDests(x + [t] + y) && Recorded(map[], x + [t] + y, dialing)
    ensures DistinctDests(x + y)
    ensures Recorded(map[], x + y, if t.DialTask? then dialing - {t.dest.id} else dialing)
    ensures t.DialTask? ==> t.dest.id in dialing && dialing[t.dest.id] == t.kind
  {
    var all, rest := x + [t] + y, x + y;
    assert all[|x|] == t;
    forall i | 0 <= i < |rest| ensures rest[i] == all[if i < |x| then i else i + 1] {
    }
    forall id ensures HasDial(all, id) <==> HasDial(rest, id) || (t.DialTask? && t.dest.id == id) {
      HasDialConcat(x, y, id);
      HasDialConcat(x + [t], y, id);
      HasDialSnoc(x, t, id);
    }
    if t.DialTask? {
      forall i | 0 <= i < |rest| && rest[i].DialTask? ensures rest[i].dest.id != t.dest.id {
        var j := if i < |x| then i else i + 1;
        assert all[j] == rest[i];
      }
      assert !HasDial(rest, t.dest.id);
    }
    hide HasDial;
  }

  lemma AroundTask(running: seq<Task>, queued: seq<Task>, t: Task) returns (x: seq<Task>, y: seq<Task>)
    requires t in running
    ensures running + queued == x + [t] + y && RemoveFirst(running, t) + queued == x + y
  {
    var i := RemoveFirstSplit(running, t);
    hide RemoveFirst;
    x, y := running[..i], running[i + 1..] + queued;
  }

  lemma EndedInOrder(s: Loop, t: Task, results: seq<Node>, now: int)
    requires InOrder(s.dialer, s.running + s.queued) && t in s.running
    ensures InOrder(Ended(s, t, results, now).dialer, RemoveFirst(s.running, t) + s.queued)
    ensures t.DialTask? ==> t.dest.id in s.dialer.dialing
  {
    hide DistinctDests, Recorded, Lookups, RemoveFirst;
    var x, y := AroundTask(s.running, s.queued, t);
    DialLeaves(x, t, y, s.dialer.dialing);
    LookupsWithout(x, t, y);
  }

  /** A dial that ends enters the history, from which it was absent. */
  lemma EndedClean(d: Dialer, id: Id, now: int, kinds: map<Id, Kind>)
    requires CleanHistory(d) && id in d.dialing && kinds == d.dialing - {id}
    ensures CleanHistory(d.(hist := d.hist + multiset{Past(id, now + DIAL_HISTORY_EXPIRATION)}, dialing := kinds))
  {
    var p := Past(id, now + DIAL_HISTORY_EXPIRATION);
    var d' := d.(hist := d.hist + multiset{p}, dialing := kinds);
    assert p !in d.hist;
    forall q ensures d'.hist[q] <= 1 {
      assert d.hist[q] <= 1;
    }
    assert forall q | q in d'.hist :: q == p || (q in d.hist && q.id != id);
  }

  lemma EndedRemembered(hist: multiset<Past>, lastDone: map<Id, int>, clock: int, id: Id, now: int)
    requires Remembered(hist, lastDone, clock) && clock <= now
    ensures Remembered(hist, lastDone, now)
    ensures Remembered(hist + multiset{Past(id, now + DIAL_HISTORY_EXPIRATION)}, lastDone[id := now], now)
  {
  }

  lemma EndedHistory(s: Loop, t: Task, results: seq<Node>, now: int)
    requires CleanHistory(s.dialer) && Remembered(s.dialer.hist, s.lastDone, s.clock) && s.clock <= now
    requires t.DialTask? ==> t.dest.id in s.dialer.dialing
    ensures var s' := Ended(s, t, results, now);
            CleanHistory(s'.dialer) && Remembered(s'.dialer.hist, s'.lastDone, s'.clock)
  {
    EndedRemembered(s.dialer.hist, s.lastDone, s.clock, if t.DialTask? then t.dest.id else 0, now);
    hide Remembered;
    if t.DialTask? {
      EndedClean(s.dialer, t.dest.id, now, s.dialer.dialing - {t.dest.id});
      hide CleanHistory;
    }
  }

  lemma EndedKeeps(sc: Settings, s: Loop, t: Task, results: seq<Node>, now: int)
    requires Inv(sc, s) && t in s.running && s.clock <= now
    ensures Inv(sc, Ended(s, t, results, now))
  {
    var s' := Ended(s, t, results, now);
    hide InOrder, CleanHistory, Remembered, DynPeers, InboundPeers, RemoveFirst;
    EndedInOrder(s, t, results, now);
    EndedHistory(s, t, results, now);
    assert |s'.running| <= MAX_ACTIVE_DIAL_TASKS by {
      var i := RemoveFirstSplit(s.running, t);
    }
    assert DynNodes(s') <= DynNodes(s);
    SubsetSize(DynNodes(s'), DynNodes(s));
  }

  /** The counted and the dynamic peers after one joins. */
  lemma PeerJoins(peers: map<Id, Peer>, id: Id, p: Peer)
    requires id !in peers
    ensures DynPeers(peers[id := p]) == DynPeers(peers) + if p.kind.Dyn? then {id} else {}
    ensures |InboundPeers(peers[id := p])| == |InboundPeers(peers)| + if p.kind.Inbound? then 1 else 0
    ensures |peers[id := p]| == |peers| + 1
  {
    InboundJoins(peers, id, p);
    hide InboundPeers;
    OneMore(peers, id, p);
  }

  lemma OneMore(peers: map<Id, Peer>, id: Id, p: Peer)
    requires id !in peers
    ensures |peers[id := p]| == |peers| + 1
  {
    assert peers[id := p].Keys == peers.Keys + {id};
  }

  lemma InboundJoins(peers: map<Id, Peer>, id: Id, p: Peer)
    requires id !in peers
    ensures |InboundPeers(peers[id := p])| == |InboundPeers(peers)| + if p.kind.Inbound? then 1 else 0
  {
    assert InboundPeers(peers[id := p]) == InboundPeers(peers) + if p.kind.Inbound? then {id} else {};
  }

  lemma PeerGoes(peers: map<Id, Peer>, id: Id)
    requires id in peers
    ensures DynPeers(peers - {id}) <= DynPeers(peers)
    ensures |InboundPeers(peers - {id})| == |InboundPeers(peers)| - if peers[id].kind.Inbound? then 1 else 0
  {
    assert InboundPeers(peers - {id}) == InboundPeers(peers) - {id};
  }

  lemma PeerStays(peers: map<Id, Peer>, id: Id, value: bool)
    requires id in peers
    ensures var peers' := peers[id := peers[id].(trusted := value)];
            DynPeers(peers') == DynPeers(peers) && InboundPeers(peers') == InboundPeers(peers)
  {
  }

  /** Changing peers only: nobody new is dynamic unless being dialed so. */
  lemma PeersKeep(sc: Settings, s: Loop, peers: map<Id, Peer>, inboundCount: int)
    requires Inv(sc, s) && DynPeers(peers) <= DynNodes(s)
    requires inboundCount == |InboundPeers(peers)| && sc.dial.self !in peers
    ensures Inv(sc, s.(peers := peers, inboundCount := inboundCount))
  {
    hide CleanHistory, Remembered, InOrder, DynPeers, DynIds, InboundPeers;
    var s' := s.(peers := peers, inboundCount := inboundCount);
    assert DynNodes(s') <= DynNodes(s);
    SubsetSize(DynNodes(s'), DynNodes(s));
  }

  /** A connection of a dial task is to a node being dialed in the same way. */
  lemma DialedConn(s: Loop, c: Conn)
    requires InOrder(s.dialer, s.running + s.queued) && Possible(s, PeerArrives(c)) && c.kind.Dyn?
    ensures c.id in DynIds(s.dialer.dialing)
  {
    hide Lookups, DistinctDests, HasDial;
    var t :| t in s.running && t.DialTask? && t.kind == c.kind && t.dest.id == c.id;
    var i :| 0 <= i < |s.running| && s.running[i] == t;
    assert (s.running + s.queued)[i] == t;
  }

  lemma ArrivedKeeps(sc: Settings, s: Loop, c: Conn)
    requires Inv(sc, s) && Possible(s, PeerArrives(c))
    ensures Inv(sc, Arrived(sc, s, c))
  {
    if c.kind.Dyn? {
      DialedConn(s, c);
    }
    assert sc.dial.self !in s.peers && s.inboundCount == |InboundPeers(s.peers)|;
    hide Inv, InOrder, Possible, DynPeers, DynIds, InboundPeers;
    if ProtoHandshakeChecks(sc, s.peers, s.inboundCount, c).None? {
      PeerJoins(s.peers, c.id, Peer(c.kind, c.trusted));
      PeersKeep(sc, s, s.peers[c.id := Peer(c.kind, c.trusted)], s.inboundCount + if c.kind.Inbound? then 1 else 0);
    }
  }

  lemma DepartedKeeps(sc: Settings, s: Loop, id: Id)
    requires Inv(sc, s) && id in s.peers
    ensures Inv(sc, Departed(s, id))
  {
    PeerGoes(s.peers, id);
    assert sc.dial.self !in s.peers && s.inboundCount == |InboundPeers(s.peers)|;
    hide Inv, DynPeers, DynIds, InboundPeers;
    PeersKeep(sc, s, s.peers - {id}, s.inboundCount - if s.peers[id].kind.Inbound? then 1 else 0);
  }

  lemma TrustedKeeps(sc: Settings, s: Loop, id: Id, value: bool)
    requires Inv(sc, s)
    ensures Inv(sc, Trusted(s, id, value))
  {
    assert sc.dial.self !in s.peers && s.inboundCount == |InboundPeers(s.peers)|;
    hide Inv, DynPeers, DynIds, InboundPeers;
    if id in s.peers {
      PeerStays(s.peers, id, value);
      PeersKeep(sc, s, s.peers[id := s.peers[id].(trusted := value)], s.inboundCount);
    }
  }

  lemma StaticRemovedKeeps(sc: Settings, s: Loop, s': Loop, n: Node)
    requires Inv(sc, s) && Next(sc, s, s', StaticRemoved(n))
    ensures Inv(sc, s')
  {
    hide Recorded, DistinctDests, Lookups, DynPeers, DynIds, InboundPeers;
    SameOrder(s.dialer, s'.dialer, s.running + s.queued);
    ForgottenOne(s.dialer, s'.dialer, s.lastDone, s.clock, n.id);
    assert DynNodes(s') == DynNodes(s);
  }

  lemma ForgottenOne(d: Dialer, d': Dialer, lastDone: map<Id, int>, clock: int, id: Id)
    requires CleanHistory(d) && Remembered(d.hist, lastDone, clock) && RemovedStatic(d, d', id)
    ensures CleanHistory(d') && Remembered(d'.hist, lastDone - {id}, clock)
  {
    RemovedPasts(d, d', id);
    hide RemovedStatic;
    FewerClean(d, d');
    hide CleanHistory;
  }

  lemma RemovedPasts(d: Dialer, d': Dialer, id: Id)
    requires RemovedStatic(d, d', id)
    ensures d'.dialing == d.dialing
    ensures forall p :: d'.hist[p] <= d.hist[p] && (p.id != id ==> d'.hist[p] == d.hist[p])
  {
    hide Remembers;
  }

  lemma FewerClean(d: Dialer, d': Dialer)
    requires CleanHistory(d) && d'.dialing == d.dialing && forall p :: d'.hist[p] <= d.hist[p]
    ensures CleanHistory(d')
  {
    forall p ensures d'.hist[p] <= 1 && (p in d'.hist ==> p in d.hist) {
      assert d.hist[p] <= 1 && d'.hist[p] <= d.hist[p];
    }
  }

  lemma SameOrder(d: Dialer, d': Dialer, tasks: seq<Task>)
    requires InOrder(d, tasks) && d'.dialing == d.dialing && d'.lookupRunning == d.lookupRunning
    ensures InOrder(d', tasks)
  {
  }

  lemma NextKeeps(sc: Settings, s: Loop, s': Loop, e: Event)
    requires Inv(sc, s) && Possible(s, e) && Next(sc, s, s', e)
    ensures Inv(sc, s')
  {
    hide Inv, Ended, Arrived, Departed, Trusted, Scheduled;
    match e
    case Schedule(now, random) =>
      var tasks :| Scheduled(sc, s, s', now, random, tasks);
      ScheduleKeeps(sc, s, s', now, random, tasks);
    case StaticAdded(n) => StaticAddedKeeps(sc, s, n);
    case StaticRemoved(n) => StaticRemovedKeeps(sc, s, s', n);
    case TrustSet(id, value) => TrustedKeeps(sc, s, id, value);
    case TaskEnded(t, results, now) => EndedKeeps(sc, s, t, results, now);
    case PeerArrives(c) => ArrivedKeeps(sc, s, c);
    case PeerLeaves(id) => DepartedKeeps(sc, s, id);
  }

  lemma StaticAddedKeeps(sc: Settings, s: Loop, n: Node)
    requires Inv(sc, s)
    ensures Inv(sc, s.(dialer := AddedStatic(s.dialer, n)))
  {
    assert DynNodes(s.(dialer := AddedStatic(s.dialer, n))) == DynNodes(s);
  }

  // ---------- Runs ----------

  ghost predicate IsRun(sc: Settings, states: seq<Loop>, events: seq<Event>) {
    && |states| == |events| + 1 && Initial(states[0])
    && forall i :: 0 <= i < |events| ==> Possible(states[i], events[i]) && Next(sc, states[i], states[i + 1], events[i])
  }

  lemma {:induction false} RunInv(sc: Settings, states: seq<Loop>, events: seq<Event>, i: nat)
    requires IsRun(sc, states, events) && i < |states|
    ensures Inv(sc, states[i])
  {
    hide Inv, Next, Possible, Initial;
    if i == 0 {
      InitialInv(sc, states[0]);
    } else {
      RunInv(sc, states, events, i - 1);
      NextKeeps(sc, states[i - 1], states[i], events[i - 1]);
    }
  }

  /** Over every interleaving of scheduling, ending tasks, arriving and leaving peers: the nodes that are
      connected by a dynamic dial or being dialed dynamically never exceed the limit, counting each once;
      the inbound counter is the number of inbound peers; no more than 16 tasks run, at most one of them
      a lookup; the unfinished dial tasks are exactly one for each node being dialed. */
  lemma DialAccounting(sc: Settings, states: seq<Loop>, events: seq<Event>, i: nat)
    requires IsRun(sc, states, events) && i < |states|
    ensures var s := states[i];
            && |DynNodes(s)| <= sc.dial.maxDyn
            && s.inboundCount == |InboundPeers(s.peers)|
            && |s.running| <= MAX_ACTIVE_DIAL_TASKS && Lookups(s.running + s.queued) <= 1
            && DistinctDests(s.running + s.queued)
            && (forall id :: id in s.dialer.dialing <==> HasDial(s.running + s.queued, id))
            && (forall p, q | p in s.dialer.hist && q in s.dialer.hist && p.id == q.id :: p == q)
            && (forall p | p in s.dialer.hist :: p.id !in s.dialer.dialing)
  {
    hide IsRun, DynPeers, DynIds, InboundPeers, HasDial, DistinctDests, Lookups;
    RunInv(sc, states, events, i);
  }

  /** No round of scheduling in any run dials ourselves, a connected node, a node already being dialed, or
      a node whose last dial ended within 30 seconds (unless removeStatic asked for it). */
  lemma DialsAreFree(sc: Settings, states: seq<Loop>, events: seq<Event>, i: nat, tasks: seq<Task>)
    requires IsRun(sc, states, events) && i < |events| && events[i].Schedule?
    requires Scheduled(sc, states[i], states[i + 1], events[i].now, events[i].random, tasks)
    ensures forall t | t in tasks && t.DialTask? ::
              && t.dest.id != sc.dial.self && t.dest.id !in states[i].peers && t.dest.id !in states[i].dialer.dialing
              && sc.dial.allowed(t.dest.ip)
              && (t.dest.id in states[i].lastDone ==>
                    states[i].lastDone[t.dest.id] + DIAL_HISTORY_EXPIRATION < events[i].now)
  {
    RunInv(sc, states, events, i);
    assert Possible(states[i], events[i]);
    hide IsRun, Inv, Scheduled;
    ScheduleKeeps(sc, states[i], states[i + 1], events[i].now, events[i].random, tasks);
  }

  /** The two limits add up to the peer limit, and an untrusted inbound connection is admitted only below
      its own. */
  lemma AdmissionLimits(sc: Settings, s: Loop, c: Conn)
    requires Inv(sc, s) && sc.Consistent()
    ensures sc.dial.maxDyn + sc.MaxInbound() == sc.maxPeers && sc.MaxInbound() >= 0
    ensures Arrived(sc, s, c) != s ==>
              && c.useful && c.id !in s.peers && c.id != sc.dial.self
              && (!c.trusted && !c.kind.Static? ==> |Arrived(sc, s, c).peers| <= sc.maxPeers)
              && (!c.trusted && c.kind.Inbound? ==> |InboundPeers(Arrived(sc, s, c).peers)| <= sc.MaxInbound())
  {
    assert s.inboundCount == |InboundPeers(s.peers)|;
    hide Inv, InboundPeers, DynPeers;
    DialedShare(sc.noDiscovery, sc.noDial, sc.maxPeers, sc.dialRatio);
    hide MaxDialedConns;
    if ProtoHandshakeChecks(sc, s.peers, s.inboundCount, c).None? {
      PeerJoins(s.peers, c.id, Peer(c.kind, c.trusted));
    }
  }

  /** When a connection is let in, in every run: exactly if it is useful, neither ourselves nor connected already, and
      either trusted, or static, or within the limits. One let in becomes a peer, and nothing else
      changes. */
  lemma AdmittedIff(sc: Settings, states: seq<Loop>, events: seq<Event>, i: nat)
    requires IsRun(sc, states, events) && i < |events| && events[i].PeerArrives? && sc.Consistent()
    ensures var s, s', c := states[i], states[i + 1], events[i].conn;
            && (s' != s <==>
                  && c.useful && c.id != sc.dial.self && c.id !in s.peers
                  && (c.trusted || c.kind.Static? || |s.peers| < sc.maxPeers)
                  && (c.trusted || !c.kind.Inbound? || |InboundPeers(s.peers)| + sc.dial.maxDyn < sc.maxPeers))
            && (s' != s ==> s'.peers == s.peers[c.id := Peer(c.kind, c.trusted)] && s' == s.(peers := s'.peers, inboundCount := s'.inboundCount))
  {
    RunInv(sc, states, events, i);
    AdmissionLimits(sc, states[i], events[i].conn);
    assert states[i].inboundCount == |InboundPeers(states[i].peers)|;
    assert Next(sc, states[i], states[i + 1], events[i]);
    hide IsRun, Inv, InboundPeers, DynPeers, MaxDialedConns;
    if ProtoHandshakeChecks(sc, states[i].peers, states[i].inboundCount, events[i].conn).None? {
      assert events[i].conn.id in states[i + 1].peers;
    }
  }

  lemma DialedShare(noDiscovery: bool, noDial: bool, maxPeers: nat, dialRatio: nat)
    ensures MaxDialedConns(noDiscovery, noDial, maxPeers, dialRatio) <= maxPeers
  {
    ShareBelow(maxPeers, if dialRatio == 0 then DEFAULT_DIAL_RATIO else dialRatio);
  }

  lemma ShareBelow(n: nat, r: nat)
    requires r > 0
    ensures n / r <= n
  {
    var q := n / r;
    TimesGrows(q, r);
    assert n == q * r + n % r;
  }

  lemma {:induction false} TimesGrows(q: nat, r: nat)
    requires r > 0
    ensures q <= q * r
  {
    if q > 0 {
      TimesGrows(q - 1, r);
      assert q * r == (q - 1) * r + r;
    }
  }

  // ---------- The loop in place ----------

  class Server {
    const sc: Settings
    const dialer: DialState
    var peers: map<Id, Peer>
    var inboundCount: int
    var runningTasks: seq<Task>
    var queuedTasks: seq<Task>
    ghost var clock: int
    ghost var lastDone: map<Id, int>

    ghost predicate Valid()
      reads this, dialer
    {
      dialer.Valid() && dialer.cfg == sc.dial
    }

    ghost function View(): Loop
      reads this, dialer
    {
      Loop(dialer.View(), peers, inboundCount, runningTasks, queuedTasks, clock, lastDone)
    }

    constructor (sc: Settings, bootnodes: seq<Node>)
      ensures Valid() && fresh(dialer) && this.sc == sc && Initial(View())
    {
      this.sc := sc;
      dialer := new DialState(sc.dial, bootnodes);
      peers, inboundCount, runningTasks, queuedTasks := map[], 0, [], [];
      clock, lastDone := 0, map[];
    }

    /** startTasks: the tasks that did not fit. */
    method Start(ts: seq<Task>) returns (rest: seq<Task>)
      modifies this`runningTasks
      ensures (runningTasks, rest) == StartTasks(old(runningTasks), ts)
    {
      var i := 0;
      while |runningTasks| < MAX_ACTIVE_DIAL_TASKS && i < |ts|
        invariant 0 <= i <= |ts| && runningTasks == old(runningTasks) + ts[..i]
        invariant |runningTasks| <= MAX_ACTIVE_DIAL_TASKS || i == 0
      {
        runningTasks := runningTasks + [ts[i]];
        i := i + 1;
      }
      rest := ts[i..];
    }

    /** scheduleTasks. */
    method ScheduleTasks(now: int, random: seq<Node>)
      requires Valid()
      modifies this, dialer
      ensures Valid() && Next(sc, old(View()), View(), Schedule(now, random))
    {
      hide NewTasksDone, StartTasks;
      ghost var s := View();
      var rest := Start(queuedTasks);
      queuedTasks := rest;
      ghost var issued: seq<Task> := [];
      if |runningTasks| < MAX_ACTIVE_DIAL_TASKS {
        var nt := dialer.NewTasks(|runningTasks| + |queuedTasks|, peers, now, random);
        issued := nt;
        rest := Start(nt);
        queuedTasks := queuedTasks + rest;
        clock := now;
      }
      assert Scheduled(sc, s, View(), now, random, issued);
    }

    method AddStatic(n: Node)
      requires Valid()
      modifies dialer
      ensures Valid() && Next(sc, old(View()), View(), StaticAdded(n))
    {
      dialer.AddStatic(n);
    }

    method RemoveStatic(n: Node)
      requires Valid()
      modifies this`lastDone, dialer
      ensures Valid() && Next(sc, old(View()), View(), StaticRemoved(n))
    {
      dialer.RemoveStatic(n);
      lastDone := lastDone - {n.id};
    }

    method SetTrust(id: Id, value: bool)
      requires Valid()
      modifies this`peers
      ensures Valid() && Next(sc, old(View()), View(), TrustSet(id, value))
    {
      if id in peers {
        peers := peers[id := peers[id].(trusted := value)];
      }
    }

    /** delTask: the first running task that equals t goes. */
    method DelTask(t: Task)
      modifies this`runningTasks
      ensures runningTasks == RemoveFirst(old(runningTasks), t)
    {
      var ts := runningTasks;
      var i := 0;
      while i < |ts| && ts[i] != t
        invariant 0 <= i <= |ts|
        invariant RemoveFirst(ts, t) == ts[..i] + RemoveFirst(ts[i..], t)
      {
        assert ts[i..][1..] == ts[i + 1..] && ts[..i + 1] == ts[..i] + [ts[i]];
        i := i + 1;
      }
      if i < |ts| {
        assert ts[i..][1..] == ts[i + 1..];
        runningTasks := ts[..i] + ts[i + 1..];
      }
    }

    /** A task is done: the dialer hears of it, and it leaves the running tasks. */
    method TaskIsDone(t: Task, results: seq<Node>, now: int)
      requires Valid()
      modifies this, dialer
      ensures Valid() && Next(sc, old(View()), View(), TaskEnded(t, results, now))
    {
      dialer.TaskDone(t, results, now);
      DelTask(t);
      clock := now;
      if t.DialTask? {
        lastDone := lastDone[t.dest.id := now];
      }
    }

    /** The addpeer branch: the checks are repeated and the peer is entered. */
    method AddPeer(c: Conn) returns (err: Option<Refusal>)
      requires Valid()
      modifies this`peers, this`inboundCount
      ensures Valid() && Next(sc, old(View()), View(), PeerArrives(c))
      ensures err.None? <==> ProtoHandshakeChecks(sc, old(peers), old(inboundCount), c).None?
    {
      err := ProtoHandshakeChecks(sc, peers, inboundCount, c);
      if err.None? {
        peers := peers[c.id := Peer(c.kind, c.trusted)];
        if c.kind.Inbound? {
          inboundCount := inboundCount + 1;
        }
      }
    }

    method DropPeer(id: Id)
      requires Valid() && id in peers
      modifies this`peers, this`inboundCount
      ensures Valid() && Next(sc, old(View()), View(), PeerLeaves(id))
    {
      var inbound := peers[id].kind.Inbound?;
      peers := peers - {id};
      if inbound {
        inboundCount := inboundCount - 1;
      }
    }
  }
}
