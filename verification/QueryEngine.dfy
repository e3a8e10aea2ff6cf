/** The discv5 event loop: the node state machine, deferred and pending findnode queries, and the
    lookups that wait for their answers (net/rlpx/p2p/discv5/net.go).

    The routing table is not part of this model: what tab.add returns is an input of the event. */
module QueryEngine {
  import opened Wrappers

  const ALPHA := 3
  const MAX_FINDNODE_FAILURES := 5

  /** A node object. The local node's own object is SELF. */
  type NodeRef = nat
  const SELF: NodeRef := 0

  datatype NodeState = Unknown | VerifyInit | VerifyWait | RemoteVerifyWait | Known | Contested | Unresponsive
  {
    predicate CanQuery() { Known? || Contested? || Unresponsive? }
  }

  /** A findnode query: one object per submission, with the channel its answer goes to. */
  datatype Query = Query(serial: nat, remote: NodeRef, reply: nat)

  datatype TimerKind = PongTimeout | PingTimeout | NeighboursTimeout
  datatype Timer = Timer(kind: TimerKind, node: NodeRef)

  /** The state-machine fields of a node. */
  datatype Guts = Guts(state: NodeState, deferred: seq<Query>, pending: Option<Query>, timeouts: nat, pinged: bool)

  const FRESH := Guts(Unknown, [], None, 0, false)

  /** A lookup in progress: the channel it reads, how many answers it counts on, whom it has asked. */
  datatype Lookup = Lookup(reply: nat, pendingQueries: nat, asked: set<NodeRef>)

  datatype Net = Net(
    nodes: map<NodeRef, Guts>,
    timers: set<Timer>,
    buffers: map<nat, seq<Query>>,   // answers delivered and not yet read, by channel
    stuck: bool,                     // the loop is blocked sending to a full channel
    submitted: set<Query>,           // every query the loop has ever taken
    answered: multiset<Query>,       // every answer the loop has ever sent
    lookups: map<nat, Lookup>,
    channels: nat)                   // channels made so far are 0..channels-1
  {
    function At(n: NodeRef): Guts { if n in nodes then nodes[n] else FRESH }
    function Put(n: NodeRef, g: Guts): Net { this.(nodes := nodes[n := g]) }
    function Buffer(c: nat): seq<Query> { if c in buffers then buffers[c] else [] }
  }

  // ---------- The loop's actions ----------

  /** `q.reply <- nodes`: blocks when the channel already holds ALPHA answers. */
  function Reply(net: Net, q: Query): Net {
    if |net.Buffer(q.reply)| >= ALPHA then net.(stuck := true)
    else net.(answered := net.answered + multiset{q}, buffers := net.buffers[q.reply := net.Buffer(q.reply) + [q]])
  }

  /** ping: not while one is outstanding, and never to the local identity. */
  function Ping(own: set<NodeRef>, net: Net, n: NodeRef): Net {
    if net.At(n).pinged || n in own then net
    else net.Put(n, net.At(n).(pinged := true)).(timers := net.timers + {Timer(PongTimeout, n)})
  }

  function ToVerifyInit(own: set<NodeRef>, net: Net, n: NodeRef): Net {
    Ping(own, net.Put(n, net.At(n).(state := VerifyInit)), n)
  }

  /** findnodeQuery.start: whether the query was answered or sent. */
  function Start(own: set<NodeRef>, net: Net, q: Query): (Net, bool) {
    var g := net.At(q.remote);
    if q.remote == SELF then (Reply(net, q), true)
    else if g.state.CanQuery() && g.pending.None? then
      (net.Put(q.remote, g.(pending := Some(q))).(timers := net.timers + {Timer(NeighboursTimeout, q.remote)}), true)
    else if g.state.Unknown? then (ToVerifyInit(own, net, q.remote), false)
    else (net, false)
  }

  function DeferQuery(net: Net, q: Query): Net {
    net.Put(q.remote, net.At(q.remote).(deferred := net.At(q.remote).deferred + [q]))
  }

  function DropFirstDeferred(net: Net, n: NodeRef): Net {
    var g := net.At(n);
    if g.deferred == [] then net else net.Put(n, g.(deferred := g.deferred[1..]))
  }

  function StartNextQuery(own: set<NodeRef>, net: Net, n: NodeRef): Net {
    if net.At(n).deferred == [] then net
    else
      var (net1, started) := Start(own, net, net.At(n).deferred[0]);
      if started then DropFirstDeferred(net1, n) else net1
  }

  /** Answers all deferred queries of n, oldest first. */
  function AbortDeferred(net: Net, n: NodeRef): Net
    decreases |net.At(n).deferred|
  {
    if net.At(n).deferred == [] then net
    else
      var q := net.At(n).deferred[0];
      var net1 := Reply(DropFirstDeferred(net, n), q);
      AbortDeferred(net1, n)
  }

  /** Answers the pending query of n, if any. */
  function AbortPending(net: Net, n: NodeRef): Net {
    var g := net.At(n);
    if g.pending.None? then net else Reply(net.Put(n, g.(pending := None)), g.pending.value)
  }

  function EnterUnknown(net: Net, n: NodeRef): Net {
    var net1 := AbortPending(AbortDeferred(net.Put(n, net.At(n).(pinged := false)), n), n);
    net1.Put(n, net1.At(n).(timeouts := 0))
  }

  function EnterKnown(own: set<NodeRef>, net: Net, n: NodeRef, last: Option<NodeRef>): Net {
    var net1 := StartNextQuery(own, net.Put(n, net.At(n).(timeouts := 0)), n);
    if last.Some? && net1.At(last.value).state.Known? then
      Ping(own, net1.Put(last.value, net1.At(last.value).(state := Contested)), last.value)
    else net1
  }

  /** transition: sets the state and runs the new state's enter action. `last` is what tab.add
      returns if it is called. */
  function Transition(own: set<NodeRef>, net: Net, n: NodeRef, next: NodeState, last: Option<NodeRef>): Net {
    if net.At(n).state == next then net
    else
      var net1 := net.Put(n, net.At(n).(state := next));
      match next
      case Unknown => EnterUnknown(net1, n)
      case VerifyInit => Ping(own, net1, n)
      case VerifyWait => net1
      case RemoteVerifyWait => net1.(timers := net1.timers + {Timer(PingTimeout, n)})
      case Known => EnterKnown(own, net1, n, last)
      case Contested => Ping(own, net1, n)
      case Unresponsive => net1
  }

  /** What arrives for a node. A neighbours packet carries the nodes it introduces. */
  datatype NodeEvent =
    | PingPacket
    | PongPacket(tokenMatches: bool)
    | FindnodePacket
    | NeighborsPacket(found: seq<NodeRef>)
    | FindnodeHashPacket
    | TopicRegisterPacket
    | TopicQueryPacket
    | TopicNodesPacket(countsAsTimeout: bool)
    | Expired(kind: TimerKind)

  function VerifyNew(own: set<NodeRef>, net: Net, found: seq<NodeRef>): Net
    decreases |found|
  {
    if |found| == 0 then net
    else VerifyNew(own, if net.At(found[0]).state.Unknown? then ToVerifyInit(own, net, found[0]) else net, found[1..])
  }

  function HandleNeighbours(own: set<NodeRef>, net: Net, n: NodeRef, found: seq<NodeRef>): Net {
    if net.At(n).pending.None? then net
    else
      var net1 := net.(timers := net.timers - {Timer(NeighboursTimeout, n)});
      StartNextQuery(own, AbortPending(VerifyNew(own, net1, found), n), n)
  }

  function CountTimeout(net: Net, n: NodeRef): (Net, NodeState) {
    var net1 := net.Put(n, net.At(n).(timeouts := net.At(n).timeouts + 1));
    var g := net1.At(n);
    (net1, if g.timeouts > MAX_FINDNODE_FAILURES && g.state.Known? then Contested else g.state)
  }

  function HandleQueryEvent(own: set<NodeRef>, net: Net, n: NodeRef, ev: NodeEvent): (Net, NodeState) {
    if ev.NeighborsPacket? then
      var net1 := HandleNeighbours(own, net, n, ev.found);
      (net1, net1.At(n).state)
    else if ev == Expired(NeighboursTimeout) then CountTimeout(AbortPending(net, n), n)
    else if ev.TopicNodesPacket? && ev.countsAsTimeout then CountTimeout(net, n)
    else (net, net.At(n).state)
  }

  function KnownPong(net: Net, n: NodeRef): Net {
    net.Put(n, net.At(n).(pinged := false)).(timers := net.timers - {Timer(PongTimeout, n)})
  }

  /** The handle function of each state: the new network and the state to move to. */
  function HandleIn(own: set<NodeRef>, net: Net, n: NodeRef, ev: NodeEvent): (Net, NodeState) {
    match net.At(n).state
    case Unknown =>
      if ev.PingPacket? then (Ping(own, net, n), VerifyWait) else (net, Unknown)
    case VerifyInit =>
      if ev.PingPacket? then (net, VerifyWait)
      else if ev.PongPacket? then (KnownPong(net, n), RemoteVerifyWait)
      else if ev == Expired(PongTimeout) then (net, Unknown)
      else (net, VerifyInit)
    case VerifyWait =>
      if ev.PongPacket? then (KnownPong(net, n), Known)
      else if ev == Expired(PongTimeout) then (net, Unknown)
      else (net, VerifyWait)
    case RemoteVerifyWait =>
      if ev == Expired(PingTimeout) then (net, Known) else (net, RemoteVerifyWait)
    case Known =>
      if ev.PingPacket? then (net, Known)
      else if ev.PongPacket? then (KnownPong(net, n), Known)
      else HandleQueryEvent(own, net, n, ev)
    case Contested =>
      if ev.PongPacket? then (KnownPong(net, n), Known)
      else if ev == Expired(PongTimeout) then (net, Unresponsive)
      else if ev.PingPacket? then (net, Contested)
      else HandleQueryEvent(own, net, n, ev)
    case Unresponsive =>
      if ev.PingPacket? then (net, Known)
      else if ev.PongPacket? then (KnownPong(net, n), Known)
      else HandleQueryEvent(own, net, n, ev)
  }

  /** handle: a pong with the wrong token is dropped; anything else goes to the state machine. */
  function Handle(own: set<NodeRef>, net: Net, n: NodeRef, ev: NodeEvent, last: Option<NodeRef>): Net {
    if ev.PongPacket? && !ev.tokenMatches then net
    else
      var net0 := if ev.PongPacket? then net.Put(n, net.At(n).(pinged := false)) else net;
      var (net1, next) := HandleIn(own, net0, n, ev);
      Transition(own, net1, n, next, last)
  }

  /** The loop takes a query from queryReq. */
  function TakeQuery(own: set<NodeRef>, net: Net, q: Query): Net {
    var (net1, started) := Start(own, net.(submitted := net.submitted + {q}), q);
    if started then net1 else DeferQuery(net1, q)
  }

  // ---------- Events of the whole system ----------

  datatype Event =
    | Packet(node: NodeRef, ev: NodeEvent, last: Option<NodeRef>)
    | TimerFires(timer: Timer, last: Option<NodeRef>)
    | Seed(node: NodeRef)                            // refresh interns a seed node
    | PingNode(node: NodeRef)                        // a ticket lookup pings
    | LookupBegins(lookup: nat)
    | LookupAsks(lookup: nat, serial: nat, remote: NodeRef)
    | LookupReads(lookup: nat)
    | LookupGivesUp(lookup: nat)                     // respTimeout: a new channel, nothing pending
    | LookupEnds(lookup: nat)

  /** What the program itself checks before an event can happen. */
  predicate Possible(net: Net, e: Event) {
    match e
    case Packet(_, ev, _) => !ev.Expired?
    case TimerFires(t, _) => t in net.timers
    case LookupBegins(l) => l !in net.lookups
    case LookupAsks(l, serial, remote) =>
      // each query is a new object; the lookup asks only below ALPHA pending, nobody twice, and first the
      // local node, its only initial result
      l in net.lookups && net.lookups[l].pendingQueries < ALPHA
      && remote !in net.lookups[l].asked && (net.lookups[l].asked == {} ==> remote == SELF)
      && Query(serial, remote, net.lookups[l].reply) !in net.submitted
    case LookupReads(l) => l in net.lookups && net.lookups[l].pendingQueries > 0 && net.Buffer(net.lookups[l].reply) != []
    case LookupGivesUp(l) => l in net.lookups && net.lookups[l].pendingQueries > 0
    case LookupEnds(l) => l in net.lookups
    case _ => true
  }

  /** The lookup asks one more node; nodes with the local identity are all asked with the local node. */
  function Asking(own: set<NodeRef>, lk: Lookup, remote: NodeRef): Lookup {
    lk.(pendingQueries := lk.pendingQueries + 1,
        asked := lk.asked + {remote} + if remote == SELF || remote in own then own + {SELF} else {})
  }

  function Step(own: set<NodeRef>, net: Net, e: Event): Net
    requires Possible(net, e)
  {
    match e
    case Packet(n, ev, last) => Handle(own, net, n, ev, last)
    case TimerFires(t, last) => Handle(own, net.(timers := net.timers - {t}), t.node, Expired(t.kind), last)
    case Seed(n) => if net.At(n).state.Unknown? then ToVerifyInit(own, net, n) else net
    case PingNode(n) => Ping(own, net, n)
    case LookupBegins(l) => net.(lookups := net.lookups[l := Lookup(net.channels, 0, {})], channels := net.channels + 1)
    case LookupAsks(l, serial, remote) =>
      var lk := net.lookups[l];
      TakeQuery(own, net.(lookups := net.lookups[l := Asking(own, lk, remote)]), Query(serial, remote, lk.reply))
    case LookupReads(l) =>
      var lk := net.lookups[l];
      net.(lookups := net.lookups[l := lk.(pendingQueries := lk.pendingQueries - 1)],
           buffers := net.buffers[lk.reply := net.Buffer(lk.reply)[1..]])
    case LookupGivesUp(l) =>
      net.(lookups := net.lookups[l := Lookup(net.channels, 0, net.lookups[l].asked)], channels := net.channels + 1)
    case LookupEnds(l) => net.(lookups := net.lookups - {l})
  }

  // ---------- Invariants ----------

  /** How often a node's record holds q, deferred or pending. */
  function Held(g: Guts, q: Query): nat {
    multiset(g.deferred)[q] + if g.pending == Some(q) then 1 else 0
  }

  /** How many places hold q: its remote's deferred list, its remote's pending slot, the answers. */
  function Places(net: Net, q: Query): nat {
    Held(net.At(q.remote), q) + net.answered[q]
  }

  /** A query waits only at the node it is for. */
  ghost predicate HomedAt(g: Guts, n: NodeRef) {
    && (forall q | q in g.deferred :: q.remote == n)
    && (g.pending.Some? ==> g.pending.value.remote == n)
  }

  ghost predicate Homed(net: Net) {
    forall n: NodeRef :: HomedAt(net.At(n), n)
  }

  /** Every query the loop has taken is in exactly one place, counting `hand`, the one the loop is
      working on. */
  ghost predicate Conserved(net: Net, hand: multiset<Query>) {
    forall q :: Places(net, q) + hand[q] == if q in net.submitted then 1 else 0
  }

  /** The queries whose answers channel c still waits for. */
  function Outstanding(net: Net, c: nat): set<Query> {
    set q | q in net.submitted && q.reply == c && q !in net.answered
  }

  function Load(net: Net, c: nat): nat {
    |Outstanding(net, c)| + |net.Buffer(c)|
  }

  /** No channel owes and holds more than its capacity; a lookup's channel no more than the lookup
      counts on. */
  ghost predicate Loaded(net: Net) {
    && (forall c: nat :: Load(net, c) <= ALPHA)
    && (forall l | l in net.lookups ::
          Load(net, net.lookups[l].reply) <= net.lookups[l].pendingQueries <= ALPHA)
  }

  /** Channels are private to one lookup. */
  ghost predicate Private(net: Net) {
    && (forall l | l in net.lookups :: net.lookups[l].reply < net.channels)
    && (forall l, m | l in net.lookups && m in net.lookups && l != m :: net.lookups[l].reply != net.lookups[m].reply)
    && (forall q | q in net.submitted :: q.reply < net.channels)
    && (forall c: nat | c >= net.channels :: net.Buffer(c) == [])
  }

  ghost predicate Inv(net: Net, hand: multiset<Query>) {
    Homed(net) && Conserved(net, hand) && Loaded(net) && Private(net) && !net.stuck
  }

  // ---------- Preservation ----------

  /** The parts of a network other than its nodes and timers. */
  ghost predicate SameLedger(a: Net, b: Net) {
    && a.submitted == b.submitted && a.answered == b.answered && a.buffers == b.buffers && a.stuck == b.stuck
    && a.lookups == b.lookups && a.channels == b.channels
  }

  lemma SameLoads(a: Net, b: Net)
    requires SameLedger(a, b) && Loaded(a) && Private(a)
    ensures Loaded(b) && Private(b)
  {
    forall c: nat ensures Load(b, c) == Load(a, c) && b.Buffer(c) == a.Buffer(c) {
      assert Outstanding(b, c) == Outstanding(a, c);
    }
  }

  /** Moving queries between one node's record and the hand. */
  lemma MoveKeeps(net: Net, n: NodeRef, g: Guts, timers: set<Timer>, hand: multiset<Query>, hand': multiset<Query>)
    requires Inv(net, hand) && HomedAt(g, n)
    requires forall q: Query | q.remote == n :: Held(g, q) + hand'[q] == Held(net.At(n), q) + hand[q]
    requires forall q: Query | q.remote != n :: hand'[q] == hand[q]
    ensures Inv(net.Put(n, g).(timers := timers), hand')
  {
    hide Held, HomedAt, Loaded, Private;
    var net' := net.Put(n, g).(timers := timers);
    SameLoads(net, net');
    forall q ensures Places(net', q) + hand'[q] == if q in net'.submitted then 1 else 0 {
      assert Places(net, q) + hand[q] == if q in net.submitted then 1 else 0;
      if q.remote != n {
        assert net'.At(q.remote) == net.At(q.remote);
      }
    }
    forall m: NodeRef ensures HomedAt(net'.At(m), m) {
      assert HomedAt(net.At(m), m);
    }
  }

  /** Changing anything but a node's queries. */
  lemma PutKeeps(net: Net, n: NodeRef, g: Guts, timers: set<Timer>, hand: multiset<Query>)
    requires Inv(net, hand) && g.deferred == net.At(n).deferred && g.pending == net.At(n).pending
    ensures Inv(net.Put(n, g).(timers := timers), hand)
  {
    assert HomedAt(net.At(n), n);
    MoveKeeps(net, n, g, timers, hand, hand);
  }

  lemma TimersKeep(net: Net, timers: set<Timer>)
    requires Inv(net, multiset{})
    ensures Inv(net.(timers := timers), multiset{})
  {
    hide Held, HomedAt, Loaded, Private;
    var net' := net.(timers := timers);
    SameLoads(net, net');
    forall q ensures Places(net', q) == if q in net'.submitted then 1 else 0 {
      assert Places(net, q) + multiset{}[q] == if q in net.submitted then 1 else 0;
    }
    forall m: NodeRef ensures HomedAt(net'.At(m), m) {
      assert HomedAt(net.At(m), m);
    }
  }

  lemma PingKeeps(own: set<NodeRef>, net: Net, n: NodeRef, hand: multiset<Query>)
    requires Inv(net, hand)
    ensures Inv(Ping(own, net, n), hand)
  {
    hide Inv;
    PutKeeps(net, n, net.At(n).(pinged := true), net.timers + {Timer(PongTimeout, n)}, hand);
  }

  lemma ToVerifyInitKeeps(own: set<NodeRef>, net: Net, n: NodeRef, hand: multiset<Query>)
    requires Inv(net, hand)
    ensures Inv(ToVerifyInit(own, net, n), hand)
  {
    hide Inv, Ping;
    PutKeeps(net, n, net.At(n).(state := VerifyInit), net.timers, hand);
    PingKeeps(own, net.Put(n, net.At(n).(state := VerifyInit)), n, hand);
  }

  lemma ReplyLoads(net: Net, q: Query)
    requires Loaded(net) && Private(net) && q in net.submitted && q !in net.answered
    ensures |net.Buffer(q.reply)| < ALPHA && Loaded(Reply(net, q)) && Private(Reply(net, q))
  {
    assert q in Outstanding(net, q.reply);
    assert Load(net, q.reply) <= ALPHA;
    var net' := Reply(net, q);
    assert net'.lookups == net.lookups && net'.submitted == net.submitted && net'.channels == net.channels;
    forall c: nat ensures Load(net', c) == Load(net, c) {
      ReplyLoad(net, q, c);
    }
    assert q.reply < net.channels && forall c: nat | c != q.reply :: net'.Buffer(c) == net.Buffer(c);
    hide Reply, Load;
  }

  lemma ReplyLoad(net: Net, q: Query, c: nat)
    requires q in net.submitted && q !in net.answered && |net.Buffer(q.reply)| < ALPHA
    ensures Load(Reply(net, q), c) == Load(net, c)
  {
    if c == q.reply {
      assert Outstanding(Reply(net, q), c) == Outstanding(net, c) - {q};
    } else {
      assert Outstanding(Reply(net, q), c) == Outstanding(net, c);
    }
  }

  /** An answer to the query in hand never blocks, and keeps everything. */
  lemma ReplyKeeps(net: Net, q: Query)
    requires Inv(net, multiset{q})
    ensures Inv(Reply(net, q), multiset{})
  {
    hide Held, HomedAt, Loaded, Private;
    var net' := Reply(net, q);
    assert Places(net, q) + multiset{q}[q] == if q in net.submitted then 1 else 0;
    ReplyLoads(net, q);
    forall p ensures Places(net', p) == if p in net'.submitted then 1 else 0 {
      assert Places(net, p) + multiset{q}[p] == if p in net.submitted then 1 else 0;
    }
    forall m: NodeRef ensures HomedAt(net'.At(m), m) {
      assert HomedAt(net.At(m), m);
    }
  }

  /** Taking the pending query of n into the hand. */
  lemma UnpendKeeps(net: Net, n: NodeRef)
    requires Inv(net, multiset{}) && net.At(n).pending.Some?
    ensures Inv(net.Put(n, net.At(n).(pending := None)), multiset{net.At(n).pending.value})
  {
    assert HomedAt(net.At(n), n);
    hide Homed, Conserved, Loaded, Private;
    MoveKeeps(net, n, net.At(n).(pending := None), net.timers, multiset{}, multiset{net.At(n).pending.value});
  }

  /** Taking the oldest deferred query of n into the hand. */
  lemma UndeferKeeps(net: Net, n: NodeRef)
    requires Inv(net, multiset{}) && net.At(n).deferred != []
    ensures Inv(DropFirstDeferred(net, n), multiset{net.At(n).deferred[0]})
    ensures net.At(n).deferred[0].remote == n
  {
    assert HomedAt(net.At(n), n);
    hide Homed, Conserved, Loaded, Private;
    var d := net.At(n).deferred;
    assert d == [d[0]] + d[1..];
    MoveKeeps(net, n, net.At(n).(deferred := d[1..]), net.timers, multiset{}, multiset{d[0]});
  }

  /** Putting the query in hand at the end of its remote's deferred list. */
  lemma DeferKeeps(net: Net, q: Query)
    requires Inv(net, multiset{q})
    ensures Inv(DeferQuery(net, q), multiset{})
  {
    assert HomedAt(net.At(q.remote), q.remote);
    hide Homed, Conserved, Loaded, Private;
    var g := net.At(q.remote);
    MoveKeeps(net, q.remote, g.(deferred := g.deferred + [q]), net.timers, multiset{q}, multiset{});
  }

  /** Starting the query in hand: it is placed, or it stays in hand. */
  lemma StartKeeps(own: set<NodeRef>, net: Net, q: Query)
    requires Inv(net, multiset{q})
    ensures Inv(Start(own, net, q).0, if Start(own, net, q).1 then multiset{} else multiset{q})
  {
    assert HomedAt(net.At(q.remote), q.remote);
    hide Homed, Conserved, Loaded, Private, Reply, ToVerifyInit;
    var g := net.At(q.remote);
    if q.remote == SELF {
      ReplyKeeps(net, q);
    } else if Start(own, net, q).1 {
      MoveKeeps(net, q.remote, g.(pending := Some(q)), net.timers + {Timer(NeighboursTimeout, q.remote)},
                multiset{q}, multiset{});
    } else {
      ToVerifyInitKeeps(own, net, q.remote, multiset{q});
    }
  }

  /** Dropping the deferred query after starting it is dropping it before. */
  lemma StartThenDrop(own: set<NodeRef>, net: Net, n: NodeRef)
    requires net.At(n).deferred != [] && net.At(n).deferred[0].remote == n
    ensures var q := net.At(n).deferred[0];
            var dropped := Start(own, DropFirstDeferred(net, n), q);
            && dropped.1 == Start(own, net, q).1
            && (dropped.1 ==> dropped.0 == StartNextQuery(own, net, n))
  {
    hide Ping;
    var q, g := net.At(n).deferred[0], net.At(n);
    var net1 := DropFirstDeferred(net, n);
    assert net1 == net.Put(n, g.(deferred := g.deferred[1..]));
    if n == SELF {
      hide StartNextQuery;
      assert Start(own, net, q) == (Reply(net, q), true);
      assert StartNextQuery(own, net, n) == DropFirstDeferred(Reply(net, q), n) by {
        hide Reply, DropFirstDeferred;
      }
      assert Reply(net1, q) == DropFirstDeferred(Reply(net, q), n);
    } else if g.state.CanQuery() && g.pending.None? {
      hide Reply;
      var timers := net.timers + {Timer(NeighboursTimeout, n)};
      assert Start(own, net1, q) == (net1.Put(n, net1.At(n).(pending := Some(q))).(timers := timers), true);
      assert Start(own, net, q) == (net.Put(n, g.(pending := Some(q))).(timers := timers), true);
      PutTwice(net, n, net1.At(n), net1.At(n).(pending := Some(q)));
      PutTwice(net, n, g.(pending := Some(q)), net1.At(n).(pending := Some(q)));
    }
  }

  lemma PutTwice(net: Net, n: NodeRef, g: Guts, g': Guts)
    ensures net.Put(n, g).Put(n, g') == net.Put(n, g') && net.Put(n, g).At(n) == g
  {
    assert net.nodes[n := g][n := g'] == net.nodes[n := g'];
  }

  lemma StartNextKeeps(own: set<NodeRef>, net: Net, n: NodeRef)
    requires Inv(net, multiset{})
    ensures Inv(StartNextQuery(own, net, n), multiset{})
  {
    hide Inv, ToVerifyInit, Reply;
    if net.At(n).deferred != [] {
      var q := net.At(n).deferred[0];
      UndeferKeeps(net, n);
      StartThenDrop(own, net, n);
      StartKeeps(own, DropFirstDeferred(net, n), q);
      ToVerifyInitKeeps(own, net, n, multiset{});
    }
  }

  lemma {:induction false} AbortDeferredKeeps(net: Net, n: NodeRef)
    requires Inv(net, multiset{})
    ensures Inv(AbortDeferred(net, n), multiset{})
    decreases |net.At(n).deferred|
  {
    hide Inv;
    if net.At(n).deferred != [] {
      var q := net.At(n).deferred[0];
      UndeferKeeps(net, n);
      ReplyKeeps(DropFirstDeferred(net, n), q);
      AbortDeferredKeeps(Reply(DropFirstDeferred(net, n), q), n);
    }
  }

  lemma AbortPendingKeeps(net: Net, n: NodeRef)
    requires Inv(net, multiset{})
    ensures Inv(AbortPending(net, n), multiset{})
  {
    hide Inv;
    if net.At(n).pending.Some? {
      UnpendKeeps(net, n);
      ReplyKeeps(net.Put(n, net.At(n).(pending := None)), net.At(n).pending.value);
    }
  }

  lemma TransitionKeeps(own: set<NodeRef>, net: Net, n: NodeRef, next: NodeState, last: Option<NodeRef>)
    requires Inv(net, multiset{})
    ensures Inv(Transition(own, net, n, next, last), multiset{})
  {
    hide Inv, Ping, StartNextQuery, AbortDeferred, AbortPending;
    if net.At(n).state != next {
      PutKeeps(net, n, net.At(n).(state := next), net.timers, multiset{});
      var net1 := net.Put(n, net.At(n).(state := next));
      match next
      case Unknown =>
        PutKeeps(net1, n, net1.At(n).(pinged := false), net1.timers, multiset{});
        var net2 := net1.Put(n, net1.At(n).(pinged := false));
        AbortDeferredKeeps(net2, n);
        var net3 := AbortDeferred(net2, n);
        AbortPendingKeeps(net3, n);
        var net4 := AbortPending(net3, n);
        PutKeeps(net4, n, net4.At(n).(timeouts := 0), net4.timers, multiset{});
      case VerifyInit => PingKeeps(own, net1, n, multiset{});
      case VerifyWait =>
      case RemoteVerifyWait => TimersKeep(net1, net1.timers + {Timer(PingTimeout, n)});
      case Known => EnterKnownKeeps(own, net1, n, last);
      case Contested => PingKeeps(own, net1, n, multiset{});
      case Unresponsive =>
    }
  }

  lemma EnterKnownKeeps(own: set<NodeRef>, net: Net, n: NodeRef, last: Option<NodeRef>)
    requires Inv(net, multiset{})
    ensures Inv(EnterKnown(own, net, n, last), multiset{})
  {
    hide Inv, Ping, StartNextQuery;
    PutKeeps(net, n, net.At(n).(timeouts := 0), net.timers, multiset{});
    var net1 := net.Put(n, net.At(n).(timeouts := 0));
    StartNextKeeps(own, net1, n);
    var net2 := StartNextQuery(own, net1, n);
    if last.Some? && net2.At(last.value).state.Known? {
      PutKeeps(net2, last.value, net2.At(last.value).(state := Contested), net2.timers, multiset{});
      PingKeeps(own, net2.Put(last.value, net2.At(last.value).(state := Contested)), last.value, multiset{});
    }
  }

  lemma {:induction false} VerifyNewKeeps(own: set<NodeRef>, net: Net, found: seq<NodeRef>)
    requires Inv(net, multiset{})
    ensures Inv(VerifyNew(own, net, found), multiset{})
    decreases |found|
  {
    hide Inv, ToVerifyInit;
    if |found| > 0 {
      if net.At(found[0]).state.Unknown? {
        ToVerifyInitKeeps(own, net, found[0], multiset{});
        VerifyNewKeeps(own, ToVerifyInit(own, net, found[0]), found[1..]);
      } else {
        VerifyNewKeeps(own, net, found[1..]);
      }
    }
  }

  lemma HandleQueryEventKeeps(own: set<NodeRef>, net: Net, n: NodeRef, ev: NodeEvent)
    requires Inv(net, multiset{})
    ensures Inv(HandleQueryEvent(own, net, n, ev).0, multiset{})
  {
    hide Inv, VerifyNew, AbortPending, StartNextQuery;
    if ev.NeighborsPacket? && net.At(n).pending.Some? {
      var net1 := net.(timers := net.timers - {Timer(NeighboursTimeout, n)});
      TimersKeep(net, net1.timers);
      VerifyNewKeeps(own, net1, ev.found);
      AbortPendingKeeps(VerifyNew(own, net1, ev.found), n);
      StartNextKeeps(own, AbortPending(VerifyNew(own, net1, ev.found), n), n);
    } else if ev == Expired(NeighboursTimeout) {
      AbortPendingKeeps(net, n);
      var net1 := AbortPending(net, n);
      PutKeeps(net1, n, net1.At(n).(timeouts := net1.At(n).timeouts + 1), net1.timers, multiset{});
    } else if ev.TopicNodesPacket? && ev.countsAsTimeout {
      PutKeeps(net, n, net.At(n).(timeouts := net.At(n).timeouts + 1), net.timers, multiset{});
    }
  }

  lemma HandleKeeps(own: set<NodeRef>, net: Net, n: NodeRef, ev: NodeEvent, last: Option<NodeRef>)
    requires Inv(net, multiset{})
    ensures Inv(Handle(own, net, n, ev, last), multiset{})
  {
    hide Inv, Ping, HandleQueryEvent, Transition;
    if !(ev.PongPacket? && !ev.tokenMatches) {
      var net0 := if ev.PongPacket? then net.Put(n, net.At(n).(pinged := false)) else net;
      PutKeeps(net, n, net.At(n).(pinged := false), net.timers, multiset{});
      PingKeeps(own, net0, n, multiset{});
      PutKeeps(net0, n, net0.At(n).(pinged := false), net0.timers - {Timer(PongTimeout, n)}, multiset{});
      HandleQueryEventKeeps(own, net0, n, ev);
      var (net1, next) := HandleIn(own, net0, n, ev);
      TransitionKeeps(own, net1, n, next, last);
    }
  }

  /** Nodes and answers are all that conservation looks at. */
  lemma SamePlaces(a: Net, b: Net)
    requires Homed(a) && Conserved(a, multiset{})
    requires a.nodes == b.nodes && a.answered == b.answered && a.submitted == b.submitted
    ensures Homed(b) && Conserved(b, multiset{})
  {
    hide Held, HomedAt;
    forall q ensures Places(b, q) == if q in b.submitted then 1 else 0 {
      assert Places(a, q) + multiset{}[q] == if q in a.submitted then 1 else 0;
    }
    forall m: NodeRef ensures HomedAt(b.At(m), m) {
      assert HomedAt(a.At(m), m);
    }
  }

  /** The network as the loop receives query q of lookup l. */
  function Submit(own: set<NodeRef>, net: Net, l: nat, q: Query): Net
    requires l in net.lookups
  {
    net.(lookups := net.lookups[l := Asking(own, net.lookups[l], q.remote)], submitted := net.submitted + {q})
  }

  lemma SubmitPlaces(own: set<NodeRef>, net: Net, l: nat, q: Query)
    requires Homed(net) && Conserved(net, multiset{}) && l in net.lookups && q !in net.submitted
    ensures Homed(Submit(own, net, l, q)) && Conserved(Submit(own, net, l, q), multiset{q})
    ensures q !in net.answered
  {
    hide Held, HomedAt;
    var net1 := Submit(own, net, l, q);
    assert Places(net, q) + multiset{}[q] == 0;
    forall p ensures Places(net1, p) + multiset{q}[p] == if p in net1.submitted then 1 else 0 {
      assert Places(net, p) + multiset{}[p] == if p in net.submitted then 1 else 0;
    }
    forall m: NodeRef ensures HomedAt(net1.At(m), m) {
      assert HomedAt(net.At(m), m);
    }
  }

  lemma SubmitLoads(own: set<NodeRef>, net: Net, l: nat, q: Query)
    requires Loaded(net) && Private(net) && l in net.lookups && net.lookups[l].pendingQueries < ALPHA
    requires q !in net.submitted && q !in net.answered && q.reply == net.lookups[l].reply
    ensures Loaded(Submit(own, net, l, q)) && Private(Submit(own, net, l, q))
  {
    var net1 := Submit(own, net, l, q);
    forall c: nat ensures Load(net1, c) == Load(net, c) + (if c == q.reply then 1 else 0) && net1.Buffer(c) == net.Buffer(c) {
      SubmitLoad(own, net, l, q, c);
    }
    forall c: nat ensures Load(net1, c) <= ALPHA {
      assert Load(net, c) <= ALPHA;
    }
  }

  lemma SubmitLoad(own: set<NodeRef>, net: Net, l: nat, q: Query, c: nat)
    requires l in net.lookups && q !in net.submitted && q !in net.answered
    ensures Load(Submit(own, net, l, q), c) == Load(net, c) + if c == q.reply then 1 else 0
  {
    assert Outstanding(Submit(own, net, l, q), c) == Outstanding(net, c) + if c == q.reply then {q} else {};
  }

  /** A lookup submits a query: the loop takes it, the lookup counts one more. */
  lemma AskKeeps(own: set<NodeRef>, net: Net, l: nat, serial: nat, remote: NodeRef)
    requires Inv(net, multiset{}) && Possible(net, LookupAsks(l, serial, remote))
    ensures Inv(Step(own, net, LookupAsks(l, serial, remote)), multiset{})
  {
    hide Homed, Conserved, Loaded, Private, Start, DeferQuery;
    var lk := net.lookups[l];
    var q := Query(serial, remote, lk.reply);
    SubmitPlaces(own, net, l, q);
    SubmitLoads(own, net, l, q);
    var net1 := Submit(own, net, l, q);
    StartKeeps(own, net1, q);
    var (net2, started) := Start(own, net1, q);
    if !started {
      DeferKeeps(net2, q);
    }
  }

  /** A lookup takes a channel nobody has used. */
  lemma NewChannelKeeps(net: Net, l: nat, asked: set<NodeRef>)
    requires Inv(net, multiset{})
    ensures Inv(net.(lookups := net.lookups[l := Lookup(net.channels, 0, asked)], channels := net.channels + 1), multiset{})
  {
    hide Homed, Conserved;
    var net' := net.(lookups := net.lookups[l := Lookup(net.channels, 0, asked)], channels := net.channels + 1);
    SamePlaces(net, net');
    assert Outstanding(net, net.channels) == {};
    forall c: nat ensures Load(net', c) == Load(net, c) && net'.Buffer(c) == net.Buffer(c) {
      assert Outstanding(net', c) == Outstanding(net, c);
    }
    assert Load(net, net.channels) == 0;
  }

  /** A lookup reads one answer: one less to count on, one less on the channel. */
  lemma ReadKeeps(own: set<NodeRef>, net: Net, l: nat)
    requires Inv(net, multiset{}) && Possible(net, LookupReads(l))
    ensures Inv(Step(own, net, LookupReads(l)), multiset{})
  {
    hide Homed, Conserved;
    var net' := Step(own, net, LookupReads(l));
    SamePlaces(net, net');
    forall c: nat ensures Load(net', c) <= ALPHA && Load(net', c) == Load(net, c) - if c == net.lookups[l].reply then 1 else 0 {
      assert Load(net, c) <= ALPHA;
      ReadLoad(own, net, l, c);
    }
    hide Load;
    forall c: nat | c >= net'.channels ensures net'.Buffer(c) == [] {
      assert net.Buffer(c) == [] && c != net.lookups[l].reply;
    }
  }

  lemma ReadLoad(own: set<NodeRef>, net: Net, l: nat, c: nat)
    requires Possible(net, LookupReads(l))
    ensures Load(Step(own, net, LookupReads(l)), c) == Load(net, c) - if c == net.lookups[l].reply then 1 else 0
  {
    assert Outstanding(Step(own, net, LookupReads(l)), c) == Outstanding(net, c);
  }

  lemma EndKeeps(net: Net, l: nat)
    requires Inv(net, multiset{})
    ensures Inv(net.(lookups := net.lookups - {l}), multiset{})
  {
    hide Homed, Conserved;
    var net' := net.(lookups := net.lookups - {l});
    SamePlaces(net, net');
    forall c: nat ensures Load(net', c) == Load(net, c) && net'.Buffer(c) == net.Buffer(c) {
      assert Outstanding(net', c) == Outstanding(net, c);
    }
  }

  /** Every event keeps the invariant. */
  lemma StepKeeps(own: set<NodeRef>, net: Net, e: Event)
    requires Inv(net, multiset{}) && Possible(net, e)
    ensures Inv(Step(own, net, e), multiset{})
  {
    hide Inv, Handle, TakeQuery, ToVerifyInit, Ping;
    match e
    case LookupBegins(l) => NewChannelKeeps(net, l, {});
    case LookupAsks(l, serial, remote) => AskKeeps(own, net, l, serial, remote);
    case LookupReads(l) => ReadKeeps(own, net, l);
    case LookupGivesUp(l) => NewChannelKeeps(net, l, net.lookups[l].asked);
    case LookupEnds(l) => EndKeeps(net, l);
    case _ => LoopStepKeeps(own, net, e);
  }

  lemma LoopStepKeeps(own: set<NodeRef>, net: Net, e: Event)
    requires Inv(net, multiset{}) && Possible(net, e)
    requires e.Packet? || e.TimerFires? || e.Seed? || e.PingNode?
    ensures Inv(Step(own, net, e), multiset{})
  {
    hide Inv, Handle, ToVerifyInit, Ping;
    match e
    case Packet(n, ev, last) => HandleKeeps(own, net, n, ev, last);
    case TimerFires(t, last) =>
      TimersKeep(net, net.timers - {t});
      HandleKeeps(own, net.(timers := net.timers - {t}), t.node, Expired(t.kind), last);
    case Seed(n) =>
      if net.At(n).state.Unknown? {
        ToVerifyInitKeeps(own, net, n, multiset{});
      }
    case PingNode(n) => PingKeeps(own, net, n, multiset{});
  }

  // ---------- Runs ----------

  const EMPTY := Net(map[], {}, map[], false, {}, multiset{}, map[], 0)

  /** A run from the empty network: states before each event, and the last one. */
  ghost predicate IsRun(own: set<NodeRef>, states: seq<Net>, events: seq<Event>) {
    && |states| == |events| + 1 && states[0] == EMPTY
    && forall i :: 0 <= i < |events| ==> Possible(states[i], events[i]) && states[i + 1] == Step(own, states[i], events[i])
  }

  lemma EmptyInv()
    ensures Inv(EMPTY, multiset{})
  {
    forall c: nat ensures Load(EMPTY, c) == 0 {
      assert Outstanding(EMPTY, c) == {};
    }
  }

  lemma {:induction false} RunInv(own: set<NodeRef>, states: seq<Net>, events: seq<Event>, i: nat)
    requires IsRun(own, states, events) && i < |states|
    ensures Inv(states[i], multiset{})
  {
    hide Inv, Step, Possible;
    if i == 0 {
      EmptyInv();
    } else {
      RunInv(own, states, events, i - 1);
      assert Possible(states[i - 1], events[i - 1]);
      StepKeeps(own, states[i - 1], events[i - 1]);
    }
  }

  /** Conservation: at every point of every run each query taken so far is in exactly one place, its
      remote's deferred list, its remote's pending slot or the answers, and it is answered at most
      once; nothing else is anywhere. */
  lemma QueryConservation(own: set<NodeRef>, states: seq<Net>, events: seq<Event>, i: nat, q: Query)
    requires IsRun(own, states, events) && i < |states|
    ensures q in states[i].submitted ==> Places(states[i], q) == 1
    ensures q !in states[i].submitted ==> Places(states[i], q) == 0
    ensures states[i].answered[q] <= 1
  {
    hide IsRun, Step;
    RunInv(own, states, events, i);
    assert Places(states[i], q) + multiset{}[q] == if q in states[i].submitted then 1 else 0;
  }

  /** The loop never blocks on a reply: at every point of every run every channel has room for all
      the answers still owed on it. */
  lemma NeverBlocks(own: set<NodeRef>, states: seq<Net>, events: seq<Event>, i: nat, c: nat)
    requires IsRun(own, states, events) && i < |states|
    ensures !states[i].stuck
    ensures |Outstanding(states[i], c)| + |states[i].Buffer(c)| <= ALPHA
  {
    hide IsRun, Step;
    RunInv(own, states, events, i);
    assert Load(states[i], c) <= ALPHA;
  }

  // ---------- Deadlines ----------

  /** A node waits for neighbours exactly while a neighbours timer runs for it, and only in a state
      in which it can be queried. */
  ghost predicate TimedAt(net: Net, n: NodeRef) {
    && (net.At(n).pending.Some? <==> Timer(NeighboursTimeout, n) in net.timers)
    && (net.At(n).pending.Some? ==> net.At(n).state.CanQuery())
  }

  ghost predicate Timed(net: Net) {
    forall n: NodeRef :: TimedAt(net, n)
  }

  /** The same timers as far as neighbours are concerned. */
  ghost predicate SameDeadlines(a: set<Timer>, b: set<Timer>) {
    forall n: NodeRef :: Timer(NeighboursTimeout, n) in b <==> Timer(NeighboursTimeout, n) in a
  }

  lemma TimedPut(net: Net, n: NodeRef, g: Guts, timers: set<Timer>)
    requires Timed(net) && g.pending == net.At(n).pending && SameDeadlines(net.timers, timers)
    requires g.pending.Some? ==> g.state.CanQuery()
    ensures Timed(net.Put(n, g).(timers := timers))
  {
    var net' := net.Put(n, g).(timers := timers);
    forall m: NodeRef ensures TimedAt(net', m) {
      assert TimedAt(net, m);
    }
  }

  lemma TimedReply(net: Net, q: Query)
    requires Timed(net)
    ensures Timed(Reply(net, q))
  {
    forall m: NodeRef ensures TimedAt(Reply(net, q), m) {
      assert TimedAt(net, m);
    }
  }

  lemma TimedPing(own: set<NodeRef>, net: Net, n: NodeRef)
    requires Timed(net)
    ensures Timed(Ping(own, net, n))
  {
    assert TimedAt(net, n);
    hide Timed, TimedAt;
    TimedPut(net, n, net.At(n).(pinged := true), net.timers + {Timer(PongTimeout, n)});
  }

  lemma TimedToVerifyInit(own: set<NodeRef>, net: Net, n: NodeRef)
    requires Timed(net) && net.At(n).state.Unknown?
    ensures Timed(ToVerifyInit(own, net, n))
  {
    assert TimedAt(net, n);
    hide Timed, TimedAt, Ping;
    TimedPut(net, n, net.At(n).(state := VerifyInit), net.timers);
    TimedPing(own, net.Put(n, net.At(n).(state := VerifyInit)), n);
  }

  lemma TimedStart(own: set<NodeRef>, net: Net, q: Query)
    requires Timed(net)
    ensures Timed(Start(own, net, q).0)
  {
    hide ToVerifyInit, Reply;
    var net' := Start(own, net, q).0;
    if q.remote == SELF {
      TimedReply(net, q);
    } else if Start(own, net, q).1 {
      forall m: NodeRef ensures TimedAt(net', m) {
        assert TimedAt(net, m);
      }
    } else if net.At(q.remote).state.Unknown? {
      TimedToVerifyInit(own, net, q.remote);
    }
  }

  lemma TimedStartNext(own: set<NodeRef>, net: Net, n: NodeRef)
    requires Timed(net)
    ensures Timed(StartNextQuery(own, net, n))
  {
    if net.At(n).deferred != [] {
      TimedStart(own, net, net.At(n).deferred[0]);
      var net1 := Start(own, net, net.At(n).deferred[0]).0;
      assert TimedAt(net1, n);
      hide Timed, TimedAt, Start;
      if net1.At(n).deferred != [] {
        TimedPut(net1, n, net1.At(n).(deferred := net1.At(n).deferred[1..]), net1.timers);
      }
    }
  }

  /** Taking a query away from a node without pending ones leaves it without pending ones. */
  lemma {:induction false} TimedAbortDeferred(net: Net, n: NodeRef)
    requires Timed(net)
    ensures Timed(AbortDeferred(net, n)) && AbortDeferred(net, n).At(n).pending == net.At(n).pending
    decreases |net.At(n).deferred|
  {
    if net.At(n).deferred != [] {
      assert TimedAt(net, n);
      hide Timed, TimedAt;
      var net1 := DropFirstDeferred(net, n);
      TimedPut(net, n, net.At(n).(deferred := net.At(n).deferred[1..]), net.timers);
      TimedReply(net1, net.At(n).deferred[0]);
      TimedAbortDeferred(Reply(net1, net.At(n).deferred[0]), n);
    }
  }

  lemma TimedEnterUnknown(net: Net, n: NodeRef)
    requires Timed(net) && net.At(n).pending.None?
    ensures Timed(EnterUnknown(net, n))
  {
    hide Timed, TimedAt, AbortDeferred;
    TimedPut(net, n, net.At(n).(pinged := false), net.timers);
    var net1 := net.Put(n, net.At(n).(pinged := false));
    TimedAbortDeferred(net1, n);
    var net2 := AbortDeferred(net1, n);
    TimedPut(net2, n, net2.At(n).(timeouts := 0), net2.timers);
  }

  lemma TimedEnterKnown(own: set<NodeRef>, net: Net, n: NodeRef, last: Option<NodeRef>)
    requires Timed(net) && net.At(n).state.Known?
    ensures Timed(EnterKnown(own, net, n, last))
  {
    hide Timed, Ping, StartNextQuery;
    TimedPut(net, n, net.At(n).(timeouts := 0), net.timers);
    var net1 := net.Put(n, net.At(n).(timeouts := 0));
    TimedStartNext(own, net1, n);
    var net2 := StartNextQuery(own, net1, n);
    if last.Some? && net2.At(last.value).state.Known? {
      TimedPut(net2, last.value, net2.At(last.value).(state := Contested), net2.timers);
      TimedPing(own, net2.Put(last.value, net2.At(last.value).(state := Contested)), last.value);
    }
  }

  /** A transition may leave the queryable states only while nothing is pending. */
  lemma TimedTransition(own: set<NodeRef>, net: Net, n: NodeRef, next: NodeState, last: Option<NodeRef>)
    requires Timed(net) && (net.At(n).pending.Some? ==> next.CanQuery())
    ensures Timed(Transition(own, net, n, next, last))
  {
    hide Timed, TimedAt, Ping, EnterKnown, EnterUnknown;
    if net.At(n).state != next {
      TimedPut(net, n, net.At(n).(state := next), net.timers);
      var net1 := net.Put(n, net.At(n).(state := next));
      match next
      case Unknown => TimedEnterUnknown(net1, n);
      case VerifyInit => TimedPing(own, net1, n);
      case VerifyWait =>
      case RemoteVerifyWait => TimedPut(net1, n, net1.At(n), net1.timers + {Timer(PingTimeout, n)});
        assert net1.Put(n, net1.At(n)) == net1;
      case Known => TimedEnterKnown(own, net1, n, last);
      case Contested => TimedPing(own, net1, n);
      case Unresponsive =>
    }
  }

  /** Verifying newly found nodes touches no pending query and no queryable node. */
  lemma {:induction false} TimedVerifyNew(own: set<NodeRef>, net: Net, found: seq<NodeRef>, n: NodeRef)
    requires TimedBut(net, n) && net.At(n).state.CanQuery()
    ensures TimedBut(VerifyNew(own, net, found), n)
    ensures VerifyNew(own, net, found).At(n) == net.At(n)
    ensures SameDeadlines(net.timers, VerifyNew(own, net, found).timers)
    decreases |found|
  {
    if |found| > 0 {
      var net1 := if net.At(found[0]).state.Unknown? then ToVerifyInit(own, net, found[0]) else net;
      assert TimedBut(net1, n) by {
        forall m: NodeRef | m != n ensures TimedAt(net1, m) {
          assert TimedAt(net, m);
        }
      }
      hide TimedBut, TimedAt;
      TimedVerifyNew(own, net1, found[1..], n);
    }
  }

  ghost predicate TimedBut(net: Net, n: NodeRef) {
    forall m: NodeRef | m != n :: TimedAt(net, m)
  }

  /** Answering the pending query of a node whose timer is gone. */
  lemma TimedAbortPending(net: Net, n: NodeRef)
    requires TimedBut(net, n) && Timer(NeighboursTimeout, n) !in net.timers
    ensures Timed(AbortPending(net, n)) && AbortPending(net, n).At(n).pending.None?
    ensures AbortPending(net, n).At(n).state == net.At(n).state
  {
    var net' := AbortPending(net, n);
    forall m: NodeRef ensures TimedAt(net', m) {
      if m != n {
        assert TimedAt(net, m);
      }
    }
  }

  lemma TimedNeighbours(own: set<NodeRef>, net: Net, n: NodeRef, found: seq<NodeRef>)
    requires Timed(net) && net.At(n).state.CanQuery()
    ensures Timed(HandleNeighbours(own, net, n, found))
  {
    if net.At(n).pending.Some? {
      var net1 := net.(timers := net.timers - {Timer(NeighboursTimeout, n)});
      assert TimedBut(net1, n) by {
        forall m: NodeRef | m != n ensures TimedAt(net1, m) {
          assert TimedAt(net, m);
        }
      }
      hide Timed, TimedAt, TimedBut, VerifyNew, AbortPending, StartNextQuery;
      TimedVerifyNew(own, net1, found, n);
      var net2 := VerifyNew(own, net1, found);
      TimedAbortPending(net2, n);
      TimedStartNext(own, AbortPending(net2, n), n);
    }
  }

  lemma TimedCountTimeout(net: Net, n: NodeRef)
    requires Timed(net) && net.At(n).state.CanQuery()
    ensures Timed(CountTimeout(net, n).0) && CountTimeout(net, n).1.CanQuery()
  {
    assert TimedAt(net, n);
    hide Timed, TimedAt;
    TimedPut(net, n, net.At(n).(timeouts := net.At(n).timeouts + 1), net.timers);
  }

  lemma TimedHandleIn(own: set<NodeRef>, net: Net, n: NodeRef, ev: NodeEvent)
    requires Timed(net) && ev != Expired(NeighboursTimeout)
    ensures var (net1, next) := HandleIn(own, net, n, ev);
            Timed(net1) && (net1.At(n).pending.Some? ==> next.CanQuery())
  {
    assert TimedAt(net, n);
    var g := net.At(n);
    var (net1, next) := HandleIn(own, net, n, ev);
    if ev.PingPacket? && g.state.Unknown? {
      TimedPing(own, net, n);
    } else if ev.PongPacket? {
      TimedPut(net, n, g.(pinged := false), net.timers - {Timer(PongTimeout, n)});
    } else if g.state.CanQuery() && ev.NeighborsPacket? {
      TimedNeighbours(own, net, n, ev.found);
      assert TimedAt(net1, n);
    } else if g.state.CanQuery() && ev.TopicNodesPacket? {
      TimedCountTimeout(net, n);
    }
  }

  lemma TimedHandle(own: set<NodeRef>, net: Net, n: NodeRef, ev: NodeEvent, last: Option<NodeRef>)
    requires Timed(net) && ev != Expired(NeighboursTimeout)
    ensures Timed(Handle(own, net, n, ev, last))
  {
    assert TimedAt(net, n);
    hide Timed, TimedAt, HandleIn, Transition;
    if !(ev.PongPacket? && !ev.tokenMatches) {
      var net0 := if ev.PongPacket? then net.Put(n, net.At(n).(pinged := false)) else net;
      TimedPut(net, n, net.At(n).(pinged := false), net.timers);
      TimedHandleIn(own, net0, n, ev);
      var (net1, next) := HandleIn(own, net0, n, ev);
      TimedTransition(own, net1, n, next, last);
    }
  }

  /** The deadline of a pending query: it is answered and nothing else loses its timer. */
  lemma TimedDeadline(own: set<NodeRef>, net: Net, n: NodeRef, last: Option<NodeRef>)
    requires Timed(net) && Timer(NeighboursTimeout, n) in net.timers
    ensures Timed(Handle(own, net.(timers := net.timers - {Timer(NeighboursTimeout, n)}), n, Expired(NeighboursTimeout), last))
  {
    assert TimedAt(net, n);
    var net0 := net.(timers := net.timers - {Timer(NeighboursTimeout, n)});
    assert TimedBut(net0, n) by {
      forall m: NodeRef | m != n ensures TimedAt(net0, m) {
        assert TimedAt(net, m);
      }
    }
    hide Timed, TimedBut, TimedAt, AbortPending, Transition, CountTimeout;
    TimedAbortPending(net0, n);
    TimedCountTimeout(AbortPending(net0, n), n);
    var (net1, next) := CountTimeout(AbortPending(net0, n), n);
    TimedTransition(own, net1, n, next, last);
  }

  lemma TimedTake(own: set<NodeRef>, net: Net, q: Query)
    requires Timed(net)
    ensures Timed(TakeQuery(own, net, q))
  {
    var net0 := net.(submitted := net.submitted + {q});
    assert Timed(net0) by {
      SameNodesTimed(net, net0);
    }
    TimedStart(own, net0, q);
    var (net1, started) := Start(own, net0, q);
    assert TimedAt(net1, q.remote);
    hide Timed, TimedAt, Start;
    if !started {
      TimedPut(net1, q.remote, net1.At(q.remote).(deferred := net1.At(q.remote).deferred + [q]), net1.timers);
    }
  }

  lemma SameNodesTimed(a: Net, b: Net)
    requires Timed(a) && a.nodes == b.nodes && SameDeadlines(a.timers, b.timers)
    ensures Timed(b)
  {
    forall m: NodeRef ensures TimedAt(b, m) {
      assert TimedAt(a, m);
    }
  }

  lemma TimedStep(own: set<NodeRef>, net: Net, e: Event)
    requires Timed(net) && Possible(net, e)
    ensures Timed(Step(own, net, e))
  {
    hide Timed, TimedAt, Handle, TakeQuery, Ping, ToVerifyInit;
    match e
    case Packet(n, ev, last) => TimedHandle(own, net, n, ev, last);
    case TimerFires(t, last) =>
      if t.kind.NeighboursTimeout? {
        TimedDeadline(own, net, t.node, last);
      } else {
        SameNodesTimed(net, net.(timers := net.timers - {t}));
        TimedHandle(own, net.(timers := net.timers - {t}), t.node, Expired(t.kind), last);
      }
    case Seed(n) =>
      if net.At(n).state.Unknown? {
        TimedToVerifyInit(own, net, n);
      }
    case PingNode(n) => TimedPing(own, net, n);
    case LookupAsks(l, serial, remote) =>
      var lk := net.lookups[l];
      var net0 := net.(lookups := net.lookups[l := Asking(own, lk, remote)]);
      SameNodesTimed(net, net0);
      TimedTake(own, net0, Query(serial, remote, lk.reply));
    case _ =>
      SameNodesTimed(net, Step(own, net, e));
  }

  lemma {:induction false} RunTimed(own: set<NodeRef>, states: seq<Net>, events: seq<Event>, i: nat)
    requires IsRun(own, states, events) && i < |states|
    ensures Timed(states[i])
  {
    if i == 0 {
      assert forall n: NodeRef :: TimedAt(EMPTY, n);
    } else {
      hide Timed, Step, Possible;
      RunTimed(own, states, events, i - 1);
      TimedStep(own, states[i - 1], events[i - 1]);
    }
  }

  /** Deadlines: at every point of every run a node has a pending query exactly while its neighbours
      timer is running, and when that timer fires the query is answered. A pending query is therefore
      never forgotten, and no node is ever demoted to a state without queries while one is pending.
      The timeout starts none of the queries deferred behind it: the node is left idle with the same
      deferred list. */
  lemma PendingHasDeadline(own: set<NodeRef>, states: seq<Net>, events: seq<Event>, i: nat, n: NodeRef, last: Option<NodeRef>)
    requires IsRun(own, states, events) && i < |states|
    ensures states[i].At(n).pending.Some? <==> Timer(NeighboursTimeout, n) in states[i].timers
    ensures states[i].At(n).pending.Some? ==>
              var q := states[i].At(n).pending.value;
              var net' := Step(own, states[i], TimerFires(Timer(NeighboursTimeout, n), last));
              && states[i].At(n).state.CanQuery() && states[i].answered[q] == 0 && net'.answered[q] == 1
              && net'.At(n).pending.None? && net'.At(n).deferred == states[i].At(n).deferred
  {
    RunTimed(own, states, events, i);
    assert TimedAt(states[i], n);
    RunInv(own, states, events, i);
    if states[i].At(n).pending.Some? {
      assert HomedAt(states[i].At(n), n);
      DeadlineAnswers(own, states[i], n, last);
    }
  }

  lemma DeadlineAnswers(own: set<NodeRef>, net: Net, n: NodeRef, last: Option<NodeRef>)
    requires Inv(net, multiset{}) && Timed(net) && net.At(n).pending.Some?
    ensures Timer(NeighboursTimeout, n) in net.timers
    ensures var q := net.At(n).pending.value;
            var net' := Step(own, net, TimerFires(Timer(NeighboursTimeout, n), last));
            && net.answered[q] == 0 && net'.answered[q] == 1
            && net'.At(n).pending.None? && net'.At(n).deferred == net.At(n).deferred
  {
    var q := net.At(n).pending.value;
    assert TimedAt(net, n);
    PendingUnanswered(net, n);
    ReplyLoads(net, q);
    hide Inv, Timed;
    AbortPendingAnswers(own, net.(timers := net.timers - {Timer(NeighboursTimeout, n)}), n, last);
  }

  lemma PendingUnanswered(net: Net, n: NodeRef)
    requires Inv(net, multiset{}) && net.At(n).pending.Some?
    ensures net.At(n).pending.value in net.submitted && net.answered[net.At(n).pending.value] == 0
  {
    var q := net.At(n).pending.value;
    assert HomedAt(net.At(n), n);
    assert Places(net, q) + multiset{}[q] == if q in net.submitted then 1 else 0;
  }

  lemma AbortPendingAnswers(own: set<NodeRef>, net: Net, n: NodeRef, last: Option<NodeRef>)
    requires net.At(n).pending.Some? && net.At(n).state.CanQuery()
    requires |net.Buffer(net.At(n).pending.value.reply)| < ALPHA
    ensures var net' := Handle(own, net, n, Expired(NeighboursTimeout), last);
            && net'.answered == net.answered + multiset{net.At(n).pending.value}
            && net'.At(n).pending.None? && net'.At(n).deferred == net.At(n).deferred
  {
    hide Reply;
    var g, q := net.At(n), net.At(n).pending.value;
    var net0 := net.Put(n, g.(pending := None));
    assert Reply(net0, q).answered == net.answered + multiset{q} && Reply(net0, q).nodes == net0.nodes by {
      ReplyRecords(net0, q);
    }
    var (net1, next) := CountTimeout(Reply(net0, q), n);
    assert HandleIn(own, net, n, Expired(NeighboursTimeout)) == (net1, next);
    hide AbortPending, HandleIn, CountTimeout;
    assert next == net1.At(n).state || next == Contested;
  }

  lemma ReplyRecords(net: Net, q: Query)
    requires |net.Buffer(q.reply)| < ALPHA
    ensures Reply(net, q).answered == net.answered + multiset{q} && Reply(net, q).nodes == net.nodes
  {
  }

  // ---------- A query left behind ----------

  const FIRST := Query(0, 1, 0)
  const SECOND := Query(1, 1, 1)

  /** The queries to the local node with which the two lookups begin. */
  function Opening(l: nat): Query { Query(2 + l, SELF, l) }

  /** Node 1 pings us and answers our ping. Two lookups each ask the local node, then node 1, whose answer to the
      first times out. */
  const TIMED_OUT: seq<Event> :=
    [Packet(1, PingPacket, None), Packet(1, PongPacket(true), None),
     LookupBegins(0), LookupAsks(0, 2, SELF), LookupReads(0), LookupAsks(0, 0, 1),
     LookupBegins(1), LookupAsks(1, 3, SELF), LookupReads(1), LookupAsks(1, 1, 1),
     TimerFires(Timer(NeighboursTimeout, 1), None)]

  /** A network that knows node 1 only, by its record, timers and ledger. */
  function OneNode(g: Guts, timers: set<Timer>, lookups: map<nat, Lookup>, ledger: Net): Net {
    ledger.(nodes := map[1 := g], timers := timers, lookups := lookups)
  }

  /** The ledger once lookup 0, or both, have had their answer from the local node. */
  function Ledger(submitted: set<Query>, answered: multiset<Query>, buffers: map<nat, seq<Query>>, channels: nat): Net {
    EMPTY.(submitted := submitted, answered := answered, buffers := buffers, channels := channels)
  }

  function LeftBehindStates(): seq<Net> {
    var idle, waiting := Guts(Known, [], None, 0, false), Guts(Known, [], Some(FIRST), 0, false);
    var timers := {Timer(NeighboursTimeout, 1)};
    var o0, o1 := Opening(0), Opening(1);
    var done := Lookup(0, 1, {SELF, 1});
    [EMPTY,
     OneNode(Guts(VerifyWait, [], None, 0, true), {Timer(PongTimeout, 1)}, map[], EMPTY),
     OneNode(idle, {}, map[], EMPTY),
     OneNode(idle, {}, map[0 := Lookup(0, 0, {})], Ledger({}, multiset{}, map[], 1)),
     OneNode(idle, {}, map[0 := Lookup(0, 1, {SELF})], Ledger({o0}, multiset{o0}, map[0 := [o0]], 1)),
     OneNode(idle, {}, map[0 := Lookup(0, 0, {SELF})], Ledger({o0}, multiset{o0}, map[0 := []], 1)),
     OneNode(waiting, timers, map[0 := done], Ledger({o0, FIRST}, multiset{o0}, map[0 := []], 1)),
     OneNode(waiting, timers, map[0 := done, 1 := Lookup(1, 0, {})], Ledger({o0, FIRST}, multiset{o0}, map[0 := []], 2)),
     OneNode(waiting, timers, map[0 := done, 1 := Lookup(1, 1, {SELF})],
             Ledger({o0, FIRST, o1}, multiset{o0, o1}, map[0 := [], 1 := [o1]], 2)),
     OneNode(waiting, timers, map[0 := done, 1 := Lookup(1, 0, {SELF})],
             Ledger({o0, FIRST, o1}, multiset{o0, o1}, map[0 := [], 1 := []], 2)),
     OneNode(Guts(Known, [SECOND], Some(FIRST), 0, false), timers, map[0 := done, 1 := Lookup(1, 1, {SELF, 1})],
             Ledger({o0, FIRST, o1, SECOND}, multiset{o0, o1}, map[0 := [], 1 := []], 2)),
     OneNode(Guts(Known, [SECOND], None, 1, false), {}, map[0 := done, 1 := Lookup(1, 1, {SELF, 1})],
             Ledger({o0, FIRST, o1, SECOND}, multiset{o0, o1, FIRST}, map[0 := [FIRST], 1 := []], 2))]
  }

  lemma OneNodePut(g: Guts, timers: set<Timer>, lookups: map<nat, Lookup>, ledger: Net, g': Guts)
    ensures OneNode(g, timers, lookups, ledger).Put(1, g') == OneNode(g', timers, lookups, ledger)
  {
    assert map[1 := g][1 := g'] == map[1 := g'];
  }

  /** The ping of an unknown node. */
  lemma PingedFirst()
    ensures Step({}, EMPTY, TIMED_OUT[0]) == LeftBehindStates()[1]
  {
    var pinged := OneNode(Guts(Unknown, [], None, 0, true), {Timer(PongTimeout, 1)}, map[], EMPTY);
    assert Ping({}, EMPTY, 1) == pinged by {
      assert EMPTY.timers + {Timer(PongTimeout, 1)} == {Timer(PongTimeout, 1)};
    }
    assert HandleIn({}, EMPTY, 1, PingPacket) == (pinged, VerifyWait);
    OneNodePut(pinged.At(1), pinged.timers, map[], EMPTY, pinged.At(1).(state := VerifyWait));
  }

  /** Its pong makes it known. */
  lemma PongedSecond()
    ensures Step({}, LeftBehindStates()[1], TIMED_OUT[1]) == LeftBehindStates()[2]
  {
    hide StartNextQuery, Ping, EnterUnknown, HandleQueryEvent;
    var net, g := LeftBehindStates()[1], Guts(VerifyWait, [], None, 0, false);
    var net1 := OneNode(g, {}, map[], EMPTY);
    OneNodePut(net.At(1), net.timers, map[], EMPTY, g);
    OneNodePut(g, net.timers, map[], EMPTY, g);
    assert net.timers - {Timer(PongTimeout, 1)} == {};
    assert HandleIn({}, net.Put(1, g), 1, PongPacket(true)) == (net1, Known);
    OneNodePut(g, {}, map[], EMPTY, g.(state := Known));
    OneNodePut(g.(state := Known), {}, map[], EMPTY, g.(state := Known));
    StartNothing(LeftBehindStates()[2]);
  }

  lemma StartNothing(net: Net)
    requires net.At(1).deferred == []
    ensures StartNextQuery({}, net, 1) == net
  {
  }

  /** A lookup asks the local node, which answers at once. */
  lemma OpeningAnswered(net: Net, l: nat)
    requires l in net.lookups && net.lookups[l] == Lookup(l, 0, {}) && net.Buffer(l) == []
    ensures Step({}, net, LookupAsks(l, 2 + l, SELF)) ==
            net.(lookups := net.lookups[l := Lookup(l, 1, {SELF})], submitted := net.submitted + {Opening(l)},
                 answered := net.answered + multiset{Opening(l)}, buffers := net.buffers[l := [Opening(l)]])
    requires Possible(net, LookupAsks(l, 2 + l, SELF))
  {
    assert Asking({}, Lookup(l, 0, {}), SELF) == Lookup(l, 1, {SELF});
    assert [] + [Opening(l)] == [Opening(l)];
  }

  /** The first query to node 1 is sent. */
  lemma AskedFirst()
    ensures Step({}, LeftBehindStates()[5], TIMED_OUT[5]) == LeftBehindStates()[6]
  {
    hide Reply, ToVerifyInit;
    var lookups, ledger := map[0 := Lookup(0, 1, {SELF, 1})], Ledger({Opening(0), FIRST}, multiset{Opening(0)}, map[0 := []], 1);
    var net := OneNode(Guts(Known, [], None, 0, false), {}, lookups, ledger);
    assert Asking({}, Lookup(0, 0, {SELF}), 1) == Lookup(0, 1, {SELF, 1});
    assert map[0 := Lookup(0, 0, {SELF})][0 := Lookup(0, 1, {SELF, 1})] == lookups;
    assert {Opening(0)} + {FIRST} == {Opening(0), FIRST};
    OneNodePut(net.At(1), {}, lookups, ledger, net.At(1).(pending := Some(FIRST)));
    assert {} + {Timer(NeighboursTimeout, 1)} == {Timer(NeighboursTimeout, 1)};
    assert Start({}, net, FIRST) == (LeftBehindStates()[6], true);
  }

  /** The second has to wait. */
  lemma AskedSecond()
    ensures Step({}, LeftBehindStates()[9], TIMED_OUT[9]) == LeftBehindStates()[10]
  {
    hide Reply, ToVerifyInit;
    var before, net' := LeftBehindStates()[9], LeftBehindStates()[10];
    var net := before.(lookups := net'.lookups, submitted := net'.submitted);
    assert Asking({}, Lookup(1, 0, {SELF}), 1) == Lookup(1, 1, {SELF, 1});
    assert before.lookups[1 := Lookup(1, 1, {SELF, 1})] == net'.lookups;
    assert before.submitted + {SECOND} == net'.submitted;
    assert Start({}, net, SECOND) == (net, false);
    assert [] + [SECOND] == [SECOND];
    OneNodePut(net.At(1), net.timers, net.lookups, net, net.At(1).(deferred := [SECOND]));
    assert DeferQuery(net, SECOND) == net';
  }

  /** The timeout answers the first and leaves the second. */
  lemma TimedOutLast()
    ensures Step({}, LeftBehindStates()[10], TIMED_OUT[10]) == LeftBehindStates()[11]
  {
    var net, last := LeftBehindStates()[10], LeftBehindStates()[11];
    assert net.timers - {Timer(NeighboursTimeout, 1)} == {};
    var net0 := net.(timers := {});
    var g := net.At(1).(pending := None);
    OneNodePut(net.At(1), {}, net.lookups, net, g);
    var net1 := OneNode(g, {}, net.lookups, net).(answered := last.answered, buffers := last.buffers);
    assert AbortPending(net0, 1) == net1 by {
      assert [] + [FIRST] == [FIRST] && net.answered + multiset{FIRST} == last.answered;
      assert net.buffers[0 := [FIRST]] == last.buffers;
    }
    assert map[1 := g][1 := g.(timeouts := 1)] == map[1 := g.(timeouts := 1)];
    hide AbortPending;
    assert CountTimeout(net1, 1) == (last, Known);
    assert HandleIn({}, net0, 1, Expired(NeighboursTimeout)) == (last, Known);
  }

  lemma LookupsBegin(i: nat)
    requires i == 2 || i == 6
    ensures Possible(LeftBehindStates()[i], TIMED_OUT[i])
    ensures Step({}, LeftBehindStates()[i], TIMED_OUT[i]) == LeftBehindStates()[i + 1]
  {
    var net := LeftBehindStates()[i];
    assert net.lookups[net.channels := Lookup(net.channels, 0, {})] == LeftBehindStates()[i + 1].lookups;
  }

  lemma Lookup0Opens()
    ensures Possible(LeftBehindStates()[3], TIMED_OUT[3])
    ensures Step({}, LeftBehindStates()[3], TIMED_OUT[3]) == LeftBehindStates()[4]
  {
    hide Step;
    var net, net' := LeftBehindStates()[3], LeftBehindStates()[4];
    var o := Opening(0);
    assert net.lookups[0 := Lookup(0, 1, {SELF})] == net'.lookups;
    assert net.submitted + {o} == net'.submitted;
    assert net.answered + multiset{o} == net'.answered;
    assert net.buffers[0 := [o]] == net'.buffers;
    OpeningAnswered(net, 0);
  }

  lemma Lookup1Opens()
    ensures Possible(LeftBehindStates()[7], TIMED_OUT[7])
    ensures Step({}, LeftBehindStates()[7], TIMED_OUT[7]) == LeftBehindStates()[8]
  {
    hide Step;
    var net, net' := LeftBehindStates()[7], LeftBehindStates()[8];
    var o := Opening(1);
    assert net.lookups[1 := Lookup(1, 1, {SELF})] == net'.lookups;
    assert net.submitted + {o} == net'.submitted;
    assert net.answered + multiset{o} == net'.answered;
    assert net.buffers[1 := [o]] == net'.buffers;
    OpeningAnswered(net, 1);
  }

  lemma LookupsRead(i: nat)
    requires i == 4 || i == 8
    ensures Possible(LeftBehindStates()[i], TIMED_OUT[i])
    ensures Step({}, LeftBehindStates()[i], TIMED_OUT[i]) == LeftBehindStates()[i + 1]
  {
    var net, net' := LeftBehindStates()[i], LeftBehindStates()[i + 1];
    var l := if i == 4 then 0 else 1;
    assert [Opening(l)][1..] == [];
    assert net.lookups[l := Lookup(l, 0, {SELF})] == net'.lookups;
    assert net.buffers[l := []] == net'.buffers;
  }

  lemma LeftBehindSteps(i: nat)
    requires i < 11
    ensures Possible(LeftBehindStates()[i], TIMED_OUT[i])
    ensures Step({}, LeftBehindStates()[i], TIMED_OUT[i]) == LeftBehindStates()[i + 1]
  {
    hide Step;
    if i == 0 {
      PingedFirst();
    } else if i == 1 {
      PongedSecond();
    } else if i == 5 {
      AskedFirst();
    } else if i == 9 {
      AskedSecond();
    } else if i == 10 {
      TimedOutLast();
    } else if i == 2 || i == 6 {
      LookupsBegin(i);
    } else if i == 3 {
      Lookup0Opens();
    } else if i == 7 {
      Lookup1Opens();
    } else {
      LookupsRead(i);
    }
  }

  /** A run that leaves a query waiting for nothing: it is deferred at a node that can be queried, with no
      query pending there and no timer running at all. */
  lemma DeferredLeftBehind()
    ensures IsRun({}, LeftBehindStates(), TIMED_OUT)
    ensures var net := LeftBehindStates()[11];
            && net.At(1) == Guts(Known, [SECOND], None, 1, false) && net.timers == {}
            && SECOND in net.submitted && SECOND !in net.answered
  {
    hide Step, Possible;
    forall i | 0 <= i < 11
      ensures Possible(LeftBehindStates()[i], TIMED_OUT[i])
      ensures LeftBehindStates()[i + 1] == Step({}, LeftBehindStates()[i], TIMED_OUT[i])
    {
      LeftBehindSteps(i);
    }
  }

  // ---------- The loop in place ----------

  /** The network object of the event loop; `own` are the node objects that carry the local identity.
      The history of submissions, answers and lookups is kept for the specification only. */
  class Network {
    const own: set<NodeRef>
    var nodes: map<NodeRef, Guts>
    var timeoutTimers: set<Timer>
    var buffers: map<nat, seq<Query>>
    var blocked: bool
    ghost var submitted: set<Query>
    ghost var answered: multiset<Query>
    ghost var lookups: map<nat, Lookup>
    ghost var channels: nat

    ghost function View(): Net
      reads this
    {
      Net(nodes, timeoutTimers, buffers, blocked, submitted, answered, lookups, channels)
    }

    constructor (own: set<NodeRef>)
      ensures this.own == own && View() == EMPTY
    {
      this.own, nodes, timeoutTimers, buffers, blocked := own, map[], {}, map[], false;
      submitted, answered, lookups, channels := {}, multiset{}, map[], 0;
    }

    function Record(n: NodeRef): Guts
      reads this
    {
      if n in nodes then nodes[n] else FRESH
    }

    method Answer(q: Query)
      modifies this
      ensures View() == Reply(old(View()), q)
    {
      var waiting := if q.reply in buffers then buffers[q.reply] else [];
      if |waiting| >= ALPHA {
        blocked := true;
      } else {
        answered := answered + multiset{q};
        buffers := buffers[q.reply := waiting + [q]];
      }
    }

    method SendPing(n: NodeRef)
      modifies this
      ensures View() == Ping(own, old(View()), n)
    {
      if Record(n).pinged || n in own {
        return;
      }
      nodes := nodes[n := Record(n).(pinged := true)];
      timeoutTimers := timeoutTimers + {Timer(PongTimeout, n)};
    }

    method StartQuery(q: Query) returns (started: bool)
      modifies this
      ensures (View(), started) == Start(own, old(View()), q)
    {
      hide Reply, Ping;
      if q.remote == SELF {
        Answer(q);
        return true;
      }
      var g := Record(q.remote);
      if g.state.CanQuery() && g.pending.None? {
        timeoutTimers := timeoutTimers + {Timer(NeighboursTimeout, q.remote)};
        nodes := nodes[q.remote := g.(pending := Some(q))];
        return true;
      }
      if g.state.Unknown? {
        nodes := nodes[q.remote := g.(state := VerifyInit)];
        SendPing(q.remote);
      }
      return false;
    }

    method Defer(q: Query)
      modifies this
      ensures View() == DeferQuery(old(View()), q)
    {
      nodes := nodes[q.remote := Record(q.remote).(deferred := Record(q.remote).deferred + [q])];
    }

    method StartNext(n: NodeRef)
      modifies this
      ensures View() == StartNextQuery(own, old(View()), n)
    {
      if |Record(n).deferred| == 0 {
        return;
      }
      hide Start;
      var started := StartQuery(Record(n).deferred[0]);
      if started && |Record(n).deferred| > 0 {
        nodes := nodes[n := Record(n).(deferred := Record(n).deferred[1..])];
      }
    }

    method FinishPending(n: NodeRef)
      modifies this
      ensures View() == AbortPending(old(View()), n)
    {
      hide Reply;
      var g := Record(n);
      if g.pending.Some? {
        nodes := nodes[n := g.(pending := None)];
        Answer(g.pending.value);
      }
    }

    /** The enter action of the unknown state: a loop over the deferred queries. */
    method Forget(n: NodeRef)
      modifies this
      ensures View() == EnterUnknown(old(View()), n)
    {
      hide Reply, AbortPending;
      nodes := nodes[n := Record(n).(pinged := false)];
      ghost var start := View();
      while |Record(n).deferred| > 0
        invariant AbortDeferred(View(), n) == AbortDeferred(start, n)
        decreases |Record(n).deferred|
      {
        var q := Record(n).deferred[0];
        ghost var before := View();
        nodes := nodes[n := Record(n).(deferred := Record(n).deferred[1..])];
        assert View() == DropFirstDeferred(before, n);
        ReplyKeepsNodes(View(), q);
        Answer(q);
      }
      FinishPending(n);
      nodes := nodes[n := Record(n).(timeouts := 0)];
    }

    method MoveTo(n: NodeRef, next: NodeState, last: Option<NodeRef>)
      modifies this
      ensures View() == Transition(own, old(View()), n, next, last)
    {
      hide EnterUnknown, StartNextQuery, Ping;
      if Record(n).state == next {
        return;
      }
      nodes := nodes[n := Record(n).(state := next)];
      match next
      case Unknown => Forget(n);
      case VerifyInit => SendPing(n);
      case VerifyWait =>
      case RemoteVerifyWait => timeoutTimers := timeoutTimers + {Timer(PingTimeout, n)};
      case Known =>
        nodes := nodes[n := Record(n).(timeouts := 0)];
        StartNext(n);
        if last.Some? && Record(last.value).state.Known? {
          nodes := nodes[last.value := Record(last.value).(state := Contested)];
          SendPing(last.value);
        }
      case Contested => SendPing(n);
      case Unresponsive =>
    }

    method NeighboursArrive(n: NodeRef, found: seq<NodeRef>)
      modifies this
      ensures View() == HandleNeighbours(own, old(View()), n, found)
    {
      hide Ping, AbortPending, StartNextQuery;
      if Record(n).pending.None? {
        return;
      }
      timeoutTimers := timeoutTimers - {Timer(NeighboursTimeout, n)};
      ghost var start := View();
      for i := 0 to |found|
        invariant VerifyNew(own, View(), found[i..]) == VerifyNew(own, start, found)
      {
        var m := found[i];
        assert found[i..][0] == m && found[i..][1..] == found[i + 1..];
        if Record(m).state.Unknown? {
          nodes := nodes[m := Record(m).(state := VerifyInit)];
          SendPing(m);
        }
      }
      FinishPending(n);
      StartNext(n);
    }

    method QueryEvent(n: NodeRef, ev: NodeEvent) returns (next: NodeState)
      modifies this
      ensures (View(), next) == HandleQueryEvent(own, old(View()), n, ev)
    {
      hide HandleNeighbours, AbortPending;
      if ev.NeighborsPacket? {
        NeighboursArrive(n, ev.found);
      } else if ev == Expired(NeighboursTimeout) || (ev.TopicNodesPacket? && ev.countsAsTimeout) {
        if ev.Expired? {
          FinishPending(n);
        }
        nodes := nodes[n := Record(n).(timeouts := Record(n).timeouts + 1)];
        if Record(n).timeouts > MAX_FINDNODE_FAILURES && Record(n).state.Known? {
          return Contested;
        }
      }
      return Record(n).state;
    }

    method KnownPongArrives(n: NodeRef)
      modifies this
      ensures View() == KnownPong(old(View()), n)
    {
      timeoutTimers := timeoutTimers - {Timer(PongTimeout, n)};
      nodes := nodes[n := Record(n).(pinged := false)];
    }

    /** handle: what arrives for n goes through the state machine. */
    method Process(n: NodeRef, ev: NodeEvent, last: Option<NodeRef>)
      modifies this
      ensures View() == Handle(own, old(View()), n, ev, last)
    {
      hide HandleIn, Transition;
      if ev.PongPacket? {
        if !ev.tokenMatches {
          return;
        }
        nodes := nodes[n := Record(n).(pinged := false)];
      }
      var next := React(n, ev);
      MoveTo(n, next, last);
    }

    /** The handle action of the node's state. */
    method React(n: NodeRef, ev: NodeEvent) returns (next: NodeState)
      modifies this
      ensures (View(), next) == HandleIn(own, old(View()), n, ev)
    {
      hide HandleQueryEvent, Ping, KnownPong;
      next := Record(n).state;
      match Record(n).state {
        case Unknown =>
          if ev.PingPacket? {
            SendPing(n);
            next := VerifyWait;
          }
        case VerifyInit =>
          if ev.PingPacket? {
            next := VerifyWait;
          } else if ev.PongPacket? {
            KnownPongArrives(n);
            next := RemoteVerifyWait;
          } else if ev == Expired(PongTimeout) {
            next := Unknown;
          }
        case VerifyWait =>
          if ev.PongPacket? {
            KnownPongArrives(n);
            next := Known;
          } else if ev == Expired(PongTimeout) {
            next := Unknown;
          }
        case RemoteVerifyWait =>
          if ev == Expired(PingTimeout) {
            next := Known;
          }
        case Known =>
          if ev.PongPacket? {
            KnownPongArrives(n);
          } else if !ev.PingPacket? {
            next := QueryEvent(n, ev);
          }
        case Contested =>
          if ev.PongPacket? {
            KnownPongArrives(n);
            next := Known;
          } else if ev == Expired(PongTimeout) {
            next := Unresponsive;
          } else if !ev.PingPacket? {
            next := QueryEvent(n, ev);
          }
        case Unresponsive =>
          if ev.PingPacket? {
            next := Known;
          } else if ev.PongPacket? {
            KnownPongArrives(n);
            next := Known;
          } else {
            next := QueryEvent(n, ev);
          }
      }
    }

    /** The queryReq branch of the loop. */
    method Query(q: Query)
      modifies this
      ensures View() == TakeQuery(own, old(View()), q)
    {
      hide Start;
      submitted := submitted + {q};
      var started := StartQuery(q);
      if !started {
        Defer(q);
      }
    }
  }

  lemma ReplyKeepsNodes(net: Net, q: Query)
    ensures Reply(net, q).nodes == net.nodes
  {
  }
}
