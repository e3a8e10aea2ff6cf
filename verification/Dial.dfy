/** The dial scheduler (net/rlpx/p2p/dial.go). Times are in seconds. */
module Dial {
  import opened Wrappers

  const DIAL_HISTORY_EXPIRATION := 30
  const FALLBACK_INTERVAL := 20
  const MAX_ACTIVE_DIAL_TASKS := 16
  const DEFAULT_DIAL_RATIO := 3

  type Id = nat

  datatype Node = Node(id: Id, ip: nat)

  /** How a connection came about. */
  datatype Kind = Dyn | Static | Inbound

  datatype Peer = Peer(kind: Kind, trusted: bool)

  datatype Past = Past(id: Id, exp: int)

  datatype Task = DialTask(kind: Kind, dest: Node) | DiscoverTask | WaitExpireTask(seconds: int)

  datatype Config = Config(self: Id, maxDyn: nat, allowed: nat -> bool)

  datatype Dialer = Dialer(
    start: Option<int>,
    lookupRunning: bool,
    dialing: map<Id, Kind>,
    lookupBuf: seq<Node>,
    static_: map<Id, Node>,
    hist: multiset<Past>,
    bootnodes: seq<Node>)

  datatype DialError = AlreadyDialing | AlreadyConnected | IsSelf | NotWhitelisted | RecentlyDialed

  predicate Remembers(hist: multiset<Past>, id: Id) { exists p | p in hist :: p.id == id }

  /** checkDial: the first reason not to dial, if there is one. */
  function CheckDial(cfg: Config, d: Dialer, peers: map<Id, Peer>, n: Node): Option<DialError> {
    if n.id in d.dialing then Some(AlreadyDialing)
    else if n.id in peers then Some(AlreadyConnected)
    else if n.id == cfg.self then Some(IsSelf)
    else if !cfg.allowed(n.ip) then Some(NotWhitelisted)
    else if Remembers(d.hist, n.id) then Some(RecentlyDialed)
    else None
  }

  /** A node that may be dialed: not ourselves, not connected, not being dialed, allowed and not in the
      history. */
  ghost predicate Free(cfg: Config, d: Dialer, hist: multiset<Past>, peers: map<Id, Peer>, n: Node) {
    n.id != cfg.self && n.id !in peers && n.id !in d.dialing && cfg.allowed(n.ip) && !Remembers(hist, n.id)
  }

  /** The checks pass exactly the nodes that may be dialed. */
  lemma PassesIff(cfg: Config, d: Dialer, peers: map<Id, Peer>, n: Node)
    ensures CheckDial(cfg, d, peers, n).None? <==> Free(cfg, d, d.hist, peers, n)
  {
    hide Remembers;
  }

  function DynIds(kinds: map<Id, Kind>): set<Id> { set id | id in kinds && kinds[id].Dyn? }

  function DynPeers(peers: map<Id, Peer>): set<Id> { set id | id in peers && peers[id].kind.Dyn? }

  function InboundPeers(peers: map<Id, Peer>): set<Id> { set id | id in peers && peers[id].kind.Inbound? }

  /** The dynamic dials still wanted. Negative when there are too many. */
  function Needed(cfg: Config, d: Dialer, peers: map<Id, Peer>): int {
    cfg.maxDyn - |DynPeers(peers)| - |DynIds(d.dialing)|
  }

  /** The history after forgetting what lies before now. */
  ghost predicate Expired(hist: multiset<Past>, hist': multiset<Past>, now: int) {
    forall p :: hist'[p] == if p.exp < now then 0 else hist[p]
  }

  // ---------- Issued dials ----------

  ghost predicate DistinctDests(tasks: seq<Task>) {
    forall i, j :: 0 <= i < j < |tasks| && tasks[i].DialTask? && tasks[j].DialTask? ==> tasks[i].dest.id != tasks[j].dest.id
  }

  ghost predicate HasDial(tasks: seq<Task>, id: Id) {
    exists i :: 0 <= i < |tasks| && tasks[i].DialTask? && tasks[i].dest.id == id
  }

  /** `dialing` is `before` with exactly the dials of `tasks` added. */
  ghost predicate Recorded(before: map<Id, Kind>, tasks: seq<Task>, dialing: map<Id, Kind>) {
    && (forall id :: id in dialing <==> id in before || HasDial(tasks, id))
    && (forall id | id in before :: id in dialing && dialing[id] == before[id])
    && (forall i | 0 <= i < |tasks| && tasks[i].DialTask? :: tasks[i].dest.id in dialing && dialing[tasks[i].dest.id] == tasks[i].kind)
  }

  /** Dials collected so far, from d on: each was free to be dialed, none twice, and each is recorded. */
  ghost predicate Issued(cfg: Config, d: Dialer, peers: map<Id, Peer>, tasks: seq<Task>, dialing: map<Id, Kind>) {
    && (forall i | 0 <= i < |tasks| :: tasks[i].DialTask? && !tasks[i].kind.Inbound? && CheckDial(cfg, d, peers, tasks[i].dest).None?)
    && DistinctDests(tasks) && Recorded(d.dialing, tasks, dialing)
  }

  lemma HasDialSnoc(tasks: seq<Task>, t: Task, id: Id)
    ensures HasDial(tasks + [t], id) <==> HasDial(tasks, id) || (t.DialTask? && t.dest.id == id)
  {
    var tasks' := tasks + [t];
    if HasDial(tasks, id) {
      var i :| 0 <= i < |tasks| && tasks[i].DialTask? && tasks[i].dest.id == id;
      assert tasks'[i] == tasks[i];
    }
    if t.DialTask? && t.dest.id == id {
      assert tasks'[|tasks|] == t;
    }
  }

  lemma RecordedSnoc(before: map<Id, Kind>, tasks: seq<Task>, dialing: map<Id, Kind>, t: Task)
    requires Recorded(before, tasks, dialing) && t.DialTask? && t.dest.id !in dialing
    ensures Recorded(before, tasks + [t], dialing[t.dest.id := t.kind])
    ensures !HasDial(tasks, t.dest.id)
  {
    hide HasDial;
    forall id ensures HasDial(tasks + [t], id) <==> HasDial(tasks, id) || t.dest.id == id {
      HasDialSnoc(tasks, t, id);
    }
  }

  lemma DistinctSnoc(tasks: seq<Task>, t: Task)
    requires DistinctDests(tasks) && (t.DialTask? ==> !HasDial(tasks, t.dest.id))
    ensures DistinctDests(tasks + [t])
  {
  }

  lemma DynSnoc(dialing: map<Id, Kind>, id: Id, kind: Kind)
    requires id !in dialing
    ensures |DynIds(dialing[id := kind])| == |DynIds(dialing)| + if kind.Dyn? then 1 else 0
  {
    assert DynIds(dialing[id := kind]) == DynIds(dialing) + if kind.Dyn? then {id} else {};
  }

  lemma IssueOne(cfg: Config, d: Dialer, peers: map<Id, Peer>, tasks: seq<Task>, dialing: map<Id, Kind>, n: Node, kind: Kind)
    requires Issued(cfg, d, peers, tasks, dialing) && !kind.Inbound?
    requires CheckDial(cfg, d.(dialing := dialing), peers, n).None?
    ensures Issued(cfg, d, peers, tasks + [DialTask(kind, n)], dialing[n.id := kind])
    ensures |DynIds(dialing[n.id := kind])| == |DynIds(dialing)| + if kind.Dyn? then 1 else 0
  {
    hide DynIds, Remembers;
    var t := DialTask(kind, n);
    DynSnoc(dialing, n.id, kind);
    assert n.id !in d.dialing by {
      assert n.id !in dialing;
    }
    hide DistinctDests, Recorded, HasDial;
    RecordedSnoc(d.dialing, tasks, dialing, t);
    DistinctSnoc(tasks, t);
  }

  /** The tasks besides dials: a lookup if more candidates are needed and none is running; otherwise,
      with nothing to do at all, a timer for the next entry of the history to expire. */
  ghost predicate WithOthers(
    running: bool, running': bool, lookupBuf: seq<Node>, hist: multiset<Past>, nRunning: nat, need: int,
    dials: seq<Task>, tasks: seq<Task>)
  {
    var looks := |lookupBuf| < need && !running;
    var waits := nRunning == 0 && dials == [] && |hist| > 0;
    && running' == (running || looks)
    && (if looks then tasks == dials + [DiscoverTask]
        else if waits then |tasks| == 1 && tasks[0].WaitExpireTask?
        else tasks == dials)
  }

  lemma OthersExtend(
    running: bool, running': bool, lookupBuf: seq<Node>, hist: multiset<Past>, nRunning: nat, need: int,
    dials: seq<Task>, tasks: seq<Task>)
    requires WithOthers(running, running', lookupBuf, hist, nRunning, need, dials, tasks)
    ensures dials <= tasks && tasks[..|dials|] == dials
  {
  }

  // ---------- Candidates ----------

  /** Each candidate that may be dialed is. */
  ghost predicate Tried(cfg: Config, d: Dialer, peers: map<Id, Peer>, ns: seq<Node>, dialing: map<Id, Kind>) {
    forall i | 0 <= i < |ns| && Free(cfg, d, d.hist, peers, ns[i]) :: ns[i].id in dialing
  }

  /** Static dials are to static nodes, dynamic ones to candidates. */
  ghost predicate Sourced(tasks: seq<Task>, static_: map<Id, Node>, ns: seq<Node>) {
    forall i | 0 <= i < |tasks| && tasks[i].DialTask? ::
      if tasks[i].kind.Static? then tasks[i].dest.id in static_ && static_[tasks[i].dest.id] == tasks[i].dest
      else tasks[i].dest in ns
  }

  /** The bootnode whose turn it is: without peers, with dynamic dials wanted and 20 seconds gone. */
  function BootTurn(d: Dialer, peers: map<Id, Peer>, now: int, wanted: int): seq<Node> {
    if |peers| == 0 && |d.bootnodes| > 0 && wanted > 0 && d.start.Some? && now - d.start.value > FALLBACK_INTERVAL
    then [d.bootnodes[0]] else []
  }

  function Rotated(bootnodes: seq<Node>, k: nat): seq<Node>
    requires k <= |bootnodes|
  {
    bootnodes[k..] + bootnodes[..k]
  }

  /** Random nodes are tried for half of what is wanted, the bootnode's dial aside. */
  ghost predicate RandomShare(r: nat, wanted: int, boot: nat, available: nat) {
    && r <= available && r <= (if wanted > 0 then wanted / 2 else 0)
    && (r < available ==> (wanted - boot) / 2 <= r)
  }

  /** The lookup results that were taken from the buffer. */
  function Taken(before: seq<Node>, after: seq<Node>): seq<Node>
    requires |after| <= |before|
  {
    before[..|before| - |after|]
  }

  /** The bootnode, the first r random nodes and the lookup results taken are the candidates of a call. */
  ghost predicate DynamicsTried(
    cfg: Config, d: Dialer, d': Dialer, peers: map<Id, Peer>, now: int, random: seq<Node>, tasks: seq<Task>, r: nat)
  {
    var boot := BootTurn(d, peers, now, Needed(cfg, d, peers));
    && |d'.lookupBuf| <= |d.lookupBuf| && RandomShare(r, Needed(cfg, d, peers), |boot|, |random|)
    && var ns := boot + random[..r] + Taken(d.lookupBuf, d'.lookupBuf);
       Tried(cfg, d.(hist := d'.hist), peers, ns, d'.dialing) && Sourced(tasks, d.static_, ns)
  }

  /** What one call of newTasks does to the dialer, and what it issues: first `dials` dials. */
  ghost predicate NewTasksIssued(
    cfg: Config, d: Dialer, d': Dialer, peers: map<Id, Peer>, nRunning: nat, now: int, random: seq<Node>, tasks: seq<Task>,
    dials: nat)
  {
    var d0 := d.(hist := d'.hist);
    && dials <= |tasks|
    && Issued(cfg, d0, peers, tasks[..dials], d'.dialing)
    // no more dynamic dials than are wanted
    && |DynIds(d'.dialing)| <= |DynIds(d.dialing)| + (if Needed(cfg, d, peers) > 0 then Needed(cfg, d, peers) else 0)
    // static nodes: those that may be dialed are, those that never may be are dropped
    && StaticsDialed(cfg, d0, peers, tasks) && StaticsKept(cfg, d0, peers, d'.static_)
    // dynamic dials: every candidate that may be dialed is, and nobody else
    && (exists r: nat :: DynamicsTried(cfg, d, d', peers, now, random, tasks, r))
    // dials wanted and not found leave no candidate untried
    && (Needed(cfg, d', peers) > 0 ==> d'.lookupBuf == [])
    && (exists k :: 0 <= k <= |d.lookupBuf| && d'.lookupBuf == d.lookupBuf[k..])
    // other tasks
    && WithOthers(d.lookupRunning, d'.lookupRunning, d'.lookupBuf, d'.hist, nRunning, Needed(cfg, d', peers), tasks[..dials], tasks)
    && Expired(d.hist, d'.hist, now)
    && d'.bootnodes == Rotated(d.bootnodes, |BootTurn(d, peers, now, Needed(cfg, d, peers))|)
    && d'.start == Some(if d.start.Some? then d.start.value else now)
  }

  ghost predicate NewTasksDone(
    cfg: Config, d: Dialer, d': Dialer, peers: map<Id, Peer>, nRunning: nat, now: int, random: seq<Node>, tasks: seq<Task>)
  {
    exists dials: nat :: NewTasksIssued(cfg, d, d', peers, nRunning, now, random, tasks, dials)
  }

  // ---------- The dial state in place ----------

  lemma MinPast(hist: multiset<Past>) returns (p: Past)
    requires hist != multiset{}
    ensures p in hist && forall q | q in hist :: p.exp <= q.exp
    decreases |hist|
  {
    p :| p in hist;
    if q :| q in hist && q.exp < p.exp {
      var rest := hist - multiset{p};
      assert q in rest;
      var m := MinPast(rest);
      if m.exp <= p.exp {
        forall r | r in hist ensures m.exp <= r.exp {
          if r !in rest {
            assert r == p;
          }
        }
        p := m;
      }
    }
  }

  lemma CountedOneMore(ids: set<Id>, todo: set<Id>, id: Id)
    requires id in todo
    ensures |ids - (todo - {id})| == |ids - todo| + if id in ids then 1 else 0
  {
    if id in ids {
      assert ids - (todo - {id}) == (ids - todo) + {id};
    } else {
      assert ids - (todo - {id}) == ids - todo;
    }
  }

  method CountDynPeers(peers: map<Id, Peer>) returns (n: nat)
    ensures n == |DynPeers(peers)|
  {
    n := 0;
    var todo := peers.Keys;
    while todo != {}
      invariant todo <= peers.Keys && n == |DynPeers(peers) - todo|
      decreases todo
    {
      var id :| id in todo;
      CountedOneMore(DynPeers(peers), todo, id);
      if peers[id].kind.Dyn? {
        n := n + 1;
      }
      todo := todo - {id};
    }
    assert DynPeers(peers) - {} == DynPeers(peers);
  }

  method CountDynDials(dialing: map<Id, Kind>) returns (n: nat)
    ensures n == |DynIds(dialing)|
  {
    n := 0;
    var todo := dialing.Keys;
    while todo != {}
      invariant todo <= dialing.Keys && n == |DynIds(dialing) - todo|
      decreases todo
    {
      var id :| id in todo;
      CountedOneMore(DynIds(dialing), todo, id);
      if dialing[id].Dyn? {
        n := n + 1;
      }
      todo := todo - {id};
    }
    assert DynIds(dialing) - {} == DynIds(dialing);
  }

  class DialState {
    const cfg: Config
    var start: Option<int>
    var lookupRunning: bool
    var dialing: map<Id, Kind>
    var lookupBuf: seq<Node>
    var static_: map<Id, Node>
    var hist: multiset<Past>
    var bootnodes: seq<Node>

    function View(): Dialer
      reads this
    {
      Dialer(start, lookupRunning, dialing, lookupBuf, static_, hist, bootnodes)
    }

    /** Static nodes are kept under their own identifiers. */
    ghost predicate Valid()
      reads this
    {
      Keyed(static_)
    }

    constructor (cfg: Config, bootnodes: seq<Node>)
      ensures Valid() && this.cfg == cfg
      ensures View() == Dialer(None, false, map[], [], map[], multiset{}, bootnodes)
    {
      this.cfg := cfg;
      start, lookupRunning, dialing, lookupBuf, static_ := None, false, map[], [], map[];
      hist, this.bootnodes := multiset{}, bootnodes;
    }

    method AddStatic(n: Node)
      requires Valid()
      modifies this
      ensures Valid() && View() == AddedStatic(old(View()), n)
    {
      static_ := static_[n.id := n];
    }

    method RemoveStatic(n: Node)
      requires Valid()
      modifies this
      ensures Valid() && RemovedStatic(old(View()), View(), n.id)
    {
      static_ := static_ - {n.id};
      if Remembers(hist, n.id) {
        var p :| p in hist && p.id == n.id;
        hist := hist - multiset{p};
      }
    }

    /** A dial task or a lookup has ended. */
    method TaskDone(t: Task, results: seq<Node>, now: int)
      requires Valid()
      modifies this
      ensures Valid() && View() == Finished(old(View()), t, results, now)
    {
      match t
      case DialTask(_, dest) =>
        hist := hist + multiset{Past(dest.id, now + DIAL_HISTORY_EXPIRATION)};
        dialing := dialing - {dest.id};
      case DiscoverTask =>
        lookupRunning := false;
        lookupBuf := lookupBuf + results;
      case WaitExpireTask(_) =>
    }

    /** Pops the history's minimum while it lies before now. */
    method ExpireHistory(now: int)
      modifies this`hist
      ensures Expired(old(hist), hist, now)
    {
      while hist != multiset{}
        invariant hist <= old(hist)
        invariant forall p :: hist[p] == old(hist)[p] || (p.exp < now && hist[p] < old(hist)[p])
        decreases |hist|
      {
        ghost var m := MinPast(hist);
        assert exists p :: p in hist && forall q | q in hist :: p.exp <= q.exp;
        var p :| p in hist && forall q | q in hist :: p.exp <= q.exp;
        if p.exp >= now {
          break;
        }
        hist := hist - multiset{p};
      }
    }

    /** Dials every static node that may be dialed; forgets those that never may be. */
    method DialStatics(peers: map<Id, Peer>) returns (tasks: seq<Task>)
      requires Valid()
      modifies this`dialing, this`static_
      ensures Valid() && Issued(cfg, old(View()), peers, tasks, dialing)
      ensures |DynIds(dialing)| == |DynIds(old(dialing))|
      ensures StaticsDialed(cfg, old(View()), peers, tasks)
      ensures StaticsKept(cfg, old(View()), peers, static_) && Sourced(tasks, old(static_), [])
    {
      hide DynIds, Issued, CheckDial, Free, Hopeless;
      ghost var d0 := View();
      tasks := [];
      NothingIssued(cfg, d0, peers);
      var todo := static_.Keys;
      while todo != {}
        invariant todo <= static_.Keys && Valid() && View() == d0.(dialing := dialing, static_ := static_)
        invariant Issued(cfg, d0, peers, tasks, dialing) && |DynIds(dialing)| == |DynIds(d0.dialing)|
        invariant forall i | 0 <= i < |tasks| :: tasks[i].DialTask? && tasks[i].dest.id !in todo
        invariant forall id | id in d0.static_ && id !in todo && Free(cfg, d0, d0.hist, peers, d0.static_[id]) ::
                    DialTask(Static, d0.static_[id]) in tasks
        invariant forall id :: id in static_ <==> id in d0.static_ && (id in todo || !Hopeless(cfg, d0, peers, d0.static_[id]))
        invariant forall id | id in static_ :: static_[id] == d0.static_[id]
        invariant Sourced(tasks, d0.static_, [])
        decreases todo
      {
        var id :| id in todo;
        var n := static_[id];
        var err := CheckDial(cfg, View(), peers, n);
        NotYetDialed(cfg, d0, peers, tasks, dialing, n);
        PassesIff(cfg, d0, peers, n);
        RefusedForGood(cfg, d0, peers, n);
        if err == Some(IsSelf) || err == Some(NotWhitelisted) {
          static_ := static_ - {n.id};
        } else if err.None? {
          IssueOne(cfg, d0, peers, tasks, dialing, n, Static);
          dialing := dialing[id := Static];
          tasks := tasks + [DialTask(Static, n)];
        }
        todo := todo - {id};
      }
    }

    /** addDial for a dynamic candidate. */
    method TryDial(n: Node, peers: map<Id, Peer>, tasks: seq<Task>, need: int, ghost d0: Dialer, ghost ns: seq<Node>)
      returns (tasks': seq<Task>, need': int)
      requires Issued(cfg, d0, peers, tasks, dialing) && hist == d0.hist
      requires Tried(cfg, d0, peers, ns, dialing) && Sourced(tasks, d0.static_, ns)
      modifies this`dialing
      ensures Issued(cfg, d0, peers, tasks', dialing)
      ensures Tried(cfg, d0, peers, ns + [n], dialing) && Sourced(tasks', d0.static_, ns + [n])
      ensures need' + |DynIds(dialing)| == need + |DynIds(old(dialing))| && need - 1 <= need' <= need
      ensures tasks <= tasks'
    {
      hide DynIds, Issued, CheckDial, Remembers;
      tasks', need' := tasks, need;
      SameCheck(cfg, d0.(dialing := dialing), View(), peers, n);
      PassesIff(cfg, View(), peers, n);
      if CheckDial(cfg, View(), peers, n).None? {
        IssueOne(cfg, d0, peers, tasks, dialing, n, Dyn);
        dialing := dialing[n.id := Dyn];
        tasks', need' := tasks + [DialTask(Dyn, n)], need - 1;
      }
    }

    /** A bootnode, when there are no peers at all. */
    method DialBootnode(peers: map<Id, Peer>, now: int, statics: seq<Task>, wanted: int, ghost d0: Dialer)
      returns (tasks: seq<Task>, need: int)
      requires start.Some? && Issued(cfg, d0, peers, statics, dialing) && hist == d0.hist
      requires start == d0.start && bootnodes == d0.bootnodes
      requires Sourced(statics, d0.static_, [])
      modifies this`dialing, this`bootnodes
      ensures Issued(cfg, d0, peers, tasks, dialing) && statics <= tasks
      ensures need + |DynIds(dialing)| == wanted + |DynIds(old(dialing))|
      ensures var boot := BootTurn(d0, peers, now, wanted);
              && wanted - |boot| <= need <= wanted && bootnodes == Rotated(d0.bootnodes, |boot|)
              && Tried(cfg, d0, peers, boot, dialing) && Sourced(tasks, d0.static_, boot)
    {
      hide DynIds, Issued, Sourced, Free;
      tasks, need := statics, wanted;
      if |peers| == 0 && |bootnodes| > 0 && need > 0 && now - start.value > FALLBACK_INTERVAL {
        var bootnode := bootnodes[0];
        bootnodes := bootnodes[1..] + [bootnode];
        tasks, need := TryDial(bootnode, peers, tasks, need, d0, []);
        assert [] + [bootnode] == BootTurn(d0, peers, now, wanted);
      }
    }

    /** Dynamic dials: a bootnode when there are no peers at all, random nodes for half of what is
        needed, then lookup results. */
    method DialDynamic(peers: map<Id, Peer>, now: int, random: seq<Node>, statics: seq<Task>, wanted: int, ghost d0: Dialer)
      returns (tasks: seq<Task>, need: int, ghost r: nat)
      requires start.Some? && Issued(cfg, d0, peers, statics, dialing) && hist == d0.hist
      requires start == d0.start && bootnodes == d0.bootnodes && lookupBuf == d0.lookupBuf
      requires Sourced(statics, d0.static_, [])
      modifies this`dialing, this`lookupBuf, this`bootnodes
      ensures Issued(cfg, d0, peers, tasks, dialing) && statics <= tasks
      ensures need + |DynIds(dialing)| == wanted + |DynIds(old(dialing))| && need <= wanted
      ensures if wanted > 0 then need >= 0 else need == wanted
      ensures need > 0 ==> lookupBuf == []
      ensures exists k :: 0 <= k <= |old(lookupBuf)| && lookupBuf == old(lookupBuf)[k..]
      ensures |lookupBuf| <= |d0.lookupBuf|
      ensures var boot := BootTurn(d0, peers, now, wanted);
              && RandomShare(r, wanted, |boot|, |random|) && bootnodes == Rotated(d0.bootnodes, |boot|)
              && var ns := boot + random[..r] + Taken(d0.lookupBuf, lookupBuf);
                 Tried(cfg, d0, peers, ns, dialing) && Sourced(tasks, d0.static_, ns)
    {
      hide DynIds, Issued, Tried, Sourced, Rotated;
      ghost var boot := BootTurn(d0, peers, now, wanted);
      tasks, need := DialBootnode(peers, now, statics, wanted, d0);
      assert |boot| <= 1 && (wanted <= 0 ==> boot == []);
      hide BootTurn;
      var randomCandidates := if need > 0 then need / 2 else 0;
      ghost var half := need;
      var i := 0;
      assert boot + random[..0] == boot;
      while i < randomCandidates && i < |random|
        invariant 0 <= i <= randomCandidates && i <= |random| && half - i <= need <= half
        invariant Issued(cfg, d0, peers, tasks, dialing) && statics <= tasks
        invariant need + |DynIds(dialing)| == wanted + |DynIds(old(dialing))|
        invariant lookupBuf == old(lookupBuf) && bootnodes == Rotated(d0.bootnodes, |boot|)
        invariant Tried(cfg, d0, peers, boot + random[..i], dialing) && Sourced(tasks, d0.static_, boot + random[..i])
      {
        tasks, need := TryDial(random[i], peers, tasks, need, d0, boot + random[..i]);
        assert boot + random[..i] + [random[i]] == boot + random[..i + 1];
        i := i + 1;
      }
      r := i;
      var k := 0;
      ghost var early := boot + random[..r];
      assert early + lookupBuf[..0] == early;
      while k < |lookupBuf| && need > 0
        invariant 0 <= k <= |lookupBuf| && lookupBuf == old(lookupBuf) && bootnodes == Rotated(d0.bootnodes, |boot|)
        invariant Issued(cfg, d0, peers, tasks, dialing) && statics <= tasks
        invariant need + |DynIds(dialing)| == wanted + |DynIds(old(dialing))| && need <= wanted
        invariant if wanted > 0 then need >= 0 else need == wanted
        invariant Tried(cfg, d0, peers, early + lookupBuf[..k], dialing) && Sourced(tasks, d0.static_, early + lookupBuf[..k])
      {
        tasks, need := TryDial(lookupBuf[k], peers, tasks, need, d0, early + lookupBuf[..k]);
        assert early + lookupBuf[..k] + [lookupBuf[k]] == early + lookupBuf[..k + 1];
        k := k + 1;
      }
      lookupBuf := lookupBuf[k..];
      assert Taken(d0.lookupBuf, lookupBuf) == d0.lookupBuf[..k];
    }

    /** A discovery lookup if candidates are missing, or a timer if there is nothing else to do. */
    method OtherTasks(nRunning: nat, need: int, now: int, dials: seq<Task>) returns (tasks: seq<Task>)
      modifies this`lookupRunning
      ensures WithOthers(old(lookupRunning), lookupRunning, lookupBuf, hist, nRunning, need, dials, tasks)
    {
      tasks := dials;
      if |lookupBuf| < need && !lookupRunning {
        lookupRunning := true;
        tasks := tasks + [DiscoverTask];
      }
      if nRunning == 0 && |tasks| == 0 && |hist| > 0 {
        var first := FirstToExpire();
        tasks := tasks + [WaitExpireTask(first.exp - now)];
      }
    }

    /** newTasks. `random` is what the table gives when asked for random nodes. */
    method NewTasks(nRunning: nat, peers: map<Id, Peer>, now: int, random: seq<Node>) returns (tasks: seq<Task>)
      requires Valid()
      modifies this
      ensures Valid() && NewTasksDone(cfg, old(View()), View(), peers, nRunning, now, random, tasks)
    {
      hide Tried, Sourced, Free, DynIds, Issued, StaticsDialed, StaticsKept, Expired, DynPeers, Keyed, WithOthers, CheckDial, NewTasksDone;
      ghost var d := View();
      if start.None? {
        start := Some(now);
      }
      var dynPeers := CountDynPeers(peers);
      var dynDials := CountDynDials(dialing);
      var need: int := cfg.maxDyn - dynPeers - dynDials;
      ExpireHistory(now);
      ghost var d0 := View();
      var statics := DialStatics(peers);
      var dials;
      ghost var r: nat;
      dials, need, r := DialDynamic(peers, now, random, statics, need, d0);
      tasks := OtherTasks(nRunning, need, now, dials);
      OthersExtend(d.lookupRunning, lookupRunning, lookupBuf, hist, nRunning, need, dials, tasks);
      StaticsStay(cfg, d0, peers, statics, tasks);
      StartDoesNotMatter(cfg, d0, d.start, peers, dials, dialing, tasks, static_);
      CandidatesTried(cfg, d, d0, View(), peers, nRunning, need, now, random, dials, tasks, r);
      assert d0.(start := d.start) == d.(hist := hist);
      Assemble(cfg, d, View(), peers, nRunning, now, random, tasks, dials, need, r);
    }

    method FirstToExpire() returns (p: Past)
      requires |hist| > 0
      ensures p in hist && forall q | q in hist :: p.exp <= q.exp
    {
      ghost var m := MinPast(hist);
      assert exists p :: p in hist && forall q | q in hist :: p.exp <= q.exp;
      p :| p in hist && forall q | q in hist :: p.exp <= q.exp;
    }
  }

  lemma Assemble(
    cfg: Config, d: Dialer, d': Dialer, peers: map<Id, Peer>, nRunning: nat, now: int, random: seq<Node>, tasks: seq<Task>,
    dials: seq<Task>, need: int, r: nat)
    requires dials <= tasks && Issued(cfg, d.(hist := d'.hist), peers, dials, d'.dialing)
    requires need + |DynIds(d'.dialing)| == Needed(cfg, d, peers) + |DynIds(d.dialing)|
    requires need > 0 ==> d'.lookupBuf == []
    requires if Needed(cfg, d, peers) > 0 then need >= 0 else need == Needed(cfg, d, peers)
    requires StaticsDialed(cfg, d.(hist := d'.hist), peers, tasks) && StaticsKept(cfg, d.(hist := d'.hist), peers, d'.static_)
    requires DynamicsTried(cfg, d, d', peers, now, random, tasks, r)
    requires exists k :: 0 <= k <= |d.lookupBuf| && d'.lookupBuf == d.lookupBuf[k..]
    requires WithOthers(d.lookupRunning, d'.lookupRunning, d'.lookupBuf, d'.hist, nRunning, need, dials, tasks)
    requires Expired(d.hist, d'.hist, now)
    requires d'.bootnodes == Rotated(d.bootnodes, |BootTurn(d, peers, now, Needed(cfg, d, peers))|)
    requires d'.start == Some(if d.start.Some? then d.start.value else now)
    ensures NewTasksDone(cfg, d, d', peers, nRunning, now, random, tasks)
  {
    hide DynamicsTried, DynIds, Issued, StaticsDialed, StaticsKept, Expired, DynPeers, WithOthers;
    assert tasks[..|dials|] == dials;
    assert NewTasksIssued(cfg, d, d', peers, nRunning, now, random, tasks, |dials|);
  }

  /** The start time set by a first call makes no bootnode's turn, and the other tasks are no dials. */
  lemma CandidatesTried(
    cfg: Config, d: Dialer, d0: Dialer, d': Dialer, peers: map<Id, Peer>, nRunning: nat, need: int, now: int,
    random: seq<Node>, dials: seq<Task>, tasks: seq<Task>, r: nat)
    requires d0 == d.(start := Some(if d.start.Some? then d.start.value else now), hist := d'.hist)
    requires |d'.lookupBuf| <= |d.lookupBuf|
    requires WithOthers(d.lookupRunning, d'.lookupRunning, d'.lookupBuf, d'.hist, nRunning, need, dials, tasks)
    requires var boot := BootTurn(d0, peers, now, Needed(cfg, d, peers));
             && RandomShare(r, Needed(cfg, d, peers), |boot|, |random|)
             && var ns := boot + random[..r] + Taken(d0.lookupBuf, d'.lookupBuf);
                Tried(cfg, d0, peers, ns, d'.dialing) && Sourced(dials, d0.static_, ns)
    ensures BootTurn(d0, peers, now, Needed(cfg, d, peers)) == BootTurn(d, peers, now, Needed(cfg, d, peers))
    ensures DynamicsTried(cfg, d, d', peers, now, random, tasks, r)
  {
    hide Needed, Remembers;
  }

  lemma NothingIssued(cfg: Config, d: Dialer, peers: map<Id, Peer>)
    ensures Issued(cfg, d, peers, [], d.dialing)
  {
  }

  /** Whether d and e would refuse the same nodes for the same reasons. */
  lemma SameCheck(cfg: Config, d: Dialer, e: Dialer, peers: map<Id, Peer>, n: Node)
    requires d.dialing == e.dialing && d.hist == e.hist
    ensures CheckDial(cfg, d, peers, n) == CheckDial(cfg, e, peers, n)
  {
  }

  lemma StartDoesNotMatter(
    cfg: Config, d: Dialer, start: Option<int>, peers: map<Id, Peer>, dials: seq<Task>, dialing: map<Id, Kind>, tasks: seq<Task>,
    after: map<Id, Node>)
    ensures Issued(cfg, d.(start := start), peers, dials, dialing) == Issued(cfg, d, peers, dials, dialing)
    ensures StaticsDialed(cfg, d.(start := start), peers, tasks) == StaticsDialed(cfg, d, peers, tasks)
    ensures StaticsKept(cfg, d.(start := start), peers, after) == StaticsKept(cfg, d, peers, after)
  {
    hide Remembers;
    hide CheckDial, Recorded, DistinctDests;
    forall n ensures CheckDial(cfg, d.(start := start), peers, n) == CheckDial(cfg, d, peers, n) {
      SameCheck(cfg, d.(start := start), d, peers, n);
    }
  }

  /** A node none of whose namesakes has been dialed meanwhile is as free as before. */
  lemma NotYetDialed(cfg: Config, d: Dialer, peers: map<Id, Peer>, tasks: seq<Task>, dialing: map<Id, Kind>, n: Node)
    requires Issued(cfg, d, peers, tasks, dialing)
    requires forall i | 0 <= i < |tasks| :: tasks[i].DialTask? && tasks[i].dest.id != n.id
    ensures forall e: Dialer | e.dialing == dialing && e.hist == d.hist :: CheckDial(cfg, e, peers, n) == CheckDial(cfg, d, peers, n)
  {
    hide Remembers;
    assert !HasDial(tasks, n.id);
    assert n.id in dialing <==> n.id in d.dialing;
  }

  lemma RefusedForGood(cfg: Config, d: Dialer, peers: map<Id, Peer>, n: Node)
    ensures CheckDial(cfg, d, peers, n) == Some(IsSelf) || CheckDial(cfg, d, peers, n) == Some(NotWhitelisted)
            <==> Hopeless(cfg, d, peers, n)
  {
    hide Remembers;
  }

  ghost predicate StaticsDialed(cfg: Config, d: Dialer, peers: map<Id, Peer>, tasks: seq<Task>) {
    forall id | id in d.static_ && Free(cfg, d, d.hist, peers, d.static_[id]) :: DialTask(Static, d.static_[id]) in tasks
  }

  /** A static node that can be neither dialed now nor ever. */
  ghost predicate Hopeless(cfg: Config, d: Dialer, peers: map<Id, Peer>, n: Node) {
    n.id !in d.dialing && n.id !in peers && (!cfg.allowed(n.ip) || n.id == cfg.self)
  }

  ghost predicate StaticsKept(cfg: Config, d: Dialer, peers: map<Id, Peer>, after: map<Id, Node>) {
    && (forall id :: id in after <==> id in d.static_ && !Hopeless(cfg, d, peers, d.static_[id]))
    && (forall id | id in after :: after[id] == d.static_[id])
  }

  lemma StaticsStay(cfg: Config, d: Dialer, peers: map<Id, Peer>, statics: seq<Task>, tasks: seq<Task>)
    requires StaticsDialed(cfg, d, peers, statics) && statics <= tasks
    ensures StaticsDialed(cfg, d, peers, tasks)
  {
  }

  ghost predicate Keyed(static_: map<Id, Node>) {
    forall id | id in static_ :: static_[id].id == id
  }

  function AddedStatic(d: Dialer, n: Node): Dialer {
    d.(static_ := d.static_[n.id := n])
  }

  /** One entry of the identifier leaves the history, if there is any. */
  ghost predicate RemovedStatic(d: Dialer, d': Dialer, id: Id) {
    && d' == d.(static_ := d.static_ - {id}, hist := d'.hist)
    && (if Remembers(d.hist, id) then exists p :: p in d.hist && p.id == id && d'.hist == d.hist - multiset{p}
        else d'.hist == d.hist)
  }

  function Finished(d: Dialer, t: Task, results: seq<Node>, now: int): Dialer {
    match t
    case DialTask(_, dest) =>
      d.(hist := d.hist + multiset{Past(dest.id, now + DIAL_HISTORY_EXPIRATION)}, dialing := d.dialing - {dest.id})
    case DiscoverTask => d.(lookupRunning := false, lookupBuf := d.lookupBuf + results)
    case WaitExpireTask(_) => d
  }
}
