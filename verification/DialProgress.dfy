/** Whom a round of scheduling must dial (net/rlpx/p2p/dial.go and net/rlpx/p2p/server.go). */
module DialProgress {
  import opened Wrappers
  import opened Dial
  import opened PeerSet

  /** A node the dialer has no reason to pass over: not ourselves, not connected, not being dialed, allowed, and its last
      dial, if it had one, ended more than 30 seconds ago. */
  ghost predicate MayDial(sc: Settings, s: Loop, n: Node, now: int) {
    && n.id != sc.dial.self && n.id !in s.peers && n.id !in s.dialer.dialing && sc.dial.allowed(n.ip)
    && (n.id in s.lastDone ==> s.lastDone[n.id] + DIAL_HISTORY_EXPIRATION < now)
  }

  /** A round makes new tasks only if fewer than 16 are unfinished. */
  ghost predicate HasRoom(s: Loop) {
    |s.running| + |s.queued| < MAX_ACTIVE_DIAL_TASKS
  }

  /** What the history says is so: each entry is of a node's last dial, and lasts 30 seconds. */
  ghost predicate Truthful(hist: multiset<Past>, lastDone: map<Id, int>) {
    forall p | p in hist :: p.id in lastDone && p.exp == lastDone[p.id] + DIAL_HISTORY_EXPIRATION
  }

  // ---------- The history is truthful ----------

  lemma FewerTruthful(hist: multiset<Past>, hist': multiset<Past>, lastDone: map<Id, int>)
    requires Truthful(hist, lastDone) && forall p :: hist'[p] <= hist[p]
    ensures Truthful(hist', lastDone)
  {
    forall p | p in hist' ensures p in hist {
      assert hist'[p] <= hist[p];
    }
  }

  lemma ExpiredFewer(hist: multiset<Past>, hist': multiset<Past>, now: int)
    requires Expired(hist, hist', now)
    ensures forall p :: hist'[p] <= hist[p]
    ensures forall p | p in hist' :: p.exp >= now
  {
  }

  /** A dial that ends was in progress, so that the history holds nothing else of its node. */
  lemma EndedTruthful(s: Loop, t: Task, results: seq<Node>, now: int)
    requires CleanHistory(s.dialer) && Truthful(s.dialer.hist, s.lastDone)
    requires t.DialTask? ==> t.dest.id in s.dialer.dialing
    ensures var s' := Ended(s, t, results, now); Truthful(s'.dialer.hist, s'.lastDone)
  {
    hide RemoveFirst;
    if t.DialTask? {
      var s' := Ended(s, t, results, now);
      forall p | p in s'.dialer.hist ensures p.id in s'.lastDone && p.exp == s'.lastDone[p.id] + DIAL_HISTORY_EXPIRATION {
        assert p in s.dialer.hist ==> p.id != t.dest.id;
      }
    }
  }

  /** The history holds one entry of a node, which goes with it. */
  lemma RemovedTruthful(d: Dialer, d': Dialer, id: Id, lastDone: map<Id, int>)
    requires CleanHistory(d) && Truthful(d.hist, lastDone) && RemovedStatic(d, d', id)
    ensures Truthful(d'.hist, lastDone - {id})
  {
    if Remembers(d.hist, id) {
      var q :| q in d.hist && q.id == id && d'.hist == d.hist - multiset{q};
      assert d.hist[q] <= 1 && q !in d'.hist;
    }
  }

  lemma NextTruthful(sc: Settings, s: Loop, s': Loop, e: Event)
    requires Inv(sc, s) && Truthful(s.dialer.hist, s.lastDone) && Possible(s, e) && Next(sc, s, s', e)
    ensures Truthful(s'.dialer.hist, s'.lastDone)
  {
    hide Truthful, NewTasksDone, CleanHistory, DynPeers, DynIds, InboundPeers, Remembered, InOrder, StartTasks, Expired, Ended, RemovedStatic;
    match e
    case Schedule(now, random) =>
      var tasks :| Scheduled(sc, s, s', now, random, tasks);
      ScheduleTruthful(sc, s, s', now, random, tasks);
    case StaticRemoved(n) => RemovedTruthful(s.dialer, s'.dialer, n.id, s.lastDone);
    case TaskEnded(t, results, now) =>
      EndedInOrder(s, t, results, now);
      EndedTruthful(s, t, results, now);
    case _ =>
  }

  lemma DoneExpires(cfg: Config, d: Dialer, d': Dialer, peers: map<Id, Peer>, nRunning: nat, now: int, random: seq<Node>, tasks: seq<Task>)
    requires NewTasksDone(cfg, d, d', peers, nRunning, now, random, tasks)
    ensures Expired(d.hist, d'.hist, now)
  {
    hide Issued, DynIds, Needed, StaticsDialed, StaticsKept, DynamicsTried, WithOthers, Expired, BootTurn, Rotated;
  }

  lemma ScheduleTruthful(sc: Settings, s: Loop, s': Loop, now: int, random: seq<Node>, tasks: seq<Task>)
    requires Truthful(s.dialer.hist, s.lastDone) && Scheduled(sc, s, s', now, random, tasks)
    ensures Truthful(s'.dialer.hist, s'.lastDone)
  {
    hide Truthful, NewTasksDone, StartTasks, Expired;
    var (running, queued) := StartTasks(s.running, s.queued);
    if |running| < MAX_ACTIVE_DIAL_TASKS {
      DoneExpires(sc.dial, s.dialer, s'.dialer, s.peers, |running| + |queued|, now, random, tasks);
      ExpiredFewer(s.dialer.hist, s'.dialer.hist, now);
      FewerTruthful(s.dialer.hist, s'.dialer.hist, s.lastDone);
    }
  }

  lemma {:induction false} RunTruthful(sc: Settings, states: seq<Loop>, events: seq<Event>, i: nat)
    requires IsRun(sc, states, events) && i < |states|
    ensures Truthful(states[i].dialer.hist, states[i].lastDone)
  {
    hide Inv, Next, Possible;
    if i > 0 {
      RunTruthful(sc, states, events, i - 1);
      RunInv(sc, states, events, i - 1);
      NextTruthful(sc, states[i - 1], states[i], events[i - 1]);
    }
  }

  /** With a truthful history, a node is free for newTasks exactly when it may be dialed. */
  lemma FreeIff(sc: Settings, s: Loop, hist: multiset<Past>, n: Node, now: int)
    requires Truthful(s.dialer.hist, s.lastDone) && Remembered(s.dialer.hist, s.lastDone, s.clock) && s.clock <= now
    requires Expired(s.dialer.hist, hist, now)
    ensures Free(sc.dial, s.dialer, hist, s.peers, n) <==> MayDial(sc, s, n, now)
  {
    ExpiredFewer(s.dialer.hist, hist, now);
    FewerTruthful(s.dialer.hist, hist, s.lastDone);
    if n.id in s.lastDone {
      var p := Past(n.id, s.lastDone[n.id] + DIAL_HISTORY_EXPIRATION);
      assert p.exp >= now ==> p in s.dialer.hist && hist[p] == s.dialer.hist[p];
    }
  }

  // ---------- Who is dialed ----------

  lemma RoomRuns(s: Loop)
    ensures |StartTasks(s.running, s.queued).0| < MAX_ACTIVE_DIAL_TASKS <==> HasRoom(s)
  {
  }

  /** newTasks dials exactly the static nodes that are free. */
  lemma StaticFreeIff(
    cfg: Config, d: Dialer, d': Dialer, peers: map<Id, Peer>, nRunning: nat, now: int, random: seq<Node>, tasks: seq<Task>, id: Id)
    requires NewTasksDone(cfg, d, d', peers, nRunning, now, random, tasks) && id in d.static_
    ensures DialTask(Static, d.static_[id]) in tasks <==> Free(cfg, d, d'.hist, peers, d.static_[id])
  {
    var t := DialTask(Static, d.static_[id]);
    if t in tasks {
      hide NewTasksDone, DistinctDests, Recorded, Remembers;
      var dials := NewTasksParts(cfg, d, d', peers, nRunning, now, random, tasks);
      var i :| 0 <= i < |tasks| && tasks[i] == t;
      assert i < |dials| && dials[i] == t;
    } else {
      hide Issued, DynIds, Needed, StaticsKept, DynamicsTried, WithOthers, Expired, BootTurn, Rotated, Remembers;
    }
  }

  /** What a run tells of the state before a round. */
  lemma BeforeRound(sc: Settings, states: seq<Loop>, events: seq<Event>, i: nat)
    requires IsRun(sc, states, events) && i < |events| && events[i].Schedule?
    ensures HistoryKnown(states[i], events[i].now)
  {
    hide Inv, Truthful, Next;
    RunInv(sc, states, events, i);
    RunTruthful(sc, states, events, i);
    assert Possible(states[i], events[i]);
    InvRemembers(sc, states[i]);
  }

  lemma InvRemembers(sc: Settings, s: Loop)
    requires Inv(sc, s)
    ensures Remembered(s.dialer.hist, s.lastDone, s.clock)
  {
  }

  ghost predicate HistoryKnown(s: Loop, now: int) {
    Truthful(s.dialer.hist, s.lastDone) && Remembered(s.dialer.hist, s.lastDone, s.clock) && s.clock <= now
  }

  lemma RoundDialsStatic(sc: Settings, s: Loop, s': Loop, now: int, random: seq<Node>, tasks: seq<Task>, id: Id)
    requires HistoryKnown(s, now) && Scheduled(sc, s, s', now, random, tasks) && id in s.dialer.static_
    ensures DialTask(Static, s.dialer.static_[id]) in tasks <==> HasRoom(s) && MayDial(sc, s, s.dialer.static_[id], now)
  {
    hide NewTasksDone, Expired, Free, MayDial, Truthful, Remembered, StartTasks;
    RoomRuns(s);
    if HasRoom(s) {
      var n := |StartTasks(s.running, s.queued).0| + |StartTasks(s.running, s.queued).1|;
      DoneExpires(sc.dial, s.dialer, s'.dialer, s.peers, n, now, random, tasks);
      FreeIff(sc, s, s'.dialer.hist, s.dialer.static_[id], now);
      StaticFreeIff(sc.dial, s.dialer, s'.dialer, s.peers, n, now, random, tasks, id);
    }
  }

  /** Over every run, for every static node and every round of scheduling: the round dials the node exactly when
      there is room for new tasks and nothing forbids it. */
  lemma StaticDialedIff(sc: Settings, states: seq<Loop>, events: seq<Event>, i: nat, tasks: seq<Task>, id: Id)
    requires IsRun(sc, states, events) && i < |events| && events[i].Schedule?
    requires Scheduled(sc, states[i], states[i + 1], events[i].now, events[i].random, tasks)
    requires id in states[i].dialer.static_
    ensures var s := states[i];
            DialTask(Static, s.dialer.static_[id]) in tasks <==> HasRoom(s) && MayDial(sc, s, s.dialer.static_[id], events[i].now)
  {
    BeforeRound(sc, states, events, i);
    hide IsRun, HistoryKnown, Scheduled, HasRoom, MayDial;
    RoundDialsStatic(sc, states[i], states[i + 1], events[i].now, events[i].random, tasks, id);
  }

  /** The candidates of a round: the bootnode whose turn it is, the first r random nodes, and the lookup results it takes. */
  ghost predicate Candidates(sc: Settings, s: Loop, s': Loop, now: int, random: seq<Node>, ns: seq<Node>, r: nat) {
    var wanted := Needed(sc.dial, s.dialer, s.peers);
    var boot := BootTurn(s.dialer, s.peers, now, wanted);
    && |s'.dialer.lookupBuf| <= |s.dialer.lookupBuf| && RandomShare(r, wanted, |boot|, |random|)
    && ns == boot + random[..r] + Taken(s.dialer.lookupBuf, s'.dialer.lookupBuf)
  }

  lemma CandidatesFree(
    cfg: Config, d: Dialer, d': Dialer, peers: map<Id, Peer>, nRunning: nat, now: int, random: seq<Node>, tasks: seq<Task>)
    returns (r: nat)
    requires NewTasksDone(cfg, d, d', peers, nRunning, now, random, tasks)
    ensures DynamicsTried(cfg, d, d', peers, now, random, tasks, r)
    ensures Needed(cfg, d', peers) > 0 ==> d'.lookupBuf == []
  {
    hide Issued, DynIds, Needed, StaticsDialed, StaticsKept, DynamicsTried, WithOthers, Expired, BootTurn, Rotated;
    r :| DynamicsTried(cfg, d, d', peers, now, random, tasks, r);
  }

  lemma RoundDialsCandidates(sc: Settings, s: Loop, s': Loop, now: int, random: seq<Node>, tasks: seq<Task>)
    returns (ns: seq<Node>, r: nat)
    requires HistoryKnown(s, now) && Scheduled(sc, s, s', now, random, tasks) && HasRoom(s)
    ensures Candidates(sc, s, s', now, random, ns, r)
    ensures forall n | n in ns && MayDial(sc, s, n, now) :: n.id in s'.dialer.dialing
    ensures forall t | t in tasks && t.DialTask? && !t.kind.Static? :: t.dest in ns
    ensures Needed(sc.dial, s'.dialer, s.peers) > 0 ==> s'.dialer.lookupBuf == []
  {
    hide NewTasksDone, Expired, Free, MayDial, Truthful, Remembered, StartTasks, Needed, BootTurn;
    RoomRuns(s);
    var k := |StartTasks(s.running, s.queued).0| + |StartTasks(s.running, s.queued).1|;
    DoneExpires(sc.dial, s.dialer, s'.dialer, s.peers, k, now, random, tasks);
    r := CandidatesFree(sc.dial, s.dialer, s'.dialer, s.peers, k, now, random, tasks);
    ns := BootTurn(s.dialer, s.peers, now, Needed(sc.dial, s.dialer, s.peers)) + random[..r]
          + Taken(s.dialer.lookupBuf, s'.dialer.lookupBuf);
    forall n | n in ns && MayDial(sc, s, n, now) ensures n.id in s'.dialer.dialing {
      FreeIff(sc, s, s'.dialer.hist, n, now);
      var j :| 0 <= j < |ns| && ns[j] == n;
      FreeStays(sc.dial, s.dialer, s'.dialer.hist, s.peers, n);
    }
  }

  /** Over every run, in every round with room for new tasks: each candidate that may be dialed is being dialed
      afterwards, only candidates are dialed dynamically, and while dials are wanted the lookup results are used up. */
  lemma CandidatesDialed(sc: Settings, states: seq<Loop>, events: seq<Event>, i: nat, tasks: seq<Task>)
    returns (ns: seq<Node>, r: nat)
    requires IsRun(sc, states, events) && i < |events| && events[i].Schedule? && HasRoom(states[i])
    requires Scheduled(sc, states[i], states[i + 1], events[i].now, events[i].random, tasks)
    ensures Candidates(sc, states[i], states[i + 1], events[i].now, events[i].random, ns, r)
    ensures forall n | n in ns && MayDial(sc, states[i], n, events[i].now) :: n.id in states[i + 1].dialer.dialing
    ensures forall t | t in tasks && t.DialTask? && !t.kind.Static? :: t.dest in ns
    ensures Needed(sc.dial, states[i + 1].dialer, states[i].peers) > 0 ==> states[i + 1].dialer.lookupBuf == []
  {
    BeforeRound(sc, states, events, i);
    hide IsRun, HistoryKnown, Scheduled, HasRoom, MayDial, Candidates, Needed;
    ns, r := RoundDialsCandidates(sc, states[i], states[i + 1], events[i].now, events[i].random, tasks);
  }

  lemma FreeStays(cfg: Config, d: Dialer, hist: multiset<Past>, peers: map<Id, Peer>, n: Node)
    ensures Free(cfg, d.(hist := hist), hist, peers, n) == Free(cfg, d, hist, peers, n)
  {
  }
}
