/** What the discv5 event loop gets done: queries start, nodes are verified, failures count
    (net/rlpx/p2p/discv5/net.go). */
module QueryProgress {
  import opened Wrappers
  import opened QueryEngine

  /** The oldest deferred query of n, if there is one, is now the pending one, with its timer. */
  ghost predicate NextStarted(net: Net, net': Net, n: NodeRef) {
    var waiting := net.At(n).deferred;
    if waiting == [] then net'.At(n).pending.None? && net'.At(n).deferred == []
    else
      && net'.At(n).pending == Some(waiting[0]) && net'.At(n).deferred == waiting[1..]
      && Timer(NeighboursTimeout, n) in net'.timers
  }

  /** A queryable node without a pending query starts the next one. */
  lemma StartNextStarts(own: set<NodeRef>, net: Net, n: NodeRef)
    requires n != SELF && net.At(n).state.CanQuery() && net.At(n).pending.None?
    requires net.At(n).deferred != [] ==> net.At(n).deferred[0].remote == n
    ensures NextStarted(net, StartNextQuery(own, net, n), n)
    ensures StartNextQuery(own, net, n).At(n).state == net.At(n).state
  {
  }

  lemma AbortPendingLeaves(net: Net, n: NodeRef)
    ensures AbortPending(net, n).At(n) == net.At(n).(pending := None)
  {
  }

  /** An answer starts the next query: in every run, once the neighbours of a node arrive for its pending
      query, the query deferred longest is the pending one, and its timer runs. */
  lemma AnswerStartsNext(
    own: set<NodeRef>, states: seq<Net>, events: seq<Event>, i: nat, n: NodeRef, found: seq<NodeRef>, last: Option<NodeRef>)
    requires IsRun(own, states, events) && i < |states| && n != SELF && states[i].At(n).pending.Some?
    ensures NextStarted(states[i], Step(own, states[i], Packet(n, NeighborsPacket(found), last)), n)
  {
    RunTimed(own, states, events, i);
    RunInv(own, states, events, i);
    assert HomedAt(states[i].At(n), n);
    hide IsRun, Inv, Step, HomedAt;
    NeighboursStart(own, states[i], n, found, last);
  }

  lemma NeighboursStart(own: set<NodeRef>, net: Net, n: NodeRef, found: seq<NodeRef>, last: Option<NodeRef>)
    requires Timed(net) && HomedAt(net.At(n), n) && n != SELF && net.At(n).pending.Some?
    ensures NextStarted(net, Step(own, net, Packet(n, NeighborsPacket(found), last)), n)
  {
    assert TimedAt(net, n);
    hide NextStarted;
    NeighboursNext(own, net, n, found);
    hide HandleNeighbours, Timed, HomedAt;
    NeighboursHandled(own, net, n, found, last);
  }

  lemma NeighboursHandled(own: set<NodeRef>, net: Net, n: NodeRef, found: seq<NodeRef>, last: Option<NodeRef>)
    requires net.At(n).state.CanQuery() && HandleNeighbours(own, net, n, found).At(n).state == net.At(n).state
    ensures Handle(own, net, n, NeighborsPacket(found), last) == HandleNeighbours(own, net, n, found)
  {
    hide HandleNeighbours, EnterKnown, EnterUnknown, Ping;
    assert HandleIn(own, net, n, NeighborsPacket(found)) == (HandleNeighbours(own, net, n, found), net.At(n).state);
  }

  lemma NeighboursNext(own: set<NodeRef>, net: Net, n: NodeRef, found: seq<NodeRef>)
    requires Timed(net) && HomedAt(net.At(n), n) && n != SELF && net.At(n).pending.Some? && net.At(n).state.CanQuery()
    ensures NextStarted(net, HandleNeighbours(own, net, n, found), n)
    ensures HandleNeighbours(own, net, n, found).At(n).state == net.At(n).state
  {
    var net1 := net.(timers := net.timers - {Timer(NeighboursTimeout, n)});
    assert TimedBut(net1, n) by {
      forall m: NodeRef | m != n ensures TimedAt(net1, m) {
        assert TimedAt(net, m);
      }
    }
    hide Timed, TimedBut, VerifyNew, AbortPending, StartNextQuery;
    TimedVerifyNew(own, net1, found, n);
    var net2 := VerifyNew(own, net1, found);
    AbortPendingLeaves(net2, n);
    StartNextStarts(own, AbortPending(net2, n), n);
  }

  /** The step of a node that becomes known. */
  lemma TransitionStartsNext(own: set<NodeRef>, net: Net, n: NodeRef, last: Option<NodeRef>)
    requires n != SELF && net.At(n).state != Known && net.At(n).pending.None?
    requires net.At(n).deferred != [] ==> net.At(n).deferred[0].remote == n
    ensures NextStarted(net, Transition(own, net, n, Known, last), n)
  {
    var known := net.Put(n, net.At(n).(state := Known));
    var net1 := known.Put(n, known.At(n).(timeouts := 0));
    StartNextStarts(own, net1, n);
    hide StartNextQuery, Ping;
    var net2 := StartNextQuery(own, net1, n);
    assert NextStarted(net, net2, n);
    hide NextStarted;
    if last.Some? {
      ContestedKeepsStarted(own, net, net2, n, last);
    }
  }

  lemma PingKeepsQueries(own: set<NodeRef>, net: Net, n: NodeRef)
    ensures forall m: NodeRef :: Ping(own, net, n).At(m).pending == net.At(m).pending && Ping(own, net, n).At(m).deferred == net.At(m).deferred
    ensures net.timers <= Ping(own, net, n).timers
  {
  }

  /** Contesting another node changes nothing about what has been started. */
  lemma ContestedKeepsStarted(own: set<NodeRef>, net: Net, net2: Net, n: NodeRef, last: Option<NodeRef>)
    requires NextStarted(net, net2, n) && last.Some?
    ensures NextStarted(net, Ping(own, net2.Put(last.value, net2.At(last.value).(state := Contested)), last.value), n)
  {
    hide Ping;
    PingKeepsQueries(own, net2.Put(last.value, net2.At(last.value).(state := Contested)), last.value);
  }

  /** Becoming known starts the next query: in every run, whatever packet or timer makes a node known, the
      query deferred longest is then the pending one, unless one was pending all along. */
  lemma KnownStartsNext(own: set<NodeRef>, states: seq<Net>, events: seq<Event>, i: nat, n: NodeRef, ev: NodeEvent, last: Option<NodeRef>)
    requires IsRun(own, states, events) && i < |states| && n != SELF
    requires states[i].At(n).state != Known && states[i].At(n).pending.None?
    requires HandleIn(own, states[i], n, ev).1 == Known && (ev.PongPacket? ==> ev.tokenMatches)
    ensures NextStarted(states[i], Handle(own, states[i], n, ev, last), n)
  {
    var net := states[i];
    RunInv(own, states, events, i);
    assert HomedAt(net.At(n), n);
    hide IsRun, Inv, HandleQueryEvent, Transition;
    var net0 := if ev.PongPacket? then net.Put(n, net.At(n).(pinged := false)) else net;
    var (net1, next) := HandleIn(own, net0, n, ev);
    if net.At(n).state.CanQuery() {
      NotByQuery(own, net, n, ev);
    }
    assert net1.At(n) == net0.At(n).(pinged := net1.At(n).pinged) && next == Known;
    TransitionStartsNext(own, net1, n, last);
  }

  // ---------- How states change ----------

  /** How a node's state may change by what happens to others: an unknown node is pinged. */
  ghost predicate Drift(a: Net, b: Net) {
    forall m: NodeRef :: b.At(m).state == a.At(m).state || (a.At(m).state.Unknown? && b.At(m).state.VerifyInit?)
  }

  lemma PingStates(own: set<NodeRef>, net: Net, n: NodeRef)
    ensures forall m: NodeRef :: Ping(own, net, n).At(m).state == net.At(m).state
  {
  }

  lemma ToVerifyInitDrifts(own: set<NodeRef>, net: Net, n: NodeRef)
    requires net.At(n).state.Unknown?
    ensures Drift(net, ToVerifyInit(own, net, n))
  {
    hide Ping;
    PingStates(own, net.Put(n, net.At(n).(state := VerifyInit)), n);
  }

  lemma StartDrifts(own: set<NodeRef>, net: Net, q: Query)
    ensures Drift(net, Start(own, net, q).0)
  {
    hide ToVerifyInit;
    if net.At(q.remote).state.Unknown? {
      ToVerifyInitDrifts(own, net, q.remote);
    }
  }

  lemma StartNextDrifts(own: set<NodeRef>, net: Net, n: NodeRef)
    ensures Drift(net, StartNextQuery(own, net, n))
  {
    hide Start;
    if net.At(n).deferred != [] {
      StartDrifts(own, net, net.At(n).deferred[0]);
    }
  }

  lemma {:induction false} AbortDeferredStates(net: Net, n: NodeRef)
    ensures forall m: NodeRef :: AbortDeferred(net, n).At(m).state == net.At(m).state
    ensures AbortDeferred(net, n).At(n).deferred == [] && AbortDeferred(net, n).At(n).pending == net.At(n).pending
    decreases |net.At(n).deferred|
  {
    if net.At(n).deferred != [] {
      AbortDeferredStates(Reply(DropFirstDeferred(net, n), net.At(n).deferred[0]), n);
    }
  }

  lemma {:induction false} VerifyNewDrifts(own: set<NodeRef>, net: Net, found: seq<NodeRef>)
    ensures Drift(net, VerifyNew(own, net, found))
    decreases |found|
  {
    hide ToVerifyInit;
    if |found| > 0 {
      var net1 := if net.At(found[0]).state.Unknown? then ToVerifyInit(own, net, found[0]) else net;
      if net.At(found[0]).state.Unknown? {
        ToVerifyInitDrifts(own, net, found[0]);
      }
      VerifyNewDrifts(own, net1, found[1..]);
    }
  }

  lemma NeighboursDrift(own: set<NodeRef>, net: Net, n: NodeRef, found: seq<NodeRef>)
    ensures Drift(net, HandleNeighbours(own, net, n, found))
  {
    hide VerifyNew, AbortPending, StartNextQuery;
    if net.At(n).pending.Some? {
      var net1 := net.(timers := net.timers - {Timer(NeighboursTimeout, n)});
      VerifyNewDrifts(own, net1, found);
      var net2 := VerifyNew(own, net1, found);
      AbortPendingLeaves(net2, n);
      AbortPendingStates(net2, n);
      StartNextDrifts(own, AbortPending(net2, n), n);
    }
  }

  lemma AbortPendingStates(net: Net, n: NodeRef)
    ensures forall m: NodeRef :: AbortPending(net, n).At(m).state == net.At(m).state
  {
  }

  /** Query events leave a queryable node's state alone, or make a known node contested. */
  lemma QueryEventStates(own: set<NodeRef>, net: Net, n: NodeRef, ev: NodeEvent)
    requires net.At(n).state.CanQuery()
    ensures Drift(net, HandleQueryEvent(own, net, n, ev).0)
    ensures var next := HandleQueryEvent(own, net, n, ev).1; next == net.At(n).state || (net.At(n).state.Known? && next.Contested?)
  {
    hide HandleNeighbours, AbortPending;
    if ev.NeighborsPacket? {
      NeighboursDrift(own, net, n, ev.found);
    } else if ev.Expired? {
      AbortPendingStates(net, n);
    }
  }

  /** Query events never make a node known. */
  lemma NotByQuery(own: set<NodeRef>, net: Net, n: NodeRef, ev: NodeEvent)
    requires net.At(n).state.CanQuery() && net.At(n).state != Known
    ensures HandleQueryEvent(own, net, n, ev).1 != Known
  {
    hide HandleQueryEvent;
    QueryEventStates(own, net, n, ev);
  }

  /** A transition of n to `next`, and what it does to the others. */
  ghost predicate MovedTo(a: Net, b: Net, n: NodeRef, next: NodeState) {
    && (forall m: NodeRef | m != n ::
          || b.At(m).state == a.At(m).state || (a.At(m).state.Unknown? && b.At(m).state.VerifyInit?)
          || (a.At(m).state.Known? && b.At(m).state.Contested?))
    && (b.At(n).state == next || (next.Known? && b.At(n).state.Contested?) || (next.Unknown? && b.At(n).state.VerifyInit?))
  }

  lemma TransitionMoves(own: set<NodeRef>, net: Net, n: NodeRef, next: NodeState, last: Option<NodeRef>)
    ensures MovedTo(net, Transition(own, net, n, next, last), n, next)
  {
    hide Ping, StartNextQuery, AbortDeferred, AbortPending;
    if net.At(n).state != next {
      var net1 := net.Put(n, net.At(n).(state := next));
      if next.Unknown? {
        EnterUnknownStates(net1, n);
        hide EnterUnknown;
      } else if next.Known? {
        EnterKnownMoves(own, net1, n, last);
      } else {
        PingStates(own, net1, n);
      }
    }
  }

  /** Entering unknown leaves nothing deferred or pending at the node, and all states as they are. */
  lemma EnterUnknownStates(net: Net, n: NodeRef)
    ensures forall m: NodeRef :: EnterUnknown(net, n).At(m).state == net.At(m).state
    ensures EnterUnknown(net, n).At(n).deferred == [] && EnterUnknown(net, n).At(n).pending.None?
  {
    hide AbortDeferred, AbortPending;
    var net1 := net.Put(n, net.At(n).(pinged := false));
    AbortDeferredStates(net1, n);
    var net2 := AbortDeferred(net1, n);
    AbortPendingLeaves(net2, n);
    AbortPendingStates(net2, n);
    assert forall m: NodeRef :: net1.At(m).state == net.At(m).state;
  }

  lemma EnterKnownMoves(own: set<NodeRef>, net: Net, n: NodeRef, last: Option<NodeRef>)
    requires net.At(n).state.Known?
    ensures MovedTo(net, EnterKnown(own, net, n, last), n, Known)
  {
    hide Ping, StartNextQuery;
    var net1 := net.Put(n, net.At(n).(timeouts := 0));
    StartNextDrifts(own, net1, n);
    var net2 := StartNextQuery(own, net1, n);
    assert Drift(net, net2) by {
      forall m: NodeRef ensures net1.At(m).state == net.At(m).state {
      }
    }
    if last.Some? && net2.At(last.value).state.Known? {
      var net3 := net2.Put(last.value, net2.At(last.value).(state := Contested));
      PingStates(own, net3, last.value);
      assert forall m: NodeRef | m != last.value :: net3.At(m).state == net2.At(m).state;
    }
  }

  /** What a node's own packets and timers may do to its state. */
  ghost predicate Advances(s: NodeState, ev: NodeEvent, s': NodeState) {
    || s' == s
    || (s.Unknown? && ev.PingPacket? && s'.VerifyWait?)
    || (s.VerifyInit? && ev.PingPacket? && s'.VerifyWait?)
    || ((s.VerifyInit? || s.VerifyWait?) && ev == Expired(PongTimeout) && s'.Unknown?)
    || (s.VerifyInit? && ev.PongPacket? && s'.RemoteVerifyWait?)
    || (s.VerifyWait? && ev.PongPacket? && s'.Known?)
    || (s.RemoteVerifyWait? && ev == Expired(PingTimeout) && s'.Known?)
    || (s.Contested? && ev == Expired(PongTimeout) && s'.Unresponsive?)
    || (s.Contested? && ev.PongPacket? && s'.Known?)
    || (s.Unresponsive? && (ev.PingPacket? || ev.PongPacket?) && s'.Known?)
    || (s.Known? && s'.Contested?)
  }

  lemma HandleInAdvances(own: set<NodeRef>, net: Net, n: NodeRef, ev: NodeEvent)
    ensures Drift(net, HandleIn(own, net, n, ev).0) && Advances(net.At(n).state, ev, HandleIn(own, net, n, ev).1)
  {
    hide HandleQueryEvent, Ping;
    PingStates(own, net, n);
    if net.At(n).state.CanQuery() {
      QueryEventStates(own, net, n, ev);
    }
  }

  /** A node that has shown it receives at its address: it has answered a ping of ours. */
  predicate Bonded(s: NodeState) { s.RemoteVerifyWait? || s.CanQuery() }

  /** Packets and timers of one node: nobody else becomes bonded, it itself only by its pong, and nobody that can be
      queried ceases to be. */
  lemma HandleBonds(own: set<NodeRef>, net: Net, n: NodeRef, ev: NodeEvent, last: Option<NodeRef>, m: NodeRef)
    ensures var s, s' := net.At(m).state, Handle(own, net, n, ev, last).At(m).state;
            && (Bonded(s') && !Bonded(s) ==> m == n && ev.PongPacket? && ev.tokenMatches)
            && (s.CanQuery() ==> s'.CanQuery()) && (Bonded(s) ==> Bonded(s'))
  {
    hide HandleIn, Transition;
    if !(ev.PongPacket? && !ev.tokenMatches) {
      var net0 := if ev.PongPacket? then net.Put(n, net.At(n).(pinged := false)) else net;
      HandleInAdvances(own, net0, n, ev);
      var (net1, next) := HandleIn(own, net0, n, ev);
      TransitionMoves(own, net1, n, next, last);
    }
  }

  lemma StepBonds(own: set<NodeRef>, net: Net, e: Event, m: NodeRef)
    requires Possible(net, e)
    ensures var s, s' := net.At(m).state, Step(own, net, e).At(m).state;
            && (Bonded(s') && !Bonded(s) ==> exists last :: e == Packet(m, PongPacket(true), last))
            && (s.CanQuery() ==> s'.CanQuery()) && (Bonded(s) ==> Bonded(s'))
  {
    hide Handle, TakeQuery, ToVerifyInit, Ping;
    match e
    case Packet(n, ev, last) =>
      HandleBonds(own, net, n, ev, last, m);
    case TimerFires(t, last) => HandleBonds(own, net.(timers := net.timers - {t}), t.node, Expired(t.kind), last, m);
    case Seed(n) =>
      if net.At(n).state.Unknown? {
        ToVerifyInitDrifts(own, net, n);
      }
    case PingNode(n) => PingStates(own, net, n);
    case LookupAsks(l, serial, remote) =>
      var lk := net.lookups[l];
      TakeDrifts(own, net.(lookups := net.lookups[l := Asking(own, lk, remote)]), Query(serial, remote, lk.reply));
    case _ =>
  }

  lemma TakeDrifts(own: set<NodeRef>, net: Net, q: Query)
    ensures Drift(net, TakeQuery(own, net, q))
  {
    hide Start;
    var net0 := net.(submitted := net.submitted + {q});
    StartDrifts(own, net0, q);
    assert forall m: NodeRef :: net0.At(m) == net.At(m);
    assert forall m: NodeRef :: DeferQuery(Start(own, net0, q).0, q).At(m).state == Start(own, net0, q).0.At(m).state;
  }

  /** Endpoint proof: in every run, a node that is known, contested or unresponsive, or about to be known, has
      answered a ping of ours with the right token; and a node that can be queried stays so for the rest of
      the run. */
  lemma {:induction false} BondedByPong(own: set<NodeRef>, states: seq<Net>, events: seq<Event>, i: nat, n: NodeRef)
    requires IsRun(own, states, events) && i < |states|
    ensures Bonded(states[i].At(n).state) ==> exists j, last :: 0 <= j < i && events[j] == Packet(n, PongPacket(true), last)
    ensures i + 1 < |states| && states[i].At(n).state.CanQuery() ==> states[i + 1].At(n).state.CanQuery()
  {
    hide Step;
    if i < |events| {
      StepBonds(own, states[i], events[i], n);
    }
    if i == 0 {
      assert !Bonded(EMPTY.At(n).state);
    } else {
      BondedByPong(own, states, events, i - 1, n);
      StepBonds(own, states[i - 1], events[i - 1], n);
    }
  }

  // ---------- What happens to a query ----------

  /** What becomes of a query that the loop takes: answered at once by the local node, sent at once to an idle node
      that can be queried, and otherwise put at the end of its node's list; a node not heard of is then pinged,
      unless a ping is out or it carries the local identity. */
  ghost predicate Taken(own: set<NodeRef>, net: Net, net': Net, q: Query) {
    var g, g' := net.At(q.remote), net'.At(q.remote);
    if q.remote == SELF then net'.answered[q] == net.answered[q] + 1 && net'.Buffer(q.reply) == net.Buffer(q.reply) + [q]
    else if g.state.CanQuery() && g.pending.None? then
      g' == g.(pending := Some(q)) && Timer(NeighboursTimeout, q.remote) in net'.timers
    else
      && g'.deferred == g.deferred + [q] && g'.pending == g.pending
      && (if g.state.Unknown? then
            && g'.state.VerifyInit?
            && (!g.pinged && q.remote !in own ==> g'.pinged && Timer(PongTimeout, q.remote) in net'.timers)
          else g'.state == g.state)
  }

  lemma TakeQueryTakes(own: set<NodeRef>, net: Net, q: Query)
    requires |net.Buffer(q.reply)| < ALPHA
    ensures Taken(own, net, TakeQuery(own, net, q), q)
  {
    var net0 := net.(submitted := net.submitted + {q});
    assert net0.At(q.remote) == net.At(q.remote);
    if q.remote == SELF {
      hide ToVerifyInit, DeferQuery;
    } else if net.At(q.remote).state.Unknown? {
      UnknownTaken(own, net0, q);
      hide Reply, Start, DeferQuery;
    } else {
      hide Reply, ToVerifyInit;
    }
  }

  /** A query for a node not heard of. */
  lemma UnknownTaken(own: set<NodeRef>, net: Net, q: Query)
    requires q.remote != SELF && net.At(q.remote).state.Unknown?
    ensures Start(own, net, q) == (ToVerifyInit(own, net, q.remote), false)
    ensures var g, net' := net.At(q.remote), DeferQuery(ToVerifyInit(own, net, q.remote), q);
            && net'.At(q.remote).deferred == g.deferred + [q] && net'.At(q.remote).pending == g.pending
            && net'.At(q.remote).state.VerifyInit?
            && (!g.pinged && q.remote !in own ==> net'.At(q.remote).pinged && Timer(PongTimeout, q.remote) in net'.timers)
  {
    hide Reply;
  }

  /** In every run, whatever query a lookup submits. */
  lemma QueryTaken(own: set<NodeRef>, states: seq<Net>, events: seq<Event>, i: nat, l: nat, serial: nat, n: NodeRef)
    requires IsRun(own, states, events) && i < |states| && Possible(states[i], LookupAsks(l, serial, n))
    ensures Taken(own, states[i], Step(own, states[i], LookupAsks(l, serial, n)), Query(serial, n, states[i].lookups[l].reply))
  {
    var net, lk := states[i], states[i].lookups[l];
    RunInv(own, states, events, i);
    LookupHasRoom(net, l);
    hide IsRun, Inv, Taken;
    var asking := net.(lookups := net.lookups[l := Asking(own, lk, n)]);
    TakeQueryTakes(own, asking, Query(serial, n, lk.reply));
    LookupsDoNotMatter(own, asking, net, TakeQuery(own, asking, Query(serial, n, lk.reply)), Query(serial, n, lk.reply));
  }

  lemma LookupsDoNotMatter(own: set<NodeRef>, a: Net, b: Net, net': Net, q: Query)
    requires a == b.(lookups := a.lookups)
    ensures Taken(own, a, net', q) == Taken(own, b, net', q)
  {
  }

  /** A lookup that may ask has room on its channel for the answer. */
  lemma LookupHasRoom(net: Net, l: nat)
    requires Inv(net, multiset{}) && l in net.lookups && net.lookups[l].pendingQueries < ALPHA
    ensures |net.Buffer(net.lookups[l].reply)| < ALPHA
  {
    assert Load(net, net.lookups[l].reply) <= net.lookups[l].pendingQueries;
  }

  /** A node that does not answer the ping is forgotten: it is unknown again, and every query that waited for
      it has been answered. */
  lemma SilenceAnswersAll(own: set<NodeRef>, states: seq<Net>, events: seq<Event>, i: nat, n: NodeRef, last: Option<NodeRef>, q: Query)
    requires IsRun(own, states, events) && i < |states| && Timer(PongTimeout, n) in states[i].timers
    requires states[i].At(n).state.VerifyInit? || states[i].At(n).state.VerifyWait?
    ensures var net' := Step(own, states[i], TimerFires(Timer(PongTimeout, n), last));
            && net'.At(n).state.Unknown? && net'.At(n).deferred == [] && net'.At(n).pending.None? && !net'.At(n).pinged
            && (q in states[i].submitted && q.remote == n ==> net'.answered[q] == 1)
  {
    var net := states[i];
    var e := TimerFires(Timer(PongTimeout, n), last);
    RunInv(own, states, events, i);
    StepKeeps(own, net, e);
    var net' := Step(own, net, e);
    var net1 := net.(timers := net.timers - {Timer(PongTimeout, n)});
    assert net' == Transition(own, net1, n, Unknown, last);
    hide IsRun, Inv, Handle;
    var net2 := net1.Put(n, net1.At(n).(state := Unknown));
    EnterUnknownStates(net2, n);
    EnterUnknownRecord(net2, n);
    if q in net.submitted && q.remote == n {
      EnterUnknownSubmitted(net2, n);
      AnsweredIfNotHeld(net', q);
    }
  }

  lemma EnterUnknownRecord(net: Net, n: NodeRef)
    ensures EnterUnknown(net, n).At(n) == Guts(net.At(n).state, [], None, 0, false)
  {
    hide AbortDeferred, AbortPending;
    var net1 := net.Put(n, net.At(n).(pinged := false));
    AbortDeferredRecord(net1, n);
    AbortPendingLeaves(AbortDeferred(net1, n), n);
  }

  lemma {:induction false} AbortDeferredRecord(net: Net, n: NodeRef)
    ensures AbortDeferred(net, n).At(n) == net.At(n).(deferred := [])
    ensures AbortDeferred(net, n).submitted == net.submitted
    decreases |net.At(n).deferred|
  {
    if net.At(n).deferred != [] {
      AbortDeferredRecord(Reply(DropFirstDeferred(net, n), net.At(n).deferred[0]), n);
    }
  }

  lemma EnterUnknownSubmitted(net: Net, n: NodeRef)
    ensures EnterUnknown(net, n).submitted == net.submitted
  {
    hide AbortDeferred;
    AbortDeferredRecord(net.Put(n, net.At(n).(pinged := false)), n);
  }

  lemma AnsweredIfNotHeld(net: Net, q: Query)
    requires Inv(net, multiset{}) && q in net.submitted
    requires net.At(q.remote).deferred == [] && net.At(q.remote).pending.None?
    ensures net.answered[q] == 1
  {
    assert Places(net, q) + multiset{}[q] == 1;
  }

  /** Failures count: a neighbours timeout adds one, and a known node is contested from the sixth in a row on;
      becoming known starts the count again. */
  lemma TimeoutsCount(own: set<NodeRef>, states: seq<Net>, events: seq<Event>, i: nat, n: NodeRef, last: Option<NodeRef>)
    requires IsRun(own, states, events) && i < |states| && Timer(NeighboursTimeout, n) in states[i].timers
    ensures var g, g' := states[i].At(n), Step(own, states[i], TimerFires(Timer(NeighboursTimeout, n), last)).At(n);
            && g'.timeouts == g.timeouts + 1
            && g'.state == if g.state.Known? && g.timeouts >= MAX_FINDNODE_FAILURES then Contested else g.state
  {
    var net := states[i];
    RunTimed(own, states, events, i);
    assert TimedAt(net, n);
    var net1 := net.(timers := net.timers - {Timer(NeighboursTimeout, n)});
    hide IsRun, Timed, AbortPending;
    AbortPendingLeaves(net1, n);
    assert Step(own, net, TimerFires(Timer(NeighboursTimeout, n), last)) ==
           Transition(own, CountTimeout(AbortPending(net1, n), n).0, n, CountTimeout(AbortPending(net1, n), n).1, last);
  }

  lemma KnownResets(own: set<NodeRef>, net: Net, n: NodeRef, last: Option<NodeRef>)
    requires net.At(n).state != Known
    ensures Transition(own, net, n, Known, last).At(n).timeouts == 0
  {
    hide Ping, Start;
    var net1 := net.Put(n, net.At(n).(state := Known));
    var net2 := net1.Put(n, net1.At(n).(timeouts := 0));
    StartNextTimeouts(own, net2, n);
    hide StartNextQuery;
    PingTimeouts(own);
  }

  lemma PingTimeouts(own: set<NodeRef>)
    ensures forall net: Net, n: NodeRef, m: NodeRef :: Ping(own, net, n).At(m).timeouts == net.At(m).timeouts
  {
  }

  lemma StartNextTimeouts(own: set<NodeRef>, net: Net, n: NodeRef)
    ensures forall m: NodeRef :: StartNextQuery(own, net, n).At(m).timeouts == net.At(m).timeouts
  {
    if net.At(n).deferred != [] {
      StartTimeouts(own, net, net.At(n).deferred[0]);
      hide Start;
    }
  }

  lemma StartTimeouts(own: set<NodeRef>, net: Net, q: Query)
    ensures forall m: NodeRef :: Start(own, net, q).0.At(m).timeouts == net.At(m).timeouts
  {
    PingTimeouts(own);
    hide Ping;
  }

  // ---------- Verification completes ----------

  /** Node n has become known and its oldest query is on its way. */
  ghost predicate NowKnown(net: Net, net': Net, n: NodeRef) {
    net'.At(n).state.Known? && net'.At(n).timeouts == 0 && NextStarted(net, net', n)
  }

  lemma BecomesKnown(own: set<NodeRef>, net: Net, n: NodeRef, last: Option<NodeRef>)
    requires n != SELF && net.At(n).state != Known && net.At(n).pending.None? && last != Some(n)
    requires net.At(n).deferred != [] ==> net.At(n).deferred[0].remote == n
    ensures NowKnown(net, Transition(own, net, n, Known, last), n)
  {
    TransitionStartsNext(own, net, n, last);
    KnownResets(own, net, n, last);
    var known := net.Put(n, net.At(n).(state := Known));
    StartNextStarts(own, known.Put(n, known.At(n).(timeouts := 0)), n);
    hide StartNextQuery, NextStarted;
    var net2 := StartNextQuery(own, known.Put(n, known.At(n).(timeouts := 0)), n);
    if last.Some? {
      PingStates(own, net2.Put(last.value, net2.At(last.value).(state := Contested)), last.value);
      hide Ping;
    }
  }

  /** Our ping answered first: the node waits for the other's ping to time out, and is then known. */
  lemma VerifiedByPong(own: set<NodeRef>, net: Net, n: NodeRef, last: Option<NodeRef>, last': Option<NodeRef>)
    requires n != SELF && net.At(n).state.VerifyInit? && net.At(n).pending.None? && last' != Some(n)
    requires net.At(n).deferred != [] ==> net.At(n).deferred[0].remote == n
    ensures Possible(Step(own, net, Packet(n, PongPacket(true), last)), TimerFires(Timer(PingTimeout, n), last'))
    ensures NowKnown(net, Step(own, Step(own, net, Packet(n, PongPacket(true), last)), TimerFires(Timer(PingTimeout, n), last')), n)
  {
    var g := net.At(n).(state := RemoteVerifyWait, pinged := false);
    var net1 := Step(own, net, Packet(n, PongPacket(true), last));
    assert net1.At(n) == g && Timer(PingTimeout, n) in net1.timers;
    hide Transition, NowKnown;
    var net2 := net1.(timers := net1.timers - {Timer(PingTimeout, n)});
    assert Step(own, net1, TimerFires(Timer(PingTimeout, n), last')) == Transition(own, net2, n, Known, last');
    BecomesKnown(own, net2, n, last');
    SameRecordKnown(net, net2, Transition(own, net2, n, Known, last'), n);
  }

  lemma SameRecordKnown(net: Net, net2: Net, net': Net, n: NodeRef)
    requires NowKnown(net2, net', n) && net2.At(n).deferred == net.At(n).deferred
    ensures NowKnown(net, net', n)
  {
  }

  /** The other's ping first: with our ping answered the node is known. */
  lemma VerifiedByPing(own: set<NodeRef>, net: Net, n: NodeRef, last: Option<NodeRef>, last': Option<NodeRef>)
    requires n != SELF && (net.At(n).state.VerifyInit? || net.At(n).state.Unknown?) && net.At(n).pending.None? && last' != Some(n)
    requires net.At(n).deferred != [] ==> net.At(n).deferred[0].remote == n
    ensures NowKnown(net, Step(own, Step(own, net, Packet(n, PingPacket, last)), Packet(n, PongPacket(true), last')), n)
  {
    var net1 := Step(own, net, Packet(n, PingPacket, last));
    assert net1.At(n).state.VerifyWait? && net1.At(n).pending.None? && net1.At(n).deferred == net.At(n).deferred;
    hide Transition, NowKnown;
    var net0 := net1.Put(n, net1.At(n).(pinged := false));
    var net2 := KnownPong(net0, n);
    assert Step(own, net1, Packet(n, PongPacket(true), last')) == Transition(own, net2, n, Known, last');
    BecomesKnown(own, net2, n, last');
    SameRecordKnown(net, net2, Transition(own, net2, n, Known, last'), n);
  }

  /** A contested node is known again when it answers, unresponsive when it does not; and an unresponsive one is
      known again on any ping or pong. */
  lemma ContestedSettles(own: set<NodeRef>, net: Net, n: NodeRef, last: Option<NodeRef>)
    requires last != Some(n)
    ensures net.At(n).state.Contested? ==>
              && Handle(own, net, n, PongPacket(true), last).At(n).state.Known?
              && Handle(own, net, n, Expired(PongTimeout), last).At(n).state.Unresponsive?
    ensures net.At(n).state.Unresponsive? ==>
              && Handle(own, net, n, PongPacket(true), last).At(n).state.Known?
              && Handle(own, net, n, PingPacket, last).At(n).state.Known?
  {
    var net0 := net.Put(n, net.At(n).(pinged := false));
    KnownWithout(own, KnownPong(net0, n), n, last);
    KnownWithout(own, net, n, last);
    hide EnterKnown, HandleQueryEvent;
  }

  lemma KnownWithout(own: set<NodeRef>, net: Net, n: NodeRef, last: Option<NodeRef>)
    requires last != Some(n)
    ensures Transition(own, net, n, Known, last).At(n).state.Known?
  {
    if net.At(n).state != Known {
      var known := net.Put(n, net.At(n).(state := Known));
      EnterKnownStays(own, known, n, last);
      hide EnterKnown;
    }
  }

  lemma EnterKnownStays(own: set<NodeRef>, net: Net, n: NodeRef, last: Option<NodeRef>)
    requires last != Some(n) && net.At(n).state.Known?
    ensures EnterKnown(own, net, n, last).At(n).state.Known?
  {
    hide Ping, StartNextQuery;
    var net1 := net.Put(n, net.At(n).(timeouts := 0));
    StartNextDrifts(own, net1, n);
    var net2 := StartNextQuery(own, net1, n);
    assert net1.At(n).state.Known? && net2.At(n).state.Known?;
    if last.Some? {
      PingStates(own, net2.Put(last.value, net2.At(last.value).(state := Contested)), last.value);
    }
  }
}
