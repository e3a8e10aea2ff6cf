/** Seller and buyer together: two nodes, each running its program over the other's bytes
    (net/session.go, net/tx.go; the order of operations from connection.go, seller_tx.go and
    buyer_tx.go). */
module Joint {
  import opened Words
  import opened Bits
  import opened Codec
  import opened Frames
  import opened Transport
  import opened PodNode

  datatype Role = Alice | Bob

  function Other(r: Role): Role {
    if r.Alice? then Bob else Alice
  }

  /** Everything the two honest parties choose. */
  datatype Script = Script(
    crypto: Crypto,
    aliceKeys: Keys, bobKeys: Keys,
    id: Code, mode: byte,
    root: seq<byte>, bobExtra: seq<byte>, aliceExtra: seq<byte>,
    negoRequest: seq<byte>, negoResp: seq<byte>, negoReq: seq<byte>, negoAck: seq<byte>,
    txRequest: seq<byte>, txResponse: seq<byte>, receipt: seq<byte>)
  {
    /** What honest parties satisfy: a session id that is not zero, a known mode, a 32-byte root, a
        nonempty negotiation response and receipt, sizes a 64-bit length can carry, and a buyer's
        signature that the seller recovers. */
    ghost predicate Honest() {
      && 0 < id && mode < MODE_MAX && |root| == 32
      && 0 < |negoResp| && 0 < |receipt|
      && aliceKeys.verify(receipt, bobKeys.sign(receipt))
      && SESSION_REQUEST_SIZE + |bobExtra| < TWO_TO_64 && SESSION_REQUEST_SIZE + |aliceExtra| < TWO_TO_64
      && |negoRequest| < TWO_TO_64 && 8 + |negoResp| + |negoReq| < TWO_TO_64 && |negoAck| < TWO_TO_64
      && |txRequest| < TWO_TO_64 && |txResponse| < TWO_TO_64 && RECEIPT_SIG_SIZE + |receipt| < TWO_TO_64
    }

    predicate Ot() { IsOtMode(mode) }

    /** How many operations each party performs. */
    function Length(): nat { if Ot() then 9 else 6 }

    /** Position in the full OT exchange of the i-th operation. */
    function Stage(i: nat): nat { if Ot() || i < 3 then i else i + 3 }
  }

  /** A party: its node, how far it has come, and the last session message it received. */
  datatype Party = Party(view: View, pc: nat, seen: SessionRequest)

  const NOTHING := SessionRequest(0, 0, [], [])

  datatype World = World(alice: Party, bob: Party)
  {
    function Get(r: Role): Party { if r.Alice? then alice else bob }
    function Set(r: Role, p: Party): World { if r.Alice? then this.(alice := p) else this.(bob := p) }
  }

  /** In every exchange both parties act once; Alice sends the middle one of each three. */
  predicate SendsAt(r: Role, stage: nat) {
    (stage % 3 == 1) == r.Alice?
  }

  /** The program of each party. Session data received earlier is echoed, as the code does. */
  function Program(s: Script, r: Role, stage: nat, seen: SessionRequest): Op
    requires stage < 9
  {
    match r
    case Alice => (
      match stage
      case 0 => RecvSessionRequest
      case 1 => SendSessionAck(SessionRequest(s.id, s.mode, seen.root, s.aliceExtra), true)
      case 2 => RecvSessionAck(false)
      case 3 => RecvNegoRequest
      case 4 => SendNegoAckReq(s.negoResp, s.negoReq)
      case 5 => RecvNegoAck
      case 6 => RecvTxRequest
      case 7 => SendTxResponse(s.txResponse)
      case 8 => RecvTxReceipt)
    case Bob => (
      match stage
      case 0 => SendNewSessionRequest(0, s.root, s.bobExtra)
      case 1 => RecvSessionAck(true)
      case 2 => SendSessionAck(SessionRequest(seen.id, seen.mode, s.root, seen.extra), false)
      case 3 => SendNegoRequest(s.negoRequest)
      case 4 => RecvNegoAckReq
      case 5 => SendNegoAck(s.negoAck)
      case 6 => SendTxRequest(s.txRequest)
      case 7 => RecvTxResponse
      case 8 => SendTxReceipt(s.receipt))
  }

  /** Which flow a party runs is decided by the mode it knows: Alice by the mode she chose, Bob by
      the mode in the ack he received. */
  function NextStage(s: Script, r: Role, p: Party): nat {
    var ot := if r.Alice? then s.Ot() else IsOtMode(p.seen.mode);
    if ot || p.pc < 3 then p.pc else p.pc + 3
  }

  predicate Finished(s: Script, r: Role, p: Party) {
    NextStage(s, r, p) >= 9
  }

  function NextOp(s: Script, r: Role, p: Party): Op
    requires !Finished(s, r, p)
  {
    Program(s, r, NextStage(s, r, p), p.seen)
  }

  /** A party can move unless it is done or waits for bytes that have not come. */
  predicate Enabled(s: Script, w: World, r: Role) {
    var p := w.Get(r);
    !Finished(s, r, p) && (NextOp(s, r, p).Sends() || p.view.inbox.input != [])
  }

  function KeysOf(s: Script, r: Role): Keys {
    if r.Alice? then s.aliceKeys else s.bobKeys
  }

  /** One operation of party r; what it sends goes to the other side at once. */
  function Act(s: Script, w: World, r: Role): (World, Outcome)
    requires Enabled(s, w, r)
  {
    var p, q := w.Get(r), w.Get(Other(r));
    var (v, out) := Step(s.crypto, KeysOf(s, r), p.view, NextOp(s, r, p));
    var bytes := if |p.view.sent| <= |v.sent| then v.sent[|p.view.sent|..] else [];
    var seen := if out.ReceivedSession? then out.req else p.seen;
    var p' := Party(v, p.pc + 1, seen);
    (w.Set(r, p').Set(Other(r), q.(view := Deliver(q.view, bytes))), out)
  }

  // ---------- What is true in every reachable state ----------

  /** The message of each exchange. */
  function MessageAt(s: Script, stage: nat): PodMsg
    requires stage < 9
  {
    match stage
    case 0 => PodMsg(SESSION_REQUEST, EncodeSession(SessionRequest(0, 0, s.root, s.bobExtra)))
    case 1 => PodMsg(SESSION_ACK, EncodeSession(SessionRequest(s.id, s.mode, s.root, s.aliceExtra)))
    case 2 => PodMsg(SESSION_ACK, EncodeSession(SessionRequest(s.id, s.mode, s.root, s.aliceExtra)))
    case 3 => PodMsg(NEGO_REQUEST, s.negoRequest)
    case 4 => PodMsg(NEGO_ACK_REQ, LittleEndian(|s.negoResp|, 8) + s.negoResp + s.negoReq)
    case 5 => PodMsg(NEGO_ACK, s.negoAck)
    case 6 => PodMsg(TX_REQUEST, s.txRequest)
    case 7 => PodMsg(TX_RESPONSE, s.txResponse)
    case 8 => PodMsg(TX_RECEIPT, s.bobKeys.sign(s.receipt) + s.receipt)
  }

  /** The protocol state of a party after pc operations. */
  function LocalAt(s: Script, r: Role, pc: nat): Local
    requires pc <= s.Length()
  {
    var start := Local(Connected, 0, 0);
    if pc < 3 then
      if r.Alice? then start.(state := [Connected, SessionReqRecvd, SessionAckWait][pc])
      else start.(state := [Connected, SessionAckWait, SessionAckRecvd][pc])
    else
      var st := if pc == s.Length() then 9 else s.Stage(pc);
      var states :=
        if r.Alice? then [SessionEstablished, NegoRequestRecvd, NegoAckWait,
                          if s.Ot() then Negotiated else SessionEstablished,
                          TxRequestRecvd, TxReceiptWait, TxReceiptRecvd]
        else [SessionEstablished, NegoAckReqWait, NegoAckReqRecvd,
              if s.Ot() then Negotiated else SessionEstablished,
              TxResponseWait, TxResponseRecvd, TxSecretWait];
      Local(states[st - 3], s.id, s.mode)
  }

  function SeenAt(s: Script, r: Role, pc: nat): SessionRequest {
    if r.Alice? then
      if pc == 0 then NOTHING
      else if pc < 3 then SessionRequest(0, 0, s.root, s.bobExtra)
      else SessionRequest(s.id, s.mode, s.root, s.aliceExtra)
    else if pc < 2 then NOTHING
    else SessionRequest(s.id, s.mode, s.root, s.aliceExtra)
  }

  /** The messages that the sender with `from` operations done has sent and the receiver with `to`
      operations done has not yet taken. */
  function InFlight(s: Script, sender: Role, to: nat, from: nat): seq<PodMsg>
    requires from <= s.Length()
    decreases from - to
  {
    if to >= from then []
    else if SendsAt(sender, s.Stage(to)) then [MessageAt(s, s.Stage(to))] + InFlight(s, sender, to + 1, from)
    else InFlight(s, sender, to + 1, from)
  }

  /** Nobody has passed a receive whose message the other has not sent. */
  predicate Coherent(s: Script, pa: nat, pb: nat) {
    && pa <= s.Length() && pb <= s.Length()
    && (pa > pb ==> pa == pb + 1 && pb % 3 == 1)
    && (pb > pa ==> (pb == pa + 1 && pa % 3 != 1) || (pb == pa + 2 && pa % 3 == 2))
  }

  ghost predicate PartyOk(s: Script, r: Role, p: Party) {
    p.pc <= s.Length() && p.view.local == LocalAt(s, r, p.pc) && p.seen == SeenAt(s, r, p.pc)
  }

  /** The bytes under way are exactly the wire form of the messages in flight, and the sender's
      cursor is where the receiver's will be after reading them. */
  ghost predicate Synced(s: Script, w: World, sender: Role) {
    var p, q := w.Get(sender), w.Get(Other(sender));
    var ms := if p.pc <= s.Length() then InFlight(s, sender, q.pc, p.pc) else [];
    && q.view.inbox.input == WirePods(s.crypto, q.view.inbox.cur, ms)
    && p.view.writer == AfterPods(s.crypto, q.view.inbox.cur, ms)
  }

  ghost predicate Inv(s: Script, w: World) {
    && PartyOk(s, Alice, w.alice) && PartyOk(s, Bob, w.bob)
    && Coherent(s, w.alice.pc, w.bob.pc)
    && Synced(s, w, Alice) && Synced(s, w, Bob)
  }

  ghost predicate Initial(s: Script, w: World) {
    && w.alice.view.local == w.bob.view.local == Local(Connected, 0, 0)
    && w.alice.view.inbox.input == w.bob.view.inbox.input == []
    && w.alice.view.writer == w.bob.view.inbox.cur
    && w.bob.view.writer == w.alice.view.inbox.cur
    && w.alice.pc == w.bob.pc == 0 && w.alice.seen == w.bob.seen == NOTHING
  }

  // ---------- Each exchange, at the level of messages ----------

  /** The flow each party picks is the one the session mode asks for. */
  lemma StageAgrees(s: Script, r: Role, p: Party)
    requires PartyOk(s, r, p)
    ensures p.pc < s.Length() <==> !Finished(s, r, p)
    ensures p.pc < s.Length() ==> NextStage(s, r, p) == s.Stage(p.pc) < 9
  {
  }

  lemma StageParity(s: Script, i: nat)
    ensures s.Stage(i) % 3 == i % 3
  {
  }

  /** A sender passes its checks, sends the message of the exchange and reaches the next state. */
  lemma SendOk(s: Script, r: Role, pc: nat)
    requires s.Honest() && pc < s.Length() && SendsAt(r, s.Stage(pc))
    ensures var op, l := Program(s, r, s.Stage(pc), SeenAt(s, r, pc)), LocalAt(s, r, pc);
            && op.Sends() && Guard(l, op).Pass?
            && Message(KeysOf(s, r), op) == MessageAt(s, s.Stage(pc))
            && AfterSend(l, op) == LocalAt(s, r, pc + 1)
            && SeenAt(s, r, pc + 1) == SeenAt(s, r, pc)
  {
    hide EncodeSession, LittleEndian;
  }

  /** A receiver passes its checks, accepts the message of the exchange and reaches the next state. */
  lemma RecvOk(s: Script, r: Role, pc: nat)
    requires s.Honest() && pc < s.Length() && !SendsAt(r, s.Stage(pc))
    ensures Accepts(s, r, pc)
  {
    var stage := s.Stage(pc);
    if stage < 3 {
      RecvOkSession(s, r, pc);
    } else if stage < 6 {
      RecvOkNego(s, r, pc);
    } else {
      RecvOkTx(s, r, pc);
    }
  }

  ghost predicate Accepts(s: Script, r: Role, pc: nat)
    requires pc < s.Length()
  {
    var op, l, m := Program(s, r, s.Stage(pc), SeenAt(s, r, pc)), LocalAt(s, r, pc), MessageAt(s, s.Stage(pc));
    && op.Receives() && Guard(l, op).Pass?
    && Expects(op).0 == m.typ && Expects(op).1 <= |m.payload|
    && Accept(KeysOf(s, r), l, op, m.payload).0 == LocalAt(s, r, pc + 1)
    && var out := Accept(KeysOf(s, r), l, op, m.payload).1;
       && !out.Rejected?
       && SeenAt(s, r, pc + 1) == if out.ReceivedSession? then out.req else SeenAt(s, r, pc)
  }

  lemma RecvOkSession(s: Script, r: Role, pc: nat)
    requires s.Honest() && pc < 3 && !SendsAt(r, s.Stage(pc))
    ensures Accepts(s, r, pc)
  {
    hide EncodeSession, DecodeSession;
    SessionRoundTrip(SessionRequest(0, 0, s.root, s.bobExtra));
    SessionRoundTrip(SessionRequest(s.id, s.mode, s.root, s.aliceExtra));
    SessionSize(s);
  }

  lemma RecvOkNego(s: Script, r: Role, pc: nat)
    requires s.Honest() && s.Ot() && 3 <= pc < 6 && !SendsAt(r, s.Stage(pc))
    ensures Accepts(s, r, pc)
  {
    hide EncodeSession, DecodeSession, SplitNego, LittleEndian;
    NegoSplits(s);
  }

  lemma RecvOkTx(s: Script, r: Role, pc: nat)
    requires s.Honest() && pc < s.Length() && 6 <= s.Stage(pc) && !SendsAt(r, s.Stage(pc))
    ensures Accepts(s, r, pc)
  {
    hide EncodeSession, DecodeSession, CheckReceipt;
    ReceiptChecks(s);
  }

  lemma SessionSize(s: Script)
    requires |s.root| == 32
    ensures |EncodeSession(SessionRequest(0, 0, s.root, s.bobExtra))| >= SESSION_REQUEST_SIZE
    ensures |EncodeSession(SessionRequest(s.id, s.mode, s.root, s.aliceExtra))| >= SESSION_REQUEST_SIZE
  {
  }

  lemma NegoSplits(s: Script)
    requires s.Honest()
    ensures SplitNego(MessageAt(s, 4).payload) == ReceivedNego(s.negoResp, s.negoReq)
  {
    hide SplitNego, LittleEndian;
    SplitNegoRoundTrip(s.negoResp, s.negoReq);
  }

  lemma ReceiptChecks(s: Script)
    requires s.Honest()
    ensures CheckReceipt(s.aliceKeys, MessageAt(s, 8).payload) == ReceivedReceipt(s.receipt, s.bobKeys.sign(s.receipt))
  {
    var p := MessageAt(s, 8).payload;
    assert p[..RECEIPT_SIG_SIZE] == s.bobKeys.sign(s.receipt) && p[RECEIPT_SIG_SIZE..] == s.receipt;
  }

  lemma MessagesSendable(s: Script, stage: nat)
    requires s.Honest() && stage < 9
    ensures Sendable(MessageAt(s, stage))
  {
    hide LittleEndian;
  }

  // ---------- The channel ----------

  lemma {:induction false} InFlightSnoc(s: Script, sender: Role, to: nat, from: nat)
    requires to <= from < s.Length()
    ensures InFlight(s, sender, to, from + 1)
            == InFlight(s, sender, to, from) + if SendsAt(sender, s.Stage(from)) then [MessageAt(s, s.Stage(from))] else []
    decreases from - to
  {
    hide MessageAt;
    if to < from {
      InFlightSnoc(s, sender, to + 1, from);
    } else {
      assert InFlight(s, sender, from + 1, from + 1) == [];
    }
  }

  lemma {:induction false} WirePodsSnoc(c: Crypto, cur: Cursor, ms: seq<PodMsg>, m: PodMsg)
    ensures WirePods(c, cur, ms + [m]) == WirePods(c, cur, ms) + WirePod(c, AfterPods(c, cur, ms), m)
    ensures AfterPods(c, cur, ms + [m]) == AfterPod(c, AfterPods(c, cur, ms), m)
    decreases |ms|
  {
    hide WirePod, AfterPod;
    if |ms| == 0 {
      assert ms + [m] == [m];
      assert WirePods(c, cur, [m]) == WirePod(c, cur, m) + WirePods(c, AfterPod(c, cur, m), []);
    } else {
      assert (ms + [m])[0] == ms[0] && (ms + [m])[1..] == ms[1..] + [m];
      WirePodsSnoc(c, AfterPod(c, cur, ms[0]), ms[1..], m);
    }
  }

  /** A wire form is not empty. */
  lemma WirePodNonempty(c: Crypto, cur: Cursor, m: PodMsg)
    ensures WirePod(c, cur, m) != []
  {
    var head := HeaderBytes(m.typ, |m.payload|);
    var ms := Packets(head, |head|);
    WireAllNonempty(c, cur, ms);
    hide WireAll, AfterAll;
  }

  lemma WireAllNonempty(c: Crypto, cur: Cursor, ms: seq<Msg>)
    requires |ms| > 0
    ensures |WireAll(c, cur, ms)| > 0
  {
    hide Crypt, MacSeed, EncodeCode, Header;
  }

  lemma WireNothing(c: Crypto, cur: Cursor)
    ensures WirePods(c, cur, []) == [] && AfterPods(c, cur, []) == cur
  {
  }

  // ---------- Preservation ----------

  lemma InitialInv(s: Script, w: World)
    requires s.Honest() && Initial(s, w)
    ensures Inv(s, w)
  {
    WireNothing(s.crypto, w.alice.view.inbox.cur);
    WireNothing(s.crypto, w.bob.view.inbox.cur);
  }

  /** From w to w' party r sent the message of its exchange, and nothing else was disturbed. */
  ghost predicate SentBy(s: Script, w: World, w': World, r: Role) {
    var p, q, p', q' := w.Get(r), w.Get(Other(r)), w'.Get(r), w'.Get(Other(r));
    && p.pc < s.Length() && p'.pc == p.pc + 1 && q'.pc == q.pc
    && PartyOk(s, r, p') && PartyOk(s, Other(r), q')
    && p'.view.inbox == p.view.inbox && q'.view.writer == q.view.writer && q'.view.inbox.cur == q.view.inbox.cur
    && var m := MessageAt(s, s.Stage(p.pc));
       && p'.view.writer == AfterPod(s.crypto, p.view.writer, m)
       && q'.view.inbox.input == q.view.inbox.input + WirePod(s.crypto, p.view.writer, m)
  }

  /** An enabled sender: one more message in flight. */
  lemma ActSends(s: Script, w: World, r: Role)
    requires s.Honest() && Inv(s, w) && Enabled(s, w, r) && SendsAt(r, s.Stage(w.Get(r).pc))
    requires w.Get(r).pc < s.Length() && NextStage(s, r, w.Get(r)) == s.Stage(w.Get(r).pc)
    ensures Act(s, w, r).1 == Sent && SentBy(s, w, Act(s, w, r).0, r)
  {
    hide WirePod, AfterPod, RecvTyped, Program, MessageAt, LocalAt, SeenAt, Guard, Message, AfterSend, Accept, WirePods, AfterPods, InFlight;
    SendOk(s, r, w.Get(r).pc);
  }

  /** An enabled receiver takes the oldest message in flight. */
  lemma ActReceives(s: Script, w: World, r: Role, rest: seq<PodMsg>)
    requires s.Honest() && Inv(s, w) && Enabled(s, w, r) && !SendsAt(r, s.Stage(w.Get(r).pc))
    requires w.Get(r).pc < s.Length() && NextStage(s, r, w.Get(r)) == s.Stage(w.Get(r).pc)
    requires InFlight(s, Other(r), w.Get(r).pc, w.Get(Other(r)).pc) == [MessageAt(s, s.Stage(w.Get(r).pc))] + rest
    ensures var (w', out) := Act(s, w, r);
            && !out.Rejected? && PartyOk(s, r, w'.Get(r)) && w'.Get(r).pc == w.Get(r).pc + 1
            && w'.Get(Other(r)) == w.Get(Other(r)) && w'.Get(r).view.writer == w.Get(r).view.writer
            && w'.Get(r).view.inbox.input == WirePods(s.crypto, w'.Get(r).view.inbox.cur, rest)
            && AfterPods(s.crypto, w'.Get(r).view.inbox.cur, rest) == w.Get(Other(r)).view.writer
  {
    hide WirePod, AfterPod, RecvTyped, Program, MessageAt, LocalAt, SeenAt, Guard, Message, AfterSend, Accept, InFlight, Expects, WirePods, AfterPods;
    var p, q, m := w.Get(r), w.Get(Other(r)), MessageAt(s, s.Stage(w.Get(r).pc));
    var op := NextOp(s, r, p);
    RecvOk(s, r, p.pc);
    MessagesSendable(s, s.Stage(p.pc));
    var cur := p.view.inbox.cur;
    WirePodsCons(s.crypto, cur, m, rest);
    PodDelivery(s.crypto, cur, m, Expects(op).1, WirePods(s.crypto, AfterPod(s.crypto, cur, m), rest));
    StepReceives(s.crypto, KeysOf(s, r), p.view, op, m.payload, Inbox(WirePods(s.crypto, AfterPod(s.crypto, cur, m), rest), AfterPod(s.crypto, cur, m)));
    assert p.view.sent[|p.view.sent|..] == [];
    assert q.view.inbox.input + [] == q.view.inbox.input;
  }

  lemma StepReceives(c: Crypto, keys: Keys, v: View, op: Op, payload: seq<byte>, ib: Inbox)
    requires op.Receives() && Guard(v.local, op).Pass?
    requires RecvTyped(c, v.inbox, Expects(op).0, Expects(op).1) == (ib, Ok(payload))
    ensures Step(c, keys, v, op)
            == (v.(local := Accept(keys, v.local, op, payload).0, inbox := ib), Accept(keys, v.local, op, payload).1)
  {
    hide RecvTyped, Guard, Expects, Accept, WirePod, AfterPod;
  }

  lemma WirePodsCons(c: Crypto, cur: Cursor, m: PodMsg, rest: seq<PodMsg>)
    ensures WirePods(c, cur, [m] + rest) == WirePod(c, cur, m) + WirePods(c, AfterPod(c, cur, m), rest)
    ensures AfterPods(c, cur, [m] + rest) == AfterPods(c, AfterPod(c, cur, m), rest)
  {
    hide WirePod, AfterPod;
    assert ([m] + rest)[1..] == rest;
  }

  /** The messages in flight to a receiver that can move. */
  lemma NextInFlight(s: Script, r: Role, to: nat, from: nat)
    requires to < from <= s.Length() && SendsAt(Other(r), s.Stage(to))
    ensures InFlight(s, Other(r), to, from) == [MessageAt(s, s.Stage(to))] + InFlight(s, Other(r), to + 1, from)
  {
  }

  lemma InFlightEmpty(s: Script, sender: Role, to: nat, from: nat)
    requires to >= from && from <= s.Length()
    ensures InFlight(s, sender, to, from) == []
  {
  }

  /** Every step of either party succeeds and keeps the invariant. */
  lemma ActKeepsInv(s: Script, w: World, r: Role)
    requires s.Honest() && Inv(s, w) && Enabled(s, w, r)
    ensures Inv(s, Act(s, w, r).0) && !Act(s, w, r).1.Rejected?
    ensures Act(s, w, r).0.Get(r).pc == w.Get(r).pc + 1
    ensures Act(s, w, r).0.Get(Other(r)).pc == w.Get(Other(r)).pc
  {
    var p, q := w.Get(r), w.Get(Other(r));
    StageAgrees(s, r, p);
    StageParity(s, p.pc);
    if SendsAt(r, s.Stage(p.pc)) {
      SendKeepsInv(s, w, r);
    } else {
      RecvKeepsInv(s, w, r);
    }
  }

  lemma SendKeepsInv(s: Script, w: World, r: Role)
    requires s.Honest() && Inv(s, w) && Enabled(s, w, r) && SendsAt(r, s.Stage(w.Get(r).pc))
    requires w.Get(r).pc < s.Length() && NextStage(s, r, w.Get(r)) == s.Stage(w.Get(r).pc)
    requires s.Stage(w.Get(r).pc) % 3 == w.Get(r).pc % 3
    ensures Inv(s, Act(s, w, r).0) && !Act(s, w, r).1.Rejected?
    ensures Act(s, w, r).0.Get(r).pc == w.Get(r).pc + 1
    ensures Act(s, w, r).0.Get(Other(r)).pc == w.Get(Other(r)).pc
  {
    ActSends(s, w, r);
    hide Act, Enabled, NextStage, PartyOk, InFlight, MessageAt, Synced;
    var w' := Act(s, w, r).0;
    CoherentSend(s, r, w.Get(r).pc, w.Get(Other(r)).pc);
    SyncedAfterSend(s, w, w', r);
    InvOf(s, w', r);
  }

  lemma InvOf(s: Script, w: World, r: Role)
    requires PartyOk(s, r, w.Get(r)) && PartyOk(s, Other(r), w.Get(Other(r)))
    requires CoherentFrom(s, r, w.Get(r).pc, w.Get(Other(r)).pc)
    requires Synced(s, w, r) && Synced(s, w, Other(r))
    ensures Inv(s, w)
  {
    hide PartyOk, Synced, Coherent;
  }

  lemma SyncedAfterSend(s: Script, w: World, w': World, r: Role)
    requires SentBy(s, w, w', r) && w.Get(Other(r)).pc <= w.Get(r).pc && SendsAt(r, s.Stage(w.Get(r).pc))
    requires Synced(s, w, r) && Synced(s, w, Other(r))
    ensures Synced(s, w', r) && Synced(s, w', Other(r))
  {
    hide Synced;
    SyncedForward(s, w, w', r);
    SyncedBackward(s, w, w', r);
  }

  /** The sender's direction: one message more. */
  lemma SyncedForward(s: Script, w: World, w': World, r: Role)
    requires SentBy(s, w, w', r) && w.Get(Other(r)).pc <= w.Get(r).pc && SendsAt(r, s.Stage(w.Get(r).pc))
    requires Synced(s, w, r)
    ensures Synced(s, w', r)
  {
    hide PartyOk, InFlight, WirePods, AfterPods, WirePod, AfterPod, MessageAt;
    var p, q := w.Get(r), w.Get(Other(r));
    InFlightSnoc(s, r, q.pc, p.pc);
    hide SendsAt;
    WirePodsSnoc(s.crypto, q.view.inbox.cur, InFlight(s, r, q.pc, p.pc), MessageAt(s, s.Stage(p.pc)));
  }

  /** The other direction: nothing under way, before and after. */
  lemma SyncedBackward(s: Script, w: World, w': World, r: Role)
    requires SentBy(s, w, w', r) && w.Get(Other(r)).pc <= w.Get(r).pc
    requires Synced(s, w, Other(r))
    ensures Synced(s, w', Other(r))
  {
    hide PartyOk, InFlight, WirePods, AfterPods, WirePod, AfterPod, MessageAt;
    InFlightEmpty(s, Other(r), w.Get(r).pc, w.Get(Other(r)).pc);
    InFlightEmpty(s, Other(r), w.Get(r).pc + 1, w.Get(Other(r)).pc);
  }

  ghost predicate CoherentFrom(s: Script, r: Role, p: nat, q: nat) {
    if r.Alice? then Coherent(s, p, q) else Coherent(s, q, p)
  }

  lemma CoherentSend(s: Script, r: Role, p: nat, q: nat)
    requires CoherentFrom(s, r, p, q) && p < s.Length() && SendsAt(r, p)
    ensures q <= p && CoherentFrom(s, r, p + 1, q)
  {
  }

  lemma CoherentRecv(s: Script, r: Role, p: nat, q: nat)
    requires CoherentFrom(s, r, p, q) && p < q && !SendsAt(r, p)
    ensures CoherentFrom(s, r, p + 1, q)
  {
  }

  lemma RecvKeepsInv(s: Script, w: World, r: Role)
    requires s.Honest() && Inv(s, w) && Enabled(s, w, r) && !SendsAt(r, s.Stage(w.Get(r).pc))
    requires w.Get(r).pc < s.Length() && NextStage(s, r, w.Get(r)) == s.Stage(w.Get(r).pc)
    requires s.Stage(w.Get(r).pc) % 3 == w.Get(r).pc % 3
    ensures Inv(s, Act(s, w, r).0) && !Act(s, w, r).1.Rejected?
    ensures Act(s, w, r).0.Get(r).pc == w.Get(r).pc + 1
    ensures Act(s, w, r).0.Get(Other(r)).pc == w.Get(Other(r)).pc
  {
    var p, q := w.Get(r), w.Get(Other(r));
    hide Act, Enabled, NextStage, PartyOk, InFlight, WirePods, AfterPods, WirePod, AfterPod, MessageAt;
    ReceiverHasInput(s, w, r);
    CoherentRecv(s, r, p.pc, q.pc);
    NextInFlight(s, r, p.pc, q.pc);
    ActReceives(s, w, r, InFlight(s, Other(r), p.pc + 1, q.pc));
    var w' := Act(s, w, r).0;
    InFlightEmpty(s, r, q.pc, p.pc);
    InFlightEmpty(s, r, q.pc, p.pc + 1);
    assert Synced(s, w', r) && Synced(s, w', Other(r)) by {
      hide Coherent, SendsAt;
    }
  }

  /** A receiver is enabled only when the other side is ahead. */
  lemma ReceiverHasInput(s: Script, w: World, r: Role)
    requires s.Honest() && Inv(s, w) && Enabled(s, w, r) && !SendsAt(r, s.Stage(w.Get(r).pc))
    requires w.Get(r).pc < s.Length() && NextStage(s, r, w.Get(r)) == s.Stage(w.Get(r).pc)
    ensures w.Get(r).pc < w.Get(Other(r)).pc
  {
    var p, q := w.Get(r), w.Get(Other(r));
    RecvOk(s, r, p.pc);
    hide Program, LocalAt, SeenAt, MessageAt, InFlight, Accept, Guard, Expects, WirePods, AfterPods;
    if q.pc <= p.pc {
      InFlightEmpty(s, Other(r), p.pc, q.pc);
      WireNothing(s.crypto, p.view.inbox.cur);
    }
  }

  /** No deadlock: until both are done, one of them can move. */
  lemma NoDeadlock(s: Script, w: World)
    requires s.Honest() && Inv(s, w)
    requires w.alice.pc < s.Length() || w.bob.pc < s.Length()
    ensures Enabled(s, w, Alice) || Enabled(s, w, Bob)
  {
    var pa, pb := w.alice.pc, w.bob.pc;
    var r := if pb < pa || (pa == pb && pa % 3 != 1) then Bob else Alice;
    var p, q := w.Get(r), w.Get(Other(r));
    assert p.pc < s.Length();
    StageAgrees(s, r, p);
    StageParity(s, p.pc);
    if SendsAt(r, s.Stage(p.pc)) {
      SendOk(s, r, p.pc);
    } else {
      assert p.pc < q.pc;
      NextInFlight(s, r, p.pc, q.pc);
      var m, rest := MessageAt(s, s.Stage(p.pc)), InFlight(s, Other(r), p.pc + 1, q.pc);
      FirstOnWire(s.crypto, p.view.inbox.cur, m, rest);
    }
  }

  lemma FirstOnWire(c: Crypto, cur: Cursor, m: PodMsg, rest: seq<PodMsg>)
    ensures WirePods(c, cur, [m] + rest) != []
  {
    hide WirePod, AfterPod;
    WirePodNonempty(c, cur, m);
    assert ([m] + rest)[1..] == rest;
  }

  // ---------- Runs ----------

  /** A schedule names who is to move next; a party that cannot move waits. */
  function Run(s: Script, w: World, schedule: seq<Role>): World
    decreases |schedule|
  {
    if |schedule| == 0 then w
    else Run(s, if Enabled(s, w, schedule[0]) then Act(s, w, schedule[0]).0 else w, schedule[1..])
  }

  /** Whether no operation of the run failed. */
  ghost predicate NoFailure(s: Script, w: World, schedule: seq<Role>)
    decreases |schedule|
  {
    |schedule| > 0 ==>
      if Enabled(s, w, schedule[0]) then
        !Act(s, w, schedule[0]).1.Rejected? && NoFailure(s, Act(s, w, schedule[0]).0, schedule[1..])
      else NoFailure(s, w, schedule[1..])
  }

  lemma {:induction false} RunKeepsInv(s: Script, w: World, schedule: seq<Role>)
    requires s.Honest() && Inv(s, w)
    ensures Inv(s, Run(s, w, schedule)) && NoFailure(s, w, schedule)
    decreases |schedule|
  {
    hide Inv, Act, Enabled;
    if |schedule| > 0 {
      var r := schedule[0];
      if Enabled(s, w, r) {
        ActKeepsInv(s, w, r);
        RunKeepsInv(s, Act(s, w, r).0, schedule[1..]);
      } else {
        RunKeepsInv(s, w, schedule[1..]);
      }
    }
  }

  function CountInFlight(s: Script, w: World): nat
    requires w.alice.pc <= s.Length() && w.bob.pc <= s.Length()
  {
    |InFlight(s, Alice, w.bob.pc, w.alice.pc)| + |InFlight(s, Bob, w.alice.pc, w.bob.pc)|
  }

  lemma InFlightCount(s: Script, sender: Role, to: nat, from: nat)
    requires from <= s.Length()
    ensures |InFlight(s, sender, to, from)| <= if to < from then from - to else 0
    decreases from - to
  {
    hide MessageAt;
    if to < from {
      InFlightCount(s, sender, to + 1, from);
    }
  }

  /** Joint safety. Whatever the interleaving: no operation fails; at most two messages are under
      way, and two exactly while the seller has the buyer's closing ack of a phase still to read and the
      buyer has already sent the next message; parties past the handshake hold the same session id and mode; somebody can move until
      both are done, and then they are in TxReceiptRecvd and TxSecretWait. */
  lemma JointSafety(s: Script, w: World, schedule: seq<Role>)
    requires s.Honest() && Initial(s, w)
    ensures NoFailure(s, w, schedule)
    ensures var w' := Run(s, w, schedule);
            && w'.alice.pc <= s.Length() && w'.bob.pc <= s.Length()
            && CountInFlight(s, w') <= 2
            && (CountInFlight(s, w') == 2 <==> w'.bob.pc == w'.alice.pc + 2 && w'.alice.pc % 3 == 2)
            && (3 <= w'.alice.pc ==> w'.alice.view.local.id == s.id && w'.alice.view.local.mode == s.mode)
            && (3 <= w'.bob.pc ==> w'.bob.view.local.id == s.id && w'.bob.view.local.mode == s.mode)
            && (w'.alice.pc < s.Length() || w'.bob.pc < s.Length() ==> Enabled(s, w', Alice) || Enabled(s, w', Bob))
            && (w'.alice.pc == s.Length() ==> w'.alice.view.local.state == TxReceiptRecvd)
            && (w'.bob.pc == s.Length() ==> w'.bob.view.local.state == TxSecretWait)
  {
    InitialInv(s, w);
    RunKeepsInv(s, w, schedule);
    var w' := Run(s, w, schedule);
    hide InFlight, Enabled, MessageAt, NoFailure, Run, Synced;
    if w'.alice.pc < s.Length() || w'.bob.pc < s.Length() {
      NoDeadlock(s, w');
    }
    AtMostTwo(s, w'.alice.pc, w'.bob.pc);
  }

  /** How many messages are in flight follows from how far the parties are. */
  lemma AtMostTwo(s: Script, a: nat, b: nat)
    requires Coherent(s, a, b)
    ensures var n := |InFlight(s, Alice, b, a)| + |InFlight(s, Bob, a, b)|;
            n <= 2 && (n == 2 <==> b == a + 2 && a % 3 == 2)
  {
    hide InFlight, MessageAt;
    InFlightCount(s, Alice, b, a);
    InFlightCount(s, Bob, a, b);
    if b == a + 2 && a % 3 == 2 {
      BackToBack(s, a);
    }
  }

  /** From the end of a phase to the start of the next the buyer sends twice. */
  lemma BackToBack(s: Script, i: nat)
    requires i + 2 <= s.Length() && i % 3 == 2
    ensures |InFlight(s, Bob, i, i + 2)| == 2 && InFlight(s, Alice, i + 2, i) == []
  {
    StageParity(s, i);
    StageParity(s, i + 1);
    NextInFlight(s, Alice, i, i + 2);
    NextInFlight(s, Alice, i + 1, i + 2);
    InFlightEmpty(s, Bob, i + 2, i + 2);
    InFlightEmpty(s, Alice, i + 2, i);
  }

  /** The bound of two is reached: after the handshake's first two exchanges the buyer may send its
      ack and its first request back to back. */
  lemma TwoInFlight(s: Script, w: World)
    requires s.Honest() && Initial(s, w)
    ensures exists schedule: seq<Role> {:trigger Run(s, w, schedule)} ::
      var w' := Run(s, w, schedule);
      w'.alice.pc <= s.Length() && w'.bob.pc <= s.Length() && CountInFlight(s, w') == 2
  {
    hide Inv, Act, Enabled, InFlight, Run;
    InitialInv(s, w);
    var schedule := [Bob, Alice, Alice, Bob, Bob, Bob];
    var w1 := Moves(s, w, Bob);
    var w2 := Moves(s, w1, Alice);
    var w3 := Moves(s, w2, Alice);
    var w4 := Moves(s, w3, Bob);
    var w5 := Moves(s, w4, Bob);
    var w6 := Moves(s, w5, Bob);
    RunSix(s, w, w1, w2, w3, w4, w5, w6);
    BackToBack(s, 2);
  }

  /** A party whose turn it is moves. */
  lemma Moves(s: Script, w: World, r: Role) returns (w': World)
    requires s.Honest() && Inv(s, w)
    requires w.Get(r).pc < s.Length()
    requires SendsAt(r, s.Stage(w.Get(r).pc)) || w.Get(r).pc < w.Get(Other(r)).pc
    ensures Enabled(s, w, r) && w' == Act(s, w, r).0 && Inv(s, w')
    ensures w'.Get(r).pc == w.Get(r).pc + 1 && w'.Get(Other(r)).pc == w.Get(Other(r)).pc
  {
    var p, q := w.Get(r), w.Get(Other(r));
    StageAgrees(s, r, p);
    if SendsAt(r, s.Stage(p.pc)) {
      SendOk(s, r, p.pc);
    } else {
      NextInFlight(s, r, p.pc, q.pc);
      FirstOnWire(s.crypto, p.view.inbox.cur, MessageAt(s, s.Stage(p.pc)), InFlight(s, Other(r), p.pc + 1, q.pc));
    }
    ActKeepsInv(s, w, r);
    w' := Act(s, w, r).0;
  }

  lemma RunSix(s: Script, w: World, w1: World, w2: World, w3: World, w4: World, w5: World, w6: World)
    requires Enabled(s, w, Bob) && w1 == Act(s, w, Bob).0
    requires Enabled(s, w1, Alice) && w2 == Act(s, w1, Alice).0
    requires Enabled(s, w2, Alice) && w3 == Act(s, w2, Alice).0
    requires Enabled(s, w3, Bob) && w4 == Act(s, w3, Bob).0
    requires Enabled(s, w4, Bob) && w5 == Act(s, w4, Bob).0
    requires Enabled(s, w5, Bob) && w6 == Act(s, w5, Bob).0
    ensures Run(s, w, [Bob, Alice, Alice, Bob, Bob, Bob]) == w6
  {
    hide Act, Enabled;
    RunStep(s, w, w1, Bob, [Alice, Alice, Bob, Bob, Bob]);
    RunStep(s, w1, w2, Alice, [Alice, Bob, Bob, Bob]);
    RunStep(s, w2, w3, Alice, [Bob, Bob, Bob]);
    RunStep(s, w3, w4, Bob, [Bob, Bob]);
    RunStep(s, w4, w5, Bob, [Bob]);
    RunStep(s, w5, w6, Bob, []);
    assert [Bob] + [Alice, Alice, Bob, Bob, Bob] == [Bob, Alice, Alice, Bob, Bob, Bob];
    assert [Alice] + [Alice, Bob, Bob, Bob] == [Alice, Alice, Bob, Bob, Bob];
    assert [Alice] + [Bob, Bob, Bob] == [Alice, Bob, Bob, Bob];
    assert [Bob] + [Bob, Bob] == [Bob, Bob, Bob];
    assert [Bob] + [Bob] == [Bob, Bob];
    assert [Bob] + [] == [Bob];
  }

  lemma RunStep(s: Script, w: World, w1: World, r: Role, rest: seq<Role>)
    requires Enabled(s, w, r) && w1 == Act(s, w, r).0
    ensures Run(s, w, [r] + rest) == Run(s, w1, rest)
  {
    hide Act, Enabled;
    assert ([r] + rest)[1..] == rest;
  }
}
