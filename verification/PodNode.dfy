/** A PoD node: the session handshake, the optional OT negotiation and the transaction exchange,
    over the transport (net/node.go, net/session.go, net/tx.go, net/state.go). */
module PodNode {
  import opened Words
  import opened Bits
  import opened Codec
  import opened Frames
  import opened Transport

  datatype State =
    | Connected | Closed
    | SessionAckWait | SessionReqRecvd | SessionAckRecvd | SessionEstablished
    | NegoAckReqWait | NegoAckReqRecvd | NegoRequestRecvd | NegoAckWait | Negotiated
    | TxResponseWait | TxRequestRecvd | TxReceiptWait | TxResponseRecvd | TxSecretWait | TxReceiptRecvd

  const MODE_MAX := 10
  const RECEIPT_SIG_SIZE := 65
  const SESSION_REQUEST_SIZE := 41

  // Message types.
  const SESSION_REQUEST := 0
  const SESSION_ACK := 1
  const TX_REQUEST := 3
  const TX_RESPONSE := 4
  const TX_RECEIPT := 5
  const NEGO_REQUEST := 6
  const NEGO_ACK := 7
  const NEGO_ACK_REQ := 8

  /** isOTMode: ModePlainOTComplaintPoD, ModeTableOTVRFQuery and ModeTableOTComplaintPoD. */
  predicate IsOtMode(mode: nat) {
    mode == 1 || mode == 7 || mode == 5
  }

  type Signature = s: seq<byte> | |s| == RECEIPT_SIG_SIZE witness seq(65, _ => 0)

  /** Signing with the local key, and checking a signature against the remote key. */
  datatype Keys = Keys(sign: seq<byte> -> Signature, verify: (seq<byte>, Signature) -> bool)

  // ---------- Session requests ----------

  datatype SessionRequest = SessionRequest(id: Code, mode: byte, root: seq<byte>, extra: seq<byte>)

  function EncodeSession(req: SessionRequest): seq<byte> {
    LittleEndian(req.id, 8) + [req.mode] + req.root + req.extra
  }

  datatype SessionResult = Parsed(req: SessionRequest) | Malformed

  function DecodeSession(bs: seq<byte>): SessionResult {
    if |bs| < SESSION_REQUEST_SIZE then Malformed
    else
      EncodeDecode(bs[0..8]);
      Pow2Words();
      Parsed(SessionRequest(FromLittleEndian(bs[0..8]), bs[8], bs[9..41], bs[41..]))
  }

  /** A request survives encoding exactly when its Merkle root has 32 bytes. */
  lemma SessionRoundTrip(req: SessionRequest)
    ensures DecodeSession(EncodeSession(req)) == Parsed(req) <==> |req.root| == 32
  {
    hide LittleEndian, FromLittleEndian;
    Le64RoundTrip(req.id);
    var bs := EncodeSession(req);
    assert bs[0..8] == LittleEndian(req.id, 8) && bs[8] == req.mode;
    if |req.root| == 32 {
      assert bs[9..41] == req.root && bs[41..] == req.extra;
    }
  }

  // ---------- Operations ----------

  datatype Op =
    | SendNewSessionRequest(mode: byte, root: seq<byte>, extra: seq<byte>)
    | RecvSessionRequest
    | SendSessionAck(ack: SessionRequest, needFurtherAck: bool)
    | RecvSessionAck(needFurtherAck: bool)
    | SendTxRequest(bytes: seq<byte>)
    | RecvTxRequest
    | SendTxResponse(bytes: seq<byte>)
    | RecvTxResponse
    | SendTxReceipt(bytes: seq<byte>)
    | RecvTxReceipt
    | SendNegoRequest(bytes: seq<byte>)
    | RecvNegoRequest
    | SendNegoAckReq(resp: seq<byte>, req: seq<byte>)
    | RecvNegoAckReq
    | SendNegoAck(bytes: seq<byte>)
    | RecvNegoAck
    | Close
  {
    predicate Sends() {
      SendNewSessionRequest? || SendSessionAck? || SendTxRequest? || SendTxResponse? || SendTxReceipt?
      || SendNegoRequest? || SendNegoAckReq? || SendNegoAck?
    }

    predicate Receives() {
      !Sends() && !Close?
    }

    predicate OnlyInOtMode() {
      SendNegoRequest? || RecvNegoRequest? || SendNegoAckReq? || RecvNegoAckReq? || SendNegoAck? || RecvNegoAck?
    }
  }

  datatype Failure =
    | InvalidState(expected: State)
    | NotOtMode
    | InvalidMode
    | InvalidRoot
    | TransportFailed(error: Error)
    | ZeroSessionId
    | PayloadRejected   // state already advanced
    | Panic             // slice bounds out of range; state already advanced

  datatype Outcome =
    | Sent
    | Closing
    | Received(bytes: seq<byte>)
    | ReceivedSession(req: SessionRequest)
    | ReceivedReceipt(receipt: seq<byte>, signature: Signature)
    | ReceivedNego(negoResp: seq<byte>, negoReq: seq<byte>)
    | Rejected(why: Failure)

  /** The part of a node the protocol is about. */
  datatype Local = Local(state: State, id: Code, mode: byte)

  /** The state an operation requires. */
  function PreState(l: Local, op: Op): State
    requires !op.Close?
  {
    match op
    case SendNewSessionRequest(_, _, _) => Connected
    case RecvSessionRequest => Connected
    case SendSessionAck(_, further) => if further then SessionReqRecvd else SessionAckRecvd
    case RecvSessionAck(_) => SessionAckWait
    case SendTxRequest(_) => if IsOtMode(l.mode) then Negotiated else SessionEstablished
    case RecvTxRequest => if IsOtMode(l.mode) then Negotiated else SessionEstablished
    case SendTxResponse(_) => TxRequestRecvd
    case RecvTxResponse => TxResponseWait
    case SendTxReceipt(_) => TxResponseRecvd
    case RecvTxReceipt => TxReceiptWait
    case SendNegoRequest(_) => SessionEstablished
    case RecvNegoRequest => SessionEstablished
    case SendNegoAckReq(_, _) => NegoRequestRecvd
    case RecvNegoAckReq => NegoAckReqWait
    case SendNegoAck(_) => NegoAckReqRecvd
    case RecvNegoAck => NegoAckWait
  }

  datatype Guarded = Pass | Stop(why: Failure)

  /** The checks an operation makes before it touches the connection, in the program's order. */
  function Guard(l: Local, op: Op): Guarded
    requires !op.Close?
  {
    if op.OnlyInOtMode() && !IsOtMode(l.mode) then Stop(NotOtMode)
    else if l.state != PreState(l, op) then Stop(InvalidState(PreState(l, op)))
    else if op.SendNewSessionRequest? && op.mode >= MODE_MAX then Stop(InvalidMode)
    else if op.SendNewSessionRequest? && |op.root| != 32 then Stop(InvalidRoot)
    else Pass
  }

  /** The message a sending operation puts on the connection. */
  function Message(keys: Keys, op: Op): PodMsg
    requires op.Sends()
  {
    match op
    case SendNewSessionRequest(mode, root, extra) => PodMsg(SESSION_REQUEST, EncodeSession(SessionRequest(0, mode, root, extra)))
    case SendSessionAck(ack, _) => PodMsg(SESSION_ACK, EncodeSession(ack))
    case SendTxRequest(b) => PodMsg(TX_REQUEST, b)
    case SendTxResponse(b) => PodMsg(TX_RESPONSE, b)
    case SendTxReceipt(b) => PodMsg(TX_RECEIPT, keys.sign(b) + b)
    case SendNegoRequest(b) => PodMsg(NEGO_REQUEST, b)
    case SendNegoAckReq(resp, req) => PodMsg(NEGO_ACK_REQ, LittleEndian(|resp|, 8) + resp + req)
    case SendNegoAck(b) => PodMsg(NEGO_ACK, b)
  }

  function AfterSend(l: Local, op: Op): Local
    requires op.Sends()
  {
    match op
    case SendNewSessionRequest(_, _, _) => l.(state := SessionAckWait)
    case SendSessionAck(ack, further) =>
      if further then l.(state := SessionAckWait) else Local(SessionEstablished, ack.id, ack.mode)
    case SendTxRequest(_) => l.(state := TxResponseWait)
    case SendTxResponse(_) => l.(state := TxReceiptWait)
    case SendTxReceipt(_) => l.(state := TxSecretWait)
    case SendNegoRequest(_) => l.(state := NegoAckReqWait)
    case SendNegoAckReq(_, _) => l.(state := NegoAckWait)
    case SendNegoAck(_) => l.(state := Negotiated)
  }

  /** The message type and the least payload length a receiving operation accepts. */
  function Expects(op: Op): (nat, nat)
    requires op.Receives()
  {
    match op
    case RecvSessionRequest => (SESSION_REQUEST, SESSION_REQUEST_SIZE)
    case RecvSessionAck(_) => (SESSION_ACK, SESSION_REQUEST_SIZE)
    case RecvTxRequest => (TX_REQUEST, 0)
    case RecvTxResponse => (TX_RESPONSE, 0)
    case RecvTxReceipt => (TX_RECEIPT, 0)
    case RecvNegoRequest => (NEGO_REQUEST, 0)
    case RecvNegoAckReq => (NEGO_ACK_REQ, 0)
    case RecvNegoAck => (NEGO_ACK, 0)
  }

  function AcceptSessionRequest(l: Local, payload: seq<byte>): (Local, Outcome) {
    var r := DecodeSession(payload);
    if r.Malformed? then (l, Rejected(TransportFailed(TooShort)))
    else if r.req.id == 0 && r.req.mode >= MODE_MAX then (l, Rejected(InvalidMode))
    else (l.(state := SessionReqRecvd), ReceivedSession(r.req))
  }

  function AcceptSessionAck(l: Local, further: bool, payload: seq<byte>): (Local, Outcome) {
    var r := DecodeSession(payload);
    if r.Malformed? then (l, Rejected(TransportFailed(TooShort)))
    else if r.req.id == 0 then (l, Rejected(ZeroSessionId))
    else if further then (l.(state := SessionAckRecvd), ReceivedSession(r.req))
    else (Local(SessionEstablished, r.req.id, r.req.mode), ReceivedSession(r.req))
  }

  function CheckReceipt(keys: Keys, payload: seq<byte>): Outcome {
    if |payload| <= RECEIPT_SIG_SIZE then Rejected(PayloadRejected)
    else
      var sig, receipt := payload[..RECEIPT_SIG_SIZE], payload[RECEIPT_SIG_SIZE..];
      if keys.verify(receipt, sig) then ReceivedReceipt(receipt, sig) else Rejected(PayloadRejected)
  }

  lemma LengthIsWord(bs: seq<byte>)
    requires |bs| == 8
    ensures FromLittleEndian(bs) < TWO_TO_64
  {
    EncodeDecode(bs);
    Pow2Words();
  }

  /** Splitting an ack+request; the additions are 64-bit. */
  function SplitNego(payload: seq<byte>): Outcome {
    if |payload| <= 8 then Rejected(PayloadRejected)
    else
      LengthIsWord(payload[..8]);
      var respLength := FromLittleEndian(payload[..8]);
      var end := Add64(respLength, 8);
      if respLength == 0 || |payload| < end then Rejected(PayloadRejected)
      else if end < 8 then Rejected(Panic)
      else ReceivedNego(payload[8..end], payload[end..])
  }

  /** An ack+request with a nonempty response splits where it was joined. */
  lemma SplitNegoRoundTrip(resp: seq<byte>, req: seq<byte>)
    requires 0 < |resp| && |resp| + 8 < TWO_TO_64
    ensures SplitNego(LittleEndian(|resp|, 8) + resp + req) == ReceivedNego(resp, req)
  {
    hide LittleEndian, FromLittleEndian;
    Le64RoundTrip(|resp|);
    var p := LittleEndian(|resp|, 8) + resp + req;
    assert p[..8] == LittleEndian(|resp|, 8);
    assert p[8..|resp| + 8] == resp && p[|resp| + 8..] == req;
  }

  /** When a length from the peer makes the program slice out of range: within 8 of 2^64, and then always. */
  lemma SplitNegoPanicsIff(p: seq<byte>)
    ensures SplitNego(p) == Rejected(Panic) <==> |p| > 8 && FromLittleEndian(p[..8]) >= TWO_TO_64 - 8
  {
    hide FromLittleEndian;
    if |p| > 8 {
      LengthIsWord(p[..8]);
    }
  }

  /** What a receiving operation does with a payload of the right type. */
  function Accept(keys: Keys, l: Local, op: Op, payload: seq<byte>): (Local, Outcome)
    requires op.Receives()
  {
    match op
    case RecvSessionRequest => AcceptSessionRequest(l, payload)
    case RecvSessionAck(further) => AcceptSessionAck(l, further, payload)
    case RecvTxRequest => (l.(state := TxRequestRecvd), Received(payload))
    case RecvTxResponse => (l.(state := TxResponseRecvd), Received(payload))
    case RecvTxReceipt => (l.(state := TxReceiptRecvd), CheckReceipt(keys, payload))
    case RecvNegoRequest => (l.(state := NegoRequestRecvd), Received(payload))
    case RecvNegoAckReq => (l.(state := NegoAckReqRecvd), SplitNego(payload))
    case RecvNegoAck => (l.(state := Negotiated), Received(payload))
  }

  /** A whole node: protocol state, sending cursor, bytes sent so far, receiving side. */
  datatype View = View(local: Local, writer: Cursor, sent: seq<byte>, inbox: Inbox)

  /** One operation of one node. */
  function Step(c: Crypto, keys: Keys, v: View, op: Op): (View, Outcome) {
    if op.Close? then (v.(local := v.local.(state := Closed)), Closing)
    else
      var g := Guard(v.local, op);
      if g.Stop? then (v, Rejected(g.why))
      else if op.Sends() then
        var m := Message(keys, op);
        (View(AfterSend(v.local, op), AfterPod(c, v.writer, m), v.sent + WirePod(c, v.writer, m), v.inbox), Sent)
      else
        var (typ, least) := Expects(op);
        var (ib, r) := RecvTyped(c, v.inbox, typ, least);
        if r.Err? then (v.(inbox := ib), Rejected(TransportFailed(r.error)))
        else
          var (l, out) := Accept(keys, v.local, op, r.value);
          (v.(local := l, inbox := ib), out)
  }

  // ---------- Progress against an arbitrary peer ----------

  /** Every operation that changes the state raises this rank. */
  function Rank(s: State): nat {
    match s
    case Connected => 0
    case SessionReqRecvd => 1
    case SessionAckWait => 2
    case SessionAckRecvd => 3
    case SessionEstablished => 4
    case NegoRequestRecvd => 5
    case NegoAckReqWait => 5
    case NegoAckWait => 6
    case NegoAckReqRecvd => 6
    case Negotiated => 7
    case TxRequestRecvd => 8
    case TxResponseWait => 8
    case TxReceiptWait => 9
    case TxResponseRecvd => 9
    case TxReceiptRecvd => 10
    case TxSecretWait => 10
    case Closed => 11
  }

  const ESTABLISHED := 4

  predicate InNego(s: State) {
    s.NegoAckReqWait? || s.NegoAckReqRecvd? || s.NegoRequestRecvd? || s.NegoAckWait? || s.Negotiated?
  }

  predicate InTx(s: State) {
    8 <= Rank(s) <= 10
  }

  /** Whatever arrives: the state stays or rises in rank; an established session keeps its id and
      mode; OT negotiation is entered in OT modes only; the transaction phase is entered from
      Negotiated only in an OT mode, and from SessionEstablished only in any other. */
  lemma StepProgress(c: Crypto, keys: Keys, v: View, op: Op)
    ensures var l, l' := v.local, Step(c, keys, v, op).0.local;
            && (l' == l || Rank(l.state) < Rank(l'.state))
            && (Rank(l.state) >= ESTABLISHED ==> l'.id == l.id && l'.mode == l.mode)
            && (InNego(l'.state) && l' != l ==> IsOtMode(l'.mode))
    ensures var l, l' := v.local, Step(c, keys, v, op).0.local;
            InTx(l'.state) ==> InTx(l.state) || if IsOtMode(l'.mode) then l.state.Negotiated? else l.state.SessionEstablished?
  {
    hide RecvTyped, AfterPod, WirePod, DecodeSession, CheckReceipt, SplitNego, Message;
  }

  /** When a failed operation leaves the protocol state alone: always, except that a receipt or an
      ack+request that arrives intact is judged only after the state has advanced. */
  lemma FailureKeepsStateIff(c: Crypto, keys: Keys, v: View, op: Op)
    requires Step(c, keys, v, op).1.Rejected?
    ensures Step(c, keys, v, op).0.local == v.local
            <==> || Guard(v.local, op).Stop?
                 || !(op.RecvTxReceipt? || op.RecvNegoAckReq?)
                 || RecvTyped(c, v.inbox, Expects(op).0, 0).1.Err?
  {
    hide RecvTyped, AfterPod, WirePod, DecodeSession, Message;
  }

  /** A receipt that is too short to hold a signature arrives intact: it is refused, and the state has moved on
      all the same. */
  lemma ShortReceiptJudgedLate(c: Crypto, keys: Keys, v: View, payload: seq<byte>, rest: seq<byte>)
    requires v.local.state.TxReceiptWait? && |payload| <= RECEIPT_SIG_SIZE
    requires v.inbox.input == WirePod(c, v.inbox.cur, PodMsg(TX_RECEIPT, payload)) + rest
    ensures Step(c, keys, v, RecvTxReceipt).1 == Rejected(PayloadRejected)
    ensures Step(c, keys, v, RecvTxReceipt).0.local == v.local.(state := TxReceiptRecvd)
  {
    hide RecvTyped, WirePod, AfterPod;
    PodDelivery(c, v.inbox.cur, PodMsg(TX_RECEIPT, payload), 0, rest);
    assert v.inbox == Inbox(WirePod(c, v.inbox.cur, PodMsg(TX_RECEIPT, payload)) + rest, v.inbox.cur);
  }

  /** What happens to a node between two of its operations: bytes arrive. */
  datatype Event = Event(arrives: seq<byte>, op: Op)

  function Deliver(v: View, bytes: seq<byte>): View {
    v.(inbox := v.inbox.(input := v.inbox.input + bytes))
  }

  /** The protocol states a run goes through, the first one included. */
  function Trace(c: Crypto, keys: Keys, v: View, es: seq<Event>): (t: seq<Local>)
    ensures |t| == |es| + 1 && t[0] == v.local
    decreases |es|
  {
    if |es| == 0 then [v.local]
    else [v.local] + Trace(c, keys, Step(c, keys, Deliver(v, es[0].arrives), es[0].op).0, es[1..])
  }

  function Changes(t: seq<Local>): nat
    decreases |t|
  {
    if |t| < 2 then 0 else (if t[0] != t[1] then 1 else 0) + Changes(t[1..])
  }

  /** Bounded runs: whatever the peer sends and whatever is attempted, a node changes state at most
      eleven times, and rank never falls. */
  lemma {:induction false} BoundedRun(c: Crypto, keys: Keys, v: View, es: seq<Event>)
    ensures var t := Trace(c, keys, v, es);
            && Changes(t) + Rank(t[0].state) <= Rank(t[|es|].state) <= 11
            && forall i :: 0 <= i < |t| ==> Rank(t[0].state) <= Rank(t[i].state)
    decreases |es|
  {
    hide Step;
    if |es| > 0 {
      var v1 := Deliver(v, es[0].arrives);
      var v2 := Step(c, keys, v1, es[0].op).0;
      StepProgress(c, keys, v1, es[0].op);
      BoundedRun(c, keys, v2, es[1..]);
      var t, t1 := Trace(c, keys, v, es), Trace(c, keys, v2, es[1..]);
      assert t[1..] == t1;
    }
  }

  /** Once established, a session keeps its id and mode for the rest of every run. */
  lemma {:induction false} SessionFrozen(c: Crypto, keys: Keys, v: View, es: seq<Event>, i: nat)
    requires Rank(v.local.state) >= ESTABLISHED && i <= |es|
    ensures var t := Trace(c, keys, v, es);
            t[i].id == v.local.id && t[i].mode == v.local.mode
    decreases |es|
  {
    hide Step;
    if i > 0 {
      var v1 := Deliver(v, es[0].arrives);
      StepProgress(c, keys, v1, es[0].op);
      SessionFrozen(c, keys, Step(c, keys, v1, es[0].op).0, es[1..], i - 1);
    }
  }

  /** Negotiation states occur in OT modes only. */
  lemma {:induction false} NegoOnlyInOtMode(c: Crypto, keys: Keys, v: View, es: seq<Event>, i: nat)
    requires InNego(v.local.state) ==> IsOtMode(v.local.mode)
    requires i <= |es|
    ensures var t := Trace(c, keys, v, es);
            InNego(t[i].state) ==> IsOtMode(t[i].mode)
    decreases |es|
  {
    hide Step;
    if i > 0 {
      var v1 := Deliver(v, es[0].arrives);
      StepProgress(c, keys, v1, es[0].op);
      NegoOnlyInOtMode(c, keys, Step(c, keys, v1, es[0].op).0, es[1..], i - 1);
    }
  }

  /** In an OT mode every run that reaches the transaction phase has been in Negotiated. */
  lemma {:induction false} TxThroughNegotiated(c: Crypto, keys: Keys, v: View, es: seq<Event>, i: nat)
    requires !InTx(v.local.state) && i <= |es|
    ensures var t := Trace(c, keys, v, es);
            InTx(t[i].state) && IsOtMode(t[i].mode) ==> exists j :: 0 <= j < i && t[j].state.Negotiated?
    decreases |es|
  {
    hide Step;
    if i > 0 {
      var v1 := Deliver(v, es[0].arrives);
      var v2 := Step(c, keys, v1, es[0].op).0;
      StepProgress(c, keys, v1, es[0].op);
      var t, t1 := Trace(c, keys, v, es), Trace(c, keys, v2, es[1..]);
      if InTx(t[i].state) && IsOtMode(t[i].mode) {
        if InTx(v2.local.state) {
          TxModeFixed(c, keys, v2, es[1..], i - 1);
          assert t[0].state.Negotiated?;
        } else {
          TxThroughNegotiated(c, keys, v2, es[1..], i - 1);
          var j :| 0 <= j < i - 1 && t1[j].state.Negotiated?;
          assert t[j + 1].state.Negotiated?;
        }
      }
    }
  }

  lemma TxModeFixed(c: Crypto, keys: Keys, v: View, es: seq<Event>, i: nat)
    requires InTx(v.local.state) && i <= |es|
    ensures Trace(c, keys, v, es)[i].mode == v.local.mode
  {
    SessionFrozen(c, keys, v, es, i);
  }

  // ---------- The node ----------

  class Node {
    const conn: Connection
    const keys: Keys
    var state: State
    var sessionId: Code
    var sessionMode: byte

    constructor (conn: Connection, keys: Keys)
      ensures this.conn == conn && this.keys == keys
      ensures state == Connected && sessionId == 0 && sessionMode == 0
    {
      this.conn := conn;
      this.keys := keys;
      state, sessionId, sessionMode := Connected, 0, 0;
    }

    ghost function Here(): Local reads this { Local(state, sessionId, sessionMode) }
    ghost function Now(): View reads this, conn.rw { View(Here(), conn.rw.Writer(), conn.rw.sent, conn.rw.Reader()) }

    method SendMsg(typ: nat, payload: seq<byte>)
      requires typ < MSG_TYPE_MAX && |payload| < TWO_TO_64
      modifies conn.rw`encPos, conn.rw`egressMac, conn.rw`sent
      ensures conn.rw.sent == old(conn.rw.sent) + WirePod(conn.rw.crypto, old(conn.rw.Writer()), PodMsg(typ, payload))
      ensures conn.rw.Writer() == AfterPod(conn.rw.crypto, old(conn.rw.Writer()), PodMsg(typ, payload))
    {
      hide WireAll, AfterAll, Packets, LittleEndian, Pow2;
      HeaderFieldsFit(typ);
      Pow2Words();
      var rev := Encode(MSG_REV, 2);
      var t := Encode(typ, 2);
      var size := Encode(|payload|, 8);
      var ok := conn.Write(rev + t + size, HEADER_SIZE);
      assert ok;
      ok := conn.Write(payload, |payload|);
      assert ok;
    }

    method RecvMsgHeader() returns (r: Result<(nat, nat)>)
      modifies conn.rw`decPos, conn.rw`ingressMac, conn.rw`arrived
      ensures (conn.rw.Reader(), r) == RecvHeader(conn.rw.crypto, old(conn.rw.Reader()))
    {
      hide ReadPacket, FromLittleEndian;
      var p := conn.Read();
      if p.Err? {
        return Err(p.error);
      }
      if p.value.announced != HEADER_SIZE {
        return Err(WrongHeaderSize);
      }
      var header := p.value.bytes;
      var rev := Decode(header[0..2], 2);
      if rev.value != MSG_REV {
        return Err(UnsupportedRev);
      }
      var typ := Decode(header[2..4], 2);
      if typ.value >= MSG_TYPE_MAX {
        return Err(UnsupportedType);
      }
      var length := Decode(header[4..12], 8);
      return Ok((typ.value, length.value));
    }

    method RecvMsgPayload(length: nat) returns (r: Result<seq<byte>>)
      modifies conn.rw`decPos, conn.rw`ingressMac, conn.rw`arrived
      ensures (conn.rw.Reader(), r) == RecvPayload(conn.rw.crypto, old(conn.rw.Reader()), length)
    {
      hide ReadPacket;
      var p := conn.Read();
      if p.Err? {
        return Err(p.error);
      }
      if p.value.announced != length {
        return Err(WrongPayloadSize);
      }
      return Ok(p.value.bytes);
    }

    method RecvMsgWithCheck(typ: nat, length: nat) returns (r: Result<seq<byte>>)
      modifies conn.rw`decPos, conn.rw`ingressMac, conn.rw`arrived
      ensures (conn.rw.Reader(), r) == RecvTyped(conn.rw.crypto, old(conn.rw.Reader()), typ, length)
    {
      hide RecvHeader, RecvPayload;
      var h := RecvMsgHeader();
      if h.Err? {
        return Err(h.error);
      }
      if h.value.0 != typ {
        return Err(WrongType);
      }
      if h.value.1 < length {
        return Err(TooShort);
      }
      r := RecvMsgPayload(h.value.1);
    }

    /** SendTxMsg: the state check, the message, the new state. */
    method SendTxMsg(typ: nat, payload: seq<byte>, pre: State, post: State) returns (out: Outcome)
      requires typ < MSG_TYPE_MAX && |payload| < TWO_TO_64
      modifies this`state, conn.rw`encPos, conn.rw`egressMac, conn.rw`sent
      ensures old(state) != pre ==> out == Rejected(InvalidState(pre)) && Now() == old(Now())
      ensures old(state) == pre ==>
        var m := PodMsg(typ, payload);
        out == Sent && Now() == View(old(Here()).(state := post), AfterPod(conn.rw.crypto, old(conn.rw.Writer()), m),
                                     old(conn.rw.sent) + WirePod(conn.rw.crypto, old(conn.rw.Writer()), m), old(conn.rw.Reader()))
    {
      hide WirePod, AfterPod;
      if state != pre {
        return Rejected(InvalidState(pre));
      }
      SendMsg(typ, payload);
      state := post;
      return Sent;
    }

    /** RecvTxMsg: the state check, the message, the new state. */
    method RecvTxMsg(typ: nat, pre: State, post: State) returns (out: Outcome)
      modifies this`state, conn.rw`decPos, conn.rw`ingressMac, conn.rw`arrived
      ensures old(state) != pre ==> out == Rejected(InvalidState(pre)) && Now() == old(Now())
      ensures old(state) == pre ==>
        var (ib, r) := RecvTyped(conn.rw.crypto, old(conn.rw.Reader()), typ, 0);
        if r.Err? then out == Rejected(TransportFailed(r.error)) && Now() == old(Now()).(inbox := ib)
        else out == Received(r.value) && Now() == old(Now()).(inbox := ib, local := old(Here()).(state := post))
    {
      hide RecvTyped;
      if state != pre {
        return Rejected(InvalidState(pre));
      }
      var r := RecvMsgWithCheck(typ, 0);
      if r.Err? {
        return Rejected(TransportFailed(r.error));
      }
      state := post;
      return Received(r.value);
    }

    /** Every operation of the node does what Step says. */
    method Perform(op: Op) returns (out: Outcome)
      requires op.Sends() ==> |Message(keys, op).payload| < TWO_TO_64
      modifies this`state, this`sessionId, this`sessionMode, conn.rw
      ensures (Now(), out) == Step(conn.rw.crypto, keys, old(Now()), op)
    {
      hide RecvTyped, WirePod, AfterPod, Accept, Message, DecodeSession, EncodeSession;
      match op
      case SendNewSessionRequest(_, _, _) => out := DoSendNewSessionRequest(op);
      case RecvSessionRequest => out := DoRecvSessionRequest();
      case SendSessionAck(_, _) => out := DoSendSessionAck(op);
      case RecvSessionAck(further) => out := DoRecvSessionAck(further);
      case Close =>
        state := Closed;
        out := Closing;
      case _ => out := DoTx(op);
    }

    method DoSendNewSessionRequest(op: Op) returns (out: Outcome)
      requires op.SendNewSessionRequest? && |Message(keys, op).payload| < TWO_TO_64
      modifies this`state, this`sessionId, this`sessionMode, conn.rw
      ensures (Now(), out) == Step(conn.rw.crypto, keys, old(Now()), op)
    {
      hide WirePod, AfterPod, EncodeSession, RecvTyped;
      if state != Connected {
        return Rejected(InvalidState(Connected));
      }
      if op.mode >= MODE_MAX {
        return Rejected(InvalidMode);
      }
      if |op.root| != 32 {
        return Rejected(InvalidRoot);
      }
      SendMsg(SESSION_REQUEST, EncodeSession(SessionRequest(0, op.mode, op.root, op.extra)));
      state := SessionAckWait;
      return Sent;
    }

    method DoRecvSessionRequest() returns (out: Outcome)
      modifies this`state, this`sessionId, this`sessionMode, conn.rw
      ensures (Now(), out) == Step(conn.rw.crypto, keys, old(Now()), RecvSessionRequest)
    {
      hide RecvTyped, DecodeSession, WirePod, AfterPod;
      if state != Connected {
        return Rejected(InvalidState(Connected));
      }
      var r := RecvMsgWithCheck(SESSION_REQUEST, SESSION_REQUEST_SIZE);
      if r.Err? {
        return Rejected(TransportFailed(r.error));
      }
      var req := DecodeSession(r.value);
      if req.Malformed? {
        return Rejected(TransportFailed(TooShort));
      }
      if req.req.id == 0 {
        if req.req.mode >= MODE_MAX {
          return Rejected(InvalidMode);
        }
      }
      state := SessionReqRecvd;
      return ReceivedSession(req.req);
    }

    method DoSendSessionAck(op: Op) returns (out: Outcome)
      requires op.SendSessionAck? && |Message(keys, op).payload| < TWO_TO_64
      modifies this`state, this`sessionId, this`sessionMode, conn.rw
      ensures (Now(), out) == Step(conn.rw.crypto, keys, old(Now()), op)
    {
      hide WirePod, AfterPod, EncodeSession, RecvTyped;
      if op.needFurtherAck && state != SessionReqRecvd {
        return Rejected(InvalidState(SessionReqRecvd));
      } else if !op.needFurtherAck && state != SessionAckRecvd {
        return Rejected(InvalidState(SessionAckRecvd));
      }
      SendMsg(SESSION_ACK, EncodeSession(op.ack));
      if op.needFurtherAck {
        state := SessionAckWait;
      } else {
        sessionId := op.ack.id;
        sessionMode := op.ack.mode;
        state := SessionEstablished;
      }
      return Sent;
    }

    method DoRecvSessionAck(needFurtherAck: bool) returns (out: Outcome)
      modifies this`state, this`sessionId, this`sessionMode, conn.rw
      ensures (Now(), out) == Step(conn.rw.crypto, keys, old(Now()), RecvSessionAck(needFurtherAck))
    {
      hide RecvTyped, DecodeSession, WirePod, AfterPod;
      if state != SessionAckWait {
        return Rejected(InvalidState(SessionAckWait));
      }
      var r := RecvMsgWithCheck(SESSION_ACK, SESSION_REQUEST_SIZE);
      if r.Err? {
        return Rejected(TransportFailed(r.error));
      }
      var ack := DecodeSession(r.value);
      if ack.Malformed? {
        return Rejected(TransportFailed(TooShort));
      }
      if ack.req.id == 0 {
        return Rejected(ZeroSessionId);
      }
      if needFurtherAck {
        state := SessionAckRecvd;
      } else {
        sessionId := ack.req.id;
        sessionMode := ack.req.mode;
        state := SessionEstablished;
      }
      return ReceivedSession(ack.req);
    }

    method DoTx(op: Op) returns (out: Outcome)
      requires !op.SendNewSessionRequest? && !op.RecvSessionRequest? && !op.SendSessionAck? && !op.RecvSessionAck? && !op.Close?
      requires op.Sends() ==> |Message(keys, op).payload| < TWO_TO_64
      modifies this`state, conn.rw
      ensures (Now(), out) == Step(conn.rw.crypto, keys, old(Now()), op)
    {
      hide RecvTyped, WirePod, AfterPod, LittleEndian, FromLittleEndian;
      var ot := IsOtMode(sessionMode);
      if op.OnlyInOtMode() && !ot {
        return Rejected(NotOtMode);
      }
      var first := if ot then Negotiated else SessionEstablished;
      match op
      case SendTxRequest(b) => out := SendTxMsg(TX_REQUEST, b, first, TxResponseWait);
      case RecvTxRequest => out := RecvTxMsg(TX_REQUEST, first, TxRequestRecvd);
      case SendTxResponse(b) => out := SendTxMsg(TX_RESPONSE, b, TxRequestRecvd, TxReceiptWait);
      case RecvTxResponse => out := RecvTxMsg(TX_RESPONSE, TxResponseWait, TxResponseRecvd);
      case SendTxReceipt(b) => out := SendTxMsg(TX_RECEIPT, keys.sign(b) + b, TxResponseRecvd, TxSecretWait);
      case RecvTxReceipt =>
        out := RecvTxMsg(TX_RECEIPT, TxReceiptWait, TxReceiptRecvd);
        if out.Received? {
          out := CheckReceipt(keys, out.bytes);
        }
      case SendNegoRequest(b) => out := SendTxMsg(NEGO_REQUEST, b, SessionEstablished, NegoAckReqWait);
      case RecvNegoRequest => out := RecvTxMsg(NEGO_REQUEST, SessionEstablished, NegoRequestRecvd);
      case SendNegoAckReq(resp, req) =>
        out := SendTxMsg(NEGO_ACK_REQ, LittleEndian(|resp|, 8) + resp + req, NegoRequestRecvd, NegoAckWait);
      case RecvNegoAckReq =>
        out := RecvTxMsg(NEGO_ACK_REQ, NegoAckReqWait, NegoAckReqRecvd);
        if out.Received? {
          out := SplitNego(out.bytes);
        }
      case SendNegoAck(b) => out := SendTxMsg(NEGO_ACK, b, NegoAckReqRecvd, Negotiated);
      case RecvNegoAck => out := RecvTxMsg(NEGO_ACK, NegoAckWait, Negotiated);
    }
  }

  lemma HeaderFieldsFit(typ: nat)
    requires typ < MSG_TYPE_MAX
    ensures MSG_REV < Pow2(8 * 2) && typ < Pow2(8 * 2)
  {
    Pow2Words();
  }
}
