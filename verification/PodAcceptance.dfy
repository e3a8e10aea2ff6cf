/** What a PoD node accepts and what it refuses, operation by operation
    (net/session.go and net/tx.go). */
module PodAcceptance {
  import opened Words
  import opened Bits
  import opened Codec
  import opened Frames
  import opened Transport
  import opened PodNode

  /** The length a joined ack and request announces for the ack. */
  function AckLength(p: seq<byte>): nat
    requires |p| >= 8
  {
    FromLittleEndian(p[..8])
  }

  /** A payload that says which session it is about. */
  predicate Identified(p: seq<byte>) {
    |p| >= SESSION_REQUEST_SIZE && exists k :: 0 <= k < 8 && p[k] != 0
  }

  /** The state in which a transaction request may be sent or received. */
  predicate Ready(l: Local) {
    if IsOtMode(l.mode) then l.state.Negotiated? else l.state.SessionEstablished?
  }

  /** When an intact message of this type and payload is to be accepted. */
  predicate Deserved(keys: Keys, l: Local, op: Op, typ: nat, p: seq<byte>)
    requires op.Receives()
  {
    match op
    case RecvSessionRequest =>
      l.state.Connected? && typ == 0 && |p| >= 41 && (Identified(p) || p[8] < 10)
    case RecvSessionAck(_) => l.state.SessionAckWait? && typ == 1 && Identified(p)
    case RecvTxRequest => Ready(l) && typ == 3
    case RecvTxResponse => l.state.TxResponseWait? && typ == 4
    case RecvTxReceipt => l.state.TxReceiptWait? && typ == 5 && |p| > 65 && keys.verify(p[65..], p[..65])
    case RecvNegoRequest => IsOtMode(l.mode) && l.state.SessionEstablished? && typ == 6
    case RecvNegoAck => IsOtMode(l.mode) && l.state.NegoAckWait? && typ == 7
    case RecvNegoAckReq =>
      IsOtMode(l.mode) && l.state.NegoAckReqWait? && typ == 8 && |p| > 8 && 0 < AckLength(p) && AckLength(p) + 8 <= |p|
  }

  /** The parts handed to the caller are the payload: put together again, they give it back. */
  predicate Carries(out: Outcome, p: seq<byte>) {
    match out
    case Received(bytes) => bytes == p
    case ReceivedSession(req) => EncodeSession(req) == p && |req.root| == 32
    case ReceivedReceipt(receipt, signature) => signature + receipt == p
    case ReceivedNego(resp, req) => LittleEndian(|resp|, 8) + resp + req == p
    case _ => false
  }

  predicate Wanted(op: Op, out: Outcome)
    requires op.Receives()
  {
    match op
    case RecvSessionRequest => out.ReceivedSession?
    case RecvSessionAck(_) => out.ReceivedSession?
    case RecvTxReceipt => out.ReceivedReceipt?
    case RecvNegoAckReq => out.ReceivedNego?
    case _ => out.Received?
  }

  // ---------- Payloads ----------

  lemma {:induction false} ZeroDigits(bs: seq<byte>)
    ensures FromLittleEndian(bs) == 0 <==> forall k :: 0 <= k < |bs| ==> bs[k] == 0
    decreases |bs|
  {
    if |bs| > 0 {
      ZeroDigits(bs[1..]);
      assert forall k :: 1 <= k < |bs| ==> bs[k] == bs[1..][k - 1];
    }
  }

  lemma SessionParts(p: seq<byte>)
    requires |p| >= SESSION_REQUEST_SIZE
    ensures var r := DecodeSession(p);
            r.Parsed? && EncodeSession(r.req) == p && |r.req.root| == 32 && r.req.mode == p[8] && (r.req.id != 0 <==> Identified(p))
  {
    hide LittleEndian, FromLittleEndian;
    EncodeDecode(p[0..8]);
    assert p == p[0..8] + [p[8]] + p[9..41] + p[41..];
    ZeroDigits(p[0..8]);
    assert forall k :: 0 <= k < 8 ==> p[0..8][k] == p[k];
  }

  lemma NegoParts(p: seq<byte>)
    requires |p| < TWO_TO_64
    ensures SplitNego(p).ReceivedNego? <==> |p| > 8 && 0 < AckLength(p) && AckLength(p) + 8 <= |p|
    ensures SplitNego(p).ReceivedNego? || SplitNego(p).Rejected?
    ensures SplitNego(p).ReceivedNego? ==> Carries(SplitNego(p), p)
  {
    hide LittleEndian, FromLittleEndian;
    if |p| > 8 {
      LengthIsWord(p[..8]);
      EncodeDecode(p[..8]);
      if SplitNego(p).ReceivedNego? {
        var end := AckLength(p) + 8;
        assert p == p[..8] + p[8..end] + p[end..];
      }
    }
  }

  lemma ReceiptParts(keys: Keys, p: seq<byte>)
    ensures var out := CheckReceipt(keys, p);
            && (out.ReceivedReceipt? <==> |p| > 65 && keys.verify(p[65..], p[..65]))
            && (out.ReceivedReceipt? || out.Rejected?)
            && (out.ReceivedReceipt? ==> Carries(out, p) && keys.verify(out.receipt, out.signature))
  {
    if |p| > 65 {
      assert p == p[..65] + p[65..];
    }
  }

  lemma AcceptParts(keys: Keys, l: Local, op: Op, p: seq<byte>)
    requires op.Receives() && |p| < TWO_TO_64 && |p| >= Expects(op).1 && Guard(l, op).Pass?
    ensures var out := Accept(keys, l, op, p).1;
            && (!out.Rejected? <==> Deserved(keys, l, op, Expects(op).0, p))
            && (!out.Rejected? ==> Wanted(op, out) && Carries(out, p))
  {
    hide DecodeSession, EncodeSession, SplitNego, CheckReceipt, LittleEndian, AckLength, Identified;
    match op
    case RecvSessionRequest => SessionParts(p);
    case RecvSessionAck(_) => SessionParts(p); assert Identified(p) ==> |p| >= SESSION_REQUEST_SIZE;
    case RecvTxReceipt => ReceiptParts(keys, p);
    case RecvNegoAckReq => NegoParts(p);
    case _ =>
  }

  lemma DeservedPasses(keys: Keys, l: Local, op: Op, typ: nat, p: seq<byte>)
    requires op.Receives() && Deserved(keys, l, op, typ, p)
    ensures Guard(l, op).Pass? && typ == Expects(op).0 && |p| >= Expects(op).1
  {
  }

  // ---------- Receiving ----------

  /** An intact message that is not of the type awaited, or is shorter than the least, is refused as that. */
  lemma IntactRefused(c: Crypto, ib: Inbox, m: PodMsg, typ: nat, least: nat, rest: seq<byte>)
    requires Sendable(m) && ib.input == WirePod(c, ib.cur, m) + rest
    requires m.typ != typ || |m.payload| < least
    ensures RecvTyped(c, ib, typ, least).1 == Err(if m.typ != typ then WrongType else TooShort)
  {
    hide RecvHeader, WirePod, AfterPackets, WirePackets, HeaderBytes, RecvPayload;
    HeaderDelivery(c, ib.cur, m, rest);
    assert ib == Inbox(WirePod(c, ib.cur, m) + rest, ib.cur);
  }

  /** An intact message is accepted exactly when it is deserved, whatever the state, the operation, the type and the
      payload; what the caller gets then makes up the payload, and the next message is next. */
  lemma AcceptedIff(c: Crypto, keys: Keys, v: View, op: Op, m: PodMsg, rest: seq<byte>)
    requires op.Receives() && Sendable(m) && v.inbox.input == WirePod(c, v.inbox.cur, m) + rest
    ensures var (v', out) := Step(c, keys, v, op);
            && (!out.Rejected? <==> Deserved(keys, v.local, op, m.typ, m.payload))
            && (!out.Rejected? ==> Wanted(op, out) && Carries(out, m.payload) && v'.inbox == Inbox(rest, AfterPod(c, v.inbox.cur, m)))
  {
    hide RecvTyped, WirePod, AfterPod, Accept, Deserved, Guard, Carries, Wanted, Expects;
    var (typ, least) := Expects(op);
    if Deserved(keys, v.local, op, m.typ, m.payload) {
      DeservedPasses(keys, v.local, op, m.typ, m.payload);
    }
    if Guard(v.local, op).Pass? {
      assert v.inbox == Inbox(WirePod(c, v.inbox.cur, m) + rest, v.inbox.cur);
      if m.typ == typ && |m.payload| >= least {
        PodDelivery(c, v.inbox.cur, m, least, rest);
        AcceptParts(keys, v.local, op, m.payload);
      } else {
        IntactRefused(c, v.inbox, m, typ, least, rest);
      }
    }
  }

  /** The reason given when a message of another type arrives, and when it is too short. */
  lemma RefusedAs(c: Crypto, keys: Keys, v: View, op: Op, m: PodMsg, rest: seq<byte>)
    requires op.Receives() && Sendable(m) && v.inbox.input == WirePod(c, v.inbox.cur, m) + rest
    requires Guard(v.local, op).Pass? && (m.typ != Expects(op).0 || |m.payload| < Expects(op).1)
    ensures Step(c, keys, v, op).1 == Rejected(TransportFailed(if m.typ != Expects(op).0 then WrongType else TooShort))
    ensures Step(c, keys, v, op).0.local == v.local
  {
    hide RecvTyped, WirePod, AfterPod, Accept, Guard, Expects;
    IntactRefused(c, v.inbox, m, Expects(op).0, Expects(op).1, rest);
  }

  /** Whatever the stream and the operation: a receipt that is handed over carries a signature of the buyer on just
      that receipt. */
  lemma ReceiptIsSigned(c: Crypto, keys: Keys, v: View, op: Op)
    requires Step(c, keys, v, op).1.ReceivedReceipt?
    ensures var out, r := Step(c, keys, v, op).1, RecvTyped(c, v.inbox, TX_RECEIPT, 0).1;
            && op.RecvTxReceipt? && v.local.state.TxReceiptWait?
            && keys.verify(out.receipt, out.signature)
            && r == Ok(out.signature + out.receipt)
  {
    hide RecvTyped, DecodeSession, CheckReceipt, Message, WirePod, AfterPod, FromLittleEndian;
    assert op.RecvTxReceipt?;
    ReceiptParts(keys, RecvTyped(c, v.inbox, TX_RECEIPT, 0).1.value);
  }

  // ---------- Sending ----------

  predicate MaySend(l: Local, op: Op)
    requires op.Sends()
  {
    match op
    case SendNewSessionRequest(mode, root, _) => l.state.Connected? && mode < 10 && |root| == 32
    case SendSessionAck(_, further) => if further then l.state.SessionReqRecvd? else l.state.SessionAckRecvd?
    case SendTxRequest(_) => Ready(l)
    case SendTxResponse(_) => l.state.TxRequestRecvd?
    case SendTxReceipt(_) => l.state.TxResponseRecvd?
    case SendNegoRequest(_) => IsOtMode(l.mode) && l.state.SessionEstablished?
    case SendNegoAckReq(_, _) => IsOtMode(l.mode) && l.state.NegoRequestRecvd?
    case SendNegoAck(_) => IsOtMode(l.mode) && l.state.NegoAckReqRecvd?
  }

  /** A message goes out exactly when it may; a refused one leaves the node and the connection as they were. */
  lemma SentIff(c: Crypto, keys: Keys, v: View, op: Op)
    requires op.Sends()
    ensures var (v', out) := Step(c, keys, v, op);
            && (out == Sent <==> MaySend(v.local, op))
            && (out != Sent ==> out.Rejected? && v' == v)
  {
    hide Message, WirePod, AfterPod;
  }
}
