/** The PoD transport: a size frame followed by data frames of bounded length
    (net/rlpx/transport.go), and PoD messages with a twelve-byte header on top (net/node.go). */
module Transport {
  import opened Words
  import opened Bits
  import opened Codec
  import opened Frames

  const CODE_SIZE := 0xf0
  const CODE_DATA := 0xf1
  const PACKET_SIZE := 16777210

  const MSG_REV := 1
  const MSG_TYPE_MAX := 9
  const HEADER_SIZE := 12

  datatype Error =
    | FrameError(err: ReadError)
    | WrongCode
    | PartialSize
    | WrongHeaderSize
    | UnsupportedRev
    | UnsupportedType
    | WrongType
    | TooShort
    | WrongPayloadSize

  datatype Result<+T> = Ok(value: T) | Err(error: Error)

  function Min(a: nat, b: nat): nat {
    if a <= b then a else b
  }

  lemma Le64RoundTrip(v: nat)
    requires v < TWO_TO_64
    ensures FromLittleEndian(LittleEndian(v, 8)) == v
  {
    Pow2Words();
    DecodeEncode(v, 8);
  }

  lemma Le16RoundTrip(v: nat)
    requires v < 0x1_0000
    ensures FromLittleEndian(LittleEndian(v, 2)) == v
  {
    Pow2Words();
    DecodeEncode(v, 2);
  }

  // ---------- What is written ----------

  function SizeMsg(size: nat): Msg {
    Msg(CODE_SIZE, LittleEndian(size, 8))
  }

  /** The data frames of the first `size` bytes of data; they stop where the data runs out. */
  function Chunks(data: seq<byte>, size: nat): seq<Msg>
    decreases size
  {
    var n := Min(size, PACKET_SIZE);
    if size == 0 || |data| < n then []
    else [Msg(CODE_DATA, data[..n])] + Chunks(data[n..], size - n)
  }

  function Packets(data: seq<byte>, size: nat): seq<Msg> {
    [SizeMsg(size)] + Chunks(data, size)
  }

  lemma CodesShort()
    ensures |EncodeCode(CODE_SIZE)| == 2 && |EncodeCode(CODE_DATA)| == 2
  {
  }

  /** Every frame the transport writes stays within the 24-bit limit. */
  lemma {:induction false} ChunksFit(data: seq<byte>, size: nat)
    ensures AllFit(Chunks(data, size))
    decreases size
  {
    CodesShort();
    var n := Min(size, PACKET_SIZE);
    if size > 0 && n <= |data| {
      ChunksFit(data[n..], size - n);
    }
  }

  lemma PacketsFit(data: seq<byte>, size: nat)
    ensures AllFit(Packets(data, size))
  {
    CodesShort();
    ChunksFit(data, size);
  }

  // ---------- What is read ----------

  /** Opening a frame consumes input. */
  lemma OpenConsumes(c: Crypto, ib: Inbox)
    ensures Open(c, ib).1.Got? ==> |Open(c, ib).0.input| < |ib.input|
  {
    hide Crypt, MacSeed, Tag, ParseContent;
  }

  /** readSize: the first eight payload bytes of a size frame. */
  function ReadSize(c: Crypto, ib: Inbox): (Inbox, Result<nat>) {
    var (ib1, r) := Open(c, ib);
    (ib1,
     if r.Failed? then Err(FrameError(r.err))
     else if r.msg.code != CODE_SIZE then Err(WrongCode)
     else if |r.msg.payload| < 8 then Err(PartialSize)
     else Ok(FromLittleEndian(r.msg.payload[..8])))
  }

  /** readData: appends frames to `buf` until nothing remains. The subtraction is not checked: it wraps
      when a frame is longer than what remains. */
  function ReadData(c: Crypto, ib: Inbox, remaining: nat, buf: seq<byte>): (Inbox, Result<seq<byte>>)
    decreases |ib.input|
  {
    if remaining == 0 then (ib, Ok(buf))
    else
      var (ib1, r) := Open(c, ib);
      OpenConsumes(c, ib);
      if r.Failed? then (ib1, Err(FrameError(r.err)))
      else if r.msg.code != CODE_DATA then (ib1, Err(WrongCode))
      else ReadData(c, ib1, Sub64(remaining, |r.msg.payload|), buf + r.msg.payload)
  }

  /** No frame that is read is longer than what remains. */
  ghost predicate NoneTooLong(c: Crypto, ib: Inbox, remaining: nat)
    decreases |ib.input|
  {
    if remaining == 0 then true
    else
      var (ib1, r) := Open(c, ib);
      OpenConsumes(c, ib);
      r.Got? && r.msg.code == CODE_DATA && |r.msg.payload| <= remaining && NoneTooLong(c, ib1, remaining - |r.msg.payload|)
  }

  /** From any stream, a read that succeeds returns at least what was announced, and exactly that if and
      only if no frame was too long. */
  lemma {:induction false} ReadDataExactIff(c: Crypto, ib: Inbox, remaining: nat, buf: seq<byte>)
    requires ReadData(c, ib, remaining, buf).1.Ok?
    ensures |ReadData(c, ib, remaining, buf).1.value| >= |buf| + remaining
    ensures |ReadData(c, ib, remaining, buf).1.value| == |buf| + remaining <==> NoneTooLong(c, ib, remaining)
    decreases |ib.input|
  {
    hide Open;
    if remaining > 0 {
      var (ib1, r) := Open(c, ib);
      OpenConsumes(c, ib);
      ReadDataExactIff(c, ib1, Sub64(remaining, |r.msg.payload|), buf + r.msg.payload);
    }
  }

  /** What Read gives its caller: the number announced, which it returns, and the bytes it has written to
      the buffer. */
  datatype Packet = Packet(announced: nat, bytes: seq<byte>)

  function ReadPacket(c: Crypto, ib: Inbox): (r: (Inbox, Result<Packet>))
    ensures r.1.Ok? ==> r.1.value.announced <= |r.1.value.bytes|
  {
    var (ib1, size) := ReadSize(c, ib);
    if size.Err? then (ib1, Err(size.error))
    else
      var (ib2, data) := ReadData(c, ib1, size.value, []);
      if data.Err? then (ib2, Err(data.error))
      else
        ReadDataExactIff(c, ib1, size.value, []);
        (ib2, Ok(Packet(size.value, data.value)))
  }

  /** Reassembling the frames of some data gives back the data. */
  lemma {:induction false} ReadDataRoundTrip(c: Crypto, cur: Cursor, data: seq<byte>, buf: seq<byte>, rest: seq<byte>)
    ensures AllFit(Chunks(data, |data|))
    ensures ReadData(c, Inbox(WireAll(c, cur, Chunks(data, |data|)) + rest, cur), |data|, buf)
            == (Inbox(rest, AfterAll(c, cur, Chunks(data, |data|))), Ok(buf + data))
    decreases |data|
  {
    ChunksFit(data, |data|);
    hide Open, Wire, After, Chunks, ReadData, WireAll, AfterAll, Fits;
    var ms := Chunks(data, |data|);
    ChunksUnfold(data);
    if |data| == 0 {
      EmptyRun(c, cur);
      ReadDataDone(c, Inbox(rest, cur), buf);
      assert [] + rest == rest && buf + data == buf;
    } else {
      WireAllCons(c, cur, ms, rest);
      var m, cur1, tail := ms[0], After(c, cur, ms[0]), data[|ms[0].payload|..];
      ReadDataStep(c, Inbox(WireAll(c, cur, ms) + rest, cur), Inbox(WireAll(c, cur1, ms[1..]) + rest, cur1), |data|, buf, m);
      ReadDataRoundTrip(c, cur1, tail, buf + m.payload, rest);
      assert buf + m.payload + tail == buf + data;
    }
  }

  lemma EmptyRun(c: Crypto, cur: Cursor)
    ensures WireAll(c, cur, []) == [] && AfterAll(c, cur, []) == cur
  {
  }

  lemma ReadDataDone(c: Crypto, ib: Inbox, buf: seq<byte>)
    ensures ReadData(c, ib, 0, buf) == (ib, Ok(buf))
  {
  }

  lemma ReadDataStep(c: Crypto, ib: Inbox, ib1: Inbox, remaining: nat, buf: seq<byte>, m: Msg)
    requires Open(c, ib) == (ib1, Got(m)) && m.code == CODE_DATA && 0 < |m.payload| <= remaining
    ensures ReadData(c, ib, remaining, buf) == ReadData(c, ib1, remaining - |m.payload|, buf + m.payload)
  {
    hide Open;
  }

  lemma ChunksUnfold(data: seq<byte>)
    ensures |data| == 0 ==> Chunks(data, |data|) == []
    ensures |data| > 0 ==>
      var ms := Chunks(data, |data|);
      && ms != [] && ms[0].code == CODE_DATA && 0 < |ms[0].payload| <= |data|
      && var n := |ms[0].payload|;
         ms[0].payload + data[n..] == data && ms[1..] == Chunks(data[n..], |data| - n)
  {
  }

  /** A stream that announces one byte and delivers 2^64 + 1: a data frame of two bytes, and then frames for
      the 2^64 - 1 that the subtraction makes of it. Read reports the one byte. */
  lemma OverlongFrameReadsOn(c: Crypto, cur: Cursor, data: seq<byte>, rest: seq<byte>)
    requires |data| == TWO_TO_64 - 1
    ensures var size, two := SizeMsg(1), Msg(CODE_DATA, [0, 0]);
            var cur1 := After(c, cur, size);
            var cur2 := After(c, cur1, two);
            var more := WireAll(c, cur2, Chunks(data, |data|)) + rest;
            ReadPacket(c, Inbox(Wire(c, cur, size) + (Wire(c, cur1, two) + more), cur)).1 == Ok(Packet(1, [0, 0] + data))
  {
    CodesShort();
    hide Open, Wire, After, WireAll, Chunks, LittleEndian, FromLittleEndian, EncodeCode, ReadData, ReadSize;
    var size, two := SizeMsg(1), Msg(CODE_DATA, [0, 0]);
    var cur1 := After(c, cur, size);
    var cur2 := After(c, cur1, two);
    var more := WireAll(c, cur2, Chunks(data, |data|)) + rest;
    FrameRoundTrip(c, cur, size, Wire(c, cur1, two) + more);
    ReadSizeStep(c, Inbox(Wire(c, cur, size) + (Wire(c, cur1, two) + more), cur), Inbox(Wire(c, cur1, two) + more, cur1), 1);
    FrameRoundTrip(c, cur1, two, more);
    ReadDataOverlong(c, Inbox(Wire(c, cur1, two) + more, cur1), Inbox(more, cur2), two);
    ReadDataRoundTrip(c, cur2, data, [0, 0], rest);
  }

  lemma ReadSizeStep(c: Crypto, ib: Inbox, ib1: Inbox, n: nat)
    requires n < TWO_TO_64 && Open(c, ib) == (ib1, Got(SizeMsg(n)))
    ensures ReadSize(c, ib) == (ib1, Ok(n))
  {
    hide Open, LittleEndian, FromLittleEndian;
    Le64RoundTrip(n);
    assert SizeMsg(n).payload[..8] == SizeMsg(n).payload;
  }

  lemma ReadDataOverlong(c: Crypto, ib: Inbox, ib1: Inbox, m: Msg)
    requires Open(c, ib) == (ib1, Got(m)) && m.code == CODE_DATA && |m.payload| == 2
    ensures ReadData(c, ib, 1, []) == ReadData(c, ib1, TWO_TO_64 - 1, m.payload)
  {
    hide Open;
    assert [] + m.payload == m.payload;
  }

  function WirePackets(c: Crypto, cur: Cursor, data: seq<byte>): seq<byte> {
    WireAll(c, cur, Packets(data, |data|))
  }

  function AfterPackets(c: Crypto, cur: Cursor, data: seq<byte>): Cursor {
    AfterAll(c, cur, Packets(data, |data|))
  }

  /** Read returns what Write was given, whatever bytes follow. */
  lemma PacketRoundTrip(c: Crypto, cur: Cursor, data: seq<byte>, rest: seq<byte>)
    requires |data| < TWO_TO_64
    ensures ReadPacket(c, Inbox(WirePackets(c, cur, data) + rest, cur))
            == (Inbox(rest, AfterPackets(c, cur, data)), Ok(Packet(|data|, data)))
  {
    PacketsFit(data, |data|);
    ReadSizeRoundTrip(c, cur, data, rest);
    hide Open, Wire, After, ReadData, Chunks, WireAll, AfterAll, ReadSize;
    var m, ms := SizeMsg(|data|), Chunks(data, |data|);
    WireAllCons(c, cur, Packets(data, |data|), rest);
    ReadDataRoundTrip(c, After(c, cur, m), data, [], rest);
    assert [] + data == data;
  }

  lemma ReadSizeRoundTrip(c: Crypto, cur: Cursor, data: seq<byte>, rest: seq<byte>)
    requires |data| < TWO_TO_64
    requires AllFit(Packets(data, |data|))
    ensures var cur1 := After(c, cur, SizeMsg(|data|));
            ReadSize(c, Inbox(WirePackets(c, cur, data) + rest, cur))
            == (Inbox(WireAll(c, cur1, Chunks(data, |data|)) + rest, cur1), Ok(|data|))
  {
    hide Open, Wire, After, Chunks, WireAll, AfterAll, LittleEndian, ReadSize;
    var ms := Packets(data, |data|);
    assert ms[1..] == Chunks(data, |data|);
    WireAllCons(c, cur, ms, rest);
    ReadSizeStep(c, Inbox(WirePackets(c, cur, data) + rest, cur),
                 Inbox(WireAll(c, After(c, cur, ms[0]), ms[1..]) + rest, After(c, cur, ms[0])), |data|);
  }

  // ---------- The connection ----------

  lemma WireAllSnoc(c: Crypto, cur: Cursor, ms: seq<Msg>, m: Msg)
    ensures WireAll(c, cur, ms + [m]) == WireAll(c, cur, ms) + Wire(c, AfterAll(c, cur, ms), m)
    ensures AfterAll(c, cur, ms + [m]) == After(c, AfterAll(c, cur, ms), m)
  {
    hide Wire, After;
    WireAllConcat(c, cur, ms, [m]);
  }

  lemma ChunksStep(data: seq<byte>, cur: nat, remaining: nat)
    requires remaining > 0 && cur <= |data| && Min(remaining, PACKET_SIZE) <= |data| - cur
    ensures var n := Min(remaining, PACKET_SIZE);
            Chunks(data[cur..], remaining)
            == [Msg(CODE_DATA, data[cur..cur + n])] + Chunks(data[cur + n..], remaining - n)
  {
    var n := Min(remaining, PACKET_SIZE);
    assert data[cur..][..n] == data[cur..cur + n] && data[cur..][n..] == data[cur + n..];
  }

  class Connection {
    const rw: FrameRW

    constructor (rw: FrameRW)
      ensures this.rw == rw
    {
      this.rw := rw;
    }

    method WriteSize(size: nat)
      requires size < TWO_TO_64
      modifies rw`encPos, rw`egressMac, rw`sent
      ensures rw.sent == old(rw.sent) + Wire(rw.crypto, old(rw.Writer()), SizeMsg(size))
      ensures rw.Writer() == After(rw.crypto, old(rw.Writer()), SizeMsg(size))
    {
      hide Seal, EncodeCode;
      Pow2Words();
      var sizeBytes := Encode(size, 8);
      CodesShort();
      var ok := rw.WriteMsg(CODE_SIZE, |sizeBytes|, sizeBytes);
      assert ok;
    }

    /** Sends the first `size` bytes of data; fails, after the frames it could fill, if there are
        fewer. */
    method WriteData(data: seq<byte>, size: nat) returns (ok: bool)
      modifies rw`encPos, rw`egressMac, rw`sent
      ensures ok <==> size <= |data|
      ensures rw.sent == old(rw.sent) + WireAll(rw.crypto, old(rw.Writer()), Chunks(data, size))
      ensures rw.Writer() == AfterAll(rw.crypto, old(rw.Writer()), Chunks(data, size))
    {
      hide Seal, EncodeCode, WireAll, AfterAll, Wire, After, Chunks;
      CodesShort();
      var remaining: nat, cur: nat := size, 0;
      ghost var done: seq<Msg> := [];
      EmptyRun(rw.crypto, rw.Writer());
      assert data[0..] == data;
      while remaining > 0
        invariant cur <= |data| && cur + remaining == size
        invariant Chunks(data, size) == done + Chunks(data[cur..], remaining)
        invariant rw.sent == old(rw.sent) + WireAll(rw.crypto, old(rw.Writer()), done)
        invariant rw.Writer() == AfterAll(rw.crypto, old(rw.Writer()), done)
      {
        var nrBytes := remaining;
        if nrBytes > PACKET_SIZE {
          nrBytes := PACKET_SIZE;
        }
        if |data| - cur < nrBytes {
          ChunksStuck(data[cur..], remaining);
          assert done + [] == done;
          return false;
        }
        var buf := data[cur..cur + nrBytes];
        ChunksStep(data, cur, remaining);
        ghost var m := Msg(CODE_DATA, buf);
        WireAllSnoc(rw.crypto, old(rw.Writer()), done, m);
        var sent := rw.WriteMsg(CODE_DATA, nrBytes, buf);
        WroteMsg(rw.crypto, AfterAll(rw.crypto, old(rw.Writer()), done), m);
        assert sent;
        done := done + [m];
        cur := cur + nrBytes;
        remaining := remaining - nrBytes;
      }
      ChunksStuck(data[cur..], 0);
      assert done + [] == done;
      return true;
    }

    method Write(data: seq<byte>, size: nat) returns (ok: bool)
      requires size < TWO_TO_64
      modifies rw`encPos, rw`egressMac, rw`sent
      ensures ok <==> size <= |data|
      ensures rw.sent == old(rw.sent) + WireAll(rw.crypto, old(rw.Writer()), Packets(data, size))
      ensures rw.Writer() == AfterAll(rw.crypto, old(rw.Writer()), Packets(data, size))
    {
      hide Wire, After, Chunks, WireAll, AfterAll, Packets, SizeMsg;
      WriteSize(size);
      ok := WriteData(data, size);
      PacketsWire(rw.crypto, old(rw.Writer()), data, size);
    }

    method ReadSizeFrame() returns (r: Result<nat>)
      modifies rw`decPos, rw`ingressMac, rw`arrived
      ensures (rw.Reader(), r) == ReadSize(rw.crypto, old(rw.Reader()))
    {
      hide Open, FromLittleEndian;
      var msg := rw.ReadMsg();
      if msg.Failed? {
        return Err(FrameError(msg.err));
      }
      if msg.msg.code != CODE_SIZE {
        return Err(WrongCode);
      }
      if |msg.msg.payload| < 8 {
        return Err(PartialSize);
      }
      var size := Decode(msg.msg.payload[..8], 8);
      return Ok(size.value);
    }

    method ReadDataFrames(length: nat) returns (r: Result<seq<byte>>)
      modifies rw`decPos, rw`ingressMac, rw`arrived
      ensures (rw.Reader(), r) == ReadData(rw.crypto, old(rw.Reader()), length, [])
    {
      hide Open;
      var remaining := length;
      var buf := [];
      while remaining > 0
        invariant ReadData(rw.crypto, old(rw.Reader()), length, [])
               == ReadData(rw.crypto, rw.Reader(), remaining, buf)
        decreases |rw.arrived|
      {
        OpenConsumes(rw.crypto, rw.Reader());
        var msg := rw.ReadMsg();
        if msg.Failed? {
          return Err(FrameError(msg.err));
        }
        if msg.msg.code != CODE_DATA {
          return Err(WrongCode);
        }
        var size := |msg.msg.payload|;
        if size == 0 {
          assert buf + msg.msg.payload == buf;
          continue;
        }
        buf := buf + msg.msg.payload;
        remaining := Sub64(remaining, size);
      }
      return Ok(buf);
    }

    method Read() returns (r: Result<Packet>)
      modifies rw`decPos, rw`ingressMac, rw`arrived
      ensures (rw.Reader(), r) == ReadPacket(rw.crypto, old(rw.Reader()))
    {
      hide ReadSize, ReadData;
      var size := ReadSizeFrame();
      if size.Err? {
        return Err(size.error);
      }
      var data := ReadDataFrames(size.value);
      if data.Err? {
        return Err(data.error);
      }
      return Ok(Packet(size.value, data.value));
    }
  }

  lemma PacketsWire(c: Crypto, cur: Cursor, data: seq<byte>, size: nat)
    ensures var cur1 := After(c, cur, SizeMsg(size));
            && WireAll(c, cur, Packets(data, size)) == Wire(c, cur, SizeMsg(size)) + WireAll(c, cur1, Chunks(data, size))
            && AfterAll(c, cur, Packets(data, size)) == AfterAll(c, cur1, Chunks(data, size))
  {
    hide Wire, After, Chunks, SizeMsg;
    assert Packets(data, size)[1..] == Chunks(data, size);
  }

  lemma ChunksStuck(data: seq<byte>, size: nat)
    requires size == 0 || |data| < Min(size, PACKET_SIZE)
    ensures Chunks(data, size) == []
  {
  }

  /** What WriteMsg did is what Wire and After say, for a payload within the limit. */
  lemma WroteMsg(c: Crypto, cur: Cursor, m: Msg)
    requires Fits(m)
    ensures FrameSize(m.code, |m.payload|) <= MAX_UINT24
    ensures Seal(c, cur, EncodeCode(m.code) + m.payload, FrameSize(m.code, |m.payload|))
            == (Wire(c, cur, m), After(c, cur, m))
  {
    hide Seal, EncodeCode;
  }

  // ---------- PoD messages ----------

  /** A PoD message: its type and payload. */
  datatype PodMsg = PodMsg(typ: nat, payload: seq<byte>)

  ghost predicate Sendable(m: PodMsg) {
    m.typ < MSG_TYPE_MAX && |m.payload| < TWO_TO_64
  }

  function HeaderBytes(typ: nat, size: nat): (r: seq<byte>)
    ensures |r| == HEADER_SIZE
  {
    LittleEndian(MSG_REV, 2) + LittleEndian(typ, 2) + LittleEndian(size, 8)
  }

  function WirePod(c: Crypto, cur: Cursor, m: PodMsg): seq<byte> {
    var head := HeaderBytes(m.typ, |m.payload|);
    WirePackets(c, cur, head) + WirePackets(c, AfterPackets(c, cur, head), m.payload)
  }

  function AfterPod(c: Crypto, cur: Cursor, m: PodMsg): Cursor {
    AfterPackets(c, AfterPackets(c, cur, HeaderBytes(m.typ, |m.payload|)), m.payload)
  }

  /** recvMsgHeader: message type and payload length. */
  function RecvHeader(c: Crypto, ib: Inbox): (Inbox, Result<(nat, nat)>) {
    var (ib1, r) := ReadPacket(c, ib);
    (ib1, if r.Err? then Err(r.error) else ParseHeader(r.value.announced, r.value.bytes))
  }

  function ParseHeader(announced: nat, h: seq<byte>): Result<(nat, nat)>
    requires announced <= |h|
  {
    if announced != HEADER_SIZE then Err(WrongHeaderSize)
    else
      var rev, typ, size := FromLittleEndian(h[0..2]), FromLittleEndian(h[2..4]), FromLittleEndian(h[4..12]);
      if rev != MSG_REV then Err(UnsupportedRev)
      else if typ >= MSG_TYPE_MAX then Err(UnsupportedType)
      else Ok((typ, size))
  }

  /** recvMsgPayload: the payload; the size announced for it must be the one in the header. */
  function RecvPayload(c: Crypto, ib: Inbox, length: nat): (Inbox, Result<seq<byte>>) {
    var (ib1, r) := ReadPacket(c, ib);
    (ib1,
     if r.Err? then Err(r.error)
     else if r.value.announced != length then Err(WrongPayloadSize)
     else Ok(r.value.bytes))
  }

  /** recvMsgWithCheck, and with `least == 0` the receiving half of recvTxMsg. */
  function RecvTyped(c: Crypto, ib: Inbox, typ: nat, least: nat): (Inbox, Result<seq<byte>>) {
    var (ib1, h) := RecvHeader(c, ib);
    if h.Err? then (ib1, Err(h.error))
    else if h.value.0 != typ then (ib1, Err(WrongType))
    else if h.value.1 < least then (ib1, Err(TooShort))
    else RecvPayload(c, ib1, h.value.1)
  }

  lemma HeaderRoundTrip(typ: nat, size: nat)
    requires typ < MSG_TYPE_MAX && size < TWO_TO_64
    ensures ParseHeader(HEADER_SIZE, HeaderBytes(typ, size)) == Ok((typ, size))
  {
    hide LittleEndian, FromLittleEndian;
    Le16RoundTrip(MSG_REV);
    Le16RoundTrip(typ);
    Le64RoundTrip(size);
    var h := HeaderBytes(typ, size);
    assert h[0..2] == LittleEndian(MSG_REV, 2);
    assert h[2..4] == LittleEndian(typ, 2);
    assert h[4..12] == LittleEndian(size, 8);
  }

  lemma HeaderDelivery(c: Crypto, cur: Cursor, m: PodMsg, rest: seq<byte>)
    requires Sendable(m)
    ensures var cur1 := AfterPackets(c, cur, HeaderBytes(m.typ, |m.payload|));
            RecvHeader(c, Inbox(WirePod(c, cur, m) + rest, cur))
            == (Inbox(WirePackets(c, cur1, m.payload) + rest, cur1), Ok((m.typ, |m.payload|)))
  {
    hide ReadPacket, WirePackets, AfterPackets, HeaderBytes, ParseHeader;
    var head := HeaderBytes(m.typ, |m.payload|);
    var cur1 := AfterPackets(c, cur, head);
    var more := WirePackets(c, cur1, m.payload) + rest;
    assert WirePod(c, cur, m) + rest == WirePackets(c, cur, head) + more;
    PacketRoundTrip(c, cur, head, more);
    HeaderRoundTrip(m.typ, |m.payload|);
  }

  /** One PoD message: the receiver that expects its type gets exactly its payload. */
  lemma PodDelivery(c: Crypto, cur: Cursor, m: PodMsg, least: nat, rest: seq<byte>)
    requires Sendable(m) && least <= |m.payload|
    ensures RecvTyped(c, Inbox(WirePod(c, cur, m) + rest, cur), m.typ, least)
            == (Inbox(rest, AfterPod(c, cur, m)), Ok(m.payload))
  {
    hide ReadPacket, RecvHeader, WirePackets, AfterPackets, HeaderBytes;
    HeaderDelivery(c, cur, m, rest);
    PacketRoundTrip(c, AfterPackets(c, cur, HeaderBytes(m.typ, |m.payload|)), m.payload, rest);
  }

  function WirePods(c: Crypto, cur: Cursor, ms: seq<PodMsg>): seq<byte>
    decreases |ms|
  {
    if |ms| == 0 then [] else WirePod(c, cur, ms[0]) + WirePods(c, AfterPod(c, cur, ms[0]), ms[1..])
  }

  function AfterPods(c: Crypto, cur: Cursor, ms: seq<PodMsg>): Cursor
    decreases |ms|
  {
    if |ms| == 0 then cur else AfterPods(c, AfterPod(c, cur, ms[0]), ms[1..])
  }

  /** A receiver that takes messages of any type, n times. */
  function RecvAny(c: Crypto, ib: Inbox): (Inbox, Result<PodMsg>) {
    var (ib1, h) := RecvHeader(c, ib);
    if h.Err? then (ib1, Err(h.error))
    else
      var (ib2, p) := RecvPayload(c, ib1, h.value.1);
      (ib2, if p.Err? then Err(p.error) else Ok(PodMsg(h.value.0, p.value)))
  }

  function RecvAll(c: Crypto, ib: Inbox, n: nat): (Inbox, seq<Result<PodMsg>>)
    decreases n
  {
    if n == 0 then (ib, [])
    else
      var (ib1, r) := RecvAny(c, ib);
      var (ib2, rs) := RecvAll(c, ib1, n - 1);
      (ib2, [r] + rs)
  }

  function AllOk(ms: seq<PodMsg>): (r: seq<Result<PodMsg>>)
    ensures |r| == |ms| && forall i :: 0 <= i < |r| ==> r[i] == Ok(ms[i])
  {
    seq(|ms|, i requires 0 <= i < |ms| => Ok(ms[i]))
  }

  /** End-to-end delivery: every list of messages sent with sendMsg is received as that list. */
  lemma {:induction false} EndToEnd(c: Crypto, cur: Cursor, ms: seq<PodMsg>, rest: seq<byte>)
    requires forall i :: 0 <= i < |ms| ==> Sendable(ms[i])
    ensures RecvAll(c, Inbox(WirePods(c, cur, ms) + rest, cur), |ms|)
            == (Inbox(rest, AfterPods(c, cur, ms)), AllOk(ms))
    decreases |ms|
  {
    hide WirePackets, AfterPackets, RecvHeader, ReadPacket, HeaderBytes;
    if |ms| == 0 {
      assert WirePods(c, cur, ms) + rest == rest;
    } else {
      var m, cur1 := ms[0], AfterPod(c, cur, ms[0]);
      var more := WirePods(c, cur1, ms[1..]) + rest;
      assert WirePods(c, cur, ms) + rest == WirePod(c, cur, m) + more;
      HeaderDelivery(c, cur, m, more);
      PacketRoundTrip(c, AfterPackets(c, cur, HeaderBytes(m.typ, |m.payload|)), m.payload, more);
      assert RecvAny(c, Inbox(WirePod(c, cur, m) + more, cur)) == (Inbox(more, cur1), Ok(m));
      EndToEnd(c, cur1, ms[1..], rest);
      assert [Ok(m)] + AllOk(ms[1..]) == AllOk(ms);
    }
  }
}
