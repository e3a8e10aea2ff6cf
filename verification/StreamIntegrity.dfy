/** What the PoD transport and the message header accept from any stream
    (net/rlpx/transport.go and net/node.go). */
module StreamIntegrity {
  import opened Words
  import opened Bits
  import opened Codec
  import opened Frames
  import opened Transport

  function Payloads(ms: seq<Msg>): seq<byte> {
    if |ms| == 0 then [] else ms[0].payload + Payloads(ms[1..])
  }

  /** The frames of a packet: a size frame, and then data frames only. */
  ghost predicate PacketFrames(ms: seq<Msg>, p: Packet) {
    && |ms| > 0 && ms[0].code == CODE_SIZE && |ms[0].payload| >= 8
    && p.announced == FromLittleEndian(ms[0].payload[..8])
    && (forall k :: 1 <= k < |ms| ==> ms[k].code == CODE_DATA)
    && p.bytes == Payloads(ms[1..])
  }

  lemma OpenAllCons(c: Crypto, ib: Inbox, m: Msg, ms: seq<Msg>, ib1: Inbox, ib2: Inbox)
    requires Open(c, ib) == (ib1, Got(m)) && OpenAll(c, ib1, |ms|) == (ib2, Delivered(ms))
    ensures OpenAll(c, ib, |ms| + 1) == (ib2, Delivered([m] + ms))
  {
    hide Open;
    assert Delivered([m] + ms) == [Got(m)] + Delivered(ms);
  }

  lemma {:induction false} DataOnly(c: Crypto, ib: Inbox, remaining: nat, buf: seq<byte>) returns (ms: seq<Msg>)
    requires ReadData(c, ib, remaining, buf).1.Ok?
    ensures OpenAll(c, ib, |ms|) == (ReadData(c, ib, remaining, buf).0, Delivered(ms))
    ensures forall k :: 0 <= k < |ms| ==> ms[k].code == CODE_DATA
    ensures ReadData(c, ib, remaining, buf).1.value == buf + Payloads(ms)
    decreases |ib.input|
  {
    hide Open;
    if remaining == 0 {
      ms := [];
    } else {
      var (ib1, r) := Open(c, ib);
      OpenConsumes(c, ib);
      var rest := DataOnly(c, ib1, Sub64(remaining, |r.msg.payload|), buf + r.msg.payload);
      ms := [r.msg] + rest;
      OpenAllCons(c, ib, r.msg, rest, ib1, ReadData(c, ib, remaining, buf).0);
      assert ms[1..] == rest;
    }
  }

  /** Whatever the stream: a packet that is read was a size frame followed by data frames, each of them read in its place
      with its tags checked, and its bytes are theirs. */
  lemma PacketOnlyFromFrames(c: Crypto, ib: Inbox) returns (ms: seq<Msg>)
    requires ReadPacket(c, ib).1.Ok?
    ensures OpenAll(c, ib, |ms|) == (ReadPacket(c, ib).0, Delivered(ms)) && PacketFrames(ms, ReadPacket(c, ib).1.value)
  {
    hide Open, ReadData;
    var (ib1, size) := ReadSize(c, ib);
    var rest := DataOnly(c, ib1, size.value, []);
    var m := Open(c, ib).1.msg;
    ms := [m] + rest;
    OpenAllCons(c, ib, m, rest, ib1, ReadPacket(c, ib).0);
    assert ms[1..] == rest;
  }

  /** A header is accepted exactly when twelve bytes are announced and they are those of some known type and some
      length. */
  lemma HeaderIff(announced: nat, h: seq<byte>, typ: nat, size: nat)
    requires announced <= |h|
    ensures ParseHeader(announced, h) == Ok((typ, size)) <==>
            announced == HEADER_SIZE && typ < MSG_TYPE_MAX && size < TWO_TO_64 && h[..12] == HeaderBytes(typ, size)
  {
    hide LittleEndian, FromLittleEndian;
    if announced == HEADER_SIZE {
      assert h[..12] == h[0..2] + h[2..4] + h[4..12];
      DigitsOf(h[0..2]);
      DigitsOf(h[2..4]);
      DigitsOf(h[4..12]);
      Pow2Words();
      Le16RoundTrip(MSG_REV);
      if typ < MSG_TYPE_MAX && size < TWO_TO_64 && h[..12] == HeaderBytes(typ, size) {
        HeaderRoundTrip(typ, size);
        assert h[0..2] == HeaderBytes(typ, size)[0..2] && h[2..4] == HeaderBytes(typ, size)[2..4];
        assert h[4..12] == HeaderBytes(typ, size)[4..12];
      }
    }
  }

  lemma DigitsOf(bs: seq<byte>)
    ensures LittleEndian(FromLittleEndian(bs), |bs|) == bs && FromLittleEndian(bs) < Pow2(8 * |bs|)
  {
    EncodeDecode(bs);
  }

  /** Whatever the stream: a typed receive succeeds only on a packet of twelve bytes that is the header of that type and
      some length, not below the least, followed by a packet for which exactly that length is announced. */
  lemma TypedOnlyFrom(c: Crypto, ib: Inbox, typ: nat, least: nat)
    ensures var (ib1, h) := ReadPacket(c, ib);
            RecvTyped(c, ib, typ, least).1.Ok? <==>
              && h.Ok? && h.value.announced == HEADER_SIZE && typ < MSG_TYPE_MAX
              && exists size: nat :: least <= size < TWO_TO_64 && h.value.bytes[..12] == HeaderBytes(typ, size)
                   && ReadPacket(c, ib1).1.Ok? && ReadPacket(c, ib1).1.value.announced == size
  {
    hide ReadPacket, ParseHeader, HeaderBytes, FromLittleEndian, LittleEndian;
    var (ib1, h) := ReadPacket(c, ib);
    if h.Ok? {
      var parsed := ParseHeader(h.value.announced, h.value.bytes);
      if parsed.Ok? {
        HeaderIff(h.value.announced, h.value.bytes, parsed.value.0, parsed.value.1);
      }
      forall size: nat
        ensures parsed == Ok((typ, size)) <==>
                h.value.announced == HEADER_SIZE && typ < MSG_TYPE_MAX && size < TWO_TO_64 && h.value.bytes[..12] == HeaderBytes(typ, size)
      {
        HeaderIff(h.value.announced, h.value.bytes, typ, size);
      }
    }
  }
}
