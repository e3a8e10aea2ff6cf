/** What the reader of RLPx frames refuses (net/rlpx/p2p/rlpx.go). */
module FrameIntegrity {
  import opened Bits
  import opened Frames

  /** Two different hash inputs whose digests agree in the sixteen bytes that are sent. */
  ghost predicate Collide(c: Crypto, a: seq<byte>, b: seq<byte>) {
    a != b && Tag(c, a) == Tag(c, b)
  }

  /** The MAC state after a header, and after a whole frame, as they went over the wire. */
  function HeadMac(c: Crypto, cur: Cursor, head: Block): seq<byte> { cur.mac + MacSeed(c, cur.mac, head) }

  function FrameMac(c: Crypto, cur: Cursor, head: Block, body: seq<byte>): seq<byte> {
    var mac2 := HeadMac(c, cur, head) + body;
    mac2 + MacSeed(c, mac2, Tag(c, mac2))
  }

  /** Any encrypted header and body with the tags that only this state gives them. */
  function Framed(c: Crypto, cur: Cursor, head: Block, body: seq<byte>): seq<byte> {
    head + Tag(c, HeadMac(c, cur, head)) + (body + Tag(c, FrameMac(c, cur, head, body)))
  }

  /** The size an encrypted header announces. */
  function SizeIn(c: Crypto, cur: Cursor, head: Block): nat { ReadInt24(Crypt(c, cur.pos, head)) }

  /** The message in an encrypted body. */
  function Within(c: Crypto, cur: Cursor, head: Block, body: seq<byte>): ReadResult
    requires |body| == RoundUp16(SizeIn(c, cur, head))
  {
    ParseContent(Crypt(c, cur.pos + 16, body)[..SizeIn(c, cur, head)])
  }

  /** A frame with the right tags is read, whoever made it. */
  lemma FramedIsRead(c: Crypto, cur: Cursor, head: Block, body: seq<byte>, rest: seq<byte>)
    requires |body| == RoundUp16(SizeIn(c, cur, head))
    ensures Open(c, Inbox(Framed(c, cur, head, body) + rest, cur)) ==
            (Inbox(rest, Cursor(cur.pos + 16 + |body|, FrameMac(c, cur, head, body))), Within(c, cur, head, body))
  {
    hide Crypt, MacSeed, Tag, ParseContent, ReadInt24;
    var tag1, tag2 := Tag(c, HeadMac(c, cur, head)), Tag(c, FrameMac(c, cur, head, body));
    var tail := body + tag2 + rest;
    assert Framed(c, cur, head, body) + rest == head + tag1 + tail;
    Slices(head, tag1, tail);
    assert tail[..|body|] == body && tail[|body|..][..16] == tag2 && tail[|body|..][16..] == rest;
  }

  /** Nothing else is: what was read began with a header and a body under the right tags. */
  lemma ReadIsFramed(c: Crypto, cur: Cursor, input: seq<byte>) returns (head: Block, body: seq<byte>, rest: seq<byte>)
    requires Open(c, Inbox(input, cur)).1.Got?
    ensures |body| == RoundUp16(SizeIn(c, cur, head)) && input == Framed(c, cur, head, body) + rest
    ensures Open(c, Inbox(input, cur)).1 == Within(c, cur, head, body)
  {
    hide Crypt, MacSeed, Tag, ParseContent, ReadInt24;
    head := input[..16];
    var tail := input[32..];
    var n := RoundUp16(SizeIn(c, cur, head));
    body, rest := tail[..n], tail[n..][16..];
    assert input == head + input[16..32] + tail;
    assert tail == body + tail[n..][..16] + rest;
    assert input[16..32] == Tag(c, HeadMac(c, cur, head));
    assert tail[n..][..16] == Tag(c, FrameMac(c, cur, head, body));
    assert input == Framed(c, cur, head, body) + rest;
  }

  /** The reader returns a message exactly for the streams that begin with a frame whose two tags are those that
      its own MAC state gives to these very bytes. */
  lemma ReadIff(c: Crypto, cur: Cursor, input: seq<byte>, m: Msg)
    ensures Open(c, Inbox(input, cur)).1 == Got(m) <==>
            exists head: Block, body, rest ::
              && |body| == RoundUp16(SizeIn(c, cur, head)) && input == Framed(c, cur, head, body) + rest
              && Within(c, cur, head, body) == Got(m)
  {
    hide Open, Framed, Within, SizeIn;
    if Open(c, Inbox(input, cur)).1 == Got(m) {
      var head, body, rest := ReadIsFramed(c, cur, input);
    }
    if head: Block, body, rest :|
      && |body| == RoundUp16(SizeIn(c, cur, head)) && input == Framed(c, cur, head, body) + rest
      && Within(c, cur, head, body) == Got(m)
    {
      FramedIsRead(c, cur, head, body, rest);
    }
  }

  /** Which check fails: a wrong header tag is reported before anything of the body is looked at, a wrong frame tag
      whatever the body says. */
  lemma TagsChecked(c: Crypto, cur: Cursor, head: Block, tag1: Block, body: seq<byte>, tag2: Block, rest: seq<byte>)
    requires |body| == RoundUp16(SizeIn(c, cur, head))
    ensures tag1 != Tag(c, HeadMac(c, cur, head)) ==>
              Open(c, Inbox(head + tag1 + (body + tag2 + rest), cur)).1 == Failed(BadHeaderMac)
    ensures tag1 == Tag(c, HeadMac(c, cur, head)) && tag2 != Tag(c, FrameMac(c, cur, head, body)) ==>
              Open(c, Inbox(head + tag1 + (body + tag2 + rest), cur)).1 == Failed(BadFrameMac)
  {
    hide Crypt, MacSeed, Tag, ParseContent, ReadInt24;
    var tail := body + tag2 + rest;
    Slices(head, tag1, tail);
    assert tail[..|body|] == body && tail[|body|..][..16] == tag2;
  }

  // ---------- Different bytes under the same tags ----------

  lemma XorBlockInjective(k: Block, a: Block, b: Block)
    requires XorBlock(k, a) == XorBlock(k, b)
    ensures a == b
  {
    forall i | 0 <= i < 16 ensures a[i] == b[i] {
      assert XorByte(k[i], a[i]) == XorBlock(k, a)[i] == XorBlock(k, b)[i] == XorByte(k[i], b[i]);
      XorByteInjective(k[i], a[i], b[i]);
    }
  }

  lemma XorByteInjective(k: byte, a: byte, b: byte)
    requires XorByte(k, a) == XorByte(k, b)
    ensures a == b
  {
    XorComm(k, a);
    XorComm(k, b);
    XorCancel(a, k);
    XorCancel(b, k);
  }

  /** Another header gives another hash input. */
  lemma HeadMacInjective(c: Crypto, cur: Cursor, head: Block, head': Block)
    requires head != head'
    ensures HeadMac(c, cur, head) != HeadMac(c, cur, head')
  {
    hide XorBlock;
    var k := c.encryptBlock(c.keccak(cur.mac)[..16]);
    if XorBlock(k, head) == XorBlock(k, head') {
      XorBlockInjective(k, head, head');
    }
    var a, b := HeadMac(c, cur, head), HeadMac(c, cur, head');
    assert a[|cur.mac|..] == XorBlock(k, head) && b[|cur.mac|..] == XorBlock(k, head');
  }

  /** And so does another body. */
  lemma FrameMacInjective(c: Crypto, cur: Cursor, head: Block, body: seq<byte>, body': seq<byte>)
    requires body != body' && |body| == |body'|
    ensures FrameMac(c, cur, head, body) != FrameMac(c, cur, head, body')
  {
    hide MacSeed, Tag;
    var n := |HeadMac(c, cur, head)|;
    assert FrameMac(c, cur, head, body)[n..n + |body|] == body;
    assert FrameMac(c, cur, head, body')[n..n + |body|] == body';
  }

  /** The hash inputs for the two tags of a frame of n bytes, as whoever holds the MAC state computes them. */
  function HeadInput(c: Crypto, cur: Cursor, frame: seq<byte>): seq<byte>
    requires |frame| >= 48
  {
    HeadMac(c, cur, frame[..16])
  }

  function FrameInput(c: Crypto, cur: Cursor, frame: seq<byte>): seq<byte>
    requires |frame| >= 48
  {
    FrameMac(c, cur, frame[..16], frame[32..|frame| - 16])
  }

  /** Tampering: bytes that differ from a sealed frame but carry its two tags are read only if the hash input of one of
      those tags and the one the writer had there collide. A frame that differs in its tags alone is never read. */
  lemma TamperedIsRefused(c: Crypto, cur: Cursor, m: Msg, forged: seq<byte>, rest: seq<byte>)
    requires Frames.Fits(m) && |forged| == |Wire(c, cur, m)| && forged != Wire(c, cur, m)
    ensures |forged| >= 48
    ensures var n, sealed := |forged|, Wire(c, cur, m);
            forged[16..32] == sealed[16..32] && forged[n - 16..] == sealed[n - 16..] && Open(c, Inbox(forged + rest, cur)).1.Got?
            ==> Collide(c, HeadInput(c, cur, forged), HeadInput(c, cur, sealed))
                || Collide(c, FrameInput(c, cur, forged), FrameInput(c, cur, sealed))
    ensures var n, sealed := |forged|, Wire(c, cur, m);
            forged[..16] == sealed[..16] && forged[32..n - 16] == sealed[32..n - 16]
            ==> Open(c, Inbox(forged + rest, cur)).1.Failed?
  {
    var head, body := SealedParts(c, cur, m);
    FramedSlices(c, cur, head, body);
    if Open(c, Inbox(forged + rest, cur)).1.Got? {
      var head', body', rest' := ReadIsFramed(c, cur, forged + rest);
      hide Open, Wire, SizeIn, FrameMac, HeadMac, Tag;
      TwoFramed(c, cur, head, body, head', body', forged, rest, rest');
    }
  }

  /** A sealed message is such a frame. */
  lemma SealedParts(c: Crypto, cur: Cursor, m: Msg) returns (head: Block, body: seq<byte>)
    requires Frames.Fits(m)
    ensures Wire(c, cur, m) == Framed(c, cur, head, body) && |body| == RoundUp16(SizeIn(c, cur, head))
  {
    hide MacSeed, Tag, Header, EncodeCode, ReadInt24, Crypt;
    var content := EncodeCode(m.code) + m.payload;
    var fsize := |content|;
    assert FrameSize(m.code, |m.payload|) == fsize;
    head := Crypt(c, cur.pos, Header(fsize));
    body := Crypt(c, cur.pos + 16, content + Padding(fsize));
    CryptTwice(c, cur.pos, Header(fsize));
    Int24RoundTrip(fsize);
    assert SizeIn(c, cur, head) == fsize;
    PaddedSize(content);
  }

  lemma PaddedSize(content: seq<byte>)
    ensures |content + Padding(|content|)| == RoundUp16(|content|)
  {
  }

  lemma FramedSlices(c: Crypto, cur: Cursor, head: Block, body: seq<byte>)
    ensures var s := Framed(c, cur, head, body); var n := |s|;
            && n == 48 + |body| && s[..16] == head && s[16..32] == Tag(c, HeadMac(c, cur, head))
            && s[32..n - 16] == body && s[n - 16..] == Tag(c, FrameMac(c, cur, head, body))
  {
    hide Tag, HeadMac, FrameMac;
  }

  lemma TwoFramed(
    c: Crypto, cur: Cursor, head: Block, body: seq<byte>, head': Block, body': seq<byte>,
    forged: seq<byte>, rest: seq<byte>, rest': seq<byte>)
    requires |body| == RoundUp16(SizeIn(c, cur, head)) && |body'| == RoundUp16(SizeIn(c, cur, head'))
    requires forged + rest == Framed(c, cur, head', body') + rest'
    requires |forged| == |Framed(c, cur, head, body)| && forged != Framed(c, cur, head, body)
    ensures |forged| >= 48 && |Framed(c, cur, head, body)| >= 48
    ensures var n, sealed := |forged|, Framed(c, cur, head, body);
            forged[16..32] == sealed[16..32] && forged[n - 16..] == sealed[n - 16..]
            ==> Collide(c, HeadInput(c, cur, forged), HeadInput(c, cur, sealed))
                || Collide(c, FrameInput(c, cur, forged), FrameInput(c, cur, sealed))
    ensures var n, sealed := |forged|, Framed(c, cur, head, body);
            !(forged[..16] == sealed[..16] && forged[32..n - 16] == sealed[32..n - 16])
  {
    hide Tag, HeadMac, FrameMac, SizeIn, Framed;
    FramedSlices(c, cur, head, body);
    FramedSlices(c, cur, head', body');
    var n, sealed, other := |forged|, Framed(c, cur, head, body), Framed(c, cur, head', body');
    assert forged[..16] == (forged + rest)[..16] == (other + rest')[..16] == other[..16] == head';
    assert forged[16..32] == (forged + rest)[16..32] == (other + rest')[16..32] == other[16..32];
    if head' == head {
      assert forged == (forged + rest)[..n] == (other + rest')[..n] == other;
      if body' != body {
        FrameMacInjective(c, cur, head, body, body');
      }
    } else {
      HeadMacInjective(c, cur, head, head');
    }
  }

  // ---------- Frames out of place ----------

  /** A frame is read only in its place: with another MAC state, be it earlier, later or of another connection, or
      with another MAC key, its header passes only if the reader's hash input and the writer's collide. */
  lemma OutOfPlaceIsRefused(c: Crypto, cur: Cursor, c': Crypto, cur': Cursor, m: Msg, rest: seq<byte>)
    requires Frames.Fits(m) && c'.keccak == c.keccak
    requires cur'.mac != cur.mac || c'.encryptBlock(Tag(c, cur.mac)) != c.encryptBlock(Tag(c, cur.mac))
    ensures |Wire(c, cur, m)| >= 48
    ensures Open(c', Inbox(Wire(c, cur, m) + rest, cur')).1 == Failed(BadHeaderMac)
            || Collide(c, HeadInput(c', cur', Wire(c, cur, m)), HeadInput(c, cur, Wire(c, cur, m)))
  {
    var head, body := SealedParts(c, cur, m);
    FramedSlices(c, cur, head, body);
    var sealed := Wire(c, cur, m);
    var a, b := HeadMac(c, cur, head), HeadMac(c', cur', head);
    assert (sealed + rest)[..16] == head && (sealed + rest)[16..32] == Tag(c, a);
    ForeignHeadMac(c, cur, c', cur', head);
    assert Tag(c', b) == Tag(c, b);
    hide Wire, Framed, Tag, HeadMac, FrameMac, Crypt, OpenBody;
  }

  lemma ForeignHeadMac(c: Crypto, cur: Cursor, c': Crypto, cur': Cursor, head: Block)
    requires c'.keccak == c.keccak
    requires cur'.mac != cur.mac || c'.encryptBlock(Tag(c, cur.mac)) != c.encryptBlock(Tag(c, cur.mac))
    ensures HeadMac(c, cur, head) != HeadMac(c', cur', head)
  {
    hide XorBlock;
    var a, b := HeadMac(c, cur, head), HeadMac(c', cur', head);
    assert a[..|a| - 16] == cur.mac && b[..|b| - 16] == cur'.mac;
    if cur'.mac == cur.mac {
      var k, k' := c.encryptBlock(Tag(c, cur.mac)), c'.encryptBlock(Tag(c, cur.mac));
      assert a[|a| - 16..] == XorBlock(k, head) && b[|b| - 16..] == XorBlock(k', head);
      if XorBlock(k, head) == XorBlock(k', head) {
        XorBlockComm(k, head);
        XorBlockComm(k', head);
        XorBlockInjective(head, k, k');
      }
    }
  }

  lemma XorBlockComm(a: Block, b: Block)
    ensures XorBlock(a, b) == XorBlock(b, a)
  {
    forall i | 0 <= i < 16 ensures XorByte(a[i], b[i]) == XorByte(b[i], a[i]) {
      XorComm(a[i], b[i]);
    }
  }
}
