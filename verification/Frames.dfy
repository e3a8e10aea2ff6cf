/** RLPx frames: encrypted, authenticated, with a key stream and two MAC hashes that run on
    from frame to frame (net/rlpx/p2p/rlpx.go).

    The cryptographic primitives are arbitrary functions: a hash is the bytes absorbed so far
    and a digest function, a CTR cipher is a key stream indexed by position. */
module Frames {
  import opened Words
  import opened Bits

  type Block = s: seq<byte> | |s| == 16 witness seq(16, _ => 0)
  type Digest = s: seq<byte> | |s| == 32 witness seq(32, _ => 0)

  datatype Crypto = Crypto(
    keystream: nat -> byte,
    keccak: seq<byte> -> Digest,
    encryptBlock: Block -> Block)

  type Code = Word

  /** One direction of a connection: key stream position and MAC hash state. */
  datatype Cursor = Cursor(pos: nat, mac: seq<byte>)

  /** A message: a 64-bit code and a payload. */
  datatype Msg = Msg(code: Code, payload: seq<byte>)

  datatype ReadError = ShortRead | BadHeaderMac | BadFrameMac | BadCode
  datatype ReadResult = Got(msg: Msg) | Failed(err: ReadError)

  /** The reading side: bytes not yet consumed and the cursor. */
  datatype Inbox = Inbox(input: seq<byte>, cur: Cursor)

  const MAX_UINT24 := 0xFFFFFF

  // ---------- Message codes (RLP of an unsigned integer) ----------

  function BigEndian(n: nat): seq<byte> {
    if n == 0 then [] else BigEndian(n / 256) + [n % 256]
  }

  function FromBigEndian(s: seq<byte>): nat {
    if s == [] then 0 else FromBigEndian(s[..|s| - 1]) * 256 + s[|s| - 1]
  }

  function EncodeCode(code: Code): (r: seq<byte>)
    ensures 1 <= |r| <= 9
    ensures 0x80 <= code < 0x100 ==> |r| == 2
  {
    Pow2Words();
    BigEndianLength(code, 8);
    if code == 0 then [0x80]
    else if code < 0x80 then [code]
    else
      assert code < 0x100 ==> BigEndian(code) == [code];
      [0x80 + |BigEndian(code)|] + BigEndian(code)
  }

  /** The decoded integer and the number of bytes it took; only canonical forms are accepted. */
  datatype CodeResult = HasCode(code: Code, used: nat) | NoCode

  function DecodeCode(s: seq<byte>): (r: CodeResult)
    ensures r.HasCode? ==> 1 <= r.used <= |s|
  {
    if s == [] || s[0] == 0 || s[0] > 0x88 then NoCode
    else if s[0] < 0x80 then HasCode(s[0], 1)
    else if s[0] == 0x80 then HasCode(0, 1)
    else
      var size := s[0] - 0x80;
      if |s| < 1 + size || s[1] == 0 || (size == 1 && s[1] < 0x80) then NoCode
      else
        Pow2Words();
        FromBigEndianBound(s[1..1 + size], 8);
        HasCode(FromBigEndian(s[1..1 + size]), 1 + size)
  }

  lemma {:induction false} BigEndianLength(n: nat, k: nat)
    requires n < Pow2(8 * k)
    ensures |BigEndian(n)| <= k
    ensures n > 0 ==> |BigEndian(n)| > 0 && BigEndian(n)[0] != 0
    decreases k
  {
    if n > 0 {
      Pow2Eight();
      Pow2Add(8, 8 * (k - 1));
      BigEndianLength(n / 256, k - 1);
    }
  }

  lemma {:induction false} FromBigEndianBound(s: seq<byte>, k: nat)
    requires |s| <= k
    ensures FromBigEndian(s) < Pow2(8 * k)
    decreases k
  {
    if |s| > 0 {
      Pow2Eight();
      Pow2Add(8, 8 * (k - 1));
      FromBigEndianBound(s[..|s| - 1], k - 1);
    }
  }

  lemma {:induction false} BigEndianRoundTrip(n: nat)
    ensures FromBigEndian(BigEndian(n)) == n
  {
    if n > 0 {
      BigEndianRoundTrip(n / 256);
      assert BigEndian(n)[..|BigEndian(n)| - 1] == BigEndian(n / 256);
    }
  }

  /** A message code survives encoding, whatever follows it. */
  lemma CodeRoundTrip(code: Code, rest: seq<byte>)
    ensures DecodeCode(EncodeCode(code) + rest) == HasCode(code, |EncodeCode(code)|)
  {
    var e := EncodeCode(code);
    var s := e + rest;
    if code >= 0x80 {
      var digits := BigEndian(code);
      Pow2Words();
      BigEndianLength(code, 8);
      BigEndianRoundTrip(code);
      assert s[1..1 + |digits|] == digits;
      assert s[1] == digits[0];
      if |digits| == 1 {
        assert digits == BigEndian(code / 256) + [code % 256];
        assert code / 256 == 0;
      }
    }
  }

  // ---------- MAC and cipher ----------

  function XorBlock(a: Block, b: Block): Block {
    seq(16, i requires 0 <= i < 16 => XorByte(a[i], b[i]))
  }

  /** What updateMAC absorbs: the encrypted digest, combined with the seed. */
  function MacSeed(c: Crypto, mac: seq<byte>, seed: Block): Block {
    XorBlock(c.encryptBlock(c.keccak(mac)[..16]), seed)
  }

  function Tag(c: Crypto, mac: seq<byte>): Block {
    c.keccak(mac)[..16]
  }

  function Crypt(c: Crypto, pos: nat, data: seq<byte>): (r: seq<byte>)
    ensures |r| == |data|
  {
    seq(|data|, i requires 0 <= i < |data| => XorByte(data[i], c.keystream(pos + i)))
  }

  lemma CryptTwice(c: Crypto, pos: nat, data: seq<byte>)
    ensures Crypt(c, pos, Crypt(c, pos, data)) == data
  {
    forall i | 0 <= i < |data| ensures Crypt(c, pos, Crypt(c, pos, data))[i] == data[i] {
      XorCancel(data[i], c.keystream(pos + i));
    }
  }

  lemma CryptConcat(c: Crypto, pos: nat, a: seq<byte>, b: seq<byte>)
    ensures Crypt(c, pos, a + b) == Crypt(c, pos, a) + Crypt(c, pos + |a|, b)
  {
  }

  // ---------- One frame ----------

  function PutInt24(v: nat): (r: seq<byte>)
    ensures |r| == 3
  {
    [v / 0x10000 % 256, v / 0x100 % 256, v % 256]
  }

  function ReadInt24(b: seq<byte>): nat
    requires |b| >= 3
  {
    var hi: nat, mid: nat, lo: nat := b[0], b[1], b[2];
    lo + mid * 0x100 + hi * 0x10000
  }

  function Zeros(n: nat): (r: seq<byte>)
    ensures |r| == n
  {
    seq(n, _ => 0)
  }

  function Header(fsize: nat): Block {
    PutInt24(fsize) + [0xC2, 0x80, 0x80] + Zeros(10)
  }

  /** The zero bytes that fill a frame up to a multiple of sixteen. */
  function Padding(fsize: nat): seq<byte> {
    if fsize % 16 > 0 then Zeros(16 - fsize % 16) else []
  }

  /** The wire form of a frame with the given content and announced size, and the cursor after it. */
  function Seal(c: Crypto, cur: Cursor, content: seq<byte>, fsize: nat): (seq<byte>, Cursor) {
    var head := Crypt(c, cur.pos, Header(fsize));
    var mac1 := cur.mac + MacSeed(c, cur.mac, head);
    var body := Crypt(c, cur.pos + 16, content + Padding(fsize));
    var mac2 := mac1 + body;
    var mac3 := mac2 + MacSeed(c, mac2, Tag(c, mac2));
    (head + Tag(c, mac1) + body + Tag(c, mac3), Cursor(cur.pos + 16 + |body|, mac3))
  }

  /** The size written into the header: 32-bit arithmetic on the claimed payload size. */
  function FrameSize(code: Code, size: nat): nat {
    (|EncodeCode(code)| + size) % TWO_TO_32
  }

  /** A message whose frame size really is below 2^24. */
  ghost predicate Fits(m: Msg) {
    |EncodeCode(m.code)| + |m.payload| <= MAX_UINT24
  }

  function Wire(c: Crypto, cur: Cursor, m: Msg): seq<byte> {
    Seal(c, cur, EncodeCode(m.code) + m.payload, FrameSize(m.code, |m.payload|)).0
  }

  function After(c: Crypto, cur: Cursor, m: Msg): Cursor {
    Seal(c, cur, EncodeCode(m.code) + m.payload, FrameSize(m.code, |m.payload|)).1
  }

  function RoundUp16(n: nat): nat {
    if n % 16 > 0 then n + 16 - n % 16 else n
  }

  /** ReadMsg: every check in the program's order, and the state it leaves behind. */
  function Open(c: Crypto, ib: Inbox): (Inbox, ReadResult) {
    if |ib.input| < 32 then (Inbox([], ib.cur), Failed(ShortRead))
    else
      var head, rest := ib.input[..16], ib.input[32..];
      var mac1 := ib.cur.mac + MacSeed(c, ib.cur.mac, head);
      if Tag(c, mac1) != ib.input[16..32] then
        (Inbox(rest, ib.cur.(mac := mac1)), Failed(BadHeaderMac))
      else
        OpenBody(c, Inbox(rest, Cursor(ib.cur.pos + 16, mac1)), ReadInt24(Crypt(c, ib.cur.pos, head)))
  }

  function OpenBody(c: Crypto, ib: Inbox, fsize: nat): (Inbox, ReadResult) {
    var rsize := RoundUp16(fsize);
    if |ib.input| < rsize then (Inbox([], ib.cur), Failed(ShortRead))
    else
      var frame, rest := ib.input[..rsize], ib.input[rsize..];
      var mac2 := ib.cur.mac + frame;
      if |rest| < 16 then (Inbox([], ib.cur.(mac := mac2)), Failed(ShortRead))
      else
        var mac3 := mac2 + MacSeed(c, mac2, Tag(c, mac2));
        if Tag(c, mac3) != rest[..16] then
          (Inbox(rest[16..], ib.cur.(mac := mac3)), Failed(BadFrameMac))
        else
          var content := Crypt(c, ib.cur.pos, frame)[..fsize];
          (Inbox(rest[16..], Cursor(ib.cur.pos + rsize, mac3)), ParseContent(content))
  }

  function ParseContent(content: seq<byte>): ReadResult {
    var r := DecodeCode(content);
    if r.NoCode? then Failed(BadCode) else Got(Msg(r.code, content[r.used..]))
  }

  lemma Int24RoundTrip(v: nat)
    requires v <= MAX_UINT24
    ensures ReadInt24(Header(v)) == v
  {
  }

  /** Opening a sealed frame: every MAC matches and the reader's cursor follows the writer's. */
  lemma OpenSealed(c: Crypto, cur: Cursor, content: seq<byte>, rest: seq<byte>)
    requires |content| <= MAX_UINT24
    ensures var (wire, cur') := Seal(c, cur, content, |content|);
            Open(c, Inbox(wire + rest, cur)) == (Inbox(rest, cur'), ParseContent(content))
  {
    hide Open, OpenBody, Crypt, MacSeed, Tag, Header, Padding, ParseContent;
    var (wire, cur') := Seal(c, cur, content, |content|);
    var head: Block := Crypt(c, cur.pos, Header(|content|));
    var mac1 := cur.mac + MacSeed(c, cur.mac, head);
    var body := Crypt(c, cur.pos + 16, content + Padding(|content|));
    var tail := body + Tag(c, cur'.mac) + rest;
    assert wire + rest == head + Tag(c, mac1) + tail;
    OpenHead(c, cur, |content|, tail);
    OpenSealedBody(c, Cursor(cur.pos + 16, mac1), content, rest);
  }

  lemma OpenHead(c: Crypto, cur: Cursor, fsize: nat, tail: seq<byte>)
    requires fsize <= MAX_UINT24
    ensures var head := Crypt(c, cur.pos, Header(fsize));
            var mac1 := cur.mac + MacSeed(c, cur.mac, head);
            Open(c, Inbox(head + Tag(c, mac1) + tail, cur))
            == OpenBody(c, Inbox(tail, Cursor(cur.pos + 16, mac1)), fsize)
  {
    var head: Block := Crypt(c, cur.pos, Header(fsize));
    var mac1 := cur.mac + MacSeed(c, cur.mac, head);
    Slices(head, Tag(c, mac1), tail);
    CryptTwice(c, cur.pos, Header(fsize));
    Int24RoundTrip(fsize);
  }

  lemma Slices(a: Block, b: Block, tail: seq<byte>)
    ensures var s := a + b + tail;
            s[..16] == a && s[16..32] == b && s[32..] == tail && |s| >= 32
  {
  }

  lemma OpenSealedBody(c: Crypto, cur: Cursor, content: seq<byte>, rest: seq<byte>)
    ensures var body := Crypt(c, cur.pos, content + Padding(|content|));
            var mac2 := cur.mac + body;
            var mac3 := mac2 + MacSeed(c, mac2, Tag(c, mac2));
            OpenBody(c, Inbox(body + Tag(c, mac3) + rest, cur), |content|)
            == (Inbox(rest, Cursor(cur.pos + |body|, mac3)), ParseContent(content))
  {
    var padded := content + Padding(|content|);
    var body := Crypt(c, cur.pos, padded);
    var mac2 := cur.mac + body;
    var mac3 := mac2 + MacSeed(c, mac2, Tag(c, mac2));
    var input := body + Tag(c, mac3) + rest;
    assert |body| == RoundUp16(|content|);
    assert input[..|body|] == body;
    assert input[|body|..][..16] == Tag(c, mac3);
    assert input[|body|..][16..] == rest;
    CryptTwice(c, cur.pos, padded);
    assert padded[..|content|] == content;
  }

  /** One message: what the reader gets back and where both cursors stand. */
  lemma FrameRoundTrip(c: Crypto, cur: Cursor, m: Msg, rest: seq<byte>)
    requires Fits(m)
    ensures Open(c, Inbox(Wire(c, cur, m) + rest, cur)) == (Inbox(rest, After(c, cur, m)), Got(m))
  {
    hide Open, Seal, EncodeCode, DecodeCode;
    var content := EncodeCode(m.code) + m.payload;
    CodeRoundTrip(m.code, m.payload);
    OpenSealed(c, cur, content, rest);
    assert content[|EncodeCode(m.code)|..] == m.payload;
  }

  /** WriteMsg accepts a message when the size in the header passes the 24-bit check. The 32-bit
      addition may wrap: an accepted message comes back exactly when it did not. */
  lemma FrameRoundTripIff(c: Crypto, cur: Cursor, m: Msg, rest: seq<byte>)
    requires |m.payload| < TWO_TO_32
    requires FrameSize(m.code, |m.payload|) <= MAX_UINT24
    ensures Open(c, Inbox(Wire(c, cur, m) + rest, cur)) == (Inbox(rest, After(c, cur, m)), Got(m))
            <==> |EncodeCode(m.code)| + |m.payload| < TWO_TO_32
  {
    if |EncodeCode(m.code)| + |m.payload| < TWO_TO_32 {
      FrameRoundTrip(c, cur, m, rest);
    } else {
      var fsize := FrameSize(m.code, |m.payload|);
      assert fsize < |m.payload|;
      var input := Wire(c, cur, m) + rest;
      var head := Crypt(c, cur.pos, Header(fsize));
      assert input[..16] == head;
      CryptTwice(c, cur.pos, Header(fsize));
      Int24RoundTrip(fsize);
      assert ReadInt24(Crypt(c, cur.pos, head)) == fsize;
      if Open(c, Inbox(input, cur)).1.Got? {
        assert |Open(c, Inbox(input, cur)).1.msg.payload| < |m.payload|;
      }
    }
  }

  /** A message that is lost: 2^32 - 1 bytes of payload and a one-byte code are announced as nothing. */
  lemma WrappedFrameIsLost(c: Crypto, cur: Cursor, rest: seq<byte>, m: Msg)
    requires m == Msg(0, Zeros(TWO_TO_32 - 1))
    ensures FrameSize(m.code, |m.payload|) == 0 <= MAX_UINT24
    ensures Open(c, Inbox(Wire(c, cur, m) + rest, cur)) != (Inbox(rest, After(c, cur, m)), Got(m))
  {
    assert |EncodeCode(0)| == 1;
    hide EncodeCode, Open, Wire, After;
    FrameRoundTripIff(c, cur, m, rest);
  }

  // ---------- Runs of frames ----------

  ghost predicate AllFit(ms: seq<Msg>) {
    forall i :: 0 <= i < |ms| ==> Fits(ms[i])
  }

  function WireAll(c: Crypto, cur: Cursor, ms: seq<Msg>): seq<byte>
    decreases |ms|
  {
    if |ms| == 0 then [] else Wire(c, cur, ms[0]) + WireAll(c, After(c, cur, ms[0]), ms[1..])
  }

  function AfterAll(c: Crypto, cur: Cursor, ms: seq<Msg>): Cursor
    decreases |ms|
  {
    if ms == [] then cur else AfterAll(c, After(c, cur, ms[0]), ms[1..])
  }

  /** The outcomes of n reads in a row. */
  function OpenAll(c: Crypto, ib: Inbox, n: nat): (Inbox, seq<ReadResult>)
    decreases n
  {
    if n == 0 then (ib, [])
    else
      var (ib1, r) := Open(c, ib);
      var (ib2, rs) := OpenAll(c, ib1, n - 1);
      (ib2, [r] + rs)
  }

  function Delivered(ms: seq<Msg>): (r: seq<ReadResult>)
    ensures |r| == |ms| && forall i :: 0 <= i < |r| ==> r[i] == Got(ms[i])
  {
    seq(|ms|, i requires 0 <= i < |ms| => Got(ms[i]))
  }

  /** Lockstep: after n writes and n reads from equal cursors no check has failed, the same
      messages have come out in order, and the reader's cursor is the writer's. */
  lemma {:induction false} Lockstep(c: Crypto, cur: Cursor, ms: seq<Msg>, rest: seq<byte>)
    requires AllFit(ms)
    ensures OpenAll(c, Inbox(WireAll(c, cur, ms) + rest, cur), |ms|)
            == (Inbox(rest, AfterAll(c, cur, ms)), Delivered(ms))
    decreases |ms|
  {
    hide Open, Wire, After;
    if ms == [] {
      assert WireAll(c, cur, ms) + rest == rest;
    } else {
      WireAllCons(c, cur, ms, rest);
      Lockstep(c, After(c, cur, ms[0]), ms[1..], rest);
      assert [Got(ms[0])] + Delivered(ms[1..]) == Delivered(ms);
    }
  }

  /** The first frame of a run, and the run after it. */
  lemma WireAllCons(c: Crypto, cur: Cursor, ms: seq<Msg>, rest: seq<byte>)
    requires |ms| > 0 && AllFit(ms)
    ensures WireAll(c, cur, ms) + rest
            == Wire(c, cur, ms[0]) + (WireAll(c, After(c, cur, ms[0]), ms[1..]) + rest)
    ensures AfterAll(c, cur, ms) == AfterAll(c, After(c, cur, ms[0]), ms[1..])
    ensures Open(c, Inbox(WireAll(c, cur, ms) + rest, cur))
            == (Inbox(WireAll(c, After(c, cur, ms[0]), ms[1..]) + rest, After(c, cur, ms[0])), Got(ms[0]))
  {
    hide Open, Wire, After;
    FrameRoundTrip(c, cur, ms[0], WireAll(c, After(c, cur, ms[0]), ms[1..]) + rest);
  }

  lemma {:induction false} WireAllConcat(c: Crypto, cur: Cursor, a: seq<Msg>, b: seq<Msg>)
    ensures WireAll(c, cur, a + b) == WireAll(c, cur, a) + WireAll(c, AfterAll(c, cur, a), b)
    ensures AfterAll(c, cur, a + b) == AfterAll(c, AfterAll(c, cur, a), b)
    decreases |a|
  {
    hide Wire, After;
    if a == [] {
      assert a + b == b;
    } else {
      assert (a + b)[1..] == a[1..] + b;
      WireAllConcat(c, After(c, cur, a[0]), a[1..], b);
    }
  }

  // ---------- The frame reader and writer ----------

  class FrameRW {
    const crypto: Crypto
    var encPos: nat
    var egressMac: seq<byte>
    var decPos: nat
    var ingressMac: seq<byte>
    /** Bytes written to the connection so far, and bytes that have arrived and are not yet read. */
    var sent: seq<byte>
    var arrived: seq<byte>

    constructor (crypto: Crypto, egress: seq<byte>, ingress: seq<byte>)
      ensures this.crypto == crypto && sent == [] && arrived == []
      ensures Writer() == Cursor(0, egress) && Reader() == Inbox([], Cursor(0, ingress))
    {
      this.crypto := crypto;
      encPos, decPos := 0, 0;
      egressMac, ingressMac := egress, ingress;
      sent, arrived := [], [];
    }

    ghost function Writer(): Cursor reads this { Cursor(encPos, egressMac) }
    ghost function Reader(): Inbox reads this { Inbox(arrived, Cursor(decPos, ingressMac)) }

    /** XORKeyStream followed by a write to the connection and the egress hash. */
    method Tee(data: seq<byte>)
      modifies this`encPos, this`egressMac, this`sent
      ensures encPos == old(encPos) + |data|
      ensures egressMac == old(egressMac) + Crypt(crypto, old(encPos), data)
      ensures sent == old(sent) + Crypt(crypto, old(encPos), data)
    {
      var out := [];
      for i := 0 to |data|
        invariant out == Crypt(crypto, encPos, data)[..i]
      {
        out := out + [XorByte(data[i], crypto.keystream(encPos + i))];
      }
      encPos, egressMac, sent := encPos + |data|, egressMac + out, sent + out;
    }

    /** updateMAC on a hash state: the reseeded state and the first sixteen bytes of its sum. */
    static method UpdateMac(c: Crypto, mac: seq<byte>, seed: Block) returns (mac': seq<byte>, tag: Block)
      ensures mac' == mac + MacSeed(c, mac, seed) && tag == Tag(c, mac')
    {
      var aesbuf := c.encryptBlock(c.keccak(mac)[..16]);
      ghost var start := aesbuf;
      for i := 0 to 16
        invariant |aesbuf| == 16
        invariant aesbuf == MacSeed(c, mac, seed)[..i] + start[i..]
      {
        aesbuf := aesbuf[i := XorByte(aesbuf[i], seed[i])];
      }
      mac' := mac + aesbuf;
      tag := c.keccak(mac')[..16];
    }

    /** WriteMsg with snappy off. `size` is the message's Size field. */
    method WriteMsg(code: Code, size: nat, payload: seq<byte>) returns (ok: bool)
      requires size < TWO_TO_32
      modifies this`encPos, this`egressMac, this`sent
      ensures ok == (FrameSize(code, size) <= MAX_UINT24)
      ensures !ok ==> sent == old(sent) && Writer() == old(Writer())
      ensures ok ==> var (wire, cur) := Seal(crypto, old(Writer()), EncodeCode(code) + payload, FrameSize(code, size));
                     sent == old(sent) + wire && Writer() == cur
    {
      hide Crypt, MacSeed, Header, EncodeCode, Zeros;
      var ptype := EncodeCode(code);
      var fsize := (|ptype| + size) % TWO_TO_32;
      if fsize > MAX_UINT24 {
        return false;
      }
      var head := Crypt(crypto, encPos, Header(fsize));
      encPos := encPos + 16;
      var tag: Block;
      egressMac, tag := UpdateMac(crypto, egressMac, head);
      sent := sent + head + tag;
      WriteBody(ptype, payload, fsize);
      return true;
    }

    /** The second half of WriteMsg: the encrypted content with its padding, then the frame MAC. */
    method WriteBody(ptype: seq<byte>, payload: seq<byte>, fsize: nat)
      modifies this`encPos, this`egressMac, this`sent
      ensures var body := Crypt(crypto, old(encPos), ptype + payload + Padding(fsize));
              var mac2 := old(egressMac) + body;
              && encPos == old(encPos) + |body|
              && egressMac == mac2 + MacSeed(crypto, mac2, Tag(crypto, mac2))
              && sent == old(sent) + (body + Tag(crypto, egressMac))
    {
      hide Crypt, MacSeed, Zeros;
      Tee(ptype);
      Tee(payload);
      if fsize % 16 > 0 {
        Tee(Zeros(16 - fsize % 16));
      }
      ghost var body := Crypt(crypto, old(encPos), ptype + payload + Padding(fsize));
      assert egressMac == old(egressMac) + body && sent == old(sent) + body by {
        CryptConcat(crypto, old(encPos), ptype, payload);
        CryptConcat(crypto, old(encPos), ptype + payload, Padding(fsize));
      }
      var fmacseed := crypto.keccak(egressMac)[..16];
      var tag: Block;
      egressMac, tag := UpdateMac(crypto, egressMac, fmacseed);
      sent := sent + tag;
    }

    /** ReadMsg with snappy off. */
    method ReadMsg() returns (r: ReadResult)
      modifies this`decPos, this`ingressMac, this`arrived
      ensures (Reader(), r) == Open(crypto, old(Reader()))
    {
      hide Crypt, MacSeed, ReadInt24, OpenBody;
      if |arrived| < 32 {
        arrived := [];
        return Failed(ShortRead);
      }
      var head, theirs := arrived[..16], arrived[16..32];
      arrived := arrived[32..];
      var tag: Block;
      ingressMac, tag := UpdateMac(crypto, ingressMac, head);
      if tag != theirs {
        return Failed(BadHeaderMac);
      }
      var fsize := ReadInt24(Crypt(crypto, decPos, head));
      decPos := decPos + 16;
      r := ReadBody(fsize);
    }

    /** The second half of ReadMsg: the frame content, its MAC, and the message code in front. */
    method ReadBody(fsize: nat) returns (r: ReadResult)
      modifies this`decPos, this`ingressMac, this`arrived
      ensures (Reader(), r) == OpenBody(crypto, old(Reader()), fsize)
    {
      hide Crypt, MacSeed, DecodeCode;
      var rsize := fsize;
      if fsize % 16 > 0 {
        rsize := rsize + 16 - fsize % 16;
      }
      if |arrived| < rsize {
        arrived := [];
        return Failed(ShortRead);
      }
      var frame := arrived[..rsize];
      arrived := arrived[rsize..];
      ingressMac := ingressMac + frame;
      var fmacseed := crypto.keccak(ingressMac)[..16];
      if |arrived| < 16 {
        arrived := [];
        return Failed(ShortRead);
      }
      var theirs := arrived[..16];
      arrived := arrived[16..];
      var tag: Block;
      ingressMac, tag := UpdateMac(crypto, ingressMac, fmacseed);
      if tag != theirs {
        return Failed(BadFrameMac);
      }
      var content := Crypt(crypto, decPos, frame)[..fsize];
      decPos := decPos + rsize;
      var code := DecodeCode(content);
      if code.NoCode? {
        return Failed(BadCode);
      }
      return Got(Msg(code.code, content[code.used..]));
    }
  }
}
