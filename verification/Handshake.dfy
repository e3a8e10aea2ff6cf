/** The RLPx encryption handshake with EIP-8 packets (net/rlpx/p2p/rlpx.go).

    Keys are numbers and the primitives are arbitrary functions; Laws says what is assumed of them. */
module Handshake {
  import opened Wrappers
  import opened Bits
  import opened Codec
  import opened Frames

  type PubBytes = s: seq<byte> | |s| == 64 witness seq(64, _ => 0)
  type SigBytes = s: seq<byte> | |s| == 65 witness seq(65, _ => 0)

  /** Private and public keys are 256-bit numbers. */
  type Key = x: nat | x < Pow2(256) witness (assert Pow2(256) > 0; 0)

  datatype AuthMsg = AuthMsg(signature: SigBytes, initiatorPub: PubBytes, nonce: Digest)
  datatype AuthResp = AuthResp(randomPub: PubBytes, nonce: Digest)

  datatype Suite = Suite(
    pub: Key -> Key,
    ecdh: (Key, Key) -> Digest,
    keccak: seq<byte> -> Digest,
    encrypt: (Key, seq<byte>, seq<byte>, nat) -> seq<byte>,
    decrypt: (Key, seq<byte>, seq<byte>) -> Option<seq<byte>>,
    sign: (Digest, Key) -> SigBytes,
    recover: (Digest, SigBytes) -> Option<Key>,
    exportPub: Key -> PubBytes,
    importPub: PubBytes -> Option<Key>,
    encodeAuth: AuthMsg -> seq<byte>,
    decodeAuth: seq<byte> -> Option<AuthMsg>,
    encodeResp: AuthResp -> seq<byte>,
    decodeResp: seq<byte> -> Option<AuthResp>,
    ctr: Digest -> (nat -> byte),
    aes: Digest -> (Block -> Block))

  const ECIES_OVERHEAD := 65 + 16 + 32
  const AUTH_MSG_LEN := 65 + 32 + 64 + 32 + 1
  const AUTH_RESP_LEN := 64 + 32 + 1
  const ENC_AUTH_MSG_LEN := AUTH_MSG_LEN + ECIES_OVERHEAD
  const ENC_AUTH_RESP_LEN := AUTH_RESP_LEN + ECIES_OVERHEAD
  /** RLP adds at most this much to the fixed-size fields. */
  const RLP_MAX := 1000

  /** ECDH is commutative, ECIES decryption undoes encryption, public key recovery undoes signing,
      and RLP decoding undoes encoding and ignores what follows. */
  ghost predicate Laws(u: Suite) {
    && (forall a: Key, b: Key :: u.ecdh(a, u.pub(b)) == u.ecdh(b, u.pub(a)))
    && (forall k: Key, m, aux, r :: u.decrypt(k, u.encrypt(u.pub(k), m, aux, r), aux) == Some(m))
    && (forall k: Key, m, aux, r :: |u.encrypt(k, m, aux, r)| == |m| + ECIES_OVERHEAD)
    && (forall m: Digest, k: Key :: u.recover(m, u.sign(m, k)) == Some(u.pub(k)))
    && (forall p: Key :: u.importPub(u.exportPub(p)) == Some(p))
    && (forall m, pad :: u.decodeAuth(u.encodeAuth(m) + pad) == Some(m))
    && (forall m, pad :: u.decodeResp(u.encodeResp(m) + pad) == Some(m))
    && (forall m :: AUTH_MSG_LEN - 100 <= |u.encodeAuth(m)| <= RLP_MAX)
    && (forall m :: |u.encodeResp(m)| <= RLP_MAX)
  }

  // ---------- The assumptions are consistent ----------

  /** The first two bytes of a toy ciphertext name the associated data. */
  function ToyTag(aux: seq<byte>): (r: seq<byte>)
    ensures |r| == 2
  {
    if |aux| == 2 then aux else [0, 0]
  }

  function ToyKeyBytes(k: Key, n: nat): (r: seq<byte>)
    requires n >= 32
    ensures |r| == n
  {
    LittleEndian(k, 32) + Zeros(n - 32)
  }

  function ToyKey(s: seq<byte>): Key
    requires |s| >= 32
  {
    EncodeDecode(s[..32]);
    FromLittleEndian(s[..32])
  }

  /** A suite of transparent primitives. */
  function Toy(): Suite {
    Suite(
      (k: Key) => k,
      (a: Key, b: Key) => Zeros(32),
      (s: seq<byte>) => Zeros(32),
      (k: Key, m: seq<byte>, aux: seq<byte>, r: nat) => ToyTag(aux) + Zeros(ECIES_OVERHEAD - 2) + m,
      (k: Key, c: seq<byte>, aux: seq<byte>) =>
        if |c| >= ECIES_OVERHEAD && c[..2] == ToyTag(aux) then Some(c[ECIES_OVERHEAD..]) else None,
      (m: Digest, k: Key) => ToyKeyBytes(k, 65),
      (m: Digest, s: SigBytes) => Some(ToyKey(s)),
      (k: Key) => ToyKeyBytes(k, 64),
      (s: PubBytes) => Some(ToyKey(s)),
      (m: AuthMsg) => m.signature + m.initiatorPub + m.nonce,
      (s: seq<byte>) => if |s| >= 161 then Some(AuthMsg(s[..65], s[65..129], s[129..161])) else None,
      (m: AuthResp) => m.randomPub + m.nonce,
      (s: seq<byte>) => if |s| >= 96 then Some(AuthResp(s[..64], s[64..96])) else None,
      (k: Digest) => (i: nat) => 0,
      (k: Digest) => (b: Block) => b)
  }

  lemma ToyKeyRoundTrip(k: Key, n: nat)
    requires n >= 32
    ensures ToyKey(ToyKeyBytes(k, n)) == k
  {
    DecodeEncode(k, 32);
    hide LittleEndian, FromLittleEndian;
    assert ToyKeyBytes(k, n)[..32] == LittleEndian(k, 32);
  }

  /** The primitives never take a packet in the new format for one in the old: its length comes first. */
  lemma ToyNotPlain(key: Key, remote: Key, encoded: seq<byte>, rnd: Randoms, plainSize: nat)
    requires rnd.Valid() && |encoded| <= RLP_MAX && plainSize >= 2
    ensures NotPlain(Toy(), key, Seal8(Toy(), remote, encoded, rnd), plainSize)
  {
    var p := Seal8(Toy(), remote, encoded, rnd);
    var n := |encoded| + rnd.pad + ECIES_OVERHEAD;
    assert p[..2] == PutUint16(n) != [0, 0];
    if plainSize <= |p| {
      assert p[..plainSize][..2] == p[..2];
    }
  }

  /** Some primitives satisfy all the laws at once, and the hypotheses of Mirror for all keys and all
      randomness. */
  lemma LawsConsistent()
    ensures Laws(Toy())
    ensures forall key: Key, remote: Key, encoded, rnd: Randoms, plainSize: nat
              | rnd.Valid() && |encoded| <= RLP_MAX && plainSize >= 2 ::
              NotPlain(Toy(), key, Seal8(Toy(), remote, encoded, rnd), plainSize)
  {
    forall key: Key, remote: Key, encoded, rnd: Randoms, plainSize: nat
      | rnd.Valid() && |encoded| <= RLP_MAX && plainSize >= 2
      ensures NotPlain(Toy(), key, Seal8(Toy(), remote, encoded, rnd), plainSize)
    {
      ToyNotPlain(key, remote, encoded, rnd, plainSize);
    }
    var u := Toy();
    hide ToyKey, ToyKeyBytes, Pow2;
    forall k: Key, m: seq<byte>, aux: seq<byte>, r: nat
      ensures u.decrypt(k, u.encrypt(u.pub(k), m, aux, r), aux) == Some(m)
    {
      var c := ToyTag(aux) + Zeros(ECIES_OVERHEAD - 2) + m;
      assert u.encrypt(u.pub(k), m, aux, r) == c;
      assert c[..2] == ToyTag(aux) && c[ECIES_OVERHEAD..] == m;
    }
    forall m: Digest, k: Key ensures u.recover(m, u.sign(m, k)) == Some(u.pub(k)) {
      ToyKeyRoundTrip(k, 65);
    }
    forall p: Key ensures u.importPub(u.exportPub(p)) == Some(p) {
      ToyKeyRoundTrip(p, 64);
    }
    forall m: AuthMsg, pad: seq<byte> ensures u.decodeAuth(u.encodeAuth(m) + pad) == Some(m) {
      var s := m.signature + m.initiatorPub + m.nonce + pad;
      assert s[..65] == m.signature && s[65..129] == m.initiatorPub && s[129..161] == m.nonce;
    }
    forall m: AuthResp, pad: seq<byte> ensures u.decodeResp(u.encodeResp(m) + pad) == Some(m) {
      var s := m.randomPub + m.nonce + pad;
      assert s[..64] == m.randomPub && s[64..96] == m.nonce;
    }
  }

  /** The randomness one side draws: nonce, ephemeral key, padding length, encryption randomness. */
  datatype Randoms = Randoms(nonce: Digest, eph: Key, pad: nat, seed: nat) {
    predicate Valid() { 100 <= pad < 300 }
  }

  function XorDigest(a: Digest, b: Digest): Digest {
    seq(32, i requires 0 <= i < 32 => XorByte(a[i], b[i]))
  }

  function PutUint16(n: nat): (r: seq<byte>)
    ensures |r| == 2
  {
    [n / 256 % 256, n % 256]
  }

  function Uint16(b: seq<byte>): nat
    requires |b| == 2
  {
    var hi: nat, lo: nat := b[0], b[1];
    hi * 256 + lo
  }

  // ---------- Packets ----------

  /** sealEIP8: padding, a two-byte length, and the ciphertext bound to that length. */
  function Seal8(u: Suite, remote: Key, encoded: seq<byte>, rnd: Randoms): seq<byte> {
    var body := encoded + Zeros(rnd.pad);
    var prefix := PutUint16(|body| + ECIES_OVERHEAD);
    prefix + u.encrypt(remote, body, prefix, rnd.seed)
  }

  datatype PacketResult =
    | Packet(packet: seq<byte>, plaintext: seq<byte>, rest: seq<byte>)
    | PlainPacket(packet: seq<byte>, plaintext: seq<byte>, rest: seq<byte>)
    | Short | SizeUnderflow | DecryptFailed

  /** readHandshakeMsg up to the decoding of the plaintext. */
  function ReadPacket8(u: Suite, plainSize: nat, key: Key, stream: seq<byte>): PacketResult
    requires plainSize >= 2
  {
    if |stream| < plainSize then Short
    else
      var plain := u.decrypt(key, stream[..plainSize], []);
      if plain.Some? then PlainPacket(stream[..plainSize], plain.value, stream[plainSize..])
      else
        var prefix := stream[..2];
        var size := Uint16(prefix);
        if size < plainSize then SizeUnderflow
        else if |stream| < size + 2 then Short
        else
          var dec := u.decrypt(key, stream[2..size + 2], prefix);
          if dec.None? then DecryptFailed
          else Packet(stream[..size + 2], dec.value, stream[size + 2..])
  }

  /** A sealed packet is read back whole: exactly its bytes are consumed and returned. */
  lemma PacketRoundTrip(u: Suite, plainSize: nat, key: Key, encoded: seq<byte>, rnd: Randoms, rest: seq<byte>)
    requires Laws(u) && rnd.Valid() && 2 <= plainSize
    requires plainSize <= |encoded| + 100 + ECIES_OVERHEAD && |encoded| <= RLP_MAX
    requires var p := Seal8(u, u.pub(key), encoded, rnd);
             plainSize <= |p| ==> u.decrypt(key, p[..plainSize], []) == None
    ensures ReadPacket8(u, plainSize, key, Seal8(u, u.pub(key), encoded, rnd) + rest)
            == Packet(Seal8(u, u.pub(key), encoded, rnd), encoded + Zeros(rnd.pad), rest)
  {
    var body := encoded + Zeros(rnd.pad);
    var n := |body| + ECIES_OVERHEAD;
    var prefix := PutUint16(n);
    var enc := u.encrypt(u.pub(key), body, prefix, rnd.seed);
    var p := prefix + enc;
    var stream := p + rest;
    assert |enc| == n;
    assert Uint16(prefix) == n;
    assert stream[..plainSize] == p[..plainSize];
    assert stream[..2] == prefix && stream[2..n + 2] == enc && stream[..n + 2] == p && stream[n + 2..] == rest;
  }

  // ---------- The two sides ----------

  /** The state a side carries through the handshake. */
  datatype Hs = Hs(initiator: bool, remote: Key, initNonce: Digest, respNonce: Digest, eph: Key, remoteEph: Key)

  datatype Secrets = Secrets(remote: Key, aes: Digest, mac: Digest, egress: seq<byte>, ingress: seq<byte>)

  function DeriveSecrets(u: Suite, h: Hs, auth: seq<byte>, authResp: seq<byte>): Secrets {
    var ecdhe := u.ecdh(h.eph, h.remoteEph);
    var shared := u.keccak(ecdhe + u.keccak(h.respNonce + h.initNonce));
    var aes := u.keccak(ecdhe + shared);
    var mac := u.keccak(ecdhe + aes);
    var mac1 := XorDigest(mac, h.respNonce) + auth;
    var mac2 := XorDigest(mac, h.initNonce) + authResp;
    if h.initiator then Secrets(h.remote, aes, mac, mac1, mac2) else Secrets(h.remote, aes, mac, mac2, mac1)
  }

  /** makeAuthMsg: the ephemeral key signs the static shared secret combined with the nonce. */
  function MakeAuth(u: Suite, key: Key, remote: Key, rnd: Randoms): AuthMsg {
    var token := u.ecdh(key, remote);
    AuthMsg(u.sign(XorDigest(token, rnd.nonce), rnd.eph), u.exportPub(u.pub(key)), rnd.nonce)
  }

  function AuthPacket(u: Suite, key: Key, remote: Key, rnd: Randoms): seq<byte> {
    Seal8(u, remote, u.encodeAuth(MakeAuth(u, key, remote, rnd)), rnd)
  }

  datatype Reply = Reply(secrets: Secrets, packet: seq<byte>, rest: seq<byte>) | ReplyFailed

  /** receiverEncHandshake: reads the auth packet, answers, derives the secrets. */
  function Receive(u: Suite, key: Key, rnd: Randoms, stream: seq<byte>): Reply {
    var p := ReadPacket8(u, ENC_AUTH_MSG_LEN, key, stream);
    if !p.Packet? then ReplyFailed
    else
      var msg := u.decodeAuth(p.plaintext);
      if msg.None? then ReplyFailed else Answer(u, key, rnd, p.packet, msg.value, p.rest)
  }

  function Answer(u: Suite, key: Key, rnd: Randoms, auth: seq<byte>, msg: AuthMsg, rest: seq<byte>): Reply {
    var remote := u.importPub(msg.initiatorPub);
    if remote.None? then ReplyFailed
    else
      var token := u.ecdh(key, remote.value);
      var remoteEph := u.recover(XorDigest(token, msg.nonce), msg.signature);
      if remoteEph.None? then ReplyFailed
      else
        var resp := Seal8(u, remote.value, u.encodeResp(AuthResp(u.exportPub(u.pub(rnd.eph)), rnd.nonce)), rnd);
        var h := Hs(false, remote.value, msg.nonce, rnd.nonce, rnd.eph, remoteEph.value);
        Reply(DeriveSecrets(u, h, auth, resp), resp, rest)
  }

  datatype Finish = Finish(secrets: Secrets, rest: seq<byte>) | FinishFailed

  /** The second half of initiatorEncHandshake: reads the response, derives the secrets. */
  function Complete(u: Suite, key: Key, remote: Key, rnd: Randoms, auth: seq<byte>, stream: seq<byte>): Finish {
    var p := ReadPacket8(u, ENC_AUTH_RESP_LEN, key, stream);
    if !p.Packet? then FinishFailed
    else
      var msg := u.decodeResp(p.plaintext);
      if msg.None? then FinishFailed
      else
        var remoteEph := u.importPub(msg.value.randomPub);
        if remoteEph.None? then FinishFailed
        else
          var h := Hs(true, remote, rnd.nonce, msg.value.nonce, rnd.eph, remoteEph.value);
          Finish(DeriveSecrets(u, h, auth, p.packet), p.rest)
  }

  /** A packet in the new format whose first bytes do not happen to decrypt as the old format. */
  ghost predicate NotPlain(u: Suite, key: Key, packet: seq<byte>, plainSize: nat) {
    plainSize <= |packet| ==> u.decrypt(key, packet[..plainSize], []) == None
  }

  /** The receiver accepts the initiator's packet, learns who it is and what its ephemeral key is. */
  lemma ReceiverAccepts(u: Suite, ki: Key, kr: Key, ri: Randoms, rr: Randoms, rest: seq<byte>)
    requires Laws(u) && ri.Valid()
    requires NotPlain(u, kr, AuthPacket(u, ki, u.pub(kr), ri), ENC_AUTH_MSG_LEN)
    ensures var auth := AuthPacket(u, ki, u.pub(kr), ri);
            var resp := Seal8(u, u.pub(ki), u.encodeResp(AuthResp(u.exportPub(u.pub(rr.eph)), rr.nonce)), rr);
            Receive(u, kr, rr, auth + rest)
            == Reply(DeriveSecrets(u, Hs(false, u.pub(ki), ri.nonce, rr.nonce, rr.eph, u.pub(ri.eph)), auth, resp), resp, rest)
  {
    hide ReadPacket8, Seal8, DeriveSecrets;
    var msg := MakeAuth(u, ki, u.pub(kr), ri);
    PacketRoundTrip(u, ENC_AUTH_MSG_LEN, kr, u.encodeAuth(msg), ri, rest) by {
      assert AuthPacket(u, ki, u.pub(kr), ri) == Seal8(u, u.pub(kr), u.encodeAuth(msg), ri);
    }
    assert u.decodeAuth(u.encodeAuth(msg) + Zeros(ri.pad)) == Some(msg);
    assert u.importPub(u.exportPub(u.pub(ki))) == Some(u.pub(ki));
    assert u.ecdh(kr, u.pub(ki)) == u.ecdh(ki, u.pub(kr));
    var signed := XorDigest(u.ecdh(ki, u.pub(kr)), ri.nonce);
    assert u.recover(signed, u.sign(signed, ri.eph)) == Some(u.pub(ri.eph));
  }

  lemma InitiatorCompletes(u: Suite, ki: Key, kr: Key, ri: Randoms, rr: Randoms, rest: seq<byte>)
    requires Laws(u) && rr.Valid()
    requires NotPlain(u, ki, Seal8(u, u.pub(ki), u.encodeResp(AuthResp(u.exportPub(u.pub(rr.eph)), rr.nonce)), rr), ENC_AUTH_RESP_LEN)
    ensures var auth := AuthPacket(u, ki, u.pub(kr), ri);
            var resp := Seal8(u, u.pub(ki), u.encodeResp(AuthResp(u.exportPub(u.pub(rr.eph)), rr.nonce)), rr);
            Complete(u, ki, u.pub(kr), ri, auth, resp + rest)
            == Finish(DeriveSecrets(u, Hs(true, u.pub(kr), ri.nonce, rr.nonce, ri.eph, u.pub(rr.eph)), auth, resp), rest)
  {
    hide ReadPacket8, Seal8, DeriveSecrets, AuthPacket;
    var msg := AuthResp(u.exportPub(u.pub(rr.eph)), rr.nonce);
    PacketRoundTrip(u, ENC_AUTH_RESP_LEN, ki, u.encodeResp(msg), rr, rest);
    assert u.decodeResp(u.encodeResp(msg) + Zeros(rr.pad)) == Some(msg);
    assert u.importPub(msg.randomPub) == Some(u.pub(rr.eph));
  }

  /** Mirror: both sides finish, each names the other, they hold equal AES and MAC secrets, and each
      side's egress hash is the other's ingress hash. */
  lemma Mirror(u: Suite, ki: Key, kr: Key, ri: Randoms, rr: Randoms, after: seq<byte>, after': seq<byte>)
    requires Laws(u) && ri.Valid() && rr.Valid()
    requires NotPlain(u, kr, AuthPacket(u, ki, u.pub(kr), ri), ENC_AUTH_MSG_LEN)
    requires NotPlain(u, ki, Seal8(u, u.pub(ki), u.encodeResp(AuthResp(u.exportPub(u.pub(rr.eph)), rr.nonce)), rr), ENC_AUTH_RESP_LEN)
    ensures var auth := AuthPacket(u, ki, u.pub(kr), ri);
            var reply := Receive(u, kr, rr, auth + after);
            && reply.Reply? && reply.rest == after
            && var fin := Complete(u, ki, u.pub(kr), ri, auth, reply.packet + after');
               && fin.Finish? && fin.rest == after'
               && reply.secrets.remote == u.pub(ki) && fin.secrets.remote == u.pub(kr)
               && fin.secrets.aes == reply.secrets.aes && fin.secrets.mac == reply.secrets.mac
               && fin.secrets.egress == reply.secrets.ingress && fin.secrets.ingress == reply.secrets.egress
  {
    ReceiverAccepts(u, ki, kr, ri, rr, after);
    InitiatorCompletes(u, ki, kr, ri, rr, after');
    assert u.ecdh(ri.eph, u.pub(rr.eph)) == u.ecdh(rr.eph, u.pub(ri.eph));
    hide Receive, Complete, AuthPacket, Seal8, XorDigest, Laws;
  }

  // ---------- What equal secrets say ----------

  /** Two different inputs with one digest. */
  ghost predicate Collide(u: Suite, a: seq<byte>, b: seq<byte>) {
    a != b && u.keccak(a) == u.keccak(b)
  }

  function NonceInput(h: Hs): seq<byte> { h.respNonce + h.initNonce }

  function SharedInput(u: Suite, h: Hs): seq<byte> { u.ecdh(h.eph, h.remoteEph) + u.keccak(NonceInput(h)) }

  function AesInput(u: Suite, h: Hs): seq<byte> { u.ecdh(h.eph, h.remoteEph) + u.keccak(SharedInput(u, h)) }

  function MacInput(u: Suite, h: Hs): seq<byte> { u.ecdh(h.eph, h.remoteEph) + u.keccak(AesInput(u, h)) }

  /** Of the inputs hashed on the way to the two MAC secrets, two that stand in the same place collide. */
  ghost predicate Coincidence(u: Suite, h: Hs, h': Hs) {
    || Collide(u, MacInput(u, h), MacInput(u, h')) || Collide(u, AesInput(u, h), AesInput(u, h'))
    || Collide(u, SharedInput(u, h), SharedInput(u, h')) || Collide(u, NonceInput(h), NonceInput(h'))
  }

  lemma SplitAt32(a: seq<byte>, b: seq<byte>, a': seq<byte>, b': seq<byte>)
    requires |a| == |a'| && a + b == a' + b'
    ensures a == a' && b == b'
  {
    assert a == (a + b)[..|a|] && b == (a + b)[|a|..];
    assert a' == (a' + b')[..|a|] && b' == (a' + b')[|a|..];
  }

  /** Agreement: sides that hold one MAC secret share the ephemeral secret, both nonces and the AES secret, and if
      moreover what one sends with is what the other receives with, both authenticated the same two packets. The only
      other way is a collision of the hash on the very inputs of this handshake. */
  lemma Agreement(u: Suite, h: Hs, h': Hs, auth: seq<byte>, resp: seq<byte>, auth': seq<byte>, resp': seq<byte>)
    requires DeriveSecrets(u, h, auth, resp).mac == DeriveSecrets(u, h', auth', resp').mac && !Coincidence(u, h, h')
    ensures var s, s' := DeriveSecrets(u, h, auth, resp), DeriveSecrets(u, h', auth', resp');
            && u.ecdh(h.eph, h.remoteEph) == u.ecdh(h'.eph, h'.remoteEph)
            && h.initNonce == h'.initNonce && h.respNonce == h'.respNonce && s.aes == s'.aes
            && (h.initiator != h'.initiator ==>
                  (s.egress == s'.ingress && s.ingress == s'.egress <==> auth == auth' && resp == resp'))
  {
    var e, e' := u.ecdh(h.eph, h.remoteEph), u.ecdh(h'.eph, h'.remoteEph);
    assert MacInput(u, h) == MacInput(u, h');
    SplitAt32(e, u.keccak(AesInput(u, h)), e', u.keccak(AesInput(u, h')));
    assert AesInput(u, h) == AesInput(u, h');
    SplitAt32(e, u.keccak(SharedInput(u, h)), e', u.keccak(SharedInput(u, h')));
    assert SharedInput(u, h) == SharedInput(u, h');
    SplitAt32(e, u.keccak(NonceInput(h)), e', u.keccak(NonceInput(h')));
    SplitAt32(h.respNonce, h.initNonce, h'.respNonce, h'.initNonce);
    if h.initiator != h'.initiator {
      SamePackets(u, h, h', auth, resp, auth', resp');
    }
  }

  /** With the same nonces and MAC secret, the hash states tell the packets. */
  lemma SamePackets(u: Suite, h: Hs, h': Hs, auth: seq<byte>, resp: seq<byte>, auth': seq<byte>, resp': seq<byte>)
    requires h.initNonce == h'.initNonce && h.respNonce == h'.respNonce
    requires DeriveSecrets(u, h, auth, resp).mac == DeriveSecrets(u, h', auth', resp').mac && h.initiator != h'.initiator
    ensures var s, s' := DeriveSecrets(u, h, auth, resp), DeriveSecrets(u, h', auth', resp');
            s.egress == s'.ingress && s.ingress == s'.egress <==> auth == auth' && resp == resp'
  {
    var s, s' := DeriveSecrets(u, h, auth, resp), DeriveSecrets(u, h', auth', resp');
    var x, y := XorDigest(s.mac, h.respNonce), XorDigest(s.mac, h.initNonce);
    hide XorDigest;
    if s.egress == s'.ingress && s.ingress == s'.egress {
      SplitAt32(x, auth, x, auth');
      SplitAt32(y, resp, y, resp');
    }
  }

  // ---------- From secrets to frames ----------

  /** newRLPXFrameRW: both directions use one key stream, from position zero. */
  function FrameCrypto(u: Suite, s: Secrets): Crypto {
    Crypto(u.ctr(s.aes), u.keccak, u.aes(s.mac))
  }

  /** Between mirrored secrets what a writes b reads, in order. */
  lemma MirroredFrames(u: Suite, a: Secrets, b: Secrets, ms: seq<Msg>, rest: seq<byte>)
    requires a.aes == b.aes && a.mac == b.mac && a.egress == b.ingress && AllFit(ms)
    ensures var wire := WireAll(FrameCrypto(u, a), Cursor(0, a.egress), ms);
            var (ib, got) := OpenAll(FrameCrypto(u, b), Inbox(wire + rest, Cursor(0, b.ingress)), |ms|);
            got == Delivered(ms) && ib.input == rest
  {
    hide OpenAll, WireAll, AfterAll;
    Lockstep(FrameCrypto(u, a), Cursor(0, a.egress), ms, rest);
  }

  /** What side `from` writes with its secrets, side `to` reads with its own. */
  ghost predicate Reads(u: Suite, from: Secrets, to: Secrets, ms: seq<Msg>, rest: seq<byte>) {
    var wire := WireAll(FrameCrypto(u, from), Cursor(0, from.egress), ms);
    var (ib, got) := OpenAll(FrameCrypto(u, to), Inbox(wire + rest, Cursor(0, to.ingress)), |ms|);
    got == Delivered(ms) && ib.input == rest
  }

  /** From the first packet to the last frame: once both sides have finished the handshake, whatever either
      writes the other reads, in order. */
  lemma FramesAfterHandshake(
    u: Suite, ki: Key, kr: Key, ri: Randoms, rr: Randoms, after: seq<byte>, after': seq<byte>, ms: seq<Msg>, rest: seq<byte>)
    requires Laws(u) && ri.Valid() && rr.Valid() && AllFit(ms)
    requires NotPlain(u, kr, AuthPacket(u, ki, u.pub(kr), ri), ENC_AUTH_MSG_LEN)
    requires NotPlain(u, ki, Seal8(u, u.pub(ki), u.encodeResp(AuthResp(u.exportPub(u.pub(rr.eph)), rr.nonce)), rr), ENC_AUTH_RESP_LEN)
    ensures var auth := AuthPacket(u, ki, u.pub(kr), ri);
            var reply := Receive(u, kr, rr, auth + after);
            && reply.Reply?
            && var fin := Complete(u, ki, u.pub(kr), ri, auth, reply.packet + after');
               fin.Finish? && Reads(u, fin.secrets, reply.secrets, ms, rest) && Reads(u, reply.secrets, fin.secrets, ms, rest)
  {
    Mirror(u, ki, kr, ri, rr, after, after');
    var auth := AuthPacket(u, ki, u.pub(kr), ri);
    var reply := Receive(u, kr, rr, auth + after);
    var fin := Complete(u, ki, u.pub(kr), ri, auth, reply.packet + after');
    hide Receive, Complete, AuthPacket, Seal8, Laws, NotPlain;
    MirroredFrames(u, fin.secrets, reply.secrets, ms, rest);
    MirroredFrames(u, reply.secrets, fin.secrets, ms, rest);
  }

  // ---------- The handshake object ----------

  class EncHandshake {
    const suite: Suite
    const initiator: bool
    var remote: Key
    var initNonce: Digest
    var respNonce: Digest
    var randomPrivKey: Key
    var remoteRandomPub: Key

    constructor (suite: Suite, initiator: bool, remote: Key)
      ensures this.suite == suite && this.initiator == initiator && this.remote == remote
    {
      this.suite, this.initiator, this.remote := suite, initiator, remote;
      initNonce, respNonce := seq(32, _ => 0), seq(32, _ => 0);
      randomPrivKey, remoteRandomPub := 0, 0;
    }

    ghost function State(): Hs reads this { Hs(initiator, remote, initNonce, respNonce, randomPrivKey, remoteRandomPub) }

    method MakeAuthMsg(key: Key, rnd: Randoms) returns (msg: AuthMsg)
      modifies this`initNonce, this`randomPrivKey
      ensures msg == MakeAuth(suite, key, remote, rnd)
      ensures State() == old(State()).(initNonce := rnd.nonce, eph := rnd.eph)
    {
      initNonce := rnd.nonce;
      randomPrivKey := rnd.eph;
      var token := suite.ecdh(key, remote);
      var signature := suite.sign(XorDigest(token, initNonce), randomPrivKey);
      return AuthMsg(signature, suite.exportPub(suite.pub(key)), initNonce);
    }

    method HandleAuthResp(msg: AuthResp) returns (ok: bool)
      modifies this`respNonce, this`remoteRandomPub
      ensures ok == suite.importPub(msg.randomPub).Some?
      ensures respNonce == msg.nonce
      ensures ok ==> remoteRandomPub == suite.importPub(msg.randomPub).value
      ensures !ok ==> remoteRandomPub == old(remoteRandomPub)
    {
      respNonce := msg.nonce;
      var p := suite.importPub(msg.randomPub);
      if p.None? {
        return false;
      }
      remoteRandomPub := p.value;
      return true;
    }

    /** handleAuthMsg: who is calling, and the ephemeral key recovered from its signature. */
    method HandleAuthMsg(msg: AuthMsg, key: Key, rnd: Randoms) returns (ok: bool)
      modifies this`remote, this`initNonce, this`randomPrivKey, this`remoteRandomPub
      ensures ok ==> var r := suite.importPub(msg.initiatorPub);
                     && r.Some? && remote == r.value && initNonce == msg.nonce && randomPrivKey == rnd.eph
                     && suite.recover(XorDigest(suite.ecdh(key, r.value), msg.nonce), msg.signature) == Some(remoteRandomPub)
      ensures !ok ==> var r := suite.importPub(msg.initiatorPub);
                      if r.None? then State() == old(State())
                      else && suite.recover(XorDigest(suite.ecdh(key, r.value), msg.nonce), msg.signature).None?
                           && State() == old(State()).(remote := r.value, initNonce := msg.nonce, eph := rnd.eph)
    {
      hide XorDigest;
      var rpub := suite.importPub(msg.initiatorPub);
      if rpub.None? {
        return false;
      }
      initNonce := msg.nonce;
      remote := rpub.value;
      randomPrivKey := rnd.eph;
      var token := suite.ecdh(key, remote);
      var p := suite.recover(XorDigest(token, initNonce), msg.signature);
      if p.None? {
        return false;
      }
      remoteRandomPub := p.value;
      return true;
    }

    method MakeSecrets(auth: seq<byte>, authResp: seq<byte>) returns (s: Secrets)
      ensures s == DeriveSecrets(suite, State(), auth, authResp)
    {
      hide XorDigest;
      var ecdhe: seq<byte> := suite.ecdh(randomPrivKey, remoteRandomPub);
      var shared: seq<byte> := suite.keccak(ecdhe + suite.keccak(respNonce + initNonce));
      var aes := suite.keccak(ecdhe + shared);
      var mac := suite.keccak(ecdhe + aes);
      var mac1 := XorDigest(mac, respNonce) + auth;
      var mac2 := XorDigest(mac, initNonce) + authResp;
      if initiator {
        return Secrets(remote, aes, mac, mac1, mac2);
      } else {
        return Secrets(remote, aes, mac, mac2, mac1);
      }
    }

    /** receiverEncHandshake from an incoming stream. */
    method ReceiverHandshake(key: Key, rnd: Randoms, stream: seq<byte>) returns (r: Reply)
      modifies this
      requires !initiator
      ensures r == Receive(suite, key, rnd, stream)
    {
      hide ReadPacket8, Seal8, DeriveSecrets, XorDigest;
      var p := ReadPacket8(suite, ENC_AUTH_MSG_LEN, key, stream);
      if !p.Packet? {
        return ReplyFailed;
      }
      var msg := suite.decodeAuth(p.plaintext);
      if msg.None? {
        return ReplyFailed;
      }
      var ok := HandleAuthMsg(msg.value, key, rnd);
      if !ok {
        return ReplyFailed;
      }
      respNonce := rnd.nonce;
      var resp := Seal8(suite, remote, suite.encodeResp(AuthResp(suite.exportPub(suite.pub(randomPrivKey)), respNonce)), rnd);
      var s := MakeSecrets(p.packet, resp);
      return Reply(s, resp, p.rest);
    }

    /** initiatorEncHandshake: `response` is what arrives after the auth packet has been sent. */
    method InitiatorHandshake(key: Key, rnd: Randoms, response: seq<byte>) returns (auth: seq<byte>, r: Finish)
      modifies this
      requires initiator
      ensures auth == AuthPacket(suite, key, old(remote), rnd)
      ensures r == Complete(suite, key, old(remote), rnd, auth, response)
    {
      hide ReadPacket8, Seal8, DeriveSecrets, XorDigest, MakeAuth;
      var msg := MakeAuthMsg(key, rnd);
      auth := Seal8(suite, remote, suite.encodeAuth(msg), rnd);
      var p := ReadPacket8(suite, ENC_AUTH_RESP_LEN, key, response);
      if !p.Packet? {
        return auth, FinishFailed;
      }
      var resp := suite.decodeResp(p.plaintext);
      if resp.None? {
        return auth, FinishFailed;
      }
      var ok := HandleAuthResp(resp.value);
      if !ok {
        return auth, FinishFailed;
      }
      var s := MakeSecrets(auth, p.packet);
      return auth, Finish(s, p.rest);
    }
  }
}
