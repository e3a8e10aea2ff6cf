/** The identity of a session: its number, printed and parsed on its way between the two programs, and
    its terms, mapped to a mode number and back (seller_tx.go, connection.go). */
module SessionId {
  import opened Wrappers
  import opened Words
  import opened Bits
  import opened Frames
  import opened PodNode

  /** newSessID draws below this. */
  const SESSION_IDS := 10_000_000_000

  // ---------- Numerals ----------

  function DigitChar(d: nat): char
    requires d < 16
  {
    if d < 10 then '0' + d as char else 'a' + (d - 10) as char
  }

  function DigitValue(c: char): Option<nat> {
    if '0' <= c <= '9' then Some((c - '0') as nat)
    else if 'a' <= c <= 'f' then Some((c - 'a') as nat + 10)
    else if 'A' <= c <= 'F' then Some((c - 'A') as nat + 10)
    else None
  }

  /** The numeral of n, without leading zeros. */
  function Print(n: nat, base: nat): (s: string)
    requires 2 <= base <= 16
    ensures |s| > 0
  {
    if n < base then [DigitChar(n)] else Print(n / base, base) + [DigitChar(n % base)]
  }

  /** The number a numeral stands for. */
  function Read(s: string, base: nat): Option<nat> {
    if |s| == 0 then None
    else
      var d := DigitValue(s[|s| - 1]);
      if d.None? || d.value >= base then None
      else if |s| == 1 then d
      else
        var r := Read(s[..|s| - 1], base);
        if r.None? then None else Some(base * r.value + d.value)
  }

  /** strconv.ParseUint(s, base, 64). */
  function ParseUint64(s: string, base: nat): Option<Code> {
    var r := Read(s, base);
    if r.Some? && r.value < TWO_TO_64 then Some(r.value) else None
  }

  /** A numeral of the base with small letters and no leading zero. */
  ghost predicate Numeral(s: string, base: nat) {
    && |s| > 0 && (|s| > 1 ==> s[0] != '0')
    && forall c | c in s :: exists d: nat :: d < base && d < 16 && c == DigitChar(d)
  }

  lemma DigitRoundTrip(d: nat)
    requires d < 16
    ensures DigitValue(DigitChar(d)) == Some(d) && (DigitChar(d) == '0' <==> d == 0)
  {
  }

  lemma ReadSnoc(s: string, d: nat, base: nat)
    requires (base == 10 || base == 16) && d < base && |s| > 0 && Read(s, base).Some?
    ensures Read(s + [DigitChar(d)], base) == Some(base * Read(s, base).value + d)
  {
    DigitRoundTrip(d);
    hide DigitChar, DigitValue;
    assert (s + [DigitChar(d)])[..|s|] == s;
  }

  lemma NumeralSnoc(s: string, d: nat, base: nat)
    requires (base == 10 || base == 16) && d < base && Numeral(s, base) && s[0] != '0'
    ensures Numeral(s + [DigitChar(d)], base) && (s + [DigitChar(d)])[0] != '0'
  {
    hide DigitChar;
  }

  lemma OneDigit(d: nat, base: nat)
    requires (base == 10 || base == 16) && d < base
    ensures Read([DigitChar(d)], base) == Some(d) && Numeral([DigitChar(d)], base) && (d > 0 ==> [DigitChar(d)][0] != '0')
  {
    DigitRoundTrip(d);
    hide DigitChar, DigitValue;
  }

  lemma DivMod(n: nat, base: nat)
    requires (base == 10 || base == 16) && base <= n
    ensures 0 < n / base < n && n == base * (n / base) + n % base
  {
    if base == 10 {
      assert 0 < n / 10 < n;
    } else {
      assert 0 < n / 16 < n;
    }
  }

  /** Printing gives a numeral that reads as the number. */
  lemma {:induction false} ReadPrint(n: nat, base: nat)
    requires base == 10 || base == 16
    ensures Read(Print(n, base), base) == Some(n)
    ensures Numeral(Print(n, base), base)
    ensures n > 0 ==> Print(n, base)[0] != '0'
  {
    hide Read, Numeral, DigitChar;
    if n < base {
      OneDigit(n, base);
    } else {
      DivMod(n, base);
      ReadPrint(n / base, base);
      ReadSnoc(Print(n / base, base), n % base, base);
      NumeralSnoc(Print(n / base, base), n % base, base);
    }
  }

  /** The last digit of a numeral, and what comes before. */
  lemma NumeralEnd(s: string, base: nat) returns (init: string, d: nat)
    requires (base == 10 || base == 16) && Numeral(s, base)
    ensures d < base && s == init + [DigitChar(d)]
    ensures init != "" ==> Numeral(init, base) && init[0] != '0' && init[0] == s[0]
  {
    var last := s[|s| - 1];
    assert last in s;
    d :| d < base && d < 16 && last == DigitChar(d);
    hide DigitChar;
    init := s[..|s| - 1];
    assert s == init + [last];
    assert forall c | c in init :: c in s;
  }

  /** Reading a numeral and printing the number gives the numeral back. */
  lemma {:induction false} PrintRead(s: string, base: nat)
    requires (base == 10 || base == 16) && Numeral(s, base)
    ensures Read(s, base).Some? && Print(Read(s, base).value, base) == s
    ensures s[0] != '0' ==> Read(s, base).value > 0
    decreases |s|
  {
    var init, d := NumeralEnd(s, base);
    DigitRoundTrip(d);
    hide DigitChar, DigitValue, Numeral, Read;
    if init == "" {
      OneDigit(d, base);
    } else {
      PrintRead(init, base);
      var v := Read(init, base).value;
      ReadSnoc(init, d, base);
      Appended(v, d, base);
    }
  }

  lemma Appended(v: nat, d: nat, base: nat)
    requires v > 0 && d < base && (base == 10 || base == 16)
    ensures base * v + d >= base && (base * v + d) / base == v && (base * v + d) % base == d
  {
    if base == 10 {
      assert (10 * v + d) / 10 == v && (10 * v + d) % 10 == d;
    } else {
      assert (16 * v + d) / 16 == v && (16 * v + d) % 16 == d;
    }
  }

  lemma {:induction false} Power10(k: nat)
    requires k <= 10
    ensures Pow(10, k) == [1, 10, 100, 1000, 10000, 100000, 1000000, 10000000, 100000000, 1000000000, 10000000000][k]
  {
    if k > 0 {
      Power10(k - 1);
    }
  }

  function Pow(b: nat, k: nat): nat { if k == 0 then 1 else b * Pow(b, k - 1) }

  /** A numeral of a number below base^k has at most k digits. */
  lemma {:induction false} PrintShort(n: nat, k: nat)
    requires n < Pow(10, k) && k > 0
    ensures |Print(n, 10)| <= k
  {
    if n >= 10 {
      assert Pow(10, k) == 10 * Pow(10, k - 1);
      assert k > 1;
      PrintShort(n / 10, k - 1);
    }
  }

  /** A numeral of k digits is a number below 16^k. */
  lemma {:induction false} ReadSmall(s: string)
    requires Read(s, 16).Some?
    ensures Read(s, 16).value < Pow(16, |s|)
  {
    if |s| > 1 {
      ReadSmall(s[..|s| - 1]);
    }
  }

  lemma {:induction false} PowMonotone(j: nat, k: nat)
    requires j <= k
    ensures Pow(16, j) <= Pow(16, k)
    decreases k
  {
    if j < k {
      PowMonotone(j, k - 1);
    }
  }

  lemma Power16()
    ensures Pow(16, 10) == 0x100_0000_0000
  {
    assert Pow(16, 5) == 0x10_0000;
    assert Pow(16, 6) == 0x100_0000 && Pow(16, 7) == 0x1000_0000 && Pow(16, 8) == 0x1_0000_0000;
    assert Pow(16, 9) == 0x10_0000_0000;
  }

  /** Decimal numerals are hexadecimal ones. */
  lemma DecimalIsHex(s: string)
    requires Numeral(s, 10)
    ensures Numeral(s, 16)
  {
    hide DigitChar;
  }

  /** The seller's session number, printed in decimal, parsed as hexadecimal, and printed as hexadecimal
      at the other end, is the same string again; read as decimal it is the number drawn. */
  lemma NameSurvives(id: nat)
    requires id < SESSION_IDS
    ensures var name := Print(id, 10);
            var wire := ParseUint64(name, 16);
            && wire.Some? && Print(wire.value, 16) == name && Read(name, 10) == Some(id)
            && (wire.value == 0 <==> id == 0)
  {
    hide DigitChar, DigitValue, Print, Read, Numeral;
    var name := Print(id, 10);
    ReadPrint(id, 10);
    DecimalIsHex(name);
    PrintRead(name, 16);
    Power10(10);
    PrintShort(id, 10);
    ReadSmall(name);
    PowMonotone(|name|, 10);
    Power16();
    ZeroName(id);
  }

  /** Only the name of 0 reads as 0. */
  lemma ZeroName(id: nat)
    ensures var name := Print(id, 10); Numeral(name, 10) && (id == 0 ==> name == "0") && (id > 0 ==> name[0] != '0')
    ensures Read("0", 16) == Some(0)
  {
    ReadPrint(id, 10);
    OneDigit(0, 16);
    DigitRoundTrip(0);
  }

  // ---------- Terms ----------

  const PLAIN := "plain"
  const TABLE := "table"
  const COMPLAINT := "complaint"
  const ATOMIC_SWAP := "atomic_swap"
  const ATOMIC_SWAP_VC := "atomic_swap_vc"
  const VRF := "vrf"

  datatype Terms = Terms(mode: string, subMode: string, ot: bool)
  {
    predicate AtomicSwap() { subMode == ATOMIC_SWAP || subMode == ATOMIC_SWAP_VC }
  }

  function ModeToInt(t: Terms): Option<byte> {
    if t.mode == PLAIN then
      if t.subMode == COMPLAINT then Some(if t.ot then 1 else 0)
      else if t.subMode == ATOMIC_SWAP then Some(2)
      else if t.subMode == ATOMIC_SWAP_VC then Some(3)
      else None
    else if t.mode == TABLE then
      if t.subMode == COMPLAINT then Some(if t.ot then 7 else 6)
      else if t.subMode == ATOMIC_SWAP then Some(8)
      else if t.subMode == ATOMIC_SWAP_VC then Some(9)
      else if t.subMode == VRF then Some(if t.ot then 5 else 4)
      else None
    else None
  }

  function ModeFromInt(k: byte): Option<Terms> {
    match k
    case 0 => Some(Terms(PLAIN, COMPLAINT, false))
    case 1 => Some(Terms(PLAIN, COMPLAINT, true))
    case 2 => Some(Terms(PLAIN, ATOMIC_SWAP, false))
    case 3 => Some(Terms(PLAIN, ATOMIC_SWAP_VC, false))
    case 4 => Some(Terms(TABLE, VRF, false))
    case 5 => Some(Terms(TABLE, VRF, true))
    case 6 => Some(Terms(TABLE, COMPLAINT, false))
    case 7 => Some(Terms(TABLE, COMPLAINT, true))
    case 8 => Some(Terms(TABLE, ATOMIC_SWAP, false))
    case 9 => Some(Terms(TABLE, ATOMIC_SWAP_VC, false))
    case _ => None
  }

  lemma NamesDiffer()
    ensures |{PLAIN, TABLE}| == 2 && |{COMPLAINT, ATOMIC_SWAP, ATOMIC_SWAP_VC, VRF}| == 4
  {
    assert PLAIN[0] != TABLE[0] && COMPLAINT[0] != ATOMIC_SWAP[0] && |ATOMIC_SWAP| != |ATOMIC_SWAP_VC| && VRF[0] != COMPLAINT[0];
  }

  /** Terms come back from their mode number exactly when they do not ask for oblivious transfer in an
      atomic swap. */
  lemma TermsRoundTripIff(t: Terms)
    requires ModeToInt(t).Some?
    ensures ModeFromInt(ModeToInt(t).value) == Some(t) <==> !(t.AtomicSwap() && t.ot)
  {
    NamesDiffer();
  }

  /** Every mode number below the limit comes back from its terms, the node calls it an OT mode exactly
      when the terms say so, and no other number has terms. */
  lemma ModeRoundTrip(k: byte)
    ensures ModeFromInt(k).Some? <==> k < MODE_MAX
    ensures k < MODE_MAX ==> ModeToInt(ModeFromInt(k).value) == Some(k)
    ensures k < MODE_MAX ==> (IsOtMode(k) <==> ModeFromInt(k).value.ot)
  {
    NamesDiffer();
  }

  /** The terms the seller settles on (preAliceTx): its own mode, the buyer's sub-mode if it is offered
      and otherwise the first one offered, and no oblivious transfer in an atomic swap. */
  function Settle(mode: string, offered: seq<string>, wanted: Terms): Option<Terms> {
    if |offered| == 0 then None
    else
      var subMode := if wanted.subMode in offered && wanted.subMode != "" then wanted.subMode else offered[0];
      var t := Terms(mode, subMode, wanted.ot);
      Some(if t.AtomicSwap() then t.(ot := false) else t)
  }

  /** Session identity: whatever number is drawn (other than 0) and whatever the buyer wants, the ack the
      seller sends is accepted by the buyer's node, and both programs then go by the same session name
      and the same terms, and both nodes negotiate exactly when those terms ask for it; the contract
      number both read from the name is the number drawn. */
  lemma SessionIdentity(
    id: nat, mode: string, offered: seq<string>, wanted: Terms, root: seq<byte>, extra: seq<byte>, buyer: Local)
    requires 0 < id < SESSION_IDS && |root| == 32
    requires Settle(mode, offered, wanted).Some? && ModeToInt(Settle(mode, offered, wanted).value).Some?
    ensures var terms := Settle(mode, offered, wanted).value;
            var name := Print(id, 10);
            var wire := ParseUint64(name, 16);
            && wire.Some?
            && var ack := SessionRequest(wire.value, ModeToInt(terms).value, root, extra);
               && AcceptSessionAck(buyer, true, EncodeSession(ack)) == (buyer.(state := SessionAckRecvd), ReceivedSession(ack))
               && Print(ack.id, 16) == name && ModeFromInt(ack.mode) == Some(terms)
               && (IsOtMode(ack.mode) <==> terms.ot)
               && Read(name, 10) == Some(id)
  {
    var terms := Settle(mode, offered, wanted).value;
    var k := ModeToInt(terms).value;
    TermsRoundTripIff(terms);
    ModeRoundTrip(k);
    assert ModeFromInt(k) == Some(terms);
    NameSurvives(id);
    hide Settle, ModeToInt, ModeFromInt, Print, Read, EncodeSession, DecodeSession;
    SessionRoundTrip(SessionRequest(ParseUint64(Print(id, 10), 16).value, k, root, extra));
  }

  /** The one number that does not work: the buyer's node takes an ack numbered 0 for a new request. */
  lemma ZeroRefused(buyer: Local, k: byte, root: seq<byte>, extra: seq<byte>)
    requires |root| == 32
    ensures ParseUint64(Print(0, 10), 16) == Some(0)
    ensures AcceptSessionAck(buyer, true, EncodeSession(SessionRequest(0, k, root, extra))) == (buyer, Rejected(ZeroSessionId))
  {
    NameSurvives(0);
    SessionRoundTrip(SessionRequest(0, k, root, extra));
    hide Print, Read, EncodeSession, DecodeSession;
  }
}
