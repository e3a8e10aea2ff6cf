/** Sharing the message codes of a connection among the protocols both ends run
    (net/rlpx/p2p/peer.go). */
module Protocols {
  import opened Wrappers
  import opened Words

  const BASE_PROTOCOL_LENGTH := 16

  datatype Cap = Cap(name: string, version: nat)

  datatype Protocol = Protocol(name: string, version: nat, length: Word)
  {
    function AsCap(): Cap { Cap(name, version) }
  }

  /** A protocol that runs on the connection and the message codes it has got. */
  datatype Slot = Slot(version: nat, length: Word, offset: Word)

  datatype Alloc = Alloc(slots: map<string, Slot>, offset: Word)

  const NOTHING := Alloc(map[], BASE_PROTOCOL_LENGTH)

  // ---------- The order of capabilities ----------

  predicate NameLess(a: string, b: string) {
    |b| > 0 && (|a| == 0 || a[0] < b[0] || (a[0] == b[0] && NameLess(a[1..], b[1..])))
  }

  predicate CapLess(a: Cap, b: Cap) {
    NameLess(a.name, b.name) || (a.name == b.name && a.version < b.version)
  }

  lemma {:induction false} NameTrichotomy(a: string, b: string)
    ensures NameLess(a, b) || a == b || NameLess(b, a)
    ensures !(NameLess(a, b) && NameLess(b, a)) && !NameLess(a, a)
    decreases |a|
  {
    if |a| > 0 {
      NameTrichotomy(a[1..], a[1..]);
      if |b| > 0 {
        NameTrichotomy(a[1..], b[1..]);
        assert a == [a[0]] + a[1..] && b == [b[0]] + b[1..];
      }
    }
  }

  lemma {:induction false} NameTransitive(a: string, b: string, c: string)
    requires NameLess(a, b) && NameLess(b, c)
    ensures NameLess(a, c)
    decreases |a|
  {
    if |a| > 0 && a[0] == b[0] && b[0] == c[0] {
      NameTransitive(a[1..], b[1..], c[1..]);
    }
  }

  lemma CapTrichotomy(a: Cap, b: Cap)
    ensures CapLess(a, b) || a == b || CapLess(b, a)
    ensures !(CapLess(a, b) && CapLess(b, a)) && !CapLess(a, a)
  {
    NameTrichotomy(a.name, b.name);
    NameTrichotomy(a.name, a.name);
  }

  lemma CapTransitive(a: Cap, b: Cap, c: Cap)
    requires CapLess(a, b) && CapLess(b, c)
    ensures CapLess(a, c)
  {
    if NameLess(a.name, b.name) && NameLess(b.name, c.name) {
      NameTransitive(a.name, b.name, c.name);
    }
  }

  /** Ascending order, repetitions allowed. */
  ghost predicate SortedCaps(caps: seq<Cap>) {
    forall i, j :: 0 <= i < j < |caps| ==> !CapLess(caps[j], caps[i])
  }

  // ---------- matchProtocols ----------

  /** The length of the first protocol of ours with this capability. */
  function Find(protocols: seq<Protocol>, cap: Cap): Option<Word> {
    if |protocols| == 0 then None
    else if protocols[0].AsCap() == cap then Some(protocols[0].length)
    else Find(protocols[1..], cap)
  }

  /** An older match of the same name is reverted, the new one takes the next free codes. */
  function Assign(al: Alloc, cap: Cap, length: Word): Alloc {
    var offset := if cap.name in al.slots then Sub64(al.offset, al.slots[cap.name].length) else al.offset;
    Alloc(al.slots[cap.name := Slot(cap.version, length, offset)], Add64(offset, length))
  }

  function Step(protocols: seq<Protocol>, al: Alloc, cap: Cap): Alloc {
    match Find(protocols, cap)
    case Some(length) => Assign(al, cap, length)
    case None => al
  }

  /** The allocation after capabilities in the given order. */
  function Match(protocols: seq<Protocol>, caps: seq<Cap>): Alloc {
    if |caps| == 0 then NOTHING
    else Step(protocols, Match(protocols, caps[..|caps| - 1]), caps[|caps| - 1])
  }

  // ---------- Tiling ----------

  /** Where the i-th slot begins; behind the last one, the first free code. */
  function Begin(al: Alloc, order: seq<string>, i: nat): Word {
    if i < |order| && order[i] in al.slots then al.slots[order[i]].offset else al.offset
  }

  /** The slots follow one another, in the order of their names, from code 16 to the offset, in 64-bit
      arithmetic. */
  ghost predicate Chained(al: Alloc, order: seq<string>) {
    && (forall n :: n in al.slots <==> n in order)
    && (forall i, j :: 0 <= i < j < |order| ==> NameLess(order[i], order[j]))
    && Begin(al, order, 0) == BASE_PROTOCOL_LENGTH
    && (forall i :: 0 <= i < |order| ==> Add64(Begin(al, order, i), al.slots[order[i]].length) == Begin(al, order, i + 1))
  }

  /** The same without wrapping: they lie one behind the other. */
  ghost predicate Tiled(al: Alloc, order: seq<string>) {
    && Chained(al, order)
    && (forall i :: 0 <= i < |order| ==> Begin(al, order, i) + al.slots[order[i]].length == Begin(al, order, i + 1))
  }

  /** No name is greater than `top`. */
  ghost predicate UpTo(al: Alloc, top: string) {
    forall n | n in al.slots :: n == top || NameLess(n, top)
  }

  lemma LastIsGreatest(al: Alloc, order: seq<string>, name: string)
    requires Chained(al, order) && UpTo(al, name) && name in al.slots
    ensures |order| > 0 && order[|order| - 1] == name
  {
    var i :| 0 <= i < |order| && order[i] == name;
    if i < |order| - 1 {
      var last := order[|order| - 1];
      assert NameLess(name, last) && last in al.slots;
      NameTrichotomy(name, last);
    }
  }

  /** A name that was matched before gets its slot again, with the new length: the revert undoes the
      addition, wrapped or not. */
  lemma AssignAgain(al: Alloc, order: seq<string>, cap: Cap, length: Word)
    requires Chained(al, order) && UpTo(al, cap.name) && cap.name in al.slots
    ensures Chained(Assign(al, cap, length), order) && UpTo(Assign(al, cap, length), cap.name)
    ensures Assign(al, cap, length).slots[cap.name] == Slot(cap.version, length, al.slots[cap.name].offset)
  {
    LastIsGreatest(al, order, cap.name);
    var al' := Assign(al, cap, length);
    var last := |order| - 1;
    forall i | 0 <= i < last ensures order[i] != cap.name {
      NameTrichotomy(order[i], cap.name);
    }
    assert Add64(Begin(al, order, last), al.slots[order[last]].length) == Begin(al, order, last + 1);
    forall i | 0 <= i < |order| ensures Add64(Begin(al', order, i), al'.slots[order[i]].length) == Begin(al', order, i + 1) {
      assert Add64(Begin(al, order, i), al.slots[order[i]].length) == Begin(al, order, i + 1);
    }
  }

  lemma AssignNew(al: Alloc, order: seq<string>, cap: Cap, length: Word)
    requires Chained(al, order) && UpTo(al, cap.name) && cap.name !in al.slots
    ensures Chained(Assign(al, cap, length), order + [cap.name]) && UpTo(Assign(al, cap, length), cap.name)
  {
    var al', order' := Assign(al, cap, length), order + [cap.name];
    forall i | 0 <= i < |order'| ensures Add64(Begin(al', order', i), al'.slots[order'[i]].length) == Begin(al', order', i + 1) {
      if i < |order| {
        assert Add64(Begin(al, order, i), al.slots[order[i]].length) == Begin(al, order, i + 1);
        assert order[i] in al.slots;
      }
    }
  }

  // ---------- The codes needed in all ----------

  function LengthSum(al: Alloc, order: seq<string>): nat
    requires forall n | n in order :: n in al.slots
  {
    if |order| == 0 then 0 else LengthSum(al, order[..|order| - 1]) + al.slots[order[|order| - 1]].length
  }

  lemma {:induction false} LengthSumMonotone(al: Alloc, order: seq<string>, i: nat)
    requires (forall n | n in order :: n in al.slots) && i <= |order|
    ensures LengthSum(al, order[..i]) <= LengthSum(al, order)
  {
    if i < |order| {
      assert order[..|order| - 1][..i] == order[..i];
      LengthSumMonotone(al, order[..|order| - 1], i);
    } else {
      assert order[..i] == order;
    }
  }

  lemma LengthSumNext(al: Alloc, order: seq<string>, i: nat)
    requires (forall n | n in order :: n in al.slots) && i < |order|
    ensures LengthSum(al, order[..i + 1]) == LengthSum(al, order[..i]) + al.slots[order[i]].length
  {
    assert order[..i + 1][..i] == order[..i];
  }

  /** While the codes fit, the i-th slot begins behind the lengths of those before it. */
  lemma {:induction false} BeginIsSum(al: Alloc, order: seq<string>, i: nat)
    requires Chained(al, order) && i <= |order| && BASE_PROTOCOL_LENGTH + LengthSum(al, order[..i]) < TWO_TO_64
    ensures Begin(al, order, i) == BASE_PROTOCOL_LENGTH + LengthSum(al, order[..i])
  {
    if i > 0 {
      LengthSumNext(al, order, i - 1);
      BeginIsSum(al, order, i - 1);
      assert Add64(Begin(al, order, i - 1), al.slots[order[i - 1]].length) == Begin(al, order, i);
    }
  }

  lemma FitsTiled(al: Alloc, order: seq<string>)
    requires Chained(al, order) && BASE_PROTOCOL_LENGTH + LengthSum(al, order) < TWO_TO_64
    ensures Tiled(al, order) && al.offset == BASE_PROTOCOL_LENGTH + LengthSum(al, order)
  {
    hide NameLess;
    forall i | 0 <= i < |order| ensures Begin(al, order, i) + al.slots[order[i]].length == Begin(al, order, i + 1) {
      LengthSumMonotone(al, order, i);
      LengthSumMonotone(al, order, i + 1);
      LengthSumNext(al, order, i);
      BeginIsSum(al, order, i);
      BeginIsSum(al, order, i + 1);
    }
    assert order[..|order|] == order;
    BeginIsSum(al, order, |order|);
  }

  /** When the codes do not fit, some slot with messages is the first to end beyond 64 bits. */
  lemma {:induction false} FirstBeyond(al: Alloc, order: seq<string>, k: nat) returns (i: nat)
    requires Chained(al, order) && k <= |order| && BASE_PROTOCOL_LENGTH + LengthSum(al, order[..k]) >= TWO_TO_64
    ensures i < |order| && Begin(al, order, i) + al.slots[order[i]].length >= TWO_TO_64
  {
    if k == 0 {
      assert false;
    }
    LengthSumNext(al, order, k - 1);
    if BASE_PROTOCOL_LENGTH + LengthSum(al, order[..k - 1]) >= TWO_TO_64 {
      i := FirstBeyond(al, order, k - 1);
    } else {
      i := k - 1;
      BeginIsSum(al, order, i);
    }
  }

  // ---------- What the allocation holds ----------

  /** What the allocation says about a name, given the capabilities so far: the name has a slot exactly
      when some version is shared, and then its highest, with the length we give to that version. */
  ghost predicate Highest(protocols: seq<Protocol>, caps: seq<Cap>, al: Alloc, n: string) {
    && (n in al.slots <==> exists v: nat :: Cap(n, v) in caps && Find(protocols, Cap(n, v)).Some?)
    && (n in al.slots ==>
          && Cap(n, al.slots[n].version) in caps
          && Find(protocols, Cap(n, al.slots[n].version)) == Some(al.slots[n].length)
          && forall v: nat | Cap(n, v) in caps && Find(protocols, Cap(n, v)).Some? :: v <= al.slots[n].version)
  }

  ghost predicate Good(protocols: seq<Protocol>, caps: seq<Cap>, al: Alloc, order: seq<string>) {
    && Chained(al, order)
    && (|caps| > 0 ==> UpTo(al, caps[|caps| - 1].name)) && (|caps| == 0 ==> al == NOTHING)
    && forall n :: Highest(protocols, caps, al, n)
  }

  lemma StepHighest(protocols: seq<Protocol>, caps: seq<Cap>, al: Alloc, cap: Cap, n: string)
    requires Highest(protocols, caps, al, n) && SortedCaps(caps + [cap])
    ensures Highest(protocols, caps + [cap], Step(protocols, al, cap), n)
  {
    var caps' := caps + [cap];
    forall v: nat ensures Cap(n, v) in caps' <==> Cap(n, v) in caps || Cap(n, v) == cap {
    }
    if n == cap.name {
      forall v: nat | Cap(n, v) in caps ensures v <= cap.version {
        var i :| 0 <= i < |caps| && caps[i] == Cap(n, v);
        assert !CapLess(caps'[|caps|], caps'[i]);
      }
    }
  }

  /** One capability more, in sorted order. */
  lemma StepGood(protocols: seq<Protocol>, caps: seq<Cap>, al: Alloc, order: seq<string>, cap: Cap) returns (order': seq<string>)
    requires Good(protocols, caps, al, order) && SortedCaps(caps + [cap])
    ensures Good(protocols, caps + [cap], Step(protocols, al, cap), order')
  {
    forall n ensures Highest(protocols, caps + [cap], Step(protocols, al, cap), n) {
      assert Highest(protocols, caps, al, n);
      StepHighest(protocols, caps, al, cap, n);
    }
    UpToNext(caps, al, cap);
    hide Highest, SortedCaps;
    order' := order;
    match Find(protocols, cap)
    case None =>
    case Some(length) =>
      if cap.name in al.slots {
        AssignAgain(al, order, cap, length);
      } else {
        AssignNew(al, order, cap, length);
        order' := order + [cap.name];
      }
  }

  lemma UpToNext(caps: seq<Cap>, al: Alloc, cap: Cap)
    requires |caps| > 0 ==> UpTo(al, caps[|caps| - 1].name)
    requires |caps| == 0 ==> al == NOTHING
    requires SortedCaps(caps + [cap])
    ensures UpTo(al, cap.name)
  {
    if |caps| > 0 {
      var last := caps[|caps| - 1];
      assert (caps + [cap])[|caps| - 1] == last && !CapLess((caps + [cap])[|caps|], last);
      CapTrichotomy(last, cap);
      forall n | n in al.slots ensures n == cap.name || NameLess(n, cap.name) {
        if NameLess(n, last.name) && NameLess(last.name, cap.name) {
          NameTransitive(n, last.name, cap.name);
        }
      }
    }
  }

  lemma {:induction false} MatchGood(protocols: seq<Protocol>, caps: seq<Cap>) returns (order: seq<string>)
    requires SortedCaps(caps)
    ensures Good(protocols, caps, Match(protocols, caps), order)
  {
    if |caps| == 0 {
      order := [];
    } else {
      var before := caps[..|caps| - 1];
      order := MatchGood(protocols, before);
      assert caps == before + [caps[|caps| - 1]];
      hide Good;
      order := StepGood(protocols, before, Match(protocols, before), order, caps[|caps| - 1]);
    }
  }

  // ---------- Sorting ----------

  function Insert(c: Cap, caps: seq<Cap>): (r: seq<Cap>)
    ensures multiset(r) == multiset(caps) + multiset{c}
  {
    if |caps| == 0 || !CapLess(caps[0], c) then [c] + caps
    else
      assert caps == [caps[0]] + caps[1..];
      [caps[0]] + Insert(c, caps[1..])
  }

  /** The same capabilities in ascending order. */
  function SortCaps(caps: seq<Cap>): (r: seq<Cap>)
    ensures multiset(r) == multiset(caps)
  {
    if |caps| == 0 then []
    else
      assert caps == [caps[0]] + caps[1..];
      Insert(caps[0], SortCaps(caps[1..]))
  }

  lemma {:induction false} InsertSorted(c: Cap, caps: seq<Cap>)
    requires SortedCaps(caps)
    ensures SortedCaps(Insert(c, caps))
  {
    if |caps| > 0 {
      if CapLess(caps[0], c) {
        InsertSorted(c, caps[1..]);
        var rest := Insert(c, caps[1..]);
        forall j | 0 <= j < |rest| ensures !CapLess(rest[j], caps[0]) {
          assert rest[j] in multiset(rest);
          if rest[j] == c {
            CapTrichotomy(caps[0], c);
          } else {
            assert rest[j] in multiset(caps[1..]);
            var k :| 0 <= k < |caps[1..]| && caps[1..][k] == rest[j];
            assert !CapLess(caps[k + 1], caps[0]);
          }
        }
      } else {
        forall j | 0 <= j < |caps| ensures !CapLess(caps[j], c) {
          NotBefore(caps[0], caps[j], c);
        }
      }
    }
  }

  lemma NotBefore(first: Cap, x: Cap, c: Cap)
    requires !CapLess(first, c) && (x == first || !CapLess(x, first))
    ensures !CapLess(x, c)
  {
    CapTrichotomy(first, x);
    if x != first && CapLess(x, c) {
      CapTransitive(first, x, c);
    }
  }

  lemma {:induction false} SortCapsSorted(caps: seq<Cap>)
    ensures SortedCaps(SortCaps(caps))
  {
    if |caps| > 0 {
      SortCapsSorted(caps[1..]);
      InsertSorted(caps[0], SortCaps(caps[1..]));
    }
  }

  lemma SortCapsSame(caps: seq<Cap>, c: Cap)
    ensures c in SortCaps(caps) <==> c in caps
  {
    assert c in SortCaps(caps) <==> c in multiset(SortCaps(caps));
  }

  // ---------- The codes needed, from the inputs alone ----------

  /** The capabilities of other names. */
  function Others(caps: seq<Cap>, name: string): (r: seq<Cap>)
    ensures |r| <= |caps|
  {
    if |caps| == 0 then []
    else
      var c := caps[|caps| - 1];
      Others(caps[..|caps| - 1], name) + if c.name == name then [] else [c]
  }

  lemma {:induction false} OthersIn(caps: seq<Cap>, name: string, c: Cap)
    ensures c in Others(caps, name) <==> c in caps && c.name != name
  {
    if |caps| > 0 {
      OthersIn(caps[..|caps| - 1], name, c);
      assert caps == caps[..|caps| - 1] + [caps[|caps| - 1]];
    }
  }

  lemma {:induction false} OthersSorted(caps: seq<Cap>, name: string)
    requires SortedCaps(caps)
    ensures SortedCaps(Others(caps, name))
  {
    if |caps| > 0 {
      var init, c := caps[..|caps| - 1], caps[|caps| - 1];
      OthersSorted(init, name);
      var r := Others(init, name);
      forall i | 0 <= i < |r| ensures !CapLess(c, r[i]) {
        OthersIn(init, name, r[i]);
        assert r[i] in init;
        var j :| 0 <= j < |init| && init[j] == r[i];
        assert !CapLess(caps[|caps| - 1], caps[j]);
      }
    }
  }

  /** How many codes sorted capabilities need: those of the last one, which is the highest version of its
      name, if we have it, and what the other names need. */
  function CodesNeeded(protocols: seq<Protocol>, caps: seq<Cap>): nat
    decreases |caps|
  {
    if |caps| == 0 then 0
    else
      var init, c := caps[..|caps| - 1], caps[|caps| - 1];
      match Find(protocols, c)
      case None => CodesNeeded(protocols, init)
      case Some(length) => length + CodesNeeded(protocols, Others(init, c.name))
  }

  lemma {:induction false} SameLengthSum(al: Alloc, al': Alloc, order: seq<string>)
    requires forall n | n in order :: n in al.slots && n in al'.slots && al.slots[n].length == al'.slots[n].length
    ensures LengthSum(al, order) == LengthSum(al', order)
  {
    if |order| > 0 {
      SameLengthSum(al, al', order[..|order| - 1]);
    }
  }

  /** Both allocations hold the same about n, if the same versions of n are shared. */
  lemma SameSlot(ps: seq<Protocol>, caps: seq<Cap>, al: Alloc, caps': seq<Cap>, al': Alloc, n: string)
    requires Highest(ps, caps, al, n) && Highest(ps, caps', al', n)
    requires forall v: nat | Find(ps, Cap(n, v)).Some? :: Cap(n, v) in caps <==> Cap(n, v) in caps'
    ensures n in al.slots <==> n in al'.slots
    ensures n in al.slots ==> al.slots[n].length == al'.slots[n].length
  {
  }

  /** The last capability, when we have it, is its name's highest shared version. */
  lemma LastIsHighest(ps: seq<Protocol>, caps: seq<Cap>, al: Alloc)
    requires SortedCaps(caps) && |caps| > 0 && Find(ps, caps[|caps| - 1]).Some?
    requires Highest(ps, caps, al, caps[|caps| - 1].name)
    ensures var c := caps[|caps| - 1]; c.name in al.slots && Some(al.slots[c.name].length) == Find(ps, c)
  {
    var c := caps[|caps| - 1];
    assert Cap(c.name, c.version) == c && c in caps;
    var v := al.slots[c.name].version;
    var i :| 0 <= i < |caps| && caps[i] == Cap(c.name, v);
    assert i < |caps| - 1 ==> !CapLess(caps[|caps| - 1], caps[i]);
  }

  /** The order of an allocation, its last name apart. */
  lemma OrderEndsWith(ps: seq<Protocol>, rest: seq<Cap>, al: Alloc, order: seq<string>, name: string)
    requires Good(ps, rest, al, order) && forall c | c in rest :: NameLess(c.name, name)
    ensures name !in al.slots
    ensures forall i, j :: 0 <= i < j < |order + [name]| ==> NameLess((order + [name])[i], (order + [name])[j])
  {
    NameTrichotomy(name, name);
    forall n | n in order ensures NameLess(n, name) {
      assert Highest(ps, rest, al, n);
    }
  }

  lemma NamesBelow(caps: seq<Cap>, x: Cap)
    requires SortedCaps(caps) && |caps| > 0 && x in Others(caps[..|caps| - 1], caps[|caps| - 1].name)
    ensures NameLess(x.name, caps[|caps| - 1].name)
  {
    var init, c := caps[..|caps| - 1], caps[|caps| - 1];
    OthersIn(init, c.name, x);
    var j :| 0 <= j < |init| && init[j] == x;
    assert !CapLess(caps[|caps| - 1], caps[j]);
    NameTrichotomy(x.name, c.name);
  }

  /** The lengths an allocation hands out add up to the codes needed. */
  lemma {:induction false} NeededIsSum(ps: seq<Protocol>, caps: seq<Cap>, al: Alloc, order: seq<string>)
    requires SortedCaps(caps) && Good(ps, caps, al, order)
    ensures LengthSum(al, order) == CodesNeeded(ps, caps)
    decreases |caps|
  {
    if |caps| == 0 {
      BothEmpty(order, []);
    } else if Find(ps, caps[|caps| - 1]).None? {
      NeededSkip(ps, caps, al, order);
    } else {
      NeededLast(ps, caps, al, order);
    }
  }

  lemma NeededSkip(ps: seq<Protocol>, caps: seq<Cap>, al: Alloc, order: seq<string>)
    requires SortedCaps(caps) && Good(ps, caps, al, order) && |caps| > 0 && Find(ps, caps[|caps| - 1]).None?
    ensures LengthSum(al, order) == CodesNeeded(ps, caps)
    decreases |caps|, 0
  {
    var init, c := caps[..|caps| - 1], caps[|caps| - 1];
    assert caps == init + [c];
    var order0 := MatchGood(ps, init);
    var al0 := Match(ps, init);
    NeededIsSum(ps, init, al0, order0);
    forall n
      ensures n in al.slots <==> n in al0.slots
      ensures n in al.slots ==> al.slots[n].length == al0.slots[n].length
    {
      assert Highest(ps, caps, al, n) && Highest(ps, init, al0, n);
      SameSlot(ps, caps, al, init, al0, n);
    }
    hide Highest, NameLess, Match;
    AscendingUnique(order, order0);
    SameLengthSum(al, al0, order);
  }

  lemma NeededLast(ps: seq<Protocol>, caps: seq<Cap>, al: Alloc, order: seq<string>)
    requires SortedCaps(caps) && Good(ps, caps, al, order) && |caps| > 0 && Find(ps, caps[|caps| - 1]).Some?
    ensures LengthSum(al, order) == CodesNeeded(ps, caps)
    decreases |caps|, 0
  {
    var init, c := caps[..|caps| - 1], caps[|caps| - 1];
    var rest := Others(init, c.name);
    OthersSorted(init, c.name);
    var order0 := MatchGood(ps, rest);
    var al0 := Match(ps, rest);
    NeededIsSum(ps, rest, al0, order0);
    assert Highest(ps, caps, al, c.name);
    LastIsHighest(ps, caps, al);
    forall x | x in rest ensures NameLess(x.name, c.name) {
      NamesBelow(caps, x);
    }
    OrderEndsWith(ps, rest, al0, order0, c.name);
    OtherSlots(ps, caps, al, al0, rest);
    hide Highest, NameLess, Match, SortedCaps;
    SumWithLast(al, order, al0, order0, c.name);
  }

  lemma SumWithLast(al: Alloc, order: seq<string>, al0: Alloc, order0: seq<string>, name: string)
    requires Chained(al, order) && Chained(al0, order0) && name in al.slots && name !in al0.slots
    requires forall i, j :: 0 <= i < j < |order0 + [name]| ==> NameLess((order0 + [name])[i], (order0 + [name])[j])
    requires forall n | n != name :: n in al.slots <==> n in al0.slots
    requires forall n | n != name && n in al.slots :: al.slots[n].length == al0.slots[n].length
    ensures LengthSum(al, order) == LengthSum(al0, order0) + al.slots[name].length
  {
    hide NameLess;
    AscendingUnique(order, order0 + [name]);
    assert order[..|order| - 1] == order0;
    SameLengthSum(al, al0, order0);
  }

  lemma OtherSlots(ps: seq<Protocol>, caps: seq<Cap>, al: Alloc, al0: Alloc, rest: seq<Cap>)
    requires |caps| > 0 && rest == Others(caps[..|caps| - 1], caps[|caps| - 1].name)
    requires forall n :: Highest(ps, caps, al, n)
    requires forall n :: Highest(ps, rest, al0, n)
    ensures forall n | n != caps[|caps| - 1].name :: n in al.slots <==> n in al0.slots
    ensures forall n | n != caps[|caps| - 1].name && n in al.slots :: al.slots[n].length == al0.slots[n].length
  {
    var init, c := caps[..|caps| - 1], caps[|caps| - 1];
    assert caps == init + [c];
    forall n | n != c.name
      ensures n in al.slots <==> n in al0.slots
      ensures n in al.slots ==> al.slots[n].length == al0.slots[n].length
    {
      assert Highest(ps, caps, al, n) && Highest(ps, rest, al0, n);
      forall v: nat ensures Cap(n, v) in caps <==> Cap(n, v) in rest {
        OthersIn(init, c.name, Cap(n, v));
      }
      SameSlot(ps, caps, al, rest, al0, n);
    }
  }

  // ---------- Main results ----------

  predicate Owns(s: Slot, code: Word) { s.offset <= code && code < Add64(s.offset, s.length) }

  /** What matchProtocols computes from the capabilities as the remote end lists them. */
  function Matched(protocols: seq<Protocol>, caps: seq<Cap>): Alloc { Match(protocols, SortCaps(caps)) }

  /** Whether the codes of everything shared, each name in its highest version, end within 64 bits. */
  predicate Fits(protocols: seq<Protocol>, caps: seq<Cap>) {
    BASE_PROTOCOL_LENGTH + CodesNeeded(protocols, SortCaps(caps)) < TWO_TO_64
  }

  /** How the allocation looks: its chain, and whether it wraps. */
  lemma MatchedChain(protocols: seq<Protocol>, caps: seq<Cap>) returns (order: seq<string>)
    ensures Good(protocols, SortCaps(caps), Matched(protocols, caps), order)
    ensures LengthSum(Matched(protocols, caps), order) == CodesNeeded(protocols, SortCaps(caps))
  {
    SortCapsSorted(caps);
    order := MatchGood(protocols, SortCaps(caps));
    hide Good, SortCaps, Match;
    NeededIsSum(protocols, SortCaps(caps), Matched(protocols, caps), order);
  }

  lemma {:induction false} BeginMonotone(al: Alloc, order: seq<string>, i: nat, j: nat)
    requires Tiled(al, order) && i <= j <= |order|
    ensures Begin(al, order, i) <= Begin(al, order, j)
    decreases j
  {
    if i < j {
      BeginMonotone(al, order, i, j - 1);
      assert Begin(al, order, j - 1) + al.slots[order[j - 1]].length == Begin(al, order, j);
    }
  }

  lemma OwnsBetween(al: Alloc, order: seq<string>, i: nat, code: Word)
    requires Tiled(al, order) && i < |order|
    ensures order[i] in al.slots
    ensures Owns(al.slots[order[i]], code) <==> Begin(al, order, i) <= code < Begin(al, order, i + 1)
  {
    assert order[i] in al.slots;
    assert Begin(al, order, i) + al.slots[order[i]].length == Begin(al, order, i + 1);
  }

  lemma {:induction false} FindOwner(al: Alloc, order: seq<string>, i: nat, code: Word) returns (n: string)
    requires Tiled(al, order) && i <= |order| && BASE_PROTOCOL_LENGTH <= code < Begin(al, order, i)
    ensures n in al.slots && Owns(al.slots[n], code)
  {
    if i > 0 && Begin(al, order, i - 1) <= code {
      n := order[i - 1];
      OwnsBetween(al, order, i - 1, code);
    } else {
      n := FindOwner(al, order, i - 1, code);
    }
  }

  lemma OneOwner(al: Alloc, order: seq<string>, code: Word, n: string, m: string)
    requires Tiled(al, order) && n in al.slots && m in al.slots && Owns(al.slots[n], code) && Owns(al.slots[m], code)
    ensures n == m && BASE_PROTOCOL_LENGTH <= code < al.offset
  {
    var i :| 0 <= i < |order| && order[i] == n;
    var j :| 0 <= j < |order| && order[j] == m;
    OwnsBetween(al, order, i, code);
    OwnsBetween(al, order, j, code);
    BeginMonotone(al, order, 0, i);
    BeginMonotone(al, order, i + 1, |order|);
    if i < j {
      BeginMonotone(al, order, i + 1, j);
    } else if j < i {
      BeginMonotone(al, order, j + 1, i);
    }
  }

  ghost predicate Owned(al: Alloc, code: Word) { exists n :: n in al.slots && Owns(al.slots[n], code) }

  /** Every code from 16 up to the end belongs to exactly one protocol, no other code to any, and the end
      is 16 plus `needed`. */
  ghost predicate Tiles(al: Alloc, needed: nat) {
    && al.offset == BASE_PROTOCOL_LENGTH + needed
    && (forall code: Word :: Owned(al, code) <==> BASE_PROTOCOL_LENGTH <= code < al.offset)
    && (forall code: Word, n, m | n in al.slots && m in al.slots && Owns(al.slots[n], code) && Owns(al.slots[m], code) :: n == m)
  }

  lemma TiledTiles(al: Alloc, order: seq<string>)
    requires Tiled(al, order) && al.offset == BASE_PROTOCOL_LENGTH + LengthSum(al, order)
    ensures Tiles(al, LengthSum(al, order))
  {
    hide Owns, Tiled, LengthSum;
    forall code: Word ensures Owned(al, code) <==> BASE_PROTOCOL_LENGTH <= code < al.offset {
      if BASE_PROTOCOL_LENGTH <= code < al.offset {
        var n := FindOwner(al, order, |order|, code);
      }
      if n :| n in al.slots && Owns(al.slots[n], code) {
        OneOwner(al, order, code, n, n);
      }
    }
    forall code: Word, n, m | n in al.slots && m in al.slots && Owns(al.slots[n], code) && Owns(al.slots[m], code) ensures n == m {
      OneOwner(al, order, code, n, m);
    }
  }

  /** Each name runs in the highest version both sides have; and the codes are tiled, 16 plus the lengths
      of what runs, exactly when they fit. */
  lemma MatchedTiles(protocols: seq<Protocol>, caps: seq<Cap>)
    ensures forall n :: Highest(protocols, caps, Matched(protocols, caps), n)
    ensures Tiles(Matched(protocols, caps), CodesNeeded(protocols, SortCaps(caps))) <==> Fits(protocols, caps)
  {
    var al, sorted := Matched(protocols, caps), SortCaps(caps);
    var order := MatchedChain(protocols, caps);
    forall n ensures Highest(protocols, caps, al, n) {
      assert Highest(protocols, sorted, al, n);
      HighestSameCaps(protocols, sorted, caps, al, n);
    }
    hide Highest, Match, SortCaps, CodesNeeded;
    if Fits(protocols, caps) {
      FitsTiled(al, order);
      TiledTiles(al, order);
    }
  }

  lemma HighestSameCaps(protocols: seq<Protocol>, sorted: seq<Cap>, caps: seq<Cap>, al: Alloc, n: string)
    requires Highest(protocols, sorted, al, n) && sorted == SortCaps(caps)
    ensures Highest(protocols, caps, al, n)
  {
    forall v: nat ensures Cap(n, v) in sorted <==> Cap(n, v) in caps {
      SortCapsSame(caps, Cap(n, v));
    }
  }

  lemma BothEmpty(a: seq<string>, b: seq<string>)
    requires forall n :: n in a <==> n in b
    ensures |a| == 0 <==> |b| == 0
  {
    if |a| > 0 {
      assert a[0] in b;
    }
    if |b| > 0 {
      assert b[0] in a;
    }
  }

  /** Ascending lists with the same elements are the same. */
  lemma {:induction false} AscendingUnique(a: seq<string>, b: seq<string>)
    requires forall i, j :: 0 <= i < j < |a| ==> NameLess(a[i], a[j])
    requires forall i, j :: 0 <= i < j < |b| ==> NameLess(b[i], b[j])
    requires forall n :: n in a <==> n in b
    ensures a == b
    decreases |a|
  {
    BothEmpty(a, b);
    if |a| > 0 {
      var x, y := a[|a| - 1], b[|b| - 1];
      assert x in a && y in b;
      NameTrichotomy(x, y);
      var a', b' := a[..|a| - 1], b[..|b| - 1];
      assert x == y;
      assert a == a' + [x] && b == b' + [x];
      forall n ensures n in a' <==> n in b' {
        NameTrichotomy(n, n);
        assert n in a' ==> n in a && n != x;
        assert n in b' ==> n in b && n != x;
      }
      AscendingUnique(a', b');
    }
  }

  /** Where a slot begins follows from the lengths alone, wrapped or not. */
  lemma {:induction false} SlotByLengths(al: Alloc, al': Alloc, order: seq<string>, i: nat)
    requires Chained(al, order) && Chained(al', order) && i <= |order|
    requires forall n | n in al.slots :: n in al'.slots && al.slots[n].length == al'.slots[n].length
    ensures Begin(al, order, i) == Begin(al', order, i)
  {
    hide NameLess;
    if i > 0 {
      SlotByLengths(al, al', order, i - 1);
      assert order[i - 1] in al.slots;
      assert Add64(Begin(al, order, i - 1), al.slots[order[i - 1]].length) == Begin(al, order, i);
      assert Add64(Begin(al', order, i - 1), al'.slots[order[i - 1]].length) == Begin(al', order, i);
    }
  }

  /** Chained allocations with the same names, versions and lengths are the same. */
  lemma ChainedUnique(al: Alloc, order: seq<string>, al': Alloc, order': seq<string>)
    requires Chained(al, order) && Chained(al', order')
    requires forall n :: n in al.slots <==> n in al'.slots
    requires forall n | n in al.slots :: al.slots[n].version == al'.slots[n].version && al.slots[n].length == al'.slots[n].length
    ensures al == al'
  {
    AscendingUnique(order, order');
    assert forall n :: n in al.slots <==> n in order;
    hide Chained, NameLess;
    forall n | n in al.slots ensures al.slots[n] == al'.slots[n] {
      var i :| 0 <= i < |order| && order[i] == n;
      SlotByLengths(al, al', order, i);
    }
    SlotByLengths(al, al', order, |order|);
    assert al.slots == al'.slots;
  }

  /** For every capability the two sides know, the name and version in both lists or in neither, with
      equal lengths. */
  ghost predicate SameShared(ps: seq<Protocol>, caps: seq<Cap>, ps': seq<Protocol>, caps': seq<Cap>) {
    forall c :: (c in caps && Find(ps, c).Some? <==> c in caps' && Find(ps', c).Some?)
             && (c in caps && Find(ps, c).Some? ==> Find(ps, c) == Find(ps', c))
  }

  lemma SameSharedSlots(ps: seq<Protocol>, caps: seq<Cap>, ps': seq<Protocol>, caps': seq<Cap>, al: Alloc, al': Alloc, n: string)
    requires SameShared(ps, caps, ps', caps') && Highest(ps, caps, al, n) && Highest(ps', caps', al', n)
    ensures n in al.slots <==> n in al'.slots
    ensures n in al.slots ==> al.slots[n].version == al'.slots[n].version && al.slots[n].length == al'.slots[n].length
  {
    if n in al.slots {
      var c := Cap(n, al.slots[n].version);
      assert c in caps' && Find(ps', c).Some?;
    }
    if n in al'.slots {
      var c := Cap(n, al'.slots[n].version);
      assert c in caps && Find(ps, c).Some?;
    }
  }

  /** The allocation is a function of what is shared: the order in which capabilities are listed, their
      repetitions, and protocols only one side has do not matter. */
  lemma MatchedBySharing(ps: seq<Protocol>, caps: seq<Cap>, ps': seq<Protocol>, caps': seq<Cap>)
    requires SameShared(ps, caps, ps', caps')
    ensures Matched(ps, caps) == Matched(ps', caps')
  {
    hide Match, SortCaps, SameShared, Highest, SortedCaps;
    SortCapsSorted(caps);
    SortCapsSorted(caps');
    var order := MatchGood(ps, SortCaps(caps));
    var order' := MatchGood(ps', SortCaps(caps'));
    var al, al' := Matched(ps, caps), Matched(ps', caps');
    forall n
      ensures n in al.slots <==> n in al'.slots
      ensures n in al.slots ==> al.slots[n].version == al'.slots[n].version && al.slots[n].length == al'.slots[n].length
    {
      assert Highest(ps, SortCaps(caps), al, n) && Highest(ps', SortCaps(caps'), al', n);
      HighestSameCaps(ps, SortCaps(caps), caps, al, n);
      HighestSameCaps(ps', SortCaps(caps'), caps', al', n);
      SameSharedSlots(ps, caps, ps', caps', al, al', n);
    }
    ChainedUnique(al, order, al', order');
  }

  /** The capabilities a node announces in its handshake. */
  function CapsOf(protocols: seq<Protocol>): seq<Cap> {
    seq(|protocols|, i requires 0 <= i < |protocols| => protocols[i].AsCap())
  }

  lemma {:induction false} FindIffAnnounced(protocols: seq<Protocol>, c: Cap)
    ensures Find(protocols, c).Some? <==> c in CapsOf(protocols)
  {
    if |protocols| > 0 {
      FindIffAnnounced(protocols[1..], c);
      assert CapsOf(protocols) == [protocols[0].AsCap()] + CapsOf(protocols[1..]);
    }
  }

  /** Two ends that give the same lengths to the versions they share come to the same allocation, each
      from its own protocols and the other's announcement. */
  lemma BothEndsAgree(ours: seq<Protocol>, theirs: seq<Protocol>)
    requires forall c :: Find(ours, c).Some? && Find(theirs, c).Some? ==> Find(ours, c) == Find(theirs, c)
    ensures Matched(ours, CapsOf(theirs)) == Matched(theirs, CapsOf(ours))
  {
    forall c
      ensures c in CapsOf(theirs) && Find(ours, c).Some? <==> c in CapsOf(ours) && Find(theirs, c).Some?
      ensures c in CapsOf(theirs) && Find(ours, c).Some? ==> Find(ours, c) == Find(theirs, c)
    {
      FindIffAnnounced(ours, c);
      FindIffAnnounced(theirs, c);
    }
    hide Find, CapsOf, Matched;
    MatchedBySharing(ours, CapsOf(theirs), theirs, CapsOf(ours));
  }

  // ---------- Codes on the wire ----------

  /** protoRW.WriteMsg: the code on the connection, unless the protocol has no such message. */
  function WireCode(s: Slot, code: Word): Option<Word> {
    if code >= s.length then None else Some(Add64(code, s.offset))
  }

  /** protoRW.ReadMsg: the protocol's own code. */
  function OwnCode(s: Slot, wire: Word): Word { Sub64(wire, s.offset) }

  /** A message of protocol n, with the code the protocol gave it, reaches protocol n and no other, with
      that code again, and is never taken for a base protocol message. */
  ghost predicate Reaches(here: Alloc, there: Alloc, n: string, code: Word)
    requires n in here.slots
  {
    var wire := WireCode(here.slots[n], code);
    && wire.Some? && wire.value >= BASE_PROTOCOL_LENGTH
    && (forall m | m in there.slots :: Owns(there.slots[m], wire.value) <==> m == n)
    && n in there.slots && OwnCode(there.slots[n], wire.value) == code
  }

  ghost predicate AllReach(here: Alloc, there: Alloc) {
    forall n, code: Word | n in here.slots && code < here.slots[n].length :: Reaches(here, there, n, code)
  }

  lemma TiledReaches(al: Alloc, order: seq<string>, n: string, code: Word)
    requires Tiled(al, order) && n in al.slots && code < al.slots[n].length
    ensures Reaches(al, al, n, code)
  {
    var i :| 0 <= i < |order| && order[i] == n;
    assert Begin(al, order, i) + al.slots[n].length == Begin(al, order, i + 1);
    BeginMonotone(al, order, i + 1, |order|);
    BeginMonotone(al, order, 0, i);
    var wire: Word := al.slots[n].offset + code;
    OwnsBetween(al, order, i, wire);
    hide Tiled;
    forall m | m in al.slots ensures Owns(al.slots[m], wire) <==> m == n {
      if Owns(al.slots[m], wire) {
        OneOwner(al, order, wire, n, m);
      }
    }
  }

  /** A slot that ends beyond 64 bits gets none of its messages. */
  lemma BeyondIsDeaf(s: Slot)
    requires s.offset + s.length >= TWO_TO_64
    ensures s.length > 0 && !Owns(s, WireCode(s, 0).value)
  {
  }

  /** Between two ends that give shared versions equal lengths every message of every protocol that runs
      reaches the same protocol at the other end, exactly when the codes fit. */
  lemma CodesReachIff(ours: seq<Protocol>, theirs: seq<Protocol>)
    requires forall c :: Find(ours, c).Some? && Find(theirs, c).Some? ==> Find(ours, c) == Find(theirs, c)
    ensures AllReach(Matched(ours, CapsOf(theirs)), Matched(theirs, CapsOf(ours))) <==> Fits(ours, CapsOf(theirs))
  {
    BothEndsAgree(ours, theirs);
    var al := Matched(ours, CapsOf(theirs));
    var order := MatchedChain(ours, CapsOf(theirs));
    assert Chained(al, order);
    hide Find, Highest, SortCaps, Match, Matched, CapsOf, CodesNeeded, Chained, NameLess;
    assert order[..|order|] == order;
    if Fits(ours, CapsOf(theirs)) {
      FitsTiled(al, order);
      hide Reaches;
      forall n, code: Word | n in al.slots && code < al.slots[n].length ensures Reaches(al, al, n, code) {
        TiledReaches(al, order, n, code);
      }
    } else {
      var i := FirstBeyond(al, order, |order|);
      BeginOfSlot(al, order, i);
      BeyondIsDeaf(al.slots[order[i]]);
      assert !Reaches(al, al, order[i], 0);
    }
  }

  lemma BeginOfSlot(al: Alloc, order: seq<string>, i: nat)
    requires Chained(al, order) && i < |order|
    ensures order[i] in al.slots && Begin(al, order, i) == al.slots[order[i]].offset
  {
    assert order[i] in al.slots;
  }

  const HUGE := Protocol("a", 1, TWO_TO_64 - 1)

  /** One input that does not fit: a protocol with 2^64 - 1 messages, shared by both ends. */
  lemma HugeDoesNotFit()
    ensures !Fits([HUGE], CapsOf([HUGE])) && !AllReach(Matched([HUGE], CapsOf([HUGE])), Matched([HUGE], CapsOf([HUGE])))
  {
    var caps := CapsOf([HUGE]);
    assert caps == [HUGE.AsCap()] && caps[1..] == [] && caps[..0] == [];
    assert SortCaps(caps) == caps by {
      assert SortCaps([]) == [];
    }
    assert Find([HUGE], HUGE.AsCap()) == Some(TWO_TO_64 - 1);
    assert Others([], "a") == [];
    CodesReachIff([HUGE], [HUGE]);
  }

  lemma MatchSnoc(ps: seq<Protocol>, caps: seq<Cap>, k: nat)
    requires k < |caps|
    ensures Match(ps, caps[..k + 1]) == Step(ps, Match(ps, caps[..k]), caps[k])
  {
    assert caps[..k + 1][..k] == caps[..k];
  }

  const THREE: seq<Protocol> := [Protocol("a", 1, 2), Protocol("b", 1, 3), Protocol("a", 2, 5)]

  const UNSORTED: seq<Cap> := [Cap("a", 1), Cap("b", 1), Cap("a", 2)]

  /** Without the sort, reverting an old version takes codes from another protocol: code 19 belongs to
      both names. */
  lemma UnsortedOverlaps()
    ensures var slots := Match(THREE, UNSORTED).slots;
            "a" in slots && "b" in slots && Owns(slots["a"], 19) && Owns(slots["b"], 19)
  {
    assert "a"[0] != "b"[0];
    var ps, caps := THREE, UNSORTED;
    assert ps[1..] == [ps[1], ps[2]] && ps[1..][1..] == [ps[2]] && ps[1..][1..][1..] == [];
    assert Find(ps, caps[0]) == Some(2);
    assert Find(ps[1..], caps[1]) == Some(3) && Find(ps, caps[1]) == Some(3);
    assert Find(ps[1..][1..], caps[2]) == Some(5) && Find(ps[1..], caps[2]) == Some(5) && Find(ps, caps[2]) == Some(5);
    hide Find;
    MatchSnoc(ps, caps, 0);
    MatchSnoc(ps, caps, 1);
    MatchSnoc(ps, caps, 2);
    assert caps[..0] == [] && caps[..3] == caps;
    var m1, m2 := Match(ps, caps[..1]), Match(ps, caps[..2]);
    assert m1 == Step(ps, NOTHING, caps[0]);
    assert m1.offset == 18 && m1.slots.Keys == {"a"} && m1.slots["a"] == Slot(1, 2, 16);
    assert m2 == Step(ps, m1, caps[1]);
    assert m2.offset == 21 && m2.slots["a"] == Slot(1, 2, 16) && m2.slots["b"] == Slot(1, 3, 18);
    assert Match(ps, caps) == Step(ps, m2, caps[2]);
  }

  // ---------- The loops ----------

  method MatchProtocols(protocols: seq<Protocol>, caps: seq<Cap>) returns (al: Alloc)
    ensures al == Matched(protocols, caps)
  {
    var sorted := SortCaps(caps);
    al := NOTHING;
    for i := 0 to |sorted|
      invariant al == Match(protocols, sorted[..i])
    {
      assert sorted[..i + 1][..i] == sorted[..i];
      ghost var before := al;
      var j := 0;
      while j < |protocols| && protocols[j].AsCap() != sorted[i]
        invariant 0 <= j <= |protocols| && Find(protocols[j..], sorted[i]) == Find(protocols, sorted[i])
      {
        assert protocols[j..][1..] == protocols[j + 1..];
        j := j + 1;
      }
      if j < |protocols| {
        al := Assign(al, sorted[i], protocols[j].length);
      }
    }
    assert sorted[..|sorted|] == sorted;
  }

  /** getProto ranges over the running protocols in any order: the choice of the first hit. */
  method GetProto(al: Alloc, code: Word) returns (r: Option<string>)
    ensures r.Some? ==> r.value in al.slots && Owns(al.slots[r.value], code)
    ensures r.None? ==> forall n | n in al.slots :: !Owns(al.slots[n], code)
    ensures (exists protocols, caps :: Fits(protocols, caps) && al == Matched(protocols, caps)) ==>
            && (r.Some? <==> BASE_PROTOCOL_LENGTH <= code < al.offset)
            && (forall n | n in al.slots && Owns(al.slots[n], code) :: r == Some(n))
  {
    var todo := al.slots.Keys;
    r := None;
    while todo != {}
      invariant todo <= al.slots.Keys
      invariant forall n | n in al.slots && n !in todo :: !Owns(al.slots[n], code)
      decreases todo
    {
      var n :| n in todo;
      if Owns(al.slots[n], code) {
        r := Some(n);
        break;
      }
      todo := todo - {n};
    }
    if protocols, caps :| Fits(protocols, caps) && al == Matched(protocols, caps) {
      MatchedTiles(protocols, caps);
      assert Owned(al, code) <==> BASE_PROTOCOL_LENGTH <= code < al.offset;
    }
  }
}
