/** The closest nodes of the table and the iterative lookup over the network
    (net/rlpx/p2p/discover/table.go). */
module Lookup {
  import opened Bits
  import opened NodeTable

  const ALPHA := 3

  function Distance(target: Id, n: Node): nat { Xor(target, n.id) }

  ghost predicate Sorted(target: Id, ns: seq<Node>) {
    forall i, j :: 0 <= i < j < |ns| ==> Distance(target, ns[i]) <= Distance(target, ns[j])
  }

  /** r holds the k nodes of `from` nearest to the target, in order of distance; `rest` are the others. */
  ghost predicate NearestOf(target: Id, k: nat, from: multiset<Node>, r: seq<Node>, rest: multiset<Node>) {
    && Sorted(target, r) && |r| <= k && (|r| < k ==> rest == multiset{})
    && from == multiset(r) + rest
    && forall x, y | x in r && y in rest :: Distance(target, x) <= Distance(target, y)
  }

  ghost predicate Nearest(target: Id, k: nat, from: multiset<Node>, r: seq<Node>) {
    exists rest :: NearestOf(target, k, from, r, rest)
  }

  // ---------- nodesByDistance ----------

  /** Whether ix is where n goes in a sorted list: behind everything at most as far. */
  ghost predicate SlotFor(target: Id, ns: seq<Node>, n: Node, ix: nat) {
    && ix <= |ns|
    && (forall j :: 0 <= j < ix ==> Distance(target, ns[j]) <= Distance(target, n))
    && (forall j :: ix <= j < |ns| ==> Distance(target, n) < Distance(target, ns[j]))
  }

  /** The list after inserting n at ix, cut to its former length once it is full. */
  function Inserted(ns: seq<Node>, n: Node, ix: nat, max: nat): seq<Node>
    requires ix <= |ns|
  {
    if |ns| < max then ns[..ix] + [n] + ns[ix..]
    else if ix == |ns| then ns
    else ns[..ix] + [n] + ns[ix..|ns| - 1]
  }

  lemma InsertedSorted(target: Id, ns: seq<Node>, n: Node, ix: nat, max: nat)
    requires Sorted(target, ns) && SlotFor(target, ns, n, ix)
    ensures Sorted(target, Inserted(ns, n, ix, max))
  {
    hide Distance;
  }

  /** Pushing a node on the k nearest gives the k nearest with that node. */
  lemma PushNearest(target: Id, k: nat, from: multiset<Node>, r: seq<Node>, n: Node, ix: nat)
    requires Nearest(target, k, from, r) && SlotFor(target, r, n, ix)
    ensures Nearest(target, k, from + multiset{n}, Inserted(r, n, ix, k))
  {
    var rest :| NearestOf(target, k, from, r, rest);
    var k' := |r|;
    assert k' <= k;
    hide NearestOf, SlotFor, Inserted;
    if k' < k {
      PushRoom(target, k, from, r, n, ix, rest);
    } else if ix == |r| {
      PushFar(target, k, from, r, n, ix, rest);
    } else {
      PushFull(target, k, from, r, n, ix, rest);
    }
  }

  lemma PushRoom(target: Id, k: nat, from: multiset<Node>, r: seq<Node>, n: Node, ix: nat, rest: multiset<Node>)
    requires NearestOf(target, k, from, r, rest) && SlotFor(target, r, n, ix) && |r| < k
    ensures NearestOf(target, k, from + multiset{n}, Inserted(r, n, ix, k), rest)
  {
    hide Distance;
    InsertedSorted(target, r, n, ix, k);
    assert r == r[..ix] + r[ix..];
    hide Sorted;
  }

  lemma PushFar(target: Id, k: nat, from: multiset<Node>, r: seq<Node>, n: Node, ix: nat, rest: multiset<Node>)
    requires NearestOf(target, k, from, r, rest) && SlotFor(target, r, n, ix) && |r| == k && ix == |r|
    ensures NearestOf(target, k, from + multiset{n}, Inserted(r, n, ix, k), rest + multiset{n})
  {
    hide Distance;
    forall x, y | x in r && y in rest + multiset{n} ensures Distance(target, x) <= Distance(target, y) {
      var j :| 0 <= j < |r| && r[j] == x;
    }
  }

  lemma PushFull(target: Id, k: nat, from: multiset<Node>, r: seq<Node>, n: Node, ix: nat, rest: multiset<Node>)
    requires NearestOf(target, k, from, r, rest) && SlotFor(target, r, n, ix) && |r| == k && ix < |r|
    ensures NearestOf(target, k, from + multiset{n}, Inserted(r, n, ix, k), rest + multiset{r[|r| - 1]})
  {
    hide Distance;
    var r', last := Inserted(r, n, ix, k), r[|r| - 1];
    InsertedSorted(target, r, n, ix, k);
    assert r == r[..ix] + r[ix..|r| - 1] + [last];
    forall x, y | x in r' && y in rest + multiset{last} ensures Distance(target, x) <= Distance(target, y) {
      FartherThanAll(target, r, n, ix, x, last);
      assert last in r;
    }
  }

  lemma FartherThanAll(target: Id, r: seq<Node>, n: Node, ix: nat, x: Node, last: Node)
    requires Sorted(target, r) && SlotFor(target, r, n, ix) && ix < |r| && last == r[|r| - 1]
    requires x in r[..ix] + [n] + r[ix..|r| - 1]
    ensures Distance(target, x) <= Distance(target, last)
  {
    hide Distance;
  }

  class NodesByDistance {
    const target: Id
    var entries: seq<Node>

    constructor (target: Id)
      ensures this.target == target && entries == []
    {
      this.target := target;
      entries := [];
    }

    /** push: binary search for the first entry farther away, then shift. */
    method PushNode(n: Node, max: nat)
      requires Sorted(target, entries)
      modifies this
      ensures exists ix | 0 <= ix <= |old(entries)| :: SlotFor(target, old(entries), n, ix) && entries == Inserted(old(entries), n, ix, max)
      ensures Sorted(target, entries)
    {
      hide Xor;
      var lo, hi := 0, |entries|;
      while lo < hi
        invariant 0 <= lo <= hi <= |entries| && entries == old(entries)
        invariant forall j :: 0 <= j < lo ==> Distance(target, entries[j]) <= Distance(target, n)
        invariant forall j :: hi <= j < |entries| ==> Distance(target, n) < Distance(target, entries[j])
      {
        var mid := (lo + hi) / 2;
        if Distance(target, entries[mid]) > Distance(target, n) {
          hi := mid;
        } else {
          lo := mid + 1;
        }
      }
      var ix := lo;
      ghost var ns := entries;
      assert SlotFor(target, ns, n, ix);
      InsertedSorted(target, ns, n, ix, max);
      var room := |entries| < max;
      if room {
        entries := entries + [n];
      }
      if ix < |entries| {
        // slide the entries from ix on down by one
        entries := entries[..ix] + [n] + entries[ix..|entries| - 1];
      }
      assert entries == Inserted(ns, n, ix, max);
    }
  }

  // ---------- closest ----------

  /** The live nodes of a list: those that have answered a liveness check. */
  ghost function Live(ns: seq<Node>): multiset<Node> {
    if |ns| == 0 then multiset{}
    else
      var n := ns[|ns| - 1];
      Live(ns[..|ns| - 1]) + if n.checks > 0 then multiset{n} else multiset{}
  }

  ghost function AllLive(bs: seq<Bucket>): multiset<Node> {
    if |bs| == 0 then multiset{} else AllLive(bs[..|bs| - 1]) + Live(bs[|bs| - 1].entries)
  }

  lemma EmptyNearest(target: Id, k: nat)
    ensures Nearest(target, k, multiset{}, [])
  {
    assert NearestOf(target, k, multiset{}, [], multiset{});
  }

  lemma NearestSorted(target: Id, k: nat, from: multiset<Node>, r: seq<Node>)
    requires Nearest(target, k, from, r)
    ensures Sorted(target, r) && |r| <= k
    ensures forall x | x in from :: x in r || (|r| == k && forall y | y in r :: Distance(target, y) <= Distance(target, x))
    ensures forall x | x in r :: x in from
  {
    hide Distance, Sorted;
    var rest :| NearestOf(target, k, from, r, rest);
    forall x | x in r ensures x in from {
      assert x in multiset(r);
    }
  }

  /** Pushes the live nodes of one bucket. */
  method PushLive(r: NodesByDistance, k: nat, es: seq<Node>, ghost before: multiset<Node>)
    requires Nearest(r.target, k, before, r.entries)
    modifies r
    ensures Nearest(r.target, k, before + Live(es), r.entries)
  {
    hide Nearest, Sorted, SlotFor, Inserted, Distance;
    assert before + Live(es[..0]) == before;
    for j := 0 to |es|
      invariant Nearest(r.target, k, before + Live(es[..j]), r.entries)
    {
      var n := es[j];
      ghost var from := before + Live(es[..j]);
      assert es[..j + 1][..j] == es[..j];
      assert before + Live(es[..j + 1]) == if n.checks > 0 then from + multiset{n} else from;
      hide Live;
      if n.checks > 0 {
        NearestSorted(r.target, k, from, r.entries);
        ghost var ns := r.entries;
        r.PushNode(n, k);
        ghost var ix :| 0 <= ix <= |ns| && SlotFor(r.target, ns, n, ix) && r.entries == Inserted(ns, n, ix, k);
        PushNearest(r.target, k, from, ns, n, ix);
      }
    }
    assert es[..|es|] == es;
  }

  /** closest: every live node of every bucket is pushed; what is left are the k nearest, in order. */
  method Closest(t: Tab, target: Id, k: nat) returns (r: NodesByDistance)
    ensures fresh(r) && r.target == target
    ensures Nearest(target, k, AllLive(t.buckets), r.entries)
  {
    hide Nearest, Live;
    r := new NodesByDistance(target);
    EmptyNearest(target, k);
    for i := 0 to |t.buckets|
      invariant Nearest(target, k, AllLive(t.buckets[..i]), r.entries)
    {
      assert t.buckets[..i + 1][..i] == t.buckets[..i];
      PushLive(r, k, t.buckets[i].entries, AllLive(t.buckets[..i]));
    }
    assert t.buckets[..|t.buckets|] == t.buckets;
  }

  /** No two different nodes are at the same distance. */
  ghost predicate TellsApart(target: Id, from: multiset<Node>) {
    forall x, y | x in from && y in from && Distance(target, x) == Distance(target, y) :: x == y
  }

  lemma NearestHead(target: Id, k: nat, from: multiset<Node>, r: seq<Node>, x: Node)
    requires Nearest(target, k, from, r) && |r| > 0 && x in from
    ensures r[0] in from && Distance(target, r[0]) <= Distance(target, x)
  {
    hide Distance;
    var rest :| NearestOf(target, k, from, r, rest);
    assert r[0] in multiset(r);
    if x !in rest {
      assert x in multiset(r);
    }
  }

  lemma NearestTail(target: Id, k: nat, from: multiset<Node>, r: seq<Node>)
    requires Nearest(target, k, from, r) && |r| > 0
    ensures Nearest(target, k - 1, from - multiset{r[0]}, r[1..])
  {
    hide Distance;
    var rest :| NearestOf(target, k, from, r, rest);
    assert r == [r[0]] + r[1..];
    assert NearestOf(target, k - 1, from - multiset{r[0]}, r[1..], rest);
  }

  lemma NearestLength(target: Id, k: nat, from: multiset<Node>, r: seq<Node>)
    requires Nearest(target, k, from, r)
    ensures |r| == if |from| < k then |from| else k
  {
    var rest :| NearestOf(target, k, from, r, rest);
    assert |multiset(r)| == |r|;
  }

  lemma HeadsAgree(target: Id, k: nat, from: multiset<Node>, r: seq<Node>, r': seq<Node>)
    requires TellsApart(target, from) && Nearest(target, k, from, r) && Nearest(target, k, from, r') && r != [] && r' != []
    ensures r[0] == r'[0] && TellsApart(target, from - multiset{r[0]})
  {
    hide Nearest, Distance;
    NearestSorted(target, k, from, r);
    NearestSorted(target, k, from, r');
    assert r[0] in r && r'[0] in r';
    NearestHead(target, k, from, r, r'[0]);
    NearestHead(target, k, from, r', r[0]);
  }

  /** There is only one such list: the k nearest are determined by the nodes alone. */
  lemma {:induction false} NearestUnique(target: Id, k: nat, from: multiset<Node>, r: seq<Node>, r': seq<Node>)
    requires TellsApart(target, from) && Nearest(target, k, from, r) && Nearest(target, k, from, r')
    ensures r == r'
    decreases |r|
  {
    hide Nearest, TellsApart;
    NearestLength(target, k, from, r);
    NearestLength(target, k, from, r');
    if r != [] {
      HeadsAgree(target, k, from, r, r');
      NearestTail(target, k, from, r);
      NearestTail(target, k, from, r');
      NearestUnique(target, k - 1, from - multiset{r[0]}, r[1..], r'[1..]);
      assert r == [r[0]] + r[1..] && r' == [r'[0]] + r'[1..];
    }
  }

  lemma XorInjective(t: nat, a: nat, b: nat)
    requires Xor(t, a) == Xor(t, b)
    ensures a == b
  {
    hide Xor;
    XorComm(t, a);
    XorComm(t, b);
    XorCancel(a, t);
    XorCancel(b, t);
  }

  lemma {:induction false} LiveIsHeld(ns: seq<Node>, x: Node) returns (k: nat)
    requires x in Live(ns)
    ensures k < |ns| && ns[k] == x
  {
    k := |ns| - 1;
    if ns[k] != x {
      k := LiveIsHeld(ns[..k], x);
    }
  }

  lemma {:induction false} AllLiveIsHeld(bs: seq<Bucket>, x: Node) returns (i: nat, k: nat)
    requires x in AllLive(bs)
    ensures i < |bs| && k < |bs[i].entries| && bs[i].entries[k] == x
  {
    i := |bs| - 1;
    if x in Live(bs[i].entries) {
      k := LiveIsHeld(bs[i].entries, x);
    } else {
      i, k := AllLiveIsHeld(bs[..i], x);
    }
  }

  /** In a table that was built by its operations the k nearest live nodes to any target are one
      definite list, the one that closest returns. */
  lemma ClosestIsDetermined(self: Id, ops: seq<Op>, target: Id, k: nat, r: seq<Node>, r': seq<Node>)
    requires Nearest(target, k, AllLive(Run(self, ops).buckets), r)
    requires Nearest(target, k, AllLive(Run(self, ops).buckets), r')
    ensures r == r'
  {
    hide Run, Nearest, AllLive, Xor, BucketOf, GoodShape;
    var t := Run(self, ops);
    forall x, y | x in AllLive(t.buckets) && y in AllLive(t.buckets) && Distance(target, x) == Distance(target, y)
      ensures x == y
    {
      XorInjective(target, x.id, y.id);
      var i, a := AllLiveIsHeld(t.buckets, x);
      var j, b := AllLiveIsHeld(t.buckets, y);
      UniqueAndPlaced(self, ops, Slot(i, false, a), Slot(j, false, b));
    }
    NearestUnique(target, k, AllLive(t.buckets), r, r');
  }

  // ---------- How often a node is in the result ----------

  /** How many members of m satisfy p. */
  ghost function CountIf(m: multiset<Node>, p: Node -> bool): nat
    decreases |m|
  {
    if m == multiset{} then 0
    else
      var x :| x in m;
      (if p(x) then 1 else 0) + CountIf(m - multiset{x}, p)
  }

  lemma {:induction false} CountAdd(m: multiset<Node>, x: Node, p: Node -> bool)
    ensures CountIf(m + multiset{x}, p) == CountIf(m, p) + if p(x) then 1 else 0
    decreases |m|
  {
    var m' := m + multiset{x};
    assert x in m';
    var y :| y in m' && CountIf(m', p) == (if p(y) then 1 else 0) + CountIf(m' - multiset{y}, p);
    if y == x {
      assert m' - multiset{y} == m;
    } else {
      var rest := m - multiset{y};
      assert m' - multiset{y} == rest + multiset{x} && m == rest + multiset{y};
      CountAdd(rest, x, p);
      CountAdd(rest, y, p);
    }
  }

  lemma {:induction false} CountUnion(a: multiset<Node>, b: multiset<Node>, p: Node -> bool)
    ensures CountIf(a + b, p) == CountIf(a, p) + CountIf(b, p)
    decreases |b|
  {
    if b == multiset{} {
      assert a + b == a;
    } else {
      var x :| x in b;
      var rest := b - multiset{x};
      assert b == rest + multiset{x} && a + b == (a + rest) + multiset{x};
      CountAdd(a + rest, x, p);
      CountAdd(rest, x, p);
      CountUnion(a, rest, p);
    }
  }

  lemma {:induction false} CountBounds(m: multiset<Node>, p: Node -> bool)
    ensures CountIf(m, p) <= |m|
    ensures CountIf(m, p) == 0 <==> forall x | x in m :: !p(x)
    ensures CountIf(m, p) == |m| <==> forall x | x in m :: p(x)
    decreases |m|
  {
    if m != multiset{} {
      var y :| y in m && CountIf(m, p) == (if p(y) then 1 else 0) + CountIf(m - multiset{y}, p);
      var rest := m - multiset{y};
      assert m == rest + multiset{y};
      CountBounds(rest, p);
    }
  }

  /** The nodes with an identifier, and the nodes nearer than a distance. */
  function Named(id: Id): Node -> bool { (n: Node) => n.id == id }

  function Within(target: Id, d: nat): Node -> bool { (n: Node) => Distance(target, n) < d }

  ghost function Times(m: multiset<Node>, id: Id): nat { CountIf(m, Named(id)) }

  ghost function Nearer(target: Id, m: multiset<Node>, d: nat): nat { CountIf(m, Within(target, d)) }

  /** The nodes at the distance of an identifier are those that carry it. */
  lemma {:induction false} AtDistance(target: Id, m: multiset<Node>, id: Id)
    ensures Nearer(target, m, Xor(target, id) + 1) == Nearer(target, m, Xor(target, id)) + Times(m, id)
    decreases |m|
  {
    if m != multiset{} {
      var x :| x in m;
      var rest := m - multiset{x};
      assert m == rest + multiset{x};
      AtDistance(target, rest, id);
      CountAdd(rest, x, Named(id));
      CountAdd(rest, x, Within(target, Xor(target, id)));
      CountAdd(rest, x, Within(target, Xor(target, id) + 1));
      if Distance(target, x) == Xor(target, id) {
        XorInjective(target, x.id, id);
      }
      hide Xor;
    }
  }

  function Least(a: nat, b: nat): nat { if a <= b then a else b }

  /** Of the nodes nearer than d the k nearest hold all there are, up to k. */
  lemma NearestCounts(target: Id, k: nat, from: multiset<Node>, r: seq<Node>, d: nat)
    requires Nearest(target, k, from, r)
    ensures Nearer(target, multiset(r), d) == Least(Nearer(target, from, d), k)
  {
    hide Distance, CountIf, Sorted;
    var p := Within(target, d);
    var rest :| NearestOf(target, k, from, r, rest);
    CountUnion(multiset(r), rest, p);
    CountBounds(multiset(r), p);
    CountBounds(rest, p);
    assert |multiset(r)| == |r|;
    if CountIf(rest, p) > 0 {
      assert rest != multiset{};
      var y :| y in rest && p(y);
      forall x | x in multiset(r) ensures p(x) {
        assert x in r;
        WithinTransitive(target, d, x, y);
      }
    }
  }

  lemma WithinTransitive(target: Id, d: nat, x: Node, y: Node)
    requires Within(target, d)(y) && Distance(target, x) <= Distance(target, y)
    ensures Within(target, d)(x)
  {
  }

  /** How often an identifier is among the k nearest: as often as there is room behind what is nearer. */
  lemma TimesAmongNearest(target: Id, k: nat, from: multiset<Node>, r: seq<Node>, id: Id)
    requires Nearest(target, k, from, r)
    ensures var n := Nearer(target, from, Xor(target, id));
            Times(multiset(r), id) == if n >= k then 0 else Least(Times(from, id), k - n)
  {
    hide Nearest, Nearer, Times, Xor;
    var d := Xor(target, id);
    AtDistance(target, from, id);
    AtDistance(target, multiset(r), id);
    NearestCounts(target, k, from, r, d);
    NearestCounts(target, k, from, r, d + 1);
  }

  lemma {:induction false} DistinctIff(ns: seq<Node>)
    ensures Distinct(ns) <==> forall id: Id :: Times(multiset(ns), id) <= 1
    decreases |ns|
  {
    hide CountIf;
    if |ns| == 0 {
      forall id: Id ensures Times(multiset(ns), id) == 0 {
        CountBounds(multiset(ns), Named(id));
      }
    } else {
      var init, x := ns[..|ns| - 1], ns[|ns| - 1];
      assert ns == init + [x] && multiset(ns) == multiset(init) + multiset{x};
      DistinctIff(init);
      forall id: Id ensures Times(multiset(ns), id) == Times(multiset(init), id) + if x.id == id then 1 else 0 {
        CountAdd(multiset(init), x, Named(id));
      }
      AbsentIff(init, x.id);
      hide Times;
      if Distinct(ns) {
        assert forall a :: 0 <= a < |init| ==> init[a] == ns[a];
        assert Distinct(init);
      } else if Distinct(init) {
        assert exists a :: 0 <= a < |init| && init[a].id == x.id;
      } else {
        assert exists id: Id :: Times(multiset(init), id) > 1;
      }
    }
  }

  lemma AbsentIff(ns: seq<Node>, id: Id)
    ensures Times(multiset(ns), id) == 0 <==> forall a :: 0 <= a < |ns| ==> ns[a].id != id
  {
    CountBounds(multiset(ns), Named(id));
    hide CountIf;
    if a :| 0 <= a < |ns| && ns[a].id == id {
      assert ns[a] in multiset(ns) && Named(id)(ns[a]);
    }
  }

  /** Two nodes of one identifier are both among the 16 nearest. */
  ghost predicate BothFit(target: Id, pushed: multiset<Node>, id: Id) {
    Nearer(target, pushed, Xor(target, id)) + 2 <= BUCKET_SIZE
  }

  /** Of nodes pushed at most once at the start and at most once later, none is in the result more than twice;
      and the result has no duplicates exactly when none of those pushed twice has both copies among the 16
      nearest. */
  lemma DuplicatesIff(target: Id, known: multiset<Node>, heard: multiset<Node>, result: seq<Node>)
    requires Nearest(target, BUCKET_SIZE, known + heard, result)
    requires forall id: Id :: Times(known, id) <= 1 && Times(heard, id) <= 1
    ensures forall id: Id :: Times(multiset(result), id) <= 2
    ensures forall id: Id | Times(multiset(result), id) == 2 :: Times(known, id) == 1 == Times(heard, id)
    ensures Distinct(result)
            <==> forall id: Id | Times(known, id) == 1 == Times(heard, id) :: !BothFit(target, known + heard, id)
  {
    hide Nearest, Nearer, Xor, Distinct;
    DistinctIff(result);
    forall id: Id
      ensures Times(multiset(result), id) <= Times(known, id) + Times(heard, id)
      ensures Times(multiset(result), id) == 2
              <==> Times(known, id) == 1 == Times(heard, id) && BothFit(target, known + heard, id)
    {
      TimesAmongNearest(target, BUCKET_SIZE, known + heard, result, id);
      CountUnion(known, heard, Named(id));
    }
    hide Times;
  }

  lemma {:induction false} LiveTimes(ns: seq<Node>, id: Id)
    requires Distinct(ns)
    ensures Times(Live(ns), id) <= if Has(ns, id) then 1 else 0
  {
    if |ns| == 0 {
      CountBounds(multiset{}, Named(id));
    } else {
      var init, n := ns[..|ns| - 1], ns[|ns| - 1];
      LiveTimes(init, id);
      CountAdd(Live(init), n, Named(id));
      assert Live(init) + multiset{} == Live(init);
      hide CountIf, Live;
      if Has(init, id) {
        var k :| 0 <= k < |init| && init[k].id == id;
        assert ns[k] == init[k];
      }
    }
  }

  /** The bucket of an identifier is the only one that adds to its count. */
  lemma {:induction false} AllLiveTimes(self: Id, bs: seq<Bucket>, id: Id)
    requires forall i :: 0 <= i < |bs| ==> Distinct(bs[i].entries)
    requires forall i, k :: 0 <= i < |bs| && 0 <= k < |bs[i].entries| ==> BucketOf(self, bs[i].entries[k].id) == i
    ensures Times(AllLive(bs), id) <= if BucketOf(self, id) < |bs| then 1 else 0
  {
    hide BucketOf, CountIf;
    if |bs| == 0 {
      CountBounds(multiset{}, Named(id));
    } else {
      var last := |bs| - 1;
      AllLiveTimes(self, bs[..last], id);
      LiveTimes(bs[last].entries, id);
      CountUnion(AllLive(bs[..last]), Live(bs[last].entries), Named(id));
      hide AllLive, Live;
      if Has(bs[last].entries, id) {
        assert BucketOf(self, id) == last;
      }
    }
  }

  /** A table that was built by its operations holds each live node once. */
  lemma KnownOnce(self: Id, ops: seq<Op>, id: Id)
    ensures Times(AllLive(Run(self, ops).buckets), id) <= 1
  {
    var t := Run(self, ops);
    hide Run, BucketOf, WithinLimits, Times, AllLive;
    forall i | 0 <= i < |t.buckets|
      ensures Distinct(t.buckets[i].entries)
      ensures forall k :: 0 <= k < |t.buckets[i].entries| ==> BucketOf(self, t.buckets[i].entries[k].id) == i
    {
      assert GoodLists(self, i, t.Entries(i), t.Spare(i));
    }
    AllLiveTimes(self, t.buckets, id);
  }

  // ---------- lookup ----------

  /** What the lookup waits for: the nodes of the next answer, whoever sent it, or the shutdown of the
      table. */
  datatype Arrival = Answer(nodes: seq<Node>) | Shutdown

  /** What the lookup does: it asks a node, or takes an answer. */
  datatype Mark = Asked(id: Id) | Got

  function Gots(trace: seq<Mark>): nat {
    if |trace| == 0 then 0 else Gots(trace[..|trace| - 1]) + if trace[|trace| - 1].Got? then 1 else 0
  }

  function InFlight(trace: seq<Mark>): int {
    if |trace| == 0 then 0 else InFlight(trace[..|trace| - 1]) + if trace[|trace| - 1].Got? then -1 else 1
  }

  lemma Extend(trace: seq<Mark>, m: Mark)
    ensures Gots(trace + [m]) == Gots(trace) + if m.Got? then 1 else 0
    ensures InFlight(trace + [m]) == InFlight(trace) + if m.Got? then -1 else 1
  {
    assert (trace + [m])[..|trace|] == trace;
  }

  /** At every moment between none and ALPHA queries were unanswered, no node was asked twice and the
      local node never. */
  ghost predicate Disciplined(self: Id, trace: seq<Mark>) {
    && (forall k :: 0 <= k <= |trace| ==> 0 <= InFlight(trace[..k]) <= ALPHA)
    && (forall i, j :: 0 <= i < j < |trace| && trace[i].Asked? ==> trace[i] != trace[j])
    && Asked(self) !in trace
  }

  lemma ExtendDisciplined(self: Id, trace: seq<Mark>, m: Mark)
    requires Disciplined(self, trace) && 0 <= InFlight(trace + [m]) <= ALPHA
    requires m.Asked? ==> m !in trace && m.id != self
    ensures Disciplined(self, trace + [m])
  {
    var trace' := trace + [m];
    forall k | 0 <= k <= |trace'| ensures 0 <= InFlight(trace'[..k]) <= ALPHA {
      if k <= |trace| {
        assert trace'[..k] == trace[..k];
      } else {
        assert trace'[..k] == trace';
      }
    }
    hide InFlight;
  }

  /** n is in the result, or the result is full of nodes at least as near. */
  ghost predicate Considered(target: Id, result: seq<Node>, n: Node) {
    || (exists m :: m in result && m.id == n.id)
    || (|result| == BUCKET_SIZE && forall m | m in result :: Distance(target, m) <= Distance(target, n))
  }

  predicate InRange(x: Id) { x < Pow2(256) }

  ghost function Unasked(asked: set<Id>): nat {
    |(set x: Id | 0 <= x < Pow2(256) && InRange(x)) - asked|
  }

  lemma AskShrinks(asked: set<Id>, id: Id)
    requires id !in asked
    ensures Unasked(asked + {id}) < Unasked(asked)
  {
    hide Pow2;
    var all := set x: Id | 0 <= x < Pow2(256) && InRange(x);
    assert InRange(id) && id in all;
    assert all - (asked + {id}) == (all - asked) - {id};
  }

  lemma HeardConsidered(target: Id, pushed: multiset<Node>, result: seq<Node>, n: Node, x: Node)
    requires Nearest(target, BUCKET_SIZE, pushed, result) && x in pushed && x.id == n.id
    ensures Considered(target, result, n)
  {
    hide Nearest, Sorted, Xor;
    NearestSorted(target, BUCKET_SIZE, pushed, result);
  }

  /** The nodes pushed from answers carry each identifier seen once, and no other. */
  ghost predicate HeardOnce(heard: multiset<Node>, seen: set<Id>) {
    forall id: Id :: Times(heard, id) == if id in seen then 1 else 0
  }

  lemma HearOne(heard: multiset<Node>, seen: set<Id>, n: Node)
    requires HeardOnce(heard, seen) && n.id !in seen
    ensures HeardOnce(heard + multiset{n}, seen + {n.id})
  {
    hide CountIf;
    forall id: Id ensures Times(heard + multiset{n}, id) == if id in seen + {n.id} then 1 else 0 {
      CountAdd(heard, n, Named(id));
    }
  }

  /** An answer is worked in: unseen nodes are pushed. */
  method TakeAnswer(result: NodesByDistance, nodes: seq<Node>, seen: set<Id>, ghost known: multiset<Node>, ghost heard: multiset<Node>)
    returns (seen': set<Id>, ghost heard': multiset<Node>)
    requires Nearest(result.target, BUCKET_SIZE, known + heard, result.entries) && HeardOnce(heard, seen)
    modifies result
    ensures Nearest(result.target, BUCKET_SIZE, known + heard', result.entries) && HeardOnce(heard', seen')
    ensures seen' == seen + (set n | n in nodes :: n.id)
  {
    hide Nearest, Sorted, SlotFor, Inserted, Distance, HeardOnce;
    seen', heard' := seen, heard;
    for j := 0 to |nodes|
      invariant Nearest(result.target, BUCKET_SIZE, known + heard', result.entries) && HeardOnce(heard', seen')
      invariant seen' == seen + (set n | n in nodes[..j] :: n.id)
    {
      var n := nodes[j];
      assert nodes[..j + 1] == nodes[..j] + [n];
      if n.id !in seen' {
        NearestSorted(result.target, BUCKET_SIZE, known + heard', result.entries);
        ghost var ns := result.entries;
        result.PushNode(n, BUCKET_SIZE);
        ghost var ix :| 0 <= ix <= |ns| && SlotFor(result.target, ns, n, ix) && result.entries == Inserted(ns, n, ix, BUCKET_SIZE);
        PushNearest(result.target, BUCKET_SIZE, known + heard', ns, n, ix);
        HearOne(heard', seen', n);
        assert known + heard' + multiset{n} == known + (heard' + multiset{n});
        seen', heard' := seen' + {n.id}, heard' + multiset{n};
      }
    }
    assert nodes[..|nodes|] == nodes;
  }

  /** Asks entries not asked before, nearest first, up to ALPHA pending queries. */
  method AskClosest(self: Id, entries: seq<Node>, asked: set<Id>, pending: nat, trace: seq<Mark>)
    returns (asked': set<Id>, pending': nat, trace': seq<Mark>)
    requires pending <= ALPHA && InFlight(trace) == pending && Disciplined(self, trace)
    requires asked == {self} + (set m | m in trace && m.Asked? :: m.id)
    ensures pending <= pending' <= ALPHA && InFlight(trace') == pending' && Disciplined(self, trace')
    ensures asked' == {self} + (set m | m in trace' && m.Asked? :: m.id) && asked <= asked'
    ensures Gots(trace') == Gots(trace)
    ensures pending' < ALPHA ==> forall n | n in entries :: n.id in asked'
    ensures (asked' == asked && pending' == pending) || Unasked(asked') < Unasked(asked)
  {
    hide Unasked, Disciplined, Gots, InFlight;
    asked', pending', trace' := asked, pending, trace;
    var i := 0;
    while i < |entries| && pending' < ALPHA
      invariant i <= |entries|
      invariant pending <= pending' <= ALPHA && InFlight(trace') == pending' && Disciplined(self, trace')
      invariant asked' == {self} + (set m | m in trace' && m.Asked? :: m.id) && asked <= asked'
      invariant Gots(trace') == Gots(trace)
      invariant forall j :: 0 <= j < i ==> entries[j].id in asked'
      invariant (asked' == asked && pending' == pending) || Unasked(asked') < Unasked(asked)
    {
      var id := entries[i].id;
      if id !in asked' {
        Extend(trace', Asked(id));
        ExtendDisciplined(self, trace', Asked(id));
        AskShrinks(asked', id);
        asked', pending', trace' := asked' + {id}, pending' + 1, trace' + [Asked(id)];
      }
      i := i + 1;
    }
  }

  /** The live nodes a lookup starts from: the table's, after a refresh if it has none. */
  ghost function Known(table: Tab, refreshed: Tab, refreshIfEmpty: bool): multiset<Node> {
    if AllLive(table.buckets) == multiset{} && refreshIfEmpty then AllLive(refreshed.buckets) else AllLive(table.buckets)
  }

  /** The identifiers named by the first n arrivals. */
  ghost function NamedIn(arrivals: nat -> Arrival, n: nat): set<Id> {
    if n == 0 then {}
    else NamedIn(arrivals, n - 1) + if arrivals(n - 1).Answer? then (set x | x in arrivals(n - 1).nodes :: x.id) else {}
  }

  lemma {:induction false} NamedInHas(arrivals: nat -> Arrival, n: nat, k: nat, x: Node)
    requires k < n && arrivals(k).Answer? && x in arrivals(k).nodes
    ensures x.id in NamedIn(arrivals, n)
  {
    if k < n - 1 {
      NamedInHas(arrivals, n - 1, k, x);
    }
  }

  lemma HeardIsPushed(target: Id, known: multiset<Node>, heard: multiset<Node>, seen: set<Id>, result: seq<Node>, n: Node)
    requires Nearest(target, BUCKET_SIZE, known + heard, result) && HeardOnce(heard, seen) && n.id in seen
    ensures Considered(target, result, n)
  {
    hide Nearest, CountIf;
    CountBounds(heard, Named(n.id));
    assert Times(heard, n.id) == 1;
    var x :| x in heard && Named(n.id)(x);
    HeardConsidered(target, known + heard, result, n, x);
  }

  /** lookup, over any sequence of arrivals. It always ends, and its trace is disciplined. When it is
      not cut short, nothing is in flight; the result is the 16 nearest, in order, of the nodes it began with
      and of one node for each identifier named by an answer, all of them asked; so it leaves out only nodes
      no nearer than any it holds. */
  method LookupNodes(self: Id, table: Tab, refreshed: Tab, target: Id, refreshIfEmpty: bool, arrivals: nat -> Arrival)
    returns (result: seq<Node>, stopped: bool, trace: seq<Mark>, ghost heard: multiset<Node>)
    ensures Disciplined(self, trace)
    ensures forall k :: 0 <= k < Gots(trace) ==> arrivals(k).Answer?
    ensures stopped <==> InFlight(trace) > 0
    ensures stopped ==> arrivals(Gots(trace)).Shutdown? && result == []
    ensures !stopped ==> Sorted(target, result) && |result| <= BUCKET_SIZE
    ensures !stopped ==> forall n | n in result :: n.id == self || Asked(n.id) in trace
    ensures !stopped ==> forall k, n :: 0 <= k < Gots(trace) && n in arrivals(k).nodes ==> Considered(target, result, n)
    ensures !stopped ==> forall n | n in Known(table, refreshed, refreshIfEmpty) :: Considered(target, result, n)
    ensures !stopped ==> Nearest(target, BUCKET_SIZE, Known(table, refreshed, refreshIfEmpty) + heard, result)
    ensures HeardOnce(heard, NamedIn(arrivals, Gots(trace)))
  {
    hide Nearest, Sorted, Known, Distance, Unasked, InFlight, Gots, Disciplined, Considered, HeardOnce, NamedIn;
    var list := StartingNodes(table, refreshed, target, refreshIfEmpty);
    ghost var known := Known(table, refreshed, refreshIfEmpty);
    var asked, seen, pending := {self}, {}, 0;
    trace, stopped, result, heard := [], false, [], multiset{};
    EmptyTrace(self);
    NothingHeard(arrivals);
    assert known + heard == known;
    while true
      invariant list.target == target && Nearest(target, BUCKET_SIZE, known + heard, list.entries)
      invariant pending <= ALPHA && InFlight(trace) == pending && Disciplined(self, trace)
      invariant asked == {self} + (set m | m in trace && m.Asked? :: m.id)
      invariant forall k :: 0 <= k < Gots(trace) ==> arrivals(k).Answer?
      invariant seen == NamedIn(arrivals, Gots(trace)) && HeardOnce(heard, seen)
      decreases Unasked(asked), pending
    {
      asked, pending, trace := AskClosest(self, list.entries, asked, pending, trace);
      if pending == 0 {
        break;
      }
      var arrival := arrivals(Gots(trace));
      if arrival.Shutdown? {
        result, stopped := [], true;
        return;
      }
      seen, heard := TakeAnswer(list, arrival.nodes, seen, known, heard);
      Extend(trace, Got);
      ExtendDisciplined(self, trace, Got);
      NamedNext(arrivals, Gots(trace));
      pending, trace := pending - 1, trace + [Got];
    }
    result := list.entries;
    NearestSorted(target, BUCKET_SIZE, known + heard, result);
    AllConsidered(target, known, heard, arrivals, Gots(trace), result);
  }

  /** The closest nodes of the table, looked up again after a refresh if there are none. */
  method StartingNodes(table: Tab, refreshed: Tab, target: Id, refreshIfEmpty: bool) returns (list: NodesByDistance)
    ensures fresh(list) && list.target == target
    ensures Nearest(target, BUCKET_SIZE, Known(table, refreshed, refreshIfEmpty), list.entries)
  {
    hide Nearest, AllLive;
    list := Closest(table, target, BUCKET_SIZE);
    NearestLength(target, BUCKET_SIZE, AllLive(table.buckets), list.entries);
    if |list.entries| == 0 && refreshIfEmpty {
      list := Closest(refreshed, target, BUCKET_SIZE);
    }
  }

  lemma AllConsidered(
    target: Id, known: multiset<Node>, heard: multiset<Node>, arrivals: nat -> Arrival, gots: nat, result: seq<Node>)
    requires Nearest(target, BUCKET_SIZE, known + heard, result) && HeardOnce(heard, NamedIn(arrivals, gots))
    requires forall k :: 0 <= k < gots ==> arrivals(k).Answer?
    ensures forall k, n :: 0 <= k < gots && n in arrivals(k).nodes ==> Considered(target, result, n)
    ensures forall n | n in known :: Considered(target, result, n)
  {
    hide Nearest, HeardOnce, NamedIn, Considered;
    forall k, n | 0 <= k < gots && n in arrivals(k).nodes ensures Considered(target, result, n) {
      NamedInHas(arrivals, gots, k, n);
      HeardIsPushed(target, known, heard, NamedIn(arrivals, gots), result, n);
    }
    forall n | n in known ensures Considered(target, result, n) {
      HeardConsidered(target, known + heard, result, n, n);
    }
  }

  lemma NamedNext(arrivals: nat -> Arrival, n: nat)
    requires arrivals(n).Answer?
    ensures NamedIn(arrivals, n + 1) == NamedIn(arrivals, n) + (set x | x in arrivals(n).nodes :: x.id)
  {
  }

  lemma NothingHeard(arrivals: nat -> Arrival)
    ensures HeardOnce(multiset{}, {}) && NamedIn(arrivals, 0) == {}
  {
    forall id: Id ensures Times(multiset{}, id) == 0 {
      CountBounds(multiset{}, Named(id));
    }
  }

  /** What a lookup over tables built by their operations returns: no identifier more than twice, and twice
      exactly those that it began with, that an answer named, and of which both copies are among the 16
      nearest. */
  lemma LookupDuplicates(
    self: Id, ops: seq<Op>, ops': seq<Op>, refreshIfEmpty: bool, target: Id, named: set<Id>, heard: multiset<Node>, result: seq<Node>)
    requires var known := Known(Run(self, ops), Run(self, ops'), refreshIfEmpty);
             Nearest(target, BUCKET_SIZE, known + heard, result) && HeardOnce(heard, named)
    ensures var known := Known(Run(self, ops), Run(self, ops'), refreshIfEmpty);
            && (forall id: Id :: Times(multiset(result), id) <= 2)
            && (forall id: Id | Times(multiset(result), id) == 2 :: Times(known, id) == 1 && id in named)
            && (Distinct(result) <==> forall id: Id | Times(known, id) == 1 && id in named :: !BothFit(target, known + heard, id))
  {
    var known := Known(Run(self, ops), Run(self, ops'), refreshIfEmpty);
    hide Nearest, Run, Times, BothFit, Distinct, AllLive;
    forall id: Id ensures Times(known, id) <= 1 {
      KnownOnce(self, ops, id);
      KnownOnce(self, ops', id);
    }
    DuplicatesIff(target, known, heard, result);
  }

  lemma EmptyTrace(self: Id)
    ensures InFlight([]) == 0 && Gots([]) == 0 && Disciplined(self, [])
  {
  }

  // ---------- A duplicate ----------

  lemma {:induction false} NothingTaken(trace: seq<Mark>)
    requires Gots(trace) == 0
    ensures InFlight(trace) == |trace|
  {
    if |trace| > 0 {
      NothingTaken(trace[..|trace| - 1]);
    }
  }

  lemma {:induction false} NamedOnly(arrivals: nat -> Arrival, n: Node, gots: nat)
    requires forall k: nat :: arrivals(k) == Answer([n])
    ensures NamedIn(arrivals, gots) == if gots == 0 then {} else {n.id}
  {
    if gots > 0 {
      NamedOnly(arrivals, n, gots - 1);
    }
  }

  /** Only nodes of n's identifier have been pushed. */
  lemma OnlyNamesakes(n: Node, heard: multiset<Node>, named: set<Id>)
    requires HeardOnce(heard, named) && named <= {n.id}
    ensures forall x | x in multiset{n} + heard :: x.id == n.id
    ensures Times(multiset{n}, n.id) == 1 && forall id: Id :: Times(multiset{n}, id) <= 1
  {
    hide CountIf;
    forall x | x in heard ensures x.id == n.id {
      CountBounds(heard, Named(x.id));
      assert Named(x.id)(x) && Times(heard, x.id) > 0;
    }
    forall id: Id ensures Times(multiset{n}, id) == if id == n.id then 1 else 0 {
      CountBounds(multiset{n}, Named(id));
      CountAdd(multiset{}, n, Named(id));
      assert multiset{} + multiset{n} == multiset{n};
      CountBounds(multiset{}, Named(id));
    }
  }

  lemma TwiceInResult(n: Node, target: Id, heard: multiset<Node>, result: seq<Node>)
    requires Nearest(target, BUCKET_SIZE, multiset{n} + heard, result) && HeardOnce(heard, {n.id})
    ensures !Distinct(result)
  {
    hide Nearest, Xor, CountIf, Distinct;
    OnlyNamesakes(n, heard, {n.id});
    CountBounds(multiset{n} + heard, Within(target, Xor(target, n.id)));
    assert BothFit(target, multiset{n} + heard, n.id);
    DuplicatesIff(target, multiset{n}, heard, result);
  }

  /** An input with a duplicate: the one live node of the table answers with itself. Whatever the target, the
      lookup returns it twice. */
  method NamesItself(self: Id, n: Node, table: Tab, target: Id) returns (result: seq<Node>)
    requires AllLive(table.buckets) == multiset{n} && n.id != self
    ensures !Distinct(result) && |result| == 2 && result[0].id == n.id == result[1].id
  {
    hide Nearest, Xor, CountIf, Distinct, Disciplined, HeardOnce, InFlight, Gots, NamedIn, AllLive, Sorted;
    var arrivals := (k: nat) => Answer([n]);
    var stopped, trace;
    ghost var heard;
    result, stopped, trace, heard := LookupNodes(self, table, table, target, true, arrivals);
    NamedOnly(arrivals, n, Gots(trace));
    OnlyNamesakes(n, heard, NamedIn(arrivals, Gots(trace)));
    NearestLength(target, BUCKET_SIZE, multiset{n} + heard, result);
    NearestSorted(target, BUCKET_SIZE, multiset{n} + heard, result);
    assert result[0] in result && result[0].id == n.id;
    assert Asked(n.id) in trace;
    if Gots(trace) == 0 {
      NothingTaken(trace);
    }
    TwiceInResult(n, target, heard, result);
    HeardSize(n, heard);
    assert result[1] in result;
  }

  lemma HeardSize(n: Node, heard: multiset<Node>)
    requires HeardOnce(heard, {n.id})
    ensures |heard| == 1
  {
    hide CountIf;
    forall x | x in heard ensures Named(n.id)(x) {
      CountBounds(heard, Named(x.id));
      assert Named(x.id)(x) && Times(heard, x.id) > 0;
    }
    CountBounds(heard, Named(n.id));
    assert Times(heard, n.id) == 1;
  }

  /** There is such a table: the local node 0 has seen node 1, which has answered a check. */
  lemma OneLiveTable()
    ensures var n := SubnetSeven(1).(checks := 1); AllLive(Run(0, [Seen(n)]).buckets) == multiset{n} && n.id != 0
  {
    var n := SubnetSeven(1).(checks := 1);
    RunSnoc(0, [Seen(n)], 0);
    assert [Seen(n)][..1] == [Seen(n)] && [Seen(n)][..0] == [];
    hide BucketOf, Run;
    var bs := AddSeenNode(0, EmptyTable(), n).buckets;
    assert bs[0].entries == [n] && forall i :: 0 < i < |bs| ==> bs[i].entries == [];
    FirstBucketOnly(bs, n);
  }

  lemma {:induction false} FirstBucketOnly(bs: seq<Bucket>, n: Node)
    requires |bs| > 0 && bs[0].entries == [n] && n.checks > 0 && forall i :: 0 < i < |bs| ==> bs[i].entries == []
    ensures AllLive(bs) == multiset{n}
  {
    if |bs| == 1 {
      assert Live([n]) == Live([]) + multiset{n} == multiset{n} by {
        assert [n][..0] == [];
      }
      assert bs[..0] == [] && AllLive(bs) == AllLive([]) + Live(bs[0].entries);
    } else {
      FirstBucketOnly(bs[..|bs| - 1], n);
    }
  }
}
