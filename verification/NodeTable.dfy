/** The Kademlia node table: buckets by log distance, replacement lists and the counters that limit
    how many addresses of one subnet the table holds (net/rlpx/p2p/discover/table.go). */
module NodeTable {
  import opened Bits

  const BUCKET_SIZE := 16
  const MAX_REPLACEMENTS := 10
  const N_BUCKETS := 17
  const BUCKET_MIN_DISTANCE := 239
  const BUCKET_IP_LIMIT := 2
  const TABLE_IP_LIMIT := 10

  type Id = x: nat | x < Pow2(256)

  /** An IP address: its /24 network, the rest of it, and whether it is a local-network address. */
  datatype Addr = Addr(subnet: nat, host: nat, lan: bool)

  datatype Node = Node(id: Id, addr: Addr, checks: nat)

  type pos = n: nat | n > 0 witness 1

  /** A set of addresses, counted by subnet. */
  type Counters = map<nat, pos>

  datatype Bucket = Bucket(entries: seq<Node>, replacements: seq<Node>, ips: Counters)

  datatype Tab = Tab(buckets: seq<Bucket>, ips: Counters)
  {
    function Entries(i: nat): seq<Node>
      requires i < |buckets|
    { buckets[i].entries }

    function Spare(i: nat): seq<Node>
      requires i < |buckets|
    { buckets[i].replacements }

    function WithEntries(i: nat, ns: seq<Node>): Tab
      requires i < |buckets|
    { this.(buckets := buckets[i := buckets[i].(entries := ns)]) }

    function WithSpare(i: nat, ns: seq<Node>): Tab
      requires i < |buckets|
    { this.(buckets := buckets[i := buckets[i].(replacements := ns)]) }

    function WithIps(i: nat, inTable: Counters, inBucket: Counters): Tab
      requires i < |buckets|
    { Tab(buckets[i := buckets[i].(ips := inBucket)], inTable) }
  }

  const EMPTY_BUCKET := Bucket([], [], map[])

  function EmptyTable(): Tab { Tab(seq(N_BUCKETS, _ => EMPTY_BUCKET), map[]) }

  // ---------- Counters ----------

  function Count(m: Counters, s: nat): nat { if s in m then m[s] else 0 }

  function Inc(m: Counters, s: nat): (r: Counters)
    ensures Count(r, s) == Count(m, s) + 1
    ensures forall s' :: s' != s ==> Count(r, s') == Count(m, s')
  {
    m[s := Count(m, s) + 1]
  }

  /** Removing from an empty counter changes nothing. */
  function Dec(m: Counters, s: nat): (r: Counters)
    ensures Count(r, s) == if Count(m, s) == 0 then 0 else Count(m, s) - 1
    ensures forall s' :: s' != s ==> Count(r, s') == Count(m, s')
  {
    if s !in m then m else if m[s] == 1 then m - {s} else m[s := m[s] - 1]
  }

  lemma DecInc(m: Counters, s: nat)
    ensures Dec(Inc(m, s), s) == m
  {
    assert Dec(Inc(m, s), s) == m;
  }

  // ---------- Lists of nodes ----------

  /** The first position of id, or the length of the list. */
  function IndexOf(ns: seq<Node>, id: Id): (k: nat)
    ensures k <= |ns| && (k < |ns| ==> ns[k].id == id)
    ensures forall j :: 0 <= j < k ==> ns[j].id != id
  {
    if |ns| == 0 || ns[0].id == id then 0 else 1 + IndexOf(ns[1..], id)
  }

  predicate Has(ns: seq<Node>, id: Id) { exists k :: 0 <= k < |ns| && ns[k].id == id }

  function Delete(ns: seq<Node>, id: Id): seq<Node> {
    var k := IndexOf(ns, id);
    if k < |ns| then ns[..k] + ns[k + 1..] else ns
  }

  /** pushNode: to the front, dropping the last one of a full list. */
  function Push(ns: seq<Node>, n: Node, max: nat): seq<Node>
    requires max > 0
  {
    if |ns| < max then [n] + ns else [n] + ns[..|ns| - 1]
  }

  // ---------- Operations ----------

  /** The bucket of an identifier, by the bit length of its distance to the local node. */
  function BucketOf(self: Id, id: Id): (i: nat)
    ensures i < N_BUCKETS
  {
    DistanceBits(self, id);
    var d := BitLen(Xor(self, id));
    if d <= BUCKET_MIN_DISTANCE then 0 else d - BUCKET_MIN_DISTANCE - 1
  }

  lemma DistanceBits(self: Id, id: Id)
    ensures BitLen(Xor(self, id)) <= 256
  {
    XorBits(self, id, 256);
  }

  lemma XorBits(a: nat, b: nat, k: nat)
    requires a < Pow2(k) && b < Pow2(k)
    ensures BitLen(Xor(a, b)) <= k
  {
    hide Xor, Pow2;
    XorBound(a, b, k);
    var d := Xor(a, b);
    BitLenBounds(d);
    if BitLen(d) > k {
      Pow2Monotone(k, BitLen(d) - 1);
    }
  }

  function AddIP(t: Tab, i: nat, a: Addr): (Tab, bool)
    requires i < |t.buckets|
  {
    var inBucket := t.buckets[i].ips;
    if a.lan then (t, true)
    else if Count(t.ips, a.subnet) >= TABLE_IP_LIMIT then (t, false)
    else if Count(inBucket, a.subnet) >= BUCKET_IP_LIMIT then (t.(ips := Dec(Inc(t.ips, a.subnet), a.subnet)), false)
    else (t.WithIps(i, Inc(t.ips, a.subnet), Inc(inBucket, a.subnet)), true)
  }

  function RemoveIP(t: Tab, i: nat, a: Addr): Tab
    requires i < |t.buckets|
  {
    if a.lan then t else t.WithIps(i, Dec(t.ips, a.subnet), Dec(t.buckets[i].ips, a.subnet))
  }

  function AddReplacement(t: Tab, i: nat, n: Node): Tab
    requires i < |t.buckets|
  {
    if Has(t.Spare(i), n.id) then t
    else
      var (t1, ok) := AddIP(t, i, n.addr);
      if !ok then t1
      else
        var old' := t1.Spare(i);
        var t2 := t1.WithSpare(i, Push(old', n, MAX_REPLACEMENTS));
        if |old'| < MAX_REPLACEMENTS then t2 else RemoveIP(t2, i, old'[|old'| - 1].addr)
  }

  /** Moves the entry of n's identifier to the front, as n; false when there is none or when n's new
      address does not fit. */
  function BumpInBucket(t: Tab, i: nat, n: Node): (Tab, bool)
    requires i < |t.buckets|
  {
    var es := t.Entries(i);
    var k := IndexOf(es, n.id);
    if k == |es| then (t, false)
    else
      var (t1, ok) := if n.addr == es[k].addr then (t, true) else AddIP(RemoveIP(t, i, es[k].addr), i, n.addr);
      if ok then (t1.WithEntries(i, [n] + es[..k] + es[k + 1..]), true)
      else (AddIP(t1, i, es[k].addr).0, false)
  }

  function AddSeenNode(self: Id, t: Tab, n: Node): Tab
    requires |t.buckets| == N_BUCKETS
  {
    var i := BucketOf(self, n.id);
    if n.id == self || Has(t.Entries(i), n.id) then t
    else if |t.Entries(i)| >= BUCKET_SIZE then AddReplacement(t, i, n)
    else
      var (t1, ok) := AddIP(t, i, n.addr);
      if !ok then t1
      else t1.WithEntries(i, t1.Entries(i) + [n]).WithSpare(i, Delete(t1.Spare(i), n.id))
  }

  function AddVerifiedNode(self: Id, t: Tab, n: Node, initDone: bool): Tab
    requires |t.buckets| == N_BUCKETS
  {
    var i := BucketOf(self, n.id);
    if !initDone || n.id == self then t
    else
      var (t1, bumped) := BumpInBucket(t, i, n);
      if bumped then t1
      else if |t1.Entries(i)| >= BUCKET_SIZE then AddReplacement(t1, i, n)
      else
        var (t2, ok) := AddIP(t1, i, n.addr);
        if !ok then t2
        else t2.WithEntries(i, Push(t2.Entries(i), n, BUCKET_SIZE)).WithSpare(i, Delete(t2.Spare(i), n.id))
  }

  function DeleteInBucket(t: Tab, i: nat, n: Node): Tab
    requires i < |t.buckets|
  {
    RemoveIP(t.WithEntries(i, Delete(t.Entries(i), n.id)), i, n.addr)
  }

  /** Whether n has the identifier of the bucket's last entry. */
  predicate IsLast(t: Tab, i: nat, n: Node)
    requires i < |t.buckets|
  {
    |t.Entries(i)| > 0 && t.Entries(i)[|t.Entries(i)| - 1].id == n.id
  }

  /** Replaces the dead last entry by a replacement, the one at a random position `pick`. */
  function Replace(t: Tab, i: nat, last: Node, pick: nat): Tab
    requires i < |t.buckets| && pick < MAX_REPLACEMENTS
  {
    var es, rs := t.Entries(i), t.Spare(i);
    if !IsLast(t, i, last) then t
    else if |rs| == 0 then DeleteInBucket(t, i, last)
    else
      var r := rs[pick % |rs|];
      RemoveIP(t.WithSpare(i, Delete(rs, r.id)).WithEntries(i, es[..|es| - 1] + [r]), i, last.addr)
  }

  datatype Op =
    | Seen(node: Node)
    | Verified(node: Node, initDone: bool)
    | Revalidated(node: Node)                  // it answered: bumpInBucket
    | Died(node: Node, pick: nat)              // it did not: replace
    | Dropped(node: Node)                      // too many findnode failures: delete

  function Apply(self: Id, t: Tab, op: Op): Tab
    requires |t.buckets| == N_BUCKETS
  {
    var i := BucketOf(self, op.node.id);
    match op
    case Seen(n) => AddSeenNode(self, t, n)
    case Verified(n, initDone) => AddVerifiedNode(self, t, n, initDone)
    case Revalidated(n) => BumpInBucket(t, i, n).0
    case Died(n, pick) => Replace(t, i, n, pick % MAX_REPLACEMENTS)
    case Dropped(n) => DeleteInBucket(t, i, n)
  }

  // ---------- The shape of the table ----------

  ghost predicate Distinct(ns: seq<Node>) {
    forall a, b :: 0 <= a < b < |ns| ==> ns[a].id != ns[b].id
  }

  ghost predicate Apart(es: seq<Node>, rs: seq<Node>) {
    forall a, b :: 0 <= a < |es| && 0 <= b < |rs| ==> es[a].id != rs[b].id
  }

  /** Every identifier of the list satisfies the placement of bucket i. */
  ghost predicate Placed(self: Id, i: nat, ns: seq<Node>) {
    forall a :: 0 <= a < |ns| ==> ns[a].id != self && BucketOf(self, ns[a].id) == i
  }

  ghost predicate GoodLists(self: Id, i: nat, es: seq<Node>, rs: seq<Node>) {
    && |es| <= BUCKET_SIZE && |rs| <= MAX_REPLACEMENTS
    && Distinct(es) && Distinct(rs) && Apart(es, rs)
    && Placed(self, i, es) && Placed(self, i, rs)
  }

  ghost predicate WithinLimits(t: Tab) {
    && (forall s :: Count(t.ips, s) <= TABLE_IP_LIMIT)
    && (forall i, s :: 0 <= i < |t.buckets| ==> Count(t.buckets[i].ips, s) <= BUCKET_IP_LIMIT)
  }

  ghost predicate GoodShape(self: Id, t: Tab) {
    && |t.buckets| == N_BUCKETS && WithinLimits(t)
    && forall i :: 0 <= i < N_BUCKETS ==> GoodLists(self, i, t.Entries(i), t.Spare(i))
  }

  /** The lists are the same; only counters differ. */
  ghost predicate SameLists(t: Tab, t': Tab) {
    |t'.buckets| == |t.buckets|
    && forall i :: 0 <= i < |t.buckets| ==> t'.Entries(i) == t.Entries(i) && t'.Spare(i) == t.Spare(i)
  }

  lemma AddIPKeeps(t: Tab, i: nat, a: Addr)
    requires i < |t.buckets|
    ensures SameLists(t, AddIP(t, i, a).0)
    ensures WithinLimits(t) ==> WithinLimits(AddIP(t, i, a).0)
    ensures !AddIP(t, i, a).1 ==> AddIP(t, i, a).0 == t
  {
    DecInc(t.ips, a.subnet);
  }

  lemma RemoveIPKeeps(t: Tab, i: nat, a: Addr)
    requires i < |t.buckets|
    ensures SameLists(t, RemoveIP(t, i, a))
    ensures WithinLimits(t) ==> WithinLimits(RemoveIP(t, i, a))
  {
  }

  /** Replacing the lists of one bucket by good ones. */
  lemma ListsKeep(self: Id, t: Tab, t': Tab, i: nat)
    requires GoodShape(self, t) && WithinLimits(t') && |t'.buckets| == |t.buckets| && i < N_BUCKETS
    requires GoodLists(self, i, t'.Entries(i), t'.Spare(i))
    requires forall j :: 0 <= j < N_BUCKETS && j != i ==> t'.Entries(j) == t.Entries(j) && t'.Spare(j) == t.Spare(j)
    ensures GoodShape(self, t')
  {
    hide GoodLists, BucketOf;
    forall j | 0 <= j < N_BUCKETS ensures GoodLists(self, j, t'.Entries(j), t'.Spare(j)) {
      if j != i {
        assert GoodLists(self, j, t.Entries(j), t.Spare(j));
      }
    }
  }

  lemma CountersKeep(self: Id, t: Tab, t': Tab)
    requires GoodShape(self, t) && WithinLimits(t') && SameLists(t, t')
    ensures GoodShape(self, t')
  {
    hide GoodLists, BucketOf;
    forall j | 0 <= j < N_BUCKETS ensures GoodLists(self, j, t'.Entries(j), t'.Spare(j)) {
      assert GoodLists(self, j, t.Entries(j), t.Spare(j));
    }
  }

  // Each change to the two lists of a bucket keeps them good.

  /** Where the elements of a list are after a deletion. */
  lemma DeleteMap(ns: seq<Node>, id: Id)
    ensures var r, k := Delete(ns, id), IndexOf(ns, id);
            if k == |ns| then r == ns
            else |r| == |ns| - 1 && forall j :: 0 <= j < |r| ==> r[j] == ns[if j < k then j else j + 1]
  {
  }

  lemma DeleteDistinct(ns: seq<Node>, id: Id)
    requires Distinct(ns)
    ensures Distinct(Delete(ns, id)) && !Has(Delete(ns, id), id) && |Delete(ns, id)| <= |ns|
  {
    hide Delete, IndexOf;
    DeleteMap(ns, id);
  }

  lemma DeletePlaced(self: Id, i: nat, ns: seq<Node>, id: Id)
    requires Placed(self, i, ns)
    ensures Placed(self, i, Delete(ns, id))
  {
    hide Delete, IndexOf, BucketOf;
    DeleteMap(ns, id);
  }

  lemma DeleteApart(ns: seq<Node>, id: Id, other: seq<Node>)
    ensures Apart(other, ns) ==> Apart(other, Delete(ns, id))
    ensures Apart(ns, other) ==> Apart(Delete(ns, id), other)
  {
    hide Delete, IndexOf;
    DeleteMap(ns, id);
  }

  lemma DeleteFacts(self: Id, i: nat, ns: seq<Node>, id: Id, other: seq<Node>)
    requires Distinct(ns) && Placed(self, i, ns)
    ensures var r := Delete(ns, id);
            && Distinct(r) && Placed(self, i, r) && !Has(r, id) && |r| <= |ns|
            && (Apart(other, ns) ==> Apart(other, r)) && (Apart(ns, other) ==> Apart(r, other))
  {
    hide Delete, Distinct, Placed, Apart, Has;
    DeleteDistinct(ns, id);
    DeletePlaced(self, i, ns, id);
    DeleteApart(ns, id, other);
  }

  lemma AppendGood(self: Id, i: nat, es: seq<Node>, rs: seq<Node>, n: Node)
    requires GoodLists(self, i, es, rs) && !Has(es, n.id) && |es| < BUCKET_SIZE
    requires n.id != self && BucketOf(self, n.id) == i
    ensures GoodLists(self, i, es + [n], Delete(rs, n.id))
    ensures GoodLists(self, i, [n] + es, Delete(rs, n.id))
  {
    hide BucketOf, Delete;
    DeleteFacts(self, i, rs, n.id, es);
  }

  lemma ReplacementGood(self: Id, i: nat, es: seq<Node>, rs: seq<Node>, n: Node)
    requires GoodLists(self, i, es, rs) && !Has(es, n.id) && !Has(rs, n.id)
    requires n.id != self && BucketOf(self, n.id) == i
    ensures GoodLists(self, i, es, Push(rs, n, MAX_REPLACEMENTS))
  {
    hide BucketOf;
  }

  lemma DeleteGood(self: Id, i: nat, es: seq<Node>, rs: seq<Node>, id: Id)
    requires GoodLists(self, i, es, rs)
    ensures GoodLists(self, i, Delete(es, id), rs)
  {
    hide BucketOf, Delete;
    DeleteFacts(self, i, es, id, rs);
  }

  lemma BumpGood(self: Id, i: nat, es: seq<Node>, rs: seq<Node>, n: Node)
    requires GoodLists(self, i, es, rs) && IndexOf(es, n.id) < |es|
    ensures var k := IndexOf(es, n.id); GoodLists(self, i, [n] + es[..k] + es[k + 1..], rs)
  {
    hide GoodLists, BucketOf, IndexOf, Distinct, Has;
    HeldFacts(self, i, es, rs, n.id);
    DeleteGood(self, i, es, rs, n.id);
    AppendGood(self, i, Delete(es, n.id), rs, n);
    var k := IndexOf(es, n.id);
    assert [n] + es[..k] + es[k + 1..] == [n] + (es[..k] + es[k + 1..]);
  }

  lemma HeldFacts(self: Id, i: nat, es: seq<Node>, rs: seq<Node>, id: Id)
    requires GoodLists(self, i, es, rs) && IndexOf(es, id) < |es|
    ensures id != self && BucketOf(self, id) == i && |Delete(es, id)| < BUCKET_SIZE && !Has(Delete(es, id), id)
    ensures Delete(rs, id) == rs
  {
    hide BucketOf, IndexOf, Delete;
    assert es[IndexOf(es, id)].id == id;
    DeleteMap(rs, id);
    DeleteMap(es, id);
    DeleteDistinct(es, id);
  }

  lemma PromoteGood(self: Id, i: nat, es: seq<Node>, rs: seq<Node>, p: nat)
    requires GoodLists(self, i, es, rs) && p < |rs| && |es| > 0
    ensures GoodLists(self, i, es[..|es| - 1] + [rs[p]], Delete(rs, rs[p].id))
  {
    hide BucketOf, Delete;
    DeleteFacts(self, i, rs, rs[p].id, es);
  }

  lemma AddReplacementShape(self: Id, t: Tab, i: nat, n: Node)
    requires GoodShape(self, t) && i < N_BUCKETS && BucketOf(self, n.id) == i && n.id != self
    requires Has(t.Entries(i), n.id) ==> !AddIP(t, i, n.addr).1
    ensures GoodShape(self, AddReplacement(t, i, n))
  {
    hide GoodLists, WithinLimits, BucketOf, AddIP, RemoveIP;
    if !Has(t.Spare(i), n.id) {
      var (t1, ok) := AddIP(t, i, n.addr);
      AddIPKeeps(t, i, n.addr);
      CountersKeep(self, t, t1);
      if ok {
        var spare := t1.Spare(i);
        ReplacementGood(self, i, t1.Entries(i), spare, n);
        var t2 := t1.WithSpare(i, Push(spare, n, MAX_REPLACEMENTS));
        SameCounters(t1, t2);
        ListsKeep(self, t1, t2, i);
        if |spare| >= MAX_REPLACEMENTS {
          RemoveIPKeeps(t2, i, spare[|spare| - 1].addr);
          CountersKeep(self, t2, RemoveIP(t2, i, spare[|spare| - 1].addr));
        }
      }
    }
  }

  lemma SameCounters(t: Tab, t': Tab)
    requires t'.ips == t.ips && |t'.buckets| == |t.buckets|
    requires forall j :: 0 <= j < |t.buckets| ==> t'.buckets[j].ips == t.buckets[j].ips
    ensures WithinLimits(t') == WithinLimits(t)
  {
  }

  /** A bump that fails because of the new address leaves the lists alone, and the same address cannot
      be added afterwards either: the counter that refused it is not the one that was released. */
  lemma FailedBump(t: Tab, i: nat, n: Node)
    requires i < |t.buckets| && WithinLimits(t) && !BumpInBucket(t, i, n).1
    ensures SameLists(t, BumpInBucket(t, i, n).0) && WithinLimits(BumpInBucket(t, i, n).0)
    ensures IndexOf(t.Entries(i), n.id) == |t.Entries(i)| || !AddIP(BumpInBucket(t, i, n).0, i, n.addr).1
  {
    var es := t.Entries(i);
    var k := IndexOf(es, n.id);
    if k < |es| {
      hide IndexOf;
      var t0 := RemoveIP(t, i, es[k].addr);
      RemoveIPKeeps(t, i, es[k].addr);
      AddIPKeeps(t0, i, n.addr);
      AddIPKeeps(t0, i, es[k].addr);
      assert BumpInBucket(t, i, n) == (AddIP(t0, i, es[k].addr).0, false);
      RefusedStays(t, i, es[k].addr, n.addr);
    }
  }

  lemma RefusedStays(t: Tab, i: nat, was: Addr, a: Addr)
    requires i < |t.buckets| && WithinLimits(t) && !AddIP(RemoveIP(t, i, was), i, a).1
    ensures !AddIP(AddIP(RemoveIP(t, i, was), i, was).0, i, a).1
  {
    assert Count(t.ips, was.subnet) <= TABLE_IP_LIMIT && Count(t.buckets[i].ips, was.subnet) <= BUCKET_IP_LIMIT;
    hide Inc, Dec;
    DecInc(RemoveIP(t, i, was).ips, was.subnet);
  }

  lemma BumpShape(self: Id, t: Tab, i: nat, n: Node)
    requires GoodShape(self, t) && i < N_BUCKETS
    ensures GoodShape(self, BumpInBucket(t, i, n).0)
  {
    hide GoodLists, WithinLimits, BucketOf, AddIP, RemoveIP;
    var es := t.Entries(i);
    var k := IndexOf(es, n.id);
    if !BumpInBucket(t, i, n).1 {
      FailedBump(t, i, n);
      CountersKeep(self, t, BumpInBucket(t, i, n).0);
    } else {
      var t0 := RemoveIP(t, i, es[k].addr);
      RemoveIPKeeps(t, i, es[k].addr);
      AddIPKeeps(t0, i, n.addr);
      var t1 := if n.addr == es[k].addr then t else AddIP(t0, i, n.addr).0;
      CountersKeep(self, t, t1);
      BumpGood(self, i, es, t1.Spare(i), n);
      var t2 := t1.WithEntries(i, [n] + es[..k] + es[k + 1..]);
      SameCounters(t1, t2);
      ListsKeep(self, t1, t2, i);
    }
  }

  lemma InsertShape(self: Id, t: Tab, i: nat, n: Node, es: seq<Node>)
    requires GoodShape(self, t) && i < N_BUCKETS && BucketOf(self, n.id) == i && n.id != self
    requires !Has(t.Entries(i), n.id) && |t.Entries(i)| < BUCKET_SIZE
    requires es == t.Entries(i) + [n] || es == [n] + t.Entries(i)
    ensures GoodShape(self, t.WithEntries(i, es).WithSpare(i, Delete(t.Spare(i), n.id)))
  {
    assert GoodLists(self, i, t.Entries(i), t.Spare(i));
    hide GoodLists, WithinLimits, BucketOf, Delete;
    AppendGood(self, i, t.Entries(i), t.Spare(i), n);
    var t' := t.WithEntries(i, es).WithSpare(i, Delete(t.Spare(i), n.id));
    SameCounters(t, t');
    ListsKeep(self, t, t', i);
  }

  lemma AddSeenShape(self: Id, t: Tab, n: Node)
    requires GoodShape(self, t)
    ensures GoodShape(self, AddSeenNode(self, t, n))
  {
    hide GoodLists, WithinLimits, AddIP, BucketOf, AddReplacement, Delete;
    var i := BucketOf(self, n.id);
    if n.id != self && !Has(t.Entries(i), n.id) {
      AddReplacementShape(self, t, i, n);
      AddIPKeeps(t, i, n.addr);
      var t1 := AddIP(t, i, n.addr).0;
      CountersKeep(self, t, t1);
      if |t.Entries(i)| < BUCKET_SIZE {
        InsertShape(self, t1, i, n, t1.Entries(i) + [n]);
      }
    }
  }

  lemma AddVerifiedShape(self: Id, t: Tab, n: Node, initDone: bool)
    requires GoodShape(self, t)
    ensures GoodShape(self, AddVerifiedNode(self, t, n, initDone))
  {
    hide GoodLists, WithinLimits, AddIP, BucketOf, AddReplacement, Delete, BumpInBucket;
    var i := BucketOf(self, n.id);
    if initDone && n.id != self {
      BumpShape(self, t, i, n);
      var (t1, bumped) := BumpInBucket(t, i, n);
      if !bumped {
        FailedBump(t, i, n);
        AddReplacementShape(self, t1, i, n);
        AddIPKeeps(t1, i, n.addr);
        var (t2, ok) := AddIP(t1, i, n.addr);
        CountersKeep(self, t1, t2);
        if ok && |t1.Entries(i)| < BUCKET_SIZE {
          InsertShape(self, t2, i, n, [n] + t2.Entries(i));
        }
      }
    }
  }

  lemma DeleteShape(self: Id, t: Tab, i: nat, n: Node)
    requires GoodShape(self, t) && i < N_BUCKETS
    ensures GoodShape(self, DeleteInBucket(t, i, n))
  {
    assert GoodLists(self, i, t.Entries(i), t.Spare(i));
    hide GoodLists, WithinLimits, BucketOf, Delete, RemoveIP;
    var t1 := t.WithEntries(i, Delete(t.Entries(i), n.id));
    DeleteGood(self, i, t.Entries(i), t.Spare(i), n.id);
    SameCounters(t, t1);
    ListsKeep(self, t, t1, i);
    RemoveIPKeeps(t1, i, n.addr);
    CountersKeep(self, t1, RemoveIP(t1, i, n.addr));
  }

  lemma ReplaceShape(self: Id, t: Tab, i: nat, last: Node, pick: nat)
    requires GoodShape(self, t) && i < N_BUCKETS && pick < MAX_REPLACEMENTS
    ensures GoodShape(self, Replace(t, i, last, pick))
  {
    assert GoodLists(self, i, t.Entries(i), t.Spare(i));
    hide GoodLists, WithinLimits, BucketOf, Delete, RemoveIP, DeleteInBucket;
    var es, rs := t.Entries(i), t.Spare(i);
    if IsLast(t, i, last) {
      if |rs| == 0 {
        DeleteShape(self, t, i, last);
      } else {
        var p := pick % |rs|;
        PromoteGood(self, i, es, rs, p);
        var t1 := t.WithSpare(i, Delete(rs, rs[p].id)).WithEntries(i, es[..|es| - 1] + [rs[p]]);
        SameCounters(t, t1);
        ListsKeep(self, t, t1, i);
        RemoveIPKeeps(t1, i, last.addr);
        CountersKeep(self, t1, RemoveIP(t1, i, last.addr));
      }
    }
  }

  lemma ApplyShape(self: Id, t: Tab, op: Op)
    requires GoodShape(self, t)
    ensures GoodShape(self, Apply(self, t, op))
  {
    hide GoodLists, WithinLimits, BucketOf, AddSeenNode, AddVerifiedNode, BumpInBucket, Replace, DeleteInBucket;
    var i := BucketOf(self, op.node.id);
    match op
    case Seen(n) => AddSeenShape(self, t, n);
    case Verified(n, initDone) => AddVerifiedShape(self, t, n, initDone);
    case Revalidated(n) => BumpShape(self, t, i, n);
    case Died(n, pick) => ReplaceShape(self, t, i, n, pick % MAX_REPLACEMENTS);
    case Dropped(n) => DeleteShape(self, t, i, n);
  }

  // ---------- Runs ----------

  /** The table after a sequence of operations. */
  function Run(self: Id, ops: seq<Op>): (t: Tab)
    ensures GoodShape(self, t)
  {
    if |ops| == 0 then EmptyTable()
    else
      var before := Run(self, ops[..|ops| - 1]);
      ApplyShape(self, before, ops[|ops| - 1]);
      Apply(self, before, ops[|ops| - 1])
  }

  /** Where a node can be: bucket, list and position. */
  datatype Slot = Slot(bucket: nat, spare: bool, k: nat)

  function NodesOf(t: Tab, i: nat, spare: bool): seq<Node>
    requires i < |t.buckets|
  {
    if spare then t.Spare(i) else t.Entries(i)
  }

  predicate IsSlot(t: Tab, s: Slot) {
    s.bucket < |t.buckets| && s.k < |NodesOf(t, s.bucket, s.spare)|
  }

  function At(t: Tab, s: Slot): Node
    requires IsSlot(t, s)
  {
    NodesOf(t, s.bucket, s.spare)[s.k]
  }

  /** After every sequence of operations, whatever their arguments: bucket sizes are bounded, the local
      node is absent, each node is in the bucket of its distance, and no identifier is in two slots of
      the table, be they entries or replacements. */
  lemma UniqueAndPlaced(self: Id, ops: seq<Op>, s: Slot, s': Slot)
    requires IsSlot(Run(self, ops), s) && IsSlot(Run(self, ops), s')
    ensures var t := Run(self, ops);
            && |t.Entries(s.bucket)| <= BUCKET_SIZE && |t.Spare(s.bucket)| <= MAX_REPLACEMENTS
            && At(t, s).id != self && s.bucket == BucketOf(self, At(t, s).id)
            && (At(t, s).id == At(t, s').id ==> s == s')
  {
    var t := Run(self, ops);
    hide Run, BucketOf, WithinLimits;
    assert GoodLists(self, s.bucket, t.Entries(s.bucket), t.Spare(s.bucket));
    assert GoodLists(self, s'.bucket, t.Entries(s'.bucket), t.Spare(s'.bucket));
  }

  // ---------- Subnet limits ----------

  /** What an address adds to the count of subnet s: nothing for a local-network address. */
  function Weight(a: Addr, s: nat): nat { if !a.lan && a.subnet == s then 1 else 0 }

  /** How many addresses of subnet s a list really holds. */
  function Occupancy(ns: seq<Node>, s: nat): nat {
    if |ns| == 0 then 0 else Weight(ns[0].addr, s) + Occupancy(ns[1..], s)
  }

  function InBucket(t: Tab, i: nat, s: nat): nat
    requires i < |t.buckets|
  {
    Occupancy(t.Entries(i), s) + Occupancy(t.Spare(i), s)
  }

  function InBuckets(bs: seq<Bucket>, s: nat): nat {
    if |bs| == 0 then 0
    else Occupancy(bs[0].entries, s) + Occupancy(bs[0].replacements, s) + InBuckets(bs[1..], s)
  }

  /** The bucket counters of subnet s, added up. */
  function SumOfCounts(bs: seq<Bucket>, s: nat): nat {
    if |bs| == 0 then 0 else Count(bs[0].ips, s) + SumOfCounts(bs[1..], s)
  }

  /** The counters account for everything the table holds. */
  ghost predicate Covered(t: Tab) {
    && (forall i, s :: 0 <= i < |t.buckets| ==> InBucket(t, i, s) <= Count(t.buckets[i].ips, s))
    && (forall s :: Count(t.ips, s) == SumOfCounts(t.buckets, s))
  }

  lemma {:induction false} OccupancyConcat(a: seq<Node>, b: seq<Node>, s: nat)
    ensures Occupancy(a + b, s) == Occupancy(a, s) + Occupancy(b, s)
  {
    if |a| == 0 {
      assert a + b == b;
    } else {
      assert (a + b)[1..] == a[1..] + b;
      OccupancyConcat(a[1..], b, s);
    }
  }

  lemma OccupancyOne(n: Node, s: nat)
    ensures Occupancy([n], s) == Weight(n.addr, s)
  {
  }

  /** Splitting a list at position k. */
  lemma OccupancySplit(ns: seq<Node>, k: nat, s: nat)
    requires k < |ns|
    ensures Occupancy(ns, s) == Occupancy(ns[..k], s) + Weight(ns[k].addr, s) + Occupancy(ns[k + 1..], s)
    ensures Occupancy(ns[..k] + ns[k + 1..], s) == Occupancy(ns, s) - Weight(ns[k].addr, s)
  {
    assert ns == ns[..k] + ([ns[k]] + ns[k + 1..]);
    hide Occupancy;
    OccupancyConcat(ns[..k], [ns[k]] + ns[k + 1..], s);
    OccupancyConcat([ns[k]], ns[k + 1..], s);
    OccupancyOne(ns[k], s);
    OccupancyConcat(ns[..k], ns[k + 1..], s);
  }

  lemma OccupancyDelete(ns: seq<Node>, id: Id, s: nat)
    ensures Occupancy(Delete(ns, id), s) ==
            Occupancy(ns, s) - if IndexOf(ns, id) < |ns| then Weight(ns[IndexOf(ns, id)].addr, s) else 0
  {
    var k := IndexOf(ns, id);
    if k < |ns| {
      OccupancySplit(ns, k, s);
    }
  }

  lemma OccupancyLast(ns: seq<Node>, s: nat)
    requires |ns| > 0
    ensures Occupancy(ns, s) == Occupancy(ns[..|ns| - 1], s) + Weight(ns[|ns| - 1].addr, s)
  {
    var k := |ns| - 1;
    OccupancySplit(ns, k, s);
    assert ns[k + 1..] == [];
  }

  lemma {:induction false} SumUpdate(bs: seq<Bucket>, i: nat, b: Bucket, s: nat)
    requires i < |bs|
    ensures SumOfCounts(bs[i := b], s) == SumOfCounts(bs, s) - Count(bs[i].ips, s) + Count(b.ips, s)
  {
    if i == 0 {
      assert bs[0 := b][1..] == bs[1..];
    } else {
      assert bs[i := b][1..] == bs[1..][i - 1 := b];
      SumUpdate(bs[1..], i - 1, b, s);
    }
  }

  /** Changing one bucket, and its counters together with the table's, by the same amounts. */
  ghost predicate InStep(t: Tab, t': Tab, i: nat) {
    && i < |t.buckets| && |t'.buckets| == |t.buckets| && t'.buckets == t.buckets[i := t'.buckets[i]]
    && forall s :: Count(t'.ips, s) - Count(t.ips, s) == Count(t'.buckets[i].ips, s) - Count(t.buckets[i].ips, s)
  }

  lemma InStepCovers(t: Tab, t': Tab, i: nat)
    requires Covered(t) && InStep(t, t', i)
    requires forall s :: InBucket(t', i, s) <= Count(t'.buckets[i].ips, s)
    ensures Covered(t')
  {
    hide InBucket, Count, SumOfCounts;
    forall s ensures Count(t'.ips, s) == SumOfCounts(t'.buckets, s) {
      SumUpdate(t.buckets, i, t'.buckets[i], s);
    }
    forall j, s | 0 <= j < |t'.buckets| ensures InBucket(t', j, s) <= Count(t'.buckets[j].ips, s) {
      if j != i {
        OtherBucket(t, t', i, j, s);
      }
    }
  }

  lemma OtherBucket(t: Tab, t': Tab, i: nat, j: nat, s: nat)
    requires i < |t.buckets| && j < |t.buckets| && j != i
    requires |t'.buckets| == |t.buckets| && t'.buckets == t.buckets[i := t'.buckets[i]]
    ensures t'.buckets[j] == t.buckets[j] && InBucket(t', j, s) == InBucket(t, j, s)
  {
  }

  /** What adding an address does to the counters. */
  lemma AddIPCounts(t: Tab, i: nat, a: Addr)
    requires i < |t.buckets| && AddIP(t, i, a).1
    ensures InStep(t, AddIP(t, i, a).0, i) && SameLists(t, AddIP(t, i, a).0)
    ensures forall s :: Count(AddIP(t, i, a).0.buckets[i].ips, s) == Count(t.buckets[i].ips, s) + Weight(a, s)
  {
    hide Inc, Count;
    if a.lan {
      assert t.buckets[i := t.buckets[i]] == t.buckets;
    }
  }

  /** What releasing an address does to counters that both count it. */
  lemma RemoveIPCounts(t: Tab, i: nat, a: Addr)
    requires i < |t.buckets| && (!a.lan ==> Count(t.buckets[i].ips, a.subnet) > 0 && Count(t.ips, a.subnet) > 0)
    ensures InStep(t, RemoveIP(t, i, a), i) && SameLists(t, RemoveIP(t, i, a))
    ensures forall s :: Count(RemoveIP(t, i, a).buckets[i].ips, s) == Count(t.buckets[i].ips, s) - Weight(a, s)
  {
    hide Dec, Count;
    if a.lan {
      assert t.buckets[i := t.buckets[i]] == t.buckets;
    }
  }

  /** A bucket's counter is part of the table's. */
  lemma {:induction false} PartOfSum(bs: seq<Bucket>, i: nat, s: nat)
    requires i < |bs|
    ensures Count(bs[i].ips, s) <= SumOfCounts(bs, s)
  {
    if i > 0 {
      PartOfSum(bs[1..], i - 1, s);
    }
  }

  lemma {:induction false} HoldingsWithinCounts(bs: seq<Bucket>, s: nat)
    requires forall i :: 0 <= i < |bs| ==> Occupancy(bs[i].entries, s) + Occupancy(bs[i].replacements, s) <= Count(bs[i].ips, s)
    ensures InBuckets(bs, s) <= SumOfCounts(bs, s)
  {
    if |bs| > 0 {
      HoldingsWithinCounts(bs[1..], s);
    }
  }

  /** Releasing address a from bucket i as a node with address `left` leaves it (or none does) is safe
      when the counter has something to give: a is not counted at all, or the node that leaves is
      counted under the same subnet, or the counter stands above what the bucket holds. */
  predicate SafeRelease(t: Tab, i: nat, a: Addr, leaves: bool, left: Addr)
    requires i < |t.buckets|
  {
    var count := Count(t.buckets[i].ips, a.subnet);
    || a.lan
    || (if count == 0 then Count(t.ips, a.subnet) == 0
        else count > InBucket(t, i, a.subnet) || (leaves && Weight(left, a.subnet) == 1))
  }

  /** The bucket after a node left its lists, counters unchanged. */
  ghost predicate Left(t: Tab, t1: Tab, i: nat, leaves: bool, left: Addr) {
    && i < |t.buckets| && |t1.buckets| == |t.buckets| && t1.buckets == t.buckets[i := t1.buckets[i]]
    && t1.ips == t.ips && t1.buckets[i].ips == t.buckets[i].ips
    && forall s :: InBucket(t1, i, s) == InBucket(t, i, s) - if leaves then Weight(left, s) else 0
  }

  lemma SafeReleaseCovers(t: Tab, t1: Tab, i: nat, a: Addr, leaves: bool, left: Addr)
    requires Covered(t) && Left(t, t1, i, leaves, left) && SafeRelease(t, i, a, leaves, left)
    ensures Covered(RemoveIP(t1, i, a))
  {
    var t2 := RemoveIP(t1, i, a);
    var count := Count(t.buckets[i].ips, a.subnet);
    PartOfSum(t.buckets, i, a.subnet);
    assert t2.buckets == t.buckets[i := t2.buckets[i]];
    forall s ensures InBucket(t2, i, s) == InBucket(t1, i, s) {
      hide Occupancy;
    }
    forall s ensures InBucket(t, i, s) <= Count(t.buckets[i].ips, s) {
    }
    hide Covered, InBucket, Dec, SumOfCounts;
    if a.lan || count == 0 {
      NothingToRelease(t1, i, a);
    } else {
      RemoveIPCounts(t1, i, a);
    }
    assert InStep(t, t2, i);
    InStepCovers(t, t2, i);
  }

  lemma NothingToRelease(t: Tab, i: nat, a: Addr)
    requires i < |t.buckets| && (a.lan || (Count(t.buckets[i].ips, a.subnet) == 0 && Count(t.ips, a.subnet) == 0))
    ensures RemoveIP(t, i, a) == t
  {
    assert t.buckets[i := t.buckets[i]] == t.buckets;
  }

  lemma UnsafeReleaseUncovers(t: Tab, t1: Tab, i: nat, a: Addr, leaves: bool, left: Addr)
    requires Covered(t) && Left(t, t1, i, leaves, left) && !SafeRelease(t, i, a, leaves, left)
    ensures !Covered(RemoveIP(t1, i, a))
  {
    var t2, s := RemoveIP(t1, i, a), a.subnet;
    assert t2.buckets == t.buckets[i := t2.buckets[i]];
    assert InBucket(t2, i, s) == InBucket(t1, i, s);
    SumUpdate(t.buckets, i, t2.buckets[i], s);
    assert InBucket(t, i, s) <= Count(t.buckets[i].ips, s);
    assert Count(t.ips, s) == SumOfCounts(t.buckets, s);
    hide InBucket, Dec, SumOfCounts;
    assert InBucket(t2, i, s) > Count(t2.buckets[i].ips, s) || Count(t2.ips, s) != SumOfCounts(t2.buckets, s);
  }

  /** Whether bucket i has an entry for id, and that entry's address. */
  predicate Stored(t: Tab, i: nat, id: Id)
    requires i < |t.buckets|
  {
    IndexOf(t.Entries(i), id) < |t.Entries(i)|
  }

  function StoredAddr(t: Tab, i: nat, id: Id): Addr
    requires i < |t.buckets|
  {
    if Stored(t, i, id) then t.Entries(i)[IndexOf(t.Entries(i), id)].addr else Addr(0, 0, true)
  }

  lemma DeleteCoveredIff(t: Tab, i: nat, n: Node)
    requires Covered(t) && i < |t.buckets|
    ensures Covered(DeleteInBucket(t, i, n)) <==> SafeRelease(t, i, n.addr, Stored(t, i, n.id), StoredAddr(t, i, n.id))
  {
    var es := t.Entries(i);
    var t1 := t.WithEntries(i, Delete(es, n.id));
    var leaves, left := Stored(t, i, n.id), StoredAddr(t, i, n.id);
    assert Left(t, t1, i, leaves, left) by {
      hide Delete, IndexOf, Occupancy, Covered;
      forall s ensures InBucket(t1, i, s) == InBucket(t, i, s) - if leaves then Weight(left, s) else 0 {
        OccupancyDelete(es, n.id, s);
      }
    }
    hide Covered, Left, SafeRelease, RemoveIP, Delete, IndexOf;
    if SafeRelease(t, i, n.addr, leaves, left) {
      SafeReleaseCovers(t, t1, i, n.addr, leaves, left);
    } else {
      UnsafeReleaseUncovers(t, t1, i, n.addr, leaves, left);
    }
  }

  lemma ReplaceCoveredIff(self: Id, t: Tab, i: nat, last: Node, pick: nat)
    requires GoodShape(self, t) && Covered(t) && i < N_BUCKETS && pick < MAX_REPLACEMENTS && IsLast(t, i, last)
    ensures Covered(Replace(t, i, last, pick))
            <==> SafeRelease(t, i, last.addr, true, t.Entries(i)[|t.Entries(i)| - 1].addr)
  {
    var es, rs := t.Entries(i), t.Spare(i);
    var left := es[|es| - 1].addr;
    assert GoodLists(self, i, es, rs);
    LastIndex(es, last.id);
    hide GoodShape, GoodLists, Covered, SafeRelease, RemoveIP, BucketOf;
    if |rs| == 0 {
      DeleteCoveredIff(t, i, last);
    } else {
      var p := pick % |rs|;
      var t1 := t.WithSpare(i, Delete(rs, rs[p].id)).WithEntries(i, es[..|es| - 1] + [rs[p]]);
      PromotionLeaves(t, i, p);
      if SafeRelease(t, i, last.addr, true, left) {
        SafeReleaseCovers(t, t1, i, last.addr, true, left);
      } else {
        UnsafeReleaseUncovers(t, t1, i, last.addr, true, left);
      }
    }
  }

  /** In a list without duplicates the last entry's identifier is found at the end. */
  lemma LastIndex(ns: seq<Node>, id: Id)
    requires |ns| > 0 && ns[|ns| - 1].id == id && Distinct(ns)
    ensures IndexOf(ns, id) == |ns| - 1
  {
    var k := IndexOf(ns, id);
    assert ns[k].id == id;
  }

  lemma PromotionLeaves(t: Tab, i: nat, p: nat)
    requires i < |t.buckets| && p < |t.Spare(i)| && |t.Entries(i)| > 0 && Distinct(t.Spare(i))
    ensures var es, rs := t.Entries(i), t.Spare(i);
            var t1 := t.WithSpare(i, Delete(rs, rs[p].id)).WithEntries(i, es[..|es| - 1] + [rs[p]]);
            Left(t, t1, i, true, es[|es| - 1].addr)
  {
    var es, rs := t.Entries(i), t.Spare(i);
    var t1 := t.WithSpare(i, Delete(rs, rs[p].id)).WithEntries(i, es[..|es| - 1] + [rs[p]]);
    assert IndexOf(rs, rs[p].id) == p;
    assert t1.buckets == t.buckets[i := t1.buckets[i]];
    hide IndexOf, Delete, Occupancy, Distinct;
    forall s ensures InBucket(t1, i, s) == InBucket(t, i, s) - Weight(es[|es| - 1].addr, s) {
      OccupancyDelete(rs, rs[p].id, s);
      OccupancyLast(es, s);
      OccupancyConcat(es[..|es| - 1], [rs[p]], s);
      OccupancyOne(rs[p], s);
    }
  }

  /** Inserting an entry whose address was just counted; a replacement of the same identifier goes. */
  lemma InsertCovers(t: Tab, i: nat, n: Node, es: seq<Node>)
    requires Covered(t) && i < |t.buckets| && AddIP(t, i, n.addr).1
    requires es == t.Entries(i) + [n] || es == [n] + t.Entries(i)
    ensures Covered(AddIP(t, i, n.addr).0.WithEntries(i, es).WithSpare(i, Delete(t.Spare(i), n.id)))
  {
    AddIPCounts(t, i, n.addr);
    var t1 := AddIP(t, i, n.addr).0;
    var t2 := t1.WithEntries(i, es).WithSpare(i, Delete(t.Spare(i), n.id));
    assert t2.buckets == t.buckets[i := t2.buckets[i]];
    assert forall s :: InBucket(t, i, s) <= Count(t.buckets[i].ips, s);
    hide AddIP, Delete, IndexOf, Occupancy, Covered, Count;
    forall s ensures InBucket(t2, i, s) <= Count(t2.buckets[i].ips, s) {
      OccupancyDelete(t.Spare(i), n.id, s);
      OccupancyConcat(t.Entries(i), [n], s);
      OccupancyConcat([n], t.Entries(i), s);
      OccupancyOne(n, s);
    }
    InStepCovers(t, t2, i);
  }

  lemma AddReplacementCovers(t: Tab, i: nat, n: Node)
    requires Covered(t) && i < |t.buckets|
    ensures Covered(AddReplacement(t, i, n))
  {
    hide Covered, AddIP, RemoveIP, Occupancy;
    AddIPKeeps(t, i, n.addr);
    var (t1, ok) := AddIP(t, i, n.addr);
    if !Has(t.Spare(i), n.id) && ok {
      var spare := t1.Spare(i);
      if |spare| < MAX_REPLACEMENTS {
        PushCovers(t, i, n, [n] + spare);
      } else {
        PushDropCovers(t, i, n);
      }
    }
  }

  lemma PushCovers(t: Tab, i: nat, n: Node, rs: seq<Node>)
    requires Covered(t) && i < |t.buckets| && AddIP(t, i, n.addr).1 && rs == [n] + t.Spare(i)
    ensures Covered(AddIP(t, i, n.addr).0.WithSpare(i, rs))
  {
    AddIPCounts(t, i, n.addr);
    var t2 := AddIP(t, i, n.addr).0.WithSpare(i, rs);
    assert t2.buckets == t.buckets[i := t2.buckets[i]];
    assert forall s :: InBucket(t, i, s) <= Count(t.buckets[i].ips, s);
    hide AddIP, Occupancy, Covered, Count;
    forall s ensures InBucket(t2, i, s) <= Count(t2.buckets[i].ips, s) {
      OccupancyConcat([n], t.Spare(i), s);
      OccupancyOne(n, s);
    }
    InStepCovers(t, t2, i);
  }

  lemma PushDropCovers(t: Tab, i: nat, n: Node)
    requires Covered(t) && i < |t.buckets| && AddIP(t, i, n.addr).1 && |t.Spare(i)| > 0
    ensures var rs := t.Spare(i);
            var t2 := AddIP(t, i, n.addr).0.WithSpare(i, [n] + rs[..|rs| - 1]);
            Covered(RemoveIP(t2, i, rs[|rs| - 1].addr))
  {
    var rs := t.Spare(i);
    var left := rs[|rs| - 1].addr;
    PushCovers(t, i, n, [n] + rs);
    AddIPKeeps(t, i, n.addr);
    var full := AddIP(t, i, n.addr).0.WithSpare(i, [n] + rs);
    var t2 := AddIP(t, i, n.addr).0.WithSpare(i, [n] + rs[..|rs| - 1]);
    assert t2.buckets == full.buckets[i := t2.buckets[i]];
    hide AddIP, Occupancy, Covered, RemoveIP;
    forall s ensures InBucket(t2, i, s) == InBucket(full, i, s) - Weight(left, s) {
      OccupancyConcat([n], rs, s);
      OccupancyConcat([n], rs[..|rs| - 1], s);
      OccupancyLast(rs, s);
    }
    assert Left(full, t2, i, true, left);
    HeldIsSafe(full, i, left);
    SafeReleaseCovers(full, t2, i, left, true, left);
  }

  /** Releasing the address of a node the bucket holds is always safe. */
  lemma HeldIsSafe(t: Tab, i: nat, a: Addr)
    requires Covered(t) && i < |t.buckets| && (!a.lan ==> InBucket(t, i, a.subnet) > 0)
    ensures SafeRelease(t, i, a, true, a)
  {
    assert InBucket(t, i, a.subnet) <= Count(t.buckets[i].ips, a.subnet);
  }

  lemma IpThenEntries(t: Tab, i: nat, a: Addr, es: seq<Node>)
    requires i < |t.buckets|
    ensures RemoveIP(t.WithEntries(i, es), i, a) == RemoveIP(t, i, a).WithEntries(i, es)
    ensures AddIP(t.WithEntries(i, es), i, a) == (AddIP(t, i, a).0.WithEntries(i, es), AddIP(t, i, a).1)
  {
    hide Inc, Dec, Count;
    var t', b := t.WithEntries(i, es), t.buckets[i];
    assert forall ips :: t'.buckets[i := t'.buckets[i].(ips := ips)] == t.buckets[i := Bucket(es, b.replacements, ips)];
    assert forall ips :: t.buckets[i := b.(ips := ips)][i := Bucket(es, b.replacements, ips)]
                         == t.buckets[i := Bucket(es, b.replacements, ips)];
  }

  /** Counting an address and changing the entries by no more than a node with that address. */
  lemma AddCovers(t: Tab, i: nat, n: Node, es: seq<Node>)
    requires Covered(t) && i < |t.buckets| && AddIP(t, i, n.addr).1
    requires forall s :: Occupancy(es, s) <= Occupancy(t.Entries(i), s) + Weight(n.addr, s)
    ensures Covered(AddIP(t, i, n.addr).0.WithEntries(i, es))
  {
    AddIPCounts(t, i, n.addr);
    var t2 := AddIP(t, i, n.addr).0.WithEntries(i, es);
    assert t2.buckets == t.buckets[i := t2.buckets[i]];
    assert forall s :: InBucket(t, i, s) <= Count(t.buckets[i].ips, s);
    hide AddIP, Occupancy, Covered, Count;
    assert forall s :: InBucket(t2, i, s) <= Count(t2.buckets[i].ips, s);
    InStepCovers(t, t2, i);
  }

  /** The table without entry k of bucket i, its address released. */
  function Without(t: Tab, i: nat, k: nat): Tab
    requires i < |t.buckets| && k < |t.Entries(i)|
  {
    var es := t.Entries(i);
    RemoveIP(t, i, es[k].addr).WithEntries(i, es[..k] + es[k + 1..])
  }

  lemma WithoutCovers(t: Tab, i: nat, k: nat)
    requires Covered(t) && i < |t.buckets| && k < |t.Entries(i)|
    ensures Covered(Without(t, i, k))
  {
    var es := t.Entries(i);
    var t1 := t.WithEntries(i, es[..k] + es[k + 1..]);
    var a := es[k].addr;
    assert t1.buckets == t.buckets[i := t1.buckets[i]];
    IpThenEntries(t, i, a, es[..k] + es[k + 1..]);
    hide Occupancy, Covered, RemoveIP, Count;
    forall s ensures InBucket(t1, i, s) == InBucket(t, i, s) - Weight(a, s) {
      OccupancySplit(es, k, s);
    }
    HeldIsSafe(t, i, a);
    SafeReleaseCovers(t, t1, i, a, true, a);
  }

  /** What was just released can be counted again. */
  lemma Restorable(t: Tab, i: nat, a: Addr)
    requires i < |t.buckets| && WithinLimits(t)
    ensures AddIP(RemoveIP(t, i, a), i, a).1
  {
    assert Count(t.ips, a.subnet) <= TABLE_IP_LIMIT && Count(t.buckets[i].ips, a.subnet) <= BUCKET_IP_LIMIT;
    hide Inc, Dec;
  }

  /** Counting n's address and putting n in the place of entry k, wherever it goes. */
  lemma SwapCovers(t: Tab, i: nat, k: nat, n: Node, es': seq<Node>)
    requires Covered(t) && i < |t.buckets| && k < |t.Entries(i)|
    requires AddIP(RemoveIP(t, i, t.Entries(i)[k].addr), i, n.addr).1
    requires forall s :: Occupancy(es', s) == Occupancy(t.Entries(i), s) - Weight(t.Entries(i)[k].addr, s) + Weight(n.addr, s)
    ensures Covered(AddIP(RemoveIP(t, i, t.Entries(i)[k].addr), i, n.addr).0.WithEntries(i, es'))
  {
    var es := t.Entries(i);
    var rest := es[..k] + es[k + 1..];
    var gone, out := RemoveIP(t, i, es[k].addr), Without(t, i, k);
    RemoveIPKeeps(t, i, es[k].addr);
    WithoutCovers(t, i, k);
    IpThenEntries(gone, i, n.addr, rest);
    hide Occupancy, Covered, RemoveIP, AddIP, Count;
    forall s ensures Occupancy(es', s) <= Occupancy(rest, s) + Weight(n.addr, s) {
      OccupancySplit(es, k, s);
    }
    assert AddIP(out, i, n.addr) == (AddIP(gone, i, n.addr).0.WithEntries(i, rest), true);
    AddCovers(out, i, n, es');
    AddIPKeeps(gone, i, n.addr);
    assert AddIP(out, i, n.addr).0.WithEntries(i, es') == AddIP(gone, i, n.addr).0.WithEntries(i, es');
  }

  lemma MoveToFront(es: seq<Node>, k: nat, n: Node, s: nat)
    requires k < |es|
    ensures Occupancy([n] + es[..k] + es[k + 1..], s) == Occupancy(es, s) - Weight(es[k].addr, s) + Weight(n.addr, s)
  {
    assert [n] + es[..k] + es[k + 1..] == [n] + (es[..k] + es[k + 1..]);
    OccupancySplit(es, k, s);
    OccupancyConcat([n], es[..k] + es[k + 1..], s);
    OccupancyOne(n, s);
  }

  lemma BumpCovers(t: Tab, i: nat, n: Node)
    requires Covered(t) && WithinLimits(t) && i < |t.buckets|
    ensures Covered(BumpInBucket(t, i, n).0)
  {
    var es := t.Entries(i);
    var k := IndexOf(es, n.id);
    if k < |es| {
      var es' := [n] + es[..k] + es[k + 1..];
      forall s ensures Occupancy(es', s) == Occupancy(es, s) - Weight(es[k].addr, s) + Weight(n.addr, s) {
        MoveToFront(es, k, n, s);
      }
      hide Occupancy, IndexOf, Covered, WithinLimits, AddIP, RemoveIP;
      var gone := RemoveIP(t, i, es[k].addr);
      RemoveIPKeeps(t, i, es[k].addr);
      if n.addr == es[k].addr {
        SameAddressCovers(t, i, es');
      } else if AddIP(gone, i, n.addr).1 {
        SwapCovers(t, i, k, n, es');
      } else {
        AddIPKeeps(gone, i, n.addr);
        Restorable(t, i, es[k].addr);
        AddIPKeeps(gone, i, es[k].addr);
        SwapCovers(t, i, k, es[k], es);
        var back := AddIP(gone, i, es[k].addr).0;
        assert back.WithEntries(i, es) == back by {
          assert back.buckets[i := back.buckets[i]] == back.buckets;
        }
      }
    }
  }

  lemma SameAddressCovers(t: Tab, i: nat, es: seq<Node>)
    requires Covered(t) && i < |t.buckets|
    requires forall s :: Occupancy(es, s) == Occupancy(t.Entries(i), s)
    ensures Covered(t.WithEntries(i, es))
  {
    var t' := t.WithEntries(i, es);
    assert t'.buckets == t.buckets[i := t'.buckets[i]];
    assert forall s :: InBucket(t, i, s) <= Count(t.buckets[i].ips, s);
    hide Occupancy, Covered, Count;
    InStepCovers(t, t', i);
  }

  /** The one thing an operation can do wrong: release an address the counters cannot spare. */
  predicate Proper(self: Id, t: Tab, op: Op)
    requires |t.buckets| == N_BUCKETS
  {
    var i := BucketOf(self, op.node.id);
    match op
    case Died(n, _) => IsLast(t, i, n) ==> SafeRelease(t, i, n.addr, true, t.Entries(i)[|t.Entries(i)| - 1].addr)
    case Dropped(n) => SafeRelease(t, i, n.addr, Stored(t, i, n.id), StoredAddr(t, i, n.id))
    case _ => true
  }

  /** An operation keeps the counters covering exactly when it is proper. */
  lemma CoveredIff(self: Id, t: Tab, op: Op)
    requires GoodShape(self, t) && Covered(t)
    ensures Covered(Apply(self, t, op)) <==> Proper(self, t, op)
  {
    hide Covered, GoodLists, WithinLimits, BucketOf, AddIP, BumpInBucket, AddReplacement, Replace, DeleteInBucket,
      SafeRelease, Delete;
    var i := BucketOf(self, op.node.id);
    match op
    case Seen(n) =>
      AddReplacementCovers(t, i, n);
      AddIPKeeps(t, i, n.addr);
      if AddIP(t, i, n.addr).1 {
        InsertCovers(t, i, n, t.Entries(i) + [n]);
      }
    case Verified(n, _) =>
      BumpCovers(t, i, n);
      BumpShape(self, t, i, n);
      var t1 := BumpInBucket(t, i, n).0;
      AddReplacementCovers(t1, i, n);
      AddIPKeeps(t1, i, n.addr);
      if AddIP(t1, i, n.addr).1 {
        InsertCovers(t1, i, n, [n] + t1.Entries(i));
      }
    case Revalidated(n) => BumpCovers(t, i, n);
    case Died(n, pick) =>
      if IsLast(t, i, n) {
        ReplaceCoveredIff(self, t, i, n, pick % MAX_REPLACEMENTS);
      } else {
        assert Replace(t, i, n, pick % MAX_REPLACEMENTS) == t by {
          NotLast(t, i, n, pick % MAX_REPLACEMENTS);
        }
      }
    case Dropped(n) => DeleteCoveredIff(t, i, n);
  }

  lemma NotLast(t: Tab, i: nat, n: Node, pick: nat)
    requires i < |t.buckets| && pick < MAX_REPLACEMENTS && !IsLast(t, i, n)
    ensures Replace(t, i, n, pick) == t
  {
  }

  /** An operation that is given the address stored for its node is proper. */
  lemma StoredIsProper(self: Id, t: Tab, op: Op)
    requires GoodShape(self, t) && Covered(t)
    requires var i := BucketOf(self, op.node.id);
             Stored(t, i, op.node.id) && StoredAddr(t, i, op.node.id) == op.node.addr
    ensures Proper(self, t, op)
  {
    var n, i := op.node, BucketOf(self, op.node.id);
    var es := t.Entries(i);
    var k := IndexOf(es, n.id);
    assert GoodLists(self, i, es, t.Spare(i));
    if IsLast(t, i, n) {
      LastIndex(es, n.id);
    }
    hide BucketOf, Covered, IndexOf, GoodLists, WithinLimits;
    OccupancySplit(es, k, n.addr.subnet);
    HeldIsSafe(t, i, n.addr);
  }

  ghost predicate ProperRun(self: Id, ops: seq<Op>)
    decreases |ops|
  {
    |ops| == 0 || (ProperRun(self, ops[..|ops| - 1]) && Proper(self, Run(self, ops[..|ops| - 1]), ops[|ops| - 1]))
  }

  lemma {:induction false} ProperRunCovered(self: Id, ops: seq<Op>)
    requires ProperRun(self, ops)
    ensures Covered(Run(self, ops))
    decreases |ops|
  {
    if |ops| == 0 {
      EmptyCovered();
    } else {
      ProperRunCovered(self, ops[..|ops| - 1]);
      CoveredIff(self, Run(self, ops[..|ops| - 1]), ops[|ops| - 1]);
    }
  }

  lemma EmptyCovered()
    ensures Covered(EmptyTable())
  {
    forall s ensures SumOfCounts(EmptyTable().buckets, s) == 0 {
      NoCounts(EmptyTable().buckets, s);
    }
  }

  lemma {:induction false} NoCounts(bs: seq<Bucket>, s: nat)
    requires forall j :: 0 <= j < |bs| ==> bs[j] == EMPTY_BUCKET
    ensures SumOfCounts(bs, s) == 0
  {
    if |bs| > 0 {
      NoCounts(bs[1..], s);
    }
  }

  /** Subnet limits: after every proper run the table's counter of a subnet is the sum of the bucket
      counters, no bucket holds more than 2 addresses of it and the table no more than 10, entries and
      replacements together. */
  lemma SubnetLimits(self: Id, ops: seq<Op>, i: nat, s: nat)
    requires ProperRun(self, ops) && i < N_BUCKETS
    ensures var t := Run(self, ops);
            && Count(t.ips, s) == SumOfCounts(t.buckets, s)
            && InBucket(t, i, s) <= Count(t.buckets[i].ips, s) <= BUCKET_IP_LIMIT
            && InBuckets(t.buckets, s) <= Count(t.ips, s) <= TABLE_IP_LIMIT
  {
    var t := Run(self, ops);
    ProperRunCovered(self, ops);
    hide Run, ProperRun, Occupancy, BucketOf, GoodLists;
    forall j | 0 <= j < |t.buckets|
      ensures Occupancy(t.buckets[j].entries, s) + Occupancy(t.buckets[j].replacements, s) <= Count(t.buckets[j].ips, s)
    {
      assert InBucket(t, j, s) <= Count(t.buckets[j].ips, s);
    }
    HoldingsWithinCounts(t.buckets, s);
  }

  lemma NearBucket(id: Id)
    requires 0 < id < 8
    ensures BucketOf(0, id) == 0
  {
    XorComm(0, id);
    XorZero(id);
    hide Xor;
    assert BitLen(id) <= 3;
  }

  /** A node in the bucket of the nearest identifiers, with an address in subnet 7. */
  function SubnetSeven(k: nat): (n: Node)
    requires 0 < k < 8
    ensures BucketOf(0, n.id) == 0
  {
    SmallId(k);
    NearBucket(k);
    Node(k, Addr(7, k, false), 0)
  }

  lemma SmallId(k: nat)
    requires k < 8
    ensures k < Pow2(256)
  {
    SmallBelow(k, 256);
  }

  lemma SmallBelow(k: nat, e: nat)
    requires k < 8 && e >= 3
    ensures k < Pow2(e)
  {
    Pow2Monotone(3, e);
    assert Pow2(3) == 8;
  }

  /** Two nodes of one subnet are seen, a third that was never stored is dropped, and a fourth is seen. */
  function DropOfStranger(): seq<Op> {
    [Seen(SubnetSeven(1)), Seen(SubnetSeven(2)), Dropped(SubnetSeven(4)), Seen(SubnetSeven(3))]
  }

  lemma FirstTwoSeen()
    ensures var t := Run(0, DropOfStranger()[..2]);
            && t.Entries(0) == [SubnetSeven(1), SubnetSeven(2)] && t.Spare(0) == []
            && Count(t.buckets[0].ips, 7) == 2 && Count(t.ips, 7) == 2
  {
    var ops := DropOfStranger();
    RunSnoc(0, ops, 0);
    RunSnoc(0, ops, 1);
    assert ops[..0] == [];
    hide GoodShape, AddSeenNode, BucketOf;
    SeenStep(EmptyTable(), SubnetSeven(1));
    SeenStep(Run(0, ops[..1]), SubnetSeven(2));
  }

  lemma StrangerDropped()
    ensures var t := Run(0, DropOfStranger()[..3]);
            && t.Entries(0) == [SubnetSeven(1), SubnetSeven(2)] && t.Spare(0) == []
            && Count(t.buckets[0].ips, 7) == 1 && Count(t.ips, 7) == 1
  {
    var ops := DropOfStranger();
    FirstTwoSeen();
    RunSnoc(0, ops, 2);
    hide GoodShape, BucketOf, DeleteInBucket, Run;
    DroppedStep(Run(0, ops[..2]), SubnetSeven(4));
  }

  lemma ThirdAdmitted()
    ensures var t := Run(0, DropOfStranger());
            t.Entries(0) == [SubnetSeven(1), SubnetSeven(2)] + [SubnetSeven(3)] && t.Spare(0) == []
  {
    var ops := DropOfStranger();
    var c := SubnetSeven(3);
    hide GoodShape, AddSeenNode, BucketOf, Run;
    assert ops[3] == Seen(c) && ops[..4] == ops;
    assert !Has([SubnetSeven(1), SubnetSeven(2)], c.id) && c.addr == Addr(7, 3, false) && c.id == 3;
    hide DropOfStranger, SubnetSeven, Has;
    StrangerDropped();
    RunSnoc(0, ops, 3);
    SeenStep(Run(0, ops[..3]), c);
  }

  /** The counters do not survive the deletion of a node that was never stored: a third address of the
      same subnet then enters a bucket. */
  lemma AbsentDeletionBreaksLimit()
    ensures InBucket(Run(0, DropOfStranger()), 0, 7) == BUCKET_IP_LIMIT + 1
    ensures !ProperRun(0, DropOfStranger())
  {
    ThirdAdmitted();
    hide Run, ProperRun, Occupancy, BucketOf, GoodShape;
    OccupancyThree(SubnetSeven(1), SubnetSeven(2), SubnetSeven(3));
    OverLimitIsImproper(0, DropOfStranger(), 0, 7);
  }

  lemma OverLimitIsImproper(self: Id, ops: seq<Op>, i: nat, s: nat)
    requires i < N_BUCKETS && InBucket(Run(self, ops), i, s) > BUCKET_IP_LIMIT
    ensures !ProperRun(self, ops)
  {
    hide Run, ProperRun, InBucket;
    if ProperRun(self, ops) {
      SubnetLimits(self, ops, i, s);
    }
  }

  lemma OccupancyThree(a: Node, b: Node, c: Node)
    requires Weight(a.addr, 7) == 1 && Weight(b.addr, 7) == 1 && Weight(c.addr, 7) == 1
    ensures Occupancy([a, b] + [c], 7) == 3 && Occupancy([], 7) == 0
  {
    OccupancyOne(a, 7);
    OccupancyOne(b, 7);
    OccupancyOne(c, 7);
    hide Weight;
    assert [a, b] == [a] + [b];
    OccupancyConcat([a], [b], 7);
    OccupancyConcat([a, b], [c], 7);
  }

  lemma SeenStep(t: Tab, n: Node)
    requires |t.buckets| == N_BUCKETS && 0 < n.id && BucketOf(0, n.id) == 0 && n.addr.subnet == 7 && !n.addr.lan
    requires !Has(t.Entries(0), n.id) && t.Spare(0) == [] && |t.Entries(0)| < BUCKET_SIZE
    requires Count(t.buckets[0].ips, 7) < BUCKET_IP_LIMIT && Count(t.ips, 7) < TABLE_IP_LIMIT
    ensures var t' := AddSeenNode(0, t, n);
            && |t'.buckets| == N_BUCKETS && t'.Entries(0) == t.Entries(0) + [n] && t'.Spare(0) == []
            && Count(t'.buckets[0].ips, 7) == Count(t.buckets[0].ips, 7) + 1 && Count(t'.ips, 7) == Count(t.ips, 7) + 1
  {
    hide BucketOf;
  }

  lemma DroppedStep(t: Tab, n: Node)
    requires |t.buckets| == N_BUCKETS && n.addr.subnet == 7 && !n.addr.lan && !Has(t.Entries(0), n.id)
    requires Count(t.buckets[0].ips, 7) > 0 && Count(t.ips, 7) > 0
    ensures var t' := DeleteInBucket(t, 0, n);
            && |t'.buckets| == N_BUCKETS && t'.Entries(0) == t.Entries(0) && t'.Spare(0) == t.Spare(0)
            && Count(t'.buckets[0].ips, 7) == Count(t.buckets[0].ips, 7) - 1 && Count(t'.ips, 7) == Count(t.ips, 7) - 1
  {
    hide BucketOf;
  }

  lemma RunSnoc(self: Id, ops: seq<Op>, k: nat)
    requires k < |ops|
    ensures |Run(self, ops[..k]).buckets| == N_BUCKETS
    ensures Run(self, ops[..k + 1]) == Apply(self, Run(self, ops[..k]), ops[k])
  {
    assert ops[..k + 1][..k] == ops[..k];
  }

  // ---------- The table in place ----------

  class Table {
    const self: Id
    var buckets: seq<Bucket>
    var ips: Counters

    ghost function View(): Tab
      reads this
    {
      Tab(buckets, ips)
    }

    ghost predicate Valid()
      reads this
    {
      |buckets| == N_BUCKETS
    }

    constructor (self: Id)
      ensures Valid() && this.self == self && View() == EmptyTable()
    {
      this.self := self;
      buckets := seq(N_BUCKETS, _ => EMPTY_BUCKET);
      ips := map[];
    }

    method CountAddress(i: nat, a: Addr) returns (ok: bool)
      requires Valid() && i < N_BUCKETS
      modifies this
      ensures Valid() && (View(), ok) == AddIP(old(View()), i, a)
    {
      if a.lan {
        return true;
      }
      if Count(ips, a.subnet) >= TABLE_IP_LIMIT {
        return false;
      }
      ips := Inc(ips, a.subnet);
      if Count(buckets[i].ips, a.subnet) >= BUCKET_IP_LIMIT {
        ips := Dec(ips, a.subnet);
        return false;
      }
      buckets := buckets[i := buckets[i].(ips := Inc(buckets[i].ips, a.subnet))];
      return true;
    }

    method ReleaseAddress(i: nat, a: Addr)
      requires Valid() && i < N_BUCKETS
      modifies this
      ensures Valid() && View() == RemoveIP(old(View()), i, a)
    {
      if !a.lan {
        ips := Dec(ips, a.subnet);
        buckets := buckets[i := buckets[i].(ips := Dec(buckets[i].ips, a.subnet))];
      }
    }

    /** The search loop shared by contains, deleteNode, addReplacement and bumpInBucket. */
    static method Find(ns: seq<Node>, id: Id) returns (k: nat)
      ensures k == IndexOf(ns, id)
      ensures k < |ns| <==> Has(ns, id)
    {
      k := 0;
      while k < |ns| && ns[k].id != id
        invariant k <= |ns| && forall j :: 0 <= j < k ==> ns[j].id != id
      {
        k := k + 1;
      }
    }

    static method Remove(ns: seq<Node>, id: Id) returns (r: seq<Node>)
      ensures r == Delete(ns, id)
    {
      var k := Find(ns, id);
      r := if k < |ns| then ns[..k] + ns[k + 1..] else ns;
    }

    method KeepAsReplacement(i: nat, n: Node)
      requires Valid() && i < N_BUCKETS
      modifies this
      ensures Valid() && View() == AddReplacement(old(View()), i, n)
    {
      hide AddIP, RemoveIP, IndexOf;
      var k := Find(buckets[i].replacements, n.id);
      if k < |buckets[i].replacements| {
        return;
      }
      var ok := CountAddress(i, n.addr);
      if !ok {
        return;
      }
      var rs := buckets[i].replacements;
      buckets := buckets[i := buckets[i].(replacements := Push(rs, n, MAX_REPLACEMENTS))];
      if |rs| >= MAX_REPLACEMENTS {
        ReleaseAddress(i, rs[|rs| - 1].addr);
      }
    }

    method Bump(i: nat, n: Node) returns (ok: bool)
      requires Valid() && i < N_BUCKETS
      modifies this
      ensures Valid() && (View(), ok) == BumpInBucket(old(View()), i, n)
    {
      hide AddIP, RemoveIP, IndexOf;
      ghost var t := View();
      var es := buckets[i].entries;
      var k := Find(es, n.id);
      if k == |es| {
        return false;
      }
      if n.addr != es[k].addr {
        RemoveIPKeeps(t, i, es[k].addr);
        ReleaseAddress(i, es[k].addr);
        AddIPKeeps(View(), i, n.addr);
        var fits := CountAddress(i, n.addr);
        if !fits {
          var _ := CountAddress(i, es[k].addr);
          return false;
        }
      }
      buckets := buckets[i := buckets[i].(entries := [n] + es[..k] + es[k + 1..])];
      return true;
    }

    method AddSeen(n: Node)
      requires Valid()
      modifies this
      ensures Valid() && View() == AddSeenNode(self, old(View()), n)
    {
      hide AddIP, AddReplacement, Delete, IndexOf;
      if n.id == self {
        return;
      }
      var i := BucketOf(self, n.id);
      var k := Find(buckets[i].entries, n.id);
      if k < |buckets[i].entries| {
        return;
      }
      if |buckets[i].entries| >= BUCKET_SIZE {
        KeepAsReplacement(i, n);
        return;
      }
      var ok := CountAddress(i, n.addr);
      if !ok {
        return;
      }
      var rs := Remove(buckets[i].replacements, n.id);
      buckets := buckets[i := buckets[i].(entries := buckets[i].entries + [n])];
      buckets := buckets[i := buckets[i].(replacements := rs)];
    }

    method AddVerified(n: Node, initDone: bool)
      requires Valid()
      modifies this
      ensures Valid() && View() == AddVerifiedNode(self, old(View()), n, initDone)
    {
      hide AddIP, AddReplacement, Delete, IndexOf, BumpInBucket;
      if !initDone || n.id == self {
        return;
      }
      var i := BucketOf(self, n.id);
      var bumped := Bump(i, n);
      if bumped {
        return;
      }
      if |buckets[i].entries| >= BUCKET_SIZE {
        KeepAsReplacement(i, n);
        return;
      }
      var ok := CountAddress(i, n.addr);
      if !ok {
        return;
      }
      var rs := Remove(buckets[i].replacements, n.id);
      buckets := buckets[i := buckets[i].(entries := Push(buckets[i].entries, n, BUCKET_SIZE))];
      buckets := buckets[i := buckets[i].(replacements := rs)];
    }

    method DeleteFrom(i: nat, n: Node)
      requires Valid() && i < N_BUCKETS
      modifies this
      ensures Valid() && View() == DeleteInBucket(old(View()), i, n)
    {
      hide RemoveIP, Delete, IndexOf;
      var es := Remove(buckets[i].entries, n.id);
      buckets := buckets[i := buckets[i].(entries := es)];
      ReleaseAddress(i, n.addr);
    }

    method ReplaceLast(i: nat, last: Node, pick: nat)
      requires Valid() && i < N_BUCKETS && pick < MAX_REPLACEMENTS
      modifies this
      ensures Valid() && View() == Replace(old(View()), i, last, pick)
    {
      hide RemoveIP, Delete, IndexOf, DeleteInBucket;
      var es, rs := buckets[i].entries, buckets[i].replacements;
      if |es| == 0 || es[|es| - 1].id != last.id {
        return;
      }
      if |rs| == 0 {
        DeleteFrom(i, last);
        return;
      }
      var r := rs[pick % |rs|];
      var left := Remove(rs, r.id);
      buckets := buckets[i := buckets[i].(replacements := left)];
      buckets := buckets[i := buckets[i].(entries := es[..|es| - 1] + [r])];
      ReleaseAddress(i, last.addr);
    }
  }
}
