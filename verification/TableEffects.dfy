/** What each operation of the node table brings about (net/rlpx/p2p/discover/table.go). */
module TableEffects {
  import opened Bits
  import opened NodeTable

  /** Whether both counters have room for an address. */
  predicate Room(t: Tab, i: nat, a: Addr)
    requires i < |t.buckets|
  {
    a.lan || (Count(t.ips, a.subnet) < TABLE_IP_LIMIT && Count(t.buckets[i].ips, a.subnet) < BUCKET_IP_LIMIT)
  }

  /** The list lost its one node with the identifier, if it had one, and kept the order of the rest. */
  ghost predicate Lost(ns: seq<Node>, ns': seq<Node>, id: Id) {
    || (!Has(ns, id) && ns' == ns)
    || (exists k :: 0 <= k < |ns| && ns[k].id == id && ns' == ns[..k] + ns[k + 1..])
  }

  /** Only bucket i changed; its lists are now these, and both counters of each subnet have gone up by `more`. */
  ghost predicate Now(t: Tab, t': Tab, i: nat, es: seq<Node>, rs: seq<Node>, more: Addr) {
    && i < |t.buckets| && |t'.buckets| == |t.buckets|
    && (forall j :: 0 <= j < |t.buckets| && j != i ==> t'.buckets[j] == t.buckets[j])
    && t'.Entries(i) == es && t'.Spare(i) == rs
    && (forall s :: Count(t'.ips, s) == Count(t.ips, s) + Weight(more, s))
    && (forall s :: Count(t'.buckets[i].ips, s) == Count(t.buckets[i].ips, s) + Weight(more, s))
  }

  function Minus(a: nat, b: nat): nat { if a >= b then a - b else 0 }

  lemma AddIPIff(t: Tab, i: nat, a: Addr)
    requires i < |t.buckets|
    ensures AddIP(t, i, a).1 <==> Room(t, i, a)
    ensures Room(t, i, a) ==> Now(t, AddIP(t, i, a).0, i, t.Entries(i), t.Spare(i), a)
    ensures !Room(t, i, a) ==> AddIP(t, i, a).0 == t
  {
    DecInc(t.ips, a.subnet);
  }

  lemma DeleteLoses(ns: seq<Node>, id: Id)
    ensures Lost(ns, Delete(ns, id), id)
  {
  }

  /** A node just verified enters the front of its bucket when there is room for it, and is no replacement any more. */
  lemma VerifiedEnters(self: Id, t: Tab, n: Node) returns (rs: seq<Node>)
    requires |t.buckets| == N_BUCKETS && n.id != self
    requires var i := BucketOf(self, n.id); !Has(t.Entries(i), n.id) && |t.Entries(i)| < BUCKET_SIZE && Room(t, i, n.addr)
    ensures var i := BucketOf(self, n.id);
            && Lost(t.Spare(i), rs, n.id)
            && Now(t, Apply(self, t, Verified(n, true)), i, [n] + t.Entries(i), rs, n.addr)
  {
    var i := BucketOf(self, n.id);
    hide BucketOf, AddIP, AddReplacement;
    AddIPIff(t, i, n.addr);
    AbsentNotBumped(t, i, n);
    rs := Delete(t.Spare(i), n.id);
    DeleteLoses(t.Spare(i), n.id);
    hide Delete, Room;
  }

  lemma AbsentNotBumped(t: Tab, i: nat, n: Node)
    requires i < |t.buckets| && !Has(t.Entries(i), n.id)
    ensures BumpInBucket(t, i, n) == (t, false)
  {
    assert IndexOf(t.Entries(i), n.id) == |t.Entries(i)|;
  }

  /** A node just seen enters the end of its bucket. */
  lemma SeenEnters(self: Id, t: Tab, n: Node) returns (rs: seq<Node>)
    requires |t.buckets| == N_BUCKETS && n.id != self
    requires var i := BucketOf(self, n.id); !Has(t.Entries(i), n.id) && |t.Entries(i)| < BUCKET_SIZE && Room(t, i, n.addr)
    ensures var i := BucketOf(self, n.id);
            && Lost(t.Spare(i), rs, n.id)
            && Now(t, Apply(self, t, Seen(n)), i, t.Entries(i) + [n], rs, n.addr)
  {
    var i := BucketOf(self, n.id);
    hide BucketOf, AddIP, AddReplacement;
    AddIPIff(t, i, n.addr);
    rs := Delete(t.Spare(i), n.id);
    DeleteLoses(t.Spare(i), n.id);
    hide Delete, Room;
  }

  /** In a full bucket a new node, seen or verified, becomes the first replacement; the last of ten goes, and its
      address is released. */
  lemma FullKeepsReplacement(self: Id, t: Tab, n: Node, op: Op)
    requires |t.buckets| == N_BUCKETS && n.id != self && (op == Seen(n) || op == Verified(n, true))
    requires var i := BucketOf(self, n.id);
             !Has(t.Entries(i), n.id) && |t.Entries(i)| >= BUCKET_SIZE && !Has(t.Spare(i), n.id) && Room(t, i, n.addr)
    ensures var i, t' := BucketOf(self, n.id), Apply(self, t, op);
            var rs := t.Spare(i);
            && (|rs| < MAX_REPLACEMENTS ==> Now(t, t', i, t.Entries(i), [n] + rs, n.addr))
            && (|rs| >= MAX_REPLACEMENTS ==>
                  && (forall j :: 0 <= j < |t.buckets| && j != i ==> t'.buckets[j] == t.buckets[j])
                  && t'.Entries(i) == t.Entries(i) && t'.Spare(i) == [n] + rs[..|rs| - 1]
                  && forall s :: Count(t'.buckets[i].ips, s) == Minus(Count(t.buckets[i].ips, s) + Weight(n.addr, s), Weight(rs[|rs| - 1].addr, s)))
  {
    var i := BucketOf(self, n.id);
    assert Apply(self, t, op) == AddReplacement(t, i, n) by {
      hide BucketOf, AddIP, AddReplacement;
      AbsentNotBumped(t, i, n);
    }
    hide Apply, BucketOf;
    ReplacementKept(t, i, n);
  }

  lemma ReplacementKept(t: Tab, i: nat, n: Node)
    requires i < |t.buckets| && !Has(t.Spare(i), n.id) && Room(t, i, n.addr)
    ensures var t', rs := AddReplacement(t, i, n), t.Spare(i);
            && (|rs| < MAX_REPLACEMENTS ==> Now(t, t', i, t.Entries(i), [n] + rs, n.addr))
            && (|rs| >= MAX_REPLACEMENTS ==>
                  && |t'.buckets| == |t.buckets| && (forall j :: 0 <= j < |t.buckets| && j != i ==> t'.buckets[j] == t.buckets[j])
                  && t'.Entries(i) == t.Entries(i) && t'.Spare(i) == [n] + rs[..|rs| - 1]
                  && forall s :: Count(t'.buckets[i].ips, s) == Minus(Count(t.buckets[i].ips, s) + Weight(n.addr, s), Weight(rs[|rs| - 1].addr, s)))
  {
    AddIPIff(t, i, n.addr);
    hide AddIP, Room, Inc;
  }

  /** Nothing happens when the address does not fit, when a replacement is there already, when an entry is seen again,
      for ourselves, and before the table is initialised. */
  lemma NothingHappens(self: Id, t: Tab, n: Node)
    requires |t.buckets| == N_BUCKETS
    ensures Apply(self, t, Verified(n, false)) == t
    ensures n.id == self ==> Apply(self, t, Verified(n, true)) == Apply(self, t, Seen(n)) == t
    ensures Has(t.Entries(BucketOf(self, n.id)), n.id) ==> Apply(self, t, Seen(n)) == t
    ensures var i := BucketOf(self, n.id);
            !Has(t.Entries(i), n.id) && (!Room(t, i, n.addr) || (|t.Entries(i)| >= BUCKET_SIZE && Has(t.Spare(i), n.id)))
            ==> Apply(self, t, Verified(n, true)) == Apply(self, t, Seen(n)) == t
  {
    var i := BucketOf(self, n.id);
    hide BucketOf, AddIP, IndexOf;
    AddIPIff(t, i, n.addr);
    if !Has(t.Entries(i), n.id) {
      AbsentNotBumped(t, i, n);
    }
  }

  /** Whether n's new address fits once the old one of entry k is given back. */
  predicate NewAddressFits(t: Tab, i: nat, k: nat, n: Node)
    requires i < |t.buckets| && k < |t.Entries(i)|
  {
    n.addr == t.Entries(i)[k].addr || Room(RemoveIP(t, i, t.Entries(i)[k].addr), i, n.addr)
  }

  /** Entry k of bucket i is bumped: it moves to the front as n if n's address fits, and the others keep their order;
      if it does not fit, the lists stay as they are. */
  ghost predicate Bumped(t: Tab, t': Tab, i: nat, k: nat, n: Node)
    requires i < |t.buckets| && k < |t.Entries(i)|
  {
    var es := t.Entries(i);
    && |t'.buckets| == |t.buckets| && (forall j :: 0 <= j < |t.buckets| && j != i ==> t'.buckets[j] == t.buckets[j])
    && t'.Spare(i) == t.Spare(i)
    && t'.Entries(i) == if NewAddressFits(t, i, k, n) then [n] + (es[..k] + es[k + 1..]) else es
  }

  /** An entry that is verified, or answers a check, is bumped. */
  lemma BumpMoves(self: Id, t: Tab, n: Node, i: nat, k: nat)
    requires GoodShape(self, t) && n.id != self && i == BucketOf(self, n.id)
    requires k < |t.Entries(i)| && t.Entries(i)[k].id == n.id
    ensures Bumped(t, Apply(self, t, Revalidated(n)), i, k, n)
    ensures Bumped(t, Apply(self, t, Verified(n, true)), i, k, n)
  {
    var es := t.Entries(i);
    assert GoodLists(self, i, es, t.Spare(i));
    assert IndexOf(es, n.id) == k by {
      assert es[IndexOf(es, n.id)].id == es[k].id;
    }
    hide BucketOf, GoodLists;
    BumpInPlace(t, i, n, k);
    if !BumpInBucket(t, i, n).1 {
      RefusedBumpStays(self, t, n, i);
    }
    hide BumpInBucket, AddReplacement, AddIP, Bumped, IndexOf;
  }

  lemma BumpInPlace(t: Tab, i: nat, n: Node, k: nat)
    requires i < |t.buckets| && k < |t.Entries(i)| && IndexOf(t.Entries(i), n.id) == k
    ensures Bumped(t, BumpInBucket(t, i, n).0, i, k, n) && BumpInBucket(t, i, n).1 == NewAddressFits(t, i, k, n)
  {
    var es := t.Entries(i);
    var gone := RemoveIP(t, i, es[k].addr);
    AddIPIff(gone, i, n.addr);
    AddIPIff(gone, i, es[k].addr);
    assert [n] + es[..k] + es[k + 1..] == [n] + (es[..k] + es[k + 1..]);
    hide AddIP, Room, Inc, Dec, IndexOf;
  }

  lemma RefusedBumpStays(self: Id, t: Tab, n: Node, i: nat)
    requires GoodShape(self, t) && n.id != self && i == BucketOf(self, n.id)
    requires !BumpInBucket(t, i, n).1 && IndexOf(t.Entries(i), n.id) < |t.Entries(i)|
    ensures Apply(self, t, Verified(n, true)) == BumpInBucket(t, i, n).0
  {
    hide BucketOf, BumpInBucket, GoodLists, AddIP;
    FailedBump(t, i, n);
    var t1 := BumpInBucket(t, i, n).0;
    AddIPIff(t1, i, n.addr);
  }

  /** A dead last entry is replaced by the replacement picked, which leaves the replacements; without one it just goes.
      An entry that is not the last stays. */
  lemma DeadIsReplaced(self: Id, t: Tab, n: Node, pick: nat) returns (p: nat)
    requires GoodShape(self, t)
    ensures var i, t' := BucketOf(self, n.id), Apply(self, t, Died(n, pick)); var es, rs := t.Entries(i), t.Spare(i);
            if !IsLast(t, i, n) then t' == t
            else
              && (forall j :: 0 <= j < |t.buckets| && j != i ==> t'.buckets[j] == t.buckets[j])
              && (rs == [] ==> t'.Entries(i) == es[..|es| - 1] && t'.Spare(i) == [])
              && (rs != [] ==> && p == pick % MAX_REPLACEMENTS % |rs| && t'.Entries(i) == es[..|es| - 1] + [rs[p]]
                               && t'.Spare(i) == rs[..p] + rs[p + 1..])
  {
    var i := BucketOf(self, n.id);
    var es, rs := t.Entries(i), t.Spare(i);
    p := if rs == [] then 0 else pick % MAX_REPLACEMENTS % |rs|;
    assert GoodLists(self, i, es, rs);
    if IsLast(t, i, n) {
      LastIndex(es, n.id);
    }
    if rs != [] {
      assert IndexOf(rs, rs[p].id) == p by {
        assert rs[IndexOf(rs, rs[p].id)].id == rs[p].id;
      }
    }
    hide BucketOf, GoodLists, IndexOf, Dec;
  }

  /** A dropped node leaves the entries; the order of the rest stays. */
  lemma DroppedLeaves(self: Id, t: Tab, n: Node)
    requires |t.buckets| == N_BUCKETS
    ensures var i, t' := BucketOf(self, n.id), Apply(self, t, Dropped(n));
            && (forall j :: 0 <= j < |t.buckets| && j != i ==> t'.buckets[j] == t.buckets[j])
            && Lost(t.Entries(i), t'.Entries(i), n.id) && t'.Spare(i) == t.Spare(i)
  {
    var i := BucketOf(self, n.id);
    hide BucketOf;
    DeleteLoses(t.Entries(i), n.id);
    hide Delete, Dec;
  }
}
