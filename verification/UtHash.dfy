/** The hash table that backs the map of copied objects (uthash.h). Elements are
    addresses; their hash handles are the link fields kept here. */
module UtHash {
  import opened Memory
  import opened Probing
  import opened LinkedLists
  import opened Buckets
  import opened Expansion

  const INITIAL_LOG2 := 5
  const BKT_CAPACITY_THRESH := 10

  ghost function Elems(order: seq<int>): set<int> { set x | x in order }

  /** Elements with different keys, each with the hash of its key. */
  ghost predicate KeysOk(hash: int -> nat, key: Mem, f: Fields, order: seq<int>) {
    && (forall x :: x in order ==> HashAt(f, x) == hash(Rd(key, x)))
    && forall x, y :: x in order && y in order && Rd(key, x) == Rd(key, y) ==> x == y
  }

  /** The elements with their keys, in the order in which they were added. */
  ghost function Entries(key: Mem, order: seq<int>): seq<(int, int)> {
    seq(|order|, i requires 0 <= i < |order| => (Rd(key, order[i]), order[i]))
  }

  class Table {
    const hash: int -> nat
    var key: Mem
    var next: Mem
    var prev: Mem
    var f: Fields
    var head: int
    var tail: int
    var buckets: array<Bucket>
    var log2NumBuckets: nat
    var numItems: nat
    var idealChainMaxlen: nat
    var nonidealItems: nat
    var ineffExpands: nat
    var noexpand: bool
    ghost var order: seq<int>
    ghost var chains: seq<seq<int>>

    ghost predicate Linked()
      reads this, buckets
    {
      && IsList(next, prev, order, head)
      && KeysOk(hash, key, f, order)
      && (order != [] ==> tail == order[|order| - 1] && numItems == |order|)
    }

    ghost predicate Valid()
      reads this, buckets
    {
      && Linked()
      && (order != [] ==> BucketsOk(f, Elems(order), chains, buckets[..], log2NumBuckets))
    }

    ghost function Contents(): seq<(int, int)>
      reads this
    {
      Entries(key, order)
    }

    constructor (hash: int -> nat, key: Mem)
      ensures Valid() && order == [] && this.hash == hash
    {
      this.hash := hash;
      this.key := key;
      next, prev, f := map[], map[], Fields(map[], map[], map[]);
      head, tail := NULL, NULL;
      buckets := new Bucket[0];
      log2NumBuckets, numItems, idealChainMaxlen, nonidealItems, ineffExpands, noexpand := 0, 0, 0, 0, 0, false;
      order, chains := [], [];
      new;
      assert forall i :: Links(next, prev, [], i);
    }

    /** HASH_FIND: the element with the given key, or null. */
    method Find(k: int) returns (out: int)
      requires Valid()
      ensures out != NULL ==> out in order && Rd(key, out) == k
      ensures out == NULL <==> forall x :: x in order ==> Rd(key, x) != k
    {
      hide BucketOf, IsList;
      EmptyOrNot(next, prev, order, head);
      if head == NULL { return NULL; }
      var bkt := BucketOf(hash(k), log2NumBuckets);
      ghost var l, i := chains[bkt], 0;
      ChainOf(f, Elems(order), chains, buckets[..], log2NumBuckets, bkt);
      out := buckets[bkt].hhHead;
      while out != NULL
        invariant 0 <= i <= |l| && out == At(l, i)
        invariant forall j :: 0 <= j < i ==> Rd(key, l[j]) != k
        decreases |l| - i
      {
        if Rd(key, out) == k {
          assert l[i] in l;
          return;
        }
        Neighbours(f, l, buckets[bkt].hhHead, i);
        out := Rd(f.hhNext, out);
        i := i + 1;
      }
      EndOfList(l, i);
      NotThere(hash, key, f, order, chains, buckets[..], log2NumBuckets, k);
    }

    /** HASH_ADD_KEYPTR, for a key that is not there yet. */
    method AddKeyptr(k: int, add: int)
      requires Valid() && add != NULL && add !in order
      requires forall x :: x in order ==> Rd(key, x) != k
      modifies this, buckets
      ensures Valid() && (buckets == old(buckets) || fresh(buckets))
      ensures order == old(order) + [add] && Contents() == old(Contents()) + [(k, add)]
    {
      hide BucketOf, IsList, KeysOk, BucketsOk, Elems, Entries, Pow2, At, Rd;
      ghost var f0 := f;
      AddToOrder(add);
      key := key[add := k];
      numItems := numItems + 1;
      f := f.(hashv := f.hashv[add := hash(k)]);
      KeyAdded(hash, old(key), f0, old(order), k, add);
      OrderGrows(f0, chains, buckets[..], log2NumBuckets, old(order), add, hash(k));
      ghost var f1 := f;
      AddToBkt(BucketOf(HashAt(f, add), log2NumBuckets), add);
      SameKeys(hash, key, f1, f, order);
    }

    /** The part of HASH_ADD_KEYPTR that concerns the application order. */
    method AddToOrder(add: int)
      requires Valid() && add != NULL && add !in order
      modifies this
      ensures order == old(order) + [add] && IsList(next, prev, order, head) && tail == add
      ensures numItems == |old(order)| && key == old(key) && f == old(f)
      ensures BucketsOk(f, Elems(old(order)), chains, buckets[..], log2NumBuckets)
      ensures buckets == old(buckets) || fresh(buckets)
      ensures buckets == old(buckets) ==> buckets[..] == old(buckets[..])
    {
      hide BucketOf, IsList, KeysOk, BucketsOk;
      EmptyOrNot(next, prev, order, head);
      next := next[add := NULL];
      if head == NULL {
        head := add;
        prev := prev[add := NULL];
        MakeTable();
        assert Elems([]) == {};
        SingleList(next, prev, add);
        order := [add];
      } else {
        next := next[tail := add];
        prev := prev[add := tail];
        tail := add;
        AppendToOrder(old(next), old(prev), order, head, add, next, prev);
        order := order + [add];
      }
    }

    /** HASH_MAKE_TABLE: 32 empty buckets. */
    method MakeTable()
      modifies `tail, `buckets, `log2NumBuckets, `numItems, `idealChainMaxlen, `nonidealItems, `ineffExpands, `noexpand, `chains
      ensures tail == head && numItems == 0 && fresh(buckets)
      ensures BucketsOk(f, {}, chains, buckets[..], log2NumBuckets)
    {
      hide BucketOf, BucketsOk;
      tail := head;
      log2NumBuckets := INITIAL_LOG2;
      numItems, idealChainMaxlen, nonidealItems, ineffExpands, noexpand := 0, 0, 0, 0, false;
      buckets, chains := EmptyBuckets(Pow2(INITIAL_LOG2));
      NoMembers(f, chains, buckets[..], INITIAL_LOG2);
    }

    static method EmptyBuckets(n: nat) returns (buckets: array<Bucket>, ghost chains: seq<seq<int>>)
      ensures fresh(buckets) && buckets.Length == n && |chains| == n
      ensures forall b :: 0 <= b < n ==> chains[b] == [] && buckets[..][b] == NO_BUCKET
    {
      buckets := new Bucket[n](i => NO_BUCKET);
      chains := seq(n, i => []);
    }

    /** HASH_ADD_TO_BKT: puts x in front, and expands a table whose bucket has
        become too long. */
    method AddToBkt(bkt: nat, x: int)
      requires x in order && x != NULL && bkt == BucketOf(HashAt(f, x), log2NumBuckets)
      requires BucketsOk(f, Elems(order) - {x}, chains, buckets[..], log2NumBuckets)
      requires numItems == |order|
      modifies `f, `buckets, buckets, `log2NumBuckets, `idealChainMaxlen, `nonidealItems, `ineffExpands, `noexpand, `chains
      ensures BucketsOk(f, Elems(order), chains, buckets[..], log2NumBuckets) && f.hashv == old(f.hashv)
      ensures buckets == old(buckets) || fresh(buckets)
    {
      hide BucketOf, IsList, KeysOk;
      ghost var was := buckets[..];
      var head := buckets[bkt];
      AddToBucket(f, Elems(order) - {x}, chains, was, log2NumBuckets, x, head.expandMult);
      f := Pushed(f, x, head.hhHead);
      buckets[bkt] := Bucket(x, head.count + 1, head.expandMult);
      chains := chains[bkt := [x] + chains[bkt]];
      assert Elems(order) - {x} + {x} == Elems(order);
      assert buckets[..] == was[bkt := Bucket(x, head.count + 1, head.expandMult)];
      if head.count + 1 >= (head.expandMult + 1) * BKT_CAPACITY_THRESH && !noexpand {
        ExpandBuckets();
      }
    }

    /** HASH_EXPAND_BUCKETS: the same elements in twice as many buckets. */
    method ExpandBuckets()
      requires BucketsOk(f, Elems(order), chains, buckets[..], log2NumBuckets) && numItems == |order| > 0
      modifies `f, `buckets, `log2NumBuckets, `idealChainMaxlen, `nonidealItems, `ineffExpands, `noexpand, `chains
      ensures BucketsOk(f, Elems(order), chains, buckets[..], log2NumBuckets)
      ensures fresh(buckets) && f.hashv == old(f.hashv) && log2NumBuckets == old(log2NumBuckets) + 1
      ensures idealChainMaxlen * Pow2(log2NumBuckets) >= numItems > (idealChainMaxlen - 1) * Pow2(log2NumBuckets)
      ensures nonidealItems == Excess(buckets[..], idealChainMaxlen)
      ensures ineffExpands == if nonidealItems > numItems / 2 then old(ineffExpands) + 1 else 0
      ensures noexpand == (old(noexpand) || ineffExpands > 1)
    {
      hide BucketOf, BucketsOk, IsList, Expanding, IdealChainMaxlen, Pow2, Excess, KeysOk, Elems;
      ghost var o := Before(f, Elems(order), chains, buckets[..], log2NumBuckets);
      ghost var done: set<int> := {};
      var numBuckets := buckets.Length;
      DoubleSize(o);
      var newBuckets: array<Bucket>;
      ghost var newChains: seq<seq<int>>;
      newBuckets, newChains := EmptyBuckets(2 * numBuckets);
      idealChainMaxlen := IdealChainMaxlen(numItems, log2NumBuckets + 1);
      IdealIsCeiling(numItems, log2NumBuckets + 1);
      nonidealItems := 0;
      Begin(o, newChains, newBuckets[..]);
      NoExcess(newBuckets[..], idealChainMaxlen);
      var i := 0;
      while i < numBuckets
        invariant 0 <= i <= numBuckets
        invariant buckets == old(buckets) && buckets[..] == o.buckets && f.hashv == o.f.hashv
        invariant log2NumBuckets == o.log2 && idealChainMaxlen == IdealChainMaxlen(numItems, o.log2 + 1)
        invariant ineffExpands == old(ineffExpands) && noexpand == old(noexpand) && chains == o.chains
        invariant Expanding(o, i, 0, done, f, newChains, newBuckets[..])
        invariant nonidealItems == Excess(newBuckets[..], idealChainMaxlen)
      {
        done, newChains := MoveBucket(o, i, done, newChains, newBuckets);
        i := i + 1;
      }
      AllMoved(o, done, f, newChains, newBuckets[..]);
      log2NumBuckets := log2NumBuckets + 1;
      buckets := newBuckets;
      chains := newChains;
      ineffExpands := if nonidealItems > numItems / 2 then ineffExpands + 1 else 0;
      if ineffExpands > 1 { noexpand := true; }
    }

    /** All items of bucket i go to their new buckets. */
    method MoveBucket(ghost o: Before, i: nat, ghost done: set<int>, ghost newChains: seq<seq<int>>, newBuckets: array<Bucket>)
      returns (ghost done': set<int>, ghost newChains': seq<seq<int>>)
      requires Expanding(o, i, 0, done, f, newChains, newBuckets[..]) && newBuckets != buckets
      requires i < |o.chains| && i < buckets.Length && buckets[..] == o.buckets
      requires log2NumBuckets == o.log2 && idealChainMaxlen > 0 && nonidealItems == Excess(newBuckets[..], idealChainMaxlen)
      modifies `f, `nonidealItems, newBuckets
      ensures Expanding(o, i + 1, 0, done', f, newChains', newBuckets[..])
      ensures nonidealItems == Excess(newBuckets[..], idealChainMaxlen) && f.hashv == old(f.hashv)
    {
      hide BucketOf, BucketsOk, IsList, Expanding, Pow2, Excess;
      done', newChains' := done, newChains;
      var thh := buckets[i].hhHead;
      ghost var j := 0;
      ChainAhead(o, i, j, done', f, newChains', newBuckets[..]);
      while thh != NULL
        invariant 0 <= j <= |o.chains[i]| && thh == At(o.chains[i], j)
        invariant f.hashv == old(f.hashv)
        invariant Expanding(o, i, j, done', f, newChains', newBuckets[..])
        invariant nonidealItems == Excess(newBuckets[..], idealChainMaxlen)
        decreases |o.chains[i]| - j
      {
        ChainAhead(o, i, j, done', f, newChains', newBuckets[..]);
        var hhNxt := Rd(f.hhNext, thh);
        done', newChains' := MoveItem(o, i, j, thh, done', newChains', newBuckets);
        thh, j := hhNxt, j + 1;
      }
      ChainAhead(o, i, j, done', f, newChains', newBuckets[..]);
      NextBucket(o, i, done', f, newChains', newBuckets[..]);
    }

    /** One item goes to the front of its new bucket. */
    method MoveItem(ghost o: Before, ghost i: nat, ghost j: nat, thh: int, ghost done: set<int>, ghost newChains: seq<seq<int>>, newBuckets: array<Bucket>)
      returns (ghost done': set<int>, ghost newChains': seq<seq<int>>)
      requires Expanding(o, i, j, done, f, newChains, newBuckets[..]) && newBuckets != buckets
      requires i < |o.chains| && j < |o.chains[i]| && thh == o.chains[i][j]
      requires log2NumBuckets == o.log2 && idealChainMaxlen > 0 && nonidealItems == Excess(newBuckets[..], idealChainMaxlen)
      modifies `f, `nonidealItems, newBuckets
      ensures Expanding(o, i, j + 1, done', f, newChains', newBuckets[..])
      ensures nonidealItems == Excess(newBuckets[..], idealChainMaxlen) && f.hashv == old(f.hashv)
    {
      hide BucketOf, IsList, DoneIs, Remaining, Pow2;
      ghost var was := newBuckets[..];
      var bkt := BucketOf(HashAt(f, thh), log2NumBuckets + 1);
      NewBucketIn(o, i, j, done, f, newChains, was, bkt);
      var e := newBuckets[bkt];
      var mult := e.expandMult;
      if e.count + 1 > idealChainMaxlen {
        nonidealItems := nonidealItems + 1;
        mult := (e.count + 1) / idealChainMaxlen;
      }
      MoveOne(o, i, j, done, f, newChains, was, mult);
      ExcessUpdate(was, idealChainMaxlen, bkt, Bucket(thh, e.count + 1, mult));
      f := Pushed(f, thh, e.hhHead);
      newBuckets[bkt] := Bucket(thh, e.count + 1, mult);
      assert newBuckets[..] == was[bkt := Bucket(thh, e.count + 1, mult)];
      done', newChains' := done + {thh}, newChains[bkt := [thh] + newChains[bkt]];
    }

    /** HASH_DELETE. */
    method Delete(del: int)
      requires Valid() && del in order
      modifies this, buckets
      ensures Valid() && buckets == old(buckets) && key == old(key)
      ensures exists i :: 0 <= i < |old(order)| && old(order)[i] == del && order == Without(old(order), i)
    {
      hide BucketOf, IsList, KeysOk, BucketsOk, Elems, Pow2, At, Rd;
      ghost var i: nat :| i < |order| && order[i] == del;
      OrderLinks(next, prev, order, head, i);
      KeyRemoved(hash, key, f, order, i);
      if Rd(prev, del) == NULL && Rd(next, del) == NULL {
        head := NULL;
        order := [];
        EmptyList(next, prev);
        return;
      }
      UnlinkFromOrder(i, del);
      DelInBkt(BucketOf(HashAt(f, del), log2NumBuckets), del);
      SameKeys(hash, key, old(f), f, Without(order, i));
      numItems := numItems - 1;
      order := Without(order, i);
    }

    /** The part of HASH_DELETE that concerns the application order. */
    method UnlinkFromOrder(ghost i: nat, del: int)
      requires IsList(next, prev, order, head) && i < |order| && del == order[i] && |order| > 1 && tail == order[|order| - 1]
      modifies `next, `prev, `head, `tail
      ensures IsList(next, prev, Without(order, i), head) && Elems(Without(order, i)) == Elems(order) - {del}
      ensures tail == Without(order, i)[|order| - 2]
    {
      hide IsList;
      OrderLinks(next, prev, order, head, i);
      var nextDel, prevDel := Rd(next, del), Rd(prev, del);
      if del == tail { tail := prevDel; }
      if prevDel != NULL { next := next[prevDel := nextDel]; } else { head := nextDel; }
      if nextDel != NULL { prev := prev[nextDel := prevDel]; }
      RemoveFromOrder(old(next), old(prev), order, old(head), i, next, prev);
    }

    /** HASH_DEL_IN_BKT. */
    method DelInBkt(bkt: nat, del: int)
      requires del in order && bkt == BucketOf(HashAt(f, del), log2NumBuckets)
      requires BucketsOk(f, Elems(order), chains, buckets[..], log2NumBuckets)
      modifies `f, buckets, `chains
      ensures BucketsOk(f, Elems(order) - {del}, chains, buckets[..], log2NumBuckets) && f.hashv == old(f.hashv)
    {
      hide BucketOf, IsList;
      ghost var was := buckets[..];
      ghost var i := RemoveFromBucket(f, Elems(order), chains, was, log2NumBuckets, del);
      var e := buckets[bkt];
      var hhHead := if e.hhHead == del then Rd(f.hhNext, del) else e.hhHead;
      buckets[bkt] := Bucket(hhHead, e.count - 1, e.expandMult);
      assert buckets[..] == was[bkt := Bucket(hhHead, e.count - 1, e.expandMult)];
      f := Unlinked(f, del);
      chains := chains[bkt := Without(chains[bkt], i)];
    }
  }

  lemma EmptyOrNot(next: Mem, prev: Mem, order: seq<int>, head: int)
    requires IsList(next, prev, order, head)
    ensures head == NULL <==> order == []
  {
  }

  lemma EmptyList(next: Mem, prev: Mem)
    ensures IsList(next, prev, [], NULL)
  {
    forall i ensures Links(next, prev, [], i) {}
  }

  lemma SingleList(next: Mem, prev: Mem, x: int)
    requires x != NULL && Rd(next, x) == NULL && Rd(prev, x) == NULL
    ensures IsList(next, prev, [x], x)
  {
    forall i ensures Links(next, prev, [x], i) {}
  }

  lemma AppendToOrder(next: Mem, prev: Mem, order: seq<int>, head: int, x: int, next': Mem, prev': Mem)
    requires IsList(next, prev, order, head) && order != [] && x != NULL && x !in order
    requires prev' == prev[x := order[|order| - 1]] && next' == next[x := NULL][order[|order| - 1] := x]
    ensures IsList(next', prev', order + [x], head)
  {
    hide IsList;
    Append(next, prev, order, head, x, next', prev');
  }

  lemma OrderLinks(next: Mem, prev: Mem, order: seq<int>, head: int, i: nat)
    requires IsList(next, prev, order, head) && i < |order|
    ensures Rd(next, order[i]) == At(order, i + 1) && Rd(prev, order[i]) == At(order, i - 1)
    ensures Rd(next, order[i]) == NULL <==> i == |order| - 1
    ensures Rd(prev, order[i]) == NULL <==> i == 0
    ensures order[i] == order[|order| - 1] <==> i == |order| - 1
  {
    assert Links(next, prev, order, i);
  }

  lemma RemoveFromOrder(next: Mem, prev: Mem, order: seq<int>, head: int, i: nat, next': Mem, prev': Mem)
    requires IsList(next, prev, order, head) && i < |order|
    requires next' == if i > 0 then next[order[i - 1] := At(order, i + 1)] else next
    requires prev' == if i + 1 < |order| then prev[order[i + 1] := At(order, i - 1)] else prev
    ensures IsList(next', prev', Without(order, i), if i == 0 then At(order, 1) else head)
    ensures Elems(Without(order, i)) == Elems(order) - {order[i]}
  {
    Remove(next, prev, order, head, i, next', prev');
  }

  lemma EndOfList(l: seq<int>, i: nat)
    requires i <= |l| && At(l, i) == NULL && forall x :: x in l ==> x != NULL
    ensures i == |l|
  {
    assert forall j :: 0 <= j < |l| ==> l[j] in l;
  }

  lemma ChainOf(f: Fields, members: set<int>, chains: seq<seq<int>>, buckets: seq<Bucket>, log2: nat, b: nat)
    requires BucketsOk(f, members, chains, buckets, log2) && b < Pow2(log2)
    ensures IsList(f.hhNext, f.hhPrev, chains[b], buckets[b].hhHead)
    ensures buckets[b].hhHead == At(chains[b], 0)
    ensures forall x :: x in chains[b] ==> x in members && x != NULL
  {
    hide BucketOf;
    assert BucketOk(f, members, chains, buckets, log2, b);
  }

  lemma NotThere(hash: int -> nat, key: Mem, f: Fields, order: seq<int>, chains: seq<seq<int>>, buckets: seq<Bucket>, log2: nat, k: int)
    requires KeysOk(hash, key, f, order) && BucketsOk(f, Elems(order), chains, buckets, log2)
    requires forall j :: 0 <= j < |chains[BucketOf(hash(k), log2)]| ==> Rd(key, chains[BucketOf(hash(k), log2)][j]) != k
    ensures forall x :: x in order ==> Rd(key, x) != k
  {
    hide BucketOf, IsList;
    var l := chains[BucketOf(hash(k), log2)];
    forall x | x in order ensures Rd(key, x) != k {
      assert x in Elems(order);
      if x in l {
        var j :| 0 <= j < |l| && l[j] == x;
      }
    }
  }

  lemma KeyAdded(hash: int -> nat, key: Mem, f: Fields, order: seq<int>, k: int, x: int)
    requires KeysOk(hash, key, f, order) && x !in order && forall y :: y in order ==> Rd(key, y) != k
    ensures KeysOk(hash, key[x := k], f.(hashv := f.hashv[x := hash(k)]), order + [x])
    ensures Entries(key[x := k], order + [x]) == Entries(key, order) + [(k, x)]
  {
  }

  lemma KeyRemoved(hash: int -> nat, key: Mem, f: Fields, order: seq<int>, i: nat)
    requires KeysOk(hash, key, f, order) && i < |order|
    ensures KeysOk(hash, key, f, Without(order, i))
  {
  }

  lemma SameKeys(hash: int -> nat, key: Mem, f: Fields, f': Fields, order: seq<int>)
    requires KeysOk(hash, key, f, order) && f'.hashv == f.hashv
    ensures KeysOk(hash, key, f', order)
  {
  }

  /** A hash written for an element outside the table changes no bucket. */
  lemma OrderGrows(f: Fields, chains: seq<seq<int>>, buckets: seq<Bucket>, log2: nat, order: seq<int>, x: int, h: nat)
    requires BucketsOk(f, Elems(order), chains, buckets, log2) && x !in order
    ensures Elems(order + [x]) - {x} == Elems(order)
    ensures BucketsOk(f.(hashv := f.hashv[x := h]), Elems(order), chains, buckets, log2)
  {
    var f' := f.(hashv := f.hashv[x := h]);
    hide BucketOf, IsList;
    forall b ensures BucketOk(f', Elems(order), chains, buckets, log2, b) {
      assert BucketOk(f, Elems(order), chains, buckets, log2, b);
    }
  }

  lemma DoubleSize(o: Before)
    requires BucketsOk(o.f, o.members, o.chains, o.buckets, o.log2)
    ensures Pow2(o.log2 + 1) == 2 * |o.buckets| && |o.chains| == |o.buckets|
  {
  }

  lemma NewBucketIn(o: Before, i: nat, j: nat, done: set<int>, f: Fields, chains: seq<seq<int>>, buckets: seq<Bucket>, b: nat)
    requires Expanding(o, i, j, done, f, chains, buckets) && b < Pow2(o.log2 + 1)
    ensures |chains| == |buckets| && b < |buckets|
  {
  }
}
