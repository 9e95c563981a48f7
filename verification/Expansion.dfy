/** Spreading the items of a chained hash table over twice as many buckets
    (HASH_EXPAND_BUCKETS in uthash.h). */
module Expansion {
  import opened Memory
  import opened Probing
  import opened LinkedLists
  import opened Buckets

  /** Bucket i of the old table has been emptied of its first j items, and all
      the buckets before it of all of theirs. */
  predicate Earlier(i: int, j: int, c: int, p: int) { c < i || (c == i && p < j) }

  ghost predicate DoneIs(was: seq<seq<int>>, done: set<int>, i: int, j: int) {
    && (forall c, p {:trigger was[c][p]} :: 0 <= c < |was| && 0 <= p < |was[c]| ==> (was[c][p] in done <==> Earlier(i, j, c, p)))
    && forall x :: x in done ==> exists c :: 0 <= c < |was| && x in was[c]
  }

  /** The rest of the old chains can still be followed. */
  ghost predicate Remaining(hhNext: Mem, was: seq<seq<int>>, i: int, j: int) {
    forall c, p {:trigger was[c][p]} :: 0 <= c < |was| && 0 <= p < |was[c]| && !Earlier(i, j, c, p) ==>
      Rd(hhNext, was[c][p]) == At(was[c], p + 1)
  }

  /** The table as it was when the expansion began. */
  datatype Before = Before(f: Fields, members: set<int>, chains: seq<seq<int>>, buckets: seq<Bucket>, log2: nat)

  ghost predicate Expanding(o: Before, i: int, j: int, done: set<int>, f: Fields, chains: seq<seq<int>>, buckets: seq<Bucket>) {
    && BucketsOk(o.f, o.members, o.chains, o.buckets, o.log2)
    && f.hashv == o.f.hashv
    && BucketsOk(f, done, chains, buckets, o.log2 + 1)
    && DoneIs(o.chains, done, i, j)
    && Remaining(f.hhNext, o.chains, i, j)
  }

  lemma OldChain(o: Before, c: nat)
    requires BucketsOk(o.f, o.members, o.chains, o.buckets, o.log2) && c < |o.chains|
    ensures IsList(o.f.hhNext, o.f.hhPrev, o.chains[c], o.buckets[c].hhHead)
    ensures forall x :: x in o.chains[c] ==> x in o.members && BucketOf(HashAt(o.f, x), o.log2) == c
  {
    hide BucketOf, IsList;
    assert BucketOk(o.f, o.members, o.chains, o.buckets, o.log2, c);
  }

  /** An item of the old table is at one place of one chain. */
  lemma OnlyHere(o: Before, c: nat, p: nat, c': nat, p': nat)
    requires BucketsOk(o.f, o.members, o.chains, o.buckets, o.log2)
    requires c < |o.chains| && p < |o.chains[c]| && c' < |o.chains| && p' < |o.chains[c']|
    requires o.chains[c][p] == o.chains[c'][p']
    ensures c == c' && p == p'
  {
    hide BucketOf;
    OldChain(o, c);
    OldChain(o, c');
    assert o.chains[c][p] in o.chains[c] && o.chains[c'][p'] in o.chains[c'];
  }

  lemma Begin(o: Before, chains: seq<seq<int>>, buckets: seq<Bucket>)
    requires BucketsOk(o.f, o.members, o.chains, o.buckets, o.log2)
    requires |chains| == Pow2(o.log2 + 1) && |buckets| == Pow2(o.log2 + 1)
    requires forall b :: 0 <= b < |chains| ==> chains[b] == [] && buckets[b] == NO_BUCKET
    ensures Expanding(o, 0, 0, {}, o.f, chains, buckets)
  {
    hide BucketOf;
    NoMembers(o.f, chains, buckets, o.log2 + 1);
    forall c, p {:trigger o.chains[c][p]} | 0 <= c < |o.chains| && 0 <= p < |o.chains[c]| ensures Rd(o.f.hhNext, o.chains[c][p]) == At(o.chains[c], p + 1) {
      OldChain(o, c);
      assert Links(o.f.hhNext, o.f.hhPrev, o.chains[c], p);
    }
  }

  lemma MoveOne(o: Before, i: nat, j: nat, done: set<int>, f: Fields, chains: seq<seq<int>>, buckets: seq<Bucket>, expandMult: nat)
    requires Expanding(o, i, j, done, f, chains, buckets) && i < |o.chains| && j < |o.chains[i]|
    ensures var x := o.chains[i][j];
      var b := BucketOf(HashAt(f, x), o.log2 + 1);
      Expanding(o, i, j + 1, done + {x}, Pushed(f, x, buckets[b].hhHead), chains[b := [x] + chains[b]],
                buckets[b := Bucket(x, buckets[b].count + 1, expandMult)])
  {
    hide BucketOf, BucketsOk, IsList;
    var x := o.chains[i][j];
    OldChain(o, i);
    NotNull(o, i, j);
    forall c, p {:trigger o.chains[c][p]} | 0 <= c < |o.chains| && 0 <= p < |o.chains[c]| && o.chains[c][p] == x ensures c == i && p == j {
      OnlyHere(o, c, p, i, j);
    }
    AddToBucket(f, done, chains, buckets, o.log2 + 1, x, expandMult);
    assert x in o.chains[i];
  }

  lemma NotNull(o: Before, c: nat, p: nat)
    requires BucketsOk(o.f, o.members, o.chains, o.buckets, o.log2) && c < |o.chains| && p < |o.chains[c]|
    ensures o.chains[c][p] != NULL
  {
    hide BucketOf;
    OldChain(o, c);
  }

  lemma NextBucket(o: Before, i: nat, done: set<int>, f: Fields, chains: seq<seq<int>>, buckets: seq<Bucket>)
    requires i < |o.chains| && Expanding(o, i, |o.chains[i]|, done, f, chains, buckets)
    ensures Expanding(o, i + 1, 0, done, f, chains, buckets)
  {
    hide BucketsOk;
  }

  lemma AllMoved(o: Before, done: set<int>, f: Fields, chains: seq<seq<int>>, buckets: seq<Bucket>)
    requires Expanding(o, |o.chains|, 0, done, f, chains, buckets)
    ensures done == o.members && BucketsOk(f, o.members, chains, buckets, o.log2 + 1)
  {
    hide BucketOf, IsList;
    forall x | x in o.members ensures x in done {
      var c := BucketOf(HashAt(o.f, x), o.log2);
      var p :| 0 <= p < |o.chains[c]| && o.chains[c][p] == x;
      assert o.chains[c][p] in done;
    }
    forall x | x in done ensures x in o.members {
      var c :| 0 <= c < |o.chains| && x in o.chains[c];
      OldChain(o, c);
    }
  }

  /** The next item to move, and where its chain goes on. */
  lemma ChainAhead(o: Before, i: nat, j: nat, done: set<int>, f: Fields, chains: seq<seq<int>>, buckets: seq<Bucket>)
    requires Expanding(o, i, j, done, f, chains, buckets) && i < |o.chains| && j <= |o.chains[i]|
    ensures j == 0 ==> o.buckets[i].hhHead == At(o.chains[i], 0)
    ensures At(o.chains[i], j) != NULL <==> j < |o.chains[i]|
    ensures j < |o.chains[i]| ==> Rd(f.hhNext, o.chains[i][j]) == At(o.chains[i], j + 1)
  {
    hide BucketOf, BucketsOk;
    OldChain(o, i);
    if j < |o.chains[i]| { NotNull(o, i, j); }
  }

  // -------------------------------------------------------------- chain lengths

  function Over(count: nat, ideal: nat): nat { if count > ideal then count - ideal else 0 }

  /** How many items are in excess of the ideal chain length. */
  function Excess(buckets: seq<Bucket>, ideal: nat): nat {
    if buckets == [] then 0 else Excess(buckets[..|buckets| - 1], ideal) + Over(buckets[|buckets| - 1].count, ideal)
  }

  lemma {:induction false} ExcessUpdate(buckets: seq<Bucket>, ideal: nat, b: nat, e: Bucket)
    requires b < |buckets|
    ensures Excess(buckets[b := e], ideal) == Excess(buckets, ideal) - Over(buckets[b].count, ideal) + Over(e.count, ideal)
    decreases |buckets|
  {
    var n := |buckets| - 1;
    if b < n {
      ExcessUpdate(buckets[..n], ideal, b, e);
      assert buckets[b := e][..n] == buckets[..n][b := e];
    } else {
      assert buckets[b := e][..n] == buckets[..n];
    }
  }

  lemma {:induction false} NoExcess(buckets: seq<Bucket>, ideal: nat)
    requires forall b :: 0 <= b < |buckets| ==> buckets[b] == NO_BUCKET
    ensures Excess(buckets, ideal) == 0
    decreases |buckets|
  {
    if buckets != [] { NoExcess(buckets[..|buckets| - 1], ideal); }
  }
}
