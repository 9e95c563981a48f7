/** The buckets of a chained hash table and what they hold (uthash.h). */
module Buckets {
  import opened Memory
  import opened Probing
  import opened LinkedLists

  datatype Bucket = Bucket(hhHead: int, count: nat, expandMult: nat)

  const NO_BUCKET := Bucket(NULL, 0, 0)

  // ------------------------------------------------------------- bits of words

  function And(x: nat, y: nat): nat
    decreases x
  {
    if x == 0 || y == 0 then 0 else (x % 2) * (y % 2) + 2 * And(x / 2, y / 2)
  }

  function ShiftRight(x: nat, k: nat): nat {
    if k == 0 then x else ShiftRight(x / 2, k - 1)
  }

  /** Shifting divides by a power of two, masking takes the remainder. */
  lemma {:induction false} ShiftAndMask(x: nat, k: nat)
    ensures x == ShiftRight(x, k) * Pow2(k) + And(x, Pow2(k) - 1) && And(x, Pow2(k) - 1) < Pow2(k)
    decreases k
  {
    hide And;
    if k == 0 {
      NoMask(x);
    } else {
      var n := Pow2(k - 1);
      ShiftAndMask(x / 2, k - 1);
      OddMask(x, n);
      Doubled(x, ShiftRight(x / 2, k - 1), n, And(x / 2, n - 1));
    }
  }

  lemma NoMask(x: nat)
    ensures And(x, 0) == 0
  {
  }

  lemma Doubled(x: nat, s: int, n: int, a: int)
    requires x / 2 == s * n + a
    ensures x == s * (2 * n) + (x % 2 + 2 * a)
  {
    assert s * (2 * n) == 2 * (s * n);
  }

  lemma OddMask(x: nat, n: nat)
    requires n > 0
    ensures And(x, 2 * n - 1) == x % 2 + 2 * And(x / 2, n - 1)
  {
    assert (2 * n - 1) % 2 == 1 && (2 * n - 1) / 2 == n - 1;
  }

  /** HASH_TO_BKT, for a table of 2^log2 buckets. */
  function BucketOf(hashv: nat, log2: nat): (b: nat)
    ensures b < Pow2(log2)
  {
    ShiftAndMask(hashv, log2);
    And(hashv, Pow2(log2) - 1)
  }

  /** The length all chains would have if n items were spread evenly. */
  function IdealChainMaxlen(n: nat, log2: nat): nat {
    ShiftRight(n, log2) + if And(n, Pow2(log2) - 1) != 0 then 1 else 0
  }

  /** The shift-and-mask formula rounds the average chain length up. */
  lemma IdealIsCeiling(n: nat, log2: nat)
    ensures var c := IdealChainMaxlen(n, log2);
      c * Pow2(log2) >= n && (c > 0 ==> (c - 1) * Pow2(log2) < n) && (n > 0 ==> c > 0)
  {
    ShiftAndMask(n, log2);
    RoundUp(n, ShiftRight(n, log2), Pow2(log2), And(n, Pow2(log2) - 1));
  }

  lemma RoundUp(n: nat, q: nat, b: nat, r: nat)
    requires n == q * b + r && r < b
    ensures var c := q + if r != 0 then 1 else 0;
      c * b >= n && (c > 0 ==> (c - 1) * b < n) && (n > 0 ==> c > 0)
  {
    assert (q + 1) * b == q * b + b && (q - 1) * b == q * b - b;
  }

  // ------------------------------------------------------------------- chains

  /** The fields of the elements that the buckets depend on. */
  datatype Fields = Fields(hhNext: Mem, hhPrev: Mem, hashv: Mem)

  function HashAt(f: Fields, x: int): nat { if Rd(f.hashv, x) < 0 then 0 else Rd(f.hashv, x) }

  ghost predicate BucketOk(f: Fields, members: set<int>, chains: seq<seq<int>>, buckets: seq<Bucket>, log2: nat, b: int) {
    0 <= b < |chains| == |buckets| ==>
      && IsList(f.hhNext, f.hhPrev, chains[b], buckets[b].hhHead)
      && buckets[b].count == |chains[b]|
      && forall x :: x in chains[b] ==> x in members && BucketOf(HashAt(f, x), log2) == b
  }

  /** The chains are well linked and counted, and every member is in the one
      chain where its hash belongs. */
  ghost predicate BucketsOk(f: Fields, members: set<int>, chains: seq<seq<int>>, buckets: seq<Bucket>, log2: nat) {
    && |chains| == Pow2(log2) && |buckets| == Pow2(log2)
    && (forall b {:trigger BucketOk(f, members, chains, buckets, log2, b)} :: BucketOk(f, members, chains, buckets, log2, b))
    && forall x {:trigger x in members} :: x in members ==> x in chains[BucketOf(HashAt(f, x), log2)]
  }

  lemma NoMembers(f: Fields, chains: seq<seq<int>>, buckets: seq<Bucket>, log2: nat)
    requires |chains| == Pow2(log2) && |buckets| == Pow2(log2)
    requires forall b :: 0 <= b < Pow2(log2) ==> chains[b] == [] && buckets[b] == NO_BUCKET
    ensures BucketsOk(f, {}, chains, buckets, log2)
  {
    forall b ensures BucketOk(f, {}, chains, buckets, log2, b) {
      if 0 <= b < |chains| {
        forall i ensures Links(f.hhNext, f.hhPrev, chains[b], i) {}
      }
    }
  }

  /** What putting x at the front of its bucket writes. */
  function Pushed(f: Fields, x: int, front: int): Fields {
    var prev := f.hhPrev[x := NULL];
    f.(hhNext := f.hhNext[x := front], hhPrev := if front != NULL then prev[front := x] else prev)
  }

  lemma AddToBucket(f: Fields, members: set<int>, chains: seq<seq<int>>, buckets: seq<Bucket>, log2: nat, x: int, expandMult: nat)
    requires BucketsOk(f, members, chains, buckets, log2) && x != NULL && x !in members
    ensures var b := BucketOf(HashAt(f, x), log2);
      BucketsOk(Pushed(f, x, buckets[b].hhHead), members + {x}, chains[b := [x] + chains[b]],
                buckets[b := Bucket(x, buckets[b].count + 1, expandMult)], log2)
  {
    hide BucketOf, IsList, Pow2;
    var b := BucketOf(HashAt(f, x), log2);
    var front := buckets[b].hhHead;
    var f', members', chains', buckets' := Pushed(f, x, front), members + {x}, chains[b := [x] + chains[b]], buckets[b := Bucket(x, buckets[b].count + 1, expandMult)];
    HeadIn(f, members, chains, buckets, log2, b);
    forall c ensures BucketOk(f', members', chains', buckets', log2, c) {
      if 0 <= c < |chains| {
        assert BucketOk(f, members, chains, buckets, log2, c);
        if c == b {
          PushFront(f.hhNext, f.hhPrev, chains[b], front, x, f'.hhNext, f'.hhPrev);
        } else {
          Frame(f.hhNext, f.hhPrev, chains[c], buckets[c].hhHead, f'.hhNext, f'.hhPrev);
        }
      }
    }
  }

  /** A bucket's head belongs to it alone. */
  lemma HeadIn(f: Fields, members: set<int>, chains: seq<seq<int>>, buckets: seq<Bucket>, log2: nat, b: nat)
    requires BucketsOk(f, members, chains, buckets, log2) && b < |chains|
    ensures var head := buckets[b].hhHead;
      && (head == NULL <==> chains[b] == [])
      && (head != NULL ==> head in chains[b] && BucketOf(HashAt(f, head), log2) == b)
  {
    hide BucketOf;
    assert BucketOk(f, members, chains, buckets, log2, b);
  }

  /** What taking x out of its bucket writes. */
  function Unlinked(f: Fields, x: int): Fields {
    var n, p := Rd(f.hhNext, x), Rd(f.hhPrev, x);
    var f1 := if p != NULL then f.(hhNext := f.hhNext[p := n]) else f;
    if n != NULL then f1.(hhPrev := f1.hhPrev[n := p]) else f1
  }

  lemma RemoveFromBucket(f: Fields, members: set<int>, chains: seq<seq<int>>, buckets: seq<Bucket>, log2: nat, x: int) returns (i: nat)
    requires BucketsOk(f, members, chains, buckets, log2) && x in members
    ensures var b := BucketOf(HashAt(f, x), log2);
      && i < |chains[b]| && chains[b][i] == x && buckets[b].count > 0
      && BucketsOk(Unlinked(f, x), members - {x}, chains[b := Without(chains[b], i)],
                buckets[b := Bucket(if buckets[b].hhHead == x then Rd(f.hhNext, x) else buckets[b].hhHead, buckets[b].count - 1, buckets[b].expandMult)], log2)
  {
    hide BucketOf, Pow2, IsList;
    var b := BucketOf(HashAt(f, x), log2);
    assert BucketOk(f, members, chains, buckets, log2, b);
    i :| 0 <= i < |chains[b]| && chains[b][i] == x;
    var f', members', chains' := Unlinked(f, x), members - {x}, chains[b := Without(chains[b], i)];
    var buckets' := buckets[b := Bucket(if buckets[b].hhHead == x then Rd(f.hhNext, x) else buckets[b].hhHead, buckets[b].count - 1, buckets[b].expandMult)];
    UnlinkedChain(f, chains[b], buckets[b].hhHead, i);
    forall c ensures BucketOk(f', members', chains', buckets', log2, c) {
      if 0 <= c < |chains| && c != b {
        assert BucketOk(f, members, chains, buckets, log2, c);
        Neighbours(f, chains[b], buckets[b].hhHead, i);
        Frame(f.hhNext, f.hhPrev, chains[c], buckets[c].hhHead, f'.hhNext, f'.hhPrev);
      }
    }
  }

  lemma Neighbours(f: Fields, l: seq<int>, head: int, i: nat)
    requires IsList(f.hhNext, f.hhPrev, l, head) && i < |l|
    ensures Rd(f.hhNext, l[i]) == At(l, i + 1) && Rd(f.hhPrev, l[i]) == At(l, i - 1)
    ensures Rd(f.hhNext, l[i]) != NULL ==> Rd(f.hhNext, l[i]) in l
    ensures Rd(f.hhPrev, l[i]) != NULL ==> Rd(f.hhPrev, l[i]) in l
  {
    assert Links(f.hhNext, f.hhPrev, l, i);
  }

  lemma UnlinkedChain(f: Fields, l: seq<int>, head: int, i: nat)
    requires IsList(f.hhNext, f.hhPrev, l, head) && i < |l|
    ensures var f' := Unlinked(f, l[i]);
      && IsList(f'.hhNext, f'.hhPrev, Without(l, i), if head == l[i] then Rd(f.hhNext, l[i]) else head)
      && forall x :: x in Without(l, i) <==> x in l && x != l[i]
  {
    var f' := Unlinked(f, l[i]);
    Neighbours(f, l, head, i);
    Remove(f.hhNext, f.hhPrev, l, head, i, f'.hhNext, f'.hhPrev);
  }
}
