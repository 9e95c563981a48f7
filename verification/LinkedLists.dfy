/** Doubly linked lists through two link fields of the elements (uthash.h). */
module LinkedLists {
  import opened Memory

  const NULL := 0

  /** The i-th element, or null beyond either end. */
  function At(l: seq<int>, i: int): int { if 0 <= i < |l| then l[i] else NULL }

  ghost predicate Links(next: Mem, prev: Mem, l: seq<int>, i: int) {
    0 <= i < |l| ==> Rd(next, l[i]) == At(l, i + 1) && Rd(prev, l[i]) == At(l, i - 1)
  }

  /** Different elements, none of them null. */
  ghost predicate Apart(l: seq<int>) {
    && (forall i {:trigger l[i]} :: 0 <= i < |l| ==> l[i] != NULL)
    && forall i, j {:trigger l[i], l[j]} :: 0 <= i < |l| && 0 <= j < |l| && l[i] == l[j] ==> i == j
  }

  /** The list that starts at head is l, in both directions. */
  ghost predicate IsList(next: Mem, prev: Mem, l: seq<int>, head: int) {
    && head == At(l, 0)
    && Apart(l)
    && forall i {:trigger Links(next, prev, l, i)} :: Links(next, prev, l, i)
  }

  lemma Frame(next: Mem, prev: Mem, l: seq<int>, head: int, next': Mem, prev': Mem)
    requires IsList(next, prev, l, head)
    requires forall i :: 0 <= i < |l| ==> Rd(next', l[i]) == Rd(next, l[i]) && Rd(prev', l[i]) == Rd(prev, l[i])
    ensures IsList(next', prev', l, head)
  {
    hide At, Apart;
    forall i ensures Links(next', prev', l, i) {
      assert Links(next, prev, l, i);
    }
  }

  lemma PushFront(next: Mem, prev: Mem, l: seq<int>, head: int, x: int, next': Mem, prev': Mem)
    requires IsList(next, prev, l, head) && x != NULL && x !in l
    requires Rd(next', x) == head && Rd(prev', x) == NULL && (head != NULL ==> Rd(prev', head) == x)
    requires forall y {:trigger Rd(next', y)} {:trigger Rd(prev', y)} :: y in l ==> Rd(next', y) == Rd(next, y) && (y == head || Rd(prev', y) == Rd(prev, y))
    ensures IsList(next', prev', [x] + l, x)
  {
    var l' := [x] + l;
    forall i ensures Links(next', prev', l', i) {
      if 0 < i < |l'| {
        assert Links(next, prev, l, i - 1);
        assert l'[i] == l[i - 1];
        assert l[i - 1] in l;
      }
    }
  }

  lemma Append(next: Mem, prev: Mem, l: seq<int>, head: int, x: int, next': Mem, prev': Mem)
    requires IsList(next, prev, l, head) && x != NULL && x !in l && l != []
    requires Rd(next', x) == NULL && Rd(prev', x) == l[|l| - 1] && Rd(next', l[|l| - 1]) == x
    requires forall y {:trigger Rd(next', y)} {:trigger Rd(prev', y)} :: y in l ==> Rd(prev', y) == Rd(prev, y) && (y == l[|l| - 1] || Rd(next', y) == Rd(next, y))
    ensures IsList(next', prev', l + [x], head)
  {
    var l' := l + [x];
    forall i ensures Links(next', prev', l', i) {
      if 0 <= i < |l| {
        assert Links(next, prev, l, i);
        assert l'[i] == l[i];
        assert l[i] in l;
      }
    }
  }

  function Without(l: seq<int>, i: nat): seq<int>
    requires i < |l|
  {
    l[..i] + l[i + 1..]
  }

  /** Taking out the i-th element by patching its two neighbours. */
  lemma Remove(next: Mem, prev: Mem, l: seq<int>, head: int, i: nat, next': Mem, prev': Mem)
    requires IsList(next, prev, l, head) && i < |l|
    requires i > 0 ==> Rd(next', l[i - 1]) == At(l, i + 1)
    requires i + 1 < |l| ==> Rd(prev', l[i + 1]) == At(l, i - 1)
    requires forall j {:trigger Rd(next', l[j])} {:trigger Rd(prev', l[j])} :: 0 <= j < |l| && j != i ==>
      (j + 1 == i || Rd(next', l[j]) == Rd(next, l[j])) && (j == i + 1 || Rd(prev', l[j]) == Rd(prev, l[j]))
    ensures IsList(next', prev', Without(l, i), if i == 0 then At(l, 1) else head)
    ensures forall x :: x in Without(l, i) <==> x in l && x != l[i]
  {
    var l' := Without(l, i);
    WithoutApart(l, i);
    forall k ensures Links(next', prev', l', k) {
      if 0 <= k < |l'| {
        var j := if k < i then k else k + 1;
        assert l'[k] == l[j];
        assert Links(next, prev, l, j);
        assert Rd(next', l[j]) == At(l', k + 1);
        assert Rd(prev', l[j]) == At(l', k - 1);
      }
    }
  }

  lemma WithoutApart(l: seq<int>, i: nat)
    requires Apart(l) && i < |l|
    ensures Apart(Without(l, i))
    ensures forall x :: x in Without(l, i) <==> x in l && x != l[i]
  {
    var l' := Without(l, i);
    assert forall k {:trigger l'[k]} :: 0 <= k < |l'| ==> l'[k] == l[if k < i then k else k + 1];
    forall x | x in l && x != l[i] ensures x in l' {
      var j :| 0 <= j < |l| && l[j] == x;
      assert l'[if j < i then j else j - 1] == x;
    }
  }
}
