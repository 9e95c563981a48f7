/** Following the forwarding pointers that lifted objects leave behind
    (fixFwdObjptr in forward.c). */
module Forwarding {
  import opened Memory
  import opened Objects

  /** w points to an object that has been lifted. */
  predicate IsForwarded(m: Mem, w: int) { IsObjptr(w) && w != 0 && Rd(m, w - HEADER_SIZE) == FORWARDED }

  /** Where a pointer leads once it has been followed for up to n hops. */
  function Followed(m: Mem, w: int, n: nat): int
    decreases n
  {
    if n == 0 || !IsForwarded(m, w) then w else Followed(m, Rd(m, w), n - 1)
  }

  /** Following w comes to an end within n hops. */
  predicate Settles(m: Mem, w: int, n: nat) { !IsForwarded(m, Followed(m, w, n)) }

  /** How often the loop goes round does not matter. */
  lemma {:induction false} FollowedEnough(m: Mem, w: int, n: nat, k: nat)
    requires Settles(m, w, n) && n <= k
    ensures Followed(m, w, k) == Followed(m, w, n)
    decreases n
  {
    if n > 0 && IsForwarded(m, w) { FollowedEnough(m, Rd(m, w), n - 1, k - 1); }
  }

  lemma FollowedOnce(m: Mem, w: int)
    ensures Followed(m, w, 1) == if IsForwarded(m, w) then Rd(m, w) else w
  {
    assert Followed(m, Rd(m, w), 0) == Rd(m, w);
  }

  lemma Unfold(m: Mem, w: int, n: nat)
    requires Settles(m, w, n) && IsForwarded(m, w)
    ensures n > 0 && Settles(m, Rd(m, w), n - 1) && Followed(m, w, n) == Followed(m, Rd(m, w), n - 1)
  {
  }

  /** fixFwdObjptr, for a pointer other than null. */
  method FixFwdObjptr(m: Mem, w: int, ghost n: nat) returns (r: int)
    requires Settles(m, w, n)
    ensures r == Followed(m, w, n)
  {
    r := w;
    ghost var left: nat := n;
    while IsForwarded(m, r)
      invariant left <= n && Settles(m, r, left) && Followed(m, r, left) == Followed(m, w, n)
      decreases left
    {
      Unfold(m, r, left);
      r := Rd(m, r);
      left := left - 1;
    }
  }
}
