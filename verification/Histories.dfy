/** Event histories: "it happened, and nothing has undone it since", and counting. */
module Histories {

  /** Some entry satisfies `what`, and no later entry satisfies `undoes`. */
  ghost predicate Since<E>(h: seq<E>, what: E -> bool, undoes: E -> bool) {
    exists i :: 0 <= i < |h| && what(h[i]) && forall j :: i < j < |h| ==> !undoes(h[j])
  }

  lemma SinceExtend<E>(h: seq<E>, e: E, what: E -> bool, undoes: E -> bool)
    ensures Since(h + [e], what, undoes) <==> what(e) || (Since(h, what, undoes) && !undoes(e))
  {
    var g := h + [e];
    assert g[|h|] == e;
    if Since(g, what, undoes) && !what(e) {
      var i :| 0 <= i < |g| && what(g[i]) && forall j :: i < j < |g| ==> !undoes(g[j]);
      assert forall j :: i < j < |h| ==> h[j] == g[j];
      assert what(h[i]);
    }
    if Since(h, what, undoes) && !undoes(e) {
      var i :| 0 <= i < |h| && what(h[i]) && forall j :: i < j < |h| ==> !undoes(h[j]);
      assert what(g[i]);
      assert forall j :: i < j < |g| ==> !undoes(g[j]);
    }
  }

  /** The last of the first `n` entries that satisfies `what`. */
  lemma {:induction false} LastWhere<E>(h: seq<E>, what: E -> bool, n: nat) returns (k: nat)
    requires n <= |h| && exists i :: 0 <= i < n && what(h[i])
    ensures k < n && what(h[k]) && forall j :: k < j < n ==> !what(h[j])
  {
    if what(h[n - 1]) { k := n - 1; } else { k := LastWhere(h, what, n - 1); }
  }

  /** How many entries satisfy `what`. */
  ghost function Count<E>(h: seq<E>, what: E -> bool): nat {
    if h == [] then 0
    else Count(h[..|h| - 1], what) + (if what(h[|h| - 1]) then 1 else 0)
  }

  lemma CountExtend<E>(h: seq<E>, e: E, what: E -> bool)
    ensures Count(h + [e], what) == Count(h, what) + (if what(e) then 1 else 0)
  {
    assert (h + [e])[..|h|] == h;
  }
}
