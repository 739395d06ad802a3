/** How many elements of a sequence satisfy a predicate. */
module Counting {
  function Count<T>(s: seq<T>, p: T -> bool): (n: nat) {
    if s == [] then 0 else Count(s[..|s| - 1], p) + if p(s[|s| - 1]) then 1 else 0
  }

  lemma {:induction false} CountUpdate<T>(s: seq<T>, p: T -> bool, i: nat, x: T)
    requires i < |s|
    ensures Count(s[i := x], p) == Count(s, p) - (if p(s[i]) then 1 else 0) + if p(x) then 1 else 0
  {
    var n := |s| - 1;
    if i == n {
      assert s[i := x][..n] == s[..n];
    } else {
      CountUpdate(s[..n], p, i, x);
      assert s[i := x][..n] == s[..n][i := x];
    }
  }

  lemma {:induction false} CountCongruent<T>(s: seq<T>, s': seq<T>, p: T -> bool)
    requires |s'| == |s| && forall i: nat | i < |s| :: p(s'[i]) == p(s[i])
    ensures Count(s', p) == Count(s, p)
  {
    if s != [] {
      CountCongruent(s[..|s| - 1], s'[..|s| - 1], p);
    }
  }

  /** Only the first n elements can be counted. */
  lemma {:induction false} CountAtMost<T>(s: seq<T>, p: T -> bool, n: nat)
    requires forall i: nat | n <= i < |s| :: !p(s[i])
    ensures Count(s, p) <= n
  {
    if s != [] {
      CountAtMost(s[..|s| - 1], p, if n >= |s| then |s| - 1 else n);
    }
  }

  /** More elements satisfy a predicate that none of them stops satisfying. */
  lemma {:induction false} CountGrows<T>(s: seq<T>, s': seq<T>, p: T -> bool)
    requires |s'| == |s| && forall i: nat | i < |s| && p(s[i]) :: p(s'[i])
    ensures Count(s, p) <= Count(s', p)
  {
    if s != [] {
      CountGrows(s[..|s| - 1], s'[..|s| - 1], p);
    }
  }
}
