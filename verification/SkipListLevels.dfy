/** The levels of the skip list as sequences: sorted, nested, and determined by the set of nodes. */
module SkipListLevels {
  import opened Comparators
  import opened SkipListMemory

  /** Nodes after n: the measure of every walk along a level. */
  ghost function After<K>(s: Shared<K>, n: nat): (r: set<nat>)
    requires n < |s.nodes|
  {
    set m: nat | m < |s.nodes| && Before(s, n, m)
  }

  lemma AfterShrinks<K(!new)>(s: Shared<K>, n: nat, t: nat)
    requires Shape(s) && n < |s.nodes| && t < |s.nodes| && Before(s, n, t)
    ensures After(s, t) < After(s, n)
  {
    forall m: nat | m < |s.nodes| && Before(s, t, m) ensures Before(s, n, m) {
      if n != HEAD { Transitive(s.cmp, s.nodes[n].key, s.nodes[t].key, s.nodes[m].key); }
    }
    Transitive(s.cmp, s.nodes[t].key, s.nodes[t].key, s.nodes[t].key);
    assert t in After(s, n) && t !in After(s, t);
  }

  ghost predicate Sorted<K>(s: Shared<K>, ns: seq<nat>) {
    && (forall k | 0 <= k < |ns| :: HEAD < ns[k] < |s.nodes|)
    && (forall j, k | 0 <= j < k < |ns| :: s.cmp(s.nodes[ns[j]].key, s.nodes[ns[k]].key) < 0)
  }

  /** Walking one link splits what lies after n into the next node and what lies after it. */
  lemma ChainStep<K(!new)>(s: Shared<K>, n: nat, i: nat, t: nat)
    requires Shape(s) && n < |s.nodes| && IsSuccessor(s, n, i, To(t))
    ensures forall m: nat | InLevel(s, m, i) :: Before(s, n, m) <==> m == t || Before(s, t, m)
  {
    forall m: nat | InLevel(s, m, i) ensures Before(s, n, m) <==> m == t || Before(s, t, m) {
      if m != t { BeforeTotal(s, m, t); }
      if n != HEAD { Transitive(s.cmp, s.nodes[n].key, s.nodes[t].key, s.nodes[m].key); }
    }
  }

  /** What lies after n is its successor and what lies after that. */
  lemma ChainJoin<K(!new)>(s: Shared<K>, n: nat, i: nat, t: nat, rest: seq<nat>)
    requires Shape(s) && n < |s.nodes| && IsSuccessor(s, n, i, To(t))
    requires Sorted(s, rest) && forall m: nat :: m in rest <==> InLevel(s, m, i) && Before(s, t, m)
    ensures Sorted(s, [t] + rest)
    ensures forall m: nat :: m in [t] + rest <==> InLevel(s, m, i) && Before(s, n, m)
  {
    ChainStep(s, n, i, t);
    assert forall k | 0 <= k < |rest| :: rest[k] in rest;
  }

  /** The nodes met by following level-i links from n. */
  ghost function Chain<K(!new)>(s: Shared<K>, n: nat, i: nat): (ns: seq<nat>)
    requires Inv(s) && i < s.kMaxHeight && OnLevel(s, n, i)
    ensures Sorted(s, ns)
    ensures forall m: nat :: m in ns <==> InLevel(s, m, i) && Before(s, n, m)
    decreases After(s, n)
  {
    assert LevelOk(s, i);
    match s.nodes[n].next[i]
    case Null =>
      assert IsSuccessor(s, n, i, Null);
      []
    case To(t) =>
      assert IsSuccessor(s, n, i, To(t));
      AfterShrinks(s, n, t);
      ChainJoin(s, n, i, t, Chain(s, t, i));
      [t] + Chain(s, t, i)
  }

  ghost function Level<K(!new)>(s: Shared<K>, i: nat): (ns: seq<nat>)
    requires Inv(s) && i < s.kMaxHeight
    ensures Sorted(s, ns)
    ensures forall m: nat :: m in ns <==> InLevel(s, m, i)
  {
    Chain(s, HEAD, i)
  }

  /** Each level is strictly sorted and is the sub-list of the level below that reaches up to it. */
  lemma LevelsAreNested<K(!new)>(s: Shared<K>, i: nat)
    requires Inv(s) && i + 1 < s.kMaxHeight
    ensures Sorted(s, Level(s, i)) && Sorted(s, Level(s, i + 1))
    ensures forall m: nat :: m in Level(s, i + 1) <==> m in Level(s, i) && InLevel(s, m, i + 1)
    ensures forall m: nat, j: nat | m in Level(s, i) && j <= i :: j < |s.nodes[m].next| && !s.nodes[m].next[j].Uninit?
  {
    forall m: nat, j: nat | m in Level(s, i) && j <= i ensures !s.nodes[m].next[j].Uninit? {
      assert LevelOk(s, j) && OnLevel(s, m, j);
    }
  }

  /** A strictly sorted list is determined by its elements. */
  lemma {:induction false} SortedIsUnique<K(!new)>(s: Shared<K>, a: seq<nat>, b: seq<nat>)
    requires TotalOrder(s.cmp) && Sorted(s, a) && Sorted(s, b)
    requires forall m: nat :: m in a <==> m in b
    ensures a == b
  {
    assert b != [] ==> b[0] in a;
    if a != [] {
      assert a[0] in b && b[0] in a;
      var j :| 0 <= j < |b| && b[j] == a[0];
      var k :| 0 <= k < |a| && a[k] == b[0];
      Transitive(s.cmp, s.nodes[a[0]].key, s.nodes[b[0]].key, s.nodes[a[0]].key);
      assert j == 0 || k == 0;
      assert a[0] == b[0];
      forall m: nat ensures m in a[1..] <==> m in b[1..] {
        Transitive(s.cmp, s.nodes[a[0]].key, s.nodes[a[0]].key, s.nodes[a[0]].key);
        assert m in a <==> m == a[0] || m in a[1..];
        assert m in b <==> m == b[0] || m in b[1..];
        assert a[0] !in a[1..] && b[0] !in b[1..];
      }
      SortedIsUnique(s, a[1..], b[1..]);
    }
  }

  ghost function Keys<K>(s: Shared<K>, ns: seq<nat>): (r: seq<K>)
    requires Sorted(s, ns)
  {
    seq(|ns|, k requires 0 <= k < |ns| => s.nodes[ns[k]].key)
  }

  /** What the list stands for: its keys in order. */
  ghost function Contents<K(!new)>(s: Shared<K>): (r: seq<K>)
    requires Inv(s)
    ensures forall j, k | 0 <= j < k < |r| :: s.cmp(r[j], r[k]) < 0
  {
    Keys(s, Level(s, 0))
  }

  ghost predicate IsInsertion<K>(cmp: (K, K) -> int, before: seq<K>, key: K, after: seq<K>, at: nat) {
    && at <= |before|
    && after == before[..at] + [key] + before[at..]
    && (forall j | 0 <= j < at :: cmp(before[j], key) < 0)
    && (forall j | at <= j < |before| :: cmp(before[j], key) > 0)
  }

  ghost predicate Appends<K>(s: Shared<K>, s': Shared<K>, key: K) {
    && s.cmp == s'.cmp
    && |s'.nodes| == |s.nodes| + 1
    && (forall n: nat | n < |s.nodes| :: s'.nodes[n].key == s.nodes[n].key)
    && s'.nodes[|s.nodes|].key == key
    && (forall n: nat :: InLevel(s', n, 0) <==> InLevel(s, n, 0) || n == |s.nodes|)
  }

  ghost function CountBelow<K(!new)>(s: Shared<K>, ns: seq<nat>, key: K): (at: nat)
    requires TotalOrder(s.cmp) && Sorted(s, ns)
    requires forall k | 0 <= k < |ns| :: s.cmp(s.nodes[ns[k]].key, key) != 0
    ensures at <= |ns|
    ensures forall k | 0 <= k < at :: s.cmp(s.nodes[ns[k]].key, key) < 0
    ensures forall k | at <= k < |ns| :: s.cmp(s.nodes[ns[k]].key, key) > 0
  {
    if ns == [] then 0
    else if s.cmp(s.nodes[ns[0]].key, key) < 0 then 1 + CountBelow(s, ns[1..], key)
    else
      (forall k | 0 < k < |ns| ensures s.cmp(s.nodes[ns[k]].key, key) > 0 {
         Transitive(s.cmp, key, s.nodes[ns[0]].key, s.nodes[ns[k]].key);
       }
       0)
  }

  /** The list with the new node put in front of the first larger one is sorted. */
  lemma MergedIsSorted<K(!new)>(s: Shared<K>, s': Shared<K>, key: K, ns: seq<nat>, at: nat)
    requires TotalOrder(s.cmp) && Appends(s, s', key) && Sorted(s, ns) && at <= |ns|
    requires forall k | 0 <= k < at :: s.cmp(s.nodes[ns[k]].key, key) < 0
    requires forall k | at <= k < |ns| :: s.cmp(s.nodes[ns[k]].key, key) > 0
    requires 0 < |s.nodes|
    ensures Sorted(s', ns[..at] + [|s.nodes|] + ns[at..])
  {
    var merged := ns[..at] + [|s.nodes|] + ns[at..];
    forall j, k | 0 <= j < k < |merged| ensures s'.cmp(s'.nodes[merged[j]].key, s'.nodes[merged[k]].key) < 0 {
      if j < at {
        assert merged[j] == ns[j];
        if k > at { assert merged[k] == ns[k - 1]; }
      } else {
        assert merged[k] == ns[k - 1];
        if j == at {
          Transitive(s.cmp, s.nodes[ns[k - 1]].key, key, key);
        } else {
          assert merged[j] == ns[j - 1];
        }
      }
    }
  }

  lemma MergedHasAll(ns: seq<nat>, at: nat, x: nat, m: nat)
    requires at <= |ns|
    ensures m in ns[..at] + [x] + ns[at..] <==> m in ns || m == x
  {
    assert ns == ns[..at] + ns[at..];
  }

  /** The bottom level after a node has joined it. */
  lemma LevelAfterLinking<K(!new)>(s: Shared<K>, s': Shared<K>, key: K, at: nat)
    requires Inv(s) && Inv(s') && Appends(s, s', key) && at <= |Level(s, 0)|
    requires forall k | 0 <= k < at :: s.cmp(s.nodes[Level(s, 0)[k]].key, key) < 0
    requires forall k | at <= k < |Level(s, 0)| :: s.cmp(s.nodes[Level(s, 0)[k]].key, key) > 0
    ensures Level(s', 0) == Level(s, 0)[..at] + [|s.nodes|] + Level(s, 0)[at..]
  {
    var ns := Level(s, 0);
    var merged := ns[..at] + [|s.nodes|] + ns[at..];
    MergedIsSorted(s, s', key, ns, at);
    forall m: nat ensures m in merged <==> m in Level(s', 0) {
      MergedHasAll(ns, at, |s.nodes|, m);
    }
    SortedIsUnique(s', merged, Level(s', 0));
  }

  /** Linking a node in at the bottom is insertion of its key into the sorted contents. */
  lemma LinkingIsInsertion<K(!new)>(s: Shared<K>, s': Shared<K>, key: K) returns (at: nat)
    requires Inv(s) && Inv(s') && Appends(s, s', key)
    requires forall n: nat | HEAD < n < |s.nodes| :: s.cmp(s.nodes[n].key, key) != 0
    ensures IsInsertion(s.cmp, Contents(s), key, Contents(s'), at)
  {
    at := CountBelow(s, Level(s, 0), key);
    LevelAfterLinking(s, s', key, at);
    KeysOfMerged(s, s', key, Level(s, 0), at);
  }

  lemma KeysOfMerged<K>(s: Shared<K>, s': Shared<K>, key: K, ns: seq<nat>, at: nat)
    requires Appends(s, s', key) && Sorted(s, ns) && at <= |ns|
    requires Sorted(s', ns[..at] + [|s.nodes|] + ns[at..])
    ensures Keys(s', ns[..at] + [|s.nodes|] + ns[at..]) == Keys(s, ns)[..at] + [key] + Keys(s, ns)[at..]
  {
  }

  /** A walk that stops before a node not before `key` has reached the predecessor of `key`. */
  lemma StopIsPred<K(!new)>(s: Shared<K>, x: nat, i: nat, key: K)
    requires Inv(s) && i < s.kMaxHeight && OnLevel(s, x, i)
    requires x != HEAD ==> s.cmp(s.nodes[x].key, key) < 0
    requires var next := s.nodes[x].next[i]; next.To? && next.addr < |s.nodes| ==> s.cmp(s.nodes[next.addr].key, key) >= 0
    ensures IsPred(s, x, i, key)
  {
    assert LevelOk(s, i);
    assert IsSuccessor(s, x, i, s.nodes[x].next[i]);
    forall m: nat | InLevel(s, m, i) && s.cmp(s.nodes[m].key, key) < 0 ensures !Before(s, x, m) {
      if s.nodes[x].next[i].To? {
        var t := s.nodes[x].next[i].addr;
        Transitive(s.cmp, s.nodes[t].key, key, key);
        Transitive(s.cmp, s.nodes[m].key, key, s.nodes[t].key);
      }
    }
  }

  /** Nothing of level i below `key` lies after p; p is determined by this. */
  lemma PredIsUnique<K(!new)>(s: Shared<K>, p: nat, q: nat, i: nat, key: K)
    requires Inv(s) && IsPred(s, p, i, key) && IsPred(s, q, i, key)
    ensures p == q
  {
    if p != q { BeforeTotal(s, p, q); }
  }
}
