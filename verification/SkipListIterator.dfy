/** The iterator of the skip list, over a list that no writer changes meanwhile: a position in the
    bottom level, moved by links and by searches. */
module SkipListIterators {
  import opened Comparators
  import opened SkipListMemory
  import opened SkipListLevels
  import opened SkipListReaders
  import opened SkipLists

  /** The k-th node of the list, or the end. */
  ghost function At<K(!new)>(s: Shared<K>, k: nat): (link: Link)
    requires Inv(s)
  {
    var ns := Level(s, 0);
    if k < |ns| then To(ns[k]) else Null
  }

  ghost function Previous<K(!new)>(s: Shared<K>, k: nat): (link: Link)
    requires Inv(s)
  {
    if k == 0 then Null else At(s, k - 1)
  }

  ghost function KeyAt<K(!new)>(s: Shared<K>, k: nat): (key: K)
    requires Inv(s) && k < |Level(s, 0)|
  {
    s.nodes[Level(s, 0)[k]].key
  }

  /** The first k keys, and only they, come before `key`. */
  ghost predicate LowerBound<K(!new)>(s: Shared<K>, key: K, k: nat)
    requires Inv(s)
  {
    && k <= |Level(s, 0)|
    && (forall j: nat | j < k :: s.cmp(KeyAt(s, j), key) < 0)
    && (forall j: nat | k <= j < |Level(s, 0)| :: s.cmp(KeyAt(s, j), key) >= 0)
  }

  /** The first k keys, and only they, do not come after `key`. */
  ghost predicate UpperBound<K(!new)>(s: Shared<K>, key: K, k: nat)
    requires Inv(s)
  {
    && k <= |Level(s, 0)|
    && (forall j: nat | j < k :: s.cmp(KeyAt(s, j), key) <= 0)
    && (forall j: nat | k <= j < |Level(s, 0)| :: s.cmp(KeyAt(s, j), key) > 0)
  }

  ghost predicate IsIndex<K(!new)>(s: Shared<K>, n: nat, k: nat)
    requires Inv(s)
  {
    k < |Level(s, 0)| && Level(s, 0)[k] == n
  }

  lemma IndexOf<K(!new)>(s: Shared<K>, n: nat) returns (k: nat)
    requires Inv(s) && InLevel(s, n, 0)
    ensures IsIndex(s, n, k)
  {
    assert n in Level(s, 0);
    k :| k < |Level(s, 0)| && Level(s, 0)[k] == n;
  }

  /** Positions are ordered as the keys are. */
  lemma IndexOrder<K(!new)>(s: Shared<K>, n: nat, k: nat, m: nat, j: nat)
    requires Inv(s) && IsIndex(s, n, k) && IsIndex(s, m, j)
    ensures Before(s, n, m) <==> k < j
  {
    var ns := Level(s, 0);
    assert k < j ==> s.cmp(s.nodes[ns[k]].key, s.nodes[ns[j]].key) < 0;
    assert j < k ==> s.cmp(s.nodes[ns[j]].key, s.nodes[ns[k]].key) < 0;
    Transitive(s.cmp, s.nodes[n].key, s.nodes[m].key, s.nodes[n].key);
  }

  /** The link out of the k-th node leads to the next one. */
  lemma SuccessorIsNext<K(!new)>(s: Shared<K>, n: nat, k: nat, link: Link)
    requires Inv(s) && IsIndex(s, n, k) && IsSuccessor(s, n, 0, link)
    ensures link == At(s, k + 1)
  {
    var ns := Level(s, 0);
    if k + 1 < |ns| {
      assert ns[k + 1] in ns && InLevel(s, ns[k + 1], 0);
      IndexOrder(s, n, k, ns[k + 1], k + 1);
    }
    if link.To? {
      var j := IndexOf(s, link.addr);
      IndexOrder(s, n, k, link.addr, j);
      if k + 1 < |ns| { IndexOrder(s, ns[k + 1], k + 1, link.addr, j); }
    }
  }

  /** The predecessor of a key is the node just before its lower bound. */
  lemma PredIsBefore<K(!new)>(s: Shared<K>, p: nat, key: K) returns (k: nat)
    requires Inv(s) && IsPred(s, p, 0, key)
    ensures LowerBound(s, key, k) && if k == 0 then p == HEAD else IsIndex(s, p, k - 1)
  {
    var ns := Level(s, 0);
    if p == HEAD {
      k := 0;
      forall j: nat | j < |ns| ensures s.cmp(KeyAt(s, j), key) >= 0 {
        assert ns[j] in ns && InLevel(s, ns[j], 0);
      }
    } else {
      var i := IndexOf(s, p);
      k := i + 1;
      forall j: nat | j < |ns| ensures j < k <==> s.cmp(KeyAt(s, j), key) < 0 {
        assert ns[j] in ns && InLevel(s, ns[j], 0);
        IndexOrder(s, p, i, ns[j], j);
        IndexOrder(s, ns[j], j, p, i);
        Transitive(s.cmp, s.nodes[ns[j]].key, s.nodes[p].key, key);
      }
    }
  }

  /** What a search returns is the position of the lower bound. */
  lemma FirstIsLowerBound<K(!new)>(s: Shared<K>, key: K, link: Link) returns (k: nat)
    requires Inv(s) && IsFirstNotBefore(s, key, link)
    ensures LowerBound(s, key, k) && link == At(s, k)
  {
    var ns := Level(s, 0);
    if link.Null? {
      k := |ns|;
      forall j: nat | j < |ns| ensures s.cmp(KeyAt(s, j), key) < 0 {
        assert ns[j] in ns && InLevel(s, ns[j], 0);
      }
    } else {
      k := IndexOf(s, link.addr);
      forall j: nat | j < |ns| ensures j < k <==> s.cmp(KeyAt(s, j), key) < 0 {
        assert ns[j] in ns && InLevel(s, ns[j], 0);
        IndexOrder(s, ns[j], j, link.addr, k);
        Transitive(s.cmp, s.nodes[link.addr].key, s.nodes[ns[j]].key, key);
        if k < j { IndexOrder(s, link.addr, k, ns[j], j); }
      }
    }
  }

  /** Searching for the key of a node finds that node. */
  lemma LowerBoundOfMember<K(!new)>(s: Shared<K>, n: nat, k: nat, j: nat)
    requires Inv(s) && IsIndex(s, n, k) && LowerBound(s, s.nodes[n].key, j)
    ensures j == k
  {
    Transitive(s.cmp, s.nodes[n].key, s.nodes[n].key, s.nodes[n].key);
    assert s.cmp(KeyAt(s, k), s.nodes[n].key) == 0;
    var i := if j < k then j else k;
    var a, b := KeyAt(s, i), KeyAt(s, k);
    assert i < k ==> s.cmp(a, b) < 0;
  }

  lemma LastIsAtEnd<K(!new)>(s: Shared<K>, x: nat)
    requires Inv(s) && OnLevel(s, x, 0) && Chain(s, x, 0) == []
    ensures if |Level(s, 0)| == 0 then x == HEAD else IsIndex(s, x, |Level(s, 0)| - 1)
  {
    var ns := Level(s, 0);
    assert x != HEAD ==> x in ns;
    if ns != [] {
      var last := ns[|ns| - 1];
      assert last in ns && InLevel(s, last, 0) && last !in Chain(s, x, 0);
      var k := IndexOf(s, x);
      IndexOrder(s, x, k, last, |ns| - 1);
    }
  }

  class Iterator<K(!new)> {
    const list: SkipList<K>
    var node: Link

    constructor (l: SkipList<K>)
      ensures list == l && !Valid()
    {
      list := l;
      node := Null;
    }

    predicate Valid()
      reads this
    {
      node != Null
    }

    /** A valid position is a node of the list. */
    ghost predicate Ok()
      reads this, list
    {
      Inv(list.View()) && (node.To? ==> InLevel(list.View(), node.addr, 0)) && !node.Uninit?
    }

    function Key(): (key: K)
      requires Ok() && Valid()
      reads this, list
    {
      list.nodes[node.addr].key
    }

    method Next()
      requires Ok() && Valid()
      modifies this
      ensures Ok()
      ensures forall k: nat | IsIndex(list.View(), old(node.addr), k) :: node == At(list.View(), k + 1)
    {
      ghost var s := list.View();
      assert LevelOk(s, 0);
      assert IsSuccessor(s, node.addr, 0, list.nodes[node.addr].next[0]);
      ghost var n := node.addr;
      node := list.nodes[node.addr].next[0];
      forall k: nat | IsIndex(s, n, k) ensures node == At(s, k + 1) {
        SuccessorIsNext(s, n, k, node);
      }
    }

    method Prev()
      requires Ok() && Valid()
      modifies this
      ensures Ok()
      ensures forall k: nat | IsIndex(list.View(), old(node.addr), k) :: node == Previous(list.View(), k)
    {
      ghost var s, n := list.View(), node.addr;
      var p := list.FindLessThan(Key(), null);
      ghost var j := PredIsBefore(s, p, s.nodes[n].key);
      node := if p == HEAD then Null else To(p);
      forall k: nat | IsIndex(s, n, k) ensures node == Previous(s, k) {
        LowerBoundOfMember(s, n, k, j);
      }
    }

    method Seek(target: K)
      requires Inv(list.View())
      modifies this
      ensures Ok() && exists k: nat :: LowerBound(list.View(), target, k) && node == At(list.View(), k)
    {
      node := list.FindGreaterOrEqual(target);
      ghost var k := FirstIsLowerBound(list.View(), target, node);
    }

    method SeekToFirst()
      requires Inv(list.View())
      modifies this
      ensures Ok() && node == At(list.View(), 0)
    {
      ghost var s := list.View();
      assert LevelOk(s, 0);
      assert IsSuccessor(s, HEAD, 0, list.nodes[HEAD].next[0]);
      node := list.nodes[HEAD].next[0];
      FirstLink(s);
    }

    method SeekToLast()
      requires Inv(list.View())
      modifies this
      ensures Ok() && node == Previous(list.View(), |Level(list.View(), 0)|)
    {
      var x := list.FindLast();
      LastIsAtEnd(list.View(), x);
      node := if x == HEAD then Null else To(x);
    }

    /** The last key that does not come after the target. */
    method SeekForPrev(target: K)
      requires Inv(list.View())
      modifies this
      ensures Ok() && exists k: nat :: UpperBound(list.View(), target, k) && node == Previous(list.View(), k)
    {
      ghost var s := list.View();
      Seek(target);
      ghost var k: nat :| LowerBound(s, target, k) && node == At(s, k);
      ghost var u := LowerToUpper(s, target, k);
      if !Valid() {
        SeekToLast();
      }
      while Valid() && list.compare(target, Key()) < 0
        invariant Ok() && s == list.View() && UpperBound(s, target, u)
        invariant node == Previous(s, u) || (u < |Level(s, 0)| && node == At(s, u))
        decreases if u < |Level(s, 0)| && node == At(s, u) then 1 else 0
      {
        NotAbove(s, target, u, node);
        Prev();
      }
      if u < |Level(s, 0)| && node == At(s, u) { NotBelow(s, target, u); }
    }
  }

  lemma FirstLink<K(!new)>(s: Shared<K>)
    requires Inv(s)
    ensures !s.nodes[HEAD].next[0].Uninit? && s.nodes[HEAD].next[0] == At(s, 0)
  {
    assert LevelOk(s, 0) && IsSuccessor(s, HEAD, 0, s.nodes[HEAD].next[0]);
    assert Level(s, 0) == Chain(s, HEAD, 0);
  }

  /** With distinct keys the two bounds differ by at most one. */
  lemma LowerToUpper<K(!new)>(s: Shared<K>, key: K, k: nat) returns (u: nat)
    requires Inv(s) && LowerBound(s, key, k)
    ensures UpperBound(s, key, u)
    ensures k == |Level(s, 0)| ==> u == k
    ensures k < |Level(s, 0)| ==> At(s, k) == if s.cmp(KeyAt(s, k), key) == 0 then Previous(s, u) else At(s, u)
    ensures u == k || (u == k + 1 && k < |Level(s, 0)|)
  {
    var ns := Level(s, 0);
    u := if k < |ns| && s.cmp(KeyAt(s, k), key) == 0 then k + 1 else k;
    forall j: nat | k < j < |ns| ensures s.cmp(KeyAt(s, j), key) > 0 {
      assert s.cmp(s.nodes[ns[k]].key, s.nodes[ns[j]].key) < 0;
      Transitive(s.cmp, key, KeyAt(s, k), KeyAt(s, j));
    }
  }

  lemma NotAbove<K(!new)>(s: Shared<K>, key: K, u: nat, node: Link)
    requires Inv(s) && UpperBound(s, key, u)
    requires node.To? && node.addr < |s.nodes| && s.cmp(key, s.nodes[node.addr].key) < 0
    requires node == Previous(s, u) || (u < |Level(s, 0)| && node == At(s, u))
    ensures u < |Level(s, 0)| && IsIndex(s, node.addr, u)
    ensures Previous(s, u) != At(s, u)
  {
    Transitive(s.cmp, key, s.nodes[node.addr].key, key);
    if u > 0 {
      assert s.cmp(KeyAt(s, u - 1), key) <= 0;
    }
  }

  lemma NotBelow<K(!new)>(s: Shared<K>, key: K, u: nat)
    requires Inv(s) && UpperBound(s, key, u) && u < |Level(s, 0)|
    ensures s.cmp(key, KeyAt(s, u)) < 0
  {
    Transitive(s.cmp, key, KeyAt(s, u), key);
  }
}
