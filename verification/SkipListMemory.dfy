module SkipListMemory {
  import opened Comparators

  /** The word a link holds: whatever malloc left there, nullptr, or a node address. */
  datatype Link = Uninit | Null | To(addr: nat)

  datatype Node<K> = Node(key: K, next: seq<Link>)

  datatype Writer<K> =
    | Idle
    | Raised(key: K, prev: seq<nat>)
    | Linking(prev: seq<nat>, level: nat, own: bool)

  datatype Shared<!K> = Shared(cmp: (K, K) -> int, nodes: seq<Node<K>>, maxHeight: nat, kMaxHeight: nat, writer: Writer<K>)

  const HEAD: nat := 0

  ghost predicate InLevel<K>(s: Shared<K>, n: nat, i: nat) {
    && HEAD < n < |s.nodes|
    && i < |s.nodes[n].next|
    && (s.writer.Linking? && n == |s.nodes| - 1 ==> i < s.writer.level)
  }

  ghost predicate OnLevel<K>(s: Shared<K>, n: nat, i: nat) {
    n == HEAD || InLevel(s, n, i)
  }

  ghost predicate Before<K>(s: Shared<K>, n: nat, m: nat)
    requires n < |s.nodes| && m < |s.nodes|
  {
    m != HEAD && (n == HEAD || s.cmp(s.nodes[n].key, s.nodes[m].key) < 0)
  }

  ghost predicate Distinct<K>(cmp: (K, K) -> int, nodes: seq<Node<K>>, n: nat, m: nat) {
    HEAD < n < m < |nodes| ==> cmp(nodes[n].key, nodes[m].key) != 0
  }

  ghost predicate Shape<K(!new)>(s: Shared<K>) {
    && TotalOrder(s.cmp)
    && 0 < |s.nodes|
    && |s.nodes[HEAD].next| == s.kMaxHeight
    && 1 <= s.maxHeight <= s.kMaxHeight
    && (forall n | HEAD < n < |s.nodes| :: 1 <= |s.nodes[n].next| <= s.maxHeight)
    && (forall n: nat, m: nat :: Distinct(s.cmp, s.nodes, n, m))
  }

  /** The link of n at level i is the successor of n among the nodes of level i. */
  ghost predicate IsSuccessor<K(!new)>(s: Shared<K>, n: nat, i: nat, link: Link)
    requires n < |s.nodes|
  {
    match link
    case Uninit => false
    case Null => forall m: nat | InLevel(s, m, i) :: !Before(s, n, m)
    case To(t) =>
      && InLevel(s, t, i)
      && Before(s, n, t)
      && forall m: nat | InLevel(s, m, i) :: Before(s, n, m) ==> !Before(s, m, t)
  }

  ghost predicate LevelOk<K(!new)>(s: Shared<K>, i: nat)
    requires Shape(s) && i < s.kMaxHeight
  {
    forall n: nat | OnLevel(s, n, i) :: IsSuccessor(s, n, i, s.nodes[n].next[i])
  }

  ghost predicate IsPred<K(!new)>(s: Shared<K>, p: nat, i: nat, key: K) {
    && p < |s.nodes|
    && OnLevel(s, p, i)
    && (p != HEAD ==> s.cmp(s.nodes[p].key, key) < 0)
    && forall m: nat | InLevel(s, m, i) && s.cmp(s.nodes[m].key, key) < 0 :: !Before(s, p, m)
  }

  ghost predicate WriterOk<K(!new)>(s: Shared<K>)
    requires Shape(s)
  {
    match s.writer
    case Idle => true
    case Raised(key, prev) =>
      && 1 <= |prev| <= s.maxHeight
      && (forall i | 0 <= i < |prev| :: IsPred(s, prev[i], i, key))
      && (forall n | HEAD < n < |s.nodes| :: s.cmp(s.nodes[n].key, key) != 0)
    case Linking(prev, level, own) =>
      var x := |s.nodes| - 1;
      && HEAD < x
      && level <= |prev| == |s.nodes[x].next|
      && (own ==> level < |prev|)
      && (forall i | level <= i < |prev| :: IsPred(s, prev[i], i, s.nodes[x].key) && prev[i] != x)
      && (own ==> s.nodes[x].next[level] == s.nodes[prev[level]].next[level])
  }

  ghost predicate Inv<K(!new)>(s: Shared<K>) {
    && Shape(s)
    && (forall i | 0 <= i < s.kMaxHeight :: LevelOk(s, i))
    && WriterOk(s)
  }

  // steps

  function SetLink<K>(nodes: seq<Node<K>>, n: nat, i: nat, link: Link): (r: seq<Node<K>>)
    requires n < |nodes| && i < |nodes[n].next|
  {
    nodes[n := nodes[n].(next := nodes[n].next[i := link])]
  }

  ghost predicate Raise<K(!new)>(s: Shared<K>, s': Shared<K>, key: K, prev: seq<nat>) {
    && s.writer.Idle?
    && 1 <= |prev| <= s.kMaxHeight
    && (forall i | 0 <= i < |prev| :: IsPred(s, prev[i], i, key))
    && (forall n | HEAD < n < |s.nodes| :: s.cmp(s.nodes[n].key, key) != 0)
    && s' == s.(maxHeight := if |prev| > s.maxHeight then |prev| else s.maxHeight, writer := Raised(key, prev))
  }

  ghost predicate Allocate<K>(s: Shared<K>, s': Shared<K>) {
    && s.writer.Raised?
    && s' == s.(nodes := s.nodes + [Node(s.writer.key, seq(|s.writer.prev|, _ => Uninit))],
                writer := Linking(s.writer.prev, 0, false))
  }

  ghost predicate SetOwn<K>(s: Shared<K>, s': Shared<K>) {
    && s.writer.Linking?
    && var Linking(prev, i, own) := s.writer;
    && !own && i < |prev|
    && var x := |s.nodes| - 1;
    && 0 <= x
    && i < |s.nodes[x].next| && prev[i] < |s.nodes| && i < |s.nodes[prev[i]].next|
    && s' == s.(nodes := SetLink(s.nodes, x, i, s.nodes[prev[i]].next[i]), writer := Linking(prev, i, true))
  }

  ghost predicate Publish<K>(s: Shared<K>, s': Shared<K>) {
    && s.writer.Linking?
    && var Linking(prev, i, own) := s.writer;
    && own && i < |prev|
    && var x := |s.nodes| - 1;
    && 0 <= x
    && prev[i] < |s.nodes| && i < |s.nodes[prev[i]].next|
    && s' == s.(nodes := SetLink(s.nodes, prev[i], i, To(x)), writer := Linking(prev, i + 1, false))
  }

  ghost predicate Finish<K>(s: Shared<K>, s': Shared<K>) {
    && s.writer.Linking?
    && s.writer.level == |s.writer.prev|
    && s' == s.(writer := Idle)
  }

  /** Level i holds the same nodes with the same keys and links in both states. */
  ghost predicate SameLevel<K>(s: Shared<K>, s': Shared<K>, i: nat) {
    && s.cmp == s'.cmp
    && |s.nodes| <= |s'.nodes|
    && (forall n: nat | n < |s.nodes| :: s.nodes[n].key == s'.nodes[n].key && |s.nodes[n].next| == |s'.nodes[n].next|)
    && (forall n: nat :: InLevel(s, n, i) <==> InLevel(s', n, i))
    && (forall n: nat | n < |s.nodes| && OnLevel(s, n, i) && i < |s.nodes[n].next| :: s.nodes[n].next[i] == s'.nodes[n].next[i])
  }

  lemma SameLevelOk<K(!new)>(s: Shared<K>, s': Shared<K>, i: nat)
    requires Shape(s) && Shape(s') && i < s.kMaxHeight == s'.kMaxHeight
    requires LevelOk(s, i) && SameLevel(s, s', i)
    ensures LevelOk(s', i)
  {
    forall n: nat | OnLevel(s', n, i) ensures IsSuccessor(s', n, i, s'.nodes[n].next[i]) {
      assert OnLevel(s, n, i);
      assert IsSuccessor(s, n, i, s.nodes[n].next[i]);
    }
  }

  lemma SameLevelPred<K(!new)>(s: Shared<K>, s': Shared<K>, p: nat, i: nat, key: K)
    requires SameLevel(s, s', i) && IsPred(s, p, i, key)
    ensures IsPred(s', p, i, key)
  {
  }

  lemma RaiseKeepsInv<K(!new)>(s: Shared<K>, s': Shared<K>, key: K, prev: seq<nat>)
    requires Inv(s) && Raise(s, s', key, prev)
    ensures Inv(s')
  {
    forall i | 0 <= i < s'.kMaxHeight ensures LevelOk(s', i) {
      assert LevelOk(s, i);
      SameLevelOk(s, s', i);
    }
    forall i | 0 <= i < |prev| ensures IsPred(s', prev[i], i, key) {
      SameLevelPred(s, s', prev[i], i, key);
    }
  }

  lemma AllocateKeepsInv<K(!new)>(s: Shared<K>, s': Shared<K>)
    requires Inv(s) && Allocate(s, s')
    ensures Inv(s')
  {
    var Raised(key, prev) := s.writer;
    var x := |s.nodes|;
    assert Shape(s') by {
      forall n: nat, m: nat ensures Distinct(s'.cmp, s'.nodes, n, m) {
        assert Distinct(s.cmp, s.nodes, n, m);
      }
    }
    assert forall n: nat, i: nat :: InLevel(s, n, i) == InLevel(s', n, i);
    forall i | 0 <= i < s'.kMaxHeight ensures LevelOk(s', i) {
      assert LevelOk(s, i);
      SameLevelOk(s, s', i);
    }
    forall i | 0 <= i < |prev| ensures IsPred(s', prev[i], i, s'.nodes[x].key) && prev[i] != x {
      SameLevelPred(s, s', prev[i], i, key);
    }
  }

  lemma SetLinkShape<K(!new)>(s: Shared<K>, s': Shared<K>, n: nat, i: nat, link: Link)
    requires Shape(s) && n < |s.nodes| && i < |s.nodes[n].next|
    requires s'.nodes == SetLink(s.nodes, n, i, link) && s' == s.(nodes := s'.nodes, writer := s'.writer)
    ensures Shape(s')
    ensures forall m: nat | m < |s.nodes| :: s.nodes[m].key == s'.nodes[m].key && |s.nodes[m].next| == |s'.nodes[m].next|
    ensures forall m: nat, j: nat | m < |s.nodes| && j < |s.nodes[m].next| && (m, j) != (n, i) ::
      s'.nodes[m].next[j] == s.nodes[m].next[j]
  {
    forall a: nat, b: nat ensures Distinct(s'.cmp, s'.nodes, a, b) {
      assert Distinct(s.cmp, s.nodes, a, b);
    }
  }

  lemma SetOwnKeepsInv<K(!new)>(s: Shared<K>, s': Shared<K>)
    requires Inv(s) && SetOwn(s, s')
    ensures Inv(s')
  {
    var Linking(prev, level, own) := s.writer;
    var x := |s.nodes| - 1;
    SetLinkShape(s, s', x, level, s.nodes[prev[level]].next[level]);
    forall i | 0 <= i < s'.kMaxHeight ensures LevelOk(s', i) {
      assert LevelOk(s, i);
      SameLevelOk(s, s', i);
    }
    forall i | level <= i < |prev| ensures IsPred(s', prev[i], i, s'.nodes[x].key) && prev[i] != x {
      SameLevelPred(s, s', prev[i], i, s.nodes[x].key);
    }
  }

  lemma PublishKeepsInv<K(!new)>(s: Shared<K>, s': Shared<K>)
    requires Inv(s) && Publish(s, s')
    ensures Inv(s')
  {
    var Linking(prev, level, own) := s.writer;
    SetLinkShape(s, s', prev[level], level, To(|s.nodes| - 1));
    forall i | 0 <= i < s'.kMaxHeight ensures LevelOk(s', i) {
      assert LevelOk(s, i);
      if i != level {
        SameLevelOk(s, s', i);
      } else {
        PublishLevel(s, s');
      }
    }
    PublishWriterOk(s, s');
  }

  lemma PublishWriterOk<K(!new)>(s: Shared<K>, s': Shared<K>)
    requires Shape(s) && WriterOk(s) && Publish(s, s') && Shape(s')
    ensures WriterOk(s')
  {
    var Linking(prev, level, own) := s.writer;
    var x := |s.nodes| - 1;
    SetLinkShape(s, s', prev[level], level, To(x));
    forall i | level + 1 <= i < |prev| ensures IsPred(s', prev[i], i, s'.nodes[x].key) && prev[i] != x {
      SameLevelPred(s, s', prev[i], i, s.nodes[x].key);
    }
  }

  lemma PublishLevel<K(!new)>(s: Shared<K>, s': Shared<K>)
    requires Inv(s) && Publish(s, s') && Shape(s')
    ensures LevelOk(s', s.writer.level)
  {
    forall n: nat | OnLevel(s', n, s.writer.level)
      ensures IsSuccessor(s', n, s.writer.level, s'.nodes[n].next[s.writer.level])
    {
      PublishNode(s, s', n);
    }
  }

  lemma PublishNode<K(!new)>(s: Shared<K>, s': Shared<K>, n: nat)
    requires Inv(s) && Publish(s, s') && Shape(s')
    requires OnLevel(s', n, s.writer.level)
    ensures IsSuccessor(s', n, s.writer.level, s'.nodes[n].next[s.writer.level])
  {
    var Linking(prev, i, own) := s.writer;
    var x := |s.nodes| - 1;
    var p := prev[i];
    var key := s.nodes[x].key;
    assert IsPred(s, p, i, key);
    assert LevelOk(s, i);
    SetLinkShape(s, s', p, i, To(x));
    assert forall m: nat :: InLevel(s', m, i) <==> InLevel(s, m, i) || m == x;
    assert forall a: nat, b: nat | a < |s.nodes| && b < |s.nodes| :: Before(s', a, b) == Before(s, a, b);
    Transitive(s.cmp, key, key, key);
    if n == x {
      PublishedSuccessor(s, p, i);
    } else {
      assert IsSuccessor(s, n, i, s.nodes[n].next[i]);
      if n != p && Before(s, n, x) {
        PredIsLast(s, n, p, i);
      }
    }
  }

  lemma BeforeTotal<K(!new)>(s: Shared<K>, n: nat, m: nat)
    requires Shape(s) && n < |s.nodes| && m < |s.nodes| && n != m
    ensures Before(s, n, m) <==> !Before(s, m, n)
  {
    assert Distinct(s.cmp, s.nodes, n, m) && Distinct(s.cmp, s.nodes, m, n);
    Transitive(s.cmp, s.nodes[n].key, s.nodes[m].key, s.nodes[n].key);
  }

  /** The predecessor's old successor is the successor of the new node. */
  lemma PublishedSuccessor<K(!new)>(s: Shared<K>, p: nat, i: nat)
    requires Shape(s) && s.writer.Linking?
    requires i < s.kMaxHeight && LevelOk(s, i)
    requires IsPred(s, p, i, s.nodes[|s.nodes| - 1].key)
    requires HEAD < |s.nodes| - 1
    requires !InLevel(s, |s.nodes| - 1, i)
    ensures IsSuccessor(s, |s.nodes| - 1, i, s.nodes[p].next[i])
  {
    var x := |s.nodes| - 1;
    var key := s.nodes[x].key;
    assert IsSuccessor(s, p, i, s.nodes[p].next[i]);
    forall m: nat | InLevel(s, m, i) && Before(s, x, m) ensures Before(s, p, m) {
      if p != HEAD { Transitive(s.cmp, s.nodes[p].key, key, s.nodes[m].key); }
    }
    if s.nodes[p].next[i].To? {
      var t := s.nodes[p].next[i].addr;
      assert Distinct(s.cmp, s.nodes, t, x);
      Transitive(s.cmp, s.nodes[t].key, key, key);
    }
  }

  /** A node before the new one, other than its predecessor, has its successor at or before the predecessor. */
  lemma PredIsLast<K(!new)>(s: Shared<K>, n: nat, p: nat, i: nat)
    requires Shape(s) && s.writer.Linking?
    requires i < s.kMaxHeight && LevelOk(s, i)
    requires HEAD < |s.nodes| - 1
    requires IsPred(s, p, i, s.nodes[|s.nodes| - 1].key)
    requires OnLevel(s, n, i) && n != p && Before(s, n, |s.nodes| - 1)
    ensures s.nodes[n].next[i].To? && s.nodes[n].next[i].addr < |s.nodes|
    ensures !Before(s, p, s.nodes[n].next[i].addr)
    ensures !Before(s, |s.nodes| - 1, s.nodes[n].next[i].addr)
  {
    var x := |s.nodes| - 1;
    assert IsSuccessor(s, n, i, s.nodes[n].next[i]);
    BeforeTotal(s, n, p);
    var t := s.nodes[n].next[i].addr;
    assert !Before(s, p, t);
    if Before(s, x, t) {
      Transitive(s.cmp, s.nodes[p].key, s.nodes[x].key, s.nodes[t].key);
    }
  }

  lemma FinishKeepsInv<K(!new)>(s: Shared<K>, s': Shared<K>)
    requires Inv(s) && Finish(s, s')
    ensures Inv(s')
  {
    forall i | 0 <= i < s'.kMaxHeight ensures LevelOk(s', i) {
      assert LevelOk(s, i);
      SameLevelOk(s, s', i);
    }
  }
}
