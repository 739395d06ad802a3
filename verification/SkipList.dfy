/** The skip list object: the sequential code of the writer and of an undisturbed reader. */
module SkipLists {
  import opened Comparators
  import opened SkipListMemory
  import opened SkipListLevels
  import opened SkipListEstimate
  import opened Arithmetic
  import opened SkipListReaders

  class SkipList<K(!new)> {
    const compare: (K, K) -> int
    const kMaxHeight: nat
    const kBranching: nat
    var nodes: seq<Node<K>>
    var maxHeight: nat
    var prev: array<nat>
    var prevHeight: nat

    ghost function View(): Shared<K>
      reads this
    {
      Shared(compare, nodes, maxHeight, kMaxHeight, Idle)
    }

    ghost predicate Valid()
      reads this, prev
    {
      Inv(View()) && 0 < kBranching && Cached(View(), prev[..], prevHeight)
    }

    constructor (cmp: (K, K) -> int, anyKey: K, heightLimit: nat, branching: nat)
      requires TotalOrder(cmp)
      requires 0 < heightLimit < 0x1_0000 && 0 < branching < 0x1_0000
      ensures Valid() && fresh(prev)
      ensures compare == cmp && kMaxHeight == heightLimit && kBranching == branching
      ensures Contents(View()) == []
    {
      compare, kMaxHeight, kBranching := cmp, heightLimit, branching;
      nodes := [Node(anyKey, seq(heightLimit, _ => Uninit))];
      maxHeight, prevHeight := 1, 1;
      prev := new nat[heightLimit];
      new;
      for i := 0 to kMaxHeight
        invariant |nodes| == 1 && |nodes[HEAD].next| == kMaxHeight
        invariant maxHeight == prevHeight == 1
        invariant fresh(prev) && prev.Length == kMaxHeight
        invariant forall j | 0 <= j < i :: nodes[HEAD].next[j] == Null && prev[j] == HEAD
      {
        nodes := SetLink(nodes, HEAD, i, Null);
        prev[i] := HEAD;
      }
      assert forall i | 0 <= i < kMaxHeight :: LevelOk(View(), i);
    }

    predicate KeyIsAfterNode(key: K, n: Link)
      requires n.To? ==> n.addr < |nodes|
      reads this
    {
      n.To? && compare(nodes[n.addr].key, key) < 0
    }

    method FindLessThan(key: K, out: array?<nat>) returns (x: nat)
      requires Inv(View())
      requires out != null ==> maxHeight <= out.Length
      modifies if out == null then {} else {out}
      ensures IsPred(View(), x, 0, key)
      ensures out != null ==> forall i | 0 <= i < maxHeight :: IsPred(View(), out[i], i, key)
      ensures out != null ==> forall i | maxHeight <= i < out.Length :: out[i] == old(out[i])
    {
      ghost var s := View();
      x := HEAD;
      var level := maxHeight - 1;
      var lastNotAfter := Null;
      while true
        invariant 0 <= level < maxHeight && OnLevel(s, x, level) && s == View()
        invariant x != HEAD ==> compare(nodes[x].key, key) < 0
        invariant !lastNotAfter.Uninit?
        invariant lastNotAfter.To? ==> lastNotAfter.addr < |nodes| && compare(nodes[lastNotAfter.addr].key, key) >= 0
        invariant out != null ==> forall i | level < i < maxHeight :: IsPred(s, out[i], i, key)
        invariant out != null ==> forall i | maxHeight <= i < out.Length :: out[i] == old(out[i])
        decreases level, After(s, x)
      {
        assert LevelOk(s, level);
        assert IsSuccessor(s, x, level, nodes[x].next[level]);
        var next := nodes[x].next[level];
        assert x == HEAD || next.Null? || KeyIsAfterNode(nodes[next.addr].key, To(x));
        assert x == HEAD || KeyIsAfterNode(key, To(x));
        if next != lastNotAfter && KeyIsAfterNode(key, next) {
          AfterShrinks(s, x, next.addr);
          x := next.addr;
        } else {
          StopIsPred(s, x, level, key);
          if out != null {
            out[level] := x;
          }
          if level == 0 {
            return;
          } else {
            lastNotAfter := next;
            level := level - 1;
          }
        }
      }
    }

    method FindGreaterOrEqual(key: K) returns (r: Link)
      requires Inv(View())
      ensures IsFirstNotBefore(View(), key, r)
    {
      ghost var s := View();
      var x := HEAD;
      var level := maxHeight - 1;
      var lastBigger := Null;
      while true
        invariant 0 <= level < maxHeight && OnLevel(s, x, level) && s == View()
        invariant ReaderOk(s, Searching(x, level, lastBigger), key)
        decreases level, After(s, x)
      {
        ReadIsSafe(s, Searching(x, level, lastBigger), key);
        ReadStepKeepsOk(s, Searching(x, level, lastBigger), key);
        var next := nodes[x].next[level];
        assert x == HEAD || next.Null? || KeyIsAfterNode(nodes[next.addr].key, To(x));
        assert x == HEAD || KeyIsAfterNode(key, To(x));
        var cmp := if next.Null? || next == lastBigger then 1 else compare(nodes[next.addr].key, key);
        if cmp == 0 || (cmp > 0 && level == 0) {
          return next;
        } else if cmp < 0 {
          AfterShrinks(s, x, next.addr);
          x := next.addr;
        } else {
          lastBigger := next;
          level := level - 1;
        }
      }
    }

    method Contains(key: K) returns (found: bool)
      requires Inv(View())
      ensures found <==> exists n: nat :: InLevel(View(), n, 0) && compare(nodes[n].key, key) == 0
    {
      var x := FindGreaterOrEqual(key);
      ghost var s := View();
      found := x.To? && compare(key, nodes[x.addr].key) == 0;
      EqualIsFirst(s, key, x);
    }

    /** The last node of the list: nothing lies after it. */
    method FindLast() returns (x: nat)
      requires Inv(View())
      ensures OnLevel(View(), x, 0) && Chain(View(), x, 0) == []
    {
      ghost var s := View();
      x := HEAD;
      var level := maxHeight - 1;
      while true
        invariant 0 <= level < maxHeight && OnLevel(s, x, level) && s == View()
        decreases level, After(s, x)
      {
        assert LevelOk(s, level);
        assert IsSuccessor(s, x, level, nodes[x].next[level]);
        var next := nodes[x].next[level];
        if next == Null {
          if level == 0 {
            return;
          } else {
            level := level - 1;
          }
        } else {
          AfterShrinks(s, x, next.addr);
          x := next.addr;
        }
      }
    }

    /** The count is kept in 64 bits: it is the level sum of the one search path, modulo 2^64. */
    method EstimateCount(key: K) returns (count: nat)
      requires Inv(View()) && kBranching > 0
      ensures exists stops, steps :: IsPath(View(), key, stops, steps, 0)
      ensures forall stops, steps | IsPath(View(), key, stops, steps, 0) :: count == Wrap64(Horner(steps, kBranching, 0))
      ensures Estimates(View(), kBranching, key, count)
    {
      ghost var s := View();
      count := 0;
      var x := HEAD;
      var level := maxHeight - 1;
      ghost var walked: nat := 0;
      ghost var stops: seq<nat>, steps: seq<nat> := seq(maxHeight, _ => HEAD), seq(maxHeight, _ => 0);
      while true
        invariant 0 <= level && s == View()
        invariant Estimating(s, key, kBranching, x, level, stops, steps, walked, count)
        decreases level, After(s, x)
      {
        EstimatingLoad(s, key, kBranching, x, level, stops, steps, walked, count);
        assert x == HEAD || compare(nodes[x].key, key) < 0;
        var next := nodes[x].next[level];
        if next == Null || compare(nodes[next.addr].key, key) >= 0 {
          stops, steps := EstimateStops(s, key, kBranching, x, level, stops, steps, walked, count);
          if level == 0 {
            PathEstimates(s, kBranching, key, stops, steps, count);
            return;
          } else {
            count := Mul64(count, kBranching);
            level := level - 1;
            walked := 0;
          }
        } else {
          EstimateWalks(s, key, kBranching, x, level, stops, steps, walked, count);
          x := next.addr;
          count := Add64(count, 1);
          walked := walked + 1;
        }
      }
    }

    /** The loop of coin tosses, each toss left open: any height from 1 to the maximum may come out. */
    method RandomHeight() returns (height: nat)
      requires 1 <= kMaxHeight
      ensures 1 <= height <= kMaxHeight
    {
      height := 1;
      var again := *;
      while height < kMaxHeight && again
        invariant 1 <= height <= kMaxHeight
      {
        height := height + 1;
        again := *;
      }
    }

    /** The predecessors of `key` at every level, by the sequential-insert shortcut when it applies:
        the result is what the full search would have stored. */
    method LocatePredecessors(key: K)
      requires Valid()
      modifies prev
      ensures forall i | 0 <= i < maxHeight :: IsPred(View(), prev[i], i, key)
    {
      ghost var s := View();
      ghost var before := prev[..];
      assert Cached(s, before, prevHeight);
      assert LevelOk(s, 0) && OnLevel(s, prev[0], 0);
      assert IsSuccessor(s, prev[0], 0, nodes[prev[0]].next[0]);
      if !KeyIsAfterNode(key, nodes[prev[0]].next[0]) && (prev[0] == HEAD || KeyIsAfterNode(key, To(prev[0]))) {
        assert prev[0] != HEAD || (prevHeight == 1 && maxHeight == 1);
        FastPathIsPred(s, before, prevHeight, key);
        for i := 1 to prevHeight
          invariant prev[..] == Shortcut(before, i)
        {
          prev[i] := prev[0];
        }
      } else {
        var _ := FindLessThan(key, prev);
      }
    }

    /** New levels start at the head; only then is the new height stored. */
    method RaiseHeight(height: nat, key: K) returns (ghost s: Shared<K>)
      requires Inv(View()) && prev.Length == kMaxHeight && 1 <= height <= kMaxHeight
      requires forall i | 0 <= i < maxHeight :: IsPred(View(), prev[i], i, key)
      requires forall n | HEAD < n < |nodes| :: compare(nodes[n].key, key) != 0
      modifies this`maxHeight, prev
      ensures maxHeight == if height > old(maxHeight) then height else old(maxHeight)
      ensures Raise(old(View()), s, key, prev[..height])
      ensures s == Shared(compare, nodes, maxHeight, kMaxHeight, Raised(key, prev[..height]))
      ensures forall i | 0 <= i < maxHeight :: IsPred(s, prev[i], i, key)
    {
      ghost var s0 := View();
      if height > maxHeight {
        for i := maxHeight to height
          invariant maxHeight == s0.maxHeight
          invariant forall j | 0 <= j < maxHeight :: IsPred(s0, prev[j], j, key)
          invariant forall j | maxHeight <= j < i :: prev[j] == HEAD
        {
          prev[i] := HEAD;
        }
        maxHeight := height;
      }
      s := Shared(compare, nodes, maxHeight, kMaxHeight, Raised(key, prev[..height]));
      forall i | 0 <= i < maxHeight ensures IsPred(s0, prev[i], i, key) && IsPred(s, prev[i], i, key) {
        assert forall m: nat :: InLevel(s, m, i) <==> InLevel(s0, m, i);
      }
    }

    /** One round of Insert's publishing loop: the new node's own link, then the predecessor's. */
    method LinkLevel(ghost preds: seq<nat>, i: nat, ghost before: Shared<K>, ghost s0: Shared<K>, ghost trace: seq<Shared<K>>)
      returns (ghost trace': seq<Shared<K>>)
      requires prev.Length == kMaxHeight && |preds| <= kMaxHeight && preds == prev[..|preds|] && i < |preds|
      requires before == Shared(compare, nodes, maxHeight, kMaxHeight, Linking(preds, i, false))
      requires IsInsertRun(trace, s0, before)
      modifies this`nodes
      ensures IsInsertRun(trace', s0, Shared(compare, nodes, maxHeight, kMaxHeight, Linking(preds, i + 1, false)))
      ensures |nodes| == |old(nodes)|
      ensures forall n: nat | n < |nodes| :: nodes[n].key == old(nodes[n].key) && |nodes[n].next| == |old(nodes[n].next)|
    {
      var x := |nodes| - 1;
      assert InsertRunAt(trace, |trace| - 1) && IsPred(before, preds[i], i, nodes[x].key);
      nodes := SetLink(nodes, x, i, nodes[prev[i]].next[i]);
      ghost var own := Shared(compare, nodes, maxHeight, kMaxHeight, Linking(preds, i, true));
      trace' := Stepped(trace, s0, before, own);
      nodes := SetLink(nodes, prev[i], i, To(x));
      ghost var done := Shared(compare, nodes, maxHeight, kMaxHeight, Linking(preds, i + 1, false));
      trace' := Stepped(trace', s0, own, done);
    }

    /** Allocation and publication of the new node, bottom level first. */
    method LinkNode(key: K, height: nat, ghost s0: Shared<K>, ghost raised: Shared<K>, ghost trace: seq<Shared<K>>)
      returns (x: nat, ghost trace': seq<Shared<K>>)
      requires prev.Length == kMaxHeight && 1 <= height <= kMaxHeight
      requires raised == Shared(compare, nodes, maxHeight, kMaxHeight, Raised(key, prev[..height]))
      requires IsInsertRun(trace, s0, raised)
      modifies this`nodes
      ensures IsInsertRun(trace', s0, View())
      ensures x == |old(nodes)| && IsNewNode(old(nodes), nodes, key, height)
    {
      ghost var preds := prev[..height];
      x := |nodes|;
      nodes := nodes + [Node(key, seq(height, _ => Uninit))];
      ghost var s := Shared(compare, nodes, maxHeight, kMaxHeight, Linking(preds, 0, false));
      trace' := Stepped(trace, s0, raised, s);
      for i := 0 to height
        invariant s == Shared(compare, nodes, maxHeight, kMaxHeight, Linking(preds, i, false))
        invariant IsInsertRun(trace', s0, s)
        invariant IsNewNode(old(nodes), nodes, key, height)
      {
        trace' := LinkLevel(preds, i, s, s0, trace');
        s := Shared(compare, nodes, maxHeight, kMaxHeight, Linking(preds, i + 1, false));
      }
      trace' := Stepped(trace', s0, s, View());
    }

    /** Insert from the choice of the height on: the new node is linked in level by level, which is
        insertion of the key into the sorted contents. */
    method LinkNew(key: K, height: nat) returns (x: nat, ghost raised: Shared<K>, ghost trace: seq<Shared<K>>)
      requires Inv(View()) && prev.Length == kMaxHeight && 1 <= height <= kMaxHeight
      requires forall i | 0 <= i < maxHeight :: IsPred(View(), prev[i], i, key)
      requires forall n | HEAD < n < |nodes| :: compare(nodes[n].key, key) != 0
      modifies this`maxHeight, this`nodes, prev
      ensures IsInsertRun(trace, old(View()), View()) && Inv(View())
      ensures exists at: nat :: IsInsertion(compare, old(Contents(View())), key, Contents(View()), at)
      ensures x == |old(nodes)| && IsNewNode(old(nodes), nodes, key, height)
      ensures raised == Shared(compare, old(nodes), maxHeight, kMaxHeight, raised.writer) && raised.writer.Raised?
      ensures forall i | 1 <= i < maxHeight :: IsPred(raised, prev[i], i, key)
    {
      ghost var s0 := View();
      raised := RaiseHeight(height, key);
      assert InsertRunAt([s0], 0);
      trace := Stepped([s0], s0, s0, raised);
      x, trace := LinkNode(key, height, s0, raised, trace);
      assert InsertRunAt(trace, |trace| - 1);
      var _ := LinkingIsInsertion(s0, View(), key);
    }

    method Insert(key: K) returns (ghost trace: seq<Shared<K>>)
      requires Valid()
      requires forall n | HEAD < n < |nodes| :: compare(nodes[n].key, key) != 0
      modifies this, prev
      ensures Valid() && prev == old(prev)
      ensures exists at: nat :: IsInsertion(compare, old(Contents(View())), key, Contents(View()), at)
      ensures IsInsertRun(trace, old(View()), View())
    {
      ghost var s0 := View();
      LocatePredecessors(key);
      NotEqualToNext(s0, prev[0], key);
      assert nodes[prev[0]].next[0].Null? || compare(key, nodes[nodes[prev[0]].next[0].addr].key) != 0;

      var height := RandomHeight();
      var x;
      ghost var raised;
      x, raised, trace := LinkNew(key, height);
      prev[0] := x;
      prevHeight := height;
      KeepsCached(raised, View(), key, prev[..], height);
    }
  }

  /** One more node, at the end of the heap; no other key or height has changed. */
  ghost predicate IsNewNode<K>(nodes: seq<Node<K>>, nodes': seq<Node<K>>, key: K, height: nat) {
    && |nodes'| == |nodes| + 1
    && nodes'[|nodes|].key == key && |nodes'[|nodes|].next| == height
    && forall n: nat | n < |nodes| :: nodes'[n].key == nodes[n].key && |nodes'[n].next| == |nodes[n].next|
  }

  ghost predicate InsertRunAt<K(!new)>(trace: seq<Shared<K>>, j: nat)
    requires j < |trace|
  {
    Inv(trace[j]) && (j + 1 < |trace| ==> WriterStep(trace[j], trace[j + 1]))
  }

  /** A run of the writer's stores, one at a time, each leaving the list well formed. */
  ghost predicate IsInsertRun<K(!new)>(trace: seq<Shared<K>>, s: Shared<K>, s': Shared<K>) {
    && 0 < |trace|
    && trace[0] == s && trace[|trace| - 1] == s'
    && forall j: nat | j < |trace| :: InsertRunAt(trace, j)
  }

  lemma Stepped<K(!new)>(trace: seq<Shared<K>>, s0: Shared<K>, s: Shared<K>, next: Shared<K>) returns (trace': seq<Shared<K>>)
    requires IsInsertRun(trace, s0, s) && WriterStep(s, next)
    ensures IsInsertRun(trace', s0, next)
  {
    trace' := trace + [next];
    assert InsertRunAt(trace, |trace| - 1);
    WriterStepKeepsInv(s, next);
    forall j: nat | j < |trace'| ensures InsertRunAt(trace', j) {
      assert j < |trace| ==> InsertRunAt(trace, j);
    }
  }

  lemma NotEqualToNext<K(!new)>(s: Shared<K>, p: nat, key: K)
    requires Inv(s) && s.writer.Idle? && IsPred(s, p, 0, key)
    requires forall n | HEAD < n < |s.nodes| :: s.cmp(s.nodes[n].key, key) != 0
    ensures var next := s.nodes[p].next[0]; next.Null? || (next.To? && next.addr < |s.nodes| && s.cmp(key, s.nodes[next.addr].key) != 0)
  {
    assert LevelOk(s, 0);
    assert IsSuccessor(s, p, 0, s.nodes[p].next[0]);
    if s.nodes[p].next[0].To? { Transitive(s.cmp, key, s.nodes[s.nodes[p].next[0].addr].key, key); }
  }

  /** The predecessors of the key just inserted stay its predecessors above level 0. */
  lemma KeepsCached<K(!new)>(raised: Shared<K>, s: Shared<K>, key: K, prev: seq<nat>, height: nat)
    requires Inv(s) && s.writer.Idle? && raised.writer.Raised?
    requires |prev| == s.kMaxHeight == raised.kMaxHeight && s.cmp == raised.cmp && s.maxHeight == raised.maxHeight
    requires HEAD < |raised.nodes| && IsNewNode(raised.nodes, s.nodes, key, height)
    requires prev[0] == |raised.nodes|
    requires forall i | 1 <= i < s.maxHeight :: IsPred(raised, prev[i], i, key)
    ensures Cached(s, prev, height)
  {
    Transitive(s.cmp, key, key, key);
    forall i | 1 <= i < s.maxHeight ensures IsPred(s, prev[i], i, key) {
      assert IsPred(raised, prev[i], i, key);
      forall m: nat | InLevel(s, m, i) && s.cmp(s.nodes[m].key, key) < 0 ensures !Before(s, prev[i], m) {
        assert InLevel(raised, m, i);
      }
    }
  }

  /** What Insert keeps between calls: above level 0, `prev` holds the predecessors of the node it
      inserted last, which is `prev[0]` and reaches `lastHeight`; before any insertion, the head. */
  ghost predicate Cached<K(!new)>(s: Shared<K>, prev: seq<nat>, lastHeight: nat) {
    && Shape(s)
    && |prev| == s.kMaxHeight
    && prev[0] < |s.nodes|
    && 1 <= lastHeight <= s.maxHeight
    && if prev[0] == HEAD then |s.nodes| == 1 && s.maxHeight == 1 && lastHeight == 1 else
       && lastHeight == |s.nodes[prev[0]].next|
       && forall i | 1 <= i < s.maxHeight :: IsPred(s, prev[i], i, s.nodes[prev[0]].key)
  }

  lemma EqualIsFirst<K(!new)>(s: Shared<K>, key: K, link: Link)
    requires Inv(s) && IsFirstNotBefore(s, key, link)
    ensures (link.To? && s.cmp(key, s.nodes[link.addr].key) == 0) <==>
              exists n: nat :: InLevel(s, n, 0) && s.cmp(s.nodes[n].key, key) == 0
  {
    if link.To? {
      Transitive(s.cmp, key, s.nodes[link.addr].key, key);
    }
    forall n: nat | InLevel(s, n, 0) && s.cmp(s.nodes[n].key, key) == 0 ensures link == To(n) {
      assert link.To? && !Before(s, n, link.addr);
      EqualKeyIsSameNode(s, n, link.addr, key);
    }
  }

  /** `prev` after the shortcut has overwritten the levels the last node reaches. */
  function Shortcut(prev: seq<nat>, lastHeight: nat): (r: seq<nat>)
    requires 0 < |prev|
  {
    seq(|prev|, i requires 0 <= i < |prev| => if i < lastHeight then prev[0] else prev[i])
  }

  /** When `key` falls between the last inserted node and its successor, that node is the
      predecessor on its own levels, and above them the cached predecessors still are. */
  lemma FastPathIsPred<K(!new)>(s: Shared<K>, prev: seq<nat>, lastHeight: nat, key: K)
    requires Inv(s) && s.writer.Idle? && Cached(s, prev, lastHeight)
    requires prev[0] != HEAD ==> s.cmp(s.nodes[prev[0]].key, key) < 0
    requires var next := s.nodes[prev[0]].next[0]; next.To? && next.addr < |s.nodes| ==> s.cmp(s.nodes[next.addr].key, key) >= 0
    ensures forall i | 0 <= i < s.maxHeight :: IsPred(s, Shortcut(prev, lastHeight)[i], i, key)
  {
    forall i | 0 <= i < s.maxHeight ensures IsPred(s, Shortcut(prev, lastHeight)[i], i, key) {
      if prev[0] != HEAD {
        StopIsPred(s, prev[0], 0, key);
        if i < lastHeight {
          LowerPred(s, prev[0], i, key);
        } else {
          PredPersists(s, prev[0], prev[i], i, key);
        }
      }
    }
  }

  lemma LowerPred<K(!new)>(s: Shared<K>, p: nat, i: nat, key: K)
    requires IsPred(s, p, 0, key) && OnLevel(s, p, i)
    ensures IsPred(s, p, i, key)
  {
    forall m: nat | InLevel(s, m, i) ensures InLevel(s, m, 0) {
    }
  }

  lemma PredPersists<K(!new)>(s: Shared<K>, last: nat, p: nat, i: nat, key: K)
    requires Shape(s) && IsPred(s, last, 0, key) && last != HEAD
    requires IsPred(s, p, i, s.nodes[last].key)
    requires !InLevel(s, last, i)
    ensures IsPred(s, p, i, key)
  {
    if p != HEAD { Transitive(s.cmp, s.nodes[p].key, s.nodes[last].key, key); }
    forall m: nat | InLevel(s, m, i) && s.cmp(s.nodes[m].key, key) < 0 ensures !Before(s, p, m) {
      assert InLevel(s, m, 0) && m != last;
      BeforeTotal(s, m, last);
    }
  }
}
