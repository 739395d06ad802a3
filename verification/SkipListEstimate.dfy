/** EstimateCount: what the level-by-level walk adds up to, and when that is the exact rank. */
module SkipListEstimate {
  import opened Arithmetic
  import opened Comparators
  import opened SkipListMemory
  import opened SkipListLevels

  /** d level-i links lead from x to y. */
  ghost predicate Walks<K>(s: Shared<K>, i: nat, x: nat, y: nat, d: nat)
    decreases d
  {
    if d == 0 then x == y else
      && x < |s.nodes| && i < |s.nodes[x].next|
      && s.nodes[x].next[i].To?
      && Walks(s, i, s.nodes[x].next[i].addr, y, d - 1)
  }

  lemma {:induction false} WalksFurther<K>(s: Shared<K>, i: nat, x: nat, y: nat, d: nat, t: nat)
    requires Walks(s, i, x, y, d)
    requires y < |s.nodes| && i < |s.nodes[y].next| && s.nodes[y].next[i] == To(t)
    ensures Walks(s, i, x, t, d + 1)
    decreases d
  {
    if d > 0 {
      WalksFurther(s, i, s.nodes[x].next[i].addr, y, d - 1, t);
    }
  }

  /** The search path for `key`: the predecessors at every level, and the number of links walked
      at each level from where the level above stopped. */
  ghost predicate IsPath<K(!new)>(s: Shared<K>, key: K, stops: seq<nat>, steps: seq<nat>, from: nat) {
    && |stops| == |steps| == s.maxHeight
    && forall i | from <= i < s.maxHeight :: PathAt(s, key, stops, steps, i)
  }

  ghost predicate PathAt<K(!new)>(s: Shared<K>, key: K, stops: seq<nat>, steps: seq<nat>, i: nat)
    requires i < |stops| == |steps|
  {
    IsPred(s, stops[i], i, key) && Walks(s, i, StartAt(stops, i), stops[i], steps[i])
  }

  /** A walk only goes forward. */
  lemma {:induction false} WalkAdvances<K(!new)>(s: Shared<K>, i: nat, x: nat, y: nat, d: nat)
    requires Inv(s) && i < s.kMaxHeight && OnLevel(s, x, i) && Walks(s, i, x, y, d) && d > 0
    ensures y < |s.nodes| && Before(s, x, y)
    decreases d
  {
    assert LevelOk(s, i) && IsSuccessor(s, x, i, s.nodes[x].next[i]);
    var t := s.nodes[x].next[i].addr;
    if d > 1 {
      WalkAdvances(s, i, t, y, d - 1);
      if x != HEAD { Transitive(s.cmp, s.nodes[x].key, s.nodes[t].key, s.nodes[y].key); }
    }
  }

  lemma NotBeforeItself<K(!new)>(s: Shared<K>, x: nat)
    requires Shape(s) && x < |s.nodes|
    ensures !Before(s, x, x)
  {
    Transitive(s.cmp, s.nodes[x].key, s.nodes[x].key, s.nodes[x].key);
  }

  lemma {:induction false} WalkIsUnique<K(!new)>(s: Shared<K>, i: nat, x: nat, y: nat, d: nat, d': nat)
    requires Inv(s) && i < s.kMaxHeight && OnLevel(s, x, i) && Walks(s, i, x, y, d) && Walks(s, i, x, y, d')
    ensures d == d'
    decreases d
  {
    if d == 0 || d' == 0 {
      if d > 0 { WalkAdvances(s, i, x, y, d); }
      if d' > 0 { WalkAdvances(s, i, x, y, d'); }
      NotBeforeItself(s, x);
    } else {
      assert LevelOk(s, i) && IsSuccessor(s, x, i, s.nodes[x].next[i]);
      WalkIsUnique(s, i, s.nodes[x].next[i].addr, y, d - 1, d' - 1);
    }
  }

  /** A key has one search path. */
  lemma PathIsUnique<K(!new)>(s: Shared<K>, key: K, stops: seq<nat>, steps: seq<nat>, stops': seq<nat>, steps': seq<nat>)
    requires Inv(s) && IsPath(s, key, stops, steps, 0) && IsPath(s, key, stops', steps', 0)
    ensures stops == stops' && steps == steps'
  {
    forall i | 0 <= i < s.maxHeight ensures stops[i] == stops'[i] {
      assert PathAt(s, key, stops, steps, i) && PathAt(s, key, stops', steps', i);
      PredIsUnique(s, stops[i], stops'[i], i, key);
    }
    forall i | 0 <= i < s.maxHeight ensures steps[i] == steps'[i] {
      assert PathAt(s, key, stops, steps, i) && PathAt(s, key, stops', steps', i);
      assert i + 1 < s.maxHeight ==> PathAt(s, key, stops, steps, i + 1);
      WalkIsUnique(s, i, StartAt(stops, i), stops[i], steps[i], steps'[i]);
    }
  }

  function StartAt(stops: seq<nat>, i: nat): (x: nat)
    requires i < |stops|
  {
    if i + 1 == |stops| then HEAD else stops[i + 1]
  }

  /** The links walked, scaled by b at each descent: sum of steps[i] * b^i for the levels from `i` up. */
  function Horner(steps: seq<nat>, b: nat, i: nat): (e: nat)
    requires i <= |steps|
    decreases |steps| - i
  {
    if i == |steps| then 0 else Horner(steps, b, i + 1) * b + steps[i]
  }

  /** The running count: the sum for the levels above, carried down one level, and the links walked here. */
  function Scaled(steps: seq<nat>, b: nat, i: nat, walked: nat): (e: nat)
    requires i <= |steps|
  {
    Horner(steps, b, i) * b + walked
  }

  lemma {:induction false} HornerAgrees(steps: seq<nat>, steps': seq<nat>, b: nat, i: nat)
    requires |steps| == |steps'| && i <= |steps|
    requires forall j | i <= j < |steps| :: steps[j] == steps'[j]
    ensures Horner(steps, b, i) == Horner(steps', b, i)
    decreases |steps| - i
  {
    if i < |steps| {
      HornerAgrees(steps, steps', b, i + 1);
    }
  }

  /** Recording one more level turns the running count into the sum from that level up. */
  lemma HornerExtended(steps: seq<nat>, steps': seq<nat>, b: nat, i: nat)
    requires i < |steps| && |steps'| == |steps| && forall j | i < j < |steps| :: steps[j] == steps'[j]
    ensures Horner(steps', b, i) == Scaled(steps, b, i + 1, steps'[i])
  {
    HornerAgrees(steps, steps', b, i + 1);
  }

  lemma PathExtended<K(!new)>(s: Shared<K>, key: K, stops: seq<nat>, steps: seq<nat>, stops': seq<nat>, steps': seq<nat>, i: nat)
    requires i < s.maxHeight && IsPath(s, key, stops, steps, i + 1)
    requires |stops'| == |stops| && |steps'| == |steps|
    requires forall j | i < j < |stops| :: stops'[j] == stops[j] && steps'[j] == steps[j]
    requires IsPred(s, stops'[i], i, key) && Walks(s, i, StartAt(stops, i), stops'[i], steps'[i])
    ensures IsPath(s, key, stops', steps', i)
  {
    forall j | i <= j < s.maxHeight
      ensures PathAt(s, key, stops', steps', j)
    {
      assert StartAt(stops', j) == StartAt(stops, j);
      assert j > i ==> PathAt(s, key, stops, steps, j);
    }
  }

  /** What EstimateCount's loop keeps. */
  ghost predicate Estimating<K(!new)>(s: Shared<K>, key: K, b: nat, x: nat, level: nat, stops: seq<nat>, steps: seq<nat>, walked: nat, count: nat) {
    && level < s.maxHeight
    && OnLevel(s, x, level)
    && (x != HEAD ==> s.cmp(s.nodes[x].key, key) < 0)
    && IsPath(s, key, stops, steps, level + 1)
    && Walks(s, level, StartAt(stops, level), x, walked)
    && count == Wrap64(Scaled(steps, b, level + 1, walked))
  }

  lemma EstimatingLoad<K(!new)>(s: Shared<K>, key: K, b: nat, x: nat, level: nat, stops: seq<nat>, steps: seq<nat>, walked: nat, count: nat)
    requires Inv(s) && Estimating(s, key, b, x, level, stops, steps, walked, count)
    ensures x < |s.nodes| && level < |s.nodes[x].next|
    ensures IsSuccessor(s, x, level, s.nodes[x].next[level])
  {
    assert LevelOk(s, level);
  }

  lemma EstimateWalks<K(!new)>(s: Shared<K>, key: K, b: nat, x: nat, level: nat, stops: seq<nat>, steps: seq<nat>, walked: nat, count: nat)
    requires Inv(s) && Estimating(s, key, b, x, level, stops, steps, walked, count)
    requires x < |s.nodes| && level < |s.nodes[x].next|
    requires IsSuccessor(s, x, level, s.nodes[x].next[level])
    requires var next := s.nodes[x].next[level]; next.To? && s.cmp(s.nodes[next.addr].key, key) < 0
    ensures Estimating(s, key, b, s.nodes[x].next[level].addr, level, stops, steps, walked + 1, Add64(count, 1))
    ensures After(s, s.nodes[x].next[level].addr) < After(s, x)
  {
    var t := s.nodes[x].next[level].addr;
    AfterShrinks(s, x, t);
    WalksFurther(s, level, StartAt(stops, level), x, walked, t);
    AddWraps(Scaled(steps, b, level + 1, walked), 1);
  }

  lemma EstimateStops<K(!new)>(s: Shared<K>, key: K, b: nat, x: nat, level: nat, stops: seq<nat>, steps: seq<nat>, walked: nat, count: nat)
    returns (stops': seq<nat>, steps': seq<nat>)
    requires Inv(s) && Estimating(s, key, b, x, level, stops, steps, walked, count)
    requires x < |s.nodes| && level < |s.nodes[x].next|
    requires var next := s.nodes[x].next[level];
             next.To? && next.addr < |s.nodes| ==> s.cmp(s.nodes[next.addr].key, key) >= 0
    ensures IsPath(s, key, stops', steps', level)
    ensures count == Wrap64(Horner(steps', b, level))
    ensures level > 0 ==> Estimating(s, key, b, x, level - 1, stops', steps', 0, Mul64(count, b))
  {
    StopIsPred(s, x, level, key);
    stops', steps' := stops[level := x], steps[level := walked];
    PathExtended(s, key, stops, steps, stops', steps', level);
    HornerExtended(steps, steps', b, level);
    MulWraps(Horner(steps', b, level), b);
  }

  /** The linked nodes in key order. */
  ghost predicate IsOrder<K(!new)>(s: Shared<K>, order: seq<nat>) {
    && Sorted(s, order)
    && forall m: nat :: m in order <==> InLevel(s, m, 0)
  }

  /** n is the r-th node in key order; the head comes before the first. */
  ghost predicate HasRank(order: seq<nat>, n: nat, r: nat) {
    if n == HEAD then r == 0 else 1 <= r <= |order| && order[r - 1] == n
  }

  /** The p-th node reaches level i exactly when b^i divides p. */
  ghost predicate Perfect<K>(s: Shared<K>, order: seq<nat>, b: nat) {
    b > 0 && forall k: nat, i: nat | k < |order| && i < s.maxHeight :: InLevel(s, order[k], i) <==> (k + 1) % Pow(b, i) == 0
  }

  lemma RankExists<K(!new)>(s: Shared<K>, order: seq<nat>, n: nat) returns (r: nat)
    requires IsOrder(s, order) && OnLevel(s, n, 0)
    ensures HasRank(order, n, r)
  {
    if n == HEAD {
      r := 0;
    } else {
      assert n in order;
      var k :| 0 <= k < |order| && order[k] == n;
      r := k + 1;
    }
  }

  /** Rank order is key order. */
  lemma RankOrder<K(!new)>(s: Shared<K>, order: seq<nat>, n: nat, r: nat, m: nat, q: nat)
    requires TotalOrder(s.cmp) && Sorted(s, order) && HasRank(order, n, r) && HasRank(order, m, q)
    requires n < |s.nodes| && m < |s.nodes|
    ensures Before(s, n, m) <==> r < q
  {
    if n != HEAD && m != HEAD {
      Transitive(s.cmp, s.nodes[n].key, s.nodes[m].key, s.nodes[n].key);
    }
  }

  lemma PerfectStep<K(!new)>(s: Shared<K>, order: seq<nat>, b: nat, i: nat, x: nat, r: nat, t: nat, q: nat)
    requires TotalOrder(s.cmp) && IsOrder(s, order) && Perfect(s, order, b) && i < s.maxHeight
    requires OnLevel(s, x, i) && x < |s.nodes| && IsSuccessor(s, x, i, To(t))
    requires HasRank(order, x, r) && HasRank(order, t, q)
    ensures q == r + Pow(b, i)
  {
    var p := Pow(b, i);
    RankOrder(s, order, x, r, t, q);
    assert r % p == 0 by {
      if r > 0 { assert InLevel(s, order[r - 1], i); } else { DivModUnique(0, p, 0, 0); }
    }
    assert InLevel(s, order[q - 1], i);
    Multiples(r, q, p);
    if q > r + p {
      var y := order[r + p - 1];
      assert y in order && InLevel(s, y, i);
      RankOrder(s, order, x, r, y, r + p);
      RankOrder(s, order, y, r + p, t, q);
      assert false;
    }
  }

  /** A walk along level i climbs at least one rank a link, and exactly b^i on a perfect list. */
  lemma {:induction false} WalkClimbs<K(!new)>(s: Shared<K>, order: seq<nat>, b: nat, i: nat, x: nat, r: nat, y: nat, q: nat, d: nat)
    requires Inv(s) && IsOrder(s, order) && i < s.maxHeight
    requires OnLevel(s, x, i) && HasRank(order, x, r) && HasRank(order, y, q) && Walks(s, i, x, y, d)
    ensures d <= q - r
    ensures Perfect(s, order, b) ==> d * Pow(b, i) == q - r
    decreases d
  {
    if d == 0 {
      SameRank(s, order, x, r, q);
    } else {
      assert LevelOk(s, i);
      var t := s.nodes[x].next[i].addr;
      assert IsSuccessor(s, x, i, To(t));
      var rt := RankExists(s, order, t);
      WalkClimbs(s, order, b, i, t, rt, y, q, d - 1);
      RankOrder(s, order, x, r, t, rt);
      if Perfect(s, order, b) {
        PerfectStep(s, order, b, i, x, r, t, rt);
        assert (d - 1) * Pow(b, i) + Pow(b, i) == d * Pow(b, i);
      }
    }
  }

  lemma SameRank<K(!new)>(s: Shared<K>, order: seq<nat>, n: nat, r: nat, q: nat)
    requires TotalOrder(s.cmp) && Sorted(s, order) && n < |s.nodes| && HasRank(order, n, r) && HasRank(order, n, q)
    ensures r == q
  {
    RankOrder(s, order, n, r, n, q);
    RankOrder(s, order, n, q, n, r);
    if n != HEAD { Transitive(s.cmp, s.nodes[n].key, s.nodes[n].key, s.nodes[n].key); }
  }

  function RankBefore(ranks: seq<nat>, i: nat): (r: nat)
    requires i < |ranks|
  {
    if i + 1 == |ranks| then 0 else ranks[i + 1]
  }

  /** Level i is left at least as many ranks further on as it took links. */
  predicate Climbs(steps: seq<nat>, ranks: seq<nat>, i: nat)
    requires i < |steps| == |ranks|
  {
    steps[i] <= ranks[i] - RankBefore(ranks, i)
  }

  predicate ClimbsExactly(steps: seq<nat>, ranks: seq<nat>, b: nat, i: nat)
    requires i < |steps| == |ranks|
  {
    steps[i] * Pow(b, i) == ranks[i] - RankBefore(ranks, i)
  }

  /** The ranks of the search path's stops climb level by level as the walks do. */
  lemma PathRanks<K(!new)>(s: Shared<K>, order: seq<nat>, b: nat, key: K, stops: seq<nat>, steps: seq<nat>) returns (ranks: seq<nat>)
    requires Inv(s) && IsOrder(s, order) && b > 0 && IsPath(s, key, stops, steps, 0)
    ensures |ranks| == |stops|
    ensures forall i | 0 <= i < |ranks| :: HasRank(order, stops[i], ranks[i])
    ensures forall i: nat | i < |ranks| :: Climbs(steps, ranks, i)
    ensures Perfect(s, order, b) ==> forall i: nat | i < |ranks| :: ClimbsExactly(steps, ranks, b, i)
  {
    ranks := [];
    for k := 0 to |stops|
      invariant |ranks| == k
      invariant forall i | 0 <= i < k :: HasRank(order, stops[i], ranks[i])
    {
      assert PathAt(s, key, stops, steps, k);
      var r := RankExists(s, order, stops[k]);
      ranks := ranks + [r];
    }
    forall i: nat | i < |ranks|
      ensures Climbs(steps, ranks, i)
      ensures Perfect(s, order, b) ==> ClimbsExactly(steps, ranks, b, i)
    {
      assert PathAt(s, key, stops, steps, i);
      assert i + 1 < |stops| ==> PathAt(s, key, stops, steps, i + 1);
      WalkClimbs(s, order, b, i, StartAt(stops, i), RankBefore(ranks, i), stops[i], ranks[i], steps[i]);
    }
  }

  /** Every link of level i counts b^i, so the sum from level i up is at most the rank reached
      times b^(levels above). */
  lemma {:induction false} HornerIsBounded(steps: seq<nat>, ranks: seq<nat>, b: nat, i: nat)
    requires |steps| == |ranks| && b > 0 && i < |steps|
    requires forall j: nat | j < |ranks| :: Climbs(steps, ranks, j)
    ensures Horner(steps, b, i) <= ranks[i] * Pow(b, |steps| - 1 - i)
    decreases |steps| - i
  {
    assert Climbs(steps, ranks, i) && Pow(b, 0) == 1;
    if i + 1 < |steps| {
      HornerIsBounded(steps, ranks, b, i + 1);
      HornerBound(Horner(steps, b, i + 1), b, steps[i], ranks[i + 1], ranks[i], Pow(b, |steps| - 2 - i));
    }
  }

  lemma {:induction false} HornerIsExact(steps: seq<nat>, ranks: seq<nat>, b: nat, i: nat)
    requires |steps| == |ranks| && b > 0 && i < |steps|
    requires forall j: nat | j < |ranks| :: ClimbsExactly(steps, ranks, b, j)
    ensures Horner(steps, b, i) * Pow(b, i) == ranks[i]
    decreases |steps| - i
  {
    assert ClimbsExactly(steps, ranks, b, i);
    if i + 1 < |steps| {
      HornerIsExact(steps, ranks, b, i + 1);
      assert Pow(b, i + 1) == b * Pow(b, i);
      HornerExact(Horner(steps, b, i + 1), b, steps[i], ranks[i + 1], ranks[i], Pow(b, i));
    }
  }

  lemma HornerBound(above: nat, b: nat, links: nat, r: nat, q: nat, w: nat)
    requires above <= r * w && links <= q - r && b > 0 && w > 0
    ensures above * b + links <= q * (b * w)
  {
    assert above * b <= (r * w) * b == r * (b * w);
    assert b * w >= 1;
    assert links <= (q - r) * (b * w);
    assert r * (b * w) + (q - r) * (b * w) == q * (b * w);
  }

  lemma HornerExact(above: nat, b: nat, links: nat, r: nat, q: nat, w: nat)
    requires above * (b * w) == r && links * w == q - r
    ensures (above * b + links) * w == q
  {
    assert (above * b + links) * w == (above * b) * w + links * w;
    assert (above * b) * w == above * (b * w);
  }

  /** Exactly the first r keys of the list are below `key`. */
  ghost predicate IsRankOf<K>(s: Shared<K>, order: seq<nat>, key: K, r: nat)
    requires Sorted(s, order)
  {
    && r <= |order|
    && forall k | 0 <= k < |order| :: s.cmp(s.nodes[order[k]].key, key) < 0 <==> k < r
  }

  /** The keys below `key` come first, so counting them finds its rank. */
  lemma RankOfKeyExists<K(!new)>(s: Shared<K>, order: seq<nat>, key: K) returns (r: nat)
    requires TotalOrder(s.cmp) && Sorted(s, order)
    ensures IsRankOf(s, order, key, r)
  {
    r := 0;
    while r < |order| && s.cmp(s.nodes[order[r]].key, key) < 0
      invariant r <= |order|
      invariant forall k | 0 <= k < r :: s.cmp(s.nodes[order[k]].key, key) < 0
    {
      r := r + 1;
    }
    forall k | r < k < |order| ensures s.cmp(s.nodes[order[k]].key, key) >= 0 {
      Transitive(s.cmp, s.nodes[order[r]].key, s.nodes[order[k]].key, key);
    }
  }

  lemma PredHasRank<K(!new)>(s: Shared<K>, order: seq<nat>, p: nat, key: K, r: nat)
    requires TotalOrder(s.cmp) && 0 < |s.nodes| && IsOrder(s, order) && IsRankOf(s, order, key, r) && IsPred(s, p, 0, key)
    ensures HasRank(order, p, r)
  {
    var q := RankExists(s, order, p);
    assert q > 0 ==> q - 1 < r;
    if r > 0 {
      var m := order[r - 1];
      assert m in order;
      RankOrder(s, order, p, q, m, r);
    }
  }

  lemma EstimateRanks<K(!new)>(s: Shared<K>, b: nat, key: K, stops: seq<nat>, steps: seq<nat>, r: nat) returns (ranks: seq<nat>)
    requires Inv(s) && b > 0 && IsPath(s, key, stops, steps, 0) && IsRankOf(s, Level(s, 0), key, r)
    ensures |ranks| == |steps| == s.maxHeight && 0 < |ranks| && ranks[0] == r
    ensures forall i: nat | i < |ranks| :: Climbs(steps, ranks, i)
    ensures Perfect(s, Level(s, 0), b) ==> forall i: nat | i < |ranks| :: ClimbsExactly(steps, ranks, b, i)
  {
    var order := Level(s, 0);
    assert PathAt(s, key, stops, steps, 0);
    PredHasRank(s, order, stops[0], key, r);
    ranks := PathRanks(s, order, b, key, stops, steps);
    SameRank(s, order, stops[0], r, ranks[0]);
  }

  /** The sum EstimateCount forms is at most rank * b^(H-1), and on a perfect list it is exactly
      the number of keys below the target. */
  lemma EstimateIsRank<K(!new)>(s: Shared<K>, b: nat, key: K, stops: seq<nat>, steps: seq<nat>, r: nat)
    requires Inv(s) && b > 0 && IsPath(s, key, stops, steps, 0) && IsRankOf(s, Level(s, 0), key, r)
    ensures Horner(steps, b, 0) <= r * Pow(b, s.maxHeight - 1)
    ensures Perfect(s, Level(s, 0), b) ==> Horner(steps, b, 0) == r
  {
    var ranks := EstimateRanks(s, b, key, stops, steps, r);
    HornerIsBounded(steps, ranks, b, 0);
    if Perfect(s, Level(s, 0), b) {
      HornerIsExact(steps, ranks, b, 0);
      assert Pow(b, 0) == 1;
    }
  }

  /** Some number of keys is below `key`, and this is what the answer says of it, as long as the sum fits
      in 64 bits. */
  ghost predicate Estimates<K(!new)>(s: Shared<K>, b: nat, key: K, count: nat)
    requires Inv(s)
  {
    && (exists r: nat :: IsRankOf(s, Level(s, 0), key, r))
    && forall r: nat | IsRankOf(s, Level(s, 0), key, r) ::
      && (r * Pow(b, s.maxHeight - 1) < U64 ==> count <= r * Pow(b, s.maxHeight - 1))
      && (Perfect(s, Level(s, 0), b) && r < U64 ==> count == r)
  }

  lemma PathEstimates<K(!new)>(s: Shared<K>, b: nat, key: K, stops: seq<nat>, steps: seq<nat>, count: nat)
    requires Inv(s) && b > 0 && IsPath(s, key, stops, steps, 0) && count == Wrap64(Horner(steps, b, 0))
    ensures Estimates(s, b, key, count)
    ensures forall stops', steps' | IsPath(s, key, stops', steps', 0) :: count == Wrap64(Horner(steps', b, 0))
  {
    var rank := RankOfKeyExists(s, Level(s, 0), key);
    forall stops', steps' | IsPath(s, key, stops', steps', 0) ensures steps' == steps {
      PathIsUnique(s, key, stops, steps, stops', steps');
    }
    forall r: nat | IsRankOf(s, Level(s, 0), key, r)
      ensures r * Pow(b, s.maxHeight - 1) < U64 ==> count <= r * Pow(b, s.maxHeight - 1)
      ensures Perfect(s, Level(s, 0), b) && r < U64 ==> count == r
    {
      EstimateIsRank(s, b, key, stops, steps, r);
    }
  }
}
