/** Lock-free backward moves interleaved, one load at a time, with the writer's stores: FindLessThan and
    FindLast, and so the iterator's Prev and SeekToLast, and SeekForPrev, which is made of them. */
module SkipListBackward {
  import opened Comparators
  import opened SkipListMemory
  import opened SkipListLevels
  import opened SkipListReaders

  /** What the search wants the last node before: a key, as FindLessThan, or the end, as FindLast. */
  datatype Goal<K> = Below(key: K) | End

  datatype Descent =
    | Ready
    | Descending(x: nat, level: nat, lastNotAfter: Link)
    | Stopped(at: nat)

  predicate KeyIsBelow<K>(s: Shared<K>, goal: Goal<K>, n: nat)
    requires n < |s.nodes|
  {
    goal.Below? ==> s.cmp(s.nodes[n].key, goal.key) < 0
  }

  /** The last node below the goal, the head if there is none. */
  ghost predicate IsLast<K(!new)>(s: Shared<K>, goal: Goal<K>, n: nat) {
    && n < |s.nodes| && OnLevel(s, n, 0)
    && (n != HEAD ==> KeyIsBelow(s, goal, n))
    && forall m: nat | InLevel(s, m, 0) && KeyIsBelow(s, goal, m) :: !Before(s, n, m)
  }

  ghost predicate DescentOk<K>(s: Shared<K>, d: Descent, goal: Goal<K>) {
    d.Descending? ==>
      && d.level < s.kMaxHeight
      && OnLevel(s, d.x, d.level)
      && (d.x != HEAD ==> KeyIsBelow(s, goal, d.x))
      && (goal.Below? && d.lastNotAfter.To? ==>
            d.lastNotAfter.addr < |s.nodes| && s.cmp(s.nodes[d.lastNotAfter.addr].key, goal.key) >= 0)
  }

  ghost predicate CanLoad<K>(s: Shared<K>, d: Descent)
    requires d.Descending?
  {
    && d.x < |s.nodes| && d.level < |s.nodes[d.x].next|
    && var next := s.nodes[d.x].next[d.level];
    && !next.Uninit? && (next.To? ==> next.addr < |s.nodes|)
  }

  /** One turn of the loop: the load `x->Next(level)` and the decision taken on it. */
  function DescendStep<K>(s: Shared<K>, d: Descent, goal: Goal<K>): (d': Descent)
    requires d.Descending? && d.x < |s.nodes| && d.level < |s.nodes[d.x].next|
    requires var next := s.nodes[d.x].next[d.level]; !next.Uninit? && (next.To? ==> next.addr < |s.nodes|)
  {
    var next := s.nodes[d.x].next[d.level];
    if next.To? && (goal.End? || next != d.lastNotAfter) && KeyIsBelow(s, goal, next.addr) then d.(x := next.addr)
    else if d.level == 0 then Stopped(d.x)
    else Descending(d.x, d.level - 1, next)
  }

  ghost predicate DescentMoves<K>(s: Shared<K>, d: Descent, d': Descent, goal: Goal<K>) {
    match d
    case Ready => d'.Descending? && d'.x == HEAD && d'.level + 1 <= s.maxHeight && d'.lastNotAfter == Null
    case Descending(_, _, _) => CanLoad(s, d) && d' == DescendStep(s, d, goal)
    case Stopped(_) => false
  }

  lemma DescentCanLoad<K(!new)>(s: Shared<K>, d: Descent, goal: Goal<K>)
    requires Inv(s) && DescentOk(s, d, goal) && d.Descending?
    ensures CanLoad(s, d) && IsSuccessor(s, d.x, d.level, s.nodes[d.x].next[d.level])
  {
    assert LevelOk(s, d.level);
  }

  /** The node a walk on the bottom level stops at is the last one below the goal. */
  lemma StopIsLast<K(!new)>(s: Shared<K>, d: Descent, goal: Goal<K>)
    requires Inv(s) && DescentOk(s, d, goal) && d.Descending? && d.level == 0 && CanLoad(s, d)
    requires DescendStep(s, d, goal).Stopped?
    ensures IsLast(s, goal, d.x)
  {
    DescentCanLoad(s, d, goal);
    if goal.Below? {
      StopIsPred(s, d.x, 0, goal.key);
    }
  }

  lemma MoveKeepsDescent<K(!new)>(s: Shared<K>, d: Descent, d': Descent, goal: Goal<K>)
    requires Inv(s) && DescentOk(s, d, goal) && DescentMoves(s, d, d', goal)
    ensures DescentOk(s, d', goal)
    ensures d'.Stopped? ==> IsLast(s, goal, d'.at)
  {
    if d.Descending? {
      DescentCanLoad(s, d, goal);
      if d'.Stopped? {
        StopIsLast(s, d, goal);
      }
    }
  }

  lemma DescentIsStable<K>(s: Shared<K>, s': Shared<K>, d: Descent, goal: Goal<K>)
    requires DescentOk(s, d, goal) && Grows(s, s')
    ensures DescentOk(s', d, goal)
  {
  }

  /** Either the writer performs one store, or the search one load. */
  ghost predicate DescentNext<K(!new)>(s: Shared<K>, d: Descent, s': Shared<K>, d': Descent, goal: Goal<K>) {
    || (WriterStep(s, s') && d' == d)
    || (s' == s && DescentMoves(s, d, d', goal))
  }

  ghost predicate DescentFollows<K(!new)>(memory: seq<Shared<K>>, descent: seq<Descent>, goal: Goal<K>, j: nat) {
    j + 1 < |memory| == |descent| ==> DescentNext(memory[j], descent[j], memory[j + 1], descent[j + 1], goal)
  }

  ghost predicate IsDescentRun<K(!new)>(memory: seq<Shared<K>>, descent: seq<Descent>, goal: Goal<K>) {
    && 0 < |memory| == |descent|
    && Inv(memory[0]) && descent[0] == Ready
    && forall j: nat :: DescentFollows(memory, descent, goal, j)
  }

  lemma DescentNextKeepsOk<K(!new)>(s: Shared<K>, d: Descent, s': Shared<K>, d': Descent, goal: Goal<K>)
    requires Inv(s) && DescentOk(s, d, goal) && DescentNext(s, d, s', d', goal)
    ensures Inv(s') && DescentOk(s', d', goal)
    ensures d'.Stopped? && !d.Stopped? ==> s' == s && IsLast(s, goal, d'.at)
  {
    if WriterStep(s, s') && d' == d {
      WriterStepKeepsInv(s, s');
      DescentIsStable(s, s', d, goal);
    } else {
      MoveKeepsDescent(s, d, d', goal);
    }
  }

  lemma {:induction false} DescentRunOk<K(!new)>(memory: seq<Shared<K>>, descent: seq<Descent>, goal: Goal<K>, j: nat)
    requires IsDescentRun(memory, descent, goal) && j < |memory|
    ensures Inv(memory[j]) && DescentOk(memory[j], descent[j], goal)
  {
    if j > 0 {
      DescentRunOk(memory, descent, goal, j - 1);
      assert DescentFollows(memory, descent, goal, j - 1);
      DescentNextKeepsOk(memory[j - 1], descent[j - 1], memory[j], descent[j], goal);
    }
  }

  /** In every interleaving with Insert's stores, FindLessThan answers with the last node below the key,
      and FindLast with the last node, at the instant of their own last load; every load on the way is
      defined, and the asserts around it hold. */
  lemma DescentIsLinearizable<K(!new)>(memory: seq<Shared<K>>, descent: seq<Descent>, goal: Goal<K>, j: nat)
    requires IsDescentRun(memory, descent, goal) && j + 1 < |memory|
    ensures descent[j].Descending? ==>
              var s, x := memory[j], descent[j].x;
              && CanLoad(s, descent[j])
              && (var next := s.nodes[x].next[descent[j].level];
                  x == HEAD || next.Null? || s.cmp(s.nodes[x].key, s.nodes[next.addr].key) < 0)
              && (x != HEAD ==> KeyIsBelow(s, goal, x))
    ensures !descent[j].Stopped? && descent[j + 1].Stopped? ==>
              memory[j + 1] == memory[j] && IsLast(memory[j], goal, descent[j + 1].at)
  {
    DescentRunOk(memory, descent, goal, j);
    assert DescentFollows(memory, descent, goal, j);
    DescentNextKeepsOk(memory[j], descent[j], memory[j + 1], descent[j + 1], goal);
    if descent[j].Descending? {
      DescentCanLoad(memory[j], descent[j], goal);
    }
  }

  // ---- SeekForPrev: Seek, SeekToLast if that went off the end, then Prev while past the target

  datatype Retreat<K> =
    | Ahead(r: Reader)
    | Behind(goal: Goal<K>, d: Descent)
    | Settled(node: Link)

  /** The last entry that does not come after the target. */
  ghost predicate IsLastNotAfter<K(!new)>(s: Shared<K>, target: K, node: Link) {
    match node
    case Uninit => false
    case Null => forall m: nat | InLevel(s, m, 0) :: s.cmp(s.nodes[m].key, target) > 0
    case To(t) =>
      && InLevel(s, t, 0) && s.cmp(s.nodes[t].key, target) <= 0
      && forall m: nat | InLevel(s, m, 0) && s.cmp(s.nodes[m].key, target) <= 0 :: !Before(s, t, m)
  }

  /** The test of the loop, on the node that a search has returned. */
  function Judged<K>(s: Shared<K>, target: K, n: nat): (c: Retreat<K>)
    requires n < |s.nodes|
  {
    if s.cmp(target, s.nodes[n].key) < 0 then Behind(Below(s.nodes[n].key), Ready) else Settled(To(n))
  }

  function AfterSeek<K>(s: Shared<K>, target: K, link: Link): (c: Retreat<K>)
    requires link.To? ==> link.addr < |s.nodes|
  {
    if link.To? then Judged(s, target, link.addr) else Behind(End, Ready)
  }

  function AfterDescent<K>(s: Shared<K>, target: K, n: nat): (c: Retreat<K>)
    requires n < |s.nodes|
  {
    if n == HEAD then Settled(Null) else Judged(s, target, n)
  }

  ghost predicate SeekMoves<K(!new)>(s: Shared<K>, target: K, r: Reader, r': Reader) {
    || (r.Starting? && StartSearch(s, r'))
    || (r.Searching? && LoadIsDefined(s, r) && r' == ReadStep(s, r, target))
  }

  ghost predicate SeekGoesOn<K(!new)>(s: Shared<K>, target: K, r: Reader, r': Reader, c': Retreat<K>) {
    && SeekMoves(s, target, r, r')
    && if r'.Done? then (r'.result.To? ==> r'.result.addr < |s.nodes|) && c' == AfterSeek(s, target, r'.result)
       else c' == Ahead(r')
  }

  ghost predicate DescentGoesOn<K>(s: Shared<K>, target: K, goal: Goal<K>, d: Descent, d': Descent, c': Retreat<K>) {
    && DescentMoves(s, d, d', goal)
    && if d'.Stopped? then d'.at < |s.nodes| && c' == AfterDescent(s, target, d'.at) else c' == Behind(goal, d')
  }

  ghost predicate RetreatMoves<K(!new)>(s: Shared<K>, target: K, c: Retreat<K>, c': Retreat<K>) {
    match c
    case Ahead(r) => exists r' :: SeekGoesOn(s, target, r, r', c')
    case Behind(goal, d) => exists d' :: DescentGoesOn(s, target, goal, d, d', c')
    case Settled(_) => false
  }

  ghost predicate RetreatNext<K(!new)>(s: Shared<K>, c: Retreat<K>, s': Shared<K>, c': Retreat<K>, target: K) {
    || (WriterStep(s, s') && c' == c)
    || (s' == s && RetreatMoves(s, target, c, c'))
  }

  /** Every goal that the loop sets itself lies past the target. */
  ghost predicate RetreatOk<K>(s: Shared<K>, c: Retreat<K>, target: K) {
    match c
    case Ahead(r) => ReaderOk(s, r, target) && !r.Done?
    case Behind(goal, d) => DescentOk(s, d, goal) && !d.Stopped? && (goal.Below? ==> s.cmp(target, goal.key) < 0)
    case Settled(_) => true
  }

  /** The node Seek found is the answer when its key is the target's. */
  lemma EqualIsLastNotAfter<K(!new)>(s: Shared<K>, target: K, t: nat)
    requires Inv(s) && IsFirstNotBefore(s, target, To(t)) && s.cmp(target, s.nodes[t].key) >= 0
    ensures IsLastNotAfter(s, target, To(t))
  {
    Transitive(s.cmp, target, s.nodes[t].key, target);
    forall m: nat | InLevel(s, m, 0) && s.cmp(s.nodes[m].key, target) <= 0 ensures !Before(s, t, m) {
      Transitive(s.cmp, s.nodes[m].key, target, s.nodes[t].key);
    }
  }

  /** The last node below a goal past the target is the answer when it is not past the target itself. */
  lemma LastBelowIsLastNotAfter<K(!new)>(s: Shared<K>, target: K, goal: Goal<K>, n: nat)
    requires Inv(s) && IsLast(s, goal, n) && (goal.Below? ==> s.cmp(target, goal.key) < 0)
    requires n != HEAD ==> s.cmp(target, s.nodes[n].key) >= 0
    ensures IsLastNotAfter(s, target, if n == HEAD then Null else To(n))
  {
    forall m: nat | InLevel(s, m, 0) && s.cmp(s.nodes[m].key, target) <= 0 ensures !Before(s, n, m) {
      if goal.Below? { Transitive(s.cmp, s.nodes[m].key, target, goal.key); }
      assert KeyIsBelow(s, goal, m);
    }
    if n != HEAD {
      Transitive(s.cmp, target, s.nodes[n].key, target);
    }
  }

  lemma MoveKeepsRetreat<K(!new)>(s: Shared<K>, c: Retreat<K>, c': Retreat<K>, target: K)
    requires Inv(s) && RetreatOk(s, c, target) && RetreatMoves(s, target, c, c')
    ensures RetreatOk(s, c', target)
    ensures c'.Settled? ==> IsLastNotAfter(s, target, c'.node)
  {
    match c
    case Ahead(r) =>
      var r' :| SeekGoesOn(s, target, r, r', c');
      if r.Searching? {
        ReadIsSafe(s, r, target);
        ReadStepKeepsOk(s, r, target);
      }
      if c'.Settled? { EqualIsLastNotAfter(s, target, r'.result.addr); }
    case Behind(goal, d) =>
      var d' :| DescentGoesOn(s, target, goal, d, d', c');
      MoveKeepsDescent(s, d, d', goal);
      if c'.Settled? { LastBelowIsLastNotAfter(s, target, goal, d'.at); }
  }

  ghost predicate RetreatFollows<K(!new)>(memory: seq<Shared<K>>, retreat: seq<Retreat<K>>, target: K, j: nat) {
    j + 1 < |memory| == |retreat| ==> RetreatNext(memory[j], retreat[j], memory[j + 1], retreat[j + 1], target)
  }

  ghost predicate IsRetreatRun<K(!new)>(memory: seq<Shared<K>>, retreat: seq<Retreat<K>>, target: K) {
    && 0 < |memory| == |retreat|
    && Inv(memory[0]) && retreat[0] == Ahead(Starting)
    && forall j: nat :: RetreatFollows(memory, retreat, target, j)
  }

  lemma RetreatNextKeepsOk<K(!new)>(s: Shared<K>, c: Retreat<K>, s': Shared<K>, c': Retreat<K>, target: K)
    requires Inv(s) && RetreatOk(s, c, target) && RetreatNext(s, c, s', c', target)
    ensures Inv(s') && RetreatOk(s', c', target)
    ensures c'.Settled? && !c.Settled? ==> s' == s && IsLastNotAfter(s, target, c'.node)
  {
    if WriterStep(s, s') && c' == c {
      WriterStepKeepsInv(s, s');
    } else {
      MoveKeepsRetreat(s, c, c', target);
    }
  }

  lemma {:induction false} RetreatRunOk<K(!new)>(memory: seq<Shared<K>>, retreat: seq<Retreat<K>>, target: K, j: nat)
    requires IsRetreatRun(memory, retreat, target) && j < |memory|
    ensures Inv(memory[j]) && RetreatOk(memory[j], retreat[j], target)
  {
    if j > 0 {
      RetreatRunOk(memory, retreat, target, j - 1);
      assert RetreatFollows(memory, retreat, target, j - 1);
      RetreatNextKeepsOk(memory[j - 1], retreat[j - 1], memory[j], retreat[j], target);
    }
  }

  /** In every interleaving with Insert's stores, SeekForPrev ends on the last entry that was not after
      the target at the instant of its own last load, however far inserts have sent it back and forth. */
  lemma SeekForPrevIsLinearizable<K(!new)>(memory: seq<Shared<K>>, retreat: seq<Retreat<K>>, target: K, j: nat)
    requires IsRetreatRun(memory, retreat, target) && j + 1 < |memory|
    requires !retreat[j].Settled? && retreat[j + 1].Settled?
    ensures memory[j + 1] == memory[j] && IsLastNotAfter(memory[j], target, retreat[j + 1].node)
  {
    RetreatRunOk(memory, retreat, target, j);
    assert RetreatFollows(memory, retreat, target, j);
    RetreatNextKeepsOk(memory[j], retreat[j], memory[j + 1], retreat[j + 1], target);
  }

  /** Until it has settled, SeekForPrev can always take its next step: every load is defined. */
  lemma SeekForPrevIsNeverStuck<K(!new)>(memory: seq<Shared<K>>, retreat: seq<Retreat<K>>, target: K, j: nat)
    requires IsRetreatRun(memory, retreat, target) && j < |memory|
    ensures !retreat[j].Settled? ==> exists c' :: RetreatMoves(memory[j], target, retreat[j], c')
  {
    RetreatRunOk(memory, retreat, target, j);
    var s := memory[j];
    match retreat[j]
    case Ahead(r) =>
      var r' := if r.Starting? then Searching(HEAD, 0, Null) else SearchGoesOn(s, r, target);
      var c' := if r'.Done? then AfterSeek(s, target, r'.result) else Ahead(r');
      assert SeekGoesOn(s, target, r, r', c');
      assert RetreatMoves(s, target, retreat[j], c');
    case Behind(goal, d) =>
      if d.Descending? { DescentCanLoad(s, d, goal); }
      var d' := if d.Ready? then Descending(HEAD, 0, Null) else DescendStep(s, d, goal);
      MoveKeepsDescent(s, d, d', goal);
      var c' := if d'.Stopped? then AfterDescent(s, target, d'.at) else Behind(goal, d');
      assert DescentGoesOn(s, target, goal, d, d', c');
      assert RetreatMoves(s, target, retreat[j], c');
    case Settled(_) =>
  }

  ghost function SearchGoesOn<K(!new)>(s: Shared<K>, r: Reader, target: K): (r': Reader)
    requires Inv(s) && ReaderOk(s, r, target) && r.Searching?
    ensures LoadIsDefined(s, r) && r' == ReadStep(s, r, target)
    ensures r'.Done? && r'.result.To? ==> r'.result.addr < |s.nodes|
  {
    ReadIsSafe(s, r, target);
    ReadStep(s, r, target)
  }
}
