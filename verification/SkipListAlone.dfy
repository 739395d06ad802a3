/** Readers that the writer leaves alone come to an end. Each function below follows a reader load by load
    while the memory stays as it is; that it is well defined says that the loads run out. */
module SkipListAlone {
  import opened Comparators
  import opened SkipListMemory
  import opened SkipListLevels
  import opened SkipListReaders
  import opened SkipListBackward

  /** How far a search is from its end: it has yet to start, then the level, then the nodes to come. */
  function Phase(r: Reader): (n: nat) {
    if r.Starting? then 1 else 0
  }

  function LevelOf(r: Reader): (n: nat) {
    if r.Searching? then r.level else 0
  }

  ghost function ToCome<K(!new)>(s: Shared<K>, r: Reader): (ms: set<nat>) {
    if r.Searching? && r.x < |s.nodes| then After(s, r.x) else {}
  }

  /** The next state of the search. */
  ghost function NextRead<K(!new)>(s: Shared<K>, r: Reader, key: K): (r': Reader)
    requires Inv(s) && ReaderOk(s, r, key) && !r.Done?
    ensures FindNext(s, r, s, r', key) && SeekMoves(s, key, r, r') && ReaderOk(s, r', key)
    ensures r'.Done? ==> IsFirstNotBefore(s, key, r'.result)
    ensures !r'.Done? ==>
              || Phase(r') < Phase(r)
              || (Phase(r') == Phase(r) && LevelOf(r') < LevelOf(r))
              || (Phase(r') == Phase(r) && LevelOf(r') == LevelOf(r) && ToCome(s, r') < ToCome(s, r))
  {
    if r.Starting? then Searching(HEAD, s.maxHeight - 1, Null)
    else
      ReadIsSafe(s, r, key);
      ReadStepKeepsOk(s, r, key);
      var r' := ReadStep(s, r, key);
      if r'.Searching? && r'.level == r.level then AfterShrinks(s, r.x, r'.x); r' else r'
  }

  /** The search of FindGreaterOrEqual ends, with the first node not before the key. */
  ghost function FindAlone<K(!new)>(s: Shared<K>, r: Reader, key: K): (r': Reader)
    requires Inv(s) && ReaderOk(s, r, key) && !r.Done?
    ensures r'.Done? && IsFirstNotBefore(s, key, r'.result)
    decreases Phase(r), LevelOf(r), ToCome(s, r)
  {
    var r' := NextRead(s, r, key);
    if r'.Done? then r' else FindAlone(s, r', key)
  }

  function DescentPhase(d: Descent): (n: nat) {
    if d.Ready? then 1 else 0
  }

  function DescentLevel(d: Descent): (n: nat) {
    if d.Descending? then d.level else 0
  }

  ghost function DescentToCome<K(!new)>(s: Shared<K>, d: Descent): (ms: set<nat>) {
    if d.Descending? && d.x < |s.nodes| then After(s, d.x) else {}
  }

  /** The next state of a descent. */
  ghost function NextDescent<K(!new)>(s: Shared<K>, d: Descent, goal: Goal<K>): (d': Descent)
    requires Inv(s) && DescentOk(s, d, goal) && !d.Stopped?
    ensures DescentMoves(s, d, d', goal) && DescentOk(s, d', goal) && (d'.Stopped? ==> IsLast(s, goal, d'.at))
    ensures !d'.Stopped? ==>
              || DescentPhase(d') < DescentPhase(d)
              || (DescentPhase(d') == DescentPhase(d) && DescentLevel(d') < DescentLevel(d))
              || (DescentPhase(d') == DescentPhase(d) && DescentLevel(d') == DescentLevel(d)
                  && DescentToCome(s, d') < DescentToCome(s, d))
  {
    if d.Ready? then
      var d' := Descending(HEAD, s.maxHeight - 1, Null);
      MoveKeepsDescent(s, d, d', goal);
      d'
    else
      DescentCanLoad(s, d, goal);
      var d' := DescendStep(s, d, goal);
      MoveKeepsDescent(s, d, d', goal);
      if d'.Descending? && d'.level == d.level then AfterShrinks(s, d.x, d'.x); d' else d'
  }

  /** FindLessThan and FindLast end, with the last node below the goal. */
  ghost function DescentAlone<K(!new)>(s: Shared<K>, d: Descent, goal: Goal<K>): (d': Descent)
    requires Inv(s) && DescentOk(s, d, goal) && !d.Stopped?
    ensures d'.Stopped? && IsLast(s, goal, d'.at)
    decreases DescentPhase(d), DescentLevel(d), DescentToCome(s, d)
  {
    var d' := NextDescent(s, d, goal);
    if d'.Stopped? then d' else DescentAlone(s, d', goal)
  }

  /** A scan ends, having visited every node there is. */
  ghost function ScanAlone<K(!new)>(s: Shared<K>, c: Scan): (c': Scan)
    requires Inv(s) && ScanOk(s, s, c) && !c.ended && OnLevel(s, Position(c), 0)
    ensures c'.ended && ScanOk(s, s, c') && forall m: nat | InLevel(s, m, 0) :: m in c'.visited
    decreases if Position(c) < |s.nodes| then After(s, Position(c)) else {}
  {
    var n := Position(c);
    assert LevelOk(s, 0) && IsSuccessor(s, n, 0, s.nodes[n].next[0]);
    var c' := if s.nodes[n].next[0].Null? then c.(ended := true) else c.(visited := c.visited + [s.nodes[n].next[0].addr]);
    assert ScanStep(s, c, c');
    ScanStepKeepsOk(s, s, c, c');
    if c'.ended then c' else AfterShrinks(s, n, Position(c')); ScanAlone(s, c')
  }

  /** The nodes below a goal of SeekForPrev's loop. */
  ghost function Under<K(!new)>(s: Shared<K>, goal: Goal<K>): (ms: set<nat>) {
    set m: nat | HEAD < m < |s.nodes| && KeyIsBelow(s, goal, m)
  }

  lemma FewerUnder<K(!new)>(s: Shared<K>, goal: Goal<K>, n: nat)
    requires Shape(s) && HEAD < n < |s.nodes| && KeyIsBelow(s, goal, n)
    ensures Under(s, Below(s.nodes[n].key)) < Under(s, goal)
  {
    var lower := Below(s.nodes[n].key);
    Transitive(s.cmp, s.nodes[n].key, s.nodes[n].key, s.nodes[n].key);
    forall m: nat | m in Under(s, lower) ensures m in Under(s, goal) {
      if goal.Below? { Transitive(s.cmp, s.nodes[m].key, s.nodes[n].key, goal.key); }
    }
    assert n in Under(s, goal) && n !in Under(s, lower);
  }

  /** SeekForPrev, left alone, ends on the last entry that is not after the target: each turn of its loop
      sets a lower goal. */
  ghost function RetreatAlone<K(!new)>(s: Shared<K>, c: Retreat<K>, target: K): (c': Retreat<K>)
    requires Inv(s) && RetreatOk(s, c, target) && !c.Settled?
    ensures c'.Settled? && IsLastNotAfter(s, target, c'.node)
    decreases if c.Ahead? then 1 else 0, if c.Behind? then Under(s, c.goal) else {},
              if c.Ahead? then Phase(c.r) else DescentPhase(c.d),
              if c.Ahead? then LevelOf(c.r) else DescentLevel(c.d),
              if c.Ahead? then ToCome(s, c.r) else DescentToCome(s, c.d)
  {
    match c
    case Ahead(r) =>
      var r' := NextRead(s, r, target);
      var c' := if r'.Done? then AfterSeek(s, target, r'.result) else Ahead(r');
      assert SeekGoesOn(s, target, r, r', c') && RetreatMoves(s, target, c, c');
      MoveKeepsRetreat(s, c, c', target);
      if c'.Settled? then c' else RetreatAlone(s, c', target)
    case Behind(goal, d) =>
      var d' := NextDescent(s, d, goal);
      var c' := if d'.Stopped? then AfterDescent(s, target, d'.at) else Behind(goal, d');
      assert DescentGoesOn(s, target, goal, d, d', c') && RetreatMoves(s, target, c, c');
      MoveKeepsRetreat(s, c, c', target);
      if c'.Settled? then c'
      else if d'.Stopped? then FewerUnder(s, goal, d'.at); RetreatAlone(s, c', target)
      else RetreatAlone(s, c', target)
  }
}
