/** Lock-free readers interleaved, one load at a time, with the writer's stores. */
module SkipListReaders {
  import opened Comparators
  import opened SkipListMemory

  /** What later stores never take back. */
  ghost predicate Grows<K>(s: Shared<K>, s': Shared<K>) {
    && s.cmp == s'.cmp
    && s.kMaxHeight == s'.kMaxHeight
    && s.maxHeight <= s'.maxHeight
    && |s.nodes| <= |s'.nodes|
    && (forall n: nat | n < |s.nodes| :: s.nodes[n].key == s'.nodes[n].key)
    && (forall n: nat, i: nat | InLevel(s, n, i) :: InLevel(s', n, i))
  }

  ghost predicate WriterStep<K(!new)>(s: Shared<K>, s': Shared<K>) {
    || (exists key: K, prev: seq<nat> :: Raise(s, s', key, prev))
    || Allocate(s, s')
    || SetOwn(s, s')
    || Publish(s, s')
    || Finish(s, s')
  }

  /** After every single store of Insert the invariant holds, and no reader's knowledge is undone. */
  lemma WriterStepKeepsInv<K(!new)>(s: Shared<K>, s': Shared<K>)
    requires Inv(s) && WriterStep(s, s')
    ensures Inv(s') && Grows(s, s')
  {
    WriterStepGrows(s, s');
    if Allocate(s, s') {
      AllocateKeepsInv(s, s');
    } else if SetOwn(s, s') {
      SetOwnKeepsInv(s, s');
    } else if Publish(s, s') {
      PublishKeepsInv(s, s');
    } else if Finish(s, s') {
      FinishKeepsInv(s, s');
    } else {
      var key: K, prev: seq<nat> :| Raise(s, s', key, prev);
      RaiseKeepsInv(s, s', key, prev);
    }
  }

  lemma WriterStepGrows<K(!new)>(s: Shared<K>, s': Shared<K>)
    requires Inv(s) && WriterStep(s, s')
    ensures Grows(s, s')
  {
    if SetOwn(s, s') {
      var i := s.writer.level;
      SetLinkShape(s, s', |s.nodes| - 1, i, s.nodes[s.writer.prev[i]].next[i]);
    } else if Publish(s, s') {
      SetLinkShape(s, s', s.writer.prev[s.writer.level], s.writer.level, To(|s.nodes| - 1));
    }
  }

  datatype Reader =
    | Starting
    | Searching(x: nat, level: nat, lastBigger: Link)
    | Done(result: Link)

  /** The first node not before `key`, among those linked at level 0. */
  ghost predicate IsFirstNotBefore<K(!new)>(s: Shared<K>, key: K, link: Link) {
    match link
    case Uninit => false
    case Null => forall m: nat | InLevel(s, m, 0) :: s.cmp(s.nodes[m].key, key) < 0
    case To(t) =>
      && InLevel(s, t, 0)
      && s.cmp(s.nodes[t].key, key) >= 0
      && forall m: nat | InLevel(s, m, 0) && s.cmp(s.nodes[m].key, key) >= 0 :: !Before(s, m, t)
  }

  ghost predicate ReaderOk<K>(s: Shared<K>, r: Reader, key: K) {
    r.Searching? ==>
      && r.level < s.kMaxHeight
      && OnLevel(s, r.x, r.level)
      && (r.x != HEAD ==> s.cmp(s.nodes[r.x].key, key) < 0)
      && (r.lastBigger.To? ==>
            && HEAD < r.lastBigger.addr < |s.nodes|
            && s.cmp(s.nodes[r.lastBigger.addr].key, key) > 0)
      && !r.lastBigger.Uninit?
  }

  /** One turn of the search loop: the load `x->Next(level)` and the decision taken on it. */
  function ReadStep<K>(s: Shared<K>, r: Reader, key: K): (r': Reader)
    requires r.Searching? && r.x < |s.nodes| && r.level < |s.nodes[r.x].next|
    requires var next := s.nodes[r.x].next[r.level]; !next.Uninit? && (next.To? ==> next.addr < |s.nodes|)
  {
    var next := s.nodes[r.x].next[r.level];
    var cmp := if next.Null? || next == r.lastBigger then 1 else s.cmp(s.nodes[next.addr].key, key);
    if cmp == 0 || (cmp > 0 && r.level == 0) then Done(next)
    else if cmp < 0 then r.(x := next.addr)
    else Searching(r.x, r.level - 1, next)
  }

  lemma ReadIsSafe<K(!new)>(s: Shared<K>, r: Reader, key: K)
    requires Inv(s) && ReaderOk(s, r, key) && r.Searching?
    ensures r.x < |s.nodes| && r.level < |s.nodes[r.x].next|
    ensures IsSuccessor(s, r.x, r.level, s.nodes[r.x].next[r.level])
  {
    assert LevelOk(s, r.level);
  }

  /** The same decision with the comparison always made. */
  function ComparingStep<K>(s: Shared<K>, r: Reader, key: K): (r': Reader)
    requires r.Searching? && r.x < |s.nodes| && r.level < |s.nodes[r.x].next|
    requires var next := s.nodes[r.x].next[r.level]; !next.Uninit? && (next.To? ==> next.addr < |s.nodes|)
  {
    match s.nodes[r.x].next[r.level]
    case Null => if r.level == 0 then Done(Null) else Searching(r.x, r.level - 1, Null)
    case To(t) =>
      if s.cmp(s.nodes[t].key, key) < 0 then r.(x := t)
      else if s.cmp(s.nodes[t].key, key) == 0 || r.level == 0 then Done(To(t))
      else Searching(r.x, r.level - 1, To(t))
  }

  /** Skipping the comparison with `last_bigger` decides nothing differently. */
  lemma ShortcutDecidesTheSame<K(!new)>(s: Shared<K>, r: Reader, key: K)
    requires Inv(s) && ReaderOk(s, r, key) && r.Searching? && LoadIsDefined(s, r)
    ensures ReadStep(s, r, key) == ComparingStep(s, r, key)
  {
    if r.lastBigger.To? {
      assert s.cmp(s.nodes[r.lastBigger.addr].key, key) > 0;
    }
  }

  lemma ReadStepKeepsOk<K(!new)>(s: Shared<K>, r: Reader, key: K)
    requires Inv(s) && ReaderOk(s, r, key) && r.Searching?
    requires r.x < |s.nodes| && r.level < |s.nodes[r.x].next|
    requires IsSuccessor(s, r.x, r.level, s.nodes[r.x].next[r.level])
    ensures ReaderOk(s, ReadStep(s, r, key), key)
    ensures ReadStep(s, r, key).Done? ==> IsFirstNotBefore(s, key, ReadStep(s, r, key).result)
  {
    var next := s.nodes[r.x].next[r.level];
    if ReadStep(s, r, key).Done? {
      forall m: nat | InLevel(s, m, 0) && next.To? && s.cmp(s.nodes[m].key, key) >= 0
        ensures !Before(s, m, next.addr)
      {
        Transitive(s.cmp, s.nodes[m].key, key, s.nodes[next.addr].key);
        if r.x != HEAD { Transitive(s.cmp, s.nodes[r.x].key, key, s.nodes[m].key); }
        Transitive(s.cmp, s.nodes[m].key, s.nodes[next.addr].key, key);
      }
      forall m: nat | InLevel(s, m, 0) && next.Null? ensures s.cmp(s.nodes[m].key, key) < 0 {
        if r.x != HEAD { Transitive(s.cmp, s.nodes[r.x].key, key, s.nodes[m].key); }
        Transitive(s.cmp, s.nodes[m].key, key, key);
      }
    }
  }

  lemma ReaderOkIsStable<K>(s: Shared<K>, s': Shared<K>, r: Reader, key: K)
    requires ReaderOk(s, r, key) && Grows(s, s')
    ensures ReaderOk(s', r, key)
  {
  }

  /** Either the writer performs one store, or the reader one load. */
  ghost predicate FindNext<K(!new)>(s: Shared<K>, r: Reader, s': Shared<K>, r': Reader, key: K) {
    || (WriterStep(s, s') && r' == r)
    || (s' == s && r.Starting? && StartSearch(s, r'))
    || (s' == s && r.Searching? && LoadIsDefined(s, r) && r' == ReadStep(s, r, key))
  }

  /** `max_height_` is read once; any value it has held so far may come back, the newest included. */
  ghost predicate StartSearch<K>(s: Shared<K>, r': Reader) {
    r'.Searching? && r'.x == HEAD && r'.level + 1 <= s.maxHeight && r'.lastBigger == Null
  }

  ghost predicate LoadIsDefined<K>(s: Shared<K>, r: Reader)
    requires r.Searching?
  {
    && r.x < |s.nodes| && r.level < |s.nodes[r.x].next|
    && var next := s.nodes[r.x].next[r.level];
    && !next.Uninit? && (next.To? ==> next.addr < |s.nodes|)
  }

  ghost predicate IsFindRun<K(!new)>(memory: seq<Shared<K>>, reader: seq<Reader>, key: K) {
    && 0 < |memory| == |reader|
    && Inv(memory[0])
    && reader[0] == Starting
    && forall j | 0 <= j < |memory| - 1 :: FindNext(memory[j], reader[j], memory[j + 1], reader[j + 1], key)
  }

  lemma FindNextKeepsOk<K(!new)>(s: Shared<K>, r: Reader, s': Shared<K>, r': Reader, key: K)
    requires Inv(s) && ReaderOk(s, r, key) && FindNext(s, r, s', r', key)
    ensures Inv(s') && ReaderOk(s', r', key) && Grows(s, s')
    ensures r'.Done? && !r.Done? ==> s' == s && IsFirstNotBefore(s, key, r'.result)
  {
    if WriterStep(s, s') && r' == r {
      WriterStepKeepsInv(s, s');
      ReaderOkIsStable(s, s', r, key);
    } else if r.Searching? {
      ReadIsSafe(s, r, key);
      ReadStepKeepsOk(s, r, key);
    }
  }

  lemma {:induction false} FindRunOk<K(!new)>(memory: seq<Shared<K>>, reader: seq<Reader>, key: K, j: nat)
    requires IsFindRun(memory, reader, key) && j < |memory|
    ensures Inv(memory[j]) && ReaderOk(memory[j], reader[j], key)
  {
    if j > 0 {
      FindRunOk(memory, reader, key, j - 1);
      FindNextKeepsOk(memory[j - 1], reader[j - 1], memory[j], reader[j], key);
    }
  }

  /** In every interleaving with Insert's stores, the search answers with the first node not
      before the target at the instant of its own last load; the load it is about to make is
      never of an uninitialised link, and the two sortedness asserts around it hold. */
  lemma FindIsLinearizable<K(!new)>(memory: seq<Shared<K>>, reader: seq<Reader>, key: K, j: nat)
    requires IsFindRun(memory, reader, key) && j + 1 < |memory|
    ensures reader[j].Searching? ==>
              var s, x := memory[j], reader[j].x;
              && LoadIsDefined(s, reader[j])
              && (var next := s.nodes[x].next[reader[j].level];
                  x == HEAD || next.Null? || s.cmp(s.nodes[x].key, s.nodes[next.addr].key) < 0)
              && (x == HEAD || s.cmp(s.nodes[x].key, key) < 0)
    ensures !reader[j].Done? && reader[j + 1].Done? ==>
              memory[j + 1] == memory[j] && IsFirstNotBefore(memory[j], key, reader[j + 1].result)
  {
    FindRunOk(memory, reader, key, j);
    FindNextKeepsOk(memory[j], reader[j], memory[j + 1], reader[j + 1], key);
    if reader[j].Searching? {
      ReadIsSafe(memory[j], reader[j], key);
    }
  }

  /** The test Contains makes on the node the search returned. */
  predicate Found<K>(s: Shared<K>, key: K, link: Link)
    requires link.To? ==> link.addr < |s.nodes|
  {
    link.To? && s.cmp(key, s.nodes[link.addr].key) == 0
  }

  /** Contains answers whether an equal key was linked at the instant of the search's last load,
      even though it compares keys only afterwards, at state `k`. */
  lemma ContainsIsLinearizable<K(!new)>(memory: seq<Shared<K>>, reader: seq<Reader>, key: K, j: nat, k: nat)
    requires IsFindRun(memory, reader, key) && j < k < |memory|
    requires !reader[j].Done? && reader[j + 1].Done?
    ensures reader[k] == reader[j + 1]
    ensures reader[k].result.To? ==> reader[k].result.addr < |memory[k].nodes|
    ensures Found(memory[k], key, reader[k].result) <==>
              exists n: nat :: InLevel(memory[j], n, 0) && memory[j].cmp(memory[j].nodes[n].key, key) == 0
  {
    var s, link := memory[j], reader[j + 1].result;
    FindIsLinearizable(memory, reader, key, j);
    GrowsAlong(memory, reader, key, j, k);
    DoneStays(memory, reader, key, j + 1, k);
    FindRunOk(memory, reader, key, j);
    if link.To? {
      Transitive(s.cmp, key, s.nodes[link.addr].key, key);
    }
    forall n: nat | InLevel(s, n, 0) && s.cmp(s.nodes[n].key, key) == 0 ensures link == To(n) {
      assert link.To? && !Before(s, n, link.addr);
      var t := link.addr;
      Transitive(s.cmp, s.nodes[n].key, key, s.nodes[t].key);
      EqualKeyIsSameNode(s, n, t, key);
    }
  }

  lemma EqualKeyIsSameNode<K(!new)>(s: Shared<K>, n: nat, t: nat, key: K)
    requires Shape(s) && HEAD < n < |s.nodes| && HEAD < t < |s.nodes|
    requires s.cmp(s.nodes[n].key, key) == 0 && s.cmp(s.nodes[t].key, key) >= 0
    requires !Before(s, n, t)
    ensures n == t
  {
    Transitive(s.cmp, s.nodes[n].key, key, s.nodes[t].key);
    Transitive(s.cmp, key, s.nodes[t].key, key);
    if n != t {
      BeforeTotal(s, n, t);
    }
  }

  lemma {:induction false} GrowsAlong<K(!new)>(memory: seq<Shared<K>>, reader: seq<Reader>, key: K, j: nat, k: nat)
    requires IsFindRun(memory, reader, key) && j <= k < |memory|
    ensures Grows(memory[j], memory[k])
  {
    if j < k {
      GrowsAlong(memory, reader, key, j, k - 1);
      FindRunOk(memory, reader, key, k - 1);
      FindNextKeepsOk(memory[k - 1], reader[k - 1], memory[k], reader[k], key);
    }
  }

  lemma {:induction false} DoneStays<K(!new)>(memory: seq<Shared<K>>, reader: seq<Reader>, key: K, j: nat, k: nat)
    requires IsFindRun(memory, reader, key) && j <= k < |memory| && reader[j].Done?
    ensures reader[k] == reader[j]
  {
    if j < k {
      DoneStays(memory, reader, key, j, k - 1);
      assert FindNext(memory[k - 1], reader[k - 1], memory[k], reader[k], key);
    }
  }

  // ---- the scan: SeekToFirst, then Next until the iterator is invalid

  datatype Scan = Scan(visited: seq<nat>, ended: bool)

  function Position(c: Scan): (n: nat) {
    if c.visited == [] then HEAD else c.visited[|c.visited| - 1]
  }

  ghost predicate ScanStep<K>(s: Shared<K>, c: Scan, c': Scan) {
    && !c.ended
    && Position(c) < |s.nodes| && 0 < |s.nodes[Position(c)].next|
    && match s.nodes[Position(c)].next[0]
       case Uninit => false
       case Null => c' == c.(ended := true)
       case To(t) => c' == c.(visited := c.visited + [t])
  }

  ghost predicate ScanNext<K(!new)>(s: Shared<K>, c: Scan, s': Shared<K>, c': Scan) {
    || (WriterStep(s, s') && c' == c)
    || (s' == s && ScanStep(s, c, c'))
  }

  ghost predicate IsScanRun<K(!new)>(memory: seq<Shared<K>>, scan: seq<Scan>) {
    && 0 < |memory| == |scan|
    && Inv(memory[0])
    && scan[0] == Scan([], false)
    && forall j | 0 <= j < |memory| - 1 :: ScanNext(memory[j], scan[j], memory[j + 1], scan[j + 1])
  }

  /** Every node present at the start and not after the current position has been visited. */
  ghost predicate ScanOk<K(!new)>(start: Shared<K>, s: Shared<K>, c: Scan) {
    && (forall i | 0 <= i < |c.visited| :: InLevel(s, c.visited[i], 0))
    && (forall i, j | 0 <= i < j < |c.visited| :: s.cmp(s.nodes[c.visited[i]].key, s.nodes[c.visited[j]].key) < 0)
    && (forall m: nat | InLevel(start, m, 0) && m < |s.nodes| && (c.ended || !Before(s, Position(c), m)) :: m in c.visited)
  }

  /** What was visited comes before the node the scan goes on to. */
  lemma VisitedComeBefore<K(!new)>(start: Shared<K>, s: Shared<K>, c: Scan, t: nat, i: nat)
    requires Shape(s) && ScanOk(start, s, c) && i < |c.visited| && t < |s.nodes| && Before(s, Position(c), t)
    ensures c.visited[i] < |s.nodes| && s.cmp(s.nodes[c.visited[i]].key, s.nodes[t].key) < 0
  {
    assert InLevel(s, c.visited[i], 0);
    Transitive(s.cmp, s.nodes[c.visited[i]].key, s.nodes[Position(c)].key, s.nodes[t].key);
  }

  /** A node not after the next one is that one, or was passed already. */
  lemma NothingIsSkipped<K(!new)>(start: Shared<K>, s: Shared<K>, c: Scan, t: nat, m: nat)
    requires Shape(s) && ScanOk(start, s, c) && !c.ended && Position(c) < |s.nodes| && IsSuccessor(s, Position(c), 0, To(t))
    requires InLevel(start, m, 0) && InLevel(s, m, 0) && !Before(s, t, m)
    ensures m == t || m in c.visited
  {
    if m != t && Before(s, Position(c), m) {
      BeforeTotal(s, m, t);
    }
  }

  lemma ScanStepKeepsOk<K(!new)>(start: Shared<K>, s: Shared<K>, c: Scan, c': Scan)
    requires Inv(s) && Grows(start, s) && ScanOk(start, s, c) && ScanStep(s, c, c')
    ensures ScanOk(start, s, c')
  {
    var cur := Position(c);
    assert LevelOk(s, 0) && OnLevel(s, cur, 0);
    assert IsSuccessor(s, cur, 0, s.nodes[cur].next[0]);
    match s.nodes[cur].next[0]
    case Null =>
    case To(t) =>
      forall i: nat | i < |c.visited| ensures s.cmp(s.nodes[c.visited[i]].key, s.nodes[t].key) < 0 {
        VisitedComeBefore(start, s, c, t, i);
      }
      forall m: nat | InLevel(start, m, 0) && !Before(s, t, m) ensures m in c'.visited {
        NothingIsSkipped(start, s, c, t, m);
        assert c'.visited[|c.visited|] == t;
      }
  }

  lemma {:induction false} ScanRunOk<K(!new)>(memory: seq<Shared<K>>, scan: seq<Scan>, j: nat)
    requires IsScanRun(memory, scan) && j < |memory|
    ensures Inv(memory[j]) && Grows(memory[0], memory[j]) && ScanOk(memory[0], memory[j], scan[j])
  {
    if j > 0 {
      ScanRunOk(memory, scan, j - 1);
      assert ScanNext(memory[j - 1], scan[j - 1], memory[j], scan[j]);
      if memory[j] == memory[j - 1] && ScanStep(memory[j - 1], scan[j - 1], scan[j]) {
        ScanStepKeepsOk(memory[0], memory[j - 1], scan[j - 1], scan[j]);
      } else {
        WriterStepKeepsInv(memory[j - 1], memory[j]);
      }
    }
  }

  /** A scan running against concurrent inserts visits strictly increasing keys, only nodes that
      had been linked by then, and, once it ends, every node that was linked when it began. */
  lemma ScanIsConsistent<K(!new)>(memory: seq<Shared<K>>, scan: seq<Scan>, j: nat)
    requires IsScanRun(memory, scan) && j < |memory|
    ensures forall a, b | 0 <= a < b < |scan[j].visited| ::
              scan[j].visited[a] < |memory[j].nodes| && scan[j].visited[b] < |memory[j].nodes| &&
              memory[j].cmp(memory[j].nodes[scan[j].visited[a]].key, memory[j].nodes[scan[j].visited[b]].key) < 0
    ensures forall n | n in scan[j].visited :: InLevel(memory[j], n, 0)
    ensures scan[j].ended ==> forall m: nat | InLevel(memory[0], m, 0) :: m in scan[j].visited
  {
    ScanRunOk(memory, scan, j);
  }

  /** The scan never comes to an uninitialised link: until it has ended it can always take its next step. */
  lemma ScanIsNeverStuck<K(!new)>(memory: seq<Shared<K>>, scan: seq<Scan>, j: nat)
    requires IsScanRun(memory, scan) && j < |memory|
    ensures !scan[j].ended ==> exists c' :: ScanStep(memory[j], scan[j], c')
  {
    ScanRunOk(memory, scan, j);
    var s, c := memory[j], scan[j];
    var n := Position(c);
    assert OnLevel(s, n, 0) && LevelOk(s, 0) && IsSuccessor(s, n, 0, s.nodes[n].next[0]);
    if !c.ended {
      var c' := if s.nodes[n].next[0].Null? then c.(ended := true) else c.(visited := c.visited + [s.nodes[n].next[0].addr]);
      assert ScanStep(s, c, c');
    }
  }
}
