/** A run of the C worker pool in which a post wakes nobody. */
module ThrdPoolMissedPost {
  import opened Counting
  import opened Links
  import opened Options
  import opened ThrdPool
  import opened ThrdPoolPosts

  /** A pool of one worker and one client. */
  function Pair(p: Pool, h: History, spinOwner: Option<nat>, mutex: Option<nat>, worker: Pc, client: Pc): (s: State) {
    State(p, h, spinOwner, mutex, 1, false, [worker, client])
  }

  /** One step of the worker, that wakes nobody. */
  lemma WorkerMoves(s: State, pc: Pc, pc': Pc, p': Pool, spinOwner': Option<nat>, mutex': Option<nat>)
    requires s == Pair(s.p, s.h, s.spinOwner, s.mutex, pc, Idle)
    requires Safe(s.p, pc) && Control(s, pc, pc') && p' == Stored(s.p, pc, pc') && Recorded(s.h, pc) == s.h
    requires !HoldsMutex(pc) && HoldsMutex(pc') ==> s.mutex == None
    requires mutex' == OwnerAfter(HoldsMutex(pc), HoldsMutex(pc'), s.mutex, 0)
    requires spinOwner' == OwnerAfter(HoldsSpin(pc), HoldsSpin(pc'), s.spinOwner, 0)
    requires !pc.Post? && !pc.Term? && !pc'.Join?
    ensures Next(s, Pair(p', s.h, spinOwner', mutex', pc', Idle))
  {
    assert s.threads[0 := pc'] == [pc', Idle];
    assert Step(s, Pair(p', s.h, spinOwner', mutex', pc', Idle), 0, pc');
  }

  /** One step of the client, while the worker is awake. */
  lemma ClientMoves(p: Pool, h: History, spinOwner: Option<nat>, pc: Pc, pc': Pc, p': Pool, h': History, spinOwner': Option<nat>)
    requires Safe(p, pc) && Control(Pair(p, h, spinOwner, None, Get(GetMutex), pc), pc, pc')
    requires p' == Stored(p, pc, pc') && h' == Recorded(h, pc)
    requires spinOwner' == OwnerAfter(HoldsSpin(pc), HoldsSpin(pc'), spinOwner, 1)
    requires (pc.Idle? || pc.Post?) && (pc'.Idle? || pc'.Post?)
    ensures Next(Pair(p, h, spinOwner, None, Get(GetMutex), pc), Pair(p', h', spinOwner', None, Get(GetMutex), pc'))
  {
    var s := Pair(p, h, spinOwner, None, Get(GetMutex), pc);
    assert s.threads[1 := pc'] == [Get(GetMutex), pc'];
    assert Step(s, Pair(p', h', spinOwner', None, Get(GetMutex), pc'), 1, pc');
  }

  lemma ClientPosts(p: Pool, h: History, spinOwner: Option<nat>, at: PostPc, at': PostPc, p': Pool, h': History, spinOwner': Option<nat>)
    requires Safe(p, Post(at, false)) && PostControl(p, at, at')
    requires p' == Stored(p, Post(at, false), Post(at', false)) && h' == Recorded(h, Post(at, false))
    requires spinOwner' == OwnerAfter(HoldsSpin(Post(at, false)), HoldsSpin(Post(at', false)), spinOwner, 1)
    ensures Next(Pair(p, h, spinOwner, None, Get(GetMutex), Post(at, false)),
                 Pair(p', h', spinOwner', None, Get(GetMutex), Post(at', false)))
  {
    ClientMoves(p, h, spinOwner, Post(at, false), Post(at', false), p', h', spinOwner');
  }

  /** From s to s', by steps. */
  ghost predicate Leads(s: State, run: seq<State>, s': State) {
    && 0 < |run| && run[0] == s && run[|run| - 1] == s'
    && forall j: nat :: Follows(run, j)
  }

  lemma LeadsOn(s: State, a: seq<State>, m: State, b: seq<State>, s': State)
    requires Leads(s, a, m) && Leads(m, b, s')
    ensures Leads(s, a + b[1..], s')
  {
    var run := a + b[1..];
    forall j: nat ensures Follows(run, j) {
      if j < |a| - 1 {
        assert Follows(a, j);
      } else {
        assert Follows(b, j - (|a| - 1));
      }
    }
  }

  /** The worker finds the queue empty and is about to take the mutex. */
  lemma WorkerFindsNothing(p: Pool, h: History) returns (run: seq<State>)
    requires p.mem == map[Head(0) := None] && !p.spin && !p.quit
    ensures Leads(Pair(p, h, None, None, WorkQuit, Idle), run, Pair(p, h, None, None, Get(GetMutex), Idle))
  {
    var q := p.(spin := true);
    run := [Pair(p, h, None, None, WorkQuit, Idle), Pair(p, h, None, None, Pop(PopTas, false), Idle),
            Pair(q, h, Some(0), None, Pop(PopTest, false), Idle), Pair(q, h, Some(0), None, Pop(PopUnlock(None), false), Idle),
            Pair(p, h, None, None, Get(GetMutex), Idle)];
    forall j: nat ensures Follows(run, j) {
      match j
      case 0 => WorkerMoves(run[0], WorkQuit, Pop(PopTas, false), p, None, None);
      case 1 => WorkerMoves(run[1], Pop(PopTas, false), Pop(PopTest, false), q, Some(0), None);
      case 2 => WorkerMoves(run[2], Pop(PopTest, false), Pop(PopUnlock(None), false), q, Some(0), None);
      case 3 => WorkerMoves(run[3], Pop(PopUnlock(None), false), Get(GetMutex), p, None, None);
      case _ =>
    }
  }

  lemma ClientEnters(p: Pool, h: History, p2: Pool) returns (run: seq<State>)
    requires !p.spin && !p.quit
    requires p2 == p.(live := p.live + {p.made}, made := p.made + 1, mem := p.mem[LinkOf(p.made) := None])
    ensures Leads(Pair(p, h, None, None, Get(GetMutex), Idle), run,
                  Pair(p2, h, None, None, Get(GetMutex), Post(PostTas(p.made), false)))
  {
    var k, w := p.made, Get(GetMutex);
    var p1 := p.(live := p.live + {k}, made := k + 1);
    run := [Pair(p, h, None, None, w, Idle), Pair(p, h, None, None, w, Post(PostQuit, false)),
            Pair(p, h, None, None, w, Post(PostMalloc, false)), Pair(p1, h, None, None, w, Post(PostClear(k), false)),
            Pair(p2, h, None, None, w, Post(PostTas(k), false))];
    forall j: nat ensures Follows(run, j) {
      match j
      case 0 => ClientMoves(p, h, None, Idle, Post(PostQuit, false), p, h, None);
      case 1 => ClientPosts(p, h, None, PostQuit, PostMalloc, p, h, None);
      case 2 => ClientPosts(p, h, None, PostMalloc, PostClear(k), p1, h, None);
      case 3 => ClientPosts(p1, h, None, PostClear(k), PostTas(k), p2, h, None);
      case _ =>
    }
  }

  /** The client's signal finds nobody asleep. */
  lemma ClientLeaves(p: Pool, h: History, k: nat, p': Pool, h': History) returns (run: seq<State>)
    requires !p.spin && p.tail == Head(0)
    requires p' == p.(mem := p.mem[Head(0) := Some(k)], tail := LinkOf(k)) && h' == h.(list := h.list + [k], pushed := h.pushed + [k])
    ensures Leads(Pair(p, h, None, None, Get(GetMutex), Post(PostTas(k), false)), run, Pair(p', h', None, None, Get(GetMutex), Idle))
  {
    var w := Get(GetMutex);
    var p3 := p.(spin := true);
    var p4 := p3.(mem := p3.mem[Head(0) := Some(k)]);
    var p5 := p4.(tail := LinkOf(k));
    run := [Pair(p, h, None, None, w, Post(PostTas(k), false)), Pair(p3, h, Some(1), None, w, Post(PostLink(k), false)),
            Pair(p4, h', Some(1), None, w, Post(PostTail(k), false)), Pair(p5, h', Some(1), None, w, Post(PostUnlock, false)),
            Pair(p', h', None, None, w, Post(PostSignal, false)), Pair(p', h', None, None, w, Idle)];
    forall j: nat ensures Follows(run, j) {
      match j
      case 0 => ClientPosts(p, h, None, PostTas(k), PostLink(k), p3, h, Some(1));
      case 1 => ClientPosts(p3, h, Some(1), PostLink(k), PostTail(k), p4, h', Some(1));
      case 2 => ClientPosts(p4, h', Some(1), PostTail(k), PostUnlock, p5, h', Some(1));
      case 3 => ClientPosts(p5, h', Some(1), PostUnlock, PostSignal, p', h', None);
      case 4 => ClientMoves(p', h', None, Post(PostSignal, false), Idle, p', h', None);
      case _ =>
    }
  }

  lemma WorkerFallsAsleep(p: Pool, h: History) returns (run: seq<State>)
    requires p.block
    ensures Leads(Pair(p, h, None, None, Get(GetMutex), Idle), run, Pair(p, h, None, None, Get(Asleep), Idle))
  {
    run := [Pair(p, h, None, None, Get(GetMutex), Idle), Pair(p, h, None, Some(0), Get(GetBlock), Idle),
            Pair(p, h, None, Some(0), Get(GetWait), Idle), Pair(p, h, None, None, Get(Asleep), Idle)];
    forall j: nat ensures Follows(run, j) {
      match j
      case 0 => WorkerMoves(run[0], Get(GetMutex), Get(GetBlock), p, None, Some(0));
      case 1 => WorkerMoves(run[1], Get(GetBlock), Get(GetWait), p, None, Some(0));
      case 2 => WorkerMoves(run[2], Get(GetWait), Get(Asleep), p, None, None);
      case _ =>
    }
  }

  /** A post's signal is not ordered with a worker's empty check and wait, so the pool can come to rest
      with a task queued, the only worker asleep, nobody in any call, and the pool not quitting. */
  lemma PostCanBeMissed() returns (run: seq<State>)
    ensures IsRun(run)
    ensures var s := run[|run| - 1]; s.h.list != [] && s.threads == [Get(Asleep), Idle] && s.p.block && !s.p.quit
    ensures !Conserved(run[|run| - 1])
  {
    var p, h := Pool(map[Head(0) := None], {}, 0, Head(0), false, true, false), History([], [], [], [], [], 0);
    var s0, s1 := Pair(p, h, None, None, WorkQuit, Idle), Pair(p, h, None, None, Get(GetMutex), Idle);
    var p2 := p.(live := {0}, made := 1, mem := p.mem[LinkOf(0) := None]);
    var p', h' := p2.(mem := p2.mem[Head(0) := Some(0)], tail := LinkOf(0)), h.(list := [0], pushed := [0]);
    var s2, s3 := Pair(p2, h, None, None, Get(GetMutex), Post(PostTas(0), false)), Pair(p', h', None, None, Get(GetMutex), Idle);
    var a := WorkerFindsNothing(p, h);
    var b := ClientEnters(p, h, p2);
    var c := ClientLeaves(p2, h, 0, p', h');
    var d := WorkerFallsAsleep(p', h');
    LeadsOn(s0, a, s1, b, s2);
    LeadsOn(s0, a + b[1..], s2, c, s3);
    run := a + b[1..] + c[1..];
    LeadsOn(s0, run, s3, d, Pair(p', h', None, None, Get(Asleep), Idle));
    run := run + d[1..];
    CountAtMost(run[|run| - 1].threads, Covers, 0);
    assert IsAsleep(run[|run| - 1].threads[0]);
  }
}
