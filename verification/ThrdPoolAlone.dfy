/** Calls of the C worker pool that run alone. From every state that keeps the invariant and has the locks
    free, a thread that nobody interferes with gets through its call, and this is all that the call does. */
module ThrdPoolAlone {
  import opened Links
  import opened Options
  import opened ThrdPool
  import opened ThrdPoolInvariant

  /** Thread t goes from pc to pc' and wakes nobody; the others are where they are in s. */
  function Moved(s: State, m: State, t: nat, pc: Pc, pc': Pc): (m': State)
    requires t < |s.threads| && Safe(m.p, pc)
  {
    State(Stored(m.p, pc, pc'), Recorded(m.h, pc),
          OwnerAfter(HoldsSpin(pc), HoldsSpin(pc'), m.spinOwner, t), OwnerAfter(HoldsMutex(pc), HoldsMutex(pc'), m.mutex, t),
          s.count, m.waiting || pc'.Join?, s.threads[t := pc'])
  }

  ghost predicate StepOf(path: seq<State>, t: nat, j: nat) {
    j + 1 < |path| ==> t < |path[j].threads| == |path[j + 1].threads| && Step(path[j], path[j + 1], t, path[j + 1].threads[t])
  }

  /** A path all of whose steps are t's, from s on. */
  ghost predicate Alone(s: State, path: seq<State>, t: nat) {
    0 < |path| && path[0] == s && forall j: nat :: StepOf(path, t, j)
  }

  function Now(path: seq<State>): (s: State)
    requires 0 < |path|
  {
    path[|path| - 1]
  }

  /** The path goes on by one step, to s'. */
  lemma GoTo(s: State, path: seq<State>, t: nat, pc': Pc, s': State) returns (path': seq<State>)
    requires Alone(s, path, t) && Step(Now(path), s', t, pc')
    ensures Alone(s, path', t) && Now(path') == s'
  {
    StepThreads(Now(path), s', t, pc');
    path' := path + [s'];
    forall j: nat ensures StepOf(path', t, j) {
      assert StepOf(path, t, j);
    }
  }

  /** One path after another. */
  lemma Joined(s: State, a: seq<State>, b: seq<State>, t: nat) returns (path: seq<State>)
    requires Alone(s, a, t) && Alone(Now(a), b, t)
    ensures Alone(s, path, t) && Now(path) == Now(b)
  {
    path := a + b[1..];
    forall j: nat ensures StepOf(path, t, j) {
      if j < |a| - 1 {
        assert StepOf(a, t, j);
      } else {
        assert StepOf(b, t, j - (|a| - 1));
      }
    }
  }

  predicate WakesOthers(pc: Pc) {
    (pc.Post? && pc.post.PostSignal?) || (pc.Term? && pc.term.TermBroadcast?)
  }

  /** The same for a step that wakes nobody. */
  lemma Go(s: State, path: seq<State>, t: nat, pc: Pc, pc': Pc) returns (path': seq<State>)
    requires Alone(s, path, t) && t < |s.threads| && Now(path).threads == s.threads[t := pc] && Now(path).count == s.count
    requires Safe(Now(path).p, pc) && Control(Now(path), pc, pc') && !WakesOthers(pc)
    requires !HoldsMutex(pc) && HoldsMutex(pc') ==> Now(path).mutex == None
    ensures Alone(s, path', t) && Now(path') == Moved(s, Now(path), t, pc, pc')
  {
    var s' := Moved(s, Now(path), t, pc, pc');
    assert Now(path).threads[t := pc'] == s'.threads;
    path' := GoTo(s, path, t, pc', s');
  }

  /** The path starts with the first access of a call. */
  lemma Start(s: State, t: nat, pc': Pc) returns (path: seq<State>)
    requires t < |s.threads| && Safe(s.p, s.threads[t]) && Control(s, s.threads[t], pc') && !WakesOthers(s.threads[t])
    requires !HoldsMutex(s.threads[t]) && HoldsMutex(pc') ==> s.mutex == None
    ensures Alone(s, path, t) && Now(path) == Moved(s, s, t, s.threads[t], pc')
  {
    assert Alone(s, [s], t);
    path := Go(s, [s], t, s.threads[t], pc');
  }

  /** The spinlock is free and nobody inside it, and the ends of the queue are as they should be. */
  ghost predicate AtRest(s: State) {
    && !s.p.spin && s.spinOwner == None
    && s.p.tail == Last(Head(0), s.h.list) && (s.p.tail.LinkOf? ==> s.p.tail.node in s.p.live)
    && Head(0) in s.p.mem && s.p.mem[Head(0)] == NodeAt(s.h.list, 0)
    && (s.h.list != [] ==>
          && s.h.list[0] in s.p.live && LinkOf(s.h.list[0]) in s.p.mem
          && s.p.mem[LinkOf(s.h.list[0])] == NodeAt(s.h.list, 1))
  }

  lemma FreeQueue(s: State, t: nat)
    requires Inv(s) && !s.p.spin && t < |s.threads|
    ensures AtRest(s)
  {
    MoverFinds(s, t);
    if s.p.tail.LinkOf? {
      ListIsLive(s.p, s.h, s.p.tail.node);
    }
    if s.h.list != [] {
      ListIsLive(s.p, s.h, s.h.list[0]);
      assert SlotAt(Head(0), s.h.list, 1) == LinkOf(s.h.list[0]);
    }
  }

  // ---- spinlock_lock

  /** Reading the word of the spinlock until it is clear. */
  predicate Spins(pc: Pc) {
    (pc.Pop? && pc.pop.PopSpin?) || (pc.Post? && pc.post.PostSpin?)
  }

  /** What a thread that spins does first inside the lock. */
  function Entered(pc: Pc): (pc': Pc)
    requires Spins(pc)
  {
    match pc
    case Pop(_, d) => Pop(PopTest, d)
    case Post(at, n) => Post(PostLink(at.node), n)
  }

  /** A thread that spins makes no exchange, and no store, as long as the word is set. */
  lemma SpinnerWaits(s: State, s': State, t: nat)
    requires Next(s, s') && t < |s.threads| && Spins(s.threads[t]) && s.p.spin
    ensures t < |s'.threads| && s'.threads[t] == s.threads[t]
    ensures forall pc' | Step(s, s', t, pc') :: s' == s
  {
    var u: nat, pc': Pc :| Step(s, s', u, pc');
    StepThreads(s, s', u, pc');
    assert Roused(if t == u then pc' else s.threads[t], s'.threads[t]);
    forall pc' | Step(s, s', t, pc') ensures s' == s {
      assert s.threads[t := pc'] == s.threads;
    }
  }

  /** Once the word is clear, it gets in. */
  lemma SpinEndsAlone(s: State, t: nat) returns (path: seq<State>)
    requires t < |s.threads| && Spins(s.threads[t]) && AtRest(s)
    ensures Alone(s, path, t)
    ensures Now(path) == s.(p := s.p.(spin := true), spinOwner := Some(t), threads := s.threads[t := Entered(s.threads[t])])
  {
    match s.threads[t]
    case Pop(_, d) =>
      path := Start(s, t, Pop(PopTas, d));
      path := Go(s, path, t, Pop(PopTas, d), Pop(PopTest, d));
    case Post(at, n) =>
      path := Start(s, t, Post(PostTas(at.node), n));
      path := Go(s, path, t, Post(PostTas(at.node), n), Post(PostLink(at.node), n));
  }

  // ---- thrdpool_post

  /** Who may start a call: a running task, or a client before thrdpool_waitdone. */
  predicate MayCall(s: State, t: nat, n: bool) {
    t < |s.threads| && s.threads[t] == Back(n) && (n || !s.waiting)
  }

  /** In a pool that has quit a post is refused, and changes nothing. */
  lemma PostRefusedAlone(s: State, t: nat, n: bool) returns (path: seq<State>)
    requires MayCall(s, t, n) && s.p.quit
    ensures Alone(s, path, t) && Now(path) == s
  {
    path := Start(s, t, Post(PostQuit, n));
    path := Go(s, path, t, Post(PostQuit, n), Back(n));
    assert s.threads[t := Back(n)] == s.threads;
  }

  /** One access of a post. */
  lemma GoPost(s: State, path: seq<State>, t: nat, n: bool, at: PostPc, at': PostPc) returns (path': seq<State>)
    requires Alone(s, path, t) && t < |s.threads| && Now(path).threads == s.threads[t := Post(at, n)] && Now(path).count == s.count
    requires Safe(Now(path).p, Post(at, n)) && PostControl(Now(path).p, at, at') && !at.PostMalloc? && !at.PostSignal?
    ensures Alone(s, path', t)
    ensures Now(path') == Now(path).(p := PostStore(Now(path).p, at), h := Recorded(Now(path).h, Post(at, n)),
                                     spinOwner := OwnerAfter(HoldsSpin(Post(at, n)), HoldsSpin(Post(at', n)), Now(path).spinOwner, t),
                                     threads := s.threads[t := Post(at', n)])
  {
    path' := Go(s, path, t, Post(at, n), Post(at', n));
  }

  lemma GoMalloc(s: State, path: seq<State>, t: nat, n: bool) returns (path': seq<State>)
    requires Alone(s, path, t) && t < |s.threads| && Now(path).threads == s.threads[t := Post(PostMalloc, n)] && Now(path).count == s.count
    ensures Alone(s, path', t)
    ensures var k := Now(path).p.made;
            Now(path') == Now(path).(p := Now(path).p.(live := Now(path).p.live + {k}, made := k + 1),
                                     threads := s.threads[t := Post(PostClear(k), n)])
  {
    path' := Go(s, path, t, Post(PostMalloc, n), Post(PostClear(Now(path).p.made), n));
  }

  lemma PostMakes(s: State, t: nat, n: bool) returns (path: seq<State>)
    requires MayCall(s, t, n) && !s.p.quit
    ensures Alone(s, path, t)
    ensures var k := s.p.made;
            Now(path) == s.(p := s.p.(live := s.p.live + {k}, made := k + 1), threads := s.threads[t := Post(PostClear(k), n)])
  {
    path := Start(s, t, Post(PostQuit, n));
    path := GoPost(s, path, t, n, PostQuit, PostMalloc);
    path := GoMalloc(s, path, t, n);
  }

  lemma PostEnters(s: State, t: nat, n: bool) returns (path: seq<State>)
    requires MayCall(s, t, n) && !s.p.quit
    ensures Alone(s, path, t)
    ensures var k := s.p.made;
            Now(path) == s.(p := s.p.(live := s.p.live + {k}, made := k + 1, mem := s.p.mem[LinkOf(k) := None]),
                            threads := s.threads[t := Post(PostTas(k), n)])
  {
    var k := s.p.made;
    path := PostMakes(s, t, n);
    path := GoPost(s, path, t, n, PostClear(k), PostTas(k));
  }

  lemma PostLinks(s: State, path: seq<State>, t: nat, n: bool, k: nat) returns (path': seq<State>)
    requires Alone(s, path, t) && t < |s.threads|
    requires var m := Now(path);
             && m.threads == s.threads[t := Post(PostTas(k), n)] && m.count == s.count
             && !m.p.spin && m.spinOwner == None && (m.p.tail.LinkOf? ==> m.p.tail.node in m.p.live)
    ensures Alone(s, path', t)
    ensures var m := Now(path);
            Now(path') == m.(p := m.p.(mem := m.p.mem[m.p.tail := Some(k)], tail := LinkOf(k)),
                             h := m.h.(list := m.h.list + [k], pushed := m.h.pushed + [k]),
                             threads := s.threads[t := Post(PostSignal, n)])
  {
    path' := GoPost(s, path, t, n, PostTas(k), PostLink(k));
    path' := GoPost(s, path', t, n, PostLink(k), PostTail(k));
    path' := GoPost(s, path', t, n, PostTail(k), PostUnlock);
    path' := GoPost(s, path', t, n, PostUnlock, PostSignal);
  }

  lemma Signalled(threads: seq<Pc>) returns (threads': seq<Pc>)
    ensures Signal(threads, threads')
  {
    threads' := threads;
    if !NoneAsleep(threads) {
      var w: nat :| w < |threads| && IsAsleep(threads[w]);
      threads' := threads[w := Get(Woken)];
    }
  }

  /** Otherwise, malloc willing, it links a new task in last and wakes a sleeper, if there is one. */
  lemma PostAlone(s: State, t: nat, n: bool) returns (path: seq<State>)
    requires Inv(s) && MayCall(s, t, n) && !s.p.quit && !s.p.spin
    ensures Alone(s, path, t) && Signal(s.threads, Now(path).threads)
    ensures var k := s.p.made;
            && Now(path).h == s.h.(list := s.h.list + [k], pushed := s.h.pushed + [k])
            && Now(path).p == s.p.(live := s.p.live + {k}, made := k + 1, tail := LinkOf(k),
                                   mem := s.p.mem[LinkOf(k) := None][s.p.tail := Some(k)])
    ensures Now(path) == s.(p := Now(path).p, h := Now(path).h, threads := Now(path).threads)
  {
    FreeQueue(s, t);
    path := PostEnters(s, t, n);
    path := PostLinks(s, path, t, n, s.p.made);
    var threads' := Signalled(s.threads);
    assert Now(path).threads[t := Back(n)] == s.threads;
    path := GoTo(s, path, t, Back(n), Now(path).(threads := threads'));
  }

  // ---- thrdpool_terminate

  function AllWoken(threads: seq<Pc>): (threads': seq<Pc>)
    ensures Broadcast(threads, threads')
  {
    seq(|threads|, i requires 0 <= i < |threads| => if IsAsleep(threads[i]) then Get(Woken) else threads[i])
  }

  /** One access of a terminate, and the fields it leaves. */
  lemma GoTerm(s: State, path: seq<State>, t: nat, n: bool, at: TermPc, at': TermPc, p': Pool) returns (path': seq<State>)
    requires Alone(s, path, t) && t < |s.threads| && Now(path).threads == s.threads[t := Term(at, n)] && Now(path).count == s.count
    requires TermControl(at, at') && (at.TermMutex? ==> Now(path).mutex == None)
    requires p' == Stored(Now(path).p, Term(at, n), Term(at', n))
    ensures Alone(s, path', t)
    ensures Now(path') == Now(path).(p := p', threads := s.threads[t := Term(at', n)],
                                     mutex := OwnerAfter(HoldsMutex(Term(at, n)), HoldsMutex(Term(at', n)), Now(path).mutex, t))
  {
    path' := Go(s, path, t, Term(at, n), Term(at', n));
  }

  lemma TerminateStores(s: State, t: nat, n: bool) returns (path: seq<State>)
    requires MayCall(s, t, n) && s.mutex == None
    ensures Alone(s, path, t)
    ensures Now(path) == s.(p := s.p.(quit := true, block := false), mutex := Some(t), threads := s.threads[t := Term(TermUnlock, n)])
  {
    path := Start(s, t, Term(TermStore, n));
    path := GoTerm(s, path, t, n, TermStore, TermMutex, s.p.(quit := true));
    path := GoTerm(s, path, t, n, TermMutex, TermBlock, s.p.(quit := true));
    path := GoTerm(s, path, t, n, TermBlock, TermUnlock, s.p.(quit := true, block := false));
  }

  /** It sets both flags and wakes everyone. */
  lemma TerminateAlone(s: State, t: nat, n: bool) returns (path: seq<State>)
    requires MayCall(s, t, n) && s.mutex == None
    ensures Alone(s, path, t) && Broadcast(s.threads, Now(path).threads)
    ensures Now(path) == s.(p := s.p.(quit := true, block := false), threads := Now(path).threads)
  {
    path := TerminateStores(s, t, n);
    path := Go(s, path, t, Term(TermUnlock, n), Term(TermBroadcast, n));
    var threads' := AllWoken(s.threads);
    assert Now(path).threads[t := Back(n)] == s.threads;
    path := GoTo(s, path, t, Back(n), Now(path).(threads := threads'));
  }

  // ---- __thrdpool_worker

  /** A worker on its way to the queue: past a test of `quit` that finds it unset, or just woken, when it
      does not test `quit` again. */
  predicate Comes(s: State, t: nat) {
    t < |s.threads| && ((s.threads[t].WorkQuit? && !s.p.quit) || (s.threads[t] == Get(Woken) && s.mutex == None))
  }

  lemma WorkerComes(s: State, t: nat) returns (path: seq<State>)
    requires Comes(s, t)
    ensures Alone(s, path, t) && Now(path) == s.(threads := s.threads[t := Pop(PopTas, false)])
  {
    if s.threads[t].WorkQuit? {
      path := Start(s, t, Pop(PopTas, false));
    } else {
      path := Start(s, t, Get(GetUnlock));
      path := Go(s, path, t, Get(GetUnlock), Pop(PopTas, false));
    }
  }

  /** What __pop_task leaves of the fields when it takes the first task. */
  function Taken(p: Pool, list: seq<nat>): (p': Pool)
    requires list != []
  {
    p.(mem := p.mem[Head(0) := NodeAt(list, 1)], tail := if |list| == 1 then Head(0) else p.tail)
  }

  /** One access of __pop_task. */
  lemma GoPop(s: State, path: seq<State>, t: nat, d: bool, at: PopPc, at': PopPc) returns (path': seq<State>)
    requires Alone(s, path, t) && t < |s.threads| && Now(path).threads == s.threads[t := Pop(at, d)] && Now(path).count == s.count
    requires Safe(Now(path).p, Pop(at, d)) && PopControl(Now(path).p, at, at')
    ensures Alone(s, path', t)
    ensures Now(path') == Now(path).(p := PopStore(Now(path).p, at), h := Recorded(Now(path).h, Pop(at, d)),
                                     spinOwner := OwnerAfter(HoldsSpin(Pop(at, d)), HoldsSpin(Pop(at', d)), Now(path).spinOwner, t),
                                     threads := s.threads[t := Pop(at', d)])
  {
    path' := Go(s, path, t, Pop(at, d), Pop(at', d));
  }

  /** Its unlock, and what the caller does next. */
  lemma GoAfterPop(s: State, path: seq<State>, t: nat, d: bool, r: Option<nat>) returns (path': seq<State>)
    requires Alone(s, path, t) && t < |s.threads| && Now(path).threads == s.threads[t := Pop(PopUnlock(r), d)] && Now(path).count == s.count
    ensures Alone(s, path', t)
    ensures Now(path') == Now(path).(p := Now(path).p.(spin := false), spinOwner := None, threads := s.threads[t := AfterPop(r, d)])
  {
    path' := Go(s, path, t, Pop(PopUnlock(r), d), AfterPop(r, d));
  }

  /** Its accesses up to the load of the first task's link. */
  lemma PopFinds(s: State, path: seq<State>, t: nat, d: bool) returns (path': seq<State>)
    requires Alone(s, path, t) && t < |s.threads| && AtRest(Now(path)) && Now(path).h.list != []
    requires Now(path).threads == s.threads[t := Pop(PopTas, d)] && Now(path).count == s.count
    ensures Alone(s, path', t)
    ensures Now(path') == Now(path).(p := Now(path).p.(spin := true), spinOwner := Some(t), threads := s.threads[t := Pop(PopTake, d)])
  {
    path' := GoPop(s, path, t, d, PopTas, PopTest);
    path' := GoPop(s, path', t, d, PopTest, PopTake);
  }

  /** The stores of __pop_task: the first task leaves the list, and `tail` goes back to `head` with the last. */
  lemma PopUnlinks(s: State, path: seq<State>, t: nat, d: bool, k: nat, next: Option<nat>) returns (path': seq<State>)
    requires Alone(s, path, t) && t < |s.threads| && Now(path).h.list != []
    requires Now(path).threads == s.threads[t := Pop(PopTake, d)] && Now(path).count == s.count
    requires var p := Now(path).p; Safe(p, Pop(PopTake, d)) && p.mem[Head(0)] == Some(k) && p.mem[LinkOf(k)] == next
    ensures Alone(s, path', t)
    ensures var m := Now(path);
            Now(path') == m.(p := m.p.(mem := m.p.mem[Head(0) := next], tail := if next == None then Head(0) else m.p.tail),
                             h := Recorded(m.h, Pop(PopTake, d)), spinOwner := Some(t),
                             threads := s.threads[t := Pop(PopUnlock(Some(k)), d)])
  {
    path' := GoPop(s, path, t, d, PopTake, PopReset(k));
    path' := GoPop(s, path', t, d, PopReset(k), PopUnlock(Some(k)));
  }

  /** __pop_task, by a worker or by the destroyer, on a queue that is not empty. */
  lemma PopTakes(s: State, path: seq<State>, t: nat, d: bool) returns (path': seq<State>)
    requires Alone(s, path, t) && t < |s.threads| && AtRest(Now(path)) && Now(path).h.list != []
    requires Now(path).threads == s.threads[t := Pop(PopTas, d)] && Now(path).count == s.count
    ensures Alone(s, path', t)
    ensures var m := Now(path); var k := m.h.list[0];
            Now(path') == m.(p := Taken(m.p, m.h.list),
                             h := m.h.(list := m.h.list[1..], popped := m.h.popped + [k], taken := m.h.taken + if d then 0 else 1),
                             threads := s.threads[t := if d then DestroyFree(k) else Fetch(k)])
  {
    var k := Now(path).h.list[0];
    path' := PopFinds(s, path, t, d);
    path' := PopUnlinks(s, path', t, d, k, NodeAt(Now(path).h.list, 1));
    path' := GoAfterPop(s, path', t, d, Some(k));
  }

  /** __pop_task on an empty queue. */
  lemma PopFindsNothing(s: State, path: seq<State>, t: nat, d: bool) returns (path': seq<State>)
    requires Alone(s, path, t) && t < |s.threads| && AtRest(Now(path)) && Now(path).h.list == []
    requires Now(path).threads == s.threads[t := Pop(PopTas, d)] && Now(path).count == s.count
    ensures Alone(s, path', t)
    ensures Now(path') == Now(path).(threads := s.threads[t := if d then Done else Get(GetMutex)])
  {
    path' := GoPop(s, path, t, d, PopTas, PopTest);
    path' := GoPop(s, path', t, d, PopTest, PopUnlock(None));
    path' := GoAfterPop(s, path', t, d, None);
  }

  lemma {:induction false} AloneKeepsInv(s: State, path: seq<State>, t: nat)
    requires Inv(s) && Alone(s, path, t)
    ensures Inv(Now(path))
    decreases |path|
  {
    if |path| > 1 {
      var last := |path| - 1;
      var before := path[..last];
      forall j: nat ensures StepOf(before, t, j) { assert StepOf(path, t, j); }
      AloneKeepsInv(s, before, t);
      assert StepOf(path, t, last - 1);
      assert Step(path[last - 1], path[last], t, path[last].threads[t]);
      assert Next(path[last - 1], path[last]);
      NextKeepsInv(path[last - 1], path[last]);
    }
  }

  /** A worker that finds a task takes the first one, frees its node and calls it. */
  lemma WorkerServesAlone(s: State, t: nat) returns (path: seq<State>)
    requires Inv(s) && Comes(s, t) && !s.p.spin && s.h.list != []
    ensures Alone(s, path, t)
    ensures var k := s.h.list[0];
            Now(path) == s.(p := Freed(Taken(s.p, s.h.list), k),
                            h := s.h.(list := s.h.list[1..], popped := s.h.popped + [k], taken := s.h.taken + 1,
                                      freed := s.h.freed + [k], ran := s.h.ran + [k]),
                            threads := s.threads[t := Run])
  {
    var k := s.h.list[0];
    FreeQueue(s, t);
    path := WorkerComes(s, t);
    path := PopTakes(s, path, t, false);
    path := Go(s, path, t, Fetch(k), Free(k));
    path := Go(s, path, t, Free(k), Call(k));
    path := Go(s, path, t, Call(k), Run);
  }

  /** With nothing queued it sleeps as long as the pool blocks, and exits once it does not. */
  lemma WorkerRestsAlone(s: State, t: nat) returns (path: seq<State>)
    requires Inv(s) && Comes(s, t) && !s.p.spin && s.mutex == None && s.h.list == []
    ensures Alone(s, path, t)
    ensures Now(path) == s.(threads := s.threads[t := if s.p.block then Get(Asleep) else Exited])
  {
    FreeQueue(s, t);
    path := WorkerComes(s, t);
    path := PopFindsNothing(s, path, t, false);
    path := Go(s, path, t, Get(GetMutex), Get(GetBlock));
    if s.p.block {
      path := Go(s, path, t, Get(GetBlock), Get(GetWait));
      path := Go(s, path, t, Get(GetWait), Get(Asleep));
    } else {
      path := Go(s, path, t, Get(GetBlock), Get(GetGiveUp));
      path := Go(s, path, t, Get(GetGiveUp), Exited);
    }
  }

  /** One task served, and back at the test of `quit`. */
  lemma WorkerTurn(s: State, t: nat) returns (path: seq<State>)
    requires Inv(s) && Comes(s, t) && !s.p.spin && !s.p.quit && s.h.list != []
    ensures Alone(s, path, t) && Inv(Now(path)) && Comes(Now(path), t) && Now(path).threads == s.threads[t := WorkQuit]
    ensures !Now(path).p.spin && !Now(path).p.quit && Now(path).p.block == s.p.block && Now(path).mutex == s.mutex
    ensures Now(path).h.list == s.h.list[1..] && Now(path).h.ran == s.h.ran + [s.h.list[0]]
  {
    path := WorkerServesAlone(s, t);
    path := Go(s, path, t, Run, WorkQuit);
    AloneKeepsInv(s, path, t);
  }

  /** Left alone with tasks that make no calls of their own, a worker of a running pool calls every task that
      is queued, in order, and then goes to sleep. */
  lemma WorkerDrainsAlone(s: State, t: nat) returns (path: seq<State>)
    requires Inv(s) && Comes(s, t) && !s.p.spin && !s.p.quit && s.mutex == None
    ensures Alone(s, path, t) && Now(path).threads == s.threads[t := Get(Asleep)]
    ensures Now(path).h.list == [] && Now(path).h.ran == s.h.ran + s.h.list
  {
    var all := s.h.list;
    path := [s];
    for i := 0 to |all|
      invariant Alone(s, path, t) && Inv(Now(path)) && Comes(Now(path), t)
      invariant Now(path).threads[t := WorkQuit] == s.threads[t := WorkQuit]
      invariant !Now(path).p.spin && !Now(path).p.quit && Now(path).p.block == s.p.block && Now(path).mutex == None
      invariant Now(path).h.list == all[i..] && Now(path).h.ran == s.h.ran + all[..i]
    {
      assert all[..i + 1] == all[..i] + [all[i]];
      var turn := WorkerTurn(Now(path), t);
      path := Joined(s, path, turn, t);
    }
    assert all[..|all|] == all;
    var rest := WorkerRestsAlone(Now(path), t);
    assert Now(path).threads[t := Get(Asleep)] == Now(path).threads[t := WorkQuit][t := Get(Asleep)];
    path := Joined(s, path, rest, t);
  }

  /** Between tasks, a worker of a pool that has quit exits, whatever is queued. */
  lemma WorkerQuitsAlone(s: State, t: nat) returns (path: seq<State>)
    requires t < |s.threads| && s.threads[t].WorkQuit? && s.p.quit
    ensures Alone(s, path, t) && Now(path) == s.(threads := s.threads[t := Exited])
  {
    path := Start(s, t, Exited);
  }

  // ---- thrdpool_waitdone

  /** Once every worker has exited it has joined them all. */
  lemma WaitdoneJoins(s: State, t: nat) returns (path: seq<State>)
    requires MayCall(s, t, false) && s.count <= t && OthersIdle(s) && forall i: nat | i < s.count :: HasExited(s, i)
    ensures Alone(s, path, t) && Now(path) == s.(waiting := true, threads := s.threads[t := Pop(PopTas, true)])
  {
    path := Start(s, t, Join(0));
    for i := 0 to s.count
      invariant Alone(s, path, t) && Now(path) == s.(waiting := true, threads := s.threads[t := Join(i)])
    {
      assert HasExited(s, i);
      path := Go(s, path, t, Join(i), Join(i + 1));
    }
    path := Go(s, path, t, Join(s.count), Pop(PopTas, true));
  }

  /** One turn of __taskqueue_destroy. */
  lemma DestroyTurn(s: State, path: seq<State>, t: nat) returns (path': seq<State>)
    requires Inv(s) && Alone(s, path, t) && t < |s.threads| && !Now(path).p.spin && Now(path).h.list != []
    requires Now(path).threads == s.threads[t := Pop(PopTas, true)] && Now(path).count == s.count
    ensures Alone(s, path', t) && Now(path').threads == Now(path).threads && Now(path').count == s.count && !Now(path').p.spin
    ensures var h := Now(path).h;
            Now(path').h == h.(list := h.list[1..], popped := h.popped + [h.list[0]], freed := h.freed + [h.list[0]])
  {
    AloneKeepsInv(s, path, t);
    FreeQueue(Now(path), t);
    var k := Now(path).h.list[0];
    path' := PopTakes(s, path, t, true);
    path' := Go(s, path', t, DestroyFree(k), Pop(PopTas, true));
  }

  /** It then pops and frees, unrun, every task that is still queued, in order, and is done. */
  lemma WaitdoneAlone(s: State, t: nat) returns (path: seq<State>)
    requires Inv(s) && MayCall(s, t, false) && s.count <= t && !s.p.spin
    requires OthersIdle(s) && forall i: nat | i < s.count :: HasExited(s, i)
    ensures Alone(s, path, t) && Now(path).threads == s.threads[t := Done]
    ensures Now(path).h == s.h.(list := [], popped := s.h.popped + s.h.list, freed := s.h.freed + s.h.list)
  {
    path := WaitdoneJoins(s, t);
    var all := s.h.list;
    for i := 0 to |all|
      invariant Alone(s, path, t) && Now(path).threads == s.threads[t := Pop(PopTas, true)]
      invariant Now(path).count == s.count && !Now(path).p.spin
      invariant Now(path).h == s.h.(list := all[i..], popped := s.h.popped + all[..i], freed := s.h.freed + all[..i])
    {
      path := DestroyTurn(s, path, t);
      assert all[..i + 1] == all[..i] + [all[i]];
    }
    AloneKeepsInv(s, path, t);
    FreeQueue(Now(path), t);
    path := PopFindsNothing(s, path, t, true);
    assert all[..|all|] == all;
  }
}
