/** What holds in every run of the C worker pool. */
module ThrdPoolRuns {
  import opened Counting
  import opened Links
  import opened Options
  import opened ThrdPool
  import opened ThrdPoolInvariant

  lemma {:induction false} RunKeepsInv(run: seq<State>, j: nat)
    requires IsRun(run) && j < |run|
    ensures Inv(run[j])
  {
    if j == 0 {
      InitInv(run[0]);
    } else {
      RunKeepsInv(run, j - 1);
      assert Follows(run, j - 1);
      NextKeepsInv(run[j - 1], run[j]);
    }
  }

  /** At most one thread is inside the spinlock. */
  lemma SpinlockExcludes(run: seq<State>, j: nat, t: nat, u: nat)
    requires IsRun(run) && j < |run| && t < |run[j].threads| && u < |run[j].threads|
    requires HoldsSpin(run[j].threads[t]) && HoldsSpin(run[j].threads[u])
    ensures t == u && run[j].p.spin
  {
    RunKeepsInv(run, j);
    assert Excluded(run[j], t) && Excluded(run[j], u);
  }

  /** Tasks leave the queue in the order they entered it, and whenever the spinlock is free, following
      the links from `head` gives the queue and `tail` addresses its last link, or `head` itself. */
  lemma QueueIsFifo(run: seq<State>, j: nat)
    requires IsRun(run) && j < |run|
    ensures var p, h := run[j].p, run[j].h;
            && h.pushed == h.popped + h.list && NoRepeats(h.pushed)
            && Chain(p.mem, Head(0), h.list)
            && (!p.spin ==> p.tail == if h.list == [] then Head(0) else LinkOf(h.list[|h.list| - 1]))
  {
    RunKeepsInv(run, j);
  }

  /** No thread ever follows a pointer to a node that has been freed, or frees one twice. */
  lemma NoUseAfterFree(run: seq<State>, j: nat, t: nat)
    requires IsRun(run) && j < |run| && t < |run[j].threads|
    ensures Safe(run[j].p, run[j].threads[t])
  {
    RunKeepsInv(run, j);
    StructureIsSafe(run[j], t);
  }

  /** Every node allocated is in the queue, in one thread's hand, or freed, and never in two of these;
      no node is freed twice, and a handler is called at most once, after its node was freed. */
  lemma TasksAreConserved(run: seq<State>, j: nat, k: nat)
    requires IsRun(run) && j < |run| && k < run[j].p.made
    ensures var s := run[j];
            && (k in s.h.list || k in s.h.freed || InHand(s.threads, k))
            && !(k in s.h.list && k in s.h.freed)
            && !(k in s.h.list && InHand(s.threads, k)) && !(k in s.h.freed && InHand(s.threads, k))
            && NoRepeats(s.h.freed) && NoRepeats(s.h.ran) && (forall m | m in s.h.ran :: m in s.h.freed)
  {
    RunKeepsInv(run, j);
    var s := run[j];
    if k in s.h.list { ListIsLive(s.p, s.h, k); }
    if InHand(s.threads, k) {
      var t: nat :| t < |s.threads| && (Fresh(s.threads[t]) || Owned(s.threads[t])) && Held(s.threads[t]) == Some(k);
      assert HeldOk(s.p, s.h, s.threads[t]);
    }
  }

  lemma OneHandEach(run: seq<State>, j: nat, t: nat, u: nat)
    requires IsRun(run) && j < |run| && t < |run[j].threads| && u < |run[j].threads|
    requires Held(run[j].threads[t]).Some? && Held(run[j].threads[t]) == Held(run[j].threads[u])
    ensures t == u
  {
    RunKeepsInv(run, j);
    assert HeldApart(run[j].threads, t, u) && HeldApart(run[j].threads, u, t);
  }

  /** When thrdpool_waitdone returns the pool has quit, the queue is empty, and every node that was
      ever allocated has been freed, each exactly once. */
  lemma WaitdoneFreesAll(run: seq<State>, j: nat, d: nat)
    requires IsRun(run) && j < |run| && d < |run[j].threads| && run[j].threads[d].Done?
    ensures var s := run[j];
            && s.h.list == [] && s.h.popped == s.h.pushed && s.p.live == {}
            && NoRepeats(s.h.freed) && (forall k: nat :: k in s.h.freed <==> k < s.p.made)
            && (s.count >= 1 ==> s.p.quit)
  {
    RunKeepsInv(run, j);
    var s := run[j];
    assert RoleOk(s, d) && WaitsAlone(s, d) && Knows(s.p, s.h, s.threads[d]);
    forall t: nat | t < |s.threads| ensures Held(s.threads[t]) == None && (t < s.count ==> s.threads[t].Exited?) {
      assert RoleOk(s, t);
    }
    if s.count >= 1 { assert Knows(s.p, s.h, s.threads[0]); }
    assert forall k | k in s.h.freed :: k in s.h.popped + s.h.list;
  }

  /** Shutdown. A worker asleep with `block` cleared means that the broadcast is still to come. */
  lemma ShutdownWakesSleepers(run: seq<State>, j: nat, t: nat)
    requires IsRun(run) && j < |run| && t < |run[j].threads|
    requires IsAsleep(run[j].threads[t]) && !run[j].p.block
    ensures SomeOwesBroadcast(run[j])
  {
    RunKeepsInv(run, j);
  }

  /** A thrdpool_terminate that is about to wake the workers has stored both flags. */
  lemma TerminateStoresFlags(run: seq<State>, j: nat, t: nat)
    requires IsRun(run) && j < |run| && t < |run[j].threads| && OwesBroadcast(run[j].threads[t])
    ensures run[j].p.quit && !run[j].p.block
  {
    RunKeepsInv(run, j);
    assert Knows(run[j].p, run[j].h, run[j].threads[t]);
  }

  /** The flags are stored for good, and once they are nobody goes to sleep any more. */
  lemma NobodyFallsAsleep(s: State, s': State)
    requires Inv(s) && Next(s, s') && !s.p.block
    ensures !s'.p.block && s'.p.quit && |s'.threads| == |s.threads|
    ensures forall u: nat | u < |s.threads| && IsAsleep(s'.threads[u]) :: IsAsleep(s.threads[u])
  {
    var t: nat, pc': Pc :| Step(s, s', t, pc');
    NextKeepsInv(s, s');
    StepThreads(s, s', t, pc');
    assert Knows(s.p, s.h, s.threads[t]);
    MoverOwes(s, s.threads[t], pc');
    forall u: nat | u < |s.threads| && IsAsleep(s'.threads[u]) ensures IsAsleep(s.threads[u]) {
      assert Roused(if u == t then pc' else s.threads[u], s'.threads[u]);
    }
  }

  /** The broadcast that ends thrdpool_terminate. */
  lemma BroadcastWakesAll(s: State, s': State, t: nat, n: bool)
    requires Inv(s) && Next(s, s') && t < |s.threads| && t < |s'.threads|
    requires s.threads[t] == Term(TermBroadcast, n) && s'.threads[t] == Back(n)
    ensures s'.p.quit && !s'.p.block && NoneAsleep(s'.threads)
  {
    var u: nat, pc': Pc :| Step(s, s', u, pc');
    assert Knows(s.p, s.h, s.threads[t]);
    StepThreads(s, s', u, pc');
  }

  lemma {:induction false} StayAwake(run: seq<State>, i: nat, j: nat)
    requires IsRun(run) && i <= j < |run| && !run[i].p.block && NoneAsleep(run[i].threads)
    ensures !run[j].p.block && NoneAsleep(run[j].threads)
  {
    if i < j {
      StayAwake(run, i, j - 1);
      RunKeepsInv(run, j - 1);
      assert Follows(run, j - 1);
      NobodyFallsAsleep(run[j - 1], run[j]);
    }
  }

  /** Once thrdpool_terminate has returned, the pool has quit and blocks nobody, for good: no worker is
      asleep, then or ever after. */
  lemma TerminateIsForGood(run: seq<State>, i: nat, j: nat, t: nat, n: bool)
    requires IsRun(run) && i < j < |run| && t < |run[i].threads| && t < |run[i + 1].threads|
    requires run[i].threads[t] == Term(TermBroadcast, n) && run[i + 1].threads[t] == Back(n)
    ensures run[j].p.quit && !run[j].p.block && NoneAsleep(run[j].threads)
  {
    RunKeepsInv(run, i);
    assert Follows(run, i);
    BroadcastWakesAll(run[i], run[i + 1], t, n);
    StayAwake(run, i + 1, j);
    RunKeepsInv(run, j);
  }

  /** A worker returns only from a pool that has quit. */
  lemma WorkersLeaveAfterQuit(run: seq<State>, j: nat, t: nat)
    requires IsRun(run) && j < |run| && t < |run[j].threads| && run[j].threads[t].Exited?
    ensures run[j].p.quit
  {
    RunKeepsInv(run, j);
    assert Knows(run[j].p, run[j].h, run[j].threads[t]);
  }

  // ---- pops after `quit`

  /** A worker that is past its test of `quit` and may still pop a task before the next one. */
  predicate MayTake(pc: Pc) {
    match pc
    case Get(at) => !at.GetGiveUp?
    case Pop(at, d) => !d && !at.PopReset? && !(at.PopUnlock? && at.result.Some?)
    case _ => false
  }

  lemma MoverTakes(s: State, pc: Pc, pc': Pc)
    requires Safe(s.p, pc) && Control(s, pc, pc') && s.p.quit
    ensures Stored(s.p, pc, pc').quit
    ensures Recorded(s.h, pc).taken + (if MayTake(pc') then 1 else 0) <= s.h.taken + if MayTake(pc) then 1 else 0
  {
  }

  /** Once the pool has quit, every pop by a worker uses up one that may. */
  lemma StepTakes(s: State, s': State)
    requires Next(s, s') && s.p.quit
    ensures s'.p.quit && s'.h.taken + Count(s'.threads, MayTake) <= s.h.taken + Count(s.threads, MayTake)
  {
    var t: nat, pc': Pc :| Step(s, s', t, pc');
    MoverTakes(s, s.threads[t], pc');
    StepThreads(s, s', t, pc');
    CountUpdate(s.threads, MayTake, t, pc');
    forall u: nat | u < |s.threads| ensures MayTake(s'.threads[u]) == MayTake(s.threads[t := pc'][u]) {
      assert Roused(if u == t then pc' else s.threads[u], s'.threads[u]);
    }
    CountCongruent(s.threads[t := pc'], s'.threads, MayTake);
  }

  lemma RunTakes(run: seq<State>, j: nat)
    requires IsRun(run) && j + 1 < |run| && run[j].p.quit
    ensures run[j + 1].p.quit
    ensures run[j + 1].h.taken + Count(run[j + 1].threads, MayTake) <= run[j].h.taken + Count(run[j].threads, MayTake)
  {
    assert Follows(run, j);
    StepTakes(run[j], run[j + 1]);
  }

  lemma {:induction false} QuitTakes(run: seq<State>, i: nat, j: nat)
    requires IsRun(run) && i <= j < |run| && run[i].p.quit
    ensures run[j].p.quit
    ensures run[j].h.taken + Count(run[j].threads, MayTake) <= run[i].h.taken + Count(run[i].threads, MayTake)
  {
    if i < j {
      QuitTakes(run, i, j - 1);
      RunTakes(run, j - 1);
    }
  }

  /** After `quit` is stored, by a client or from inside a task, the workers pop at most one task for
      each of them that was already past its test of `quit`, and so at most thrd_count in all. */
  lemma LatePopsAreBounded(run: seq<State>, i: nat, j: nat)
    requires IsRun(run) && i <= j < |run| && run[i].p.quit
    ensures run[j].h.taken - run[i].h.taken <= Count(run[i].threads, MayTake) <= run[i].count
  {
    QuitTakes(run, i, j);
    RunKeepsInv(run, i);
    forall t: nat | run[i].count <= t < |run[i].threads| ensures !MayTake(run[i].threads[t]) {
      assert RoleOk(run[i], t);
    }
    CountAtMost(run[i].threads, MayTake, run[i].count);
  }

  /** At its test of `quit` a post is refused if and only if the pool has quit. */
  lemma PostRefusedIff(run: seq<State>, j: nat, t: nat, n: bool)
    requires IsRun(run) && j + 1 < |run| && t < |run[j].threads| && t < |run[j + 1].threads|
    requires run[j].threads[t] == Post(PostQuit, n) && run[j + 1].threads[t] != run[j].threads[t]
    ensures run[j + 1].threads[t] == if run[j].p.quit then Back(n) else Post(PostMalloc, n)
    ensures run[j + 1].h == run[j].h
  {
    assert Follows(run, j);
    var u: nat, pc': Pc :| Step(run[j], run[j + 1], u, pc');
    StepThreads(run[j], run[j + 1], u, pc');
  }

  // ---- posts after `quit`

  /** A post that is past its test of `quit` and has not linked its task. */
  predicate MayLink(pc: Pc) {
    pc.Post? && !pc.post.PostQuit? && !pc.post.PostTail? && !pc.post.PostUnlock? && !pc.post.PostSignal?
  }

  lemma MoverLinks(s: State, pc: Pc, pc': Pc)
    requires Safe(s.p, pc) && Control(s, pc, pc') && s.p.quit
    ensures Stored(s.p, pc, pc').quit
    ensures |Recorded(s.h, pc).pushed| + (if MayLink(pc') then 1 else 0) <= |s.h.pushed| + if MayLink(pc) then 1 else 0
  {
  }

  /** Once the pool has quit, every task linked in uses up one post that may. */
  lemma StepLinks(s: State, s': State)
    requires Next(s, s') && s.p.quit
    ensures s'.p.quit && |s'.h.pushed| + Count(s'.threads, MayLink) <= |s.h.pushed| + Count(s.threads, MayLink)
  {
    var t: nat, pc': Pc :| Step(s, s', t, pc');
    MoverLinks(s, s.threads[t], pc');
    StepThreads(s, s', t, pc');
    CountUpdate(s.threads, MayLink, t, pc');
    forall u: nat | u < |s.threads| ensures MayLink(s'.threads[u]) == MayLink(s.threads[t := pc'][u]) {
      assert Roused(if u == t then pc' else s.threads[u], s'.threads[u]);
    }
    CountCongruent(s.threads[t := pc'], s'.threads, MayLink);
  }

  /** After `quit` is stored, at most the posts that were already past their test of it are linked in. */
  lemma {:induction false} LatePostsAreBounded(run: seq<State>, i: nat, j: nat)
    requires IsRun(run) && i <= j < |run| && run[i].p.quit
    ensures run[j].p.quit
    ensures |run[j].h.pushed| + Count(run[j].threads, MayLink) <= |run[i].h.pushed| + Count(run[i].threads, MayLink)
  {
    if i < j {
      LatePostsAreBounded(run, i, j - 1);
      assert Follows(run, j - 1);
      StepLinks(run[j - 1], run[j]);
    }
  }
}
