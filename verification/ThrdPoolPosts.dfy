/** When a post to the C worker pool finds its sleeper. The signal of `__add_task` is lost exactly when
    it is sent with nobody asleep and a worker between its empty check and its wait; short of that,
    a sleeping worker means that every queued task has somebody on the way to it. */
module ThrdPoolPosts {
  import opened Counting
  import opened Links
  import opened Options
  import opened ThrdPool
  import opened ThrdPoolInvariant
  import opened ThrdPoolRuns

  /** A worker that has found the queue empty and is not asleep yet. */
  predicate InWindow(pc: Pc) {
    match pc
    case Pop(PopUnlock(r), d) => r == None && !d
    case Get(at) => at.GetMutex? || at.GetBlock? || at.GetWait?
    case _ => false
  }

  /** A post that has linked its task and not signalled yet, or a worker awake and on its way to the
      queue: whoever will see to one more task. */
  predicate Covers(pc: Pc) {
    match pc
    case Post(at, _) => at.PostTail? || at.PostUnlock? || at.PostSignal?
    case Pop(at, d) => !d && (at.PopTas? || at.PopSpin? || at.PopTest? || at.PopTake?)
    case Get(at) => at.Woken? || at.GetUnlock?
    case _ => false
  }

  /** The last access of a post, its signal. */
  predicate Signals(pc: Pc) {
    pc.Post? && pc.post.PostSignal?
  }

  predicate Waits(pc: Pc) {
    IsAsleep(pc) || InWindow(pc)
  }

  ghost predicate SomeInWindow(threads: seq<Pc>) {
    exists t: nat :: t < |threads| && InWindow(threads[t])
  }

  /** While the pool blocks, a worker asleep or about to be leaves no task without somebody to see to it. */
  ghost predicate Conserved(s: State) {
    s.p.block && (!NoneAsleep(s.threads) || SomeInWindow(s.threads)) ==> |s.h.list| <= Count(s.threads, Covers)
  }

  /** Thread t is about to signal to nobody, past a worker that is about to sleep. */
  ghost predicate Misses(s: State, t: nat)
    requires t < |s.threads|
  {
    Signals(s.threads[t]) && NoneAsleep(s.threads) && SomeInWindow(s.threads)
  }

  function One(b: bool): (n: nat) {
    if b then 1 else 0
  }

  /** What the mover does to the balance of queued tasks and cover, its signal apart. */
  lemma MoverCovers(s: State, pc: Pc, pc': Pc)
    requires Safe(s.p, pc) && Control(s, pc, pc')
    requires Head(0) in s.p.mem && s.p.mem[Head(0)] == NodeAt(s.h.list, 0) && (pc.Pop? && pc.pop.PopTake? ==> s.h.list != [])
    ensures Signals(pc) ==> Recorded(s.h, pc).list == s.h.list && Covers(pc) && !Covers(pc')
    ensures !Signals(pc) ==>
              || s.h.list == Recorded(s.h, pc).list == []
              || |Recorded(s.h, pc).list| + One(Covers(pc)) <= |s.h.list| + One(Covers(pc'))
    ensures Waits(pc') ==> Waits(pc) || s.h.list == Recorded(s.h, pc).list == []
    ensures Stored(s.p, pc, pc').block ==> s.p.block
  {
  }

  /** Wake-ups only add cover. */
  lemma StepCovers(s: State, s': State, t: nat, pc': Pc)
    requires Step(s, s', t, pc')
    ensures Count(s.threads, Covers) - One(Covers(s.threads[t])) + One(Covers(pc')) <= Count(s'.threads, Covers)
  {
    StepThreads(s, s', t, pc');
    var threads := s.threads[t := pc'];
    CountUpdate(s.threads, Covers, t, pc');
    forall u: nat | u < |threads| && Covers(threads[u]) ensures Covers(s'.threads[u]) {
      assert Roused(if u == t then pc' else s.threads[u], s'.threads[u]);
    }
    CountGrows(threads, s'.threads, Covers);
  }

  /** Nobody but the mover starts to wait. */
  lemma StepWaits(s: State, s': State, t: nat, pc': Pc)
    requires Step(s, s', t, pc') && (!NoneAsleep(s'.threads) || SomeInWindow(s'.threads))
    ensures Waits(pc') || !NoneAsleep(s.threads) || SomeInWindow(s.threads)
  {
    StepThreads(s, s', t, pc');
    var u: nat :| u < |s'.threads| && Waits(s'.threads[u]);
    assert Roused(if u == t then pc' else s.threads[u], s'.threads[u]);
    assert u != t ==> Waits(s.threads[u]);
  }

  /** A step that does not signal. */
  lemma QuietStepConserves(s: State, s': State, t: nat, pc': Pc)
    requires Inv(s) && Conserved(s) && Step(s, s', t, pc') && !Signals(s.threads[t])
    ensures Conserved(s')
  {
    MoverFinds(s, t);
    MoverCovers(s, s.threads[t], pc');
    StepCovers(s, s', t, pc');
    if !NoneAsleep(s'.threads) || SomeInWindow(s'.threads) {
      StepWaits(s, s', t, pc');
      assert Waits(s.threads[t]) ==> !NoneAsleep(s.threads) || SomeInWindow(s.threads);
    }
  }

  /** A signal keeps the balance exactly when it is not missed, or there was cover to spare. */
  lemma SignalConservesIff(s: State, s': State, t: nat, pc': Pc)
    requires Inv(s) && Conserved(s) && s.p.block && Step(s, s', t, pc') && Signals(s.threads[t])
    ensures Conserved(s') <==> !(Misses(s, t) && |s.h.list| == Count(s.threads, Covers))
  {
    var threads := s.threads[t := pc'];
    CountUpdate(s.threads, Covers, t, pc');
    SameSleepers(s, t, pc');
    if !NoneAsleep(threads) {
      var w: nat :| w < |threads| && IsAsleep(threads[w]) && s'.threads == threads[w := Get(Woken)];
      CountUpdate(threads, Covers, w, Get(Woken));
    }
  }

  /** A thread that signals is itself neither asleep nor about to be, before or after. */
  lemma SameSleepers(s: State, t: nat, pc': Pc)
    requires t < |s.threads| && Signals(s.threads[t]) && Safe(s.p, s.threads[t]) && Control(s, s.threads[t], pc')
    ensures NoneAsleep(s.threads[t := pc']) == NoneAsleep(s.threads)
    ensures SomeInWindow(s.threads[t := pc']) == SomeInWindow(s.threads)
  {
    var threads := s.threads[t := pc'];
    assert !InWindow(pc') && !IsAsleep(pc');
    if SomeInWindow(s.threads) {
      var u: nat :| u < |s.threads| && InWindow(s.threads[u]);
      assert InWindow(threads[u]);
    }
    if !NoneAsleep(s.threads) {
      var u: nat :| u < |s.threads| && IsAsleep(s.threads[u]);
      assert IsAsleep(threads[u]);
    }
  }

  /** Thread t is about to lose a wake-up: its signal misses a worker, and nobody can stand in for it. */
  ghost predicate Loses(s: State, t: nat)
    requires t < |s.threads|
  {
    s.p.block && Misses(s, t) && |s.h.list| == Count(s.threads, Covers)
  }

  /** A step keeps the balance exactly when it loses no wake-up. */
  lemma StepConservesIff(s: State, s': State, t: nat, pc': Pc)
    requires Inv(s) && Conserved(s) && Step(s, s', t, pc')
    ensures Conserved(s') <==> !Loses(s, t)
  {
    if !Signals(s.threads[t]) {
      QuietStepConserves(s, s', t, pc');
    } else if s.p.block {
      SignalConservesIff(s, s', t, pc');
    }
  }

  ghost predicate Spares(s: State, s': State, t: nat, pc': Pc) {
    Step(s, s', t, pc') && !Loses(s, t)
  }

  ghost predicate NextSpares(s: State, s': State) {
    exists t: nat, pc': Pc :: Spares(s, s', t, pc')
  }

  /** The j-th step of the run is one that loses no wake-up. */
  ghost predicate StepSpares(run: seq<State>, j: nat) {
    j + 1 < |run| ==> NextSpares(run[j], run[j + 1])
  }

  lemma {:induction false} SparingRunsConserve(run: seq<State>, j: nat)
    requires IsRun(run) && j < |run| && forall i: nat | i < j :: StepSpares(run, i)
    ensures Conserved(run[j])
  {
    if j > 0 {
      SparingRunsConserve(run, j - 1);
      RunKeepsInv(run, j - 1);
      assert StepSpares(run, j - 1);
      var t: nat, pc': Pc :| Spares(run[j - 1], run[j], t, pc');
      StepConservesIff(run[j - 1], run[j], t, pc');
    }
  }

  /** A run keeps the balance throughout if and only if none of its steps loses a wake-up. */
  lemma RunConservesIff(run: seq<State>)
    requires IsRun(run)
    ensures (forall j: nat | j < |run| :: Conserved(run[j])) <==> (forall j: nat :: StepSpares(run, j))
  {
    if forall j: nat | j < |run| :: Conserved(run[j]) {
      forall j: nat ensures StepSpares(run, j) {
        if j + 1 < |run| {
          RunKeepsInv(run, j);
          assert Follows(run, j);
          var t: nat, pc': Pc :| Step(run[j], run[j + 1], t, pc');
          StepConservesIff(run[j], run[j + 1], t, pc');
          assert Spares(run[j], run[j + 1], t, pc');
        }
      }
    } else if forall j: nat :: StepSpares(run, j) {
      forall j: nat | j < |run| ensures Conserved(run[j]) {
        SparingRunsConserve(run, j);
      }
    }
  }

  /** So when such a run comes to rest, nobody on the way to the queue, a worker that sleeps in a
      blocking pool has left it empty. */
  lemma RestLeavesNoTasks(run: seq<State>, j: nat, t: nat)
    requires IsRun(run) && j < |run| && forall i: nat | i < j :: StepSpares(run, i)
    requires run[j].p.block && t < |run[j].threads| && IsAsleep(run[j].threads[t])
    requires forall u: nat | u < |run[j].threads| :: !Covers(run[j].threads[u])
    ensures run[j].h.list == []
  {
    SparingRunsConserve(run, j);
    CountAtMost(run[j].threads, Covers, 0);
  }
}
