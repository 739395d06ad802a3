/** Which tasks of the C worker pool are called: those that workers pop, each exactly once. */
module ThrdPoolCalls {
  import opened Links
  import opened Options
  import opened ThrdPool
  import opened ThrdPoolInvariant
  import opened ThrdPoolRuns

  /** Inside __taskqueue_destroy, or back from it. */
  predicate Destroying(pc: Pc) {
    (pc.Pop? && pc.destroys) || pc.DestroyFree? || pc.Done?
  }

  ghost predicate NoneDestroying(threads: seq<Pc>) {
    forall t: nat | t < |threads| :: !Destroying(threads[t])
  }

  /** A worker with a task that it has popped and not called yet. */
  predicate Carries(pc: Pc) {
    Held(pc).Some? && (pc.Pop? ==> !pc.destroys) && !pc.Post? && !pc.DestroyFree?
  }

  ghost predicate Carried(threads: seq<Pc>, k: nat) {
    exists t: nat :: t < |threads| && Carries(threads[t]) && Held(threads[t]) == Some(k)
  }

  /** The tasks that workers have popped: the first ones, as the destroyer comes last. */
  function Taken(h: History): (tasks: seq<nat>) {
    if h.taken <= |h.popped| then h.popped[..h.taken] else h.popped
  }

  ghost predicate CallsOk(s: State) {
    && s.h.taken <= |s.h.popped|
    && (NoneDestroying(s.threads) ==> s.h.taken == |s.h.popped|)
    && (forall t: nat | t < |s.threads| && Carries(s.threads[t]) :: Held(s.threads[t]).value in Taken(s.h))
    && (forall k | k in Taken(s.h) :: k in s.h.ran || Carried(s.threads, k))
    && (forall k | k in s.h.ran :: k in Taken(s.h))
  }

  /** While a worker pops, nobody destroys: the destroyer waits for all of them to be gone. */
  lemma WorkersPopFirst(s: State, t: nat)
    requires RolesOk(s) && t < |s.threads| && s.threads[t].Pop? && !s.threads[t].destroys
    ensures NoneDestroying(s.threads)
  {
    assert RoleOk(s, t);
    forall u: nat | u < |s.threads| ensures !Destroying(s.threads[u]) {
      assert RoleOk(s, u);
    }
  }

  /** What a step does to the mover's hand, and to the tasks that are counted as popped and called. */
  lemma MoverCalls(s: State, pc: Pc, pc': Pc)
    requires Safe(s.p, pc) && Control(s, pc, pc')
    requires pc.Pop? && pc.pop.PopTake? ==> s.h.list != [] && s.p.mem[Head(0)] == Some(s.h.list[0])
    requires s.h.taken <= |s.h.popped| && (pc.Pop? && !pc.destroys ==> s.h.taken == |s.h.popped|)
    ensures Destroying(pc) ==> Destroying(pc')
    ensures var h' := Recorded(s.h, pc);
            if pc.Pop? && !pc.destroys && pc.pop.PopTake?
            then Taken(h') == Taken(s.h) + [s.h.list[0]] && h'.ran == s.h.ran && Carries(pc') && Held(pc') == Some(s.h.list[0])
            else
              && Taken(h') == Taken(s.h)
              && if pc.Call? then h'.ran == s.h.ran + [pc.task] && !Carries(pc')
                 else h'.ran == s.h.ran && Carries(pc') == Carries(pc) && (Carries(pc) ==> Held(pc') == Held(pc))
    ensures var h' := Recorded(s.h, pc);
            h'.taken <= |h'.popped| && (!Destroying(pc) && s.h.taken == |s.h.popped| ==> h'.taken == |h'.popped|)
  {
  }

  lemma CarriedStays(s: State, s': State, t: nat, pc': Pc, k: nat)
    requires Step(s, s', t, pc') && Carried(s.threads, k)
    requires Carries(s.threads[t]) && Held(s.threads[t]) == Some(k) ==> Carries(pc') && Held(pc') == Some(k)
    ensures Carried(s'.threads, k)
  {
    StepThreads(s, s', t, pc');
    var u: nat :| u < |s.threads| && Carries(s.threads[u]) && Held(s.threads[u]) == Some(k);
    assert Roused(if u == t then pc' else s.threads[u], s'.threads[u]);
    assert Carries(s'.threads[u]) && Held(s'.threads[u]) == Some(k);
  }

  /** Every task a worker has popped is called or in a hand after the step as well. */
  lemma StepKeepsPlaces(s: State, s': State, t: nat, pc': Pc, k: nat)
    requires Inv(s) && CallsOk(s) && Step(s, s', t, pc') && k in Taken(s'.h)
    ensures k in s'.h.ran || Carried(s'.threads, k)
  {
    StepThreads(s, s', t, pc');
    MoverFinds(s, t);
    if s.threads[t].Pop? && !s.threads[t].destroys { WorkersPopFirst(s, t); }
    MoverCalls(s, s.threads[t], pc');
    if k in Taken(s.h) {
      if k !in s'.h.ran { CarriedStays(s, s', t, pc', k); }
    } else {
      assert Carries(s'.threads[t]) && Held(s'.threads[t]) == Some(k);
    }
  }

  /** What is popped by a worker stays so counted, and so is what the mover has in hand. */
  lemma MoverKeepsTaken(s: State, t: nat, pc': Pc)
    requires Inv(s) && CallsOk(s) && t < |s.threads| && Safe(s.p, s.threads[t]) && Control(s, s.threads[t], pc')
    ensures var h' := Recorded(s.h, s.threads[t]);
            && h'.taken <= |h'.popped|
            && (!Destroying(s.threads[t]) && s.h.taken == |s.h.popped| ==> h'.taken == |h'.popped|)
            && (forall k | k in Taken(s.h) :: k in Taken(h'))
            && (Carries(pc') ==> Held(pc').value in Taken(h'))
    ensures Destroying(s.threads[t]) ==> Destroying(pc')
  {
    MoverFinds(s, t);
    if s.threads[t].Pop? && !s.threads[t].destroys { WorkersPopFirst(s, t); }
    MoverCalls(s, s.threads[t], pc');
  }

  lemma StepKeepsHands(s: State, s': State, t: nat, pc': Pc)
    requires Inv(s) && CallsOk(s) && Step(s, s', t, pc')
    ensures s'.h.taken <= |s'.h.popped| && (NoneDestroying(s'.threads) ==> s'.h.taken == |s'.h.popped|)
    ensures forall u: nat | u < |s'.threads| && Carries(s'.threads[u]) :: Held(s'.threads[u]).value in Taken(s'.h)
  {
    StepThreads(s, s', t, pc');
    MoverKeepsTaken(s, t, pc');
    forall u: nat | u < |s'.threads|
      ensures Carries(s'.threads[u]) ==> Held(s'.threads[u]).value in Taken(s'.h)
      ensures Destroying(s.threads[u]) ==> Destroying(s'.threads[u])
    {
      assert Roused(if u == t then pc' else s.threads[u], s'.threads[u]);
    }
  }

  lemma StepKeepsCalls(s: State, s': State, t: nat, pc': Pc)
    requires Inv(s) && CallsOk(s) && Step(s, s', t, pc')
    ensures CallsOk(s')
  {
    StepKeepsHands(s, s', t, pc');
    MoverFinds(s, t);
    if s.threads[t].Pop? && !s.threads[t].destroys { WorkersPopFirst(s, t); }
    MoverCalls(s, s.threads[t], pc');
    forall k | k in Taken(s'.h) ensures k in s'.h.ran || Carried(s'.threads, k) {
      StepKeepsPlaces(s, s', t, pc', k);
    }
    assert s.threads[t].Call? ==> Carries(s.threads[t]);
  }

  lemma {:induction false} RunKeepsCalls(run: seq<State>, j: nat)
    requires IsRun(run) && j < |run|
    ensures CallsOk(run[j])
  {
    if j > 0 {
      RunKeepsCalls(run, j - 1);
      RunKeepsInv(run, j - 1);
      assert Follows(run, j - 1);
      var t: nat, pc': Pc :| Step(run[j - 1], run[j], t, pc');
      StepKeepsCalls(run[j - 1], run[j], t, pc');
    }
  }

  /** Every task that a worker has popped has been called, or is in the hand of one worker, and never both;
      nothing else is ever called. Until __taskqueue_destroy starts, these are all that were popped. */
  lemma TakenTasksAreCalled(run: seq<State>, j: nat, k: nat)
    requires IsRun(run) && j < |run|
    ensures var s := run[j];
            && s.h.taken <= |s.h.popped| && (NoneDestroying(s.threads) ==> s.h.taken == |s.h.popped|)
            && NoRepeats(s.h.ran) && (k in s.h.ran ==> k in s.h.popped[..s.h.taken])
            && (k in s.h.popped[..s.h.taken] ==> (k in s.h.ran) != Carried(s.threads, k))
  {
    RunKeepsCalls(run, j);
    RunKeepsInv(run, j);
    var s := run[j];
    if Carried(s.threads, k) {
      var t: nat :| t < |s.threads| && Carries(s.threads[t]) && Held(s.threads[t]) == Some(k);
      assert HeldOk(s.p, s.h, s.threads[t]);
    }
  }

  /** When thrdpool_waitdone returns, the tasks called are just those that workers popped, each once; the
      others were freed unrun by __taskqueue_destroy. */
  lemma WaitdoneMeansCalled(run: seq<State>, j: nat, d: nat)
    requires IsRun(run) && j < |run| && d < |run[j].threads| && run[j].threads[d].Done?
    ensures var h := run[j].h;
            && h.taken <= |h.popped| && NoRepeats(h.ran)
            && forall k :: k in h.ran <==> k in h.popped[..h.taken]
  {
    RunKeepsCalls(run, j);
    RunKeepsInv(run, j);
    var s := run[j];
    assert RoleOk(s, d);
    forall t: nat | t < |s.threads| ensures !Carries(s.threads[t]) {
      assert RoleOk(s, t);
    }
  }
}
