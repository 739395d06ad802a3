/** What holds in every run of the worker pool of tp.cpp. */
module ThreadPoolRuns {
  import opened Links
  import opened Options
  import opened ThreadPool
  import opened ThreadPoolInvariant

  lemma {:induction false} RunKeepsInv(run: seq<State>, j: nat)
    requires IsRun(run) && j < |run|
    ensures Inv(run[j])
  {
    if j == 0 {
      InitInv(run[0]);
    } else {
      RunKeepsInv(run, j - 1);
      assert Follows(run, j - 1);
      NextKeepsInv(run[j - 1], run[j]);
    }
  }

  /** `tasks.front()` and `tasks.pop()` are never called on an empty queue. */
  lemma PopFindsATask(run: seq<State>, j: nat, t: nat)
    requires IsRun(run) && j < |run| && t < |run[j].threads| && run[j].threads[t].Pop?
    ensures run[j].p.tasks != []
  {
    RunKeepsInv(run, j);
    assert ThreadOk(run[j], t);
  }

  /** Tasks are popped in the order they were pushed, and a task is called at most once, after it was
      popped; whatever was popped has been called or is in one worker's hand. */
  lemma TasksAreConserved(run: seq<State>, j: nat)
    requires IsRun(run) && j < |run|
    ensures var s := run[j];
            && s.h.accepted == s.h.popped + s.p.tasks && NoRepeats(s.h.accepted)
            && NoRepeats(s.h.ran) && (forall k | k in s.h.ran :: k in s.h.popped)
            && (forall k | k in s.h.popped :: (k in s.h.ran) != InHand(s.threads, k))
  {
    RunKeepsInv(run, j);
    var s := run[j];
    forall k | k in s.h.popped ensures (k in s.h.ran) != InHand(s.threads, k) {
      if InHand(s.threads, k) {
        var t: nat :| t < |s.threads| && FromQueue(s.threads[t]) && Carried(s.threads[t]) == Some(k);
        assert CarriedOk(s.p, s.h, s.threads[t]);
      }
    }
  }

  /** Work conservation. While the pool runs, a sleeping worker means that the queued tasks are no
      more than the notifications to come and the workers already woken for them. */
  lemma SleepersLeaveNoWork(run: seq<State>, j: nat, t: nat)
    requires IsRun(run) && j < |run| && t < |run[j].threads| && run[j].threads[t].Asleep?
    ensures if run[j].p.stop then SomeOwesNotifyAll(run[j]) else |run[j].p.tasks| <= Pending(run[j].threads)
  {
    RunKeepsInv(run, j);
  }

  /** Draining. Once the destructor has joined the workers, and there was one, every accepted task
      has been popped in order and called exactly once. */
  lemma JoinedMeansDrained(run: seq<State>, j: nat, d: nat)
    requires IsRun(run) && j < |run| && d < |run[j].threads| && run[j].threads[d].Done?
    requires run[j].workers >= 1
    ensures var s := run[j];
            && s.p.stop && s.p.tasks == [] && s.h.popped == s.h.accepted
            && NoRepeats(s.h.ran) && (forall k :: k in s.h.ran <==> k in s.h.accepted)
  {
    RunKeepsInv(run, j);
    var s := run[j];
    assert ThreadOk(s, d) && HasExited(s, 0) && ThreadOk(s, 0);
    forall t: nat | t < |s.threads| ensures !FromQueue(s.threads[t]) {
      assert ThreadOk(s, t);
      if t < s.workers { assert HasExited(s, t); }
    }
  }

  lemma {:induction false} NoWorkersNoPops(run: seq<State>, j: nat)
    requires IsRun(run) && j < |run| && run[j].workers == 0
    ensures run[j].h.popped == []
  {
    if j > 0 {
      assert Follows(run, j - 1);
      var t: nat, pc': Pc :| Step(run[j - 1], run[j], t, pc');
      NoWorkersNoPops(run, j - 1);
      RunKeepsInv(run, j - 1);
      assert ThreadOk(run[j - 1], t);
    }
  }

  /** At least one worker is just what draining takes. */
  lemma DrainedIffWorkers(run: seq<State>, j: nat, d: nat)
    requires IsRun(run) && j < |run| && d < |run[j].threads| && run[j].threads[d].Done?
    ensures run[j].p.tasks == [] <==> run[j].workers >= 1 || run[j].h.accepted == []
  {
    TasksAreConserved(run, j);
    if run[j].workers >= 1 {
      JoinedMeansDrained(run, j, d);
    } else {
      NoWorkersNoPops(run, j);
    }
  }

  lemma StoppedAcceptsNone(s: State, s': State)
    requires ControlOk(s) && Next(s, s') && s.p.stop
    ensures s'.p.stop && s'.h.accepted == s.h.accepted
  {
    var t: nat, pc': Pc :| Step(s, s', t, pc');
    assert ThreadOk(s, t);
  }

  /** No task is accepted once the pool is stopped. */
  lemma {:induction false} NoneAcceptedAfterStop(run: seq<State>, i: nat, j: nat)
    requires IsRun(run) && i <= j < |run| && run[i].p.stop
    ensures run[j].p.stop && run[j].h.accepted == run[i].h.accepted
  {
    if i < j {
      NoneAcceptedAfterStop(run, i, j - 1);
      RunKeepsInv(run, j - 1);
      assert Follows(run, j - 1);
      StoppedAcceptsNone(run[j - 1], run[j]);
    }
  }

  /** An enqueue throws only in a stopped pool. */
  lemma ThrowMeansStopped(run: seq<State>, j: nat, t: nat)
    requires IsRun(run) && j < |run| && t < |run[j].threads| && run[j].threads[t].EnqThrow?
    ensures run[j].p.stop
  {
    RunKeepsInv(run, j);
    assert ThreadOk(run[j], t);
  }

  /** The step of t itself that leaves the test of `stop`. */
  lemma TestDecides(s: State, s': State, t: nat, k: nat, n: bool)
    requires Next(s, s') && t < |s.threads| && s.threads[t] == EnqTest(k, n)
    requires t < |s'.threads| && s'.threads[t] != EnqTest(k, n)
    ensures s'.threads[t] == (if s.p.stop then EnqThrow(n) else EnqPush(k, n)) && s'.p == s.p && s'.h.accepted == s.h.accepted
  {
    var u: nat, pc': Pc :| Step(s, s', u, pc');
    StepThreads(s, s', u, pc');
  }

  ghost predicate Pushing(s: State, t: nat, k: nat, n: bool) {
    t < |s.threads| && s.threads[t] == EnqPush(k, n)
  }

  lemma PushGoesThrough(s: State, s': State, t: nat, k: nat, n: bool)
    requires Next(s, s') && (Pushing(s, t, k, n) || k in s.h.accepted)
    ensures Pushing(s', t, k, n) || k in s'.h.accepted
  {
    var u: nat, pc': Pc :| Step(s, s', u, pc');
    StepThreads(s, s', u, pc');
    if Pushing(s, t, k, n) {
      assert Roused(if t == u then pc' else s.threads[t], s'.threads[t]);
    }
  }

  lemma {:induction false} PushesGoThrough(run: seq<State>, i: nat, j: nat, t: nat, k: nat, n: bool)
    requires IsRun(run) && i <= j < |run| && Pushing(run[i], t, k, n)
    ensures Pushing(run[j], t, k, n) || k in run[j].h.accepted
  {
    if i < j {
      PushesGoThrough(run, i, j - 1, t, k, n);
      assert Follows(run, j - 1);
      PushGoesThrough(run[j - 1], run[j], t, k, n);
    }
  }

  /** An enqueue throws if and only if the pool was stopped at its test, and once it is past its push its
      task is accepted if and only if the pool was not. */
  lemma EnqueueAcceptedIff(run: seq<State>, i: nat, j: nat, t: nat, k: nat, n: bool)
    requires IsRun(run) && i < j < |run| && t < |run[i].threads| && run[i].threads[t] == EnqTest(k, n)
    requires t < |run[i + 1].threads| && run[i + 1].threads[t] != EnqTest(k, n) && !Pushing(run[j], t, k, n)
    ensures run[i + 1].threads[t] == EnqThrow(n) <==> run[i].p.stop
    ensures k in run[j].h.accepted <==> !run[i].p.stop
  {
    assert Follows(run, i);
    TestDecides(run[i], run[i + 1], t, k, n);
    if run[i].p.stop {
      NoneAcceptedAfterStop(run, i, j);
      RunKeepsInv(run, i);
      assert CarriedOk(run[i].p, run[i].h, run[i].threads[t]);
    } else {
      PushesGoThrough(run, i + 1, j, t, k, n);
    }
  }
}
