/** Nonblocking mode of the message queue: once set it lasts, nobody goes to sleep in it, and setting it
    wakes whoever was asleep. */
module MsgQueueNonblock {
  import opened Options
  import opened MsgQueue
  import opened MsgQueueInvariant
  import opened MsgQueueRuns

  // ---- the mode lasts

  /** The store of msgqueue_set_nonblock, made by thread t. */
  ghost predicate Sets(s: State, s': State, t: nat) {
    t < |s.threads| == |s'.threads| && s.threads[t].NbStore? && !s'.threads[t].NbStore?
  }

  /** The store of msgqueue_set_block, made by some thread. */
  ghost predicate Resets(s: State, s': State) {
    |s.threads| == |s'.threads| && exists t :: 0 <= t < |s.threads| && s.threads[t].BlockStore? && !s'.threads[t].BlockStore?
  }

  lemma StepKeepsMode(s: State, s': State)
    requires Next(s, s') && ((s.q.nonblock && !Resets(s, s')) || exists t: nat :: Sets(s, s', t))
    ensures s'.q.nonblock && |s'.threads| == |s.threads|
  {
    var u: nat, pc': Pc :| Step(s, s', u, pc');
    StepThreads(s, s', u, pc');
    assert s.threads[u].BlockStore? ==> !s'.threads[u].BlockStore?;
    if t: nat :| Sets(s, s', t) {
      assert t != u ==> Woken(s.threads[t], s'.threads[t]);
    }
  }

  /** Once a thread has made the store of msgqueue_set_nonblock, the queue is in nonblocking mode until some
      thread makes that of msgqueue_set_block. */
  lemma {:induction false} NonblockLasts(run: seq<State>, i: nat, j: nat, t: nat)
    requires IsRun(run) && i < j < |run| && Sets(run[i], run[i + 1], t)
    requires forall k: nat | i < k < j :: !Resets(run[k], run[k + 1])
    ensures run[j].q.nonblock
  {
    assert Follows(run, j - 1);
    if i + 1 < j {
      NonblockLasts(run, i, j - 1, t);
    }
    StepKeepsMode(run[j - 1], run[j]);
  }

  // ---- nobody goes to sleep in it

  /** On the way to a wait, past the test that decides on it. */
  predicate GoesToSleep(pc: Pc) {
    pc.PutSleep? || pc.SwapSleep?
  }

  predicate Sleeps(pc: Pc) {
    pc.PutWait? || pc.SwapWait?
  }

  ghost predicate AllAwake(s: State) {
    forall u: nat | u < |s.threads| :: !GoesToSleep(s.threads[u]) && !Sleeps(s.threads[u])
  }

  lemma MoverStaysAwake(s: State, pc: Pc, pc': Pc)
    requires Control(s, pc, pc')
    ensures GoesToSleep(pc') ==> !s.q.nonblock
    ensures Sleeps(pc') ==> GoesToSleep(pc)
  {
  }

  /** A getter or putter that makes its test in nonblocking mode does not decide to wait. */
  lemma NobodyGoesToSleep(s: State, s': State)
    requires Next(s, s') && s.q.nonblock
    ensures |s'.threads| == |s.threads|
    ensures forall u: nat | u < |s.threads| && GoesToSleep(s'.threads[u]) :: GoesToSleep(s.threads[u])
    ensures AllAwake(s) ==> AllAwake(s')
  {
    var t: nat, pc': Pc :| Step(s, s', t, pc');
    StepThreads(s, s', t, pc');
    MoverStaysAwake(s, s.threads[t], pc');
    forall u: nat | u < |s.threads|
      ensures GoesToSleep(s'.threads[u]) ==> GoesToSleep(s.threads[u])
      ensures Sleeps(s'.threads[u]) ==> Sleeps(s.threads[u]) || GoesToSleep(s.threads[u])
    {
      assert Woken(s.threads[t := pc'][u], s'.threads[u]);
    }
  }

  // ---- setting it wakes everyone

  /** Past the signal of msgqueue_set_nonblock no getter is asleep, past the broadcast no putter either. */
  ghost predicate CallsOff(s: State, t: nat, u: nat) {
    t < |s.threads| && u < |s.threads| ==>
      && (s.threads[t].NbBroadcast? || s.threads[t].NbUnlock? ==> !s.threads[u].SwapWait?)
      && (s.threads[t].NbUnlock? ==> !s.threads[u].PutWait?)
  }

  ghost predicate NonblockOk(s: State) {
    forall t: nat, u: nat :: CallsOff(s, t, u)
  }

  lemma OneGetterSleeps(s: State)
    requires MutexOk(s)
    ensures forall v: nat, w: nat | v < |s.threads| && w < |s.threads| && s.threads[v].SwapWait? && s.threads[w].SwapWait? :: v == w
  {
    forall v: nat, w: nat | v < |s.threads| && w < |s.threads| && s.threads[v].SwapWait? && s.threads[w].SwapWait? ensures v == w {
      assert Excluded(s, v) && Excluded(s, w);
    }
  }

  /** Only one getter can be asleep, so the signal leaves none. */
  lemma SignalLeavesNone(s: State, s': State, t: nat, pc': Pc, u: nat)
    requires MutexOk(s) && Step(s, s', t, pc') && s.threads[t].NbSignal? && u < |s'.threads|
    ensures !s'.threads[u].SwapWait?
  {
    OneGetterSleeps(s);
    var threads := s.threads[t := pc'];
    assert !pc'.SwapWait?;
    assert u < |threads| ==> threads[u].SwapWait? ==> s.threads[u].SwapWait?;
  }

  lemma BroadcastLeavesNone(s: State, s': State, t: nat, pc': Pc, u: nat)
    requires Step(s, s', t, pc') && s.threads[t].NbBroadcast? && u < |s'.threads|
    ensures !s'.threads[u].PutWait?
  {
  }

  lemma NonblockGoesOn(s: State, pc: Pc, pc': Pc)
    requires Control(s, pc, pc')
    ensures (pc'.NbBroadcast? ==> pc.NbSignal?) && (pc'.NbUnlock? ==> pc.NbBroadcast?)
  {
  }

  lemma MoverCallsOff(s: State, s': State, t: nat, pc': Pc, u: nat)
    requires MutexOk(s) && NonblockOk(s) && Step(s, s', t, pc')
    ensures CallsOff(s', t, u)
  {
    StepThreads(s, s', t, pc');
    NonblockGoesOn(s, s.threads[t], pc');
    if u < |s.threads| && (pc'.NbBroadcast? || pc'.NbUnlock?) {
      assert CallsOff(s, t, u) && Woken(s.threads[t := pc'][u], s'.threads[u]);
      if pc'.NbBroadcast? {
        SignalLeavesNone(s, s', t, pc', u);
      } else {
        BroadcastLeavesNone(s, s', t, pc', u);
      }
    }
  }

  /** While a thread is about to broadcast or unlock it holds put_mutex, and nobody else falls asleep. */
  lemma BystanderCallsOff(s: State, s': State, t: nat, pc': Pc, v: nat, u: nat)
    requires MutexOk(s) && NonblockOk(s) && Step(s, s', t, pc') && v != t
    ensures CallsOff(s', v, u)
  {
    StepThreads(s, s', t, pc');
    if v < |s.threads| && u < |s.threads| && (s'.threads[v].NbBroadcast? || s'.threads[v].NbUnlock?) {
      assert Woken(s.threads[t := pc'][v], s'.threads[v]) && Woken(s.threads[t := pc'][u], s'.threads[u]);
      assert Excluded(s, v) && Excluded(s, t) && CallsOff(s, v, u);
      MoverStaysAwake(s, s.threads[t], pc');
    }
  }

  lemma {:induction false} RunKeepsOff(run: seq<State>, j: nat)
    requires IsRun(run) && j < |run|
    ensures NonblockOk(run[j])
  {
    if j > 0 {
      RunKeepsOff(run, j - 1);
      RunKeepsInv(run, j - 1);
      assert Follows(run, j - 1);
      var t: nat, pc': Pc :| Step(run[j - 1], run[j], t, pc');
      forall v: nat, u: nat ensures CallsOff(run[j], v, u) {
        if v == t {
          MoverCallsOff(run[j - 1], run[j], t, pc', u);
        } else {
          BystanderCallsOff(run[j - 1], run[j], t, pc', v, u);
        }
      }
    }
  }

  /** When msgqueue_set_nonblock is about to return, no thread is asleep or about to be, and as long as the
      mode lasts none will be. */
  lemma {:induction false} NonblockReleasesAll(run: seq<State>, i: nat, j: nat, t: nat)
    requires IsRun(run) && i <= j < |run| && t < |run[i].threads| && run[i].threads[t].NbUnlock?
    requires forall k: nat | i <= k < j :: run[k].q.nonblock
    ensures AllAwake(run[j])
  {
    if i == j {
      RunKeepsOff(run, i);
      RunKeepsInv(run, i);
      forall u: nat | u < |run[i].threads| ensures !GoesToSleep(run[i].threads[u]) && !Sleeps(run[i].threads[u]) {
        assert CallsOff(run[i], t, u) && Excluded(run[i], t) && Excluded(run[i], u);
      }
    } else {
      NonblockReleasesAll(run, i, j - 1, t);
      assert Follows(run, j - 1);
      NobodyGoesToSleep(run[j - 1], run[j]);
    }
  }
}
