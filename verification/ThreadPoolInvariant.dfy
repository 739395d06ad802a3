/** What every step of the worker pool of tp.cpp keeps: the lock, what threads have read under it, the
    whereabouts of every task, and the wake-ups. */
module ThreadPoolInvariant {
  import opened Counting
  import opened Links
  import opened Options
  import opened ThreadPool

  // ---- mutual exclusion and what the owner of the mutex knows

  ghost predicate Excluded(s: State, t: nat)
    requires t < |s.threads|
  {
    Holds(s.threads[t]) <==> s.mutex == Some(t)
  }

  predicate IsWorkerPc(pc: Pc) {
    match pc
    case EnqLock(_, n) => n
    case EnqTest(_, n) => n
    case EnqPush(_, n) => n
    case EnqUnlock(n) => n
    case EnqThrow(n) => n
    case EnqNotify(n) => n
    case _ => !(pc.Idle? || pc.DtorLock? || pc.DtorStop? || pc.DtorUnlock? || pc.DtorNotify? || pc.Join? || pc.Done?)
  }

  /** What is true of the pool while a thread is at pc. */
  ghost predicate Knows(s: State, pc: Pc) {
    match pc
    case Sleep => !s.p.stop && s.p.tasks == []
    case Check(_) => s.p.stop || s.p.tasks != []
    case Pop(_) => s.p.tasks != []
    case EnqPush(_, _) => !s.p.stop
    case EnqThrow(_) => s.p.stop
    case Leave => s.p.stop && s.p.tasks == []
    case Exited => s.p.stop && s.p.tasks == []
    case Join(i) => i <= s.workers && forall j: nat | j < i :: HasExited(s, j)
    case Done => forall j: nat | j < s.workers :: HasExited(s, j)
    case _ => true
  }

  ghost predicate ThreadOk(s: State, t: nat)
    requires t < |s.threads|
  {
    && Excluded(s, t)
    && (IsWorkerPc(s.threads[t]) <==> t < s.workers)
    && Knows(s, s.threads[t])
  }

  ghost predicate ControlOk(s: State) {
    && s.workers <= |s.threads|
    && (s.mutex.Some? ==> s.mutex.value < |s.threads|)
    && forall t: nat | t < |s.threads| :: ThreadOk(s, t)
  }

  /** The mover's own knowledge. */
  lemma MoverKnows(s: State, s': State, t: nat, pc': Pc)
    requires ControlOk(s) && Step(s, s', t, pc') && |s'.threads| == |s.threads|
    requires forall j: nat | HasExited(s, j) :: HasExited(s', j)
    ensures Knows(s', pc') && (IsWorkerPc(pc') <==> IsWorkerPc(s.threads[t]))
  {
    assert ThreadOk(s, t);
  }

  /** A bystander's: only the owner of the mutex changes the queue, and only upwards after `stop`. */
  lemma BystanderKnows(s: State, s': State, t: nat, pc': Pc, u: nat)
    requires ControlOk(s) && Step(s, s', t, pc') && |s'.threads| == |s.threads|
    requires u < |s.threads| && u != t
    requires forall j: nat | HasExited(s, j) :: HasExited(s', j)
    ensures Knows(s', s.threads[u])
  {
    assert ThreadOk(s, t) && ThreadOk(s, u);
  }

  lemma StepKeepsControl(s: State, s': State, t: nat, pc': Pc)
    requires ControlOk(s) && Step(s, s', t, pc')
    ensures ControlOk(s')
  {
    StepThreads(s, s', t, pc');
    forall j: nat | HasExited(s, j) ensures HasExited(s', j) {
      assert Roused(if j == t then pc' else s.threads[j], s'.threads[j]);
    }
    MoverKnows(s, s', t, pc');
    forall u: nat | u < |s'.threads| ensures ThreadOk(s', u) {
      assert Roused(if u == t then pc' else s.threads[u], s'.threads[u]);
      assert ThreadOk(s, u) && ThreadOk(s, t);
      if u != t { BystanderKnows(s, s', t, pc', u); }
    }
  }

  // ---- the tasks

  /** The task a thread has in hand: not pushed yet, or popped and not called yet. */
  function Carried(pc: Pc): (k: Option<nat>) {
    match pc
    case EnqLock(k, _) => Some(k)
    case EnqTest(k, _) => Some(k)
    case EnqPush(k, _) => Some(k)
    case Unlock(k) => Some(k)
    case Call(k) => Some(k)
    case _ => None
  }

  predicate FromQueue(pc: Pc) {
    pc.Unlock? || pc.Call?
  }

  ghost predicate CarriedOk(p: Pool, h: History, pc: Pc) {
    var k := Carried(pc);
    k.Some? ==>
      && k.value < p.made && k.value !in h.ran
      && (if FromQueue(pc) then k.value in h.popped else k.value !in h.accepted)
  }

  ghost predicate CarriedApart(threads: seq<Pc>, t: nat, u: nat) {
    t < u < |threads| && Carried(threads[t]).Some? ==> Carried(threads[t]) != Carried(threads[u])
  }

  ghost predicate InHand(threads: seq<Pc>, k: nat) {
    exists t: nat :: t < |threads| && FromQueue(threads[t]) && Carried(threads[t]) == Some(k)
  }

  /** What was pushed is what was popped and what is queued, in order; no handle was made twice. */
  ghost predicate OrderOk(p: Pool, h: History) {
    && h.accepted == h.popped + p.tasks && NoRepeats(h.accepted)
    && (forall k | k in h.accepted :: k < p.made)
    && NoRepeats(h.ran) && (forall k | k in h.ran :: k in h.popped)
  }

  ghost predicate TasksOk(s: State) {
    && OrderOk(s.p, s.h)
    && (forall t: nat | t < |s.threads| :: CarriedOk(s.p, s.h, s.threads[t]))
    && (forall t: nat, u: nat :: CarriedApart(s.threads, t, u))
    && (forall k | k in s.h.popped :: k in s.h.ran || InHand(s.threads, k))
  }

  lemma PopKeepsOrder(p: Pool, h: History)
    requires OrderOk(p, h) && p.tasks != []
    ensures OrderOk(p.(tasks := p.tasks[1..]), h.(popped := h.popped + [p.tasks[0]]))
    ensures p.tasks[0] in h.accepted && p.tasks[0] !in h.popped && p.tasks[0] !in h.ran
  {
    assert p.tasks == [p.tasks[0]] + p.tasks[1..];
    assert h.accepted[|h.popped|] == p.tasks[0];
    assert forall i: nat | i < |h.popped| :: h.accepted[i] == h.popped[i];
  }

  lemma StepKeepsOrder(p: Pool, h: History, pc: Pc, pc': Pc)
    requires OrderOk(p, h) && CarriedOk(p, h, pc)
    requires pc.Pop? ==> p.tasks != [] && pc' == Unlock(p.tasks[0])
    requires pc.EnqPush? ==> !pc'.EnqLock?
    ensures OrderOk(Stored(p, pc, pc'), Recorded(h, pc, pc'))
  {
    if pc.Pop? {
      PopKeepsOrder(p, h);
    } else if pc.EnqPush? {
      assert h.accepted + [pc.task] == h.popped + (p.tasks + [pc.task]);
    }
  }

  /** What a step leaves in the mover's hand: what it had, nothing, a fresh handle, or the first task
      of the queue. */
  predicate Handles(p: Pool, pc: Pc, pc': Pc) {
    || (Carried(pc') == Carried(pc) && FromQueue(pc) == FromQueue(pc') && !pc.EnqPush? && !pc.Call? && !pc.Pop?)
    || Carried(pc') == None
    || (Carried(pc') == Some(p.made) && pc'.EnqLock? && Carried(pc) == None && !pc.Pop?)
    || (pc.Pop? && p.tasks != [] && pc' == Unlock(p.tasks[0]))
  }

  lemma MoverCarries(p: Pool, h: History, pc: Pc, pc': Pc)
    requires OrderOk(p, h) && CarriedOk(p, h, pc)
    requires Handles(p, pc, pc')
    ensures CarriedOk(Stored(p, pc, pc'), Recorded(h, pc, pc'), pc')
  {
    assert forall k | k in h.ran :: k in h.popped + p.tasks;
    if pc.Pop? && pc'.Unlock? {
      PopKeepsOrder(p, h);
    }
  }

  lemma MoverHandles(s: State, pc: Pc, pc': Pc)
    requires Control(s, pc, pc')
    ensures Handles(s.p, pc, pc')
  {
  }

  /** A bystander's task is none of those the mover handles. */
  lemma BystanderCarries(s: State, t: nat, pc': Pc, u: nat)
    requires TasksOk(s) && t < |s.threads| && Control(s, s.threads[t], pc') && u < |s.threads| && u != t
    ensures CarriedOk(Stored(s.p, s.threads[t], pc'), Recorded(s.h, s.threads[t], pc'), s.threads[u])
    ensures Carried(s.threads[u]).Some? ==> Carried(pc') != Carried(s.threads[u])
  {
    assert CarriedOk(s.p, s.h, s.threads[t]) && CarriedOk(s.p, s.h, s.threads[u]);
    assert CarriedApart(s.threads, t, u) && CarriedApart(s.threads, u, t);
    MoverHandles(s, s.threads[t], pc');
    MoverCarries(s.p, s.h, s.threads[t], pc');
    if s.threads[t].Pop? {
      PopKeepsOrder(s.p, s.h);
    }
  }

  lemma StepKeepsCarried(s: State, s': State, t: nat, pc': Pc)
    requires TasksOk(s) && Step(s, s', t, pc')
    ensures forall u: nat | u < |s'.threads| :: CarriedOk(s'.p, s'.h, s'.threads[u])
    ensures forall u: nat, v: nat :: CarriedApart(s'.threads, u, v)
  {
    StepThreads(s, s', t, pc');
    MoverHandles(s, s.threads[t], pc');
    MoverCarries(s.p, s.h, s.threads[t], pc');
    forall u: nat | u < |s'.threads| ensures CarriedOk(s'.p, s'.h, s'.threads[u]) {
      assert Roused(if u == t then pc' else s.threads[u], s'.threads[u]);
      if u != t { BystanderCarries(s, t, pc', u); }
    }
    forall u: nat, v: nat ensures CarriedApart(s'.threads, u, v) {
      if u < v < |s'.threads| {
        assert Roused(if u == t then pc' else s.threads[u], s'.threads[u]);
        assert Roused(if v == t then pc' else s.threads[v], s'.threads[v]);
        assert CarriedApart(s.threads, u, v);
        if u == t { BystanderCarries(s, t, pc', v); }
        if v == t { BystanderCarries(s, t, pc', u); }
      }
    }
  }

  /** Every popped task has run or is in a worker's hand. */
  lemma StepKeepsPlaces(s: State, s': State, t: nat, pc': Pc, k: nat)
    requires TasksOk(s) && Step(s, s', t, pc') && k in s'.h.popped
    ensures k in s'.h.ran || InHand(s'.threads, k)
  {
    StepThreads(s, s', t, pc');
    if k in s.h.popped && k !in s.h.ran {
      var u: nat :| u < |s.threads| && FromQueue(s.threads[u]) && Carried(s.threads[u]) == Some(k);
      assert Roused(if u == t then pc' else s.threads[u], s'.threads[u]);
      if u != t || !s.threads[t].Call? {
        assert FromQueue(s'.threads[u]) && Carried(s'.threads[u]) == Some(k);
      }
    } else if k !in s.h.popped {
      assert s'.threads[t] == Unlock(k);
    }
  }

  lemma StepKeepsTasks(s: State, s': State, t: nat, pc': Pc)
    requires TasksOk(s) && Step(s, s', t, pc')
    ensures TasksOk(s')
  {
    assert CarriedOk(s.p, s.h, s.threads[t]);
    StepKeepsOrder(s.p, s.h, s.threads[t], pc');
    StepKeepsCarried(s, s', t, pc');
    forall k | k in s'.h.popped ensures k in s'.h.ran || InHand(s'.threads, k) {
      StepKeepsPlaces(s, s', t, pc', k);
    }
  }

  // ---- wake-ups

  /** Calls of notify_one that are still to come for a task already queued, and workers that a wake-up
      has sent to the queue and that have not taken their task yet. */
  predicate Counts(pc: Pc) {
    || pc.EnqUnlock? || pc.EnqNotify?
    || pc.Woken? || (pc.Test? && pc.woken) || (pc.Check? && pc.woken) || (pc.Pop? && pc.woken)
  }

  function Pending(threads: seq<Pc>): (n: nat) {
    Count(threads, Counts)
  }

  predicate OwesNotifyAll(pc: Pc) {
    pc.DtorUnlock? || pc.DtorNotify?
  }

  ghost predicate SomeOwesNotifyAll(s: State) {
    exists t: nat :: t < |s.threads| && OwesNotifyAll(s.threads[t])
  }

  /** A worker asleep means that every queued task has a notification or a woken worker of its own, or,
      once the pool is stopped, that everyone is about to be woken. */
  ghost predicate WakeOk(s: State) {
    !NoneAsleep(s.threads) ==>
      if s.p.stop then SomeOwesNotifyAll(s) else |s.p.tasks| <= Pending(s.threads)
  }

  /** How one step changes the queue and the pending wake-ups, while the pool runs and someone sleeps. */
  lemma StepPending(s: State, s': State, t: nat, pc': Pc)
    requires Step(s, s', t, pc') && !s.p.stop && !s.threads[t].DtorNotify?
    ensures !NoneAsleep(s'.threads) ==>
              Pending(s'.threads) >= Pending(s.threads[t := pc']) + if s.threads[t].EnqNotify? then 1 else 0
  {
    var threads := s.threads[t := pc'];
    if s.threads[t].EnqNotify? && !NoneAsleep(threads) {
      var w: nat :| w < |threads| && threads[w].Asleep? && s'.threads == threads[w := Woken];
      CountUpdate(threads, Counts, w, Woken);
    }
  }

  lemma StepKeepsRunningWake(s: State, s': State, t: nat, pc': Pc)
    requires ControlOk(s) && WakeOk(s) && Step(s, s', t, pc') && !s.p.stop && !s'.p.stop && !s.threads[t].DtorNotify?
    requires !NoneAsleep(s'.threads)
    ensures |s'.p.tasks| <= Pending(s'.threads)
  {
    assert ThreadOk(s, t);
    StepPending(s, s', t, pc');
    CountUpdate(s.threads, Counts, t, pc');
    if NoneAsleep(s.threads) {
      StepThreads(s, s', t, pc');
      var u: nat :| u < |s'.threads| && s'.threads[u].Asleep?;
      assert Roused(s.threads[t := pc'][u], s'.threads[u]);
    }
  }

  lemma StepKeepsWake(s: State, s': State, t: nat, pc': Pc)
    requires ControlOk(s) && WakeOk(s) && Step(s, s', t, pc')
    ensures WakeOk(s')
  {
    StepThreads(s, s', t, pc');
    assert ThreadOk(s, t);
    if !NoneAsleep(s'.threads) {
      var u: nat :| u < |s'.threads| && s'.threads[u].Asleep?;
      assert Roused(if u == t then pc' else s.threads[u], s'.threads[u]);
      if s'.p.stop {
        StoppedWake(s, s', t, pc', u);
      } else {
        StepKeepsRunningWake(s, s', t, pc');
      }
    }
  }

  /** Nobody is asleep right after a notify_all. */
  lemma NotifyAllMissesNobody(s: State, s': State, t: nat, pc': Pc)
    requires Step(s, s', t, pc') && !NoneAsleep(s'.threads)
    ensures !s.threads[t].DtorNotify?
  {
  }

  lemma DutyStays(s: State, s': State, t: nat, pc': Pc, v: nat)
    requires Step(s, s', t, pc') && v < |s.threads| && OwesNotifyAll(s.threads[v]) && !s.threads[t].DtorNotify?
    ensures SomeOwesNotifyAll(s')
  {
    StepThreads(s, s', t, pc');
    assert Roused(if v == t then pc' else s.threads[v], s'.threads[v]);
    assert OwesNotifyAll(s'.threads[v]);
  }

  lemma StoppedWake(s: State, s': State, t: nat, pc': Pc, u: nat)
    requires ControlOk(s) && WakeOk(s) && Step(s, s', t, pc') && s'.p.stop
    requires |s'.threads| == |s.threads| && s'.threads[t] == pc' && u < |s'.threads| && s'.threads[u].Asleep?
    requires Roused(if u == t then pc' else s.threads[u], s'.threads[u])
    ensures SomeOwesNotifyAll(s')
  {
    assert ThreadOk(s, t);
    NotifyAllMissesNobody(s, s', t, pc');
    if s.threads[t].DtorStop? {
      assert OwesNotifyAll(s'.threads[t]);
    } else {
      assert u != t && s.threads[u].Asleep?;
      var v: nat :| v < |s.threads| && OwesNotifyAll(s.threads[v]);
      DutyStays(s, s', t, pc', v);
    }
  }

  // ---- the invariant

  ghost predicate Inv(s: State) {
    ControlOk(s) && TasksOk(s) && WakeOk(s)
  }

  lemma InitInv(s: State)
    requires Init(s)
    ensures Inv(s)
  {
  }

  lemma NextKeepsInv(s: State, s': State)
    requires Inv(s) && Next(s, s')
    ensures Inv(s')
  {
    var t: nat, pc': Pc :| Step(s, s', t, pc');
    StepKeepsControl(s, s', t, pc');
    StepKeepsTasks(s, s', t, pc');
    StepKeepsWake(s, s', t, pc');
  }
}
