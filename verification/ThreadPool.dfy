/** The worker pool of tp.cpp: a mutex, one condition variable, a queue of tasks and a stop flag. One
    step per shared access; any number of workers, and any number of clients that enqueue or run the
    destructor. A running task may itself call `enqueue`. */
module ThreadPool {
  import opened Options

  /** Where a thread is: the access or call it makes next. `woken` remembers that the worker has come
      from a wake-up; `nested` that `enqueue` was called by a running task. */
  datatype Pc =
    // the worker loop
    | Begin
    | Test(woken: bool)
    | Sleep
    | Asleep
    | Woken
    | Check(woken: bool)
    | Pop(woken: bool)
    | Unlock(task: nat)
    | Call(task: nat)
    | Run
    | Leave
    | Exited
    // enqueue
    | EnqLock(task: nat, nested: bool)
    | EnqTest(task: nat, nested: bool)
    | EnqPush(task: nat, nested: bool)
    | EnqUnlock(nested: bool)
    | EnqThrow(nested: bool)
    | EnqNotify(nested: bool)
    // a client and the destructor
    | Idle
    | DtorLock
    | DtorStop
    | DtorUnlock
    | DtorNotify
    | Join(i: nat)
    | Done

  /** `made` is the next handle that make_shared will return. */
  datatype Pool = Pool(tasks: seq<nat>, stop: bool, made: nat)

  /** History: the tasks in the order they were pushed, popped and called. */
  datatype History = History(accepted: seq<nat>, popped: seq<nat>, ran: seq<nat>)

  /** Threads 0 to `workers` - 1 run the worker loop, the others are clients. */
  datatype State = State(p: Pool, h: History, mutex: Option<nat>, workers: nat, threads: seq<Pc>)

  ghost predicate Init(s: State) {
    && s.p.tasks == [] && !s.p.stop
    && s.h == History([], [], [])
    && s.mutex == None
    && s.workers <= |s.threads|
    && forall t: nat | t < |s.threads| :: s.threads[t] == if t < s.workers then Begin else Idle
  }

  // ---- the program

  /** Inside a unique_lock's scope. */
  predicate Holds(pc: Pc) {
    || pc.Test? || pc.Sleep? || pc.Check? || pc.Pop? || pc.Unlock? || pc.Leave?
    || pc.EnqTest? || pc.EnqPush? || pc.EnqUnlock? || pc.EnqThrow?
    || pc.DtorStop? || pc.DtorUnlock?
  }

  function Back(nested: bool): (pc: Pc) {
    if nested then Run else Idle
  }

  predicate HasExited(s: State, i: nat) {
    i < |s.threads| && s.threads[i].Exited?
  }

  /** Which access follows which. A wait ends by a notification, or spuriously. */
  ghost predicate Control(s: State, pc: Pc, pc': Pc) {
    match pc
    case Begin => pc' == Test(false)
    case Test(w) => pc' == if s.p.stop || s.p.tasks != [] then Check(w) else Sleep
    case Sleep => pc' == Asleep
    case Asleep => pc' == Woken
    case Woken => pc' == Test(true)
    case Check(w) => pc' == if s.p.stop && s.p.tasks == [] then Leave else Pop(w)
    case Pop(_) => s.p.tasks != [] && pc' == Unlock(s.p.tasks[0])
    case Unlock(k) => pc' == Call(k)
    case Call(_) => pc' == Run
    case Run => pc' == Begin || pc' == EnqLock(s.p.made, true)
    case Leave => pc' == Exited
    case Exited => false
    case EnqLock(k, n) => pc' == EnqTest(k, n)
    case EnqTest(k, n) => pc' == if s.p.stop then EnqThrow(n) else EnqPush(k, n)
    case EnqPush(_, n) => pc' == EnqUnlock(n)
    case EnqUnlock(n) => pc' == EnqNotify(n)
    case EnqThrow(n) => pc' == Back(n)
    case EnqNotify(n) => pc' == Back(n)
    case Idle => pc' == EnqLock(s.p.made, false) || pc' == DtorLock
    case DtorLock => pc' == DtorStop
    case DtorStop => pc' == DtorUnlock
    case DtorUnlock => pc' == DtorNotify
    case DtorNotify => pc' == Join(0)
    case Join(i) => if i < s.workers then HasExited(s, i) && pc' == Join(i + 1) else pc' == Done
    case Done => false
  }

  function Stored(p: Pool, pc: Pc, pc': Pc): (p': Pool) {
    if pc'.EnqLock? then p.(made := p.made + 1)
    else if pc.EnqPush? then p.(tasks := p.tasks + [pc.task])
    else if pc.Pop? && p.tasks != [] then p.(tasks := p.tasks[1..])
    else if pc.DtorStop? then p.(stop := true)
    else p
  }

  function Recorded(h: History, pc: Pc, pc': Pc): (h': History) {
    if pc.EnqPush? then h.(accepted := h.accepted + [pc.task])
    else if pc.Pop? && pc'.Unlock? then h.(popped := h.popped + [pc'.task])
    else if pc.Call? then h.(ran := h.ran + [pc.task])
    else h
  }

  /** A thread enters a locked scope only when the mutex is free, and owns it until it leaves. */
  ghost predicate Locking(holds: bool, holds': bool, owner: Option<nat>, owner': Option<nat>, t: nat) {
    && (!holds && holds' ==> owner == None)
    && owner' == (if holds' then Some(t) else if holds then None else owner)
  }

  /** notify_one: one sleeper, if there is any, is woken. */
  ghost predicate NotifyOne(threads: seq<Pc>, threads': seq<Pc>) {
    || (NoneAsleep(threads) && threads' == threads)
    || (exists w: nat :: w < |threads| && threads[w].Asleep? && threads' == threads[w := Woken])
  }

  ghost predicate NoneAsleep(threads: seq<Pc>) {
    forall t: nat | t < |threads| :: !threads[t].Asleep?
  }

  ghost predicate NotifyAll(threads: seq<Pc>, threads': seq<Pc>) {
    && |threads'| == |threads|
    && forall t: nat | t < |threads| :: threads'[t] == if threads[t].Asleep? then Woken else threads[t]
  }

  ghost predicate Wakes(pc: Pc, threads: seq<Pc>, threads': seq<Pc>) {
    if pc.EnqNotify? then NotifyOne(threads, threads')
    else if pc.DtorNotify? then NotifyAll(threads, threads')
    else threads' == threads
  }

  ghost predicate Step(s: State, s': State, t: nat, pc': Pc) {
    && t < |s.threads|
    && var pc := s.threads[t];
    && Control(s, pc, pc')
    && Locking(Holds(pc), Holds(pc'), s.mutex, s'.mutex, t)
    && s'.p == Stored(s.p, pc, pc')
    && s'.h == Recorded(s.h, pc, pc')
    && s'.workers == s.workers
    && Wakes(pc, s.threads[t := pc'], s'.threads)
  }

  ghost predicate Next(s: State, s': State) {
    exists t: nat, pc': Pc :: Step(s, s', t, pc')
  }

  /** What a step does to a thread: nothing, or a wake-up. */
  ghost predicate Roused(pc: Pc, pc': Pc) {
    pc' == pc || (pc.Asleep? && pc'.Woken?)
  }

  lemma StepThreads(s: State, s': State, t: nat, pc': Pc)
    requires Step(s, s', t, pc')
    ensures |s'.threads| == |s.threads|
    ensures forall u: nat | u < |s.threads| :: Roused(if u == t then pc' else s.threads[u], s'.threads[u])
    ensures s'.threads[t] == pc'
  {
  }

  ghost predicate Follows(run: seq<State>, j: nat) {
    j + 1 < |run| ==> Next(run[j], run[j + 1])
  }

  ghost predicate IsRun(run: seq<State>) {
    && 0 < |run| && Init(run[0])
    && forall j: nat :: Follows(run, j)
  }
}
