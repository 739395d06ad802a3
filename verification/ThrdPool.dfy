/** The C worker pool of thrd_pool.c: a task queue linked through its nodes and guarded by the
    test-and-test-and-set spinlock of spinlock.h, a mutex and a condition variable for sleeping, and
    the flags `quit` and `block`. One step per shared access; any number of workers and of clients.
    A running task may itself post tasks or terminate the pool. */
module ThrdPool {
  import opened Links
  import opened Options

  /** __pop_task: the access it makes next. */
  datatype PopPc = PopTas | PopSpin | PopTest | PopTake | PopReset(taken: nat) | PopUnlock(result: Option<nat>)

  /** __get_task after a pop that found nothing. */
  datatype GetPc = GetMutex | GetBlock | GetGiveUp | GetWait | Asleep | Woken | GetUnlock

  /** thrdpool_post and __add_task. */
  datatype PostPc =
    | PostQuit
    | PostMalloc
    | PostClear(node: nat)
    | PostTas(node: nat)
    | PostSpin(node: nat)
    | PostLink(node: nat)
    | PostTail(node: nat)
    | PostUnlock
    | PostSignal

  /** thrdpool_terminate and __nonblock. */
  datatype TermPc = TermStore | TermMutex | TermBlock | TermUnlock | TermBroadcast

  /** Where a thread is. A pop is made by a worker or, when `destroys`, by __taskqueue_destroy; a post
      or a terminate is made by a client or, when `nested`, by the task that a worker is running. */
  datatype Pc =
    // __thrdpool_worker
    | WorkQuit
    | Get(get: GetPc)
    | Fetch(task: nat)
    | Free(task: nat)
    | Call(task: nat)
    | Run
    | Exited
    // calls
    | Pop(pop: PopPc, destroys: bool)
    | Post(post: PostPc, nested: bool)
    | Term(term: TermPc, nested: bool)
    // a client, thrdpool_waitdone and __taskqueue_destroy
    | Idle
    | Join(i: nat)
    | DestroyFree(task: nat)
    | Done

  /** The shared fields. `live` are the task nodes malloc has handed out and nobody has freed; a link
      is in `mem` once it has been written; Head(0) is the field `head`. */
  datatype Pool = Pool(
    mem: map<Slot, Option<nat>>, live: set<nat>, made: nat,
    tail: Slot, spin: bool, block: bool, quit: bool)

  /** History: the queued tasks, the tasks in the order they were linked, popped, freed and called,
      and how many of them workers have popped. */
  datatype History = History(
    list: seq<nat>, pushed: seq<nat>, popped: seq<nat>, freed: seq<nat>, ran: seq<nat>, taken: nat)

  /** Threads 0 to `count` - 1 are the workers. `waiting`: thrdpool_waitdone has been called. */
  datatype State = State(
    p: Pool, h: History, spinOwner: Option<nat>, mutex: Option<nat>, count: nat, waiting: bool, threads: seq<Pc>)

  ghost predicate Init(s: State) {
    && s.p == Pool(map[Head(0) := None], {}, 0, Head(0), false, true, false)
    && s.h == History([], [], [], [], [], 0)
    && s.spinOwner == None && s.mutex == None && !s.waiting
    && s.count <= |s.threads|
    && forall t: nat | t < |s.threads| :: s.threads[t] == if t < s.count then WorkQuit else Idle
  }

  // ---- the program

  /** Between spinlock_lock and spinlock_unlock. */
  predicate HoldsSpin(pc: Pc) {
    match pc
    case Pop(at, _) => !at.PopTas? && !at.PopSpin?
    case Post(at, _) => at.PostLink? || at.PostTail? || at.PostUnlock?
    case _ => false
  }

  /** Between pthread_mutex_lock and its unlock or wait. */
  predicate HoldsMutex(pc: Pc) {
    match pc
    case Get(at) => at.GetBlock? || at.GetGiveUp? || at.GetWait? || at.GetUnlock?
    case Term(at, _) => at.TermBlock? || at.TermUnlock?
    case _ => false
  }

  function Back(nested: bool): (pc: Pc) {
    if nested then Run else Idle
  }

  predicate HasExited(s: State, i: nat) {
    i < |s.threads| && s.threads[i].Exited?
  }

  /** What a client must see to before thrdpool_waitdone: no other client is in a call, nor makes one
      afterwards. */
  ghost predicate OthersIdle(s: State) {
    forall u: nat | s.count <= u < |s.threads| :: s.threads[u].Idle?
  }

  /** The nodes behind the pointers that a step follows have been allocated and not been freed. */
  predicate Safe(p: Pool, pc: Pc) {
    match pc
    case Fetch(k) => k in p.live
    case Free(k) => k in p.live
    case DestroyFree(k) => k in p.live
    case Pop(PopTest, _) => Head(0) in p.mem
    case Pop(PopTake, _) =>
      Head(0) in p.mem && p.mem[Head(0)].Some? && p.mem[Head(0)].value in p.live && LinkOf(p.mem[Head(0)].value) in p.mem
    case Pop(PopReset(_), _) => Head(0) in p.mem
    case Post(PostClear(k), _) => k in p.live
    case Post(PostLink(_), _) => p.tail.LinkOf? ==> p.tail.node in p.live
    case _ => true
  }

  /** spinlock_lock is an exchange, and on failure a loop of loads before the next exchange. */
  ghost predicate PopControl(p: Pool, at: PopPc, at': PopPc)
    requires Safe(p, Pop(at, false))
  {
    match at
    case PopTas => at' == if p.spin then PopSpin else PopTest
    case PopSpin => at' == if p.spin then PopSpin else PopTas
    case PopTest => at' == if p.mem[Head(0)] == None then PopUnlock(None) else PopTake
    case PopTake => at' == PopReset(p.mem[Head(0)].value)
    case PopReset(k) => at' == PopUnlock(Some(k))
    case PopUnlock(_) => false
  }

  /** A wait ends by a signal, a broadcast, or spuriously. */
  ghost predicate GetControl(p: Pool, at: GetPc, at': GetPc) {
    match at
    case GetMutex => at' == GetBlock
    case GetBlock => at' == if p.block then GetWait else GetGiveUp
    case GetWait => at' == Asleep
    case Asleep => at' == Woken
    case Woken => at' == GetUnlock
    case GetGiveUp => false
    case GetUnlock => false
  }

  ghost predicate PostControl(p: Pool, at: PostPc, at': PostPc) {
    match at
    case PostQuit => !p.quit && at' == PostMalloc
    case PostMalloc => at' == PostClear(p.made)
    case PostClear(k) => at' == PostTas(k)
    case PostTas(k) => at' == if p.spin then PostSpin(k) else PostLink(k)
    case PostSpin(k) => at' == if p.spin then PostSpin(k) else PostTas(k)
    case PostLink(k) => at' == PostTail(k)
    case PostTail(_) => at' == PostUnlock
    case PostUnlock => at' == PostSignal
    case PostSignal => false
  }

  /** A post ends early when the pool has quit or malloc fails. */
  predicate PostEnds(p: Pool, at: PostPc) {
    (at.PostQuit? && p.quit) || at.PostMalloc? || at.PostSignal?
  }

  ghost predicate TermControl(at: TermPc, at': TermPc) {
    match at
    case TermStore => at' == TermMutex
    case TermMutex => at' == TermBlock
    case TermBlock => at' == TermUnlock
    case TermUnlock => at' == TermBroadcast
    case TermBroadcast => false
  }

  function AfterPop(result: Option<nat>, destroys: bool): (pc: Pc) {
    match result
    case Some(k) => if destroys then DestroyFree(k) else Fetch(k)
    case None => if destroys then Done else Get(GetMutex)
  }

  /** Which access follows which. */
  ghost predicate Control(s: State, pc: Pc, pc': Pc)
    requires Safe(s.p, pc)
  {
    match pc
    case WorkQuit => pc' == if s.p.quit then Exited else Pop(PopTas, false)
    case Get(at) =>
      if at.GetGiveUp? then pc' == Exited
      else if at.GetUnlock? then pc' == Pop(PopTas, false)
      else pc'.Get? && GetControl(s.p, at, pc'.get)
    case Fetch(k) => pc' == Free(k)
    case Free(k) => pc' == Call(k)
    case Call(_) => pc' == Run
    case Run => pc' == WorkQuit || pc' == Post(PostQuit, true) || pc' == Term(TermStore, true)
    case Exited => false
    case Pop(at, d) =>
      if at.PopUnlock? then pc' == AfterPop(at.result, d)
      else pc'.Pop? && pc'.destroys == d && PopControl(s.p, at, pc'.pop)
    case Post(at, n) =>
      || (PostEnds(s.p, at) && pc' == Back(n))
      || (pc'.Post? && pc'.nested == n && PostControl(s.p, at, pc'.post))
    case Term(at, n) =>
      if at.TermBroadcast? then pc' == Back(n)
      else pc'.Term? && pc'.nested == n && TermControl(at, pc'.term)
    case Idle =>
      && !s.waiting
      && (pc' == Post(PostQuit, false) || pc' == Term(TermStore, false) || (OthersIdle(s) && pc' == Join(0)))
    case Join(i) => if i < s.count then HasExited(s, i) && pc' == Join(i + 1) else pc' == Pop(PopTas, true)
    case DestroyFree(_) => pc' == Pop(PopTas, true)
    case Done => false
  }

  /** The exchange of the spinlock stores 1 also when it fails, which changes nothing. */
  function PopStore(p: Pool, at: PopPc): (p': Pool)
    requires Safe(p, Pop(at, false))
  {
    match at
    case PopTas => p.(spin := true)
    case PopTake => p.(mem := p.mem[Head(0) := p.mem[LinkOf(p.mem[Head(0)].value)]])
    case PopReset(_) => if p.mem[Head(0)] == None then p.(tail := Head(0)) else p
    case PopUnlock(_) => p.(spin := false)
    case _ => p
  }

  function PostStore(p: Pool, at: PostPc): (p': Pool) {
    match at
    case PostClear(k) => p.(mem := p.mem[LinkOf(k) := None])
    case PostTas(_) => p.(spin := true)
    case PostLink(k) => p.(mem := p.mem[p.tail := Some(k)])
    case PostTail(k) => p.(tail := LinkOf(k))
    case PostUnlock => p.(spin := false)
    case _ => p
  }

  function Freed(p: Pool, k: nat): (p': Pool) {
    p.(live := p.live - {k}, mem := p.mem - {LinkOf(k)})
  }

  /** The store a thread makes as it goes from pc to pc'. */
  function Stored(p: Pool, pc: Pc, pc': Pc): (p': Pool)
    requires Safe(p, pc)
  {
    match pc
    case Pop(at, _) => PopStore(p, at)
    case Post(at, _) =>
      if at.PostMalloc? && pc'.Post? then p.(live := p.live + {p.made}, made := p.made + 1) else PostStore(p, at)
    case Term(at, _) => if at.TermStore? then p.(quit := true) else if at.TermBlock? then p.(block := false) else p
    case Free(k) => Freed(p, k)
    case DestroyFree(k) => Freed(p, k)
    case _ => p
  }

  function Recorded(h: History, pc: Pc): (h': History) {
    match pc
    case Post(PostLink(k), _) => h.(list := h.list + [k], pushed := h.pushed + [k])
    case Pop(PopTake, d) =>
      if h.list == [] then h
      else h.(list := h.list[1..], popped := h.popped + [h.list[0]], taken := h.taken + if d then 0 else 1)
    case Free(k) => h.(freed := h.freed + [k])
    case DestroyFree(k) => h.(freed := h.freed + [k])
    case Call(k) => h.(ran := h.ran + [k])
    case _ => h
  }

  function OwnerAfter(holds: bool, holds': bool, owner: Option<nat>, t: nat): (owner': Option<nat>) {
    if holds' then Some(t) else if holds then None else owner
  }

  predicate IsAsleep(pc: Pc) {
    pc == Get(Asleep)
  }

  ghost predicate NoneAsleep(threads: seq<Pc>) {
    forall t: nat | t < |threads| :: !IsAsleep(threads[t])
  }

  /** pthread_cond_signal: one sleeper, if there is any, is woken. */
  ghost predicate Signal(threads: seq<Pc>, threads': seq<Pc>) {
    || (NoneAsleep(threads) && threads' == threads)
    || (exists w: nat :: w < |threads| && IsAsleep(threads[w]) && threads' == threads[w := Get(Woken)])
  }

  ghost predicate Broadcast(threads: seq<Pc>, threads': seq<Pc>) {
    && |threads'| == |threads|
    && forall t: nat | t < |threads| :: threads'[t] == if IsAsleep(threads[t]) then Get(Woken) else threads[t]
  }

  ghost predicate Wakes(pc: Pc, threads: seq<Pc>, threads': seq<Pc>) {
    if pc.Post? && pc.post.PostSignal? then Signal(threads, threads')
    else if pc.Term? && pc.term.TermBroadcast? then Broadcast(threads, threads')
    else threads' == threads
  }

  /** The mutex lets a thread in only when it is free; the spinlock has only its word to go by. */
  ghost predicate Step(s: State, s': State, t: nat, pc': Pc) {
    && t < |s.threads|
    && var pc := s.threads[t];
    && Safe(s.p, pc) && Control(s, pc, pc')
    && (!HoldsMutex(pc) && HoldsMutex(pc') ==> s.mutex == None)
    && s'.mutex == OwnerAfter(HoldsMutex(pc), HoldsMutex(pc'), s.mutex, t)
    && s'.spinOwner == OwnerAfter(HoldsSpin(pc), HoldsSpin(pc'), s.spinOwner, t)
    && s'.p == Stored(s.p, pc, pc')
    && s'.h == Recorded(s.h, pc)
    && s'.count == s.count && s'.waiting == (s.waiting || pc'.Join?)
    && Wakes(pc, s.threads[t := pc'], s'.threads)
  }

  ghost predicate Next(s: State, s': State) {
    exists t: nat, pc': Pc :: Step(s, s', t, pc')
  }

  /** What a step does to a thread: nothing, or a wake-up. */
  ghost predicate Roused(pc: Pc, pc': Pc) {
    pc' == pc || (IsAsleep(pc) && pc' == Get(Woken))
  }

  lemma StepThreads(s: State, s': State, t: nat, pc': Pc)
    requires Step(s, s', t, pc')
    ensures |s'.threads| == |s.threads|
    ensures forall u: nat | u < |s.threads| :: Roused(if u == t then pc' else s.threads[u], s'.threads[u])
    ensures s'.threads[t] == pc'
  {
  }

  ghost predicate Follows(run: seq<State>, j: nat) {
    j + 1 < |run| ==> Next(run[j], run[j + 1])
  }

  ghost predicate IsRun(run: seq<State>) {
    && 0 < |run| && Init(run[0])
    && forall j: nat :: Follows(run, j)
  }
}
