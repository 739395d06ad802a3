/** The two-list message queue of msgqueue.c: two mutexes, two condition variables, and two lists
    that the getter swaps. One step per shared access; any number of threads, each putting, getting
    or switching the mode at will. */
module MsgQueue {
  import opened Links
  import opened Options

  /** Where a thread is: the access or call it makes next. `saved` and `cnt` are the locals
      `get_head` and `cnt` of the swap. */
  datatype Pc =
    | Idle
    // msgqueue_put
    | PutClear(msg: nat)
    | PutLock(msg: nat)
    | PutTest(msg: nat)
    | PutSleep(msg: nat)
    | PutWait(msg: nat)
    | PutWoken(msg: nat)
    | PutLink(msg: nat)
    | PutTail(msg: nat)
    | PutCount
    | PutUnlock
    | PutSignal
    // msgqueue_get and __msgqueue_swap
    | GetLock
    | GetTest
    | SwapAlias(saved: Slot)
    | SwapLock(saved: Slot)
    | SwapTest(saved: Slot)
    | SwapSleep(saved: Slot)
    | SwapWait(saved: Slot)
    | SwapWoken(saved: Slot)
    | SwapCount(saved: Slot)
    | SwapPutHead(saved: Slot, cnt: nat)
    | SwapPutTail(saved: Slot, cnt: nat)
    | SwapZero(cnt: nat)
    | SwapUnlock(cnt: nat)
    | GetTake
    | GetUnlock(result: Option<nat>)
    // msgqueue_set_nonblock and msgqueue_set_block
    | NbStore
    | NbLock
    | NbSignal
    | NbBroadcast
    | NbUnlock
    | BlockStore

  /** The fields of the queue that threads overwrite, and the memory its slots live in. */
  datatype Queue = Queue(
    max: nat, cnt: nat, nonblock: bool,
    mem: map<Slot, Option<nat>>, getHead: Slot, putHead: Slot, putTail: Slot)

  /** History: the two lists as sequences, the messages in the order they were linked in and in the
      order they were taken, the messages clients hold, and whether nonblocking mode was ever set. */
  datatype History = History(
    getList: seq<nat>, putList: seq<nat>, sent: seq<nat>, received: seq<nat>, held: set<nat>, everNonblock: bool)

  datatype State = State(q: Queue, h: History, getMutex: Option<nat>, putMutex: Option<nat>, threads: seq<Pc>)

  ghost predicate Init(s: State) {
    && s.q.cnt == 0 && !s.q.nonblock && !s.h.everNonblock
    && s.q.mem == map[Head(1) := None, Head(2) := None]
    && s.q.getHead == Head(1) && s.q.putHead == Head(2) && s.q.putTail == Head(2)
    && s.getMutex == None && s.putMutex == None
    && (forall t | 0 <= t < |s.threads| :: s.threads[t] == Idle)
    && s.h.getList == [] && s.h.putList == [] && s.h.sent == [] && s.h.received == []
  }

  /** `msg_cnt > msg_max - 1` on size_t: with msg_max == 0 the right side wraps to the largest value. */
  predicate Full(q: Queue) {
    q.max != 0 && q.cnt > q.max - 1
  }

  // ---- mutexes and condition variables

  /** Between pthread_mutex_lock(&put_mutex) and its unlock or wait. */
  predicate HoldsPut(pc: Pc) {
    || pc.PutTest? || pc.PutSleep? || pc.PutLink? || pc.PutTail? || pc.PutCount? || pc.PutUnlock?
    || pc.SwapTest? || pc.SwapSleep? || pc.SwapCount? || pc.SwapPutHead? || pc.SwapPutTail? || pc.SwapZero? || pc.SwapUnlock?
    || pc.NbSignal? || pc.NbBroadcast? || pc.NbUnlock?
  }

  /** Between pthread_mutex_lock(&get_mutex) and its unlock. */
  predicate HoldsGet(pc: Pc) {
    || pc.GetTest? || pc.SwapAlias? || InWindow(pc) || pc.SwapPutTail? || pc.SwapZero? || pc.SwapUnlock?
    || pc.GetTake? || pc.GetUnlock?
  }

  /** From the early store to `get_head` until `put_head` moves away: the two point to the same list. */
  predicate InWindow(pc: Pc) {
    || pc.SwapLock? || pc.SwapTest? || pc.SwapSleep? || pc.SwapWait? || pc.SwapWoken? || pc.SwapCount? || pc.SwapPutHead?
  }

  /** A thread enters a section only when the mutex is free, and owns it until it leaves. */
  ghost predicate Locking(holds: bool, holds': bool, owner: Option<nat>, owner': Option<nat>, t: nat) {
    && (!holds && holds' ==> owner == None)
    && owner' == (if holds' then Some(t) else if holds then None else owner)
  }

  /** pthread_cond_signal(&get_cond): one sleeping getter, if there is any, is woken. */
  ghost predicate SignalGet(threads: seq<Pc>, threads': seq<Pc>) {
    || ((forall w | 0 <= w < |threads| :: !threads[w].SwapWait?) && threads' == threads)
    || (exists w :: 0 <= w < |threads| && threads[w].SwapWait? && threads' == threads[w := SwapWoken(threads[w].saved)])
  }

  /** pthread_cond_broadcast(&put_cond): every sleeping putter is woken. */
  ghost predicate BroadcastPut(threads: seq<Pc>, threads': seq<Pc>) {
    && |threads'| == |threads|
    && forall t | 0 <= t < |threads| :: threads'[t] == if threads[t].PutWait? then PutWoken(threads[t].msg) else threads[t]
  }

  // ---- the program

  /** Which access follows which. A wait ends by a signal, a broadcast, or spuriously. */
  ghost predicate Control(s: State, pc: Pc, pc': Pc) {
    match pc
    case Idle => pc' == GetLock || pc' == NbStore || pc' == BlockStore || (pc'.PutClear? && pc'.msg in s.h.held)
    case PutClear(m) => pc' == PutLock(m)
    case PutLock(m) => pc' == PutTest(m)
    case PutTest(m) => pc' == if Full(s.q) && !s.q.nonblock then PutSleep(m) else PutLink(m)
    case PutSleep(m) => pc' == PutWait(m)
    case PutWait(m) => pc' == PutWoken(m)
    case PutWoken(m) => pc' == PutTest(m)
    case PutLink(m) => pc' == PutTail(m)
    case PutTail(m) => pc' == PutCount
    case PutCount => pc' == PutUnlock
    case PutUnlock => pc' == PutSignal
    case PutSignal => pc' == Idle
    case GetLock => pc' == GetTest
    case GetTest => s.q.getHead in s.q.mem && pc' == if s.q.mem[s.q.getHead].Some? then GetTake else SwapAlias(s.q.getHead)
    case SwapAlias(saved) => pc' == SwapLock(saved)
    case SwapLock(saved) => pc' == SwapTest(saved)
    case SwapTest(saved) => pc' == if s.q.cnt == 0 && !s.q.nonblock then SwapSleep(saved) else SwapCount(saved)
    case SwapSleep(saved) => pc' == SwapWait(saved)
    case SwapWait(saved) => pc' == SwapWoken(saved)
    case SwapWoken(saved) => pc' == SwapTest(saved)
    case SwapCount(saved) => pc' == SwapPutHead(saved, s.q.cnt)
    case SwapPutHead(saved, cnt) => pc' == SwapPutTail(saved, cnt)
    case SwapPutTail(saved, cnt) => pc' == SwapZero(cnt)
    case SwapZero(cnt) => pc' == SwapUnlock(cnt)
    case SwapUnlock(cnt) => pc' == if cnt > 0 then GetTake else GetUnlock(None)
    case GetTake =>
      && s.q.getHead in s.q.mem && s.q.mem[s.q.getHead].Some? && LinkOf(s.q.mem[s.q.getHead].value) in s.q.mem
      && s.h.getList != []
      && pc' == GetUnlock(s.q.mem[s.q.getHead])
    case GetUnlock(_) => pc' == Idle
    case NbStore => pc' == NbLock
    case NbLock => pc' == NbSignal
    case NbSignal => pc' == NbBroadcast
    case NbBroadcast => pc' == NbUnlock
    case NbUnlock => pc' == Idle
    case BlockStore => pc' == Idle
  }

  /** The store a thread makes as it goes from pc to pc'. */
  function Stored(q: Queue, pc: Pc, pc': Pc): (q': Queue) {
    match pc
    case PutClear(m) => q.(mem := q.mem[LinkOf(m) := None])
    case PutLink(m) => q.(mem := q.mem[q.putTail := Some(m)])
    case PutTail(m) => q.(putTail := LinkOf(m))
    case PutCount => q.(cnt := q.cnt + 1)
    case SwapAlias(_) => q.(getHead := q.putHead)
    case SwapPutHead(saved, _) => q.(putHead := saved)
    case SwapPutTail(saved, _) => q.(putTail := saved)
    case SwapZero(_) => q.(cnt := 0)
    case GetTake =>
      if pc'.GetUnlock? && pc'.result.Some? && LinkOf(pc'.result.value) in q.mem
      then q.(mem := q.mem[q.getHead := q.mem[LinkOf(pc'.result.value)]]) else q
    case NbStore => q.(nonblock := true)
    case BlockStore => q.(nonblock := false)
    case _ => q
  }

  function Recorded(h: History, pc: Pc, pc': Pc): (h': History) {
    match pc
    case Idle => if pc'.PutClear? then h.(held := h.held - {pc'.msg}) else h
    case PutLink(m) => h.(putList := h.putList + [m], sent := h.sent + [m])
    case SwapPutHead(_, _) => h.(getList := h.putList, putList := [])
    case GetTake =>
      if pc'.GetUnlock? && pc'.result.Some? && h.getList != []
      then h.(getList := h.getList[1..], received := h.received + [pc'.result.value]) else h
    case GetUnlock(r) => if r.Some? then h.(held := h.held + {r.value}) else h
    case NbStore => h.(everNonblock := true)
    case _ => h
  }

  ghost predicate Wakes(q: Queue, pc: Pc, threads: seq<Pc>, threads': seq<Pc>) {
    if pc.PutSignal? || pc.NbSignal? then SignalGet(threads, threads')
    else if pc.NbBroadcast? || (pc.SwapCount? && Full(q)) then BroadcastPut(threads, threads')
    else threads' == threads
  }

  ghost predicate Step(s: State, s': State, t: nat, pc': Pc) {
    && t < |s.threads|
    && var pc := s.threads[t];
    && Control(s, pc, pc')
    && Locking(HoldsPut(pc), HoldsPut(pc'), s.putMutex, s'.putMutex, t)
    && Locking(HoldsGet(pc), HoldsGet(pc'), s.getMutex, s'.getMutex, t)
    && s'.q == Stored(s.q, pc, pc')
    && s'.h == Recorded(s.h, pc, pc')
    && Wakes(s.q, pc, s.threads[t := pc'], s'.threads)
  }

  ghost predicate Next(s: State, s': State) {
    exists t: nat, pc': Pc :: Step(s, s', t, pc')
  }

  ghost predicate Follows(run: seq<State>, j: nat) {
    j + 1 < |run| ==> Next(run[j], run[j + 1])
  }

  ghost predicate IsRun(run: seq<State>) {
    && 0 < |run| && Init(run[0])
    && forall j: nat :: Follows(run, j)
  }
}
