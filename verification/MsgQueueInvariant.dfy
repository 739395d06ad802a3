/** What every step of the message queue keeps: the mutexes, the two lists in memory, the whereabouts of
    every message, and the wake-ups. */
module MsgQueueInvariant {
  import opened Links
  import opened Options
  import opened MsgQueue

  // ---- mutual exclusion

  ghost predicate Excluded(s: State, t: nat)
    requires t < |s.threads|
  {
    && (HoldsPut(s.threads[t]) <==> s.putMutex == Some(t))
    && (HoldsGet(s.threads[t]) <==> s.getMutex == Some(t))
  }

  ghost predicate MutexOk(s: State) {
    && (forall t: nat | t < |s.threads| :: Excluded(s, t))
    && (s.putMutex.Some? ==> s.putMutex.value < |s.threads|)
    && (s.getMutex.Some? ==> s.getMutex.value < |s.threads|)
  }

  /** What the step does to thread u: its own move, a wake-up, or nothing. */
  ghost predicate Woken(pc: Pc, pc': Pc) {
    || pc' == pc
    || (pc.SwapWait? && pc' == SwapWoken(pc.saved))
    || (pc.PutWait? && pc' == PutWoken(pc.msg))
  }

  lemma StepThreads(s: State, s': State, t: nat, pc': Pc)
    requires Step(s, s', t, pc')
    ensures |s'.threads| == |s.threads|
    ensures forall u: nat | u < |s.threads| :: Woken(if u == t then pc' else s.threads[u], s'.threads[u])
    ensures s'.threads[t] == pc'
  {
    var threads := s.threads[t := pc'];
    forall u: nat | u < |s.threads| ensures Woken(if u == t then pc' else s.threads[u], s'.threads[u]) {
      assert threads[u] == if u == t then pc' else s.threads[u];
    }
  }

  lemma StepKeepsMutex(s: State, s': State, t: nat, pc': Pc)
    requires MutexOk(s) && Step(s, s', t, pc')
    ensures MutexOk(s')
  {
    StepThreads(s, s', t, pc');
    assert Excluded(s, t);
    forall u: nat | u < |s'.threads| ensures Excluded(s', u) {
      assert Excluded(s, u);
      assert Woken(if u == t then pc' else s.threads[u], s'.threads[u]);
    }
  }

  // ---- the lists in memory

  /** The thread inside get_mutex, and the one inside put_mutex. */
  ghost function Getter(s: State): (pc: Pc) {
    if s.getMutex.Some? && s.getMutex.value < |s.threads| then s.threads[s.getMutex.value] else Idle
  }

  ghost function Putter(s: State): (pc: Pc) {
    if s.putMutex.Some? && s.putMutex.value < |s.threads| then s.threads[s.putMutex.value] else Idle
  }

  /** The getter's side: its own list, or during the window no list at all and an emptied head saved
      for the putters. */
  ghost predicate GetSide(q: Queue, h: History, g: Pc) {
    && IsHead(q.getHead) && IsHead(q.putHead)
    && if InWindow(g) then
         && q.getHead == q.putHead && h.getList == []
         && IsHead(g.saved) && g.saved != q.putHead && Chain(q.mem, g.saved, [])
       else
         && q.getHead != q.putHead && Chain(q.mem, q.getHead, h.getList)
         && (g.SwapAlias? ==> g.saved == q.getHead && h.getList == [])
         && (g.GetTake? ==> h.getList != [])
  }

  /** The putters' side: `put_tail` is the last slot and `msg_cnt` the length of the put list, but
      for the stores that the owner of put_mutex has yet to make. */
  ghost predicate PutSide(q: Queue, h: History, p: Pc) {
    && Chain(q.mem, q.putHead, h.putList)
    && q.putTail == (match p
                     case PutTail(m) => if h.putList == [] then q.putTail else Last(q.putHead, h.putList[..|h.putList| - 1])
                     case SwapPutTail(_, _) => q.putTail
                     case _ => Last(q.putHead, h.putList))
    && match p
       case PutTail(m) => h.putList != [] && h.putList[|h.putList| - 1] == m && q.cnt + 1 == |h.putList|
       case PutCount => q.cnt + 1 == |h.putList|
       case SwapPutHead(_, cnt) => cnt == q.cnt == |h.putList|
       case SwapPutTail(saved, cnt) => saved == q.putHead && h.putList == [] && cnt == q.cnt == |h.getList|
       case SwapZero(cnt) => h.putList == [] && cnt == q.cnt == |h.getList|
       case SwapUnlock(cnt) => h.putList == [] && q.cnt == 0 && cnt == |h.getList|
       case _ => q.cnt == |h.putList|
  }

  /** The message a thread has taken charge of: on its way in before it is linked, or on its way out. */
  function Carried(pc: Pc): (m: Option<nat>) {
    match pc
    case PutClear(m) => Some(m)
    case PutLock(m) => Some(m)
    case PutTest(m) => Some(m)
    case PutSleep(m) => Some(m)
    case PutWait(m) => Some(m)
    case PutWoken(m) => Some(m)
    case PutLink(m) => Some(m)
    case GetUnlock(r) => r
    case _ => None
  }

  ghost predicate Queued(h: History, m: nat) {
    m in h.getList || m in h.putList
  }

  ghost predicate CarriedOk(s: State, t: nat)
    requires t < |s.threads|
  {
    var m := Carried(s.threads[t]);
    m.Some? ==>
      && m.value !in s.h.held && !Queued(s.h, m.value)
      && (!s.threads[t].PutClear? && !s.threads[t].GetUnlock? ==>
            LinkOf(m.value) in s.q.mem && s.q.mem[LinkOf(m.value)] == None)
  }

  ghost predicate CarriedApart(s: State, t: nat, u: nat) {
    t < u < |s.threads| && Carried(s.threads[t]).Some? ==> Carried(s.threads[t]) != Carried(s.threads[u])
  }

  /** No message is in two places, and what was linked in is what was taken and what is queued. */
  ghost predicate ListsApart(h: History) {
    && NoRepeats(h.getList) && NoRepeats(h.putList)
    && (forall m | m in h.getList :: m !in h.putList)
    && (forall m | m in h.held :: !Queued(h, m))
    && h.sent == h.received + h.getList + h.putList
  }

  ghost predicate MessagesOk(s: State) {
    && (forall t: nat | t < |s.threads| :: CarriedOk(s, t))
    && (forall t: nat, u: nat :: CarriedApart(s, t, u))
    && ListsApart(s.h)
  }

  ghost predicate ListsOk(s: State) {
    GetSide(s.q, s.h, Getter(s)) && PutSide(s.q, s.h, Putter(s))
  }

  /** Who is inside the mutexes after a step. */
  lemma StepOwners(s: State, s': State, t: nat, pc': Pc)
    requires MutexOk(s) && Step(s, s', t, pc')
    ensures HoldsPut(s.threads[t]) ==> Putter(s) == s.threads[t]
    ensures HoldsGet(s.threads[t]) ==> Getter(s) == s.threads[t]
    ensures Putter(s') == if HoldsPut(pc') then pc' else if HoldsPut(s.threads[t]) then Idle else Putter(s)
    ensures HoldsGet(pc') ==> Getter(s') == pc'
    ensures !HoldsGet(pc') && HoldsGet(s.threads[t]) ==> Getter(s') == Idle
    ensures !HoldsGet(pc') && !HoldsGet(s.threads[t]) ==> Woken(Getter(s), Getter(s'))
    ensures !HoldsPut(s.threads[t]) && HoldsPut(pc') ==> Putter(s) == Idle
    ensures !HoldsGet(s.threads[t]) && HoldsGet(pc') ==> Getter(s) == Idle
  {
    StepThreads(s, s', t, pc');
    assert Excluded(s, t);
    if s.putMutex.Some? {
      var u := s.putMutex.value;
      assert Excluded(s, u) && Woken(if u == t then pc' else s.threads[u], s'.threads[u]);
    }
    if s.getMutex.Some? {
      var u := s.getMutex.value;
      assert Excluded(s, u) && Woken(if u == t then pc' else s.threads[u], s'.threads[u]);
    }
  }

  ghost predicate StructureOk(s: State) {
    MutexOk(s) && ListsOk(s) && MessagesOk(s)
  }

  /** The steps that move a message or a head, and so need an argument of their own. */
  predicate Rearranges(pc: Pc) {
    pc.PutClear? || pc.PutLink? || pc.SwapAlias? || pc.SwapPutHead? || pc.GetTake?
  }

  lemma QuietStore(q: Queue, h: History, pc: Pc, pc': Pc)
    requires !Rearranges(pc)
    ensures var q' := Stored(q, pc, pc'); q'.mem == q.mem && q'.getHead == q.getHead && q'.putHead == q.putHead
    ensures var h' := Recorded(h, pc, pc'); h'.getList == h.getList && h'.putList == h.putList
  {
  }

  /** Steps that leave slots and lists alone keep the getter's side. */
  lemma QuietGetSide(s: State, q': Queue, h': History, g: Pc, g': Pc, pc: Pc, pc': Pc)
    requires !Rearranges(pc) && Control(s, pc, pc') && GetSide(s.q, s.h, g)
    requires q'.mem == s.q.mem && q'.getHead == s.q.getHead && q'.putHead == s.q.putHead && h'.getList == s.h.getList
    requires HoldsGet(pc) ==> g == pc
    requires !HoldsGet(pc) && HoldsGet(pc') ==> g == Idle
    requires if HoldsGet(pc') then g' == pc' else if HoldsGet(pc) then g' == Idle else Woken(g, g')
    requires pc.SwapUnlock? && pc.cnt > 0 ==> s.h.getList != []
    ensures GetSide(q', h', g')
  {
    if pc.GetTest? {
      assert SlotAt(s.q.getHead, s.h.getList, 0) == s.q.getHead;
    }
  }

  lemma StepKeepsGetSide(s: State, s': State, t: nat, pc': Pc)
    requires StructureOk(s) && Step(s, s', t, pc')
    ensures GetSide(s'.q, s'.h, Getter(s'))
  {
    StepOwners(s, s', t, pc');
    var pc := s.threads[t];
    if pc.PutClear? || pc.PutLink? {
      PuttingKeepsGetSide(s, s', t, pc');
    } else if Rearranges(pc) {
      GettingKeepsGetSide(s, s', t, pc');
    } else {
      QuietStore(s.q, s.h, pc, pc');
      QuietGetSide(s, s'.q, s'.h, Getter(s), Getter(s'), pc, pc');
    }
  }

  lemma PuttingKeepsGetSide(s: State, s': State, t: nat, pc': Pc)
    requires StructureOk(s) && Step(s, s', t, pc') && (s.threads[t].PutClear? || s.threads[t].PutLink?)
    ensures GetSide(s'.q, s'.h, Getter(s'))
  {
    StepOwners(s, s', t, pc');
    var q, h, g := s.q, s.h, Getter(s);
    assert CarriedOk(s, t);
    var head, list := if InWindow(g) then g.saved else q.getHead, if InWindow(g) then [] else h.getList;
    if s.threads[t].PutClear? {
      ChainElsewhere(q.mem, LinkOf(s.threads[t].msg), None, head, list);
    } else {
      ChainElsewhere(q.mem, q.putTail, Some(s.threads[t].msg), head, list);
    }
  }

  lemma GettingKeepsGetSide(s: State, s': State, t: nat, pc': Pc)
    requires StructureOk(s) && Step(s, s', t, pc')
    requires s.threads[t].SwapAlias? || s.threads[t].SwapPutHead? || s.threads[t].GetTake?
    ensures GetSide(s'.q, s'.h, Getter(s'))
  {
    StepOwners(s, s', t, pc');
    if s.threads[t].GetTake? {
      ChainTake(s.q.mem, s.q.getHead, s.h.getList);
    }
  }

  lemma QuietPutSide(s: State, q': Queue, h': History, p: Pc, p': Pc, pc: Pc, pc': Pc)
    requires !Rearranges(pc) && Control(s, pc, pc') && PutSide(s.q, s.h, p)
    requires q' == Stored(s.q, pc, pc') && h' == Recorded(s.h, pc, pc')
    requires HoldsPut(pc) ==> p == pc
    requires !HoldsPut(pc) && HoldsPut(pc') ==> p == Idle
    requires p' == if HoldsPut(pc') then pc' else if HoldsPut(pc) then Idle else p
    ensures PutSide(q', h', p')
  {
  }

  lemma StepKeepsPutSide(s: State, s': State, t: nat, pc': Pc)
    requires StructureOk(s) && Step(s, s', t, pc')
    ensures PutSide(s'.q, s'.h, Putter(s'))
  {
    StepOwners(s, s', t, pc');
    var pc := s.threads[t];
    if pc.PutClear? || pc.PutLink? {
      PuttingKeepsPutSide(s, s', t, pc');
    } else if pc.GetTake? {
      TakePutSide(s, s', t, pc');
    } else if Rearranges(pc) {
      SwappingKeepsPutSide(s, s', t, pc');
    } else {
      QuietPutSide(s, s'.q, s'.h, Putter(s), Putter(s'), pc, pc');
    }
  }

  /** A thread inside put_mutex that also needs get_mutex is the one inside it. */
  lemma PutterIsGetter(s: State)
    requires MutexOk(s)
    ensures HoldsGet(Putter(s)) ==> Getter(s) == Putter(s)
  {
    if s.putMutex.Some? {
      assert Excluded(s, s.putMutex.value);
    }
  }

  lemma TakePutSide(s: State, s': State, t: nat, pc': Pc)
    requires StructureOk(s) && Step(s, s', t, pc') && s.threads[t].GetTake?
    ensures PutSide(s'.q, s'.h, Putter(s'))
  {
    StepOwners(s, s', t, pc');
    PutterIsGetter(s);
    var q, h := s.q, s.h;
    ChainTake(q.mem, q.getHead, h.getList);
    ChainElsewhere(q.mem, q.getHead, q.mem[LinkOf(h.getList[0])], q.putHead, h.putList);
  }

  lemma PuttingKeepsPutSide(s: State, s': State, t: nat, pc': Pc)
    requires StructureOk(s) && Step(s, s', t, pc') && (s.threads[t].PutClear? || s.threads[t].PutLink?)
    ensures PutSide(s'.q, s'.h, Putter(s'))
  {
    StepOwners(s, s', t, pc');
    assert CarriedOk(s, t);
    if s.threads[t].PutClear? {
      ChainElsewhere(s.q.mem, LinkOf(s.threads[t].msg), None, s.q.putHead, s.h.putList);
    } else {
      ChainAppend(s.q.mem, s.q.putHead, s.h.putList, s.threads[t].msg);
    }
  }

  lemma SwappingKeepsPutSide(s: State, s': State, t: nat, pc': Pc)
    requires StructureOk(s) && Step(s, s', t, pc') && (s.threads[t].SwapAlias? || s.threads[t].SwapPutHead?)
    ensures PutSide(s'.q, s'.h, Putter(s'))
  {
    StepOwners(s, s', t, pc');
  }

  // ---- the messages

  /** A step of t changes what t carries, and nobody else's load. */
  lemma StepCarries(s: State, s': State, t: nat, pc': Pc, u: nat)
    requires Step(s, s', t, pc') && u < |s.threads|
    ensures |s'.threads| == |s.threads|
    ensures Carried(s'.threads[u]) == Carried(if u == t then pc' else s.threads[u])
    ensures s'.threads[u].PutClear? == (if u == t then pc' else s.threads[u]).PutClear?
    ensures s'.threads[u].GetUnlock? == (if u == t then pc' else s.threads[u]).GetUnlock?
  {
    StepThreads(s, s', t, pc');
    assert Woken(if u == t then pc' else s.threads[u], s'.threads[u]);
  }

  /** Steps that move a message, or by which a thread takes charge of one or hands it over. */
  predicate Transfers(pc: Pc, pc': Pc) {
    pc.PutClear? || pc.PutLink? || pc.SwapPutHead? || pc.GetTake? || pc.GetUnlock? || (pc.Idle? && pc'.PutClear?)
  }

  lemma NoTransfer(s: State, pc: Pc, pc': Pc)
    requires Control(s, pc, pc') && !Transfers(pc, pc')
    ensures Carried(pc') == Carried(pc) || Carried(pc') == None
    ensures !pc'.PutClear? && (pc'.GetUnlock? ==> Carried(pc') == None)
  {
  }

  lemma NoTransferStore(q: Queue, h: History, pc: Pc, pc': Pc)
    requires !Transfers(pc, pc')
    ensures Recorded(h, pc, pc').(everNonblock := h.everNonblock) == h
    ensures Stored(q, pc, pc').mem == q.mem
  {
  }

  lemma StepKeepsMessages(s: State, s': State, t: nat, pc': Pc)
    requires StructureOk(s) && Step(s, s', t, pc')
    ensures MessagesOk(s')
  {
    var pc := s.threads[t];
    if Transfers(pc, pc') {
      TransferKeepsMessages(s, s', t, pc');
    } else {
      NoTransfer(s, pc, pc');
      NoTransferStore(s.q, s.h, pc, pc');
      forall u: nat | u < |s'.threads| ensures CarriedOk(s', u) {
        StepCarries(s, s', t, pc', u);
        assert CarriedOk(s, u);
      }
      forall u: nat, v: nat ensures CarriedApart(s', u, v) {
        if u < |s.threads| && v < |s.threads| {
          StepCarries(s, s', t, pc', u);
          StepCarries(s, s', t, pc', v);
          assert CarriedApart(s, u, v);
        }
      }
    }
  }

  lemma TransferKeepsMessages(s: State, s': State, t: nat, pc': Pc)
    requires StructureOk(s) && Step(s, s', t, pc') && Transfers(s.threads[t], pc')
    ensures MessagesOk(s')
  {
    var pc := s.threads[t];
    StepOwners(s, s', t, pc');
    if pc.GetTake? { ChainTake(s.q.mem, s.q.getHead, s.h.getList); }
    assert CarriedOk(s, t);
    TransferKeepsLists(s.h, pc, pc');
    TransferKeepsLoads(s, s', t, pc');
  }

  lemma AppendKeepsApart(h: History, m: nat)
    requires ListsApart(h) && m !in h.held && !Queued(h, m)
    ensures ListsApart(h.(putList := h.putList + [m], sent := h.sent + [m]))
  {
  }

  lemma TakeKeepsApart(h: History)
    requires ListsApart(h) && h.getList != []
    ensures ListsApart(h.(getList := h.getList[1..], received := h.received + [h.getList[0]]))
  {
    assert h.getList == [h.getList[0]] + h.getList[1..];
  }

  /** The lists change by a message that was on neither, by taking the first, or by the swap. */
  lemma TransferKeepsLists(h: History, pc: Pc, pc': Pc)
    requires ListsApart(h)
    requires pc.PutLink? ==> pc.msg !in h.held && !Queued(h, pc.msg)
    requires pc.SwapPutHead? ==> h.getList == []
    requires pc.GetTake? ==> h.getList != [] && pc' == GetUnlock(Some(h.getList[0]))
    requires pc.GetUnlock? && pc.result.Some? ==> !Queued(h, pc.result.value)
    ensures ListsApart(Recorded(h, pc, pc'))
  {
    if pc.PutLink? {
      AppendKeepsApart(h, pc.msg);
    } else if pc.GetTake? {
      TakeKeepsApart(h);
    } else if pc.SwapPutHead? {
      assert h.received + h.getList + h.putList == h.received + h.putList + [];
    }
  }

  /** What a transfer needs to know of where it takes the message from or puts it. */
  ghost predicate TransferOk(s: State, pc: Pc) {
    && (pc.GetTake? ==> s.h.getList != [] && s.q.getHead in s.q.mem && s.q.mem[s.q.getHead] == Some(s.h.getList[0]))
    && (pc.PutLink? ==> s.q.putTail == Last(s.q.putHead, s.h.putList))
  }

  /** What a step leaves in the mover's charge: what it had, nothing, or a message from the clients or
      from the queue. */
  lemma MoverTakesCharge(s: State, pc: Pc, pc': Pc)
    requires Control(s, pc, pc') && TransferOk(s, pc)
    ensures || Carried(pc') == Carried(pc) || Carried(pc') == None
            || (Carried(pc').Some? && (Carried(pc').value in s.h.held || Queued(s.h, Carried(pc').value)))
  {
  }

  lemma MoverKeepsLoad(s: State, s': State, t: nat, pc': Pc)
    requires StructureOk(s) && Step(s, s', t, pc') && Transfers(s.threads[t], pc') && TransferOk(s, s.threads[t])
    ensures |s'.threads| == |s.threads| && CarriedOk(s', t)
  {
    StepCarries(s, s', t, pc', t);
    assert CarriedOk(s, t);
  }

  lemma BystanderKeepsLoad(s: State, s': State, t: nat, pc': Pc, u: nat)
    requires StructureOk(s) && Step(s, s', t, pc') && Transfers(s.threads[t], pc') && TransferOk(s, s.threads[t])
    requires u < |s.threads| && u != t && |s'.threads| == |s.threads|
    ensures CarriedOk(s', u)
  {
    StepCarries(s, s', t, pc', u);
    assert CarriedOk(s, u) && CarriedOk(s, t) && CarriedApart(s, u, t) && CarriedApart(s, t, u);
  }

  lemma TransferKeepsApart(s: State, s': State, t: nat, pc': Pc, u: nat, v: nat)
    requires StructureOk(s) && Step(s, s', t, pc') && TransferOk(s, s.threads[t])
    ensures CarriedApart(s', u, v)
  {
    if u < |s.threads| && v < |s.threads| {
      StepCarries(s, s', t, pc', u);
      StepCarries(s, s', t, pc', v);
      MoverTakesCharge(s, s.threads[t], pc');
      assert CarriedApart(s, u, v) && CarriedOk(s, u) && CarriedOk(s, v);
    }
  }

  lemma TransferKeepsLoads(s: State, s': State, t: nat, pc': Pc)
    requires StructureOk(s) && Step(s, s', t, pc') && Transfers(s.threads[t], pc') && TransferOk(s, s.threads[t])
    ensures forall u: nat | u < |s'.threads| :: CarriedOk(s', u)
    ensures forall u: nat, v: nat :: CarriedApart(s', u, v)
  {
    MoverKeepsLoad(s, s', t, pc');
    forall u: nat | u < |s'.threads| && u != t ensures CarriedOk(s', u) {
      BystanderKeepsLoad(s, s', t, pc', u);
    }
    forall u: nat, v: nat ensures CarriedApart(s', u, v) {
      TransferKeepsApart(s, s', t, pc', u, v);
    }
  }

  lemma StepKeepsStructure(s: State, s': State, t: nat, pc': Pc)
    requires StructureOk(s) && Step(s, s', t, pc')
    ensures StructureOk(s')
  {
    StepKeepsMutex(s, s', t, pc');
    StepKeepsGetSide(s, s', t, pc');
    StepKeepsPutSide(s, s', t, pc');
    StepKeepsMessages(s, s', t, pc');
  }

  // ---- wake-ups

  /** Threads that are still going to signal get_cond. */
  predicate OwesGetSignal(pc: Pc) {
    pc.PutUnlock? || pc.PutSignal? || pc.NbLock? || pc.NbSignal?
  }

  predicate OwesBroadcast(pc: Pc) {
    pc.NbLock? || pc.NbSignal? || pc.NbBroadcast?
  }

  ghost predicate SomeOwesGetSignal(s: State) {
    exists u: nat :: u < |s.threads| && OwesGetSignal(s.threads[u])
  }

  ghost predicate SomeOwesBroadcast(s: State) {
    exists u: nat :: u < |s.threads| && OwesBroadcast(s.threads[u])
  }

  ghost predicate SomeAtNbLock(s: State) {
    exists u: nat :: u < |s.threads| && s.threads[u].NbLock?
  }

  /** A getter that sleeps, or has decided to, has nothing to get unless a signal is on its way; a
      putter that sleeps, or has decided to, has no room, unless a broadcast is on its way. */
  ghost predicate SleeperOk(s: State, t: nat)
    requires t < |s.threads|
  {
    match s.threads[t]
    case SwapSleep(_) => s.q.cnt == 0 && (s.q.nonblock ==> SomeAtNbLock(s))
    case SwapWait(_) => s.q.cnt > 0 || s.q.nonblock ==> SomeOwesGetSignal(s)
    case PutSleep(_) => Full(s.q) && (s.q.nonblock ==> SomeAtNbLock(s))
    case PutWait(_) =>
      && Full(s.q) && (s.q.nonblock ==> SomeOwesBroadcast(s))
      && !Emptying(Putter(s))
    case _ => true
  }

  /** The owner of put_mutex has taken the put list and woken everyone. */
  predicate Emptying(pc: Pc) {
    pc.SwapPutHead? || pc.SwapPutTail? || pc.SwapZero?
  }

  ghost predicate WakeOk(s: State) {
    forall t: nat | t < |s.threads| :: SleeperOk(s, t)
  }

  /** A duty is passed on or discharged by its own thread only. */
  lemma DutyStays(s: State, s': State, t: nat, pc': Pc)
    requires Step(s, s', t, pc') && |s'.threads| == |s.threads|
    ensures SomeAtNbLock(s) && !s.threads[t].NbLock? ==> SomeAtNbLock(s')
    ensures SomeOwesGetSignal(s) && !s.threads[t].PutSignal? && !s.threads[t].NbSignal? ==> SomeOwesGetSignal(s')
    ensures SomeOwesBroadcast(s) && !s.threads[t].NbBroadcast? ==> SomeOwesBroadcast(s')
    ensures s.threads[t].PutCount? || s.threads[t].NbStore? ==> SomeOwesGetSignal(s')
    ensures s.threads[t].NbStore? ==> SomeAtNbLock(s') && SomeOwesBroadcast(s')
  {
    StepThreads(s, s', t, pc');
    forall u: nat | u < |s.threads| && (OwesGetSignal(s.threads[u]) || OwesBroadcast(s.threads[u])) && u != t
      ensures s'.threads[u] == s.threads[u]
    {
      assert Woken(if u == t then pc' else s.threads[u], s'.threads[u]);
    }
  }

  lemma StepKeepsWake(s: State, s': State, t: nat, pc': Pc)
    requires StructureOk(s) && WakeOk(s) && Step(s, s', t, pc')
    ensures WakeOk(s')
  {
    StepThreads(s, s', t, pc');
    forall u: nat | u < |s'.threads| ensures SleeperOk(s', u) {
      assert Woken(if u == t then pc' else s.threads[u], s'.threads[u]);
      if u == t {
        OwnSleepOk(s, s', t, pc');
      } else if s.threads[u].SwapSleep? || s.threads[u].PutSleep? {
        AboutToSleepOk(s, s', t, pc', u);
      } else if s'.threads[u].SwapWait? {
        SleepingGetterOk(s, s', t, pc', u);
      } else if s'.threads[u].PutWait? {
        SleepingPutterOk(s, s', t, pc', u);
      }
    }
  }

  /** A thread decides to sleep only on what it has just read inside put_mutex. */
  lemma OwnSleepOk(s: State, s': State, t: nat, pc': Pc)
    requires StructureOk(s) && WakeOk(s) && Step(s, s', t, pc') && |s'.threads| == |s.threads| && s'.threads[t] == pc'
    ensures SleeperOk(s', t)
  {
    var pc := s.threads[t];
    if pc.SwapTest? || pc.SwapSleep? || pc.PutTest? || pc.PutSleep? {
      SleepDecided(s, s', t, pc');
    }
  }

  lemma SleepDecided(s: State, s': State, t: nat, pc': Pc)
    requires StructureOk(s) && WakeOk(s) && Step(s, s', t, pc') && |s'.threads| == |s.threads| && s'.threads[t] == pc'
    requires var pc := s.threads[t]; pc.SwapTest? || pc.SwapSleep? || pc.PutTest? || pc.PutSleep?
    ensures SleeperOk(s', t)
  {
    assert SleeperOk(s, t) && Excluded(s, t);
    NbLockOwes(s');
    DutyStays(s, s', t, pc');
    StepOwners(s, s', t, pc');
  }

  lemma NbLockOwes(s: State)
    ensures SomeAtNbLock(s) ==> SomeOwesGetSignal(s) && SomeOwesBroadcast(s)
  {
    if SomeAtNbLock(s) {
      var u: nat :| u < |s.threads| && s.threads[u].NbLock?;
      assert OwesGetSignal(s.threads[u]) && OwesBroadcast(s.threads[u]);
    }
  }

  lemma AboutToSleepOk(s: State, s': State, t: nat, pc': Pc, u: nat)
    requires StructureOk(s) && WakeOk(s) && Step(s, s', t, pc') && |s'.threads| == |s.threads|
    requires u < |s.threads| && u != t && (s.threads[u].SwapSleep? || s.threads[u].PutSleep?)
    requires s'.threads[u] == s.threads[u]
    ensures SleeperOk(s', u)
  {
    assert SleeperOk(s, u) && Excluded(s, u) && Excluded(s, t);
    DutyStays(s, s', t, pc');
  }

  lemma SleepingGetterOk(s: State, s': State, t: nat, pc': Pc, u: nat)
    requires StructureOk(s) && WakeOk(s) && Step(s, s', t, pc') && |s'.threads| == |s.threads|
    requires u < |s.threads| && u != t && s.threads[u].SwapWait? && s'.threads[u] == s.threads[u]
    ensures SleeperOk(s', u)
  {
    assert SleeperOk(s, u) && Excluded(s, u);
    DutyStays(s, s', t, pc');
    if s.threads[t].PutSignal? || s.threads[t].NbSignal? {
      SignalFindsSleeper(s, s', t, pc', u);
    }
  }

  /** At most one getter sleeps, so a signal cannot miss it. */
  lemma SignalFindsSleeper(s: State, s': State, t: nat, pc': Pc, u: nat)
    requires MutexOk(s) && Step(s, s', t, pc') && |s'.threads| == |s.threads|
    requires s.threads[t].PutSignal? || s.threads[t].NbSignal?
    requires u < |s.threads| && u != t && s.threads[u].SwapWait?
    ensures s'.threads[u].SwapWoken?
  {
    var threads := s.threads[t := pc'];
    assert threads[u].SwapWait?;
    var w :| 0 <= w < |threads| && threads[w].SwapWait? && s'.threads == threads[w := SwapWoken(threads[w].saved)];
    assert Excluded(s, u) && Excluded(s, w);
  }

  /** Whoever is still asleep after a step has not been broadcast to. */
  lemma BroadcastMissesNobody(s: State, s': State, t: nat, pc': Pc, u: nat)
    requires Step(s, s', t, pc') && u < |s.threads| && u != t && |s'.threads| == |s.threads|
    requires s.threads[u].PutWait? && s'.threads[u] == s.threads[u]
    ensures !s.threads[t].NbBroadcast? && !(s.threads[t].SwapCount? && Full(s.q))
  {
    var threads := s.threads[t := pc'];
    assert threads[u] == s.threads[u];
  }

  lemma FullStays(s: State, s': State, t: nat, pc': Pc)
    requires MutexOk(s) && Step(s, s', t, pc') && Full(s.q) && !Emptying(Putter(s))
    requires !(s.threads[t].SwapCount? && Full(s.q))
    ensures Full(s'.q) && !Emptying(Putter(s'))
    ensures s'.q.nonblock ==> s.q.nonblock || s.threads[t].NbStore?
  {
    StepOwners(s, s', t, pc');
  }

  lemma SleepingPutterOk(s: State, s': State, t: nat, pc': Pc, u: nat)
    requires StructureOk(s) && WakeOk(s) && Step(s, s', t, pc') && |s'.threads| == |s.threads|
    requires u < |s.threads| && u != t && s.threads[u].PutWait? && s'.threads[u] == s.threads[u]
    ensures SleeperOk(s', u)
  {
    assert SleeperOk(s, u);
    BroadcastMissesNobody(s, s', t, pc', u);
    FullStays(s, s', t, pc');
    DutyStays(s, s', t, pc');
  }

  // ---- the bound

  /** In a run that never left blocking mode, each list holds at most msg_max messages. */
  ghost predicate Bound(q: Queue, h: History, putter: Pc) {
    q.max >= 1 && !h.everNonblock ==>
      && !q.nonblock
      && |h.getList| <= q.max && |h.putList| <= q.max
      && (putter.PutLink? ==> |h.putList| < q.max)
  }

  ghost predicate BoundOk(s: State) {
    Bound(s.q, s.h, Putter(s))
  }

  /** The steps that lengthen or move a list, or decide to. */
  predicate Moves(pc: Pc) {
    pc.PutTest? || pc.PutLink? || pc.SwapPutHead? || pc.GetTake? || pc.NbStore?
  }

  lemma QuietKeepsBound(s: State, pc: Pc, pc': Pc, putter: Pc, putter': Pc)
    requires Control(s, pc, pc') && Bound(s.q, s.h, putter) && !Moves(pc)
    requires putter' == if HoldsPut(pc') then pc' else if HoldsPut(pc) then Idle else putter
    ensures Bound(Stored(s.q, pc, pc'), Recorded(s.h, pc, pc'), putter')
  {
    assert !pc'.PutLink?;
  }

  lemma MoveKeepsBound(s: State, pc: Pc, pc': Pc, putter: Pc, putter': Pc)
    requires Control(s, pc, pc') && PutSide(s.q, s.h, putter) && Bound(s.q, s.h, putter)
    requires HoldsPut(pc) ==> putter == pc
    requires putter' == if HoldsPut(pc') then pc' else if HoldsPut(pc) then Idle else putter
    ensures Bound(Stored(s.q, pc, pc'), Recorded(s.h, pc, pc'), putter')
  {
    if !Moves(pc) {
      QuietKeepsBound(s, pc, pc', putter, putter');
    }
  }

  lemma StepKeepsBound(s: State, s': State, t: nat, pc': Pc)
    requires StructureOk(s) && BoundOk(s) && Step(s, s', t, pc')
    ensures BoundOk(s')
  {
    StepOwners(s, s', t, pc');
    MoveKeepsBound(s, s.threads[t], pc', Putter(s), Putter(s'));
  }

  // ---- the invariant

  ghost predicate Inv(s: State) {
    StructureOk(s) && WakeOk(s) && BoundOk(s)
  }

  lemma InitInv(s: State)
    requires Init(s)
    ensures Inv(s)
  {
  }

  lemma NextKeepsInv(s: State, s': State)
    requires Inv(s) && Next(s, s')
    ensures Inv(s')
  {
    var t: nat, pc': Pc :| Step(s, s', t, pc');
    StepKeepsStructure(s, s', t, pc');
    StepKeepsWake(s, s', t, pc');
    StepKeepsBound(s, s', t, pc');
  }
}
