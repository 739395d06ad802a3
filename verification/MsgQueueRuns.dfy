/** What holds in every run of the message queue. */
module MsgQueueRuns {
  import opened Links
  import opened Options
  import opened MsgQueue
  import opened MsgQueueInvariant

  lemma {:induction false} RunKeepsInv(run: seq<State>, j: nat)
    requires IsRun(run) && j < |run|
    ensures Inv(run[j])
  {
    if j == 0 {
      InitInv(run[0]);
    } else {
      RunKeepsInv(run, j - 1);
      assert Follows(run, j - 1);
      NextKeepsInv(run[j - 1], run[j]);
    }
  }

  /** One FIFO queue, get list then put list, through the window where both heads are one: what has
      been taken and what is queued is what was linked in, in that order, no message twice. */
  lemma QueueIsFifo(run: seq<State>, j: nat)
    requires IsRun(run) && j < |run|
    ensures var h := run[j].h; h.sent == h.received + (h.getList + h.putList) && NoRepeats(h.getList + h.putList)
  {
    RunKeepsInv(run, j);
    var h := run[j].h;
    assert h.received + h.getList + h.putList == h.received + (h.getList + h.putList);
    forall a, b | 0 <= a < b < |h.getList + h.putList| ensures (h.getList + h.putList)[a] != (h.getList + h.putList)[b] {
      if a < |h.getList| <= b { assert h.getList[a] in h.getList && h.putList[b - |h.getList|] in h.putList; }
    }
  }

  /** Whenever put_mutex is free, msg_cnt is the length of the put list and put_tail its last slot; and
      whenever get_mutex is free, the two heads lead to the two lists. */
  lemma FieldsDescribeLists(run: seq<State>, j: nat)
    requires IsRun(run) && j < |run|
    ensures var s := run[j];
            && (s.putMutex == None ==> s.q.cnt == |s.h.putList| && s.q.putTail == Last(s.q.putHead, s.h.putList))
            && Chain(s.q.mem, s.q.putHead, s.h.putList)
            && (s.getMutex == None ==> s.q.getHead != s.q.putHead && Chain(s.q.mem, s.q.getHead, s.h.getList))
  {
    RunKeepsInv(run, j);
  }

  /** No thread ever follows NULL, or a link outside the queue's memory: the getter that takes a message
      finds one, its link has been written, and the putter's last slot exists. So every thread always has
      a next step, locks apart. */
  lemma NoNullDereference(run: seq<State>, j: nat, t: nat)
    requires IsRun(run) && j < |run| && t < |run[j].threads|
    ensures var s, pc := run[j], run[j].threads[t];
            && (pc.GetTest? ==> s.q.getHead in s.q.mem)
            && (pc.GetTake? ==>
                  && s.h.getList != [] && s.q.getHead in s.q.mem && s.q.mem[s.q.getHead] == Some(s.h.getList[0])
                  && LinkOf(s.h.getList[0]) in s.q.mem)
            && (pc.PutLink? ==> s.q.putTail in s.q.mem && s.q.mem[s.q.putTail] == None)
            && exists pc' :: Control(s, pc, pc')
  {
    RunKeepsInv(run, j);
    var s, pc := run[j], run[j].threads[t];
    assert Excluded(s, t);
    if pc.GetTest? || pc.GetTake? {
      assert SlotAt(s.q.getHead, s.h.getList, 0) == s.q.getHead;
      if pc.GetTake? { ChainTake(s.q.mem, s.q.getHead, s.h.getList); }
    }
    if pc.PutLink? {
      assert SlotAt(s.q.putHead, s.h.putList, |s.h.putList|) == s.q.putTail;
    }
    var pc' := Successor(s, pc);
  }

  /** Some access that may follow the one at pc. */
  lemma Successor(s: State, pc: Pc) returns (pc': Pc)
    requires pc.GetTest? ==> s.q.getHead in s.q.mem
    requires pc.GetTake? ==>
               && s.h.getList != [] && s.q.getHead in s.q.mem && s.q.mem[s.q.getHead].Some?
               && LinkOf(s.q.mem[s.q.getHead].value) in s.q.mem
    ensures Control(s, pc, pc')
  {
    match pc
    case Idle => pc' := GetLock;
    case PutClear(m) => pc' := PutLock(m);
    case PutLock(m) => pc' := PutTest(m);
    case PutTest(m) => pc' := if Full(s.q) && !s.q.nonblock then PutSleep(m) else PutLink(m);
    case PutSleep(m) => pc' := PutWait(m);
    case PutWait(m) => pc' := PutWoken(m);
    case PutWoken(m) => pc' := PutTest(m);
    case PutLink(m) => pc' := PutTail(m);
    case PutTail(_) => pc' := PutCount;
    case PutCount => pc' := PutUnlock;
    case PutUnlock => pc' := PutSignal;
    case PutSignal => pc' := Idle;
    case GetLock => pc' := GetTest;
    case GetTest => pc' := if s.q.mem[s.q.getHead].Some? then GetTake else SwapAlias(s.q.getHead);
    case SwapAlias(saved) => pc' := SwapLock(saved);
    case SwapLock(saved) => pc' := SwapTest(saved);
    case SwapTest(saved) => pc' := if s.q.cnt == 0 && !s.q.nonblock then SwapSleep(saved) else SwapCount(saved);
    case SwapSleep(saved) => pc' := SwapWait(saved);
    case SwapWait(saved) => pc' := SwapWoken(saved);
    case SwapWoken(saved) => pc' := SwapTest(saved);
    case SwapCount(saved) => pc' := SwapPutHead(saved, s.q.cnt);
    case SwapPutHead(saved, cnt) => pc' := SwapPutTail(saved, cnt);
    case SwapPutTail(_, cnt) => pc' := SwapZero(cnt);
    case SwapZero(cnt) => pc' := SwapUnlock(cnt);
    case SwapUnlock(cnt) => pc' := if cnt > 0 then GetTake else GetUnlock(None);
    case GetTake => pc' := GetUnlock(s.q.mem[s.q.getHead]);
    case GetUnlock(_) => pc' := Idle;
    case NbStore => pc' := NbLock;
    case NbLock => pc' := NbSignal;
    case NbSignal => pc' := NbBroadcast;
    case NbBroadcast => pc' := NbUnlock;
    case NbUnlock => pc' := Idle;
    case BlockStore => pc' := Idle;
  }

  /** A getter that has found the queue empty and holds put_mutex still. */
  predicate FoundNothing(q: Queue, pc: Pc) {
    || ((pc.SwapTest? || pc.SwapCount?) && q.cnt == 0)
    || ((pc.SwapPutHead? || pc.SwapPutTail? || pc.SwapZero? || pc.SwapUnlock?) && pc.cnt == 0)
  }

  /** From the test that finds nothing put until put_mutex is released, the whole queue is empty. */
  lemma FoundNothingMeansEmpty(run: seq<State>, j: nat, t: nat)
    requires IsRun(run) && j < |run| && t < |run[j].threads| && FoundNothing(run[j].q, run[j].threads[t])
    ensures run[j].h.getList == [] && run[j].h.putList == []
  {
    RunKeepsInv(run, j);
    assert Excluded(run[j], t);
  }

  /** The test by which thread t may leave empty-handed: nothing queued at all, in nonblocking mode. */
  ghost predicate LetsGo(s: State, t: nat) {
    && t < |s.threads| && s.threads[t].SwapTest?
    && s.q.nonblock && s.q.cnt == 0 && s.h.getList == [] && s.h.putList == []
  }

  /** Past that test, on the way to returning NULL. */
  predicate LeavesEmptyHanded(q: Queue, pc: Pc) {
    (FoundNothing(q, pc) && !pc.SwapTest?) || pc == GetUnlock(None)
  }

  /** Nobody but t itself brings t there. */
  lemma OthersLeaveIt(s: State, s': State, u: nat, pc': Pc, t: nat)
    requires MutexOk(s) && Step(s, s', u, pc') && t < |s'.threads| && t != u
    requires LeavesEmptyHanded(s'.q, s'.threads[t])
    ensures t < |s.threads| && LeavesEmptyHanded(s.q, s.threads[t])
  {
    StepThreads(s, s', u, pc');
    assert Excluded(s, t) && Excluded(s, u);
    assert s'.threads[t] == s.threads[t];
    assert s.threads[t].SwapCount? ==> s'.q.cnt == s.q.cnt;
  }

  /** How a swap goes on after its test: on that side of the wait the count found is carried along. */
  lemma AfterTest(s: State, pc: Pc, pc': Pc)
    requires Control(s, pc, pc')
    ensures pc'.SwapCount? ==> pc.SwapTest? && (s.q.cnt == 0 ==> s.q.nonblock)
    ensures pc'.SwapPutHead? ==> pc.SwapCount? && pc'.cnt == s.q.cnt
    ensures pc'.SwapPutTail? ==> pc.SwapPutHead? && pc'.cnt == pc.cnt
    ensures pc'.SwapZero? ==> pc.SwapPutTail? && pc'.cnt == pc.cnt
    ensures pc'.SwapUnlock? ==> pc.SwapZero? && pc'.cnt == pc.cnt
    ensures pc' == GetUnlock(None) ==> pc.SwapUnlock? && pc.cnt == 0
  {
  }

  /** Whoever is there was there before, or has just passed the test. */
  lemma TheWayOut(s: State, s': State, u: nat, pc': Pc, t: nat)
    requires MutexOk(s) && Step(s, s', u, pc') && t < |s'.threads| && LeavesEmptyHanded(s'.q, s'.threads[t])
    ensures t < |s.threads|
    ensures LeavesEmptyHanded(s.q, s.threads[t]) || (s.threads[t].SwapTest? && s.q.cnt == 0 && s.q.nonblock)
  {
    StepThreads(s, s', u, pc');
    if t == u {
      AfterTest(s, s.threads[t], pc');
      assert pc'.SwapCount? ==> s'.q == s.q;
    } else {
      OthersLeaveIt(s, s', u, pc', t);
    }
  }

  /** A getter returns NULL only if it has seen, at its test under put_mutex, nonblocking mode set and both
      lists empty. */
  lemma {:induction false} NullMeansEmpty(run: seq<State>, j: nat, t: nat)
    requires IsRun(run) && j < |run| && t < |run[j].threads| && LeavesEmptyHanded(run[j].q, run[j].threads[t])
    ensures exists i: nat :: i < j && LetsGo(run[i], t)
  {
    if j > 0 {
      assert Follows(run, j - 1);
      var s, s' := run[j - 1], run[j];
      var u: nat, pc': Pc :| Step(s, s', u, pc');
      RunKeepsInv(run, j - 1);
      TheWayOut(s, s', u, pc', t);
      if LeavesEmptyHanded(s.q, s.threads[t]) {
        NullMeansEmpty(run, j - 1, t);
      } else {
        FoundNothingMeansEmpty(run, j - 1, t);
        assert LetsGo(s, t);
      }
    }
  }

  /** Sleepers are never forgotten. An un-notified sleeping getter with a message to get or nonblocking
      mode set implies a thread that still owes a signal; an un-notified sleeping putter implies a
      full put list and, in nonblocking mode, a pending broadcast; and at most one getter sleeps. */
  lemma NoLostWakeups(run: seq<State>, j: nat, t: nat, u: nat)
    requires IsRun(run) && j < |run| && t < |run[j].threads| && u < |run[j].threads|
    ensures var s := run[j];
            && (s.threads[t].SwapWait? && (s.q.cnt > 0 || s.q.nonblock) ==> SomeOwesGetSignal(s))
            && (s.threads[t].PutWait? ==> s.q.cnt >= s.q.max && (s.q.nonblock ==> SomeOwesBroadcast(s)))
            && (s.threads[t].SwapWait? && s.threads[u].SwapWait? ==> t == u)
  {
    RunKeepsInv(run, j);
    assert SleeperOk(run[j], t) && Excluded(run[j], t) && Excluded(run[j], u);
  }

  /** In runs that stay blocking, at most twice msg_max messages are pending. */
  lemma PendingIsBounded(run: seq<State>, j: nat)
    requires IsRun(run) && j < |run| && run[j].q.max >= 1 && !run[j].h.everNonblock
    ensures |run[j].h.getList| + |run[j].h.putList| <= 2 * run[j].q.max
  {
    RunKeepsInv(run, j);
  }
}
