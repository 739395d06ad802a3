/** Calls of the message queue that run alone. From every state that keeps the invariant and has the mutexes
    free, a thread that nobody interferes with gets through its call, or to its wait, and this is all that
    it does. */
module MsgQueueAlone {
  import opened Links
  import opened Options
  import opened MsgQueue
  import opened MsgQueueInvariant

  function OwnerAfter(holds: bool, holds': bool, owner: Option<nat>, t: nat): (owner': Option<nat>) {
    if holds' then Some(t) else if holds then None else owner
  }

  ghost predicate StepOf(path: seq<State>, t: nat, j: nat) {
    j + 1 < |path| ==> t < |path[j].threads| == |path[j + 1].threads| && Step(path[j], path[j + 1], t, path[j + 1].threads[t])
  }

  /** A path all of whose steps are t's, from s on. */
  ghost predicate Alone(s: State, path: seq<State>, t: nat) {
    0 < |path| && path[0] == s && forall j: nat :: StepOf(path, t, j)
  }

  function Now(path: seq<State>): (s: State)
    requires 0 < |path|
  {
    path[|path| - 1]
  }

  /** The path goes on by one step, to s'. */
  lemma GoTo(s: State, path: seq<State>, t: nat, pc': Pc, s': State) returns (path': seq<State>)
    requires Alone(s, path, t) && Step(Now(path), s', t, pc')
    ensures Alone(s, path', t) && Now(path') == s'
  {
    StepThreads(Now(path), s', t, pc');
    path' := path + [s'];
    forall j: nat ensures StepOf(path', t, j) {
      assert StepOf(path, t, j);
    }
  }

  /** Thread t is at pc, the others where they are in s. */
  ghost predicate AtPc(s: State, path: seq<State>, t: nat, pc: Pc) {
    Alone(s, path, t) && t < |s.threads| && Now(path).threads == s.threads[t := pc]
  }

  predicate WakesOthers(q: Queue, pc: Pc) {
    pc.PutSignal? || pc.NbSignal? || pc.NbBroadcast? || (pc.SwapCount? && Full(q))
  }

  /** The step from pc to pc', when it wakes nobody; q' and h' are what it leaves. */
  lemma Go(s: State, path: seq<State>, t: nat, pc: Pc, pc': Pc, q': Queue, h': History) returns (path': seq<State>)
    requires AtPc(s, path, t, pc) && Control(Now(path), pc, pc') && !WakesOthers(Now(path).q, pc)
    requires !HoldsGet(pc) && HoldsGet(pc') ==> Now(path).getMutex == None
    requires !HoldsPut(pc) && HoldsPut(pc') ==> Now(path).putMutex == None
    requires q' == Stored(Now(path).q, pc, pc') && h' == Recorded(Now(path).h, pc, pc')
    ensures AtPc(s, path', t, pc')
    ensures Now(path') == State(q', h', OwnerAfter(HoldsGet(pc), HoldsGet(pc'), Now(path).getMutex, t),
                                OwnerAfter(HoldsPut(pc), HoldsPut(pc'), Now(path).putMutex, t), s.threads[t := pc'])
  {
    var m := Now(path);
    var s' := State(q', h', OwnerAfter(HoldsGet(pc), HoldsGet(pc'), m.getMutex, t),
                    OwnerAfter(HoldsPut(pc), HoldsPut(pc'), m.putMutex, t), s.threads[t := pc']);
    assert m.threads[t := pc'] == s'.threads;
    path' := GoTo(s, path, t, pc', s');
  }

  lemma Stands(s: State, t: nat) returns (path: seq<State>)
    requires t < |s.threads|
    ensures AtPc(s, path, t, s.threads[t]) && Now(path) == s
  {
    path := [s];
    assert s.threads == s.threads[t := s.threads[t]];
  }

  /** One path after another. */
  lemma Joined(s: State, a: seq<State>, b: seq<State>, t: nat) returns (path: seq<State>)
    requires Alone(s, a, t) && Alone(Now(a), b, t)
    ensures Alone(s, path, t) && Now(path) == Now(b)
  {
    path := a + b[1..];
    forall j: nat ensures StepOf(path, t, j) {
      if j < |a| - 1 {
        assert StepOf(a, t, j);
      } else {
        assert StepOf(b, t, j - (|a| - 1));
      }
    }
  }

  // ---- msgqueue_put

  /** A client calls msgqueue_put with a message it holds, and comes to the test of msg_cnt. */
  lemma PutEnters(s: State, t: nat, m: nat) returns (path: seq<State>)
    requires t < |s.threads| && s.threads[t].Idle? && m in s.h.held && s.putMutex == None
    ensures AtPc(s, path, t, PutTest(m))
    ensures Now(path) == s.(q := s.q.(mem := s.q.mem[LinkOf(m) := None]), h := s.h.(held := s.h.held - {m}),
                            putMutex := Some(t), threads := s.threads[t := PutTest(m)])
  {
    var q', h' := s.q.(mem := s.q.mem[LinkOf(m) := None]), s.h.(held := s.h.held - {m});
    path := Stands(s, t);
    path := Go(s, path, t, s.threads[t], PutClear(m), s.q, h');
    path := Go(s, path, t, PutClear(m), PutLock(m), q', h');
    path := Go(s, path, t, PutLock(m), PutTest(m), q', h');
  }

  lemma PutLinks(s: State, path: seq<State>, t: nat, m: nat) returns (path': seq<State>)
    requires AtPc(s, path, t, PutTest(m)) && (!Full(Now(path).q) || Now(path).q.nonblock) && Now(path).putMutex == Some(t)
    ensures AtPc(s, path', t, PutTail(m))
    ensures var now := Now(path);
            Now(path') == now.(q := now.q.(mem := now.q.mem[now.q.putTail := Some(m)]),
                               h := now.h.(putList := now.h.putList + [m], sent := now.h.sent + [m]),
                               threads := s.threads[t := PutTail(m)])
  {
    var q, h := Now(path).q, Now(path).h;
    path' := Go(s, path, t, PutTest(m), PutLink(m), q, h);
    path' := Go(s, path', t, PutLink(m), PutTail(m), q.(mem := q.mem[q.putTail := Some(m)]),
                h.(putList := h.putList + [m], sent := h.sent + [m]));
  }

  lemma PutStores(s: State, path: seq<State>, t: nat, m: nat) returns (path': seq<State>)
    requires AtPc(s, path, t, PutTest(m)) && (!Full(Now(path).q) || Now(path).q.nonblock) && Now(path).putMutex == Some(t)
    ensures AtPc(s, path', t, PutUnlock)
    ensures var now := Now(path);
            Now(path') == now.(q := now.q.(mem := now.q.mem[now.q.putTail := Some(m)], putTail := LinkOf(m), cnt := now.q.cnt + 1),
                               h := now.h.(putList := now.h.putList + [m], sent := now.h.sent + [m]),
                               threads := s.threads[t := PutUnlock])
  {
    path' := PutLinks(s, path, t, m);
    var q, h := Now(path').q, Now(path').h;
    path' := Go(s, path', t, PutTail(m), PutCount, q.(putTail := LinkOf(m)), h);
    path' := Go(s, path', t, PutCount, PutUnlock, q.(putTail := LinkOf(m), cnt := q.cnt + 1), h);
  }

  /** What pthread_cond_signal(&get_cond) leaves of the threads. */
  lemma Signalled(threads: seq<Pc>) returns (threads': seq<Pc>)
    ensures SignalGet(threads, threads')
  {
    threads' := threads;
    if w :| 0 <= w < |threads| && threads[w].SwapWait? {
      threads' := threads[w := SwapWoken(threads[w].saved)];
    }
  }

  lemma PutSignals(s: State, path: seq<State>, t: nat) returns (path': seq<State>)
    requires AtPc(s, path, t, PutUnlock)
    ensures Alone(s, path', t) && SignalGet(s.threads[t := Idle], Now(path').threads)
    ensures Now(path') == Now(path).(putMutex := None, threads := Now(path').threads)
  {
    path' := Go(s, path, t, PutUnlock, PutSignal, Now(path).q, Now(path).h);
    var threads' := Signalled(s.threads[t := Idle]);
    assert Now(path').threads[t := Idle] == s.threads[t := Idle];
    path' := GoTo(s, path', t, Idle, Now(path').(threads := threads'));
  }

  /** The rest of the call, once the test has let it through. */
  lemma PutLeaves(s: State, path: seq<State>, t: nat, m: nat) returns (path': seq<State>)
    requires AtPc(s, path, t, PutTest(m)) && (!Full(Now(path).q) || Now(path).q.nonblock) && Now(path).putMutex == Some(t)
    ensures Alone(s, path', t) && SignalGet(s.threads[t := Idle], Now(path').threads)
    ensures var now := Now(path);
            Now(path') == now.(q := now.q.(mem := now.q.mem[now.q.putTail := Some(m)], putTail := LinkOf(m), cnt := now.q.cnt + 1),
                               h := now.h.(putList := now.h.putList + [m], sent := now.h.sent + [m]),
                               putMutex := None, threads := Now(path').threads)
  {
    path' := PutStores(s, path, t, m);
    path' := PutSignals(s, path', t);
  }

  /** With room, or in nonblocking mode, the message goes to the end of the put list, and a sleeping getter,
      if there is one, is woken. */
  lemma PutAlone(s: State, t: nat, m: nat) returns (path: seq<State>)
    requires t < |s.threads| && s.threads[t].Idle? && m in s.h.held && s.putMutex == None && (!Full(s.q) || s.q.nonblock)
    ensures Alone(s, path, t) && SignalGet(s.threads, Now(path).threads)
    ensures Now(path) == s.(q := s.q.(mem := s.q.mem[LinkOf(m) := None][s.q.putTail := Some(m)], putTail := LinkOf(m), cnt := s.q.cnt + 1),
                            h := s.h.(putList := s.h.putList + [m], sent := s.h.sent + [m], held := s.h.held - {m}),
                            threads := Now(path).threads)
  {
    path := PutEnters(s, t, m);
    path := PutLeaves(s, path, t, m);
    assert s.threads[t := Idle] == s.threads;
  }

  /** Full and blocking, it waits, its link cleared and nothing linked. */
  lemma PutWaitsAlone(s: State, t: nat, m: nat) returns (path: seq<State>)
    requires t < |s.threads| && s.threads[t].Idle? && m in s.h.held && s.putMutex == None && Full(s.q) && !s.q.nonblock
    ensures Alone(s, path, t)
    ensures Now(path) == s.(q := s.q.(mem := s.q.mem[LinkOf(m) := None]), h := s.h.(held := s.h.held - {m}),
                            threads := s.threads[t := PutWait(m)])
  {
    path := PutEnters(s, t, m);
    path := Go(s, path, t, PutTest(m), PutSleep(m), Now(path).q, Now(path).h);
    path := Go(s, path, t, PutSleep(m), PutWait(m), Now(path).q, Now(path).h);
  }

  /** A putter that has been woken goes on if there is room by now, or the mode has changed. */
  lemma PutGoesOnAlone(s: State, t: nat, m: nat) returns (path: seq<State>)
    requires t < |s.threads| && s.threads[t] == PutWoken(m) && s.putMutex == None && (!Full(s.q) || s.q.nonblock)
    ensures Alone(s, path, t) && SignalGet(s.threads[t := Idle], Now(path).threads)
    ensures Now(path) == s.(q := s.q.(mem := s.q.mem[s.q.putTail := Some(m)], putTail := LinkOf(m), cnt := s.q.cnt + 1),
                            h := s.h.(putList := s.h.putList + [m], sent := s.h.sent + [m]), threads := Now(path).threads)
  {
    path := Stands(s, t);
    path := Go(s, path, t, PutWoken(m), PutTest(m), s.q, s.h);
    path := PutLeaves(s, path, t, m);
  }

  // ---- msgqueue_get

  /** The two heads lead to the two lists, and the getter's link has been written. */
  ghost predicate AtRest(q: Queue, h: History) {
    && q.getHead != q.putHead && q.getHead in q.mem && q.putHead in q.mem
    && q.mem[q.getHead] == NodeAt(h.getList, 0) && q.mem[q.putHead] == NodeAt(h.putList, 0)
    && (h.getList != [] ==> LinkOf(h.getList[0]) in q.mem && q.mem[LinkOf(h.getList[0])] == NodeAt(h.getList, 1))
    && (h.putList != [] ==> LinkOf(h.putList[0]) in q.mem && q.mem[LinkOf(h.putList[0])] == NodeAt(h.putList, 1))
    && q.cnt == |h.putList|
  }

  lemma FreeQueue(s: State)
    requires Inv(s) && s.getMutex == None && s.putMutex == None
    ensures AtRest(s.q, s.h)
  {
    var q, h := s.q, s.h;
    assert SlotAt(q.getHead, h.getList, 0) == q.getHead && SlotAt(q.putHead, h.putList, 0) == q.putHead;
    assert h.getList != [] ==> SlotAt(q.getHead, h.getList, 1) == LinkOf(h.getList[0]);
    assert h.putList != [] ==> SlotAt(q.putHead, h.putList, 1) == LinkOf(h.putList[0]);
  }

  /** Taking the first message of the get list, and returning it. */
  lemma Takes(s: State, path: seq<State>, t: nat) returns (path': seq<State>)
    requires AtPc(s, path, t, GetTake) && Now(path).getMutex == Some(t) && Now(path).h.getList != []
    requires var q, h := Now(path).q, Now(path).h;
             && q.getHead in q.mem && q.mem[q.getHead] == Some(h.getList[0])
             && LinkOf(h.getList[0]) in q.mem && q.mem[LinkOf(h.getList[0])] == NodeAt(h.getList, 1)
    ensures Alone(s, path', t)
    ensures var now := Now(path); var m := now.h.getList[0];
            Now(path') == now.(q := now.q.(mem := now.q.mem[now.q.getHead := NodeAt(now.h.getList, 1)]),
                               h := now.h.(getList := now.h.getList[1..], received := now.h.received + [m], held := now.h.held + {m}),
                               getMutex := None, threads := s.threads[t := Idle])
  {
    var q, h := Now(path).q, Now(path).h;
    var m := h.getList[0];
    var q' := q.(mem := q.mem[q.getHead := NodeAt(h.getList, 1)]);
    var h' := h.(getList := h.getList[1..], received := h.received + [m]);
    path' := Go(s, path, t, GetTake, GetUnlock(Some(m)), q', h');
    path' := Go(s, path', t, GetUnlock(Some(m)), Idle, q', h'.(held := h.held + {m}));
  }

  lemma GetEnters(s: State, t: nat) returns (path: seq<State>)
    requires t < |s.threads| && s.threads[t].Idle? && s.getMutex == None
    ensures AtPc(s, path, t, GetTest) && Now(path) == s.(getMutex := Some(t), threads := s.threads[t := GetTest])
  {
    path := Stands(s, t);
    path := Go(s, path, t, s.threads[t], GetLock, s.q, s.h);
    path := Go(s, path, t, GetLock, GetTest, s.q, s.h);
  }

  /** With messages on the get list it returns the first of them. */
  lemma GetAlone(s: State, t: nat) returns (path: seq<State>)
    requires Inv(s) && t < |s.threads| && s.threads[t].Idle? && s.getMutex == None && s.putMutex == None && s.h.getList != []
    ensures Alone(s, path, t)
    ensures var m := s.h.getList[0];
            Now(path) == s.(q := s.q.(mem := s.q.mem[s.q.getHead := NodeAt(s.h.getList, 1)]),
                            h := s.h.(getList := s.h.getList[1..], received := s.h.received + [m], held := s.h.held + {m}))
  {
    FreeQueue(s);
    path := GetEnters(s, t);
    path := Go(s, path, t, GetTest, GetTake, s.q, s.h);
    path := Takes(s, path, t);
    assert s.threads[t := Idle] == s.threads;
  }

  /** With none there, the heads become one and it comes to the test of msg_cnt. */
  lemma SwapEnters(s: State, t: nat) returns (path: seq<State>)
    requires AtRest(s.q, s.h) && t < |s.threads| && s.threads[t].Idle? && s.getMutex == None && s.putMutex == None && s.h.getList == []
    ensures AtPc(s, path, t, SwapTest(s.q.getHead))
    ensures Now(path) == s.(q := s.q.(getHead := s.q.putHead), getMutex := Some(t), putMutex := Some(t),
                            threads := s.threads[t := SwapTest(s.q.getHead)])
  {
    var saved := s.q.getHead;
    path := GetEnters(s, t);
    path := Go(s, path, t, GetTest, SwapAlias(saved), s.q, s.h);
    path := Go(s, path, t, SwapAlias(saved), SwapLock(saved), s.q.(getHead := s.q.putHead), s.h);
    path := Go(s, path, t, SwapLock(saved), SwapTest(saved), s.q.(getHead := s.q.putHead), s.h);
  }

  /** The threads after the swap: the putters are woken just when the put list was full. */
  function AfterSwap(q: Queue, threads: seq<Pc>): (threads': seq<Pc>)
    ensures if Full(q) then BroadcastPut(threads, threads') else threads' == threads
  {
    if Full(q) then seq(|threads|, i requires 0 <= i < |threads| => if threads[i].PutWait? then PutWoken(threads[i].msg) else threads[i])
    else threads
  }

  /** The step that reads msg_cnt. */
  lemma SwapCounts(s: State, path: seq<State>, t: nat, saved: Slot) returns (path': seq<State>)
    requires AtPc(s, path, t, SwapTest(saved)) && Now(path).getMutex == Now(path).putMutex == Some(t)
    requires Now(path).q.cnt > 0 || Now(path).q.nonblock
    ensures Alone(s, path', t)
    ensures Now(path') == Now(path).(threads := AfterSwap(Now(path).q, s.threads[t := SwapPutHead(saved, Now(path).q.cnt)]))
  {
    path' := Go(s, path, t, SwapTest(saved), SwapCount(saved), Now(path).q, Now(path).h);
    var pc' := SwapPutHead(saved, Now(path).q.cnt);
    assert Now(path').threads[t := pc'] == s.threads[t := pc'];
    path' := GoTo(s, path', t, pc', Now(path').(threads := AfterSwap(Now(path).q, s.threads[t := pc'])));
  }

  /** The stores of the swap, and the unlock. */
  lemma SwapStores(s: State, t: nat, saved: Slot, cnt: nat) returns (path: seq<State>)
    requires t < |s.threads| && s.threads[t] == SwapPutHead(saved, cnt) && s.getMutex == s.putMutex == Some(t)
    ensures var pc := if cnt > 0 then GetTake else GetUnlock(None);
            && AtPc(s, path, t, pc)
            && Now(path) == s.(q := s.q.(putHead := saved, putTail := saved, cnt := 0),
                               h := s.h.(getList := s.h.putList, putList := []), putMutex := None, threads := s.threads[t := pc])
  {
    path := SwapMoves(s, t, saved, cnt);
    var q, h := Now(path).q, Now(path).h;
    path := Go(s, path, t, SwapZero(cnt), SwapUnlock(cnt), q.(cnt := 0), h);
    path := Go(s, path, t, SwapUnlock(cnt), if cnt > 0 then GetTake else GetUnlock(None), q.(cnt := 0), h);
  }

  lemma SwapMoves(s: State, t: nat, saved: Slot, cnt: nat) returns (path: seq<State>)
    requires t < |s.threads| && s.threads[t] == SwapPutHead(saved, cnt) && s.getMutex == s.putMutex == Some(t)
    ensures AtPc(s, path, t, SwapZero(cnt))
    ensures Now(path) == s.(q := s.q.(putHead := saved, putTail := saved), h := s.h.(getList := s.h.putList, putList := []),
                            threads := s.threads[t := SwapZero(cnt)])
  {
    var h' := s.h.(getList := s.h.putList, putList := []);
    path := Stands(s, t);
    path := Go(s, path, t, SwapPutHead(saved, cnt), SwapPutTail(saved, cnt), s.q.(putHead := saved), h');
    path := Go(s, path, t, SwapPutTail(saved, cnt), SwapZero(cnt), s.q.(putHead := saved, putTail := saved), h');
  }

  /** The queue after the swap. */
  function Swapped(q: Queue, saved: Slot): (q': Queue) {
    q.(getHead := q.putHead, putHead := saved, putTail := saved, cnt := 0)
  }

  /** From the test that lets it through, a getter whose get list is empty takes the put list over and returns
      its first message, or NULL when that is empty too. */
  lemma SwapLeaves(s: State, path: seq<State>, t: nat, saved: Slot) returns (path': seq<State>)
    requires AtPc(s, path, t, SwapTest(saved)) && Now(path).getMutex == Now(path).putMutex == Some(t)
    requires var q, h := Now(path).q, Now(path).h;
             && (q.cnt > 0 || q.nonblock) && q.cnt == |h.putList| && q.getHead == q.putHead && q.putHead in q.mem
             && q.mem[q.putHead] == NodeAt(h.putList, 0)
             && (h.putList != [] ==> LinkOf(h.putList[0]) in q.mem && q.mem[LinkOf(h.putList[0])] == NodeAt(h.putList, 1))
    ensures Alone(s, path', t)
    ensures Now(path').getMutex == Now(path').putMutex == None && Now(path').threads == AfterSwap(Now(path).q, s.threads[t := Idle])
    ensures var q, h := Now(path).q, Now(path).h;
            if h.putList == [] then Now(path').q == Swapped(q, saved) && Now(path').h == h.(getList := [])
            else
              && Now(path').q == Swapped(q, saved).(mem := q.mem[q.putHead := NodeAt(h.putList, 1)])
              && Now(path').h == h.(getList := h.putList[1..], putList := [],
                                    received := h.received + [h.putList[0]], held := h.held + {h.putList[0]})
  {
    path' := SwapCounts(s, path, t, saved);
    var m := Now(path');
    var b := SwapStores(m, t, saved, Now(path).q.cnt);
    if Now(path).h.putList == [] {
      b := Go(m, b, t, GetUnlock(None), Idle, Now(b).q, Now(b).h);
    } else {
      b := Takes(m, b, t);
    }
    path' := Joined(s, path', b, t);
    assert m.threads[t := Idle] == AfterSwap(Now(path).q, s.threads[t := Idle]);
  }

  /** With the get list empty but not the put list, a call to msgqueue_get swaps the two, returns the first
      message, and wakes the putters just when the put list was full. */
  lemma GetSwapsAlone(s: State, t: nat) returns (path: seq<State>)
    requires Inv(s) && t < |s.threads| && s.threads[t].Idle? && s.getMutex == None && s.putMutex == None
    requires s.h.getList == [] && s.h.putList != []
    ensures Alone(s, path, t)
    ensures var m := s.h.putList[0];
            Now(path) == s.(q := Swapped(s.q, s.q.getHead).(mem := s.q.mem[s.q.putHead := NodeAt(s.h.putList, 1)]),
                            h := s.h.(getList := s.h.putList[1..], putList := [], received := s.h.received + [m], held := s.h.held + {m}),
                            threads := AfterSwap(s.q, s.threads))
  {
    FreeQueue(s);
    path := SwapEnters(s, t);
    path := SwapLeaves(s, path, t, s.q.getHead);
    assert s.threads[t := Idle] == s.threads;
  }

  /** With nothing queued in nonblocking mode it returns NULL, and leaves the two lists empty. */
  lemma GetFindsNothingAlone(s: State, t: nat) returns (path: seq<State>)
    requires Inv(s) && t < |s.threads| && s.threads[t].Idle? && s.getMutex == None && s.putMutex == None
    requires s.h.getList == [] && s.h.putList == [] && s.q.nonblock
    ensures Alone(s, path, t) && Now(path) == s.(q := Swapped(s.q, s.q.getHead))
  {
    FreeQueue(s);
    path := SwapEnters(s, t);
    path := SwapLeaves(s, path, t, s.q.getHead);
    assert s.threads[t := Idle] == s.threads;
  }

  /** With nothing queued in blocking mode it waits, with get_mutex held, the heads one, and its own saved. */
  lemma GetWaitsAlone(s: State, t: nat) returns (path: seq<State>)
    requires Inv(s) && t < |s.threads| && s.threads[t].Idle? && s.getMutex == None && s.putMutex == None
    requires s.h.getList == [] && s.h.putList == [] && !s.q.nonblock
    ensures Alone(s, path, t)
    ensures Now(path) == s.(q := s.q.(getHead := s.q.putHead), getMutex := Some(t), threads := s.threads[t := SwapWait(s.q.getHead)])
  {
    FreeQueue(s);
    var saved := s.q.getHead;
    path := SwapEnters(s, t);
    path := Go(s, path, t, SwapTest(saved), SwapSleep(saved), Now(path).q, Now(path).h);
    path := Go(s, path, t, SwapSleep(saved), SwapWait(saved), Now(path).q, Now(path).h);
  }

  /** A getter that has been woken goes on if something was put, or the mode has changed: it takes the put
      list over and returns its first message, or NULL. */
  lemma GetGoesOnAlone(s: State, t: nat, saved: Slot) returns (path: seq<State>)
    requires Inv(s) && t < |s.threads| && s.threads[t] == SwapWoken(saved) && s.putMutex == None && (s.q.cnt > 0 || s.q.nonblock)
    ensures Alone(s, path, t)
    ensures Now(path).getMutex == Now(path).putMutex == None && Now(path).threads == AfterSwap(s.q, s.threads[t := Idle])
    ensures if s.h.putList == [] then Now(path).q == Swapped(s.q, saved) && Now(path).h == s.h
            else
              && Now(path).q == Swapped(s.q, saved).(mem := s.q.mem[s.q.putHead := NodeAt(s.h.putList, 1)])
              && Now(path).h == s.h.(getList := s.h.putList[1..], putList := [],
                                     received := s.h.received + [s.h.putList[0]], held := s.h.held + {s.h.putList[0]})
  {
    WokenFinds(s, t);
    path := Stands(s, t);
    path := Go(s, path, t, SwapWoken(saved), SwapTest(saved), s.q, s.h);
    path := SwapLeaves(s, path, t, saved);
  }

  lemma WokenFinds(s: State, t: nat)
    requires Inv(s) && t < |s.threads| && s.threads[t].SwapWoken? && s.putMutex == None
    ensures s.getMutex == Some(t) && s.h.getList == []
    ensures var q, h := s.q, s.h;
            && q.cnt == |h.putList| && q.getHead == q.putHead && q.putHead in q.mem && q.mem[q.putHead] == NodeAt(h.putList, 0)
            && (h.putList != [] ==> LinkOf(h.putList[0]) in q.mem && q.mem[LinkOf(h.putList[0])] == NodeAt(h.putList, 1))
  {
    var q, h := s.q, s.h;
    assert Excluded(s, t);
    assert SlotAt(q.putHead, h.putList, 0) == q.putHead;
    assert h.putList != [] ==> SlotAt(q.putHead, h.putList, 1) == LinkOf(h.putList[0]);
  }

  // ---- the mode

  /** msgqueue_set_nonblock sets the mode, and wakes a sleeping getter and all sleeping putters. */
  lemma SetNonblockAlone(s: State, t: nat) returns (path: seq<State>, threads: seq<Pc>)
    requires t < |s.threads| && s.threads[t].Idle? && s.putMutex == None
    ensures Alone(s, path, t) && SignalGet(s.threads, threads) && BroadcastPut(threads, Now(path).threads)
    ensures Now(path) == s.(q := s.q.(nonblock := true), h := s.h.(everNonblock := true), threads := Now(path).threads)
  {
    var a := ModeStores(s, t);
    var signalled := Signalled(s.threads[t := NbBroadcast]);
    assert Now(a).threads[t := NbBroadcast] == s.threads[t := NbBroadcast];
    a := GoTo(s, a, t, NbBroadcast, Now(a).(threads := signalled));
    var m := Now(a);
    var b := ModeReleases(m, t);
    path := Joined(s, a, b, t);
    threads := signalled[t := Idle];
    SignalsOthers(s.threads, t, NbBroadcast, signalled);
  }

  /** The signal is no matter of where the thread stands that sends it. */
  lemma SignalsOthers(threads: seq<Pc>, t: nat, pc: Pc, signalled: seq<Pc>)
    requires t < |threads| && threads[t].Idle? && !pc.SwapWait? && SignalGet(threads[t := pc], signalled)
    ensures |signalled| == |threads| && SignalGet(threads, signalled[t := Idle])
  {
    var moved := threads[t := pc];
    if w :| 0 <= w < |moved| && moved[w].SwapWait? && signalled == moved[w := SwapWoken(moved[w].saved)] {
      assert threads[w].SwapWait? && signalled[t := Idle] == threads[w := SwapWoken(threads[w].saved)];
    } else {
      assert signalled[t := Idle] == threads;
      forall w | 0 <= w < |threads| ensures !threads[w].SwapWait? {
        assert moved[w] == if w == t then pc else threads[w];
      }
    }
  }

  lemma ModeStores(s: State, t: nat) returns (path: seq<State>)
    requires t < |s.threads| && s.threads[t].Idle? && s.putMutex == None
    ensures AtPc(s, path, t, NbSignal)
    ensures Now(path) == s.(q := s.q.(nonblock := true), h := s.h.(everNonblock := true), putMutex := Some(t),
                            threads := s.threads[t := NbSignal])
  {
    var q', h' := s.q.(nonblock := true), s.h.(everNonblock := true);
    path := Stands(s, t);
    path := Go(s, path, t, s.threads[t], NbStore, s.q, s.h);
    path := Go(s, path, t, NbStore, NbLock, q', h');
    path := Go(s, path, t, NbLock, NbSignal, q', h');
  }

  lemma ModeReleases(s: State, t: nat) returns (path: seq<State>)
    requires t < |s.threads| && s.threads[t].NbBroadcast? && s.putMutex == Some(t)
    ensures Alone(s, path, t) && BroadcastPut(s.threads[t := Idle], Now(path).threads)
    ensures Now(path) == s.(putMutex := None, threads := Now(path).threads)
  {
    var woken := s.threads[t := NbUnlock];
    woken := seq(|woken|, i requires 0 <= i < |woken| => if woken[i].PutWait? then PutWoken(woken[i].msg) else woken[i]);
    path := Stands(s, t);
    path := GoTo(s, path, t, NbUnlock, s.(threads := woken));
    var m := Now(path);
    var b := Stands(m, t);
    b := Go(m, b, t, NbUnlock, Idle, m.q, m.h);
    path := Joined(s, path, b, t);
  }

  /** msgqueue_set_block sets it back, and wakes nobody. */
  lemma SetBlockAlone(s: State, t: nat) returns (path: seq<State>)
    requires t < |s.threads| && s.threads[t].Idle?
    ensures Alone(s, path, t) && Now(path) == s.(q := s.q.(nonblock := false))
  {
    path := Stands(s, t);
    path := Go(s, path, t, s.threads[t], BlockStore, s.q, s.h);
    path := Go(s, path, t, BlockStore, Idle, s.q.(nonblock := false), s.h);
    assert s.threads[t := Idle] == s.threads;
  }
}
