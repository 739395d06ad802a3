/** A pool of tp.cpp made with no workers: a task it accepts is never called. */
module ThreadPoolNoWorkers {
  import opened Options
  import opened ThreadPool

  /** A pool without workers, and one client. */
  function Lone(p: Pool, h: History, mutex: Option<nat>, pc: Pc): (s: State) {
    State(p, h, mutex, 0, [pc])
  }

  /** One step of the client. */
  lemma ClientMoves(p: Pool, h: History, mutex: Option<nat>, pc: Pc, pc': Pc, p': Pool, h': History, mutex': Option<nat>)
    requires Control(Lone(p, h, mutex, pc), pc, pc') && Locking(Holds(pc), Holds(pc'), mutex, mutex', 0)
    requires p' == Stored(p, pc, pc') && h' == Recorded(h, pc, pc') && !pc'.Asleep?
    ensures Next(Lone(p, h, mutex, pc), Lone(p', h', mutex', pc'))
  {
    var s, s' := Lone(p, h, mutex, pc), Lone(p', h', mutex', pc');
    assert s.threads[0 := pc'] == [pc'];
    assert Step(s, s', 0, pc');
  }

  ghost predicate Leads(s: State, run: seq<State>, s': State) {
    && 0 < |run| && run[0] == s && run[|run| - 1] == s'
    && forall j: nat :: Follows(run, j)
  }

  lemma LeadsOn(s: State, a: seq<State>, m: State, b: seq<State>, s': State)
    requires Leads(s, a, m) && Leads(m, b, s')
    ensures Leads(s, a + b[1..], s')
  {
    forall j: nat ensures Follows(a + b[1..], j) {
      if j < |a| - 1 {
        assert Follows(a, j);
      } else {
        assert Follows(b, j - (|a| - 1));
      }
    }
  }

  lemma ClientEnters(p: Pool, h: History, p': Pool) returns (run: seq<State>)
    requires !p.stop && p' == p.(made := p.made + 1)
    ensures Leads(Lone(p, h, None, Idle), run, Lone(p', h, Some(0), EnqPush(p.made, false)))
  {
    var k := p.made;
    run := [Lone(p, h, None, Idle), Lone(p', h, None, EnqLock(k, false)), Lone(p', h, Some(0), EnqTest(k, false)),
            Lone(p', h, Some(0), EnqPush(k, false))];
    forall j: nat ensures Follows(run, j) {
      match j
      case 0 => ClientMoves(p, h, None, Idle, EnqLock(k, false), p', h, None);
      case 1 => ClientMoves(p', h, None, EnqLock(k, false), EnqTest(k, false), p', h, Some(0));
      case 2 => ClientMoves(p', h, Some(0), EnqTest(k, false), EnqPush(k, false), p', h, Some(0));
      case _ =>
    }
  }

  lemma ClientPushes(p: Pool, h: History, k: nat, p': Pool, h': History) returns (run: seq<State>)
    requires p' == p.(tasks := p.tasks + [k]) && h' == h.(accepted := h.accepted + [k])
    ensures Leads(Lone(p, h, Some(0), EnqPush(k, false)), run, Lone(p', h', None, Idle))
  {
    run := [Lone(p, h, Some(0), EnqPush(k, false)), Lone(p', h', Some(0), EnqUnlock(false)),
            Lone(p', h', None, EnqNotify(false)), Lone(p', h', None, Idle)];
    forall j: nat ensures Follows(run, j) {
      match j
      case 0 => ClientMoves(p, h, Some(0), EnqPush(k, false), EnqUnlock(false), p', h', Some(0));
      case 1 => ClientMoves(p', h', Some(0), EnqUnlock(false), EnqNotify(false), p', h', None);
      case 2 => ClientMoves(p', h', None, EnqNotify(false), Idle, p', h', None);
      case _ =>
    }
  }

  lemma ClientDestroys(p: Pool, h: History) returns (run: seq<State>)
    requires !p.stop
    ensures Leads(Lone(p, h, None, Idle), run, Lone(p.(stop := true), h, None, Done))
  {
    var p' := p.(stop := true);
    run := [Lone(p, h, None, Idle), Lone(p, h, None, DtorLock), Lone(p, h, Some(0), DtorStop),
            Lone(p', h, Some(0), DtorUnlock), Lone(p', h, None, DtorNotify), Lone(p', h, None, Join(0)), Lone(p', h, None, Done)];
    forall j: nat ensures Follows(run, j) {
      match j
      case 0 => ClientMoves(p, h, None, Idle, DtorLock, p, h, None);
      case 1 => ClientMoves(p, h, None, DtorLock, DtorStop, p, h, Some(0));
      case 2 => ClientMoves(p, h, Some(0), DtorStop, DtorUnlock, p', h, Some(0));
      case 3 => ClientMoves(p', h, Some(0), DtorUnlock, DtorNotify, p', h, None);
      case 4 => ClientMoves(p', h, None, DtorNotify, Join(0), p', h, None);
      case 5 => ClientMoves(p', h, None, Join(0), Done, p', h, None);
      case _ =>
    }
  }

  /** Without a worker the destructor returns with a task accepted, queued, and never called. */
  lemma TaskCanBeLeft() returns (run: seq<State>)
    ensures IsRun(run)
    ensures var s := run[|run| - 1]; s.workers == 0 && s.threads == [Done] && s.h.accepted == s.p.tasks == [0] && s.h.ran == []
  {
    var p0, p1, p2 := Pool([], false, 0), Pool([], false, 1), Pool([0], false, 1);
    var h0, h2 := History([], [], []), History([0], [], []);
    var a := ClientEnters(p0, h0, p1);
    var b := ClientPushes(p1, h0, 0, p2, h2);
    var c := ClientDestroys(p2, h2);
    LeadsOn(Lone(p0, h0, None, Idle), a, Lone(p1, h0, Some(0), EnqPush(0, false)), b, Lone(p2, h2, None, Idle));
    run := a + b[1..];
    LeadsOn(Lone(p0, h0, None, Idle), run, Lone(p2, h2, None, Idle), c, Lone(p2.(stop := true), h2, None, Done));
    run := run + c[1..];
  }
}
