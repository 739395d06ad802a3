/** Calls of the pool of tp.cpp that run alone. From every state with the mutex free, a thread that nobody
    interferes with gets through its call, and this is all that the call does. */
module ThreadPoolAlone {
  import opened Options
  import opened ThreadPool

  /** Thread t goes from pc to pc' and wakes nobody; the others are where they are in s. */
  function Moved(s: State, m: State, t: nat, pc: Pc, pc': Pc): (m': State)
    requires t < |s.threads|
  {
    State(Stored(m.p, pc, pc'), Recorded(m.h, pc, pc'),
          if Holds(pc') then Some(t) else if Holds(pc) then None else m.mutex,
          s.workers, s.threads[t := pc'])
  }

  ghost predicate StepOf(path: seq<State>, t: nat, j: nat) {
    j + 1 < |path| ==> t < |path[j].threads| == |path[j + 1].threads| && Step(path[j], path[j + 1], t, path[j + 1].threads[t])
  }

  /** A path all of whose steps are t's, from s on. */
  ghost predicate Alone(s: State, path: seq<State>, t: nat) {
    0 < |path| && path[0] == s && forall j: nat :: StepOf(path, t, j)
  }

  function Now(path: seq<State>): (s: State)
    requires 0 < |path|
  {
    path[|path| - 1]
  }

  /** The path goes on by one step, to s'. */
  lemma GoTo(s: State, path: seq<State>, t: nat, pc': Pc, s': State) returns (path': seq<State>)
    requires Alone(s, path, t) && Step(Now(path), s', t, pc')
    ensures Alone(s, path', t) && Now(path') == s'
  {
    StepThreads(Now(path), s', t, pc');
    path' := path + [s'];
    forall j: nat ensures StepOf(path', t, j) {
      assert StepOf(path, t, j);
    }
  }

  /** The same for a step that wakes nobody. */
  lemma Go(s: State, path: seq<State>, t: nat, pc: Pc, pc': Pc) returns (path': seq<State>)
    requires Alone(s, path, t) && t < |s.threads| && Now(path).threads == s.threads[t := pc] && Now(path).workers == s.workers
    requires Control(Now(path), pc, pc') && (!Holds(pc) && Holds(pc') ==> Now(path).mutex == None)
    requires !pc.EnqNotify? && !pc.DtorNotify?
    ensures Alone(s, path', t) && Now(path') == Moved(s, Now(path), t, pc, pc')
  {
    var s' := Moved(s, Now(path), t, pc, pc');
    assert Now(path).threads[t := pc'] == s'.threads;
    path' := GoTo(s, path, t, pc', s');
  }

  /** One path after another. */
  lemma Joined(s: State, a: seq<State>, b: seq<State>, t: nat) returns (path: seq<State>)
    requires Alone(s, a, t) && Alone(Now(a), b, t)
    ensures Alone(s, path, t) && Now(path) == Now(b)
  {
    path := a + b[1..];
    forall j: nat ensures StepOf(path, t, j) {
      if j < |a| - 1 {
        assert StepOf(a, t, j);
      } else {
        assert StepOf(b, t, j - (|a| - 1));
      }
    }
  }

  /** What a notify_one leaves of the threads: one sleeper woken, if there is one. */
  lemma Notified(threads: seq<Pc>) returns (threads': seq<Pc>)
    ensures NotifyOne(threads, threads')
  {
    if NoneAsleep(threads) {
      threads' := threads;
    } else {
      var w: nat :| w < |threads| && threads[w].Asleep?;
      threads' := threads[w := Woken];
    }
  }

  function AllNotified(threads: seq<Pc>): (threads': seq<Pc>)
    ensures NotifyAll(threads, threads')
  {
    seq(|threads|, i requires 0 <= i < |threads| => if threads[i].Asleep? then Woken else threads[i])
  }

  /** On a stopped pool enqueue throws and changes nothing. */
  lemma EnqueueThrowsAlone(s: State, t: nat, n: bool) returns (path: seq<State>)
    requires t < |s.threads| && s.threads[t] == Back(n) && s.mutex == None && s.p.stop
    ensures Alone(s, path, t)
    ensures Now(path) == s.(p := s.p.(made := s.p.made + 1))
  {
    var k := s.p.made;
    path := [s];
    path := Go(s, path, t, s.threads[t], EnqLock(k, n));
    path := Go(s, path, t, EnqLock(k, n), EnqTest(k, n));
    path := Go(s, path, t, EnqTest(k, n), EnqThrow(n));
    path := Go(s, path, t, EnqThrow(n), Back(n));
    assert Now(path).threads == s.threads;
  }

  lemma EnqueueEnters(s: State, t: nat, n: bool) returns (path: seq<State>)
    requires t < |s.threads| && s.threads[t] == Back(n) && s.mutex == None && !s.p.stop
    ensures Alone(s, path, t)
    ensures Now(path) == State(s.p.(made := s.p.made + 1), s.h, Some(t), s.workers, s.threads[t := EnqPush(s.p.made, n)])
  {
    var k := s.p.made;
    path := [s];
    path := Go(s, path, t, s.threads[t], EnqLock(k, n));
    path := Go(s, path, t, EnqLock(k, n), EnqTest(k, n));
    path := Go(s, path, t, EnqTest(k, n), EnqPush(k, n));
  }

  /** On a running one it queues its task last and wakes a sleeper, if there is one. */
  lemma EnqueueAlone(s: State, t: nat, n: bool) returns (path: seq<State>)
    requires t < |s.threads| && s.threads[t] == Back(n) && s.mutex == None && !s.p.stop
    ensures Alone(s, path, t) && NotifyOne(s.threads, Now(path).threads)
    ensures Now(path).p == Pool(s.p.tasks + [s.p.made], false, s.p.made + 1)
    ensures Now(path) == s.(p := Now(path).p, h := s.h.(accepted := s.h.accepted + [s.p.made]), threads := Now(path).threads)
  {
    path := EnqueueEnters(s, t, n);
    path := Go(s, path, t, EnqPush(s.p.made, n), EnqUnlock(n));
    path := Go(s, path, t, EnqUnlock(n), EnqNotify(n));
    var threads' := Notified(s.threads);
    assert Now(path).threads[t := Back(n)] == s.threads;
    path := GoTo(s, path, t, Back(n), Now(path).(threads := threads'));
  }

  /** Where the worker's loop makes its test of the queue: at its start, and after a wake-up. */
  predicate BeforeTest(pc: Pc) {
    pc.Begin? || pc.Woken?
  }

  lemma WorkerFindsTask(s: State, t: nat) returns (path: seq<State>, w: bool)
    requires t < |s.threads| && BeforeTest(s.threads[t]) && s.mutex == None && s.p.tasks != []
    ensures Alone(s, path, t) && Now(path) == s.(mutex := Some(t), threads := s.threads[t := Pop(w)])
  {
    w := s.threads[t].Woken?;
    path := [s];
    path := Go(s, path, t, s.threads[t], Test(w));
    path := Go(s, path, t, Test(w), Check(w));
    path := Go(s, path, t, Check(w), Pop(w));
  }

  /** A worker that finds a task takes the first one and calls it, stopped or not. */
  lemma WorkerServesAlone(s: State, t: nat) returns (path: seq<State>)
    requires t < |s.threads| && BeforeTest(s.threads[t]) && s.mutex == None && s.p.tasks != []
    ensures Alone(s, path, t)
    ensures Now(path) == s.(p := s.p.(tasks := s.p.tasks[1..]), threads := s.threads[t := Pc.Run],
                            h := s.h.(popped := s.h.popped + [s.p.tasks[0]], ran := s.h.ran + [s.p.tasks[0]]))
  {
    var k := s.p.tasks[0];
    var w;
    path, w := WorkerFindsTask(s, t);
    path := Go(s, path, t, Pop(w), Unlock(k));
    path := Go(s, path, t, Unlock(k), Call(k));
    path := Go(s, path, t, Call(k), Pc.Run);
  }

  /** With nothing queued it sleeps while the pool runs, and exits once it is stopped. */
  lemma WorkerRestsAlone(s: State, t: nat) returns (path: seq<State>)
    requires t < |s.threads| && BeforeTest(s.threads[t]) && s.mutex == None && s.p.tasks == []
    ensures Alone(s, path, t)
    ensures Now(path) == s.(threads := s.threads[t := if s.p.stop then Exited else Asleep])
  {
    var w := s.threads[t].Woken?;
    path := [s];
    path := Go(s, path, t, s.threads[t], Test(w));
    if s.p.stop {
      path := Go(s, path, t, Test(w), Check(w));
      path := Go(s, path, t, Check(w), Leave);
      path := Go(s, path, t, Leave, Exited);
    } else {
      path := Go(s, path, t, Test(w), Sleep);
      path := Go(s, path, t, Sleep, Asleep);
    }
  }

  /** Left alone with tasks that make no calls of their own, a worker calls every task that is queued, in
      order, and then goes to sleep, or exits if the pool has been stopped. */
  lemma WorkerDrainsAlone(s: State, t: nat) returns (path: seq<State>)
    requires t < |s.threads| && BeforeTest(s.threads[t]) && s.mutex == None
    ensures Alone(s, path, t)
    ensures Now(path) == s.(p := s.p.(tasks := []), threads := s.threads[t := if s.p.stop then Exited else Asleep],
                            h := s.h.(popped := s.h.popped + s.p.tasks, ran := s.h.ran + s.p.tasks))
  {
    var all := s.p.tasks;
    path := [s];
    for i := 0 to |all|
      invariant Alone(s, path, t) && t < |Now(path).threads| && BeforeTest(Now(path).threads[t])
      invariant Now(path).threads[t := Begin] == s.threads[t := Begin]
      invariant Now(path) == s.(p := s.p.(tasks := all[i..]), threads := Now(path).threads,
                                h := s.h.(popped := s.h.popped + all[..i], ran := s.h.ran + all[..i]))
    {
      assert all[..i + 1] == all[..i] + [all[i]];
      var turn := WorkerServesAlone(Now(path), t);
      turn := Go(Now(path), turn, t, Pc.Run, Begin);
      path := Joined(s, path, turn, t);
    }
    assert all[..|all|] == all;
    var rest := WorkerRestsAlone(Now(path), t);
    var end := if s.p.stop then Exited else Asleep;
    assert Now(path).threads[t := end] == Now(path).threads[t := Begin][t := end];
    path := Joined(s, path, rest, t);
  }

  lemma DestructorStores(s: State, t: nat) returns (path: seq<State>)
    requires t < |s.threads| && s.threads[t].Idle? && s.mutex == None
    ensures Alone(s, path, t)
    ensures Now(path) == s.(p := s.p.(stop := true), mutex := Some(t), threads := s.threads[t := DtorUnlock])
  {
    path := [s];
    path := Go(s, path, t, s.threads[t], DtorLock);
    path := Go(s, path, t, DtorLock, DtorStop);
    path := Go(s, path, t, DtorStop, DtorUnlock);
  }

  /** The destructor stops the pool and wakes everyone, and then waits for the first worker. */
  lemma DestructorStopsAlone(s: State, t: nat) returns (path: seq<State>)
    requires t < |s.threads| && s.threads[t].Idle? && s.mutex == None
    ensures Alone(s, path, t) && NotifyAll(s.threads[t := Join(0)], Now(path).threads)
    ensures Now(path) == s.(p := s.p.(stop := true), threads := Now(path).threads)
  {
    path := DestructorStores(s, t);
    path := Go(s, path, t, DtorUnlock, DtorNotify);
    var threads' := AllNotified(s.threads[t := Join(0)]);
    assert Now(path).threads[t := Join(0)] == s.threads[t := Join(0)];
    path := GoTo(s, path, t, Join(0), Now(path).(threads := threads'));
  }

  /** Once every worker has exited, the destructor returns. */
  lemma DestructorJoinsAlone(s: State, t: nat) returns (path: seq<State>)
    requires t < |s.threads| && s.threads[t] == Join(0) && forall i: nat | i < s.workers :: HasExited(s, i)
    ensures Alone(s, path, t) && Now(path) == s.(threads := s.threads[t := Done])
  {
    path := [s];
    for i := 0 to s.workers
      invariant Alone(s, path, t) && Now(path) == s.(threads := s.threads[t := Join(i)])
    {
      assert HasExited(s, i);
      path := Go(s, path, t, Join(i), Join(i + 1));
    }
    path := Go(s, path, t, Join(s.workers), Done);
  }
}
