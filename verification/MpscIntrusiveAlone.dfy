/** Calls of the intrusive queue: how many accesses they take, and what they do when nobody interferes. */
module MpscIntrusiveAlone {
  import opened MpscIntrusive
  import opened MpscIntrusiveInvariant
  import opened MpscIntrusiveRuns
  import opened Options

  // ---- wait-freedom

  /** How many accesses and tests a call of Dequeue has before it, at most. */
  function AccessesLeft(c: Consumer): (n: nat) {
    match c
    case Outside => 0
    case Last(_, _) => 1
    case Reload(_) => 2
    case RefillLinking(_, _, _) => 3
    case RefillCleared(_) => 4
    case Refill(_) => 5
    case Decide(_, _) => 6
    case Skipped(_) => 7
    case HasNext(_, _) => 8
    case HasTail(_) => 9
  }

  function StepsLeft(p: Producer): (n: nat) {
    match p
    case Idle => 0
    case Linking(_, _, _) => 1
    case Cleared(_) => 2
    case Claimed(_) => 3
  }

  /** Dequeue is wait-free: whatever producers do in between, each step of a call brings it nearer to its
      return, the enqueue of the dummy included; and so is Enqueue. */
  lemma CallsAreWaitFree(s: State, s': State, p: nat)
    requires Next(s, s') && p < |s.producers|
    ensures |s'.producers| == |s.producers|
    ensures AccessesLeft(s'.consumer) <= 9 && StepsLeft(s'.producers[p]) <= 3
    ensures s.consumer.Outside? || s'.consumer == s.consumer || AccessesLeft(s'.consumer) < AccessesLeft(s.consumer)
    ensures ConsumerNext(s, s') ==> s'.consumer != s.consumer
    ensures s.producers[p].Idle? || s'.producers[p] == s.producers[p] || StepsLeft(s'.producers[p]) < StepsLeft(s.producers[p])
    ensures ProducerNext(s, s', p) ==> s'.producers[p] != s.producers[p]
  {
  }

  // ---- alone

  ghost predicate Consumes(path: seq<State>, j: nat) {
    j + 1 < |path| ==> ConsumerNext(path[j], path[j + 1])
  }

  ghost predicate Leads(s: State, path: seq<State>, s': State) {
    && 0 < |path| && path[0] == s && path[|path| - 1] == s'
    && forall j: nat :: Consumes(path, j)
  }

  lemma LeadsOn(s: State, a: seq<State>, m: State, b: seq<State>, s': State)
    requires Leads(s, a, m) && Leads(m, b, s')
    ensures Leads(s, a + b[1..], s')
  {
    forall j: nat ensures Consumes(a + b[1..], j) {
      if j < |a| - 1 {
        assert Consumes(a, j);
      } else {
        assert Consumes(b, j - (|a| - 1));
      }
    }
  }

  /** The first item on the chain: at the tail, or behind the dummy if that link has been stored. */
  function First(s: State): (item: Option<nat>)
    requires DUMMY in s.link
  {
    if s.tail == DUMMY then s.link[DUMMY] else Some(s.tail)
  }

  /** The answer true, with `item`: the tail moves past it to `next`, and it is the client's again. */
  function Answered(s: State, item: nat, next: nat, passed: nat): (s': State) {
    s.(tail := next, retired := s.retired + passed, held := s.held + {item}, output := s.output + [item], consumer := Outside)
  }

  /** Where the item at the tail is the last one exchanged in, the dummy goes in behind it and it is returned. */
  lemma RefillsAlone(s: State) returns (path: seq<State>, s': State)
    requires Inv(s) && s.consumer == Decide(s.tail, None) && s.tail == s.head
    requires s.tail in s.link && s.link[s.tail] == None
    ensures Leads(s, path, s')
    ensures s' == Answered(s, s.tail, DUMMY, 1).(link := s.link[DUMMY := None][s.tail := Some(DUMMY)], head := DUMMY, order := s.order + [DUMMY])
  {
    var tail := s.tail;
    LinkTells(s, s.retired);
    var a := s.(consumer := Refill(tail));
    var b := a.(link := s.link[DUMMY := None], consumer := RefillCleared(tail));
    var c := b.(head := DUMMY, order := s.order + [DUMMY], consumer := RefillLinking(tail, tail, |s.order| - 1));
    var d := c.(link := c.link[tail := Some(DUMMY)], consumer := Reload(tail));
    var e := d.(consumer := Last(tail, Some(DUMMY)));
    s' := Answered(e, tail, DUMMY, 1);
    path := [s, a, b, c, d, e, s'];
    assert LoadHead(s, a) && ClearDummy(a, b) && ExchangeDummy(b, c) && LinkDummy(c, d) && ReloadNext(d, e) && Take(e, s');
  }

  /** From the point where it has the first item in hand. */
  lemma DecidesAlone(s: State) returns (path: seq<State>, s': State)
    requires Inv(s) && s.tail in s.link && s.consumer == Decide(s.tail, s.link[s.tail])
    ensures Leads(s, path, s')
    ensures if s.link[s.tail].Some? then s' == Answered(s, s.tail, s.link[s.tail].value, 1)
            else if s.tail == s.head then
              s' == Answered(s, s.tail, DUMMY, 1).(link := s.link[DUMMY := None][s.tail := Some(DUMMY)], head := DUMMY, order := s.order + [DUMMY])
            else s' == s.(consumer := Outside)
  {
    if s.link[s.tail].Some? {
      s' := Answered(s, s.tail, s.link[s.tail].value, 1);
      path := [s, s'];
      assert Take(s, s');
    } else if s.tail == s.head {
      path, s' := RefillsAlone(s);
    } else {
      s' := s.(consumer := Outside);
      path := [s, s'];
      assert LoadHead(s, s');
    }
  }

  /** Up to that point, or to the answer false on the dummy. */
  lemma FindsFirstAlone(s: State) returns (path: seq<State>, s': State)
    requires Inv(s) && s.consumer.Outside?
    ensures Leads(s, path, s')
    ensures match First(s)
            case None => s' == s
            case Some(item) =>
              && item in s.link
              && s' == s.(tail := item, retired := s.retired + (if s.tail == DUMMY then 1 else 0), consumer := Decide(item, s.link[item]))
  {
    var tail := s.tail;
    LinkTells(s, s.retired);
    var a := s.(consumer := HasTail(tail));
    var b := s.(consumer := HasNext(tail, s.link[tail]));
    assert LoadTail(s, a) && LoadNext(a, b);
    if tail != DUMMY {
      s' := s.(consumer := Decide(tail, s.link[tail]));
      path := [s, a, b, s'];
      assert KeepTail(b, s');
    } else if s.link[tail].None? {
      s' := s;
      path := [s, a, b, s'];
      assert SkipDummy(b, s');
    } else {
      var next := s.link[tail].value;
      LinkTells(s, s.retired + 1);
      var c := s.(tail := next, retired := s.retired + 1, consumer := Skipped(next));
      s' := c.(consumer := Decide(next, s.link[next]));
      path := [s, a, b, c, s'];
      assert SkipDummy(b, c) && LoadNextAgain(c, s');
    }
  }

  /** Undisturbed, Dequeue answers true, with the first item on the chain, if and only if there is one and it
      is linked to its successor or is the last one exchanged in. */
  lemma DequeueAlone(s: State) returns (path: seq<State>, s': State)
    requires Inv(s) && s.consumer.Outside?
    ensures Leads(s, path, s') && s'.consumer.Outside? && s'.producers == s.producers
    ensures var found := First(s).Some? && First(s).value in s.link && (s.link[First(s).value].Some? || First(s).value == s.head);
            if found then s'.output == s.output + [First(s).value] && s'.held == s.held + {First(s).value}
            else s'.output == s.output && s'.held == s.held && s'.link == s.link && s'.order == s.order
  {
    path, s' := FindsFirstAlone(s);
    if First(s).Some? {
      FoundKeepsInv(s, path, s');
      var m := s';
      var rest;
      rest, s' := DecidesAlone(m);
      LeadsOn(s, path, m, rest, s');
      path := path + rest[1..];
    }
  }

  lemma {:induction false} FoundKeepsInv(s: State, path: seq<State>, s': State)
    requires Inv(s) && Leads(s, path, s')
    ensures Inv(s')
    decreases |path|
  {
    if |path| > 1 {
      var last := |path| - 1;
      forall j: nat ensures Consumes(path[..last], j) { assert Consumes(path, j); }
      FoundKeepsInv(s, path[..last], path[last - 1]);
      assert Consumes(path, last - 1);
      NextKeepsInv(path[last - 1], s');
    }
  }

  ghost predicate Produces(path: seq<State>, p: nat, j: nat) {
    j + 1 < |path| ==> ProducerNext(path[j], path[j + 1], p)
  }

  /** Undisturbed, Enqueue exchanges the item in behind the head and links it. */
  lemma EnqueueAlone(s: State, p: nat, item: nat) returns (path: seq<State>)
    requires Inv(s) && p < |s.producers| && s.producers[p].Idle? && item in s.held
    ensures 0 < |path| && path[0] == s && forall j: nat :: Produces(path, p, j)
    ensures path[|path| - 1] == s.(link := s.link[item := None][s.head := Some(item)], head := item, order := s.order + [item], held := s.held - {item})
  {
    LinkTells(s, |s.order| - 1);
    assert Free(s, item);
    var a := s.(held := s.held - {item}, producers := s.producers[p := Claimed(item)]);
    var b := a.(link := s.link[item := None], producers := a.producers[p := Cleared(item)]);
    var c := b.(head := item, order := s.order + [item], producers := b.producers[p := Linking(s.head, item, |s.order| - 1)]);
    var d := c.(link := c.link[s.head := Some(item)], producers := c.producers[p := Idle]);
    path := [s, a, b, c, d];
    assert d.producers == s.producers;
    assert Claim(s, a, p, item) && Clear(a, b, p) && Exchange(b, c, p) && Link(c, d, p);
    forall j: nat ensures Produces(path, p, j) {
      match j
      case 0 => assert ProducerNext(s, a, p);
      case 1 => assert ProducerNext(a, b, p);
      case 2 => assert ProducerNext(b, c, p);
      case 3 => assert ProducerNext(c, d, p);
      case _ =>
    }
  }
}
