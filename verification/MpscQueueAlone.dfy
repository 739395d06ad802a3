/** Calls of the non-intrusive queue: how many accesses they take, and what they do when nobody interferes. */
module MpscQueueAlone {
  import opened MpscQueue
  import opened MpscQueueInvariant
  import opened Options

  // ---- wait-freedom

  /** How many accesses a call of Dequeue has before it, at most. */
  function AccessesLeft<T>(c: Consumer<T>): (n: nat) {
    match c
    case Outside => 0
    case Retiring(_, _) => 1
    case HasData(_, _, _) => 2
    case HasNext(_, _) => 3
    case HasTail(_) => 4
  }

  function StepsLeft(p: Producer): (n: nat) {
    match p
    case Idle => 0
    case Linking(_, _, _) => 1
    case Prepared(_) => 2
  }

  /** Dequeue is wait-free: whatever producers do in between, each access of a call brings it nearer to its
      return, five accesses in all; and so is Enqueue, with three. */
  lemma CallsAreWaitFree<T(!new)>(s: State<T>, s': State<T>, p: nat)
    requires Next(s, s') && p < |s.producers|
    ensures |s'.producers| == |s.producers|
    ensures AccessesLeft(s'.consumer) <= 4 && StepsLeft(s'.producers[p]) <= 2
    ensures s.consumer.Outside? || s'.consumer == s.consumer || AccessesLeft(s'.consumer) < AccessesLeft(s.consumer)
    ensures ConsumerNext(s, s') ==> s'.consumer != s.consumer
    ensures s.producers[p].Idle? || s'.producers[p] == s.producers[p] || StepsLeft(s'.producers[p]) < StepsLeft(s.producers[p])
    ensures ProducerNext(s, s', p) ==> s'.producers[p] != s.producers[p]
  {
  }

  // ---- alone

  ghost predicate Consumes<T>(path: seq<State<T>>, j: nat) {
    j + 1 < |path| ==> ConsumerNext(path[j], path[j + 1])
  }

  ghost predicate Produces<T(!new)>(path: seq<State<T>>, p: nat, j: nat) {
    j + 1 < |path| ==> ProducerNext(path[j], path[j + 1], p)
  }

  /** Undisturbed, Dequeue returns the payload behind the tail, if it is linked, and frees the old tail; if
      not, it changes nothing. */
  lemma DequeueAlone<T(!new)>(s: State<T>) returns (path: seq<State<T>>)
    requires Inv(s) && s.consumer.Outside?
    ensures 0 < |path| && path[0] == s && forall j: nat :: Consumes(path, j)
    ensures s.tail in s.mem
    ensures var s' := path[|path| - 1];
            match s.mem[s.tail].next
            case None => s' == s
            case Some(next) =>
              && s.retired < |s.items|
              && s' == s.(mem := s.mem - {s.tail}, tail := next, retired := s.retired + 1, output := s.output + [s.items[s.retired]])
  {
    assert Live(s, s.retired) && LinkOk(s, s.retired);
    var tail := s.tail;
    var a := s.(consumer := HasTail(tail));
    match s.mem[tail].next
    case None =>
      path := [s, a, s];
      assert LoadTail(s, a) && LoadNext(a, s);
    case Some(next) =>
      assert Live(s, s.retired + 1) && LinkOk(s, s.retired + 1);
      var data := s.mem[next].data.value;
      var b, c := s.(consumer := HasNext(tail, next)), s.(consumer := HasData(tail, next, data));
      var d := s.(tail := next, consumer := Retiring(tail, data), retired := s.retired + 1);
      var e := d.(mem := d.mem - {tail}, consumer := Outside, output := d.output + [data]);
      path := [s, a, b, c, d, e];
      assert LoadTail(s, a) && LoadNext(a, b) && LoadData(b, c) && StoreTail(c, d) && Delete(d, e);
  }

  /** Undisturbed, Enqueue puts a new node behind the head and links it. */
  lemma EnqueueAlone<T(!new)>(s: State<T>, p: nat, node: nat, input: T) returns (path: seq<State<T>>)
    requires Inv(s) && p < |s.producers| && s.producers[p].Idle? && node !in s.mem
    ensures 0 < |path| && path[0] == s && forall j: nat :: Produces(path, p, j)
    ensures s.head in s.mem
    ensures path[|path| - 1] == s.(mem := s.mem[node := Node(Some(input), None)][s.head := s.mem[s.head].(next := Some(node))],
                                   head := node, order := s.order + [node], items := s.items + [input])
  {
    assert Live(s, |s.order| - 1) && LinkOk(s, |s.order| - 1);
    var mem := s.mem[node := Node(Some(input), None)];
    var a := s.(mem := mem, producers := s.producers[p := Prepared(node)]);
    var b := a.(head := node, producers := a.producers[p := Linking(s.head, node, |s.order| - 1)],
                order := s.order + [node], items := s.items + [input]);
    var c := b.(mem := mem[s.head := mem[s.head].(next := Some(node))], producers := b.producers[p := Idle]);
    path := [s, a, b, c];
    assert c.producers == s.producers;
    assert Allocate(s, a, p, node, input) && Exchange(a, b, p) && Link(b, c, p);
    forall j: nat ensures Produces(path, p, j) {
      match j
      case 0 => assert ProducerNext(s, a, p);
      case 1 => assert ProducerNext(a, b, p);
      case 2 => assert ProducerNext(b, c, p);
      case _ =>
    }
  }
}
