/** The non-intrusive queue as an object, used by one thread at a time. */
module MpscQueueObjects {
  import opened MpscQueue
  import opened MpscQueueInvariant
  import opened Options

  class MPSCQueueNonIntrusive<T(!new)> {
    var mem: map<nat, Node<T>>
    var head: nat
    var tail: nat
    ghost var order: seq<nat>
    ghost var items: seq<T>
    ghost var retired: nat

    ghost function View(): State<T>
      reads this
    {
      State(mem, head, tail, [Idle], Outside, order, items, retired, if retired <= |items| then items[..retired] else [])
    }

    ghost predicate Valid()
      reads this
    {
      Inv(View())
    }

    /** The payloads enqueued and not yet dequeued. */
    ghost function Queue(): seq<T>
      reads this
      requires Valid()
    {
      items[retired..]
    }

    constructor (front: nat)
      ensures Valid() && Queue() == []
      ensures mem.Keys == {front}
    {
      mem, head, tail := map[front := Node(None, None)], front, front;
      order, items, retired := [front], [], 0;
      new;
      InitInv(View());
    }

    method Enqueue(input: T, node: nat)
      requires Valid() && node !in mem
      modifies this
      ensures Valid() && Queue() == old(Queue()) + [input]
      ensures mem.Keys == old(mem.Keys) + {node}
    {
      ghost var s := View();
      assert Live(s, |s.order| - 1) && LinkOk(s, |s.order| - 1);
      mem := mem[node := Node(Some(input), None)];
      var prevHead := head;
      head := node;
      mem := mem[prevHead := mem[prevHead].(next := Some(node))];
      order, items := order + [node], items + [input];
      Enqueued(s, View(), node, input);
    }

    method Dequeue() returns (result: Option<T>)
      requires Valid()
      modifies this
      ensures Valid()
      ensures result == if old(Queue()) == [] then None else Some(old(Queue())[0])
      ensures Queue() == if old(Queue()) == [] then [] else old(Queue())[1..]
      ensures old(Queue()) == [] ==> mem == old(mem)
      ensures old(Queue()) != [] ==> old(tail) in old(mem) && mem == old(mem) - {old(tail)}
    {
      ghost var s := View();
      QuietChain(s);
      var oldTail := tail;
      var next := mem[oldTail].next;
      if next == None {
        return None;
      }
      result := mem[next.value].data;
      ghost var loaded := s.(consumer := HasData(oldTail, next.value, result.value));
      ConsumerMoves(s, loaded);
      tail := next.value;
      retired := retired + 1;
      ghost var retiring := loaded.(tail := tail, retired := retired, consumer := Retiring(oldTail, result.value));
      StoreTailKeepsInv(loaded, retiring);
      mem := mem - {oldTail};
      DeleteKeepsInv(retiring, View());
    }

    /** The destructor: each remaining payload is deleted once, in order, and each node once. */
    method Destroy() returns (deleted: seq<T>, freed: seq<nat>)
      requires Valid()
      modifies this
      ensures deleted == old(Queue())
      ensures mem == map[]
      ensures multiset(freed) == multiset(old(mem.Keys))
    {
      deleted, freed := [], [];
      var go := true;
      while go
        invariant Valid()
        invariant deleted + Queue() == old(Queue())
        invariant multiset(freed) + multiset(mem.Keys) == multiset(old(mem.Keys))
        invariant !go ==> Queue() == []
        decreases if go then 1 else 0, |Queue()|
      {
        ghost var before, queue := mem, Queue();
        var node := tail;
        var output := Dequeue();
        if output == None {
          go := false;
        } else {
          MinusOne(before, node);
          MoveFront(deleted, queue);
          deleted := deleted + [output.value];
          freed := freed + [node];
        }
      }
      QuietMemory(View());
      freed := freed + [head];
      mem := mem - {head};
    }
  }

  /** An undisturbed call of Enqueue is its three steps in a row. */
  lemma Enqueued<T(!new)>(s: State<T>, s': State<T>, node: nat, input: T)
    requires Inv(s) && s.producers == [Idle] && s.consumer.Outside? && node !in s.mem && s.head in s.mem
    requires var mem := s.mem[node := Node(Some(input), None)];
             s' == s.(mem := mem[s.head := mem[s.head].(next := Some(node))], head := node,
                      order := s.order + [node], items := s.items + [input])
    ensures Inv(s')
  {
    var mem := s.mem[node := Node(Some(input), None)];
    var prepared := s.(mem := mem, producers := [Prepared(node)]);
    AllocateKeepsInv(s, prepared, 0, node, input);
    var linking := prepared.(head := node, producers := [Linking(s.head, node, |s.order| - 1)],
                             order := s.order + [node], items := s.items + [input]);
    ExchangeKeepsInv(prepared, linking, 0);
    assert ProducerOk(linking, 0);
    LinkKeepsInv(linking, s', 0);
  }

  lemma MoveFront<T>(taken: seq<T>, queue: seq<T>)
    requires queue != []
    ensures (taken + [queue[0]]) + queue[1..] == taken + queue
  {
  }

  lemma MinusOne<V>(m: map<nat, V>, k: nat)
    requires k in m
    ensures multiset((m - {k}).Keys) + multiset{k} == multiset(m.Keys)
  {
    assert m.Keys == (m - {k}).Keys + {k};
  }

  /** With no producer inside Enqueue, the tail's link tells exactly whether an item is left. */
  lemma QuietChain<T(!new)>(s: State<T>)
    requires Inv(s) && forall p | 0 <= p < |s.producers| :: s.producers[p].Idle?
    ensures s.tail in s.mem
    ensures s.mem[s.tail].next == None <==> s.retired == |s.items|
    ensures s.mem[s.tail].next.Some? ==>
              var next := s.mem[s.tail].next.value;
              next in s.mem && next == s.order[s.retired + 1] && s.mem[next].data == Some(s.items[s.retired])
  {
    assert Live(s, s.retired) && LinkOk(s, s.retired);
    if s.mem[s.tail].next.Some? {
      assert Live(s, s.retired + 1) && LinkOk(s, s.retired + 1);
    }
  }

  /** An empty queue at rest owns its one stub node and nothing else. */
  lemma QuietMemory<T(!new)>(s: State<T>)
    requires Inv(s) && s.consumer.Outside? && s.retired == |s.items|
    requires forall p | 0 <= p < |s.producers| :: s.producers[p].Idle?
    ensures s.mem.Keys == {s.head}
  {
    assert Live(s, s.retired) && LinkOk(s, s.retired);
    forall n | n in s.mem ensures n == s.head {
      assert Owned(s, n);
    }
  }
}
