/** The non-intrusive multi-producer single-consumer queue: one step per atomic access, any number
    of producers, one consumer. */
module MpscQueue {
  import opened Options

  datatype Node<T> = Node(data: Option<T>, next: Option<nat>)

  /** Where a producer is inside Enqueue. `ticket` is its place in the order of the exchanges. */
  datatype Producer =
    | Idle
    | Prepared(node: nat)
    | Linking(prev: nat, node: nat, ticket: nat)

  /** Where the consumer is inside Dequeue. */
  datatype Consumer<T> =
    | Outside
    | HasTail(tail: nat)
    | HasNext(tail: nat, next: nat)
    | HasData(tail: nat, next: nat, data: T)
    | Retiring(tail: nat, data: T)

  /** The queue's memory and threads, and the history of its exchanges: `order` lists the nodes
      as they became `_head`, `items` their payloads, `retired` counts those the tail has passed,
      and `output` what Dequeue has returned. */
  datatype State<T> = State(
    mem: map<nat, Node<T>>, head: nat, tail: nat,
    producers: seq<Producer>, consumer: Consumer<T>,
    order: seq<nat>, items: seq<T>, retired: nat, output: seq<T>)

  ghost predicate Init<T>(s: State<T>) {
    && s.mem == map[s.head := Node(None, None)]
    && s.tail == s.head
    && (forall p | 0 <= p < |s.producers| :: s.producers[p] == Idle)
    && s.consumer == Outside
    && s.order == [s.head] && s.items == [] && s.retired == 0 && s.output == []
  }

  // ---- the steps of Enqueue

  /** `new Node(input)`: any address not in use, a freed one included. */
  ghost predicate Allocate<T>(s: State<T>, s': State<T>, p: nat, node: nat, input: T) {
    && p < |s.producers| && s.producers[p].Idle?
    && node !in s.mem
    && s' == s.(mem := s.mem[node := Node(Some(input), None)], producers := s.producers[p := Prepared(node)])
  }

  ghost predicate Exchange<T>(s: State<T>, s': State<T>, p: nat) {
    && p < |s.producers| && s.producers[p].Prepared?
    && var node := s.producers[p].node;
    && node in s.mem && s.mem[node].data.Some? && 0 < |s.order|
    && s' == s.(head := node,
                producers := s.producers[p := Linking(s.head, node, |s.order| - 1)],
                order := s.order + [node], items := s.items + [s.mem[node].data.value])
  }

  ghost predicate Link<T>(s: State<T>, s': State<T>, p: nat) {
    && p < |s.producers| && s.producers[p].Linking?
    && var Linking(prev, node, _) := s.producers[p];
    && prev in s.mem
    && s' == s.(mem := s.mem[prev := s.mem[prev].(next := Some(node))], producers := s.producers[p := Idle])
  }

  // ---- the steps of Dequeue

  ghost predicate LoadTail<T>(s: State<T>, s': State<T>) {
    && s.consumer.Outside?
    && s' == s.(consumer := HasTail(s.tail))
  }

  ghost predicate LoadNext<T>(s: State<T>, s': State<T>) {
    && s.consumer.HasTail?
    && s.consumer.tail in s.mem
    && match s.mem[s.consumer.tail].next
       case None => s' == s.(consumer := Outside)
       case Some(next) => s' == s.(consumer := HasNext(s.consumer.tail, next))
  }

  ghost predicate LoadData<T>(s: State<T>, s': State<T>) {
    && s.consumer.HasNext?
    && s.consumer.next in s.mem && s.mem[s.consumer.next].data.Some?
    && s' == s.(consumer := HasData(s.consumer.tail, s.consumer.next, s.mem[s.consumer.next].data.value))
  }

  ghost predicate StoreTail<T>(s: State<T>, s': State<T>) {
    && s.consumer.HasData?
    && s' == s.(tail := s.consumer.next, consumer := Retiring(s.consumer.tail, s.consumer.data), retired := s.retired + 1)
  }

  ghost predicate Delete<T>(s: State<T>, s': State<T>) {
    && s.consumer.Retiring?
    && s' == s.(mem := s.mem - {s.consumer.tail}, consumer := Outside, output := s.output + [s.consumer.data])
  }

  ghost predicate ProducerNext<T(!new)>(s: State<T>, s': State<T>, p: nat) {
    || (exists node: nat, input: T :: Allocate(s, s', p, node, input))
    || Exchange(s, s', p)
    || Link(s, s', p)
  }

  ghost predicate ConsumerNext<T>(s: State<T>, s': State<T>) {
    LoadTail(s, s') || LoadNext(s, s') || LoadData(s, s') || StoreTail(s, s') || Delete(s, s')
  }

  ghost predicate Next<T(!new)>(s: State<T>, s': State<T>) {
    ConsumerNext(s, s') || exists p: nat :: ProducerNext(s, s', p)
  }

  ghost predicate Follows<T(!new)>(run: seq<State<T>>, j: nat) {
    j + 1 < |run| ==> Next(run[j], run[j + 1])
  }

  ghost predicate IsRun<T(!new)>(run: seq<State<T>>) {
    && 0 < |run| && Init(run[0])
    && forall j: nat :: Follows(run, j)
  }
}
