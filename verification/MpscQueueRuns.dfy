/** What holds in every run of the non-intrusive queue. */
module MpscQueueRuns {
  import opened MpscQueue
  import opened MpscQueueInvariant
  import opened Options

  lemma {:induction false} RunKeepsInv<T(!new)>(run: seq<State<T>>, j: nat)
    requires IsRun(run) && j < |run|
    ensures Inv(run[j])
  {
    if j == 0 {
      InitInv(run[0]);
    } else {
      RunKeepsInv(run, j - 1);
      assert Follows(run, j - 1);
      NextKeepsInv(run[j - 1], run[j]);
    }
  }

  /** The i-th item sits in allocated memory, in the node that took its place in the order. */
  ghost predicate OnChain<T>(s: State<T>, i: nat) {
    && i < |s.items| && i + 1 < |s.order|
    && s.order[i + 1] in s.mem && s.mem[s.order[i + 1]].data == Some(s.items[i])
  }

  /** The payload that Dequeue has read and is about to return. */
  function InHand<T>(s: State<T>): (data: seq<T>) {
    if s.consumer.Retiring? then [s.consumer.data] else []
  }

  /** What Dequeue has returned is a prefix of the payloads in the order of the exchanges: nothing
      lost, duplicated or reordered. Next in that order is the payload in the consumer's hand, if it
      has moved the tail and not returned yet, and all after it are still in memory, on the chain. */
  lemma DequeuedIsPrefix<T(!new)>(run: seq<State<T>>, j: nat)
    requires IsRun(run) && j < |run|
    ensures |run[j].output| <= |run[j].items|
    ensures run[j].output == run[j].items[..|run[j].output|]
    ensures run[j].retired <= |run[j].items|
    ensures run[j].output + InHand(run[j]) + run[j].items[run[j].retired..] == run[j].items
    ensures forall i: nat | run[j].retired <= i < |run[j].items| :: OnChain(run[j], i)
  {
    RunKeepsInv(run, j);
    var s := run[j];
    forall i: nat | s.retired <= i < |s.items|
      ensures OnChain(s, i)
    {
      assert Live(s, i + 1) && LinkOk(s, i + 1);
    }
  }

  /** When a node is deleted it is in use exactly there: it is allocated, it is neither `_head` nor
      `_tail`, and no producer will store a link into it or still has to publish it. Every link
      store goes to allocated memory. */
  lemma ReclamationIsSafe<T(!new)>(run: seq<State<T>>, j: nat, p: nat)
    requires IsRun(run) && j < |run| && p < |run[j].producers|
    ensures run[j].producers[p].Linking? ==> run[j].producers[p].prev in run[j].mem && run[j].producers[p].node in run[j].mem
    ensures run[j].consumer.Retiring? ==>
              var n := run[j].consumer.tail;
              && n in run[j].mem && n != run[j].head && n != run[j].tail
              && match run[j].producers[p]
                 case Idle => true
                 case Prepared(node) => node != n
                 case Linking(prev, node, _) => prev != n && node != n
  {
    RunKeepsInv(run, j);
    var s := run[j];
    assert ProducerOk(s, p) && Live(s, s.retired) && Live(s, |s.order| - 1);
    if s.producers[p].Linking? {
      var k := s.producers[p].ticket;
      assert Live(s, k + 1) && LinkOk(s, k + 1);
    }
  }

  /** Dequeue answers false only when everything exchanged so far has been taken, or when the
      producer of the very next item has exchanged but not yet linked it. */
  lemma FalseMeansEmptyOrPending<T(!new)>(run: seq<State<T>>, j: nat)
    requires IsRun(run) && j + 1 < |run|
    requires run[j].consumer.HasTail? && LoadNext(run[j], run[j + 1])
    ensures run[j + 1].consumer.Outside? <==> run[j].output == run[j].items || Pending(run[j], run[j].retired)
  {
    RunKeepsInv(run, j);
    var s := run[j];
    assert Live(s, s.retired) && LinkOk(s, s.retired);
    if Pending(s, s.retired) {
      var p :| 0 <= p < |s.producers| && s.producers[p].Linking? && s.producers[p].ticket == s.retired;
      assert ProducerOk(s, p);
    }
  }

  /** Every load and store of a node, the consumer's included, goes to allocated memory and finds what
      it needs there, so neither side ever gets stuck: the consumer can always take its next step, and
      so can a producer inside Enqueue. */
  lemma NobodyIsStuck<T(!new)>(run: seq<State<T>>, j: nat, p: nat)
    requires IsRun(run) && j < |run| && p < |run[j].producers|
    ensures run[j].consumer.HasTail? || run[j].consumer.Retiring? ==> run[j].consumer.tail in run[j].mem
    ensures run[j].consumer.HasNext? ==> run[j].consumer.next in run[j].mem && run[j].mem[run[j].consumer.next].data.Some?
    ensures exists s' :: ConsumerNext(run[j], s')
    ensures !run[j].producers[p].Idle? ==> exists s' :: ProducerNext(run[j], s', p)
  {
    RunKeepsInv(run, j);
    var s' := ConsumerCan(run[j]);
    if !run[j].producers[p].Idle? {
      var s'' := ProducerCan(run[j], p);
    }
  }

  lemma ConsumerCan<T(!new)>(s: State<T>) returns (s': State<T>)
    requires Inv(s)
    ensures s.consumer.HasTail? || s.consumer.Retiring? ==> s.consumer.tail in s.mem
    ensures s.consumer.HasNext? ==> s.consumer.next in s.mem && s.mem[s.consumer.next].data.Some?
    ensures ConsumerNext(s, s')
  {
    assert Live(s, s.retired) && LinkOk(s, s.retired);
    match s.consumer
    case Outside => s' := s.(consumer := HasTail(s.tail));
    case HasTail(tail) =>
      s' := s.(consumer := match s.mem[tail].next case None => Outside case Some(next) => HasNext(tail, next));
    case HasNext(tail, next) =>
      assert Live(s, s.retired + 1) && LinkOk(s, s.retired + 1);
      s' := s.(consumer := HasData(tail, next, s.mem[next].data.value));
    case HasData(tail, next, data) => s' := s.(tail := next, consumer := Retiring(tail, data), retired := s.retired + 1);
    case Retiring(tail, data) => s' := s.(mem := s.mem - {tail}, consumer := Outside, output := s.output + [data]);
  }

  lemma ProducerCan<T(!new)>(s: State<T>, p: nat) returns (s': State<T>)
    requires Inv(s) && p < |s.producers| && !s.producers[p].Idle?
    ensures ProducerNext(s, s', p)
  {
    assert ProducerOk(s, p);
    match s.producers[p]
    case Prepared(node) =>
      s' := s.(head := node, producers := s.producers[p := Linking(s.head, node, |s.order| - 1)],
               order := s.order + [node], items := s.items + [s.mem[node].data.value]);
    case Linking(prev, node, _) =>
      s' := s.(mem := s.mem[prev := s.mem[prev].(next := Some(node))], producers := s.producers[p := Idle]);
  }
}
