/** What holds in every run of the intrusive queue. */
module MpscIntrusiveRuns {
  import opened MpscIntrusive
  import opened MpscIntrusiveInvariant
  import opened Options

  lemma {:induction false} RunKeepsInv(run: seq<State>, j: nat)
    requires IsRun(run) && j < |run|
    ensures Inv(run[j])
  {
    if j == 0 {
      InitInv(run[0]);
    } else {
      RunKeepsInv(run, j - 1);
      assert Follows(run, j - 1);
      NextKeepsInv(run[j - 1], run[j]);
    }
  }

  /** What Dequeue has returned is a prefix of the items in the order of their exchanges; the rest
      are on the chain. */
  lemma DequeuedIsPrefix(run: seq<State>, j: nat)
    requires IsRun(run) && j < |run|
    ensures run[j].retired <= |run[j].order|
    ensures Items(run[j].order) == run[j].output + Items(run[j].order[run[j].retired..])
  {
    RunKeepsInv(run, j);
    var s := run[j];
    assert s.order == s.order[..s.retired] + s.order[s.retired..];
    ItemsAppend(s.order[..s.retired], s.order[s.retired..]);
  }

  /** The dummy is on the chain at most once, and when the consumer is about to reset its link and
      enqueue it again it is off the chain, neither `_head` nor `_tail`, and no producer still has to
      store a link into it. */
  lemma DummyIsOnChainOnce(run: seq<State>, j: nat)
    requires IsRun(run) && j < |run|
    ensures forall a: nat, b: nat | Live(run[j], a) && Live(run[j], b) && run[j].order[a] == DUMMY == run[j].order[b] :: a == b
    ensures run[j].consumer.Refill? || run[j].consumer.RefillCleared? ==>
              && !InChain(run[j], DUMMY) && run[j].head != DUMMY && run[j].tail != DUMMY
              && forall p | 0 <= p < |run[j].producers| && run[j].producers[p].Linking? :: run[j].producers[p].prev != DUMMY
  {
    RunKeepsInv(run, j);
    var s := run[j];
    forall a: nat, b: nat | Live(s, a) && Live(s, b) && s.order[a] == DUMMY == s.order[b] ensures a == b {
      assert Distinct(s, a, b) && Distinct(s, b, a);
    }
    TailInChain(s);
    assert Live(s, |s.order| - 1) && InChain(s, s.head);
    forall p | 0 <= p < |s.producers| && s.producers[p].Linking? ensures InChain(s, s.producers[p].prev) {
      assert ProducerOk(s, p);
    }
  }

  /** An item back in a client's hands, or being prepared by a producer, is off the chain, and
      nobody is going to store a link into it any more. */
  lemma ReturnedItemIsQuiet(run: seq<State>, j: nat, n: nat, p: nat)
    requires IsRun(run) && j < |run| && p < |run[j].producers|
    requires n in run[j].held || (exists q :: 0 <= q < |run[j].producers| && IsPreparing(run[j].producers[q], n))
    ensures n != run[j].head && n != run[j].tail && !InChain(run[j], n)
    ensures run[j].producers[p].Linking? ==> run[j].producers[p].prev != n
    ensures run[j].consumer.RefillLinking? ==> run[j].consumer.prev != n
  {
    RunKeepsInv(run, j);
    var s := run[j];
    assert Free(s, n) by {
      if n !in s.held {
        var q :| 0 <= q < |s.producers| && IsPreparing(s.producers[q], n);
        assert ProducerOk(s, q);
      }
    }
    TailInChain(s);
    assert Live(s, |s.order| - 1) && InChain(s, s.head);
    assert ProducerOk(s, p);
    if s.producers[p].Linking? { assert InChain(s, s.producers[p].prev); }
    if s.consumer.RefillLinking? { assert InChain(s, s.consumer.prev); }
  }

  /** No item is ever lost: in every run each one stays with a client, a producer or the chain. */
  lemma {:induction false} ItemsAreConserved(run: seq<State>, j: nat, n: nat)
    requires IsRun(run) && j < |run|
    requires n in run[0].held
    ensures Owned(run[j], n)
  {
    if j > 0 {
      ItemsAreConserved(run, j - 1, n);
      RunKeepsInv(run, 0);
      RunKeepsInv(run, j - 1);
      assert Follows(run, j - 1);
      NextKeepsOwned(run[j - 1], run[j], n);
    }
  }

  /** Every load and store of a link goes to an item in memory, so neither side ever gets stuck: the
      consumer can always take its next step, and so can a producer inside Enqueue. */
  lemma NobodyIsStuck(run: seq<State>, j: nat, p: nat)
    requires IsRun(run) && j < |run| && p < |run[j].producers|
    ensures exists s' :: ConsumerNext(run[j], s')
    ensures !run[j].producers[p].Idle? ==> exists s' :: ProducerNext(run[j], s', p)
  {
    RunKeepsInv(run, j);
    var s' := ConsumerCan(run[j]);
    if !run[j].producers[p].Idle? {
      var s'' := ProducerCan(run[j], p);
    }
  }

  lemma ConsumerCan(s: State) returns (s': State)
    requires Inv(s)
    ensures ConsumerNext(s, s')
  {
    LinkTells(s, s.retired);
    match s.consumer
    case Outside => s' := s.(consumer := HasTail(s.tail));
    case HasTail(tail) => s' := s.(consumer := HasNext(tail, s.link[tail]));
    case HasNext(tail, next) =>
      if tail != DUMMY { s' := s.(consumer := Decide(tail, next)); }
      else if next.None? { s' := s.(consumer := Outside); }
      else { s' := s.(tail := next.value, retired := s.retired + 1, consumer := Skipped(next.value)); }
    case Skipped(tail) => s' := s.(consumer := Decide(tail, s.link[tail]));
    case Decide(tail, next) => s' := if next.Some? then Taken(s) else s.(consumer := if tail != s.head then Outside else Consumer.Refill(tail));
    case Refill(tail) => s' := s.(link := s.link[DUMMY := None], consumer := RefillCleared(tail));
    case RefillCleared(tail) => s' := s.(head := DUMMY, order := s.order + [DUMMY], consumer := RefillLinking(tail, s.head, |s.order| - 1));
    case RefillLinking(tail, prev, _) => s' := s.(link := s.link[prev := Some(DUMMY)], consumer := Reload(tail));
    case Reload(tail) => s' := s.(consumer := Last(tail, s.link[tail]));
    case Last(tail, next) => s' := if next.Some? then Taken(s) else s.(consumer := Outside);
  }

  function Taken(s: State): (s': State)
    requires (s.consumer.Decide? || s.consumer.Last?) && s.consumer.next.Some?
  {
    s.(tail := s.consumer.next.value, retired := s.retired + 1, consumer := Outside,
       held := s.held + {s.consumer.tail}, output := s.output + [s.consumer.tail])
  }

  lemma ProducerCan(s: State, p: nat) returns (s': State)
    requires Inv(s) && p < |s.producers| && !s.producers[p].Idle?
    ensures ProducerNext(s, s', p)
  {
    assert ProducerOk(s, p);
    match s.producers[p]
    case Claimed(item) => s' := s.(link := s.link[item := None], producers := s.producers[p := Cleared(item)]);
    case Cleared(item) =>
      s' := s.(head := item, order := s.order + [item], producers := s.producers[p := Linking(s.head, item, |s.order| - 1)]);
    case Linking(prev, item, _) => s' := s.(link := s.link[prev := Some(item)], producers := s.producers[p := Idle]);
  }

  /** A load of a link by the consumer: the first one, the one after stepping over the dummy, and the
      one after the dummy went in again. */
  predicate IsLinkLoad(c: Consumer) {
    c.HasTail? || c.Skipped? || c.Reload?
  }

  /** Each load of a link finds none exactly when the item at the tail is the last one exchanged in, or
      when the producer of the very next has exchanged but not yet linked it; after the dummy went in
      again the item at the tail is not the last, so it is just the latter. */
  lemma NoLinkMeansLastOrPending(run: seq<State>, j: nat)
    requires IsRun(run) && j + 1 < |run| && IsLinkLoad(run[j].consumer) && ConsumerNext(run[j], run[j + 1])
    ensures run[j + 1].consumer.HasNext? || run[j + 1].consumer.Decide? || run[j + 1].consumer.Last?
    ensures run[j + 1].consumer.next.None? <==> run[j].tail == run[j].head || Pending(run[j], run[j].retired)
    ensures run[j].consumer.Reload? ==> run[j].tail != run[j].head
  {
    RunKeepsInv(run, j);
    var s := run[j];
    LinkTells(s, s.retired);
    assert Distinct(s, s.retired, |s.order| - 1);
  }

  /** A step that ends Dequeue with the answer false. */
  ghost predicate AnswersFalse(s: State, s': State) {
    ConsumerNext(s, s') && !s.consumer.Outside? && s'.consumer.Outside? && s'.output == s.output
  }

  /** Dequeue answers false if and only if a load has found no link, at one of three places: on the dummy; on
      an item that is not the head; and, with the dummy in again, on an item that has not been linked to
      its successor. In the last two, something has been exchanged in behind the item. */
  lemma FalseMeansEmptyOrPending(run: seq<State>, j: nat)
    requires IsRun(run) && j + 1 < |run| && ConsumerNext(run[j], run[j + 1])
    ensures var s := run[j];
            AnswersFalse(s, run[j + 1]) <==>
              || (s.consumer == HasNext(s.tail, None) && s.tail == DUMMY)
              || (s.consumer == Decide(s.tail, None) && s.tail != s.head)
              || s.consumer == Last(s.tail, None)
    ensures AnswersFalse(run[j], run[j + 1]) && !run[j].consumer.HasNext? ==>
              run[j].retired + 1 < |run[j].order| && run[j].tail != run[j].head && run[j].tail != DUMMY
  {
    RunKeepsInv(run, j);
    var s := run[j];
    assert Distinct(s, s.retired, |s.order| - 1);
    assert |s.output + [s.tail]| != |s.output|;
  }
}
