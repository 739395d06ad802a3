/** The intrusive queue as an object: each call with every producer held where it is. */
module MpscIntrusiveObjects {
  import Links
  import opened MpscIntrusive
  import opened MpscIntrusiveInvariant
  import opened Options

  class MPSCQueueIntrusive {
    var link: map<nat, Option<nat>>
    var head: nat
    var tail: nat
    ghost var producers: seq<Producer>
    ghost var held: set<nat>
    ghost var order: seq<nat>
    ghost var retired: nat
    ghost var output: seq<nat>

    ghost function View(): State
      reads this
    {
      State(link, head, tail, producers, Outside, held, order, retired, output)
    }

    ghost predicate Valid()
      reads this
    {
      Inv(View())
    }

    /** The items exchanged in and not yet dequeued. */
    ghost function Queue(): (q: seq<nat>)
      reads this
      requires Valid()
    {
      Items(order[retired..])
    }

    constructor (items: set<nat>, ghost threads: nat)
      requires DUMMY !in items
      ensures Valid() && Queue() == [] && held == items && producers == seq(threads, _ => Idle)
    {
      link := map n | n in items + {DUMMY} :: None;
      head, tail := DUMMY, DUMMY;
      producers, held, order, retired, output := seq(threads, _ => Idle), items, [DUMMY], 0, [];
      new;
      InitInv(View());
    }

    method Enqueue(input: nat, ghost p: nat)
      requires Valid() && input in held && p < |producers| && producers[p] == Idle
      modifies this`link, this`head, this`held, this`order
      ensures Valid() && Queue() == old(Queue()) + [input] && held == old(held) - {input}
    {
      ghost var s := View();
      ghost var claimed := s.(held := s.held - {input}, producers := s.producers[p := Claimed(input)]);
      ClaimKeepsInv(s, claimed, p, input);
      held := held - {input};
      link := link[input := None];
      ghost var cleared := claimed.(link := link, producers := s.producers[p := Cleared(input)]);
      ClearKeepsInv(claimed, cleared, p);
      var prevHead := head;
      head := input;
      order := order + [input];
      ghost var linking := cleared.(head := head, order := order, producers := s.producers[p := Linking(prevHead, input, |s.order| - 1)]);
      ExchangeKeepsInv(cleared, linking, p);
      link := link[prevHead := Some(input)];
      assert ProducerOk(linking, p);
      assert View().producers == linking.producers[p := Idle];
      LinkKeepsInv(linking, View(), p);
      EnqueuedAtEnd(s.order, s.retired, input);
    }

    /** `Enqueue(_dummyPtr)`, by the consumer, with the last item `item` at the tail. */
    method EnqueueDummy(item: nat, ghost s: State) returns (ghost s': State)
      requires s == View().(consumer := Consumer.Refill(item)) && Inv(s)
      modifies this`link, this`head, this`order
      ensures Inv(s') && s' == View().(consumer := Reload(item))
      ensures link.Keys <= old(link.Keys) + {DUMMY}
      ensures order == old(order) + [DUMMY] && old(head) in link && link[old(head)] == Some(DUMMY)
    {
      link := link[DUMMY := None];
      ghost var cleared := s.(link := link, consumer := RefillCleared(item));
      RefillKeepsInv(s, cleared);
      var prevHead := head;
      head := DUMMY;
      order := order + [DUMMY];
      ghost var linking := cleared.(head := head, order := order, consumer := RefillLinking(item, prevHead, |s.order| - 1));
      RefillKeepsInv(cleared, linking);
      link := link[prevHead := Some(DUMMY)];
      s' := linking.(link := link, consumer := Reload(item));
      RefillKeepsInv(linking, s');
    }

    /** `_tail.store(next); result = tail; return true;` */
    method Take(item: nat, next: nat, ghost s: State) returns (result: Option<nat>)
      requires Inv(s) && (s.consumer == Decide(item, Some(next)) || s.consumer == Last(item, Some(next)))
      requires s == View().(consumer := s.consumer)
      modifies this`tail, this`retired, this`held, this`output
      ensures Valid() && result == Some(item)
      ensures retired == old(retired) + 1 && held == old(held) + {item}
      ensures retired <= |order| && Items(order[retired - 1..]) == [item] + Items(order[retired..])
    {
      tail := next;
      retired, held, output := retired + 1, held + {item}, output + [item];
      AdvanceKeepsInv(s, View());
      FrontItem(order, retired - 1);
      result := Some(item);
    }

    /** The link out of `item`, read again after the dummy went in behind it. */
    method TakeReloaded(item: nat, ghost s: State) returns (result: Option<nat>)
      requires Inv(s) && s == View().(consumer := Reload(item)) && item in link
      modifies this`tail, this`retired, this`held, this`output
      ensures old(link[item]).Some? ==>
        && Valid() && result == Some(item)
        && retired == old(retired) + 1 && held == old(held) + {item}
        && retired <= |order| && Items(order[retired - 1..]) == [item] + Items(order[retired..])
      ensures old(link[item]).None? ==> result == None && View() == old(View())
    {
      var next := link[item];
      ghost var last := Reloaded(s, item, next);
      if next.Some? {
        result := Take(item, next.value, last);
        return;
      }
      result := None;
    }

    /** The item at the tail is also the head: with the dummy behind it, it can be taken. */
    method TakeLast(item: nat, ghost s: State) returns (result: Option<nat>)
      requires Inv(s) && item == head && item in link && link[item] == None && s == View().(consumer := Decide(item, None))
      modifies this`link, this`head, this`tail, this`held, this`order, this`retired, this`output
      ensures Valid() && link.Keys <= old(link.Keys) + {DUMMY}
      ensures result == Some(item) && held == old(held) + {item}
      ensures retired <= |order| && old(Items(order[retired..])) == [item] + Items(order[retired..])
    {
      ghost var refill := StartRefill(s, item);
      ghost var reload := EnqueueDummy(item, refill);
      EnqueuedDummy(refill.order, retired);
      result := TakeReloaded(item, reload);
    }

    /** Dequeue from the decision on, with an item at the tail. */
    method Finish(item: nat, ghost s: State) returns (result: Option<nat>)
      requires Inv(s) && item == tail && item != DUMMY && (s.consumer.HasNext? || s.consumer == Skipped(item))
      requires s == View().(consumer := s.consumer)
      modifies this`link, this`head, this`tail, this`held, this`order, this`retired, this`output
      ensures Valid() && link.Keys <= old(link.Keys) + {DUMMY}
      ensures result.None? <==> old(Pending(View(), retired))
      ensures result.None? ==> View() == old(View())
      ensures result.Some? ==>
        && result.value == item && held == old(held) + {item}
        && retired <= |order| && old(Items(order[retired..])) == [item] + Items(order[retired..])
    {
      ghost var decide := Decided(s, item);
      LinkTells(decide, retired);
      var next := link[item];
      if next.Some? {
        result := Take(item, next.value, decide);
        return;
      }
      if item != head {
        ConsumerMoves(decide, View());
        return None;
      }
      result := TakeLast(item, decide);
    }

    /** `_tail.store(next)`, past the dummy. */
    method SkipDummy(next: nat, ghost s: State) returns (ghost s': State)
      requires Inv(s) && tail == DUMMY && s == View().(consumer := HasNext(DUMMY, Some(next)))
      modifies this`tail, this`retired
      ensures Inv(s') && s' == View().(consumer := Skipped(next)) && tail == next && next != DUMMY
      ensures retired == old(retired) + 1 && retired < |order| && Items(order[retired - 1..]) == Items(order[retired..])
    {
      LinkTells(s, retired);
      tail := next;
      retired := retired + 1;
      s' := s.(tail := tail, retired := retired, consumer := Skipped(tail));
      AdvanceKeepsInv(s, s');
      FrontDummy(order, retired - 1);
    }

    /** Dequeue with the dummy at the tail. */
    method PastDummy(next: Option<nat>, ghost s: State) returns (result: Option<nat>)
      requires Valid() && Inv(s) && tail == DUMMY && DUMMY in link && next == link[DUMMY]
      requires s == View().(consumer := HasNext(DUMMY, next))
      modifies this`link, this`head, this`tail, this`held, this`order, this`retired, this`output
      ensures Valid() && link.Keys <= old(link.Keys) + {DUMMY}
      ensures result.None? <==> next.None? || old(Pending(View(), retired + 1))
      ensures result.None? ==> Queue() == old(Queue()) && held == old(held)
      ensures result.Some? ==> old(Queue()) == [result.value] + Queue() && held == old(held) + {result.value}
    {
      if next.None? {
        return None;
      }
      ghost var skipped := SkipDummy(next.value, s);
      result := Finish(next.value, skipped);
    }

    /** With every producer held where it is, the consumer gives up exactly when the queue is empty
        or a producer has yet to store the link out of the first item, or into it; otherwise it
        returns the first item. */
    method Dequeue() returns (result: Option<nat>)
      requires Valid()
      modifies this`link, this`head, this`tail, this`held, this`order, this`retired, this`output
      ensures Valid() && link.Keys <= old(link.Keys) + {DUMMY}
      ensures result.None? <==> old(GivesUp(View()))
      ensures result.None? ==> Queue() == old(Queue()) && held == old(held)
      ensures result.Some? ==> old(Queue()) == [result.value] + Queue() && held == old(held) + {result.value}
    {
      GivesUpCases(View());
      var item := tail;
      var next := link[item];
      ghost var s := Looked(View());
      if item == DUMMY {
        result := PastDummy(next, s);
      } else {
        result := Finish(item, s);
      }
    }

    method Delete(item: nat)
      requires Valid() && item in held && forall p | 0 <= p < |producers| :: producers[p] == Idle
      modifies this`link, this`held
      ensures Valid() && link == old(link) - {item} && held == old(held) - {item}
    {
      ghost var s := View();
      link := link - {item};
      held := held - {item};
      DeleteKeepsInv(s, View(), item);
    }

    /** One round of the destructor's loop. */
    method DequeueAndDelete() returns (output: Option<nat>)
      requires Valid() && forall p | 0 <= p < |producers| :: producers[p] == Idle
      modifies this`link, this`head, this`tail, this`held, this`order, this`retired, this`output
      ensures Valid() && held == old(held) && link.Keys <= old(link.Keys) + {DUMMY}
      ensures old(Queue()) == (if output.Some? then [output.value] else []) + Queue()
      ensures output.None? <==> old(Queue()) == []
      ensures output.Some? ==> output.value != DUMMY && output.value !in link && output.value in old(link)
    {
      QueuedNotHeld(View());
      QuietGivesUp(View());
      output := Dequeue();
      if output.Some? {
        assert Free(View(), output.value);
        Delete(output.value);
      }
    }

    /** The destructor, with no producer left: every item still queued is deleted, in order, once. */
    method Destroy() returns (deleted: seq<nat>)
      requires Valid() && forall p | 0 <= p < |producers| :: producers[p] == Idle
      modifies this`link, this`head, this`tail, this`held, this`order, this`retired, this`output
      ensures Valid() && Queue() == [] && held == old(held)
      ensures deleted == old(Queue())
      ensures Links.NoRepeats(deleted)
      ensures forall n | n in deleted :: n !in link
    {
      ghost var queue := Queue();
      QueueIsDistinct(View());
      deleted := [];
      var more := true;
      while more
        invariant Valid() && held == old(held)
        invariant queue == deleted + Queue()
        invariant !more ==> Queue() == []
        invariant forall n | n in deleted :: n != DUMMY && n !in link
        decreases |Queue()| + if more then 1 else 0
      {
        var output := DequeueAndDelete();
        more := output.Some?;
        if more {
          deleted := deleted + [output.value];
        }
      }
      assert deleted == queue;
    }
  }

  lemma {:induction false} ItemsIn(order: seq<nat>, n: nat)
    requires n in Items(order)
    ensures n in order
  {
    if n in Items(order[..|order| - 1]) { ItemsIn(order[..|order| - 1], n); }
  }

  lemma {:induction false} ItemsDistinct(order: seq<nat>)
    requires Links.NoRepeats(order)
    ensures Links.NoRepeats(Items(order))
  {
    if order != [] {
      var most := order[..|order| - 1];
      ItemsDistinct(most);
      if order[|most|] in Items(most) { ItemsIn(most, order[|most|]); }
    }
  }

  /** No item is queued twice. */
  lemma QueueIsDistinct(s: State)
    requires Inv(s)
    ensures Links.NoRepeats(Items(s.order[s.retired..]))
  {
    var live := s.order[s.retired..];
    forall i, j | 0 <= i < j < |live| ensures live[i] != live[j] {
      assert Distinct(s, s.retired + i, s.retired + j);
    }
    ItemsDistinct(live);
  }

  /** No client has an item that is queued. */
  lemma QueuedNotHeld(s: State)
    requires Inv(s)
    ensures forall n | n in Items(s.order[s.retired..]) :: n !in s.held
  {
    forall n | n in Items(s.order[s.retired..]) ensures n !in s.held {
      ItemsIn(s.order[s.retired..], n);
      var k: nat :| s.retired <= k < |s.order| && s.order[k] == n;
      assert Live(s, k) && InChain(s, n);
    }
  }

  /** With no producer inside Enqueue, the consumer gives up on an empty queue only. */
  lemma QuietGivesUp(s: State)
    requires OrderOk(s) && s.consumer.Outside? && forall p | 0 <= p < |s.producers| :: s.producers[p] == Idle
    ensures GivesUp(s) <==> Items(s.order[s.retired..]) == []
  {
  }

  /** Deleting an item that a client has got back. */
  lemma DeleteKeepsInv(s: State, s': State, item: nat)
    requires Inv(s) && item in s.held && forall p | 0 <= p < |s.producers| :: s.producers[p] == Idle
    requires s.consumer.Outside? && s' == s.(link := s.link - {item}, held := s.held - {item})
    ensures Inv(s')
  {
    assert Free(s, item);
    assert forall j: nat, k: nat :: Distinct(s, j, k) == Distinct(s', j, k);
    forall k: nat | Live(s', k) ensures LinkOk(s', k) {
      assert Live(s, k) && LinkOk(s, k);
      assert Pending(s, k) ==> Pending(s', k);
    }
    forall n | n in s'.held ensures Free(s', n) {
      assert Free(s, n);
    }
  }

  /** With one node on the chain, an item, the dummy is free to be enqueued. */
  lemma StartRefill(s: State, item: nat) returns (refill: State)
    requires Inv(s) && s.consumer == Decide(item, None) && item == s.head
    ensures refill == s.(consumer := Consumer.Refill(item)) && Inv(refill)
  {
    SingletonChain(s);
    refill := s.(consumer := Consumer.Refill(item));
    assert forall n: nat :: InChain(s, n) == InChain(refill, n);
    ConsumerMoves(s, refill);
  }

  lemma Reloaded(s: State, item: nat, next: Option<nat>) returns (last: State)
    requires Inv(s) && s.consumer == Reload(item) && item in s.link && s.link[item] == next
    ensures last == s.(consumer := Last(item, next)) && Inv(last)
  {
    last := s.(consumer := Last(item, next));
    ConsumerMoves(s, last);
  }

  lemma FrontItem(order: seq<nat>, t: nat)
    requires t < |order| && order[t] != DUMMY
    ensures Items(order[t..]) == [order[t]] + Items(order[t + 1..])
  {
    assert order[t..] == [order[t]] + order[t + 1..];
    ItemsAppend([order[t]], order[t + 1..]);
    assert [order[t]][..0] == [];
  }

  lemma FrontDummy(order: seq<nat>, t: nat)
    requires t < |order| && order[t] == DUMMY
    ensures Items(order[t..]) == Items(order[t + 1..])
  {
    assert order[t..] == [DUMMY] + order[t + 1..];
    ItemsAppend([DUMMY], order[t + 1..]);
    assert [DUMMY][..0] == [];
  }

  lemma EnqueuedDummy(order: seq<nat>, t: nat)
    requires t <= |order|
    ensures Items((order + [DUMMY])[t..]) == Items(order[t..])
  {
    assert (order + [DUMMY])[t..] == order[t..] + [DUMMY];
    ItemsAppend(order[t..], [DUMMY]);
    assert [DUMMY][..0] == [];
  }

  ghost predicate GivesUp(s: State)
    requires s.retired <= |s.order|
  {
    || Items(s.order[s.retired..]) == []
    || Pending(s, s.retired)
    || (s.tail == DUMMY && Pending(s, s.retired + 1))
  }

  /** What the consumer's first look tells of giving up. */
  lemma GivesUpCases(s: State)
    requires Inv(s) && s.consumer.Outside?
    ensures s.tail in s.link && (s.link[s.tail].None? && s.tail == DUMMY ==> GivesUp(s))
    ensures s.link[s.tail].Some? || s.tail != DUMMY ==>
              (GivesUp(s) <==> if s.tail == DUMMY then Pending(s, s.retired + 1) else Pending(s, s.retired))
  {
    EmptyIsDummyAlone(s);
    LinkTells(s, s.retired);
  }

  lemma Looked(s: State) returns (s': State)
    requires Inv(s) && s.consumer.Outside?
    ensures s.tail in s.link && s' == s.(consumer := HasNext(s.tail, s.link[s.tail])) && Inv(s')
  {
    LinkTells(s, s.retired);
    s' := s.(consumer := HasNext(s.tail, s.link[s.tail]));
    ConsumerMoves(s, s');
  }

  lemma Decided(s: State, item: nat) returns (s': State)
    requires Inv(s) && item == s.tail && item != DUMMY && (s.consumer.HasNext? || s.consumer == Skipped(item))
    ensures item in s.link && s' == s.(consumer := Decide(item, s.link[item])) && Inv(s')
  {
    LinkTells(s, s.retired);
    s' := s.(consumer := Decide(item, s.link[item]));
    ConsumerMoves(s, s');
  }

  lemma {:induction false} NoItems(order: seq<nat>)
    ensures Items(order) == [] <==> forall k | 0 <= k < |order| :: order[k] == DUMMY
  {
    if order != [] {
      var most := order[..|order| - 1];
      NoItems(most);
      assert forall k | 0 <= k < |order| :: order[k] == if k < |most| then most[k] else order[|most|];
    }
  }

  /** The queue is empty exactly when the dummy is alone on the chain. */
  lemma EmptyIsDummyAlone(s: State)
    requires OrderOk(s)
    ensures Items(s.order[s.retired..]) == [] <==> s.tail == DUMMY && s.retired + 1 == |s.order|
  {
    var live := s.order[s.retired..];
    NoItems(live);
    assert live[0] == s.tail;
    if |live| > 1 {
      assert Distinct(s, s.retired, s.retired + 1) && live[1] == s.order[s.retired + 1];
    }
  }

  lemma EnqueuedAtEnd(order: seq<nat>, t: nat, n: nat)
    requires t <= |order| && n != DUMMY
    ensures Items((order + [n])[t..]) == Items(order[t..]) + [n]
  {
    assert (order + [n])[t..] == order[t..] + [n];
    ItemsAppend(order[t..], [n]);
    assert Items([n]) == [n] by { assert [n][..0] == []; }
  }
}
