/** What every step of the intrusive queue keeps. */
module MpscIntrusiveInvariant {
  import opened MpscIntrusive
  import opened Options

  // ---- the invariant

  ghost predicate Live(s: State, k: nat) {
    s.retired <= k < |s.order|
  }

  ghost predicate InChain(s: State, n: nat) {
    exists k: nat :: Live(s, k) && s.order[k] == n
  }

  /** A producer, or the consumer refilling, still owes the link from place k to place k + 1. */
  ghost predicate Pending(s: State, k: nat) {
    || (exists p :: 0 <= p < |s.producers| && s.producers[p].Linking? && s.producers[p].ticket == k)
    || (s.consumer.RefillLinking? && s.consumer.ticket == k)
  }

  ghost predicate Distinct(s: State, j: nat, k: nat) {
    s.retired <= j < k < |s.order| ==> s.order[j] != s.order[k]
  }

  ghost predicate OrderOk(s: State) {
    && s.retired < |s.order|
    && s.order[s.retired] == s.tail && s.order[|s.order| - 1] == s.head
    && (forall j: nat, k: nat :: Distinct(s, j, k))
    && DUMMY in s.link
  }

  ghost predicate LinkOk(s: State, k: nat)
    requires Live(s, k)
  {
    && s.order[k] in s.link
    && match s.link[s.order[k]]
       case None => k + 1 == |s.order| || Pending(s, k)
       case Some(next) => k + 1 < |s.order| && next == s.order[k + 1]
  }

  /** An item outside the chain: a client's or a producer's own. */
  ghost predicate Free(s: State, n: nat) {
    n != DUMMY && n in s.link && !InChain(s, n)
  }

  ghost predicate OwesLink(s: State, prev: nat, item: nat, ticket: nat) {
    && Live(s, ticket) && ticket + 1 < |s.order|
    && prev == s.order[ticket] && item == s.order[ticket + 1]
    && prev in s.link && s.link[prev] == None
  }

  ghost predicate ProducerOk(s: State, p: nat)
    requires p < |s.producers|
  {
    match s.producers[p]
    case Idle => true
    case Claimed(item) => Free(s, item) && item !in s.held
    case Cleared(item) => Free(s, item) && item !in s.held && s.link[item] == None
    case Linking(prev, item, ticket) => item != DUMMY && OwesLink(s, prev, item, ticket)
  }

  ghost predicate ProducersApart(s: State, p: nat, q: nat) {
    p < |s.producers| && q < |s.producers| && p != q ==>
      && (s.producers[p].Linking? && s.producers[q].Linking? ==> s.producers[p].ticket != s.producers[q].ticket)
      && ((s.producers[p].Claimed? || s.producers[p].Cleared?) && (s.producers[q].Claimed? || s.producers[q].Cleared?) ==>
            s.producers[p].item != s.producers[q].item)
  }

  ghost predicate NextIs(s: State, tail: nat, next: Option<nat>) {
    next.Some? ==> tail in s.link && s.link[tail] == next
  }

  ghost predicate ConsumerOk(s: State)
    requires s.retired < |s.order|
  {
    match s.consumer
    case Outside => true
    case HasTail(tail) => tail == s.tail
    case HasNext(tail, next) => tail == s.tail && NextIs(s, tail, next)
    case Skipped(tail) => tail == s.tail && tail != DUMMY
    case Decide(tail, next) => tail == s.tail && tail != DUMMY && NextIs(s, tail, next)
    case Refill(tail) => tail == s.tail && tail != DUMMY && !InChain(s, DUMMY)
    case RefillCleared(tail) => tail == s.tail && tail != DUMMY && !InChain(s, DUMMY) && s.link.Keys >= {DUMMY} && s.link[DUMMY] == None
    case RefillLinking(tail, prev, ticket) =>
      && tail == s.tail && tail != DUMMY
      && OwesLink(s, prev, DUMMY, ticket)
      && (forall p | 0 <= p < |s.producers| && s.producers[p].Linking? :: s.producers[p].ticket != ticket)
    case Reload(tail) => tail == s.tail && tail != DUMMY && s.retired + 1 < |s.order|
    case Last(tail, next) => tail == s.tail && tail != DUMMY && s.retired + 1 < |s.order| && NextIs(s, tail, next)
  }

  /** The order with the dummy left out: the items in the order of their exchanges. */
  function Items(order: seq<nat>): (items: seq<nat>)
    ensures |items| <= |order|
  {
    if order == [] then []
    else Items(order[..|order| - 1]) + (if order[|order| - 1] == DUMMY then [] else [order[|order| - 1]])
  }

  ghost predicate Inv(s: State) {
    && OrderOk(s)
    && (forall k: nat | Live(s, k) :: LinkOk(s, k))
    && (forall p | 0 <= p < |s.producers| :: ProducerOk(s, p))
    && (forall p: nat, q: nat :: ProducersApart(s, p, q))
    && (forall n | n in s.held :: Free(s, n))
    && ConsumerOk(s)
    && s.output == Items(s.order[..s.retired])
  }

  lemma InitInv(s: State)
    requires Init(s)
    ensures Inv(s)
  {
  }

  // ---- what each kind of step does to the chain

  ghost predicate ChainOk(s: State) {
    OrderOk(s) && forall k: nat | Live(s, k) :: LinkOk(s, k)
  }

  ghost predicate SamePending(s: State, s': State, done: int) {
    forall k: nat | k != done && Pending(s, k) :: Pending(s', k)
  }

  /** Resetting the link of an item outside the chain. */
  lemma ClearChain(s: State, s': State, n: nat)
    requires ChainOk(s) && !InChain(s, n)
    requires s'.link == s.link[n := None] && s'.order == s.order && s'.retired == s.retired
    requires s'.head == s.head && s'.tail == s.tail && SamePending(s, s', -1)
    ensures ChainOk(s')
  {
    forall j: nat, k: nat ensures Distinct(s', j, k) {
      assert Distinct(s, j, k);
    }
    forall k: nat | Live(s', k) ensures LinkOk(s', k) {
      assert Live(s, k) && LinkOk(s, k);
    }
  }

  /** An item outside the chain, its link reset, becomes the head; its predecessor's link is owed. */
  lemma ExchangeChain(s: State, s': State, n: nat)
    requires ChainOk(s) && !InChain(s, n) && n in s.link && s.link[n] == None
    requires s'.link == s.link && s'.order == s.order + [n] && s'.retired == s.retired
    requires s'.head == n && s'.tail == s.tail
    requires SamePending(s, s', -1) && Pending(s', |s.order| - 1)
    ensures ChainOk(s')
    ensures forall m: nat :: InChain(s', m) <==> InChain(s, m) || m == n
  {
    var last := |s.order| - 1;
    assert Live(s, last) && LinkOk(s, last);
    forall j: nat, k: nat ensures Distinct(s', j, k) {
      assert Distinct(s, j, k);
      if k == last + 1 && s.retired <= j < k { assert Live(s, j); }
    }
    forall k: nat | Live(s', k) ensures LinkOk(s', k) {
      if k <= last {
        assert Live(s, k) && LinkOk(s, k);
      }
    }
    forall m: nat ensures InChain(s', m) <==> InChain(s, m) || m == n {
      assert s'.order[last + 1] == n && Live(s', last + 1);
      if k: nat :| Live(s, k) && s.order[k] == m {
        assert Live(s', k) && s'.order[k] == m;
      }
    }
  }

  /** The owed link is stored. */
  lemma LinkChain(s: State, s': State, k: nat)
    requires ChainOk(s) && Live(s, k) && k + 1 < |s.order| && s.order[k] in s.link
    requires s'.link == s.link[s.order[k] := Some(s.order[k + 1])]
    requires s'.order == s.order && s'.retired == s.retired && s'.head == s.head && s'.tail == s.tail
    requires SamePending(s, s', k)
    ensures ChainOk(s')
  {
    forall i: nat, j: nat ensures Distinct(s', i, j) {
      assert Distinct(s, i, j);
    }
    forall j: nat | Live(s', j) ensures LinkOk(s', j) {
      assert LinkOk(s, j) && Distinct(s, j, k) && Distinct(s, k, j);
    }
  }

  /** The tail passes its node once the link to the next one is there. */
  lemma AdvanceChain(s: State, s': State, next: nat)
    requires ChainOk(s) && s.tail in s.link && s.link[s.tail] == Some(next)
    requires s'.link == s.link && s'.order == s.order && s'.retired == s.retired + 1
    requires s'.head == s.head && s'.tail == next && SamePending(s, s', -1)
    ensures ChainOk(s')
    ensures forall m: nat :: InChain(s', m) <==> InChain(s, m) && m != s.tail
    ensures InChain(s, s.tail)
  {
    var t := s.retired;
    assert Live(s, t) && LinkOk(s, t);
    forall i: nat, j: nat ensures Distinct(s', i, j) {
      assert Distinct(s, i, j);
    }
    forall k: nat | Live(s', k) ensures LinkOk(s', k) {
      assert Live(s, k) && LinkOk(s, k);
    }
    forall m: nat ensures InChain(s', m) <==> InChain(s, m) && m != s.tail {
      if k: nat :| Live(s, k) && s.order[k] == m {
        assert k > t ==> Live(s', k) && Distinct(s, t, k);
      }
      if k: nat :| Live(s', k) && s'.order[k] == m {
        assert Live(s, k) && Distinct(s, t, k);
      }
    }
  }

  /** The consumer's own knowledge survives a step that keeps its links, its place, and the dummy out. */
  lemma ConsumerKept(s: State, s': State)
    requires s.retired < |s.order| && ConsumerOk(s) && s'.consumer == s.consumer
    requires s'.tail == s.tail && s'.retired == s.retired && |s'.order| >= |s.order|
    requires s'.order[..|s.order|] == s.order
    requires forall n | n in s.link && s.link[n].Some? && InChain(s, n) :: n in s'.link && s'.link[n] == s.link[n]
    requires !InChain(s, DUMMY) && DUMMY in s.link ==> DUMMY in s'.link && s'.link[DUMMY] == s.link[DUMMY]
    requires InChain(s, s.tail)
    requires !InChain(s, DUMMY) ==> !InChain(s', DUMMY)
    requires s.consumer.RefillLinking? ==>
      && OwesLink(s', s.consumer.prev, DUMMY, s.consumer.ticket)
      && (forall p | 0 <= p < |s'.producers| && s'.producers[p].Linking? :: s'.producers[p].ticket != s.consumer.ticket)
    ensures ConsumerOk(s')
  {
  }

  lemma TailInChain(s: State)
    requires OrderOk(s)
    ensures InChain(s, s.tail)
  {
    assert Live(s, s.retired);
  }

  lemma ClaimKeepsInv(s: State, s': State, p: nat, item: nat)
    requires Inv(s) && Claim(s, s', p, item)
    ensures Inv(s')
  {
    assert forall j: nat, k: nat :: Distinct(s, j, k) == Distinct(s', j, k);
    assert forall n: nat :: InChain(s, n) == InChain(s', n);
    forall k: nat ensures Pending(s, k) ==> Pending(s', k) {
      PendingElsewhere(s, s', p, k);
    }
    forall k: nat | Live(s', k) ensures LinkOk(s', k) {
      assert LinkOk(s, k);
    }
    forall q | 0 <= q < |s'.producers| ensures ProducerOk(s', q) {
      assert ProducerOk(s, q);
    }
    forall a: nat, b: nat ensures ProducersApart(s', a, b) {
      assert ProducersApart(s, a, b);
      if a < |s.producers| { assert ProducerOk(s, a); }
      if b < |s.producers| { assert ProducerOk(s, b); }
    }
    TailInChain(s);
    ConsumerKept(s, s');
  }

  /** A link still missing stays someone else's duty when producer p was not the one to store it. */
  lemma PendingElsewhere(s: State, s': State, p: nat, k: nat)
    requires p < |s.producers| == |s'.producers| && s'.consumer == s.consumer
    requires forall q | 0 <= q < |s.producers| && q != p :: s'.producers[q] == s.producers[q]
    requires s.producers[p].Linking? ==> s.producers[p].ticket != k
    ensures Pending(s, k) ==> Pending(s', k)
  {
    if q :| 0 <= q < |s.producers| && s.producers[q].Linking? && s.producers[q].ticket == k {
      assert s'.producers[q] == s.producers[q];
    }
  }

  lemma ClearKeepsInv(s: State, s': State, p: nat)
    requires Inv(s) && Clear(s, s', p)
    ensures Inv(s')
  {
    var item := s.producers[p].item;
    assert ProducerOk(s, p);
    forall k: nat ensures Pending(s, k) ==> Pending(s', k) {
      PendingElsewhere(s, s', p, k);
    }
    ClearChain(s, s', item);
    assert forall n: nat :: InChain(s, n) == InChain(s', n);
    forall q | 0 <= q < |s'.producers| ensures ProducerOk(s', q) {
      assert ProducerOk(s, q) && ProducersApart(s, p, q);
      if s.producers[q].Linking? { assert Live(s, s.producers[q].ticket); }
    }
    forall a: nat, b: nat ensures ProducersApart(s', a, b) {
      assert ProducersApart(s, a, b);
    }
    TailInChain(s);
    if s.consumer.RefillLinking? { assert Live(s, s.consumer.ticket); }
    ConsumerKept(s, s');
  }

  lemma ExchangeKeepsInv(s: State, s': State, p: nat)
    requires Inv(s) && Exchange(s, s', p)
    ensures Inv(s')
  {
    var item, last := s.producers[p].item, |s.order| - 1;
    assert ProducerOk(s, p);
    assert s'.producers[p] == Linking(s.head, item, last);
    forall k: nat ensures Pending(s, k) ==> Pending(s', k) {
      PendingElsewhere(s, s', p, k);
    }
    ExchangeChain(s, s', item);
    ExchangeKeepsProducers(s, s', p);
    TailInChain(s);
    LastOwesNothing(s);
    ConsumerKept(s, s');
    assert s'.order[..s'.retired] == s.order[..s.retired];
  }

  /** Nobody owes a link from the item in `_head`, and it has none. */
  lemma LastOwesNothing(s: State)
    requires Inv(s)
    ensures s.head in s.link && s.link[s.head] == None
    ensures !Pending(s, |s.order| - 1)
  {
    assert Live(s, |s.order| - 1) && LinkOk(s, |s.order| - 1);
    forall q | 0 <= q < |s.producers| && s.producers[q].Linking? ensures s.producers[q].ticket != |s.order| - 1 {
      assert ProducerOk(s, q);
    }
  }

  lemma ExchangeKeepsProducers(s: State, s': State, p: nat)
    requires Inv(s) && Exchange(s, s', p)
    requires forall m: nat :: InChain(s', m) <==> InChain(s, m) || m == s.producers[p].item
    ensures forall q | 0 <= q < |s'.producers| :: ProducerOk(s', q)
    ensures forall a: nat, b: nat :: ProducersApart(s', a, b)
    ensures forall n | n in s'.held :: Free(s', n)
  {
    assert ProducerOk(s, p);
    LastOwesNothing(s);
    forall q | 0 <= q < |s'.producers| ensures ProducerOk(s', q) {
      assert ProducerOk(s, q) && ProducersApart(s, p, q);
    }
    forall a: nat, b: nat ensures ProducersApart(s', a, b) {
      assert ProducersApart(s, a, b);
      if a < |s.producers| { assert ProducerOk(s, a); }
      if b < |s.producers| { assert ProducerOk(s, b); }
    }
  }

  lemma LinkKeepsInv(s: State, s': State, p: nat)
    requires Inv(s) && Link(s, s', p)
    ensures Inv(s')
  {
    var k := s.producers[p].ticket;
    assert ProducerOk(s, p);
    forall j: nat | j != k ensures Pending(s, j) ==> Pending(s', j) {
      PendingElsewhere(s, s', p, j);
    }
    LinkChain(s, s', k);
    assert forall n: nat :: InChain(s, n) == InChain(s', n);
    assert InChain(s, s.order[k]);
    forall q | 0 <= q < |s'.producers| ensures ProducerOk(s', q) {
      assert ProducerOk(s, q) && ProducersApart(s, p, q);
      if s.producers[q].Linking? {
        assert Distinct(s, k, s.producers[q].ticket) && Distinct(s, s.producers[q].ticket, k);
      }
    }
    forall a: nat, b: nat ensures ProducersApart(s', a, b) {
      assert ProducersApart(s, a, b);
    }
    TailInChain(s);
    if s.consumer.RefillLinking? {
      assert Distinct(s, k, s.consumer.ticket) && Distinct(s, s.consumer.ticket, k);
    }
    ConsumerKept(s, s');
  }

  /** A consumer step that changes nothing but the consumer. */
  lemma ConsumerMoves(s: State, s': State)
    requires Inv(s) && s' == s.(consumer := s'.consumer) && ConsumerOk(s')
    requires !s.consumer.RefillLinking?
    ensures Inv(s')
  {
    assert forall j: nat, k: nat :: Distinct(s, j, k) == Distinct(s', j, k);
    assert forall n: nat :: InChain(s, n) == InChain(s', n);
    forall k: nat | Live(s', k) ensures LinkOk(s', k) {
      assert LinkOk(s, k);
    }
    forall q | 0 <= q < |s'.producers| ensures ProducerOk(s', q) {
      assert ProducerOk(s, q);
    }
    forall a: nat, b: nat ensures ProducersApart(s', a, b) {
      assert ProducersApart(s, a, b);
    }
  }

  /** When the tail is the head, the chain is that one node, so the dummy is not in it. */
  lemma SingletonChain(s: State)
    requires OrderOk(s) && s.tail == s.head && s.tail != DUMMY
    ensures !InChain(s, DUMMY)
  {
    assert Distinct(s, s.retired, |s.order| - 1);
  }

  lemma LoadKeepsInv(s: State, s': State)
    requires Inv(s)
    requires LoadTail(s, s') || LoadNext(s, s') || KeepTail(s, s') || LoadNextAgain(s, s') || LoadHead(s, s')
             || ReloadNext(s, s') || GiveUp(s, s') || (SkipDummy(s, s') && s.consumer.next.None?)
    ensures Inv(s')
  {
    if LoadHead(s, s') && s.consumer.tail == s.head {
      SingletonChain(s);
      assert forall n: nat :: InChain(s, n) == InChain(s', n);
    }
    ConsumerMoves(s, s');
  }

  /** Passing the tail's node: the dummy, or an item that goes to the caller. */
  lemma AdvanceKeepsInv(s: State, s': State)
    requires Inv(s) && ((SkipDummy(s, s') && s.consumer.next.Some?) || Take(s, s'))
    ensures Inv(s')
  {
    var t := s.retired;
    AdvanceChain(s, s', s.consumer.next.value);
    assert Live(s, t) && Live(s, t + 1) && Distinct(s, t, t + 1);
    assert s.order[..t + 1][..t] == s.order[..t];
    AdvanceKeepsProducers(s, s');
  }

  lemma AdvanceKeepsProducers(s: State, s': State)
    requires Inv(s) && ((SkipDummy(s, s') && s.consumer.next.Some?) || Take(s, s'))
    requires forall m: nat :: InChain(s', m) <==> InChain(s, m) && m != s.tail
    requires InChain(s, s.tail)
    ensures forall q | 0 <= q < |s'.producers| :: ProducerOk(s', q)
    ensures forall a: nat, b: nat :: ProducersApart(s', a, b)
  {
    forall q | 0 <= q < |s'.producers| ensures ProducerOk(s', q) {
      assert ProducerOk(s, q);
    }
    forall a: nat, b: nat ensures ProducersApart(s', a, b) {
      assert ProducersApart(s, a, b);
    }
  }

  lemma RefillKeepsInv(s: State, s': State)
    requires Inv(s) && (ClearDummy(s, s') || ExchangeDummy(s, s') || LinkDummy(s, s'))
    ensures Inv(s')
  {
    assert s'.order[..s'.retired] == s.order[..s.retired];
    if ClearDummy(s, s') {
      ClearChain(s, s', DUMMY);
      assert forall n: nat :: InChain(s, n) == InChain(s', n);
    } else if ExchangeDummy(s, s') {
      LastOwesNothing(s);
      ExchangeChain(s, s', DUMMY);
    } else {
      assert Live(s, s.consumer.ticket);
      LinkChain(s, s', s.consumer.ticket);
      assert forall n: nat :: InChain(s, n) == InChain(s', n);
    }
    RefillKeepsProducers(s, s');
  }

  lemma RefillKeepsProducers(s: State, s': State)
    requires Inv(s) && (ClearDummy(s, s') || ExchangeDummy(s, s') || LinkDummy(s, s'))
    requires forall m: nat | m != DUMMY :: InChain(s', m) <==> InChain(s, m)
    ensures forall q | 0 <= q < |s'.producers| :: ProducerOk(s', q)
    ensures forall a: nat, b: nat :: ProducersApart(s', a, b)
  {
    forall q | 0 <= q < |s'.producers| ensures ProducerOk(s', q) {
      assert ProducerOk(s, q);
      if s.producers[q].Linking? {
        assert Live(s, s.producers[q].ticket);
        if LinkDummy(s, s') {
          assert Distinct(s, s.consumer.ticket, s.producers[q].ticket) && Distinct(s, s.producers[q].ticket, s.consumer.ticket);
        }
      }
    }
    forall a: nat, b: nat ensures ProducersApart(s', a, b) {
      assert ProducersApart(s, a, b);
    }
  }

  lemma NextKeepsInv(s: State, s': State)
    requires Inv(s) && Next(s, s')
    ensures Inv(s')
  {
    if ConsumerNext(s, s') {
      if ClearDummy(s, s') || ExchangeDummy(s, s') || LinkDummy(s, s') {
        RefillKeepsInv(s, s');
      } else if (SkipDummy(s, s') && s.consumer.next.Some?) || Take(s, s') {
        AdvanceKeepsInv(s, s');
      } else {
        LoadKeepsInv(s, s');
      }
    } else {
      var p: nat :| ProducerNext(s, s', p);
      if Clear(s, s', p) {
        ClearKeepsInv(s, s', p);
      } else if Exchange(s, s', p) {
        ExchangeKeepsInv(s, s', p);
      } else if Link(s, s', p) {
        LinkKeepsInv(s, s', p);
      } else {
        var item: nat :| Claim(s, s', p, item);
        ClaimKeepsInv(s, s', p, item);
      }
    }
  }

  /** A missing link on the chain means the end of the chain or a link still owed. */
  lemma LinkTells(s: State, k: nat)
    requires Inv(s) && Live(s, k)
    ensures s.order[k] in s.link
    ensures s.link[s.order[k]].None? <==> k + 1 == |s.order| || Pending(s, k)
    ensures s.link[s.order[k]].Some? ==> k + 1 < |s.order| && s.link[s.order[k]].value == s.order[k + 1]
    ensures k + 1 == |s.order| || Pending(s, k) ==> (Pending(s, k) <==> s.order[k] != s.head)
  {
    assert LinkOk(s, k) && Distinct(s, k, |s.order| - 1);
    if p :| 0 <= p < |s.producers| && s.producers[p].Linking? && s.producers[p].ticket == k {
      assert ProducerOk(s, p);
    }
  }

  // ---- who has an item

  predicate IsPreparing(p: Producer, n: nat) {
    p == Claimed(n) || p == Cleared(n)
  }

  /** The item has an owner: a client, the chain, or a producer about to exchange it in. */
  ghost predicate Owned(s: State, n: nat) {
    n in s.held || InChain(s, n) || exists q :: 0 <= q < |s.producers| && IsPreparing(s.producers[q], n)
  }

  lemma ConsumerKeepsOwned(s: State, s': State, n: nat)
    requires Inv(s) && ConsumerNext(s, s') && n != DUMMY && Owned(s, n)
    ensures Owned(s', n)
  {
    assert s'.producers == s.producers && s'.held >= s.held;
    if k: nat :| Live(s, k) && s.order[k] == n {
      assert k > s.retired || s'.retired == s.retired ==> Live(s', k) && s'.order[k] == n;
    }
  }

  lemma ProducerKeepsOwned(s: State, s': State, p: nat, n: nat)
    requires Inv(s) && ProducerNext(s, s', p) && n != DUMMY && Owned(s, n)
    ensures Owned(s', n)
  {
    if k: nat :| Live(s, k) && s.order[k] == n {
      assert Live(s', k) && s'.order[k] == n;
    } else if q :| 0 <= q < |s.producers| && IsPreparing(s.producers[q], n) {
      if q != p {
        assert IsPreparing(s'.producers[q], n);
      } else if Exchange(s, s', p) {
        assert Live(s', |s.order|) && s'.order[|s.order|] == n;
      } else {
        assert IsPreparing(s'.producers[p], n);
      }
    } else {
      assert n in s'.held || IsPreparing(s'.producers[p], n);
    }
  }

  lemma NextKeepsOwned(s: State, s': State, n: nat)
    requires Inv(s) && Next(s, s') && n != DUMMY && Owned(s, n)
    ensures Owned(s', n)
  {
    if ConsumerNext(s, s') {
      ConsumerKeepsOwned(s, s', n);
    } else {
      var p: nat :| ProducerNext(s, s', p);
      ProducerKeepsOwned(s, s', p, n);
    }
  }

  lemma {:induction false} ItemsAppend(a: seq<nat>, b: seq<nat>)
    ensures Items(a + b) == Items(a) + Items(b)
  {
    if b == [] {
      assert a + b == a;
    } else {
      assert (a + b)[..|a + b| - 1] == a + b[..|b| - 1];
      ItemsAppend(a, b[..|b| - 1]);
    }
  }
}
