/** What every step of the non-intrusive queue keeps. */
module MpscQueueInvariant {
  import opened MpscQueue
  import opened Options

  // ---- the invariant

  ghost predicate Live<T>(s: State<T>, k: nat) {
    s.retired <= k < |s.order|
  }

  ghost predicate Pending<T>(s: State<T>, k: nat) {
    exists p :: 0 <= p < |s.producers| && s.producers[p].Linking? && s.producers[p].ticket == k
  }

  /** The k-th node is linked to the next one, unless its producer has yet to store the link. */
  ghost predicate LinkOk<T>(s: State<T>, k: nat)
    requires Live(s, k)
  {
    && s.order[k] in s.mem
    && (k > 0 ==> k - 1 < |s.items| && s.mem[s.order[k]].data == Some(s.items[k - 1]))
    && match s.mem[s.order[k]].next
       case None => k + 1 == |s.order| || Pending(s, k)
       case Some(next) => k + 1 < |s.order| && next == s.order[k + 1]
  }

  ghost predicate ProducerOk<T>(s: State<T>, p: nat)
    requires p < |s.producers|
  {
    match s.producers[p]
    case Idle => true
    case Prepared(node) =>
      && node in s.mem && s.mem[node].data.Some? && s.mem[node].next == None
      && (forall k: nat | Live(s, k) :: s.order[k] != node)
      && !(s.consumer.Retiring? && s.consumer.tail == node)
    case Linking(prev, node, ticket) =>
      && Live(s, ticket) && ticket + 1 < |s.order|
      && prev == s.order[ticket] && node == s.order[ticket + 1]
      && prev in s.mem && s.mem[prev].next == None
  }

  /** Two producers never hold the same node, nor the same place. */
  ghost predicate ProducersApart<T>(s: State<T>, p: nat, q: nat) {
    p < |s.producers| && q < |s.producers| && p != q ==>
      match (s.producers[p], s.producers[q])
      case (Prepared(n), Prepared(m)) => n != m
      case (Linking(_, _, j), Linking(_, _, k)) => j != k
      case _ => true
  }

  ghost predicate ConsumerOk<T>(s: State<T>)
    requires s.retired < |s.order| == |s.items| + 1
  {
    match s.consumer
    case Outside => true
    case HasTail(tail) => tail == s.tail
    case HasNext(tail, next) => tail == s.tail && tail in s.mem && s.mem[tail].next == Some(next)
    case HasData(tail, next, data) =>
      && tail == s.tail && tail in s.mem && s.mem[tail].next == Some(next)
      && s.retired < |s.items| && data == s.items[s.retired]
    case Retiring(tail, data) =>
      && 0 < s.retired && data == s.items[s.retired - 1]
      && tail in s.mem
      && (forall k: nat | Live(s, k) :: s.order[k] != tail)
  }

  ghost predicate OrderOk<T>(s: State<T>) {
    && s.retired < |s.order| == |s.items| + 1
    && s.order[s.retired] == s.tail && s.order[|s.order| - 1] == s.head
    && (forall j: nat, k: nat :: Distinct(s, j, k))
  }

  ghost predicate Distinct<T>(s: State<T>, j: nat, k: nat) {
    s.retired <= j < k < |s.order| ==> s.order[j] != s.order[k]
  }

  /** Every allocated node has exactly one owner: the chain, a producer about to exchange, or the
      consumer about to delete it. */
  ghost predicate Owned<T>(s: State<T>, n: nat) {
    || (exists k: nat :: Live(s, k) && s.order[k] == n)
    || (exists p :: 0 <= p < |s.producers| && s.producers[p] == Prepared(n))
    || (s.consumer.Retiring? && s.consumer.tail == n)
  }

  ghost predicate Inv<T(!new)>(s: State<T>) {
    && OrderOk(s)
    && (forall k: nat | Live(s, k) :: LinkOk(s, k))
    && (forall p | 0 <= p < |s.producers| :: ProducerOk(s, p))
    && (forall p: nat, q: nat :: ProducersApart(s, p, q))
    && ConsumerOk(s)
    && s.output + (if s.consumer.Retiring? then [s.consumer.data] else []) == s.items[..s.retired]
    && (forall n | n in s.mem :: Owned(s, n))
  }

  lemma InitInv<T(!new)>(s: State<T>)
    requires Init(s)
    ensures Inv(s)
  {
    assert Live(s, 0) && s.order[0] == s.head;
  }

  lemma AllocateKeepsChain<T(!new)>(s: State<T>, s': State<T>, p: nat, node: nat, input: T)
    requires Inv(s) && Allocate(s, s', p, node, input)
    ensures OrderOk(s') && ConsumerOk(s')
    ensures forall k: nat | Live(s', k) :: LinkOk(s', k)
  {
    assert forall j: nat, k: nat :: Distinct(s, j, k) == Distinct(s', j, k);
    forall k: nat | Live(s', k) ensures LinkOk(s', k) {
      assert Live(s, k) && LinkOk(s, k);
      PendingElsewhere(s, s', p, k);
    }
    assert Live(s, s.retired) && LinkOk(s, s.retired);
  }

  lemma AllocateKeepsInv<T(!new)>(s: State<T>, s': State<T>, p: nat, node: nat, input: T)
    requires Inv(s) && Allocate(s, s', p, node, input)
    ensures Inv(s')
  {
    AllocateKeepsChain(s, s', p, node, input);
    AllocateKeepsProducers(s, s', p, node, input);
    forall n | n in s'.mem ensures Owned(s', n) {
      if n == node { assert s'.producers[p] == Prepared(n); } else { OwnedElsewhere(s, s', n, p); }
    }
  }

  lemma AllocateKeepsProducers<T(!new)>(s: State<T>, s': State<T>, p: nat, node: nat, input: T)
    requires Inv(s) && Allocate(s, s', p, node, input)
    ensures forall q | 0 <= q < |s'.producers| :: ProducerOk(s', q)
    ensures forall a: nat, b: nat :: ProducersApart(s', a, b)
  {
    forall k: nat | Live(s, k) ensures s.order[k] != node {
      assert LinkOk(s, k);
    }
    forall q | 0 <= q < |s'.producers| ensures ProducerOk(s', q) {
      assert ProducerOk(s, q);
    }
    forall a: nat, b: nat ensures ProducersApart(s', a, b) {
      assert ProducersApart(s, a, b);
      if a < |s.producers| { assert ProducerOk(s, a); }
      if b < |s.producers| { assert ProducerOk(s, b); }
    }
  }

  /** A link still missing stays someone else's duty when producer p was not the one to store it. */
  lemma PendingElsewhere<T>(s: State<T>, s': State<T>, p: nat, k: nat)
    requires p < |s.producers| == |s'.producers|
    requires forall q | 0 <= q < |s.producers| && q != p :: s'.producers[q] == s.producers[q]
    requires s.producers[p].Linking? ==> s.producers[p].ticket != k
    ensures Pending(s, k) ==> Pending(s', k)
  {
    if q :| 0 <= q < |s.producers| && s.producers[q].Linking? && s.producers[q].ticket == k {
      assert s'.producers[q] == s.producers[q];
    }
  }

  /** Ownership of a node survives a step of producer p on another node. */
  lemma OwnedElsewhere<T(!new)>(s: State<T>, s': State<T>, n: nat, p: nat)
    requires Owned(s, n) && s'.consumer == s.consumer && s'.retired == s.retired
    requires |s'.order| >= |s.order| && s'.order[..|s.order|] == s.order
    requires |s'.producers| == |s.producers|
    requires forall q | 0 <= q < |s.producers| && q != p :: s'.producers[q] == s.producers[q]
    requires p < |s.producers| && s.producers[p] != Prepared(n)
    ensures Owned(s', n)
  {
    if k: nat :| Live(s, k) && s.order[k] == n {
      assert Live(s', k) && s'.order[k] == s'.order[..|s.order|][k];
    } else if q :| 0 <= q < |s.producers| && s.producers[q] == Prepared(n) {
      assert s'.producers[q] == Prepared(n);
    }
  }

  lemma ExchangeKeepsInv<T(!new)>(s: State<T>, s': State<T>, p: nat)
    requires Inv(s) && Exchange(s, s', p)
    ensures Inv(s')
  {
    var last := |s.order| - 1;
    var node := s.producers[p].node;
    assert ProducerOk(s, p);
    assert s'.producers[p] == Linking(s.head, node, last);
    assert Live(s, last) && LinkOk(s, last);
    forall j: nat, k: nat ensures Distinct(s', j, k) {
      assert Distinct(s, j, k);
      if k == last + 1 && s.retired <= j < k { assert Live(s, j); }
    }
    forall k: nat | Live(s', k) ensures LinkOk(s', k) {
      if k < last {
        assert LinkOk(s, k);
        PendingElsewhere(s, s', p, k);
      } else if k == last {
        assert Pending(s', k);
      }
    }
    ExchangeKeepsProducers(s, s', p);
    forall n | n in s'.mem ensures Owned(s', n) {
      if n == node { assert Live(s', last + 1) && s'.order[last + 1] == n; } else { OwnedElsewhere(s, s', n, p); }
    }
  }

  lemma ExchangeKeepsProducers<T(!new)>(s: State<T>, s': State<T>, p: nat)
    requires Inv(s) && Exchange(s, s', p)
    ensures forall q | 0 <= q < |s'.producers| :: ProducerOk(s', q)
    ensures forall a: nat, b: nat :: ProducersApart(s', a, b)
  {
    var last := |s.order| - 1;
    assert ProducerOk(s, p);
    assert Live(s, last) && LinkOk(s, last);
    NoPendingLast(s);
    forall q | 0 <= q < |s'.producers| ensures ProducerOk(s', q) {
      assert ProducerOk(s, q) && ProducersApart(s, p, q);
      assert forall k: nat | Live(s', k) && k <= last :: Live(s, k);
    }
    forall a: nat, b: nat ensures ProducersApart(s', a, b) {
      assert ProducersApart(s, a, b);
      if a < |s.producers| { assert ProducerOk(s, a); }
      if b < |s.producers| { assert ProducerOk(s, b); }
    }
  }

  /** The node in `_head` has no successor yet. */
  lemma NoPendingLast<T(!new)>(s: State<T>)
    requires Inv(s)
    ensures !Pending(s, |s.order| - 1)
    ensures s.head in s.mem && s.mem[s.head].next == None
  {
    assert Live(s, |s.order| - 1) && LinkOk(s, |s.order| - 1);
    forall q | 0 <= q < |s.producers| && s.producers[q].Linking? ensures s.producers[q].ticket != |s.order| - 1 {
      assert ProducerOk(s, q);
    }
  }

  lemma LinkKeepsChain<T(!new)>(s: State<T>, s': State<T>, p: nat)
    requires Inv(s) && Link(s, s', p)
    ensures OrderOk(s')
    ensures forall k: nat | Live(s', k) :: LinkOk(s', k)
  {
    var ticket := s.producers[p].ticket;
    assert ProducerOk(s, p) && LinkOk(s, ticket);
    assert forall j: nat, k: nat :: Distinct(s, j, k) == Distinct(s', j, k);
    forall k: nat | Live(s', k) ensures LinkOk(s', k) {
      assert LinkOk(s, k);
      if k != ticket {
        assert Distinct(s, k, ticket) && Distinct(s, ticket, k);
        PendingElsewhere(s, s', p, k);
      }
    }
  }

  lemma LinkKeepsInv<T(!new)>(s: State<T>, s': State<T>, p: nat)
    requires Inv(s) && Link(s, s', p)
    ensures Inv(s')
  {
    LinkKeepsChain(s, s', p);
    LinkKeepsProducers(s, s', p);
    LinkKeepsConsumer(s, s', p);
    forall n | n in s'.mem ensures Owned(s', n) {
      OwnedElsewhere(s, s', n, p);
    }
  }

  lemma LinkKeepsProducer<T(!new)>(s: State<T>, s': State<T>, p: nat, q: nat)
    requires Inv(s) && Link(s, s', p) && q < |s.producers|
    ensures ProducerOk(s', q)
  {
    if q != p {
      var ticket := s.producers[p].ticket;
      assert ProducerOk(s, p) && ProducerOk(s, q) && ProducersApart(s, p, q);
      if s.producers[q].Linking? {
        assert Distinct(s, ticket, s.producers[q].ticket) && Distinct(s, s.producers[q].ticket, ticket);
      }
    }
  }

  lemma LinkKeepsProducers<T(!new)>(s: State<T>, s': State<T>, p: nat)
    requires Inv(s) && Link(s, s', p)
    ensures forall q | 0 <= q < |s'.producers| :: ProducerOk(s', q)
    ensures forall a: nat, b: nat :: ProducersApart(s', a, b)
  {
    forall q: nat | q < |s'.producers| ensures ProducerOk(s', q) {
      LinkKeepsProducer(s, s', p, q);
    }
    forall a: nat, b: nat ensures ProducersApart(s', a, b) {
      assert ProducersApart(s, a, b);
    }
  }

  lemma LinkKeepsConsumer<T(!new)>(s: State<T>, s': State<T>, p: nat)
    requires Inv(s) && Link(s, s', p)
    ensures ConsumerOk(s')
  {
    var ticket := s.producers[p].ticket;
    assert ProducerOk(s, p);
    assert Distinct(s, s.retired, ticket);
  }

  /** A consumer step that only loads changes nothing but the consumer. */
  lemma ConsumerMoves<T(!new)>(s: State<T>, s': State<T>)
    requires Inv(s) && s' == s.(consumer := s'.consumer) && ConsumerOk(s')
    requires !s.consumer.Retiring? && !s'.consumer.Retiring?
    ensures Inv(s')
  {
    assert forall j: nat, k: nat :: Distinct(s, j, k) == Distinct(s', j, k);
    forall k: nat | Live(s', k) ensures LinkOk(s', k) {
      assert LinkOk(s, k);
    }
    forall q | 0 <= q < |s'.producers| ensures ProducerOk(s', q) {
      assert ProducerOk(s, q);
    }
    forall a: nat, b: nat ensures ProducersApart(s', a, b) {
      assert ProducersApart(s, a, b);
    }
    forall n | n in s'.mem ensures Owned(s', n) {
      assert Owned(s, n);
    }
  }

  lemma LoadKeepsInv<T(!new)>(s: State<T>, s': State<T>)
    requires Inv(s) && (LoadTail(s, s') || LoadNext(s, s') || LoadData(s, s'))
    ensures Inv(s')
  {
    assert Live(s, s.retired) && LinkOk(s, s.retired);
    if s.consumer.HasNext? { assert Live(s, s.retired + 1) && LinkOk(s, s.retired + 1); }
    ConsumerMoves(s, s');
  }

  lemma StoreTailKeepsInv<T(!new)>(s: State<T>, s': State<T>)
    requires Inv(s) && StoreTail(s, s')
    ensures Inv(s')
  {
    StoreTailKeepsChain(s, s');
    StoreTailKeepsLinks(s, s');
    StoreTailKeepsProducers(s, s');
    StoreTailKeepsOwned(s, s');
    assert s.items[..s.retired + 1] == s.items[..s.retired] + [s.items[s.retired]];
  }

  lemma StoreTailKeepsChain<T(!new)>(s: State<T>, s': State<T>)
    requires Inv(s) && StoreTail(s, s')
    ensures OrderOk(s') && ConsumerOk(s')
  {
    var t := s.retired;
    assert Live(s, t) && LinkOk(s, t);
    forall j: nat, k: nat ensures Distinct(s', j, k) {
      assert Distinct(s, j, k);
    }
    forall k: nat | Live(s', k) ensures s.order[k] != s.tail {
      assert Distinct(s, t, k);
    }
  }

  lemma StoreTailKeepsLinks<T(!new)>(s: State<T>, s': State<T>)
    requires Inv(s) && StoreTail(s, s')
    ensures forall k: nat | Live(s', k) :: LinkOk(s', k)
  {
    forall k: nat | Live(s', k) ensures LinkOk(s', k) {
      assert LinkOk(s, k);
      assert Pending(s, k) ==> Pending(s', k);
    }
  }

  lemma StoreTailKeepsOwned<T(!new)>(s: State<T>, s': State<T>)
    requires Inv(s) && StoreTail(s, s')
    ensures forall n | n in s'.mem :: Owned(s', n)
  {
    forall n | n in s'.mem ensures Owned(s', n) {
      assert Owned(s, n);
      if k: nat :| Live(s, k) && s.order[k] == n {
        assert k > s.retired ==> Live(s', k);
      }
    }
  }

  lemma StoreTailKeepsProducers<T(!new)>(s: State<T>, s': State<T>)
    requires Inv(s) && StoreTail(s, s')
    ensures forall q | 0 <= q < |s'.producers| :: ProducerOk(s', q)
    ensures forall a: nat, b: nat :: ProducersApart(s', a, b)
  {
    assert Live(s, s.retired);
    forall q | 0 <= q < |s'.producers| ensures ProducerOk(s', q) {
      assert ProducerOk(s, q);
      assert forall k: nat | Live(s', k) :: Live(s, k);
    }
    forall a: nat, b: nat ensures ProducersApart(s', a, b) {
      assert ProducersApart(s, a, b);
    }
  }

  lemma DeleteKeepsInv<T(!new)>(s: State<T>, s': State<T>)
    requires Inv(s) && Delete(s, s')
    ensures Inv(s')
  {
    assert forall j: nat, k: nat :: Distinct(s, j, k) == Distinct(s', j, k);
    forall k: nat | Live(s', k) ensures LinkOk(s', k) {
      assert LinkOk(s, k);
    }
    forall q | 0 <= q < |s'.producers| ensures ProducerOk(s', q) {
      assert ProducerOk(s, q);
    }
    forall a: nat, b: nat ensures ProducersApart(s', a, b) {
      assert ProducersApart(s, a, b);
    }
    forall n | n in s'.mem ensures Owned(s', n) {
      assert Owned(s, n);
    }
  }

  lemma NextKeepsInv<T(!new)>(s: State<T>, s': State<T>)
    requires Inv(s) && Next(s, s')
    ensures Inv(s')
  {
    if StoreTail(s, s') {
      StoreTailKeepsInv(s, s');
    } else if Delete(s, s') {
      DeleteKeepsInv(s, s');
    } else if ConsumerNext(s, s') {
      LoadKeepsInv(s, s');
    } else {
      var p: nat :| ProducerNext(s, s', p);
      if Exchange(s, s', p) {
        ExchangeKeepsInv(s, s', p);
      } else if Link(s, s', p) {
        LinkKeepsInv(s, s', p);
      } else {
        var node: nat, input: T :| Allocate(s, s', p, node, input);
        AllocateKeepsInv(s, s', p, node, input);
      }
    }
  }
}
