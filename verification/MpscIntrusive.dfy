/** The intrusive multi-producer single-consumer queue: the items carry their own link, and one
    dummy item is put back into the queue by the consumer itself whenever the last item leaves. */
module MpscIntrusive {
  import opened Options

  /** The address of the embedded `_dummy`. */
  const DUMMY: nat := 0

  datatype Producer =
    | Idle
    | Claimed(item: nat)
    | Cleared(item: nat)
    | Linking(prev: nat, item: nat, ticket: nat)

  /** Where the consumer is inside Dequeue: `tail` and `next` are its local variables. The last five
      are its own Enqueue of the dummy and the reload that follows it. */
  datatype Consumer =
    | Outside
    | HasTail(tail: nat)
    | HasNext(tail: nat, next: Option<nat>)
    | Skipped(tail: nat)
    | Decide(tail: nat, next: Option<nat>)
    | Refill(tail: nat)
    | RefillCleared(tail: nat)
    | RefillLinking(tail: nat, prev: nat, ticket: nat)
    | Reload(tail: nat)
    | Last(tail: nat, next: Option<nat>)

  /** `link` is the intrusive link of every item; `held` are the items clients own. History:
      `order` lists the items, dummy included, as they became `_head`; `retired` counts those the
      tail has passed; `output` is what Dequeue has returned. */
  datatype State = State(
    link: map<nat, Option<nat>>, head: nat, tail: nat,
    producers: seq<Producer>, consumer: Consumer, held: set<nat>,
    order: seq<nat>, retired: nat, output: seq<nat>)

  ghost predicate Init(s: State) {
    && s.head == s.tail == DUMMY
    && DUMMY in s.link && s.link[DUMMY] == None
    && s.held == s.link.Keys - {DUMMY}
    && (forall p | 0 <= p < |s.producers| :: s.producers[p] == Idle)
    && s.consumer == Outside
    && s.order == [DUMMY] && s.retired == 0 && s.output == []
  }

  // ---- Enqueue by a producer

  /** A client calls Enqueue with an item it owns. */
  ghost predicate Claim(s: State, s': State, p: nat, item: nat) {
    && p < |s.producers| && s.producers[p].Idle?
    && item in s.held
    && s' == s.(held := s.held - {item}, producers := s.producers[p := Claimed(item)])
  }

  ghost predicate Clear(s: State, s': State, p: nat) {
    && p < |s.producers| && s.producers[p].Claimed?
    && var item := s.producers[p].item;
    && item in s.link
    && s' == s.(link := s.link[item := None], producers := s.producers[p := Cleared(item)])
  }

  ghost predicate Exchange(s: State, s': State, p: nat) {
    && p < |s.producers| && s.producers[p].Cleared? && 0 < |s.order|
    && var item := s.producers[p].item;
    && s' == s.(head := item, order := s.order + [item],
                producers := s.producers[p := Linking(s.head, item, |s.order| - 1)])
  }

  ghost predicate Link(s: State, s': State, p: nat) {
    && p < |s.producers| && s.producers[p].Linking?
    && var Linking(prev, item, _) := s.producers[p];
    && prev in s.link
    && s' == s.(link := s.link[prev := Some(item)], producers := s.producers[p := Idle])
  }

  // ---- Dequeue

  ghost predicate LoadTail(s: State, s': State) {
    s.consumer.Outside? && s' == s.(consumer := HasTail(s.tail))
  }

  ghost predicate LoadNext(s: State, s': State) {
    && s.consumer.HasTail? && s.consumer.tail in s.link
    && s' == s.(consumer := HasNext(s.consumer.tail, s.link[s.consumer.tail]))
  }

  /** The dummy at the tail: give up, or step over it. */
  ghost predicate SkipDummy(s: State, s': State) {
    && s.consumer.HasNext? && s.consumer.tail == DUMMY
    && match s.consumer.next
       case None => s' == s.(consumer := Outside)
       case Some(next) => s' == s.(tail := next, retired := s.retired + 1, consumer := Skipped(next))
  }

  ghost predicate KeepTail(s: State, s': State) {
    && s.consumer.HasNext? && s.consumer.tail != DUMMY
    && s' == s.(consumer := Decide(s.consumer.tail, s.consumer.next))
  }

  ghost predicate LoadNextAgain(s: State, s': State) {
    && s.consumer.Skipped? && s.consumer.tail in s.link
    && s' == s.(consumer := Decide(s.consumer.tail, s.link[s.consumer.tail]))
  }

  /** `_tail.store(next)`, and the old tail is returned to the caller. */
  ghost predicate Take(s: State, s': State) {
    && (s.consumer.Decide? || s.consumer.Last?)
    && s.consumer.next.Some?
    && s' == s.(tail := s.consumer.next.value, retired := s.retired + 1, consumer := Outside,
                held := s.held + {s.consumer.tail}, output := s.output + [s.consumer.tail])
  }

  ghost predicate LoadHead(s: State, s': State) {
    && s.consumer.Decide? && s.consumer.next.None?
    && s' == s.(consumer := if s.consumer.tail != s.head then Outside else Refill(s.consumer.tail))
  }

  ghost predicate ClearDummy(s: State, s': State) {
    && s.consumer.Refill?
    && s' == s.(link := s.link[DUMMY := None], consumer := RefillCleared(s.consumer.tail))
  }

  ghost predicate ExchangeDummy(s: State, s': State) {
    && s.consumer.RefillCleared? && 0 < |s.order|
    && s' == s.(head := DUMMY, order := s.order + [DUMMY],
                consumer := RefillLinking(s.consumer.tail, s.head, |s.order| - 1))
  }

  ghost predicate LinkDummy(s: State, s': State) {
    && s.consumer.RefillLinking? && s.consumer.prev in s.link
    && s' == s.(link := s.link[s.consumer.prev := Some(DUMMY)], consumer := Reload(s.consumer.tail))
  }

  ghost predicate ReloadNext(s: State, s': State) {
    && s.consumer.Reload? && s.consumer.tail in s.link
    && s' == s.(consumer := Last(s.consumer.tail, s.link[s.consumer.tail]))
  }

  ghost predicate GiveUp(s: State, s': State) {
    s.consumer.Last? && s.consumer.next.None? && s' == s.(consumer := Outside)
  }

  ghost predicate ProducerNext(s: State, s': State, p: nat) {
    || (exists item: nat :: Claim(s, s', p, item))
    || Clear(s, s', p) || Exchange(s, s', p) || Link(s, s', p)
  }

  ghost predicate ConsumerNext(s: State, s': State) {
    || LoadTail(s, s') || LoadNext(s, s') || SkipDummy(s, s') || KeepTail(s, s') || LoadNextAgain(s, s')
    || Take(s, s') || LoadHead(s, s')
    || ClearDummy(s, s') || ExchangeDummy(s, s') || LinkDummy(s, s')
    || ReloadNext(s, s') || GiveUp(s, s')
  }

  ghost predicate Next(s: State, s': State) {
    ConsumerNext(s, s') || exists p: nat :: ProducerNext(s, s', p)
  }

  ghost predicate Follows(run: seq<State>, j: nat) {
    j + 1 < |run| ==> Next(run[j], run[j + 1])
  }

  ghost predicate IsRun(run: seq<State>) {
    && 0 < |run| && Init(run[0])
    && forall j: nat :: Follows(run, j)
  }
}
