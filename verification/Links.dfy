/** Intrusive singly linked lists whose `void **` cursors point either to a head variable or to the
    link at the start of a node. */
module Links {
  import opened Options

  /** What such a cursor may point to. */
  datatype Slot = Head(n: nat) | LinkOf(node: nat)

  function SlotAt(head: Slot, list: seq<nat>, i: nat): (slot: Slot)
    requires i <= |list|
  {
    if i == 0 then head else LinkOf(list[i - 1])
  }

  function NodeAt(list: seq<nat>, i: nat): (m: Option<nat>)
    requires i <= |list|
  {
    if i == |list| then None else Some(list[i])
  }

  /** Following the slots from `head` meets exactly the nodes of `list`, then NULL. */
  ghost predicate Chain(mem: map<Slot, Option<nat>>, head: Slot, list: seq<nat>) {
    forall i: nat | i <= |list| :: SlotAt(head, list, i) in mem && mem[SlotAt(head, list, i)] == NodeAt(list, i)
  }

  function Last(head: Slot, list: seq<nat>): (slot: Slot) {
    SlotAt(head, list, |list|)
  }

  predicate IsHead(slot: Slot) {
    slot.Head?
  }

  predicate NoRepeats(list: seq<nat>) {
    forall i, j | 0 <= i < j < |list| :: list[i] != list[j]
  }

  lemma ChainElsewhere(mem: map<Slot, Option<nat>>, slot: Slot, v: Option<nat>, head: Slot, list: seq<nat>)
    requires Chain(mem, head, list)
    requires slot != head && (slot.LinkOf? ==> slot.node !in list)
    ensures Chain(mem[slot := v], head, list)
  {
    forall i: nat | i <= |list|
      ensures SlotAt(head, list, i) in mem[slot := v] && mem[slot := v][SlotAt(head, list, i)] == NodeAt(list, i)
    {
      assert SlotAt(head, list, i) in mem && mem[SlotAt(head, list, i)] == NodeAt(list, i);
    }
  }

  lemma ChainAppend(mem: map<Slot, Option<nat>>, head: Slot, list: seq<nat>, m: nat)
    requires Chain(mem, head, list) && IsHead(head) && NoRepeats(list) && m !in list
    requires LinkOf(m) in mem && mem[LinkOf(m)] == None
    ensures Chain(mem[Last(head, list) := Some(m)], head, list + [m])
  {
    var mem', list' := mem[Last(head, list) := Some(m)], list + [m];
    forall i: nat | i <= |list'| ensures SlotAt(head, list', i) in mem' && mem'[SlotAt(head, list', i)] == NodeAt(list', i) {
      if i <= |list| {
        assert SlotAt(head, list', i) == SlotAt(head, list, i);
        assert SlotAt(head, list, i) in mem && mem[SlotAt(head, list, i)] == NodeAt(list, i);
      }
    }
  }

  lemma ChainTake(mem: map<Slot, Option<nat>>, head: Slot, list: seq<nat>)
    requires Chain(mem, head, list) && IsHead(head) && NoRepeats(list) && list != []
    ensures head in mem && mem[head] == Some(list[0])
    ensures LinkOf(list[0]) in mem && Chain(mem[head := mem[LinkOf(list[0])]], head, list[1..])
  {
    assert SlotAt(head, list, 0) == head && SlotAt(head, list, 1) == LinkOf(list[0]);
    var mem', list' := mem[head := mem[LinkOf(list[0])]], list[1..];
    forall i: nat | i <= |list'| ensures SlotAt(head, list', i) in mem' && mem'[SlotAt(head, list', i)] == NodeAt(list', i) {
      assert SlotAt(head, list, i + 1) in mem && mem[SlotAt(head, list, i + 1)] == NodeAt(list, i + 1);
      assert i > 0 ==> SlotAt(head, list', i) == SlotAt(head, list, i + 1);
    }
  }

  /** Removing a node that is not on a list. */
  lemma ChainWithout(mem: map<Slot, Option<nat>>, k: nat, head: Slot, list: seq<nat>)
    requires Chain(mem, head, list) && IsHead(head) && k !in list
    ensures Chain(mem - {LinkOf(k)}, head, list)
  {
    forall i: nat | i <= |list|
      ensures SlotAt(head, list, i) in mem - {LinkOf(k)} && mem[SlotAt(head, list, i)] == NodeAt(list, i)
    {
    }
  }
}
