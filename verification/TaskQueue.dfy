/** The task queue of thrd_pool.c, as a caller sees it that no other thread interferes with. */
module TaskQueues {
  import opened Links
  import opened Options

  lemma NotAhead(all: seq<nat>, before: seq<nat>, k: nat, after: seq<nat>)
    requires NoRepeats(all) && all == before + [k] + after
    ensures k !in after
  {
    assert all[|before|] == k && forall i: nat | i < |after| :: all[|before| + 1 + i] == after[i];
  }

  class TaskQueue {
    var mem: map<Slot, Option<nat>>
    var tail: Slot
    ghost var list: seq<nat>

    ghost predicate Valid()
      reads this
    {
      Chain(mem, Head(0), list) && NoRepeats(list) && tail == Last(Head(0), list)
    }

    constructor ()
      ensures Valid() && list == []
    {
      mem := map[Head(0) := None];
      tail := Head(0);
      list := [];
    }

    method Add(task: nat)
      requires Valid() && task !in list
      modifies this
      ensures Valid() && list == old(list) + [task]
    {
      ChainElsewhere(mem, LinkOf(task), None, Head(0), list);
      mem := mem[LinkOf(task) := None];
      ChainAppend(mem, Head(0), list, task);
      mem := mem[tail := Some(task)];
      tail := LinkOf(task);
      list := list + [task];
    }

    method Pop() returns (task: Option<nat>)
      requires Valid()
      modifies this
      ensures Valid() && mem.Keys == old(mem.Keys)
      ensures task == None <==> old(list) == []
      ensures old(list) == (if task.Some? then [task.value] else []) + list
    {
      assert SlotAt(Head(0), list, 0) == Head(0);
      task := mem[Head(0)];
      if task.Some? {
        ChainTake(mem, Head(0), list);
        mem := mem[Head(0) := mem[LinkOf(task.value)]];
        list := list[1..];
        assert SlotAt(Head(0), list, 0) == Head(0);
        if mem[Head(0)].None? {
          tail := Head(0);
        }
      }
    }

    /** Pops and frees until nothing is left. */
    method Destroy() returns (freed: seq<nat>)
      requires Valid()
      modifies this
      ensures Valid() && list == [] && freed == old(list)
      ensures forall k | k in freed :: LinkOf(k) !in mem
    {
      freed := [];
      var task := Pop();
      while task.Some?
        invariant Valid() && NoRepeats(old(list))
        invariant old(list) == freed + (if task.Some? then [task.value] else []) + list
        invariant task == None ==> list == []
        invariant forall k | k in freed :: LinkOf(k) !in mem
        decreases |list| + if task.Some? then 1 else 0
      {
        var k := task.value;
        NotAhead(old(list), freed, k, list);
        ChainWithout(mem, k, Head(0), list);
        mem := mem - {LinkOf(k)};
        freed := freed + [k];
        task := Pop();
      }
    }
  }
}
