/** The message queue, as a caller sees it that no other thread interferes with. A call that would wait
    for another thread says so and stops where the source would sleep; a getter that sleeps there may be
    resumed after any number of puts. */
module MessageQueues {
  import opened Links
  import opened Options
  import opened MsgQueue
  import opened MsgQueueInvariant

  class MessageQueue {
    const max: nat
    var cnt: nat
    var nonblock: bool
    var mem: map<Slot, Option<nat>>
    var getHead: Slot
    var putHead: Slot
    var putTail: Slot
    ghost var getList: seq<nat>
    ghost var putList: seq<nat>
    /** Where the getter is: outside, or asleep in the swap with its local `get_head`. */
    ghost var getter: Pc

    ghost function Fields(): (q: Queue)
      reads this
    {
      Queue(max, cnt, nonblock, mem, getHead, putHead, putTail)
    }

    ghost function Lists(): (h: History)
      reads this
    {
      History(getList, putList, getList + putList, [], {}, nonblock)
    }

    ghost predicate Valid()
      reads this
    {
      && (getter.Idle? || getter.SwapWait?)
      && GetSide(Fields(), Lists(), getter) && PutSide(Fields(), Lists(), Idle) && ListsApart(Lists())
    }

    /** The messages in the order they will be got. */
    ghost function Contents(): (s: seq<nat>)
      reads this
    {
      getList + putList
    }

    constructor (maxlen: nat)
      ensures Valid() && Contents() == [] && max == maxlen && cnt == 0 && !nonblock && getter == Idle
    {
      max, cnt, nonblock := maxlen, 0, false;
      mem := map[Head(1) := None, Head(2) := None];
      getHead, putHead, putTail := Head(1), Head(2), Head(2);
      getList, putList, getter := [], [], Idle;
    }

    method SetNonblock()
      requires Valid()
      modifies this`nonblock
      ensures Valid() && nonblock
    {
      nonblock := true;
    }

    method SetBlock()
      requires Valid()
      modifies this`nonblock
      ensures Valid() && !nonblock
    {
      nonblock := false;
    }

    /** Appends, also under a sleeping getter; in blocking mode it would wait on a full put list instead,
        the message still in the caller's hand. */
    method Put(m: nat) returns (waits: bool)
      requires Valid() && m !in Contents()
      modifies this
      ensures Valid() && nonblock == old(nonblock) && getter == old(getter)
      ensures waits <==> max != 0 && old(cnt) >= max && !nonblock
      ensures getList == old(getList) && putList == (if waits then old(putList) else old(putList) + [m])
      ensures cnt == |putList|
    {
      Clear(m);
      if max != 0 && cnt > max - 1 && !nonblock {
        return true;
      }
      Append(m);
      return false;
    }

    method Clear(m: nat)
      requires Valid() && m !in Contents()
      modifies this`mem
      ensures Valid() && LinkOf(m) in mem && mem[LinkOf(m)] == None
    {
      if getter.Idle? {
        ChainElsewhere(mem, LinkOf(m), None, getHead, getList);
      } else {
        ChainElsewhere(mem, LinkOf(m), None, getter.saved, []);
      }
      ChainElsewhere(mem, LinkOf(m), None, putHead, putList);
      mem := mem[LinkOf(m) := None];
    }

    method Append(m: nat)
      requires Valid() && m !in Contents() && LinkOf(m) in mem && mem[LinkOf(m)] == None
      modifies this`mem, this`putTail, this`cnt, this`putList
      ensures Valid() && putList == old(putList) + [m]
    {
      ghost var h := Lists();
      if getter.Idle? {
        ChainElsewhere(mem, putTail, Some(m), getHead, getList);
      } else {
        ChainElsewhere(mem, putTail, Some(m), getter.saved, []);
      }
      ChainAppend(mem, putHead, putList, m);
      mem := mem[putTail := Some(m)];
      putTail := LinkOf(m);
      cnt := cnt + 1;
      putList := putList + [m];
      AppendKeepsApart(h, m);
      assert Lists() == h.(putList := h.putList + [m], sent := h.sent + [m]);
    }

    /** The swap up to its wait: the two heads are one, and the getter's own is kept in `saved`. */
    method StartSwap() returns (saved: Slot)
      requires Valid() && getter.Idle? && getList == []
      modifies this`getHead, this`getter
      ensures Valid() && getter == SwapWait(saved) && saved == old(getHead)
    {
      saved := getHead;
      getHead := putHead;
      getter := SwapWait(saved);
    }

    /** The swap from its wait on: with nothing put in blocking mode it sleeps on; otherwise the put list
        becomes the get list and its length is returned. */
    method FinishSwap(saved: Slot) returns (waits: bool, n: nat)
      requires Valid() && getter == SwapWait(saved)
      modifies this
      ensures Valid() && nonblock == old(nonblock) && Contents() == old(Contents())
      ensures waits <==> old(cnt) == 0 && !nonblock
      ensures waits ==> getter == SwapWait(saved) && putList == []
      ensures !waits ==> getter == Idle && putList == [] && cnt == 0 && n == |getList|
    {
      n := cnt;
      if cnt == 0 && !nonblock {
        return true, n;
      }
      putHead := saved;
      putTail := saved;
      cnt := 0;
      getList, putList, getter := putList, [], Idle;
      return false, n;
    }

    /** Unlinks the first message of the get list. */
    method Take() returns (m: nat)
      requires Valid() && getter.Idle? && getList != []
      modifies this`mem, this`getList
      ensures Valid() && old(getList) == [m] + getList
    {
      ghost var h := Lists();
      ChainTake(mem, getHead, getList);
      ChainElsewhere(mem, getHead, mem[LinkOf(getList[0])], putHead, putList);
      TakeKeepsApart(h);
      m := mem[getHead].value;
      mem := mem[getHead := mem[LinkOf(m)]];
      getList := getList[1..];
      assert h.getList == [m] + getList;
    }

    /** The first message, or nothing from an empty queue in nonblocking mode; the put list is taken over
        whole, and only when the get list has run out. In blocking mode an empty queue makes it wait. */
    method Get() returns (waits: bool, r: Option<nat>)
      requires Valid() && getter.Idle?
      modifies this
      ensures Valid() && nonblock == old(nonblock)
      ensures waits <==> old(Contents()) == [] && !nonblock
      ensures waits ==> getter == SwapWait(old(getHead)) && r == None
      ensures !waits ==> getter == Idle && (r == None <==> old(Contents()) == [])
      ensures old(Contents()) == (if r.Some? then [r.value] else []) + Contents()
      ensures putList == (if old(getList) != [] then old(putList) else [])
    {
      assert SlotAt(getHead, getList, 0) == getHead;
      if mem[getHead].Some? {
        var m := Take();
        return false, Some(m);
      }
      var saved := StartSwap();
      waits, r := Resume(saved);
    }

    /** A getter woken in the swap: it sleeps again if there is still nothing, and goes on otherwise. */
    method Resume(saved: Slot) returns (waits: bool, r: Option<nat>)
      requires Valid() && getter == SwapWait(saved)
      modifies this
      ensures Valid() && nonblock == old(nonblock) && putList == []
      ensures waits <==> old(Contents()) == [] && !nonblock
      ensures waits ==> getter == SwapWait(saved) && r == None
      ensures !waits ==> getter == Idle && (r == None <==> old(Contents()) == [])
      ensures old(Contents()) == (if r.Some? then [r.value] else []) + Contents()
    {
      r := None;
      var n;
      waits, n := FinishSwap(saved);
      if !waits && n > 0 {
        var m := Take();
        r := Some(m);
      }
    }
  }
}
