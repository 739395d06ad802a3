/** What every step of the C worker pool keeps: the locks, the roles of the threads, the whereabouts of
    every task node, the shape of the queue in memory, and the promise of a wake-up at shutdown. */
module ThrdPoolInvariant {
  import opened Links
  import opened Options
  import opened ThrdPool

  // ---- mutual exclusion

  ghost predicate Excluded(s: State, t: nat)
    requires t < |s.threads|
  {
    && (HoldsSpin(s.threads[t]) <==> s.spinOwner == Some(t))
    && (HoldsMutex(s.threads[t]) <==> s.mutex == Some(t))
  }

  ghost predicate LocksOk(s: State) {
    && (s.p.spin <==> s.spinOwner.Some?)
    && (s.spinOwner.Some? ==> s.spinOwner.value < |s.threads|)
    && (s.mutex.Some? ==> s.mutex.value < |s.threads|)
    && forall t: nat | t < |s.threads| :: Excluded(s, t)
  }

  /** The word of the spinlock is set exactly while someone is inside, and nobody else gets in. */
  lemma SpinWord(s: State, t: nat, pc': Pc)
    requires LocksOk(s) && t < |s.threads| && Safe(s.p, s.threads[t]) && Control(s, s.threads[t], pc')
    ensures var pc, p' := s.threads[t], Stored(s.p, s.threads[t], pc');
            && (!HoldsSpin(pc) && HoldsSpin(pc') ==> s.spinOwner == None)
            && (p'.spin <==> OwnerAfter(HoldsSpin(pc), HoldsSpin(pc'), s.spinOwner, t).Some?)
  {
    assert Excluded(s, t);
  }

  lemma StepKeepsLocks(s: State, s': State, t: nat, pc': Pc)
    requires LocksOk(s) && Step(s, s', t, pc')
    ensures LocksOk(s')
  {
    StepThreads(s, s', t, pc');
    SpinWord(s, t, pc');
    assert Excluded(s, t);
    forall u: nat | u < |s'.threads| ensures Excluded(s', u) {
      assert Excluded(s, u);
      assert Roused(if u == t then pc' else s.threads[u], s'.threads[u]);
    }
  }

  // ---- roles

  predicate InWaitdone(pc: Pc) {
    (pc.Pop? && pc.destroys) || pc.Join? || pc.DestroyFree? || pc.Done?
  }

  predicate IsWorkerPc(pc: Pc) {
    match pc
    case Post(_, n) => n
    case Term(_, n) => n
    case _ => !InWaitdone(pc) && !pc.Idle?
  }

  /** How many workers a thread in thrdpool_waitdone has joined. */
  function Joined(s: State, pc: Pc): (n: nat) {
    if pc.Join? then pc.i else s.count
  }

  /** While t waits for the pool to be done, the other clients are idle and those it has joined gone. */
  ghost predicate WaitsAlone(s: State, t: nat)
    requires t < |s.threads|
  {
    && s.waiting && Joined(s, s.threads[t]) <= s.count
    && forall u: nat | u < |s.threads| && u != t ::
         && (s.count <= u ==> s.threads[u].Idle?)
         && (u < Joined(s, s.threads[t]) ==> s.threads[u].Exited?)
  }

  ghost predicate RoleOk(s: State, t: nat)
    requires t < |s.threads|
  {
    && (IsWorkerPc(s.threads[t]) <==> t < s.count)
    && (InWaitdone(s.threads[t]) ==> WaitsAlone(s, t))
  }

  ghost predicate RolesOk(s: State) {
    s.count <= |s.threads| && forall t: nat | t < |s.threads| :: RoleOk(s, t)
  }

  /** Which calls follow one another, as far as roles go. */
  lemma StepRole(s: State, pc: Pc, pc': Pc)
    requires Safe(s.p, pc) && Control(s, pc, pc')
    ensures IsWorkerPc(pc') <==> IsWorkerPc(pc)
    ensures InWaitdone(pc') <==> InWaitdone(pc) || pc'.Join?
    ensures !pc.Exited? && (pc.Idle? ==> !s.waiting)
    ensures pc.Idle? && pc'.Join? ==> OthersIdle(s) && pc'.i == 0
    ensures pc.Join? && pc.i < s.count ==> HasExited(s, pc.i) && pc' == Join(pc.i + 1)
    ensures pc.Join? && pc.i >= s.count ==> !pc'.Join?
    ensures pc'.Join? ==> pc.Join? || pc.Idle?
  {
  }

  lemma StepKeepsRoles(s: State, s': State, t: nat, pc': Pc)
    requires RolesOk(s) && Step(s, s', t, pc')
    ensures RolesOk(s')
  {
    StepThreads(s, s', t, pc');
    StepRole(s, s.threads[t], pc');
    assert RoleOk(s, t);
    forall u: nat | u < |s'.threads| ensures RoleOk(s', u) {
      assert RoleOk(s, u);
      assert Roused(if u == t then pc' else s.threads[u], s'.threads[u]);
      if InWaitdone(s'.threads[u]) {
        forall v: nat | v < |s'.threads| && v != u
          ensures s.count <= v ==> s'.threads[v].Idle?
          ensures v < Joined(s', s'.threads[u]) ==> s'.threads[v].Exited?
        {
          assert Roused(if v == t then pc' else s.threads[v], s'.threads[v]);
        }
      }
    }
  }

  // ---- the nodes: who has them

  /** On its way in: allocated, and not linked yet. */
  predicate Fresh(pc: Pc) {
    pc.Post? && (pc.post.PostClear? || pc.post.PostTas? || pc.post.PostSpin? || pc.post.PostLink?)
  }

  /** On its way out: popped, and not freed yet. */
  predicate Owned(pc: Pc) {
    match pc
    case Pop(at, _) => at.PopReset? || (at.PopUnlock? && at.result.Some?)
    case _ => pc.Fetch? || pc.Free? || pc.DestroyFree?
  }

  /** The task a thread has in hand: its node, or, at the call, only its function and argument. */
  function Held(pc: Pc): (k: Option<nat>) {
    match pc
    case Post(at, _) => if Fresh(pc) then Some(at.node) else None
    case Pop(PopReset(k), _) => Some(k)
    case Pop(PopUnlock(r), _) => r
    case Fetch(k) => Some(k)
    case Free(k) => Some(k)
    case DestroyFree(k) => Some(k)
    case Call(k) => Some(k)
    case _ => None
  }

  ghost predicate HeldOk(p: Pool, h: History, pc: Pc) {
    Held(pc).Some? ==>
      var k := Held(pc).value;
      && k < p.made
      && (Fresh(pc) ==> k !in h.pushed && (pc.post.PostClear? || (LinkOf(k) in p.mem && p.mem[LinkOf(k)] == None)))
      && (Owned(pc) ==> k in h.popped && k !in h.freed)
      && (pc.Call? ==> k in h.freed && k !in h.ran)
  }

  ghost predicate HeldApart(threads: seq<Pc>, t: nat, u: nat) {
    t < u < |threads| && Held(threads[t]).Some? ==> Held(threads[t]) != Held(threads[u])
  }

  ghost predicate InHand(threads: seq<Pc>, k: nat) {
    exists t: nat :: t < |threads| && (Fresh(threads[t]) || Owned(threads[t])) && Held(threads[t]) == Some(k)
  }

  /** No task is linked, freed or called twice; they are popped in the order they were linked; what is
      allocated is what has not been freed, and no link outlives its node. */
  ghost predicate NodesOk(p: Pool, h: History) {
    && h.pushed == h.popped + h.list && NoRepeats(h.pushed) && (forall k | k in h.pushed :: k < p.made)
    && NoRepeats(h.freed) && (forall k | k in h.freed :: k in h.popped)
    && NoRepeats(h.ran) && (forall k | k in h.ran :: k in h.freed)
    && (forall k: nat :: k in p.live <==> k < p.made && k !in h.freed)
    && (forall k: nat | LinkOf(k) in p.mem :: k in p.live)
  }

  ghost predicate HandsOk(s: State) {
    && (forall t: nat | t < |s.threads| :: HeldOk(s.p, s.h, s.threads[t]))
    && (forall t: nat, u: nat :: HeldApart(s.threads, t, u))
    && (forall k: nat | k < s.p.made :: k in s.h.list || k in s.h.freed || InHand(s.threads, k))
  }

  lemma TakeKeepsNodes(p: Pool, h: History)
    requires NodesOk(p, h) && h.list != []
    ensures var h' := h.(list := h.list[1..], popped := h.popped + [h.list[0]]);
            h.pushed == h'.popped + h'.list && (forall k | k in h.freed :: k in h'.popped)
    ensures h.list[0] < p.made && h.list[0] in h.pushed && h.list[0] !in h.popped && h.list[0] !in h.freed
  {
    assert h.list == [h.list[0]] + h.list[1..];
    assert h.pushed[|h.popped|] == h.list[0] && h.list[0] in h.pushed;
    assert forall i: nat | i < |h.popped| :: h.pushed[i] == h.popped[i];
  }

  lemma PostKeepsNodes(p: Pool, h: History, pc: Pc, pc': Pc)
    requires pc.Post? && Safe(p, pc) && NodesOk(p, h) && HeldOk(p, h, pc)
    ensures NodesOk(Stored(p, pc, pc'), Recorded(h, pc))
  {
    if pc.post.PostLink? {
      var k := pc.post.node;
      assert Held(pc) == Some(k);
      assert h.pushed + [k] == h.popped + (h.list + [k]);
    } else if pc.post.PostMalloc? {
      assert forall k | k in h.freed :: k in h.popped + h.list;
    }
  }

  lemma FreeKeepsNodes(p: Pool, h: History, k: nat)
    requires NodesOk(p, h) && k in h.popped && k !in h.freed
    ensures NodesOk(Freed(p, k), h.(freed := h.freed + [k]))
  {
  }

  lemma StepKeepsNodes(p: Pool, h: History, pc: Pc, pc': Pc)
    requires Safe(p, pc) && NodesOk(p, h) && HeldOk(p, h, pc)
    ensures NodesOk(Stored(p, pc, pc'), Recorded(h, pc))
  {
    match pc
    case Post(_, _) => PostKeepsNodes(p, h, pc, pc');
    case Pop(PopTake, _) => if h.list != [] { TakeKeepsNodes(p, h); }
    case Free(k) => FreeKeepsNodes(p, h, k);
    case DestroyFree(k) => FreeKeepsNodes(p, h, k);
    case _ =>
  }

  lemma PopHolds(s: State, pc: Pc, pc': Pc)
    requires pc.Pop? && Safe(s.p, pc) && Control(s, pc, pc') && NodesOk(s.p, s.h) && HeldOk(s.p, s.h, pc)
    requires pc.pop.PopTake? ==> s.h.list != [] && s.p.mem[Head(0)] == Some(s.h.list[0])
    ensures HeldOk(Stored(s.p, pc, pc'), Recorded(s.h, pc), pc')
    ensures Held(pc') == Held(pc) || Held(pc') == None || (pc.pop.PopTake? && Held(pc') == Some(s.h.list[0]))
  {
    if pc.pop.PopTake? {
      TakeKeepsNodes(s.p, s.h);
    }
  }

  lemma PostHolds(s: State, pc: Pc, pc': Pc)
    requires pc.Post? && Safe(s.p, pc) && Control(s, pc, pc') && NodesOk(s.p, s.h) && HeldOk(s.p, s.h, pc)
    ensures HeldOk(Stored(s.p, pc, pc'), Recorded(s.h, pc), pc')
    ensures Held(pc') == Held(pc) || Held(pc') == None || Held(pc') == Some(s.p.made)
  {
  }

  /** What a step leaves in the mover's hand: what it had, a node fresh from malloc, the first of the
      queue, or nothing. */
  lemma MoverHolds(s: State, pc: Pc, pc': Pc)
    requires Safe(s.p, pc) && Control(s, pc, pc') && NodesOk(s.p, s.h) && HeldOk(s.p, s.h, pc)
    requires pc.Pop? && pc.pop.PopTake? ==> s.h.list != [] && s.p.mem[Head(0)] == Some(s.h.list[0])
    ensures HeldOk(Stored(s.p, pc, pc'), Recorded(s.h, pc), pc')
    ensures Held(pc') == Held(pc) || Held(pc') == None || Held(pc') == Some(s.p.made)
         || (pc.Pop? && pc.pop.PopTake? && Held(pc') == Some(s.h.list[0]))
  {
    if pc.Pop? {
      PopHolds(s, pc, pc');
    } else if pc.Post? {
      PostHolds(s, pc, pc');
    }
  }

  /** A bystander's hand is left alone: the mover handles other nodes, and writes no link of his. */
  lemma BystanderHolds(s: State, pc: Pc, pc': Pc, other: Pc)
    requires Safe(s.p, pc) && Control(s, pc, pc') && NodesOk(s.p, s.h) && HeldOk(s.p, s.h, pc)
    requires pc.Pop? && pc.pop.PopTake? ==> s.h.list != [] && s.p.mem[Head(0)] == Some(s.h.list[0])
    requires pc.Post? && pc.post.PostLink? && s.p.tail.LinkOf? ==> s.p.tail.node in s.h.pushed
    requires HeldOk(s.p, s.h, other) && (Held(pc).Some? ==> Held(other) != Held(pc))
    ensures HeldOk(Stored(s.p, pc, pc'), Recorded(s.h, pc), other)
    ensures Held(other).Some? ==> Held(other) != Held(pc')
  {
    MoverHolds(s, pc, pc');
    if pc.Pop? && pc.pop.PopTake? {
      TakeKeepsNodes(s.p, s.h);
      assert Owned(other) ==> Held(other).value in s.h.popped;
    }
  }

  // ---- the queue in memory

  /** The thread inside the spinlock. */
  ghost function Insider(s: State): (pc: Pc) {
    if s.spinOwner.Some? && s.spinOwner.value < |s.threads| then s.threads[s.spinOwner.value] else Idle
  }

  /** `tail` is the last link, or `head` of an empty queue, but for the store that the thread inside
      the spinlock has yet to make. */
  ghost predicate TailOk(tail: Slot, list: seq<nat>, insider: Pc) {
    match insider
    case Post(PostTail(k), _) => list != [] && list[|list| - 1] == k && tail == Last(Head(0), list[..|list| - 1])
    case Pop(PopReset(_), _) => list != [] ==> tail == Last(Head(0), list)
    case Pop(PopTake, _) => list != [] && tail == Last(Head(0), list)
    case _ => tail == Last(Head(0), list)
  }

  ghost predicate QueueOk(s: State) {
    Chain(s.p.mem, Head(0), s.h.list) && TailOk(s.p.tail, s.h.list, Insider(s))
  }

  ghost predicate StructureOk(s: State) {
    LocksOk(s) && RolesOk(s) && NodesOk(s.p, s.h) && HandsOk(s) && QueueOk(s)
  }

  /** Who is inside the spinlock after a step. */
  lemma StepInsider(s: State, s': State, t: nat, pc': Pc)
    requires LocksOk(s) && Step(s, s', t, pc')
    ensures HoldsSpin(s.threads[t]) ==> Insider(s) == s.threads[t]
    ensures !HoldsSpin(s.threads[t]) && HoldsSpin(pc') ==> Insider(s) == Idle
    ensures Insider(s') == if HoldsSpin(pc') then pc' else if HoldsSpin(s.threads[t]) then Idle else Insider(s)
    ensures HoldsSpin(Insider(s)) || Insider(s) == Idle
  {
    StepThreads(s, s', t, pc');
    SpinWord(s, t, pc');
    assert Excluded(s, t);
    if s.spinOwner.Some? {
      var u := s.spinOwner.value;
      assert Excluded(s, u) && Roused(if u == t then pc' else s.threads[u], s'.threads[u]);
    }
  }

  /** What the mover finds at the ends of the queue. */
  lemma MoverFinds(s: State, t: nat)
    requires StructureOk(s) && t < |s.threads|
    ensures var pc := s.threads[t];
            && Head(0) in s.p.mem && s.p.mem[Head(0)] == NodeAt(s.h.list, 0)
            && (pc.Pop? && pc.pop.PopTake? ==> s.h.list != [])
            && (pc.Post? && pc.post.PostLink? ==> s.p.tail == Last(Head(0), s.h.list))
            && (s.p.tail == Last(Head(0), s.h.list) && s.p.tail.LinkOf? ==> s.p.tail.node in s.h.list)
  {
    assert Excluded(s, t);
    assert SlotAt(Head(0), s.h.list, 0) == Head(0);
  }

  lemma ListIsLive(p: Pool, h: History, k: nat)
    requires NodesOk(p, h) && k in h.list
    ensures k in h.pushed && k !in h.popped && k in p.live
  {
    var i: nat :| i < |h.list| && h.list[i] == k;
    assert h.pushed[|h.popped| + i] == k;
    assert forall j: nat | j < |h.popped| :: h.pushed[j] == h.popped[j];
  }

  lemma ListHasNoRepeats(p: Pool, h: History)
    requires NodesOk(p, h)
    ensures NoRepeats(h.list)
  {
    forall i, j | 0 <= i < j < |h.list| ensures h.list[i] != h.list[j] {
      assert h.pushed[|h.popped| + i] == h.list[i] && h.pushed[|h.popped| + j] == h.list[j];
    }
  }

  /** No thread is ever about to follow a pointer to a freed node. */
  lemma StructureIsSafe(s: State, t: nat)
    requires StructureOk(s) && t < |s.threads|
    ensures Safe(s.p, s.threads[t])
  {
    MoverFinds(s, t);
    assert HeldOk(s.p, s.h, s.threads[t]);
    if s.h.list != [] {
      ListIsLive(s.p, s.h, s.h.list[0]);
      assert SlotAt(Head(0), s.h.list, 1) == LinkOf(s.h.list[0]);
    }
    if s.p.tail.LinkOf? && s.p.tail.node in s.h.list {
      ListIsLive(s.p, s.h, s.p.tail.node);
    }
  }

  /** The links: a step writes where the queue is not, appends, or takes the first. */
  lemma StepKeepsChain(p: Pool, h: History, pc: Pc, pc': Pc)
    requires Safe(p, pc) && NodesOk(p, h) && HeldOk(p, h, pc) && Chain(p.mem, Head(0), h.list)
    requires pc.Pop? && pc.pop.PopTake? ==> h.list != []
    requires pc.Post? && pc.post.PostLink? ==> p.tail == Last(Head(0), h.list)
    ensures Chain(Stored(p, pc, pc').mem, Head(0), Recorded(h, pc).list)
  {
    if Held(pc).Some? && Held(pc).value in h.list { ListIsLive(p, h, Held(pc).value); }
    match pc
    case Pop(PopTake, _) =>
      ListHasNoRepeats(p, h);
      ChainTake(p.mem, Head(0), h.list);
    case Post(PostClear(k), _) => ChainElsewhere(p.mem, LinkOf(k), None, Head(0), h.list);
    case Post(PostLink(k), _) =>
      ListHasNoRepeats(p, h);
      ChainAppend(p.mem, Head(0), h.list, k);
    case Free(k) => ChainWithout(p.mem, k, Head(0), h.list);
    case DestroyFree(k) => ChainWithout(p.mem, k, Head(0), h.list);
    case _ =>
  }

  /** The tail pointer. */
  lemma PopKeepsTail(p: Pool, h: History, at: PopPc, d: bool, pc': Pc)
    requires Safe(p, Pop(at, d)) && Head(0) in p.mem && p.mem[Head(0)] == NodeAt(h.list, 0) && TailOk(p.tail, h.list, Pop(at, d))
    requires at.PopTest? || at.PopTake? || at.PopReset? || at.PopUnlock?
    requires if at.PopUnlock? then !HoldsSpin(pc') else pc'.Pop? && PopControl(p, at, pc'.pop)
    ensures TailOk(PopStore(p, at).tail, Recorded(h, Pop(at, d)).list, if HoldsSpin(pc') then pc' else Idle)
  {
  }

  lemma PostKeepsTail(p: Pool, h: History, at: PostPc, n: bool, pc': Pc)
    requires TailOk(p.tail, h.list, Post(at, n))
    requires at.PostLink? || at.PostTail? || at.PostUnlock?
    requires pc'.Post? && PostControl(p, at, pc'.post)
    ensures TailOk(PostStore(p, at).tail, Recorded(h, Post(at, n)).list, if HoldsSpin(pc') then pc' else Idle)
  {
    if at.PostLink? {
      assert (h.list + [at.node])[..|h.list|] == h.list;
    }
  }

  lemma OutsideKeepsTail(s: State, pc: Pc, pc': Pc)
    requires Safe(s.p, pc) && Control(s, pc, pc') && !HoldsSpin(pc)
    ensures Stored(s.p, pc, pc').tail == s.p.tail && Recorded(s.h, pc).list == s.h.list
    ensures HoldsSpin(pc') ==> (pc'.Pop? && pc'.pop.PopTest?) || (pc'.Post? && pc'.post.PostLink?)
  {
  }

  lemma StepKeepsTail(s: State, pc: Pc, pc': Pc, insider: Pc, insider': Pc)
    requires Safe(s.p, pc) && Control(s, pc, pc') && TailOk(s.p.tail, s.h.list, insider)
    requires Head(0) in s.p.mem && s.p.mem[Head(0)] == NodeAt(s.h.list, 0)
    requires HoldsSpin(pc) ==> insider == pc
    requires !HoldsSpin(pc) && HoldsSpin(pc') ==> insider == Idle
    requires insider' == if HoldsSpin(pc') then pc' else if HoldsSpin(pc) then Idle else insider
    ensures TailOk(Stored(s.p, pc, pc').tail, Recorded(s.h, pc).list, insider')
  {
    if !HoldsSpin(pc) {
      OutsideKeepsTail(s, pc, pc');
    } else if pc.Pop? {
      PopKeepsTail(s.p, s.h, pc.pop, pc.destroys, pc');
    } else {
      PostKeepsTail(s.p, s.h, pc.post, pc.nested, pc');
    }
  }

  lemma StepKeepsQueue(s: State, s': State, t: nat, pc': Pc)
    requires StructureOk(s) && Step(s, s', t, pc')
    ensures QueueOk(s')
  {
    StepInsider(s, s', t, pc');
    MoverFinds(s, t);
    assert HeldOk(s.p, s.h, s.threads[t]);
    StepKeepsChain(s.p, s.h, s.threads[t], pc');
    StepKeepsTail(s, s.threads[t], pc', Insider(s), Insider(s'));
  }

  lemma StepKeepsHeld(s: State, s': State, t: nat, pc': Pc)
    requires StructureOk(s) && Step(s, s', t, pc')
    ensures forall u: nat | u < |s'.threads| :: HeldOk(s'.p, s'.h, s'.threads[u])
    ensures forall u: nat, v: nat :: HeldApart(s'.threads, u, v)
  {
    StepThreads(s, s', t, pc');
    MoverFinds(s, t);
    if s.p.tail.LinkOf? && s.p.tail.node in s.h.list { ListIsLive(s.p, s.h, s.p.tail.node); }
    MoverHolds(s, s.threads[t], pc');
    forall u: nat | u < |s.threads| && u != t
      ensures HeldOk(s'.p, s'.h, s.threads[u]) && (Held(s.threads[u]).Some? ==> Held(s.threads[u]) != Held(pc'))
    {
      assert HeldApart(s.threads, u, t) && HeldApart(s.threads, t, u);
      BystanderHolds(s, s.threads[t], pc', s.threads[u]);
    }
    forall u: nat | u < |s'.threads| ensures HeldOk(s'.p, s'.h, s'.threads[u]) {
      assert Roused(if u == t then pc' else s.threads[u], s'.threads[u]);
    }
    forall u: nat, v: nat ensures HeldApart(s'.threads, u, v) {
      if u < v < |s'.threads| {
        assert Roused(if u == t then pc' else s.threads[u], s'.threads[u]);
        assert Roused(if v == t then pc' else s.threads[v], s'.threads[v]);
        assert HeldApart(s.threads, u, v);
      }
    }
  }

  /** A node in the mover's hand stays there, or goes to the queue or to the freed ones. */
  lemma MoverPasses(s: State, pc: Pc, pc': Pc)
    requires Safe(s.p, pc) && Control(s, pc, pc') && (Fresh(pc) || Owned(pc))
    ensures Held(pc).Some?
    ensures || ((Fresh(pc') || Owned(pc')) && Held(pc') == Held(pc))
            || Held(pc).value in Recorded(s.h, pc).list || Held(pc).value in Recorded(s.h, pc).freed
  {
  }

  /** Where the tasks are that are in nobody's hand. */
  lemma MoverMoves(s: State, pc: Pc, pc': Pc, k: nat)
    requires Safe(s.p, pc) && Control(s, pc, pc') && k < Stored(s.p, pc, pc').made
    requires pc.Pop? && pc.pop.PopTake? ==> s.h.list != [] && s.p.mem[Head(0)] == Some(s.h.list[0])
    requires k >= s.p.made || k in s.h.list || k in s.h.freed
    ensures || k in Recorded(s.h, pc).list || k in Recorded(s.h, pc).freed
            || ((Fresh(pc') || Owned(pc')) && Held(pc') == Some(k))
  {
    if s.h.list != [] { assert s.h.list == [s.h.list[0]] + s.h.list[1..]; }
  }

  lemma StepKeepsHand(s: State, s': State, t: nat, pc': Pc, k: nat)
    requires Step(s, s', t, pc') && InHand(s.threads, k)
    ensures k in s'.h.list || k in s'.h.freed || InHand(s'.threads, k)
  {
    StepThreads(s, s', t, pc');
    var u: nat :| u < |s.threads| && (Fresh(s.threads[u]) || Owned(s.threads[u])) && Held(s.threads[u]) == Some(k);
    if u == t {
      MoverPasses(s, s.threads[t], pc');
    } else {
      assert Roused(if u == t then pc' else s.threads[u], s'.threads[u]);
      assert Held(s'.threads[u]) == Some(k);
    }
  }

  lemma StepKeepsPlaces(s: State, s': State, t: nat, pc': Pc, k: nat)
    requires StructureOk(s) && Step(s, s', t, pc') && k < s'.p.made
    ensures k in s'.h.list || k in s'.h.freed || InHand(s'.threads, k)
  {
    StepThreads(s, s', t, pc');
    MoverFinds(s, t);
    if k >= s.p.made || k in s.h.list || k in s.h.freed {
      MoverMoves(s, s.threads[t], pc', k);
    } else {
      StepKeepsHand(s, s', t, pc', k);
    }
  }

  lemma StepKeepsStructure(s: State, s': State, t: nat, pc': Pc)
    requires StructureOk(s) && Step(s, s', t, pc')
    ensures StructureOk(s')
  {
    StepKeepsLocks(s, s', t, pc');
    StepKeepsRoles(s, s', t, pc');
    assert HeldOk(s.p, s.h, s.threads[t]);
    StepKeepsNodes(s.p, s.h, s.threads[t], pc');
    StepKeepsHeld(s, s', t, pc');
    forall k: nat | k < s'.p.made ensures k in s'.h.list || k in s'.h.freed || InHand(s'.threads, k) {
      StepKeepsPlaces(s, s', t, pc', k);
    }
    StepKeepsQueue(s, s', t, pc');
  }

  // ---- the flags and the sleepers

  predicate OwesBroadcast(pc: Pc) {
    pc.Term? && (pc.term.TermUnlock? || pc.term.TermBroadcast?)
  }

  ghost predicate SomeOwesBroadcast(s: State) {
    exists t: nat :: t < |s.threads| && OwesBroadcast(s.threads[t])
  }

  /** What a thread at pc knows of the flags, and of the queue once it has found it empty. */
  predicate Knows(p: Pool, h: History, pc: Pc) {
    match pc
    case Get(at) => (at.GetWait? ==> p.block) && (at.GetGiveUp? ==> !p.block)
    case Term(at, _) => (!at.TermStore? ==> p.quit) && (at.TermUnlock? || at.TermBroadcast? ==> !p.block)
    case Exited => p.quit
    case Pop(PopUnlock(r), _) => r == None ==> h.list == []
    case Done => h.list == []
    case _ => true
  }

  ghost predicate FlagsOk(s: State) {
    && (!s.p.block ==> s.p.quit)
    && (forall t: nat | t < |s.threads| :: Knows(s.p, s.h, s.threads[t]))
    && (!s.p.block && !NoneAsleep(s.threads) ==> SomeOwesBroadcast(s))
  }

  lemma MoverKnows(s: State, pc: Pc, pc': Pc)
    requires Safe(s.p, pc) && Control(s, pc, pc') && Knows(s.p, s.h, pc) && (!s.p.block ==> s.p.quit)
    requires Head(0) in s.p.mem && s.p.mem[Head(0)] == NodeAt(s.h.list, 0)
    ensures Knows(Stored(s.p, pc, pc'), Recorded(s.h, pc), pc')
    ensures var p' := Stored(s.p, pc, pc'); !p'.block ==> p'.quit
  {
  }

  /** Flags and queue change only under the locks, and `quit` only for good. */
  lemma BystanderKnows(s: State, pc: Pc, pc': Pc, other: Pc)
    requires Safe(s.p, pc) && Control(s, pc, pc') && Knows(s.p, s.h, other)
    requires !(HoldsSpin(pc) && HoldsSpin(other)) && !(HoldsMutex(pc) && HoldsMutex(other))
    requires other.Done? ==> !HoldsSpin(pc)
    ensures Knows(Stored(s.p, pc, pc'), Recorded(s.h, pc), other)
  {
  }

  lemma StepKeepsKnows(s: State, s': State, t: nat, pc': Pc)
    requires StructureOk(s) && FlagsOk(s) && Step(s, s', t, pc')
    ensures forall u: nat | u < |s'.threads| :: Knows(s'.p, s'.h, s'.threads[u])
    ensures !s'.p.block ==> s'.p.quit
  {
    StepThreads(s, s', t, pc');
    MoverFinds(s, t);
    MoverKnows(s, s.threads[t], pc');
    forall u: nat | u < |s'.threads| ensures Knows(s'.p, s'.h, s'.threads[u]) {
      assert Roused(if u == t then pc' else s.threads[u], s'.threads[u]);
      if u != t {
        assert Excluded(s, t) && Excluded(s, u) && RoleOk(s, u);
        BystanderKnows(s, s.threads[t], pc', s.threads[u]);
      }
    }
  }

  /** Nobody is asleep right after a broadcast. */
  lemma BroadcastMissesNobody(s: State, s': State, t: nat, pc': Pc)
    requires Step(s, s', t, pc') && !NoneAsleep(s'.threads)
    ensures !(s.threads[t].Term? && s.threads[t].term.TermBroadcast?)
  {
  }

  lemma MoverOwes(s: State, pc: Pc, pc': Pc)
    requires Safe(s.p, pc) && Control(s, pc, pc') && Knows(s.p, s.h, pc)
    ensures OwesBroadcast(pc) && !(pc.Term? && pc.term.TermBroadcast?) ==> OwesBroadcast(pc')
    ensures s.p.block && !Stored(s.p, pc, pc').block ==> OwesBroadcast(pc')
    ensures IsAsleep(pc') ==> s.p.block && Stored(s.p, pc, pc') == s.p
    ensures !s.p.block ==> !Stored(s.p, pc, pc').block
  {
  }

  lemma StepKeepsSleepers(s: State, s': State, t: nat, pc': Pc)
    requires StructureOk(s) && FlagsOk(s) && Step(s, s', t, pc')
    ensures !s'.p.block && !NoneAsleep(s'.threads) ==> SomeOwesBroadcast(s')
  {
    if !s'.p.block && !NoneAsleep(s'.threads) {
      StepThreads(s, s', t, pc');
      assert Roused(pc', s'.threads[t]);
      MoverOwes(s, s.threads[t], pc');
      BroadcastMissesNobody(s, s', t, pc');
      if !s.p.block {
        var w: nat :| w < |s'.threads| && IsAsleep(s'.threads[w]);
        assert Roused(if w == t then pc' else s.threads[w], s'.threads[w]);
        assert IsAsleep(s.threads[w]);
        var v: nat :| v < |s.threads| && OwesBroadcast(s.threads[v]);
        assert Roused(if v == t then pc' else s.threads[v], s'.threads[v]);
        assert OwesBroadcast(s'.threads[v]);
      } else {
        assert OwesBroadcast(s'.threads[t]);
      }
    }
  }

  // ---- the invariant

  ghost predicate Inv(s: State) {
    StructureOk(s) && FlagsOk(s)
  }

  lemma InitInv(s: State)
    requires Init(s)
    ensures Inv(s)
  {
  }

  lemma NextKeepsInv(s: State, s': State)
    requires Inv(s) && Next(s, s')
    ensures Inv(s')
  {
    var t: nat, pc': Pc :| Step(s, s', t, pc');
    StepKeepsStructure(s, s', t, pc');
    StepKeepsKnows(s, s', t, pc');
    StepKeepsSleepers(s, s', t, pc');
  }
}
