/** The bump allocator of mempool.c: a list of pages, each handed out from its start, and a new page
    put in front when no page has room. */
module PagePool {

  /** sizeof(mp_node_t): the header at the start of every page. */
  const HEADER: nat := 24

  datatype Span = Span(base: nat, used: nat)
  datatype Grant = Grant(ptr: nat, size: nat)

  /** Pages newest first, each with `cap` bytes after its header, and every range handed out so far. */
  datatype Pool = Pool(cap: nat, pages: seq<Span>, grants: seq<Grant>)

  /** The first page with room for `size` bytes, looking from the k-th on. */
  function FitFrom(pages: seq<Span>, cap: nat, size: nat, k: nat): (i: nat)
    requires k <= |pages|
    ensures k <= i <= |pages|
    ensures i < |pages| ==> pages[i].used + size <= cap
    ensures forall j | k <= j < i :: pages[j].used + size > cap
    decreases |pages| - k
  {
    if k == |pages| || pages[k].used + size <= cap then k else FitFrom(pages, cap, size, k + 1)
  }

  function FirstFit(pages: seq<Span>, cap: nat, size: nat): (i: nat)
    ensures i <= |pages|
    ensures i < |pages| ==> pages[i].used + size <= cap
    ensures forall j | 0 <= j < i :: pages[j].used + size > cap
  {
    FitFrom(pages, cap, size, 0)
  }

  /** Where a request is placed: after what the first page with room has handed out, or at the
      start of a new page at `addr`. */
  function PtrOf(pages: seq<Span>, cap: nat, size: nat, addr: nat): (ptr: nat) {
    var i := FirstFit(pages, cap, size);
    if i < |pages| then pages[i].base + HEADER + pages[i].used else addr + HEADER
  }

  function PagesAfter(pages: seq<Span>, cap: nat, size: nat, addr: nat): (pages': seq<Span>) {
    var i := FirstFit(pages, cap, size);
    if i < |pages| then pages[i := Span(pages[i].base, pages[i].used + size)] else [Span(addr, size)] + pages
  }

  /** One request; `addr` is where malloc puts the page, should one be needed. */
  function Allocated(p: Pool, size: nat, addr: nat): (p': Pool) {
    Pool(p.cap, PagesAfter(p.pages, p.cap, size, addr), p.grants + [Grant(PtrOf(p.pages, p.cap, size, addr), size)])
  }

  function Initial(cap: nat, addr: nat): (p: Pool) {
    Pool(cap, [Span(addr, 0)], [])
  }

  predicate Apart(a: nat, n: nat, b: nat, m: nat) {
    a + n <= b || b + m <= a
  }

  /** malloc's promise: the new page overlaps no page in use. */
  ghost predicate FreshPage(p: Pool, addr: nat) {
    forall i | 0 <= i < |p.pages| :: Apart(addr, HEADER + p.cap, p.pages[i].base, HEADER + p.cap)
  }

  /** The range lies in the part of the page already bumped past, after its header. */
  predicate Within(g: Grant, page: Span) {
    page.base + HEADER <= g.ptr && g.ptr + g.size <= page.base + HEADER + page.used
  }

  ghost predicate PagesApart(p: Pool, i: nat, j: nat) {
    i < j < |p.pages| ==> Apart(p.pages[i].base, HEADER + p.cap, p.pages[j].base, HEADER + p.cap)
  }

  ghost predicate PagesOk(p: Pool) {
    && 0 < |p.pages|
    && (forall i | 0 <= i < |p.pages| :: p.pages[i].used <= p.cap)
    && (forall i: nat, j: nat :: PagesApart(p, i, j))
  }

  ghost predicate ExceedOnePage(p: Pool, i: nat, j: nat) {
    i < j < |p.pages| ==> p.pages[i].used + p.pages[j].used > p.cap
  }

  /** Any two pages together hold more than one page's capacity. */
  ghost predicate PairwiseFull(p: Pool) {
    forall i: nat, j: nat :: ExceedOnePage(p, i, j)
  }

  ghost predicate GrantsApart(p: Pool, k: nat, l: nat) {
    k < l < |p.grants| ==> Apart(p.grants[k].ptr, p.grants[k].size, p.grants[l].ptr, p.grants[l].size)
  }

  ghost predicate Placed(p: Pool, g: Grant) {
    exists i :: 0 <= i < |p.pages| && Within(g, p.pages[i])
  }

  ghost predicate GrantsOk(p: Pool) {
    && (forall k | 0 <= k < |p.grants| :: Placed(p, p.grants[k]))
    && (forall k: nat, l: nat :: GrantsApart(p, k, l))
  }

  ghost predicate Inv(p: Pool) {
    PagesOk(p) && PairwiseFull(p) && GrantsOk(p) && Used(p.pages) == Granted(p.grants)
  }

  function Used(pages: seq<Span>): (n: nat) {
    if pages == [] then 0 else pages[0].used + Used(pages[1..])
  }

  function Granted(grants: seq<Grant>): (n: nat) {
    if grants == [] then 0 else Granted(grants[..|grants| - 1]) + grants[|grants| - 1].size
  }

  lemma {:induction false} UsedUpdate(pages: seq<Span>, i: nat, page: Span)
    requires i < |pages|
    ensures Used(pages[i := page]) == Used(pages) - pages[i].used + page.used
  {
    if i == 0 {
      assert pages[0 := page][1..] == pages[1..];
    } else {
      UsedUpdate(pages[1..], i - 1, page);
      assert pages[i := page][1..] == pages[1..][i - 1 := page];
    }
  }

  lemma GrantedAppend(grants: seq<Grant>, g: Grant)
    ensures Granted(grants + [g]) == Granted(grants) + g.size
  {
    assert (grants + [g])[..|grants|] == grants;
  }

  lemma AllocatedKeepsGrants(p: Pool, p': Pool, size: nat, addr: nat)
    requires PagesOk(p) && GrantsOk(p) && PagesOk(p') && size <= p.cap
    requires p' == Allocated(p, size, addr)
    requires FirstFit(p.pages, p.cap, size) == |p.pages| ==> FreshPage(p, addr)
    ensures GrantsOk(p')
  {
    var i := FirstFit(p.pages, p.cap, size);
    var n := |p.grants|;
    var at := if i < |p.pages| then i else 0;
    assert Within(p'.grants[n], p'.pages[at]);
    forall k: nat | k < n
      ensures Placed(p', p'.grants[k])
      ensures GrantsApart(p', k, n)
    {
      assert Placed(p, p.grants[k]);
      var j: nat :| j < |p.pages| && Within(p.grants[k], p.pages[j]);
      assert Within(p'.grants[k], p'.pages[if i < |p.pages| then j else j + 1]);
      assert PagesApart(p, i, j) && PagesApart(p, j, i);
    }
    forall k: nat, l: nat ensures GrantsApart(p', k, l) {
      assert GrantsApart(p, k, l);
    }
  }

  lemma AllocatedKeepsPages(p: Pool, p': Pool, size: nat, addr: nat)
    requires PagesOk(p) && PairwiseFull(p) && size <= p.cap && p' == Allocated(p, size, addr)
    requires FirstFit(p.pages, p.cap, size) == |p.pages| ==> FreshPage(p, addr)
    ensures PagesOk(p') && PairwiseFull(p')
  {
    var i := FirstFit(p.pages, p.cap, size);
    forall j: nat, k: nat ensures PagesApart(p', j, k) && ExceedOnePage(p', j, k) {
      if i < |p.pages| {
        assert PagesApart(p, j, k) && ExceedOnePage(p, j, k);
      } else if 0 < j < k < |p'.pages| {
        assert PagesApart(p, j - 1, k - 1) && ExceedOnePage(p, j - 1, k - 1);
      }
    }
  }

  lemma AllocatedKeepsTotal(p: Pool, size: nat, addr: nat)
    ensures Used(Allocated(p, size, addr).pages) == Used(p.pages) + size
    ensures Granted(Allocated(p, size, addr).grants) == Granted(p.grants) + size
  {
    var p' := Allocated(p, size, addr);
    var i := FirstFit(p.pages, p.cap, size);
    if i < |p.pages| {
      UsedUpdate(p.pages, i, p'.pages[i]);
    } else {
      assert p'.pages[1..] == p.pages;
    }
    GrantedAppend(p.grants, p'.grants[|p.grants|]);
  }

  lemma AllocatedKeepsInv(p: Pool, size: nat, addr: nat)
    requires Inv(p) && size <= p.cap
    requires FirstFit(p.pages, p.cap, size) == |p.pages| ==> FreshPage(p, addr)
    ensures Inv(Allocated(p, size, addr)) && Allocated(p, size, addr).cap == p.cap
  {
    var p' := Allocated(p, size, addr);
    AllocatedKeepsTotal(p, size, addr);
    AllocatedKeepsPages(p, p', size, addr);
    AllocatedKeepsGrants(p, p', size, addr);
  }

  // ---- whole runs

  datatype Request = Request(size: nat, addr: nat)

  function Run(p: Pool, requests: seq<Request>): (p': Pool)
    decreases |requests|
  {
    if requests == [] then p else Run(Allocated(p, requests[0].size, requests[0].addr), requests[1..])
  }

  /** Requests that fit in a page, answered by a malloc that keeps its promise. */
  ghost predicate Legal(p: Pool, requests: seq<Request>)
    decreases |requests|
  {
    requests != [] ==>
      && requests[0].size <= p.cap
      && (FirstFit(p.pages, p.cap, requests[0].size) == |p.pages| ==> FreshPage(p, requests[0].addr))
      && Legal(Allocated(p, requests[0].size, requests[0].addr), requests[1..])
  }

  lemma {:induction false} RunKeepsInv(p: Pool, requests: seq<Request>)
    requires Inv(p) && Legal(p, requests)
    ensures Inv(Run(p, requests)) && Run(p, requests).cap == p.cap
    decreases |requests|
  {
    if requests != [] {
      AllocatedKeepsInv(p, requests[0].size, requests[0].addr);
      RunKeepsInv(Allocated(p, requests[0].size, requests[0].addr), requests[1..]);
    }
  }

  ghost predicate MissesHeaders(p: Pool, g: Grant) {
    forall i | 0 <= i < |p.pages| :: Apart(g.ptr, g.size, p.pages[i].base, HEADER)
  }

  lemma PlacedMissesHeaders(p: Pool, g: Grant)
    requires PagesOk(p) && Placed(p, g)
    ensures MissesHeaders(p, g)
  {
    var j: nat :| j < |p.pages| && Within(g, p.pages[j]);
    forall i: nat | i < |p.pages| ensures Apart(g.ptr, g.size, p.pages[i].base, HEADER) {
      assert PagesApart(p, i, j) && PagesApart(p, j, i);
    }
  }

  lemma GrantsMissHeaders(p: Pool)
    requires PagesOk(p) && GrantsOk(p)
    ensures forall k | 0 <= k < |p.grants| :: MissesHeaders(p, p.grants[k])
  {
    forall k | 0 <= k < |p.grants| ensures MissesHeaders(p, p.grants[k]) {
      PlacedMissesHeaders(p, p.grants[k]);
    }
  }

  // ---- the words of the header

  /** sizeof(char *). */
  const WORD: nat := 8

  /** The fields of mp_node_t, in the order of their declaration. */
  datatype Field = FreePtr | End | Next

  function Offset(f: Field): (offset: nat) {
    match f
    case FreePtr => 0
    case End => 8
    case Next => 16
  }

  /** The fields lie side by side, and the header taken off a page is just what holds them. */
  lemma HeaderHoldsFields(f: Field, g: Field)
    ensures f != g ==> Apart(Offset(f), WORD, Offset(g), WORD)
    ensures Offset(f) + WORD <= HEADER
    ensures exists last :: Offset(last) + WORD == HEADER
  {
    assert Offset(Next) + WORD == HEADER;
  }

  /** The first request of a fresh pool is placed right behind the last field of its page's header. */
  lemma FirstGrantFollowsFields(cap: nat, addr: nat, size: nat, other: nat)
    requires size <= cap
    ensures Allocated(Initial(cap, addr), size, other).grants == [Grant(addr + Offset(Next) + WORD, size)]
  {
  }

  /** No range handed out shares a byte with a field of any page's header, and the fields are inside their
      page: what clients write never changes free_ptr, end or next. */
  lemma GrantsMissFields(size: nat, addr: nat, requests: seq<Request>, k: nat, i: nat, f: Field)
    requires HEADER <= size && Legal(Initial(size - HEADER, addr), requests)
    requires var p := Run(Initial(size - HEADER, addr), requests); k < |p.grants| && i < |p.pages|
    ensures var p := Run(Initial(size - HEADER, addr), requests);
            && Apart(p.grants[k].ptr, p.grants[k].size, p.pages[i].base + Offset(f), WORD)
            && Offset(f) + WORD <= size
            && exists j: nat :: j < |p.pages| && p.pages[j].base <= p.grants[k].ptr && p.grants[k].ptr + p.grants[k].size <= p.pages[j].base + size
  {
    var p := Run(Initial(size - HEADER, addr), requests);
    GrantsAreDisjoint(size - HEADER, addr, requests);
    assert Placed(p, p.grants[k]) && MissesHeaders(p, p.grants[k]);
    var j: nat :| j < |p.pages| && Within(p.grants[k], p.pages[j]);
    assert p.pages[j].used <= p.cap;
  }

  /** Ranges handed out are pairwise disjoint, inside their pages, whose capacity is never exceeded, and
      clear of every page header. */
  lemma GrantsAreDisjoint(cap: nat, addr: nat, requests: seq<Request>)
    requires Legal(Initial(cap, addr), requests)
    ensures var p := Run(Initial(cap, addr), requests);
            && PagesOk(p) && p.cap == cap
            && GrantsOk(p) && forall k | 0 <= k < |p.grants| :: MissesHeaders(p, p.grants[k])
  {
    RunKeepsInv(Initial(cap, addr), requests);
    GrantsMissHeaders(Run(Initial(cap, addr), requests));
  }

  lemma UsedOfTwo(pages: seq<Span>)
    requires |pages| >= 2
    ensures Used(pages) == pages[0].used + pages[1].used + Used(pages[2..])
  {
    assert Used(pages[1..]) == pages[1].used + Used(pages[1..][1..]);
    assert pages[1..][1..] == pages[2..];
  }

  lemma ThreePages(p: Pool)
    requires PairwiseFull(p) && |p.pages| == 3
    ensures 2 * Used(p.pages) > 3 * p.cap
  {
    UsedOfTwo(p.pages);
    assert Used(p.pages[2..]) == p.pages[2].used + Used(p.pages[2..][1..]);
    assert p.pages[2..][1..] == [];
    assert ExceedOnePage(p, 0, 1) && ExceedOnePage(p, 0, 2) && ExceedOnePage(p, 1, 2);
  }

  /** If any two of at least two pages exceed `cap` together, all of them exceed half their capacity. */
  lemma {:induction false} PairsBoundTotal(p: Pool)
    requires PairwiseFull(p) && |p.pages| >= 2
    ensures 2 * Used(p.pages) > |p.pages| * p.cap
    decreases |p.pages|
  {
    if |p.pages| == 3 {
      ThreePages(p);
    } else {
      UsedOfTwo(p.pages);
      assert ExceedOnePage(p, 0, 1);
      if |p.pages| == 2 {
        assert p.pages[2..] == [];
      } else {
        var rest := p.(pages := p.pages[2..]);
        forall i: nat, j: nat ensures ExceedOnePage(rest, i, j) {
          assert ExceedOnePage(p, i + 2, j + 2);
        }
        PairsBoundTotal(rest);
        assert |p.pages| * p.cap == (|p.pages| - 2) * p.cap + 2 * p.cap;
      }
    }
  }

  /** With k >= 2 pages, over half of the total usable space has been handed out. */
  lemma OverHalfIsUsed(cap: nat, addr: nat, requests: seq<Request>)
    requires Legal(Initial(cap, addr), requests)
    requires |Run(Initial(cap, addr), requests).pages| >= 2
    ensures var p := Run(Initial(cap, addr), requests);
            2 * Granted(p.grants) > |p.pages| * cap
  {
    RunKeepsInv(Initial(cap, addr), requests);
    PairsBoundTotal(Run(Initial(cap, addr), requests));
  }

  // ---- the objects

  /** The header of a page: where its free space starts and ends, and the next older page. */
  class Node {
    const base: nat
    const end: nat
    var freePtr: nat
    var next: Node?

    /** The page holds `span.used` bytes past its header, out of `max` in all. */
    ghost predicate Holds(max: nat, span: Span)
      reads this
    {
      end == base + max && span.base == base && freePtr == base + HEADER + span.used
    }

    constructor (addr: nat, size: nat, next: Node?)
      requires HEADER <= size
      ensures base == addr && end == addr + size && freePtr == addr + HEADER && this.next == next
    {
      base, end := addr, addr + size;
      freePtr := addr + HEADER;
      this.next := next;
    }
  }

  /** The node after the i-th, or null after the last. */
  ghost function Following(nodes: seq<Node>, i: nat): (n: Node?) {
    if i + 1 < |nodes| then nodes[i + 1] else null
  }

  class MemPool {
    var first: Node
    var current: Node
    var max: nat
    ghost var nodes: seq<Node>
    ghost var spans: seq<Span>
    ghost var grants: seq<Grant>

    /** `nodes` are the pages from `current` along `next` to `first`, and `spans` what they hold. */
    ghost predicate Linked()
      reads this, nodes
    {
      && 0 < |nodes| == |spans|
      && nodes[0] == current && nodes[|nodes| - 1] == first
      && (forall i, j | 0 <= i < j < |nodes| :: nodes[i] != nodes[j])
      && (forall i: nat {:trigger Following(nodes, i)} | i < |nodes| :: nodes[i].next == Following(nodes, i))
      && HEADER <= max
      && (forall i | 0 <= i < |nodes| :: nodes[i].Holds(max, spans[i]))
    }

    ghost function View(): (p: Pool)
      requires HEADER <= max
      reads this
    {
      Pool(max - HEADER, spans, grants)
    }

    ghost predicate Valid()
      reads this, nodes
    {
      Linked() && Inv(View())
    }

    constructor (size: nat, addr: nat)
      requires HEADER <= size
      ensures Valid() && fresh(nodes)
      ensures View() == Initial(size - HEADER, addr)
    {
      var node := new Node(addr, size, null);
      first, current, max := node, node, size;
      nodes, spans, grants := [node], [Span(addr, 0)], [];
    }

    /** Hands out the next `size` bytes of a page. */
    method Bump(node: Node, size: nat, ghost i: nat) returns (ptr: nat)
      requires Linked() && i < |nodes| && node == nodes[i]
      modifies this`grants, this`spans, node`freePtr
      ensures Linked()
      ensures ptr == old(spans)[i].base + HEADER + old(spans)[i].used
      ensures grants == old(grants) + [Grant(ptr, size)]
      ensures spans == old(spans)[i := Span(old(spans)[i].base, old(spans)[i].used + size)]
    {
      ptr := node.freePtr;
      node.freePtr := node.freePtr + size;
      grants := grants + [Grant(ptr, size)];
      spans := spans[i := Span(spans[i].base, spans[i].used + size)];
      assert forall j: nat {:trigger Following(nodes, j)} | j < |nodes| :: old(nodes[j].next) == Following(nodes, j);
    }

    /** Puts a new page in front of the list. */
    method AddPage(addr: nat)
      requires Linked()
      modifies this`current, this`nodes, this`spans
      ensures Linked() && fresh(current)
      ensures nodes == [current] + old(nodes) && spans == [Span(addr, 0)] + old(spans)
    {
      var page := new Node(addr, max, current);
      current := page;
      nodes := [page] + nodes;
      spans := [Span(addr, 0)] + spans;
      forall i: nat | i < |nodes| ensures nodes[i].next == Following(nodes, i) && nodes[i].Holds(max, spans[i]) {
        if i > 0 {
          assert old(nodes)[i - 1].next == Following(old(nodes), i - 1);
          assert old(nodes)[i - 1].Holds(max, old(spans)[i - 1]);
        }
      }
    }

    /** The walk over the page list: the first page with room, or null. */
    method FindRoom(size: nat) returns (node: Node?)
      requires Linked()
      ensures var i := FirstFit(spans, max - HEADER, size); node == if i < |nodes| then nodes[i] else null
    {
      ghost var i := 0;
      node := current;
      while node != null
        invariant 0 <= i <= |nodes|
        invariant node == if i < |nodes| then nodes[i] else null
        invariant FirstFit(spans, max - HEADER, size) == FitFrom(spans, max - HEADER, size, i)
        decreases |nodes| - i
      {
        assert node.Holds(max, spans[i]);
        if size <= node.end - node.freePtr {
          return;
        }
        assert node.next == Following(nodes, i);
        node := node.next;
        i := i + 1;
      }
    }

    /** The first page with room, newest first; failing that, a new page at `addr` in front. */
    method Place(size: nat, addr: nat) returns (ptr: nat)
      requires Linked() && size <= max - HEADER
      modifies this`current, this`nodes, this`spans, this`grants, nodes
      ensures Linked()
      ensures spans == PagesAfter(old(spans), max - HEADER, size, addr)
      ensures ptr == PtrOf(old(spans), max - HEADER, size, addr)
      ensures grants == old(grants) + [Grant(ptr, size)]
      ensures nodes == old(nodes) || (|nodes| > 0 && fresh(nodes[0]) && nodes[1..] == old(nodes))
    {
      var node := FindRoom(size);
      ghost var i := FirstFit(spans, max - HEADER, size);
      if node != null {
        ptr := Bump(node, size, i);
      } else {
        AddPage(addr);
        ptr := Bump(current, size, 0);
        assert spans == [Span(addr, size)] + old(spans);
      }
    }

    method Alloc(size: nat, addr: nat) returns (ptr: nat)
      requires Valid() && size <= max - HEADER
      requires FirstFit(View().pages, View().cap, size) == |View().pages| ==> FreshPage(View(), addr)
      modifies this`current, this`nodes, this`spans, this`grants, nodes
      ensures Valid() && View() == Allocated(old(View()), size, addr)
      ensures |grants| == |old(grants)| + 1 && grants[|old(grants)|] == Grant(ptr, size)
      ensures nodes == old(nodes) || (|nodes| > 0 && fresh(nodes[0]) && nodes[1..] == old(nodes))
    {
      ghost var p := View();
      ptr := Place(size, addr);
      assert View() == Allocated(p, size, addr);
      AllocatedKeepsInv(p, size, addr);
    }
  }
}
