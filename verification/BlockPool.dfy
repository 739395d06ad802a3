/** The fixed-block pool of mempool-v1.c: a 4096-byte page cut into equal blocks, whose free list is
    threaded through the free blocks themselves. */
module BlockPool {
  import opened Arithmetic
  import opened Options

  const MEM_PAGE_SIZE: nat := 4096
  const POINTER_SIZE: nat := 8

  /** The memory in sight: the page, and the eight bytes that follow it and belong to somebody else. */
  const EXTENT: nat := MEM_PAGE_SIZE + POINTER_SIZE

  type byte = b: int | 0 <= b < 256

  /** The value of a little-endian byte string. */
  function Decode(bytes: seq<byte>): (v: nat) {
    if bytes == [] then 0 else bytes[0] + 256 * Decode(bytes[1..])
  }

  function Encode(v: nat, size: nat): (bytes: seq<byte>)
    ensures |bytes| == size
  {
    if size == 0 then [] else [v % 256] + Encode(v / 256, size - 1)
  }

  lemma {:induction false} DecodeEncode(v: nat, size: nat)
    requires v < Pow(256, size)
    ensures Decode(Encode(v, size)) == v
  {
    if size > 0 {
      DecodeEncode(v / 256, size - 1);
      assert Encode(v, size)[1..] == Encode(v / 256, size - 1);
    }
  }

  /** The pointer stored at an offset of the page. */
  function Load(mem: seq<byte>, at: nat): (v: nat)
    requires at + POINTER_SIZE <= |mem|
  {
    Decode(mem[at..at + POINTER_SIZE])
  }

  /** The page after `*(char **)(page + at) = v`. */
  function Store(mem: seq<byte>, at: nat, v: nat): (mem': seq<byte>)
    requires at + POINTER_SIZE <= |mem|
    ensures |mem'| == |mem|
  {
    mem[..at] + Encode(v, POINTER_SIZE) + mem[at + POINTER_SIZE..]
  }

  lemma LoadStore(mem: seq<byte>, at: nat, v: nat)
    requires at + POINTER_SIZE <= |mem| && v < U64
    ensures Load(Store(mem, at, v), at) == v
  {
    assert Store(mem, at, v)[at..at + POINTER_SIZE] == Encode(v, POINTER_SIZE);
    WordValues();
    DecodeEncode(v, POINTER_SIZE);
  }

  /** A pointer is read back unchanged as long as its own eight bytes are. */
  lemma LoadUnchanged(mem: seq<byte>, mem': seq<byte>, at: nat)
    requires at + POINTER_SIZE <= |mem| == |mem'|
    requires forall k | at <= k < at + POINTER_SIZE :: mem'[k] == mem[k]
    ensures Load(mem', at) == Load(mem, at)
  {
    assert mem'[at..at + POINTER_SIZE] == mem[at..at + POINTER_SIZE];
  }

  // ---- the pool as a value: which blocks are free, in the order they will be handed out, and which are out

  datatype Blocks = Blocks(free: seq<nat>, out: set<nat>)

  ghost predicate Partition(p: Blocks, count: nat) {
    && (forall i, j | 0 <= i < j < |p.free| :: p.free[i] != p.free[j])
    && (forall k: nat :: k < count <==> k in p.free || k in p.out)
    && (forall k | k in p.free :: k !in p.out)
  }

  function Taken(p: Blocks): (p': Blocks) {
    if p.free == [] then p else Blocks(p.free[1..], p.out + {p.free[0]})
  }

  function Returned(p: Blocks, k: nat): (p': Blocks) {
    Blocks([k] + p.free, p.out - {k})
  }

  lemma TakenKeepsPartition(p: Blocks, count: nat)
    requires Partition(p, count)
    ensures Partition(Taken(p), count)
  {
    if p.free != [] {
      assert p.free == [p.free[0]] + p.free[1..];
      assert forall k: nat :: k in p.free <==> k == p.free[0] || k in p.free[1..];
    }
  }

  lemma ReturnedKeepsPartition(p: Blocks, k: nat, count: nat)
    requires Partition(p, count) && k in p.out
    ensures Partition(Returned(p, k), count)
  {
  }

  lemma {:induction false} DistinctCount(s: seq<nat>, elems: set<nat>)
    requires forall i, j | 0 <= i < j < |s| :: s[i] != s[j]
    requires forall k: nat :: k in s <==> k in elems
    ensures |s| == |elems|
  {
    if s == [] {
      assert elems == {};
    } else {
      assert s == [s[0]] + s[1..];
      DistinctCount(s[1..], elems - {s[0]});
    }
  }

  /** Free plus outstanding is the initial count, so nothing is free exactly when all blocks are out. */
  lemma Balance(p: Blocks, count: nat)
    requires Partition(p, count)
    ensures |p.free| + |p.out| == count
    ensures p.free == [] <==> |p.out| == count
  {
    var all := seq(count, i => i);
    var freeSet := set k | k in p.free;
    assert forall k: nat :: k in all <==> k < count by {
      forall k: nat | k < count ensures k in all { assert all[k] == k; }
    }
    DistinctCount(all, freeSet + p.out);
    DistinctCount(p.free, freeSet);
    assert freeSet !! p.out;
  }

  /** A call, or a byte that a client stores at an offset of a block. */
  datatype Op = Alloc | Free(k: nat) | Write(k: nat, at: nat, v: byte)

  /** A client returns only blocks it holds, and writes only inside them. */
  ghost predicate Permitted(p: Blocks, size: nat, op: Op) {
    match op
    case Alloc => true
    case Free(k) => k in p.out
    case Write(k, at, _) => k in p.out && at < size
  }

  ghost predicate Legal(p: Blocks, size: nat, ops: seq<Op>)
    decreases |ops|
  {
    ops == [] || (Permitted(p, size, ops[0]) && Legal(Apply(p, ops[0]), size, ops[1..]))
  }

  function Apply(p: Blocks, op: Op): (p': Blocks) {
    match op
    case Alloc => Taken(p)
    case Free(k) => Returned(p, k)
    case Write(_, _, _) => p
  }

  function Run(p: Blocks, ops: seq<Op>): (p': Blocks)
    decreases |ops|
  {
    if ops == [] then p else Run(Apply(p, ops[0]), ops[1..])
  }

  lemma ApplyKeepsPartition(p: Blocks, size: nat, op: Op, count: nat)
    requires Partition(p, count) && Permitted(p, size, op)
    ensures Partition(Apply(p, op), count)
  {
    match op
    case Alloc => TakenKeepsPartition(p, count);
    case Free(k) => ReturnedKeepsPartition(p, k, count);
    case Write(_, _, _) =>
  }

  lemma {:induction false} RunKeepsBalance(p: Blocks, size: nat, ops: seq<Op>, count: nat)
    requires Partition(p, count) && Legal(p, size, ops)
    ensures Partition(Run(p, ops), count)
    ensures |Run(p, ops).free| + |Run(p, ops).out| == count
    ensures Run(p, ops).free == [] <==> |Run(p, ops).out| == count
    decreases |ops|
  {
    if ops == [] {
      Balance(p, count);
    } else {
      ApplyKeepsPartition(p, size, ops[0], count);
      RunKeepsBalance(Apply(p, ops[0]), size, ops[1..], count);
    }
  }

  // ---- the layout of the page

  /** Distinct blocks do not overlap, and every block lies in the page. */
  lemma BlockLayout(size: nat, k: nat, j: nat)
    requires size > 0 && k < MEM_PAGE_SIZE / size
    ensures k * size + size <= MEM_PAGE_SIZE
    ensures k < j ==> k * size + size <= j * size
    ensures j < k ==> j * size + size <= k * size
  {
    MulMonotone(size, k, MEM_PAGE_SIZE / size);
    MulMonotone(size, k, j);
    MulMonotone(size, j, k);
  }

  /** Following the links from the first free block visits the free list. */
  ghost predicate Threaded(mem: seq<byte>, base: nat, size: nat, free: seq<nat>, first: nat) {
    && (free != [] ==> first == base + free[0] * size)
    && forall i | 0 <= i < |free| - 1 :: LinksTo(mem, base, size, free[i], free[i + 1])
  }

  ghost predicate LinksTo(mem: seq<byte>, base: nat, size: nat, k: nat, next: nat) {
    k * size + POINTER_SIZE <= |mem| && Load(mem, k * size) == base + next * size
  }

  /** Outside block i the two pages agree. */
  ghost predicate AgreeOutside(mem: seq<byte>, mem': seq<byte>, size: nat, i: nat) {
    && |mem'| == |mem|
    && forall j | 0 <= j < |mem| && !(i * size <= j < i * size + size) :: mem'[j] == mem[j]
  }

  lemma LinkUntouched(mem: seq<byte>, mem': seq<byte>, base: nat, size: nat, i: nat, k: nat, next: nat)
    requires POINTER_SIZE <= size && |mem| == EXTENT && k < MEM_PAGE_SIZE / size
    requires AgreeOutside(mem, mem', size, i) && k != i
    requires LinksTo(mem, base, size, k, next)
    ensures LinksTo(mem', base, size, k, next)
  {
    BlockLayout(size, k, i);
    LoadUnchanged(mem, mem', k * size);
  }

  lemma StoreInBlock(mem: seq<byte>, size: nat, i: nat, v: nat)
    requires POINTER_SIZE <= size && |mem| == EXTENT && i < MEM_PAGE_SIZE / size && v < U64
    ensures i * size + size <= MEM_PAGE_SIZE
    ensures AgreeOutside(mem, Store(mem, i * size, v), size, i)
    ensures Load(Store(mem, i * size, v), i * size) == v
  {
    BlockLayout(size, i, i);
    LoadStore(mem, i * size, v);
  }

  /** The first i blocks each link to the next one. */
  ghost predicate InLine(mem: seq<byte>, base: nat, size: nat, i: nat) {
    forall k: nat | k < i :: LinksToNext(mem, base, size, k)
  }

  ghost predicate LinksToNext(mem: seq<byte>, base: nat, size: nat, k: nat) {
    LinksTo(mem, base, size, k, k + 1)
  }

  lemma LineGrows(mem: seq<byte>, base: nat, size: nat, i: nat)
    requires POINTER_SIZE <= size && |mem| == EXTENT && i < MEM_PAGE_SIZE / size && base + MEM_PAGE_SIZE < U64
    requires InLine(mem, base, size, i)
    ensures i * size + size <= MEM_PAGE_SIZE
    ensures InLine(Store(mem, i * size, base + i * size + size), base, size, i + 1)
  {
    BlockLayout(size, i, i);
    var v := base + i * size + size;
    StoreInBlock(mem, size, i, v);
    forall k: nat | k < i + 1 ensures LinksToNext(Store(mem, i * size, v), base, size, k) {
      if k < i {
        assert LinksToNext(mem, base, size, k);
        LinkUntouched(mem, Store(mem, i * size, v), base, size, i, k, k + 1);
      } else {
        assert (i + 1) * size == i * size + size;
      }
    }
  }

  /** Writing inside an outstanding block, or a new first link into one being returned, leaves the
      threading of the free blocks alone. */
  lemma ThreadingUntouched(mem: seq<byte>, mem': seq<byte>, base: nat, size: nat, free: seq<nat>, first: nat, i: nat)
    requires POINTER_SIZE <= size && |mem| == EXTENT
    requires forall k | k in free :: k < MEM_PAGE_SIZE / size && k != i
    requires AgreeOutside(mem, mem', size, i) && Threaded(mem, base, size, free, first)
    ensures Threaded(mem', base, size, free, first)
  {
    forall j | 0 <= j < |free| - 1 ensures LinksTo(mem', base, size, free[j], free[j + 1]) {
      assert free[j] in free;
      LinkUntouched(mem, mem', base, size, i, free[j], free[j + 1]);
    }
  }

  lemma LineIsThreaded(mem: seq<byte>, base: nat, size: nat, count: nat)
    requires InLine(mem, base, size, count)
    ensures Threaded(mem, base, size, seq(count, i => i), base)
    ensures Partition(Blocks(seq(count, i => i), {}), count)
  {
    var free := seq(count, i => i);
    forall k: nat | k < count ensures k in free {
      assert free[k] == k;
    }
    forall i | 0 <= i < |free| - 1 ensures LinksTo(mem, base, size, free[i], free[i + 1]) {
      assert LinksToNext(mem, base, size, i);
    }
  }

  /** Storing the old first link into a block outside the free list puts the block at its front. */
  lemma ReturnedIsThreaded(mem: seq<byte>, base: nat, size: nat, free: seq<nat>, first: nat, k: nat)
    requires POINTER_SIZE <= size && |mem| == EXTENT && k < MEM_PAGE_SIZE / size && first < U64
    requires forall j | j in free :: j < MEM_PAGE_SIZE / size && j != k
    requires Threaded(mem, base, size, free, first)
    ensures k * size + size <= MEM_PAGE_SIZE
    ensures AgreeOutside(mem, Store(mem, k * size, first), size, k)
    ensures Threaded(Store(mem, k * size, first), base, size, [k] + free, base + k * size)
  {
    StoreInBlock(mem, size, k, first);
    var mem', free' := Store(mem, k * size, first), [k] + free;
    ThreadingUntouched(mem, mem', base, size, free, first, k);
    forall i | 0 <= i < |free'| - 1 ensures LinksTo(mem', base, size, free'[i], free'[i + 1]) {
      if i > 0 {
        assert LinksTo(mem', base, size, free[i - 1], free[i]);
      }
    }
  }

  lemma {:induction false} DecodeBound(bytes: seq<byte>)
    ensures Decode(bytes) < Pow(256, |bytes|)
  {
    if bytes != [] {
      DecodeBound(bytes[1..]);
    }
  }

  lemma LoadBound(mem: seq<byte>, at: nat)
    requires at + POINTER_SIZE <= |mem|
    ensures Load(mem, at) < U64
  {
    DecodeBound(mem[at..at + POINTER_SIZE]);
    WordValues();
  }

  lemma WordValues()
    ensures Pow(256, POINTER_SIZE) == U64
  {
    assert Pow(256, 1) == 256 && Pow(256, 2) == 0x1_0000 && Pow(256, 4) == 0x1_0000_0000;
    assert Pow(256, 6) == 0x1_0000_0000_0000;
  }

  // ---- the pool as it is in memory

  /** What the program keeps: the bytes, free_count and free_ptr. */
  datatype Image = Image(mem: seq<byte>, freeCount: nat, freePtr: nat)

  /** The pointer at `p` lies in the page. */
  predicate InPage(base: nat, p: nat) {
    base <= p && p - base + POINTER_SIZE <= MEM_PAGE_SIZE
  }

  /** One call or write as the code makes it, links read from the bytes and stored into them; None if it
      would reach outside the page. */
  function Performed(image: Image, base: nat, size: nat, op: Op): (r: Option<Image>)
    requires |image.mem| == EXTENT
    ensures r.Some? ==> |r.value.mem| == EXTENT
  {
    var Image(mem, freeCount, freePtr) := image;
    match op
    case Alloc =>
      if freeCount == 0 then Some(image)
      else if !InPage(base, freePtr) then None
      else Some(Image(mem, freeCount - 1, Load(mem, freePtr - base)))
    case Free(k) =>
      if !InPage(base, base + k * size) then None
      else Some(Image(Store(mem, k * size, freePtr), freeCount + 1, base + k * size))
    case Write(k, at, v) =>
      if k * size + at >= MEM_PAGE_SIZE then None
      else Some(image.(mem := mem[k * size + at := v]))
  }

  function Served(image: Image, base: nat, size: nat, ops: seq<Op>): (r: Option<Image>)
    requires |image.mem| == EXTENT
    ensures r.Some? ==> |r.value.mem| == EXTENT
    decreases |ops|
  {
    if ops == [] then Some(image)
    else
      match Performed(image, base, size, ops[0])
      case None => None
      case Some(next) => Served(next, base, size, ops[1..])
  }

  /** The page at `base`, cut into blocks of `size` bytes, holds the pool `p`. */
  ghost predicate Represents(image: Image, base: nat, size: nat, p: Blocks) {
    && 16 <= size && |image.mem| == EXTENT && base + MEM_PAGE_SIZE < U64
    && Partition(p, MEM_PAGE_SIZE / size)
    && image.freeCount == |p.free| && image.freePtr < U64
    && Threaded(image.mem, base, size, p.free, image.freePtr)
  }

  lemma AllocRepresents(image: Image, base: nat, size: nat, p: Blocks)
    requires Represents(image, base, size, p)
    ensures var r := Performed(image, base, size, Alloc);
            r.Some? && Represents(r.value, base, size, Taken(p)) && r.value.mem == image.mem
  {
    TakenKeepsPartition(p, MEM_PAGE_SIZE / size);
    if p.free != [] {
      assert p.free[0] in p.free;
      BlockLayout(size, p.free[0], p.free[0]);
      LoadBound(image.mem, image.freePtr - base);
      assert |p.free| > 1 ==> LinksTo(image.mem, base, size, p.free[0], p.free[1]);
      forall i | 0 <= i < |p.free[1..]| - 1 ensures LinksTo(image.mem, base, size, p.free[1..][i], p.free[1..][i + 1]) {
        assert LinksTo(image.mem, base, size, p.free[i + 1], p.free[i + 2]);
      }
    }
  }

  lemma FreeRepresents(image: Image, base: nat, size: nat, p: Blocks, k: nat)
    requires Represents(image, base, size, p) && k in p.out
    ensures var r := Performed(image, base, size, Free(k));
            && r.Some? && Represents(r.value, base, size, Returned(p, k))
            && AgreeOutside(image.mem, r.value.mem, size, k)
  {
    ReturnedKeepsPartition(p, k, MEM_PAGE_SIZE / size);
    ReturnedIsThreaded(image.mem, base, size, p.free, image.freePtr, k);
  }

  lemma WriteRepresents(image: Image, base: nat, size: nat, p: Blocks, k: nat, at: nat, v: byte)
    requires Represents(image, base, size, p) && k in p.out && at < size
    ensures var r := Performed(image, base, size, Write(k, at, v));
            && r.Some? && Represents(r.value, base, size, p)
            && AgreeOutside(image.mem, r.value.mem, size, k)
  {
    BlockLayout(size, k, k);
    ThreadingUntouched(image.mem, image.mem[k * size + at := v], base, size, p.free, image.freePtr, k);
  }

  lemma OpRepresents(image: Image, base: nat, size: nat, p: Blocks, op: Op)
    requires Represents(image, base, size, p) && Permitted(p, size, op)
    ensures var r := Performed(image, base, size, op);
            && r.Some? && Represents(r.value, base, size, Apply(p, op))
            && r.value.mem[MEM_PAGE_SIZE..] == image.mem[MEM_PAGE_SIZE..]
  {
    match op
    case Alloc => AllocRepresents(image, base, size, p);
    case Free(k) =>
      FreeRepresents(image, base, size, p, k);
      BlockLayout(size, k, k);
    case Write(k, at, v) =>
      WriteRepresents(image, base, size, p, k, at, v);
      BlockLayout(size, k, k);
  }

  /** What one byte holds after a call or a write. */
  function WrittenBy(v: byte, op: Op, k: nat, at: nat): (w: byte) {
    if op.Write? && op.k == k && op.at == at then op.v else v
  }

  lemma OpOnByte(image: Image, base: nat, size: nat, p: Blocks, op: Op, k: nat, at: nat)
    requires Represents(image, base, size, p) && Permitted(p, size, op)
    requires k in p.out && at < size && op != Free(k)
    ensures k * size + at < EXTENT && Performed(image, base, size, op).Some?
    ensures Performed(image, base, size, op).value.mem[k * size + at] == WrittenBy(image.mem[k * size + at], op, k, at)
  {
    BlockLayout(size, k, k);
    OpRepresents(image, base, size, p, op);
    match op
    case Alloc =>
    case Free(i) =>
      FreeRepresents(image, base, size, p, i);
      BlockLayout(size, k, i);
    case Write(i, _, _) =>
      BlockLayout(size, k, i);
  }

  /** Served from its own bytes, calls and writes in any legal order, the pool does what the list of free
      blocks does: the threading is never broken, no access leaves the page, and nothing after the page
      changes. */
  lemma {:induction false} RunRefines(image: Image, base: nat, size: nat, p: Blocks, ops: seq<Op>)
    requires Represents(image, base, size, p) && Legal(p, size, ops)
    ensures var r := Served(image, base, size, ops);
            && r.Some? && Represents(r.value, base, size, Run(p, ops))
            && r.value.mem[MEM_PAGE_SIZE..] == image.mem[MEM_PAGE_SIZE..]
    decreases |ops|
  {
    if ops != [] {
      OpRepresents(image, base, size, p, ops[0]);
      RunRefines(Performed(image, base, size, ops[0]).value, base, size, Apply(p, ops[0]), ops[1..]);
    }
  }

  /** What a byte holds after the writes made to it. */
  function LastWritten(v: byte, ops: seq<Op>, k: nat, at: nat): (w: byte)
    decreases |ops|
  {
    if ops == [] then v else LastWritten(WrittenBy(v, ops[0], k, at), ops[1..], k, at)
  }

  /** As long as a client holds a block it reads back what it last wrote there, whatever is allocated,
      returned and written elsewhere meanwhile. */
  lemma {:induction false} HolderReadsItsWrites(image: Image, base: nat, size: nat, p: Blocks, ops: seq<Op>, k: nat, at: nat)
    requires Represents(image, base, size, p) && Legal(p, size, ops)
    requires k in p.out && at < size && Free(k) !in ops
    ensures k in Run(p, ops).out && k * size + at < EXTENT && Served(image, base, size, ops).Some?
    ensures Served(image, base, size, ops).value.mem[k * size + at] == LastWritten(image.mem[k * size + at], ops, k, at)
    decreases |ops|
  {
    BlockLayout(size, k, k);
    if ops != [] {
      assert ops[0] in ops;
      OpRepresents(image, base, size, p, ops[0]);
      OpOnByte(image, base, size, p, ops[0], k, at);
      HolderReadsItsWrites(Performed(image, base, size, ops[0]).value, base, size, Apply(p, ops[0]), ops[1..], k, at);
    }
  }

  // ---- the terminator

  lemma {:induction false} ZeroBytes(size: nat, i: nat)
    requires i < size
    ensures Encode(0, size)[i] == 0
  {
    if i > 0 {
      ZeroBytes(size - 1, i - 1);
    }
  }

  /** The bytes after the page that the null after the last block falls on. */
  predicate Spilled(size: nat, i: nat)
    requires size > 0
  {
    MEM_PAGE_SIZE <= i < MEM_PAGE_SIZE / size * size + POINTER_SIZE
  }

  lemma TerminatedBytes(mem: seq<byte>, size: nat, i: nat)
    requires |mem| == EXTENT && 0 < size && MEM_PAGE_SIZE <= i < EXTENT
    ensures MEM_PAGE_SIZE / size * size <= MEM_PAGE_SIZE
    ensures Store(mem, MEM_PAGE_SIZE / size * size, 0)[i] == if Spilled(size, i) then 0 else mem[i]
  {
    var at := MEM_PAGE_SIZE / size * size;
    assert at <= MEM_PAGE_SIZE;
    if Spilled(size, i) {
      ZeroBytes(POINTER_SIZE, i - at);
    }
  }

  /** The terminator leaves alone what follows the page if and only if the page has eight bytes left for it
      after the last block, or the bytes it falls on are zero already. */
  lemma TerminatorStaysIff(mem: seq<byte>, size: nat)
    requires |mem| == EXTENT && 0 < size
    ensures MEM_PAGE_SIZE / size * size <= MEM_PAGE_SIZE
    ensures Store(mem, MEM_PAGE_SIZE / size * size, 0)[MEM_PAGE_SIZE..] == mem[MEM_PAGE_SIZE..] <==>
            MEM_PAGE_SIZE % size >= POINTER_SIZE || forall i | 0 <= i < |mem| && Spilled(size, i) :: mem[i] == 0
  {
    var at := MEM_PAGE_SIZE / size * size;
    var mem' := Store(mem, at, 0);
    forall i | MEM_PAGE_SIZE <= i < EXTENT
      ensures mem'[i] == if Spilled(size, i) then 0 else mem[i]
      ensures mem'[MEM_PAGE_SIZE..][i - MEM_PAGE_SIZE] == mem'[i] && mem[MEM_PAGE_SIZE..][i - MEM_PAGE_SIZE] == mem[i]
    {
      TerminatedBytes(mem, size, i);
    }
  }

  /** The failing side, at the block size the program asks for: the first byte after the page is lost. */
  lemma BlocksOf32Spill(mem: seq<byte>)
    requires |mem| == EXTENT && mem[MEM_PAGE_SIZE] != 0
    ensures MEM_PAGE_SIZE / 32 == 128
    ensures Store(mem, MEM_PAGE_SIZE / 32 * 32, 0)[MEM_PAGE_SIZE..] != mem[MEM_PAGE_SIZE..]
  {
    TerminatorStaysIff(mem, 32);
    assert Spilled(32, MEM_PAGE_SIZE);
  }

  lemma TerminatorKeepsLine(mem: seq<byte>, base: nat, size: nat)
    requires POINTER_SIZE <= size && |mem| == EXTENT
    requires InLine(mem, base, size, MEM_PAGE_SIZE / size)
    ensures MEM_PAGE_SIZE / size * size <= MEM_PAGE_SIZE
    ensures InLine(Store(mem, MEM_PAGE_SIZE / size * size, 0), base, size, MEM_PAGE_SIZE / size)
  {
    var count := MEM_PAGE_SIZE / size;
    var mem' := Store(mem, count * size, 0);
    assert AgreeOutside(mem, mem', size, count);
    forall k: nat | k < count ensures LinksToNext(mem', base, size, k) {
      assert LinksToNext(mem, base, size, k);
      LinkUntouched(mem, mem', base, size, count, k, k + 1);
    }
  }

  // ---- the object

  class MemPool {
    var blockSize: nat
    var freeCount: nat
    var freePtr: nat
    var mem: array?<byte>
    var memAddress: nat
    ghost var blocks: Blocks

    ghost function View(): (image: Image)
      requires mem != null
      reads this, mem
    {
      Image(mem[..], freeCount, freePtr)
    }

    ghost predicate Valid()
      reads this, mem
    {
      mem != null && 0 < memAddress && Represents(View(), memAddress, blockSize, blocks)
    }

    /** The address of a block, as the client sees it. */
    ghost function Address(k: nat): nat
      reads this
    {
      memAddress + k * blockSize
    }

    /** `page` and `address` are what malloc returned, with the bytes after the page; a null page is its
        failure. */
    method Init(size: int, page: array?<byte>, address: nat) returns (r: int)
      requires page != null ==> page.Length == EXTENT && 0 < address && address + MEM_PAGE_SIZE < U64
      modifies this, page
      ensures r == if page == null then -1 else 0
      ensures page != null ==>
        && Valid() && mem == page && memAddress == address
        && blockSize == (if size < 16 then 16 else size)
        && blocks == Blocks(seq(MEM_PAGE_SIZE / blockSize, i => i), {})
        && (page[MEM_PAGE_SIZE..] == old(page[MEM_PAGE_SIZE..]) <==>
            || MEM_PAGE_SIZE % blockSize >= POINTER_SIZE
            || forall i | 0 <= i < page.Length && Spilled(blockSize, i) :: old(page[i]) == 0)
    {
      var atLeast := if size < 16 then 16 else size;
      blockSize := atLeast;
      mem := page;
      if page == null {
        return -1;
      }
      memAddress := address;
      freePtr := address;
      freeCount := MEM_PAGE_SIZE / atLeast;
      blocks := Blocks(seq(freeCount, i => i), {});
      ThreadPage(page, address, atLeast, freeCount);
      TerminatorStaysIff(page[..], atLeast);
      Terminate(page, address, atLeast, freeCount);
      LineIsThreaded(mem[..], address, atLeast, freeCount);
      r := 0;
    }

    /** NULL, here 0, exactly when every block is out; otherwise the first free block. */
    method Alloc() returns (p: nat)
      requires Valid()
      modifies this`freePtr, this`freeCount, this`blocks
      ensures Valid()
      ensures blocks == Taken(old(blocks))
      ensures Performed(old(View()), memAddress, blockSize, Op.Alloc) == Some(View())
      ensures p == 0 <==> |old(blocks).out| == MEM_PAGE_SIZE / blockSize
      ensures p != 0 ==> old(blocks).free != [] && p == Address(old(blocks).free[0])
    {
      Balance(blocks, MEM_PAGE_SIZE / blockSize);
      AllocRepresents(View(), memAddress, blockSize, blocks);
      if freeCount == 0 {
        return 0;
      }
      p := freePtr;
      freePtr := Load(mem[..], p - memAddress);
      freeCount := freeCount - 1;
      blocks := Taken(blocks);
    }

    /** `p` is a block the client holds; it becomes the first to be handed out again. */
    method Free(p: nat, ghost k: nat)
      requires Valid() && k in blocks.out && p == Address(k)
      modifies this`freePtr, this`freeCount, this`blocks, mem
      ensures Valid()
      ensures blocks == Returned(old(blocks), k)
      ensures Performed(old(View()), memAddress, blockSize, Op.Free(k)) == Some(View())
      ensures AgreeOutside(old(mem[..]), mem[..], blockSize, k)
    {
      FreeRepresents(View(), memAddress, blockSize, blocks, k);
      StorePtr(mem, p - memAddress, freePtr);
      freePtr := p;
      freeCount := freeCount + 1;
      blocks := Returned(blocks, k);
    }

    /** A client may write any byte of a block it holds. */
    method Write(ghost k: nat, p: nat, v: byte)
      requires Valid() && k in blocks.out && Address(k) <= p < Address(k) + blockSize
      modifies mem
      ensures Valid() && blocks == old(blocks)
      ensures Performed(old(View()), memAddress, blockSize, Op.Write(k, p - Address(k), v)) == Some(View())
      ensures AgreeOutside(old(mem[..]), mem[..], blockSize, k)
      ensures p - memAddress < mem.Length && mem[p - memAddress] == v
    {
      WriteRepresents(View(), memAddress, blockSize, blocks, k, p - Address(k), v);
      mem[p - memAddress] := v;
    }
  }

  /** mp_init's loop: each block's first word gets the address of the next block. */
  method ThreadPage(page: array<byte>, address: nat, size: nat, count: nat)
    requires page.Length == EXTENT && address + MEM_PAGE_SIZE < U64
    requires 16 <= size && count == MEM_PAGE_SIZE / size
    modifies page
    ensures InLine(page[..], address, size, count)
    ensures page[MEM_PAGE_SIZE..] == old(page[MEM_PAGE_SIZE..])
  {
    var ptr := address;
    for i := 0 to count
      invariant ptr == address + i * size
      invariant InLine(page[..], address, size, i)
      invariant page[MEM_PAGE_SIZE..] == old(page[MEM_PAGE_SIZE..])
    {
      BlockLayout(size, i, i);
      LineGrows(page[..], address, size, i);
      StorePtr(page, ptr - address, ptr + size);
      ptr := ptr + size;
    }
  }

  /** The null stored after the last block, in the page or not. */
  method Terminate(page: array<byte>, address: nat, size: nat, count: nat)
    requires page.Length == EXTENT && 16 <= size && count == MEM_PAGE_SIZE / size
    requires InLine(page[..], address, size, count)
    modifies page
    ensures InLine(page[..], address, size, count)
    ensures count * size <= MEM_PAGE_SIZE && page[..] == Store(old(page[..]), count * size, 0)
  {
    TerminatorKeepsLine(page[..], address, size);
    StorePtr(page, count * size, 0);
  }

  /** `*(char **)(page + at) = v`. */
  method StorePtr(page: array<byte>, at: nat, v: nat)
    requires at + POINTER_SIZE <= page.Length
    modifies page
    ensures page[..] == Store(old(page[..]), at, v)
  {
    var bytes := Encode(v, POINTER_SIZE);
    ghost var before := page[..];
    for i := 0 to POINTER_SIZE
      invariant page[..at] == before[..at] && page[at + i..] == before[at + i..]
      invariant page[at..at + i] == bytes[..i]
    {
      page[at + i] := bytes[i];
    }
    assert page[..] == page[..at] + page[at..at + POINTER_SIZE] + page[at + POINTER_SIZE..];
  }
}
