/** The fixed region allocator: tail first, then the first gap that fits. */
module FixedRegion {
  import opened Modular

  /** A live allocation. `align` records what was asked for; the allocator does not keep it. */
  datatype Chunk = Chunk(start: nat, size: nat, align: nat) {
    function End(): nat {
      start + size
    }
  }

  /** Size of the padding that brings an address to a multiple of `align`. */
  function Padding(x: nat, align: nat): nat
    requires 0 < align
  {
    if Mod(x, align) > 0 then align - Mod(x, align) else 0
  }

  function AlignUp(x: nat, align: nat): nat
    requires 0 < align
  {
    x + Padding(x, align)
  }

  /** Padding gives the least aligned address that is not below x. */
  lemma {:induction false} AlignUpIsLeast(x: nat, align: nat, a: nat)
    requires 0 < align
    ensures x <= AlignUp(x, align) && Mod(AlignUp(x, align), align) == 0
    ensures x <= a && Mod(a, align) == 0 ==> AlignUp(x, align) <= a
    decreases x
  {
    if align <= x {
      AlignUpIsLeast(x - align, align, if align <= a then a - align else 0);
    } else {
      assert Mod(0, align) == 0;
    }
  }

  /** The region's fields. `Allocations`, a map ordered by address, is the list of chunks in
      address order. */
  datatype Region = Region(start: nat, size: nat, freeSpaceStart: nat, chunks: seq<Chunk>) {
    /** Address of the region's last byte. */
    function End(): int {
      start + size - 1
    }

    /** The region as constructed. */
    static function New(start: nat, size: nat): Region {
      Region(start, size, start, [])
    }
  }

  ghost predicate ChunkOk(c: Chunk, low: nat, high: nat) {
    low <= c.start && 0 < c.size && c.End() <= high && 0 < c.align && Mod(c.start, c.align) == 0
  }

  /** In address order and pairwise disjoint. */
  ghost predicate Ordered(chunks: seq<Chunk>) {
    forall i, j :: 0 <= i < j < |chunks| ==> chunks[i].End() <= chunks[j].start
  }

  /** Live chunks are nonempty, aligned, disjoint and below the free space; the last byte of the
      region is never used. */
  ghost predicate Valid(r: Region) {
    && 0 < r.start <= r.freeSpaceStart <= r.start + r.size && 0 < r.size
    && (r.chunks != [] ==> r.freeSpaceStart <= r.End())
    && (forall c :: c in r.chunks ==> ChunkOk(c, r.start, r.freeSpaceStart))
    && Ordered(r.chunks)
  }

  /** Where the tail starts, as recomputed on every call. */
  function TailStart(r: Region): nat {
    if r.chunks == [] then r.freeSpaceStart else r.chunks[|r.chunks| - 1].End()
  }

  predicate TailFits(r: Region, size: nat, align: nat)
    requires 0 < align
  {
    AlignUp(TailStart(r), align) + size <= r.End()
  }

  predicate GapFits(r: Region, i: nat, size: nat, align: nat)
    requires 0 < align && i + 1 < |r.chunks|
  {
    AlignUp(r.chunks[i].End(), align) + size <= r.chunks[i + 1].start
  }

  /** Position of the first gap from i on that fits, or the number of gaps. */
  function FirstGap(r: Region, i: nat, size: nat, align: nat): (g: nat)
    requires 0 < align && i < |r.chunks|
    ensures i <= g < |r.chunks|
    ensures g + 1 < |r.chunks| ==> GapFits(r, g, size, align)
    ensures forall h :: i <= h < g ==> !GapFits(r, h, size, align)
    decreases |r.chunks| - i
  {
    if i + 1 < |r.chunks| && !GapFits(r, i, size, align) then FirstGap(r, i + 1, size, align) else i
  }

  /** `allocate`: the new region and the address, 0 for the failure that ends in `abort`. */
  function AllocateIn(r: Region, size: nat, align: nat): (Region, nat)
    requires 0 < align
  {
    var tail := TailStart(r);
    if TailFits(r, size, align) then
      var a := AlignUp(tail, align);
      (r.(freeSpaceStart := a + size, chunks := r.chunks + [Chunk(a, size, align)]), a)
    else if r.chunks == [] then (r, 0)
    else
      var g := FirstGap(r, 0, size, align);
      var r' := r.(freeSpaceStart := tail);
      if g + 1 < |r.chunks| then
        var a := AlignUp(r.chunks[g].End(), align);
        (r'.(chunks := r.chunks[..g + 1] + [Chunk(a, size, align)] + r.chunks[g + 1..]), a)
      else (r', 0)
  }

  /** Position of the chunk that starts at p, or the number of chunks. */
  function Find(chunks: seq<Chunk>, p: nat): (i: nat)
    ensures i <= |chunks|
    ensures i < |chunks| ==> chunks[i].start == p
    ensures i == |chunks| ==> forall j :: 0 <= j < |chunks| ==> chunks[j].start != p
  {
    if chunks == [] then 0
    else if chunks[0].start == p then 0
    else Find(chunks[1..], p) + 1
  }

  predicate Live(r: Region, p: nat) {
    exists i :: 0 <= i < |r.chunks| && r.chunks[i].start == p
  }

  /** `free`: erases the chunk at p, if there is one. */
  function FreeIn(r: Region, p: nat): Region {
    var i := Find(r.chunks, p);
    if i < |r.chunks| then r.(chunks := r.chunks[..i] + r.chunks[i + 1..]) else r
  }

  // The allocator is exact.

  /** An aligned block at a lies in the tail or between two neighbouring chunks. */
  ghost predicate Fits(r: Region, a: nat, size: nat, align: nat)
    requires 0 < align
  {
    && Mod(a, align) == 0
    && ((TailStart(r) <= a && a + size <= r.End()) || InGap(r, a, size))
  }

  ghost predicate InGap(r: Region, a: nat, size: nat) {
    exists i :: 0 <= i < |r.chunks| && Between(r, i, a, size)
  }

  ghost predicate Between(r: Region, i: nat, a: nat, size: nat)
    requires i < |r.chunks|
  {
    i + 1 < |r.chunks| && r.chunks[i].End() <= a && a + size <= r.chunks[i + 1].start
  }

  /** Failure is exact: allocate fails if and only if no aligned block fits in the tail or in a gap
      between neighbouring chunks. */
  lemma {:induction false} FailureIsExact(r: Region, size: nat, align: nat)
    requires Valid(r) && 0 < size && 0 < align
    ensures AllocateIn(r, size, align).1 == 0 <==> forall a :: !Fits(r, a, size, align)
  {
    var tail, got := TailStart(r), AllocateIn(r, size, align).1;
    AlignUpIsLeast(tail, align, 0);
    TailAboveChunks(r);
    if TailFits(r, size, align) {
      assert Fits(r, got, size, align);
    } else if r.chunks != [] && FirstGap(r, 0, size, align) + 1 < |r.chunks| {
      var g := FirstGap(r, 0, size, align);
      AlignUpIsLeast(r.chunks[g].End(), align, 0);
      assert r.chunks[g] in r.chunks;
      assert Between(r, g, got, size) && Fits(r, got, size, align);
    } else {
      forall a: nat | Mod(a, align) == 0 ensures !Fits(r, a, size, align) {
        AlignUpIsLeast(tail, align, a);
        forall i | 0 <= i < |r.chunks| ensures !Between(r, i, a, size) {
          AlignUpIsLeast(r.chunks[i].End(), align, a);
          assert i + 1 < |r.chunks| ==> !GapFits(r, i, size, align);
        }
      }
    }
  }

  /** Placement: the least aligned address of the tail if the tail fits; otherwise the least aligned
      address that fits any gap. */
  lemma {:induction false} PlacementIsFirstFit(r: Region, size: nat, align: nat)
    requires Valid(r) && 0 < size && 0 < align && AllocateIn(r, size, align).1 != 0
    ensures var got := AllocateIn(r, size, align).1;
            && Fits(r, got, size, align)
            && (TailFits(r, size, align) ==>
                  TailStart(r) <= got && forall a :: TailStart(r) <= a && Mod(a, align) == 0 ==> got <= a)
            && (!TailFits(r, size, align) ==>
                  InGap(r, got, size) && forall a :: Mod(a, align) == 0 && InGap(r, a, size) ==> got <= a)
  {
    var tail, got := TailStart(r), AllocateIn(r, size, align).1;
    AlignUpIsLeast(tail, align, 0);
    if TailFits(r, size, align) {
      forall a | tail <= a && Mod(a, align) == 0 ensures got <= a {
        AlignUpIsLeast(tail, align, a);
      }
    } else {
      FirstGapIsLeast(r, FirstGap(r, 0, size, align), size, align);
    }
  }

  lemma FirstGapIsLeast(r: Region, g: nat, size: nat, align: nat)
    requires Valid(r) && 0 < size && 0 < align && g + 1 < |r.chunks| && GapFits(r, g, size, align)
    requires forall h :: 0 <= h < g ==> !GapFits(r, h, size, align)
    ensures var got := AlignUp(r.chunks[g].End(), align);
            && Mod(got, align) == 0 && InGap(r, got, size)
            && forall a :: Mod(a, align) == 0 && InGap(r, a, size) ==> got <= a
  {
    var got := AlignUp(r.chunks[g].End(), align);
    AlignUpIsLeast(r.chunks[g].End(), align, 0);
    assert Between(r, g, got, size);
    forall a: nat | Mod(a, align) == 0 && InGap(r, a, size) ensures got <= a {
      var i :| 0 <= i < |r.chunks| && Between(r, i, a, size);
      GapIsLeast(r, g, i, a, size, align);
    }
  }

  lemma GapIsLeast(r: Region, g: nat, i: nat, a: nat, size: nat, align: nat)
    requires Valid(r) && 0 < size && 0 < align && g + 1 < |r.chunks| && i + 1 < |r.chunks|
    requires forall h :: 0 <= h < g ==> !GapFits(r, h, size, align)
    requires Mod(a, align) == 0 && Between(r, i, a, size)
    ensures AlignUp(r.chunks[g].End(), align) <= a
  {
    AlignUpIsLeast(r.chunks[i].End(), align, a);
    assert GapFits(r, i, size, align);
    AlignUpIsLeast(r.chunks[g].End(), align, a);
    assert i > g ==> r.chunks[g].End() <= r.chunks[i].start;
  }

  // The allocator is safe.

  /** Allocating keeps the region valid, adds exactly the returned block and keeps all others. Afterwards,
      granted or not, the free space starts behind the last chunk. */
  lemma {:induction false} AllocateKeepsValid(r: Region, size: nat, align: nat)
    requires Valid(r) && 0 < size && 0 < align
    ensures var (r', a) := AllocateIn(r, size, align);
            && Valid(r') && r'.start == r.start && r'.size == r.size
            && (a == 0 ==> r'.chunks == r.chunks)
            && r'.freeSpaceStart == (if r'.chunks == [] then r.freeSpaceStart else r'.chunks[|r'.chunks| - 1].End())
            && (a != 0 ==> !Live(r, a) && forall c :: c in r'.chunks <==> c in r.chunks || c == Chunk(a, size, align))
  {
    if TailFits(r, size, align) {
      TailKeepsValid(r, size, align);
    } else if r.chunks != [] {
      TailAboveChunks(r);
      var g := FirstGap(r, 0, size, align);
      if g + 1 < |r.chunks| {
        GapKeepsValid(r, g, size, align);
      }
    }
  }

  lemma TailKeepsValid(r: Region, size: nat, align: nat)
    requires Valid(r) && 0 < size && 0 < align && TailFits(r, size, align)
    ensures var c := Chunk(AlignUp(TailStart(r), align), size, align);
            && 0 < c.start && !Live(r, c.start)
            && Valid(r.(freeSpaceStart := c.End(), chunks := r.chunks + [c]))
  {
    var c := Chunk(AlignUp(TailStart(r), align), size, align);
    AlignUpIsLeast(TailStart(r), align, 0);
    TailAboveChunks(r);
    AppendOrdered(r.chunks, c);
    assert forall i :: 0 <= i < |r.chunks| ==> r.chunks[i] in r.chunks;
  }

  lemma GapKeepsValid(r: Region, g: nat, size: nat, align: nat)
    requires Valid(r) && 0 < size && 0 < align && g + 1 < |r.chunks| && GapFits(r, g, size, align)
    ensures var c := Chunk(AlignUp(r.chunks[g].End(), align), size, align);
            var chunks' := r.chunks[..g + 1] + [c] + r.chunks[g + 1..];
            && 0 < c.start && !Live(r, c.start)
            && Valid(r.(freeSpaceStart := TailStart(r), chunks := chunks'))
            && forall d :: d in chunks' <==> d in r.chunks || d == c
  {
    AlignUpIsLeast(r.chunks[g].End(), align, 0);
    TailAboveChunks(r);
    var c := Chunk(AlignUp(r.chunks[g].End(), align), size, align);
    InsertOrdered(r.chunks, g, c);
    assert r.chunks[g] in r.chunks && r.chunks[g + 1] in r.chunks;
    forall i | 0 <= i < |r.chunks| ensures r.chunks[i].start != c.start {
      assert r.chunks[i] in r.chunks;
    }
  }

  lemma TailAboveChunks(r: Region)
    requires Valid(r)
    ensures r.start <= TailStart(r) <= r.freeSpaceStart
    ensures forall c :: c in r.chunks ==> c.End() <= TailStart(r)
  {
    if r.chunks != [] {
      var last := r.chunks[|r.chunks| - 1];
      assert last in r.chunks;
      forall c | c in r.chunks ensures c.End() <= TailStart(r) {
        var i :| 0 <= i < |r.chunks| && r.chunks[i] == c;
      }
    }
  }

  lemma AppendOrdered(chunks: seq<Chunk>, c: Chunk)
    requires Ordered(chunks) && forall d :: d in chunks ==> d.End() <= c.start
    ensures Ordered(chunks + [c])
  {
    assert forall i :: 0 <= i < |chunks| ==> chunks[i] in chunks;
  }

  lemma InsertOrdered(chunks: seq<Chunk>, g: nat, c: Chunk)
    requires Ordered(chunks) && g + 1 < |chunks|
    requires chunks[g].End() <= c.start && 0 < c.size && c.End() <= chunks[g + 1].start
    requires forall d :: d in chunks ==> 0 < d.size
    ensures var longer := chunks[..g + 1] + [c] + chunks[g + 1..];
            Ordered(longer) && forall d :: d in longer <==> d in chunks || d == c
    ensures forall d :: d in chunks ==> d.start != c.start
  {
    var low, high := chunks[..g + 1], chunks[g + 1..];
    assert chunks == low + high;
    AroundGap(chunks, g);
    AppendOrdered(low, c);
    JoinOrdered(low + [c], high);
  }

  lemma AroundGap(chunks: seq<Chunk>, g: nat)
    requires Ordered(chunks) && g + 1 < |chunks| && forall d :: d in chunks ==> 0 < d.size
    ensures forall d :: d in chunks[..g + 1] ==> d.End() <= chunks[g].End() && 0 < d.size
    ensures forall d :: d in chunks[g + 1..] ==> chunks[g + 1].start <= d.start
  {
    forall d | d in chunks[..g + 1] ensures d.End() <= chunks[g].End() && 0 < d.size {
      var i :| 0 <= i <= g && chunks[i] == d;
      assert chunks[g] in chunks && d in chunks;
    }
    forall d | d in chunks[g + 1..] ensures chunks[g + 1].start <= d.start {
      var i :| g + 1 <= i < |chunks| && chunks[i] == d;
      assert chunks[g + 1] in chunks;
    }
  }

  lemma JoinOrdered(a: seq<Chunk>, b: seq<Chunk>)
    requires Ordered(a) && Ordered(b)
    requires forall c, d :: c in a && d in b ==> c.End() <= d.start
    ensures Ordered(a + b)
  {
    var both := a + b;
    forall i, j | 0 <= i < j < |both| ensures both[i].End() <= both[j].start {
      if i < |a| <= j {
        assert a[i] in a && b[j - |a|] in b;
      }
    }
  }

  /** Freeing keeps the region valid and removes exactly the block at p, if there is one. It does not move
      the start of the free space. */
  lemma {:induction false} FreeKeepsValid(r: Region, p: nat)
    requires Valid(r)
    ensures var r' := FreeIn(r, p);
            && Valid(r') && r'.start == r.start && r'.size == r.size && !Live(r', p)
            && r'.freeSpaceStart == r.freeSpaceStart
            && (!Live(r, p) ==> r' == r)
            && forall c :: c in r'.chunks <==> c in r.chunks && c.start != p
  {
    var i := Find(r.chunks, p);
    if i < |r.chunks| {
      RemoveOrdered(r.chunks, i);
    }
  }

  lemma RemoveOrdered(chunks: seq<Chunk>, i: nat)
    requires Ordered(chunks) && i < |chunks| && forall c :: c in chunks ==> 0 < c.size
    ensures var rest := chunks[..i] + chunks[i + 1..];
            Ordered(rest) && forall c :: c in rest <==> c in chunks && c.start != chunks[i].start
  {
    var low, high := chunks[..i], chunks[i + 1..];
    var here := chunks[i];
    assert here in chunks;
    assert chunks == low + [here] + high;
    AroundChunk(chunks, i);
    JoinOrdered(low, high);
  }

  lemma AroundChunk(chunks: seq<Chunk>, i: nat)
    requires Ordered(chunks) && i < |chunks|
    ensures forall c :: c in chunks[..i] ==> c in chunks && c.End() <= chunks[i].start
    ensures forall c :: c in chunks[i + 1..] ==> c in chunks && chunks[i].End() <= c.start
  {
    forall c | c in chunks[..i] ensures c in chunks && c.End() <= chunks[i].start {
      var j :| 0 <= j < i && chunks[j] == c;
    }
    forall c | c in chunks[i + 1..] ensures c in chunks && chunks[i].End() <= c.start {
      var j :| i < j < |chunks| && chunks[j] == c;
    }
  }

  lemma {:induction false} FindInserted(low: seq<Chunk>, c: Chunk, high: seq<Chunk>)
    requires forall d :: d in low ==> d.start != c.start
    ensures Find(low + [c] + high, c.start) == |low|
  {
    if low != [] {
      FindInserted(low[1..], c, high);
      assert (low + [c] + high)[1..] == low[1..] + [c] + high;
    }
  }

  lemma RemoveInserted(r: Region, low: seq<Chunk>, c: Chunk, high: seq<Chunk>)
    requires r.chunks == low + [c] + high && forall d :: d in low ==> d.start != c.start
    ensures FreeIn(r, c.start).chunks == low + high
  {
    FindInserted(low, c, high);
    assert r.chunks[..|low|] == low && r.chunks[|low| + 1..] == high;
  }

  /** Freeing what was just allocated gives back exactly the previous live chunks. */
  lemma {:induction false} FreeUndoesAllocate(r: Region, size: nat, align: nat)
    requires Valid(r) && 0 < size && 0 < align && AllocateIn(r, size, align).1 != 0
    ensures var (r', a) := AllocateIn(r, size, align); FreeIn(r', a).chunks == r.chunks
  {
    var (r', a) := AllocateIn(r, size, align);
    assert !Live(r, a) by {
      AllocateKeepsValid(r, size, align);
    }
    var at := if TailFits(r, size, align) then |r.chunks| else FirstGap(r, 0, size, align) + 1;
    var low, high, c := r.chunks[..at], r.chunks[at..], Chunk(a, size, align);
    assert r'.chunks == low + [c] + high;
    assert r.chunks == low + high;
    forall d | d in low ensures d.start != a {
      var i :| 0 <= i < at && r.chunks[i] == d;
      assert Live(r, d.start);
    }
    RemoveInserted(r', low, c, high);
  }

  ghost function TotalSize(chunks: seq<Chunk>): nat {
    if chunks == [] then 0 else TotalSize(chunks[..|chunks| - 1]) + chunks[|chunks| - 1].size
  }

  lemma {:induction false} TotalWithin(chunks: seq<Chunk>, low: nat)
    requires forall i :: 0 <= i < |chunks| ==> low <= chunks[i].start
    requires forall i, j :: 0 <= i < j < |chunks| ==> chunks[i].End() <= chunks[j].start
    ensures chunks == [] ==> TotalSize(chunks) == 0
    ensures chunks != [] ==> low + TotalSize(chunks) <= chunks[|chunks| - 1].End()
    decreases |chunks|
  {
    if chunks != [] {
      TotalWithin(chunks[..|chunks| - 1], low);
    }
  }

  datatype Op = Alloc(size: nat, align: nat) | Release(p: nat)

  predicate Legal(op: Op) {
    op.Alloc? ==> 0 < op.size && 0 < op.align
  }

  function Apply(r: Region, op: Op): Region
    requires Legal(op)
  {
    match op
    case Alloc(size, align) => AllocateIn(r, size, align).0
    case Release(p) => FreeIn(r, p)
  }

  function Replay(r: Region, ops: seq<Op>): Region
    requires forall i :: 0 <= i < |ops| ==> Legal(ops[i])
    decreases |ops|
  {
    if ops == [] then r else Apply(Replay(r, ops[..|ops| - 1]), ops[|ops| - 1])
  }

  lemma {:induction false} ReplayValid(start: nat, size: nat, ops: seq<Op>)
    requires 0 < start && 0 < size && forall i :: 0 <= i < |ops| ==> Legal(ops[i])
    ensures var r := Replay(Region.New(start, size), ops); Valid(r) && r.start == start && r.size == size
    decreases |ops|
  {
    if ops != [] {
      ReplayValid(start, size, ops[..|ops| - 1]);
      var r := Replay(Region.New(start, size), ops[..|ops| - 1]);
      match ops[|ops| - 1]
      case Alloc(s, a) => AllocateKeepsValid(r, s, a);
      case Release(p) => FreeKeepsValid(r, p);
    }
  }

  /** After any sequence of allocations and frees the live chunks are aligned as requested, lie in the
      region without its last byte, are pairwise disjoint and end at or below FreeSpaceStart, and
      their sizes add up to at most the region size less one. */
  lemma {:induction false} AllRunsAreSafe(start: nat, size: nat, ops: seq<Op>)
    requires 0 < start && 0 < size && forall i :: 0 <= i < |ops| ==> Legal(ops[i])
    ensures var r := Replay(Region.New(start, size), ops);
            && (forall i :: 0 <= i < |r.chunks| ==>
                  && 0 < r.chunks[i].align && Mod(r.chunks[i].start, r.chunks[i].align) == 0
                  && start <= r.chunks[i].start && r.chunks[i].End() <= start + size - 1
                  && r.chunks[i].End() <= r.freeSpaceStart)
            && (forall i, j :: 0 <= i < j < |r.chunks| ==> r.chunks[i].End() <= r.chunks[j].start)
            && TotalSize(r.chunks) <= size - 1
  {
    ReplayValid(start, size, ops);
    var chunks := Replay(Region.New(start, size), ops).chunks;
    assert forall i :: 0 <= i < |chunks| ==> chunks[i] in chunks;
    TotalWithin(chunks, start);
  }

  /** Where the last chunk ended just after the last request that left any chunk, or the start of the region
      if there was no such request. */
  ghost function LastEnd(start: nat, size: nat, ops: seq<Op>): nat
    requires forall i :: 0 <= i < |ops| ==> Legal(ops[i])
    decreases |ops|
  {
    if ops == [] then start
    else
      var chunks := Replay(Region.New(start, size), ops).chunks;
      if ops[|ops| - 1].Alloc? && chunks != [] then chunks[|chunks| - 1].End()
      else LastEnd(start, size, ops[..|ops| - 1])
  }

  lemma {:induction false} FreeSpaceIsLastEnd(start: nat, size: nat, ops: seq<Op>)
    requires 0 < start && 0 < size && forall i :: 0 <= i < |ops| ==> Legal(ops[i])
    ensures Replay(Region.New(start, size), ops).freeSpaceStart == LastEnd(start, size, ops)
    decreases |ops|
  {
    if ops != [] {
      var before := ops[..|ops| - 1];
      FreeSpaceIsLastEnd(start, size, before);
      ReplayValid(start, size, before);
      var r := Replay(Region.New(start, size), before);
      match ops[|ops| - 1]
      case Alloc(s, a) => AllocateKeepsValid(r, s, a);
      case Release(p) => FreeKeepsValid(r, p);
    }
  }

  /** Where an emptied region serves again, exactly. After any sequence of allocations and frees that leaves
      no chunk, a request is granted if and only if it fits behind the place where the last chunk ended
      just after the last request that left any chunk, and then at the least aligned address there;
      what was freed since is not found again. */
  lemma {:induction false} EmptiedRegionServesAt(start: nat, size: nat, ops: seq<Op>, request: nat, align: nat)
    requires 0 < start && 0 < size && forall i :: 0 <= i < |ops| ==> Legal(ops[i])
    requires 0 < request && 0 < align && Replay(Region.New(start, size), ops).chunks == []
    ensures var end, got := LastEnd(start, size, ops), AllocateIn(Replay(Region.New(start, size), ops), request, align).1;
            && (got == 0 <==> forall a: nat :: end <= a && Mod(a, align) == 0 ==> start + size - 1 < a + request)
            && (got != 0 ==>
                  && end <= got && Mod(got, align) == 0 && got + request <= start + size - 1
                  && forall a: nat :: end <= a && Mod(a, align) == 0 ==> got <= a)
  {
    var r, end := Replay(Region.New(start, size), ops), LastEnd(start, size, ops);
    FreeSpaceIsLastEnd(start, size, ops);
    ReplayValid(start, size, ops);
    AlignUpIsLeast(end, align, 0);
    forall a: nat | end <= a && Mod(a, align) == 0 ensures AlignUp(end, align) <= a {
      AlignUpIsLeast(end, align, a);
    }
  }

  /** FreeSpaceStart is not reset when the region becomes empty: a region without any live chunk
      can refuse a request that it granted when it was new. */
  lemma {:induction false} EmptyRegionCanRefuse(start: nat, size: nat)
    requires 0 < start && 2 <= size
    ensures var empty, block := Region.New(start, size), size - 1;
            && AllocateIn(empty, block, 1).1 == start
            && var emptied := Replay(empty, [Alloc(block, 1), Release(start)]);
               emptied.chunks == [] && AllocateIn(emptied, block, 1).1 == 0
  {
    var empty, block := Region.New(start, size), size - 1;
    NoPadding(start);
    NoPadding(start + block);
    var (full, a) := AllocateIn(empty, block, 1);
    assert full.chunks == [Chunk(start, block, 1)];
    var emptied := FreeIn(full, start);
    assert emptied == Region(start, size, start + block, []);
    ReplayTwo(empty, Alloc(block, 1), Release(start));
  }

  lemma NoPadding(x: nat)
    ensures AlignUp(x, 1) == x
  {
    ModIsRemainder(x, 1);
  }

  lemma ReplayTwo(r: Region, a: Op, b: Op)
    requires Legal(a) && Legal(b)
    ensures Replay(r, [a, b]) == Apply(Apply(r, a), b)
  {
    assert [a, b][..1] == [a] && [a][..0] == [];
    assert Replay(r, [a]) == Apply(r, a);
  }

  // The class.

  /** No free space starts at address 0, which stands for failure. Every valid region is such. */
  ghost predicate NoNull(r: Region) {
    0 < r.freeSpaceStart && 0 < r.start && forall i :: 0 <= i < |r.chunks| ==> 0 < r.chunks[i].size
  }

  lemma ValidHasNoNull(r: Region)
    requires Valid(r)
    ensures NoNull(r)
  {
    assert forall i :: 0 <= i < |r.chunks| ==> r.chunks[i] in r.chunks;
  }

  class FixedMemoryRegion {
    const startAddress: nat
    const regionSize: nat
    var freeSpaceStart: nat
    var allocations: seq<Chunk>

    ghost function View(): Region
      reads this
    {
      Region(startAddress, regionSize, freeSpaceStart, allocations)
    }

    constructor (start: nat, size: nat)
      requires 0 < start && 0 < size
      ensures View() == Region.New(start, size) && Valid(View())
    {
      startAddress, regionSize := start, size;
      freeSpaceStart, allocations := start, [];
    }

    /** The two moving iterators are `i` and its successor. */
    method Allocate(size: nat, align: nat) returns (addr: nat)
      requires NoNull(View()) && 0 < size && 0 < align
      modifies this
      ensures (View(), addr) == AllocateIn(old(View()), size, align)
    {
      ghost var r := View();
      addr := 0;
      if |allocations| > 0 {
        freeSpaceStart := allocations[|allocations| - 1].End();
      }
      AlignUpIsLeast(freeSpaceStart, align, 0);
      var regionEnd := startAddress + regionSize - 1;
      if freeSpaceStart + size + Padding(freeSpaceStart, align) <= regionEnd {
        addr := freeSpaceStart + Padding(freeSpaceStart, align);
        freeSpaceStart := addr + size;
      }
      var at := |allocations|;
      if addr == 0 && |allocations| > 0 {
        var i := 0;
        while i + 1 < |allocations|
          invariant i < |allocations| && allocations == r.chunks && addr == 0
          invariant freeSpaceStart == TailStart(r) && !TailFits(r, size, align)
          invariant FirstGap(r, 0, size, align) == FirstGap(r, i, size, align)
          invariant at == |allocations|
        {
          var chunkEnd := allocations[i].End();
          AlignUpIsLeast(chunkEnd, align, 0);
          if chunkEnd + size + Padding(chunkEnd, align) <= allocations[i + 1].start {
            addr, at := chunkEnd + Padding(chunkEnd, align), i + 1;
            break;
          }
          i := i + 1;
        }
      }
      if addr == 0 {
        return;
      }
      allocations := allocations[..at] + [Chunk(addr, size, align)] + allocations[at..];
      if TailFits(r, size, align) {
        assert allocations == r.chunks + [Chunk(addr, size, align)];
      } else {
        assert at == FirstGap(r, 0, size, align) + 1;
      }
    }

    method Free(p: nat) returns (freed: bool)
      modifies this
      ensures View() == FreeIn(old(View()), p)
      ensures freed <==> Live(old(View()), p)
    {
      var oldSize := |allocations|;
      var i := Find(allocations, p);
      if i < |allocations| {
        allocations := allocations[..i] + allocations[i + 1..];
      }
      freed := oldSize > |allocations|;
    }
  }
}
