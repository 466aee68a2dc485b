/** kmalloc and kfree (src/heap.c): up to 1024 blocks of whole pages. */
module Heap {
  import opened Common
  import opened Memory
  import opened Paging

  const MAX_ALLOCS: nat := 1024
  const SIZE_LIMIT: nat := 0xFFFF_F000

  datatype Block = Block(base: nat, pages: nat, used: bool)

  type Blocks = b: seq<Block> | |b| == MAX_ALLOCS witness seq(MAX_ALLOCS, _ => Unused())

  function Unused(): Block { Block(0, 0, false) }

  datatype Heap = Heap(fr: Frames, blocks: Blocks)

  function FreeSlot(b: Blocks, from: nat): (r: Option<nat>)
    requires from <= MAX_ALLOCS
    ensures r.Some? ==> from <= r.value < MAX_ALLOCS && !b[r.value].used
    ensures forall i :: from <= i < (if r.Some? then r.value else MAX_ALLOCS) ==> b[i].used
    decreases MAX_ALLOCS - from
  {
    if from == MAX_ALLOCS then None else if !b[from].used then Some(from) else FreeSlot(b, from + 1)
  }

  function SlotOf(b: Blocks, ptr: nat, from: nat): (r: Option<nat>)
    requires from <= MAX_ALLOCS
    ensures r.Some? ==> from <= r.value < MAX_ALLOCS && b[r.value].used && b[r.value].base == ptr
    ensures forall i :: from <= i < (if r.Some? then r.value else MAX_ALLOCS) ==> !(b[i].used && b[i].base == ptr)
    decreases MAX_ALLOCS - from
  {
    if from == MAX_ALLOCS then None
    else if b[from].used && b[from].base == ptr then Some(from)
    else SlotOf(b, ptr, from + 1)
  }

  /** Pages of a size in bytes, in 32-bit arithmetic that does not wrap below the limit. */
  function PagesFor(size: nat): nat { (size + PAGE_SIZE - 1) % U32 / PAGE_SIZE }

  function Kmalloc(h: Heap, size: nat): (Heap, nat)
    requires Valid(h.fr)
  {
    if size == 0 || size > SIZE_LIMIT then (h, 0)
    else
      match FreeSlot(h.blocks, 0)
      case None => (h, 0)
      case Some(i) =>
        var (fr, a) := AllocRun(h.fr, PagesFor(size));
        if a == 0 then (h, 0) else (Heap(fr, h.blocks[i := Block(a, PagesFor(size), true)]), a)
  }

  function Kfree(h: Heap, ptr: nat): Heap
    requires Shape(h.fr)
  {
    if ptr == 0 then h
    else
      match SlotOf(h.blocks, ptr, 0)
      case None => h
      case Some(i) => Heap(FreeBlock(h.fr, ptr / PAGE_SIZE, h.blocks[i].pages), h.blocks[i := Unused()])
  }

  // ---------------------------------------------------------------- in place

  class Allocator {
    const frames: FrameAllocator
    const blocks: array<Block>

    ghost predicate Wired()
      reads frames
    {
      frames.Wired() && blocks.Length == MAX_ALLOCS
    }

    function State(): Heap
      requires Wired()
      reads frames, frames.bitmap, frames.pageRefs, blocks
    {
      Heap(frames.State(), blocks[..])
    }

    /** heap_init. */
    constructor (frames: FrameAllocator)
      requires frames.Wired()
      ensures Wired() && this.frames == frames && fresh(blocks)
      ensures State() == Heap(old(frames.State()), seq(MAX_ALLOCS, _ => Unused()))
    {
      this.frames := frames;
      blocks := new Block[MAX_ALLOCS](_ => Unused());
      new;
      assert blocks[..] == seq(MAX_ALLOCS, _ => Unused());
    }

    method Malloc(size: nat) returns (ptr: nat)
      requires Wired() && Valid(frames.State())
      modifies frames, frames.bitmap, frames.pageRefs, blocks
      ensures Wired() && (State(), ptr) == Kmalloc(old(State()), size)
    {
      hide AllocRun, Valid;
      if size == 0 || size > SIZE_LIMIT { return 0; }
      var pages := PagesFor(size);
      var slot := 0;
      while slot < MAX_ALLOCS && blocks[slot].used
        invariant 0 <= slot <= MAX_ALLOCS && FreeSlot(blocks[..], 0) == FreeSlot(blocks[..], slot)
      {
        slot := slot + 1;
      }
      if slot == MAX_ALLOCS { return 0; }
      ptr := frames.PageAllocContiguous(pages);
      AllocNothing(old(frames.State()), pages);
      if ptr == 0 { return 0; }
      blocks[slot] := Block(ptr, pages, true);
    }

    method Free(ptr: nat)
      requires Wired() && Valid(frames.State())
      requires forall i :: 0 <= i < MAX_ALLOCS && blocks[i].used ==> blocks[i].base % PAGE_SIZE == 0
      modifies frames, frames.bitmap, frames.pageRefs, blocks
      ensures Wired() && State() == Kfree(old(State()), ptr)
    {
      hide FreePage, Valid;
      if ptr == 0 { return; }
      var i := 0;
      while i < MAX_ALLOCS
        invariant 0 <= i <= MAX_ALLOCS && State() == old(State())
        invariant SlotOf(blocks[..], ptr, 0) == SlotOf(blocks[..], ptr, i)
      {
        if blocks[i].used && blocks[i].base == ptr {
          FreePages(ptr, blocks[i].pages);
          blocks[i] := Unused();
          return;
        }
        i := i + 1;
      }
    }

    method FreePages(base: nat, pages: nat)
      requires Wired() && base % PAGE_SIZE == 0
      modifies frames, frames.bitmap, frames.pageRefs
      ensures Wired() && frames.State() == FreeBlock(old(frames.State()), base / PAGE_SIZE, pages)
    {
      hide FreePage;
      for page := 0 to pages
        invariant Wired() && frames.State() == FreeBlock(old(frames.State()), base / PAGE_SIZE, page)
      {
        assert base + page * PAGE_SIZE == (base / PAGE_SIZE + page) * PAGE_SIZE;
        frames.PageFree(base + page * PAGE_SIZE);
      }
    }
  }

  // ---------------------------------------------------------------- live blocks

  function First(b: Block): nat { b.base / PAGE_SIZE }

  predicate Apart(a: Block, b: Block) {
    First(a) + a.pages <= First(b) || First(b) + b.pages <= First(a)
  }

  /** A live block: managed frames, each allocated to it alone. */
  predicate BlockOk(fr: Frames, b: Block)
    requires Shape(fr)
  {
    && b.base % PAGE_SIZE == 0 && b.pages > 0 && RESERVED_PAGES <= First(b) && First(b) + b.pages <= MAX_PAGES
    && forall f :: First(b) <= f < First(b) + b.pages ==> fr.used[f] && fr.refs[f] == 1
  }

  ghost predicate HeapOk(h: Heap) {
    && Valid(h.fr)
    && (forall i :: 0 <= i < MAX_ALLOCS ==>
          if h.blocks[i].used then BlockOk(h.fr, h.blocks[i]) else h.blocks[i] == Unused())
    && (forall i, j :: 0 <= i < j < MAX_ALLOCS && h.blocks[i].used && h.blocks[j].used ==>
          Apart(h.blocks[i], h.blocks[j]))
  }

  /** Pages in live blocks. */
  function PagesOut(b: seq<Block>): nat {
    if b == [] then 0 else PagesOut(b[..|b| - 1]) + (if b[|b| - 1].used then b[|b| - 1].pages else 0)
  }

  lemma {:induction false} PagesOutUpdate(b: seq<Block>, i: nat, x: Block)
    requires i < |b|
    ensures PagesOut(b[i := x]) + (if b[i].used then b[i].pages else 0) == PagesOut(b) + (if x.used then x.pages else 0)
  {
    var n := |b| - 1;
    if i < n {
      PagesOutUpdate(b[..n], i, x);
      assert b[i := x][..n] == b[..n][i := x];
    } else {
      assert b[i := x][..n] == b[..n];
    }
  }

  /** A live block at a, of the fewest pages that hold size bytes. */
  predicate Serves(b: Block, a: nat, size: nat) {
    b.used && b.base == a && size <= b.pages * PAGE_SIZE < size + PAGE_SIZE
  }

  lemma MallocOk(h: Heap, size: nat)
    requires HeapOk(h)
    ensures HeapOk(Kmalloc(h, size).0)
  {
    var (g, a) := Kmalloc(h, size);
    if a != 0 {
      var i, n := FreeSlot(h.blocks, 0).value, PagesFor(size);
      NewRun(h.fr, n);
      hide AllocRun, Valid, PagesFor;
      forall j | 0 <= j < MAX_ALLOCS && h.blocks[j].used
        ensures BlockOk(g.fr, h.blocks[j]) && Apart(h.blocks[j], g.blocks[i]) && Apart(g.blocks[i], h.blocks[j])
      {
        assert BlockOk(h.fr, h.blocks[j]);
        StillThere(h.fr, g.fr, h.blocks[j], First(g.blocks[i]), n);
      }
      assert BlockOk(g.fr, g.blocks[i]);
      hide BlockOk, Apart, First;
    }
  }

  /** kmalloc keeps live blocks disjoint and the sum of free and live pages; the block is big enough. */
  lemma MallocKeeps(h: Heap, size: nat)
    requires HeapOk(h)
    ensures var (g, a) := Kmalloc(h, size);
      && HeapOk(g) && g.fr.free + PagesOut(g.blocks) == h.fr.free + PagesOut(h.blocks)
      && (a == 0 ==> g == h)
      && (a != 0 ==> exists i :: 0 <= i < MAX_ALLOCS && !h.blocks[i].used && Serves(g.blocks[i], a, size))
  {
    var (g, a) := Kmalloc(h, size);
    MallocOk(h, size);
    if a != 0 {
      var i, n := FreeSlot(h.blocks, 0).value, PagesFor(size);
      SizeInPages(size);
      NewRun(h.fr, n);
      hide AllocRun, Valid, PagesFor, HeapOk;
      PagesOutUpdate(h.blocks, i, g.blocks[i]);
      assert Serves(g.blocks[i], a, size);
    }
  }

  /** kmalloc fails exactly for size 0, a size the sum above would wrap on, a full table, or when there is no
      free run of so many frames. */
  lemma MallocExact(h: Heap, size: nat)
    requires HeapOk(h)
    ensures Kmalloc(h, size).1 == 0 <==>
      || size == 0 || size > SIZE_LIMIT || (forall i :: 0 <= i < MAX_ALLOCS ==> h.blocks[i].used)
      || (forall p: nat :: RESERVED_PAGES <= p && p + PagesFor(size) <= MAX_PAGES ==>
            !RunFree(h.fr.used, p, PagesFor(size)))
  {
    if 0 < size <= SIZE_LIMIT {
      SizeInPages(size);
      if PagesFor(size) <= MAX_PAGES - RESERVED_PAGES { AllocExact(h.fr, PagesFor(size)); }
    }
    hide AllocRun, RunFree, Valid, PagesFor;
  }

  /** The table heap_init leaves, over any sound allocator. */
  lemma StartOk(fr: Frames)
    requires Valid(fr)
    ensures HeapOk(Heap(fr, seq(MAX_ALLOCS, _ => Unused()))) && PagesOut(seq(MAX_ALLOCS, _ => Unused())) == 0
  {
    NoPages(seq(MAX_ALLOCS, _ => Unused()));
  }

  lemma {:induction false} NoPages(b: seq<Block>)
    requires forall i :: 0 <= i < |b| ==> b[i] == Unused()
    ensures PagesOut(b) == 0
  {
    if b != [] { NoPages(b[..|b| - 1]); }
  }

  datatype Op = Kmallocs(size: nat) | Kfrees(ptr: nat)

  ghost function Run(h: Heap, ops: seq<Op>): (r: Heap)
    requires HeapOk(h)
    ensures HeapOk(r)
  {
    if ops == [] then h
    else
      var before := Run(h, ops[..|ops| - 1]);
      match ops[|ops| - 1]
      case Kmallocs(size) =>
        MallocOk(before, size);
        Kmalloc(before, size).0
      case Kfrees(ptr) =>
        FreeKeeps(before, ptr);
        Kfree(before, ptr)
  }

  /** Over any run of calls, whatever sizes and pointers: live blocks stay disjoint, and free frames and live
      pages add up to the frames that were free at the start. */
  lemma {:induction false} RunConserves(fr: Frames, ops: seq<Op>)
    requires Valid(fr)
    ensures HeapOk(Heap(fr, seq(MAX_ALLOCS, _ => Unused())))
    ensures var h := Run(Heap(fr, seq(MAX_ALLOCS, _ => Unused())), ops);
      HeapOk(h) && h.fr.free + PagesOut(h.blocks) == fr.free
  {
    hide HeapOk, Valid, Kmalloc, Kfree;
    StartOk(fr);
    if ops != [] {
      RunConserves(fr, ops[..|ops| - 1]);
      var before := Run(Heap(fr, seq(MAX_ALLOCS, _ => Unused())), ops[..|ops| - 1]);
      match ops[|ops| - 1]
      case Kmallocs(size) => MallocKeeps(before, size);
      case Kfrees(ptr) => FreeKeeps(before, ptr);
    }
  }

  lemma SizeInPages(size: nat)
    requires 0 < size <= SIZE_LIMIT
    ensures 0 < PagesFor(size) && size <= PagesFor(size) * PAGE_SIZE < size + PAGE_SIZE
  {
    var up := size + PAGE_SIZE - 1;
    assert up == up / PAGE_SIZE * PAGE_SIZE + up % PAGE_SIZE;
  }

  /** A live block and a run of frames that were free do not meet. */
  lemma StillThere(fr: Frames, gr: Frames, b: Block, p: nat, n: nat)
    requires Shape(fr) && Shape(gr) && BlockOk(fr, b) && p + n <= MAX_PAGES && n > 0
    requires forall f :: p <= f < p + n ==> !fr.used[f]
    requires forall f :: 0 <= f < MAX_PAGES && !(p <= f < p + n) ==>
      gr.used[f] == fr.used[f] && gr.refs[f] == fr.refs[f]
    ensures BlockOk(gr, b) && (First(b) + b.pages <= p || p + n <= First(b))
  {
    var f := if First(b) < p then p else First(b);
    assert First(b) <= f < First(b) + b.pages ==> fr.used[f];
    assert p <= f < p + n ==> !fr.used[f];
  }

  /** The frames of a new run were free, and nothing else changes. */
  lemma NewRun(fr: Frames, n: nat)
    requires Valid(fr) && AllocRun(fr, n).1 != 0
    ensures var (gr, a) := AllocRun(fr, n); var p := a / PAGE_SIZE;
      && Valid(gr) && n > 0 && RESERVED_PAGES <= p && p + n <= MAX_PAGES && a == p * PAGE_SIZE && a % PAGE_SIZE == 0
      && gr.free + n == fr.free
      && (forall f :: p <= f < p + n ==> !fr.used[f] && gr.used[f] && gr.refs[f] == 1)
      && (forall f :: 0 <= f < MAX_PAGES && !(p <= f < p + n) ==> gr.used[f] == fr.used[f] && gr.refs[f] == fr.refs[f])
  {
    AllocValid(fr, n);
    AllocHeld(fr, n);
  }

  /** Freeing a block's frames, each with one owner, makes exactly them free. */
  lemma {:induction false} FreeBlockFrees(fr: Frames, p: nat, n: nat)
    requires Valid(fr) && RESERVED_PAGES <= p && p + n <= MAX_PAGES
    requires forall f :: p <= f < p + n ==> fr.used[f] && fr.refs[f] == 1
    ensures var gr := FreeBlock(fr, p, n);
      && Valid(gr) && gr.free == fr.free + n
      && (forall f :: p <= f < p + n ==> !gr.used[f])
      && (forall f :: 0 <= f < MAX_PAGES && !(p <= f < p + n) ==> gr.used[f] == fr.used[f] && gr.refs[f] == fr.refs[f])
  {
    hide FreePage;
    if n > 0 {
      FreeBlockFrees(fr, p, n - 1);
      FreeOne(FreeBlock(fr, p, n - 1), p + n - 1);
    }
  }

  lemma FreeOne(fr: Frames, f: nat)
    requires Valid(fr) && RESERVED_PAGES <= f < MAX_PAGES && fr.used[f] && fr.refs[f] == 1
    ensures var gr := FreePage(fr, f * PAGE_SIZE);
      && Valid(gr) && gr.free == fr.free + 1 && !gr.used[f]
      && (forall g :: 0 <= g < MAX_PAGES && g != f ==> gr.used[g] == fr.used[g] && gr.refs[g] == fr.refs[g])
  {
    assert f * PAGE_SIZE / PAGE_SIZE == f;
    FreeValid(fr, f * PAGE_SIZE);
  }

  /** kfree of anything keeps the heap in order; of a live block it gives back exactly its pages. */
  lemma FreeKeeps(h: Heap, ptr: nat)
    requires HeapOk(h)
    ensures HeapOk(Kfree(h, ptr))
    ensures var g := Kfree(h, ptr); g.fr.free + PagesOut(g.blocks) == h.fr.free + PagesOut(h.blocks)
    ensures Kfree(h, ptr) != h <==> exists i :: 0 <= i < MAX_ALLOCS && h.blocks[i].used && h.blocks[i].base == ptr
  {
    var slot := SlotOf(h.blocks, ptr, 0);
    if slot.Some? {
      var i := slot.value;
      var b := h.blocks[i];
      assert BlockOk(h.fr, b);
      FreeBlockFrees(h.fr, First(b), b.pages);
      PagesOutUpdate(h.blocks, i, Unused());
      hide FreeBlock, Valid;
      assert Kfree(h, ptr).blocks[i] != h.blocks[i];
    }
  }

  lemma {:induction false} FoundThere(b: Blocks, ptr: nat, i: nat, from: nat)
    requires from <= i < MAX_ALLOCS && b[i].used && b[i].base == ptr
    requires forall j :: from <= j < i ==> !(b[j].used && b[j].base == ptr)
    ensures SlotOf(b, ptr, from) == Some(i)
    decreases i - from
  {
    if from < i { FoundThere(b, ptr, i, from + 1); }
  }

  /** Two live blocks never start at the same address. */
  lemma OneBlockAt(h: Heap, i: nat, j: nat)
    requires HeapOk(h) && i < MAX_ALLOCS && j < MAX_ALLOCS && i != j && h.blocks[i].used && h.blocks[j].used
    ensures h.blocks[i].base != h.blocks[j].base
  {
    assert BlockOk(h.fr, h.blocks[i]) && BlockOk(h.fr, h.blocks[j]);
    if i < j { assert Apart(h.blocks[i], h.blocks[j]); } else { assert Apart(h.blocks[j], h.blocks[i]); }
  }

  /** kmalloc, then kfree of the result: everything is as it was, allocator and table. */
  lemma MallocFree(h: Heap, size: nat)
    requires HeapOk(h) && Kmalloc(h, size).1 != 0
    ensures HeapOk(Kmalloc(h, size).0) && Kfree(Kmalloc(h, size).0, Kmalloc(h, size).1) == h
  {
    var (g, a) := Kmalloc(h, size);
    MallocKeeps(h, size);
    var i, n := FreeSlot(h.blocks, 0).value, PagesFor(size);
    forall j | 0 <= j < i ensures !(g.blocks[j].used && g.blocks[j].base == a) {
      if g.blocks[j].used { OneBlockAt(g, j, i); }
    }
    FoundThere(g.blocks, a, i, 0);
    NewRun(h.fr, n);
    RunReturns(h.fr, n);
    assert h.blocks[i] == Unused();
    assert g.blocks[i := Unused()] == h.blocks;
  }

  lemma RunReturns(fr: Frames, n: nat)
    requires Valid(fr) && AllocRun(fr, n).1 != 0
    ensures FreeBlock(AllocRun(fr, n).0, AllocRun(fr, n).1 / PAGE_SIZE, n) == fr
  {
    var (gr, a) := AllocRun(fr, n);
    var p := a / PAGE_SIZE;
    NothingLent(fr);
    AllocLends(fr, fr, {}, multiset{}, n);
    AllocValid(fr, n);
    assert {} + RunSet(p, n) == RunSet(p, n) && RunSet(p, n) - RunSet(p, n) == {};
    FreeBlockReturns(fr, gr, p, n, RunSet(p, n), multiset{});
    AllReturned(fr, FreeBlock(gr, p, n));
  }
}
