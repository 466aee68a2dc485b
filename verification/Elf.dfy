/** ELF executables (src/elf.c and exec_validate_image in src/exec.c). The methods test what the code
    tests, in 32-bit arithmetic; their contracts say in unbounded arithmetic what an accepted file is. */
module Elf {
  import opened Common
  import M = Memory
  import P = Paging

  const HEADER_SIZE: nat := 52
  const PHDR_SIZE: nat := 32
  const USER_BASE: nat := P.USER_BASE
  const USER_LIMIT: nat := P.USER_LIMIT
  const USER_STACK_PAGE: nat := 0xBFFF_F000
  const PAGE_SIZE: nat := M.PAGE_SIZE
  const MAX_EXEC_PAGES: nat := 128

  /** A file as the loader gets it: its size fits 32 bits. */
  type Image = s: seq<byte> | |s| < U32 witness []

  function Wrap(x: int): nat { x % U32 }

  // ---------------------------------------------------------------- fields

  function Half(m: seq<byte>, at: nat): (r: nat)
    requires at + 2 <= |m|
    ensures r < 65536
  {
    m[at] as int + 256 * m[at + 1] as int
  }

  function Word(m: seq<byte>, at: nat): (r: nat)
    requires at + 4 <= |m|
    ensures r < U32
  {
    FromLe(m[at], m[at + 1], m[at + 2], m[at + 3])
  }

  /** One program header. */
  datatype Segment = Segment(load: bool, offset: nat, vaddr: nat, filesz: nat, memsz: nat, flags: nat)

  function SegmentAt(m: seq<byte>, at: nat): (r: Segment)
    requires at + PHDR_SIZE <= |m|
    ensures r.offset < U32 && r.vaddr < U32 && r.filesz < U32 && r.memsz < U32 && r.flags < U32
  {
    Segment(Word(m, at) == 1, Word(m, at + 4), Word(m, at + 8), Word(m, at + 16), Word(m, at + 20), Word(m, at + 24))
  }

  function Entry(m: Image): nat requires |m| >= HEADER_SIZE { Word(m, 24) }
  function TableAt(m: Image): nat requires |m| >= HEADER_SIZE { Word(m, 28) }
  function Stride(m: Image): nat requires |m| >= HEADER_SIZE { Half(m, 42) }
  function Segments(m: Image): nat requires |m| >= HEADER_SIZE { Half(m, 44) }

  predicate HeaderOk(m: Image) {
    && |m| >= HEADER_SIZE
    && m[0] == 0x7F && m[1] == 69 && m[2] == 76 && m[3] == 70 && m[4] == 1 && m[5] == 1
    && Half(m, 16) == 2 && Half(m, 18) == 3 && Word(m, 20) == 1
    && Half(m, 40) >= HEADER_SIZE && Stride(m) >= PHDR_SIZE && Segments(m) > 0
  }

  /** The whole program header table lies in the file. */
  predicate TableInside(m: Image)
    requires |m| >= HEADER_SIZE
  {
    TableAt(m) + Segments(m) * Stride(m) <= |m|
  }

  /** Where header i lies, without wrap-around. */
  function PlaceOf(m: Image, i: nat): nat
    requires |m| >= HEADER_SIZE
  {
    TableAt(m) + i * Stride(m)
  }

  lemma PlaceFits(m: Image, i: nat)
    requires HeaderOk(m) && TableInside(m) && i < Segments(m)
    ensures PlaceOf(m, i) + PHDR_SIZE <= |m|
  {
    var stride, n, at := Stride(m), Segments(m), TableAt(m);
    assert stride >= PHDR_SIZE && at + n * stride <= |m| && PlaceOf(m, i) == at + i * stride;
    hide *;
    Monotone(i + 1, n, stride);
    assert (i + 1) * stride == i * stride + stride;
  }

  lemma Monotone(a: nat, b: nat, c: nat)
    requires a <= b
    ensures a * c <= b * c
  {}

  function Seg(m: Image, i: nat): Segment
    requires HeaderOk(m) && TableInside(m) && i < Segments(m)
  {
    PlaceFits(m, i);
    SegmentAt(m, PlaceOf(m, i))
  }

  /** What elf32_validate asks of a segment that is loaded: bytes from inside the file, inside user space,
      some permission. */
  predicate SegmentOk(m: Image, p: Segment) {
    p.load ==>
      && p.filesz <= p.memsz && p.offset + p.filesz <= |m|
      && USER_BASE <= p.vaddr < USER_LIMIT && p.vaddr + p.memsz <= USER_LIMIT
      && p.flags % 8 != 0
  }

  ghost predicate WellFormed(m: Image) {
    && HeaderOk(m) && TableInside(m)
    && (forall i :: 0 <= i < Segments(m) ==> SegmentOk(m, Seg(m, i)))
    && (exists i :: 0 <= i < Segments(m) && Seg(m, i).load)
    && USER_BASE <= Entry(m) < USER_LIMIT
  }

  /** The three tests on the table, with a division where a product could wrap, are the exact bound. */
  lemma TableTest(size: nat, at: nat, stride: nat, n: nat)
    requires stride > 0
    ensures !(at > size) && !(stride > size - at) && !(n > (size - at) / stride) && n > 0 <==>
      at + n * stride <= size && n > 0
  {
    if at <= size {
      var q := (size - at) / stride;
      assert q * stride <= size - at < (q + 1) * stride by { Quotient(size - at, stride); }
      if n <= q { Monotone(n, q, stride); } else { Monotone(q + 1, n, stride); }
      if n > 0 { Monotone(1, n, stride); }
    }
  }

  lemma Quotient(x: nat, d: nat)
    requires d > 0
    ensures x / d * d <= x < (x / d + 1) * d
  {
    assert x == x / d * d + x % d;
    assert (x / d + 1) * d == x / d * d + d;
  }

  function RangeOk(offset: nat, length: nat, size: nat): (r: bool)
    ensures r <==> offset + length <= size
  {
    offset <= size && length <= size - offset
  }

  /** The tests on one loaded segment. */
  method CheckLoad(m: Image, p: Segment) returns (ok: bool)
    requires p.load
    ensures ok <==> SegmentOk(m, p)
  {
    if p.memsz < p.filesz || !RangeOk(p.offset, p.filesz, |m|) { return false; }
    if p.vaddr < USER_BASE { return false; }
    if p.vaddr >= USER_LIMIT || p.memsz > USER_LIMIT - p.vaddr { return false; }
    if p.flags % 8 == 0 { return false; }
    ok := true;
  }

  /** elf32_validate. */
  method Validate(m: Image) returns (entry: Option<nat>)
    ensures entry.Some? <==> WellFormed(m)
    ensures entry.Some? ==> entry.value == Entry(m)
  {
    if |m| < HEADER_SIZE { return None; }
    if m[0] != 0x7F || m[1] != 69 || m[2] != 76 || m[3] != 70 { return None; }
    if m[4] != 1 || m[5] != 1 { return None; }
    if Half(m, 16) != 2 { return None; }
    if Half(m, 18) != 3 || Word(m, 20) != 1 { return None; }
    if Half(m, 40) < HEADER_SIZE || Half(m, 42) < PHDR_SIZE || Half(m, 44) == 0 { return None; }
    var phoff, phentsize, phnum := Word(m, 28), Half(m, 42), Half(m, 44);
    TableTest(|m|, phoff, phentsize, phnum);
    hide PlaceOf, SegmentAt, FromLe;
    if phoff > |m| || phentsize > |m| - phoff || phnum > (|m| - phoff) / phentsize { return None; }
    var loads := 0;
    for i := 0 to phnum
      invariant 0 <= loads <= i
      invariant forall j :: 0 <= j < i ==> SegmentOk(m, Seg(m, j))
      invariant loads > 0 <==> exists j :: 0 <= j < i && Seg(m, j).load
    {
      var p := ReadSegment(m, phoff, phentsize, i);
      if p.load {
        loads := loads + 1;
        var ok := CheckLoad(m, p);
        if !ok { return None; }
      }
    }
    if loads == 0 || Word(m, 24) < USER_BASE || Word(m, 24) >= USER_LIMIT { return None; }
    entry := Some(Word(m, 24));
  }

  lemma Unwrapped(x: nat, y: nat)
    requires x + y < U32
    ensures Wrap(y + Wrap(x)) == y + x
  {}

  /** Header i, through the 32-bit sum and product of the code; neither wraps. */
  method ReadSegment(m: Image, phoff: nat, phentsize: nat, i: nat) returns (p: Segment)
    requires HeaderOk(m) && TableInside(m) && i < Segments(m) && phoff == TableAt(m) && phentsize == Stride(m)
    ensures p == Seg(m, i)
  {
    PlaceFits(m, i);
    assert phoff + i * phentsize + PHDR_SIZE <= |m|;
    hide Word, Half, SegmentAt, TableInside;
    Unwrapped(i * phentsize, phoff);
    var at := Wrap(phoff + Wrap(i * phentsize));
    p := SegmentAt(m, at);
  }

  // ---------------------------------------------------------------- pages

  /** x & ~0xFFF. */
  function AlignDown(x: nat): (r: nat)
    ensures r % PAGE_SIZE == 0 && r <= x < r + PAGE_SIZE
  {
    x / PAGE_SIZE * PAGE_SIZE
  }

  /** align_up fails where the rounded address would not fit 32 bits. */
  function AlignUp(x: nat): (r: Option<nat>)
    requires x < U32
    ensures r.Some? <==> x <= U32 - PAGE_SIZE
    ensures r.Some? ==> r.value % PAGE_SIZE == 0 && x <= r.value < x + PAGE_SIZE && r.value < U32
  {
    if x > 0xFFFF_FFFF - (PAGE_SIZE - 1) then None else Some(AlignDown(Wrap(x + PAGE_SIZE - 1)))
  }

  /** The pages [first, last) a segment occupies in memory, and whether it may write them. */
  datatype Range = Range(first: nat, last: nat, writable: bool)

  predicate Occupies(p: Segment) { p.load && p.memsz > 0 }

  function RangeOf(p: Segment): (r: Range)
    ensures Occupies(p) && p.vaddr + p.memsz <= USER_LIMIT ==> r.first <= p.vaddr && p.vaddr + p.memsz <= r.last
  {
    if !Occupies(p) || p.vaddr + p.memsz > USER_LIMIT then Range(0, 0, false)
    else Range(AlignDown(p.vaddr), AlignUp(p.vaddr + p.memsz).value, p.flags / 2 % 2 == 1)
  }

  /** What exec_validate_image adds: at most 128 pages, none of them the stack page. */
  predicate SegmentFits(p: Segment) {
    Occupies(p) ==>
      && p.vaddr + p.memsz <= USER_STACK_PAGE
      && (RangeOf(p).last - RangeOf(p).first) / PAGE_SIZE <= MAX_EXEC_PAGES
  }

  ghost predicate Loadable(m: Image) {
    && WellFormed(m)
    && (forall i :: 0 <= i < Segments(m) ==> SegmentFits(Seg(m, i)))
    && (exists i :: 0 <= i < Segments(m) && Occupies(Seg(m, i)))
  }

  /** A range reaches the stack page exactly when its segment ends behind the page's first byte. */
  lemma StackPageTest(p: Segment)
    requires Occupies(p) && p.vaddr + p.memsz <= USER_LIMIT
    ensures RangeOf(p).first <= USER_STACK_PAGE && USER_STACK_PAGE < RangeOf(p).last <==>
      p.vaddr + p.memsz > USER_STACK_PAGE
  {
    assert USER_STACK_PAGE % PAGE_SIZE == 0;
  }

  /** The tests on one occupied segment; the ones elf32_validate has made already cannot fail. */
  method CheckSegment(m: Image, p: Segment) returns (ok: bool)
    requires SegmentOk(m, p) && Occupies(p)
    ensures ok <==> SegmentFits(p)
  {
    if p.vaddr < USER_BASE || p.vaddr >= USER_LIMIT { return false; }
    if p.memsz > USER_LIMIT - p.vaddr { return false; }
    if p.filesz > p.memsz { return false; }
    if p.offset > |m| || p.filesz > |m| - p.offset { return false; }
    if p.flags % 8 == 0 { return false; }
    var end := Wrap(p.vaddr + p.memsz);
    if end < p.vaddr { return false; }
    var last := AlignUp(end);
    if last.None? { return false; }
    var first := AlignDown(p.vaddr);
    assert RangeOf(p) == Range(first, last.value, p.flags / 2 % 2 == 1);
    StackPageTest(p);
    if last.value < first || (last.value - first) / PAGE_SIZE > MAX_EXEC_PAGES { return false; }
    if first <= USER_STACK_PAGE && USER_STACK_PAGE < last.value { return false; }
    ok := true;
  }

  /** exec_validate_image. */
  method ExecValidate(m: Image) returns (entry: Option<nat>)
    ensures entry.Some? <==> Loadable(m)
    ensures entry.Some? ==> entry.value == Entry(m)
  {
    entry := Validate(m);
    if entry.None? { return; }
    hide SegmentFits, SegmentAt, PlaceOf, Word, Half;
    var loads := 0;
    for i := 0 to Segments(m)
      invariant 0 <= loads <= i
      invariant forall j :: 0 <= j < i ==> SegmentFits(Seg(m, j))
      invariant loads > 0 <==> exists j :: 0 <= j < i && Occupies(Seg(m, j))
    {
      var p := ReadSegment(m, TableAt(m), Stride(m), i);
      assert SegmentOk(m, Seg(m, i));
      if p.load && p.memsz != 0 {
        loads := loads + 1;
        var ok := CheckSegment(m, p);
        if !ok { return None; }
      }
    }
    if loads == 0 || entry.value < USER_BASE || entry.value >= USER_LIMIT { return None; }
  }
}
