/** The rest of load_image (src/exec.c): the stack page, the address space, and the way back when
    something fails. */
module Exec {
  import opened Common
  import opened Memory
  import opened Paging
  import opened Demand
  import opened Supervisor
  import opened Loader
  import E = Elf

  // ---------------------------------------------------------------- the initial stack

  /** The stack page: argc at 4076, argv[0] at 4084, and the name with its terminator right below argc. */
  function NameAt(name: seq<byte>): nat requires |name| <= NAME_LIMIT { 4075 - |name| }

  function StackByte(name: seq<byte>, o: nat): byte
    requires |name| <= NAME_LIMIT && o < PAGE_SIZE
  {
    if NameAt(name) <= o < 4075 then name[o - NameAt(name)]
    else if 4076 <= o < 4080 then Le(1, o - 4076)
    else if 4084 <= o < 4088 then Le(STACK_PAGE + NameAt(name), o - 4084)
    else 0
  }

  function StackWord(name: seq<byte>, o: nat): u32
    requires |name| <= NAME_LIMIT && o + 4 <= PAGE_SIZE
  {
    FromLe(StackByte(name, o), StackByte(name, o + 1), StackByte(name, o + 2), StackByte(name, o + 3))
  }

  /** What a program finds: one argument, and a pointer to its own name, terminated. */
  lemma StackReads(name: seq<byte>)
    requires |name| <= NAME_LIMIT
    ensures StackWord(name, STACK_TOP - 20 - STACK_PAGE) == 1
    ensures StackWord(name, STACK_TOP - 12 - STACK_PAGE) == STACK_PAGE + NameAt(name)
    ensures StackWord(name, STACK_TOP - 8 - STACK_PAGE) == 0
    ensures forall i :: 0 <= i < |name| ==> StackByte(name, NameAt(name) + i) == name[i]
    ensures StackByte(name, NameAt(name) + |name|) == 0
  {
    hide Le, FromLe;
    LeRoundTrip(1);
    LeRoundTrip(STACK_PAGE + NameAt(name));
    ZeroWord();
    assert StackWord(name, 4076) == FromLe(Le(1, 0), Le(1, 1), Le(1, 2), Le(1, 3));
    var at := STACK_PAGE + NameAt(name);
    assert StackWord(name, 4084) == FromLe(Le(at, 0), Le(at, 1), Le(at, 2), Le(at, 3));
  }

  lemma ZeroWord()
    ensures FromLe(0, 0, 0, 0) == 0
  {}

  /** Store a 32-bit word in a page. */
  method PutWord(page: Page, o: nat, v: u32) returns (out: Page)
    requires o + 4 <= PAGE_SIZE
    ensures forall j :: 0 <= j < PAGE_SIZE ==> out[j] == if o <= j < o + 4 then Le(v, j - o) else page[j]
  {
    hide Le;
    out := page;
    for k := 0 to 4
      invariant forall j :: 0 <= j < PAGE_SIZE ==> out[j] == if o <= j < o + k then Le(v, j - o) else page[j]
    {
      out := out[o + k := Le(v, k)];
    }
  }

  /** build_initial_stack on a cleared page: fails for names longer than 32 bytes. */
  method BuildInitialStack(page: Page, name: seq<byte>) returns (out: Page, sp: nat, ok: bool)
    requires page == ZeroPage() && 0 !in name
    ensures ok <==> |name| <= NAME_LIMIT
    ensures ok ==> sp == STACK_TOP - 20 && forall o :: 0 <= o < PAGE_SIZE ==> out[o] == StackByte(name, o)
  {
    var len := 0;
    while len < |name| && len < 32
      invariant 0 <= len <= |name| && len <= 32
    {
      len := len + 1;
    }
    out, sp := page, 0;
    if len < |name| || len + 1 > 64 { return out, sp, false; }
    var text, argv0, argc := STACK_TOP - 20 - len - 1, STACK_TOP - 12, STACK_TOP - 20;
    var os, oa, oc := text - STACK_PAGE, argv0 - STACK_PAGE, argc - STACK_PAGE;
    for i := 0 to len + 1
      invariant forall o :: 0 <= o < PAGE_SIZE ==>
        out[o] == if os <= o < os + i && o < os + len then name[o - os] else 0
    {
      out := out[os + i := if i < len then name[i] else 0];
    }
    hide Le;
    out := PutWord(out, oa, text);
    out := PutWord(out, oa + 4, 0);
    assert forall j :: 0 <= j < 4 ==> Le(0, j) == 0 by { ZeroBytes(); }
    out := PutWord(out, oc, 1);
    sp, ok := argc, true;
  }

  lemma ZeroBytes()
    ensures forall j :: 0 <= j < 4 ==> Le(0, j) == 0
  {}

  // ---------------------------------------------------------------- the finished draft

  /** All but the last page of the list. */
  function Init(d: Draft): Draft
    requires |d.vas| == |d.pages| == |d.flags| > 0
  {
    var n := |d.vas| - 1;
    Draft(d.ph, d.vas[..n], d.pages[..n], d.flags[..n])
  }

  function AllSegs(m: E.Image): seq<E.Segment>
    requires E.HeaderOk(m) && E.TableInside(m)
  {
    Segs(m, E.Segments(m))
  }

  /** Image pages as Listed and Filled say, then the stack page as built. */
  ghost predicate Complete(ph0: Phys, d: Draft, m: E.Image, name: seq<byte>) {
    && Borrowed(ph0, d) && E.Loadable(m) && |name| <= NAME_LIMIT && AllSane(m, AllSegs(m))
    && 0 < |d.vas| == |d.pages| == |d.flags| <= MAX_PAGES_PER_IMAGE
    && Listed(Init(d), RangesOf(AllSegs(m))) && Filled(Init(d), m, AllSegs(m))
    && StackIn(d, name)
  }

  ghost predicate StackIn(d: Draft, name: seq<byte>)
    requires 0 < |d.vas| == |d.pages| == |d.flags| && |name| <= NAME_LIMIT
  {
    var n := |d.vas| - 1;
    && d.vas[n] == STACK_PAGE && 0 < d.pages[n] < MAX_PAGES && d.pages[n] < |d.ph.bytes|
    && d.flags[n] == PageFlags(true)
    && forall o :: 0 <= o < PAGE_SIZE ==> d.ph.bytes[d.pages[n]][o] == StackByte(name, o)
  }

  /** The stack page: one more frame, cleared, then built. It fails exactly on a full list, without a frame,
      or on a name longer than 32 bytes. */
  method AddStack(ghost ph0: Phys, d: Draft, m: E.Image, name: seq<byte>) returns (d': Draft, sp: nat, ok: bool)
    requires Valid(ph0.fr) && Borrowed(ph0, d) && E.Loadable(m) && 0 !in name && AllSane(m, AllSegs(m))
    requires Listed(d, RangesOf(AllSegs(m))) && Filled(d, m, AllSegs(m))
    ensures Borrowed(ph0, d')
    ensures ok ==> Complete(ph0, d', m, name) && sp == STACK_TOP - 20
    ensures ok <==> |d.vas| < MAX_PAGES_PER_IMAGE && AllocRun(d.ph.fr, 1).1 != 0 && |name| <= NAME_LIMIT
    ensures ok ==> d'.vas == d.vas + [STACK_PAGE] && |d'.pages| == |d'.vas| && d'.ph.fr == AllocRun(d.ph.fr, 1).0
  {
    hide Borrowed, Listed, Filled, AllSane, AllocRun, RangesOf, AllSegs, E.Loadable, E.HeaderOk, E.TableInside, Valid;
    d', sp, ok := d, 0, false;
    var n := |d.vas|;
    ListLengths(d, m);
    BytesThere(ph0, d);
    if n >= MAX_PAGES_PER_IMAGE { return; }
    var more: bool;
    d', more := NewPage(ph0, d, STACK_PAGE);
    if !more { return; }
    ghost var mid := d';
    FrameThere(ph0, mid, n);
    var page: Page;
    page, sp, more := BuildInitialStack(d'.ph.bytes[d'.pages[n]], name);
    if !more { return; }
    d' := WithStack(d', page);
    BuiltBorrowed(ph0, mid, page);
    KeptLists(ph0, d, mid, page, m);
    ok := true;
  }

  /** The last page of the list gets these bytes and becomes writable. */
  function WithStack(d: Draft, page: Page): Draft
    requires 0 < |d.pages| == |d.flags| && d.pages[|d.pages| - 1] < |d.ph.bytes|
  {
    var n := |d.pages| - 1;
    Draft(d.ph.(bytes := d.ph.bytes[d.pages[n] := page]), d.vas, d.pages, d.flags[n := PageFlags(true)])
  }

  lemma ListLengths(d: Draft, m: E.Image)
    requires E.Loadable(m) && Listed(d, RangesOf(AllSegs(m)))
    ensures E.HeaderOk(m) && E.TableInside(m) && |d.vas| == |d.pages| == |d.flags|
  {}

  lemma BytesThere(ph0: Phys, d: Draft)
    requires Borrowed(ph0, d)
    ensures |d.ph.bytes| == MAX_PAGES
  {}

  lemma FrameThere(ph0: Phys, d: Draft, n: nat)
    requires Borrowed(ph0, d) && n < |d.pages| && d.pages[n] < MAX_PAGES
    ensures d.pages[n] < |d.ph.bytes|
  {}

  lemma BuiltBorrowed(ph0: Phys, d: Draft, page: Page)
    requires Borrowed(ph0, d) && 0 < |d.pages| == |d.flags| && 0 < d.pages[|d.pages| - 1] < MAX_PAGES
    ensures |d.ph.bytes| == MAX_PAGES && Borrowed(ph0, WithStack(d, page))
  {
    hide Lent;
    assert d.pages[|d.pages| - 1] in FramesOf(d.pages);
  }

  /** Nothing the image pages depend on has changed. */
  lemma KeptLists(ph0: Phys, d: Draft, mid: Draft, page: Page, m: E.Image)
    requires Borrowed(ph0, mid) && E.Loadable(m) && AllSane(m, AllSegs(m))
    requires Listed(d, RangesOf(AllSegs(m))) && Filled(d, m, AllSegs(m))
    requires mid.vas == d.vas + [STACK_PAGE] && mid.flags == d.flags + [PageFlags(false)] && |mid.pages| == |mid.vas|
    requires mid.pages[..|d.pages|] == d.pages && 0 < mid.pages[|d.pages|] < MAX_PAGES
    requires mid.pages[|d.pages|] !in d.pages
    requires mid.ph.bytes == d.ph.bytes[mid.pages[|d.pages|] := ZeroPage()]
    ensures |mid.ph.bytes| == MAX_PAGES
    ensures |WithStack(mid, page).vas| == |WithStack(mid, page).pages| == |WithStack(mid, page).flags|
    ensures Listed(Init(WithStack(mid, page)), RangesOf(AllSegs(m)))
    ensures Filled(Init(WithStack(mid, page)), m, AllSegs(m))
  {
    assert |d.vas| == |d.pages| == |d.flags| && |mid.ph.bytes| == MAX_PAGES;
    hide Borrowed, E.Loadable, AllSane, Listed, Filled, ImageByte, RangesOf;
    var i := Init(WithStack(mid, page));
    assert i.vas == d.vas && i.pages == d.pages && i.flags == d.flags;
    SameListed(d, i, RangesOf(AllSegs(m)));
    SameFilled(d, i, m, AllSegs(m));
  }

  lemma SameListed(d: Draft, i: Draft, rs: seq<E.Range>)
    requires Listed(d, rs) && i.vas == d.vas && i.pages == d.pages && i.flags == d.flags
    ensures Listed(i, rs)
  {}

  lemma SameFilled(d: Draft, i: Draft, m: E.Image, segs: seq<E.Segment>)
    requires AllSane(m, segs) && Filled(d, m, segs) && i.vas == d.vas && i.pages == d.pages
    requires |i.ph.bytes| == MAX_PAGES && forall f :: f in d.pages && f < MAX_PAGES ==> i.ph.bytes[f] == d.ph.bytes[f]
    ensures Filled(i, m, segs)
  {
    forall k, o | 0 <= k < |i.vas| && 0 <= o < PAGE_SIZE && i.pages[k] < MAX_PAGES
      ensures i.ph.bytes[i.pages[k]][o] == ImageByte(m, segs, i.vas[k] + o)
    {
      assert d.pages[k] in d.pages;
    }
  }

  // ---------------------------------------------------------------- the address space

  ghost predicate SameLookups(ph0: Phys, ph: Phys, spaces: set<nat>) {
    forall p, va :: p in spaces && 0 <= va < USER_LIMIT ==> Lookup(ph.words, p, va) == Lookup(ph0.words, p, va)
  }

  ghost predicate SameFrames(ph0: Phys, ph: Phys, spaces: set<nat>) {
    forall p :: p in spaces ==> SpaceFrames(ph.words, p) == SpaceFrames(ph0.words, p)
  }

  /** Other processes notice nothing: their page tables say the same and no frame in use has changed. */
  ghost predicate Unnoticed(ph0: Phys, ph: Phys, spaces: set<nat>) {
    && |ph0.bytes| == |ph.bytes| == MAX_PAGES && Shape(ph0.fr)
    && SameLookups(ph0, ph, spaces)
    && (forall f :: 0 <= f < MAX_PAGES && ph0.fr.used[f] ==> ph.bytes[f] == ph0.bytes[f])
  }

  /** What the first i mappings of the list say about an address. */
  function Mapped(d: Draft, i: nat, va: nat): Option<Pte>
    requires i <= |d.vas| == |d.pages| == |d.flags|
  {
    if i == 0 then None
    else if d.vas[i - 1] / PAGE_SIZE == va / PAGE_SIZE then Some(UserPte(d.pages[i - 1], d.flags[i - 1]))
    else Mapped(d, i - 1, va)
  }

  predicate Mappable(d: Draft) {
    && |d.vas| == |d.pages| == |d.flags|
    && forall k :: 0 <= k < |d.vas| ==> d.vas[k] < USER_LIMIT && d.vas[k] % PAGE_SIZE == 0
  }

  /** A space under construction: it says what the first i mappings say, and holds what it took since ph1. */
  ghost predicate Mapping(ph1: Phys, s: Phys, spaces: set<nat>, pd: nat, d: Draft, i: nat)
    requires i <= |d.vas| == |d.pages| == |d.flags|
  {
    && Spaces(s, spaces + {pd}) && pd !in spaces && s.bytes == ph1.bytes
    && Lent(ph1.fr, s.fr, SpaceFrames(s.words, pd), multiset{})
    && (forall va: nat :: va < USER_LIMIT ==> Lookup(s.words, pd, va) == Mapped(d, i, va))
    && SameLookups(ph1, s, spaces) && SameFrames(ph1, s, spaces)
  }

  lemma MappingStarts(ph1: Phys, spaces: set<nat>, kernel: seq<Table>, s: Phys, pd: nat, d: Draft)
    requires Spaces(ph1, spaces) && |kernel| == 4 && (s, pd) == CreateSpace(ph1, kernel) && pd != 0 && Mappable(d)
    ensures Mapping(ph1, s, spaces, pd, d, 0)
  {
    CreateRefines(ph1, spaces, kernel);
    FreshSpaceLent(ph1, spaces, kernel, s, pd);
    forall p | p in spaces
      ensures SpaceFrames(s.words, p) == SpaceFrames(ph1.words, p)
    {
      CreateKeepsFrames(ph1, spaces, kernel, p);
    }
    hide Spaces, Lent, Lookup, SpaceFrames, CreateSpace;
  }

  lemma MappingStep(ph1: Phys, s: Phys, spaces: set<nat>, pd: nat, d: Draft, i: nat)
    requires Mappable(d) && i < |d.vas| && Mapping(ph1, s, spaces, pd, d, i)
    ensures PhysOk(s)
    ensures var (s', ok) := MapUserPage(s, pd, d.vas[i], d.pages[i] * PAGE_SIZE, d.flags[i]);
      if ok then Mapping(ph1, s', spaces, pd, d, i + 1) else s' == s
  {
    hide Spaces, Lent, Lookup, SpaceFrames, MapUserPage, PhysOk, Valid;
    SpacesPhys(s, spaces + {pd});
    var pa := d.pages[i] * PAGE_SIZE;
    assert pa / PAGE_SIZE == d.pages[i];
    MapRefines(s, spaces + {pd}, pd, d.vas[i], pa, d.flags[i]);
    MapTakes(ph1.fr, s, spaces + {pd}, pd, d.vas[i], pa, d.flags[i], multiset{});
    forall p | p in spaces
      ensures SpaceFrames(MapUserPage(s, pd, d.vas[i], pa, d.flags[i]).0.words, p) == SpaceFrames(ph1.words, p)
    {
      MapKeepsOtherFrames(s, spaces + {pd}, pd, d.vas[i], pa, d.flags[i], p);
    }
  }

  /** The mapping loop; on failure the half-built space is destroyed. It succeeds exactly when a frame is free
      for every table. */
  method MapAllPages(ghost ph1: Phys, s: Phys, ghost spaces: set<nat>, pd: nat, d: Draft, ghost kernel: seq<Table>)
    returns (s': Phys, ok: bool)
    requires Valid(ph1.fr) && Mappable(d) && Mapping(ph1, s, spaces, pd, d, 0) && TablesAre(s, pd, {})
    ensures ok <==> |DirsOf(d.vas)| <= s.fr.free
    ensures ok ==> Valid(s.fr) && s'.fr == TakeFrames(s.fr, |DirsOf(d.vas)|)
    ensures ok ==> Mapping(ph1, s', spaces, pd, d, |d.vas|)
    ensures !ok ==> s'.fr == ph1.fr && s'.bytes == ph1.bytes
    ensures !ok ==> Spaces(s', spaces) && SameLookups(ph1, s', spaces) && SameFrames(ph1, s', spaces)
    ensures Guarded(s.words, spaces + {pd}, kernel) && High(d.vas) ==>
      Guarded(s'.words, if ok then spaces + {pd} else spaces, kernel)
  {
    hide Mapping, MapUserPage, Spaces, TablesAre, DirsOf, Guarded, High;
    s' := s;
    assert d.vas[..0] == [] && d.vas[..|d.vas|] == d.vas;
    NoDirs();
    MappingSpaces(ph1, s, spaces, pd, d, 0);
    SpacesPhys(s, spaces + {pd});
    for i := 0 to |d.vas|
      invariant Mapping(ph1, s', spaces, pd, d, i)
      invariant TablesAre(s', pd, DirsOf(d.vas[..i])) && s'.fr.free + |DirsOf(d.vas[..i])| == s.fr.free
      invariant s'.fr == TakeFrames(s.fr, |DirsOf(d.vas[..i])|)
      invariant Guarded(s.words, spaces + {pd}, kernel) && High(d.vas) ==> Guarded(s'.words, spaces + {pd}, kernel)
    {
      MappingStep(ph1, s', spaces, pd, d, i);
      TablesStep(ph1, s', s.fr, spaces, pd, d, i);
      GuardedStep(ph1, s', spaces, pd, d, i, kernel);
      var r := MapUserPage(s', pd, d.vas[i], d.pages[i] * PAGE_SIZE, d.flags[i]);
      s', ok := r.0, r.1;
      if !ok {
        MappingUndone(ph1, s', spaces, pd, d, i);
        GuardedUndone(ph1, s', spaces, pd, d, i, kernel);
        s' := DestroySpace(s', pd);
        return;
      }
    }
    ok := true;
  }

  /** One more page: its table is there, or a frame is free for it, or the whole list needs too many. */
  lemma TablesStep(ph1: Phys, s: Phys, fr: Frames, spaces: set<nat>, pd: nat, d: Draft, i: nat)
    requires Mappable(d) && i < |d.vas| && Mapping(ph1, s, spaces, pd, d, i) && TablesAre(s, pd, DirsOf(d.vas[..i]))
    requires Valid(fr) && s.fr == TakeFrames(fr, |DirsOf(d.vas[..i])|)
    ensures PhysOk(s)
    ensures var (s', ok) := MapUserPage(s, pd, d.vas[i], d.pages[i] * PAGE_SIZE, d.flags[i]);
      && (ok ==> TablesAre(s', pd, DirsOf(d.vas[..i + 1])))
      && (ok ==> s'.fr.free + |DirsOf(d.vas[..i + 1])| == s.fr.free + |DirsOf(d.vas[..i])|)
      && (ok ==> s'.fr == TakeFrames(fr, |DirsOf(d.vas[..i + 1])|))
      && (!ok ==> s.fr.free + |DirsOf(d.vas[..i])| < |DirsOf(d.vas)|)
  {
    hide Spaces, MapUserPage, Mapping, TablesAre, PhysOk, DirsOf, TakeFrames, Valid;
    MappingSpaces(ph1, s, spaces, pd, d, i);
    MapNext(s, spaces + {pd}, pd, d.vas, i, d.pages[i] * PAGE_SIZE, d.flags[i]);
    MapNextTakes(s, fr, spaces + {pd}, pd, d.vas, i, d.pages[i] * PAGE_SIZE, d.flags[i]);
  }

  lemma GuardedStep(ph1: Phys, s: Phys, spaces: set<nat>, pd: nat, d: Draft, i: nat, kernel: seq<Table>)
    requires Mappable(d) && i < |d.vas| && Mapping(ph1, s, spaces, pd, d, i)
    ensures PhysOk(s)
    ensures Guarded(s.words, spaces + {pd}, kernel) && High(d.vas) ==>
      Guarded(MapUserPage(s, pd, d.vas[i], d.pages[i] * PAGE_SIZE, d.flags[i]).0.words, spaces + {pd}, kernel)
  {
    hide Spaces, MapUserPage, Mapping, PhysOk, AllStand;
    MappingSpaces(ph1, s, spaces, pd, d, i);
    if Guarded(s.words, spaces + {pd}, kernel) && High(d.vas) {
      MapStandsAll(s, spaces + {pd}, pd, kernel, d.vas[i], d.pages[i] * PAGE_SIZE, d.flags[i]);
    }
  }

  lemma GuardedUndone(ph1: Phys, s: Phys, spaces: set<nat>, pd: nat, d: Draft, i: nat, kernel: seq<Table>)
    requires i <= |d.vas| == |d.pages| == |d.flags| && Mapping(ph1, s, spaces, pd, d, i)
    ensures Shape(s.fr)
    ensures (Guarded(s.words, spaces + {pd}, kernel) ==> Guarded(DestroySpace(s, pd).words, spaces, kernel))
  {
    MappingSpaces(ph1, s, spaces, pd, d, i);
    assert pd !in spaces && Shape(s.fr);
    hide Spaces, DestroySpace, Mapping, PhysOk, AllStand;
    if Guarded(s.words, spaces + {pd}, kernel) {
      DestroyStandsAll(s, spaces + {pd}, pd, kernel);
      assert spaces + {pd} - {pd} == spaces;
    }
  }

  lemma MappingSpaces(ph1: Phys, s: Phys, spaces: set<nat>, pd: nat, d: Draft, i: nat)
    requires i <= |d.vas| == |d.pages| == |d.flags| && Mapping(ph1, s, spaces, pd, d, i)
    ensures PhysOk(s) && Spaces(s, spaces + {pd})
  {}

  lemma MappingUndone(ph1: Phys, s: Phys, spaces: set<nat>, pd: nat, d: Draft, i: nat)
    requires Valid(ph1.fr) && i <= |d.vas| == |d.pages| == |d.flags| && Mapping(ph1, s, spaces, pd, d, i)
    ensures Shape(s.fr)
    ensures var s' := DestroySpace(s, pd);
      && s'.fr == ph1.fr && Spaces(s', spaces) && s'.bytes == ph1.bytes
      && SameLookups(ph1, s', spaces) && SameFrames(ph1, s', spaces)
  {
    assert Shape(s.fr) && PhysOk(s);
    DestroyRestores(ph1.fr, s, spaces + {pd}, pd);
    StillPhys(s, pd, ph1.fr);
    DestroyKeepsOthers(s, spaces + {pd}, pd);
    forall p | p in spaces ensures SpaceFrames(DestroySpace(s, pd).words, p) == SpaceFrames(ph1.words, p) {
      DestroyKeepsFrames(s, spaces + {pd}, pd, p);
    }
    assert spaces + {pd} - {pd} == spaces;
    hide Spaces, Lent, Lookup, SpaceFrames, DestroySpace, PhysOk;
  }

  lemma StillPhys(s: Phys, pd: nat, fr: Frames)
    requires PhysOk(s) && Valid(fr) && DestroySpace(s, pd).fr == fr
    ensures PhysOk(DestroySpace(s, pd))
  {
    hide FreeTables, FreeBlock, Valid;
  }

  // ---------------------------------------------------------------- giving the frames back

  lemma FramesTail(pages: seq<nat>, i: nat)
    requires i < |pages| && Distinct(pages)
    ensures pages[i] != 0 ==>
      pages[i] in FramesOf(pages[i..]) && FramesOf(pages[i + 1..]) == FramesOf(pages[i..]) - {pages[i]}
    ensures pages[i] == 0 ==> FramesOf(pages[i + 1..]) == FramesOf(pages[i..])
  {
    var all, rest := pages[i..], pages[i + 1..];
    assert all[0] == pages[i];
    forall f | f in FramesOf(rest) ensures f in FramesOf(all) && f != pages[i] {
      var k :| 0 <= k < |rest| && rest[k] == f;
      assert all[k + 1] == f && pages[i + 1 + k] == f;
    }
    forall f | f in FramesOf(all) && f != pages[i] ensures f in FramesOf(rest) {
      var k :| 0 <= k < |all| && all[k] == f;
      assert rest[k - 1] == f;
    }
  }

  /** The loop at `fail`: every frame listed goes back, and the allocator is as it was. */
  method FreeAll(ghost fr0: Frames, fr: Frames, pages: seq<nat>) returns (fr': Frames)
    requires Valid(fr0) && Valid(fr) && Distinct(pages) && Lent(fr0, fr, FramesOf(pages), multiset{})
    ensures fr' == fr0
  {
    hide Valid, Lent, FreePage;
    assert Shape(fr) by { ShapeOf(fr); }
    fr' := fr;
    for i := 0 to |pages|
      invariant Valid(fr') && Shape(fr') && Lent(fr0, fr', FramesOf(pages[i..]), multiset{})
    {
      FramesTail(pages, i);
      if pages[i] != 0 {
        GiveBack(fr0, fr', FramesOf(pages[i..]), FramesOf(pages[i + 1..]), multiset{}, pages[i]);
        fr' := FreePage(fr', pages[i] * PAGE_SIZE);
      }
    }
    assert FramesOf(pages[|pages|..]) == {};
    AllReturned(fr0, fr');
  }

  lemma ShapeOf(fr: Frames)
    requires Valid(fr)
    ensures Shape(fr)
  {}

  // ---------------------------------------------------------------- the whole load

  datatype Program = Program(entry: nat, sp: nat, pd: nat, pages: seq<nat>, vas: seq<nat>)

  /** What a load needs: an image validation accepts, a name that fits the stack page, a list that holds the
      pages of its segments and the stack page, and frames for these, for a space and for its tables. */
  ghost predicate Suffices(fr: Frames, m: E.Image, name: seq<byte>)
    requires Valid(fr)
  {
    E.Loadable(m) && |name| <= NAME_LIMIT && PagesFit(fr, ImagePages(m)) && SpaceFits(fr, ImagePages(m))
  }

  /** Every page a program has at its start. */
  function ImagePages(m: E.Image): set<nat>
    requires E.HeaderOk(m) && E.TableInside(m)
  {
    PagesOf(RangesOf(AllSegs(m))) + {STACK_PAGE}
  }

  predicate SpaceFits(fr: Frames, pages: set<nat>)
    requires Valid(fr)
  {
    && AllocRun(TakeFrames(fr, |pages|), PROCESS_PAGING_PAGES).1 != 0
    && Needed(pages) <= fr.free
  }

  /** The frames of a program: its pages, the root and directories, and a table for each directory entry. */
  function Needed(pages: set<nat>): nat { |pages| + PROCESS_PAGING_PAGES + |DirsIn(pages)| }

  /** The allocator after the pages and the space, and after the tables too. */
  function SpaceTaken(fr: Frames, pages: set<nat>): Frames
    requires Valid(fr)
  {
    AllocRun(TakeFrames(fr, |pages|), PROCESS_PAGING_PAGES).0
  }

  function LoadTaken(fr: Frames, pages: set<nat>): (r: Frames)
    requires Valid(fr)
    ensures Valid(r)
  {
    AllocValid(TakeFrames(fr, |pages|), PROCESS_PAGING_PAGES);
    TakeFrames(SpaceTaken(fr, pages), |DirsIn(pages)|)
  }

  /** What is left free after a load. */
  lemma LoadLeaves(fr: Frames, pages: set<nat>)
    requires Valid(fr) && |pages| <= fr.free && SpaceFits(fr, pages)
    ensures LoadTaken(fr, pages).free + Needed(pages) == fr.free
  {
    hide AllocRun, Valid, TakeFrames, DirsIn;
    TakenFree(fr, |pages|);
    AllocValid(TakeFrames(fr, |pages|), PROCESS_PAGING_PAGES);
    RunTakes(TakeFrames(fr, |pages|), PROCESS_PAGING_PAGES);
    TakenFree(SpaceTaken(fr, pages), |DirsIn(pages)|);
  }

  /** The list with the stack page is the pages a program has; it could be added exactly when they fit. */
  lemma StackListed(ph0: Phys, d: Draft, d': Draft, ok: bool, m: E.Image, name: seq<byte>)
    requires E.HeaderOk(m) && E.TableInside(m) && Listed(d, RangesOf(AllSegs(m))) && Spent(ph0, d)
    requires ok <==> |d.vas| < MAX_PAGES_PER_IMAGE && AllocRun(d.ph.fr, 1).1 != 0 && |name| <= NAME_LIMIT
    requires ok ==> d'.vas == d.vas + [STACK_PAGE] && |d'.pages| == |d'.vas| && d'.ph.fr == AllocRun(d.ph.fr, 1).0
    ensures ok <==> |name| <= NAME_LIMIT && PagesFit(ph0.fr, ImagePages(m))
    ensures ok ==> Spent(ph0, d') && |d'.pages| == |ImagePages(m)| && DirsOf(d'.vas) == DirsIn(ImagePages(m))
  {
    ListedShort(d, RangesOf(AllSegs(m)));
    ListedSize(d, RangesOf(AllSegs(m)));
    TakenFree(ph0.fr, |d.pages|);
    OneFree(d.ph.fr);
    hide PagesOf, RangesOf, AllSegs, E.HeaderOk, E.TableInside, Listed, Valid, AllocRun, DirsOf, DirsIn;
    assert |ImagePages(m)| == |d.vas| + 1;
    if ok {
      NewIsSpent(ph0, d, d');
      assert SetOf(d.vas + [STACK_PAGE]) == SetOf(d.vas) + {STACK_PAGE} by { SetOfMore(d.vas, STACK_PAGE); }
      SameDirs(d'.vas);
    }
  }

  lemma ListedShort(d: Draft, rs: seq<E.Range>)
    requires Listed(d, rs)
    ensures STACK_PAGE !in SetOf(d.vas) && |d.pages| == |d.vas|
  {}

  /** With the pages there, the space can be made, and its tables, exactly when the rest fits. */
  lemma SpaceLeft(ph0: Phys, d: Draft, m: E.Image, spaces: set<nat>, kernel: seq<Table>)
    requires E.HeaderOk(m) && E.TableInside(m) && Spent(ph0, d) && |kernel| == 4 && Spaces(d.ph, spaces)
    requires |d.pages| == |ImagePages(m)| && DirsOf(d.vas) == DirsIn(ImagePages(m))
    ensures PhysOk(d.ph)
    ensures var (s, pd) := CreateSpace(d.ph, kernel);
      && (SpaceFits(ph0.fr, ImagePages(m)) <==> pd != 0 && |DirsOf(d.vas)| <= s.fr.free)
      && (pd != 0 ==> TablesAre(s, pd, {}) && s.fr == SpaceTaken(ph0.fr, ImagePages(m)))
  {
    SpacesPhys(d.ph, spaces);
    hide Spaces, PhysOk, E.HeaderOk, E.TableInside, ImagePages, DirsOf, DirsIn, CreateSpace, Valid, TablesAre, AllocRun;
    TakenFree(ph0.fr, |d.pages|);
    SpaceIff(d.ph, spaces, kernel);
    if CreateSpace(d.ph, kernel).1 != 0 { SpaceTakes(d.ph, spaces, kernel); }
  }

  /** What the new space says about one address: the stack page as built; elsewhere a page exactly where a
      segment touches it, writable exactly where a writable segment does, and the byte of the last segment
      in table order whose file range covers the address, or zero. */
  ghost predicate LoadedAt(m: E.Image, name: seq<byte>, ph: Phys, pd: nat, va: nat)
    requires E.Loadable(m) && AllSane(m, AllSegs(m)) && |name| <= NAME_LIMIT
  {
    var page, rs, e := E.AlignDown(va), RangesOf(AllSegs(m)), Lookup(ph.words, pd, va);
    if page == STACK_PAGE then
      && e.Some? && e.value == UserPte(e.value.frame, PageFlags(true))
      && e.value.frame < |ph.bytes| && ph.bytes[e.value.frame][va % PAGE_SIZE] == StackByte(name, va % PAGE_SIZE)
    else
      && (e.Some? <==> Wanted(rs, page))
      && (e.Some? ==>
            && e.value == UserPte(e.value.frame, PageFlags(WritableIn(rs, page)))
            && e.value.frame < |ph.bytes| && ph.bytes[e.value.frame][va % PAGE_SIZE] == ImageByte(m, AllSegs(m), va))
  }

  /** Page k of the list is mapped to frame k, without the copy-on-write bit. */
  ghost predicate PageAt(ph: Phys, r: Program, k: nat)
    requires k < |r.vas| == |r.pages|
  {
    exists w :: Lookup(ph.words, r.pd, r.vas[k]) == Some(UserPte(r.pages[k], PageFlags(w)))
  }

  /** The lists of the program are its page table: distinct pages, the stack page last, distinct frames, and
      nothing else mapped. */
  ghost predicate PagesMapped(ph: Phys, r: Program) {
    && |r.pages| == |r.vas| && 0 < |r.vas| <= MAX_PAGES_PER_IMAGE && Distinct(r.pages)
    && r.vas[|r.vas| - 1] == STACK_PAGE
    && (forall k :: 0 <= k < |r.vas| ==>
          USER_BASE <= r.vas[k] < USER_LIMIT && r.vas[k] % PAGE_SIZE == 0 && 0 < r.pages[k] < MAX_PAGES)
    && (forall k, l :: 0 <= k < l < |r.vas| ==> r.vas[k] != r.vas[l])
    && (forall k :: 0 <= k < |r.vas| ==> PageAt(ph, r, k))
    && (forall va: nat :: va < USER_LIMIT && Lookup(ph.words, r.pd, va).Some? ==>
          exists k :: 0 <= k < |r.vas| && r.vas[k] / PAGE_SIZE == va / PAGE_SIZE)
  }

  ghost predicate LoadedOk(ph0: Phys, spaces: set<nat>, m: E.Image, name: seq<byte>, ph: Phys, r: Program) {
    && E.Loadable(m) && AllSane(m, AllSegs(m)) && |name| <= NAME_LIMIT && r.entry == E.Entry(m)
    && r.sp == STACK_TOP - 20
    && r.pd !in spaces && Spaces(ph, spaces + {r.pd}) && Unnoticed(ph0, ph, spaces) && SameFrames(ph0, ph, spaces)
    && PagesMapped(ph, r)
    && FramesOf(r.pages) !! SpaceFrames(ph.words, r.pd)
    && Lent(ph0.fr, ph.fr, FramesOf(r.pages) + SpaceFrames(ph.words, r.pd), multiset{})
    && (forall va: nat :: va < USER_LIMIT ==> LoadedAt(m, name, ph, r.pd, va))
  }

  /** load_image: it succeeds exactly when what there is suffices. */
  method LoadImage(ph0: Phys, ghost spaces: set<nat>, kernel: seq<Table>, m: E.Image, name: seq<byte>)
    returns (ph: Phys, r: Option<Program>)
    requires Spaces(ph0, spaces) && |kernel| == 4 && 0 !in name
    ensures r.None? ==>
      ph.fr == ph0.fr && Spaces(ph, spaces) && Unnoticed(ph0, ph, spaces) && SameFrames(ph0, ph, spaces)
    ensures r.Some? ==> LoadedOk(ph0, spaces, m, name, ph, r.value)
    ensures r.Some? <==> Suffices(ph0.fr, m, name)
    ensures r.Some? ==> ph.fr == LoadTaken(ph0.fr, ImagePages(m))
    ensures Guarded(ph0.words, spaces, kernel) ==>
      Guarded(ph.words, if r.Some? then spaces + {r.value.pd} else spaces, kernel)
  {
    StartFacts(ph0, spaces);
    hide Spaces, Borrowed, Listed, Filled, Complete, E.Loadable, AllSane, Mapping, Unnoticed, LoadedOk, CreateSpace;
    hide Spent;
    hide Guarded, High, PagesFit, SpaceFits, SpaceTaken, TakeFrames, ImagePages, PagesOf, TablesAre, DirsOf, DirsIn;
    ph, r := ph0, None;
    var entry := E.ExecValidate(m);
    if entry.None? { return; }
    SegmentsSane(m);
    Headers(m);
    var d, ok := AddAll(ph0, Draft(ph0, [], [], []), m);
    if !ok {
      TooMany(ph0.fr, PagesOf(RangesOf(AllSegs(m))), ImagePages(m));
      BorrowedSpaces(ph0, d, spaces);
      SameWords(ph0, d);
      ph := GiveUp(ph0, spaces, d, d.ph);
      return;
    }
    ghost var listed := d;
    d, ok := CopyAll(ph0, d, m);
    KeptSpent(ph0, listed, d);
    ghost var filled := d;
    var sp: nat;
    d, sp, ok := AddStack(ph0, d, m, name);
    StackListed(ph0, filled, d, ok, m, name);
    if !ok {
      BorrowedSpaces(ph0, d, spaces);
      SameWords(ph0, d);
      ph := GiveUp(ph0, spaces, d, d.ph);
      return;
    }
    CompleteFacts(ph0, d, m, name);
    BorrowedSpaces(ph0, d, spaces);
    SameWords(ph0, d);
    ghost var ph1 := d.ph;
    assert PhysOk(d.ph) by { SpacesPhys(d.ph, spaces); }
    SpaceLeft(ph0, d, m, spaces, kernel);
    var space := CreateSpace(d.ph, kernel);
    if space.1 == 0 {
      NoSpace(d.ph, spaces, kernel);
      ph := GiveUp(ph0, spaces, d, d.ph);
      return;
    }
    MappingStarts(ph1, spaces, kernel, space.0, space.1, d);
    GuardedSpace(ph0, d, spaces, kernel);
    CompleteHigh(ph0, d, m, name);
    var s, mapped := MapAllPages(ph1, space.0, spaces, space.1, d, kernel);
    if !mapped {
      ph := GiveUp(ph0, spaces, d, s);
      return;
    }
    ph := s;
    r := Some(Program(entry.value, sp, space.1, d.pages, d.vas));
    LoadedFacts(ph0, spaces, d, m, name, s, r.value);
  }

  /** The way out of a failed load. `s` is memory with the half-built space, if there was one, destroyed. */
  method GiveUp(ph0: Phys, ghost spaces: set<nat>, d: Draft, s: Phys) returns (ph: Phys)
    requires Borrowed(ph0, d) && Spaces(ph0, spaces) && Spaces(s, spaces)
    requires s.fr == d.ph.fr && s.bytes == d.ph.bytes && SameLookups(d.ph, s, spaces) && SameFrames(d.ph, s, spaces)
    ensures ph.fr == ph0.fr && Spaces(ph, spaces) && Unnoticed(ph0, ph, spaces) && SameFrames(ph0, ph, spaces)
    ensures ph.words == s.words
  {
    SpacesPhys(ph0, spaces);
    SpacesPhys(s, spaces);
    BorrowedLent(ph0, d);
    assert Distinct(d.pages) && d.ph.words == ph0.words;
    hide Borrowed, Spaces, Valid, Lent, Unnoticed, SpaceFrames;
    var fr := FreeAll(ph0.fr, s.fr, d.pages);
    ph := s.(fr := fr);
    Returned(ph0, spaces, d, s);
  }

  lemma Returned(ph0: Phys, spaces: set<nat>, d: Draft, s: Phys)
    requires Borrowed(ph0, d) && Spaces(ph0, spaces) && Spaces(s, spaces)
    requires s.bytes == d.ph.bytes && SameLookups(d.ph, s, spaces) && SameFrames(d.ph, s, spaces)
    ensures Spaces(s.(fr := ph0.fr), spaces) && Unnoticed(ph0, s.(fr := ph0.fr), spaces)
  {
    assert PhysOk(s.(fr := ph0.fr)) && d.ph.words == ph0.words;
    BorrowedUnnoticed(ph0, d, spaces);
    hide Borrowed, SpaceFrames, Spaces, Held, Lookup, PhysOk;
    forall p, f | p in spaces && f in SpaceFrames(s.words, p) ensures Held(ph0.fr, f) {
      SpaceFramesHeld(ph0, spaces, p, f);
    }
    HeldStays(s, s.(fr := ph0.fr), spaces);
  }

  lemma BorrowedUnnoticed(ph0: Phys, d: Draft, spaces: set<nat>)
    requires Borrowed(ph0, d)
    ensures Unnoticed(ph0, d.ph, spaces)
  {
    assert forall f :: 0 <= f < MAX_PAGES && ph0.fr.used[f] ==> f !in FramesOf(d.pages);
    hide Lookup, FramesOf;
  }

  lemma StartFacts(ph0: Phys, spaces: set<nat>)
    requires Spaces(ph0, spaces)
    ensures Borrowed(ph0, Draft(ph0, [], [], [])) && Spent(ph0, Draft(ph0, [], [], []))
    ensures Valid(ph0.fr) && Unnoticed(ph0, ph0, spaces)
  {
    NothingLent(ph0.fr);
    assert FramesOf([]) == {};
  }

  lemma GuardedSpace(ph0: Phys, d: Draft, spaces: set<nat>, kernel: seq<Table>)
    requires Borrowed(ph0, d) && Spaces(d.ph, spaces) && |kernel| == 4
    ensures PhysOk(d.ph)
    ensures Guarded(ph0.words, spaces, kernel) ==> var (s, pd) := CreateSpace(d.ph, kernel);
      pd != 0 ==> Guarded(s.words, spaces + {pd}, kernel)
  {
    assert d.ph.words == ph0.words && PhysOk(d.ph);
    hide Borrowed, Spaces, CreateSpace, AllStand, PhysOk;
    if Guarded(ph0.words, spaces, kernel) { CreateStandsAll(d.ph, spaces, kernel); }
  }

  lemma SameWords(ph0: Phys, d: Draft)
    requires Borrowed(ph0, d)
    ensures d.ph.words == ph0.words
  {}

  lemma CompleteHigh(ph0: Phys, d: Draft, m: E.Image, name: seq<byte>)
    requires Complete(ph0, d, m, name)
    ensures High(d.vas)
  {
    hide Complete, E.Loadable, AllSane, Filled, Wanted, WritableIn, Lent, RangesOf;
    CompleteParts(ph0, d, m, name);
    forall k | 0 <= k < |d.vas| ensures USER_BASE <= d.vas[k] {
      if k < |d.vas| - 1 { assert Init(d).vas[k] == d.vas[k]; }
    }
  }

  lemma KeptSpent(ph0: Phys, d: Draft, d': Draft)
    requires Spent(ph0, d) && Kept(d, d')
    ensures Spent(ph0, d')
  {}

  lemma SegmentsSane(m: E.Image)
    requires E.Loadable(m)
    ensures AllSane(m, AllSegs(m))
  {}

  lemma SpacesPhys(s: Phys, spaces: set<nat>)
    requires Spaces(s, spaces)
    ensures PhysOk(s) && Valid(s.fr)
  {}

  lemma NoSpace(s: Phys, spaces: set<nat>, kernel: seq<Table>)
    requires Spaces(s, spaces) && |kernel| == 4 && CreateSpace(s, kernel).1 == 0
    ensures CreateSpace(s, kernel).0 == s
  {
    CreateRefines(s, spaces, kernel);
  }

  /** The parts of a finished draft. */
  lemma CompleteParts(ph0: Phys, d: Draft, m: E.Image, name: seq<byte>)
    requires Complete(ph0, d, m, name)
    ensures Borrowed(ph0, d) && E.Loadable(m) && |name| <= NAME_LIMIT && AllSane(m, AllSegs(m))
    ensures 0 < |d.vas| == |d.pages| == |d.flags| <= MAX_PAGES_PER_IMAGE
    ensures Listed(Init(d), RangesOf(AllSegs(m))) && Filled(Init(d), m, AllSegs(m)) && StackIn(d, name)
  {
    hide Borrowed, E.WellFormed, AllSane, Listed, Filled, StackIn, Init, RangesOf;
  }

  lemma CompleteFacts(ph0: Phys, d: Draft, m: E.Image, name: seq<byte>)
    requires Complete(ph0, d, m, name)
    ensures Mappable(d) && Borrowed(ph0, d) && PhysOk(d.ph) && E.Loadable(m) && AllSane(m, AllSegs(m))
    ensures |name| <= NAME_LIMIT
  {
    hide Complete, E.Loadable, AllSane, Filled, Wanted, WritableIn, Lent, RangesOf;
    CompleteParts(ph0, d, m, name);
    var n := |d.vas| - 1;
    forall k | 0 <= k < |d.vas| ensures d.vas[k] < USER_LIMIT && d.vas[k] % PAGE_SIZE == 0 {
      if k < n { assert Init(d).vas[k] == d.vas[k]; }
    }
  }

  /** Frames that were held stay held while others are borrowed. */
  lemma StillHeld(ph0: Phys, d: Draft, f: nat)
    requires Borrowed(ph0, d) && Held(ph0.fr, f)
    ensures Held(d.ph.fr, f)
  {}

  lemma BorrowedSpaces(ph0: Phys, d: Draft, spaces: set<nat>)
    requires Borrowed(ph0, d) && Spaces(ph0, spaces)
    ensures Spaces(d.ph, spaces)
  {
    assert PhysOk(d.ph) && d.ph.words == ph0.words;
    hide Borrowed, SpaceFrames, Spaces, Held;
    forall p, f | p in spaces && f in SpaceFrames(ph0.words, p) ensures Held(d.ph.fr, f) {
      SpaceFramesHeld(ph0, spaces, p, f);
      StillHeld(ph0, d, f);
    }
    HeldStays(ph0, d.ph, spaces);
  }

  // ---------------------------------------------------------------- what has been loaded

  lemma {:induction false} MappedIs(d: Draft, i: nat, va: nat)
    requires Mappable(d) && i <= |d.vas|
    ensures match Mapped(d, i, va)
      case Some(e) => exists k :: 0 <= k < i && d.vas[k] == E.AlignDown(va) && e == UserPte(d.pages[k], d.flags[k])
      case None => E.AlignDown(va) !in d.vas[..i]
  {
    if i > 0 {
      MappedIs(d, i - 1, va);
      SamePageIs(d.vas[i - 1], va);
    }
  }

  lemma SamePageIs(page: nat, va: nat)
    requires page % PAGE_SIZE == 0
    ensures page / PAGE_SIZE == va / PAGE_SIZE <==> page == E.AlignDown(va)
  {
    assert page == page / PAGE_SIZE * PAGE_SIZE;
  }

  /** The list of a finished draft: image pages below the stack page, then the stack page, all distinct. */
  lemma CompleteList(ph0: Phys, d: Draft, m: E.Image, name: seq<byte>)
    requires Complete(ph0, d, m, name)
    ensures forall k, l :: 0 <= k < l < |d.vas| ==> d.vas[k] != d.vas[l]
    ensures forall k :: 0 <= k < |d.vas| ==>
      0 < d.pages[k] < MAX_PAGES && (d.vas[k] == STACK_PAGE <==> k == |d.vas| - 1)
    ensures forall k :: 0 <= k < |d.vas| ==> exists w :: d.flags[k] == PageFlags(w)
  {
    hide Complete, Borrowed, Filled, E.Loadable, AllSane, Wanted, WritableIn, RangesOf;
    CompleteParts(ph0, d, m, name);
    var i := Init(d);
    forall k | 0 <= k < |d.vas| - 1
      ensures d.vas[k] < STACK_PAGE && 0 < d.pages[k] < MAX_PAGES && exists w :: d.flags[k] == PageFlags(w)
    {
      assert i.vas[k] == d.vas[k] && i.pages[k] == d.pages[k] && i.flags[k] == d.flags[k];
    }
    forall k, l | 0 <= k < l < |d.vas| ensures d.vas[k] != d.vas[l] {
      if l < |d.vas| - 1 { assert i.vas[k] != i.vas[l]; }
    }
  }

  lemma LoadedFacts(ph0: Phys, spaces: set<nat>, d: Draft, m: E.Image, name: seq<byte>, s: Phys, r: Program)
    requires Spaces(ph0, spaces) && Complete(ph0, d, m, name) && Mapping(d.ph, s, spaces, r.pd, d, |d.vas|)
    requires r == Program(E.Entry(m), STACK_TOP - 20, r.pd, d.pages, d.vas)
    ensures LoadedOk(ph0, spaces, m, name, s, r)
  {
    CompleteFacts(ph0, d, m, name);
    PagesAre(ph0, d, m, name, s, spaces, r);
    FramesAre(ph0, d, spaces, s, r.pd);
    forall va: nat | va < USER_LIMIT ensures LoadedAt(m, name, s, r.pd, va) {
      AddressLoaded(ph0, d, m, name, s, spaces, r.pd, va);
    }
    hide Complete, LoadedAt, PagesMapped, Unnoticed, Lent, Spaces, AllSane, E.Loadable, Borrowed, Mappable;
  }

  lemma FramesAre(ph0: Phys, d: Draft, spaces: set<nat>, s: Phys, pd: nat)
    requires Spaces(ph0, spaces) && Borrowed(ph0, d) && Mappable(d) && Mapping(d.ph, s, spaces, pd, d, |d.vas|)
    ensures Unnoticed(ph0, s, spaces) && SameFrames(ph0, s, spaces)
    ensures FramesOf(d.pages) !! SpaceFrames(s.words, pd)
    ensures Lent(ph0.fr, s.fr, FramesOf(d.pages) + SpaceFrames(s.words, pd), multiset{})
  {
    BorrowedUnnoticed(ph0, d, spaces);
    LentTwice(ph0.fr, d.ph.fr, s.fr, FramesOf(d.pages), SpaceFrames(s.words, pd));
    hide Lent, Lookup, SpaceFrames, FramesOf, Spaces;
  }

  /** Taking some frames, then some more. */
  lemma LentTwice(a: Frames, b: Frames, c: Frames, first: set<nat>, second: set<nat>)
    requires Lent(a, b, first, multiset{}) && Lent(b, c, second, multiset{})
    ensures first !! second && Lent(a, c, first + second, multiset{})
  {
    forall p | p in first ensures p !in second {}
  }

  lemma AddressLoaded(ph0: Phys, d: Draft, m: E.Image, name: seq<byte>, s: Phys, spaces: set<nat>, pd: nat, va: nat)
    requires Complete(ph0, d, m, name) && Mapping(d.ph, s, spaces, pd, d, |d.vas|) && va < USER_LIMIT
    ensures E.Loadable(m) && AllSane(m, AllSegs(m)) && |name| <= NAME_LIMIT && LoadedAt(m, name, s, pd, va)
  {
    hide Complete, Wanted, WritableIn, ImageByte, AllSane, E.Loadable, Lookup, Borrowed, Mapping, Mapped, RangesOf;
    hide StackByte;
    CompleteFacts(ph0, d, m, name);
    CompleteList(ph0, d, m, name);
    LookupMapped(d.ph, s, spaces, pd, d, va);
    MappedIs(d, |d.vas|, va);
    var e, page := Lookup(s.words, pd, va), E.AlignDown(va);
    assert d.vas[..|d.vas|] == d.vas;
    InitListed(ph0, d, m, name, page);
    hide AllSegs;
    if e.Some? {
      var k :| 0 <= k < |d.vas| && d.vas[k] == page && e.value == UserPte(d.pages[k], d.flags[k]);
      PageOffset(page, va % PAGE_SIZE, va);
      if page == STACK_PAGE {
        StackBytes(ph0, d, m, name, va % PAGE_SIZE);
      } else {
        ImageBytes(ph0, d, m, name, k, va % PAGE_SIZE);
      }
    }
  }

  lemma LookupMapped(ph1: Phys, s: Phys, spaces: set<nat>, pd: nat, d: Draft, va: nat)
    requires |d.vas| == |d.pages| == |d.flags| && Mapping(ph1, s, spaces, pd, d, |d.vas|) && va < USER_LIMIT
    ensures Lookup(s.words, pd, va) == Mapped(d, |d.vas|, va) && s.bytes == ph1.bytes
  {}

  lemma InitListed(ph0: Phys, d: Draft, m: E.Image, name: seq<byte>, page: nat)
    requires Complete(ph0, d, m, name) && page % PAGE_SIZE == 0
    ensures E.Loadable(m) && (page != STACK_PAGE ==> (page in d.vas <==> Wanted(RangesOf(AllSegs(m)), page)))
    ensures STACK_PAGE in d.vas
  {
    hide Complete, Wanted, WritableIn, AllSane, E.Loadable, Borrowed, Filled, RangesOf;
    CompleteParts(ph0, d, m, name);
    assert d.vas == Init(d).vas + [STACK_PAGE];
  }

  lemma StackBytes(ph0: Phys, d: Draft, m: E.Image, name: seq<byte>, o: nat)
    requires Complete(ph0, d, m, name) && o < PAGE_SIZE
    ensures |name| <= NAME_LIMIT && 0 < |d.vas| == |d.pages| == |d.flags|
    ensures var n := |d.vas| - 1;
      && d.flags[n] == PageFlags(true) && d.pages[n] < |d.ph.bytes|
      && d.ph.bytes[d.pages[n]][o] == StackByte(name, o)
  {
    hide Complete, AllSane, E.Loadable, Borrowed, Filled, Listed, RangesOf, StackByte;
    CompleteParts(ph0, d, m, name);
  }

  lemma ImageBytes(ph0: Phys, d: Draft, m: E.Image, name: seq<byte>, k: nat, o: nat)
    requires Complete(ph0, d, m, name) && o < PAGE_SIZE && 0 <= k < |d.vas| - 1
    ensures |d.vas| == |d.pages| == |d.flags| && E.Loadable(m) && AllSane(m, AllSegs(m))
    ensures d.flags[k] == PageFlags(WritableIn(RangesOf(AllSegs(m)), d.vas[k]))
    ensures d.pages[k] < |d.ph.bytes| && d.ph.bytes[d.pages[k]][o] == ImageByte(m, AllSegs(m), d.vas[k] + o)
  {
    hide Complete, Wanted, WritableIn, AllSane, E.Loadable, Borrowed, RangesOf, ImageByte;
    CompleteParts(ph0, d, m, name);
    var i := Init(d);
    assert i.vas[k] == d.vas[k] && i.pages[k] == d.pages[k] && i.flags[k] == d.flags[k];
  }

  lemma PagesAre(ph0: Phys, d: Draft, m: E.Image, name: seq<byte>, s: Phys, spaces: set<nat>, r: Program)
    requires Complete(ph0, d, m, name) && Mapping(d.ph, s, spaces, r.pd, d, |d.vas|) && r.pages == d.pages
    requires r.vas == d.vas
    ensures PagesMapped(s, r)
  {
    assert Mappable(d) && Distinct(d.pages) && 0 < |d.vas| == |d.pages| <= MAX_PAGES_PER_IMAGE by {
      hide Complete, Mapping;
      CompleteFacts(ph0, d, m, name);
      CompleteParts(ph0, d, m, name);
    }
    hide Mapping, Mapped, Complete, Lookup;
    CompleteList(ph0, d, m, name);
    CompleteHigh(ph0, d, m, name);
    forall k | 0 <= k < |d.vas| ensures PageAt(s, r, k) {
      LookupMapped(d.ph, s, spaces, r.pd, d, d.vas[k]);
      MappedIs(d, |d.vas|, d.vas[k]);
      SamePageIs(d.vas[k], d.vas[k]);
      assert d.vas[..|d.vas|][k] == E.AlignDown(d.vas[k]);
      var w :| d.flags[k] == PageFlags(w);
      assert Lookup(s.words, r.pd, d.vas[k]) == Some(UserPte(d.pages[k], PageFlags(w)));
    }
    forall va: nat | va < USER_LIMIT && Lookup(s.words, r.pd, va).Some?
      ensures exists k :: 0 <= k < |d.vas| && d.vas[k] / PAGE_SIZE == va / PAGE_SIZE
    {
      LookupMapped(d.ph, s, spaces, r.pd, d, va);
      MappedIs(d, |d.vas|, va);
      var k :| 0 <= k < |d.vas| && d.vas[k] == E.AlignDown(va);
      SamePageIs(d.vas[k], va);
    }
  }
}
