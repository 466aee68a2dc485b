/** load_image (src/exec.c): from an executable file to an address space. The loops below fill lists of
    pages, addresses and flags and the bytes of the frames as the code does; the contracts say what every
    mapped byte is and that a failed load gives every frame back. Memory is passed as a value. */
module Loader {
  import opened Common
  import opened Memory
  import opened Paging
  import opened Demand
  import E = Elf

  const STACK_PAGE: nat := E.USER_STACK_PAGE
  const STACK_TOP: nat := USER_LIMIT
  const MAX_PAGES_PER_IMAGE: nat := E.MAX_EXEC_PAGES
  const NAME_LIMIT: nat := 32

  // ---------------------------------------------------------------- what a loaded image is

  /** The segments of a valid image, in table order. */
  function Segs(m: E.Image, n: nat): (r: seq<E.Segment>)
    requires E.HeaderOk(m) && E.TableInside(m) && n <= E.Segments(m)
    ensures |r| == n && forall i :: 0 <= i < n ==> r[i] == E.Seg(m, i)
  {
    seq(n, i requires 0 <= i < n => E.Seg(m, i))
  }

  /** A segment the loader can copy: its bytes are in the file, its pages in user space. */
  predicate Sane(m: E.Image, p: E.Segment) {
    E.SegmentOk(m, p) && E.SegmentFits(p)
  }

  predicate Covers(p: E.Segment, va: nat) {
    p.load && p.vaddr <= va < p.vaddr + p.filesz
  }

  predicate AllSane(m: E.Image, segs: seq<E.Segment>) {
    forall i :: 0 <= i < |segs| ==> Sane(m, segs[i])
  }

  /** The byte of the last segment whose file range covers va; zero where there is none. */
  function ImageByte(m: E.Image, segs: seq<E.Segment>, va: nat): byte
    requires AllSane(m, segs)
  {
    if segs == [] then 0
    else
      var p := segs[|segs| - 1];
      if Covers(p, va) then (assert Sane(m, segs[|segs| - 1]); m[p.offset + (va - p.vaddr)])
      else ImageByte(m, segs[..|segs| - 1], va)
  }

  predicate In(r: E.Range, va: nat) { r.first <= va < r.last }

  /** Some range holds va. */
  predicate Wanted(rs: seq<E.Range>, va: nat) {
    rs != [] && (In(rs[|rs| - 1], va) || Wanted(rs[..|rs| - 1], va))
  }

  /** Some writable range holds va. */
  predicate WritableIn(rs: seq<E.Range>, va: nat) {
    rs != [] && ((In(rs[|rs| - 1], va) && rs[|rs| - 1].writable) || WritableIn(rs[..|rs| - 1], va))
  }

  function RangesOf(segs: seq<E.Segment>): (r: seq<E.Range>)
    ensures |r| == |segs| && forall i :: 0 <= i < |segs| ==> r[i] == E.RangeOf(segs[i])
  {
    seq(|segs|, i requires 0 <= i < |segs| => E.RangeOf(segs[i]))
  }

  function PageFlags(writable: bool): Flags { PRESENT.(writable := writable) }

  // ---------------------------------------------------------------- the lists being filled

  /** Memory and the arrays `vas`, `pages` (frame numbers, 0 for none) and `flags`. */
  datatype Draft = Draft(ph: Phys, vas: seq<nat>, pages: seq<nat>, flags: seq<Flags>)

  function FramesOf(pages: seq<nat>): (r: set<nat>)
    ensures forall k :: 0 <= k < |pages| && pages[k] != 0 ==> pages[k] in r
    ensures forall f :: f in r ==> f != 0 && f in pages
  {
    set k | 0 <= k < |pages| && pages[k] != 0 :: pages[k]
  }

  predicate Distinct(pages: seq<nat>) {
    forall k, l :: 0 <= k < l < |pages| && pages[k] != 0 ==> pages[k] != pages[l]
  }

  /** The frames listed are exactly what has been taken since ph0; only their bytes have changed. */
  ghost predicate Borrowed(ph0: Phys, d: Draft) {
    && PhysOk(d.ph) && |ph0.bytes| == MAX_PAGES && d.ph.words == ph0.words && Distinct(d.pages)
    && Lent(ph0.fr, d.ph.fr, FramesOf(d.pages), multiset{})
    && (forall f :: 0 <= f < MAX_PAGES && f !in FramesOf(d.pages) ==> d.ph.bytes[f] == ph0.bytes[f])
  }

  predicate GoodVa(va: nat) { USER_BASE <= va < STACK_PAGE && va % PAGE_SIZE == 0 }

  /** The pages listed are those of the ranges, each with a frame, writable where some range is. */
  ghost predicate Listed(d: Draft, rs: seq<E.Range>) {
    && |d.vas| == |d.pages| == |d.flags| <= MAX_PAGES_PER_IMAGE
    && (forall k :: 0 <= k < |d.vas| ==> GoodVa(d.vas[k]) && d.pages[k] != 0 && d.pages[k] < MAX_PAGES)
    && (forall k, l :: 0 <= k < l < |d.vas| ==> d.vas[k] != d.vas[l])
    && (forall k :: 0 <= k < |d.vas| ==> d.flags[k] == PageFlags(WritableIn(rs, d.vas[k])))
    && (forall va: nat :: va % PAGE_SIZE == 0 ==> (va in d.vas <==> Wanted(rs, va)))
  }

  /** The frames hold the bytes of these segments. */
  ghost predicate Filled(d: Draft, m: E.Image, segs: seq<E.Segment>)
    requires AllSane(m, segs)
  {
    && |d.pages| == |d.vas| && |d.ph.bytes| == MAX_PAGES
    && forall k, o :: 0 <= k < |d.vas| && 0 <= o < PAGE_SIZE && d.pages[k] < MAX_PAGES ==>
         d.ph.bytes[d.pages[k]][o] == ImageByte(m, segs, d.vas[k] + o)
  }

  /** The frames on the list were taken one by one, and all of them could be. */
  ghost predicate Spent(ph0: Phys, d: Draft) {
    Valid(ph0.fr) && |d.pages| <= ph0.fr.free && d.ph.fr == TakeFrames(ph0.fr, |d.pages|)
  }

  /** Only bytes have changed. */
  predicate Kept(d: Draft, d': Draft) {
    d'.ph.fr == d.ph.fr && d'.vas == d.vas && d'.pages == d.pages && d'.flags == d.flags
  }

  /** The list and the free frames hold this many pages. */
  predicate PagesFit(fr: Frames, pages: set<nat>) { |pages| <= MAX_PAGES_PER_IMAGE && |pages| <= fr.free }

  lemma TooMany(fr: Frames, some: set<nat>, all: set<nat>)
    requires some <= all && !PagesFit(fr, some)
    ensures !PagesFit(fr, all)
  {
    Fewer(some, all);
  }

  /** The page addresses in user space that some range holds. */
  function PagesOf(rs: seq<E.Range>): (r: set<nat>)
    ensures forall va: nat :: va in r <==> va < USER_LIMIT && va % PAGE_SIZE == 0 && Wanted(rs, va)
  {
    var r := set k: nat | k < USER_LIMIT / PAGE_SIZE && Wanted(rs, k * PAGE_SIZE) :: k * PAGE_SIZE;
    forall va: nat | va < USER_LIMIT && va % PAGE_SIZE == 0 && Wanted(rs, va) ensures va in r {
      assert va == va / PAGE_SIZE * PAGE_SIZE && va / PAGE_SIZE < USER_LIMIT / PAGE_SIZE;
    }
    r
  }

  /** The list is as long as the ranges have pages. */
  lemma ListedSize(d: Draft, rs: seq<E.Range>)
    requires Listed(d, rs)
    ensures |PagesOf(rs)| == |d.vas| && PagesOf(rs) == SetOf(d.vas)
  {
    DistinctSize(d.vas);
    forall va | va in SetOf(d.vas)
      ensures va in PagesOf(rs)
    {
      var k :| 0 <= k < |d.vas| && d.vas[k] == va;
      assert GoodVa(d.vas[k]);
    }
    forall va | va in PagesOf(rs) ensures va in SetOf(d.vas) {
      assert va in d.vas;
      var k :| 0 <= k < |d.vas| && d.vas[k] == va;
    }
    assert PagesOf(rs) == SetOf(d.vas);
  }

  /** A page still missing from a full list, or with no frame left: there are more pages than either. */
  lemma OneTooMany(ph0: Phys, d: Draft, rs: seq<E.Range>, va: nat, all: set<nat>)
    requires Listed(d, rs) && Spent(ph0, d) && PagesOf(rs) <= all && va in all && va !in d.vas
    requires |d.vas| >= MAX_PAGES_PER_IMAGE || AllocRun(d.ph.fr, 1).1 == 0
    ensures !PagesFit(ph0.fr, all)
  {
    ListedSize(d, rs);
    Fewer(PagesOf(rs) + {va}, all);
    TakenFree(ph0.fr, |d.pages|);
    OneFree(d.ph.fr);
  }

  /** find_page. */
  method FindPage(vas: seq<nat>, va: nat) returns (idx: int)
    ensures idx == -1 ==> va !in vas
    ensures idx != -1 ==> 0 <= idx < |vas| && vas[idx] == va
  {
    for i := 0 to |vas|
      invariant va !in vas[..i]
    {
      if vas[i] == va { return i; }
    }
    idx := -1;
  }

  /** Zero the frame just allocated, byte by byte. */
  method ZeroFrame(bytes: seq<Page>, f: nat) returns (out: seq<Page>)
    requires f < |bytes|
    ensures out == bytes[f := ZeroPage()]
  {
    var page := bytes[f];
    for b := 0 to PAGE_SIZE
      invariant forall o :: 0 <= o < b ==> page[o] == 0
    {
      page := page[b := 0];
    }
    assert page == ZeroPage();
    out := bytes[f := page];
  }

  /** Take one more frame for va, cleared. On failure the list has an entry without a frame. */
  method NewPage(ghost ph0: Phys, d: Draft, va: nat) returns (d': Draft, ok: bool)
    requires Valid(ph0.fr) && Borrowed(ph0, d) && |d.pages| == |d.vas| == |d.flags|
    ensures Borrowed(ph0, d') && d'.vas == d.vas + [va] && d'.flags == d.flags + [PageFlags(false)]
    ensures |d'.pages| == |d'.vas| && d'.pages[..|d.pages|] == d.pages && d'.pages[|d.pages|] < MAX_PAGES
    ensures ok <==> d'.pages[|d.pages|] != 0
    ensures ok <==> AllocRun(d.ph.fr, 1).1 != 0
    ensures d'.ph.fr == AllocRun(d.ph.fr, 1).0
    ensures ok ==> d'.ph.bytes == d.ph.bytes[d'.pages[|d.pages|] := ZeroPage()] && d'.pages[|d.pages|] !in d.pages
  {
    var (fr, a) := AllocRun(d.ph.fr, 1);
    var f := a / PAGE_SIZE;
    AllocValid(d.ph.fr, 1);
    if a == 0 {
      AllocNothing(d.ph.fr, 1);
      d' := Draft(d.ph, d.vas + [va], d.pages + [0], d.flags + [PageFlags(false)]);
      BorrowedNone(ph0, d, d');
      return d', false;
    }
    BorrowedLent(ph0, d);
    hide Borrowed, Lent, Valid, AllocRun;
    AllocOneLends(ph0.fr, d.ph.fr, FramesOf(d.pages), multiset{});
    var bytes := ZeroFrame(d.ph.bytes, f);
    d' := Draft(d.ph.(fr := fr, bytes := bytes), d.vas + [va], d.pages + [f], d.flags + [PageFlags(false)]);
    OneFrame(d.pages, f);
    BorrowedMore(ph0, d, d', f);
    ok := true;
  }

  lemma NoFrame(pages: seq<nat>)
    ensures FramesOf(pages + [0]) == FramesOf(pages)
  {
    forall f | f in FramesOf(pages) ensures f in FramesOf(pages + [0]) {
      var k :| 0 <= k < |pages| && pages[k] == f;
      assert (pages + [0])[k] == f;
    }
  }

  lemma OneFrame(pages: seq<nat>, f: nat)
    requires f != 0
    ensures FramesOf(pages + [f]) == FramesOf(pages) + {f}
  {
    var more := pages + [f];
    assert more[|pages|] == f;
    forall g | g in FramesOf(pages) ensures g in FramesOf(more) {
      var k :| 0 <= k < |pages| && pages[k] == g;
      assert more[k] == g;
    }
  }

  lemma BorrowedNone(ph0: Phys, d: Draft, d': Draft)
    requires Borrowed(ph0, d) && d'.pages == d.pages + [0] && d'.ph == d.ph
    ensures Borrowed(ph0, d')
  {
    NoFrame(d.pages);
    hide Lent, PhysOk;
    forall g | g in d.pages
      ensures g in d'.pages
    {
      var k :| 0 <= k < |d.pages| && d.pages[k] == g;
      assert d'.pages[k] == g;
    }
  }

  lemma BorrowedLent(ph0: Phys, d: Draft)
    requires Borrowed(ph0, d)
    ensures Lent(ph0.fr, d.ph.fr, FramesOf(d.pages), multiset{}) && PhysOk(d.ph)
    ensures AllocRun(d.ph.fr, 1).1 != 0 ==> 0 < AllocRun(d.ph.fr, 1).1 / PAGE_SIZE < MAX_PAGES
    ensures forall fr: Frames, bytes: seq<Page> :: Valid(fr) && |bytes| == MAX_PAGES ==>
      PhysOk(d.ph.(fr := fr, bytes := bytes))
  {}

  lemma BorrowedMore(ph0: Phys, d: Draft, d': Draft, f: nat)
    requires Borrowed(ph0, d) && 0 < f < MAX_PAGES && f !in FramesOf(d.pages) && d'.pages == d.pages + [f]
    requires PhysOk(d'.ph) && d'.ph.words == d.ph.words && d'.ph.bytes == d.ph.bytes[f := ZeroPage()]
    requires Lent(ph0.fr, d'.ph.fr, FramesOf(d.pages) + {f}, multiset{})
    ensures Borrowed(ph0, d') && f !in d.pages
  {
    OneFrame(d.pages, f);
    hide Lent, PhysOk;
    assert forall g :: g !in d'.pages ==> g !in d.pages by {
      forall g | g in d.pages
        ensures g in d'.pages
      {
        var k :| 0 <= k < |d.pages| && d.pages[k] == g;
        assert d'.pages[k] == g;
      }
    }
    assert f in d'.pages by { assert d'.pages[|d.pages|] == f; }
  }

  // ---------------------------------------------------------------- first pass: the pages

  lemma WantedMore(rs: seq<E.Range>, r: E.Range, va: nat)
    ensures Wanted(rs + [r], va) <==> In(r, va) || Wanted(rs, va)
    ensures WritableIn(rs + [r], va) <==> (In(r, va) && r.writable) || WritableIn(rs, va)
  {
    assert (rs + [r])[..|rs|] == rs;
  }

  /** Ranges growing by one page: the addresses they hold, and which of them are writable. */
  lemma GrownRange(rs: seq<E.Range>, first: nat, va: nat, w: bool, x: nat)
    requires first <= va && va % PAGE_SIZE == 0 && x % PAGE_SIZE == 0
    ensures Wanted(rs + [E.Range(first, va + PAGE_SIZE, w)], x) <==> x == va || Wanted(rs + [E.Range(first, va, w)], x)
    ensures WritableIn(rs + [E.Range(first, va + PAGE_SIZE, w)], x) <==>
      (x == va && w) || WritableIn(rs + [E.Range(first, va, w)], x)
  {
    WantedMore(rs, E.Range(first, va, w), x);
    WantedMore(rs, E.Range(first, va + PAGE_SIZE, w), x);
    NextPage(va, x);
  }

  lemma NextPage(va: nat, x: nat)
    requires va % PAGE_SIZE == 0 && x % PAGE_SIZE == 0
    ensures va <= x < va + PAGE_SIZE <==> x == va
  {
    assert va == va / PAGE_SIZE * PAGE_SIZE && x == x / PAGE_SIZE * PAGE_SIZE;
  }

  /** One turn of the inner loop: page va of a segment that may or may not write. It fails exactly when a
      new page is needed and the list is full or there is no frame. */
  method AddPage(ghost ph0: Phys, d: Draft, ghost rs: seq<E.Range>, ghost first: nat, va: nat, w: bool, m: E.Image)
    returns (d': Draft, ok: bool)
    requires Borrowed(ph0, d) && Spent(ph0, d) && Listed(d, rs + [E.Range(first, va, w)]) && Filled(d, m, [])
    requires GoodVa(va) && first <= va
    ensures Borrowed(ph0, d')
    ensures ok ==> Spent(ph0, d') && Listed(d', rs + [E.Range(first, va + PAGE_SIZE, w)]) && Filled(d', m, [])
    ensures ok <==> va in d.vas || (|d.vas| < MAX_PAGES_PER_IMAGE && AllocRun(d.ph.fr, 1).1 != 0)
  {
    hide Borrowed, AllocRun, TakeFrames;
    d' := d;
    var idx := FindPage(d.vas, va);
    if idx < 0 {
      if |d.vas| >= MAX_PAGES_PER_IMAGE { return d', false; }
      idx := |d.vas|;
      d', ok := NewPage(ph0, d, va);
      if !ok { return; }
      NewIsFilled(d, d', va, m);
      NewIsSpent(ph0, d, d');
    }
    assert d'.vas[idx] == va;
    ghost var was := d';
    if w {
      d' := d'.(flags := d'.flags[idx := d'.flags[idx].(writable := true)]);
    }
    SameMemory(ph0, was, d', m);
    AddedIsListed(d, d', rs, first, va, w, idx);
    ok := true;
  }

  lemma NewIsSpent(ph0: Phys, d: Draft, d': Draft)
    requires Spent(ph0, d) && |d'.pages| == |d.pages| + 1 && d'.ph.fr == AllocRun(d.ph.fr, 1).0
    requires AllocRun(d.ph.fr, 1).1 != 0
    ensures Spent(ph0, d')
  {
    TakenFree(ph0.fr, |d.pages|);
    OneFree(d.ph.fr);
  }

  /** Flags are no part of what the frames hold. */
  lemma SameMemory(ph0: Phys, d: Draft, d': Draft, m: E.Image)
    requires Borrowed(ph0, d) && Filled(d, m, [])
    requires d'.ph == d.ph && d'.vas == d.vas && d'.pages == d.pages
    ensures Borrowed(ph0, d') && Filled(d', m, [])
  {}

  lemma NewIsFilled(d: Draft, d': Draft, va: nat, m: E.Image)
    requires Filled(d, m, []) && |d'.pages| == |d.pages| + 1 && d'.pages[..|d.pages|] == d.pages
    requires d'.vas == d.vas + [va]
    requires d'.pages[|d.pages|] < MAX_PAGES && d'.pages[|d.pages|] !in d.pages
    requires d'.ph.bytes == d.ph.bytes[d'.pages[|d.pages|] := ZeroPage()]
    ensures Filled(d', m, [])
  {
    var n := |d.pages|;
    forall k, o | 0 <= k < |d'.vas| && 0 <= o < PAGE_SIZE && d'.pages[k] < MAX_PAGES
      ensures d'.ph.bytes[d'.pages[k]][o] == ImageByte(m, [], d'.vas[k] + o)
    {
      if k < n { assert d'.pages[k] == d.pages[k] && d.pages[k] in d.pages; }
    }
  }

  lemma AddedIsListed(d: Draft, d': Draft, rs: seq<E.Range>, first: nat, va: nat, w: bool, idx: nat)
    requires Listed(d, rs + [E.Range(first, va, w)]) && GoodVa(va) && first <= va
    requires (d'.vas == d.vas && d'.pages == d.pages && idx < |d.vas| && d.vas[idx] == va)
          || (va !in d.vas && d'.vas == d.vas + [va] && |d.vas| < MAX_PAGES_PER_IMAGE && idx == |d.vas|
              && |d'.pages| == |d.pages| + 1 && d'.pages[..|d.pages|] == d.pages && 0 < d'.pages[idx] < MAX_PAGES)
    requires |d'.flags| == |d'.vas|
    requires forall k :: 0 <= k < |d.vas| && k != idx ==> d'.flags[k] == d.flags[k]
    requires d'.flags[idx] == PageFlags(w || (idx < |d.vas| && d.flags[idx].writable))
    ensures Listed(d', rs + [E.Range(first, va + PAGE_SIZE, w)])
  {
    var before, after := rs + [E.Range(first, va, w)], rs + [E.Range(first, va + PAGE_SIZE, w)];
    forall x: nat | x % PAGE_SIZE == 0
      ensures (x in d'.vas <==> Wanted(after, x))
      ensures WritableIn(after, x) <==> (x == va && w) || WritableIn(before, x)
    {
      GrownRange(rs, first, va, w, x);
      assert x in d'.vas <==> x == va || x in d.vas;
    }
    UnwantedNotWritable(before, va);
    forall k | 0 <= k < |d'.vas| ensures d'.flags[k] == PageFlags(WritableIn(after, d'.vas[k])) && GoodVa(d'.vas[k])
      && d'.pages[k] != 0 && d'.pages[k] < MAX_PAGES {
      if k < |d.vas| { assert d'.vas[k] == d.vas[k] && d'.pages[k] == d.pages[k] && GoodVa(d.vas[k]); }
    }
  }

  lemma {:induction false} UnwantedNotWritable(rs: seq<E.Range>, va: nat)
    ensures WritableIn(rs, va) ==> Wanted(rs, va)
  {
    if rs != [] { UnwantedNotWritable(rs[..|rs| - 1], va); }
  }

  /** A range that holds no address changes nothing. */
  lemma EmptyRange(d: Draft, rs: seq<E.Range>, r: E.Range)
    requires Listed(d, rs) && r.first >= r.last
    ensures Listed(d, rs + [r])
  {
    forall va: nat ensures Wanted(rs + [r], va) == Wanted(rs, va) && WritableIn(rs + [r], va) == WritableIn(rs, va) {
      WantedMore(rs, r, va);
    }
  }

  /** The pages of a segment lie in user space, below the stack page. */
  lemma SegmentPages(m: E.Image, p: E.Segment)
    requires Sane(m, p) && E.Occupies(p)
    ensures var r := E.RangeOf(p);
      && r.first == E.AlignDown(p.vaddr) && E.AlignUp(p.vaddr + p.memsz) == Some(r.last)
      && USER_BASE <= r.first && r.last <= STACK_PAGE && r.first % PAGE_SIZE == 0 && r.last % PAGE_SIZE == 0
  {
    var first, last := E.AlignDown(p.vaddr), E.AlignUp(p.vaddr + p.memsz).value;
    NextPage(USER_BASE, first);
    assert last == last / PAGE_SIZE * PAGE_SIZE && STACK_PAGE == STACK_PAGE / PAGE_SIZE * PAGE_SIZE;
  }

  lemma PageAfter(va: nat, last: nat)
    requires va % PAGE_SIZE == 0 && last % PAGE_SIZE == 0 && va < last < U32
    ensures va + PAGE_SIZE <= last && (va + PAGE_SIZE) % PAGE_SIZE == 0 && E.Wrap(va + PAGE_SIZE) == va + PAGE_SIZE
  {
    assert va == va / PAGE_SIZE * PAGE_SIZE && last == last / PAGE_SIZE * PAGE_SIZE;
  }

  /** The pages from first up to last, one after the other. */
  method AddPages(ghost ph0: Phys, d: Draft, ghost rs: seq<E.Range>, first: nat, last: nat, w: bool, m: E.Image)
    returns (d': Draft, ok: bool)
    requires Borrowed(ph0, d) && Spent(ph0, d) && Listed(d, rs) && Filled(d, m, [])
    requires USER_BASE <= first <= last <= STACK_PAGE && first % PAGE_SIZE == 0 && last % PAGE_SIZE == 0
    ensures Borrowed(ph0, d')
    ensures ok ==> Spent(ph0, d') && Listed(d', rs + [E.Range(first, last, w)]) && Filled(d', m, [])
    ensures ok <==> PagesFit(ph0.fr, PagesOf(rs + [E.Range(first, last, w)]))
  {
    hide Borrowed, Listed, Filled, Spent, AllocRun, Wanted, PagesOf, PagesFit;
    d', ok := d, true;
    var va := first;
    EmptyRange(d, rs, E.Range(first, first, w));
    while va < last
      invariant first <= va <= last && va % PAGE_SIZE == 0
      invariant Borrowed(ph0, d') && Spent(ph0, d') && Filled(d', m, [])
      invariant Listed(d', rs + [E.Range(first, va, w)])
    {
      ghost var before := d';
      d', ok := AddPage(ph0, d', rs, first, va, w, m);
      if !ok {
        PartOfAll(rs, E.Range(first, va, w), E.Range(first, last, w), va);
        OneTooMany(ph0, before, rs + [E.Range(first, va, w)], va, PagesOf(rs + [E.Range(first, last, w)]));
        return;
      }
      PageAfter(va, last);
      va := E.Wrap(va + PAGE_SIZE);
    }
    ListedFits(ph0, d', rs + [E.Range(first, last, w)]);
    ok := true;
  }

  /** The body of the first loop: every page of one segment. The tests on its end, which validation has
      made, cannot fail; it fails only when the image has more pages than fit the list or the memory. */
  method AddSegment(ghost ph0: Phys, d: Draft, ghost rs: seq<E.Range>, p: E.Segment, m: E.Image)
    returns (d': Draft, ok: bool)
    requires Borrowed(ph0, d) && Spent(ph0, d) && Listed(d, rs) && Filled(d, m, []) && Sane(m, p)
    ensures Borrowed(ph0, d')
    ensures ok ==> Spent(ph0, d') && Listed(d', rs + [E.RangeOf(p)]) && Filled(d', m, [])
    ensures ok <==> PagesFit(ph0.fr, PagesOf(rs + [E.RangeOf(p)]))
  {
    hide Borrowed, Listed, Filled, Spent, AllocRun, Wanted, PagesOf, PagesFit;
    d', ok := d, true;
    if !p.load || p.memsz == 0 {
      EmptyRange(d, rs, E.RangeOf(p));
      ListedFits(ph0, d', rs + [E.RangeOf(p)]);
      return;
    }
    SegmentPages(m, p);
    var first, end := E.AlignDown(p.vaddr), E.Wrap(p.vaddr + p.memsz);
    var top := E.AlignUp(end);
    assert end >= p.vaddr && top.Some?;
    var va, last, w := first, top.value, p.flags / 2 % 2 == 1;
    d', ok := AddPages(ph0, d, rs, va, last, w, m);
  }

  /** The pages so far, and the one now due, are pages of the whole range. */
  lemma PartOfAll(rs: seq<E.Range>, part: E.Range, r: E.Range, va: nat)
    requires part.first == r.first && part.last == va < r.last && r.first <= va < USER_LIMIT && va % PAGE_SIZE == 0
    ensures PagesOf(rs + [part]) <= PagesOf(rs + [r]) && va in PagesOf(rs + [r])
  {
    forall x: nat ensures Wanted(rs + [part], x) ==> Wanted(rs + [r], x) {
      WantedMore(rs, part, x);
      WantedMore(rs, r, x);
    }
    WantedMore(rs, r, va);
  }

  /** The ranges of the first i segments are among those of all. */
  lemma {:induction false} PrefixPages(rs: seq<E.Range>, i: nat)
    requires i <= |rs|
    ensures PagesOf(rs[..i]) <= PagesOf(rs)
    decreases |rs| - i
  {
    if i < |rs| {
      PrefixPages(rs, i + 1);
      assert rs[..i + 1] == rs[..i] + [rs[i]];
      forall x: nat ensures Wanted(rs[..i], x) ==> Wanted(rs[..i + 1], x) { WantedMore(rs[..i], rs[i], x); }
    } else {
      assert rs[..i] == rs;
    }
  }

  /** The first loop: the pages of all segments. It succeeds exactly when they fit the list and the memory. */
  method AddAll(ghost ph0: Phys, d: Draft, m: E.Image) returns (d': Draft, ok: bool)
    requires Borrowed(ph0, d) && Spent(ph0, d) && E.Loadable(m)
    requires d.vas == [] && d.pages == [] && d.flags == []
    ensures Borrowed(ph0, d')
    ensures ok ==> Spent(ph0, d') && Listed(d', RangesOf(Segs(m, E.Segments(m)))) && Filled(d', m, [])
    ensures ok <==> PagesFit(ph0.fr, PagesOf(RangesOf(Segs(m, E.Segments(m)))))
  {
    hide Borrowed, Spent, E.Loadable, Filled, Listed, PagesOf, PagesFit, Sane, RangesOf, Segs, E.Seg, E.RangeOf;
    hide E.HeaderOk;
    hide E.TableInside;
    d', ok := d, true;
    Headers(m);
    ghost var rs := RangesOf(Segs(m, E.Segments(m)));
    NoRanges(m);
    NothingFilled(ph0, d, m);
    NothingListed(d, RangesOf(Segs(m, 0)));
    for i := 0 to E.Segments(m)
      invariant Borrowed(ph0, d') && Spent(ph0, d') && Listed(d', RangesOf(Segs(m, i))) && Filled(d', m, [])
    {
      var p := E.ReadSegment(m, E.TableAt(m), E.Stride(m), i);
      SaneSeg(m, i);
      NextRanges(m, i);
      PrefixPages(rs, i + 1);
      d', ok := AddSegment(ph0, d', RangesOf(Segs(m, i)), p, m);
      if !ok {
        TooMany(ph0.fr, PagesOf(rs[..i + 1]), PagesOf(rs));
        return;
      }
    }
    ListedFits(ph0, d', rs);
    ok := true;
  }

  lemma NoRanges(m: E.Image)
    requires E.HeaderOk(m) && E.TableInside(m)
    ensures RangesOf(Segs(m, 0)) == []
  {}

  lemma SaneSeg(m: E.Image, i: nat)
    requires E.Loadable(m) && i < E.Segments(m)
    ensures Sane(m, E.Seg(m, i))
  {}

  lemma NextRanges(m: E.Image, i: nat)
    requires E.HeaderOk(m) && E.TableInside(m) && i < E.Segments(m)
    ensures RangesOf(Segs(m, i)) + [E.RangeOf(E.Seg(m, i))] == RangesOf(Segs(m, i + 1))
    ensures RangesOf(Segs(m, i + 1)) == RangesOf(Segs(m, E.Segments(m)))[..i + 1]
  {
    hide E.Seg, E.RangeOf, E.HeaderOk, E.TableInside;
  }

  lemma NothingListed(d: Draft, rs: seq<E.Range>)
    requires rs == [] && d.vas == [] && d.pages == [] && d.flags == []
    ensures Listed(d, rs)
  {}

  lemma NothingFilled(ph0: Phys, d: Draft, m: E.Image)
    requires Borrowed(ph0, d) && d.vas == [] && d.pages == []
    ensures Filled(d, m, [])
  {}

  lemma Headers(m: E.Image)
    requires E.Loadable(m)
    ensures E.HeaderOk(m) && E.TableInside(m)
  {}

  lemma ListedFits(ph0: Phys, d: Draft, rs: seq<E.Range>)
    requires Listed(d, rs) && Spent(ph0, d)
    ensures PagesFit(ph0.fr, PagesOf(rs))
  {
    ListedSize(d, rs);
  }

  // ---------------------------------------------------------------- second pass: the bytes

  /** The same segment with only its first n bytes in the file. */
  function Cut(p: E.Segment, n: nat): E.Segment { p.(filesz := n) }

  lemma CutSane(m: E.Image, p: E.Segment, n: nat)
    requires Sane(m, p) && n <= p.filesz
    ensures Sane(m, Cut(p, n))
  {}

  lemma ImageByteMore(m: E.Image, segs: seq<E.Segment>, p: E.Segment, va: nat)
    requires AllSane(m, segs) && Sane(m, p)
    ensures AllSane(m, segs + [p])
    ensures ImageByte(m, segs + [p], va) ==
      if Covers(p, va) then m[p.offset + (va - p.vaddr)] else ImageByte(m, segs, va)
  {
    assert (segs + [p])[..|segs|] == segs;
  }

  /** Storing byte n of a segment where it belongs. */
  function StoreAt(d: Draft, idx: nat, o: nat, b: byte): Draft
    requires idx < |d.pages| && d.pages[idx] < |d.ph.bytes| && o < PAGE_SIZE
  {
    var f := d.pages[idx];
    d.(ph := d.ph.(bytes := d.ph.bytes[f := d.ph.bytes[f][o := b]]))
  }

  /** Where byte n of a segment goes: one page, one offset. */
  lemma PageOffset(base: nat, o: nat, x: nat)
    requires base % PAGE_SIZE == 0 && o < PAGE_SIZE
    ensures base + o == x <==> base == E.AlignDown(x) && o == x % PAGE_SIZE
  {
    assert base == base / PAGE_SIZE * PAGE_SIZE;
  }

  /** The segments done so far, the last of them with its first n bytes. */
  function Part(segs: seq<E.Segment>, p: E.Segment, n: nat): seq<E.Segment> { segs + [Cut(p, n)] }

  lemma PartSane(m: E.Image, segs: seq<E.Segment>, p: E.Segment, n: nat)
    requires AllSane(m, segs) && Sane(m, p) && n <= p.filesz
    ensures AllSane(m, Part(segs, p, n))
  {
    CutSane(m, p, n);
  }

  lemma PartByte(m: E.Image, segs: seq<E.Segment>, p: E.Segment, n: nat, va: nat)
    requires AllSane(m, segs) && Sane(m, p) && p.load && n < p.filesz
    ensures AllSane(m, Part(segs, p, n)) && AllSane(m, Part(segs, p, n + 1)) && p.offset + n < |m|
    ensures ImageByte(m, Part(segs, p, n + 1), va) ==
      if va == p.vaddr + n then m[p.offset + n] else ImageByte(m, Part(segs, p, n), va)
  {
    CutSane(m, p, n);
    CutSane(m, p, n + 1);
    ImageByteMore(m, segs, Cut(p, n), va);
    ImageByteMore(m, segs, Cut(p, n + 1), va);
  }

  lemma StoredShape(d: Draft, idx: nat, x: nat, b: byte)
    requires idx < |d.pages| && d.pages[idx] < |d.ph.bytes| && x < PAGE_SIZE
    ensures var d' := StoreAt(d, idx, x, b);
      d'.vas == d.vas && d'.pages == d.pages && |d'.ph.bytes| == |d.ph.bytes|
  {}

  lemma StoredByte(d: Draft, idx: nat, x: nat, b: byte, k: nat, o: nat)
    requires idx < |d.pages| && d.pages[idx] < |d.ph.bytes| && x < PAGE_SIZE && Distinct(d.pages)
    requires k < |d.pages| && 0 < d.pages[k] < |d.ph.bytes| && 0 < d.pages[idx] && o < PAGE_SIZE
    ensures StoreAt(d, idx, x, b).ph.bytes[d.pages[k]][o] ==
      if k == idx && o == x then b else d.ph.bytes[d.pages[k]][o]
  {
    if k != idx { assert d.pages[k] != d.pages[idx]; }
  }

  lemma StoredFills(m: E.Image, d: Draft, segs: seq<E.Segment>, p: E.Segment, n: nat, idx: nat)
    requires AllSane(m, segs) && Sane(m, p) && p.load && n < p.filesz && AllSane(m, Part(segs, p, n))
    requires Filled(d, m, Part(segs, p, n)) && Distinct(d.pages)
    requires forall k :: 0 <= k < |d.vas| ==> d.vas[k] % PAGE_SIZE == 0 && 0 < d.pages[k] < MAX_PAGES
    requires forall k :: 0 <= k < |d.vas| ==> (d.vas[k] == E.AlignDown(p.vaddr + n) <==> k == idx)
    requires idx < |d.vas|
    ensures p.offset + n < |m| && AllSane(m, Part(segs, p, n + 1))
    ensures Filled(StoreAt(d, idx, (p.vaddr + n) % PAGE_SIZE, m[p.offset + n]), m, Part(segs, p, n + 1))
  {
    hide ImageByte, AllSane, Sane, Part, Covers, E.AlignDown, StoreAt;
    PartByte(m, segs, p, n, 0);
    var x := p.vaddr + n;
    var d' := StoreAt(d, idx, x % PAGE_SIZE, m[p.offset + n]);
    StoredShape(d, idx, x % PAGE_SIZE, m[p.offset + n]);
    forall k, o | 0 <= k < |d'.vas| && 0 <= o < PAGE_SIZE && d'.pages[k] < MAX_PAGES
      ensures d'.ph.bytes[d'.pages[k]][o] == ImageByte(m, Part(segs, p, n + 1), d'.vas[k] + o)
    {
      PartByte(m, segs, p, n, d.vas[k] + o);
      PageOffset(d.vas[k], o, x);
      StoredByte(d, idx, x % PAGE_SIZE, m[p.offset + n], k, o);
      assert d.ph.bytes[d.pages[k]][o] == ImageByte(m, Part(segs, p, n), d.vas[k] + o);
    }
  }

  /** The page of byte n is in the list: find_page cannot fail here. */
  lemma PageListed(m: E.Image, d: Draft, rs: seq<E.Range>, p: E.Segment, n: nat, i: nat)
    requires Listed(d, rs) && Sane(m, p) && p.load && n < p.filesz && i < |rs| && rs[i] == E.RangeOf(p)
    ensures E.AlignDown(p.vaddr + n) in d.vas && p.vaddr + n < U32
    ensures E.Wrap(p.vaddr + n) == p.vaddr + n
  {
    SegmentPages(m, p);
    var x := E.AlignDown(p.vaddr + n);
    assert x <= p.vaddr + n < E.RangeOf(p).last;
    PageFloor(p.vaddr, p.vaddr + n);
    WantedAt(rs, i, x);
  }

  lemma PageFloor(a: nat, b: nat)
    requires a <= b
    ensures E.AlignDown(a) <= E.AlignDown(b)
  {}

  lemma {:induction false} WantedAt(rs: seq<E.Range>, i: nat, va: nat)
    requires i < |rs| && In(rs[i], va)
    ensures Wanted(rs, va)
  {
    if i < |rs| - 1 { WantedAt(rs[..|rs| - 1], i, va); }
  }

  /** Storing keeps the accounts: only a listed frame changes. */
  lemma StoredBorrowed(ph0: Phys, d: Draft, idx: nat, o: nat, b: byte)
    requires Borrowed(ph0, d) && idx < |d.pages| && 0 < d.pages[idx] < MAX_PAGES && o < PAGE_SIZE
    ensures Borrowed(ph0, StoreAt(d, idx, o, b))
  {
    hide Lent;
    assert d.pages[idx] in FramesOf(d.pages);
  }

  lemma StoredListed(d: Draft, rs: seq<E.Range>, idx: nat, o: nat, b: byte)
    requires Listed(d, rs) && idx < |d.pages| && d.pages[idx] < |d.ph.bytes| && o < PAGE_SIZE
    ensures Listed(StoreAt(d, idx, o, b), rs)
  {}

  /** The bytes of one segment. */
  method CopySegment(ghost ph0: Phys, d: Draft, ghost rs: seq<E.Range>, m: E.Image, ghost segs: seq<E.Segment>,
                     p: E.Segment)
    returns (d': Draft, ok: bool)
    requires Borrowed(ph0, d) && Listed(d, rs) && AllSane(m, segs) && Sane(m, p) && Filled(d, m, segs)
    requires |segs| < |rs| && rs[|segs|] == E.RangeOf(p)
    ensures ok && Borrowed(ph0, d') && Listed(d', rs) && AllSane(m, segs + [p]) && Filled(d', m, segs + [p])
    ensures Kept(d, d')
  {
    hide Borrowed, Filled, ImageByte, Sane, AllSane, E.RangeOf, Listed, Part;
    d', ok := d, true;
    if !p.load || p.filesz == 0 {
      NothingCopied(m, d, segs, p);
      return;
    }
    PartStart(m, d, segs, p);
    for n := 0 to p.filesz
      invariant Borrowed(ph0, d') && Listed(d', rs) && AllSane(m, Part(segs, p, n)) && Filled(d', m, Part(segs, p, n))
      invariant Kept(d, d')
    {
      d' := CopyByte(ph0, d', rs, m, segs, p, n);
    }
    PartEnd(segs, p);
  }

  lemma PartStart(m: E.Image, d: Draft, segs: seq<E.Segment>, p: E.Segment)
    requires AllSane(m, segs) && Sane(m, p) && Filled(d, m, segs)
    ensures AllSane(m, Part(segs, p, 0)) && Filled(d, m, Part(segs, p, 0))
  {
    PartSane(m, segs, p, 0);
    CutSane(m, p, 0);
    NothingCopied(m, d, segs, Cut(p, 0));
  }

  lemma PartEnd(segs: seq<E.Segment>, p: E.Segment)
    ensures Part(segs, p, p.filesz) == segs + [p]
  {}

  /** Byte n of a segment, to the page that find_page gives. */
  method CopyByte(ghost ph0: Phys, d: Draft, ghost rs: seq<E.Range>, m: E.Image, ghost segs: seq<E.Segment>,
                  p: E.Segment, n: nat)
    returns (d': Draft)
    requires Borrowed(ph0, d) && Listed(d, rs) && AllSane(m, segs) && Sane(m, p) && p.load && n < p.filesz
    requires AllSane(m, Part(segs, p, n)) && Filled(d, m, Part(segs, p, n))
    requires |segs| < |rs| && rs[|segs|] == E.RangeOf(p)
    ensures Borrowed(ph0, d') && Listed(d', rs) && AllSane(m, Part(segs, p, n + 1))
    ensures Filled(d', m, Part(segs, p, n + 1))
    ensures Kept(d, d')
  {
    assert p.offset + n < |m| && Distinct(d.pages) && |d.pages| == |d.vas| && |d.ph.bytes| == MAX_PAGES;
    PageListed(m, d, rs, p, n, |segs|);
    hide Borrowed, Filled, ImageByte, Sane, AllSane, E.RangeOf, E.AlignDown, Part, Wanted, WritableIn;
    var va := E.Wrap(p.vaddr + n);
    var idx := FindPage(d.vas, E.AlignDown(va));
    StoredFills(m, d, segs, p, n, idx);
    hide Listed;
    StoredBorrowed(ph0, d, idx, va % PAGE_SIZE, m[p.offset + n]);
    StoredListed(d, rs, idx, va % PAGE_SIZE, m[p.offset + n]);
    d' := StoreAt(d, idx, va % PAGE_SIZE, m[p.offset + n]);
  }

  /** A segment without bytes in the file covers nothing. */
  lemma NothingCopied(m: E.Image, d: Draft, segs: seq<E.Segment>, p: E.Segment)
    requires AllSane(m, segs) && Sane(m, p) && (!p.load || p.filesz == 0) && Filled(d, m, segs)
    ensures AllSane(m, segs + [p]) && Filled(d, m, segs + [p])
  {
    ImageByteMore(m, segs, p, 0);
    forall va: nat ensures ImageByte(m, segs + [p], va) == ImageByte(m, segs, va) { ImageByteMore(m, segs, p, va); }
  }

  /** The second loop: the bytes of all segments, in table order. It cannot fail. */
  method CopyAll(ghost ph0: Phys, d: Draft, m: E.Image) returns (d': Draft, ok: bool)
    requires Borrowed(ph0, d) && E.Loadable(m) && Listed(d, RangesOf(Segs(m, E.Segments(m)))) && Filled(d, m, [])
    ensures ok && Borrowed(ph0, d') && Listed(d', RangesOf(Segs(m, E.Segments(m))))
    ensures AllSane(m, Segs(m, E.Segments(m))) && Filled(d', m, Segs(m, E.Segments(m))) && Kept(d, d')
  {
    hide Borrowed, E.Seg, E.SegmentOk, E.SegmentFits, E.RangeOf, Listed, Filled;
    d', ok := d, true;
    ghost var all := Segs(m, E.Segments(m));
    assert AllSane(m, all);
    for i := 0 to E.Segments(m)
      invariant Borrowed(ph0, d') && Listed(d', RangesOf(all))
      invariant AllSane(m, Segs(m, i)) && Filled(d', m, Segs(m, i)) && Kept(d, d')
    {
      var p := E.ReadSegment(m, E.TableAt(m), E.Stride(m), i);
      d', ok := CopySegment(ph0, d', RangesOf(all), m, Segs(m, i), p);
      assert Segs(m, i) + [p] == Segs(m, i + 1);
    }
    ok := true;
  }

  // ---------------------------------------------------------------- ranges and segments

  /** A segment has a byte in memory on this page. */
  predicate Touches(p: E.Segment, page: nat) {
    E.Occupies(p) && p.vaddr < page + PAGE_SIZE && page < p.vaddr + p.memsz
  }

  predicate MayWrite(p: E.Segment) { p.flags / 2 % 2 == 1 }

  lemma RangeTouches(m: E.Image, p: E.Segment, page: nat)
    requires Sane(m, p) && page % PAGE_SIZE == 0
    ensures In(E.RangeOf(p), page) <==> Touches(p, page)
    ensures Touches(p, page) ==> E.RangeOf(p).writable == MayWrite(p)
  {
    if E.Occupies(p) {
      SegmentPages(m, p);
      var first, last := E.AlignDown(p.vaddr), E.RangeOf(p).last;
      assert first <= page <==> p.vaddr < page + PAGE_SIZE by { PageSteps(first, page); }
      assert page < last <==> page < p.vaddr + p.memsz by { PageSteps(page, last); PageSteps(last, page); }
    }
  }

  /** Page addresses differ by whole pages. */
  lemma PageSteps(a: nat, b: nat)
    requires a % PAGE_SIZE == 0 && b % PAGE_SIZE == 0
    ensures a < b ==> a + PAGE_SIZE <= b
  {
    assert a == a / PAGE_SIZE * PAGE_SIZE && b == b / PAGE_SIZE * PAGE_SIZE;
  }

  lemma SaneFront(m: E.Image, segs: seq<E.Segment>)
    requires AllSane(m, segs) && segs != []
    ensures AllSane(m, segs[..|segs| - 1]) && Sane(m, segs[|segs| - 1])
  {
    hide Sane;
  }

  /** A page is wanted exactly when a segment touches it, and writable exactly when a writable one does. */
  lemma {:induction false} TouchedIff(m: E.Image, segs: seq<E.Segment>, page: nat)
    requires AllSane(m, segs) && page % PAGE_SIZE == 0
    ensures Wanted(RangesOf(segs), page) <==> exists i :: 0 <= i < |segs| && Touches(segs[i], page)
    ensures WritableIn(RangesOf(segs), page) <==>
      exists i :: 0 <= i < |segs| && Touches(segs[i], page) && MayWrite(segs[i])
  {
    hide Touches, MayWrite, AllSane, In, E.RangeOf, Sane;
    if segs != [] {
      var n := |segs| - 1;
      SaneFront(m, segs);
      TouchedIff(m, segs[..n], page);
      RangeTouches(m, segs[n], page);
      assert RangesOf(segs)[..n] == RangesOf(segs[..n]);
      assert forall i :: 0 <= i < n ==> segs[..n][i] == segs[i];
    }
  }
}
