/** Runs of a small machine from its start, on which the properties that do not hold are seen to fail. */
module Scenarios {
  import opened Common
  import opened Memory
  import opened Paging
  import opened Demand
  import opened Supervisor
  import opened Cow
  import opened Fork
  import opened ForkProof
  import opened ForkEnds
  import opened VmRun
  import opened SystemRun
  import X = ExecRun
  import Exec
  import L = Loader
  import E = Elf

  // ---------------------------------------------------------------- a program

  /** An executable of two pages, byte by byte where it is not zero: the header, and a program header each for
      code at USER_BASE, not writable, and for data behind it. */
  function FileByte(i: nat): byte {
    if i < 52 then HeaderByte(i) else if i < 84 then SegmentByte(i - 52, 0, 5) else SegmentByte(i - 84, 16, 6)
  }

  function HeaderByte(i: nat): byte {
    if i == 0 then 0x7F else if i == 1 then 69 else if i == 2 then 76 else if i == 3 then 70
    else if i == 4 || i == 5 || i == 20 then 1
    else if i == 16 || i == 44 then 2
    else if i == 18 then 3
    else if i == 27 then 16
    else if i == 28 || i == 40 then 52
    else if i == 42 then 32
    else 0
  }

  function SegmentByte(i: nat, page: byte, flags: byte): byte {
    if i == 0 || i == 20 then 1 else if i == 9 then page else if i == 11 then 16 else if i == 24 then flags else 0
  }

  function TwoPages(): E.Image { seq(116, i requires 0 <= i < 116 => FileByte(i)) }

  const CODE: nat := USER_BASE
  const DATA: nat := USER_BASE + PAGE_SIZE

  lemma Header()
    ensures |TwoPages()| == 116
    ensures E.HeaderOk(TwoPages()) && E.TableInside(TwoPages()) && E.Segments(TwoPages()) == 2
    ensures E.Entry(TwoPages()) == CODE && E.TableAt(TwoPages()) == 52 && E.Stride(TwoPages()) == 32
  {}

  /** A word of the file, from its bytes. */
  lemma WordIs(at: nat, a: byte, b: byte, c: byte, d: byte)
    requires at + 4 <= 116
    requires FileByte(at) == a && FileByte(at + 1) == b && FileByte(at + 2) == c && FileByte(at + 3) == d
    ensures |TwoPages()| == 116 && E.Word(TwoPages(), at) == FromLe(a, b, c, d)
  {
    hide FileByte, FromLe;
  }

  /** The bytes from `at` on are a program header for this page, with these flags. */
  predicate HeaderAt(at: nat, page: byte, flags: byte) {
    forall i :: at <= i < at + 32 ==> FileByte(i) == SegmentByte(i - at, page, flags)
  }

  lemma SegmentWord(at: nat, page: byte, flags: byte, o: nat, a: byte, b: byte, c: byte, d: byte)
    requires HeaderAt(at, page, flags) && at + 32 <= 116 && o + 4 <= 32
    requires SegmentByte(o, page, flags) == a && SegmentByte(o + 1, page, flags) == b
    requires SegmentByte(o + 2, page, flags) == c && SegmentByte(o + 3, page, flags) == d
    ensures |TwoPages()| == 116 && E.Word(TwoPages(), at + o) == FromLe(a, b, c, d)
  {
    hide FileByte, SegmentByte, TwoPages, E.Word, FromLe;
    WordIs(at + o, a, b, c, d);
  }

  lemma Bytes(page: byte, flags: byte)
    ensures SegmentByte(0, page, flags) == 1 && SegmentByte(9, page, flags) == page
    ensures SegmentByte(11, page, flags) == 16
    ensures SegmentByte(20, page, flags) == 1 && SegmentByte(24, page, flags) == flags
    ensures forall i :: 0 <= i < 32 && i !in {0, 9, 11, 20, 24} ==> SegmentByte(i, page, flags) == 0
  {}

  /** The fields of a program header. */
  lemma HeaderWords(at: nat, page: byte, flags: byte)
    requires HeaderAt(at, page, flags) && at + 32 <= 116
    ensures |TwoPages()| == 116
    ensures E.SegmentAt(TwoPages(), at) == E.Segment(true, 0, FromLe(0, page, 0, 16), 0, 1, FromLe(flags, 0, 0, 0))
  {
    hide FileByte, TwoPages, E.Word, HeaderAt, SegmentByte, FromLe;
    Bytes(page, flags);
    SmallWords();
    SegmentWord(at, page, flags, 0, 1, 0, 0, 0);
    SegmentWord(at, page, flags, 4, 0, 0, 0, 0);
    SegmentWord(at, page, flags, 8, 0, page, 0, 16);
    SegmentWord(at, page, flags, 16, 0, 0, 0, 0);
    SegmentWord(at, page, flags, 20, 1, 0, 0, 0);
    SegmentWord(at, page, flags, 24, flags, 0, 0, 0);
  }

  lemma SmallWords()
    ensures FromLe(0, 0, 0, 0) == 0 && FromLe(1, 0, 0, 0) == 1
  {
    hide *;
    FromLeByte(0);
    FromLeByte(1);
  }

  lemma CodeSegment()
    ensures |TwoPages()| == 116 && E.SegmentAt(TwoPages(), 52) == E.Segment(true, 0, CODE, 0, 1, 5)
  {
    hide TwoPages, SegmentByte, HeaderByte, E.SegmentAt;
    assert HeaderAt(52, 0, 5);
    HeaderWords(52, 0, 5);
  }

  lemma DataSegment()
    ensures |TwoPages()| == 116 && E.SegmentAt(TwoPages(), 84) == E.Segment(true, 0, DATA, 0, 1, 6)
  {
    hide TwoPages, SegmentByte, HeaderByte, E.SegmentAt;
    assert HeaderAt(84, 16, 6);
    HeaderWords(84, 16, 6);
  }

  lemma Fields()
    ensures E.HeaderOk(TwoPages()) && E.TableInside(TwoPages()) && E.Segments(TwoPages()) == 2
    ensures E.Entry(TwoPages()) == CODE
    ensures E.Seg(TwoPages(), 0) == E.Segment(true, 0, CODE, 0, 1, 5)
    ensures E.Seg(TwoPages(), 1) == E.Segment(true, 0, DATA, 0, 1, 6)
  {
    hide TwoPages, E.SegmentAt, E.HeaderOk, E.TableInside, E.Segments, E.Stride, E.TableAt, E.Entry;
    Header();
    CodeSegment();
    DataSegment();
  }

  /** One page at a page address in user space is a segment the loader takes. */
  lemma OnePage(m: E.Image, page: nat, flags: nat)
    requires USER_BASE <= page < L.STACK_PAGE && page % PAGE_SIZE == 0 && flags < 8 && flags > 0
    ensures var p := E.Segment(true, 0, page, 0, 1, flags);
      && E.Occupies(p) && E.SegmentOk(m, p) && E.SegmentFits(p)
      && E.RangeOf(p) == E.Range(page, page + PAGE_SIZE, flags / 2 % 2 == 1)
  {
    var q := page / PAGE_SIZE;
    assert page == q * PAGE_SIZE && (page + PAGE_SIZE) / PAGE_SIZE == q + 1;
  }

  lemma SegmentsTaken()
    ensures E.HeaderOk(TwoPages()) && E.TableInside(TwoPages()) && E.Segments(TwoPages()) == 2
    ensures USER_BASE <= E.Entry(TwoPages()) < USER_LIMIT
    ensures forall i :: 0 <= i < 2 ==>
      var p := E.Seg(TwoPages(), i); E.Occupies(p) && E.SegmentOk(TwoPages(), p) && E.SegmentFits(p)
    ensures E.RangeOf(E.Seg(TwoPages(), 0)) == E.Range(CODE, DATA, false)
    ensures E.RangeOf(E.Seg(TwoPages(), 1)) == E.Range(DATA, DATA + PAGE_SIZE, true)
  {
    hide TwoPages, E.Seg, E.HeaderOk, E.TableInside, E.SegmentOk, E.SegmentFits, E.RangeOf, E.Segments, E.Entry;
    Fields();
    OnePage(TwoPages(), CODE, 5);
    OnePage(TwoPages(), DATA, 6);
  }

  lemma Ranges()
    ensures E.Loadable(TwoPages())
    ensures L.RangesOf(Exec.AllSegs(TwoPages())) == [E.Range(CODE, DATA, false), E.Range(DATA, DATA + PAGE_SIZE, true)]
  {
    hide TwoPages, E.Seg, E.HeaderOk, E.TableInside, E.SegmentOk, E.SegmentFits, E.RangeOf, E.Segments, E.Entry;
    SegmentsTaken();
    assert E.Occupies(E.Seg(TwoPages(), 0));
  }

  lemma Pages()
    ensures E.Loadable(TwoPages()) && Exec.ImagePages(TwoPages()) == {CODE, DATA, L.STACK_PAGE}
    ensures var rs := L.RangesOf(Exec.AllSegs(TwoPages())); L.Wanted(rs, CODE) && !L.WritableIn(rs, CODE)
  {
    hide TwoPages, L.RangesOf, Exec.AllSegs, E.HeaderOk, E.TableInside, E.WellFormed, L.PagesOf, L.Wanted, L.WritableIn;
    Ranges();
    var code, data := E.Range(CODE, DATA, false), E.Range(DATA, DATA + PAGE_SIZE, true);
    TwoRanges(code, data, CODE);
    PagesOfTwo(code, data);
  }

  lemma PagesOfTwo(code: E.Range, data: E.Range)
    requires code.first == CODE && code.last == DATA == data.first && data.last == DATA + PAGE_SIZE
    ensures L.PagesOf([code, data]) == {CODE, DATA}
  {
    hide L.Wanted;
    forall va: nat | va % PAGE_SIZE == 0 ensures L.Wanted([code, data], va) <==> va == CODE || va == DATA {
      TwoRanges(code, data, va);
      L.NextPage(CODE, va);
      L.NextPage(DATA, va);
    }
  }

  lemma HowMany()
    ensures |{CODE, DATA, L.STACK_PAGE}| == 3 && |DirsIn({CODE, DATA, L.STACK_PAGE})| == 2
    ensures Exec.Needed({CODE, DATA, L.STACK_PAGE}) == 10
  {
    assert DirsIn({CODE, DATA, L.STACK_PAGE}) == {DirOf(CODE), DirOf(L.STACK_PAGE)};
    assert DirOf(CODE) == DirOf(DATA) != DirOf(L.STACK_PAGE);
  }

  lemma TwoRanges(a: E.Range, b: E.Range, va: nat)
    ensures L.Wanted([a, b], va) <==> L.In(a, va) || L.In(b, va)
    ensures L.WritableIn([a, b], va) <==> (L.In(a, va) && a.writable) || (L.In(b, va) && b.writable)
  {
    assert [] + [a] == [a] && [a] + [b] == [a, b];
    L.WantedMore([], a, va);
    L.WantedMore([a], b, va);
  }

  // ---------------------------------------------------------------- a machine

  /** Every frame from j up to e free, every other in use once. */
  function From(j: nat, e: nat): Frames
    requires j <= e
  {
    Frames(seq(MAX_PAGES, i => i < j || e <= i), seq(MAX_PAGES, i => if i < j || e <= i then 1 else 0), MAX_PAGES,
           e - j)
  }

  lemma {:induction false} CountFrom(j: nat, e: nat, n: nat)
    requires j <= e
    ensures CountFree(seq(n, i => i < j || e <= i)) == if n <= j then 0 else if n <= e then n - j else e - j
  {
    if n > 0 {
      CountFrom(j, e, n - 1);
      assert seq(n, i => i < j || e <= i)[..n - 1] == seq(n - 1, i => i < j || e <= i);
    }
  }

  lemma FromValid(j: nat, e: nat)
    requires RESERVED_PAGES <= j <= e <= MAX_PAGES
    ensures Valid(From(j, e))
  {
    CountFrom(j, e, MAX_PAGES);
  }

  /** Allocation takes the next frames. */
  lemma FromAlloc(j: nat, e: nat, n: nat)
    requires RESERVED_PAGES <= j <= e <= MAX_PAGES && 0 < n <= e - j
    ensures Valid(From(j, e)) && AllocRun(From(j, e), n) == (From(j + n, e), j * PAGE_SIZE)
  {
    FromValid(j, e);
    var fr := From(j, e);
    assert RunFree(fr.used, j, n);
    var p := FirstRun(fr.used, n, RESERVED_PAGES).value;
    assert RunFree(fr.used, p, n) && !fr.used[p];
    FreeRunFits(fr.used, j, n);
    assert TakeRun(fr, j, n) == From(j + n, e);
  }

  lemma {:induction false} FromTake(j: nat, e: nat, n: nat)
    requires RESERVED_PAGES <= j <= e <= MAX_PAGES && n <= e - j
    ensures Valid(From(j, e)) && TakeFrames(From(j, e), n) == From(j + n, e)
  {
    hide From, AllocRun, Valid;
    FromValid(j, e);
    if n > 0 {
      FromTake(j, e, n - 1);
      OneMore(From(j, e), n - 1);
      FromAlloc(j + n - 1, e, 1);
    }
  }

  /** A machine without processes, with k free frames. */
  function Machine(k: nat, kernel: seq<Table>): Sys {
    var fr := From(RESERVED_PAGES, RESERVED_PAGES + k);
    Sys(Phys(fr, seq(MAX_PAGES, _ => ZeroTable()), seq(MAX_PAGES, _ => ZeroPage())),
        kernel, seq(MAX_PROCESSES, i => if i == 0 then Kernel else Unused))
  }

  lemma MachineStarts(k: nat, kernel: seq<Table>)
    requires k <= MAX_PAGES - RESERVED_PAGES && |kernel| == 4
    ensures NoProcesses(Machine(k, kernel)) && Ok(Machine(k, kernel)) && Valid(Machine(k, kernel).ph.fr)
  {
    FromValid(RESERVED_PAGES, RESERVED_PAGES + k);
    hide Valid, From;
    NoProcessesOk(Machine(k, kernel));
  }

  /** The program takes eleven frames. */
  lemma Taken(k: nat)
    requires 10 < k <= MAX_PAGES - RESERVED_PAGES
    ensures var fr, pages := From(RESERVED_PAGES, RESERVED_PAGES + k), {CODE, DATA, L.STACK_PAGE};
      && Valid(fr) && Exec.SpaceFits(fr, pages) && L.PagesFit(fr, pages)
      && X.RunTaken(fr, pages) == From(RESERVED_PAGES + 11, RESERVED_PAGES + k)
  {
    hide From, AllocRun, Valid, TakeFrames, DirsIn;
    var j, e := RESERVED_PAGES, RESERVED_PAGES + k;
    FromFree(j, e);
    FromValid(j, e);
    HowMany();
    FromTake(j, e, 3);
    FromAlloc(j + 3, e, PROCESS_PAGING_PAGES);
    FromTake(j + 8, e, 2);
    FromAlloc(j + 10, e, 1);
  }

  lemma FromFree(j: nat, e: nat)
    requires j <= e
    ensures From(j, e).free == e - j
  {}

  lemma Fits(k: nat, kernel: seq<Table>, name: seq<byte>)
    requires 10 < k <= MAX_PAGES - RESERVED_PAGES && |kernel| == 4 && |name| <= L.NAME_LIMIT
    ensures Valid(Machine(k, kernel).ph.fr) && X.CanRun(Machine(k, kernel), TwoPages(), name)
  {
    hide From, Valid, TwoPages, Machine, NoProcesses, Ok, Exec.ImagePages, Exec.SpaceFits, L.PagesFit, Exec.Needed;
    hide DirsIn;
    hide E.Loadable, L.RangesOf, Exec.AllSegs;
    MachineStarts(k, kernel);
    MachineFrames(k, kernel);
    MachineSlots(k, kernel);
    Pages();
    Taken(k);
    HowMany();
    FromFree(RESERVED_PAGES, RESERVED_PAGES + k);
  }

  lemma MachineFrames(k: nat, kernel: seq<Table>)
    ensures Machine(k, kernel).ph.fr == From(RESERVED_PAGES, RESERVED_PAGES + k)
  {}

  lemma MachineSlots(k: nat, kernel: seq<Table>)
    ensures var slots := Machine(k, kernel).slots;
      && |slots| == MAX_PROCESSES && slots[0].Kernel? && slots[1].Unused? && slots[2].Unused?
      && FreeSlot(slots, 0).Some?
  {}

  // ---------------------------------------------------------------- the program starts

  /** What the machine is once the program runs in slot c. */
  ghost predicate Started(k: nat, kernel: seq<Table>, name: seq<byte>, sys: Sys, c: nat) {
    && 10 < k <= MAX_PAGES - RESERVED_PAGES && |kernel| == 4
    && X.Runs(Machine(k, kernel), TwoPages(), name, sys, c)
    && Ok(sys) && PhysOk(sys.ph) && UserProcess(sys, c) && FreeSlot(sys.slots, 0).Some?
    && sys.ph.fr == From(RESERVED_PAGES + 11, RESERVED_PAGES + k) && |DirsOf(sys.slots[c].vas)| == 2
  }

  lemma Starts(k: nat, kernel: seq<Table>, name: seq<byte>, event: Event, sys: Sys)
    requires 10 < k <= MAX_PAGES - RESERVED_PAGES && |kernel| == 4 && |name| <= L.NAME_LIMIT
    requires IsStep(Machine(k, kernel), DoExec(TwoPages(), name), event, sys)
    ensures event.Started? && Started(k, kernel, name, sys, event.c)
  {
    hide From, Valid, TwoPages, Exec.ImagePages, Ok, X.Runs, X.CanRun, X.RunTaken, Machine, PhysOk, DirsOf, DirsIn;
    MachineStarts(k, kernel);
    Fits(k, kernel, name);
    var c := event.c;
    Pages();
    Taken(k);
    HowMany();
    RunsOk(Machine(k, kernel), TwoPages(), name, sys, c);
    ForkEnds.OkPhys(sys);
    StartedPages(Machine(k, kernel), TwoPages(), name, sys, c);
    OtherSlots(k, kernel, name, sys, c);
    MachineFrames(k, kernel);
  }

  lemma OtherSlots(k: nat, kernel: seq<Table>, name: seq<byte>, sys: Sys, c: nat)
    requires X.Runs(Machine(k, kernel), TwoPages(), name, sys, c) && |kernel| == 4
    ensures UserProcess(sys, c) && FreeSlot(sys.slots, 0).Some?
  {
    hide Ok, X.Runs, From, TwoPages, Machine;
    RunsSlots(Machine(k, kernel), TwoPages(), name, sys, c);
    RunsOk(Machine(k, kernel), TwoPages(), name, sys, c);
    ListIsOk(sys, c);
    MachineSlots(k, kernel);
    assert sys.slots[if c == 1 then 2 else 1].Unused?;
  }

  lemma RunsSlots(sys: Sys, m: E.Image, name: seq<byte>, sys': Sys, c: nat)
    requires X.Runs(sys, m, name, sys', c)
    ensures c < |sys.slots| && sys.slots[c].Unused? && sys'.slots == sys.slots[c := sys'.slots[c]]
    ensures sys'.slots[c].User?
  {
    hide Ok, E.Loadable, L.AllSane, Exec.LoadedAt, Agrees, ReapProcess, Eager, VmOf;
  }

  /** How its fork ends, by the number of frames. */
  lemma ForkAt(k: nat, kernel: seq<Table>, name: seq<byte>, sys: Sys, c: nat)
    requires Started(k, kernel, name, sys, c) && k >= 18
    ensures Sharable(sys, c) && (ForkProcess(sys, c).1.Some? <==> k > 18)
    ensures k > 18 ==> ForkProcess(sys, c).0.ph.fr.free == k - 19
  {
    hide From, Valid, TwoPages, Ok, X.Runs, Machine, PhysOk, DirsOf, AllocRun, ForkProcess;
    FromFree(RESERVED_PAGES + 11, RESERVED_PAGES + k);
    FromAlloc(RESERVED_PAGES + 11, RESERVED_PAGES + k, PROCESS_PAGING_PAGES);
    ForkExact(sys, c);
  }

  // ---------------------------------------------------------------- what goes wrong

  /** With 18 frames the fork of the program lacks only its kernel stack, and leaves the page table changed. */
  lemma FailedForkShows(kernel: seq<Table>, name: seq<byte>, event: Event, sys: Sys)
    requires |kernel| == 4 && |name| <= L.NAME_LIMIT
    requires IsStep(Machine(18, kernel), DoExec(TwoPages(), name), event, sys)
    ensures event.Started? && UserProcess(sys, event.c) && PhysOk(sys.ph)
    ensures var (after, child) := ForkProcess(sys, event.c); child.None? && VmOf(after).views != VmOf(sys).views
  {
    hide *;
    CodePage();
    Starts(18, kernel, name, event, sys);
    StartedFacts(18, kernel, name, sys, event.c);
    ForkAt(18, kernel, name, sys, event.c);
    Pages();
    StartedForkLeavesMarks(Machine(18, kernel), TwoPages(), name, sys, event.c, CODE);
  }

  lemma CodePage()
    ensures CODE < L.STACK_PAGE && CODE % PAGE_SIZE == 0 && 0 < PAGE_SIZE && 20 <= MAX_PAGES - RESERVED_PAGES
  {}

  lemma StartedFacts(k: nat, kernel: seq<Table>, name: seq<byte>, sys: Sys, c: nat)
    requires Started(k, kernel, name, sys, c)
    ensures X.Runs(Machine(k, kernel), TwoPages(), name, sys, c) && UserProcess(sys, c) && PhysOk(sys.ph) && Ok(sys)
    ensures |sys.kernel| == 4 && c < |sys.slots| && sys.slots[c].User?
    ensures sys.ph.fr.free + 11 == k && |DirsOf(sys.slots[c].vas)| == 2
    ensures k == 18 ==> sys.ph.fr.free == PROCESS_PAGING_PAGES + |DirsOf(sys.slots[c].vas)|
  {
    hide X.Runs, Ok, PhysOk, TwoPages, Machine, DirsOf;
  }

  /** The stack page of a started program is writable, and its code page is not. */
  lemma StackAndCode(k: nat, kernel: seq<Table>, name: seq<byte>, sys: Sys, c: nat) returns (s: nat, t: nat)
    requires Started(k, kernel, name, sys, c)
    ensures c < |sys.slots| && sys.slots[c].User? && s < |sys.slots[c].vas| && t < |sys.slots[c].vas|
    ensures sys.slots[c].vas[s] == L.STACK_PAGE && MayWrite(EntryAt(sys, c, s).flags)
    ensures sys.slots[c].vas[t] == CODE && !MayWrite(EntryAt(sys, c, t).flags)
  {
    hide Started, X.Runs, Ok, PhysOk, TwoPages, Machine, DirsOf, Lookup, Exec.LoadedAt;
    CodePage();
    StartedFacts(k, kernel, name, sys, c);
    WholeAddress(CODE);
    WholeAddress(L.STACK_PAGE);
    LoadedPages(k, kernel, name, sys, c);
    s := ListedPage(sys, c, L.STACK_PAGE);
    t := ListedPage(sys, c, CODE);
    ListedFrame(sys, c, s);
    ListedFrame(sys, c, t);
  }

  lemma LoadedPages(k: nat, kernel: seq<Table>, name: seq<byte>, sys: Sys, c: nat)
    requires Started(k, kernel, name, sys, c)
    ensures c < |sys.slots| && sys.slots[c].User?
    ensures var e := Lookup(sys.ph.words, sys.slots[c].pd, L.STACK_PAGE); e.Some? && MayWrite(e.value.flags)
    ensures var e := Lookup(sys.ph.words, sys.slots[c].pd, CODE); e.Some? && !MayWrite(e.value.flags)
  {
    hide Ok, PhysOk, TwoPages, Machine, DirsOf, Lookup, Exec.LoadedAt, L.Wanted, L.WritableIn, L.RangesOf, Exec.AllSegs;
    hide E.Loadable, L.AllSane, Agrees, ReapProcess, Eager, VmOf, From;
    Pages();
    CodePage();
    WholeAddress(CODE);
    WholeAddress(L.STACK_PAGE);
    AtPage(TwoPages(), name, sys.ph, sys.slots[c].pd, CODE);
    AtStack(TwoPages(), name, sys.ph, sys.slots[c].pd);
  }

  /** With 20 frames the program forks, and the child's first store to its stack loses the agreement. */
  lemma ListGoesStale(kernel: seq<Table>, name: seq<byte>, event: Event, sys: Sys, b: byte)
    requires |kernel| == 4 && |name| <= L.NAME_LIMIT
    requires IsStep(Machine(20, kernel), DoExec(TwoPages(), name), event, sys)
    ensures event.Started? && UserProcess(sys, event.c) && PhysOk(sys.ph) && ForkProcess(sys, event.c).1.Some?
    ensures var (forked, child) := ForkProcess(sys, event.c);
      && UserProcess(forked, child.value) && PhysOk(forked.ph) && Agrees(forked, child.value)
      && var (after, ok) := UserStore(forked, child.value, L.STACK_PAGE, b); ok && !Agrees(after, child.value)
  {
    hide *;
    CodePage();
    Starts(20, kernel, name, event, sys);
    StartedFacts(20, kernel, name, sys, event.c);
    ForkAt(20, kernel, name, sys, event.c);
    var s, t := StackAndCode(20, kernel, name, sys, event.c);
    FirstStoreBreaks(sys, event.c, s, ForkProcess(sys, event.c).1.value, b);
    ChildRuns(sys, event.c);
  }

  lemma ChildRuns(sys: Sys, p: nat)
    requires Ok(sys) && PhysOk(sys.ph) && |sys.kernel| == 4 && p < |sys.slots| && ForkProcess(sys, p).1.Some?
    ensures var (sys', c) := ForkProcess(sys, p); UserProcess(sys', c.value)
  {
    hide Ok, PhysOk, ForkProcess, Eager, VmOf;
    ForkIs(sys, p);
    ListIsOk(ForkProcess(sys, p).0, ForkProcess(sys, p).1.value);
  }

  /** The same with a store of the kernel to the child's code page: the parent sees it. */
  lemma KernelStoreShows(kernel: seq<Table>, name: seq<byte>, event: Event, sys: Sys)
    requires |kernel| == 4 && |name| <= L.NAME_LIMIT
    requires IsStep(Machine(20, kernel), DoExec(TwoPages(), name), event, sys)
    ensures event.Started? && UserProcess(sys, event.c) && PhysOk(sys.ph) && ForkProcess(sys, event.c).1.Some?
    ensures var (forked, child) := ForkProcess(sys, event.c);
      && UserProcess(forked, child.value) && PhysOk(forked.ph)
      && exists b, t :: var after := WriteUserByte(forked, child.value, CODE, b).0;
           Shows(forked, event.c, t) && Shows(after, event.c, t) && Seen(after, event.c, t) != Seen(forked, event.c, t)
  {
    hide *;
    CodePage();
    Starts(20, kernel, name, event, sys);
    StartedFacts(20, kernel, name, sys, event.c);
    ForkAt(20, kernel, name, sys, event.c);
    var s, t := StackAndCode(20, kernel, name, sys, event.c);
    var (forked, child) := ForkProcess(sys, event.c);
    ChildRuns(sys, event.c);
    KernelStoreReachesParent(sys, event.c, t, 0, 0, forked, child.value);
    var b: byte := if Seen(forked, event.c, t)[0] == 0 then 1 else 0;
    KernelStoreReachesParent(sys, event.c, t, 0, b, forked, child.value);
    var after := WriteUserByte(forked, child.value, CODE, b).0;
    assert Shows(after, event.c, t) && Seen(after, event.c, t) != Seen(forked, event.c, t);
  }

  /** The first two machines exist: exec_run_file takes that step. */
  method Start(k: nat, kernel: seq<Table>, name: seq<byte>) returns (sys: Sys, event: Event)
    requires k <= MAX_PAGES - RESERVED_PAGES && |kernel| == 4 && 0 !in name
    ensures IsStep(Machine(k, kernel), DoExec(TwoPages(), name), event, sys)
  {
    hide IsStep, NoProcesses, Ok, TwoPages;
    MachineStarts(k, kernel);
    sys, event := ExecStep(Machine(k, kernel), TwoPages(), name);
  }

  // ---------------------------------------------------------------- a mapping below the user range

  /** On the machine with 20 free frames a space is made and its page 0 mapped, which succeeds and puts a user
      table where a kernel entry stood. */
  lemma MapBelowShows(kernel: seq<Table>, flags: Flags)
    requires KernelTemplate(kernel)
    ensures PhysOk(Machine(20, kernel).ph) && |kernel| == 4
    ensures var (s, pd) := CreateSpace(Machine(20, kernel).ph, kernel);
      && pd != 0 && Stands(s.words, pd, kernel) && PhysOk(s)
      && var (s', ok) := MapUserPage(s, pd, 0, 0, flags); ok && !Stands(s'.words, pd, kernel)
  {
    hide Stands, MapUserPage, CreateSpace, From, Valid, AllocRun, Spaces, TablesAre, Machine, PhysOk;
    CodePage();
    SpaceOnMachine(kernel);
    var (s, pd) := CreateSpace(Machine(20, kernel).ph, kernel);
    CreateStands(Machine(20, kernel).ph, {}, kernel, pd);
    MapTables(s, {pd}, pd, 0, 0, flags, {});
    MapStandsIff(s, {pd}, pd, kernel, 0, 0, flags);
  }

  lemma SpaceOnMachine(kernel: seq<Table>)
    requires |kernel| == 4
    ensures Spaces(Machine(20, kernel).ph, {}) && PhysOk(Machine(20, kernel).ph)
    ensures var (s, pd) := CreateSpace(Machine(20, kernel).ph, kernel);
      pd != 0 && PhysOk(s) && Spaces(s, {pd}) && TablesAre(s, pd, {}) && s.fr.free == 15
  {
    hide CreateSpace, From, Valid, AllocRun, TablesAre, TwoPages;
    CodePage();
    MachineStarts(20, kernel);
    MachineFrames(20, kernel);
    FromFree(RESERVED_PAGES, RESERVED_PAGES + 20);
    FromAlloc(RESERVED_PAGES, RESERVED_PAGES + 20, PROCESS_PAGING_PAGES);
    assert Spaces(Machine(20, kernel).ph, {});
    SpaceIff(Machine(20, kernel).ph, {}, kernel);
    SpaceTakes(Machine(20, kernel).ph, {}, kernel);
    CreateRefines(Machine(20, kernel).ph, {}, kernel);
    assert {} + {CreateSpace(Machine(20, kernel).ph, kernel).1} == {CreateSpace(Machine(20, kernel).ph, kernel).1};
  }
}
