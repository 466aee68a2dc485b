/** How a fork ends (src/process.c): when it succeeds, what a failure leaves behind, and what the first
    store after a success does to the lists and to the other process. */
module ForkEnds {
  import opened Common
  import opened Memory
  import opened Paging
  import opened Demand
  import opened Cow
  import opened Fork
  import opened ForkProof
  import opened VmRun
  import X = ExecRun
  import Exec
  import L = Loader
  import E = Elf

  // ---------------------------------------------------------------- when there is enough

  /** A slot, a space, and a table for each directory entry of the list. */
  ghost predicate Sharable(sys: Sys, p: nat)
    requires PhysOk(sys.ph) && p < |sys.slots|
  {
    && sys.slots[p].User? && FreeSlot(sys.slots, 0).Some? && AllocRun(sys.ph.fr, PROCESS_PAGING_PAGES).1 != 0
    && PROCESS_PAGING_PAGES + |DirsOf(sys.slots[p].vas)| <= sys.ph.fr.free
  }

  lemma RetainFree(fr: Frames, addr: nat)
    requires Shape(fr)
    ensures RetainPage(fr, addr).free == fr.free
  {}

  /** The sharing loop goes on exactly as long as there are frames for the tables. */
  lemma {:induction false} ShareTables(ph0: Phys, spaces: set<nat>, ppd: nat, cpd: nat, vas: seq<nat>, ph1: Phys,
                                       n: nat)
    requires PhysOk(ph1) && ShareInv(ph0, spaces, ppd, cpd, vas, ph1, []) && TablesAre(ph1, cpd, {})
    requires ppd in spaces && cpd !in spaces && ListOk(vas) && n <= |vas| && AllShareable(ph0, spaces, ppd, vas)
    ensures var r := ShareUpTo(ph1, ppd, cpd, vas, n);
      && (r.ok <==> |DirsOf(vas[..n])| <= ph1.fr.free)
      && (r.ok ==> TablesAre(r.ph, cpd, DirsOf(vas[..n])) && r.ph.fr.free + |DirsOf(vas[..n])| == ph1.fr.free)
  {
    hide ShareNext, ShareInv, MapUserPage, TablesAre, AllShareable, ListOk, PhysOk, DirsOf;
    if n == 0 {
      assert vas[..0] == [];
      NoDirs();
    } else {
      ShareTables(ph0, spaces, ppd, cpd, vas, ph1, n - 1);
      ShareLoop(ph0, spaces, ppd, cpd, vas, ph1, n - 1);
      var before := ShareUpTo(ph1, ppd, cpd, vas, n - 1);
      if before.ok {
        ShareTable(ph0, spaces, ppd, cpd, vas, before, n - 1);
      } else {
        ShareStops(ph1, ppd, cpd, vas, n);
        PrefixDirs(vas[..n], n - 1);
        assert vas[..n][..n - 1] == vas[..n - 1];
        Fewer(DirsOf(vas[..n - 1]), DirsOf(vas[..n]));
      }
    }
  }

  lemma ShareTable(ph0: Phys, spaces: set<nat>, ppd: nat, cpd: nat, vas: seq<nat>, before: Sharing, n: nat)
    requires ShareInv(ph0, spaces, ppd, cpd, vas, before.ph, before.ptes) && before.ok && n == |before.ptes| < |vas|
    requires ppd in spaces && cpd !in spaces && ListOk(vas) && AllShareable(ph0, spaces, ppd, vas)
    requires TablesAre(before.ph, cpd, DirsOf(vas[..n])) && PhysOk(before.ph)
    ensures var r := ShareNext(before, ppd, cpd, vas[n]);
      && (r.ok <==> |DirsOf(vas[..n + 1])| <= before.ph.fr.free + |DirsOf(vas[..n])|)
      && (r.ok ==> TablesAre(r.ph, cpd, DirsOf(vas[..n + 1])))
      && (r.ok ==> r.ph.fr.free + |DirsOf(vas[..n + 1])| == before.ph.fr.free + |DirsOf(vas[..n])|)
  {
    hide ShareInv, MapUserPage, TablesAre, AllShareable, ListOk, DirsOf, Spaces, Lookup, PhysOk, RetainPage, Valid;
    ShareSpaces(ph0, spaces, ppd, cpd, vas, before, n);
    var e := Lookup(before.ph.words, ppd, vas[n]).value;
    assert e.frame * PAGE_SIZE % PAGE_SIZE == 0;
    MapNext(before.ph, spaces + {cpd}, cpd, vas, n, e.frame * PAGE_SIZE, Shared(e.flags));
    var ph1 := MapUserPage(before.ph, cpd, vas[n], e.frame * PAGE_SIZE, Shared(e.flags)).0;
    PhysShape(ph1);
    RetainFree(ph1.fr, e.frame * PAGE_SIZE);
    TablesInWords(ph1, ph1.(fr := RetainPage(ph1.fr, e.frame * PAGE_SIZE)), cpd, DirsOf(vas[..n + 1]));
  }

  lemma ShareSpaces(ph0: Phys, spaces: set<nat>, ppd: nat, cpd: nat, vas: seq<nat>, before: Sharing, n: nat)
    requires ShareInv(ph0, spaces, ppd, cpd, vas, before.ph, before.ptes) && n < |vas|
    requires ppd in spaces && ListOk(vas) && AllShareable(ph0, spaces, ppd, vas)
    ensures UserVa(vas[n]) && Spaces(before.ph, spaces + {cpd}) && Lookup(before.ph.words, ppd, vas[n]).Some?
  {
    assert UserVa(vas[n]);
    hide Lookup, Spaces, SpaceFrames, Lent;
  }

  lemma PhysShape(ph: Phys)
    requires PhysOk(ph)
    ensures Shape(ph.fr)
  {}

  lemma TablesInWords(s: Phys, s': Phys, pd: nat, dirs: set<nat>)
    requires s'.words == s.words
    ensures TablesAre(s, pd, dirs) ==> TablesAre(s', pd, dirs)
  {}

  /** The sharing loop of a fork gets through exactly when there is enough for it. */
  lemma SharingEnds(sys: Sys, p: nat)
    requires Ok(sys) && PhysOk(sys.ph) && p < |sys.slots| && sys.slots[p].User? && FreeSlot(sys.slots, 0).Some?
    requires AllocRun(sys.ph.fr, PROCESS_PAGING_PAGES).1 != 0
    ensures var (ph1, cpd) := CreateSpace(sys.ph, sys.kernel); var slot := sys.slots[p];
      && cpd != 0 && cpd !in SpacesOf(sys.slots) && PhysOk(ph1)
      && var sh := ShareUpTo(ph1, slot.pd, cpd, slot.vas, |slot.vas|);
      && (sh.ok <==> Sharable(sys, p))
      && (sh.ok ==> sh.ph.fr.free + PROCESS_PAGING_PAGES + |DirsOf(slot.vas)| == sys.ph.fr.free)
      && ShareInv(sys.ph, SpacesOf(sys.slots), slot.pd, cpd, slot.vas, sh.ph, sh.ptes)
  {
    var slot, spaces := sys.slots[p], SpacesOf(sys.slots);
    assert Spaces(sys.ph, spaces) && |sys.kernel| == 4 && slot.pd in spaces;
    ListIsOk(sys, p);
    hide Ok, Spaces, ShareInv, CreateSpace, TablesAre, AllShareable, DirsOf, ListOk, PhysOk, AllocRun, Valid, ShareUpTo;
    SpaceIff(sys.ph, spaces, sys.kernel);
    SpaceTakes(sys.ph, spaces, sys.kernel);
    var (ph1, cpd) := CreateSpace(sys.ph, sys.kernel);
    ForkStart(sys, p, ph1, cpd);
    ShareStart(sys.ph, spaces, sys.kernel, slot.pd, slot.vas, ph1, cpd);
    ParentShareable(sys, p);
    ShareTables(sys.ph, spaces, slot.pd, cpd, slot.vas, ph1, |slot.vas|);
    assert slot.vas[..|slot.vas|] == slot.vas;
  }

  lemma ListIsOk(sys: Sys, p: nat)
    requires Ok(sys) && p < |sys.slots| && sys.slots[p].User?
    ensures ListOk(sys.slots[p].vas) && sys.slots[p].vas != [] && p != 0 && PhysOk(sys.ph) && |sys.kernel| == 4
  {
    assert SlotShape(sys.slots[p]);
    hide Spaces, Apart, Inv, TablesOk;
  }

  /** A fork that does not get through the sharing loop has marked nothing. */
  lemma NotSharable(sys: Sys, p: nat)
    requires Ok(sys) && PhysOk(sys.ph) && |sys.kernel| == 4 && p < |sys.slots| && !Sharable(sys, p)
    ensures var (sys', c) := ForkProcess(sys, p); c.None? && VmOf(sys').views == VmOf(sys).views
  {
    hide Ok, ShareInv, CreateSpace, Abandon, ShareUpTo, Sharable, PhysOk, AllocRun, VmOf, FinishFork, Spaces, ListOk;
    hide Valid;
    OkSpaces(sys);
    PhysValid(sys.ph);
    SpaceIff(sys.ph, SpacesOf(sys.slots), sys.kernel);
    var room := AllocRun(sys.ph.fr, PROCESS_PAGING_PAGES).1 != 0;
    if p != 0 && sys.slots[p].User? && FreeSlot(sys.slots, 0).Some? && room {
      ListIsOk(sys, p);
      SharingEnds(sys, p);
      var slot := sys.slots[p];
      var (ph1, cpd) := CreateSpace(sys.ph, sys.kernel);
      var sh := ShareUpTo(ph1, slot.pd, cpd, slot.vas, |slot.vas|);
      Untouched(sys, p, cpd, sh);
    }
  }

  lemma Untouched(sys: Sys, p: nat, cpd: nat, sh: Sharing)
    requires Ok(sys) && p < |sys.slots| && sys.slots[p].User? && cpd !in SpacesOf(sys.slots) && PhysOk(sh.ph)
    requires ShareInv(sys.ph, SpacesOf(sys.slots), sys.slots[p].pd, cpd, sys.slots[p].vas, sh.ph, sh.ptes)
    ensures VmOf(sys.(ph := Abandon(sh.ph, sh.ptes, cpd))).views == VmOf(sys).views
  {
    var all := EntriesOf(sys.ph.words, sys.slots[p]);
    hide Ok, ShareInv, Abandon, Withdrawn;
    EarlyFailure(sys, p, cpd, sh.ph, sh.ptes);
    SameEntries(sys, Abandon(sh.ph, sh.ptes, cpd), p, all, all);
  }

  /** After a failed fork the views are as they were exactly when the parent's entries are. */
  lemma SameEntries(sys: Sys, r: Phys, p: nat, ptes: seq<Pte>, to: seq<Pte>)
    requires Ok(sys) && Withdrawn(sys, r, p, ptes, to)
    ensures VmOf(sys.(ph := r)).views == VmOf(sys).views <==> to == ptes
  {
    WithdrawnViews(sys, r, p, ptes, to);
    var view: seq<Mapping> := Views(sys.ph.words, sys.slots)[p];
    assert forall k :: 0 <= k < |view| ==> view[k].pte == ptes[k];
    hide Ok, Withdrawn, Views;
    if to == ptes {
      assert WithPtes(view, to) == view;
    } else {
      var k :| 0 <= k < |to| && to[k] != ptes[k];
      assert WithPtes(view, to)[k] != view[k];
    }
  }

  // ---------------------------------------------------------------- the end of a fork

  /** No read-only page stands before a writable one. */
  predicate WritableFirst(ptes: seq<Pte>) {
    forall k, l :: 0 <= k < l < |ptes| && ptes[l].flags.writable ==> ptes[k].flags.writable
  }

  lemma {:induction false} WritableRun(ptes: seq<Pte>, n: nat)
    requires n <= |ptes|
    ensures WritableCount(ptes, n) == n <==> forall k :: 0 <= k < n ==> ptes[k].flags.writable
    ensures (exists k :: n <= k < |ptes| && ptes[k].flags.writable)
         || WritableCount(ptes, n) == WritableCount(ptes, |ptes|)
  {
    if n > 0 { WritableRun(ptes, n - 1); }
    WritableTail(ptes, n);
  }

  lemma {:induction false} WritableTail(ptes: seq<Pte>, n: nat)
    requires n <= |ptes|
    ensures (exists k :: n <= k < |ptes| && ptes[k].flags.writable)
         || WritableCount(ptes, n) == WritableCount(ptes, |ptes|)
    ensures WritableCount(ptes, n) <= WritableCount(ptes, |ptes|)
    decreases |ptes| - n
  {
    if n < |ptes| { WritableTail(ptes, n + 1); }
  }

  /** Restoring the first pages restores all exactly when the writable ones come first. */
  lemma RestoresAll(ptes: seq<Pte>)
    ensures RestoredPtes(ptes, WritableCount(ptes, |ptes|)) == ptes <==> WritableFirst(ptes)
  {
    var w := WritableCount(ptes, |ptes|);
    RestoreExact(ptes);
    hide RestoredPtes;
    if WritableFirst(ptes) {
      forall k | 0 <= k < |ptes| && ptes[k].flags.writable ensures k < w {
        WritableRun(ptes, k + 1);
        WritableTail(ptes, k + 1);
      }
    } else if forall k :: 0 <= k < |ptes| ==> (ptes[k].flags.writable ==> k < w) {
      WritableRun(ptes, w);
    }
  }

  /** The last step: the marks are set and only the kernel stack can be missing. */
  lemma Finished(sys: Sys, p: nat, c: nat, cpd: nat, sh: Sharing)
    requires Ok(sys) && p < |sys.slots| && sys.slots[p].User? && cpd !in SpacesOf(sys.slots) && c < |sys.slots|
    requires |sh.ptes| == |sys.slots[p].vas| && PhysOk(sh.ph)
    requires ShareInv(sys.ph, SpacesOf(sys.slots), sys.slots[p].pd, cpd, sys.slots[p].vas, sh.ph, sh.ptes)
    ensures var (sys', r) := FinishFork(sys, p, c, cpd, sh);
      && (r.Some? <==> sh.ph.fr.free > 0)
      && (r.Some? ==> sys'.ph.fr.free + 1 == sh.ph.fr.free)
      && (r.None? ==> (VmOf(sys').views == VmOf(sys).views <==> WritableFirst(EntriesOf(sys.ph.words, sys.slots[p]))))
  {
    hide Ok, Spaces, ShareInv, Abandon, Reflagged, Eager, VmOf, MarkUpTo, Valid, Withdrawn, WritableFirst, RestoreUpTo;
    hide AllocRun;
    hide EntriesOf, RestoredPtes, MarkedPtes, ListOk, Shape;
    var slot := sys.slots[p];
    ForkMarked(sys, p, cpd, sh);
    ListIsOk(sys, p);
    ListShort(slot.vas);
    PhysValid(sh.ph);
    var mk := MarkUpTo(sh.ph, slot.pd, slot.vas, sh.ptes, |slot.vas|);
    OneFree(mk.ph.fr);
    if AllocRun(mk.ph.fr, 1).1 == 0 {
      ForkRestoredCase(sys, p, cpd, sh, mk.ph, mk.cowed);
      var r := Abandon(RestoreUpTo(mk.ph, slot.pd, slot.vas, sh.ptes, mk.cowed), sh.ptes, cpd);
      SameEntries(sys, r, p, sh.ptes, RestoredPtes(sh.ptes, mk.cowed));
      RestoresAll(sh.ptes);
    }
  }

  lemma ListShort(vas: seq<nat>)
    requires ListOk(vas)
    ensures |vas| <= MAX_USER_PAGES
  {}

  lemma PhysValid(ph: Phys)
    requires PhysOk(ph)
    ensures Valid(ph.fr) && Shape(ph.fr)
  {}

  /** Fork succeeds exactly when there is a slot, a space, and a frame for every table and for the kernel
      stack. When it fails, the page tables are as they were exactly when it had marked nothing, or no
      read-only page stands before a writable one in the parent's list. */
  lemma ForkExact(sys: Sys, p: nat)
    requires Ok(sys) && PhysOk(sys.ph) && |sys.kernel| == 4 && p < |sys.slots|
    ensures var (sys', c) := ForkProcess(sys, p);
      && (c.Some? <==> Sharable(sys, p) && PROCESS_PAGING_PAGES + |DirsOf(sys.slots[p].vas)| < sys.ph.fr.free)
      && (c.Some? ==> sys'.ph.fr.free + PROCESS_PAGING_PAGES + |DirsOf(sys.slots[p].vas)| + 1 == sys.ph.fr.free)
      && (c.None? ==>
            (VmOf(sys').views == VmOf(sys).views <==>
               !Sharable(sys, p) || WritableFirst(EntriesOf(sys.ph.words, sys.slots[p]))))
  {
    if Sharable(sys, p) {
      ListIsOk(sys, p);
      SharingEnds(sys, p);
      hide Ok, ShareInv, CreateSpace, FinishFork, Abandon, ShareUpTo, Sharable, PhysOk, AllocRun, VmOf, WritableFirst;
      hide EntriesOf;
      var (ph1, cpd) := CreateSpace(sys.ph, sys.kernel);
      var slot := sys.slots[p];
      var sh := ShareUpTo(ph1, slot.pd, cpd, slot.vas, |slot.vas|);
      Finished(sys, p, FreeSlot(sys.slots, 0).value, cpd, sh);
    } else {
      NotSharable(sys, p);
    }
  }

  /** A list for which the restore loop misses a page: one read-only page before a writable one. */
  lemma ReadOnlyPageFirst(code: Pte, data: Pte)
    requires !code.flags.writable && data.flags.writable
    ensures !WritableFirst([code, data]) && WritableCount([code, data], 2) == 1
    ensures RestoredPtes([code, data], 1) == [code, ChildPte(data)]
  {
    assert [code, data][1].flags.writable && !([code, data][0].flags.writable);
  }

  /** The list of a program just started: its pages and the stack page. */
  lemma StartedPages(sys: Sys, m: E.Image, name: seq<byte>, sys': Sys, c: nat)
    requires X.Runs(sys, m, name, sys', c)
    ensures E.HeaderOk(m) && E.TableInside(m) && c < |sys'.slots| && sys'.slots[c].User?
    ensures SetOf(sys'.slots[c].vas) == Exec.ImagePages(m) && DirsOf(sys'.slots[c].vas) == DirsIn(Exec.ImagePages(m))
  {
    hide Ok, L.RangesOf, Exec.AllSegs, E.WellFormed, L.Wanted, L.WritableIn, Lookup, Agrees, ReapProcess, Eager, VmOf;
    hide Exec.LoadedAt, L.PagesOf;
    RunsOk(sys, m, name, sys', c);
    L.Headers(m);
    var slot := sys'.slots[c];
    ListIsOk(sys', c);
    forall va | va in SetOf(slot.vas) ensures va in Exec.ImagePages(m) {
      var k :| 0 <= k < |slot.vas| && slot.vas[k] == va;
      WholePage(slot.vas, k);
      WholeAddress(va);
      ListedFrame(sys', c, k);
      PresentPage(m, name, sys'.ph, slot.pd, va);
    }
    forall va | va in Exec.ImagePages(m) ensures va in SetOf(slot.vas) {
      PageInside(m, va);
      WholeAddress(va);
      PresentPage(m, name, sys'.ph, slot.pd, va);
      var k := ListedPage(sys', c, va);
    }
    SameDirs(slot.vas);
  }

  lemma PageInside(m: E.Image, va: nat)
    requires E.HeaderOk(m) && E.TableInside(m) && va in Exec.ImagePages(m)
    ensures va < USER_LIMIT && va % PAGE_SIZE == 0
  {
    hide L.RangesOf, Exec.AllSegs, E.HeaderOk, E.TableInside, L.Wanted;
  }

  lemma PresentPage(m: E.Image, name: seq<byte>, ph: Phys, pd: nat, va: nat)
    requires E.Loadable(m) && L.AllSane(m, Exec.AllSegs(m)) && |name| <= L.NAME_LIMIT
    requires Exec.LoadedAt(m, name, ph, pd, va) && va < USER_LIMIT && E.AlignDown(va) == va
    ensures Lookup(ph.words, pd, va).Some? <==> va in Exec.ImagePages(m)
  {
    hide Lookup, L.RangesOf, Exec.AllSegs, L.Wanted, L.WritableIn, L.AllSane, L.ImageByte, Exec.StackByte;
  }

  /** A program just started has such a list whenever it has a page it may not write: the stack page comes
      last. */
  lemma StartedReadOnlyFirst(sys: Sys, m: E.Image, name: seq<byte>, sys': Sys, c: nat, page: nat)
    requires X.Runs(sys, m, name, sys', c) && page < L.STACK_PAGE && page % PAGE_SIZE == 0
    requires E.Loadable(m) && L.Wanted(L.RangesOf(Exec.AllSegs(m)), page)
    requires !L.WritableIn(L.RangesOf(Exec.AllSegs(m)), page)
    ensures c < |sys'.slots| && sys'.slots[c].User? && !WritableFirst(EntriesOf(sys'.ph.words, sys'.slots[c]))
  {
    hide Ok, L.RangesOf, Exec.AllSegs, E.Loadable, L.Wanted, L.WritableIn, Lookup, Agrees, ReapProcess, Eager, VmOf;
    var slot := sys'.slots[c];
    WholeAddress(page);
    WholeAddress(L.STACK_PAGE);
    assert Exec.LoadedAt(m, name, sys'.ph, slot.pd, page) && Exec.LoadedAt(m, name, sys'.ph, slot.pd, L.STACK_PAGE);
    hide Exec.LoadedAt;
    AtPage(m, name, sys'.ph, slot.pd, page);
    AtStack(m, name, sys'.ph, slot.pd);
    var k := ListedPage(sys', c, page);
    var ptes := EntriesOf(sys'.ph.words, slot);
    assert !ptes[k].flags.writable && ptes[|ptes| - 1].flags.writable;
  }

  /** So its fork, when only the frame of the kernel stack is missing, leaves page table entries changed. */
  lemma StartedForkLeavesMarks(sys: Sys, m: E.Image, name: seq<byte>, sys': Sys, c: nat, page: nat)
    requires X.Runs(sys, m, name, sys', c) && page < L.STACK_PAGE && page % PAGE_SIZE == 0
    requires E.Loadable(m) && L.Wanted(L.RangesOf(Exec.AllSegs(m)), page)
    requires !L.WritableIn(L.RangesOf(Exec.AllSegs(m)), page)
    requires PhysOk(sys'.ph) && |sys'.kernel| == 4 && c < |sys'.slots| && Sharable(sys', c)
    requires sys'.ph.fr.free == PROCESS_PAGING_PAGES + |DirsOf(sys'.slots[c].vas)|
    ensures var (after, child) := ForkProcess(sys', c); child.None? && VmOf(after).views != VmOf(sys').views
  {
    hide *;
    RunsOk(sys, m, name, sys', c);
    StartedReadOnlyFirst(sys, m, name, sys', c, page);
    assert !WritableFirst(EntriesOf(sys'.ph.words, sys'.slots[c]));
    ForkExact(sys', c);
    assert ForkProcess(sys', c).1.None?;
    assert VmOf(ForkProcess(sys', c).0).views != VmOf(sys').views;
  }

  lemma RunsOk(sys: Sys, m: E.Image, name: seq<byte>, sys': Sys, c: nat)
    requires X.Runs(sys, m, name, sys', c)
    ensures Ok(sys')
  {}

  lemma AtPage(m: E.Image, name: seq<byte>, ph: Phys, pd: nat, page: nat)
    requires E.Loadable(m) && L.AllSane(m, Exec.AllSegs(m)) && |name| <= L.NAME_LIMIT
    requires Exec.LoadedAt(m, name, ph, pd, page) && E.AlignDown(page) == page != L.STACK_PAGE
    requires L.Wanted(L.RangesOf(Exec.AllSegs(m)), page) && !L.WritableIn(L.RangesOf(Exec.AllSegs(m)), page)
    ensures Lookup(ph.words, pd, page).Some? && !MayWrite(Lookup(ph.words, pd, page).value.flags)
  {
    hide Lookup, L.RangesOf, Exec.AllSegs, E.Loadable, L.Wanted, L.WritableIn, L.AllSane, L.ImageByte;
  }

  lemma AtStack(m: E.Image, name: seq<byte>, ph: Phys, pd: nat)
    requires E.Loadable(m) && L.AllSane(m, Exec.AllSegs(m)) && |name| <= L.NAME_LIMIT
    requires Exec.LoadedAt(m, name, ph, pd, L.STACK_PAGE) && E.AlignDown(L.STACK_PAGE) == L.STACK_PAGE
    ensures Lookup(ph.words, pd, L.STACK_PAGE).Some? && Lookup(ph.words, pd, L.STACK_PAGE).value.flags.writable
  {
    hide Lookup, L.RangesOf, Exec.AllSegs, E.Loadable, L.Wanted, L.WritableIn, L.AllSane, L.ImageByte, Exec.StackByte;
  }

  lemma WholeAddress(page: nat)
    requires page % PAGE_SIZE == 0
    ensures E.AlignDown(page) == page && PageBase(page) == page
  {}

  // ---------------------------------------------------------------- after a success

  lemma FinishedViews(sys: Sys, p: nat, c: nat, cpd: nat, sh: Sharing)
    requires Ok(sys) && p < |sys.slots| && sys.slots[p].User? && cpd !in SpacesOf(sys.slots)
    requires c < |sys.slots| && sys.slots[c].Unused? && |sh.ptes| == |sys.slots[p].vas| && PhysOk(sh.ph)
    requires ShareInv(sys.ph, SpacesOf(sys.slots), sys.slots[p].pd, cpd, sys.slots[p].vas, sh.ph, sh.ptes)
    ensures var (sys', r) := FinishFork(sys, p, c, cpd, sh); var view := ForkedView(VmOf(sys).views[p]);
      r.Some? ==> r.value == c && VmOf(sys').views == VmOf(sys).views[p := view][c := view]
  {
    hide Ok, Spaces, ShareInv, Abandon, Reflagged, Eager, MarkUpTo, Valid, RestoreUpTo, AllocRun, EntriesOf, MarkedPtes;
    hide ListOk, Views;
    hide TablesOk, Shape;
    var slot := sys.slots[p];
    ForkMarked(sys, p, cpd, sh);
    var mk := MarkUpTo(sh.ph, slot.pd, slot.vas, sh.ptes, |slot.vas|);
    var child := User(cpd, slot.vas, FramesIn(sh.ptes), AllocRun(mk.ph.fr, 1).1 / PAGE_SIZE);
    ForkedViews(sys, p, c, cpd, sh.ph, mk.ph, sh.ptes, child);
  }

  /** What a successful fork is: parent and child map the same frames, no page of theirs writable. */
  lemma ForkIs(sys: Sys, p: nat)
    requires Ok(sys) && PhysOk(sys.ph) && |sys.kernel| == 4 && p < |sys.slots| && ForkProcess(sys, p).1.Some?
    ensures var (sys', c) := ForkProcess(sys, p); var view := ForkedView(VmOf(sys).views[p]);
      && Ok(sys') && PhysOk(sys'.ph) && ForkSucceeded(sys, sys', p, c.value) && c.value != p
      && VmOf(sys').views == VmOf(sys).views[p := view][c.value := view]
  {
    ForkExact(sys, p);
    assert Sharable(sys, p);
    ListIsOk(sys, p);
    SharingEnds(sys, p);
    ForkCorrect(sys, p);
    hide Ok, ShareInv, CreateSpace, FinishFork, Abandon, ShareUpTo, Sharable, PhysOk, AllocRun, VmOf, EntriesOf;
    hide ForkUndone, Eager;
    var (ph1, cpd) := CreateSpace(sys.ph, sys.kernel);
    var slot := sys.slots[p];
    var sh := ShareUpTo(ph1, slot.pd, cpd, slot.vas, |slot.vas|);
    var c := FreeSlot(sys.slots, 0).value;
    FinishedViews(sys, p, c, cpd, sh);
    OkPhys(ForkProcess(sys, p).0);
  }

  lemma OkPhys(sys: Sys)
    requires Ok(sys)
    ensures PhysOk(sys.ph) && |sys.ph.bytes| == MAX_PAGES
  {}

  /** The new child's list agrees with its page table, and every list that agreed still does. */
  lemma ForkedAgree(sys: Sys, p: nat, i: nat)
    requires Ok(sys) && PhysOk(sys.ph) && |sys.kernel| == 4 && p < |sys.slots| && ForkProcess(sys, p).1.Some?
    requires i == ForkProcess(sys, p).1.value || Agrees(sys, i)
    ensures Agrees(ForkProcess(sys, p).0, i)
  {
    hide Ok, ForkProcess, PhysOk, Eager;
    ForkIs(sys, p);
    var (sys', c) := ForkProcess(sys, p);
    var was: seq<Mapping> := Views(sys.ph.words, sys.slots)[p];
    var view := ForkedView(was);
    if i == c.value {
      var pages := sys'.slots[i].pages;
      assert forall k :: 0 <= k < |view| ==> view[k].pte.frame == pages[k];
      assert view[..|view|] == view;
      forall f: nat ensures CountIn(pages, |pages|, f) == Count(view, f) { X.SameCounts(view, pages, |pages|, f); }
    } else if i == p {
      forall f: nat ensures Count(view, f) == Count(was, f) { SameFramesCount(was, view, f); }
    }
  }

  /** The entry of page k on the list of process p. */
  function EntryAt(sys: Sys, p: nat, k: nat): Pte
    requires p < |sys.slots| && sys.slots[p].User? && k < |sys.slots[p].vas|
  {
    PteAt(sys.ph.words, sys.slots[p].pd, sys.slots[p].vas[k])
  }

  lemma EntryInView(sys: Sys, p: nat, k: nat)
    requires p < |sys.slots| && sys.slots[p].User? && k < |sys.slots[p].vas|
    ensures |VmOf(sys).views| == |sys.slots| && |VmOf(sys).views[p]| == |sys.slots[p].vas|
    ensures VmOf(sys).views[p][k] == Mapping(sys.slots[p].vas[k], EntryAt(sys, p, k))
  {
    hide Lookup;
  }

  /** Page k of the parent, as parent and child have it after the fork. */
  lemma ForkedPage(sys: Sys, p: nat, k: nat, q: nat)
    requires Ok(sys) && PhysOk(sys.ph) && |sys.kernel| == 4 && p < |sys.slots| && ForkProcess(sys, p).1.Some?
    requires sys.slots[p].User? && k < |sys.slots[p].vas| && (q == p || q == ForkProcess(sys, p).1.value)
    ensures var sys' := ForkProcess(sys, p).0; var e := EntryAt(sys, p, k);
      && Ok(sys') && PhysOk(sys'.ph) && q < |sys'.slots| && sys'.slots[q].User? && sys'.slots[q].vas == sys.slots[p].vas
      && Lookup(sys'.ph.words, sys'.slots[q].pd, sys.slots[p].vas[k]) == Some(ChildPte(e))
      && EntryAt(sys', q, k) == ChildPte(e)
      && e.frame < MAX_PAGES && |sys'.ph.fr.refs| == MAX_PAGES && sys'.ph.fr.refs[e.frame] > 1
  {
    hide Ok, ForkProcess, Eager, Lookup, EntryAt, VmOf, Total;
    ForkIs(sys, p);
    var (sys', c) := ForkProcess(sys, p);
    EntryInView(sys, p, k);
    EntryInView(sys', p, k);
    EntryInView(sys', c.value, k);
    EntryListed(sys', q, k);
    EntryListed(sys', p, k);
    ForkedEntry(VmOf(sys).views[p], k);
    TwoMappings(VmOf(sys').views, p, k, c.value, k);
    NamedRefs(sys', p, k);
  }

  lemma ForkedEntry(view: seq<Mapping>, k: nat)
    requires k < |view|
    ensures ForkedView(view)[k] == Mapping(view[k].va, ChildPte(view[k].pte))
  {}

  lemma EntryListed(sys: Sys, q: nat, k: nat)
    requires Ok(sys) && q < |sys.slots| && sys.slots[q].User? && k < |sys.slots[q].vas|
    ensures Lookup(sys.ph.words, sys.slots[q].pd, sys.slots[q].vas[k]) == Some(EntryAt(sys, q, k))
  {
    ListedFrame(sys, q, k);
    hide Ok, Lookup;
  }

  /** A listed frame is counted once for each mapping. */
  lemma NamedRefs(sys: Sys, q: nat, k: nat)
    requires Ok(sys) && q < |sys.slots| && sys.slots[q].User? && k < |sys.slots[q].vas|
    ensures var f := EntryAt(sys, q, k).frame;
      f < MAX_PAGES && |sys.ph.fr.refs| == MAX_PAGES && sys.ph.fr.refs[f] == Total(VmOf(sys).views, f)
  {
    hide Ok, Lookup, Total;
    ListedFrame(sys, q, k);
    NamedIsUsed(sys, EntryAt(sys, q, k).frame);
  }

  /** The first store of parent or child to a page that was writable copies the page: from then on the list
      of that process no longer agrees with its page table. */
  lemma FirstStoreBreaks(sys: Sys, p: nat, k: nat, q: nat, b: byte)
    requires Ok(sys) && PhysOk(sys.ph) && |sys.kernel| == 4 && p < |sys.slots| && ForkProcess(sys, p).1.Some?
    requires sys.slots[p].User? && k < |sys.slots[p].vas| && MayWrite(EntryAt(sys, p, k).flags)
    requires q == ForkProcess(sys, p).1.value || (q == p && Agrees(sys, p))
    requires ForkProcess(sys, p).0.ph.fr.free > 0
    ensures var sys' := ForkProcess(sys, p).0;
      && PhysOk(sys'.ph) && q < |sys'.slots| && Agrees(sys', q)
      && var (after, ok) := UserStore(sys', q, sys.slots[p].vas[k], b); ok && !Agrees(after, q)
  {
    hide Ok, ForkProcess, Eager, Lookup, ResolveCow, AllocRun, Valid, EntryAt, ForkSucceeded, VmOf, Agrees;
    ForkIs(sys, p);
    ForkedAgree(sys, p, q);
    ForkedPage(sys, p, k, q);
    var sys', va := ForkProcess(sys, p).0, sys.slots[p].vas[k];
    PhysValid(sys'.ph);
    OneFree(sys'.ph.fr);
    ListIsOk(sys, p);
    WholePage(sys.slots[p].vas, k);
    SharedFlags(EntryAt(sys, p, k));
    CopyBreaksAgreement(sys', q, k, ChildPte(EntryAt(sys, p, k)));
    var ph := ResolveCow(sys'.ph, sys'.slots[q].pd, va).0;
    OtherBytes(sys'.(ph := ph), UserStore(sys', q, va, b).0, q);
  }

  lemma WholePage(vas: seq<nat>, k: nat)
    requires ListOk(vas) && k < |vas|
    ensures PageBase(vas[k]) == vas[k] && UserVa(vas[k]) && vas[k] % PAGE_SIZE == 0
  {}

  lemma OtherBytes(sys: Sys, sys': Sys, q: nat)
    requires sys'.slots == sys.slots && sys'.ph.words == sys.ph.words
    ensures Agrees(sys', q) == Agrees(sys, q)
  {}

  /** What process i sees on its page k. */
  ghost predicate Shows(sys: Sys, i: nat, k: nat) {
    |sys.ph.bytes| == MAX_PAGES && i < |Eager(VmOf(sys))| && k < |Eager(VmOf(sys))[i]|
  }

  ghost function Seen(sys: Sys, i: nat, k: nat): Page
    requires Shows(sys, i, k)
  {
    Eager(VmOf(sys))[i][k].data
  }

  /** A store of the kernel for the child, to a page that was not writable, shows at the parent exactly when
      it changes the byte. */
  lemma KernelStoreReachesParent(sys: Sys, p: nat, k: nat, off: nat, b: byte, sys': Sys, c: nat)
    requires Ok(sys) && PhysOk(sys.ph) && |sys.kernel| == 4 && p < |sys.slots| && ForkProcess(sys, p) == (sys', Some(c))
    requires sys.slots[p].User? && k < |sys.slots[p].vas| && !MayWrite(EntryAt(sys, p, k).flags)
    requires off < PAGE_SIZE
    ensures PhysOk(sys'.ph) && c < |sys'.slots| && sys'.slots[c].User?
    ensures var after := WriteUserByte(sys', c, sys.slots[p].vas[k] + off, b).0;
      && Shows(sys', p, k) && Shows(after, p, k)
      && (Seen(after, p, k) == Seen(sys', p, k) <==> Seen(sys', p, k)[off] == b)
  {
    hide *;
    ListIsOk(sys, p);
    WholePage(sys.slots[p].vas, k);
    InPage(sys.slots[p].vas[k], off);
    ForkedPage(sys, p, k, p);
    ForkedPage(sys, p, k, c);
    SharedFlags(EntryAt(sys, p, k));
    SharedPage(sys', p, c, k, sys.slots[p].vas[k] + off, b);
  }

  /** Sharing changes who may write to a page at once, not who may write to it; and it makes no page writable. */
  lemma SharedFlags(e: Pte)
    ensures MayWrite(ChildPte(e).flags) == MayWrite(e.flags) && ChildPte(e).frame == e.frame
    ensures !ChildPte(e).flags.writable && (MayWrite(e.flags) ==> ChildPte(e).flags.cow)
  {}

  lemma SharedPage(sys: Sys, p: nat, c: nat, k: nat, va: nat, b: byte)
    requires Ok(sys) && PhysOk(sys.ph) && p < |sys.slots| && sys.slots[p].User? && k < |sys.slots[p].vas|
    requires c < |sys.slots| && sys.slots[c].User? && k < |sys.slots[c].vas| && sys.slots[c].vas[k] == PageBase(va)
    requires var e := Lookup(sys.ph.words, sys.slots[c].pd, PageBase(va)); e.Some? && !MayWrite(e.value.flags)
    requires EntryAt(sys, p, k).frame == EntryAt(sys, c, k).frame
    ensures var after := WriteUserByte(sys, c, va, b).0;
      && Shows(sys, p, k) && Shows(after, p, k)
      && (Seen(after, p, k) == Seen(sys, p, k) <==> Seen(sys, p, k)[va % PAGE_SIZE] == b)
  {
    hide Ok, Lookup, VmOf, Eager, PhysOk, WriteUserByte, EntryAt;
    OkPhys(sys);
    EntryInView(sys, p, k);
    EntryInView(sys, c, k);
    SameData(sys, p, c, k);
    WrittenBytes(sys, c, va, b);
    KernelStoreOnReadOnly(sys, c, k, va, b, p, k);
  }

  lemma WrittenBytes(sys: Sys, c: nat, va: nat, b: byte)
    requires PhysOk(sys.ph) && c < |sys.slots| && sys.slots[c].User?
    requires var e := Lookup(sys.ph.words, sys.slots[c].pd, PageBase(va)); e.Some? && !MayWrite(e.value.flags)
    ensures |WriteUserByte(sys, c, va, b).0.ph.bytes| == |sys.ph.bytes|
  {
    hide Lookup, PhysOk;
  }

  lemma SameData(sys: Sys, i: nat, j: nat, k: nat)
    requires Ok(sys) && |sys.ph.bytes| == MAX_PAGES && i < |sys.slots| && j < |sys.slots|
    requires sys.slots[i].User? && sys.slots[j].User? && k < |sys.slots[i].vas| && k < |sys.slots[j].vas|
    requires EntryAt(sys, i, k).frame == EntryAt(sys, j, k).frame
    ensures var e := Eager(VmOf(sys)); |e| == |sys.slots| && k < |e[i]| && k < |e[j]| && e[i][k].data == e[j][k].data
  {
    hide Ok, Views, EntryAt, Lookup;
    EntryInView(sys, i, k);
    EntryInView(sys, j, k);
  }

  lemma InPage(va: nat, off: nat)
    requires va % PAGE_SIZE == 0 && off < PAGE_SIZE
    ensures PageBase(va + off) == va && (va + off) % PAGE_SIZE == off
  {
    assert va == va / PAGE_SIZE * PAGE_SIZE;
  }
}
