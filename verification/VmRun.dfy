/** Runs of forks, user stores, write faults and teardowns: every process sees the bytes it would see
    if fork copied every page at once. */
module VmRun {
  import opened Common
  import opened Memory
  import opened Paging
  import opened Cow
  import opened Fork
  import opened ForkProof

  function PageBase(va: nat): nat { va - va % PAGE_SIZE }

  function StoreByte(sys: Sys, f: nat, off: nat, b: byte): Sys
    requires off < PAGE_SIZE
  {
    if f < |sys.ph.bytes| then sys.(ph := sys.ph.(bytes := sys.ph.bytes[f := sys.ph.bytes[f][off := b]])) else sys
  }

  /** A one-byte store by process p: through a writable mapping at once; otherwise the write fault
      handler resolves a copy-on-write page and the store is retried, or the process is killed. */
  function UserStore(sys: Sys, p: nat, va: nat, b: byte): (Sys, bool)
    requires PhysOk(sys.ph) && p < |sys.slots|
  {
    var slot := sys.slots[p];
    if !slot.User? then (sys, false)
    else
      match Lookup(sys.ph.words, slot.pd, va)
      case None => (sys, false)
      case Some(e) =>
        if e.flags.writable then (StoreByte(sys, e.frame, va % PAGE_SIZE, b), true)
        else
          var (ph, ok) := ResolveCow(sys.ph, slot.pd, PageBase(va));
          if !ok then (sys, false)
          else (StoreByte(sys.(ph := ph), PteAt(ph.words, slot.pd, va).frame, va % PAGE_SIZE, b), true)
  }

  // ---------------------------------------------------------------- resolving one listed page

  lemma PageBaseOf(va: nat)
    ensures PageBase(va) / PAGE_SIZE == va / PAGE_SIZE && PageBase(va) % PAGE_SIZE == 0
  {}

  lemma ListedPage(sys: Sys, p: nat, va: nat) returns (k: nat)
    requires Ok(sys) && p < |sys.slots| && sys.slots[p].User?
    requires va < USER_LIMIT && Lookup(sys.ph.words, sys.slots[p].pd, va).Some?
    ensures k < |sys.slots[p].vas| && sys.slots[p].vas[k] == PageBase(va)
  {
    var slot := sys.slots[p];
    assert TableOk(sys.ph.words, slot.pd, slot.vas) && SlotShape(slot);
    k :| 0 <= k < |slot.vas| && slot.vas[k] / PAGE_SIZE == va / PAGE_SIZE;
    assert UserVa(slot.vas[k]);
  }

  /** The memory with the entry of listed page k of process p replaced by e. */
  ghost predicate Repointed(sys: Sys, ph: Phys, p: nat, k: nat, e: Pte) {
    && p < |sys.slots| && sys.slots[p].User? && k < |sys.slots[p].vas|
    && Spaces(ph, SpacesOf(sys.slots))
    && (forall q :: q in SpacesOf(sys.slots) ==> SpaceFrames(ph.words, q) == SpaceFrames(sys.ph.words, q))
    && IsUser(e)
    && (forall q, vb :: q in SpacesOf(sys.slots) && 0 <= vb < USER_LIMIT ==>
          Lookup(ph.words, q, vb) == Remapped(sys.ph.words, sys.slots[p].pd, sys.slots[p].vas[k], e, q, vb))
  }

  lemma RepointedViews(sys: Sys, ph: Phys, p: nat, k: nat, e: Pte)
    requires Ok(sys) && Repointed(sys, ph, p, k, e)
    ensures var views := Views(sys.ph.words, sys.slots);
      |views[p]| == |sys.slots[p].vas| && Views(ph.words, sys.slots) == WithPte(views, p, k, e)
    ensures SlotsOk(ph.words, sys.slots)
  {
    hide Spaces, SpaceFrames, Inv, Apart, Lookup;
    forall i | 0 <= i < |sys.slots| && i != p
      ensures ViewOf(ph.words, sys.slots[i]) == ViewOf(sys.ph.words, sys.slots[i])
      ensures sys.slots[i].User? ==> TableOk(ph.words, sys.slots[i].pd, sys.slots[i].vas)
    {
      assert SlotShape(sys.slots[i]);
      if sys.slots[i].User? {
        assert TableOk(sys.ph.words, sys.slots[i].pd, sys.slots[i].vas);
        assert sys.slots[i].pd != sys.slots[p].pd;
      }
      ViewKept(sys.ph.words, ph.words, sys.slots[i]);
    }
    RepointedOwn(sys, ph, p, k, e);
  }

  lemma RepointedOwn(sys: Sys, ph: Phys, p: nat, k: nat, e: Pte)
    requires Ok(sys) && Repointed(sys, ph, p, k, e)
    ensures TableOk(ph.words, sys.slots[p].pd, sys.slots[p].vas)
    ensures var m := ViewOf(sys.ph.words, sys.slots[p]);
      |m| == |sys.slots[p].vas| && ViewOf(ph.words, sys.slots[p]) == m[k := m[k].(pte := e)]
  {
    hide Spaces, SpaceFrames, Inv, Apart, Lookup;
    var slot := sys.slots[p];
    assert TableOk(sys.ph.words, slot.pd, slot.vas) && SlotShape(slot);
    assert OnPage(slot.vas, |slot.vas|, slot.vas[k]);
    forall l | 0 <= l < |slot.vas|
      ensures Lookup(ph.words, slot.pd, slot.vas[l]) ==
        if l == k then Some(e) else Lookup(sys.ph.words, slot.pd, slot.vas[l])
    {
      assert UserVa(slot.vas[l]) && UserVa(slot.vas[k]);
      assert l != k ==> slot.vas[l] / PAGE_SIZE != slot.vas[k] / PAGE_SIZE;
    }
    forall va: nat | va < USER_LIMIT && Lookup(ph.words, slot.pd, va).Some?
      ensures OnPage(slot.vas, |slot.vas|, va)
    {
      if va / PAGE_SIZE != slot.vas[k] / PAGE_SIZE {
        assert Lookup(sys.ph.words, slot.pd, va).Some?;
      }
    }
  }

  /** The entry a resolved page gets: its own frame, or the copy's. */
  function ResolvedPte(fr: Frames, e: Pte): Pte
    requires Valid(fr)
  {
    Pte(if e.frame < MAX_PAGES && fr.refs[e.frame] > 1 then AllocRun(fr, 1).1 / PAGE_SIZE else e.frame,
        UncowFlags(e.flags))
  }

  lemma ResolveRepoints(sys: Sys, p: nat, k: nat, e: Pte)
    requires Ok(sys) && p < |sys.slots| && sys.slots[p].User? && k < |sys.slots[p].vas|
    requires Lookup(sys.ph.words, sys.slots[p].pd, sys.slots[p].vas[k]) == Some(e) && e.flags.cow
    ensures var (ph, ok) := ResolveCow(sys.ph, sys.slots[p].pd, sys.slots[p].vas[k]);
      var (fr, a) := AllocRun(sys.ph.fr, 1);
      && e.frame < MAX_PAGES && sys.ph.fr.used[e.frame] && sys.ph.fr.refs[e.frame] > 0
      && (ok <==> sys.ph.fr.refs[e.frame] == 1 || a != 0)
      && (!ok ==> ph == sys.ph)
      && (ok ==> Repointed(sys, ph, p, k, ResolvedPte(sys.ph.fr, e)))
      && (ok && sys.ph.fr.refs[e.frame] == 1 ==> ph.fr == sys.ph.fr && ph.bytes == sys.ph.bytes)
      && (ok && sys.ph.fr.refs[e.frame] > 1 ==>
            && ph.fr == FreePage(fr, e.frame * PAGE_SIZE)
            && ph.bytes == sys.ph.bytes[a / PAGE_SIZE := sys.ph.bytes[e.frame]])
  {
    hide Ok, Inv, Apart, SlotsOk, Lookup, Spaces, SpaceFrames, ResolveCow, Views, Total, FreePage, AllocRun, Valid;
    hide ListOk;
    var slot, va := sys.slots[p], sys.slots[p].vas[k];
    OkSpaces(sys);
    OkFrames(sys);
    OkList(sys, p);
    ListedFrame(sys, p, k);
    UserFrame(sys, e.frame);
    UserBits(sys.ph.words, slot.pd, va);
    ResolveRefines(sys.ph, SpacesOf(sys.slots), slot.pd, va);
    forall q | q in SpacesOf(sys.slots)
      ensures SpaceFrames(ResolveCow(sys.ph, slot.pd, va).0.words, q) == SpaceFrames(sys.ph.words, q)
    {
      ResolveKeepsFrames(sys.ph, SpacesOf(sys.slots), slot.pd, va, q);
    }
  }

  /** Frames nobody mapped stay apart when one entry moves to a frame g that was free or its own. */
  lemma RepointedApart(sys: Sys, ph: Phys, p: nat, k: nat, e: Pte)
    requires Ok(sys) && Repointed(sys, ph, p, k, e)
    requires forall f: nat :: Held(sys.ph.fr, f) && Total(Views(sys.ph.words, sys.slots), f) == 0 ==>
      Held(ph.fr, f) && f != e.frame
    ensures Apart(ph, sys.slots)
  {
    var views, views' := Views(sys.ph.words, sys.slots), Views(ph.words, sys.slots);
    RepointedViews(sys, ph, p, k, e);
    forall f: nat | Total(views, f) == 0 && f != e.frame ensures Total(views', f) == 0 {
      WithPteTotal(views, p, k, e, f);
    }
    hide Inv, SlotsOk;
    forall i, f | 0 <= i < |sys.slots| && sys.slots[i].User? && f in SpaceFrames(ph.words, sys.slots[i].pd)
      ensures Total(views', f) == 0
    {
      SpaceFramesHeld(sys.ph, SpacesOf(sys.slots), sys.slots[i].pd, f);
    }
    hide SpaceFrames, Spaces;
  }

  lemma ResolveCopies(sys: Sys, p: nat, k: nat, e: Pte, ph: Phys)
    requires Ok(sys) && p < |sys.slots| && sys.slots[p].User? && k < |sys.slots[p].vas|
    requires Lookup(sys.ph.words, sys.slots[p].pd, sys.slots[p].vas[k]) == Some(e) && e.flags.cow
    requires e.frame < MAX_PAGES && sys.ph.fr.refs[e.frame] > 1 && AllocRun(sys.ph.fr, 1).1 != 0
    requires Repointed(sys, ph, p, k, ResolvedPte(sys.ph.fr, e))
    requires ph.fr == FreePage(AllocRun(sys.ph.fr, 1).0, e.frame * PAGE_SIZE)
    requires ph.bytes == sys.ph.bytes[AllocRun(sys.ph.fr, 1).1 / PAGE_SIZE := sys.ph.bytes[e.frame]]
    ensures Ok(sys.(ph := ph)) && Eager(VmOf(sys.(ph := ph))) == Eager(VmOf(sys))
  {
    hide Ok, AllocRun, Apart, SlotsOk, Spaces, FreePage, Repointed, Valid, Total, Shareable, Views, Lookup, Held;
    OkFrames(sys);
    var fr, g := AllocRun(sys.ph.fr, 1).0, AllocRun(sys.ph.fr, 1).1 / PAGE_SIZE;
    ListedFrame(sys, p, k);
    OneTaken(sys.ph.fr);
    FrameShared(fr, e.frame);
    UnusedIsUnnamed(sys, g);
    RepointedViews(sys, ph, p, k, ResolvedPte(sys.ph.fr, e));
    forall f: nat | Held(sys.ph.fr, f) && Total(Views(sys.ph.words, sys.slots), f) == 0
      ensures Held(ph.fr, f) && f != g
    {
      HeldElsewhere(sys.ph.fr, ph.fr, f, e.frame, g);
    }
    RepointedApart(sys, ph, p, k, ResolvedPte(sys.ph.fr, e));
    RepointedSpaces(sys, ph, p, k, ResolvedPte(sys.ph.fr, e));
    hide Inv;
    ResolveByCopySimulates(VmOf(sys), VmOf(sys.(ph := ph)), p, k, g);
    OkParts(sys.(ph := ph));
  }

  /** The frame a single allocation takes; nothing else changes. */
  lemma OneTaken(fr: Frames)
    requires Valid(fr) && AllocRun(fr, 1).1 != 0
    ensures var (after, a) := AllocRun(fr, 1); var g := a / PAGE_SIZE;
      && Valid(after) && Shape(after) && Shape(fr) && RESERVED_PAGES <= g < MAX_PAGES && a == g * PAGE_SIZE
      && !fr.used[g] && after.used[g] && after.refs[g] == 1
      && forall h: nat :: h < MAX_PAGES && h != g ==> after.refs[h] == fr.refs[h] && after.used[h] == fr.used[h]
  {
    AllocValid(fr, 1);
    AllocExact(fr, 1);
  }

  /** Freeing a shared frame takes one owner away. */
  lemma FrameShared(fr: Frames, f: nat)
    requires Valid(fr) && Shape(fr) && RESERVED_PAGES <= f < MAX_PAGES && fr.used[f] && fr.refs[f] > 1
    ensures var r := FreePage(fr, f * PAGE_SIZE);
      && Valid(r) && Shape(r) && r.used == fr.used && r.refs[f] == fr.refs[f] - 1
      && forall h: nat :: h < MAX_PAGES && h != f ==> r.refs[h] == fr.refs[h]
  {
    assert f * PAGE_SIZE / PAGE_SIZE == f && f * PAGE_SIZE % PAGE_SIZE == 0;
    FreeValid(fr, f * PAGE_SIZE);
    hide Valid;
  }

  /** A frame held by one owner stays held when another, shared one loses an owner and a free one is taken. */
  lemma HeldElsewhere(a: Frames, b: Frames, f: nat, shared: nat, taken: nat)
    requires Held(a, f) && Shape(b) && Shape(a) && shared < MAX_PAGES && a.refs[shared] > 1 && taken < MAX_PAGES
    requires !a.used[taken]
    requires forall h: nat :: h < MAX_PAGES && h != shared && h != taken ==>
      b.refs[h] == a.refs[h] && b.used[h] == a.used[h]
    ensures Held(b, f) && f != taken && f != shared
  {}

  lemma RepointedSpaces(sys: Sys, ph: Phys, p: nat, k: nat, e: Pte)
    requires Repointed(sys, ph, p, k, e)
    ensures Spaces(ph, SpacesOf(sys.slots))
  {}

  lemma ResolveKeepsFrame(sys: Sys, p: nat, k: nat, e: Pte, ph: Phys)
    requires Ok(sys) && p < |sys.slots| && sys.slots[p].User? && k < |sys.slots[p].vas|
    requires Lookup(sys.ph.words, sys.slots[p].pd, sys.slots[p].vas[k]) == Some(e) && e.flags.cow
    requires e.frame < MAX_PAGES && sys.ph.fr.refs[e.frame] == 1
    requires Repointed(sys, ph, p, k, ResolvedPte(sys.ph.fr, e)) && ph.fr == sys.ph.fr && ph.bytes == sys.ph.bytes
    ensures Ok(sys.(ph := ph)) && Eager(VmOf(sys.(ph := ph))) == Eager(VmOf(sys))
  {
    ListedFrame(sys, p, k);
    RepointedViews(sys, ph, p, k, ResolvedPte(sys.ph.fr, e));
    RepointedApart(sys, ph, p, k, ResolvedPte(sys.ph.fr, e));
    hide Apart, SlotsOk, Spaces;
    ResolveInPlaceSimulates(VmOf(sys), VmOf(sys.(ph := ph)), p, k);
  }

  /** Resolving a write fault: the process layout stays sound, nobody sees a change, and it fails only
      for want of a free frame. */
  lemma ResolveCorrect(sys: Sys, p: nat, k: nat, e: Pte)
    requires Ok(sys) && p < |sys.slots| && sys.slots[p].User? && k < |sys.slots[p].vas|
    requires Lookup(sys.ph.words, sys.slots[p].pd, sys.slots[p].vas[k]) == Some(e) && e.flags.cow
    ensures var (ph, ok) := ResolveCow(sys.ph, sys.slots[p].pd, sys.slots[p].vas[k]);
      && Ok(sys.(ph := ph)) && Eager(VmOf(sys.(ph := ph))) == Eager(VmOf(sys))
      && (ok ==> Lookup(ph.words, sys.slots[p].pd, sys.slots[p].vas[k]) == Some(ResolvedPte(sys.ph.fr, e)))
      && (!ok ==> ph == sys.ph)
      && e.frame < MAX_PAGES && (ok <==> sys.ph.fr.refs[e.frame] <= 1 || AllocRun(sys.ph.fr, 1).1 != 0)
  {
    ResolveRepoints(sys, p, k, e);
    var (ph, ok) := ResolveCow(sys.ph, sys.slots[p].pd, sys.slots[p].vas[k]);
    if ok {
      assert UserVa(sys.slots[p].vas[k]) by { assert SlotShape(sys.slots[p]); }
      hide Ok, ResolveCow, Eager, VmOf, Spaces;
      if sys.ph.fr.refs[e.frame] > 1 {
        ResolveCopies(sys, p, k, e, ph);
      } else {
        ResolveKeepsFrame(sys, p, k, e, ph);
      }
    }
  }

  // ---------------------------------------------------------------- stores

  /** The same store on the eager machine: the listed page that holds va, if it is writable. */
  function EagerIndex(pages: seq<EagerPage>, va: nat): (r: Option<nat>)
    ensures r.Some? ==> r.value < |pages| && pages[r.value].va == PageBase(va)
    ensures r.None? ==> forall k :: 0 <= k < |pages| ==> pages[k].va != PageBase(va)
  {
    if pages == [] then None
    else if pages[|pages| - 1].va == PageBase(va) then Some(|pages| - 1)
    else EagerIndex(pages[..|pages| - 1], va)
  }

  lemma {:induction false} EagerIndexIs(pages: seq<EagerPage>, va: nat, k: nat)
    requires k < |pages| && pages[k].va == PageBase(va)
    requires forall i, j :: 0 <= i < j < |pages| ==> pages[i].va != pages[j].va
    ensures EagerIndex(pages, va) == Some(k)
  {
    if k < |pages| - 1 {
      EagerIndexIs(pages[..|pages| - 1], va, k);
    }
  }

  function EagerStore(e: seq<seq<EagerPage>>, p: nat, va: nat, b: byte): seq<seq<EagerPage>> {
    if p >= |e| then e
    else
      match EagerIndex(e[p], va)
      case None => e
      case Some(k) => EagerWrite(e, p, k, va % PAGE_SIZE, b)
  }

  lemma StoreThrough(sys: Sys, p: nat, k: nat, va: nat, b: byte, e: Pte)
    requires Ok(sys) && p < |sys.slots| && sys.slots[p].User? && k < |sys.slots[p].vas|
    requires sys.slots[p].vas[k] == PageBase(va) && Lookup(sys.ph.words, sys.slots[p].pd, PageBase(va)) == Some(e)
    requires e.flags.writable
    ensures var sys' := StoreByte(sys, e.frame, va % PAGE_SIZE, b);
      Ok(sys') && Eager(VmOf(sys')) == EagerStore(Eager(VmOf(sys)), p, va, b)
  {
    hide Ok, SpaceFrames, Lookup, TableOk, Inv, Spaces, SlotsOk, Apart, Total, Views, Eager, ViewOf;
    var sys' := StoreByte(sys, e.frame, va % PAGE_SIZE, b);
    StoreSees(sys, p, k, va, e);
    BytesDontMatter(sys, sys');
    WriteSimulates(VmOf(sys), VmOf(sys'), p, k, va % PAGE_SIZE, b);
    OkParts(sys');
  }

  /** The page a store goes to, as the list, the table and the eager machine see it. */
  lemma StoreSees(sys: Sys, p: nat, k: nat, va: nat, e: Pte)
    requires Ok(sys) && p < |sys.slots| && sys.slots[p].User? && k < |sys.slots[p].vas|
    requires sys.slots[p].vas[k] == PageBase(va) && Lookup(sys.ph.words, sys.slots[p].pd, PageBase(va)) == Some(e)
    ensures Inv(VmOf(sys)) && |sys.ph.bytes| == MAX_PAGES && |sys.kernel| == 4 && e.frame < MAX_PAGES
    ensures var views := VmOf(sys).views;
      p < |views| && k < |views[p]| && views[p][k] == Mapping(PageBase(va), e)
    ensures p < |Eager(VmOf(sys))| && EagerIndex(Eager(VmOf(sys))[p], va) == Some(k)
  {
    hide Ok, Lookup, Inv, Total, Eager, Views, ListOk, ViewOf;
    OkFrames(sys);
    OkList(sys, p);
    ListedFrame(sys, p, k);
    NamedIsUsed(sys, e.frame);
    EagerPages(sys, p);
    EagerIndexIs(Eager(VmOf(sys))[p], va, k);
  }

  lemma OkList(sys: Sys, p: nat)
    requires Ok(sys) && p < |sys.slots| && sys.slots[p].User?
    ensures ListOk(sys.slots[p].vas) && |sys.kernel| == 4
    ensures forall k :: 0 <= k < |sys.slots[p].vas| ==> UserVa(sys.slots[p].vas[k])
    ensures forall k, l :: 0 <= k < l < |sys.slots[p].vas| ==> sys.slots[p].vas[k] != sys.slots[p].vas[l]
  {
    assert SlotShape(sys.slots[p]);
    hide Spaces, Apart, Inv, TablesOk;
  }

  lemma EagerPages(sys: Sys, p: nat)
    requires |sys.ph.bytes| == MAX_PAGES && p < |sys.slots| && sys.slots[p].User?
    ensures p < |Eager(VmOf(sys))| && p < |VmOf(sys).views| && |VmOf(sys).views[p]| == |sys.slots[p].vas|
    ensures var pages := Eager(VmOf(sys))[p];
      |pages| == |sys.slots[p].vas| && forall i :: 0 <= i < |pages| ==> pages[i].va == sys.slots[p].vas[i]
  {
    hide Lookup;
  }

  lemma OkParts(sys: Sys)
    requires |sys.kernel| == 4 && Spaces(sys.ph, SpacesOf(sys.slots)) && SlotsOk(sys.ph.words, sys.slots)
    requires Apart(sys.ph, sys.slots) && Inv(VmOf(sys))
    ensures Ok(sys)
  {}

  /** What the frames hold does not matter to tables and slots. */
  lemma BytesDontMatter(sys: Sys, sys': Sys)
    requires Ok(sys) && sys' == sys.(ph := sys.ph.(bytes := sys'.ph.bytes)) && |sys'.ph.bytes| == MAX_PAGES
    ensures Spaces(sys'.ph, SpacesOf(sys'.slots)) && SlotsOk(sys'.ph.words, sys'.slots) && Apart(sys'.ph, sys'.slots)
  {
    hide Inv, SpaceFrames, Total, Views, TableOk;
  }

  /** A page a process may write: writable, or copy-on-write. */
  predicate MayWrite(flags: Flags) { flags.writable || flags.cow }

  /** Why a store is refused: no page, a page the process may not write, or a shared page that needs a
      copy while no frame is free. */
  ghost predicate Refused(sys: Sys, p: nat, va: nat)
    requires PhysOk(sys.ph) && p < |sys.slots| && sys.slots[p].User?
  {
    match Lookup(sys.ph.words, sys.slots[p].pd, va)
    case None => true
    case Some(e) =>
      || !MayWrite(e.flags)
      || (!e.flags.writable && e.frame < MAX_PAGES && sys.ph.fr.refs[e.frame] > 1 && AllocRun(sys.ph.fr, 1).1 == 0)
  }

  /** A user store does on the shared frames what it does on the eager machine. */
  lemma StoreCorrect(sys: Sys, p: nat, va: nat, b: byte)
    requires Ok(sys) && p < |sys.slots| && sys.slots[p].User?
    requires PhysOk(sys.ph)
    ensures var (sys', ok) := UserStore(sys, p, va, b);
      && Ok(sys')
      && (ok <==> !Refused(sys, p, va))
      && (ok ==> Eager(VmOf(sys')) == EagerStore(Eager(VmOf(sys)), p, va, b) && sys'.slots == sys.slots)
      && (!ok ==> sys' == sys)
  {
    hide Ok, Eager, VmOf, ResolveCow, Lookup, PhysOk, AllocRun, EagerStore, PteAt, PageBase;
    var slot := sys.slots[p];
    UserHalf(sys.ph.words, slot.pd, va);
    if va < USER_LIMIT && Lookup(sys.ph.words, slot.pd, va).Some? {
      var e := Lookup(sys.ph.words, slot.pd, va).value;
      var k := ListedPage(sys, p, va);
      PageBaseOf(va);
      SameLookup(sys.ph.words, slot.pd, va);
      if e.flags.writable {
        StoreThrough(sys, p, k, va, b, e);
      } else if e.flags.cow {
        StoreAfterFault(sys, p, k, va, b, e);
      } else {
        ResolveRefuses(sys.ph, slot.pd, PageBase(va));
      }
    }
  }

  lemma StoreAfterFault(sys: Sys, p: nat, k: nat, va: nat, b: byte, e: Pte)
    requires Ok(sys) && p < |sys.slots| && sys.slots[p].User? && k < |sys.slots[p].vas| && va < USER_LIMIT
    requires sys.slots[p].vas[k] == PageBase(va) && Lookup(sys.ph.words, sys.slots[p].pd, PageBase(va)) == Some(e)
    requires e.flags.cow
    ensures var (ph, ok) := ResolveCow(sys.ph, sys.slots[p].pd, PageBase(va));
      && (ok <==> !(e.frame < MAX_PAGES && sys.ph.fr.refs[e.frame] > 1 && AllocRun(sys.ph.fr, 1).1 == 0))
      && (ok ==> var sys' := StoreByte(sys.(ph := ph), PteAt(ph.words, sys.slots[p].pd, va).frame, va % PAGE_SIZE, b);
            Ok(sys') && Eager(VmOf(sys')) == EagerStore(Eager(VmOf(sys)), p, va, b))
  {
    hide Eager, Apart, SlotsOk, Lookup, ResolveCow, Blocks, Tables;
    ResolveCorrect(sys, p, k, e);
    var (ph, ok) := ResolveCow(sys.ph, sys.slots[p].pd, PageBase(va));
    if ok {
      SameLookup(ph.words, sys.slots[p].pd, va);
      StoreThrough(sys.(ph := ph), p, k, va, b, ResolvedPte(sys.ph.fr, e));
    }
  }

  lemma UserHalf(words: seq<Table>, pd: nat, va: nat)
    ensures Lookup(words, pd, va).Some? ==> va < USER_LIMIT
  {}

  /** The walk looks at the page of an address only. */
  lemma SameLookup(words: seq<Table>, pd: nat, va: nat)
    requires va < USER_LIMIT
    ensures PageBase(va) < USER_LIMIT && Lookup(words, pd, PageBase(va)) == Lookup(words, pd, va)
  {
    PageBaseOf(va);
    SplitInjective(va, PageBase(va));
  }

  lemma ResolveRefuses(s: Phys, pd: nat, va: nat)
    requires PhysOk(s) && Lookup(s.words, pd, va).Some? && !Lookup(s.words, pd, va).value.flags.cow
    ensures ResolveCow(s, pd, va) == (s, false)
  {}

  // ---------------------------------------------------------------- teardown

  function FreePages(fr: Frames, pages: seq<nat>, n: nat): (r: Frames)
    requires Shape(fr) && n <= |pages|
    ensures Shape(r)
  {
    if n == 0 then fr
    else
      var before := FreePages(fr, pages, n - 1);
      if pages[n - 1] != 0 then FreePage(before, pages[n - 1] * PAGE_SIZE) else before
  }

  /** Reaping a process: free user_pages, then the page tables, then the kernel stack. */
  function ReapProcess(sys: Sys, p: nat): Sys
    requires Shape(sys.ph.fr) && p < |sys.slots| && sys.slots[p].User?
  {
    var slot := sys.slots[p];
    var ph1 := sys.ph.(fr := FreePages(sys.ph.fr, slot.pages, |slot.pages|));
    var ph2 := DestroySpace(ph1, slot.pd);
    Sys(ph2.(fr := FreePage(ph2.fr, slot.kstack * PAGE_SIZE)), sys.kernel, sys.slots[p := Unused])
  }

  function CountIn(pages: seq<nat>, n: nat, f: nat): (r: nat)
    requires n <= |pages|
    ensures r <= n
  {
    if n == 0 then 0 else CountIn(pages, n - 1, f) + (if pages[n - 1] == f then 1 else 0)
  }

  /** user_pages names each frame as often as the page table does. */
  ghost predicate Agrees(sys: Sys, p: nat) {
    && p < |sys.slots| && sys.slots[p].User?
    && forall f: nat ::
          CountIn(sys.slots[p].pages, |sys.slots[p].pages|, f) == Count(Views(sys.ph.words, sys.slots)[p], f)
  }

  lemma {:induction false} FreePagesEffect(fr: Frames, pages: seq<nat>, n: nat, f: nat)
    requires Valid(fr) && n <= |pages| && RESERVED_PAGES <= f < MAX_PAGES
    ensures var r := FreePages(fr, pages, n); var c := CountIn(pages, n, f);
      && Valid(r)
      && r.refs[f] == (if fr.refs[f] <= c then 0 else fr.refs[f] - c)
      && (c == 0 ==> r.used[f] == fr.used[f])
  {
    if n > 0 {
      FreePagesEffect(fr, pages, n - 1, f);
      var before := FreePages(fr, pages, n - 1);
      FreeValid(before, pages[n - 1] * PAGE_SIZE);
      assert pages[n - 1] * PAGE_SIZE / PAGE_SIZE == pages[n - 1];
    }
  }

  lemma OutsideSpace(sys: Sys, p: nat, f: nat)
    requires Ok(sys) && p < |sys.slots| && sys.slots[p].User? && f !in SpaceFrames(sys.ph.words, sys.slots[p].pd)
    ensures var pd := sys.slots[p].pd;
      f !in TablesOf(sys.ph.words, pd, DIRECTORIES) && !(pd <= f < pd + 5) && pd > 0
  {}

  /** What reaping does to one frame outside the process's own tables and stack. */
  lemma ReapFrame(sys: Sys, p: nat, f: nat)
    requires Ok(sys) && p < |sys.slots| && sys.slots[p].User?
    requires RESERVED_PAGES <= f < MAX_PAGES
    requires f !in SpaceFrames(sys.ph.words, sys.slots[p].pd) && f != sys.slots[p].kstack
    ensures var r := ReapProcess(sys, p); var c := CountIn(sys.slots[p].pages, |sys.slots[p].pages|, f);
      && Valid(r.ph.fr)
      && r.ph.fr.refs[f] == (if sys.ph.fr.refs[f] <= c then 0 else sys.ph.fr.refs[f] - c)
      && (c == 0 ==> r.ph.fr.used[f] == sys.ph.fr.used[f])
  {
    hide Ok, Valid, FreePages, FreeTables, FreeBlock, SpaceFrames, FreePage, TablesOf;
    OkFrames(sys);
    var slot := sys.slots[p];
    var fr1 := FreePages(sys.ph.fr, slot.pages, |slot.pages|);
    OutsideSpace(sys, p, f);
    FreePagesEffect(sys.ph.fr, slot.pages, |slot.pages|, f);
    FreeTablesValid(fr1, sys.ph.words, slot.pd, DIRECTORIES);
    FreeTablesOnly(fr1, sys.ph.words, slot.pd, DIRECTORIES, f);
    var fr2 := FreeTables(fr1, sys.ph.words, slot.pd, DIRECTORIES);
    FreeBlockValid(fr2, slot.pd, PROCESS_PAGING_PAGES);
    FreeBlockOnly(fr2, slot.pd, PROCESS_PAGING_PAGES, f);
    FreedElsewhere(FreeBlock(fr2, slot.pd, PROCESS_PAGING_PAGES), slot.kstack, f);
  }

  lemma OkFrames(sys: Sys)
    requires Ok(sys)
    ensures Valid(sys.ph.fr) && Shape(sys.ph.fr) && PhysOk(sys.ph) && |sys.ph.bytes| == MAX_PAGES && Inv(VmOf(sys))
    ensures |sys.kernel| == 4
  {}

  /** Freeing frame g leaves frame f as it was. */
  lemma FreedElsewhere(fr: Frames, g: nat, f: nat)
    requires Valid(fr) && Shape(fr) && g != f && f < MAX_PAGES
    ensures var r := FreePage(fr, g * PAGE_SIZE);
      Valid(r) && Shape(r) && r.refs[f] == fr.refs[f] && r.used[f] == fr.used[f]
  {
    FreeValid(fr, g * PAGE_SIZE);
    assert g * PAGE_SIZE / PAGE_SIZE == g;
    hide Valid;
  }

  lemma UserNotKernel(sys: Sys, p: nat, f: nat)
    requires Ok(sys) && p < |sys.slots| && sys.slots[p].User? && Total(Views(sys.ph.words, sys.slots), f) > 0
    ensures RESERVED_PAGES <= f < MAX_PAGES && sys.ph.fr.refs[f] == Total(Views(sys.ph.words, sys.slots), f)
    ensures f !in SpaceFrames(sys.ph.words, sys.slots[p].pd) && f != sys.slots[p].kstack
  {
    UserFrame(sys, f);
  }

  /** After reaping, every frame that was mapped is counted once per remaining mapping. */
  ghost predicate Balanced(sys: Sys, p: nat)
    requires PhysOk(sys.ph) && p < |sys.slots| && sys.slots[p].User?
  {
    forall f: nat :: f < MAX_PAGES && Total(Views(sys.ph.words, sys.slots), f) > 0 ==>
      ReapProcess(sys, p).ph.fr.refs[f] == Total(Views(sys.ph.words, sys.slots)[p := []], f)
  }

  /** Reaping balances the counts exactly when user_pages agrees with the page table. */
  lemma ReapBalancedIff(sys: Sys, p: nat)
    requires Ok(sys) && p < |sys.slots| && sys.slots[p].User?
    ensures Balanced(sys, p) <==> Agrees(sys, p)
  {
    var views, pages := Views(sys.ph.words, sys.slots), sys.slots[p].pages;
    var n := |pages|;
    forall f: nat | f < MAX_PAGES && Total(views, f) > 0
      ensures Total(views[p := []], f) == Total(views, f) - Count(views[p], f)
      ensures ReapProcess(sys, p).ph.fr.refs[f] ==
        if Total(views, f) <= CountIn(pages, n, f) then 0 else Total(views, f) - CountIn(pages, n, f)
    {
      TotalUpdate(views, p, [], f);
      TotalCovers(views, p, f);
      UserNotKernel(sys, p, f);
      ReapFrame(sys, p, f);
    }
    assert |views[p]| == n by { assert SlotShape(sys.slots[p]); }
    hide Ok, ReapProcess, Views;
    if Balanced(sys, p) {
      forall f: nat ensures Count(views[p], f) <= CountIn(pages, n, f) {
        TotalCovers(views, p, f);
        if Count(views[p], f) > 0 {
          assert Total(views, f) > 0;
          CountedInRange(sys, p, f);
        }
      }
      EqualTallies(views[p], pages);
    }
    if Agrees(sys, p) {
      forall f: nat | f < MAX_PAGES && Total(views, f) > 0
        ensures ReapProcess(sys, p).ph.fr.refs[f] == Total(views[p := []], f)
      {
        TotalCovers(views, p, f);
      }
    }
  }

  lemma CountedInRange(sys: Sys, p: nat, f: nat)
    requires Ok(sys) && Total(Views(sys.ph.words, sys.slots), f) > 0
    ensures f < MAX_PAGES
  {
    UserFrame(sys, f);
  }

  /** Two lists of the same length, one naming everything at least as often: they name the same. */
  lemma {:induction false} EqualTallies(m: seq<Mapping>, pages: seq<nat>)
    requires |pages| == |m| && forall f: nat :: Count(m, f) <= CountIn(pages, |pages|, f)
    ensures forall f: nat :: Count(m, f) == CountIn(pages, |pages|, f)
    decreases |m|
  {
    if m != [] {
      var n := |m| - 1;
      var g := m[n].pte.frame;
      assert Count(m, g) > 0;
      var i := FindIn(pages, |pages|, g);
      var rest := pages[i := pages[n]][..n];
      forall f: nat
        ensures CountIn(rest, n, f) + (if f == g then 1 else 0) == CountIn(pages, |pages|, f)
        ensures Count(m[..n], f) + (if f == g then 1 else 0) == Count(m, f)
        ensures Count(m[..n], f) <= CountIn(rest, n, f)
      {
        assert Count(m, f) <= CountIn(pages, |pages|, f);
        SwapOut(pages, i, f);
      }
      EqualTallies(m[..n], rest);
      assert forall f: nat :: Count(m[..n], f) == CountIn(rest, n, f);
    }
  }

  lemma {:induction false} FindIn(pages: seq<nat>, n: nat, g: nat) returns (i: nat)
    requires n <= |pages| && CountIn(pages, n, g) > 0
    ensures i < n && pages[i] == g
  {
    if pages[n - 1] == g {
      i := n - 1;
    } else {
      i := FindIn(pages, n - 1, g);
    }
  }

  /** Dropping the last entry after moving it over entry i drops one name of entry i. */
  lemma SwapOut(pages: seq<nat>, i: nat, f: nat)
    requires i < |pages|
    ensures var n := |pages| - 1;
      CountIn(pages[i := pages[n]][..n], n, f) + (if f == pages[i] then 1 else 0) == CountIn(pages, |pages|, f)
  {
    var n := |pages| - 1;
    CountInPrefix(pages[i := pages[n]][..n], pages[i := pages[n]], n, f);
    CountInUpdate(pages, i, pages[n], n, f);
  }

  lemma {:induction false} CountInPrefix(a: seq<nat>, b: seq<nat>, n: nat, f: nat)
    requires n <= |a| && n <= |b| && a[..n] == b[..n]
    ensures CountIn(a, n, f) == CountIn(b, n, f)
  {
    if n > 0 {
      assert a[n - 1] == a[..n][n - 1] == b[n - 1];
      assert a[..n - 1] == a[..n][..n - 1] == b[..n - 1];
      CountInPrefix(a, b, n - 1, f);
    }
  }

  lemma {:induction false} CountInUpdate(pages: seq<nat>, i: nat, v: nat, n: nat, f: nat)
    requires i < |pages| && n <= |pages|
    ensures i < n ==> CountIn(pages[i := v], n, f) + (if f == pages[i] then 1 else 0)
                      == CountIn(pages, n, f) + (if f == v then 1 else 0)
    ensures i >= n ==> CountIn(pages[i := v], n, f) == CountIn(pages, n, f)
  {
    if n > 0 {
      CountInUpdate(pages, i, v, n - 1, f);
    }
  }

  /** The memory in which p has been reaped holds every other space as before. */
  lemma ReapSpaces(sys: Sys, p: nat)
    requires Ok(sys) && Agrees(sys, p)
    ensures var ph' := ReapProcess(sys, p).ph; var rest := SpacesOf(sys.slots) - {sys.slots[p].pd};
      && Spaces(ph', rest) && ph'.bytes == sys.ph.bytes
      && (forall q, vb :: q in rest && 0 <= vb < USER_LIMIT ==> Lookup(ph'.words, q, vb) == Lookup(sys.ph.words, q, vb))
      && (forall q :: q in rest ==> SpaceFrames(ph'.words, q) == SpaceFrames(sys.ph.words, q))
  {
    hide Ok, FreePages, DestroySpace, SpaceFrames, Valid, FreePage, Spaces, Held, Lookup, PhysOk;
    OkFrames(sys);
    OkSpaces(sys);
    AgreesSlot(sys, p);
    var slot, spaces := sys.slots[p], SpacesOf(sys.slots);
    var ph1 := sys.ph.(fr := FreePages(sys.ph.fr, slot.pages, |slot.pages|));
    var ph2 := DestroySpace(ph1, slot.pd);
    var rest := spaces - {slot.pd};
    ReapUntouched(sys, p);
    NewFrames(sys.ph, ph1.fr);
    HeldStays(sys.ph, ph1, spaces);
    DestroyedPhys(ph1, slot.pd);
    DestroyKeepsOthers(ph1, spaces, slot.pd);
    forall q | q in rest ensures SpaceFrames(ph2.words, q) == SpaceFrames(sys.ph.words, q) {
      DestroyKeepsFrames(ph1, spaces, slot.pd, q);
    }
    SpacesPhysOk(ph2, rest);
    FreeValid(ph2.fr, slot.kstack * PAGE_SIZE);
    NewFrames(ph2, FreePage(ph2.fr, slot.kstack * PAGE_SIZE));
    forall q, f | q in rest && f in SpaceFrames(ph2.words, q)
      ensures Held(FreePage(ph2.fr, slot.kstack * PAGE_SIZE), f)
    {
      SpaceFramesHeld(ph2, rest, q, f);
      StackOutside(sys, p, q);
      HeldNotFreed(ph2.fr, slot.kstack, f);
    }
    HeldStays(ph2, ph2.(fr := FreePage(ph2.fr, slot.kstack * PAGE_SIZE)), rest);
  }

  lemma DestroyedPhys(ph: Phys, pd: nat)
    requires PhysOk(ph)
    ensures PhysOk(DestroySpace(ph, pd))
  {
    FreeTablesValid(ph.fr, ph.words, pd, DIRECTORIES);
    FreeBlockValid(FreeTables(ph.fr, ph.words, pd, DIRECTORIES), pd, PROCESS_PAGING_PAGES);
    hide FreeTables, FreeBlock, Valid;
  }

  lemma OkSpaces(sys: Sys)
    requires Ok(sys)
    ensures Spaces(sys.ph, SpacesOf(sys.slots))
  {}

  lemma AgreesSlot(sys: Sys, p: nat)
    requires Agrees(sys, p)
    ensures p < |sys.slots| && sys.slots[p].User? && sys.slots[p].pd in SpacesOf(sys.slots)
  {}

  lemma SpacesPhysOk(ph: Phys, spaces: set<nat>)
    requires Spaces(ph, spaces)
    ensures PhysOk(ph) && Valid(ph.fr) && Shape(ph.fr)
  {}

  lemma NewFrames(ph: Phys, fr: Frames)
    requires PhysOk(ph) && Valid(fr)
    ensures PhysOk(ph.(fr := fr))
  {}

  lemma HeldNotFreed(fr: Frames, g: nat, f: nat)
    requires Valid(fr) && Shape(fr) && Held(fr, f) && f != g
    ensures Held(FreePage(fr, g * PAGE_SIZE), f)
  {
    FreedElsewhere(fr, g, f);
    hide Valid, FreePage;
  }

  lemma StackOutside(sys: Sys, p: nat, q: nat)
    requires Ok(sys) && p < |sys.slots| && sys.slots[p].User? && q in SpacesOf(sys.slots)
    ensures sys.slots[p].kstack !in SpaceFrames(sys.ph.words, q)
  {
    var j := SpaceOwner(sys.slots, q);
  }

  /** Freeing agreed pages touches no frame that holds tables. */
  lemma ReapUntouched(sys: Sys, p: nat)
    requires Ok(sys) && Agrees(sys, p)
    ensures var fr1 := FreePages(sys.ph.fr, sys.slots[p].pages, |sys.slots[p].pages|);
      && Valid(fr1)
      && forall q, f :: q in SpacesOf(sys.slots) && f in SpaceFrames(sys.ph.words, q) ==> Held(fr1, f)
  {
    var pages := sys.slots[p].pages;
    FreePagesEffect(sys.ph.fr, pages, |pages|, RESERVED_PAGES);
    hide FreePages;
    forall q, f | q in SpacesOf(sys.slots) && f in SpaceFrames(sys.ph.words, q)
      ensures Held(FreePages(sys.ph.fr, pages, |pages|), f)
    {
      SpaceFramesHeld(sys.ph, SpacesOf(sys.slots), q, f);
      var j := SpaceOwner(sys.slots, q);
      assert Total(Views(sys.ph.words, sys.slots), f) == 0;
      TotalCovers(Views(sys.ph.words, sys.slots), p, f);
      FreePagesEffect(sys.ph.fr, pages, |pages|, f);
    }
  }

  /** Reaping a process whose list agrees keeps everything the others see. */
  lemma ReapCorrect(sys: Sys, p: nat)
    requires Ok(sys) && Agrees(sys, p) && p > 0
    ensures var sys' := ReapProcess(sys, p);
      Ok(sys') && Eager(VmOf(sys')) == Eager(VmOf(sys))[p := []]
  {
    var sys', views := ReapProcess(sys, p), Views(sys.ph.words, sys.slots);
    ReapSpaces(sys, p);
    ReapViews(sys, p, sys');
    ReapBalancedIff(sys, p);
    assert Balanced(sys, p);
    forall f: nat | f < MAX_PAGES && Total(views, f) > 0
      ensures sys'.ph.fr.refs[f] + Count(views[p], f) == sys.ph.fr.refs[f]
    {
      UserNotKernel(sys, p, f);
      TotalUpdate(views, p, [], f);
    }
    ReapApart(sys, p, sys');
    hide Apart, SlotsOk, Spaces, Views, Balanced, ReapProcess;
    LeaveSimulates(VmOf(sys), VmOf(sys'), p);
  }

  lemma SpacesOfRemove(slots: seq<Slot>, p: nat)
    requires p < |slots| && slots[p].User?
    requires forall i :: 0 <= i < |slots| && i != p && slots[i].User? ==> slots[i].pd != slots[p].pd
    ensures SpacesOf(slots[p := Unused]) == SpacesOf(slots) - {slots[p].pd}
  {
    forall q | q in SpacesOf(slots) && q != slots[p].pd ensures q in SpacesOf(slots[p := Unused]) {
      var i := SpaceOwner(slots, q);
      assert slots[p := Unused][i].User?;
    }
    forall q | q in SpacesOf(slots[p := Unused]) ensures q in SpacesOf(slots) && q != slots[p].pd {
      var i := SpaceOwner(slots[p := Unused], q);
    }
  }

  lemma ReapViews(sys: Sys, p: nat, sys': Sys)
    requires Ok(sys) && Agrees(sys, p) && p > 0 && sys' == ReapProcess(sys, p)
    ensures Views(sys'.ph.words, sys'.slots) == Views(sys.ph.words, sys.slots)[p := []]
    ensures SlotsOk(sys'.ph.words, sys'.slots)
    ensures SpacesOf(sys'.slots) == SpacesOf(sys.slots) - {sys.slots[p].pd}
  {
    assert p < |sys.slots| && sys.slots[p].User? && sys'.slots == sys.slots[p := Unused];
    hide ReapProcess, Ok, Lookup, Agrees, ViewOf, TableOk, SlotsOk;
    OkSlots(sys);
    OtherSpaces(sys, p);
    SpacesOfRemove(sys.slots, p);
    NoView(sys'.ph.words);
    forall i | 0 <= i < |sys.slots| && i != p
      ensures ViewOf(sys'.ph.words, sys.slots[i]) == ViewOf(sys.ph.words, sys.slots[i])
      ensures sys.slots[i].User? ==> TableOk(sys'.ph.words, sys.slots[i].pd, sys.slots[i].vas)
    {
      ReapOtherView(sys, p, sys', i);
    }
    SlotsWithout(sys.ph.words, sys'.ph.words, sys.slots, p);
  }

  lemma SlotsWithout(before: seq<Table>, words: seq<Table>, slots: seq<Slot>, p: nat)
    requires SlotsOk(before, slots) && 0 < p < |slots|
    requires forall i :: 0 <= i < |slots| && i != p && slots[i].User? ==> TableOk(words, slots[i].pd, slots[i].vas)
    ensures SlotsOk(words, slots[p := Unused])
  {
    hide TableOk;
  }

  lemma OtherSpaces(sys: Sys, p: nat)
    requires Ok(sys) && p < |sys.slots| && sys.slots[p].User?
    ensures forall i :: 0 <= i < |sys.slots| && i != p && sys.slots[i].User? ==> sys.slots[i].pd != sys.slots[p].pd
  {}

  lemma NoView(words: seq<Table>)
    ensures ViewOf(words, Unused) == []
  {}

  lemma OkSlots(sys: Sys)
    requires Ok(sys)
    ensures SlotsOk(sys.ph.words, sys.slots)
  {}

  lemma ReapOtherView(sys: Sys, p: nat, sys': Sys, i: nat)
    requires Ok(sys) && Agrees(sys, p) && p > 0 && sys' == ReapProcess(sys, p) && i < |sys.slots| && i != p
    ensures ViewOf(sys'.ph.words, sys.slots[i]) == ViewOf(sys.ph.words, sys.slots[i])
    ensures sys.slots[i].User? ==> TableOk(sys'.ph.words, sys.slots[i].pd, sys.slots[i].vas)
  {
    assert sys.slots[p].User?;
    hide ReapProcess, Spaces, SpaceFrames, Inv, Apart, Lookup, Agrees, ViewOf;
    ReapSpaces(sys, p);
    assert SlotShape(sys.slots[i]);
    if sys.slots[i].User? {
      assert TableOk(sys.ph.words, sys.slots[i].pd, sys.slots[i].vas);
      assert sys.slots[i].pd in SpacesOf(sys.slots) - {sys.slots[p].pd};
    }
    hide TableOk;
    ViewKept(sys.ph.words, sys'.ph.words, sys.slots[i]);
  }

  lemma ReapApart(sys: Sys, p: nat, sys': Sys)
    requires Ok(sys) && Agrees(sys, p) && p > 0 && sys' == ReapProcess(sys, p)
    ensures Apart(sys'.ph, sys'.slots)
  {
    assert p < |sys.slots| && sys.slots[p].User? && sys'.slots == sys.slots[p := Unused];
    hide SpaceFrames, ReapProcess, Ok, Agrees, Views, Total, Held, Spaces;
    var views, views' := Views(sys.ph.words, sys.slots), Views(sys'.ph.words, sys'.slots);
    ReapViews(sys, p, sys');
    ReapSpaces(sys, p);
    OkApart(sys);
    forall f: nat | Total(views, f) == 0 ensures Total(views', f) == 0 { NamedLess(views, p, f); }
    forall i | 0 <= i < |sys.slots| && i != p && sys.slots[i].User?
      ensures Held(sys'.ph.fr, sys.slots[i].kstack)
      ensures sys.slots[i].pd in SpacesOf(sys.slots) - {sys.slots[p].pd}
    {
      StackStays(sys, p, i);
    }
  }

  lemma OkApart(sys: Sys)
    requires Ok(sys)
    ensures Apart(sys.ph, sys.slots)
  {}

  lemma NamedLess(views: seq<seq<Mapping>>, p: nat, f: nat)
    requires p < |views| && Total(views, f) == 0
    ensures Total(views[p := []], f) == 0
  {
    TotalUpdate(views, p, [], f);
  }

  /** The kernel stack of another process is still held. */
  lemma StackStays(sys: Sys, p: nat, i: nat)
    requires Ok(sys) && p < |sys.slots| && sys.slots[p].User? && i < |sys.slots| && i != p && sys.slots[i].User?
    requires Agrees(sys, p)
    ensures Held(ReapProcess(sys, p).ph.fr, sys.slots[i].kstack)
    ensures sys.slots[i].pd in SpacesOf(sys.slots) - {sys.slots[p].pd}
  {
    var f := sys.slots[i].kstack;
    assert Held(sys.ph.fr, f) && Total(Views(sys.ph.words, sys.slots), f) == 0 && f != sys.slots[p].kstack;
    TotalCovers(Views(sys.ph.words, sys.slots), p, f);
    StackOutside(sys, i, sys.slots[p].pd);
    OtherSpaces(sys, p);
    hide Ok, SpaceFrames, ReapProcess, Spaces;
    ReapFrame(sys, p, f);
  }

  // ---------------------------------------------------------------- the list goes stale

  /** A fault that copies moves the page but not its entry in user_pages: from then on the list of that
      process no longer agrees with its page table. */
  lemma CopyBreaksAgreement(sys: Sys, p: nat, k: nat, e: Pte)
    requires Ok(sys) && Agrees(sys, p) && k < |sys.slots[p].vas|
    requires Lookup(sys.ph.words, sys.slots[p].pd, sys.slots[p].vas[k]) == Some(e) && e.flags.cow
    requires e.frame < MAX_PAGES && sys.ph.fr.refs[e.frame] > 1 && AllocRun(sys.ph.fr, 1).1 != 0
    ensures var (ph, ok) := ResolveCow(sys.ph, sys.slots[p].pd, sys.slots[p].vas[k]);
      ok && !Agrees(sys.(ph := ph), p)
  {
    var (ph, ok) := ResolveCow(sys.ph, sys.slots[p].pd, sys.slots[p].vas[k]);
    ResolveRepoints(sys, p, k, e);
    var e' := ResolvedPte(sys.ph.fr, e);
    ListedFrame(sys, p, k);
    AllocExact(sys.ph.fr, 1);
    UserFrame(sys, e.frame);
    assert e'.frame != e.frame;
    hide Ok, ResolveCow, AllocRun;
    RepointedViews(sys, ph, p, k, e');
    var m: seq<Mapping> := Views(sys.ph.words, sys.slots)[p];
    CountUpdate(m, k, m[k].(pte := e'), e.frame);
  }

  // ---------------------------------------------------------------- the kernel's own stores

  /** write_user_u32: resolves a copy-on-write page, but does not look at the writable bit. */
  function WriteUserByte(sys: Sys, p: nat, va: nat, b: byte): (Sys, bool)
    requires PhysOk(sys.ph) && p < |sys.slots| && sys.slots[p].User?
  {
    var pd := sys.slots[p].pd;
    match Lookup(sys.ph.words, pd, PageBase(va))
    case None => (sys, false)
    case Some(e) =>
      if e.flags.cow then
        var (ph, ok) := ResolveCow(sys.ph, pd, PageBase(va));
        if !ok then (sys, false)
        else (StoreByte(sys.(ph := ph), PteAt(ph.words, pd, PageBase(va)).frame, va % PAGE_SIZE, b), true)
      else (StoreByte(sys, e.frame, va % PAGE_SIZE, b), true)
  }

  /** On a page the process may write, the kernel's store is a user store. */
  lemma KernelStoreOnWritable(sys: Sys, p: nat, va: nat, b: byte)
    requires Ok(sys) && p < |sys.slots| && sys.slots[p].User? && PhysOk(sys.ph) && va < USER_LIMIT
    requires var l := Lookup(sys.ph.words, sys.slots[p].pd, va); l.Some? && MayWrite(l.value.flags)
    ensures var (sys', ok) := WriteUserByte(sys, p, va, b);
      Ok(sys') && (ok ==> Eager(VmOf(sys')) == EagerStore(Eager(VmOf(sys)), p, va, b)) && (!ok ==> sys' == sys)
  {
    var e := Lookup(sys.ph.words, sys.slots[p].pd, va).value;
    var k := ListedPage(sys, p, va);
    SameLookup(sys.ph.words, sys.slots[p].pd, va);
    hide Ok, Eager, VmOf, ResolveCow, Lookup;
    if e.flags.cow {
      StoreAfterFault(sys, p, k, va, b, e);
      var (ph, ok) := ResolveCow(sys.ph, sys.slots[p].pd, PageBase(va));
      SameLookup(ph.words, sys.slots[p].pd, va);
    } else {
      StoreThrough(sys, p, k, va, b, e);
    }
  }

  /** On any other page the store goes straight to the frame: what process j sees at its listed page l
      stays the same exactly when that page lies in another frame or the byte was there already. */
  lemma KernelStoreOnReadOnly(sys: Sys, p: nat, k: nat, va: nat, b: byte, j: nat, l: nat)
    requires Ok(sys) && p < |sys.slots| && sys.slots[p].User? && PhysOk(sys.ph) && k < |sys.slots[p].vas|
    requires sys.slots[p].vas[k] == PageBase(va) && j < |sys.slots| && sys.slots[j].User? && l < |sys.slots[j].vas|
    requires var e := Lookup(sys.ph.words, sys.slots[p].pd, PageBase(va)); e.Some? && !MayWrite(e.value.flags)
    ensures var before: seq<seq<EagerPage>> := Eager(VmOf(sys));
      var after: seq<seq<EagerPage>> := Eager(VmOf(WriteUserByte(sys, p, va, b).0));
      && j < |before| && j < |after| && p < |before|
      && |before[j]| == |after[j]| == |sys.slots[j].vas| && |before[p]| == |sys.slots[p].vas|
      && (after[j][l].data == before[j][l].data <==>
            VmOf(sys).views[j][l].pte.frame != VmOf(sys).views[p][k].pte.frame
            || before[p][k].data[va % PAGE_SIZE] == b)
  {
    hide Ok, Lookup, ResolveCow, Total, Shareable, SpaceFrames, Eager, Views, StoreByte;
    OkFrames(sys);
    EagerPages(sys, p);
    EagerPages(sys, j);
    ListedFrame(sys, p, k);
    ListedFrame(sys, j, l);
    var f := VmOf(sys).views[p][k].pte.frame;
    NamedIsUsed(sys, f);
    NamedIsUsed(sys, VmOf(sys).views[j][l].pte.frame);
    PageStored(sys, f, va % PAGE_SIZE, b, j, l);
    PageData(sys, p, k);
    PageData(sys, j, l);
    var page := sys.ph.bytes[f];
    assert page[va % PAGE_SIZE := b] == page <==> page[va % PAGE_SIZE] == b;
  }

  /** What a process sees on a page is what its frame holds. */
  lemma PageData(sys: Sys, j: nat, l: nat)
    requires |sys.ph.bytes| == MAX_PAGES && j < |sys.slots| && sys.slots[j].User? && l < |sys.slots[j].vas|
    requires j < |VmOf(sys).views| && l < |VmOf(sys).views[j]|
    ensures j < |Eager(VmOf(sys))| && l < |Eager(VmOf(sys))[j]|
    ensures var f := VmOf(sys).views[j][l].pte.frame; f < MAX_PAGES ==> Eager(VmOf(sys))[j][l].data == sys.ph.bytes[f]
  {
    hide Lookup;
  }

  /** What it sees after a byte of frame f has been stored. */
  lemma PageStored(sys: Sys, f: nat, off: nat, b: byte, j: nat, l: nat)
    requires |sys.ph.bytes| == MAX_PAGES && j < |sys.slots| && sys.slots[j].User? && l < |sys.slots[j].vas|
    requires f < MAX_PAGES && off < PAGE_SIZE && j < |VmOf(sys).views| && l < |VmOf(sys).views[j]|
    ensures var after := StoreByte(sys, f, off, b); var g := VmOf(sys).views[j][l].pte.frame;
      && |after.ph.bytes| == MAX_PAGES && j < |Eager(VmOf(after))| && |Eager(VmOf(after))[j]| == |sys.slots[j].vas|
      && (g < MAX_PAGES ==>
            Eager(VmOf(after))[j][l].data == if g == f then sys.ph.bytes[f][off := b] else sys.ph.bytes[g])
  {
    var after := StoreByte(sys, f, off, b);
    assert after.ph.bytes == sys.ph.bytes[f := sys.ph.bytes[f][off := b]] && VmOf(after).views == VmOf(sys).views;
    hide Views, StoreByte;
    EagerPages(after, j);
    PageData(after, j, l);
  }
}
