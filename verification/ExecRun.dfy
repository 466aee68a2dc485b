/** From a loaded image to a process (exec_run_file in src/exec.c, process_create_ex_vas and reap_process
    in src/process.c). */
module ExecRun {
  import opened Common
  import opened Memory
  import opened Paging
  import opened Cow
  import opened Fork
  import opened ForkProof
  import opened VmRun
  import X = Exec
  import L = Loader
  import D = Demand
  import S = Supervisor
  import E = Elf

  /** Memory in which a program lies beside the processes of sys, no frame shared with them. */
  ghost predicate Beside(sys: Sys, ph: Phys, r: X.Program) {
    var spaces := SpacesOf(sys.slots);
    && r.pd !in spaces && Spaces(ph, spaces + {r.pd}) && X.Unnoticed(sys.ph, ph, spaces)
    && X.SameFrames(sys.ph, ph, spaces)
    && X.PagesMapped(ph, r) && L.FramesOf(r.pages) !! SpaceFrames(ph.words, r.pd)
    && Lent(sys.ph.fr, ph.fr, L.FramesOf(r.pages) + SpaceFrames(ph.words, r.pd), multiset{})
  }

  lemma LoadedBeside(sys: Sys, m: E.Image, name: seq<byte>, ph: Phys, r: X.Program)
    requires X.LoadedOk(sys.ph, SpacesOf(sys.slots), m, name, ph, r)
    ensures Beside(sys, ph, r)
  {
    hide Spaces, X.Unnoticed, X.SameFrames, X.PagesMapped, Lent, SpaceFrames, E.Loadable, L.AllSane;
  }

  function Process(r: X.Program, ks: nat): Slot { User(r.pd, r.vas, r.pages, ks / PAGE_SIZE) }

  /** process_create_ex_vas: the first free slot and a kernel stack. */
  function CreateProcess(sys: Sys, ph: Phys, r: X.Program): (Sys, Option<nat>)
    requires PhysOk(ph)
  {
    match FreeSlot(sys.slots, 0)
    case None => (sys.(ph := ph), None)
    case Some(c) =>
      var (fr, ks) := AllocRun(ph.fr, 1);
      if ks == 0 then (sys.(ph := ph), None)
      else (Sys(ph.(fr := fr), sys.kernel, sys.slots[c := Process(r, ks)]), Some(c))
  }

  // ---------------------------------------------------------------- frames

  /** Where a frame stands: an old one as it was, a page or a table of the new program taken for it. */
  lemma FrameStands(sys: Sys, ph: Phys, r: X.Program, f: nat)
    requires Ok(sys) && Beside(sys, ph, r) && f < MAX_PAGES
    ensures Valid(ph.fr) && Shape(sys.ph.fr)
    ensures f in L.FramesOf(r.pages) || f in SpaceFrames(ph.words, r.pd) ==>
      !sys.ph.fr.used[f] && ph.fr.used[f] && ph.fr.refs[f] == 1
    ensures sys.ph.fr.used[f] ==> f !in L.FramesOf(r.pages) && f !in SpaceFrames(ph.words, r.pd)
    ensures sys.ph.fr.used[f] ==> ph.fr.used[f] && ph.fr.refs[f] == sys.ph.fr.refs[f] && ph.bytes[f] == sys.ph.bytes[f]
  {
    assert PhysOk(ph);
    hide Ok, Spaces, X.PagesMapped, SpaceFrames, L.FramesOf;
  }

  lemma StackIsUsed(sys: Sys, i: nat)
    requires Ok(sys) && i < |sys.slots| && sys.slots[i].User?
    ensures Held(sys.ph.fr, sys.slots[i].kstack) && Total(Views(sys.ph.words, sys.slots), sys.slots[i].kstack) == 0
    ensures sys.slots[i].pd in SpacesOf(sys.slots) && SlotShape(sys.slots[i])
  {}

  // ---------------------------------------------------------------- the new view

  lemma {:induction false} DistinctCount(view: seq<Mapping>, f: nat)
    requires forall k, l :: 0 <= k < l < |view| ==> view[k].pte.frame != view[l].pte.frame
    ensures Count(view, f) <= 1
  {
    if view != [] {
      var n := |view| - 1;
      DistinctCount(view[..n], f);
      if Count(view[..n], f) > 0 { CountedFrom(view[..n], f); }
    }
  }

  /** A process whose pages nobody else names, each counted once, joins; nobody else's frames change. */
  ghost predicate Joins(vm: Vm, vm': Vm, c: nat, view: seq<Mapping>) {
    && Inv(vm) && c < |vm.views| && vm.views[c] == [] && vm'.views == vm.views[c := view] && |view| <= MAX_USER_PAGES
    && |vm'.refs| == MAX_PAGES && |vm'.bytes| == MAX_PAGES
    && (forall k, l :: 0 <= k < l < |view| ==> view[k].pte.frame != view[l].pte.frame)
    && (forall k :: 0 <= k < |view| ==> Private(vm, vm', view[k].pte.frame))
    && (forall f: nat :: f < MAX_PAGES && Total(vm.views, f) > 0 ==>
          vm'.refs[f] == vm.refs[f] && vm'.bytes[f] == vm.bytes[f])
  }

  predicate Private(vm: Vm, vm': Vm, f: nat)
    requires |vm'.refs| == MAX_PAGES
  {
    RESERVED_PAGES <= f < MAX_PAGES && Total(vm.views, f) == 0 && vm'.refs[f] == 1
  }

  lemma JoinTotal(vm: Vm, vm': Vm, c: nat, view: seq<Mapping>, f: nat)
    requires Joins(vm, vm', c, view)
    ensures Total(vm'.views, f) == Total(vm.views, f) + Count(view, f) && Count(view, f) <= 1
    ensures Count(view, f) > 0 ==> Private(vm, vm', f)
    ensures Total(vm'.views, f) > 0 ==> RESERVED_PAGES <= f < MAX_PAGES && vm'.refs[f] == Total(vm'.views, f)
  {
    TotalUpdate(vm.views, c, view, f);
    DistinctCount(view, f);
    if Count(view, f) > 0 { CountedFrom(view, f); }
  }

  lemma JoinInv(vm: Vm, vm': Vm, c: nat, view: seq<Mapping>)
    requires Joins(vm, vm', c, view)
    ensures Inv(vm')
  {
    hide Total, Count;
    forall f: nat | Total(vm'.views, f) > 0
      ensures RESERVED_PAGES <= f < MAX_PAGES && vm'.refs[f] == Total(vm'.views, f)
    {
      JoinTotal(vm, vm', c, view, f);
    }
    forall i, k | 0 <= i < |vm'.views| && 0 <= k < |vm'.views[i]| && vm'.views[i][k].pte.flags.writable
      ensures Total(vm'.views, vm'.views[i][k].pte.frame) == 1
    {
      JoinTotal(vm, vm', c, view, vm'.views[i][k].pte.frame);
      Mapped(vm'.views, i, k);
      if i != c { Mapped(vm.views, i, k); }
    }
  }

  /** Everybody else sees what they saw. */
  lemma JoinSimulates(vm: Vm, vm': Vm, c: nat, view: seq<Mapping>)
    requires Joins(vm, vm', c, view)
    ensures Inv(vm') && Eager(vm') == Eager(vm)[c := EagerOf(view, vm'.bytes)]
  {
    JoinInv(vm, vm', c, view);
    hide Total, Count, Private;
    forall i | 0 <= i < |vm.views| && i != c
      ensures EagerOf(vm'.views[i], vm'.bytes) == EagerOf(vm.views[i], vm.bytes)
    {
      forall k | 0 <= k < |vm.views[i]|
        ensures EagerOf(vm'.views[i], vm'.bytes)[k] == EagerOf(vm.views[i], vm.bytes)[k]
      {
        Mapped(vm.views, i, k);
      }
    }
  }

  // ---------------------------------------------------------------- the new process keeps everything in order

  ghost predicate Spawning(sys: Sys, ph: Phys, r: X.Program, c: nat, fr: Frames, ks: nat) {
    && Ok(sys) && Beside(sys, ph, r) && PhysOk(ph) && 0 < c < |sys.slots| && sys.slots[c].Unused?
    && (fr, ks) == AllocRun(ph.fr, 1) && ks != 0
  }

  function Spawned(sys: Sys, ph: Phys, r: X.Program, c: nat, fr: Frames, ks: nat): Sys
    requires c < |sys.slots|
  {
    Sys(ph.(fr := fr), sys.kernel, sys.slots[c := Process(r, ks)])
  }

  lemma SpawningParts(sys: Sys, ph: Phys, r: X.Program, c: nat, fr: Frames, ks: nat)
    requires Spawning(sys, ph, r, c, fr, ks)
    ensures PhysOk(ph) && |ph.words| == |ph.bytes| == |sys.ph.bytes| == MAX_PAGES
    ensures Valid(sys.ph.fr) && Valid(ph.fr) && Shape(ph.fr) && Inv(VmOf(sys))
    ensures |r.vas| == |r.pages| <= MAX_USER_PAGES && L.Distinct(r.pages)
    ensures L.FramesOf(r.pages) !! SpaceFrames(ph.words, r.pd)
    ensures Lent(sys.ph.fr, ph.fr, L.FramesOf(r.pages) + SpaceFrames(ph.words, r.pd), multiset{})
    ensures Spaces(ph, SpacesOf(sys.slots) + {r.pd})
  {
    hide Inv, Lent, L.FramesOf, SpaceFrames, Blocks, Tables, Valid, SlotsOk, Apart, Views;
    assert Valid(ph.fr);
    ValidShape(ph.fr);
  }

  /** The kernel stack is a frame nobody had. */
  lemma NewStack(sys: Sys, ph: Phys, r: X.Program, c: nat, fr: Frames, ks: nat)
    requires Spawning(sys, ph, r, c, fr, ks)
    ensures var t := ks / PAGE_SIZE;
      && t < MAX_PAGES && Held(fr, t) && Valid(fr) && !ph.fr.used[t] && |fr.refs| == MAX_PAGES
      && (forall f :: 0 <= f < MAX_PAGES && f != t ==> fr.used[f] == ph.fr.used[f] && fr.refs[f] == ph.fr.refs[f])
  {
    hide Ok, Beside, Valid, PhysOk;
    SpawningParts(sys, ph, r, c, fr, ks);
    AllocValid(ph.fr, 1);
    AllocHeld(ph.fr, 1);
    NothingLent(ph.fr);
    AllocOneLends(ph.fr, ph.fr, {}, multiset{});
    ValidShape(fr);
    hide AllocRun;
  }

  lemma SpawnFrame(sys: Sys, ph: Phys, r: X.Program, k: nat)
    requires Ok(sys) && Beside(sys, ph, r) && k < |r.pages|
    ensures 0 < r.pages[k] < MAX_PAGES && r.pages[k] in L.FramesOf(r.pages) && RESERVED_PAGES <= r.pages[k]
    ensures Total(Views(sys.ph.words, sys.slots), r.pages[k]) == 0
  {
    assert X.PagesMapped(ph, r);
    assert Lent(sys.ph.fr, ph.fr, L.FramesOf(r.pages) + SpaceFrames(ph.words, r.pd), multiset{});
    assert r.pages[k] in L.FramesOf(r.pages);
    FrameStands(sys, ph, r, r.pages[k]);
    UnusedIsUnnamed(sys, r.pages[k]);
  }

  lemma SpawnView(sys: Sys, ph: Phys, r: X.Program, ks: nat, k: nat)
    requires Beside(sys, ph, r) && k < |r.vas|
    ensures |r.pages| == |r.vas|
    ensures var v := ViewOf(ph.words, Process(r, ks));
      && k < |v| && v[k].va == r.vas[k] && v[k].pte.frame == r.pages[k] && !v[k].pte.flags.cow
  {
    hide Spaces, Lent, SpaceFrames, L.FramesOf;
    assert X.PageAt(ph, r, k);
  }

  lemma OtherViews(sys: Sys, ph: Phys, r: X.Program, c: nat, fr: Frames, ks: nat)
    requires Spawning(sys, ph, r, c, fr, ks)
    ensures var sys' := Spawned(sys, ph, r, c, fr, ks);
      Views(ph.words, sys'.slots) == Views(sys.ph.words, sys.slots)[c := ViewOf(ph.words, Process(r, ks))]
    ensures forall i :: 0 <= i < |sys.slots| && sys.slots[i].User? ==>
      TableOk(ph.words, sys.slots[i].pd, sys.slots[i].vas)
  {
    hide Ok, Beside, ViewOf, TableOk, AllocRun;
    forall i | 0 <= i < |sys.slots| && i != c
      ensures ViewOf(ph.words, sys.slots[i]) == ViewOf(sys.ph.words, sys.slots[i])
      ensures sys.slots[i].User? ==> TableOk(ph.words, sys.slots[i].pd, sys.slots[i].vas)
    {
      OtherView(sys, ph, r, i);
    }
  }

  lemma OtherView(sys: Sys, ph: Phys, r: X.Program, i: nat)
    requires Ok(sys) && Beside(sys, ph, r) && i < |sys.slots|
    ensures ViewOf(ph.words, sys.slots[i]) == ViewOf(sys.ph.words, sys.slots[i])
    ensures sys.slots[i].User? ==> TableOk(ph.words, sys.slots[i].pd, sys.slots[i].vas)
  {
    assert SlotShape(sys.slots[i]) && X.SameLookups(sys.ph, ph, SpacesOf(sys.slots));
    if sys.slots[i].User? {
      assert TableOk(sys.ph.words, sys.slots[i].pd, sys.slots[i].vas);
      assert sys.slots[i].pd in SpacesOf(sys.slots);
    }
    hide Ok, Beside, TableOk, Lookup, ViewOf;
    ViewKept(sys.ph.words, ph.words, sys.slots[i]);
  }

  lemma SpawnViewSize(ph: Phys, r: X.Program, ks: nat)
    ensures |ViewOf(ph.words, Process(r, ks))| == |r.vas|
  {}

  lemma SpawnPrivate(sys: Sys, ph: Phys, r: X.Program, c: nat, fr: Frames, ks: nat, k: nat)
    requires Spawning(sys, ph, r, c, fr, ks) && k < |r.pages|
    ensures r.pages[k] != 0 && Private(VmOf(sys), VmOf(Spawned(sys, ph, r, c, fr, ks)), r.pages[k])
  {
    hide Ok, Beside, AllocRun, ViewOf, Total, Views, Valid, L.FramesOf, Held;
    NewStack(sys, ph, r, c, fr, ks);
    SpawnFrame(sys, ph, r, k);
    FrameStands(sys, ph, r, r.pages[k]);
  }

  /** Each page of the new process is its own, distinct from the others. */
  lemma SpawnPages(sys: Sys, ph: Phys, r: X.Program, c: nat, fr: Frames, ks: nat)
    requires Spawning(sys, ph, r, c, fr, ks)
    ensures |fr.refs| == MAX_PAGES
    ensures var view := ViewOf(ph.words, Process(r, ks)); var vm' := VmOf(Spawned(sys, ph, r, c, fr, ks));
      && |view| <= MAX_USER_PAGES && |view| == |r.pages|
      && (forall k, l :: 0 <= k < l < |view| ==> view[k].pte.frame != view[l].pte.frame)
      && (forall k :: 0 <= k < |view| ==> Private(VmOf(sys), vm', view[k].pte.frame))
  {
    hide Ok, Beside, AllocRun, ViewOf, Total, Views, Valid, Private, L.FramesOf, Held;
    var view := ViewOf(ph.words, Process(r, ks));
    SpawningParts(sys, ph, r, c, fr, ks);
    NewStack(sys, ph, r, c, fr, ks);
    SpawnViewSize(ph, r, ks);
    forall k | 0 <= k < |view|
      ensures view[k].pte.frame == r.pages[k] && r.pages[k] != 0
      ensures Private(VmOf(sys), VmOf(Spawned(sys, ph, r, c, fr, ks)), r.pages[k])
    {
      SpawnView(sys, ph, r, ks, k);
      SpawnPrivate(sys, ph, r, c, fr, ks, k);
    }
  }

  lemma NamedStands(sys: Sys, ph: Phys, r: X.Program, c: nat, fr: Frames, ks: nat, f: nat)
    requires Spawning(sys, ph, r, c, fr, ks) && f < MAX_PAGES && Total(VmOf(sys).views, f) > 0
    ensures |sys.ph.fr.refs| == |fr.refs| == MAX_PAGES && |ph.bytes| == |sys.ph.bytes| == MAX_PAGES
    ensures fr.refs[f] == sys.ph.fr.refs[f] && ph.bytes[f] == sys.ph.bytes[f]
  {
    hide Ok, Beside, AllocRun, Inv, Total, Views, Valid, PhysOk, Held;
    SpawningParts(sys, ph, r, c, fr, ks);
    NewStack(sys, ph, r, c, fr, ks);
    NamedIsUsed(sys, f);
    FrameStands(sys, ph, r, f);
  }

  lemma InvRefs(vm: Vm)
    requires Inv(vm)
    ensures |vm.refs| == MAX_PAGES && |vm.views| <= MAX_PROCESSES
  {}

  lemma SpawnJoins(sys: Sys, ph: Phys, r: X.Program, c: nat, fr: Frames, ks: nat)
    requires Spawning(sys, ph, r, c, fr, ks)
    ensures |sys.ph.bytes| == MAX_PAGES && |ph.bytes| == MAX_PAGES
    ensures Joins(VmOf(sys), VmOf(Spawned(sys, ph, r, c, fr, ks)), c, ViewOf(ph.words, Process(r, ks)))
  {
    hide Ok, Beside, AllocRun, ViewOf, Inv, Total, Views, Valid, Private, PhysOk, Held;
    var vm, vm' := VmOf(sys), VmOf(Spawned(sys, ph, r, c, fr, ks));
    SpawningParts(sys, ph, r, c, fr, ks);
    OtherViews(sys, ph, r, c, fr, ks);
    SpawnPages(sys, ph, r, c, fr, ks);
    EmptyView(sys, c);
    forall f: nat | f < MAX_PAGES && Total(vm.views, f) > 0
      ensures |vm.refs| == |vm'.refs| == MAX_PAGES && vm'.refs[f] == vm.refs[f] && vm'.bytes[f] == vm.bytes[f]
    {
      NamedStands(sys, ph, r, c, fr, ks, f);
    }
    InvRefs(vm);
  }

  lemma EmptyView(sys: Sys, c: nat)
    requires c < |sys.slots| && sys.slots[c].Unused?
    ensures VmOf(sys).views[c] == []
  {}

  lemma StaysHeld(sys: Sys, ph: Phys, r: X.Program, c: nat, fr: Frames, ks: nat, f: nat)
    requires Spawning(sys, ph, r, c, fr, ks) && Held(ph.fr, f)
    ensures Held(fr, f)
  {
    hide Ok, Beside, AllocRun, Valid;
    NewStack(sys, ph, r, c, fr, ks);
  }

  lemma SpawnSpaces(sys: Sys, ph: Phys, r: X.Program, c: nat, fr: Frames, ks: nat)
    requires Spawning(sys, ph, r, c, fr, ks)
    ensures SpacesOf(sys.slots[c := Process(r, ks)]) == SpacesOf(sys.slots) + {r.pd}
    ensures Spaces(ph.(fr := fr), SpacesOf(sys.slots) + {r.pd})
  {
    hide Ok, Beside, AllocRun, Spaces, SpaceFrames, Valid, Held, Inv;
    var spaces := SpacesOf(sys.slots) + {r.pd};
    SpawningParts(sys, ph, r, c, fr, ks);
    NewStack(sys, ph, r, c, fr, ks);
    SpacesOfAdd(sys.slots, c, Process(r, ks));
    forall q, f | q in spaces && f in SpaceFrames(ph.words, q) ensures Held(fr, f) {
      SpaceFramesHeld(ph, spaces, q, f);
      StaysHeld(sys, ph, r, c, fr, ks, f);
    }
    HeldStays(ph, ph.(fr := fr), spaces);
  }

  lemma SpawnSlots(sys: Sys, ph: Phys, r: X.Program, c: nat, fr: Frames, ks: nat)
    requires Spawning(sys, ph, r, c, fr, ks)
    ensures SlotsOk(ph.words, sys.slots[c := Process(r, ks)])
  {
    var slots' := sys.slots[c := Process(r, ks)];
    assert SlotsOk(sys.ph.words, sys.slots) && X.PagesMapped(ph, r) && r.pd !in SpacesOf(sys.slots);
    OtherViews(sys, ph, r, c, fr, ks);
    NewStack(sys, ph, r, c, fr, ks);
    NewTable(sys, ph, r);
    hide Ok, Beside, AllocRun, TableOk, ViewOf, Views, Valid, Lookup, ListOk;
    forall i | 0 <= i < |sys.slots| && sys.slots[i].User?
      ensures sys.slots[i].pd != r.pd && sys.slots[i].kstack != ks / PAGE_SIZE
    {
      OldStack(sys, ph, r, c, fr, ks, i);
      StackIsUsed(sys, i);
    }
    hide *;
    SlotsWith(sys, ph.words, c, Process(r, ks));
  }

  lemma SlotsWith(sys: Sys, words: seq<Table>, c: nat, slot: Slot)
    requires SlotsOk(sys.ph.words, sys.slots) && 0 < c < |sys.slots| && SlotShape(slot) && slot.User?
    requires TableOk(words, slot.pd, slot.vas)
    requires forall i :: 0 <= i < |sys.slots| && sys.slots[i].User? ==>
      && TableOk(words, sys.slots[i].pd, sys.slots[i].vas)
      && sys.slots[i].pd != slot.pd && sys.slots[i].kstack != slot.kstack
    ensures SlotsOk(words, sys.slots[c := slot])
  {
    hide TableOk, ListOk;
  }

  lemma NewTable(sys: Sys, ph: Phys, r: X.Program)
    requires Beside(sys, ph, r)
    ensures ListOk(r.vas) && TableOk(ph.words, r.pd, r.vas) && |r.pages| == |r.vas|
  {
    hide *;
    PagesBeside(sys, ph, r);
    PagesList(ph, r);
    PagesTable(ph, r);
  }

  lemma PagesList(ph: Phys, r: X.Program)
    requires X.PagesMapped(ph, r)
    ensures ListOk(r.vas) && |r.pages| == |r.vas|
  {
    hide Lookup, X.PageAt, L.Distinct;
    forall k | 0 <= k < |r.vas| ensures UserVa(r.vas[k]) {}
  }

  lemma PagesTable(ph: Phys, r: X.Program)
    requires X.PagesMapped(ph, r)
    ensures TableOk(ph.words, r.pd, r.vas)
  {
    hide Lookup, X.PageAt, L.Distinct;
    forall k | 0 <= k < |r.vas| ensures Lookup(ph.words, r.pd, r.vas[k]).Some? { MappedPage(ph, r, k); }
    forall va: nat | va < USER_LIMIT && Lookup(ph.words, r.pd, va).Some? ensures OnPage(r.vas, |r.vas|, va) {}
  }

  lemma PagesBeside(sys: Sys, ph: Phys, r: X.Program)
    requires Beside(sys, ph, r)
    ensures X.PagesMapped(ph, r)
  {
    hide X.PagesMapped, Spaces, Lent, SpaceFrames, L.FramesOf;
  }

  lemma MappedPage(ph: Phys, r: X.Program, k: nat)
    requires k < |r.vas| == |r.pages| && X.PageAt(ph, r, k)
    ensures Lookup(ph.words, r.pd, r.vas[k]).Some?
  {
    hide Lookup;
  }

  /** A frame neither the old processes nor the new one names. */
  lemma StillUnnamed(sys: Sys, ph: Phys, r: X.Program, c: nat, fr: Frames, ks: nat, f: nat)
    requires Spawning(sys, ph, r, c, fr, ks) && Total(Views(sys.ph.words, sys.slots), f) == 0
    requires f !in L.FramesOf(r.pages)
    ensures Total(Views(ph.words, sys.slots[c := Process(r, ks)]), f) == 0
  {
    var view := ViewOf(ph.words, Process(r, ks));
    assert |view| == |r.vas| == |r.pages|;
    SpawnJoins(sys, ph, r, c, fr, ks);
    JoinTotal(VmOf(sys), VmOf(Spawned(sys, ph, r, c, fr, ks)), c, view, f);
    hide Ok, AllocRun, Joins, Total, SpaceFrames, Valid, ViewOf, Spaces, Lent;
    if Count(view, f) > 0 {
      CountedFrom(view, f);
      var k :| 0 <= k < |view| && view[k].pte.frame == f;
      SpawnView(sys, ph, r, ks, k);
      SpawnFrame(sys, ph, r, k);
    }
  }

  lemma NewStackUnnamed(sys: Sys, ph: Phys, r: X.Program, c: nat, fr: Frames, ks: nat)
    requires Spawning(sys, ph, r, c, fr, ks)
    ensures var t := ks / PAGE_SIZE;
      && t !in L.FramesOf(r.pages) && Total(Views(sys.ph.words, sys.slots), t) == 0
      && forall q :: q in SpacesOf(sys.slots) + {r.pd} ==> t !in SpaceFrames(ph.words, q)
  {
    var t, spaces := ks / PAGE_SIZE, SpacesOf(sys.slots) + {r.pd};
    NewStack(sys, ph, r, c, fr, ks);
    FrameStands(sys, ph, r, t);
    assert Spaces(ph, spaces);
    hide Ok, Beside, AllocRun, Views, SpaceFrames, Valid, Spaces, Total;
    UnusedIsUnnamed(sys, t);
    forall q | q in spaces ensures t !in SpaceFrames(ph.words, q) {
      if t in SpaceFrames(ph.words, q) { SpaceFramesHeld(ph, spaces, q, t); }
    }
  }

  /** Tables and stacks of the old processes stand as they stood. */
  lemma OldFrames(sys: Sys, ph: Phys, r: X.Program, i: nat)
    requires Ok(sys) && Beside(sys, ph, r) && i < |sys.slots| && sys.slots[i].User?
    ensures SpaceFrames(ph.words, sys.slots[i].pd) == SpaceFrames(sys.ph.words, sys.slots[i].pd)
    ensures forall j :: 0 <= j < |sys.slots| && sys.slots[j].User? ==>
      sys.slots[i].kstack !in SpaceFrames(sys.ph.words, sys.slots[j].pd)
    ensures forall f :: f in SpaceFrames(sys.ph.words, sys.slots[i].pd) ==>
      Held(sys.ph.fr, f) && Total(Views(sys.ph.words, sys.slots), f) == 0
  {
    assert Spaces(sys.ph, SpacesOf(sys.slots)) && sys.slots[i].pd in SpacesOf(sys.slots);
    hide SpaceFrames, Spaces, X.Unnoticed, X.PagesMapped, SlotsOk, Inv, Lent;
    forall f | f in SpaceFrames(sys.ph.words, sys.slots[i].pd) ensures Held(sys.ph.fr, f) {
      SpaceFramesHeld(sys.ph, SpacesOf(sys.slots), sys.slots[i].pd, f);
    }
  }

  lemma OldStack(sys: Sys, ph: Phys, r: X.Program, c: nat, fr: Frames, ks: nat, i: nat)
    requires Spawning(sys, ph, r, c, fr, ks) && i < |sys.slots| && sys.slots[i].User?
    ensures var f := sys.slots[i].kstack;
      && Held(fr, f) && f != ks / PAGE_SIZE && f !in L.FramesOf(r.pages) && f !in SpaceFrames(ph.words, r.pd)
  {
    StackIsUsed(sys, i);
    NewStack(sys, ph, r, c, fr, ks);
    FrameStands(sys, ph, r, sys.slots[i].kstack);
    hide Ok, Beside, AllocRun, Valid, SpaceFrames, L.FramesOf;
  }

  lemma StackApart(sys: Sys, ph: Phys, r: X.Program, c: nat, fr: Frames, ks: nat, i: nat)
    requires Spawning(sys, ph, r, c, fr, ks) && i < |sys.slots| && sys.slots[c := Process(r, ks)][i].User?
    ensures var slots' := sys.slots[c := Process(r, ks)]; var f := slots'[i].kstack;
      && Held(fr, f) && Total(Views(ph.words, slots'), f) == 0
      && forall j :: 0 <= j < |slots'| && slots'[j].User? ==> f !in SpaceFrames(ph.words, slots'[j].pd)
  {
    var slots' := sys.slots[c := Process(r, ks)];
    NewStack(sys, ph, r, c, fr, ks);
    NewStackUnnamed(sys, ph, r, c, fr, ks);
    hide Ok, Beside, AllocRun, Views, SpaceFrames, Valid, Total, L.FramesOf;
    if i != c {
      OldStack(sys, ph, r, c, fr, ks, i);
      StackIsUsed(sys, i);
    }
    StillUnnamed(sys, ph, r, c, fr, ks, slots'[i].kstack);
    forall j | 0 <= j < |slots'| && slots'[j].User? ensures slots'[i].kstack !in SpaceFrames(ph.words, slots'[j].pd) {
      if j != c {
        OldFrames(sys, ph, r, j);
        StackIsUsed(sys, j);
        if i != c { OldFrames(sys, ph, r, i); }
      }
    }
  }

  lemma TablesUnnamed(sys: Sys, ph: Phys, r: X.Program, c: nat, fr: Frames, ks: nat, i: nat, f: nat)
    requires Spawning(sys, ph, r, c, fr, ks) && i < |sys.slots|
    requires var s := sys.slots[c := Process(r, ks)][i]; s.User? && f in SpaceFrames(ph.words, s.pd)
    ensures Total(Views(ph.words, sys.slots[c := Process(r, ks)]), f) == 0
  {
    var spaces := SpacesOf(sys.slots) + {r.pd};
    assert Spaces(ph, spaces) && L.FramesOf(r.pages) !! SpaceFrames(ph.words, r.pd);
    hide Ok, Beside, AllocRun, Views, SpaceFrames, Valid, Total, L.FramesOf, Spaces;
    if i != c { OldFrames(sys, ph, r, i); } else { SpaceFramesHeld(ph, spaces, r.pd, f); }
    FrameStands(sys, ph, r, f);
    if i == c { UnusedIsUnnamed(sys, f); }
    StillUnnamed(sys, ph, r, c, fr, ks, f);
  }

  lemma ShortTable(sys: Sys, ph: Phys, r: X.Program, c: nat, fr: Frames, ks: nat)
    requires Spawning(sys, ph, r, c, fr, ks)
    ensures c < |sys.slots|
  {
    hide Ok, Beside, AllocRun;
  }

  lemma SpawnApart(sys: Sys, ph: Phys, r: X.Program, c: nat, fr: Frames, ks: nat)
    requires Spawning(sys, ph, r, c, fr, ks)
    ensures Apart(ph.(fr := fr), sys.slots[c := Process(r, ks)])
  {
    hide Ok, Beside, AllocRun, Joins, Views, Total, SpaceFrames, Valid, Spawning, Held, Spaces;
    ShortTable(sys, ph, r, c, fr, ks);
    var slots' := sys.slots[c := Process(r, ks)];
    var views, views' := Views(sys.ph.words, sys.slots), Views(ph.words, slots');
    forall i | 0 <= i < |slots'| && slots'[i].User?
      ensures Held(fr, slots'[i].kstack) && Total(views', slots'[i].kstack) == 0
      ensures forall j :: 0 <= j < |slots'| && slots'[j].User? ==>
        slots'[i].kstack !in SpaceFrames(ph.words, slots'[j].pd)
    {
      StackApart(sys, ph, r, c, fr, ks, i);
    }
    forall i, f | 0 <= i < |slots'| && slots'[i].User? && f in SpaceFrames(ph.words, slots'[i].pd)
      ensures Total(views', f) == 0
    {
      TablesUnnamed(sys, ph, r, c, fr, ks, i, f);
    }
  }

  /** Creating the process keeps every invariant; every other process sees what it saw. */
  lemma SpawnOk(sys: Sys, ph: Phys, r: X.Program, c: nat, fr: Frames, ks: nat)
    requires Spawning(sys, ph, r, c, fr, ks)
    ensures var sys' := Spawned(sys, ph, r, c, fr, ks);
      && Ok(sys') && |sys.ph.bytes| == MAX_PAGES
      && |Eager(VmOf(sys))| == |sys.slots|
      && Eager(VmOf(sys')) == Eager(VmOf(sys))[c := EagerOf(ViewOf(ph.words, Process(r, ks)), ph.bytes)]
  {
    assert |sys.kernel| == 4 && |Eager(VmOf(sys))| == |sys.slots|;
    SpawnSpaces(sys, ph, r, c, fr, ks);
    SpawnSlots(sys, ph, r, c, fr, ks);
    SpawnApart(sys, ph, r, c, fr, ks);
    SpawnJoins(sys, ph, r, c, fr, ks);
    hide Spawning, Spaces, SlotsOk, Apart, Inv, Joins, ViewOf, Eager, EagerOf;
    JoinSimulates(VmOf(sys), VmOf(Spawned(sys, ph, r, c, fr, ks)), c, ViewOf(ph.words, Process(r, ks)));
  }

  // ---------------------------------------------------------------- teardown

  /** user_pages of a new process names each frame as often as its page table. */
  lemma {:induction false} SameCounts(view: seq<Mapping>, pages: seq<nat>, n: nat, f: nat)
    requires n <= |pages| == |view| && forall k :: 0 <= k < |pages| ==> view[k].pte.frame == pages[k]
    ensures CountIn(pages, n, f) == Count(view[..n], f)
  {
    if n > 0 {
      SameCounts(view, pages, n - 1, f);
      assert view[..n][..n - 1] == view[..n - 1];
    }
  }

  lemma SpawnAgrees(sys: Sys, ph: Phys, r: X.Program, c: nat, fr: Frames, ks: nat)
    requires Spawning(sys, ph, r, c, fr, ks)
    ensures Agrees(Spawned(sys, ph, r, c, fr, ks), c)
  {
    var view := ViewOf(ph.words, Process(r, ks));
    assert |view| == |r.vas| == |r.pages|;
    assert Views(ph.words, sys.slots[c := Process(r, ks)])[c] == view;
    hide Ok, AllocRun, ViewOf, Views, Spaces, Lent;
    forall k | 0 <= k < |view| ensures view[k].pte.frame == r.pages[k] { SpawnView(sys, ph, r, ks, k); }
    assert view[..|view|] == view;
    forall f: nat ensures CountIn(r.pages, |r.pages|, f) == Count(view, f) { SameCounts(view, r.pages, |r.pages|, f); }
  }

  lemma {:induction false} PagesReturn(fr0: Frames, fr: Frames, pages: seq<nat>, n: nat, rest: set<nat>)
    requires Valid(fr0) && Valid(fr) && Shape(fr) && L.Distinct(pages) && n <= |pages| && L.FramesOf(pages) !! rest
    requires Lent(fr0, fr, L.FramesOf(pages) + rest, multiset{})
    ensures Valid(FreePages(fr, pages, n))
    ensures Lent(fr0, FreePages(fr, pages, n), L.FramesOf(pages[n..]) + rest, multiset{})
  {
    hide Valid, Lent, FreePage, L.FramesOf, L.Distinct, Shape;
    if n == 0 {
      assert pages[0..] == pages;
    } else {
      PagesReturn(fr0, fr, pages, n - 1, rest);
      PageReturns(fr0, FreePages(fr, pages, n - 1), pages, n - 1, rest);
    }
  }

  lemma PageReturns(fr0: Frames, fr: Frames, pages: seq<nat>, n: nat, rest: set<nat>)
    requires Valid(fr0) && Valid(fr) && L.Distinct(pages) && n < |pages| && L.FramesOf(pages) !! rest
    requires Lent(fr0, fr, L.FramesOf(pages[n..]) + rest, multiset{})
    ensures Shape(fr)
    ensures var fr' := if pages[n] != 0 then FreePage(fr, pages[n] * PAGE_SIZE) else fr;
      Valid(fr') && Lent(fr0, fr', L.FramesOf(pages[n + 1..]) + rest, multiset{})
  {
    hide Valid, Lent, FreePage, L.FramesOf, L.Distinct;
    X.ShapeOf(fr);
    X.FramesTail(pages, n);
    TailFrames(pages, n);
    var a, b := L.FramesOf(pages[n..]), L.FramesOf(pages[n + 1..]);
    if pages[n] != 0 {
      assert b + rest == a + rest - {pages[n]};
      GiveBack(fr0, fr, a + rest, b + rest, multiset{}, pages[n]);
    }
  }

  lemma TailFrames(pages: seq<nat>, n: nat)
    requires n <= |pages|
    ensures L.FramesOf(pages[n..]) <= L.FramesOf(pages)
  {
    forall f | f in L.FramesOf(pages[n..]) ensures f in L.FramesOf(pages) {
      var k :| 0 <= k < |pages[n..]| && pages[n..][k] == f;
      assert pages[n + k] == f;
    }
  }

  ghost predicate Took(fr0: Frames, fr: Frames, pages: set<nat>, tables: set<nat>, stack: nat) {
    pages !! tables + {stack} && stack !in tables && Lent(fr0, fr, pages + (tables + {stack}), multiset{})
  }

  /** Everything a new process took: pages, tables, kernel stack. */
  lemma SpawnLent(sys: Sys, ph: Phys, r: X.Program, c: nat, fr: Frames, ks: nat)
    requires Spawning(sys, ph, r, c, fr, ks)
    ensures Took(sys.ph.fr, fr, L.FramesOf(r.pages), SpaceFrames(ph.words, r.pd), ks / PAGE_SIZE)
  {
    hide Ok, Beside, Lent, Views, SpaceFrames, Valid, Total, L.FramesOf;
    var F, T := L.FramesOf(r.pages), SpaceFrames(ph.words, r.pd);
    SpawningParts(sys, ph, r, c, fr, ks);
    NewStackUnnamed(sys, ph, r, c, fr, ks);
    AllocOneLends(sys.ph.fr, ph.fr, F + T, multiset{});
    assert F + T + {ks / PAGE_SIZE} == F + (T + {ks / PAGE_SIZE});
  }

  /** After the pages are freed, tables and stack are still out. */
  lemma PagesGone(sys: Sys, ph: Phys, r: X.Program, c: nat, fr: Frames, ks: nat)
    requires Spawning(sys, ph, r, c, fr, ks)
    ensures Shape(fr)
    ensures var fr1 := FreePages(fr, r.pages, |r.pages|);
      && Lent(sys.ph.fr, fr1, SpaceFrames(ph.words, r.pd) + {ks / PAGE_SIZE}, multiset{})
      && Spaces(ph.(fr := fr1), SpacesOf(sys.slots) + {r.pd})
  {
    hide Ok, Beside, AllocRun, Lent, Spaces, SpaceFrames, Valid, L.FramesOf, FreePages, L.Distinct, Inv, Spawning;
    var rest := SpaceFrames(ph.words, r.pd) + {ks / PAGE_SIZE};
    SpawningParts(sys, ph, r, c, fr, ks);
    NewStack(sys, ph, r, c, fr, ks);
    ValidShape(fr);
    SpawnLent(sys, ph, r, c, fr, ks);
    PagesReturn(sys.ph.fr, fr, r.pages, |r.pages|, rest);
    assert r.pages[|r.pages|..] == [];
    NoFrames();
    assert {} + rest == rest;
    StillSpaces(sys, ph, r, c, fr, ks, FreePages(fr, r.pages, |r.pages|));
  }

  lemma NoFrames()
    ensures L.FramesOf([]) == {}
  {}

  lemma SpawnStart(sys: Sys, ph: Phys, r: X.Program, c: nat, fr: Frames, ks: nat)
    requires Spawning(sys, ph, r, c, fr, ks)
    ensures Valid(sys.ph.fr) && c < |sys.slots|
  {}

  lemma ReapIs(ph: Phys, sys: Sys, r: X.Program, c: nat, ks: nat)
    requires Shape(ph.fr) && c < |sys.slots|
    ensures ReapProcess(Sys(ph, sys.kernel, sys.slots[c := Process(r, ks)]), c).ph.fr
      == FreePage(DestroySpace(ph.(fr := FreePages(ph.fr, r.pages, |r.pages|)), r.pd).fr, ks / PAGE_SIZE * PAGE_SIZE)
  {
    hide FreePages, DestroySpace, FreePage;
  }

  /** Load, create, exit, reap: every frame and count is back. */
  lemma SpawnReap(sys: Sys, ph: Phys, r: X.Program, c: nat, fr: Frames, ks: nat)
    requires Spawning(sys, ph, r, c, fr, ks)
    ensures Shape(fr) && ReapProcess(Spawned(sys, ph, r, c, fr, ks), c).ph.fr == sys.ph.fr
  {
    hide Spawning, Lent, Spaces, SpaceFrames, L.FramesOf, FreePages, DestroySpace, Valid, PhysOk, FreePage, ReapProcess;
    var t, T, spaces := ks / PAGE_SIZE, SpaceFrames(ph.words, r.pd), SpacesOf(sys.slots) + {r.pd};
    SpawnStart(sys, ph, r, c, fr, ks);
    PagesGone(sys, ph, r, c, fr, ks);
    SpawnLent(sys, ph, r, c, fr, ks);
    ReapIs(ph.(fr := fr), sys, r, c, ks);
    var ph1 := ph.(fr := FreePages(fr, r.pages, |r.pages|));
    DestroyReturns(sys.ph.fr, ph1, spaces, r.pd, T + {t}, multiset{});
    assert T + {t} - T == {t};
    var ph2 := DestroySpace(ph1, r.pd);
    PhysValid(ph2);
    GiveBack(sys.ph.fr, ph2.fr, {t}, {}, multiset{}, t);
    AllReturned(sys.ph.fr, FreePage(ph2.fr, t * PAGE_SIZE));
  }

  lemma PhysValid(ph: Phys)
    requires PhysOk(ph)
    ensures Valid(ph.fr)
  {}

  /** Freeing the new process's pages leaves every table frame held. */
  lemma StillSpaces(sys: Sys, ph: Phys, r: X.Program, c: nat, fr: Frames, ks: nat, fr1: Frames)
    requires Spawning(sys, ph, r, c, fr, ks) && Valid(fr1) && PhysOk(ph.(fr := fr1))
    requires Lent(sys.ph.fr, fr1, SpaceFrames(ph.words, r.pd) + {ks / PAGE_SIZE}, multiset{})
    ensures Spaces(ph.(fr := fr1), SpacesOf(sys.slots) + {r.pd})
  {
    var spaces := SpacesOf(sys.slots) + {r.pd};
    var T := SpaceFrames(ph.words, r.pd);
    assert Spaces(ph, spaces);
    hide Spaces, SpaceFrames, Valid, AllocRun, PhysOk;
    forall q, f | q in spaces && f in SpaceFrames(ph.words, q) ensures Held(fr1, f) {
      SpaceFramesHeld(ph, spaces, q, f);
      TableStands(sys, ph, r, q, f);
      NewStackUnnamed(sys, ph, r, c, fr, ks);
    }
    HeldStays(ph, ph.(fr := fr1), spaces);
  }

  lemma TableStands(sys: Sys, ph: Phys, r: X.Program, q: nat, f: nat)
    requires Ok(sys) && Beside(sys, ph, r) && q in SpacesOf(sys.slots) + {r.pd} && f in SpaceFrames(ph.words, q)
    ensures f in SpaceFrames(ph.words, r.pd) || Held(sys.ph.fr, f)
  {
    hide Spaces, Lent, SpaceFrames, X.Unnoticed, X.PagesMapped;
    if q != r.pd {
      var i := SpaceOwner(sys.slots, q);
      OldFrames(sys, ph, r, i);
    }
  }

  // ---------------------------------------------------------------- exec_run_file

  /** The stack page is the last on the list. */
  predicate EndsInStack(vas: seq<nat>) { vas != [] && vas[|vas| - 1] == L.STACK_PAGE }

  /** A process in slot c that runs this file: the address space is the image, and reaping the process
      gives back exactly what running it took. */
  ghost predicate Runs(sys: Sys, m: E.Image, name: seq<byte>, sys': Sys, c: nat) {
    && Ok(sys) && Ok(sys') && c < |sys.slots| && sys.slots[c].Unused? && sys'.slots == sys.slots[c := sys'.slots[c]]
    && sys'.slots[c].User? && EndsInStack(sys'.slots[c].vas) && E.Loadable(m) && L.AllSane(m, X.AllSegs(m))
    && |name| <= L.NAME_LIMIT
    && (forall va: nat :: va < USER_LIMIT ==> X.LoadedAt(m, name, sys'.ph, sys'.slots[c].pd, va))
    && (forall i :: 0 <= i < |sys.slots| && i != c ==> Eager(VmOf(sys'))[i] == Eager(VmOf(sys))[i])
    && Views(sys'.ph.words, sys'.slots) == Views(sys.ph.words, sys.slots)[c := ViewOf(sys'.ph.words, sys'.slots[c])]
    && Agrees(sys', c) && ReapProcess(sys', c).ph.fr == sys.ph.fr
  }

  /** Nothing happened: every process maps and sees what it did and the allocator is as it was. */
  ghost predicate NothingRuns(sys: Sys, sys': Sys) {
    && Ok(sys) && Ok(sys') && sys'.slots == sys.slots && sys'.ph.fr == sys.ph.fr
    && Views(sys'.ph.words, sys'.slots) == Views(sys.ph.words, sys.slots) && Eager(VmOf(sys')) == Eager(VmOf(sys))
  }

  lemma BesidePhys(sys: Sys, ph: Phys, r: X.Program)
    requires Beside(sys, ph, r)
    ensures PhysOk(ph)
  {}

  lemma SameInv(sys: Sys, ph: Phys)
    requires Ok(sys) && ph.fr == sys.ph.fr && PhysOk(ph) && Views(ph.words, sys.slots) == Views(sys.ph.words, sys.slots)
    ensures Inv(VmOf(sys.(ph := ph)))
  {
    hide Spaces, Apart, SlotsOk, Views, Total, SpaceFrames;
    assert Inv(VmOf(sys));
  }

  lemma SameSeen(sys: Sys, ph: Phys)
    requires Ok(sys) && ph.fr == sys.ph.fr && X.Unnoticed(sys.ph, ph, SpacesOf(sys.slots))
    requires Views(ph.words, sys.slots) == Views(sys.ph.words, sys.slots)
    ensures |sys.ph.bytes| == MAX_PAGES && |ph.bytes| == MAX_PAGES
    ensures Eager(VmOf(sys.(ph := ph))) == Eager(VmOf(sys))
  {
    hide Ok, Views, Total, X.SameLookups;
    OkPages(sys);
    var vm, vm' := VmOf(sys), VmOf(sys.(ph := ph));
    forall i | 0 <= i < |vm.views| ensures EagerOf(vm'.views[i], vm'.bytes) == EagerOf(vm.views[i], vm.bytes) {
      forall k | 0 <= k < |vm.views[i]|
        ensures EagerOf(vm'.views[i], vm'.bytes)[k] == EagerOf(vm.views[i], vm.bytes)[k]
      {
        Mapped(vm.views, i, k);
        NamedIsUsed(sys, vm.views[i][k].pte.frame);
      }
    }
  }

  lemma OkPages(sys: Sys)
    requires Ok(sys)
    ensures |sys.ph.bytes| == MAX_PAGES
  {}

  /** Memory whose tables and used frames say the same is as good as the old one. */
  lemma Unchanged(sys: Sys, ph: Phys)
    requires Ok(sys) && ph.fr == sys.ph.fr && Spaces(ph, SpacesOf(sys.slots))
    requires X.Unnoticed(sys.ph, ph, SpacesOf(sys.slots)) && X.SameFrames(sys.ph, ph, SpacesOf(sys.slots))
    ensures NothingRuns(sys, sys.(ph := ph))
  {
    hide Spaces, X.SameFrames, Apart, SlotsOk, Inv, Views, Total, SpaceFrames, X.SameLookups, Eager, Valid;
    SameViews(sys, ph);
    SameApart(sys, ph);
    SameSlots(sys, ph);
    SpacesPhys(ph, SpacesOf(sys.slots));
    SameInv(sys, ph);
    SameSeen(sys, ph);
  }

  lemma SameViews(sys: Sys, ph: Phys)
    requires Ok(sys) && X.SameLookups(sys.ph, ph, SpacesOf(sys.slots))
    ensures Views(ph.words, sys.slots) == Views(sys.ph.words, sys.slots)
    ensures TablesOk(ph.words, sys.slots)
  {
    forall i | 0 <= i < |sys.slots|
      ensures ViewOf(ph.words, sys.slots[i]) == ViewOf(sys.ph.words, sys.slots[i])
      ensures sys.slots[i].User? ==> TableOk(ph.words, sys.slots[i].pd, sys.slots[i].vas)
    {
      assert SlotShape(sys.slots[i]);
      if sys.slots[i].User? {
        assert TableOk(sys.ph.words, sys.slots[i].pd, sys.slots[i].vas) && sys.slots[i].pd in SpacesOf(sys.slots);
      }
      hide Ok, TableOk, Lookup, ViewOf;
      ViewKept(sys.ph.words, ph.words, sys.slots[i]);
    }
    hide Ok, ViewOf, TableOk;
  }

  lemma SameSlots(sys: Sys, ph: Phys)
    requires Ok(sys) && X.SameLookups(sys.ph, ph, SpacesOf(sys.slots))
    ensures SlotsOk(ph.words, sys.slots)
  {
    SameViews(sys, ph);
    hide Spaces, Apart, Inv, TablesOk;
  }

  lemma SameApart(sys: Sys, ph: Phys)
    requires Ok(sys) && ph.fr == sys.ph.fr && X.SameFrames(sys.ph, ph, SpacesOf(sys.slots))
    requires Views(ph.words, sys.slots) == Views(sys.ph.words, sys.slots)
    ensures Apart(ph, sys.slots)
  {
    hide Spaces, SlotsOk, Inv, SpaceFrames, Views, Total;
    assert forall i :: 0 <= i < |sys.slots| && sys.slots[i].User? ==> sys.slots[i].pd in SpacesOf(sys.slots);
  }

  lemma CreatedIs(sys: Sys, ph: Phys, r: X.Program) returns (c: nat, fr: Frames, ks: nat)
    requires Ok(sys) && Beside(sys, ph, r) && PhysOk(ph) && CreateProcess(sys, ph, r).1.Some?
    ensures Spawning(sys, ph, r, c, fr, ks) && CreateProcess(sys, ph, r) == (Spawned(sys, ph, r, c, fr, ks), Some(c))
  {
    assert sys.slots[0].Kernel?;
    hide Ok, Beside, AllocRun, PhysOk;
    c := FreeSlot(sys.slots, 0).value;
    fr, ks := AllocRun(ph.fr, 1).0, AllocRun(ph.fr, 1).1;
  }

  lemma Created(sys: Sys, m: E.Image, name: seq<byte>, ph: Phys, r: X.Program)
    requires Ok(sys) && X.LoadedOk(sys.ph, SpacesOf(sys.slots), m, name, ph, r) && PhysOk(ph)
    requires CreateProcess(sys, ph, r).1.Some?
    ensures Runs(sys, m, name, CreateProcess(sys, ph, r).0, CreateProcess(sys, ph, r).1.value)
  {
    hide Ok, Beside, Spawning, AllocRun, X.LoadedAt, X.LoadedOk, CreateProcess, E.Loadable, L.AllSane, Eager, EagerOf;
    hide VmOf;
    hide Agrees, ReapProcess, PhysOk, Shape, ViewOf, X.AllSegs, Views;
    LoadedBeside(sys, m, name, ph, r);
    var c, fr, ks := CreatedIs(sys, ph, r);
    SpawnOk(sys, ph, r, c, fr, ks);
    SpawnAgrees(sys, ph, r, c, fr, ks);
    SpawnReap(sys, ph, r, c, fr, ks);
    ImageInPlace(sys, m, name, ph, r, fr);
    SlotWas(sys, ph, r, c, fr, ks);
    StackLast(sys, ph, r);
    OtherViews(sys, ph, r, c, fr, ks);
  }

  lemma StackLast(sys: Sys, ph: Phys, r: X.Program)
    requires Beside(sys, ph, r)
    ensures EndsInStack(r.vas)
  {
    hide Spaces, Lent, SpaceFrames, L.FramesOf, X.PageAt;
  }

  lemma SlotWas(sys: Sys, ph: Phys, r: X.Program, c: nat, fr: Frames, ks: nat)
    requires Spawning(sys, ph, r, c, fr, ks)
    ensures c < |sys.slots| && sys.slots[c].Unused? && |ph.bytes| == MAX_PAGES
  {
    hide Ok, Beside, AllocRun;
  }

  lemma ImageInPlace(sys: Sys, m: E.Image, name: seq<byte>, ph: Phys, r: X.Program, fr: Frames)
    requires X.LoadedOk(sys.ph, SpacesOf(sys.slots), m, name, ph, r)
    ensures E.Loadable(m) && L.AllSane(m, X.AllSegs(m)) && |name| <= L.NAME_LIMIT
    ensures forall va: nat :: va < USER_LIMIT ==> X.LoadedAt(m, name, ph.(fr := fr), r.pd, va)
  {
    assert E.Loadable(m) && L.AllSane(m, X.AllSegs(m)) && |name| <= L.NAME_LIMIT;
    hide Spaces, X.Unnoticed, X.PagesMapped, Lent, X.LoadedAt, E.Loadable, L.AllSane, SpaceFrames, X.SameFrames;
    forall va: nat | va < USER_LIMIT ensures X.LoadedAt(m, name, ph.(fr := fr), r.pd, va) {
      assert X.LoadedAt(m, name, ph, r.pd, va);
      SameLoaded(m, name, ph, ph.(fr := fr), r.pd, va);
    }
  }

  lemma SameLoaded(m: E.Image, name: seq<byte>, ph: Phys, ph': Phys, pd: nat, va: nat)
    requires E.Loadable(m) && L.AllSane(m, X.AllSegs(m)) && |name| <= L.NAME_LIMIT
    requires ph'.words == ph.words && ph'.bytes == ph.bytes && X.LoadedAt(m, name, ph, pd, va)
    ensures X.LoadedAt(m, name, ph', pd, va)
  {
    hide E.Loadable, L.AllSane, Lookup, L.ImageByte, X.StackByte;
  }

  /** No slot or no kernel stack: the tables go first, the pages are still to be freed. */
  lemma TablesReturned(sys: Sys, ph: Phys, r: X.Program)
    requires Ok(sys) && Beside(sys, ph, r)
    ensures Shape(ph.fr) && Valid(sys.ph.fr)
    ensures var s := DestroySpace(ph, r.pd); var back := s.(fr := sys.ph.fr);
      && Valid(s.fr) && L.Distinct(r.pages) && Lent(sys.ph.fr, s.fr, L.FramesOf(r.pages), multiset{})
      && Spaces(back, SpacesOf(sys.slots)) && X.Unnoticed(sys.ph, back, SpacesOf(sys.slots))
      && X.SameFrames(sys.ph, back, SpacesOf(sys.slots))
  {
    var F, T, spaces := L.FramesOf(r.pages), SpaceFrames(ph.words, r.pd), SpacesOf(sys.slots);
    assert Valid(sys.ph.fr) && L.Distinct(r.pages) && F !! T;
    assert Shape(ph.fr) && Spaces(ph, spaces + {r.pd}) && Lent(sys.ph.fr, ph.fr, F + T, multiset{});
    hide Ok, Beside, Spaces, Lent, SpaceFrames, Valid, DestroySpace, L.FramesOf, L.Distinct;
    DestroyReturns(sys.ph.fr, ph, spaces + {r.pd}, r.pd, F + T, multiset{});
    assert F + T - T == F;
    PhysValid(DestroySpace(ph, r.pd));
    SpacesReturned(sys, ph, r);
  }

  lemma SpacesReturned(sys: Sys, ph: Phys, r: X.Program)
    requires Ok(sys) && Beside(sys, ph, r) && Shape(ph.fr) && PhysOk(DestroySpace(ph, r.pd))
    ensures var back := DestroySpace(ph, r.pd).(fr := sys.ph.fr);
      && Spaces(back, SpacesOf(sys.slots)) && X.Unnoticed(sys.ph, back, SpacesOf(sys.slots))
      && X.SameFrames(sys.ph, back, SpacesOf(sys.slots))
  {
    var spaces, s := SpacesOf(sys.slots), DestroySpace(ph, r.pd);
    assert Spaces(ph, spaces + {r.pd}) && r.pd !in spaces && Valid(sys.ph.fr) && Spaces(sys.ph, spaces);
    assert X.Unnoticed(sys.ph, ph, spaces) && X.SameFrames(sys.ph, ph, spaces);
    hide Ok, Beside, SpaceFrames, Spaces, Valid, DestroySpace, Lookup;
    DestroyKeepsOthers(ph, spaces + {r.pd}, r.pd);
    assert spaces + {r.pd} - {r.pd} == spaces;
    forall q | q in spaces ensures SpaceFrames(s.words, q) == SpaceFrames(sys.ph.words, q) {
      DestroyKeepsFrames(ph, spaces + {r.pd}, r.pd, q);
    }
    forall q, f | q in spaces && f in SpaceFrames(s.words, q) ensures Held(sys.ph.fr, f) {
      SpaceFramesHeld(sys.ph, spaces, q, f);
    }
    HeldStays(s, s.(fr := sys.ph.fr), spaces);
  }

  /** The kernel's entries stand in the page table of every process, and every list is in the user range. */
  ghost predicate Supervised(sys: Sys) {
    S.Guarded(sys.ph.words, SpacesOf(sys.slots), sys.kernel) && ListsHigh(sys.slots)
  }

  predicate ListsHigh(slots: seq<Slot>) {
    forall i :: 0 <= i < |slots| && slots[i].User? ==> S.High(slots[i].vas)
  }

  /** A loaded program becomes a process, or its space is destroyed: the kernel's entries stand. */
  lemma CreatedSupervised(sys: Sys, ph: Phys, r: X.Program)
    requires Ok(sys) && Beside(sys, ph, r) && PhysOk(ph) && Supervised(sys)
    requires S.Guarded(ph.words, SpacesOf(sys.slots) + {r.pd}, sys.kernel)
    ensures var (sys', c) := CreateProcess(sys, ph, r); c.Some? ==> Supervised(sys')
    ensures S.Guarded(DestroySpace(ph, r.pd).words, SpacesOf(sys.slots), sys.kernel)
  {
    assert r.pd !in SpacesOf(sys.slots) && Spaces(ph, SpacesOf(sys.slots) + {r.pd});
    HighPages(sys, ph, r);
    hide Ok, Beside, Spaces, PhysOk, S.AllStand, AllocRun, DestroySpace, S.High;
    var (sys', c) := CreateProcess(sys, ph, r);
    if c.Some? { SpacesOfAdd(sys.slots, c.value, sys'.slots[c.value]); }
    S.DestroyStandsAll(ph, SpacesOf(sys.slots) + {r.pd}, r.pd, sys.kernel);
    assert SpacesOf(sys.slots) + {r.pd} - {r.pd} == SpacesOf(sys.slots);
  }

  lemma HighPages(sys: Sys, ph: Phys, r: X.Program)
    requires Beside(sys, ph, r)
    ensures S.High(r.vas)
  {
    hide Spaces, Lent, SpaceFrames, L.FramesOf, X.PageAt;
  }

  /** What running a file needs: a slot, what loading needs, and a frame for the kernel stack. */
  ghost predicate CanRun(sys: Sys, m: E.Image, name: seq<byte>)
    requires Valid(sys.ph.fr)
  {
    FreeSlot(sys.slots, 0).Some? && X.Suffices(sys.ph.fr, m, name) && X.Needed(X.ImagePages(m)) < sys.ph.fr.free
  }

  /** The allocator after a program has been started. */
  function RunTaken(fr: Frames, pages: set<nat>): Frames
    requires Valid(fr)
  {
    AllocRun(X.LoadTaken(fr, pages), 1).0
  }

  /** The process is created exactly when there is a slot and the load has left a frame. */
  lemma CreatedIff(sys: Sys, ph: Phys, r: X.Program, m: E.Image, name: seq<byte>)
    requires PhysOk(ph) && Valid(sys.ph.fr) && X.Suffices(sys.ph.fr, m, name)
    requires ph.fr == X.LoadTaken(sys.ph.fr, X.ImagePages(m))
    ensures var (sys', c) := CreateProcess(sys, ph, r);
      && (c.Some? <==> CanRun(sys, m, name))
      && (c.Some? ==> sys'.ph.fr == RunTaken(sys.ph.fr, X.ImagePages(m)))
  {
    X.LoadLeaves(sys.ph.fr, X.ImagePages(m));
    D.OneFree(ph.fr);
    hide AllocRun, Valid, X.LoadTaken, X.Needed;
  }

  /** exec_run_file: it runs the file exactly when there is what it needs. */
  method RunFile(sys: Sys, m: E.Image, name: seq<byte>) returns (sys': Sys, r: Option<nat>)
    requires Ok(sys) && 0 !in name
    ensures match r
      case Some(c) => Runs(sys, m, name, sys', c)
      case None => NothingRuns(sys, sys')
    ensures Valid(sys.ph.fr) && (r.Some? <==> CanRun(sys, m, name))
    ensures r.Some? ==> sys'.ph.fr == RunTaken(sys.ph.fr, X.ImagePages(m))
    ensures sys'.kernel == sys.kernel && (Supervised(sys) ==> Supervised(sys'))
  {
    hide Ok, X.Suffices, CanRun, RunTaken, X.LoadTaken, X.ImagePages, Spaces, X.LoadedOk, X.Unnoticed, X.SameFrames;
    hide Runs, NothingRuns, CreateProcess, Beside, Lent, Valid, Supervised, S.Guarded, X.Needed;
    Begins(sys);
    ghost var spaces := SpacesOf(sys.slots);
    var ph, loaded := X.LoadImage(sys.ph, spaces, sys.kernel, m, name);
    if loaded.None? {
      Unchanged(sys, ph);
      StillSupervised(sys, ph);
      CannotRun(sys, m, name);
      return sys.(ph := ph), None;
    }
    var p := loaded.value;
    LoadedBeside(sys, m, name, ph, p);
    assert PhysOk(ph) by { BesidePhys(sys, ph, p); }
    CreatedIff(sys, ph, p, m, name);
    NowSupervised(sys, ph, p);
    var created := CreateProcess(sys, ph, p);
    sys', r := created.0, created.1;
    if r.Some? {
      Created(sys, m, name, ph, p);
      return;
    }
    TablesReturned(sys, ph, p);
    var s := DestroySpace(ph, p.pd);
    var fr := X.FreeAll(sys.ph.fr, s.fr, p.pages);
    Unchanged(sys, s.(fr := fr));
    StillSupervised(sys, s.(fr := fr));
    sys' := sys.(ph := s.(fr := fr));
  }

  lemma Begins(sys: Sys)
    requires Ok(sys)
    ensures Spaces(sys.ph, SpacesOf(sys.slots)) && |sys.kernel| == 4 && Valid(sys.ph.fr) && Shape(sys.ph.fr)
    ensures Supervised(sys) ==> S.Guarded(sys.ph.words, SpacesOf(sys.slots), sys.kernel)
  {}

  lemma CannotRun(sys: Sys, m: E.Image, name: seq<byte>)
    requires Valid(sys.ph.fr) && !X.Suffices(sys.ph.fr, m, name)
    ensures !CanRun(sys, m, name)
  {}

  lemma StillSupervised(sys: Sys, ph: Phys)
    requires Supervised(sys) ==> S.Guarded(ph.words, SpacesOf(sys.slots), sys.kernel)
    ensures Supervised(sys) ==> Supervised(sys.(ph := ph))
  {}

  lemma NowSupervised(sys: Sys, ph: Phys, r: X.Program)
    requires Ok(sys) && Beside(sys, ph, r) && PhysOk(ph)
    requires Supervised(sys) ==> S.Guarded(ph.words, SpacesOf(sys.slots) + {r.pd}, sys.kernel)
    ensures Shape(ph.fr)
    ensures var (sys', c) := CreateProcess(sys, ph, r);
      && sys'.kernel == sys.kernel && (Supervised(sys) && c.Some? ==> Supervised(sys'))
      && (Supervised(sys) ==> S.Guarded(DestroySpace(ph, r.pd).words, SpacesOf(sys.slots), sys.kernel))
  {
    if Supervised(sys) { CreatedSupervised(sys, ph, r); }
    hide Ok, Beside, Supervised, S.Guarded, DestroySpace, AllocRun;
  }
}
