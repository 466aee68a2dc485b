/** Fork, write faults and reaping in place (src/process.c), proved equal to the functions of Fork and
    VmRun on the abstract state. */
module ProcessTable {
  import opened Common
  import opened Memory
  import P = Paging
  import opened PageTables
  import Cow
  import opened Fork
  import FP = ForkProof
  import opened VmRun

  class Processes {
    const mmu: Mmu
    const slots: array<Slot>

    ghost predicate Wired()
      reads this, mmu, mmu.frames
    {
      && mmu.Wired() && slots.Length == Cow.MAX_PROCESSES
      && slots as object != mmu.words as object && slots as object != mmu.bytes as object
      && slots as object != mmu.kernelPd as object
      && slots as object != mmu.frames.bitmap as object && slots as object != mmu.frames.pageRefs as object
    }

    function State(): Sys
      requires Wired()
      reads this, mmu, mmu.frames, mmu.frames.bitmap, mmu.frames.pageRefs, mmu.words, mmu.bytes, mmu.kernelPd, slots
    {
      Sys(mmu.State(), mmu.kernelPd[..], slots[..])
    }

    constructor (mmu: Mmu)
      requires mmu.Wired()
      ensures Wired() && this.mmu == mmu && fresh(slots)
    {
      this.mmu := mmu;
      slots := new Slot[Cow.MAX_PROCESSES](_ => Unused);
    }

    method FindFreeSlot() returns (found: Option<nat>)
      requires Wired()
      ensures found == FreeSlot(slots[..], 0)
    {
      var i := 0;
      while i < slots.Length
        invariant 0 <= i <= slots.Length
        invariant FreeSlot(slots[..], 0) == FreeSlot(slots[..], i)
      {
        if slots[i].Unused? { return Some(i); }
        i := i + 1;
      }
      found := None;
    }

    /** Undo a half-made child: release the shared pages, destroy its space. */
    method AbandonFork(ptes: seq<P.Pte>, cpd: nat)
      requires Wired() && cpd + 5 <= MAX_PAGES
      modifies mmu.frames, mmu.frames.bitmap, mmu.frames.pageRefs, mmu.words
      ensures State() == old(State()).(ph := Abandon(old(State()).ph, ptes, cpd))
    {
      ghost var ph := mmu.State();
      for i := 0 to |ptes|
        invariant mmu.State() == ph.(fr := ReleaseUpTo(ph.fr, ptes, i))
      {
        mmu.frames.PageFree(ptes[i].frame * PAGE_SIZE);
      }
      mmu.DestroyAddressSpace(cpd);
    }

    method ForkCurrent(p: nat) returns (child: Option<nat>)
      requires Wired() && Ok(State()) && p < slots.Length
      modifies mmu.frames, mmu.frames.bitmap, mmu.frames.pageRefs, mmu.words, slots
      ensures (State(), child) == ForkProcess(old(State()), p)
    {
      hide Ok, P.CreateSpace, P.PhysOk, Fork.ForkInto;
      ghost var sys := State();
      OkPhys(sys);
      if p == 0 || !slots[p].User? || slots[p].vas == [] { return None; }
      var c := FindFreeSlot();
      if c.None? { return None; }
      CreateParts(sys.ph, sys.kernel);
      var cpd := mmu.CreateAddressSpace();
      if cpd == 0 { return None; }
      child := ForkInto(p, c.value, cpd, sys);
    }

    /** One round of the sharing loop. */
    method ShareOne(ppd: nat, cpd: nat, va: nat, ghost before: Sharing) returns (ok: bool, e: P.Pte)
      requires Wired() && P.PhysOk(before.ph) && mmu.State() == before.ph
      requires Walkable(before.ph.words, ppd, va) && Walkable(before.ph.words, cpd, va)
      modifies mmu.frames, mmu.frames.bitmap, mmu.frames.pageRefs, mmu.words
      ensures var r := ShareNext(before, ppd, cpd, va);
        mmu.State() == r.ph && ok == r.ok && r.ptes == if ok then before.ptes + [e] else before.ptes
    {
      hide P.Lookup, P.MapUserPage;
      e := P.ZERO_PTE;
      var page := mmu.GetUserPage(ppd, va);
      if page.None? { return false, e; }
      e := page.value;
      var childFlags := e.flags;
      if e.flags.writable { childFlags := P.CowFlags(e.flags); }
      ok := mmu.MapUserPageIn(cpd, va, e.frame * PAGE_SIZE, childFlags);
      if ok {
        mmu.frames.PageRetain(e.frame * PAGE_SIZE);
      }
    }

    method ForkInto(p: nat, c: nat, cpd: nat, ghost sys: Sys) returns (child: Option<nat>)
      requires Wired() && Ok(sys) && p < slots.Length && c < slots.Length && slots[..] == sys.slots
      requires slots[p].User? && slots[c].Unused? && mmu.kernelPd[..] == sys.kernel && cpd != 0
      requires P.PhysOk(sys.ph) && P.PhysOk(mmu.State()) && (mmu.State(), cpd) == P.CreateSpace(sys.ph, sys.kernel)
      modifies mmu.frames, mmu.frames.bitmap, mmu.frames.pageRefs, mmu.words, slots
      ensures (State(), child) == Fork.ForkInto(sys, p, c, old(mmu.State()), cpd)
    {
      hide Ok, P.CreateSpace, ShareNext, ShareUpTo, FP.ShareInv, Abandon, Fork.FinishFork, P.Spaces, Walkable;
      ghost var ph1 := mmu.State();
      var parent := slots[p];
      var ptes: seq<P.Pte> := [];
      ghost var spaces := SpacesOf(sys.slots) + {cpd};
      FP.SharePrefix(sys, p, ph1, cpd, 0);
      ShareNone(ph1, parent.pd, cpd, parent.vas);
      var i := 0;
      while i < |parent.vas|
        invariant 0 <= i <= |parent.vas|
        invariant slots[..] == sys.slots && mmu.kernelPd[..] == sys.kernel
        invariant Sharing(mmu.State(), ptes, true) == ShareUpTo(ph1, parent.pd, cpd, parent.vas, i)
      {
        ghost var before := ShareUpTo(ph1, parent.pd, cpd, parent.vas, i);
        FP.SharePrefix(sys, p, ph1, cpd, i);
        LiveSpaceWalkable(before.ph, spaces, parent.pd, parent.vas[i]);
        LiveSpaceWalkable(before.ph, spaces, cpd, parent.vas[i]);
        var ok, e := ShareOne(parent.pd, cpd, parent.vas[i], before);
        ShareRound(ph1, parent.pd, cpd, parent.vas, i);
        if !ok {
          FP.ShareStays(ph1, parent.pd, cpd, parent.vas, i + 1, |parent.vas|);
          AbandonFork(ptes, cpd);
          return None;
        }
        ptes := ptes + [e];
        i := i + 1;
      }
      FP.ForkStart(sys, p, ph1, cpd);
      child := FinishFork(p, c, cpd, ptes, sys);
    }

    /** The marking loop. */
    method MarkPages(p: nat, cpd: nat, ptes: seq<P.Pte>, ghost sys: Sys) returns (cowed: nat)
      requires Wired() && Ok(sys) && p < slots.Length && slots[..] == sys.slots
      requires slots[p].User? && cpd !in SpacesOf(sys.slots)
      requires |ptes| == |slots[p].vas| && P.PhysOk(mmu.State())
      requires FP.ShareInv(sys.ph, SpacesOf(sys.slots), slots[p].pd, cpd, slots[p].vas, mmu.State(), ptes)
      modifies mmu.words
      ensures Marking(mmu.State(), cowed, true)
        == MarkUpTo(old(mmu.State()), slots[p].pd, slots[p].vas, ptes, |slots[p].vas|)
    {
      hide Ok, P.SetUserPageFlags, FP.ShareInv, FP.Reflagged, P.Spaces, Walkable;
      ghost var sh := Sharing(mmu.State(), ptes, true);
      ghost var spaces := SpacesOf(sys.slots) + {cpd};
      var parent := slots[p];
      cowed := 0;
      FP.MarkPrefix(sys, p, cpd, sh, 0);
      for i := 0 to |parent.vas|
        invariant Marking(mmu.State(), cowed, true) == MarkUpTo(sh.ph, parent.pd, parent.vas, ptes, i)
      {
        FP.MarkPrefix(sys, p, cpd, sh, i);
        FP.MarkPrefix(sys, p, cpd, sh, i + 1);
        if ptes[i].flags.writable {
          LiveSpaceWalkable(mmu.State(), spaces, parent.pd, parent.vas[i]);
          var ok := mmu.SetUserPageFlags(parent.pd, parent.vas[i], P.CowFlags(ptes[i].flags));
          cowed := cowed + 1;
        }
      }
    }

    /** The restore loop: old flags for the first `cowed` pages. */
    method RestorePages(p: nat, cpd: nat, ptes: seq<P.Pte>, cowed: nat, ghost ph: P.Phys, ghost sys: Sys)
      requires Wired() && p < slots.Length && slots[..] == sys.slots && slots[p].User? && ListOk(slots[p].vas)
      requires |ptes| == |slots[p].vas| && cowed <= |ptes| && P.PhysOk(mmu.State())
      requires FP.Reflagged(ph, mmu.State(), SpacesOf(sys.slots) + {cpd}, slots[p].pd, slots[p].vas, ptes,
        FP.MarkedPtes(ptes, |ptes|))
      modifies mmu.words
      ensures mmu.State() == RestoreUpTo(old(mmu.State()), slots[p].pd, slots[p].vas, ptes, cowed)
    {
      hide P.SetUserPageFlags, FP.Reflagged, P.Spaces, Walkable;
      ghost var mk := mmu.State();
      ghost var spaces := SpacesOf(sys.slots) + {cpd};
      var parent := slots[p];
      for i := 0 to cowed
        invariant mmu.State() == RestoreUpTo(mk, parent.pd, parent.vas, ptes, i)
      {
        FP.RestorePrefix(ph, mk, spaces, parent.pd, parent.vas, ptes, i);
        LiveSpaceWalkable(mmu.State(), spaces, parent.pd, parent.vas[i]);
        var _ := mmu.SetUserPageFlags(parent.pd, parent.vas[i], ptes[i].flags);
      }
    }

    /** The marking loop, the kernel stack, and the restore loop if there is none. */
    method FinishFork(p: nat, c: nat, cpd: nat, ptes: seq<P.Pte>, ghost sys: Sys) returns (child: Option<nat>)
      requires Wired() && Ok(sys) && p < slots.Length && c < slots.Length && slots[..] == sys.slots
      requires slots[p].User? && mmu.kernelPd[..] == sys.kernel && cpd !in SpacesOf(sys.slots) && cpd + 5 <= MAX_PAGES
      requires |ptes| == |slots[p].vas| && P.PhysOk(mmu.State())
      requires FP.ShareInv(sys.ph, SpacesOf(sys.slots), slots[p].pd, cpd, slots[p].vas, mmu.State(), ptes)
      modifies mmu.frames, mmu.frames.bitmap, mmu.frames.pageRefs, mmu.words, slots
      ensures (State(), child) == Fork.FinishFork(sys, p, c, cpd, Sharing(old(mmu.State()), ptes, true))
    {
      hide Ok, P.SetUserPageFlags, FP.ShareInv, FP.Reflagged, Abandon, P.Spaces, MarkUpTo, RestoreUpTo;
      ghost var sh := Sharing(mmu.State(), ptes, true);
      var parent := slots[p];
      FP.MarkPrefix(sys, p, cpd, sh, |parent.vas|);
      var cowed := MarkPages(p, cpd, ptes, sys);
      ghost var mk := mmu.State();
      var a := mmu.frames.PageAllocContiguous(1);
      if a == 0 {
        AllocNothing(mk.fr, 1);
        RestorePages(p, cpd, ptes, cowed, sh.ph, sys);
        AbandonFork(ptes, cpd);
        return None;
      }
      slots[c] := User(cpd, parent.vas, FramesIn(ptes), a / PAGE_SIZE);
      child := Some(c);
    }

    /** Free user_pages, the page tables and the kernel stack, and clear the slot. */
    method Reap(p: nat)
      requires Wired() && Ok(State()) && p < slots.Length && slots[p].User?
      modifies mmu.frames, mmu.frames.bitmap, mmu.frames.pageRefs, mmu.words, slots
      ensures State() == ReapProcess(old(State()), p)
    {
      ghost var sys := State();
      var slot := slots[p];
      assert slot.pd in SpacesOf(sys.slots) && slot.pd + 5 <= MAX_PAGES;
      hide Ok, P.DestroySpace, FreePage;
      FreeUserPages(slot.pages);
      mmu.DestroyAddressSpace(slot.pd);
      mmu.frames.PageFree(slot.kstack * PAGE_SIZE);
      slots[p] := Unused;
    }

    /** Free every frame user_pages[] names. */
    method FreeUserPages(pages: seq<nat>)
      requires Wired() && P.PhysOk(mmu.State())
      modifies mmu.frames, mmu.frames.bitmap, mmu.frames.pageRefs
      ensures mmu.State() == old(mmu.State()).(fr := FreePages(old(mmu.State()).fr, pages, |pages|))
    {
      hide FreePage;
      ghost var ph := mmu.State();
      for i := 0 to |pages|
        invariant mmu.State() == ph.(fr := FreePages(ph.fr, pages, i))
      {
        if pages[i] != 0 {
          mmu.frames.PageFree(pages[i] * PAGE_SIZE);
        }
      }
    }

    /** A byte store by a user process, with the write fault it may raise. */
    method Store(p: nat, va: nat, b: byte) returns (ok: bool)
      requires Wired() && Ok(State()) && p < slots.Length && slots[p].User?
      modifies mmu.frames, mmu.frames.bitmap, mmu.frames.pageRefs, mmu.words, mmu.bytes
      ensures (State(), ok) == UserStore(old(State()), p, va, b)
    {
      hide Ok, P.Lookup, P.ResolveCow, Walkable, PageBase;
      ghost var sys := State();
      var pd := slots[p].pd;
      StoreWalkable(sys, p, va);
      var page := mmu.GetUserPage(pd, va);
      if page.None? { return false; }
      var f := page.value.frame;
      if !page.value.flags.writable {
        ok := mmu.ResolveCow(pd, PageBase(va));
        if !ok {
          ResolveNothing(sys.ph, pd, PageBase(va));
          return false;
        }
        RetryWalkable(sys, p, va);
        page := mmu.GetUserPage(pd, va);
        f := if page.Some? then page.value.frame else 0;
      }
      if f < MAX_PAGES {
        mmu.bytes[f] := mmu.bytes[f][va % PAGE_SIZE := b];
      }
      ok := true;
    }
  }

  lemma StoreWalkable(sys: Sys, p: nat, va: nat)
    requires Ok(sys) && p < |sys.slots| && sys.slots[p].User?
    ensures P.PhysOk(sys.ph)
    ensures Walkable(sys.ph.words, sys.slots[p].pd, va) && Walkable(sys.ph.words, sys.slots[p].pd, PageBase(va))
  {
    hide P.Tables, P.Blocks, Walkable;
    LiveSpaceWalkable(sys.ph, SpacesOf(sys.slots), sys.slots[p].pd, va);
    LiveSpaceWalkable(sys.ph, SpacesOf(sys.slots), sys.slots[p].pd, PageBase(va));
  }

  lemma CreateParts(s: P.Phys, kernel: seq<P.Table>)
    requires P.PhysOk(s) && |kernel| == 4
    ensures var (t, pd) := P.CreateSpace(s, kernel); P.PhysOk(t) && (pd == 0 ==> t == s)
  {
    hide AllocRun, P.BuildSpace, Valid;
    AllocValid(s.fr, P.PROCESS_PAGING_PAGES);
    AllocNothing(s.fr, P.PROCESS_PAGING_PAGES);
  }

  lemma OkPhys(sys: Sys)
    requires Ok(sys)
    ensures P.PhysOk(sys.ph) && |sys.kernel| == 4
  {}

  lemma ResolveNothing(s: P.Phys, pd: nat, va: nat)
    requires P.PhysOk(s) && !P.ResolveCow(s, pd, va).1
    ensures P.ResolveCow(s, pd, va).0 == s
  {}

  lemma RetryWalkable(sys: Sys, p: nat, va: nat)
    requires Ok(sys) && p < |sys.slots| && sys.slots[p].User? && P.PhysOk(sys.ph)
    requires P.Lookup(sys.ph.words, sys.slots[p].pd, va).Some?
    ensures Walkable(P.ResolveCow(sys.ph, sys.slots[p].pd, PageBase(va)).0.words, sys.slots[p].pd, va)
  {
    var slot := sys.slots[p];
    var e := P.Lookup(sys.ph.words, slot.pd, va).value;
    var k := ListedPage(sys, p, va);
    SameLookup(sys.ph.words, slot.pd, va);
    var ph := P.ResolveCow(sys.ph, slot.pd, PageBase(va)).0;
    if e.flags.cow {
      ResolveCorrect(sys, p, k, e);
      LiveSpaceWalkable(ph, SpacesOf(sys.slots), slot.pd, va);
    } else {
      ResolveRefuses(sys.ph, slot.pd, PageBase(va));
      LiveSpaceWalkable(sys.ph, SpacesOf(sys.slots), slot.pd, va);
    }
  }

  lemma ShareNone(ph: P.Phys, ppd: nat, cpd: nat, vas: seq<nat>)
    requires P.PhysOk(ph)
    ensures ShareUpTo(ph, ppd, cpd, vas, 0) == Sharing(ph, [], true)
  {}

  lemma ShareRound(ph: P.Phys, ppd: nat, cpd: nat, vas: seq<nat>, i: nat)
    requires P.PhysOk(ph) && i < |vas| && ShareUpTo(ph, ppd, cpd, vas, i).ok
    ensures ShareUpTo(ph, ppd, cpd, vas, i + 1) == ShareNext(ShareUpTo(ph, ppd, cpd, vas, i), ppd, cpd, vas[i])
  {
    hide ShareNext;
  }
}
