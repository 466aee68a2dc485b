/** Over whole runs of the machine, the kernel's entries stand in the page table of every process. */
module SupervisorRun {
  import opened Common
  import opened Memory
  import opened Paging
  import opened Supervisor
  import opened Cow
  import opened Fork
  import opened ForkProof
  import opened VmRun
  import opened SystemRun
  import X = ExecRun

  // ---------------------------------------------------------------- fork

  lemma {:induction false} ShareStands(ph0: Phys, spaces: set<nat>, ppd: nat, cpd: nat, vas: seq<nat>, ph1: Phys,
                                       n: nat,
                                       kernel: seq<Table>)
    requires PhysOk(ph1) && ShareInv(ph0, spaces, ppd, cpd, vas, ph1, []) && ppd in spaces && cpd !in spaces
    requires ListOk(vas) && High(vas) && n <= |vas| && AllShareable(ph0, spaces, ppd, vas)
    requires Guarded(ph1.words, spaces + {cpd}, kernel)
    ensures Guarded(ShareUpTo(ph1, ppd, cpd, vas, n).ph.words, spaces + {cpd}, kernel)
  {
    hide ShareNext, ShareInv, Guarded, High, ListOk, AllShareable, PhysOk;
    if n > 0 {
      ShareStands(ph0, spaces, ppd, cpd, vas, ph1, n - 1, kernel);
      ShareLoop(ph0, spaces, ppd, cpd, vas, ph1, n - 1);
      var before := ShareUpTo(ph1, ppd, cpd, vas, n - 1);
      if before.ok {
        ShareNextStands(ph0, spaces, ppd, cpd, vas, before, kernel);
      } else {
        ShareStops(ph1, ppd, cpd, vas, n);
      }
    }
  }

  lemma ShareNextStands(ph0: Phys, spaces: set<nat>, ppd: nat, cpd: nat, vas: seq<nat>, before: Sharing,
                        kernel: seq<Table>)
    requires ShareInv(ph0, spaces, ppd, cpd, vas, before.ph, before.ptes) && |before.ptes| < |vas| && ListOk(vas)
    requires High(vas) && PhysOk(before.ph) && Guarded(before.ph.words, spaces + {cpd}, kernel)
    ensures Guarded(ShareNext(before, ppd, cpd, vas[|before.ptes|]).ph.words, spaces + {cpd}, kernel)
  {
    hide ShareInv, Spaces, AllStand, MapUserPage, Lookup, PhysOk, High, ListOk, RetainPage;
    var va := vas[|before.ptes|];
    SharedFacts(ph0, spaces, ppd, cpd, vas, before);
    var l := Lookup(before.ph.words, ppd, va);
    if l.Some? {
      MapStandsAll(before.ph, spaces + {cpd}, cpd, kernel, va, l.value.frame * PAGE_SIZE, Shared(l.value.flags));
    }
  }

  lemma SharedFacts(ph0: Phys, spaces: set<nat>, ppd: nat, cpd: nat, vas: seq<nat>, before: Sharing)
    requires ShareInv(ph0, spaces, ppd, cpd, vas, before.ph, before.ptes) && |before.ptes| < |vas| && ListOk(vas)
    requires High(vas)
    ensures UserVa(vas[|before.ptes|]) && USER_BASE <= vas[|before.ptes|] && Spaces(before.ph, spaces + {cpd})
  {
    hide ShareMaps, Spaces, Lent;
  }

  lemma {:induction false} MarkStandsUpTo(ph: Phys, spaces: set<nat>, pd: nat, vas: seq<nat>, ptes: seq<Pte>, n: nat,
                                          kernel: seq<Table>)
    requires Reflagged(ph, ph, spaces, pd, vas, ptes, ptes) && pd in spaces && ListOk(vas) && n <= |vas| == |ptes|
    requires Guarded(ph.words, spaces, kernel)
    ensures Guarded(MarkUpTo(ph, pd, vas, ptes, n).ph.words, spaces, kernel)
  {
    hide Reflagged, Guarded, ListOk, SetUserPageFlags;
    if n > 0 {
      MarkStandsUpTo(ph, spaces, pd, vas, ptes, n - 1, kernel);
      MarkLoop(ph, spaces, pd, vas, ptes, n - 1);
      var before := MarkUpTo(ph, pd, vas, ptes, n - 1).ph;
      ReflagStands(ph, before, spaces, pd, vas, ptes, MarkedPtes(ptes, n - 1), n - 1, Shared(ptes[n - 1].flags),
        kernel);
    }
  }

  lemma {:induction false} RestoreStands(ph: Phys, mid: Phys, spaces: set<nat>, pd: nat, vas: seq<nat>, ptes: seq<Pte>,
                                         n: nat, kernel: seq<Table>)
    requires Reflagged(ph, mid, spaces, pd, vas, ptes, RestoredPtes(ptes, 0)) && pd in spaces && ListOk(vas)
    requires n <= |vas| == |ptes| && Guarded(mid.words, spaces, kernel)
    ensures Guarded(RestoreUpTo(mid, pd, vas, ptes, n).words, spaces, kernel)
  {
    hide Reflagged, Guarded, ListOk, SetUserPageFlags;
    if n > 0 {
      RestoreStands(ph, mid, spaces, pd, vas, ptes, n - 1, kernel);
      RestoreLoop(ph, mid, spaces, pd, vas, ptes, n - 1);
      var before := RestoreUpTo(mid, pd, vas, ptes, n - 1);
      ReflagStands(ph, before, spaces, pd, vas, ptes, RestoredPtes(ptes, n - 1), n - 1, ptes[n - 1].flags, kernel);
    }
  }

  lemma ReflagStands(ph: Phys, mid: Phys, spaces: set<nat>, pd: nat, vas: seq<nat>, from: seq<Pte>, to: seq<Pte>,
                     k: nat,
                     flags: Flags, kernel: seq<Table>)
    requires Reflagged(ph, mid, spaces, pd, vas, from, to) && pd in spaces && ListOk(vas) && k < |vas|
    requires Guarded(mid.words, spaces, kernel)
    ensures Guarded(SetUserPageFlags(mid, pd, vas[k], flags).0.words, spaces, kernel)
  {
    assert UserVa(vas[k]) && Spaces(mid, spaces);
    hide Reflagged, ListOk, Spaces, AllStand, SetUserPageFlags;
    FlagsStandAll(mid, spaces, pd, kernel, vas[k], flags);
  }

  lemma AbandonStands(ph0: Phys, spaces: set<nat>, cpd: nat, mid: Phys, ptes: seq<Pte>, kernel: seq<Table>)
    requires ShareFrames(ph0, spaces, cpd, mid, ptes) && cpd !in spaces && Shape(mid.fr)
    requires Guarded(mid.words, spaces + {cpd}, kernel)
    ensures Guarded(Abandon(mid, ptes, cpd).words, spaces, kernel)
  {
    hide AllStand, ShareFrames, Spaces, DestroySpace, Lent;
    ReleaseKeepsSpaces(ph0, spaces, cpd, mid, ptes);
    DestroyStandsAll(mid.(fr := ReleaseUpTo(mid.fr, ptes, |ptes|)), spaces + {cpd}, cpd, kernel);
    assert spaces + {cpd} - {cpd} == spaces;
  }

  lemma MarkStarts(sys: Sys, p: nat, cpd: nat, sh: Sharing)
    requires Ok(sys) && p < |sys.slots| && sys.slots[p].User? && |sh.ptes| == |sys.slots[p].vas|
    requires ShareInv(sys.ph, SpacesOf(sys.slots), sys.slots[p].pd, cpd, sys.slots[p].vas, sh.ph, sh.ptes)
    ensures var slot := sys.slots[p]; var all := SpacesOf(sys.slots) + {cpd};
      && ListOk(slot.vas) && Reflagged(sh.ph, sh.ph, all, slot.pd, slot.vas, sh.ptes, sh.ptes)
      && ShareFrames(sys.ph, SpacesOf(sys.slots), cpd, sh.ph, sh.ptes) && slot.pd in SpacesOf(sys.slots)
  {
    hide SpaceFrames, Lent, Inv, Apart, Lookup, Tables, Blocks;
    var slot := sys.slots[p];
    assert SlotShape(slot);
    assert forall k :: 0 <= k < |slot.vas| ==> UserVa(slot.vas[k]);
    ReflagStart(sh.ph, SpacesOf(sys.slots) + {cpd}, slot.pd, slot.vas, sh.ptes);
  }

  /** The last part of a fork, whether it succeeds or is taken back. */
  lemma FinishStands(sys: Sys, p: nat, c: nat, cpd: nat, sh: Sharing)
    requires Ok(sys) && p < |sys.slots| && sys.slots[p].User? && cpd !in SpacesOf(sys.slots) && X.ListsHigh(sys.slots)
    requires c < |sys.slots| && sys.slots[c].Unused? && |sh.ptes| == |sys.slots[p].vas| && PhysOk(sh.ph)
    requires ShareInv(sys.ph, SpacesOf(sys.slots), sys.slots[p].pd, cpd, sys.slots[p].vas, sh.ph, sh.ptes)
    requires Guarded(sh.ph.words, SpacesOf(sys.slots) + {cpd}, sys.kernel)
    ensures X.Supervised(FinishFork(sys, p, c, cpd, sh).0)
  {
    hide Ok, ShareInv, Abandon, Reflagged, MarkUpTo, RestoreUpTo, Guarded, High, ListOk, ShareFrames, Valid, PhysOk;
    hide AllocRun;
    var slot, spaces := sys.slots[p], SpacesOf(sys.slots);
    MarkStarts(sys, p, cpd, sh);
    ForkMarked(sys, p, cpd, sh);
    MarkStandsUpTo(sh.ph, spaces + {cpd}, slot.pd, slot.vas, sh.ptes, |slot.vas|, sys.kernel);
    var mk := MarkUpTo(sh.ph, slot.pd, slot.vas, sh.ptes, |slot.vas|);
    var mid := RestoreUpTo(mk.ph, slot.pd, slot.vas, sh.ptes, mk.cowed);
    RestoreStarts(sys, p, sh.ph, mk.ph, spaces + {cpd}, sh.ptes, mk.cowed);
    RestoreStands(sh.ph, mk.ph, spaces + {cpd}, slot.pd, slot.vas, sh.ptes, mk.cowed, sys.kernel);
    RestoreLoop(sh.ph, mk.ph, spaces + {cpd}, slot.pd, slot.vas, sh.ptes, mk.cowed);
    ReflaggedFrames(sys.ph, spaces, cpd, sh.ph, mid, slot.pd, slot.vas, sh.ptes, RestoredPtes(sh.ptes, mk.cowed));
    AbandonStands(sys.ph, spaces, cpd, mid, sh.ptes, sys.kernel);
    var (sys', r) := FinishFork(sys, p, c, cpd, sh);
    if r.Some? { SpacesOfAdd(sys.slots, c, sys'.slots[c]); }
  }

  lemma ForkStands(sys: Sys, p: nat)
    requires Ok(sys) && PhysOk(sys.ph) && |sys.kernel| == 4 && p < |sys.slots| && X.Supervised(sys)
    ensures X.Supervised(ForkProcess(sys, p).0)
  {
    hide Ok, ShareInv, CreateSpace, FinishFork, Abandon, ShareUpTo, PhysOk, Guarded, ShareFrames, High, ListOk, Valid;
    var slot, spaces := sys.slots[p], SpacesOf(sys.slots);
    var (ph1, cpd) := CreateSpace(sys.ph, sys.kernel);
    if p != 0 && slot.User? && slot.vas != [] && FreeSlot(sys.slots, 0).Some? && cpd != 0 {
      ForkStart(sys, p, ph1, cpd);
      SharedStands(sys, p, ph1, cpd);
      var sh := ShareUpTo(ph1, slot.pd, cpd, slot.vas, |slot.vas|);
      if sh.ok {
        FinishStands(sys, p, FreeSlot(sys.slots, 0).value, cpd, sh);
      } else {
        SharedFrames(sys, p, cpd, sh);
        AbandonStands(sys.ph, spaces, cpd, sh.ph, sh.ptes, sys.kernel);
      }
    }
  }

  lemma SharedFrames(sys: Sys, p: nat, cpd: nat, sh: Sharing)
    requires p < |sys.slots| && sys.slots[p].User? && PhysOk(sh.ph)
    requires ShareInv(sys.ph, SpacesOf(sys.slots), sys.slots[p].pd, cpd, sys.slots[p].vas, sh.ph, sh.ptes)
    ensures ShareFrames(sys.ph, SpacesOf(sys.slots), cpd, sh.ph, sh.ptes) && Shape(sh.ph.fr)
  {
    hide ShareFrames, ShareMaps;
  }

  lemma SharedStands(sys: Sys, p: nat, ph1: Phys, cpd: nat)
    requires Ok(sys) && X.Supervised(sys) && p < |sys.slots| && sys.slots[p].User? && PhysOk(ph1)
    requires PhysOk(sys.ph) && |sys.kernel| == 4 && (ph1, cpd) == CreateSpace(sys.ph, sys.kernel) && cpd != 0
    ensures var slot := sys.slots[p];
      Guarded(ShareUpTo(ph1, slot.pd, cpd, slot.vas, |slot.vas|).ph.words, SpacesOf(sys.slots) + {cpd}, sys.kernel)
  {
    var slot, spaces := sys.slots[p], SpacesOf(sys.slots);
    assert Spaces(sys.ph, spaces) && slot.pd in spaces && SlotShape(slot) && High(slot.vas);
    hide Ok, ShareInv, CreateSpace, PhysOk, AllStand, Spaces, AllShareable, High, ListOk;
    CreateStandsAll(sys.ph, spaces, sys.kernel);
    ShareStart(sys.ph, spaces, sys.kernel, slot.pd, slot.vas, ph1, cpd);
    ParentShareable(sys, p);
    ShareStands(sys.ph, spaces, slot.pd, cpd, slot.vas, ph1, |slot.vas|, sys.kernel);
  }

  // ---------------------------------------------------------------- stores and teardown

  lemma StoreStands(sys: Sys, p: nat, va: nat, b: byte)
    requires Ok(sys) && PhysOk(sys.ph) && p < |sys.slots| && sys.slots[p].User? && X.Supervised(sys)
    ensures X.Supervised(UserStore(sys, p, va, b).0)
  {
    var pd := sys.slots[p].pd;
    assert Spaces(sys.ph, SpacesOf(sys.slots)) && pd in SpacesOf(sys.slots);
    if Lookup(sys.ph.words, pd, va).Some? {
      assert va < USER_LIMIT;
      hide Ok, Spaces, AllStand, ResolveCow, Lookup, PhysOk, X.ListsHigh;
      ResolveStandsAll(sys.ph, SpacesOf(sys.slots), pd, sys.kernel, PageBase(va));
    }
  }

  lemma ReapStands(sys: Sys, p: nat)
    requires Ok(sys) && PhysOk(sys.ph) && 0 < p < |sys.slots| && sys.slots[p].User? && X.Supervised(sys)
    ensures X.Supervised(ReapProcess(sys, p))
  {
    var slot, spaces := sys.slots[p], SpacesOf(sys.slots);
    assert Spaces(sys.ph, spaces) && slot.pd in spaces;
    OtherSpaces(sys, p);
    hide Ok, Spaces, AllStand, PhysOk, High;
    DestroyStandsAll(sys.ph, spaces, slot.pd, sys.kernel);
    SpacesOfRemove(sys.slots, p);
    SameDestroyed(sys.ph, sys.ph.(fr := FreePages(sys.ph.fr, slot.pages, |slot.pages|)), slot.pd);
  }

  lemma SameDestroyed(s: Phys, s': Phys, pd: nat)
    requires Shape(s.fr) && Shape(s'.fr) && s'.words == s.words
    ensures DestroySpace(s', pd).words == DestroySpace(s, pd).words
  {}

  // ---------------------------------------------------------------- runs

  lemma StepStands(sys: Sys, cmd: Command, event: Event, sys': Sys)
    requires Ok(sys) && IsStep(sys, cmd, event, sys') && X.Supervised(sys)
    ensures X.Supervised(sys')
  {
    hide Ok, ForkProcess, UserStore, ReapProcess, PhysOk, X.Supervised, X.Runs, X.NothingRuns, X.CanRun, Agrees, Eager;
    hide VmOf;
    match cmd
    case DoExec(image, name) =>
    case DoFork(p) => ForkStands(sys, p);
    case DoStore(p, va, b) => StoreStands(sys, p, va, b);
    case DoReap(p) => ReapStands(sys, p);
  }

  /** From start-up on, after any run, the kernel's entries stand in the page table of every process. */
  lemma {:induction false} RunStands(states: seq<Sys>, cmds: seq<Command>, events: seq<Event>)
    requires IsRun(states, cmds, events) && NoProcesses(states[0]) && KernelTemplate(states[0].kernel)
    ensures Ok(states[|cmds|]) && X.Supervised(states[|cmds|])
    decreases |cmds|
  {
    hide Ok, IsStep, Eager, VmOf, EagerRun, X.Supervised;
    if cmds == [] {
      NoneSupervised(states[0]);
    } else {
      var n := |cmds| - 1;
      RunStands(states[..n + 1], cmds[..n], events[..n]);
      StepSimulates(states[n], cmds[n], events[n], states[n + 1]);
      StepStands(states[n], cmds[n], events[n], states[n + 1]);
    }
  }

  lemma NoneSupervised(sys: Sys)
    requires NoProcesses(sys) && KernelTemplate(sys.kernel)
    ensures Ok(sys) && X.Supervised(sys)
  {
    NoProcessesOk(sys);
    assert SpacesOf(sys.slots) == {};
    hide Ok;
  }
}
