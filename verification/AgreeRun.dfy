/** Over whole runs of the machine, the list user_pages of a process agrees with its page table until a write
    fault of that process copies a page. */
module AgreeRun {
  import opened Common
  import opened Memory
  import opened Paging
  import opened Cow
  import opened Fork
  import opened ForkProof
  import opened ForkEnds
  import opened VmRun
  import opened SystemRun
  import X = ExecRun

  /** A store whose write fault copies the page: it is copy-on-write, shared, and a frame is free. */
  ghost predicate Copies(sys: Sys, p: nat, va: nat)
    requires PhysOk(sys.ph) && p < |sys.slots| && sys.slots[p].User?
  {
    var l := Lookup(sys.ph.words, sys.slots[p].pd, va);
    && l.Some? && !l.value.flags.writable && l.value.flags.cow && l.value.frame < MAX_PAGES
    && sys.ph.fr.refs[l.value.frame] > 1 && AllocRun(sys.ph.fr, 1).1 != 0
  }

  /** The frames a process maps decide, not the flags. */
  lemma SameTallies(sys: Sys, sys': Sys, i: nat)
    requires i < |sys.slots| == |sys'.slots| && sys'.slots[i] == sys.slots[i]
    requires forall f: nat ::
      Count(Views(sys'.ph.words, sys'.slots)[i], f) == Count(Views(sys.ph.words, sys.slots)[i], f)
    ensures Agrees(sys', i) == Agrees(sys, i)
  {
    hide Views;
  }

  // ---------------------------------------------------------------- stores

  /** A store of p leaves every list as good as it was, except that of p exactly when it copies. */
  lemma StoreAgrees(sys: Sys, p: nat, va: nat, b: byte, i: nat)
    requires Ok(sys) && PhysOk(sys.ph) && p < |sys.slots| && sys.slots[p].User? && Agrees(sys, i)
    ensures var sys' := UserStore(sys, p, va, b).0; Agrees(sys', i) <==> !(i == p && Copies(sys, p, va))
  {
    hide Ok, ResolveCow, Lookup, Agrees, AllocRun, PhysOk, Valid, PageBase, PteAt;
    PhysFrames(sys);
    var l := Lookup(sys.ph.words, sys.slots[p].pd, va);
    if l.Some? && !l.value.flags.writable {
      FaultingStore(sys, p, va, b, i);
    } else {
      OtherBytes(sys, UserStore(sys, p, va, b).0, i);
    }
  }

  lemma FaultingStore(sys: Sys, p: nat, va: nat, b: byte, i: nat)
    requires Ok(sys) && PhysOk(sys.ph) && p < |sys.slots| && sys.slots[p].User? && Agrees(sys, i)
    requires var l := Lookup(sys.ph.words, sys.slots[p].pd, va); l.Some? && !l.value.flags.writable
    ensures var sys' := UserStore(sys, p, va, b).0; Agrees(sys', i) <==> !(i == p && Copies(sys, p, va))
  {
    hide Ok, ResolveCow, Lookup, Agrees, AllocRun, PhysOk, Valid, PageBase, PteAt;
    PhysFrames(sys);
    var pd := sys.slots[p].pd;
    UserHalf(sys.ph.words, pd, va);
    var e := Lookup(sys.ph.words, pd, va).value;
    var k := ListedPage(sys, p, va);
    PageBaseOf(va);
    SameLookup(sys.ph.words, pd, va);
    if e.flags.cow {
      FaultAgrees(sys, p, k, e, i);
    } else {
      ResolveRefuses(sys.ph, pd, PageBase(va));
    }
    OtherBytes(sys.(ph := ResolveCow(sys.ph, pd, PageBase(va)).0), UserStore(sys, p, va, b).0, i);
  }

  lemma FaultAgrees(sys: Sys, p: nat, k: nat, e: Pte, i: nat)
    requires Ok(sys) && p < |sys.slots| && sys.slots[p].User? && k < |sys.slots[p].vas| && Agrees(sys, i)
    requires PhysOk(sys.ph) && Lookup(sys.ph.words, sys.slots[p].pd, sys.slots[p].vas[k]) == Some(e) && e.flags.cow
    ensures e.frame < MAX_PAGES
    ensures var (ph, ok) := ResolveCow(sys.ph, sys.slots[p].pd, sys.slots[p].vas[k]);
      && (Agrees(sys.(ph := ph), i) <==> !(i == p && sys.ph.fr.refs[e.frame] > 1 && AllocRun(sys.ph.fr, 1).1 != 0))
      && (!ok ==> ph == sys.ph)
  {
    hide Ok, ResolveCow, Lookup, AllocRun, Agrees, PhysOk, Repointed, Valid;
    FrameFacts(sys, i);
    ResolveRepoints(sys, p, k, e);
    var (ph, ok) := ResolveCow(sys.ph, sys.slots[p].pd, sys.slots[p].vas[k]);
    if i == p && sys.ph.fr.refs[e.frame] > 1 && AllocRun(sys.ph.fr, 1).1 != 0 {
      CopyBreaksAgreement(sys, p, k, e);
    } else if ok {
      RepointedTallies(sys, ph, p, k, ResolvedPte(sys.ph.fr, e), e, i);
    }
  }

  lemma FrameFacts(sys: Sys, i: nat)
    requires Ok(sys) && PhysOk(sys.ph) && Agrees(sys, i)
    ensures Valid(sys.ph.fr) && |sys.ph.fr.refs| == MAX_PAGES && i < |sys.slots|
  {}

  lemma RepointedTallies(sys: Sys, ph: Phys, p: nat, k: nat, e': Pte, e: Pte, i: nat)
    requires Ok(sys) && Repointed(sys, ph, p, k, e') && (i == p ==> e'.frame == e.frame) && i < |sys.slots|
    requires p < |sys.slots| && sys.slots[p].User? && k < |sys.slots[p].vas|
    requires Lookup(sys.ph.words, sys.slots[p].pd, sys.slots[p].vas[k]) == Some(e)
    ensures Agrees(sys.(ph := ph), i) == Agrees(sys, i)
  {
    hide Ok, Lookup, Agrees, Repointed, Views;
    RepointedViews(sys, ph, p, k, e');
    ListedFrame(sys, p, k);
    var m: seq<Mapping> := Views(sys.ph.words, sys.slots)[p];
    forall f: nat ensures Count(Views(ph.words, sys.slots)[i], f) == Count(Views(sys.ph.words, sys.slots)[i], f) {
      if i == p { CountUpdate(m, k, m[k].(pte := e'), f); }
    }
    SameTallies(sys, sys.(ph := ph), i);
  }

  // ---------------------------------------------------------------- the other commands

  lemma ForkAgrees(sys: Sys, p: nat, i: nat)
    requires Ok(sys) && PhysOk(sys.ph) && |sys.kernel| == 4 && p < |sys.slots| && Agrees(sys, i)
    ensures Agrees(ForkProcess(sys, p).0, i)
  {
    var (sys', c) := ForkProcess(sys, p);
    if c.Some? {
      ForkedAgree(sys, p, i);
    } else {
      ForkCorrect(sys, p);
      hide Ok, ForkProcess, PhysOk, ForkSucceeded, Eager;
      if sys' != sys { UndoneAgrees(sys, sys', p, i); }
    }
  }

  lemma UndoneAgrees(sys: Sys, sys': Sys, p: nat, i: nat)
    requires ForkUndone(sys, sys', p) && Agrees(sys, i)
    ensures Agrees(sys', i)
  {
    hide Agrees, Views;
    AgreesSlot(sys, i);
    var m: seq<Mapping>, m': seq<Mapping> := Views(sys.ph.words, sys.slots)[i], Views(sys'.ph.words, sys'.slots)[i];
    forall f: nat ensures Count(m', f) == Count(m, f) { SameFramesCount(m, m', f); }
    SameTallies(sys, sys', i);
  }

  lemma SameViewAgrees(sys: Sys, sys': Sys, i: nat)
    requires Agrees(sys, i) && i < |sys'.slots| && sys'.slots[i] == sys.slots[i] && |sys'.slots| == |sys.slots|
    requires i < |sys.slots| && Views(sys'.ph.words, sys'.slots)[i] == Views(sys.ph.words, sys.slots)[i]
    ensures Agrees(sys', i)
  {
    hide Views;
  }

  lemma ReapAgrees(sys: Sys, p: nat, i: nat)
    requires Ok(sys) && PhysOk(sys.ph) && Agrees(sys, p) && 0 < p < |sys.slots| && Agrees(sys, i) && i != p
    requires sys.slots[p].User?
    ensures Agrees(ReapProcess(sys, p), i)
  {
    ReapViews(sys, p, ReapProcess(sys, p));
    assert ReapProcess(sys, p).slots == sys.slots[p := Unused];
    AgreesSlot(sys, i);
    hide Ok, ReapProcess, Agrees, Views, PhysOk;
    SameViewAgrees(sys, ReapProcess(sys, p), i);
  }

  /** Starting a program: the new list agrees, and so does every other that did. */
  lemma ExecAgrees(sys: Sys, m: X.E.Image, name: seq<byte>, sys': Sys, c: nat, i: nat)
    requires X.Runs(sys, m, name, sys', c) && (i == c || Agrees(sys, i))
    ensures Agrees(sys', i)
  {
    hide Ok, X.L.AllSane, X.E.Loadable, X.X.LoadedAt, ReapProcess, Eager, Agrees, Views;
    if i != c {
      AgreesSlot(sys, i);
      SameViewAgrees(sys, sys', i);
    }
  }

  // ---------------------------------------------------------------- steps and runs

  /** The command is a store of process i that copies. */
  ghost predicate CopiesBy(sys: Sys, cmd: Command, i: nat) {
    && cmd.DoStore? && cmd.p == i && PhysOk(sys.ph) && i < |sys.slots| && sys.slots[i].User?
    && Copies(sys, i, cmd.va)
  }

  /** A list that agrees still does after a step if and only if the step is not a store of its process that
      copies. */
  lemma StepAgrees(sys: Sys, cmd: Command, event: Event, sys': Sys, i: nat)
    requires Ok(sys) && IsStep(sys, cmd, event, sys') && Agrees(sys, i)
    requires i < |sys'.slots| && sys'.slots[i].User?
    ensures Agrees(sys', i) <==> !CopiesBy(sys, cmd, i)
  {
    AgreesSlot(sys, i);
    hide Ok, ForkProcess, UserStore, ReapProcess, Eager, VmOf, Agrees, PhysOk, X.Runs, X.NothingRuns, X.CanRun, Copies;
    hide X.Supervised;
    match cmd
    case DoExec(image, name) =>
      if event.Started? { ExecAgrees(sys, image, name, sys', event.c, i); } else { NothingAgrees(sys, sys', i); }
    case DoFork(p) => ForkAgrees(sys, p, i);
    case DoStore(p, va, b) => StoreAgrees(sys, p, va, b, i);
    case DoReap(p) =>
      ReapedSlot(sys, p);
      ReapAgrees(sys, p, i);
  }

  lemma ReapedSlot(sys: Sys, p: nat)
    requires PhysOk(sys.ph) && p < |sys.slots| && sys.slots[p].User?
    ensures Shape(sys.ph.fr) && ReapProcess(sys, p).slots == sys.slots[p := Unused]
  {}

  lemma NothingAgrees(sys: Sys, sys': Sys, i: nat)
    requires X.NothingRuns(sys, sys') && Agrees(sys, i)
    ensures Agrees(sys', i)
  {
    hide Ok, Eager, Agrees, Views;
    AgreesSlot(sys, i);
    SameViewAgrees(sys, sys', i);
  }

  /** The list of a process that a step has made agrees. */
  lemma NewAgrees(sys: Sys, cmd: Command, event: Event, sys': Sys, i: nat)
    requires Ok(sys) && IsStep(sys, cmd, event, sys') && i < |sys.slots| == |sys'.slots|
    requires !sys.slots[i].User? && sys'.slots[i].User?
    ensures Agrees(sys', i)
  {
    hide Ok, ForkProcess, UserStore, ReapProcess, Eager, VmOf, Agrees, PhysOk, X.CanRun, Copies, X.Supervised;
    hide X.Runs, X.NothingRuns, IsExec, Valid, ForkSucceeded;
    PhysFrames(sys);
    match cmd
    case DoExec(image, name) =>
      StartedSlot(sys, image, name, event, sys', i);
      ExecAgrees(sys, image, name, sys', event.c, i);
    case DoFork(p) =>
      ForkedSlot(sys, p, i);
      ForkedAgree(sys, p, i);
    case DoStore(p, va, b) => StoredSlots(sys, p, va, b);
    case DoReap(p) => ReapedSlot(sys, p);
  }

  lemma StartedSlot(sys: Sys, image: X.E.Image, name: seq<byte>, event: Event, sys': Sys, i: nat)
    requires Valid(sys.ph.fr) && IsExec(sys, image, name, event, sys') && i < |sys.slots| == |sys'.slots|
    requires !sys.slots[i].User? && sys'.slots[i].User?
    ensures event.Started? && event.c == i && X.Runs(sys, image, name, sys', i)
  {
    hide Ok, X.L.AllSane, X.E.Loadable, X.X.LoadedAt, ReapProcess, Eager, Agrees, Views, Valid, X.CanRun, X.Supervised;
  }

  lemma PhysFrames(sys: Sys)
    requires Ok(sys)
    ensures PhysOk(sys.ph) && Valid(sys.ph.fr)
  {}

  lemma ForkedSlot(sys: Sys, p: nat, i: nat)
    requires Ok(sys) && PhysOk(sys.ph) && |sys.kernel| == 4 && p < |sys.slots| && i < |sys.slots|
    requires i < |ForkProcess(sys, p).0.slots| && !sys.slots[i].User? && ForkProcess(sys, p).0.slots[i].User?
    ensures ForkProcess(sys, p).1 == Some(i)
  {
    hide Ok, ForkProcess, PhysOk, Eager, Views, VmOf, ForkUndone, ForkSucceeded, ForkOutcome;
    ForkCorrect(sys, p);
    ForkSlots(sys, p, ForkProcess(sys, p));
  }

  lemma ForkSlots(sys: Sys, p: nat, r: (Sys, Option<nat>))
    requires ForkOutcome(sys, p, r)
    ensures match r.1
      case None => r.0.slots == sys.slots
      case Some(c) => c < |sys.slots| && |r.0.slots| == |sys.slots| && r.0.slots == sys.slots[c := r.0.slots[c]]
  {
    hide Ok, Eager, Views, EntriesOf;
  }

  lemma StoredSlots(sys: Sys, p: nat, va: nat, b: byte)
    requires PhysOk(sys.ph) && p < |sys.slots|
    ensures UserStore(sys, p, va, b).0.slots == sys.slots
  {
    hide ResolveCow, Lookup;
  }

  lemma SlotCount(sys: Sys)
    requires Ok(sys)
    ensures |sys.slots| == MAX_PROCESSES
  {}

  /** From start-up on, after any run: the list of every process that has not itself made a store that copied
      agrees with its page table, so it may be reaped. */
  lemma {:induction false} RunAgrees(states: seq<Sys>, cmds: seq<Command>, events: seq<Event>, i: nat)
    requires IsRun(states, cmds, events) && NoProcesses(states[0]) && i < MAX_PROCESSES
    requires forall k :: 0 <= k < |cmds| ==> !CopiesBy(states[k], cmds[k], i)
    ensures var u := states[|cmds|]; Ok(u) && |u.slots| == MAX_PROCESSES && (u.slots[i].User? ==> Agrees(u, i))
    decreases |cmds|
  {
    hide Ok, IsStep, Eager, VmOf, EagerRun, Agrees, CopiesBy;
    if cmds == [] {
      NoProcessesOk(states[0]);
      SlotCount(states[0]);
    } else {
      var n := |cmds| - 1;
      RunAgrees(states[..n + 1], cmds[..n], events[..n], i);
      StepSimulates(states[n], cmds[n], events[n], states[n + 1]);
      SlotCount(states[n + 1]);
      if states[n + 1].slots[i].User? {
        if states[n].slots[i].User? {
          StepAgrees(states[n], cmds[n], events[n], states[n + 1], i);
        } else {
          NewAgrees(states[n], cmds[n], events[n], states[n + 1], i);
        }
      }
    }
  }
}
