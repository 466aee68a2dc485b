/** Whole runs of the machine: programs started from files, forks, user stores with their write faults,
    and processes reaped, against a machine whose fork copies every page at once. */
module SystemRun {
  import opened Common
  import opened Memory
  import opened Paging
  import opened Cow
  import opened Fork
  import opened ForkProof
  import opened VmRun
  import X = ExecRun
  import E = Elf

  // ---------------------------------------------------------------- runs

  datatype Command =
    | DoExec(image: E.Image, name: seq<byte>)
    | DoFork(p: nat)
    | DoStore(p: nat, va: nat, b: byte)
    | DoReap(p: nat)

  datatype Event =
    | Started(c: nat, pages: seq<EagerPage>)
    | ForkedInto(p: nat, c: nat)
    | Stored(p: nat, va: nat, b: byte)
    | Reaped(p: nat)
    | Nothing

  predicate UserProcess(sys: Sys, p: nat) {
    |sys.kernel| == 4 && 0 < p < |sys.slots| && sys.slots[p].User?
  }

  /** Starting a program adds a process that is the image if there is what that needs, and otherwise leaves
      everything as it was. */
  ghost predicate IsExec(sys: Sys, image: E.Image, name: seq<byte>, event: Event, sys': Sys)
    requires Valid(sys.ph.fr)
  {
    && (event.Started? <==> X.CanRun(sys, image, name))
    && sys'.kernel == sys.kernel && (X.Supervised(sys) ==> X.Supervised(sys'))
    && match event
    case Started(c, pages) =>
      && X.Runs(sys, image, name, sys', c) && |sys'.ph.bytes| == MAX_PAGES && c < |VmOf(sys').views|
      && pages == Eager(VmOf(sys'))[c] && sys'.ph.fr == X.RunTaken(sys.ph.fr, X.X.ImagePages(image))
    case Nothing => X.NothingRuns(sys, sys')
    case _ => false
  }

  /** One command, what it did, and the state after it. A reaped process must still have a list that
      agrees with its page table. */
  ghost predicate IsStep(sys: Sys, cmd: Command, event: Event, sys': Sys) {
    && PhysOk(sys.ph)
    && match cmd {
         case DoExec(image, name) => IsExec(sys, image, name, event, sys')
         case DoFork(p) => UserProcess(sys, p) &&
           var (r, c) := ForkProcess(sys, p);
           sys' == r && event == if c.Some? then ForkedInto(p, c.value) else Nothing
         case DoStore(p, va, b) => UserProcess(sys, p) &&
           var (r, ok) := UserStore(sys, p, va, b);
           sys' == r && event == if ok then Stored(p, va, b) else Nothing
         case DoReap(p) =>
           UserProcess(sys, p) && Agrees(sys, p) && sys' == ReapProcess(sys, p) && event == Reaped(p)
       }
  }

  /** exec_run_file takes such a step. */
  method ExecStep(sys: Sys, image: E.Image, name: seq<byte>) returns (sys': Sys, event: Event)
    requires Ok(sys) && 0 !in name
    ensures IsStep(sys, DoExec(image, name), event, sys')
  {
    hide Ok, X.Runs, X.NothingRuns, X.CanRun, X.Supervised, Eager, Views, IsStep;
    var r: Option<nat>;
    sys', r := X.RunFile(sys, image, name);
    event := Nothing;
    if r.Some? {
      RunsSize(sys, image, name, sys', r.value);
      var pages := Eager(VmOf(sys'));
      event := Started(r.value, pages[r.value]);
    }
    ExecEvent(sys, image, name, sys', r, event);
  }

  lemma ExecEvent(sys: Sys, image: E.Image, name: seq<byte>, sys': Sys, r: Option<nat>, event: Event)
    requires Ok(sys) && Valid(sys.ph.fr) && (r.Some? <==> X.CanRun(sys, image, name))
    requires sys'.kernel == sys.kernel && (X.Supervised(sys) ==> X.Supervised(sys'))
    requires match r {
      case Some(c) => X.Runs(sys, image, name, sys', c) && |sys'.ph.bytes| == MAX_PAGES && c < |Eager(VmOf(sys'))|
        && event == Started(c, Eager(VmOf(sys'))[c]) && sys'.ph.fr == X.RunTaken(sys.ph.fr, X.X.ImagePages(image))
      case None => X.NothingRuns(sys, sys') && event == Nothing }
    ensures IsStep(sys, DoExec(image, name), event, sys')
  {
    hide Ok, X.Runs, X.NothingRuns, X.CanRun, X.Supervised, Eager, Views, PhysOk, ForkProcess, UserStore, ReapProcess;
    hide Agrees;
    OkPhys(sys);
    if r.Some? { RunsSize(sys, image, name, sys', r.value); }
  }

  lemma OkPhys(sys: Sys)
    requires Ok(sys)
    ensures PhysOk(sys.ph)
  {}

  lemma RunsSize(sys: Sys, image: E.Image, name: seq<byte>, sys': Sys, c: nat)
    requires X.Runs(sys, image, name, sys', c)
    ensures |sys.ph.bytes| == MAX_PAGES && |sys'.ph.bytes| == MAX_PAGES && c < |VmOf(sys').views|
    ensures c < |Eager(VmOf(sys))| && c < |Eager(VmOf(sys'))|
    ensures Ok(sys') && Eager(VmOf(sys')) == Eager(VmOf(sys))[c := Eager(VmOf(sys'))[c]]
  {
    hide X.L.AllSane, E.Loadable, X.X.LoadedAt, Agrees, ReapProcess;
    EagerLength(sys);
    EagerLength(sys');
    hide Ok, Eager;
  }

  ghost predicate IsRun(states: seq<Sys>, cmds: seq<Command>, events: seq<Event>) {
    && |states| == |cmds| + 1 && |events| == |cmds|
    && forall i :: 0 <= i < |cmds| ==> IsStep(states[i], cmds[i], events[i], states[i + 1])
  }

  /** The eager machine: a program brings its own pages, fork copies every page, a store changes one page of
      one process. */
  function EagerStep(e: seq<seq<EagerPage>>, event: Event): seq<seq<EagerPage>> {
    match event
    case Started(c, pages) => if c < |e| then e[c := pages] else e
    case ForkedInto(p, c) => if p < |e| && c < |e| then e[c := e[p]] else e
    case Stored(p, va, b) => EagerStore(e, p, va, b)
    case Reaped(p) => if p < |e| then e[p := []] else e
    case Nothing => e
  }

  function EagerRun(e: seq<seq<EagerPage>>, events: seq<Event>): seq<seq<EagerPage>> {
    if events == [] then e else EagerStep(EagerRun(e, events[..|events| - 1]), events[|events| - 1])
  }

  lemma StepSimulates(sys: Sys, cmd: Command, event: Event, sys': Sys)
    requires Ok(sys) && IsStep(sys, cmd, event, sys')
    ensures Ok(sys') && Eager(VmOf(sys')) == EagerStep(Eager(VmOf(sys)), event)
  {
    hide Ok, ForkProcess, UserStore, ReapProcess, Eager, VmOf, Agrees, EagerStore, PhysOk, X.Runs, X.NothingRuns;
    hide X.CanRun, X.Supervised;
    match cmd
    case DoExec(image, name) =>
      if event.Started? {
        RunsSize(sys, image, name, sys', event.c);
      } else {
        ExecNothing(sys, sys');
      }
    case DoFork(p) =>
      ForkCorrect(sys, p);
      ForkStepSimulates(sys, p, ForkProcess(sys, p));
    case DoStore(p, va, b) =>
      StoreCorrect(sys, p, va, b);
    case DoReap(p) =>
      ReapCorrect(sys, p);
      EagerLength(sys);
  }

  lemma ExecNothing(sys: Sys, sys': Sys)
    requires X.NothingRuns(sys, sys')
    ensures Ok(sys) && Ok(sys') && |sys.ph.bytes| == MAX_PAGES && |sys'.ph.bytes| == MAX_PAGES
    ensures Eager(VmOf(sys')) == Eager(VmOf(sys))
  {
    hide Ok, Eager, VmOf;
    EagerLength(sys);
    EagerLength(sys');
  }

  lemma EagerLength(sys: Sys)
    requires Ok(sys)
    ensures |sys.ph.bytes| == MAX_PAGES && |Eager(VmOf(sys))| == |sys.slots|
  {}

  lemma ForkStepSimulates(sys: Sys, p: nat, r: (Sys, Option<nat>))
    requires ForkOutcome(sys, p, r)
    ensures Ok(r.0)
    ensures Eager(VmOf(r.0)) == EagerStep(Eager(VmOf(sys)), if r.1.Some? then ForkedInto(p, r.1.value) else Nothing)
  {
    hide Ok, Eager, VmOf, ForkUndone, EntriesOf;
    EagerLength(sys);
  }

  /** Copy-on-write isolation: after any run, every process sees exactly the bytes it would see on the
      machine that copies eagerly, and the counts and tables are still sound. */
  lemma {:induction false} RunSimulates(states: seq<Sys>, cmds: seq<Command>, events: seq<Event>)
    requires IsRun(states, cmds, events) && Ok(states[0])
    ensures Ok(states[|cmds|])
    ensures Eager(VmOf(states[|cmds|])) == EagerRun(Eager(VmOf(states[0])), events)
    decreases |cmds|
  {
    hide Ok, Eager, VmOf, EagerStep, IsStep;
    if cmds != [] {
      var n := |cmds| - 1;
      RunSimulates(states[..n + 1], cmds[..n], events[..n]);
      StepSimulates(states[n], cmds[n], events[n], states[n + 1]);
    }
  }

  // ---------------------------------------------------------------- from the start

  /** The machine before the first program: a sound allocator, and nothing but the bootstrap task. */
  ghost predicate NoProcesses(sys: Sys) {
    && PhysOk(sys.ph) && |sys.kernel| == 4 && |sys.slots| == MAX_PROCESSES && sys.slots[0].Kernel?
    && forall i :: 0 < i < |sys.slots| ==> sys.slots[i].Unused?
  }

  lemma NoProcessesOk(sys: Sys)
    requires NoProcesses(sys)
    ensures Ok(sys)
  {
    assert SpacesOf(sys.slots) == {};
    forall f: nat ensures Total(Views(sys.ph.words, sys.slots), f) == 0 {
      NobodyNames(Views(sys.ph.words, sys.slots), f);
    }
  }

  lemma {:induction false} NobodyNames(views: seq<seq<Mapping>>, f: nat)
    requires forall i :: 0 <= i < |views| ==> views[i] == []
    ensures Total(views, f) == 0
  {
    if views != [] { NobodyNames(views[..|views| - 1], f); }
  }

  /** From the first program on, whatever is started, forked, written and reaped. */
  lemma RunFromStart(states: seq<Sys>, cmds: seq<Command>, events: seq<Event>)
    requires IsRun(states, cmds, events) && NoProcesses(states[0])
    ensures Ok(states[0]) && Ok(states[|cmds|])
    ensures Eager(VmOf(states[|cmds|])) == EagerRun(Eager(VmOf(states[0])), events)
  {
    NoProcessesOk(states[0]);
    RunSimulates(states, cmds, events);
  }
}
