/** Whether a task can be current on two CPUs at once (src/process.c): exactly which steps keep that from
    happening, and a run in which it happens. */
module SchedulerCurrent {
  import opened Common
  import opened Scheduler
  import opened SchedulerProof
  import opened SchedulerEnds

  /** No slot is current on two CPUs. */
  ghost predicate OneEach(t: Sched) {
    forall c: Cpu, d: Cpu :: c != d && t.current[c].Some? ==> t.current[c] != t.current[d]
  }

  /** The slot that has the CPU after a tick. */
  function NextOn(t: Sched, cpu: Cpu): Option<SlotId> {
    if KeepsCpu(t, cpu) then t.current[cpu]
    else
      match Pick(Charge(t, cpu).tasks, StartOf(t, cpu), cpu, 0)
      case Some(n) => Some(n)
      case None => Fallback(t, cpu)
  }

  /** With nothing ready: slot 0 on CPU 0 and nobody on another CPU, unless the current task can go on. */
  function Fallback(t: Sched, cpu: Cpu): Option<SlotId> {
    if t.current[cpu].Some? && t.tasks[t.current[cpu].value].state !in {Zombie, Stopped, Waiting} then t.current[cpu]
    else if cpu == 0 then Some(0)
    else None
  }

  predicate CurrentElsewhere(t: Sched, cpu: Cpu, i: SlotId) {
    exists d: Cpu :: d != cpu && t.current[d] == Some(i)
  }

  lemma ScheduleCurrent(t: Sched, cpu: Cpu)
    ensures Schedule(t, cpu).current == t.current[cpu := NextOn(t, cpu)]
  {
    hide Pick, KeepsCpu;
    var u := Charge(t, cpu);
    assert u.current == t.current;
    assert t.current[cpu].Some? ==> u.tasks[t.current[cpu].value].state == t.tasks[t.current[cpu].value].state;
  }

  lemma OthersKeepCurrent(t: Sched, s: Step)
    requires !s.DoSchedule?
    ensures Apply(t, s).current == t.current
  {
    hide FindPid, FreeSlot, ZombieChild, ThreadSlot, Awaiting, Joiner, HasChild, Reap;
  }

  /** A step keeps them apart if and only if it is not a tick that takes up a slot another CPU still has as
      its current one. */
  lemma OneEachIff(t: Sched, s: Step)
    requires OneEach(t)
    ensures OneEach(Apply(t, s)) <==>
      !(s.DoSchedule? && NextOn(t, s.cpu).Some? && CurrentElsewhere(t, s.cpu, NextOn(t, s.cpu).value))
  {
    hide NextOn, Schedule, Apply;
    if s.DoSchedule? {
      ScheduleCurrent(t, s.cpu);
      ApplyTick(t, s.cpu);
      var u, n := Apply(t, s), NextOn(t, s.cpu);
      if n.Some? && CurrentElsewhere(t, s.cpu, n.value) {
        var d: Cpu :| d != s.cpu && t.current[d] == n;
        assert u.current[s.cpu] == u.current[d];
      }
    } else {
      OthersKeepCurrent(t, s);
    }
  }

  lemma ApplyTick(t: Sched, cpu: Cpu)
    ensures Apply(t, DoSchedule(cpu)) == Schedule(t, cpu)
  {}

  // ---------------------------------------------------------------- slots and their owners

  /** Whatever is current on a CPU belongs to it, and slot 0 to CPU 0. */
  ghost predicate Tied(t: Sched) {
    t.tasks[0].owner == 0 && forall c: Cpu :: t.current[c].Some? ==> t.tasks[t.current[c].value].owner == c
  }

  lemma TiedApart(t: Sched)
    requires Tied(t)
    ensures OneEach(t)
  {}

  /** The slot a step makes a task in. */
  function Makes(t: Sched, s: Step): Option<SlotId> {
    match s
    case DoCreate(_, memory) => if memory then FreeSlot(t.tasks, 0) else None
    case DoKernelThread(_, memory) => if memory then FreeSlot(t.tasks, 0) else None
    case DoFork(cpu, memory) => if memory && InProcess(t, cpu) then FreeSlot(t.tasks, 0) else None
    case DoUserThread(cpu, memory) => if memory && InProcess(t, cpu) then FreeSlot(t.tasks, 0) else None
    case _ => None
  }

  predicate InProcess(t: Sched, cpu: Cpu) { t.current[cpu].Some? && t.current[cpu] != Some(0) }

  /** The slot of an ended task that a step clears; a tick clears only a slot it has just left. */
  function Clears(t: Sched, s: Step): Option<SlotId> {
    match s
    case DoReapPid(pid) => IfZombie(t, FindPid(t.tasks, pid, 0))
    case DoWaitPid(cpu, pid, ptr, stored) =>
      if InProcess(t, cpu) && ptr && stored then ZombieChild(t.tasks, t.tasks[t.current[cpu].value].pid, pid, 1)
        else None
    case DoJoin(cpu, tid, ptr, stored) =>
      if t.current[cpu].None? || t.tasks[t.current[cpu].value].isThread || tid == 0 || !ptr || !stored then None
      else IfZombie(t, ThreadSlot(t.tasks, t.tasks[t.current[cpu].value].group, tid, 1))
    case _ => None
  }

  function IfZombie(t: Sched, i: Option<SlotId>): Option<SlotId> {
    if i.Some? && t.tasks[i.value].state == Zombie then i else None
  }

  /** The step makes a task in a slot that another CPU still has as current, or clears a slot that a CPU other
      than CPU 0 has as current: nobody looks at `current` before reusing a slot. */
  predicate Unties(t: Sched, s: Step) {
    || (Makes(t, s).Some? && CurrentElsewhere(t, s.cpu, Makes(t, s).value))
    || (Clears(t, s).Some? && CurrentElsewhere(t, 0, Clears(t, s).value))
  }

  ghost predicate Owners(t: Sched, u: Sched, i: Option<SlotId>, owner: Cpu) {
    && u.current == t.current
    && forall k: SlotId :: u.tasks[k].owner == if i == Some(k) then owner else t.tasks[k].owner
  }

  /** What a step that makes a task does to the owners. */
  lemma MakesOwner(t: Sched, s: Step)
    requires s.DoCreate? || s.DoFork? || s.DoKernelThread? || s.DoUserThread?
    ensures Owners(t, Apply(t, s), Makes(t, s), s.cpu)
  {
    hide FreeSlot;
  }

  lemma ClearsOwner(t: Sched, s: Step)
    requires s.DoWaitPid? || s.DoJoin? || s.DoReapPid?
    ensures Owners(t, Apply(t, s), Clears(t, s), 0)
  {
    hide FindPid, ZombieChild, ThreadSlot, HasChild, Reap, Owners, IfZombie, WaitPid, Join;
    SameOwners(t);
    match s
    case DoReapPid(pid) => ReapOwner(t, FindPid(t.tasks, pid, 0));
    case DoWaitPid(cpu, pid, ptr, stored) => WaitOwner(t, cpu, pid, ptr, stored);
    case DoJoin(cpu, tid, ptr, stored) => JoinOwner(t, cpu, tid, ptr, stored);
  }

  lemma ReapOwner(t: Sched, i: Option<SlotId>)
    ensures i.Some? ==> Owners(t, t.(tasks := Reap(t.tasks, i.value)), IfZombie(t, i), 0)
    ensures Owners(t, t, None, 0) && (i.Some? && t.tasks[i.value].state == Zombie <==> IfZombie(t, i).Some?)
  {}

  lemma WaitOwner(t: Sched, cpu: Cpu, pid: nat, ptr: bool, stored: bool)
    ensures Owners(t, WaitPid(t, cpu, pid, ptr, stored).0, Clears(t, DoWaitPid(cpu, pid, ptr, stored)), 0)
  {
    hide ZombieChild, HasChild;
  }

  lemma JoinOwner(t: Sched, cpu: Cpu, tid: nat, ptr: bool, stored: bool)
    ensures Owners(t, Join(t, cpu, tid, ptr, stored).0, Clears(t, DoJoin(cpu, tid, ptr, stored)), 0)
  {
    hide ThreadSlot;
  }

  lemma KeepsOwner(t: Sched, s: Step)
    requires s.DoExit? || s.DoSleep? || s.DoWakeup? || s.DoSignal? || s.DoSetPriority? || s.DoRequest?
    ensures Owners(t, Apply(t, s), None, 0)
  {
    hide Exit, Signal, Wakeup;
    match s
    case DoExit(cpu, code) => ExitKeepsOwner(t, cpu, code);
    case DoSignal(pid, signal) => SignalKeepsOwner(t, pid, signal);
    case DoWakeup(channel) => WakeupKeepsOwner(t, channel);
    case _ =>
  }

  lemma WakeupKeepsOwner(t: Sched, channel: nat)
    ensures Owners(t, Wakeup(t, channel), None, 0)
  {}

  lemma WakeParentKeepsOwner(t: Sched, c: SlotId)
    ensures Owners(t, WakeParent(t, c), None, 0)
  {
    hide Awaiting;
  }

  lemma PutKeepsOwner(t: Sched, i: SlotId, task: Task)
    requires task.owner == t.tasks[i].owner
    ensures Owners(t, Put(t, i, task), None, 0)
  {}

  lemma ExitKeepsOwner(t: Sched, cpu: Cpu, code: nat)
    ensures Owners(t, Exit(t, cpu, code), None, 0)
  {
    hide WakeParent, Joiner, Put, Owners;
    SameOwners(t);
    if t.current[cpu].Some? {
      var c := t.current[cpu].value;
      var gone := Put(t, c, t.tasks[c].(exitCode := code, state := Zombie));
      PutKeepsOwner(t, c, t.tasks[c].(exitCode := code, state := Zombie));
      var w := Joiner(gone.tasks, t.tasks[c].tid, 1);
      if w.Some? {
        PutKeepsOwner(gone, w.value, gone.tasks[w.value].(joinTid := 0, state := Ready));
        OwnersTwice(t, gone, Put(gone, w.value, gone.tasks[w.value].(joinTid := 0, state := Ready)));
      }
      WakeParentKeepsOwner(gone, c);
      OwnersTwice(t, gone, WakeParent(gone, c));
    }
  }

  lemma SignalKeepsOwner(t: Sched, pid: nat, signal: nat)
    ensures Owners(t, Signal(t, pid, signal).0, None, 0)
  {
    hide WakeParent, FindPid, Put, Owners;
    SameOwners(t);
    var i := FindPid(t.tasks, pid, 0);
    if i.Some? {
      var p := t.tasks[i.value];
      PutKeepsOwner(t, i.value, Killed(p, signal));
      PutKeepsOwner(t, i.value, p.(signals := p.signals + {signal}, state := Stopped));
      PutKeepsOwner(t, i.value,
        p.(signals := p.signals - {SIG_STOP}, state := if p.state == Stopped then Ready else p.state));
      var dead := Put(t, i.value, Killed(p, signal));
      WakeParentKeepsOwner(dead, i.value);
      OwnersTwice(t, dead, WakeParent(dead, i.value));
    }
  }

  lemma SameOwners(t: Sched)
    ensures Owners(t, t, None, 0)
  {}

  lemma OwnersTwice(t: Sched, u: Sched, v: Sched)
    requires Owners(t, u, None, 0) && Owners(u, v, None, 0)
    ensures Owners(t, v, None, 0)
  {}

  /** A tick keeps everything tied. */
  lemma TickTied(t: Sched, cpu: Cpu)
    requires Ok(t) && Tied(t)
    ensures Tied(Schedule(t, cpu))
  {
    var u := Charge(t, cpu);
    ChargeTied(t, cpu);
    ChargeOk(t, cpu);
    PickIsBest(u.tasks, StartOf(t, cpu), cpu, 0);
    hide Charge, Pick, Distance, Dispatch, Idle, Ok, Tied, Before, KeepsCpu;
    var n := Pick(u.tasks, StartOf(t, cpu), cpu, 0);
    if n.Some? { DispatchTied(u, cpu, n.value); } else { IdleTied(u, cpu); }
  }

  lemma ChargeTied(t: Sched, cpu: Cpu)
    requires Tied(t)
    ensures Tied(Charge(t, cpu))
  {}

  lemma DispatchTied(t: Sched, cpu: Cpu, n: SlotId)
    requires Ok(t) && Tied(t) && ReadyHere(t.tasks[n], cpu)
    ensures Tied(Dispatch(t, cpu, n))
  {
    assert t.tasks[0].state != Zombie;
    hide Ok;
  }

  lemma IdleTied(t: Sched, cpu: Cpu)
    requires Ok(t) && Tied(t)
    ensures Tied(Idle(t, cpu))
  {
    assert t.tasks[0].state != Zombie;
    hide Ok;
  }

  /** A step keeps everything tied if and only if it does not reuse a slot that is still current. */
  lemma TiedIff(t: Sched, s: Step)
    requires Ok(t) && Tied(t)
    ensures Tied(Apply(t, s)) <==> !Unties(t, s)
  {
    SlotZero(t, s);
    hide Ok, Apply, Makes, Clears, Schedule;
    match s
    case DoSchedule(cpu) => ApplyTick(t, cpu); TickTied(t, cpu); NoneMade(t, s); NoneCleared(t, s);
    case DoCreate(_, _) => MakesOwner(t, s); NoneCleared(t, s); OwnedIff(t, Apply(t, s), Makes(t, s), s.cpu);
    case DoFork(_, _) => MakesOwner(t, s); NoneCleared(t, s); OwnedIff(t, Apply(t, s), Makes(t, s), s.cpu);
    case DoKernelThread(_, _) => MakesOwner(t, s); NoneCleared(t, s); OwnedIff(t, Apply(t, s), Makes(t, s), s.cpu);
    case DoUserThread(_, _) => MakesOwner(t, s); NoneCleared(t, s); OwnedIff(t, Apply(t, s), Makes(t, s), s.cpu);
    case DoWaitPid(_, _, _, _) => ClearsOwner(t, s); NoneMade(t, s); OwnedIff(t, Apply(t, s), Clears(t, s), 0);
    case DoJoin(_, _, _, _) => ClearsOwner(t, s); NoneMade(t, s); OwnedIff(t, Apply(t, s), Clears(t, s), 0);
    case DoReapPid(_) => ClearsOwner(t, s); NoneMade(t, s); OwnedIff(t, Apply(t, s), Clears(t, s), 0);
    case _ => KeepsOwner(t, s); NoneMade(t, s); NoneCleared(t, s); OwnedIff(t, Apply(t, s), None, 0);
  }

  lemma NoneMade(t: Sched, s: Step)
    ensures Makes(t, s).None? || s.DoCreate? || s.DoFork? || s.DoKernelThread? || s.DoUserThread?
  {}

  lemma NoneCleared(t: Sched, s: Step)
    ensures Clears(t, s).None? || s.DoWaitPid? || s.DoJoin? || s.DoReapPid?
  {}

  /** Slot 0 is neither made nor cleared. */
  lemma SlotZero(t: Sched, s: Step)
    requires Ok(t)
    ensures Makes(t, s) != Some(0) && Clears(t, s) != Some(0)
  {
    assert t.tasks[0].state != Zombie && t.tasks[0].state != Unused;
    hide Ok;
  }

  /** Giving slot i a new owner keeps everything tied unless another CPU has it as current. */
  lemma OwnedIff(t: Sched, u: Sched, i: Option<SlotId>, owner: Cpu)
    requires Tied(t) && i != Some(0) && Owners(t, u, i, owner)
    ensures Tied(u) <==> !(i.Some? && CurrentElsewhere(t, owner, i.value))
  {
    if i.Some? && CurrentElsewhere(t, owner, i.value) {
      var d: Cpu :| d != owner && t.current[d] == i;
      assert u.tasks[u.current[d].value].owner != d;
    }
  }

  // ---------------------------------------------------------------- runs

  /** No step of the run reuses a slot that is still current, and slot 0 never joins a live kernel thread. */
  ghost predicate NeverUntied(t: Sched, steps: seq<Step>)
    decreases |steps|
  {
    steps == [] || (!Unties(t, steps[0]) && !BootstrapJoins(t, steps[0]) && NeverUntied(Apply(t, steps[0]), steps[1..]))
  }

  ghost predicate ApartAlong(t: Sched, steps: seq<Step>)
    decreases |steps|
  {
    OneEach(t) && (steps == [] || ApartAlong(Apply(t, steps[0]), steps[1..]))
  }

  /** From start-up on, over any run without such a step, no task is ever current on two CPUs. */
  lemma {:induction false} RunApart(t: Sched, steps: seq<Step>)
    requires Ok(t) && Tied(t) && NeverUntied(t, steps)
    ensures ApartAlong(t, steps)
    decreases |steps|
  {
    hide Ok, Tied, OneEach, Apply, Unties, BootstrapJoins;
    TiedApart(t);
    if steps != [] {
      TiedIff(t, steps[0]);
      StepKeepsOk(t, steps[0]);
      RunApart(Apply(t, steps[0]), steps[1..]);
    }
  }

  lemma BootApart(steps: seq<Step>)
    requires NeverUntied(Boot(), steps)
    ensures ApartAlong(Boot(), steps)
  {
    BootOk();
    hide Ok, Apply, Unties, BootstrapJoins;
    RunApart(Boot(), steps);
  }

  // ---------------------------------------------------------------- a run in which it happens

  /** A process of CPU 1 is killed and reaped while it runs; CPU 0 makes another in its slot and runs it. */
  function SlotReused(): seq<Step> {
    [DoCreate(1, true)] + [DoSchedule(1)] + [DoSignal(2, SIG_KILL)] + [DoReapPid(2)] + [DoCreate(0, true)] +
    [DoSchedule(0)]
  }

  /** The bootstrap task runs on CPU 0, slot 1 is as described, and there is nothing else. */
  predicate Two(t: Sched, state: State, owner: Cpu, current: Option<SlotId>) {
    && t.current[0] == Some(0) && t.current[1] == current && t.tasks[0].state == Running
    && (current.None? ==> t.cursor[1] == 0)
    && t.tasks[0].owner == 0 && t.tasks[0].slice == 0 && t.tasks[0].pid == 1 && !t.tasks[0].reapPending
    && t.tasks[1].state == state && t.tasks[1].owner == owner && t.tasks[1].priority == PRIORITY_DEFAULT
    && (forall i: SlotId :: i > 1 ==> t.tasks[i].state == Unused)
  }

  lemma MadeOn(t: Sched, cpu: Cpu, current: Option<SlotId>)
    requires Two(t, Unused, 0, current)
    ensures Two(Apply(t, DoCreate(cpu, true)), Ready, cpu, current)
    ensures Apply(t, DoCreate(cpu, true)).tasks[1].pid == t.nextPid
  {
    assert FreeSlot(t.tasks, 0) == Some(1);
    hide FreeSlot;
  }

  lemma RunsOnOne(t: Sched)
    requires Two(t, Ready, 1, None)
    ensures Two(Schedule(t, 1), Running, 1, Some(1)) && Schedule(t, 1).tasks[1].pid == t.tasks[1].pid
  {
    PickIsBest(t.tasks, 0, 1, 0);
    hide Pick;
    assert ReadyHere(t.tasks[1], 1) && forall i: SlotId :: i != 1 ==> !ReadyHere(t.tasks[i], 1);
    assert Pick(t.tasks, 0, 1, 0) == Some(1);
  }

  lemma KilledThere(t: Sched)
    requires Two(t, Running, 1, Some(1)) && t.tasks[1].pid == 2
    ensures var u := Apply(t, DoSignal(2, SIG_KILL)); Two(u, Zombie, 1, Some(1)) && u.tasks[1].pid == 2
  {
    FirstPid(t.tasks, 2, 1, 0);
    hide FindPid, Signal;
    KillIs(t, 2, 1);
  }

  lemma ReapedThere(t: Sched)
    requires Two(t, Zombie, 1, Some(1)) && t.tasks[1].pid == 2
    ensures Two(Apply(t, DoReapPid(2)), Unused, 0, Some(1))
  {
    FirstPid(t.tasks, 2, 1, 0);
    hide FindPid;
  }

  lemma RunsOnBoth(t: Sched)
    requires Two(t, Ready, 0, Some(1))
    ensures Schedule(t, 0).current[0] == Some(1) && Schedule(t, 0).current[1] == Some(1)
    ensures Schedule(t, 0).tasks[1].state == Running
  {
    var u := Charge(t, 0);
    PickIsBest(u.tasks, 0, 0, 0);
    hide Pick;
    assert ReadyHere(u.tasks[1], 0) && forall i: SlotId :: i != 1 ==> !ReadyHere(u.tasks[i], 0);
    assert Pick(u.tasks, 0, 0, 0) == Some(1);
  }

  lemma BootIsTwo()
    ensures Two(Boot(), Unused, 0, None) && Boot().nextPid == 2
  {}

  /** From start-up: one task is running and current on two CPUs. */
  lemma CurrentTwice()
    ensures var t := RunSteps(Boot(), SlotReused());
      t.current[0] == Some(1) && t.current[1] == Some(1) && t.tasks[1].state == Running && !OneEach(t)
  {
    var a: seq<Step> := [DoCreate(1, true)];
    var b := a + [DoSchedule(1)];
    var c := b + [DoSignal(2, SIG_KILL)];
    var d := c + [DoReapPid(2)];
    var e := d + [DoCreate(0, true)];
    hide Boot, Apply, Two, Schedule, RunSteps;
    BootIsTwo();
    StartOfRun();
    MadeOn(Boot(), 1, None);
    RunAlong(Boot(), a, DoSchedule(1));
    ApplyTick(RunSteps(Boot(), a), 1);
    RunsOnOne(RunSteps(Boot(), a));
    RunAlong(Boot(), b, DoSignal(2, SIG_KILL));
    KilledThere(RunSteps(Boot(), b));
    RunAlong(Boot(), c, DoReapPid(2));
    ReapedThere(RunSteps(Boot(), c));
    RunAlong(Boot(), d, DoCreate(0, true));
    MadeOn(RunSteps(Boot(), d), 0, Some(1));
    RunAlong(Boot(), e, DoSchedule(0));
    ApplyTick(RunSteps(Boot(), e), 0);
    RunsOnBoth(RunSteps(Boot(), e));
  }

  lemma StartOfRun()
    ensures RunSteps(Boot(), [DoCreate(1, true)]) == Apply(Boot(), DoCreate(1, true))
  {
    RunAlong(Boot(), [], DoCreate(1, true));
    assert [] + [DoCreate(1, true)] == [DoCreate(1, true)];
  }
}
