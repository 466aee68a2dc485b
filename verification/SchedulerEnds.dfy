/** When an ended process stays ended (src/process.c): exactly which steps bring a zombie back, and runs
    that do. */
module SchedulerEnds {
  import opened Common
  import opened Scheduler
  import opened SchedulerProof

  predicate Ended(task: Task) { task.state == Zombie || task.state == Unused }

  /** The task is current on this CPU and its call blocks: nothing in the call looks at its state. */
  predicate Blocks(t: Sched, s: Step, i: SlotId) {
    match s
    case DoSleep(cpu, channel) => t.current[cpu] == Some(i) && channel != 0
    case DoWaitPid(cpu, pid, ptr, stored) =>
      && t.current[cpu] == Some(i) && ptr
      && ZombieChild(t.tasks, t.tasks[i].pid, pid, 1).None? && HasChild(t.tasks, t.tasks[i].pid, pid)
    case DoJoin(cpu, tid, ptr, stored) =>
      && t.current[cpu] == Some(i) && ptr && tid != 0 && !t.tasks[i].isThread
      && var j := ThreadSlot(t.tasks, t.tasks[i].group, tid, 1); j.Some? && t.tasks[j.value].state != Zombie
    case _ => false
  }

  /** A stop signal to it, or a blocking call of its own CPU. */
  predicate Revives(t: Sched, s: Step, i: SlotId) {
    (s.DoSignal? && s.signal == SIG_STOP && FindPid(t.tasks, s.pid, 0) == Some(i)) || Blocks(t, s, i)
  }

  lemma BlockingCalls(t: Sched, s: Step, i: SlotId)
    ensures Blocks(t, s, i) ==> s.DoSleep? || s.DoWaitPid? || s.DoJoin?
  {}

  /** A step brings an ended process back if and only if it stops it, or is a blocking call made by the CPU
      that still has it as its current task. */
  lemma EndedIff(t: Sched, s: Step, i: SlotId)
    requires Ok(t) && t.tasks[i].state == Zombie
    ensures Ended(Apply(t, s).tasks[i]) <==> !Revives(t, s, i)
  {
    assert i != 0;
    hide Ok, Schedule, Exit, Signal, Create, Fork, KernelThread, UserThread, WaitPid, Join, Sleep, Wakeup, ReapPid;
    hide FindPid, Blocks;
    BlockingCalls(t, s, i);
    match s
    case DoSchedule(cpu) => ScheduleEnds(t, cpu, i);
    case DoExit(cpu, code) => ExitEnds(t, cpu, code, i);
    case DoSignal(pid, signal) => SignalEnds(t, pid, signal, i);
    case DoCreate(cpu, memory) => NewEnds(t, cpu, memory, i);
    case DoFork(cpu, memory) => NewEnds(t, cpu, memory, i);
    case DoKernelThread(cpu, memory) => NewEnds(t, cpu, memory, i);
    case DoUserThread(cpu, memory) => NewEnds(t, cpu, memory, i);
    case DoWaitPid(cpu, pid, ptr, stored) => WaitEnds(t, cpu, pid, ptr, stored, i);
    case DoJoin(cpu, tid, ptr, stored) => JoinEnds(t, cpu, tid, ptr, stored, i);
    case _ => OtherEnds(t, s, i);
  }

  lemma WaitEnds(t: Sched, cpu: Cpu, pid: nat, ptr: bool, stored: bool, i: SlotId)
    requires t.tasks[i].state == Zombie && i != 0
    ensures Ended(WaitPid(t, cpu, pid, ptr, stored).0.tasks[i]) <==> !Blocks(t, DoWaitPid(cpu, pid, ptr, stored), i)
  {
    hide ZombieChild, HasChild;
  }

  lemma JoinEnds(t: Sched, cpu: Cpu, tid: nat, ptr: bool, stored: bool, i: SlotId)
    requires t.tasks[i].state == Zombie
    ensures Ended(Join(t, cpu, tid, ptr, stored).0.tasks[i]) <==> !Blocks(t, DoJoin(cpu, tid, ptr, stored), i)
  {
    hide ThreadSlot;
  }

  lemma OtherEnds(t: Sched, s: Step, i: SlotId)
    requires t.tasks[i].state == Zombie && i != 0
    requires s.DoSleep? || s.DoWakeup? || s.DoReapPid? || s.DoSetPriority? || s.DoRequest?
    ensures Ended(Apply(t, s).tasks[i]) <==> !Revives(t, s, i)
  {
    hide FindPid;
  }

  lemma ScheduleEnds(t: Sched, cpu: Cpu, i: SlotId)
    requires t.tasks[i].state == Zombie && i != 0
    ensures Ended(Schedule(t, cpu).tasks[i])
  {
    var u := Charge(t, cpu);
    assert u.tasks[i].state == Zombie;
    PickIsBest(u.tasks, StartOf(t, cpu), cpu, 0);
    hide Charge, Pick, KeepsCpu, Before, Reap;
    if !KeepsCpu(t, cpu) {
      var n := Pick(u.tasks, StartOf(t, cpu), cpu, 0);
      if n.Some? { DispatchEnds(u, cpu, n.value, i); } else { IdleEnds(u, cpu, i); }
    }
  }

  lemma DispatchEnds(t: Sched, cpu: Cpu, n: SlotId, i: SlotId)
    requires t.tasks[i].state == Zombie && n != i
    ensures Ended(Dispatch(t, cpu, n).tasks[i])
  {}

  lemma IdleEnds(t: Sched, cpu: Cpu, i: SlotId)
    requires t.tasks[i].state == Zombie && i != 0
    ensures Ended(Idle(t, cpu).tasks[i])
  {}

  lemma WakeParentEnds(t: Sched, c: SlotId, i: SlotId)
    requires t.tasks[i].state == Zombie
    ensures WakeParent(t, c).tasks[i].state == Zombie
  {
    hide Awaiting;
  }

  lemma ExitEnds(t: Sched, cpu: Cpu, code: nat, i: SlotId)
    requires t.tasks[i].state == Zombie
    ensures Exit(t, cpu, code).tasks[i].state == Zombie
  {
    hide Joiner, WakeParent;
    if t.current[cpu].Some? {
      var c := t.current[cpu].value;
      WakeParentEnds(Put(t, c, t.tasks[c].(exitCode := code, state := Zombie)), c, i);
    }
  }

  lemma SignalEnds(t: Sched, pid: nat, signal: nat, i: SlotId)
    requires t.tasks[i].state == Zombie && i != 0
    ensures Ended(Signal(t, pid, signal).0.tasks[i]) <==> !(signal == SIG_STOP && FindPid(t.tasks, pid, 0) == Some(i))
  {
    hide FindPid, WakeParent;
    var j := FindPid(t.tasks, pid, 0);
    if j.Some? && (signal == SIG_KILL || signal == SIG_TERM) {
      var p := t.tasks[j.value];
      WakeParentEnds(Put(t, j.value, p.(signals := p.signals + {signal}, exitCode := 128 + signal, state := Zombie)),
        j.value, i);
    }
  }

  lemma NewEnds(t: Sched, cpu: Cpu, memory: bool, i: SlotId)
    requires t.tasks[i].state == Zombie
    ensures Create(t, cpu, memory).0.tasks[i] == t.tasks[i] && Fork(t, cpu, memory).0.tasks[i] == t.tasks[i]
    ensures KernelThread(t, cpu, memory).0.tasks[i] == t.tasks[i] && UserThread(t, cpu, memory).0.tasks[i] == t.tasks[i]
  {
    hide FreeSlot;
  }

  // ---------------------------------------------------------------- runs

  /** The slot is ended along the run, at least until it is cleared. */
  ghost predicate StaysEnded(t: Sched, steps: seq<Step>, i: SlotId)
    decreases |steps|
  {
    t.tasks[i].state == Unused
    || (t.tasks[i].state == Zombie && (steps == [] || StaysEnded(Apply(t, steps[0]), steps[1..], i)))
  }

  /** No step of the run revives it while it is a zombie, and slot 0 never joins a live kernel thread. */
  ghost predicate NeverRevived(t: Sched, steps: seq<Step>, i: SlotId)
    decreases |steps|
  {
    steps == [] || t.tasks[i].state == Unused
    || (!Revives(t, steps[0], i) && !BootstrapJoins(t, steps[0]) && NeverRevived(Apply(t, steps[0]), steps[1..], i))
  }

  /** Over any run without such a step an ended process stays ended until its slot is cleared. */
  lemma {:induction false} EndedRun(t: Sched, steps: seq<Step>, i: SlotId)
    requires Ok(t) && t.tasks[i].state == Zombie && NeverRevived(t, steps, i)
    ensures StaysEnded(t, steps, i)
    decreases |steps|
  {
    hide Ok, Apply, Revives, BootstrapJoins;
    if steps != [] {
      EndedIff(t, steps[0], i);
      StepKeepsOk(t, steps[0]);
      if Apply(t, steps[0]).tasks[i].state == Zombie { EndedRun(Apply(t, steps[0]), steps[1..], i); }
    }
  }

  // ---------------------------------------------------------------- runs from boot that break the rules

  lemma {:induction false} RunAlong(t: Sched, a: seq<Step>, s: Step)
    ensures RunSteps(t, a + [s]) == Apply(RunSteps(t, a), s)
  {
    assert (a + [s])[..|a|] == a;
  }

  /** Boot, a process, and a tick that runs it on CPU 0. */
  function OneProcess(): seq<Step> { [DoCreate(0, true)] + [DoSchedule(0)] }

  /** The bootstrap task runs, one process is ready, and there is nothing else. */
  predicate OneReady(t: Sched) {
    && t.current[0] == Some(0) && t.tasks[0].state == Running && t.tasks[0].slice == 0 && t.tasks[0].pid == 1
    && !t.tasks[0].reapPending && ReadyHere(t.tasks[1], 0) && t.tasks[1].priority == PRIORITY_DEFAULT
    && t.tasks[1].pid == 2 && forall i: SlotId :: i > 1 ==> t.tasks[i].state == Unused
  }

  lemma OneCreated()
    ensures OneReady(Apply(Boot(), DoCreate(0, true)))
  {
    assert FreeSlot(Boot().tasks, 0) == Some(1);
    hide FreeSlot;
  }

  /** The process runs, the bootstrap task is ready, and there is nothing else. */
  predicate OneRuns(t: Sched) {
    && t.current[0] == Some(1) && t.tasks[1].state == Running && t.tasks[1].pid == 2
    && t.tasks[0].pid == 1 && t.tasks[0].state == Ready && forall i: SlotId :: i > 1 ==> t.tasks[i].state == Unused
  }

  lemma FirstTick(t: Sched)
    requires OneReady(t)
    ensures OneRuns(Schedule(t, 0))
  {
    var u := Charge(t, 0);
    PickIsBest(u.tasks, 0, 0, 0);
    hide Pick;
    assert ReadyHere(u.tasks[1], 0) && forall i: SlotId :: i != 1 ==> !ReadyHere(u.tasks[i], 0);
    assert Pick(u.tasks, 0, 0, 0) == Some(1);
  }

  lemma OneProcessRuns()
    ensures OneRuns(RunSteps(Boot(), OneProcess()))
  {
    OneCreated();
    hide Boot, Create, Schedule, OneReady, OneRuns;
    FirstTick(Apply(Boot(), DoCreate(0, true)));
    RunAlong(Boot(), [], DoCreate(0, true));
    RunAlong(Boot(), [DoCreate(0, true)], DoSchedule(0));
    assert [] + [DoCreate(0, true)] == [DoCreate(0, true)];
  }

  /** Killed while it runs, it goes to sleep at its next call, and the wakeup makes it ready. */
  function SleepAfterDeath(): seq<Step> { OneProcess() + [DoSignal(2, SIG_KILL)] + [DoSleep(0, 7)] + [DoWakeup(7)] }

  lemma SleepRevives()
    ensures var dead := RunSteps(Boot(), OneProcess() + [DoSignal(2, SIG_KILL)]);
      dead.tasks[1].state == Zombie && RunSteps(Boot(), SleepAfterDeath()).tasks[1].state == Ready
  {
    OneProcessRuns();
    hide OneProcess, RunSteps, Boot;
    var t := RunSteps(Boot(), OneProcess());
    RunAlong(Boot(), OneProcess(), DoSignal(2, SIG_KILL));
    RunAlong(Boot(), OneProcess() + [DoSignal(2, SIG_KILL)], DoSleep(0, 7));
    RunAlong(Boot(), OneProcess() + [DoSignal(2, SIG_KILL)] + [DoSleep(0, 7)], DoWakeup(7));
    KillOne(t);
  }

  lemma KillOne(t: Sched)
    requires OneRuns(t)
    ensures var k := Apply(t, DoSignal(2, SIG_KILL));
      && k.tasks[1].state == Zombie && k.current == t.current && k.tasks[1].pid == 2 && k.tasks[0].pid == 1
  {
    hide FindPid, Signal, OneRuns;
    OnePid(t);
    FirstPid(t.tasks, 2, 1, 0);
    KillIs(t, 2, 1);
  }

  lemma OnePid(t: Sched)
    requires OneRuns(t)
    ensures t.tasks[1].pid == 2 && t.tasks[1].state == Running && t.tasks[0].pid == 1
    ensures forall i: SlotId :: t.tasks[i].state != Waiting
  {}

  /** Stop and continue bring it back as well. */
  function StopAfterDeath(): seq<Step> {
    OneProcess() + [DoSignal(2, SIG_KILL)] + [DoSignal(2, SIG_STOP)] + [DoSignal(2, SIG_CONT)]
  }

  lemma StopRevives()
    ensures var dead := RunSteps(Boot(), OneProcess() + [DoSignal(2, SIG_KILL)]);
      dead.tasks[1].state == Zombie && RunSteps(Boot(), StopAfterDeath()).tasks[1].state == Ready
  {
    OneProcessRuns();
    hide OneProcess, RunSteps, Boot;
    var t := RunSteps(Boot(), OneProcess());
    RunAlong(Boot(), OneProcess(), DoSignal(2, SIG_KILL));
    RunAlong(Boot(), OneProcess() + [DoSignal(2, SIG_KILL)], DoSignal(2, SIG_STOP));
    RunAlong(Boot(), OneProcess() + [DoSignal(2, SIG_KILL)] + [DoSignal(2, SIG_STOP)], DoSignal(2, SIG_CONT));
    KillOne(t);
    var k := Apply(t, DoSignal(2, SIG_KILL));
    FirstPid(k.tasks, 2, 1, 0);
    StopContinueRevives(k, 2);
  }

  /** A kernel thread, and the bootstrap task joining it: slot 0 blocks. */
  function JoinAtBoot(): seq<Step> { [DoKernelThread(0, true)] + [DoJoin(0, 1, true, true)] }

  lemma BootstrapCanBlock()
    ensures Ok(Boot()) && RunSteps(Boot(), JoinAtBoot()).tasks[0].state == Waiting
  {
    BootOk();
    RunAlong(Boot(), [], DoKernelThread(0, true));
    RunAlong(Boot(), [DoKernelThread(0, true)], DoJoin(0, 1, true, true));
    assert [] + [DoKernelThread(0, true)] == [DoKernelThread(0, true)];
    var k := Apply(Boot(), DoKernelThread(0, true));
    assert FreeSlot(Boot().tasks, 0) == Some(1);
    assert IsThreadOf(k.tasks[1], 0, 1) && k.tasks[1].state == Ready && k.current[0] == Some(0);
    assert ThreadSlot(k.tasks, 0, 1, 1) == Some(1);
  }
}
