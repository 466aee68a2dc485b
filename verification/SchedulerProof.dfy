/** What the scheduler keeps over every run, which task it picks, and how long a task can wait. */
module SchedulerProof {
  import opened Common
  import opened Scheduler

  // ---------------------------------------------------------------- the invariant

  /** A running task is the current one of the CPU it belongs to. */
  ghost predicate RunningIsCurrent(t: Sched) {
    forall i: SlotId :: t.tasks[i].state == Running ==> t.current[t.tasks[i].owner] == Some(i)
  }

  /** Slot 0 never blocks, stops or dies, and is not a thread. */
  predicate BootstrapUp(t: Sched) {
    (t.tasks[0].state == Ready || t.tasks[0].state == Running) && !t.tasks[0].isThread
  }

  ghost predicate Levelled(t: Sched) {
    forall i: SlotId :: t.tasks[i].priority < LEVELS
  }

  ghost predicate Ok(t: Sched) {
    RunningIsCurrent(t) && BootstrapUp(t) && Levelled(t)
  }

  /** No CPU has two running tasks. */
  lemma OneRunningPerCpu(t: Sched, i: SlotId, j: SlotId)
    requires Ok(t) && t.tasks[i].state == Running && t.tasks[j].state == Running && t.tasks[i].owner == t.tasks[j].owner
    ensures i == j
  {
    assert t.current[t.tasks[i].owner] == Some(i) && t.current[t.tasks[j].owner] == Some(j);
  }

  lemma BootOk()
    ensures Ok(Boot())
  {}

  /** The one way out: the bootstrap task, whose group is that of the kernel threads, joins a thread that
      has not ended yet. */
  predicate BootstrapJoins(t: Sched, s: Step) {
    match s
    case DoJoin(cpu, tid, ptr, stored) =>
      && t.current[cpu] == Some(0) && tid != 0 && ptr
      && var i := ThreadSlot(t.tasks, t.tasks[0].group, tid, 1); i.Some? && t.tasks[i.value].state != Zombie
    case _ => false
  }

  /** Replacing one task by one that is not running, or that was running already on the same CPU. */
  lemma PutOk(t: Sched, i: SlotId, task: Task)
    requires Ok(t) && task.priority < LEVELS
    requires task.state == Running ==> t.tasks[i].state == Running && task.owner == t.tasks[i].owner
    requires i == 0 ==> (task.state == Ready || task.state == Running) && !task.isThread
    ensures Ok(Put(t, i, task))
  {
    var u := Put(t, i, task);
    forall j: SlotId | u.tasks[j].state == Running ensures u.current[u.tasks[j].owner] == Some(j) {
      assert t.tasks[j].state == Running;
    }
  }

  lemma ReapOk(t: Sched, i: SlotId)
    requires Ok(t)
    ensures Ok(t.(tasks := Reap(t.tasks, i)))
  {
    if t.tasks[i].state == Zombie { PutOk(t, i, Cleared()); } else { assert t.(tasks := t.tasks) == t; }
  }

  lemma WakeParentOk(t: Sched, c: SlotId)
    requires Ok(t)
    ensures Ok(WakeParent(t, c))
  {
    var w := Awaiting(t.tasks, t.tasks[c], 1);
    if w.Some? {
      var woken := Put(t, w.value, t.tasks[w.value].(waitPid := 0, channel := 0, state := Ready));
      PutOk(t, w.value, t.tasks[w.value].(waitPid := 0, channel := 0, state := Ready));
      PutOk(woken, c, woken.tasks[c].(reapPending := true));
    }
  }

  lemma ExitOk(t: Sched, cpu: Cpu, code: nat)
    requires Ok(t)
    ensures Ok(Exit(t, cpu, code))
  {
    if t.current[cpu].Some? && t.current[cpu].value != 0 {
      var c := t.current[cpu].value;
      var gone := Put(t, c, t.tasks[c].(exitCode := code, state := Zombie));
      PutOk(t, c, t.tasks[c].(exitCode := code, state := Zombie));
      if t.tasks[c].isThread {
        var w := Joiner(gone.tasks, t.tasks[c].tid, 1);
        if w.Some? { PutOk(gone, w.value, gone.tasks[w.value].(joinTid := 0, state := Ready)); }
      } else {
        WakeParentOk(gone, c);
      }
    }
  }

  lemma SignalOk(t: Sched, pid: nat, signal: nat)
    requires Ok(t)
    ensures Ok(Signal(t, pid, signal).0)
  {
    hide Ok, FindPid, WakeParent, Put;
    var i := FindPid(t.tasks, pid, 0);
    if i.Some? && i.value != 0 {
      var p := t.tasks[i.value];
      ChangedOk(t, i.value, Killed(p, signal));
      ChangedOk(t, i.value, p.(signals := p.signals + {signal}, state := Stopped));
      ChangedOk(t, i.value,
        p.(signals := p.signals - {SIG_STOP}, state := if p.state == Stopped then Ready else p.state));
      WakeParentOk(Put(t, i.value, Killed(p, signal)), i.value);
    }
  }

  /** A task ended by a signal. */
  function Killed(p: Task, signal: nat): Task {
    p.(signals := p.signals + {signal}, exitCode := 128 + signal, state := Zombie)
  }

  /** Changing a task, but not its level and CPU, and not to make it run. */
  lemma ChangedOk(t: Sched, i: SlotId, task: Task)
    requires Ok(t) && i != 0 && task.priority == t.tasks[i].priority && task.owner == t.tasks[i].owner
    requires task.state == Running ==> t.tasks[i].state == Running
    ensures Ok(Put(t, i, task))
  {
    PutOk(t, i, task);
  }

  /** A kill signal, when no parent waits for the process. */
  lemma KillIs(t: Sched, pid: nat, i: SlotId)
    requires FindPid(t.tasks, pid, 0) == Some(i) && i != 0 && forall j: SlotId :: t.tasks[j].state != Waiting
    ensures Signal(t, pid, SIG_KILL).0 == Put(t, i, Killed(t.tasks[i], SIG_KILL))
  {
    hide FindPid, Awaiting;
    var dead := Put(t, i, Killed(t.tasks[i], SIG_KILL));
    NobodyAwaits(dead.tasks, dead.tasks[i], 1);
  }

  lemma {:induction false} NobodyAwaits(tasks: Tasks, child: Task, from: nat)
    requires from <= SLOTS && forall j: SlotId :: tasks[j].state != Waiting
    ensures Awaiting(tasks, child, from) == None
    decreases SLOTS - from
  {
    if from < SLOTS { NobodyAwaits(tasks, child, from + 1); }
  }

  lemma ChargeOk(t: Sched, cpu: Cpu)
    requires Ok(t)
    ensures Ok(Charge(t, cpu)) && Charge(t, cpu).current == t.current
    ensures forall i: SlotId ::
      Charge(t, cpu).tasks[i].state == t.tasks[i].state && Charge(t, cpu).tasks[i].owner == t.tasks[i].owner
  {}

  /** Handing a CPU over when nothing runs on it any more. */
  lemma SwitchOk(t: Sched, cpu: Cpu, n: SlotId)
    requires Ok(t) && forall i: SlotId :: t.tasks[i].state == Running ==> t.tasks[i].owner != cpu
    ensures Ok(SwitchTo(t, cpu, n))
  {}

  lemma NothingRuns(t: Sched, cpu: Cpu, i: SlotId)
    requires Ok(t) && (t.current[cpu].Some? ==> t.tasks[t.current[cpu].value].state != Running)
    ensures t.tasks[i].state == Running ==> t.tasks[i].owner != cpu
  {}

  lemma ScheduleOk(t: Sched, cpu: Cpu)
    requires Ok(t)
    ensures Ok(Schedule(t, cpu))
  {
    ChargeOk(t, cpu);
    var u := Charge(t, cpu);
    hide Charge, Pick;
    if !KeepsCpu(t, cpu) {
      var start := if t.current[cpu].Some? then t.current[cpu].value else t.cursor[cpu];
      var n := Pick(u.tasks, start, cpu, 0);
      if n.Some? { DispatchOk(u, cpu, n.value); } else { IdleOk(u, cpu); }
    }
  }

  lemma DispatchOk(t: Sched, cpu: Cpu, n: SlotId)
    requires Ok(t)
    ensures Ok(Dispatch(t, cpu, n))
  {
    hide Reap;
    var prev := t.current[cpu];
    var u := t.(cursor := t.cursor[cpu := n]);
    assert Ok(u);
    var v := u;
    if prev.Some? && u.tasks[prev.value].state == Running {
      var ready := u.tasks[prev.value].(state := Ready);
      PutOk(u, prev.value, ready);
      v := Put(u, prev.value, ready);
    }
    forall i: SlotId ensures v.tasks[i].state == Running ==> v.tasks[i].owner != cpu { NothingRuns(v, cpu, i); }
    SwitchOk(v, cpu, n);
    if prev.Some? { ReapOk(SwitchTo(v, cpu, n), prev.value); }
  }

  lemma IdleOk(t: Sched, cpu: Cpu)
    requires Ok(t)
    ensures Ok(Idle(t, cpu))
  {
    hide Reap;
    var prev := t.current[cpu];
    if prev.None? || t.tasks[prev.value].state != Running {
      forall i: SlotId ensures t.tasks[i].state == Running ==> t.tasks[i].owner != cpu { NothingRuns(t, cpu, i); }
      SwitchOk(t, cpu, 0);
      if prev.Some? {
        var none := t.(current := t.current[cpu := None]);
        assert RunningIsCurrent(none) && Ok(none);
        ReapOk(SwitchTo(t, cpu, 0), prev.value);
        ReapOk(none, prev.value);
      }
    }
  }

  /** A new task in a free slot, which is never slot 0. */
  lemma FreshOk(t: Sched, i: SlotId, task: Task)
    requires Ok(t) && t.tasks[i].state == Unused && task.state == Ready && task.priority < LEVELS
    ensures Ok(Put(t, i, task)) && i != 0
  {
    PutOk(t, i, task);
  }

  lemma CreateOk(t: Sched, cpu: Cpu, memory: bool)
    requires Ok(t)
    ensures var (u, slot) := Create(t, cpu, memory);
      && Ok(u)
      && (slot.Some? ==> u.tasks[slot.value].state == Ready && slot.value != 0 && u.tasks[slot.value].priority < LEVELS)
  {
    var slot := FreeSlot(t.tasks, 0);
    if slot.Some? && memory {
      var u := Create(t, cpu, memory).0;
      FreshOk(t, slot.value, u.tasks[slot.value]);
    }
  }

  lemma ForkOk(t: Sched, cpu: Cpu, memory: bool)
    requires Ok(t)
    ensures Ok(Fork(t, cpu, memory).0)
  {
    CreateOk(t, cpu, memory);
    hide Create, FreeSlot, Quantum, NextTid, Ok;
    if t.current[cpu].Some? && t.current[cpu].value != 0 {
      var (u, slot) := Create(t, cpu, memory);
      if slot.Some? {
        ParentLevel(u, t.current[cpu].value);
        var v := Fork(t, cpu, memory).0;
        PutOk(u, slot.value, v.tasks[slot.value]);
        SameTasks(Put(u, slot.value, v.tasks[slot.value]), v);
      }
    }
  }

  lemma ParentLevel(t: Sched, p: SlotId)
    requires Ok(t)
    ensures t.tasks[p].priority < LEVELS
  {}

  /** The invariant does not look at the counters. */
  lemma SameTasks(t: Sched, u: Sched)
    requires Ok(t) && u.tasks == t.tasks && u.current == t.current
    ensures Ok(u)
  {}

  lemma ThreadOk(t: Sched, cpu: Cpu, memory: bool)
    requires Ok(t)
    ensures Ok(KernelThread(t, cpu, memory).0) && Ok(UserThread(t, cpu, memory).0)
  {
    var slot := FreeSlot(t.tasks, 0);
    if slot.Some? && memory {
      var u := KernelThread(t, cpu, memory).0;
      FreshOk(t, slot.value, u.tasks[slot.value]);
      SameTasks(Put(t, slot.value, u.tasks[slot.value]), u);
      var v := UserThread(t, cpu, memory).0;
      if v != t {
        ParentLevel(t, t.current[cpu].value);
        FreshOk(t, slot.value, v.tasks[slot.value]);
        SameTasks(Put(t, slot.value, v.tasks[slot.value]), v);
      }
    }
  }

  lemma BlockOk(t: Sched, cpu: Cpu, x: nat, ptr: bool, stored: bool)
    requires Ok(t)
    ensures Ok(WaitPid(t, cpu, x, ptr, stored).0) && Ok(Sleep(t, cpu, x).0)
  {
    forall i: SlotId ensures Ok(t.(tasks := Reap(t.tasks, i))) { ReapOk(t, i); }
    if t.current[cpu].Some? && t.current[cpu].value != 0 {
      var c := t.current[cpu].value;
      PutOk(t, c, t.tasks[c].(waitPid := x, channel := 0, state := Waiting));
      PutOk(t, c, t.tasks[c].(channel := x, state := Waiting));
      hide Ok, Reap, ZombieChild, HasChild;
    }
  }

  lemma JoinOk(t: Sched, cpu: Cpu, tid: nat, ptr: bool, stored: bool)
    requires Ok(t)
    ensures Ok(Join(t, cpu, tid, ptr, stored).0) <==> !BootstrapJoins(t, DoJoin(cpu, tid, ptr, stored))
  {
    assert !t.tasks[0].isThread;
    if BootstrapJoins(t, DoJoin(cpu, tid, ptr, stored)) {
      assert Join(t, cpu, tid, ptr, stored).0.tasks[0].state == Waiting;
    } else {
      forall i: SlotId ensures Ok(t.(tasks := Reap(t.tasks, i))) { ReapOk(t, i); }
      if t.current[cpu].Some? && t.current[cpu].value != 0 {
        var c := t.current[cpu].value;
        PutOk(t, c, t.tasks[c].(joinTid := tid, state := Waiting));
      }
      hide Ok, Reap, ThreadSlot;
    }
  }

  /** Every operation keeps the invariant, except the bootstrap task joining a live kernel thread, which
      always breaks it. */
  lemma StepKeepsOk(t: Sched, s: Step)
    requires Ok(t)
    ensures Ok(Apply(t, s)) <==> !BootstrapJoins(t, s)
  {
    hide Schedule, Create, Fork, KernelThread, UserThread, Exit, WaitPid, Join, Sleep, Signal, Reap;
    match s
    case DoSchedule(cpu) => ScheduleOk(t, cpu);
    case DoCreate(cpu, memory) => CreateOk(t, cpu, memory);
    case DoFork(cpu, memory) => ForkOk(t, cpu, memory);
    case DoKernelThread(cpu, memory) => ThreadOk(t, cpu, memory);
    case DoUserThread(cpu, memory) => ThreadOk(t, cpu, memory);
    case DoExit(cpu, code) => ExitOk(t, cpu, code);
    case DoWaitPid(cpu, pid, ptr, stored) => BlockOk(t, cpu, pid, ptr, stored);
    case DoJoin(cpu, tid, ptr, stored) => JoinOk(t, cpu, tid, ptr, stored);
    case DoSleep(cpu, channel) => BlockOk(t, cpu, channel, false, false);
    case DoWakeup(channel) =>
    case DoSignal(pid, signal) => SignalOk(t, pid, signal);
    case DoReapPid(pid) => forall i: SlotId ensures Ok(t.(tasks := Reap(t.tasks, i))) { ReapOk(t, i); }
    case DoSetPriority(slot, priority) =>
    case DoRequest =>
  }

  /** Whatever happens after boot, in whatever order. */
  lemma {:induction false} RunKeepsOk(t: Sched, steps: seq<Step>)
    requires Ok(t)
    requires forall k :: 0 <= k < |steps| ==> !BootstrapJoins(RunSteps(t, steps[..k]), steps[k])
    ensures Ok(RunSteps(t, steps))
  {
    hide Ok, Apply, BootstrapJoins;
    if steps != [] {
      var last := |steps| - 1;
      forall k | 0 <= k < last ensures !BootstrapJoins(RunSteps(t, steps[..last][..k]), steps[..last][k]) {
        assert steps[..last][..k] == steps[..k];
      }
      RunKeepsOk(t, steps[..last]);
      StepKeepsOk(RunSteps(t, steps[..last]), steps[last]);
    }
  }

  // ---------------------------------------------------------------- the choice

  /** How many steps after `from` slot i is met: 1 for the next slot, 16 for `from` itself. */
  function Distance(from: SlotId, i: SlotId): (r: nat)
    ensures 1 <= r <= SLOTS && Around(from, r) == i
  {
    if i > from then i - from else i + SLOTS - from
  }

  lemma AroundDistance(from: SlotId, step: nat)
    requires 1 <= step <= SLOTS
    ensures Distance(from, Around(from, step)) == step
  {}

  lemma {:induction false} NearestIs(tasks: Tasks, start: SlotId, cpu: Cpu, priority: nat, step: nat)
    requires 1 <= step <= SLOTS + 1
    ensures var n := Nearest(tasks, start, cpu, priority, step);
      && (n.Some? ==> Candidate(tasks[n.value], cpu, priority) && Distance(start, n.value) >= step)
      && (forall i: SlotId :: Candidate(tasks[i], cpu, priority) && Distance(start, i) >= step ==>
            n.Some? && Distance(start, n.value) <= Distance(start, i))
    decreases SLOTS + 1 - step
  {
    if step <= SLOTS {
      AroundDistance(start, step);
      if !Candidate(tasks[Around(start, step)], cpu, priority) {
        NearestIs(tasks, start, cpu, priority, step + 1);
      }
    }
  }

  /** Slot n goes before slot i: a better level, or the same level and met first. */
  predicate Before(tasks: Tasks, start: SlotId, n: SlotId, i: SlotId) {
    tasks[n].priority < tasks[i].priority
    || (tasks[n].priority == tasks[i].priority && Distance(start, n) <= Distance(start, i))
  }

  predicate ReadyHere(task: Task, cpu: Cpu) { task.state == Ready && task.owner == cpu }

  /** The scan returns the first ready task of the best level, and nothing only when there is none. */
  lemma {:induction false} PickIsBest(tasks: Tasks, start: SlotId, cpu: Cpu, priority: nat)
    requires priority <= LEVELS
    ensures var n := Pick(tasks, start, cpu, priority);
      && (n.Some? ==> ReadyHere(tasks[n.value], cpu) && priority <= tasks[n.value].priority < LEVELS)
      && (forall i: SlotId :: ReadyHere(tasks[i], cpu) && priority <= tasks[i].priority < LEVELS ==>
            n.Some? && Before(tasks, start, n.value, i))
    decreases LEVELS - priority
  {
    if priority < LEVELS {
      NearestIs(tasks, start, cpu, priority, 1);
      PickIsBest(tasks, start, cpu, priority + 1);
      hide Distance, Nearest;
    }
  }

  function StartOf(t: Sched, cpu: Cpu): SlotId {
    if t.current[cpu].Some? then t.current[cpu].value else t.cursor[cpu]
  }

  /** A tick that ends a quantum gives the CPU to the best ready task it owns, and never leaves the CPU
      idle while there is one. */
  lemma ScheduleChooses(t: Sched, cpu: Cpu, i: SlotId)
    requires Ok(t) && !KeepsCpu(t, cpu) && ReadyHere(t.tasks[i], cpu)
    ensures var u := Schedule(t, cpu);
      && u.current[cpu].Some? && u.tasks[u.current[cpu].value].state == Running
      && u.tasks[u.current[cpu].value].owner == cpu
      && ReadyHere(t.tasks[u.current[cpu].value], cpu)
      && Before(t.tasks, StartOf(t, cpu), u.current[cpu].value, i)
  {
    hide Ok, Charge, Distance, Pick, Dispatch, Idle, KeepsCpu;
    ChargeOk(t, cpu);
    ChargeReady(t, cpu);
    var u := Charge(t, cpu);
    LevelBelow(t, i);
    PickIsBest(u.tasks, StartOf(t, cpu), cpu, 0);
    DispatchRuns(u, cpu, Pick(u.tasks, StartOf(t, cpu), cpu, 0).value);
  }

  /** Charging a tick touches no ready task. */
  lemma ChargeReady(t: Sched, cpu: Cpu)
    ensures forall k: SlotId :: t.tasks[k].state == Ready || Charge(t, cpu).tasks[k].state == Ready ==>
      Charge(t, cpu).tasks[k] == t.tasks[k]
  {}

  lemma LevelBelow(t: Sched, i: SlotId)
    requires Ok(t)
    ensures t.tasks[i].priority < LEVELS
  {}

  lemma DispatchRuns(t: Sched, cpu: Cpu, n: SlotId)
    requires ReadyHere(t.tasks[n], cpu)
    ensures var u := Dispatch(t, cpu, n);
      u.current[cpu] == Some(n) && u.tasks[n].state == Running && u.tasks[n].owner == cpu
  {}

  // ---------------------------------------------------------------- bounded waiting

  /** The tasks in S share a CPU at the lowest level: one runs, the others are ready, and nobody else on
      that CPU is ready. */
  ghost predicate Peers(t: Sched, cpu: Cpu, S: set<SlotId>) {
    && t.current[cpu].Some? && t.current[cpu].value in S
    && (forall i: SlotId :: i in S ==>
          Peer(t.tasks[i], cpu) && (t.tasks[i].state == Running <==> t.current[cpu] == Some(i)))
    && (forall i: SlotId :: i !in S ==> !ReadyHere(t.tasks[i], cpu))
  }

  predicate Peer(task: Task, cpu: Cpu) {
    && (task.state == Ready || task.state == Running)
    && task.owner == cpu && task.priority == LEVELS - 1 && task.slice <= MAX_QUANTUM
  }

  /** The members of S met between `from` and `target`, target included. */
  ghost function Ahead(S: set<SlotId>, from: SlotId, target: SlotId): set<SlotId> {
    set i | i in S && Distance(from, i) <= Distance(from, target)
  }

  /** How many ticks the running task may still take. */
  function TicksLeft(task: Task): (r: nat)
    ensures r >= 1 && (task.slice <= MAX_QUANTUM ==> r <= MAX_QUANTUM)
  {
    if task.ticks + 1 < task.slice then task.slice - task.ticks else 1
  }

  ghost function Switches(t: Sched, cpu: Cpu, S: set<SlotId>, target: SlotId): nat
    requires t.current[cpu].Some?
  {
    if t.current[cpu].value == target then 0 else |Ahead(S, t.current[cpu].value, target)|
  }

  /** A bound, in ticks of this CPU, on the time until `target` runs. */
  ghost function Wait(t: Sched, cpu: Cpu, S: set<SlotId>, target: SlotId): nat
    requires t.current[cpu].Some?
  {
    var n := Switches(t, cpu, S, target);
    if n == 0 then 0 else MAX_QUANTUM * (n - 1) + TicksLeft(t.tasks[t.current[cpu].value])
  }

  /** Seen from the next task round, everything ahead is one distance closer. */
  lemma DistanceFrom(cur: SlotId, n: SlotId, i: SlotId)
    requires Distance(cur, n) < Distance(cur, i)
    ensures Distance(n, i) == Distance(cur, i) - Distance(cur, n)
  {}

  lemma DistanceBehind(cur: SlotId, n: SlotId, i: SlotId)
    requires Distance(cur, i) <= Distance(cur, n)
    ensures Distance(n, i) == Distance(cur, i) + SLOTS - Distance(cur, n)
  {}

  /** The first member after `cur` leaves exactly itself out of what is ahead of anyone else. */
  lemma AheadShrinks(S: set<SlotId>, cur: SlotId, n: SlotId, target: SlotId)
    requires n in S && target in S && n != target
    requires forall i: SlotId :: i in S ==> Distance(cur, n) <= Distance(cur, i)
    ensures Ahead(S, n, target) == Ahead(S, cur, target) - {n}
    ensures |Ahead(S, n, target)| == |Ahead(S, cur, target)| - 1
  {
    assert Around(cur, Distance(cur, n)) == n && Around(cur, Distance(cur, target)) == target;
    DistanceFrom(cur, n, target);
    forall i: SlotId | i in S
      ensures i in Ahead(S, n, target) <==> i in Ahead(S, cur, target) && i != n
    {
      if i == n {
        DistanceBehind(cur, n, n);
      } else {
        assert Around(cur, Distance(cur, i)) == i;
        DistanceFrom(cur, n, i);
      }
    }
    assert n in Ahead(S, cur, target);
  }

  /** At most everybody but the running task is ahead. */
  lemma AheadBound(S: set<SlotId>, cur: SlotId, target: SlotId)
    requires cur in S && target != cur
    ensures |Ahead(S, cur, target)| <= |S| - 1
  {
    assert Distance(cur, cur) == SLOTS && Distance(cur, target) < SLOTS;
    assert Ahead(S, cur, target) <= S - {cur};
    Smaller(Ahead(S, cur, target), S - {cur});
  }

  lemma {:induction false} Smaller(a: set<SlotId>, b: set<SlotId>)
    requires a <= b
    ensures |a| <= |b|
  {
    if a != {} {
      var x :| x in a;
      Smaller(a - {x}, b - {x});
    }
  }

  lemma PeersSwitch(t: Sched, cpu: Cpu, S: set<SlotId>) returns (n: SlotId)
    requires Ok(t) && Peers(t, cpu, S) && !KeepsCpu(t, cpu) && exists i: SlotId :: i in S && t.current[cpu] != Some(i)
    ensures n in S && t.current[cpu] != Some(n)
    ensures forall i: SlotId :: i in S ==> Distance(t.current[cpu].value, n) <= Distance(t.current[cpu].value, i)
    ensures Schedule(t, cpu).current[cpu] == Some(n) && Peers(Schedule(t, cpu), cpu, S)
  {
    var cur := t.current[cpu].value;
    var u := Charge(t, cpu);
    ChargeOk(t, cpu);
    assert t.tasks[cur].state == Running;
    assert Peers(u, cpu, S) && u.tasks[cur].state == Running;
    assert Distance(cur, cur) == SLOTS;
    PickIsBest(u.tasks, cur, cpu, 0);
    hide Charge, Distance, Pick, Nearest, KeepsCpu, Quantum;
    var i: SlotId :| i in S && t.current[cpu] != Some(i);
    assert ReadyHere(u.tasks[i], cpu);
    n := Pick(u.tasks, cur, cpu, 0).value;
    forall j: SlotId | j in S ensures Distance(cur, n) <= Distance(cur, j) {
      if j != cur { assert ReadyHere(u.tasks[j], cpu); }
    }
    PeersDispatch(u, cpu, S, n);
  }

  lemma PeersDispatch(t: Sched, cpu: Cpu, S: set<SlotId>, n: SlotId)
    requires Peers(t, cpu, S) && n in S && t.current[cpu] != Some(n)
    ensures Dispatch(t, cpu, n).current[cpu] == Some(n) && Peers(Dispatch(t, cpu, n), cpu, S)
  {}

  lemma OnlyTarget(S: set<SlotId>, cur: SlotId, target: SlotId)
    requires target in S && forall i: SlotId :: i in S ==> Distance(cur, target) <= Distance(cur, i)
    ensures |Ahead(S, cur, target)| == 1
  {
    forall i: SlotId | i in Ahead(S, cur, target) ensures i == target {
      assert Around(cur, Distance(cur, i)) == i && Around(cur, Distance(cur, target)) == target;
    }
    assert Ahead(S, cur, target) == {target};
  }

  /** Each tick brings a waiting peer strictly closer, and a tick that switches cuts the number of
      switches still to come by exactly one. */
  lemma TickBringsCloser(t: Sched, cpu: Cpu, S: set<SlotId>, target: SlotId)
    requires Ok(t) && Peers(t, cpu, S) && target in S && t.current[cpu] != Some(target)
    ensures var u := Schedule(t, cpu);
      && Peers(u, cpu, S) && Wait(u, cpu, S, target) < Wait(t, cpu, S, target)
      && Switches(u, cpu, S, target) == Switches(t, cpu, S, target) - (if KeepsCpu(t, cpu) then 0 else 1)
  {
    var cur := t.current[cpu].value;
    assert target in Ahead(S, cur, target);
    if KeepsCpu(t, cpu) {
      var u := Charge(t, cpu);
      assert Peers(u, cpu, S);
    } else {
      var n := PeersSwitch(t, cpu, S);
      hide Schedule, KeepsCpu, Distance, Ahead, TicksLeft;
      if n != target {
        AheadShrinks(S, cur, n, target);
      } else {
        OnlyTarget(S, cur, target);
      }
    }
  }

  // ---------------------------------------------------------------- whole runs

  /** A step that is not a tick of this CPU and leaves its queue as it was. */
  ghost predicate Undisturbed(t: Sched, u: Sched, cpu: Cpu, S: set<SlotId>) {
    && u.current[cpu] == t.current[cpu]
    && (forall i: SlotId :: i in S ==> SameQueue(t.tasks[i], u.tasks[i]))
    && (forall i: SlotId :: i !in S ==> !ReadyHere(u.tasks[i], cpu))
  }

  predicate SameQueue(a: Task, b: Task) {
    a.state == b.state && a.owner == b.owner && a.priority == b.priority && a.slice == b.slice && a.ticks == b.ticks
  }

  /** A run made of ticks of this CPU and of steps that do not disturb its queue. */
  ghost predicate Quiet(t: Sched, cpu: Cpu, S: set<SlotId>, steps: seq<Step>) {
    steps == [] ||
      (var before, s := RunSteps(t, steps[..|steps| - 1]), steps[|steps| - 1];
       && Quiet(t, cpu, S, steps[..|steps| - 1])
       && (s == DoSchedule(cpu) || (!BootstrapJoins(before, s) && Undisturbed(before, Apply(before, s), cpu, S))))
  }

  function Ticks(steps: seq<Step>, cpu: Cpu): nat {
    if steps == [] then 0
    else Ticks(steps[..|steps| - 1], cpu) + (if steps[|steps| - 1] == DoSchedule(cpu) then 1 else 0)
  }

  /** The ticks of this CPU that end a quantum. */
  ghost function SwitchTicks(t: Sched, steps: seq<Step>, cpu: Cpu): nat {
    if steps == [] then 0
    else
      var last := |steps| - 1;
      SwitchTicks(t, steps[..last], cpu)
        + (if steps[last] == DoSchedule(cpu) && !KeepsCpu(RunSteps(t, steps[..last]), cpu) then 1 else 0)
  }

  /** The target had the CPU at the start or after some step. */
  predicate Ran(t: Sched, cpu: Cpu, target: SlotId, steps: seq<Step>) {
    RunSteps(t, steps).current[cpu] == Some(target) || (steps != [] && Ran(t, cpu, target, steps[..|steps| - 1]))
  }

  lemma UndisturbedKeeps(t: Sched, u: Sched, cpu: Cpu, S: set<SlotId>, target: SlotId)
    requires Peers(t, cpu, S) && Undisturbed(t, u, cpu, S)
    ensures Peers(u, cpu, S) && Wait(u, cpu, S, target) == Wait(t, cpu, S, target)
    ensures Switches(u, cpu, S, target) == Switches(t, cpu, S, target)
  {
    assert SameQueue(t.tasks[t.current[cpu].value], u.tasks[t.current[cpu].value]);
    hide Distance, Ahead;
  }

  /** As long as the target has not run, every tick has brought it closer, and every switch by one. */
  lemma {:induction false} WaitShrinks(t: Sched, cpu: Cpu, S: set<SlotId>, target: SlotId, steps: seq<Step>)
    requires Ok(t) && Peers(t, cpu, S) && target in S && Quiet(t, cpu, S, steps)
    requires steps == [] || !Ran(t, cpu, target, steps[..|steps| - 1])
    ensures var u := RunSteps(t, steps);
      && Ok(u) && Peers(u, cpu, S) && u.current[cpu].Some? && t.current[cpu].Some?
      && Wait(u, cpu, S, target) + Ticks(steps, cpu) <= Wait(t, cpu, S, target)
      && Switches(u, cpu, S, target) + SwitchTicks(t, steps, cpu) <= Switches(t, cpu, S, target)
  {
    PeersCurrent(t, cpu, S);
    PeersCurrent(RunSteps(t, steps), cpu, S);
    hide Ok, Peers, Wait, Switches, Undisturbed, BootstrapJoins, Schedule, KeepsCpu;
    if steps != [] {
      var last := |steps| - 1;
      WaitShrinks(t, cpu, S, target, steps[..last]);
      var before := RunSteps(t, steps[..last]);
      if steps[last] == DoSchedule(cpu) {
        TickBringsCloser(before, cpu, S, target);
        ScheduleOk(before, cpu);
      } else {
        StepKeepsOk(before, steps[last]);
        UndisturbedKeeps(before, Apply(before, steps[last]), cpu, S, target);
      }
    }
  }

  lemma PeersCurrent(t: Sched, cpu: Cpu, S: set<SlotId>)
    ensures Peers(t, cpu, S) ==> t.current[cpu].Some?
  {}

  /** Bounded waiting: among n peers everybody has run after n - 1 switches, and after n - 1 quanta. */
  lemma EveryPeerRuns(t: Sched, cpu: Cpu, S: set<SlotId>, target: SlotId, steps: seq<Step>)
    requires Ok(t) && Peers(t, cpu, S) && target in S && Quiet(t, cpu, S, steps)
    requires SwitchTicks(t, steps, cpu) >= |S| - 1 || Ticks(steps, cpu) >= MAX_QUANTUM * (|S| - 1)
    ensures Ran(t, cpu, target, steps)
  {
    if !Ran(t, cpu, target, steps) {
      WaitShrinks(t, cpu, S, target, steps);
      WaitBound(t, cpu, S, target);
      StillAhead(RunSteps(t, steps), cpu, S, target);
    }
  }

  lemma WaitBound(t: Sched, cpu: Cpu, S: set<SlotId>, target: SlotId)
    requires Peers(t, cpu, S)
    ensures Switches(t, cpu, S, target) <= |S| - 1 && Wait(t, cpu, S, target) <= MAX_QUANTUM * (|S| - 1)
  {
    var cur := t.current[cpu].value;
    assert Peer(t.tasks[cur], cpu);
    hide Distance, Ahead, TicksLeft;
    if cur != target {
      AheadBound(S, cur, target);
    } else {
      assert {cur} <= S;
      Smaller({cur}, S);
    }
  }

  lemma StillAhead(t: Sched, cpu: Cpu, S: set<SlotId>, target: SlotId)
    requires Peers(t, cpu, S) && target in S && t.current[cpu] != Some(target)
    ensures Switches(t, cpu, S, target) > 0 && Wait(t, cpu, S, target) > 0
  {
    assert target in Ahead(S, t.current[cpu].value, target);
  }

  /** A tick of another CPU does not disturb the queue, as long as that CPU does not hold one of its
      tasks and is not CPU 0 falling back to a member in slot 0. */
  lemma OtherCpuDoesNotDisturb(t: Sched, cpu: Cpu, other: Cpu, S: set<SlotId>)
    requires Ok(t) && Peers(t, cpu, S) && other != cpu
    requires (t.current[other].Some? ==> t.current[other].value !in S) && (other == 0 ==> 0 !in S)
    ensures Undisturbed(t, Schedule(t, other), cpu, S)
  {
    ChargeOk(t, other);
    ChargeElsewhere(t, cpu, other, S);
    var u := Charge(t, other);
    PickIsBest(u.tasks, StartOf(t, other), other, 0);
    hide Charge, Pick, Distance, Dispatch, Idle, Ok, Peers, Undisturbed, KeepsCpu, ReapIfPending, Before, Ahead;
    if !KeepsCpu(t, other) {
      var n := Pick(u.tasks, StartOf(t, other), other, 0);
      if n.Some? { OtherDispatch(u, cpu, other, S, n.value); } else { OtherIdle(u, cpu, other, S); }
      StillUndisturbed(t, u, Schedule(t, other), cpu, S);
    }
  }

  lemma ChargeElsewhere(t: Sched, cpu: Cpu, other: Cpu, S: set<SlotId>)
    requires Ok(t) && Peers(t, cpu, S) && (t.current[other].Some? ==> t.current[other].value !in S)
    ensures Peers(Charge(t, other), cpu, S) && Undisturbed(t, Charge(t, other), cpu, S)
  {}

  lemma StillUndisturbed(t: Sched, u: Sched, v: Sched, cpu: Cpu, S: set<SlotId>)
    requires Undisturbed(t, u, cpu, S) && Undisturbed(u, v, cpu, S)
    ensures Undisturbed(t, v, cpu, S)
  {}

  lemma OtherDispatch(t: Sched, cpu: Cpu, other: Cpu, S: set<SlotId>, n: SlotId)
    requires Ok(t) && Peers(t, cpu, S) && other != cpu && ReadyHere(t.tasks[n], other)
    requires t.current[other].Some? ==> t.current[other].value !in S
    ensures Undisturbed(t, Dispatch(t, other, n), cpu, S)
  {
    assert n !in S;
  }

  lemma OtherIdle(t: Sched, cpu: Cpu, other: Cpu, S: set<SlotId>)
    requires Ok(t) && Peers(t, cpu, S) && other != cpu
    requires (t.current[other].Some? ==> t.current[other].value !in S) && (other == 0 ==> 0 !in S)
    ensures Undisturbed(t, Idle(t, other), cpu, S)
  {}

  // ---------------------------------------------------------------- signals

  /** Stop, then continue, makes any process ready again, even one that had already ended. */
  lemma StopContinueRevives(t: Sched, pid: nat)
    requires FindPid(t.tasks, pid, 0).Some? && FindPid(t.tasks, pid, 0).value != 0
    ensures var i := FindPid(t.tasks, pid, 0).value;
      var u := Signal(Signal(t, pid, SIG_STOP).0, pid, SIG_CONT).0;
      u.tasks[i].state == Ready && forall j: SlotId :: j != i ==> u.tasks[j] == t.tasks[j]
  {
    var i := FindPid(t.tasks, pid, 0).value;
    var stopped := Signal(t, pid, SIG_STOP).0;
    FirstPid(stopped.tasks, pid, i, 0);
  }

  lemma {:induction false} FirstPid(tasks: Tasks, pid: nat, i: SlotId, from: nat)
    requires from <= i && tasks[i].state != Unused && tasks[i].pid == pid
    requires forall j: SlotId :: from <= j < i ==> tasks[j].state == Unused || tasks[j].pid != pid
    ensures FindPid(tasks, pid, from) == Some(i)
    decreases i - from
  {
    if from < i { FirstPid(tasks, pid, i, from + 1); }
  }
}
