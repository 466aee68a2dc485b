/** The process table as the scheduler sees it (src/process.c): sixteen slots, up to sixteen CPUs, and
    every operation that changes a slot's state, as a function of the table. What happens to memory on
    the way is a boolean argument: whether memory allowed it (pages to allocate, user pages to share), and
    whether a user word could be stored. */
module Scheduler {
  import opened Common

  const SLOTS: nat := 16
  const CPUS: nat := 16
  const LEVELS: nat := 4
  const PRIORITY_DEFAULT: nat := 2
  const MAX_QUANTUM: nat := 12
  const SIG_KILL: nat := 9
  const SIG_TERM: nat := 15
  const SIG_CONT: nat := 18
  const SIG_STOP: nat := 19
  const SIG_MAX: nat := 31
  const WAIT_ANY: nat := 0

  type SlotId = x: nat | x < SLOTS
  type Cpu = x: nat | x < CPUS

  datatype State = Unused | Ready | Running | Zombie | Waiting | Stopped

  datatype Task = Task(state: State, pid: nat, parentPid: nat, exitCode: nat, waitPid: nat, channel: nat,
                       reapPending: bool, signals: set<nat>, owner: Cpu, priority: nat, base: nat,
                       slice: nat, ticks: nat, tid: nat, group: nat, isThread: bool, joinTid: nat)

  type Tasks = s: seq<Task> | |s| == SLOTS witness seq(SLOTS, _ => Cleared())

  datatype Table = Table(tasks: Tasks, current: seq<Option<SlotId>>, cursor: seq<SlotId>,
                         nextPid: nat, nextTid: nat, requested: bool)

  type Sched = t: Table | |t.current| == CPUS && |t.cursor| == CPUS witness Boot()

  function Quantum(priority: nat): nat {
    if priority == 0 then 2 else if priority == 1 then 4 else if priority == 2 then 8 else 12
  }

  /** clear_process. */
  function Cleared(): Task {
    Task(Unused, 0, 0, 0, 0, 0, false, {}, 0, PRIORITY_DEFAULT, PRIORITY_DEFAULT, 0, 0, 0, 0, false, 0)
  }

  /** process_init: slot 0 is the bootstrap task, running on CPU 0. */
  function Boot(): Table {
    Table(seq<Task>(SLOTS, _ => Cleared())[0 := Cleared().(pid := 1, state := Running)],
          seq<Option<SlotId>>(CPUS, c => if c == 0 then Some(0) else None), seq<SlotId>(CPUS, _ => 0), 2, 1, false)
  }

  function NextPid(n: nat): nat { if (n + 1) % U32 == 0 then 2 else (n + 1) % U32 }
  function NextTid(n: nat): nat { if (n + 1) % U32 == 0 then 1 else (n + 1) % U32 }

  /** Store a new value in slot i. */
  function Put(t: Sched, i: SlotId, task: Task): Sched {
    t.(tasks := t.tasks[i := task])
  }

  // ---------------------------------------------------------------- searching the table

  /** The first unused slot. */
  function FreeSlot(tasks: Tasks, from: nat): (r: Option<SlotId>)
    requires from <= SLOTS
    ensures r.Some? ==> from <= r.value && tasks[r.value].state == Unused
    ensures forall i :: from <= i < (if r.Some? then r.value else SLOTS) ==> tasks[i].state != Unused
    decreases SLOTS - from
  {
    if from == SLOTS then None else if tasks[from].state == Unused then Some(from) else FreeSlot(tasks, from + 1)
  }

  /** The first slot in use with this pid. */
  function FindPid(tasks: Tasks, pid: nat, from: nat): (r: Option<SlotId>)
    requires from <= SLOTS
    ensures r.Some? ==> from <= r.value && tasks[r.value].state != Unused && tasks[r.value].pid == pid
    ensures forall i :: from <= i < (if r.Some? then r.value else SLOTS) ==>
      tasks[i].state == Unused || tasks[i].pid != pid
    decreases SLOTS - from
  {
    if from == SLOTS then None
    else if tasks[from].state != Unused && tasks[from].pid == pid then Some(from)
    else FindPid(tasks, pid, from + 1)
  }

  predicate IsChild(task: Task, parent: nat, pid: nat) {
    task.state != Unused && task.parentPid == parent && (pid == WAIT_ANY || task.pid == pid)
  }

  function ZombieChild(tasks: Tasks, parent: nat, pid: nat, from: nat): (r: Option<SlotId>)
    requires from <= SLOTS
    ensures r.Some? ==> from <= r.value && IsChild(tasks[r.value], parent, pid) && tasks[r.value].state == Zombie
    ensures forall i :: from <= i < (if r.Some? then r.value else SLOTS) ==>
      !(IsChild(tasks[i], parent, pid) && tasks[i].state == Zombie)
    decreases SLOTS - from
  {
    if from == SLOTS then None
    else if IsChild(tasks[from], parent, pid) && tasks[from].state == Zombie then Some(from)
    else ZombieChild(tasks, parent, pid, from + 1)
  }

  predicate HasChild(tasks: Tasks, parent: nat, pid: nat) {
    exists i :: 1 <= i < SLOTS && IsChild(tasks[i], parent, pid)
  }

  /** A parent blocked in waitpid for this child. */
  predicate AwaitsChild(w: Task, child: Task) {
    w.state == Waiting && w.pid == child.parentPid && (w.waitPid == WAIT_ANY || w.waitPid == child.pid)
  }

  function Awaiting(tasks: Tasks, child: Task, from: nat): (r: Option<SlotId>)
    requires from <= SLOTS
    ensures r.Some? ==> from <= r.value && AwaitsChild(tasks[r.value], child)
    ensures forall i :: from <= i < (if r.Some? then r.value else SLOTS) ==> !AwaitsChild(tasks[i], child)
    decreases SLOTS - from
  {
    if from == SLOTS then None
    else if AwaitsChild(tasks[from], child) then Some(from)
    else Awaiting(tasks, child, from + 1)
  }

  /** A process blocked joining this thread. */
  predicate AwaitsThread(w: Task, tid: nat) {
    w.state == Waiting && !w.isThread && w.joinTid == tid
  }

  function Joiner(tasks: Tasks, tid: nat, from: nat): (r: Option<SlotId>)
    requires from <= SLOTS
    ensures r.Some? ==> from <= r.value && AwaitsThread(tasks[r.value], tid)
    ensures forall i :: from <= i < (if r.Some? then r.value else SLOTS) ==> !AwaitsThread(tasks[i], tid)
    decreases SLOTS - from
  {
    if from == SLOTS then None else if AwaitsThread(tasks[from], tid) then Some(from) else Joiner(tasks, tid, from + 1)
  }

  predicate IsThreadOf(task: Task, group: nat, tid: nat) {
    task.isThread && task.group == group && task.tid == tid
  }

  function ThreadSlot(tasks: Tasks, group: nat, tid: nat, from: nat): (r: Option<SlotId>)
    requires from <= SLOTS
    ensures r.Some? ==> from <= r.value && IsThreadOf(tasks[r.value], group, tid)
    ensures forall i :: from <= i < (if r.Some? then r.value else SLOTS) ==> !IsThreadOf(tasks[i], group, tid)
    decreases SLOTS - from
  {
    if from == SLOTS then None
    else if IsThreadOf(tasks[from], group, tid) then Some(from)
    else ThreadSlot(tasks, group, tid, from + 1)
  }

  // ---------------------------------------------------------------- making and ending tasks

  /** process_create_ex_vas_locked, once memory is there. */
  function Create(t: Sched, cpu: Cpu, memory: bool): (Sched, Option<SlotId>) {
    match FreeSlot(t.tasks, 0)
    case None => (t, None)
    case Some(i) =>
      if !memory then (t, None)
      else
        var parent := t.current[cpu];
        var task := Cleared().(state := Ready, pid := t.nextPid, tid := t.nextTid, group := t.nextPid, owner := cpu,
          parentPid := if parent.None? then 1 else if parent.value == i then t.nextPid else t.tasks[parent.value].pid,
          slice := Quantum(PRIORITY_DEFAULT));
        (Put(t, i, task).(nextPid := NextPid(t.nextPid), nextTid := NextTid(t.nextTid)), Some(i))
  }

  /** process_fork_current: the child inherits group and priority and takes a second thread id. */
  function Fork(t: Sched, cpu: Cpu, memory: bool): (Sched, Option<SlotId>) {
    match t.current[cpu]
    case None => (t, None)
    case Some(p) =>
      if p == 0 then (t, None)
      else
        var (u, slot) := Create(t, cpu, memory);
        match slot
        case None => (u, None)
        case Some(i) =>
          var parent := u.tasks[p];
          var child := u.tasks[i].(parentPid := parent.pid, tid := u.nextTid, group := parent.group, owner := cpu,
            priority := parent.priority, base := parent.base, slice := Quantum(parent.priority), ticks := 0);
          (Put(u, i, child).(nextTid := NextTid(u.nextTid)), Some(i))
  }

  /** A kernel thread: no pid, group 0, and no time slice. */
  function KernelThread(t: Sched, cpu: Cpu, memory: bool): (Sched, Option<SlotId>) {
    match FreeSlot(t.tasks, 0)
    case None => (t, None)
    case Some(i) =>
      if !memory then (t, None)
      else
        var task := Cleared().(state := Ready, tid := t.nextTid, isThread := true, owner := cpu);
        (Put(t, i, task).(nextTid := NextTid(t.nextTid)), Some(i))
  }

  /** A user thread of the current process. */
  function UserThread(t: Sched, cpu: Cpu, memory: bool): (Sched, Option<SlotId>) {
    match t.current[cpu]
    case None => (t, None)
    case Some(p) =>
      if p == 0 then (t, None)
      else
        match FreeSlot(t.tasks, 0)
        case None => (t, None)
        case Some(i) =>
          if !memory then (t, None)
          else
            var parent := if p == i then Cleared() else t.tasks[p];
            var task := Cleared().(state := Ready, tid := t.nextTid, isThread := true, owner := cpu,
              group := parent.group,
              priority := parent.priority, base := parent.base, slice := Quantum(parent.priority));
            (Put(t, i, task).(nextTid := NextTid(t.nextTid)), Some(i))
  }

  /** reap_process: only a zombie's slot is cleared. */
  function Reap(tasks: Tasks, i: SlotId): Tasks {
    if tasks[i].state != Zombie then tasks else tasks[i := Cleared()]
  }

  /** wake_waiting_parent for the task in slot c. */
  function WakeParent(t: Sched, c: SlotId): Sched {
    match Awaiting(t.tasks, t.tasks[c], 1)
    case None => t
    case Some(w) =>
      var woken := Put(t, w, t.tasks[w].(waitPid := 0, channel := 0, state := Ready));
      Put(woken, c, woken.tasks[c].(reapPending := true))
  }

  /** process_exit_current. */
  function Exit(t: Sched, cpu: Cpu, code: nat): Sched {
    match t.current[cpu]
    case None => t
    case Some(c) =>
      var gone := Put(t, c, t.tasks[c].(exitCode := code, state := Zombie));
      if t.tasks[c].isThread then
        match Joiner(gone.tasks, t.tasks[c].tid, 1)
        case None => gone
        case Some(w) => Put(gone, w, gone.tasks[w].(joinTid := 0, state := Ready))
      else if c == 0 then t
      else WakeParent(gone, c)
  }

  // ---------------------------------------------------------------- waiting and waking

  datatype Outcome = Failed | Blocked | Reaped(id: nat)

  /** process_waitpid; `ptr` says that the caller passed a status pointer, `stored` that the exit code
      could be written through it. */
  function WaitPid(t: Sched, cpu: Cpu, pid: nat, ptr: bool, stored: bool): (Sched, Outcome) {
    match t.current[cpu]
    case None => (t, Failed)
    case Some(c) =>
      if c == 0 || !ptr then (t, Failed)
      else
        match ZombieChild(t.tasks, t.tasks[c].pid, pid, 1)
        case Some(z) => if stored then (t.(tasks := Reap(t.tasks, z)), Reaped(t.tasks[z].pid)) else (t, Failed)
        case None =>
          if !HasChild(t.tasks, t.tasks[c].pid, pid) then (t, Failed)
          else (Put(t, c, t.tasks[c].(waitPid := pid, channel := 0, state := Waiting)), Blocked)
  }

  /** process_join_thread. Nothing here keeps the bootstrap task from blocking. */
  function Join(t: Sched, cpu: Cpu, tid: nat, ptr: bool, stored: bool): (Sched, Outcome) {
    match t.current[cpu]
    case None => (t, Failed)
    case Some(c) =>
      if t.tasks[c].isThread || tid == 0 || !ptr then (t, Failed)
      else
        match ThreadSlot(t.tasks, t.tasks[c].group, tid, 1)
        case None => (t, Failed)
        case Some(i) =>
          if t.tasks[i].state == Zombie then
            if stored then (t.(tasks := Reap(t.tasks, i)), Reaped(tid)) else (t, Failed)
          else (Put(t, c, t.tasks[c].(joinTid := tid, state := Waiting)), Blocked)
  }

  /** process_sleep_on. */
  function Sleep(t: Sched, cpu: Cpu, channel: nat): (Sched, Outcome) {
    match t.current[cpu]
    case None => (t, Failed)
    case Some(c) =>
      if channel == 0 || c == 0 || t.tasks[c].state == Unused then (t, Failed)
      else (Put(t, c, t.tasks[c].(channel := channel, state := Waiting)), Blocked)
  }

  function Woken(task: Task, channel: nat): Task {
    if task.state == Waiting && task.channel == channel then task.(channel := 0, state := Ready) else task
  }

  /** process_wakeup: every sleeper on the channel, but never slot 0. */
  function Wakeup(t: Sched, channel: nat): Sched {
    if channel == 0 then t
    else t.(tasks := seq(SLOTS, i requires 0 <= i < SLOTS => if i == 0 then t.tasks[0] else Woken(t.tasks[i], channel)))
  }

  /** process_signal. */
  function Signal(t: Sched, pid: nat, signal: nat): (Sched, bool) {
    match FindPid(t.tasks, pid, 0)
    case None => (t, false)
    case Some(i) =>
      var p := t.tasks[i];
      if i == 0 || signal == 0 || signal > SIG_MAX then (t, false)
      else if signal == SIG_KILL || signal == SIG_TERM then
        (WakeParent(Put(t, i, p.(signals := p.signals + {signal}, exitCode := 128 + signal, state := Zombie)), i), true)
      else if signal == SIG_STOP then
        (Put(t, i, p.(signals := p.signals + {signal}, state := Stopped)), true)
      else if signal == SIG_CONT then
        (Put(t, i, p.(signals := p.signals - {SIG_STOP}, state := if p.state == Stopped then Ready else p.state)), true)
      else (t, false)
  }

  /** process_reap_pid. */
  function ReapPid(t: Sched, pid: nat): (Sched, bool) {
    match FindPid(t.tasks, pid, 0)
    case None => (t, false)
    case Some(i) => if t.tasks[i].state != Zombie then (t, false) else (t.(tasks := Reap(t.tasks, i)), true)
  }

  function SetPriority(t: Sched, i: SlotId, priority: nat): Sched {
    if priority >= LEVELS then t
    else Put(t, i, t.tasks[i].(priority := priority, base := priority, slice := Quantum(priority), ticks := 0))
  }

  // ---------------------------------------------------------------- choosing the next task

  /** The slot `step` places after `start`, around the table. */
  function Around(start: SlotId, step: nat): SlotId { (start + step) % SLOTS }

  predicate Candidate(task: Task, cpu: Cpu, priority: nat) {
    task.state == Ready && task.owner == cpu && task.priority == priority
  }

  /** The nearest candidate of one priority, looking from `step` places after `start`. */
  function Nearest(tasks: Tasks, start: SlotId, cpu: Cpu, priority: nat, step: nat): Option<SlotId>
    requires 1 <= step <= SLOTS + 1
    decreases SLOTS + 1 - step
  {
    if step == SLOTS + 1 then None
    else if Candidate(tasks[Around(start, step)], cpu, priority) then Some(Around(start, step))
    else Nearest(tasks, start, cpu, priority, step + 1)
  }

  /** Best priority first, then nearest after `start`. */
  function Pick(tasks: Tasks, start: SlotId, cpu: Cpu, priority: nat): Option<SlotId>
    requires priority <= LEVELS
    decreases LEVELS - priority
  {
    if priority == LEVELS then None
    else
      var n := Nearest(tasks, start, cpu, priority, 1);
      if n.Some? then n else Pick(tasks, start, cpu, priority + 1)
  }

  // ---------------------------------------------------------------- the timer tick

  /** The running task still has ticks left and nobody asked for a switch. */
  predicate KeepsCpu(t: Sched, cpu: Cpu) {
    match t.current[cpu]
    case None => false
    case Some(p) => t.tasks[p].state == Running && !t.requested && t.tasks[p].ticks + 1 < t.tasks[p].slice
  }

  /** Charge the tick to the running task: count it, or start a new quantum a level lower. */
  function Charge(t: Sched, cpu: Cpu): Sched {
    match t.current[cpu]
    case None => t
    case Some(p) =>
      var task := t.tasks[p];
      if task.state != Running then t
      else if t.requested then Put(t, p, task.(ticks := 0)).(requested := false)
      else if task.ticks + 1 < task.slice then Put(t, p, task.(ticks := task.ticks + 1))
      else
        var lower := if task.priority + 1 < LEVELS then task.priority + 1 else task.priority;
        Put(t, p, task.(ticks := 0, priority := lower))
  }

  /** Give the CPU to slot n. */
  function SwitchTo(t: Sched, cpu: Cpu, n: SlotId): Sched {
    t.(tasks := t.tasks[n := t.tasks[n].(owner := cpu, state := Running)], current := t.current[cpu := Some(n)])
  }

  function ReapIfPending(t: Sched, p: SlotId): Sched {
    if t.tasks[p].reapPending then t.(tasks := Reap(t.tasks, p)) else t
  }

  /** Preempt the previous task and run n. */
  function Dispatch(t: Sched, cpu: Cpu, n: SlotId): Sched {
    var prev := t.current[cpu];
    var u := t.(cursor := t.cursor[cpu := n]);
    var v := if prev.Some? && u.tasks[prev.value].state == Running
      then Put(u, prev.value, u.tasks[prev.value].(state := Ready)) else u;
    var w := SwitchTo(v, cpu, n);
    if prev.Some? then ReapIfPending(w, prev.value) else w
  }

  /** Nothing is ready: CPU 0 falls back to slot 0, another CPU to no task at all. */
  function Idle(t: Sched, cpu: Cpu): Sched {
    match t.current[cpu]
    case Some(p) =>
      var s := t.tasks[p].state;
      if s == Zombie || s == Stopped || s == Waiting then
        if cpu == 0 then ReapIfPending(SwitchTo(t, 0, 0), p)
        else ReapIfPending(t.(current := t.current[cpu := None]), p)
      else t
    case None => if cpu == 0 then SwitchTo(t, 0, 0) else t
  }

  /** process_schedule, when the process lock is free. */
  function Schedule(t: Sched, cpu: Cpu): Sched {
    var u := Charge(t, cpu);
    if KeepsCpu(t, cpu) then u
    else
      var start := if t.current[cpu].Some? then t.current[cpu].value else t.cursor[cpu];
      match Pick(u.tasks, start, cpu, 0)
      case Some(n) => Dispatch(u, cpu, n)
      case None => Idle(u, cpu)
  }

  // ---------------------------------------------------------------- any operation

  datatype Step =
    | DoSchedule(cpu: Cpu)
    | DoCreate(cpu: Cpu, memory: bool)
    | DoFork(cpu: Cpu, memory: bool)
    | DoKernelThread(cpu: Cpu, memory: bool)
    | DoUserThread(cpu: Cpu, memory: bool)
    | DoExit(cpu: Cpu, code: nat)
    | DoWaitPid(cpu: Cpu, pid: nat, ptr: bool, stored: bool)
    | DoJoin(cpu: Cpu, tid: nat, ptr: bool, stored: bool)
    | DoSleep(cpu: Cpu, channel: nat)
    | DoWakeup(channel: nat)
    | DoSignal(pid: nat, signal: nat)
    | DoReapPid(pid: nat)
    | DoSetPriority(slot: SlotId, priority: nat)
    | DoRequest

  function Apply(t: Sched, s: Step): Sched {
    match s
    case DoSchedule(cpu) => Schedule(t, cpu)
    case DoCreate(cpu, memory) => Create(t, cpu, memory).0
    case DoFork(cpu, memory) => Fork(t, cpu, memory).0
    case DoKernelThread(cpu, memory) => KernelThread(t, cpu, memory).0
    case DoUserThread(cpu, memory) => UserThread(t, cpu, memory).0
    case DoExit(cpu, code) => Exit(t, cpu, code)
    case DoWaitPid(cpu, pid, ptr, stored) => WaitPid(t, cpu, pid, ptr, stored).0
    case DoJoin(cpu, tid, ptr, stored) => Join(t, cpu, tid, ptr, stored).0
    case DoSleep(cpu, channel) => Sleep(t, cpu, channel).0
    case DoWakeup(channel) => Wakeup(t, channel)
    case DoSignal(pid, signal) => Signal(t, pid, signal).0
    case DoReapPid(pid) => ReapPid(t, pid).0
    case DoSetPriority(slot, priority) => SetPriority(t, slot, priority)
    case DoRequest => t.(requested := true)
  }

  function RunSteps(t: Sched, steps: seq<Step>): Sched {
    if steps == [] then t else Apply(RunSteps(t, steps[..|steps| - 1]), steps[|steps| - 1])
  }
}
