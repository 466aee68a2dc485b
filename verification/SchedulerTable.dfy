/** src/process.c's scheduler in place: the slots, the current task of each CPU and the cursors are
    arrays, and each operation ends in the state the table functions give. */
module SchedulerTable {
  import opened Common
  import opened Scheduler

  class Slots {
    const tasks: array<Task>
    const current: array<Option<SlotId>>
    const cursor: array<SlotId>
    var nextPid: nat
    var nextTid: nat
    var requested: bool

    ghost predicate Wired() {
      && tasks.Length == SLOTS && current.Length == CPUS && cursor.Length == CPUS
      && tasks as object != current as object && tasks as object != cursor as object
      && current as object != cursor as object
    }

    function State(): Sched
      requires Wired()
      reads this, tasks, current, cursor
    {
      Table(tasks[..], current[..], cursor[..], nextPid, nextTid, requested)
    }

    /** process_init. */
    constructor ()
      ensures Wired() && fresh(tasks) && fresh(current) && fresh(cursor) && State() == Boot()
    {
      tasks := new Task[SLOTS](_ => Cleared());
      current := new Option<SlotId>[CPUS](_ => None);
      cursor := new SlotId[CPUS](_ => 0);
      nextPid, nextTid, requested := 2, 1, false;
      new;
      tasks[0] := Cleared().(pid := 1, state := Running);
      current[0] := Some(0);
    }

    // ------------------------------------------------------------ searching

    method FindFreeSlot() returns (r: Option<SlotId>)
      requires Wired()
      ensures r == FreeSlot(tasks[..], 0)
    {
      var i := 0;
      while i < SLOTS
        invariant 0 <= i <= SLOTS && FreeSlot(tasks[..], 0) == FreeSlot(tasks[..], i)
      {
        if tasks[i].state == Unused { return Some(i); }
        i := i + 1;
      }
      r := None;
    }

    method FindProcess(pid: nat) returns (r: Option<SlotId>)
      requires Wired()
      ensures r == FindPid(tasks[..], pid, 0)
    {
      var i := 0;
      while i < SLOTS
        invariant 0 <= i <= SLOTS && FindPid(tasks[..], pid, 0) == FindPid(tasks[..], pid, i)
      {
        if tasks[i].state != Unused && tasks[i].pid == pid { return Some(i); }
        i := i + 1;
      }
      r := None;
    }

    method FindZombieChild(parent: nat, pid: nat) returns (r: Option<SlotId>)
      requires Wired()
      ensures r == ZombieChild(tasks[..], parent, pid, 1)
    {
      var i := 1;
      while i < SLOTS
        invariant 1 <= i <= SLOTS && ZombieChild(tasks[..], parent, pid, 1) == ZombieChild(tasks[..], parent, pid, i)
      {
        if IsChild(tasks[i], parent, pid) && tasks[i].state == Zombie { return Some(i); }
        i := i + 1;
      }
      r := None;
    }

    method HasAnyChild(parent: nat, pid: nat) returns (r: bool)
      requires Wired()
      ensures r == HasChild(tasks[..], parent, pid)
    {
      var i := 1;
      while i < SLOTS
        invariant 1 <= i <= SLOTS && forall j :: 1 <= j < i ==> !IsChild(tasks[j], parent, pid)
      {
        if IsChild(tasks[i], parent, pid) {
          assert IsChild(tasks[..][i], parent, pid);
          return true;
        }
        i := i + 1;
      }
      r := false;
    }

    // ------------------------------------------------------------ making and ending tasks

    method CreateTask(cpu: Cpu, memory: bool) returns (r: Option<SlotId>)
      requires Wired()
      modifies this`nextPid, this`nextTid, tasks
      ensures (State(), r) == Create(old(State()), cpu, memory)
    {
      r := FindFreeSlot();
      if r.None? { return; }
      if !memory { return None; }
      var i := r.value;
      tasks[i] := Cleared().(state := Ready, pid := nextPid, tid := nextTid, group := nextPid, owner := cpu,
        slice := Quantum(PRIORITY_DEFAULT));
      nextPid := NextPid(nextPid);
      nextTid := NextTid(nextTid);
      var parent := current[cpu];
      tasks[i] := tasks[i].(parentPid := if parent.Some? then tasks[parent.value].pid else 1);
      assert State().tasks == Create(old(State()), cpu, memory).0.tasks;
    }

    method ForkCurrent(cpu: Cpu, memory: bool) returns (r: Option<SlotId>)
      requires Wired()
      modifies this`nextPid, this`nextTid, tasks
      ensures (State(), r) == Fork(old(State()), cpu, memory)
    {
      if current[cpu].None? || current[cpu].value == 0 { return None; }
      var p := current[cpu].value;
      r := CreateTask(cpu, memory);
      hide Create;
      if r.Some? {
        var i := r.value;
        var parent := tasks[p];
        tasks[i] := tasks[i].(parentPid := parent.pid, tid := nextTid, group := parent.group, owner := cpu,
          priority := parent.priority, base := parent.base, slice := Quantum(parent.priority), ticks := 0);
        nextTid := NextTid(nextTid);
      }
    }

    /** wake_waiting_parent: the first parent waiting for this child. */
    method WakeWaitingParent(c: SlotId)
      requires Wired()
      modifies tasks
      ensures State() == WakeParent(old(State()), c)
    {
      var i := 1;
      while i < SLOTS
        invariant 1 <= i <= SLOTS && tasks[..] == old(tasks[..])
        invariant Awaiting(tasks[..], tasks[c], 1) == Awaiting(tasks[..], tasks[c], i)
      {
        if AwaitsChild(tasks[i], tasks[c]) {
          tasks[i] := tasks[i].(waitPid := 0, channel := 0, state := Ready);
          tasks[c] := tasks[c].(reapPending := true);
          return;
        }
        i := i + 1;
      }
    }

    method WakeJoiner(tid: nat)
      requires Wired()
      modifies tasks
      ensures State() == match Joiner(old(State()).tasks, tid, 1)
        case None => old(State())
        case Some(w) => Put(old(State()), w, old(State()).tasks[w].(joinTid := 0, state := Ready))
    {
      var i := 1;
      while i < SLOTS
        invariant 1 <= i <= SLOTS && tasks[..] == old(tasks[..])
        invariant Joiner(tasks[..], tid, 1) == Joiner(tasks[..], tid, i)
      {
        if AwaitsThread(tasks[i], tid) {
          tasks[i] := tasks[i].(joinTid := 0, state := Ready);
          return;
        }
        i := i + 1;
      }
    }

    method ExitCurrent(cpu: Cpu, code: nat)
      requires Wired()
      modifies tasks
      ensures State() == Exit(old(State()), cpu, code)
    {
      if current[cpu].None? { return; }
      var c := current[cpu].value;
      hide Joiner, Awaiting;
      if tasks[c].isThread {
        tasks[c] := tasks[c].(exitCode := code, state := Zombie);
        WakeJoiner(tasks[c].tid);
        return;
      }
      if c == 0 { return; }
      tasks[c] := tasks[c].(exitCode := code, state := Zombie);
      WakeWaitingParent(c);
    }

    method ReapProcess(i: SlotId)
      requires Wired()
      modifies tasks
      ensures State() == old(State()).(tasks := Reap(old(State()).tasks, i))
    {
      if tasks[i].state == Zombie { tasks[i] := Cleared(); }
    }

    // ------------------------------------------------------------ waiting and waking

    method WaitFor(cpu: Cpu, pid: nat, ptr: bool, stored: bool) returns (r: Outcome)
      requires Wired()
      modifies tasks
      ensures (State(), r) == WaitPid(old(State()), cpu, pid, ptr, stored)
    {
      hide ZombieChild, HasChild, Reap;
      if current[cpu].None? || current[cpu].value == 0 || !ptr { return Failed; }
      var c := current[cpu].value;
      var z := FindZombieChild(tasks[c].pid, pid);
      if z.Some? {
        if !stored { return Failed; }
        r := Reaped(tasks[z.value].pid);
        ReapProcess(z.value);
        return;
      }
      var some := HasAnyChild(tasks[c].pid, pid);
      if !some { return Failed; }
      tasks[c] := tasks[c].(waitPid := pid, channel := 0, state := Waiting);
      r := Blocked;
    }

    method SleepOn(cpu: Cpu, channel: nat) returns (r: Outcome)
      requires Wired()
      modifies tasks
      ensures (State(), r) == Sleep(old(State()), cpu, channel)
    {
      if channel == 0 || current[cpu].None? { return Failed; }
      var c := current[cpu].value;
      if c == 0 || tasks[c].state == Unused { return Failed; }
      tasks[c] := tasks[c].(channel := channel, state := Waiting);
      r := Blocked;
    }

    method WakeChannel(channel: nat)
      requires Wired()
      modifies tasks
      ensures State() == Wakeup(old(State()), channel)
    {
      if channel == 0 { return; }
      for i := 1 to SLOTS
        invariant forall j :: 1 <= j < i ==> tasks[j] == Woken(old(tasks[j]), channel)
        invariant forall j :: (j == 0 || i <= j < SLOTS) ==> tasks[j] == old(tasks[j])
      {
        if tasks[i].state == Waiting && tasks[i].channel == channel {
          tasks[i] := tasks[i].(channel := 0, state := Ready);
        }
      }
      assert tasks[..] == Wakeup(old(State()), channel).tasks;
    }

    method SendSignal(pid: nat, signal: nat) returns (ok: bool)
      requires Wired()
      modifies tasks
      ensures (State(), ok) == Signal(old(State()), pid, signal)
    {
      var slot := FindProcess(pid);
      hide FindPid, Awaiting;
      if slot.None? || slot.value == 0 || signal == 0 || signal > SIG_MAX { return false; }
      var i := slot.value;
      var p := tasks[i];
      if signal == SIG_KILL || signal == SIG_TERM {
        tasks[i] := p.(signals := p.signals + {signal}, exitCode := 128 + signal, state := Zombie);
        WakeWaitingParent(i);
        return true;
      }
      if signal == SIG_STOP {
        tasks[i] := p.(signals := p.signals + {signal}, state := Stopped);
        return true;
      }
      if signal == SIG_CONT {
        tasks[i] := p.(signals := p.signals - {SIG_STOP});
        if tasks[i].state == Stopped { tasks[i] := tasks[i].(state := Ready); }
        assert tasks[..] == Signal(old(State()), pid, signal).0.tasks;
        return true;
      }
      ok := false;
    }

    // ------------------------------------------------------------ the timer tick

    /** The nested scan: levels outside, slots around the table inside. */
    method ScanReady(start: SlotId, cpu: Cpu) returns (r: Option<SlotId>)
      requires Wired()
      ensures r == Pick(tasks[..], start, cpu, 0)
    {
      hide Candidate;
      var priority := 0;
      while priority < LEVELS
        invariant 0 <= priority <= LEVELS && Pick(tasks[..], start, cpu, 0) == Pick(tasks[..], start, cpu, priority)
      {
        var step := 1;
        while step <= SLOTS
          invariant 1 <= step <= SLOTS + 1
          invariant Nearest(tasks[..], start, cpu, priority, 1) == Nearest(tasks[..], start, cpu, priority, step)
        {
          var i := (start + step) % SLOTS;
          if Candidate(tasks[i], cpu, priority) { return Some(i); }
          step := step + 1;
        }
        priority := priority + 1;
      }
      r := None;
    }

    /** Charge the tick; the task keeps the CPU when its quantum is not over. */
    method ChargeTick(cpu: Cpu) returns (keeps: bool)
      requires Wired()
      modifies this`requested, tasks
      ensures State() == Charge(old(State()), cpu) && keeps == KeepsCpu(old(State()), cpu)
    {
      if current[cpu].None? || tasks[current[cpu].value].state != Running { return false; }
      var p := current[cpu].value;
      if requested {
        requested := false;
        tasks[p] := tasks[p].(ticks := 0);
        return false;
      }
      tasks[p] := tasks[p].(ticks := tasks[p].ticks + 1);
      if tasks[p].ticks < tasks[p].slice { return true; }
      tasks[p] := tasks[p].(ticks := 0);
      if tasks[p].priority + 1 < LEVELS { tasks[p] := tasks[p].(priority := tasks[p].priority + 1); }
      keeps := false;
    }

    method ReapPending(p: SlotId)
      requires Wired()
      modifies tasks
      ensures State() == ReapIfPending(old(State()), p)
    {
      if tasks[p].reapPending { ReapProcess(p); }
    }

    method RunTask(cpu: Cpu, n: SlotId)
      requires Wired()
      modifies tasks, current
      ensures State() == SwitchTo(old(State()), cpu, n)
    {
      current[cpu] := Some(n);
      tasks[n] := tasks[n].(owner := cpu);
      tasks[n] := tasks[n].(state := Running);
    }

    method DispatchTo(cpu: Cpu, n: SlotId)
      requires Wired()
      modifies tasks, current, cursor
      ensures State() == Dispatch(old(State()), cpu, n)
    {
      hide SwitchTo, ReapIfPending;
      var prev := current[cpu];
      cursor[cpu] := n;
      if prev.Some? && tasks[prev.value].state == Running {
        tasks[prev.value] := tasks[prev.value].(state := Ready);
      }
      RunTask(cpu, n);
      if prev.Some? { ReapPending(prev.value); }
    }

    method FallBack(cpu: Cpu)
      requires Wired()
      modifies tasks, current
      ensures State() == Idle(old(State()), cpu)
    {
      hide SwitchTo, ReapIfPending;
      var prev := current[cpu];
      if prev.Some? {
        var s := tasks[prev.value].state;
        if s == Zombie || s == Stopped || s == Waiting {
          if cpu == 0 {
            RunTask(0, 0);
          } else {
            current[cpu] := None;
          }
          ReapPending(prev.value);
        }
      } else if cpu == 0 {
        RunTask(0, 0);
      }
    }

    /** process_schedule, with the process lock taken. */
    method Tick(cpu: Cpu)
      requires Wired()
      modifies this`requested, tasks, current, cursor
      ensures State() == Schedule(old(State()), cpu)
    {
      hide Pick, Charge, KeepsCpu, Dispatch, Idle;
      var start := if current[cpu].Some? then current[cpu].value else cursor[cpu];
      var keeps := ChargeTick(cpu);
      if keeps { return; }
      var next := ScanReady(start, cpu);
      if next.Some? {
        DispatchTo(cpu, next.value);
      } else {
        FallBack(cpu);
      }
    }
  }
}
