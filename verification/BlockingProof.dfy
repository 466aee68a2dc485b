/** No wakeup is lost, whatever the interleaving. */
module BlockingProof {
  import opened Common
  import opened Blocking
  import P = Pipe
  import I = Ipc
  import S = Scheduler

  // ---------------------------------------------------------------- the start

  predicate Fresh(s: Sys) {
    && Shaped(s) && s.pipeLock == None && s.mailLock == None && s.procLock == None
    && (forall i :: 0 <= i < |s.tasks| ==> s.tasks[i].loc.Idle? && s.tasks[i].want.None?)
    && (forall id :: 0 <= id < P.PIPE_MAX ==> s.pipes[id] == P.Logged(P.Closed(), [], []))
    && s.post == I.Post(I.EmptyBox(), [], [])
  }

  lemma FreshOk(s: Sys)
    requires Fresh(s)
    ensures Inv(s)
  {
    assert I.PostOk(s.post);
  }

  // ---------------------------------------------------------------- locks

  /** One lock, when process i moves: unchanged, taken by i, or given up by i. */
  predicate LockMoves(before: Option<nat>, after: Option<nat>, i: nat, held: bool, holds: bool) {
    || (after == before && holds == held)
    || (before.None? && after == Some(i) && holds)
    || (held && after.None? && !holds)
  }

  /** Only process i moves. */
  ghost predicate OnlyMoves(s: Sys, s': Sys, i: nat) {
    |s'.tasks| == |s.tasks| && i < |s.tasks|
    && forall j :: 0 <= j < |s.tasks| && j != i ==> s'.tasks[j].loc == s.tasks[j].loc
  }

  lemma LocksAt(s: Sys, s': Sys, i: nat)
    requires LocksOk(s) && OnlyMoves(s, s', i)
    requires LockMoves(s.pipeLock, s'.pipeLock, i, HoldsPipes(s.tasks[i].loc), HoldsPipes(s'.tasks[i].loc))
    requires LockMoves(s.mailLock, s'.mailLock, i, HoldsMail(s.tasks[i].loc), HoldsMail(s'.tasks[i].loc))
    requires LockMoves(s.procLock, s'.procLock, i, HoldsProcesses(s.tasks[i].loc), HoldsProcesses(s'.tasks[i].loc))
    ensures LocksOk(s')
  {
    hide HoldsPipes, HoldsMail, HoldsProcesses;
  }

  /** Every lock is held by exactly the process inside, after every step. */
  lemma LocksKept(s: Sys, step: Step)
    requires LocksOk(s) && Enabled(s, step)
    ensures LocksOk(Do(s, step))
  {
    hide Act, OpOk, Accepted, Channel, LocksOk, UsesPipes, AsleepResult;
    if step.Work? { ActPlace(s, s.tasks[step.i].loc.op, s.tasks[step.i].pid); }
    var s' := Do(s, step);
    assert OnlyMoves(s, s', step.i);
    LocksAt(s, s', step.i);
  }

  /** A critical section ends with the lock still held. */
  lemma ActPlace(s: Sys, op: Op, pid: nat)
    requires Shaped(s) && OpOk(op)
    ensures var loc := Act(s, op, pid).loc;
      && ObjectOp(loc) == Some(op) && !HoldsProcesses(loc) && (loc.Publishing? || loc.Sleeping?)
  {
    hide P.ReadRound, P.WriteRound, P.CloseRound, P.Turn, I.Send, I.Receive, I.PostSend, I.PostReceive;
  }

  // ---------------------------------------------------------------- critical sections

  /** A critical section makes ready nothing it does not then owe a wakeup, and touches only its own kind
      of object. */
  lemma ActWakes(s: Sys, op: Op, pid: nat, w: Want)
    requires Shaped(s) && OpOk(op)
    ensures var a := Act(s, op, pid); var s' := s.(pipes := a.pipes, post := a.post);
      && |a.pipes| == P.PIPE_MAX
      && (Ready(s', w) ==> Ready(s, w) || Owes(a.loc, w))
      && (UsesPipes(op) != IsPipeWant(w) ==> Ready(s', w) == Ready(s, w))
  {
    match op
    case Read(id, capacity) => ReadWakes(s, op, pid, w);
    case Write(id, data, done) => WriteWakes(s, op, pid, w);
    case Close(id, side) => CloseWakes(s, op, pid, w);
    case Create(id) =>
    case Send(to, data) => SendWakes(s, op, pid, w);
    case Receive(capacity) => ReceiveWakes(s, op, pid, w);
    case ReceiveBlocking(capacity) => ReceiveWakes(s, op, pid, w);
  }

  lemma ReadWakes(s: Sys, op: Op, pid: nat, w: Want)
    requires Shaped(s) && op.Read? && OpOk(op)
    ensures var a := ActRead(s, op, pid); var s' := s.(pipes := a.pipes, post := a.post);
      && |a.pipes| == P.PIPE_MAX && (Ready(s', w) ==> Ready(s, w) || Owes(a.loc, w)) && a.post == s.post
  {}

  lemma WriteWakes(s: Sys, op: Op, pid: nat, w: Want)
    requires Shaped(s) && op.Write? && OpOk(op)
    ensures var a := ActWrite(s, op, pid); var s' := s.(pipes := a.pipes, post := a.post);
      && |a.pipes| == P.PIPE_MAX && (Ready(s', w) ==> Ready(s, w) || Owes(a.loc, w)) && a.post == s.post
  {}

  lemma CloseWakes(s: Sys, op: Op, pid: nat, w: Want)
    requires Shaped(s) && op.Close? && OpOk(op)
    ensures var a := ActClose(s, op, pid); var s' := s.(pipes := a.pipes, post := a.post);
      && |a.pipes| == P.PIPE_MAX && (Ready(s', w) ==> Ready(s, w) || Owes(a.loc, w)) && a.post == s.post
  {}

  lemma SendWakes(s: Sys, op: Op, pid: nat, w: Want)
    requires Shaped(s) && op.Send?
    ensures var a := ActSend(s, op, pid); var s' := s.(pipes := a.pipes, post := a.post);
      && a.pipes == s.pipes && (Ready(s', w) ==> Ready(s, w) || Owes(a.loc, w))
  {
    hide I.FirstFree;
  }

  lemma ReceiveWakes(s: Sys, op: Op, pid: nat, w: Want)
    requires Shaped(s) && (op.Receive? || op.ReceiveBlocking?)
    ensures var a := ActReceive(s, op, pid); var s' := s.(pipes := a.pipes, post := a.post);
      && a.pipes == s.pipes && (Ready(s', w) ==> Ready(s, w) || Owes(a.loc, w))
  {
    hide I.FirstFor;
    var a := ActReceive(s, op, pid);
    forall i | 0 <= i < I.QUEUE_MAX ensures w.Mail? && I.For(a.post.box[i], w.pid) ==> I.For(s.post.box[i], w.pid) {}
  }

  /** A process only goes to sleep when what it wants is not there. */
  lemma ActSleeps(s: Sys, op: Op, pid: nat)
    requires Shaped(s) && OpOk(op) && (op.ReceiveBlocking? ==> pid != 0 && op.capacity > 0)
    requires Act(s, op, pid).loc.Sleeping?
    ensures var a := Act(s, op, pid);
      && a.pipes == s.pipes && a.post == s.post && UsesPipes(op) == IsPipeWant(a.loc.w)
      && !Ready(s, a.loc.w)
  {}

  // ---------------------------------------------------------------- sleepers

  /** s' differs from s in process i and the locks only. */
  ghost predicate OnlyAt(s: Sys, s': Sys, i: nat) {
    && i < |s.tasks| == |s'.tasks| && s'.pipes == s.pipes && s'.post == s.post
    && forall j :: 0 <= j < |s.tasks| && j != i ==> s'.tasks[j] == s.tasks[j]
  }

  lemma OwedStays(s: Sys, s': Sys, i: nat, w: Want)
    requires i < |s.tasks| == |s'.tasks| && Owed(s, w)
    requires forall j :: 0 <= j < |s.tasks| && j != i && Owes(s.tasks[j].loc, w) ==> Owes(s'.tasks[j].loc, w)
    requires Owes(s.tasks[i].loc, w) ==> Owes(s'.tasks[i].loc, w)
    ensures Owed(s', w)
  {
    var j :| 0 <= j < |s.tasks| && Owes(s.tasks[j].loc, w);
    assert Owes(s'.tasks[j].loc, w);
  }

  /** A step that owes no less and leaves its own process in order leaves every sleeper in order. */
  lemma SleepersLocal(s: Sys, s': Sys, i: nat)
    requires Shaped(s) && SleepersOk(s) && OnlyAt(s, s', i)
    requires forall w :: Owes(s.tasks[i].loc, w) ==> Owes(s'.tasks[i].loc, w)
    requires SleeperOk(s', s'.tasks[i])
    ensures SleepersOk(s')
  {
    forall j | 0 <= j < |s'.tasks| ensures SleeperOk(s', s'.tasks[j]) {
      if j != i {
        var t := s.tasks[j];
        assert SleeperOk(s, t);
        if t.want.Some? && Owed(s, t.want.value) {
          hide Owes, Owed, SleeperOk;
          OwedStays(s, s', i, t.want.value);
        }
      }
    }
  }

  predicate IsLocal(step: Step) { !step.Work? && !step.Wake? }

  lemma LocalStep(s: Sys, step: Step)
    requires Shaped(s) && SleepersOk(s) && Enabled(s, step) && IsLocal(step)
    ensures SleepersOk(Do(s, step))
  {
    var i, s' := step.i, Do(s, step);
    assert SleeperOk(s, s.tasks[i]);
    hide Ready, Owed, Accepted, OpOk, SleepersOk, Channel;
    assert OnlyAt(s, s', i);
    SameReady(s, s');
    LocalTask(s, step);
    SleepersLocal(s, s', i);
  }

  lemma SameReady(s: Sys, s': Sys)
    requires Shaped(s) && s'.pipes == s.pipes && s'.post == s.post
    ensures forall w :: Ready(s', w) == Ready(s, w)
  {}

  lemma LocalTask(s: Sys, step: Step)
    requires Shaped(s) && Enabled(s, step) && IsLocal(step) && SleeperOk(s, s.tasks[step.i])
    ensures var s' := Do(s, step); Shaped(s') && SleeperOk(s', s'.tasks[step.i])
  {
    var s' := Do(s, step);
    SameReady(s, s');
    StillOwed(s, step);
    hide Ready, Owed, Accepted, OpOk, Channel, Act;
  }

  /** A local step owes what it owed. */
  lemma StillOwed(s: Sys, step: Step)
    requires Shaped(s) && Enabled(s, step) && IsLocal(step)
    ensures forall w :: Owed(s, w) ==> Owed(Do(s, step), w)
  {
    var s' := Do(s, step);
    hide Ready, Owed, Accepted, OpOk, Channel, Act;
    forall w | Owed(s, w) ensures Owed(s', w) { OwedStays(s, s', step.i, w); }
  }

  /** Two processes inside critical sections are inside different ones. */
  lemma Apart(s: Sys, i: nat, j: nat)
    requires LocksOk(s) && i < |s.tasks| && j < |s.tasks| && i != j
    requires ObjectOp(s.tasks[i].loc).Some? && ObjectOp(s.tasks[j].loc).Some?
    ensures UsesPipes(ObjectOp(s.tasks[i].loc).value) != UsesPipes(ObjectOp(s.tasks[j].loc).value)
  {
    hide ObjectOp;
    assert HoldsPipes(s.tasks[i].loc) ==> s.pipeLock == Some(i);
    assert HoldsPipes(s.tasks[j].loc) ==> s.pipeLock == Some(j);
    assert HoldsMail(s.tasks[i].loc) ==> s.mailLock == Some(i);
    assert HoldsMail(s.tasks[j].loc) ==> s.mailLock == Some(j);
  }

  lemma SleeperIs(s: Sys, j: nat)
    requires Shaped(s) && SleepersOk(s) && j < |s.tasks|
    ensures SleeperOk(s, s.tasks[j])
  {}

  lemma SleepersAre(s: Sys)
    requires Shaped(s) && forall j :: 0 <= j < |s.tasks| ==> SleeperOk(s, s.tasks[j])
    ensures SleepersOk(s)
  {}

  /** What a process asleep was owed it is still owed, and what becomes ready is owed. */
  lemma WorkOther(s: Sys, i: nat, j: nat)
    requires Shaped(s) && LocksOk(s) && Enabled(s, Work(i)) && j < |s.tasks| && SleeperOk(s, s.tasks[j]) && j != i
    ensures Shaped(Do(s, Work(i))) && SleeperOk(Do(s, Work(i)), s.tasks[j])
  {
    hide Act, Ready, LocksOk, Channel, Owed;
    var t, s' := s.tasks[i], Do(s, Work(i));
    var op := t.loc.op;
    var a := Act(s, op, t.pid);
    ActWakes(s, op, t.pid, Mail(0));
    if s.tasks[j].want.Some? { WorkWakes(s, i, s.tasks[j].want.value); }
    if GoingToSleep(s.tasks[j].loc) {
      ActWakes(s, op, t.pid, s.tasks[j].loc.w);
      ReadyOf(s, s', op, a, s.tasks[j].loc.w);
      Apart(s, i, j);
    }
  }

  lemma WorkOwn(s: Sys, i: nat)
    requires Shaped(s) && CallsOk(s) && Enabled(s, Work(i)) && SleeperOk(s, s.tasks[i])
    ensures Shaped(Do(s, Work(i))) && SleeperOk(Do(s, Work(i)), Do(s, Work(i)).tasks[i])
  {
    hide Act, Ready, Channel, Owed, CallsOk;
    var t, s' := s.tasks[i], Do(s, Work(i));
    var op := t.loc.op;
    var a := Act(s, op, t.pid);
    CallIs(s, i);
    assert Continues(t, op);
    ActPlace(s, op, t.pid);
    ActWakes(s, op, t.pid, Mail(0));
    if t.want.Some? { WorkWakes(s, i, t.want.value); }
    if a.loc.Sleeping? { ActSleeps(s, op, t.pid); ReadyOf(s, s', op, a, a.loc.w); }
  }

  lemma CallIs(s: Sys, i: nat)
    requires CallsOk(s) && i < |s.tasks|
    ensures CallOk(s.tasks[i])
  {}

  /** What is ready after a critical section was ready before it, or is owed. */
  lemma WorkWakes(s: Sys, i: nat, w: Want)
    requires Shaped(s) && Enabled(s, Work(i))
    ensures var s' := Do(s, Work(i));
      Shaped(s') && (Owed(s, w) ==> Owed(s', w)) && (Ready(s', w) ==> Ready(s, w) || Owed(s', w))
  {
    hide Act, Ready, Channel;
    var t, s' := s.tasks[i], Do(s, Work(i));
    var a := Act(s, t.loc.op, t.pid);
    ActWakes(s, t.loc.op, t.pid, w);
    ReadyOf(s, s', t.loc.op, a, w);
    WorkOwed(s, s', i, w);
  }

  lemma WorkStep(s: Sys, i: nat)
    requires Shaped(s) && LocksOk(s) && SleepersOk(s) && CallsOk(s) && Enabled(s, Work(i))
    ensures Shaped(Do(s, Work(i))) && SleepersOk(Do(s, Work(i)))
  {
    hide Act, Ready, LocksOk, SleepersOk, CallOk, Channel, SleeperOk;
    var t, s' := s.tasks[i], Do(s, Work(i));
    ActWakes(s, t.loc.op, t.pid, Mail(0));
    forall j | 0 <= j < |s.tasks| ensures SleeperOk(s', s'.tasks[j]) {
      SleeperIs(s, j);
      if j == i { WorkOwn(s, i); } else { WorkOther(s, i, j); }
    }
    SleepersAre(s');
  }

  lemma ReadyOf(s: Sys, s': Sys, op: Op, a: Acted, w: Want)
    requires |a.pipes| == P.PIPE_MAX && s'.pipes == a.pipes && s'.post == a.post
    ensures Ready(s', w) == Ready(s.(pipes := a.pipes, post := a.post), w)
  {}

  lemma WorkOwed(s: Sys, s': Sys, i: nat, w: Want)
    requires i < |s.tasks| == |s'.tasks| && s.tasks[i].loc.Holding?
    requires forall j :: 0 <= j < |s.tasks| && j != i ==> s'.tasks[j] == s.tasks[j]
    ensures Owed(s, w) || Owes(s'.tasks[i].loc, w) ==> Owed(s', w)
  {
    if Owed(s, w) { OwedStays(s, s', i, w); }
  }

  lemma WakeStep(s: Sys, i: nat)
    requires Shaped(s) && SleepersOk(s) && Enabled(s, Wake(i))
    ensures SleepersOk(Do(s, Wake(i)))
  {
    var w, s' := s.tasks[i].loc.wakes[0], Do(s, Wake(i));
    SameReady(s, s');
    hide Ready, Channel;
    forall j | 0 <= j < |s.tasks| ensures SleeperOk(s', s'.tasks[j]) {
      var t, t' := s.tasks[j], s'.tasks[j];
      assert SleeperOk(s, t);
      if t'.want.Some? && AsleepFor(t', t'.want.value) && Ready(s, t'.want.value) {
        assert AsleepFor(t, t.want.value) && t'.want == t.want && t.want.value != w;
        forall k | 0 <= k < |s.tasks| && k != i ensures s'.tasks[k].loc == s.tasks[k].loc {}
        OwedStays(s, s', i, t.want.value);
      }
    }
  }

  lemma SleepersKept(s: Sys, step: Step)
    requires Shaped(s) && LocksOk(s) && SleepersOk(s) && CallsOk(s) && Enabled(s, step)
    ensures Shaped(Do(s, step)) && SleepersOk(Do(s, step))
  {
    hide SleepersOk, LocksOk, CallsOk, Act;
    match step
    case Work(i) => WorkStep(s, i);
    case Wake(i) => WakeStep(s, i);
    case _ => LocalStep(s, step);
  }

  // ---------------------------------------------------------------- what calls report

  lemma WorkCall(s: Sys, i: nat)
    requires Shaped(s) && Enabled(s, Work(i)) && CallOk(s.tasks[i])
    ensures CallOk(Do(s, Work(i)).tasks[i])
  {
    var t := s.tasks[i];
    var op := t.loc.op;
    assert Continues(t, op);
    if op.Write? {
      WriteCall(s, t, op);
    } else {
      hide P.ReadRound, P.CloseRound, P.Turn, I.Send, I.Receive, I.PostSend, I.PostReceive, ActWrite;
    }
  }

  /** One turn of a write extends what the call has appended by the next bytes of its data. */
  lemma WriteCall(s: Sys, t: Task, op: Op)
    requires Shaped(s) && op.Write? && OpOk(op) && Continues(t, op) && Accepted(t.call, t.pid)
    ensures var a := ActWrite(s, op, t.pid); CallOk(t.(loc := a.loc, moved := t.moved + a.added))
  {
    var rest := op.data[op.done..];
    var l := s.pipes[op.id];
    var r := P.WriteRound(l.pipe, t.pid, rest).1;
    if r.Moved? {
      assert P.Turn(l, P.Write(t.pid, rest)).put[|l.put|..] == rest[..r.n];
      assert op.data[..op.done] + rest[..r.n] == op.data[..op.done + r.n];
    }
  }

  lemma CallsKept(s: Sys, step: Step)
    requires Shaped(s) && CallsOk(s) && Enabled(s, step)
    ensures CallsOk(Do(s, step))
  {
    var s' := Do(s, step);
    forall j | 0 <= j < |s'.tasks| ensures CallOk(s'.tasks[j]) {
      assert CallOk(s.tasks[j]);
      if j == step.i {
        if step.Work? { WorkCall(s, j); } else { OwnCall(s, step); }
      } else {
        OtherCall(s, step, j);
      }
    }
  }

  lemma OwnCall(s: Sys, step: Step)
    requires Shaped(s) && Enabled(s, step) && !step.Work? && CallOk(s.tasks[step.i])
    ensures CallOk(Do(s, step).tasks[step.i])
  {
    hide Act, Channel, UsesPipes, AsleepResult;
  }

  lemma OtherCall(s: Sys, step: Step, j: nat)
    requires Shaped(s) && Enabled(s, step) && j < |s.tasks| && j != step.i && CallOk(s.tasks[j])
    ensures CallOk(Do(s, step).tasks[j])
  {
    hide Act, Channel, Accepted, OpOk;
  }

  // ---------------------------------------------------------------- what the objects hold

  lemma StoresKept(s: Sys, step: Step)
    requires Shaped(s) && StreamsOk(s) && I.PostOk(s.post) && Enabled(s, step)
    ensures var s' := Do(s, step); Shaped(s') && StreamsOk(s') && I.PostOk(s'.post)
  {
    if step.Work? {
      ActStores(s, s.tasks[step.i].loc.op, s.tasks[step.i].pid);
    }
    hide Act, P.StreamOk, I.PostOk, Channel, Accepted, OpOk;
  }

  /** Whatever a critical section does to a pipe is one turn on it; to the letters, one sending or taking. */
  lemma ActStores(s: Sys, op: Op, pid: nat)
    requires Shaped(s) && StreamsOk(s) && I.PostOk(s.post) && OpOk(op)
    ensures var a := Act(s, op, pid); var s' := s.(pipes := a.pipes, post := a.post);
      Shaped(s') && StreamsOk(s') && I.PostOk(s'.post)
  {
    if UsesPipes(op) {
      var c := match op
        case Read(_, capacity) => P.Read(pid, capacity)
        case Write(_, data, done) => P.Write(pid, data[done..])
        case Close(_, side) => P.Close(pid, side)
        case _ => P.Create(pid);
      P.StreamKept(s.pipes[op.id], c);
      hide P.StreamOk, P.Turn, P.ReadRound, P.WriteRound, P.CloseRound, I.PostOk;
    } else {
      match op
      case Send(to, data) => I.SendKeeps(s.post, to, pid, data);
      case Receive(capacity) => I.ReceiveKeeps(s.post, pid, capacity);
      case ReceiveBlocking(capacity) => I.ReceiveKeeps(s.post, pid, capacity);
      hide I.PostOk, I.PostSend, I.PostReceive, I.Send, I.Receive;
    }
  }

  // ---------------------------------------------------------------- runs

  lemma StepKeeps(s: Sys, step: Step)
    requires Inv(s) && Enabled(s, step)
    ensures Inv(Do(s, step))
  {
    hide LocksOk, SleepersOk, CallsOk, StreamsOk, I.PostOk, Do, Enabled;
    LocksKept(s, step);
    SleepersKept(s, step);
    CallsKept(s, step);
    StoresKept(s, step);
  }

  /** A run: every step enabled where it is taken. */
  ghost predicate IsRun(s: Sys, steps: seq<Step>)
    decreases |steps|
  {
    steps == [] || (Enabled(s, steps[0]) && IsRun(Do(s, steps[0]), steps[1..]))
  }

  ghost function After(s: Sys, steps: seq<Step>): Sys
    requires IsRun(s, steps)
    decreases |steps|
  {
    if steps == [] then s else After(Do(s, steps[0]), steps[1..])
  }

  lemma {:induction false} RunKeeps(s: Sys, steps: seq<Step>)
    requires Inv(s) && IsRun(s, steps)
    ensures Inv(After(s, steps))
    decreases |steps|
  {
    if steps != [] {
      StepKeeps(s, steps[0]);
      RunKeeps(Do(s, steps[0]), steps[1..]);
    }
  }

  /** No lost wakeup: in every reachable state, a process asleep for something that is there is owed a
      wakeup by a process that has not finished its call. */
  lemma NoLostWakeup(s: Sys, steps: seq<Step>, i: nat, w: Want)
    requires Fresh(s) && IsRun(s, steps)
    ensures var u := After(s, steps);
      Shaped(u) && (i < |u.tasks| && AsleepFor(u.tasks[i], w) && Ready(u, w) ==> Owed(u, w))
  {
    FreshOk(s);
    RunKeeps(s, steps);
    var u := After(s, steps);
    if i < |u.tasks| && AsleepFor(u.tasks[i], w) && Ready(u, w) { assert SleeperOk(u, u.tasks[i]); }
  }

  /** The wakeup, once it is made, leaves nobody asleep for w. */
  lemma WakeWakes(s: Sys, i: nat, j: nat)
    requires Inv(s) && Enabled(s, Wake(i)) && j < |s.tasks|
    ensures !AsleepFor(Do(s, Wake(i)).tasks[j], s.tasks[i].loc.wakes[0])
  {
    assert SleeperOk(s, s.tasks[j]);
    hide Ready, Channel;
  }

  /** When no process is in the middle of a call, everybody asleep is asleep for a reason. */
  lemma QuietMeansNothingToDo(s: Sys, steps: seq<Step>, i: nat, w: Want)
    requires Fresh(s) && IsRun(s, steps)
    requires i < |After(s, steps).tasks| && AsleepFor(After(s, steps).tasks[i], w)
    requires forall t :: t in After(s, steps).tasks ==> t.loc.Idle? || t.loc.Asleep?
    ensures Shaped(After(s, steps)) && !Ready(After(s, steps), w)
  {
    NoLostWakeup(s, steps, i, w);
  }

  /** In every reachable state each pipe's stream is intact, each letter is in one place, and each write
      about to return reports exactly the bytes it appended. */
  lemma RunResults(s: Sys, steps: seq<Step>, id: nat, i: nat)
    requires Fresh(s) && IsRun(s, steps) && id < P.PIPE_MAX
    ensures var u := After(s, steps);
      && Shaped(u) && P.StreamOk(u.pipes[id]) && I.PostOk(u.post)
      && (i < |u.tasks| && NextOf(u.tasks[i].loc).Some? && NextOf(u.tasks[i].loc).value.Return? ==>
            Reports(u.tasks[i], NextOf(u.tasks[i].loc).value.rc))
      && (i < |u.tasks| && u.tasks[i].loc.Asleep? ==> Reports(u.tasks[i], AsleepResult(u.tasks[i].loc.op)))
  {
    FreshOk(s);
    RunKeeps(s, steps);
    var u := After(s, steps);
    if i < |u.tasks| { assert CallOk(u.tasks[i]); }
  }

  // ---------------------------------------------------------------- somebody can always move

  /** In the middle of a call, not yet asleep. */
  predicate Busy(loc: Loc) { !loc.Idle? && !loc.Asleep? }

  /** The step a busy process takes next. */
  function OwnStep(loc: Loc, i: nat): Step
    requires Busy(loc)
  {
    match loc
    case Calling(_) => Acquire(i)
    case Holding(_) => Work(i)
    case Publishing(_, _, _) => Release(i)
    case Waking(wakes, _) => if wakes == [] then Finish(i) else TakeProcessLock(i)
    case WakingHeld(_, _) => Wake(i)
    case Sleeping(w, _) => if Channel(w) == 0 then SleepFails(i) else SleepLock(i)
    case SleepHeld(_, _) => Mark(i)
    case Marked(_, _) => DropProcessLock(i)
    case MarkedOut(_, _) => DropLock(i)
  }

  predicate Moves(s: Sys, i: nat) {
    i < |s.tasks| && Busy(s.tasks[i].loc) && Enabled(s, OwnStep(s.tasks[i].loc, i))
  }

  /** Whoever holds the process lock can move. */
  lemma ProcessHolderMoves(s: Sys)
    requires Inv(s) && s.procLock.Some?
    ensures Moves(s, s.procLock.value)
  {
    var h := s.procLock.value;
    assert s.procLock in [s.pipeLock, s.mailLock, s.procLock];
    assert HoldsProcesses(s.tasks[h].loc) && CallOk(s.tasks[h]);
    hide Ready, Owed, Channel, Accepted;
  }

  /** Whoever holds a pipe or message lock can move, or waits for the process lock. */
  lemma ObjectHolderMoves(s: Sys, h: nat)
    requires Inv(s) && h < |s.tasks| && ObjectOp(s.tasks[h].loc).Some?
    ensures Moves(s, h) || s.procLock.Some?
  {
    assert CallOk(s.tasks[h]);
    hide Ready, Owed, Channel, Accepted, LocksOk, SleepersOk, StreamsOk;
  }

  /** No deadlock: the process lock is only ever taken last, so as long as any process is busy, some process
      can take its next step. */
  lemma SomebodyMoves(s: Sys, i: nat)
    requires Inv(s) && i < |s.tasks| && Busy(s.tasks[i].loc)
    ensures exists j :: Moves(s, j)
  {
    if s.procLock.Some? {
      ProcessHolderMoves(s);
    } else if ObjectOp(s.tasks[i].loc).Some? {
      ObjectHolderMoves(s, i);
    } else if s.tasks[i].loc.Calling? && LockOf(s, s.tasks[i].loc.op).Some? {
      var h := LockHolder(s, s.tasks[i].loc.op);
      ObjectHolderMoves(s, h);
    } else {
      FreeMoves(s, i);
    }
  }

  lemma LockHolder(s: Sys, op: Op) returns (h: nat)
    requires Inv(s) && LockOf(s, op).Some?
    ensures h < |s.tasks| && ObjectOp(s.tasks[h].loc).Some?
  {
    h := LockOf(s, op).value;
    assert LockOf(s, op) in [s.pipeLock, s.mailLock, s.procLock];
    assert HoldsPipes(s.tasks[h].loc) || HoldsMail(s.tasks[h].loc);
  }

  /** A process that waits for no lock can move. */
  lemma FreeMoves(s: Sys, i: nat)
    requires Inv(s) && i < |s.tasks| && Busy(s.tasks[i].loc) && s.procLock.None? && ObjectOp(s.tasks[i].loc).None?
    requires s.tasks[i].loc.Calling? ==> LockOf(s, s.tasks[i].loc.op).None?
    ensures Moves(s, i)
  {
    assert CallOk(s.tasks[i]);
    hide Ready, Owed, Channel, Accepted, LocksOk, SleepersOk, StreamsOk;
  }
}
