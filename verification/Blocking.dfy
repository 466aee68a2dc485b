/** Sleeping and waking (src/pipe.c, src/ipc.c, src/process.c) as a step system: every process runs one
    call at a time, every lock operation, every critical section, every sleep and every wakeup is its own
    step, and steps of different processes interleave freely. */
module Blocking {
  import opened Common
  import P = Pipe
  import I = Ipc
  import S = Scheduler

  /** What a process sleeps for: bytes in a pipe, room in a pipe, or a message. */
  datatype Want = Data(id: nat) | Space(id: nat) | Mail(pid: nat)

  /** The wait channel, as the number stored in the process table. */
  function Channel(w: Want): nat {
    match w
    case Data(id) => 0x50495000 + 2 * id
    case Space(id) => 0x50495000 + 2 * id + 1
    case Mail(pid) => (0x49504300 + pid) % U32
  }

  /** A system call. A write carries how much of its data is in the pipe already; create carries the free
      slot it takes. */
  datatype Op =
    | Read(id: nat, capacity: nat)
    | Write(id: nat, data: seq<byte>, done: nat)
    | Close(id: nat, side: nat)
    | Create(id: nat)
    | Send(to: nat, data: seq<byte>)
    | Receive(capacity: nat)
    | ReceiveBlocking(capacity: nat)

  predicate UsesPipes(op: Op) { op.Read? || op.Write? || op.Close? || op.Create? }
  predicate IsPipeWant(w: Want) { !w.Mail? }

  datatype Next = Return(rc: int) | Again(op: Op)

  /** Where a process is. From Publishing on, `wakes` are the wakeups it still owes. */
  datatype Loc =
    | Idle
    | Calling(op: Op)                                 // about to take the lock of the object
    | Holding(op: Op)                                 // has it, has not looked yet
    | Publishing(op: Op, wakes: seq<Want>, next: Next)  // has acted, still holds the lock
    | Waking(wakes: seq<Want>, next: Next)              // lock released
    | WakingHeld(wakes: seq<Want>, next: Next)          // has the process lock for the next wakeup
    | Sleeping(w: Want, op: Op)                       // found nothing, still holds the lock
    | SleepHeld(w: Want, op: Op)                      // has the process lock as well
    | Marked(w: Want, op: Op)                         // is WAITING, both locks held
    | MarkedOut(w: Want, op: Op)                      // process lock released
    | Asleep(w: Want, op: Op)                         // object lock released: the call is over

  /** `call` is the call as it was made, `moved` the bytes it has appended to the pipe so far, and `want` what
      the process was last put to sleep for, until somebody makes it ready or it waits for something else. */
  datatype Task = Task(pid: nat, state: S.State, channel: nat, want: Option<Want>, loc: Loc, call: Op, moved: seq<byte>)

  datatype Sys = Sys(tasks: seq<Task>, pipes: seq<P.Logged>, post: I.Post,
                     pipeLock: Option<nat>, mailLock: Option<nat>, procLock: Option<nat>)

  predicate Shaped(s: Sys) { |s.pipes| == P.PIPE_MAX }

  predicate PipeId(id: nat) { id < P.PIPE_MAX }

  /** The arguments a call gets past its first checks with. */
  predicate Accepted(op: Op, pid: nat) {
    match op
    case Read(id, capacity) => PipeId(id) && capacity > 0
    case Write(id, data, done) => PipeId(id) && data != [] && done == 0
    case Close(id, side) => PipeId(id) && side < 2
    case Create(id) => PipeId(id) && pid != 0
    case Send(to, data) => to != 0 && data != [] && |data| <= I.MESSAGE_MAX
    case Receive(capacity) => pid != 0 && capacity > 0
    case ReceiveBlocking(capacity) => pid != 0 && capacity > 0
  }

  /** Whether a process that wants this would not have to sleep now. */
  predicate Ready(s: Sys, w: Want)
    requires Shaped(s)
  {
    match w
    case Data(id) => PipeId(id) && (var p := s.pipes[id].pipe; !p.used || p.bytes != [] || p.writers == 0)
    case Space(id) => PipeId(id) && (var p := s.pipes[id].pipe; !p.used || |p.bytes| < P.CAPACITY || p.readers == 0)
    case Mail(pid) => exists i :: 0 <= i < I.QUEUE_MAX && I.For(s.post.box[i], pid)
  }

  // ---------------------------------------------------------------- the critical sections

  /** The outcome of a critical section: the pipes, the letters, where the process goes, and the bytes it
      appended. */
  datatype Acted = Acted(pipes: seq<P.Logged>, post: I.Post, loc: Loc, added: seq<byte>)

  function Quit(s: Sys, op: Op, rc: int): Acted { Acted(s.pipes, s.post, Publishing(op, [], Return(rc)), []) }

  function ActRead(s: Sys, op: Op, pid: nat): Acted
    requires Shaped(s) && op.Read? && PipeId(op.id)
  {
    var l := s.pipes[op.id];
    match P.ReadRound(l.pipe, pid, op.capacity).1
    case Refused => Quit(s, op, -1)
    case EndOfFile => Quit(s, op, 0)
    case Sleep => Acted(s.pipes, s.post, Sleeping(Data(op.id), op), [])
    case Moved(n) =>
      Acted(s.pipes[op.id := P.Turn(l, P.Read(pid, op.capacity))], s.post,
        Publishing(op, [Space(op.id)], Return(n)), [])
  }

  function ActWrite(s: Sys, op: Op, pid: nat): Acted
    requires Shaped(s) && op.Write? && PipeId(op.id) && op.done <= |op.data|
  {
    var l := s.pipes[op.id];
    var rest := op.data[op.done..];
    var r := P.WriteRound(l.pipe, pid, rest).1;
    if r.Refused? then Quit(s, op, if op.done > 0 then op.done else -1)
    else if !r.Moved? then Acted(s.pipes, s.post, Sleeping(Space(op.id), op), [])
    else
      var l' := P.Turn(l, P.Write(pid, rest));
      var done := op.done + r.n;
      var next := if done == |op.data| then Return(done) else Again(Write(op.id, op.data, done));
      Acted(s.pipes[op.id := l'], s.post, Publishing(op, [Data(op.id)], next), l'.put[|l.put|..])
  }

  function ActClose(s: Sys, op: Op, pid: nat): Acted
    requires Shaped(s) && op.Close? && PipeId(op.id)
  {
    var l := s.pipes[op.id];
    if P.CloseRound(l.pipe, pid, op.side).1.Refused? then Quit(s, op, -1)
    else Acted(s.pipes[op.id := P.Turn(l, P.Close(pid, op.side))], s.post,
               Publishing(op, [Data(op.id), Space(op.id)], Return(0)), [])
  }

  function ActCreate(s: Sys, op: Op, pid: nat): Acted
    requires Shaped(s) && op.Create? && PipeId(op.id)
  {
    if s.pipes[op.id].pipe.used then Quit(s, op, -1)
    else Acted(s.pipes[op.id := P.Turn(s.pipes[op.id], P.Create(pid))], s.post, Publishing(op, [], Return(0)), [])
  }

  function ActSend(s: Sys, op: Op, pid: nat): Acted
    requires op.Send?
  {
    if I.Send(s.post.box, op.to, pid, op.data, |s.post.sent|).1.None? then Quit(s, op, -1)
    else Acted(s.pipes, I.PostSend(s.post, op.to, pid, op.data), Publishing(op, [Mail(op.to)], Return(|op.data|)), [])
  }

  function ActReceive(s: Sys, op: Op, pid: nat): Acted
    requires op.Receive? || op.ReceiveBlocking?
  {
    var m := I.Receive(s.post.box, pid, op.capacity).1;
    if m.Some? then
      var wakes := if op.ReceiveBlocking? then [Mail(pid)] else [];
      Acted(s.pipes, I.PostReceive(s.post, pid, op.capacity),
        Publishing(op, wakes, Return(|I.Delivered(m.value, op.capacity)|)), [])
    else if op.ReceiveBlocking? then Acted(s.pipes, s.post, Sleeping(Mail(pid), op), [])
    else Quit(s, op, I.EMPTY)
  }

  /** An operation whose indices make sense: any operation accepted, at any point of its loop. */
  predicate OpOk(op: Op) {
    match op
    case Read(id, capacity) => PipeId(id)
    case Write(id, data, done) => PipeId(id) && done <= |data|
    case Close(id, side) => PipeId(id)
    case Create(id) => PipeId(id)
    case _ => true
  }

  function Act(s: Sys, op: Op, pid: nat): Acted
    requires Shaped(s) && OpOk(op)
  {
    match op
    case Read(_, _) => ActRead(s, op, pid)
    case Write(_, _, _) => ActWrite(s, op, pid)
    case Close(_, _) => ActClose(s, op, pid)
    case Create(_) => ActCreate(s, op, pid)
    case Send(_, _) => ActSend(s, op, pid)
    case Receive(_) => ActReceive(s, op, pid)
    case ReceiveBlocking(_) => ActReceive(s, op, pid)
  }

  // ---------------------------------------------------------------- steps

  datatype Step =
    | Begin(i: nat, op: Op)
    | Acquire(i: nat)
    | Work(i: nat)
    | Release(i: nat)
    | TakeProcessLock(i: nat)
    | Wake(i: nat)
    | Finish(i: nat)
    | SleepLock(i: nat)
    | SleepFails(i: nat)
    | Mark(i: nat)
    | DropProcessLock(i: nat)
    | DropLock(i: nat)
    | Outside(i: nat, state: S.State, channel: nat)   // scheduler, signals, a parent or a joiner woken
    | WaitElsewhere(i: nat, channel: nat)             // waitpid or join

  function LockOf(s: Sys, op: Op): Option<nat> { if UsesPipes(op) then s.pipeLock else s.mailLock }

  function SetLock(s: Sys, op: Op, holder: Option<nat>): Sys {
    if UsesPipes(op) then s.(pipeLock := holder) else s.(mailLock := holder)
  }

  /** Not inside a call. A write that has appended something returns its count although its process is
      WAITING by then: it runs on, and may make another call, until the scheduler looks at it. */
  predicate Resting(t: Task) {
    t.loc.Idle? || (t.loc.Asleep? && (t.state != S.Waiting || AsleepResult(t.loc.op) != P.BLOCKED))
  }

  predicate Enabled(s: Sys, step: Step) {
    step.i < |s.tasks| && Shaped(s) &&
    var t := s.tasks[step.i];
    match step
    case Begin(i, op) => Resting(t) && Accepted(op, t.pid)
    case Acquire(i) => t.loc.Calling? && LockOf(s, t.loc.op).None?
    case Work(i) => t.loc.Holding? && OpOk(t.loc.op)
    case Release(i) => t.loc.Publishing?
    case TakeProcessLock(i) => t.loc.Waking? && t.loc.wakes != [] && s.procLock.None?
    case Wake(i) => t.loc.WakingHeld? && t.loc.wakes != []
    case Finish(i) => t.loc.Waking? && t.loc.wakes == []
    case SleepLock(i) => t.loc.Sleeping? && Channel(t.loc.w) != 0 && s.procLock.None?
    case SleepFails(i) => t.loc.Sleeping?
    case Mark(i) => t.loc.SleepHeld?
    case DropProcessLock(i) => t.loc.Marked?
    case DropLock(i) => t.loc.MarkedOut?
    case Outside(i, state, channel) => s.procLock.None? && state != S.Waiting
    case WaitElsewhere(i, channel) => s.procLock.None? && Resting(t)
  }

  function Put(s: Sys, i: nat, t: Task): Sys
    requires i < |s.tasks|
  {
    s.(tasks := s.tasks[i := t])
  }

  /** process_wakeup: every task waiting on this number. */
  function Roused(t: Task, w: Want): Task {
    if Channel(w) != 0 && t.state == S.Waiting && t.channel == Channel(w)
    then t.(state := S.Ready, channel := 0, want := None)
    else t
  }

  function RouseAll(tasks: seq<Task>, w: Want): (r: seq<Task>)
    ensures |r| == |tasks| && forall i :: 0 <= i < |r| ==> r[i] == Roused(tasks[i], w)
  {
    seq(|tasks|, i requires 0 <= i < |tasks| => Roused(tasks[i], w))
  }

  /** What the call returns when its process has gone to sleep. */
  function AsleepResult(op: Op): int {
    if op.Write? && op.done > 0 then op.done else P.BLOCKED
  }

  function Do(s: Sys, step: Step): Sys
    requires Enabled(s, step)
  {
    var i := step.i;
    var t := s.tasks[i];
    match step
    case Begin(_, op) => Put(s, i, t.(loc := Calling(op), call := op, moved := []))
    case Acquire(_) => SetLock(Put(s, i, t.(loc := Holding(t.loc.op))), t.loc.op, Some(i))
    case Work(_) =>
      var a := Act(s, t.loc.op, t.pid);
      Put(s, i, t.(loc := a.loc, moved := t.moved + a.added)).(pipes := a.pipes, post := a.post)
    case Release(_) => SetLock(Put(s, i, t.(loc := Waking(t.loc.wakes, t.loc.next))), t.loc.op, None)
    case TakeProcessLock(_) => Put(s, i, t.(loc := WakingHeld(t.loc.wakes, t.loc.next))).(procLock := Some(i))
    case Wake(_) =>
      var u := s.(tasks := RouseAll(s.tasks, t.loc.wakes[0]));
      Put(u, i, u.tasks[i].(loc := Waking(t.loc.wakes[1..], t.loc.next))).(procLock := None)
    case Finish(_) => Put(s, i, t.(loc := if t.loc.next.Return? then Idle else Calling(t.loc.next.op)))
    case SleepLock(_) => Put(s, i, t.(loc := SleepHeld(t.loc.w, t.loc.op))).(procLock := Some(i))
    case SleepFails(_) => Put(s, i, t.(loc := Publishing(t.loc.op, [], Return(-1))))
    case Mark(_) =>
      Put(s, i, t.(loc := Marked(t.loc.w, t.loc.op), state := S.Waiting, channel := Channel(t.loc.w),
        want := Some(t.loc.w)))
    case DropProcessLock(_) => Put(s, i, t.(loc := MarkedOut(t.loc.w, t.loc.op))).(procLock := None)
    case DropLock(_) => SetLock(Put(s, i, t.(loc := Asleep(t.loc.w, t.loc.op))), t.loc.op, None)
    case Outside(_, state, channel) => Put(s, i, t.(state := state, channel := channel, want := None))
    case WaitElsewhere(_, channel) => Put(s, i, t.(loc := Idle, state := S.Waiting, channel := channel, want := None))
  }

  // ---------------------------------------------------------------- the invariant

  function ObjectOp(loc: Loc): Option<Op> {
    match loc
    case Holding(op) => Some(op)
    case Publishing(op, _, _) => Some(op)
    case Sleeping(_, op) => Some(op)
    case SleepHeld(_, op) => Some(op)
    case Marked(_, op) => Some(op)
    case MarkedOut(_, op) => Some(op)
    case _ => None
  }

  predicate HoldsPipes(loc: Loc) { ObjectOp(loc).Some? && UsesPipes(ObjectOp(loc).value) }
  predicate HoldsMail(loc: Loc) { ObjectOp(loc).Some? && !UsesPipes(ObjectOp(loc).value) }
  predicate HoldsProcesses(loc: Loc) { loc.WakingHeld? || loc.SleepHeld? || loc.Marked? }

  /** Every lock is held by exactly the process that is inside. */
  ghost predicate LocksOk(s: Sys) {
    && (forall lock :: lock in [s.pipeLock, s.mailLock, s.procLock] && lock.Some? ==> lock.value < |s.tasks|)
    && forall i :: 0 <= i < |s.tasks| ==>
      && (HoldsPipes(s.tasks[i].loc) <==> s.pipeLock == Some(i))
      && (HoldsMail(s.tasks[i].loc) <==> s.mailLock == Some(i))
      && (HoldsProcesses(s.tasks[i].loc) <==> s.procLock == Some(i))
  }

  predicate Owes(loc: Loc, w: Want) {
    (loc.Publishing? || loc.Waking? || loc.WakingHeld?) && w in loc.wakes
  }

  ghost predicate Owed(s: Sys, w: Want) {
    exists j :: 0 <= j < |s.tasks| && Owes(s.tasks[j].loc, w)
  }

  /** On the way to sleep: the lock is held and what is wanted is not there. */
  predicate GoingToSleep(loc: Loc) { loc.Sleeping? || loc.SleepHeld? || loc.Marked? || loc.MarkedOut? }

  /** A process that is WAITING although it need not owes its sleep to somebody who will wake it. */
  ghost predicate SleeperOk(s: Sys, t: Task)
    requires Shaped(s)
  {
    && (GoingToSleep(t.loc) ==> !Ready(s, t.loc.w) && UsesPipes(t.loc.op) == IsPipeWant(t.loc.w))
    && (t.want.Some? && AsleepFor(t, t.want.value) && Ready(s, t.want.value) ==> Owed(s, t.want.value))
    && (GoingToSleep(t.loc) && !t.loc.Sleeping? ==> Channel(t.loc.w) != 0)
    && (t.want.Some? ==> Channel(t.want.value) != 0)
    && (t.state == S.Waiting && IsMarked(t.loc) ==> AsleepFor(t, t.loc.w))
  }

  /** A process asleep for w: it is WAITING on the channel of w, and has been put there for w. */
  predicate AsleepFor(t: Task, w: Want) {
    t.want == Some(w) && t.state == S.Waiting && t.channel == Channel(w)
  }

  predicate IsMarked(loc: Loc) { loc.Marked? || loc.MarkedOut? || loc.Asleep? }

  ghost predicate SleepersOk(s: Sys)
    requires Shaped(s)
  {
    forall i :: 0 <= i < |s.tasks| ==> SleeperOk(s, s.tasks[i])
  }

  /** The operation a process is in the middle of. */
  function CurrentOp(loc: Loc): Option<Op> {
    match loc
    case Calling(op) => Some(op)
    case Holding(op) => Some(op)
    case Sleeping(_, op) => Some(op)
    case SleepHeld(_, op) => Some(op)
    case Marked(_, op) => Some(op)
    case MarkedOut(_, op) => Some(op)
    case Asleep(_, op) => Some(op)
    case _ => None
  }

  function NextOf(loc: Loc): Option<Next> {
    match loc
    case Publishing(_, _, next) => Some(next)
    case Waking(_, next) => Some(next)
    case WakingHeld(_, next) => Some(next)
    case _ => None
  }

  /** The operation is the call itself, or the same write with the bytes it has appended counted off. */
  predicate Continues(t: Task, op: Op) {
    && OpOk(op)
    && (if t.call.Write? then op == Write(t.call.id, t.call.data, |t.moved|) && t.moved == t.call.data[..|t.moved|]
        else op == t.call)
  }

  /** What a write reports is what it appended. */
  predicate Reports(t: Task, rc: int) {
    t.call.Write? ==>
      && |t.moved| <= |t.call.data| && t.moved == t.call.data[..|t.moved|]
      && (rc >= 0 ==> rc == |t.moved|) && (rc == P.BLOCKED ==> t.moved == [])
  }

  ghost predicate CallOk(t: Task) {
    && (!t.loc.Idle? ==> Accepted(t.call, t.pid)) && (t.loc.WakingHeld? ==> t.loc.wakes != [])
    && (CurrentOp(t.loc).Some? ==> Continues(t, CurrentOp(t.loc).value))
    && (NextOf(t.loc).Some? ==>
          match NextOf(t.loc).value
          case Return(rc) => Reports(t, rc)
          case Again(op) => Continues(t, op))
  }

  ghost predicate CallsOk(s: Sys) {
    forall i :: 0 <= i < |s.tasks| ==> CallOk(s.tasks[i])
  }

  ghost predicate StreamsOk(s: Sys)
    requires Shaped(s)
  {
    forall id :: 0 <= id < P.PIPE_MAX ==> P.StreamOk(s.pipes[id])
  }

  ghost predicate Inv(s: Sys) {
    Shaped(s) && LocksOk(s) && SleepersOk(s) && CallsOk(s) && StreamsOk(s) && I.PostOk(s.post)
  }
}
