/** A pipe belongs to one process (src/pipe.c): no other may read, write or close it. So an owner asleep on
    its own pipe has nobody to wake it, except from outside. */
module BlockingOwner {
  import opened Common
  import opened Blocking
  import opened BlockingProof
  import P = Pipe
  import I = Ipc
  import S = Scheduler

  predicate DistinctPids(s: Sys) {
    forall i, j :: 0 <= i < j < |s.tasks| ==> s.tasks[i].pid != s.tasks[j].pid
  }

  /** A pipe that process pid has open. */
  predicate Owns(s: Sys, pid: nat, id: nat) {
    Shaped(s) && PipeId(id) && s.pipes[id].pipe.used && s.pipes[id].pipe.owner == pid
  }

  predicate OfPipe(w: Want, id: nat) { w == Data(id) || w == Space(id) }

  /** Process i sleeps on its own pipe, in a call that has moved nothing: it is not running any more. */
  predicate OwnerSleeps(s: Sys, i: nat, id: nat) {
    && i < |s.tasks| && Owns(s, s.tasks[i].pid, id)
    && var t := s.tasks[i];
    && t.loc.Asleep? && AsleepResult(t.loc.op) == P.BLOCKED && OfPipe(t.loc.w, id) && AsleepFor(t, t.loc.w)
  }

  /** A critical section of another process leaves the pipe alone and owes no wakeup for it. */
  lemma OthersRefused(s: Sys, op: Op, pid: nat, owner: nat, id: nat)
    requires Owns(s, owner, id) && pid != owner && OpOk(op)
    ensures var a := Act(s, op, pid);
      && |a.pipes| == P.PIPE_MAX && a.pipes[id].pipe == s.pipes[id].pipe
      && forall w :: OfPipe(w, id) ==> !Owes(a.loc, w)
  {
    hide I.Send, I.Receive, I.PostSend, I.PostReceive;
  }

  /** A step from outside on process i, or a wakeup on the channel of w. */
  predicate MadeReady(s: Sys, step: Step, i: nat, w: Want)
    requires Enabled(s, step)
  {
    (step.Outside? && step.i == i) || (step.Wake? && Channel(s.tasks[step.i].loc.wakes[0]) == Channel(w))
  }

  lemma PidsKept(s: Sys, step: Step)
    requires Enabled(s, step)
    ensures var s' := Do(s, step);
      |s'.tasks| == |s.tasks| && forall j :: 0 <= j < |s.tasks| ==> s'.tasks[j].pid == s.tasks[j].pid
  {
    hide Act, Channel, Accepted, OpOk, Ready;
  }

  /** Only the owner changes a pipe. */
  lemma PipeKept(s: Sys, step: Step, i: nat, id: nat)
    requires Enabled(s, step) && DistinctPids(s) && i < |s.tasks| && Owns(s, s.tasks[i].pid, id)
    requires step.Work? ==> step.i != i
    ensures Shaped(Do(s, step)) && Do(s, step).pipes[id].pipe == s.pipes[id].pipe
  {
    if step.Work? { OthersRefused(s, s.tasks[step.i].loc.op, s.tasks[step.i].pid, s.tasks[i].pid, id); }
    hide Act, Channel, Accepted, OpOk, Ready;
  }

  /** Only the owner comes to owe a wakeup for its pipe. */
  lemma NothingOwed(s: Sys, step: Step, i: nat, id: nat, w: Want)
    requires Enabled(s, step) && DistinctPids(s) && i < |s.tasks| && Owns(s, s.tasks[i].pid, id) && OfPipe(w, id)
    requires step.Work? ==> step.i != i
    ensures Owed(Do(s, step), w) ==> Owed(s, w)
  {
    var s' := Do(s, step);
    PidsKept(s, step);
    if Owed(s', w) {
      var j :| 0 <= j < |s'.tasks| && Owes(s'.tasks[j].loc, w);
      OwesBefore(s, step, i, id, w, j);
    }
  }

  lemma OwesBefore(s: Sys, step: Step, i: nat, id: nat, w: Want, j: nat)
    requires Enabled(s, step) && DistinctPids(s) && i < |s.tasks| && Owns(s, s.tasks[i].pid, id) && OfPipe(w, id)
    requires (step.Work? ==> step.i != i) && j < |s.tasks| && Owes(Do(s, step).tasks[j].loc, w)
    ensures Owes(s.tasks[j].loc, w)
  {
    if step.Work? { OthersRefused(s, s.tasks[step.i].loc.op, s.tasks[step.i].pid, s.tasks[i].pid, id); }
    hide Act, Channel, Accepted, OpOk, Ready;
  }

  /** A process asleep in a call that has moved nothing takes no step; only these make it ready. */
  lemma SleeperKept(s: Sys, step: Step, i: nat)
    requires Enabled(s, step) && i < |s.tasks| && s.tasks[i].loc.Asleep? && AsleepFor(s.tasks[i], s.tasks[i].loc.w)
    requires AsleepResult(s.tasks[i].loc.op) == P.BLOCKED && !MadeReady(s, step, i, s.tasks[i].loc.w)
    ensures Do(s, step).tasks[i] == s.tasks[i] && (step.Work? ==> step.i != i)
  {
    hide Act, Channel, Accepted, OpOk, Ready;
  }

  /** What a step does to a sleeping owner and its pipe: it wakes the owner from outside or by a wakeup on the
      channel, or leaves both alone; and it brings no such wakeup about. */
  lemma OwnerStep(s: Sys, step: Step, i: nat, id: nat)
    requires Enabled(s, step) && OwnerSleeps(s, i, id) && DistinctPids(s) && !MadeReady(s, step, i, s.tasks[i].loc.w)
    ensures var s' := Do(s, step); var w := s.tasks[i].loc.w;
      && DistinctPids(s') && OwnerSleeps(s', i, id) && s'.tasks[i] == s.tasks[i]
      && s'.pipes[id].pipe == s.pipes[id].pipe && (Owed(s', w) ==> Owed(s, w))
  {
    hide Do, Enabled, Owed, MadeReady;
    PidsKept(s, step);
    SleeperKept(s, step, i);
    PipeKept(s, step, i, id);
    NothingOwed(s, step, i, id, s.tasks[i].loc.w);
  }

  // ---------------------------------------------------------------- runs

  /** Two wakeups on one channel are the same, unless one is for the mail of a process whose number the pipe
      channels reach. */
  lemma PipeChannels(v: Want, w: Want, id: nat)
    requires OfPipe(w, id) && PipeId(id)
    ensures Channel(v) == Channel(w) ==> v == w || v.Mail?
  {}

  /** The one process number, up to 2^32, whose mail is waited for on a channel of this pipe. */
  lemma MailChannels(pid: nat, id: nat)
    requires PipeId(id) && pid < U32
    ensures Channel(Mail(pid)) == Channel(Data(id)) <==> pid == 0x06F9_0D00 + 2 * id
    ensures Channel(Mail(pid)) == Channel(Space(id)) <==> pid == 0x06F9_0D00 + 2 * id + 1
  {}

  /** No step of the run is from outside on process i, or the wakeup for a message on the channel of w. */
  ghost predicate LeftAlone(s: Sys, steps: seq<Step>, i: nat, w: Want)
    requires IsRun(s, steps)
    decreases |steps|
  {
    steps == [] ||
      (var step := steps[0];
       && !(step.Outside? && step.i == i)
       && !(step.Wake? && s.tasks[step.i].loc.wakes[0].Mail? && Channel(s.tasks[step.i].loc.wakes[0]) == Channel(w))
       && LeftAlone(Do(s, step), steps[1..], i, w))
  }

  /** An owner asleep on its own pipe, with no wakeup for it still owed by an earlier owner of the slot, sleeps
      on whatever the other processes do: nobody else can fill or drain the pipe. */
  lemma {:induction false} OwnerSleepsOn(s: Sys, steps: seq<Step>, i: nat, id: nat)
    requires IsRun(s, steps) && OwnerSleeps(s, i, id) && DistinctPids(s) && !Owed(s, s.tasks[i].loc.w)
    requires LeftAlone(s, steps, i, s.tasks[i].loc.w)
    ensures OwnerSleeps(After(s, steps), i, id) && After(s, steps).pipes[id].pipe == s.pipes[id].pipe
    decreases |steps|
  {
    hide OwnerSleeps, DistinctPids, Owed, Do, Enabled, AsleepFor;
    if steps != [] {
      WakesNot(s, steps[0], i, id);
      OwnerStep(s, steps[0], i, id);
      OwnerSleepsOn(Do(s, steps[0]), steps[1..], i, id);
    }
  }

  lemma WakesNot(s: Sys, step: Step, i: nat, id: nat)
    requires Enabled(s, step) && OwnerSleeps(s, i, id) && !Owed(s, s.tasks[i].loc.w) && !(step.Outside? && step.i == i)
    requires !(step.Wake? && s.tasks[step.i].loc.wakes[0].Mail?
               && Channel(s.tasks[step.i].loc.wakes[0]) == Channel(s.tasks[i].loc.w))
    ensures !MadeReady(s, step, i, s.tasks[i].loc.w)
  {
    if step.Wake? {
      PipeChannels(s.tasks[step.i].loc.wakes[0], s.tasks[i].loc.w, id);
      assert Owes(s.tasks[step.i].loc, s.tasks[step.i].loc.wakes[0]);
    }
  }

  // ---------------------------------------------------------------- a run that ends there

  function Resting1(pid: nat): Task { Task(pid, S.Running, 0, None, Idle, Create(0), []) }

  /** Two processes, and nothing open. */
  function TwoProcesses(): Sys {
    Sys([Resting1(1), Resting1(2)], seq(P.PIPE_MAX, _ => P.Logged(P.Closed(), [], [])),
        I.Post(I.EmptyBox(), [], []), None, None, None)
  }

  lemma Then(s: Sys, step: Step, rest: seq<Step>)
    requires Enabled(s, step) && IsRun(Do(s, step), rest)
    ensures IsRun(s, [step] + rest) && After(s, [step] + rest) == After(Do(s, step), rest)
  {
    assert ([step] + rest)[0] == step && ([step] + rest)[1..] == rest;
    hide Do, Enabled;
  }

  lemma {:induction false} Joined(s: Sys, a: seq<Step>, b: seq<Step>)
    requires IsRun(s, a) && IsRun(After(s, a), b)
    ensures IsRun(s, a + b) && After(s, a + b) == After(After(s, a), b)
    decreases |a|
  {
    hide Do, Enabled;
    if a == [] {
      assert a + b == b;
    } else {
      Joined(Do(s, a[0]), a[1..], b);
      assert a + b == [a[0]] + (a[1..] + b);
      Then(s, a[0], a[1..] + b);
    }
  }

  /** A call up to the end of its first critical section. */
  function Entering(op: Op): seq<Step> { [Begin(0, op)] + [Acquire(0)] + [Work(0)] }

  /** Process 0 inside its critical section, everything else as at the start. */
  function Entered(s: Sys, op: Op): Sys
    requires |s.tasks| == 2 && Shaped(s) && OpOk(op) && UsesPipes(op)
  {
    var a := Act(s, op, s.tasks[0].pid);
    s.(tasks := s.tasks[0 := s.tasks[0].(loc := a.loc, call := op, moved := a.added)],
       pipes := a.pipes, post := a.post, pipeLock := Some(0))
  }

  lemma Enters(s: Sys, op: Op)
    requires Shaped(s) && |s.tasks| == 2 && s.tasks[0].loc.Idle? && s.pipeLock.None? && Accepted(op, s.tasks[0].pid)
    requires OpOk(op) && UsesPipes(op)
    ensures IsRun(s, Entering(op)) && After(s, Entering(op)) == Entered(s, op)
  {
    hide ActRead, ActWrite, ActClose, ActCreate, ActSend, ActReceive;
    var a := Do(s, Begin(0, op));
    var b := Do(a, Acquire(0));
    assert b == s.(tasks := s.tasks[0 := s.tasks[0].(loc := Holding(op), call := op, moved := [])],
      pipeLock := Some(0));
    SameAct(s, b, op, s.tasks[0].pid);
    var c := Do(b, Work(0));
    assert [] + Act(s, op, s.tasks[0].pid).added == Act(s, op, s.tasks[0].pid).added;
    assert c.tasks == Entered(s, op).tasks && c == Entered(s, op);
    hide Do, Enabled, Act, Entered;
    assert IsRun(c, []) && After(c, []) == c;
    Then(b, Work(0), []);
    Then(a, Acquire(0), [Work(0)]);
    Then(s, Begin(0, op), [Acquire(0)] + [Work(0)]);
    assert [Work(0)] + [] == [Work(0)];
    assert [Begin(0, op)] + ([Acquire(0)] + [Work(0)]) == Entering(op);
  }

  /** A critical section looks at the pipes and the letters only. */
  lemma SameAct(s: Sys, s': Sys, op: Op, pid: nat)
    requires Shaped(s) && OpOk(op) && s'.pipes == s.pipes && s'.post == s.post
    ensures Act(s', op, pid) == Act(s, op, pid)
  {}

  /** Process 1 has the pipes below n open, empty, and nobody is inside a call. */
  predicate OpenBelow(s: Sys, n: nat) {
    && Shaped(s) && |s.tasks| == 2 && s.tasks[0].pid == 1 && s.tasks[1] == Resting1(2) && s.tasks[0].loc.Idle?
    && s.tasks[0].want.None? && s.pipeLock.None? && s.mailLock.None? && s.procLock.None?
    && forall id :: 0 <= id < P.PIPE_MAX ==> s.pipes[id].pipe == if id < n then P.Opened(1) else P.Closed()
  }

  function Leaving(): seq<Step> { [Release(0)] + [Finish(0)] }

  lemma OpensNext(s: Sys, id: nat)
    requires OpenBelow(s, id) && PipeId(id)
    ensures var steps := Entering(Create(id)) + Leaving(); IsRun(s, steps) && OpenBelow(After(s, steps), id + 1)
  {
    Enters(s, Create(id));
    var u := Entered(s, Create(id));
    var v := Do(u, Release(0));
    var w := Do(v, Finish(0));
    assert OpenBelow(w, id + 1);
    hide Do, Enabled, OpenBelow, Entered, Entering;
    assert IsRun(w, []) && After(w, []) == w;
    Then(v, Finish(0), []);
    Then(u, Release(0), [Finish(0)]);
    assert [Finish(0)] + [] == [Finish(0)];
    Joined(s, Entering(Create(id)), Leaving());
  }

  function Dozing(): seq<Step> { [SleepLock(0)] + ([Mark(0)] + ([DropProcessLock(0)] + ([DropLock(0)] + []))) }

  /** Process 0 has found its empty pipe and nobody else does anything. */
  predicate FoundEmpty(s: Sys, id: nat) {
    && Owns(s, 1, id) && |s.tasks| == 2 && s.tasks[0].pid == 1 && s.tasks[1] == Resting1(2) && s.procLock.None?
    && s.tasks[0].loc == Sleeping(Data(id), Read(id, 5))
  }

  lemma FindsEmpty(s: Sys, id: nat)
    requires OpenBelow(s, id + 1) && PipeId(id)
    ensures FoundEmpty(Entered(s, Read(id, 5)), id)
  {}

  lemma Dozes(u: Sys, id: nat)
    requires FoundEmpty(u, id)
    ensures IsRun(u, Dozing())
    ensures var d := After(u, Dozing());
      OwnerSleeps(d, 0, id) && DistinctPids(d) && d.tasks[0].loc.w == Data(id) && !Owed(d, Data(id))
  {
    hide Act, ActRead, P.ReadRound;
    var a := Do(u, SleepLock(0));
    var b := Do(a, Mark(0));
    var c := Do(b, DropProcessLock(0));
    var d := Do(c, DropLock(0));
    assert d.tasks == [d.tasks[0], Resting1(2)];
    assert OwnerSleeps(d, 0, id) && DistinctPids(d) && d.tasks[0].loc.w == Data(id);
    assert !Owed(d, Data(id));
    hide Do, Enabled, OwnerSleeps, Owed, DistinctPids;
    assert IsRun(d, []) && After(d, []) == d;
    Then(c, DropLock(0), []);
    Then(b, DropProcessLock(0), [DropLock(0)] + []);
    Then(a, Mark(0), [DropProcessLock(0)] + ([DropLock(0)] + []));
    Then(u, SleepLock(0), [Mark(0)] + ([DropProcessLock(0)] + ([DropLock(0)] + [])));
  }

  lemma ReadsAlone(s: Sys, id: nat)
    requires OpenBelow(s, id + 1) && PipeId(id)
    ensures var steps := Entering(Read(id, 5)) + Dozing();
      && IsRun(s, steps) && OwnerSleeps(After(s, steps), 0, id) && DistinctPids(After(s, steps))
      && After(s, steps).tasks[0].loc.w == Data(id) && !Owed(After(s, steps), Data(id))
  {
    OpenFacts(s, id);
    hide OpenBelow, Entered, Entering, OwnerSleeps, Owed, DistinctPids, FoundEmpty, IsRun, After, Dozing;
    Enters(s, Read(id, 5));
    FindsEmpty(s, id);
    Dozes(Entered(s, Read(id, 5)), id);
    Joined(s, Entering(Read(id, 5)), Dozing());
  }

  lemma OpenFacts(s: Sys, id: nat)
    requires OpenBelow(s, id + 1) && PipeId(id)
    ensures Shaped(s) && |s.tasks| == 2 && s.tasks[0].loc.Idle? && s.pipeLock.None?
    ensures Accepted(Read(id, 5), s.tasks[0].pid)
  {}

  /** A process opens two pipes and reads from the second. */
  function ReadAlone(): seq<Step> {
    Entering(Create(0)) + Leaving() + (Entering(Create(1)) + Leaving()) + (Entering(Read(1, 5)) + Dozing())
  }

  /** From the start: the owner of a pipe sleeps on it, nobody owes it a wakeup, and nothing the other process
      does will wake it. */
  lemma OwnerAlone()
    ensures Fresh(TwoProcesses()) && IsRun(TwoProcesses(), ReadAlone())
    ensures var u := After(TwoProcesses(), ReadAlone());
      && OwnerSleeps(u, 0, 1) && DistinctPids(u) && u.tasks[0].loc.w == Data(1) && !Owed(u, Data(1))
  {
    var s := TwoProcesses();
    var first, second, third := Entering(Create(0)) + Leaving(), Entering(Create(1)) + Leaving(),
      Entering(Read(1, 5)) + Dozing();
    assert OpenBelow(s, 0) && Fresh(s);
    hide Entering, Leaving, Dozing, OpenBelow, TwoProcesses, OwnerSleeps, Owed, DistinctPids, IsRun, After;
    OpensNext(s, 0);
    OpensNext(After(s, first), 1);
    Joined(s, first, second);
    ReadsAlone(After(s, first + second), 1);
    Joined(s, first + second, third);
  }
}
