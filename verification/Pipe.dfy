/** Pipes (src/pipe.c): a 1024-byte ring with counted readers and writers. `Pipe` is what a pipe means,
    the bytes in it in order; class Ring is the ring that holds them. */
module Pipe {
  import opened Common

  const PIPE_MAX: nat := 16
  const CAPACITY: nat := 1024
  const BLOCKED: int := -2

  datatype Pipe = Pipe(used: bool, owner: nat, readers: nat, writers: nat, bytes: seq<byte>)

  predicate PipeOk(p: Pipe) { |p.bytes| <= CAPACITY }

  type Pipes = s: seq<Pipe> | |s| == PIPE_MAX witness seq(PIPE_MAX, _ => Closed())

  function Closed(): Pipe { Pipe(false, 0, 0, 0, []) }

  // ---------------------------------------------------------------- handles and channels

  /** decode: the pipe and the side a handle names. */
  function Decode(h: nat): Option<(nat, nat)> {
    if h < 2 || h / 2 >= PIPE_MAX then None else Some((h / 2, h % 2))
  }

  /** What pipe_create hands out for one side of slot i. */
  function Handle(i: nat, side: nat): nat { 2 * i + side }

  /** Both ends decode to the pipe and side they were made for in every slot but slot 0, where neither end
      is accepted by any operation. */
  lemma HandleRoundTrip(i: nat, side: nat)
    requires i < PIPE_MAX && side < 2
    ensures Decode(Handle(i, side)) == Some((i, side)) <==> i != 0
    ensures i == 0 ==> Decode(Handle(i, side)).None?
  {
    assert (2 * i + side) / 2 == i && (2 * i + side) % 2 == side;
  }

  /** The first slot not in use. */
  function FirstUnused(ps: Pipes, from: nat): (r: Option<nat>)
    requires from <= PIPE_MAX
    ensures r.Some? ==> from <= r.value < PIPE_MAX && !ps[r.value].used
    ensures forall i :: from <= i < (if r.Some? then r.value else PIPE_MAX) ==> ps[i].used
    decreases PIPE_MAX - from
  {
    if from == PIPE_MAX then None else if !ps[from].used then Some(from) else FirstUnused(ps, from + 1)
  }

  // ---------------------------------------------------------------- one round under the lock

  /** How a round under the lock ends: refused, so many bytes moved, nothing left and nobody to write, or
      nothing to do but sleep. */
  datatype Round = Refused | Moved(n: nat) | EndOfFile | Sleep

  function Min(a: nat, b: nat): nat { if a < b then a else b }

  function ReadRound(p: Pipe, pid: nat, capacity: nat): (Pipe, Round, seq<byte>) {
    if !p.used || p.owner != pid then (p, Refused, [])
    else if p.bytes != [] then
      var n := Min(|p.bytes|, capacity);
      (p.(bytes := p.bytes[n..]), Moved(n), p.bytes[..n])
    else if p.writers == 0 then (p, EndOfFile, [])
    else (p, Sleep, [])
  }

  function WriteRound(p: Pipe, pid: nat, data: seq<byte>): (Pipe, Round) {
    if !p.used || p.owner != pid || p.readers == 0 then (p, Refused)
    else if |p.bytes| < CAPACITY then
      var n := Min(|data|, CAPACITY - |p.bytes|);
      (p.(bytes := p.bytes + data[..n]), Moved(n))
    else (p, Sleep)
  }

  function CloseRound(p: Pipe, pid: nat, side: nat): (Pipe, Round) {
    if !p.used || p.owner != pid then (p, Refused)
    else
      var q := if side == 1 then p.(writers := if p.writers > 0 then p.writers - 1 else 0)
               else p.(readers := if p.readers > 0 then p.readers - 1 else 0);
      (if q.readers == 0 && q.writers == 0 then q.(used := false) else q, Moved(0))
  }

  function Opened(owner: nat): Pipe { Pipe(true, owner, 1, 1, []) }

  // ---------------------------------------------------------------- the ring

  /** The place k bytes after `from` on the ring. */
  function On(from: nat, k: nat): (r: nat) ensures r < CAPACITY { (from + k) % CAPACITY }

  lemma OnStep(from: nat, k: nat)
    requires from < CAPACITY
    ensures On((from + 1) % CAPACITY, k) == On(from, k + 1)
    ensures (On(from, k) + 1) % CAPACITY == On(from, k + 1)
  {}

  lemma OnDistinct(from: nat, j: nat, k: nat)
    requires from < CAPACITY && j < k < j + CAPACITY
    ensures On(from, j) != On(from, k)
  {}

  class Ring {
    var used: bool
    var owner: nat
    var readers: nat
    var writers: nat
    var head: nat
    var tail: nat
    var count: nat
    const data: array<byte>

    ghost predicate Valid()
      reads this
    {
      data.Length == CAPACITY && tail < CAPACITY && count <= CAPACITY && head == On(tail, count)
    }

    /** The bytes in the ring, oldest first. */
    ghost function Contents(): (s: seq<byte>)
      requires Valid()
      reads this, data
      ensures |s| == count
    {
      seq(count, k requires 0 <= k < count && Valid() reads this, data => data[On(tail, k)])
    }

    ghost function View(): Pipe
      requires Valid()
      reads this, data
    {
      Pipe(used, owner, readers, writers, Contents())
    }

    constructor ()
      ensures Valid() && View() == Closed() && fresh(data)
    {
      used, owner, readers, writers, head, tail, count := false, 0, 0, 0, 0, 0, 0;
      data := new byte[CAPACITY](_ => 0);
    }

    /** The part of pipe_create that fills a slot; what the ring held before is gone. */
    method Open(pid: nat)
      requires Valid()
      modifies this
      ensures Valid() && View() == Opened(pid)
    {
      used, owner, readers, writers := true, pid, 1, 1;
      head, tail, count := 0, 0, 0;
    }

    /** The copy loop of pipe_read, and `count -= n` after it. */
    method Take(n: nat) returns (out: seq<byte>)
      requires Valid() && n <= count
      modifies this`tail, this`count
      ensures Valid()
      ensures out == old(Contents())[..n] && Contents() == old(Contents())[n..]
    {
      out := [];
      ghost var was, from := Contents(), tail;
      for i := 0 to n
        invariant count == old(count) && tail == On(from, i) && tail < CAPACITY && out == was[..i]
      {
        out := out + [data[tail]];
        OnStep(from, i);
        tail := (tail + 1) % CAPACITY;
      }
      count := count - n;
      forall k | 0 <= k < count ensures data[On(tail, k)] == was[n + k] {
        OnOn(from, n, k);
      }
      OnOn(from, n, count);
    }

    /** The copy loop of pipe_write, and `count += n` after it. */
    method Append(bytes: seq<byte>)
      requires Valid() && |bytes| <= CAPACITY - count
      modifies this`head, this`count, data
      ensures Valid() && Contents() == old(Contents()) + bytes
    {
      hide On;
      ghost var was := Contents();
      for i := 0 to |bytes|
        invariant count == old(count) && head == On(tail, count + i)
        invariant forall k :: 0 <= k < count ==> data[On(tail, k)] == was[k]
        invariant forall k :: count <= k < count + i ==> data[On(tail, k)] == bytes[k - count]
      {
        forall k | 0 <= k < count + i ensures On(tail, k) != head { OnDistinct(tail, k, count + i); }
        data[head] := bytes[i];
        OnStep(tail, count + i);
        head := (head + 1) % CAPACITY;
      }
      count := count + |bytes|;
      assert Contents() == was + bytes;
    }

    /** One turn of pipe_read's loop. */
    method ReadTurn(pid: nat, capacity: nat) returns (r: Round, out: seq<byte>)
      requires Valid()
      modifies this`tail, this`count
      ensures Valid() && (View(), r, out) == ReadRound(old(View()), pid, capacity)
    {
      out := [];
      if !used || owner != pid { return Refused, out; }
      if count != 0 {
        var n := if count < capacity then count else capacity;
        out := Take(n);
        return Moved(n), out;
      }
      if writers == 0 { return EndOfFile, out; }
      r := Sleep;
    }

    /** One turn of pipe_write's loop, for the bytes not written yet. */
    method WriteTurn(pid: nat, rest: seq<byte>) returns (r: Round)
      requires Valid()
      modifies this`head, this`count, data
      ensures Valid() && (View(), r) == WriteRound(old(View()), pid, rest)
    {
      if !used || owner != pid || readers == 0 { return Refused; }
      var space := CAPACITY - count;
      if space == 0 { return Sleep; }
      var n := if |rest| < space then |rest| else space;
      Append(rest[..n]);
      r := Moved(n);
    }

    /** pipe_close under the lock. */
    method CloseTurn(pid: nat, side: nat) returns (r: Round)
      requires Valid()
      modifies this`used, this`readers, this`writers
      ensures Valid() && (View(), r) == CloseRound(old(View()), pid, side)
    {
      if !used || owner != pid { return Refused; }
      if side == 1 {
        if writers != 0 { writers := writers - 1; }
      } else {
        if readers != 0 { readers := readers - 1; }
      }
      if readers == 0 && writers == 0 { used := false; }
      assert Contents() == old(Contents());
      r := Moved(0);
    }

    /** pipe_write when nothing else touches the pipe: it fills the ring and, if that was not enough, goes
        to sleep. The result is what was appended; BLOCKED, or -1 with nothing to show, when nothing was. */
    method Write(pid: nat, bytes: seq<byte>, canSleep: bool) returns (rc: int, done: nat)
      requires Valid() && bytes != []
      modifies this`head, this`count, data
      ensures Valid() && done <= |bytes| && View() == old(View()).(bytes := old(View()).bytes + bytes[..done])
      ensures rc >= 0 ==> rc == done && done > 0
      ensures rc == BLOCKED ==> done == 0 && |old(View()).bytes| == CAPACITY
      ensures done < |bytes| && rc >= 0 ==> |View().bytes| == CAPACITY
      ensures rc == -1 <==> !used || owner != pid || readers == 0 || (!canSleep && done < |bytes|)
      ensures rc == -1 || rc == BLOCKED || rc >= 0
      ensures used && owner == pid && readers > 0 ==> done == Min(|bytes|, CAPACITY - |old(View()).bytes|)
    {
      done := 0;
      ghost var was := View();
      while true
        invariant Valid() && done < |bytes| && View() == was.(bytes := was.bytes + bytes[..done])
        invariant done > 0 ==> used && owner == pid && readers > 0 && |View().bytes| == CAPACITY
        decreases |bytes| - done
      {
        ghost var before := View().bytes;
        var r := WriteTurn(pid, bytes[done..]);
        if r.Refused? { return if done > 0 then done else -1, done; }
        if r.Sleep? {
          if canSleep { return if done > 0 then done else BLOCKED, done; }
          return -1, done;
        }
        assert bytes[..done] + bytes[done..][..r.n] == bytes[..done + r.n];
        done := done + r.n;
        if done == |bytes| { return done, done; }
      }
    }
  }

  lemma OnOn(from: nat, n: nat, k: nat)
    ensures On(On(from, n), k) == On(from, n + k)
  {}

  // ---------------------------------------------------------------- any run on one pipe

  datatype Call =
    | Create(owner: nat)
    | Read(pid: nat, capacity: nat)
    | Write(pid: nat, data: seq<byte>)
    | Close(pid: nat, side: nat)

  /** A pipe, and everything written to it and read from it since it was created. */
  datatype Logged = Logged(pipe: Pipe, put: seq<byte>, got: seq<byte>)

  function Turn(l: Logged, c: Call): Logged {
    match c
    case Create(owner) => if l.pipe.used then l else Logged(Opened(owner), [], [])
    case Read(pid, capacity) =>
      var (p, r, out) := ReadRound(l.pipe, pid, capacity);
      l.(pipe := p, got := l.got + out)
    case Write(pid, data) =>
      var (p, r) := WriteRound(l.pipe, pid, data);
      l.(pipe := p, put := if r.Moved? then l.put + data[..r.n] else l.put)
    case Close(pid, side) => l.(pipe := CloseRound(l.pipe, pid, side).0)
  }

  predicate StreamOk(l: Logged) {
    PipeOk(l.pipe) && l.put == l.got + l.pipe.bytes
  }

  /** Nothing is lost, repeated or reordered: what was written is what was read followed by what is still
      in the ring. */
  lemma StreamKept(l: Logged, c: Call)
    requires StreamOk(l)
    ensures StreamOk(Turn(l, c))
  {
    match c
    case Read(pid, capacity) =>
      var (p, r, out) := ReadRound(l.pipe, pid, capacity);
      assert l.pipe.bytes == out + p.bytes;
      assert l.put == (l.got + out) + p.bytes;
    case Write(pid, data) =>
      var (p, r) := WriteRound(l.pipe, pid, data);
      if r.Moved? { assert l.put + data[..r.n] == l.got + (l.pipe.bytes + data[..r.n]); }
    case _ =>
  }
}
