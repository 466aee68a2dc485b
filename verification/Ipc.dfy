/** Messages between processes (src/ipc.c): 64 slots, the first free one taken on sending and the first
    one addressed to the receiver on receiving. The bag of messages is conserved; the letters of one
    receiver arrive in sending order exactly as long as each goes to a slot with none of them behind it. */
module Ipc {
  import opened Common

  const MESSAGE_MAX: nat := 128
  const QUEUE_MAX: nat := 64
  const EMPTY: int := -2

  /** One slot. `id` is the serial number of the message, for the proofs. */
  datatype Message = Message(used: bool, sender: nat, receiver: nat, data: seq<byte>, id: nat)

  type Box = b: seq<Message> | |b| == QUEUE_MAX witness seq(QUEUE_MAX, _ => Nothing())

  function Nothing(): Message { Message(false, 0, 0, [], 0) }

  /** ipc_init. */
  function EmptyBox(): Box { seq<Message>(QUEUE_MAX, _ => Nothing()) }

  predicate For(m: Message, pid: nat) { m.used && m.receiver == pid }

  function FirstFree(b: Box, from: nat): (r: Option<nat>)
    requires from <= QUEUE_MAX
    ensures r.Some? ==> from <= r.value < QUEUE_MAX && !b[r.value].used
    ensures forall i :: from <= i < (if r.Some? then r.value else QUEUE_MAX) ==> b[i].used
    decreases QUEUE_MAX - from
  {
    if from == QUEUE_MAX then None else if !b[from].used then Some(from) else FirstFree(b, from + 1)
  }

  function FirstFor(b: Box, pid: nat, from: nat): (r: Option<nat>)
    requires from <= QUEUE_MAX
    ensures r.Some? ==> from <= r.value < QUEUE_MAX && For(b[r.value], pid)
    ensures forall i :: from <= i < (if r.Some? then r.value else QUEUE_MAX) ==> !For(b[i], pid)
    decreases QUEUE_MAX - from
  {
    if from == QUEUE_MAX then None else if For(b[from], pid) then Some(from) else FirstFor(b, pid, from + 1)
  }

  /** ipc_send under the lock: the slot the message went to. */
  function Send(b: Box, to: nat, sender: nat, data: seq<byte>, id: nat): (Box, Option<nat>) {
    if to == 0 || data == [] || |data| > MESSAGE_MAX then (b, None)
    else
      match FirstFree(b, 0)
      case None => (b, None)
      case Some(i) => (b[i := Message(true, sender, to, data, id)], Some(i))
  }

  /** ipc_recv under the lock: the slot is emptied, its other fields stay. */
  function Receive(b: Box, pid: nat, capacity: nat): (Box, Option<Message>) {
    if pid == 0 || capacity == 0 then (b, None)
    else
      match FirstFor(b, pid, 0)
      case None => (b, None)
      case Some(i) => (b[i := b[i].(used := false)], Some(b[i]))
  }

  /** The bytes a receiver gets of a message. */
  function Delivered(m: Message, capacity: nat): seq<byte> { Cut(m.data, capacity) }

  function Cut(data: seq<byte>, capacity: nat): seq<byte> {
    if |data| < capacity then data else data[..capacity]
  }

  function Pending(b: Box, pid: nat, n: nat): (r: nat)
    requires n <= QUEUE_MAX
    ensures r <= n
  {
    if n == 0 then 0 else Pending(b, pid, n - 1) + (if For(b[n - 1], pid) then 1 else 0)
  }

  // ---------------------------------------------------------------- in place

  class Queue {
    const messages: array<Message>

    ghost predicate Wired() { messages.Length == QUEUE_MAX }

    function Slots(): Box
      requires Wired()
      reads messages
    {
      messages[..]
    }

    constructor ()
      ensures Wired() && fresh(messages) && Slots() == EmptyBox()
    {
      messages := new Message[QUEUE_MAX](_ => Nothing());
      new;
      assert messages[..] == EmptyBox();
    }

    method CopyBytes(src: seq<byte>, n: nat) returns (dst: seq<byte>)
      requires n <= |src|
      ensures dst == src[..n]
    {
      dst := [];
      for j := 0 to n
        invariant dst == src[..j]
      {
        dst := dst + [src[j]];
      }
    }

    method SendMessage(to: nat, sender: nat, data: seq<byte>, id: nat) returns (rc: int)
      requires Wired()
      modifies messages
      ensures Slots() == Send(old(Slots()), to, sender, data, id).0
      ensures rc == if Send(old(Slots()), to, sender, data, id).1.Some? then |data| else -1
    {
      if to == 0 || data == [] || |data| > MESSAGE_MAX { return -1; }
      for i := 0 to QUEUE_MAX
        invariant messages[..] == old(messages[..]) && FirstFree(messages[..], 0) == FirstFree(messages[..], i)
      {
        if !messages[i].used {
          var copy := CopyBytes(data, |data|);
          assert copy == data;
          messages[i] := Message(true, sender, to, copy, id);
          return |data|;
        }
      }
      rc := -1;
    }

    method ReceiveMessage(pid: nat, capacity: nat) returns (rc: int, sender: nat, bytes: seq<byte>)
      requires Wired()
      modifies messages
      ensures Slots() == Receive(old(Slots()), pid, capacity).0
      ensures match Receive(old(Slots()), pid, capacity).1
        case None => rc == (if pid == 0 || capacity == 0 then -1 else EMPTY)
        case Some(m) => bytes == Delivered(m, capacity) && rc == |bytes| && sender == m.sender
    {
      sender, bytes := 0, [];
      if pid == 0 || capacity == 0 { return -1, sender, bytes; }
      for i := 0 to QUEUE_MAX
        invariant messages[..] == old(messages[..]) && FirstFor(messages[..], pid, 0) == FirstFor(messages[..], pid, i)
      {
        if messages[i].used && messages[i].receiver == pid {
          var n := if |messages[i].data| < capacity then |messages[i].data| else capacity;
          bytes := CopyBytes(messages[i].data, n);
          sender := messages[i].sender;
          messages[i] := messages[i].(used := false);
          return n, sender, bytes;
        }
      }
      rc := EMPTY;
    }

    method CountPending(pid: nat) returns (n: nat)
      requires Wired()
      ensures n == if pid == 0 then 0 else Pending(Slots(), pid, QUEUE_MAX)
    {
      n := 0;
      if pid == 0 { return; }
      for i := 0 to QUEUE_MAX
        invariant n == Pending(messages[..], pid, i)
      {
        if messages[i].used && messages[i].receiver == pid { n := n + 1; }
      }
    }
  }

  // ---------------------------------------------------------------- the post office over a whole run

  /** A message as its sender gave it, and one as its receiver got it. */
  datatype Letter = Letter(sender: nat, receiver: nat, data: seq<byte>)
  datatype Receipt = Receipt(id: nat, taker: nat, sender: nat, bytes: seq<byte>, capacity: nat)

  /** The slots, every letter accepted so far, and every receipt. */
  datatype Post = Post(box: Box, sent: seq<Letter>, taken: seq<Receipt>)

  function PostSend(p: Post, to: nat, sender: nat, data: seq<byte>): Post {
    var (b, slot) := Send(p.box, to, sender, data, |p.sent|);
    if slot.Some? then Post(b, p.sent + [Letter(sender, to, data)], p.taken) else p
  }

  function PostReceive(p: Post, pid: nat, capacity: nat): Post {
    var (b, m) := Receive(p.box, pid, capacity);
    if m.None? then p
    else Post(b, p.sent, p.taken + [Receipt(m.value.id, pid, m.value.sender, Delivered(m.value, capacity), capacity)])
  }

  /** A slot holds the letter it is numbered with. */
  predicate SlotOk(m: Message, sent: seq<Letter>) {
    m.used ==> m.id < |sent| && sent[m.id] == Letter(m.sender, m.receiver, m.data)
  }

  /** A receipt is for a letter sent to the one who took it, cut to the room given. */
  predicate ReceiptOk(r: Receipt, sent: seq<Letter>) {
    && r.id < |sent| && sent[r.id].receiver == r.taker && sent[r.id].sender == r.sender
    && r.bytes == Cut(sent[r.id].data, r.capacity)
  }

  /** Where letter k is: in how many slots, and on how many receipts. */
  function Held(b: seq<Message>, k: nat): nat {
    if b == [] then 0 else Held(b[..|b| - 1], k) + (if b[|b| - 1].used && b[|b| - 1].id == k then 1 else 0)
  }

  function TakenTimes(taken: seq<Receipt>, k: nat): nat {
    if taken == [] then 0 else TakenTimes(taken[..|taken| - 1], k) + (if taken[|taken| - 1].id == k then 1 else 0)
  }

  /** Every letter is in exactly one place: one slot, or one receipt. */
  ghost predicate PostOk(p: Post) {
    && (forall i :: 0 <= i < QUEUE_MAX ==> SlotOk(p.box[i], p.sent))
    && (forall j :: 0 <= j < |p.taken| ==> ReceiptOk(p.taken[j], p.sent))
    && (forall k :: 0 <= k < |p.sent| ==> Held(p.box, k) + TakenTimes(p.taken, k) == 1)
  }

  lemma {:induction false} HeldUpdate(b: seq<Message>, i: nat, m: Message, k: nat)
    requires i < |b|
    ensures Held(b[i := m], k) ==
      Held(b, k) - (if b[i].used && b[i].id == k then 1 else 0) + (if m.used && m.id == k then 1 else 0)
  {
    var n := |b| - 1;
    if i < n {
      assert b[i := m][..n] == b[..n][i := m];
      HeldUpdate(b[..n], i, m, k);
    } else {
      assert b[i := m][..n] == b[..n];
    }
  }

  lemma {:induction false} HeldNone(b: seq<Message>, k: nat)
    requires forall i :: 0 <= i < |b| ==> !(b[i].used && b[i].id == k)
    ensures Held(b, k) == 0
  {
    if b != [] { HeldNone(b[..|b| - 1], k); }
  }

  lemma {:induction false} NeverTaken(taken: seq<Receipt>, k: nat)
    requires forall r :: 0 <= r < |taken| ==> taken[r].id != k
    ensures TakenTimes(taken, k) == 0
  {
    if taken != [] { NeverTaken(taken[..|taken| - 1], k); }
  }

  /** Sending keeps every letter in exactly one place. */
  lemma SendKeeps(p: Post, to: nat, sender: nat, data: seq<byte>)
    requires PostOk(p)
    ensures PostOk(PostSend(p, to, sender, data))
  {
    var q := PostSend(p, to, sender, data);
    if q != p {
      var slot := Send(p.box, to, sender, data, |p.sent|).1.value;
      forall k | 0 <= k < |q.sent| ensures Held(q.box, k) + TakenTimes(q.taken, k) == 1 {
        HeldUpdate(p.box, slot, q.box[slot], k);
        if k == |p.sent| {
          HeldNone(p.box, k);
          NeverTaken(p.taken, k);
        }
      }
    }
  }

  /** Receiving moves one letter of the receiver's from its slot to a receipt. */
  lemma ReceiveKeeps(p: Post, pid: nat, capacity: nat)
    requires PostOk(p)
    ensures PostOk(PostReceive(p, pid, capacity))
  {
    var q := PostReceive(p, pid, capacity);
    if q != p {
      var i := FirstFor(p.box, pid, 0).value;
      assert SlotOk(p.box[i], p.sent);
      forall k | 0 <= k < |q.sent| ensures Held(q.box, k) + TakenTimes(q.taken, k) == 1 {
        HeldUpdate(p.box, i, q.box[i], k);
        assert q.taken[..|q.taken| - 1] == p.taken;
      }
    }
  }

  /** Two receipts are for two letters. */
  lemma TakenOnce(p: Post, r: nat, s: nat)
    requires PostOk(p) && r < s < |p.taken|
    ensures p.taken[r].id != p.taken[s].id
  {
    if p.taken[r].id == p.taken[s].id {
      var k := p.taken[r].id;
      assert ReceiptOk(p.taken[r], p.sent);
      TwiceTaken(p.taken, r, s);
    }
  }

  lemma {:induction false} TwiceTaken(taken: seq<Receipt>, r: nat, s: nat)
    requires r < s < |taken| && taken[r].id == taken[s].id
    ensures TakenTimes(taken, taken[r].id) >= 2
  {
    var n := |taken| - 1;
    if s < n { TwiceTaken(taken[..n], r, s); } else { OnceTaken(taken[..n], r); }
  }

  lemma {:induction false} OnceTaken(taken: seq<Receipt>, r: nat)
    requires r < |taken|
    ensures TakenTimes(taken, taken[r].id) >= 1
  {
    if r < |taken| - 1 { OnceTaken(taken[..|taken| - 1], r); }
  }

  /** Sending fails on a well-formed message only when all 64 slots are in use, and receiving finds nothing
      only when nothing is addressed to the receiver. */
  lemma FailsOnlyWhen(b: Box, to: nat, sender: nat, data: seq<byte>, id: nat, capacity: nat)
    requires to != 0 && 0 < |data| <= MESSAGE_MAX && capacity > 0
    ensures Send(b, to, sender, data, id).1.None? <==> forall i :: 0 <= i < QUEUE_MAX ==> b[i].used
    ensures Receive(b, to, capacity).1.None? <==> forall i :: 0 <= i < QUEUE_MAX ==> !For(b[i], to)
  {}

  // ---------------------------------------------------------------- order

  /** The slots hold the letters for pid in the order they were sent. */
  ghost predicate InOrder(b: Box, pid: nat) {
    forall i, j :: 0 <= i < j < QUEUE_MAX && For(b[i], pid) && For(b[j], pid) ==> b[i].id < b[j].id
  }

  /** What a sender could check before the call: no letter for this receiver lies behind the slot the new
      one will take. */
  ghost predicate NoneBehind(b: Box, to: nat) {
    FirstFree(b, 0).Some? ==> forall j :: FirstFree(b, 0).value < j < QUEUE_MAX ==> !For(b[j], to)
  }

  /** An accepted letter keeps the order of a receiver's letters if and only if it is for somebody else or
      none of them lies behind its slot. */
  lemma SendOrderIff(b: Box, to: nat, sender: nat, data: seq<byte>, id: nat, pid: nat)
    requires InOrder(b, pid) && forall i :: 0 <= i < QUEUE_MAX && b[i].used ==> b[i].id < id
    requires Send(b, to, sender, data, id).1.Some?
    ensures InOrder(Send(b, to, sender, data, id).0, pid) <==> pid != to || NoneBehind(b, to)
  {
    var (c, slot) := Send(b, to, sender, data, id);
    var f := slot.value;
    assert c[f] == Message(true, sender, to, data, id);
    if pid == to && !NoneBehind(b, to) {
      var j :| f < j < QUEUE_MAX && For(b[j], to);
      assert For(c[f], pid) && For(c[j], pid) && c[j].id < c[f].id;
    }
  }

  /** Receiving keeps every order and takes the oldest letter there is for the receiver. */
  lemma ReceiveOldest(b: Box, pid: nat, capacity: nat, other: nat)
    requires InOrder(b, other)
    ensures InOrder(Receive(b, pid, capacity).0, other)
    ensures var m := Receive(b, pid, capacity).1;
      other == pid && m.Some? ==> forall i :: 0 <= i < QUEUE_MAX && For(b[i], pid) ==> m.value.id <= b[i].id
  {
    var slot := FirstFor(b, pid, 0);
    if Receive(b, pid, capacity).1.Some? && other == pid {
      forall i | 0 <= i < QUEUE_MAX && For(b[i], pid) ensures b[slot.value].id <= b[i].id {
        assert slot.value <= i;
      }
    }
  }

  /** The letters pid has taken came in the order they were sent. */
  ghost predicate ArrivedInOrder(p: Post, pid: nat) {
    forall r, s :: 0 <= r < s < |p.taken| && p.taken[r].taker == pid && p.taken[s].taker == pid ==>
      p.taken[r].id < p.taken[s].id
  }

  datatype PostOp = DoSend(to: nat, sender: nat, data: seq<byte>) | DoReceive(pid: nat, capacity: nat)

  function PostStep(p: Post, op: PostOp): Post {
    match op
    case DoSend(to, sender, data) => PostSend(p, to, sender, data)
    case DoReceive(pid, capacity) => PostReceive(p, pid, capacity)
  }

  function PostRun(p: Post, ops: seq<PostOp>): Post
    decreases |ops|
  {
    if ops == [] then p else PostRun(PostStep(p, ops[0]), ops[1..])
  }

  /** Every letter sent to pid along the run passes the test where it is sent. */
  ghost predicate NeverBehind(p: Post, ops: seq<PostOp>, pid: nat)
    decreases |ops|
  {
    ops != [] ==>
      && (ops[0].DoSend? && ops[0].to == pid ==> NoneBehind(p.box, pid))
      && NeverBehind(PostStep(p, ops[0]), ops[1..], pid)
  }

  /** In order so far: on the receipts, in the slots, and the receipts before the slots. */
  ghost predicate OrderOk(p: Post, pid: nat) {
    && PostOk(p) && InOrder(p.box, pid) && ArrivedInOrder(p, pid)
    && (forall r, i :: 0 <= r < |p.taken| && 0 <= i < QUEUE_MAX && p.taken[r].taker == pid && For(p.box[i], pid) ==>
          p.taken[r].id < p.box[i].id)
  }

  lemma SendInOrder(p: Post, to: nat, sender: nat, data: seq<byte>, pid: nat)
    requires OrderOk(p, pid) && (to == pid ==> NoneBehind(p.box, pid))
    ensures OrderOk(PostSend(p, to, sender, data), pid)
  {
    SendKeeps(p, to, sender, data);
    forall i | 0 <= i < QUEUE_MAX && p.box[i].used ensures p.box[i].id < |p.sent| { assert SlotOk(p.box[i], p.sent); }
    forall r | 0 <= r < |p.taken| ensures p.taken[r].id < |p.sent| { assert ReceiptOk(p.taken[r], p.sent); }
    hide PostOk, SlotOk, ReceiptOk;
    if Send(p.box, to, sender, data, |p.sent|).1.Some? { SendOrderIff(p.box, to, sender, data, |p.sent|, pid); }
  }

  /** No two slots hold the same letter. */
  lemma OtherSlot(p: Post, i: nat, j: nat)
    requires PostOk(p) && i < QUEUE_MAX && j < QUEUE_MAX && i != j && p.box[i].used && p.box[j].used
    ensures p.box[i].id != p.box[j].id
  {
    if p.box[i].id == p.box[j].id {
      assert SlotOk(p.box[i], p.sent);
      if i < j { TwiceHeld(p.box, i, j); } else { TwiceHeld(p.box, j, i); }
    }
  }

  lemma {:induction false} TwiceHeld(b: seq<Message>, i: nat, j: nat)
    requires i < j < |b| && b[i].used && b[j].used && b[i].id == b[j].id
    ensures Held(b, b[i].id) >= 2
  {
    var n := |b| - 1;
    if j < n { TwiceHeld(b[..n], i, j); } else { OnceHeld(b[..n], i); }
  }

  lemma {:induction false} OnceHeld(b: seq<Message>, i: nat)
    requires i < |b| && b[i].used
    ensures Held(b, b[i].id) >= 1
  {
    if i < |b| - 1 { OnceHeld(b[..|b| - 1], i); }
  }

  lemma ReceiveInOrder(p: Post, taker: nat, capacity: nat, pid: nat)
    requires OrderOk(p, pid)
    ensures OrderOk(PostReceive(p, taker, capacity), pid)
  {
    ReceiveKeeps(p, taker, capacity);
    var q := PostReceive(p, taker, capacity);
    ReceiveOldest(p.box, taker, capacity, pid);
    if q != p && taker == pid {
      var f := FirstFor(p.box, pid, 0).value;
      forall i | 0 <= i < QUEUE_MAX && i != f && For(p.box[i], pid) ensures p.box[f].id < p.box[i].id {
        OtherSlot(p, f, i);
      }
    }
    hide PostOk;
  }

  /** Letters arrive in the order they were sent, over every run in which each send to the receiver passes
      the test. */
  lemma {:induction false} ArriveInOrder(p: Post, ops: seq<PostOp>, pid: nat)
    requires OrderOk(p, pid) && NeverBehind(p, ops, pid)
    ensures OrderOk(PostRun(p, ops), pid) && ArrivedInOrder(PostRun(p, ops), pid)
    decreases |ops|
  {
    if ops != [] {
      match ops[0] {
        case DoSend(to, sender, data) => SendInOrder(p, to, sender, data, pid);
        case DoReceive(taker, capacity) => ReceiveInOrder(p, taker, capacity, pid);
      }
      ArriveInOrder(PostStep(p, ops[0]), ops[1..], pid);
    }
  }

  function NoPost(): Post { Post(EmptyBox(), [], []) }

  lemma NoPostOk(pid: nat)
    ensures OrderOk(NoPost(), pid)
  {}

  /** From the empty queue on. */
  lemma ArriveFromStart(ops: seq<PostOp>, pid: nat)
    requires NeverBehind(NoPost(), ops, pid)
    ensures ArrivedInOrder(PostRun(NoPost(), ops), pid)
  {
    NoPostOk(pid);
    hide OrderOk, PostRun, NeverBehind, NoPost;
    ArriveInOrder(NoPost(), ops, pid);
  }

  /** Receiving what there is for pid, n times. */
  function ReceiveAll(pid: nat, n: nat): (r: seq<PostOp>)
    ensures |r| == n && forall i :: 0 <= i < n ==> r[i] == DoReceive(pid, 1)
  {
    seq(n, _ => DoReceive(pid, 1))
  }

  lemma {:induction false} PendingLess(b: Box, c: Box, pid: nat, f: nat, n: nat)
    requires n <= QUEUE_MAX && f < QUEUE_MAX && For(b[f], pid) && c == b[f := b[f].(used := false)]
    ensures Pending(c, pid, n) == Pending(b, pid, n) - if f < n then 1 else 0
  {
    if n > 0 { PendingLess(b, c, pid, f, n - 1); }
  }

  /** One receiving that finds something: which slot, and what it leaves. */
  lemma ReceivesFirst(p: Post, pid: nat, i: nat) returns (f: nat)
    requires PostOk(p) && pid != 0 && i < QUEUE_MAX && For(p.box[i], pid)
    ensures f <= i && For(p.box[f], pid) && PostOk(PostReceive(p, pid, 1))
    ensures var q := PostReceive(p, pid, 1);
      && q.box == p.box[f := p.box[f].(used := false)] && |q.taken| == |p.taken| + 1
      && q.taken[..|p.taken|] == p.taken && q.taken[|p.taken|].id == p.box[f].id && q.taken[|p.taken|].taker == pid
      && Pending(q.box, pid, QUEUE_MAX) < Pending(p.box, pid, QUEUE_MAX)
  {
    f := FirstFor(p.box, pid, 0).value;
    ReceiveKeeps(p, pid, 1);
    PendingLess(p.box, PostReceive(p, pid, 1).box, pid, f, QUEUE_MAX);
  }

  lemma RunReceives(p: Post, pid: nat, m: nat)
    ensures PostRun(p, ReceiveAll(pid, m + 1)) == PostRun(PostReceive(p, pid, 1), ReceiveAll(pid, m))
  {
    assert ReceiveAll(pid, m + 1)[1..] == ReceiveAll(pid, m);
  }

  /** Exactly then: where the slots are out of order, receiving shows it. */
  lemma {:induction false} OutOfOrderShows(p: Post, pid: nat, i: nat, j: nat) returns (n: nat)
    requires PostOk(p) && pid != 0 && i < j < QUEUE_MAX && For(p.box[i], pid) && For(p.box[j], pid)
    requires p.box[i].id > p.box[j].id
    ensures !ArrivedInOrder(PostRun(p, ReceiveAll(pid, n)), pid)
    decreases Pending(p.box, pid, QUEUE_MAX)
  {
    hide PostOk, PostReceive, PostRun, ArrivedInOrder;
    var f := ReceivesFirst(p, pid, i);
    var q := PostReceive(p, pid, 1);
    if f < i {
      n := OutOfOrderShows(q, pid, i, j);
    } else {
      n := LateArrives(q, pid, |p.taken|, j);
    }
    RunReceives(p, pid, n);
    n := n + 1;
  }

  /** An older letter still to come will be taken after a newer one. */
  lemma {:induction false} LateArrives(p: Post, pid: nat, r: nat, j: nat) returns (n: nat)
    requires PostOk(p) && pid != 0 && r < |p.taken| && p.taken[r].taker == pid
    requires j < QUEUE_MAX && For(p.box[j], pid) && p.taken[r].id > p.box[j].id
    ensures !ArrivedInOrder(PostRun(p, ReceiveAll(pid, n)), pid)
    decreases Pending(p.box, pid, QUEUE_MAX)
  {
    hide PostOk, PostReceive, PostRun;
    var f := ReceivesFirst(p, pid, j);
    var q := PostReceive(p, pid, 1);
    assert q.taken[r] == q.taken[..|p.taken|][r];
    if f < j {
      n := LateArrives(q, pid, r, j);
    } else {
      assert !ArrivedInOrder(q, pid);
      n := 0;
      assert PostRun(q, ReceiveAll(pid, 0)) == q by { NoMore(q, pid); }
    }
    RunReceives(p, pid, n);
    n := n + 1;
  }

  lemma NoMore(p: Post, pid: nat)
    ensures PostRun(p, ReceiveAll(pid, 0)) == p
  {}

  /** From a post office in order, one accepted letter: whatever is then received arrives in order if and
      only if the letter passed the test. */
  lemma OrderIff(p: Post, to: nat, sender: nat, data: seq<byte>)
    requires OrderOk(p, to) && Send(p.box, to, sender, data, |p.sent|).1.Some?
    ensures (forall n: nat :: ArrivedInOrder(PostRun(PostSend(p, to, sender, data), ReceiveAll(to, n)), to))
      <==> NoneBehind(p.box, to)
  {
    var q := PostSend(p, to, sender, data);
    SendKeeps(p, to, sender, data);
    if NoneBehind(p.box, to) {
      SendInOrder(p, to, sender, data, to);
      forall n: nat ensures ArrivedInOrder(PostRun(q, ReceiveAll(to, n)), to) {
        JustReceives(q, to, n);
        ArriveInOrder(q, ReceiveAll(to, n), to);
      }
    } else {
      var f := FirstFree(p.box, 0).value;
      var j :| f < j < QUEUE_MAX && For(p.box[j], to);
      assert SlotOk(p.box[j], p.sent);
      hide PostOk, PostRun;
      var n := OutOfOrderShows(q, to, f, j);
    }
  }

  lemma {:induction false} JustReceives(p: Post, pid: nat, n: nat)
    ensures NeverBehind(p, ReceiveAll(pid, n), pid)
    decreases n
  {
    if n > 0 {
      assert ReceiveAll(pid, n)[1..] == ReceiveAll(pid, n - 1);
      JustReceives(PostReceive(p, pid, 1), pid, n - 1);
    }
  }

  /** A letter to 3 and one to 2; 3 takes its own; a second one to 2 goes in front of the first. */
  function OvertakingRun(): seq<PostOp> {
    [DoSend(3, 1, [1]), DoSend(2, 1, [1]), DoReceive(3, 1), DoSend(2, 1, [2]), DoReceive(2, 1), DoReceive(2, 1)]
  }

  /** The post office after the first four steps of that run. */
  function Crossed(): Post {
    PostSend(PostReceive(PostSend(PostSend(NoPost(), 3, 1, [1]), 2, 1, [1]), 3, 1), 2, 1, [2])
  }

  lemma CrossedSlots()
    ensures Crossed().box[0] == Message(true, 1, 2, [2], 2) && Crossed().box[1] == Message(true, 1, 2, [1], 1)
  {
    var a := PostSend(NoPost(), 3, 1, [1]);
    assert a.box[0] == Message(true, 1, 3, [1], 0) && |a.sent| == 1;
    assert FirstFree(a.box, 0) == Some(1);
    var b := PostSend(a, 2, 1, [1]);
    assert b.box[1] == Message(true, 1, 2, [1], 1) && |b.sent| == 2;
    assert FirstFor(b.box, 3, 0) == Some(0);
    var c := PostReceive(b, 3, 1);
    assert FirstFree(c.box, 0) == Some(0) && c.box[1] == b.box[1] && |c.sent| == 2;
  }

  /** Messages are not a queue: from the empty post office, a run after which process 2 has taken the second
      letter before the first. */
  lemma SecondMayArriveFirst()
    ensures !ArrivedInOrder(PostRun(NoPost(), OvertakingRun()), 2)
  {
    CrossedSlots();
    var d := Crossed();
    var e := PostReceive(d, 2, 1);
    var f := PostReceive(e, 2, 1);
    RunIs(e, f);
    hide PostRun, Crossed, PostSend;
    assert FirstFor(d.box, 2, 0) == Some(0);
    assert |e.taken| == |d.taken| + 1 && e.taken[|d.taken|].id == 2 && e.taken[|d.taken|].taker == 2;
    assert FirstFor(e.box, 2, 0) == Some(1);
    assert f.taken[|d.taken|] == e.taken[|d.taken|];
    assert f.taken[|d.taken| + 1].id == 1 && f.taken[|d.taken| + 1].taker == 2;
  }

  lemma RunIs(e: Post, f: Post)
    requires e == PostReceive(Crossed(), 2, 1) && f == PostReceive(e, 2, 1)
    ensures PostRun(NoPost(), OvertakingRun()) == f
  {
    hide PostSend, PostReceive;
    var a := PostSend(NoPost(), 3, 1, [1]);
    var b := PostSend(a, 2, 1, [1]);
    var c := PostReceive(b, 3, 1);
    var ops := OvertakingRun();
    assert PostRun(e, ops[5..]) == f;
    assert ops[4..][1..] == ops[5..] && PostRun(Crossed(), ops[4..]) == f;
    assert ops[3..][1..] == ops[4..] && PostRun(c, ops[3..]) == f;
    assert ops[2..][1..] == ops[3..] && PostRun(b, ops[2..]) == f;
    assert ops[1..][1..] == ops[2..] && PostRun(a, ops[1..]) == f;
  }
}
