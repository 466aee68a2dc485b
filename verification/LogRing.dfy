/** The kernel log ring (src/gui_lion.c, lines 82-136): 64 entries, each guarded by the number of the
    record it holds. Writers and readers interleave at every load and store. */
module LogRing {
  import opened Common

  const CAPACITY: nat := 64
  const MESSAGE_MAX: nat := 96

  type Text = t: seq<byte> | |t| == MESSAGE_MAX witness seq(MESSAGE_MAX, _ => 0)

  datatype Entry = Entry(sequence: nat, level: nat, text: Text)
  datatype Record = Rec(level: nat, message: seq<byte>)

  /** Where a thread is. Records are numbered from 1. */
  datatype Loc =
    | Idle
    // writing record q
    | Taken(q: nat)                 // has its number
    | Cleared(q: nat)               // has set the entry's number to 0
    | Filling(q: nat, i: nat)       // level stored, i bytes copied
    | Publishing(q: nat)            // terminator stored
    // reading record q into room for `room` bytes
    | Checking(q: nat, room: nat)
    | Loading(q: nat, room: nat)                              // the number was q
    | Testing(q: nat, room: nat, level: nat, text: seq<byte>)  // about to test the next byte
    | Copying(q: nat, room: nat, level: nat, text: seq<byte>)  // it was not zero
    | Confirming(q: nat, room: nat, level: nat, text: seq<byte>)
    | Done(q: nat, room: nat, level: nat, text: seq<byte>)     // returned 0
    | Failed

  datatype Sys = Sys(entries: seq<Entry>, head: nat, records: seq<Record>, threads: seq<Loc>)

  function Place(q: nat): (r: nat) ensures r < CAPACITY { q % CAPACITY }

  predicate Shaped(s: Sys) { |s.entries| == CAPACITY && |s.records| == s.head }

  /** The bytes an entry can keep of a message. */
  function Kept(message: seq<byte>): seq<byte> {
    if |message| < MESSAGE_MAX then message else message[..MESSAGE_MAX - 1]
  }

  /** The bytes a caller with `room` gets. */
  function Given(message: seq<byte>, room: nat): seq<byte>
    requires room > 0
  {
    var k := Kept(message);
    if |k| < room then k else k[..room - 1]
  }

  predicate Writes(loc: Loc) { loc.Taken? || loc.Cleared? || loc.Filling? || loc.Publishing? }
  predicate Reads(loc: Loc) { loc.Loading? || loc.Testing? || loc.Copying? || loc.Confirming? || loc.Done? }

  // ---------------------------------------------------------------- steps

  datatype Step =
    | Begin(t: nat, level: nat, message: seq<byte>)
    | StartRead(t: nat, index: nat, room: nat)
    | Move(t: nat)

  predicate Resting(loc: Loc) { loc.Idle? || loc.Done? || loc.Failed? }

  ghost predicate InFlight(s: Sys, q: nat) {
    exists t :: 0 <= t < |s.threads| && Writes(s.threads[t]) && s.threads[t].q == q
  }

  /** No writer of the entry that record q goes to. */
  predicate PlaceFree(s: Sys, q: nat) {
    forall t :: 0 <= t < |s.threads| && Writes(s.threads[t]) ==> Place(s.threads[t].q) != Place(q)
  }

  /** A new record is started only when its entry has no writer, and numbers have not wrapped. */
  predicate Enabled(s: Sys, step: Step) {
    step.t < |s.threads| && Shaped(s) &&
    match step
    case Begin(t, level, message) =>
      Resting(s.threads[t]) && 0 !in message && s.head + 1 < U32 && PlaceFree(s, s.head + 1)
    case StartRead(t, index, room) => Resting(s.threads[t]) && room > 0
    case Move(t) => !Resting(s.threads[t])
  }

  /** The number of the index-th record still in the ring. */
  function Selected(head: nat, index: nat): nat {
    (if head > CAPACITY then head - CAPACITY + 1 else 1) + index
  }

  function Count(head: nat): nat { if head > CAPACITY then CAPACITY else head }

  function SetLoc(s: Sys, t: nat, loc: Loc): Sys
    requires t < |s.threads|
  {
    s.(threads := s.threads[t := loc])
  }

  function SetEntry(s: Sys, q: nat, e: Entry): Sys
    requires Shaped(s)
  {
    s.(entries := s.entries[Place(q) := e])
  }

  /** One load or store of thread t. */
  function MoveOn(s: Sys, t: nat): Sys
    requires Shaped(s) && t < |s.threads|
  {
    var loc := s.threads[t];
    if Resting(loc) then s
    else
      var e := s.entries[Place(loc.q)];
      match loc
      case Taken(q) => SetLoc(SetEntry(s, q, e.(sequence := 0)), t, Cleared(q))
      case Cleared(q) =>
        if 1 <= q <= s.head then SetLoc(SetEntry(s, q, e.(level := s.records[q - 1].level)), t, Filling(q, 0)) else s
      case Filling(q, i) =>
        if !(1 <= q <= s.head) || i >= MESSAGE_MAX then s
        else
          var m := s.records[q - 1].message;
          if i < |m| && i + 1 < MESSAGE_MAX then
            SetLoc(SetEntry(s, q, e.(text := e.text[i := m[i]])), t, Filling(q, i + 1))
          else SetLoc(SetEntry(s, q, e.(text := e.text[i := 0])), t, Publishing(q))
      case Publishing(q) => SetLoc(SetEntry(s, q, e.(sequence := q)), t, Idle)
      case Checking(q, room) => SetLoc(s, t, if e.sequence == q then Loading(q, room) else Failed)
      case Loading(q, room) => SetLoc(s, t, Testing(q, room, e.level, []))
      case Testing(q, room, level, text) =>
        var i := |text|;
        if i + 1 < room && i + 1 < MESSAGE_MAX && e.text[i] != 0 then SetLoc(s, t, Copying(q, room, level, text))
        else SetLoc(s, t, Confirming(q, room, level, text))
      case Copying(q, room, level, text) =>
        if |text| < MESSAGE_MAX then SetLoc(s, t, Testing(q, room, level, text + [e.text[|text|]])) else s
      case Confirming(q, room, level, text) =>
        SetLoc(s, t, if e.sequence == q then Done(q, room, level, text) else Failed)
  }

  function Do(s: Sys, step: Step): Sys
    requires Enabled(s, step)
  {
    match step
    case Begin(t, level, message) =>
      Sys(s.entries, s.head + 1, s.records + [Rec(level, message)], s.threads[t := Taken(s.head + 1)])
    case StartRead(t, index, room) =>
      SetLoc(s, t, if index < Count(s.head) then Checking(Selected(s.head, index), room) else Failed)
    case Move(t) => MoveOn(s, t)
  }

  // ---------------------------------------------------------------- the invariant

  predicate Recorded(s: Sys, q: nat) { 1 <= q <= s.head && |s.records| == s.head }

  /** The entry holds this record, whole. */
  predicate Holds(e: Entry, r: Record) {
    var k := Kept(r.message);
    && |k| < MESSAGE_MAX && e.level == r.level && e.text[|k|] == 0
    && (forall i :: 0 <= i < |k| ==> e.text[i] == k[i] && k[i] != 0)
  }

  /** What a writer has done to its entry so far. */
  predicate WriterOk(s: Sys, loc: Loc)
    requires Shaped(s) && Writes(loc)
  {
    var e := s.entries[Place(loc.q)];
    && Recorded(s, loc.q) && loc.q + CAPACITY > s.head
    && (!loc.Taken? ==> e.sequence == 0)
    && (loc.Filling? ==>
          var k := Kept(s.records[loc.q - 1].message);
          && e.level == s.records[loc.q - 1].level && loc.i <= |k| && |k| < MESSAGE_MAX
          && forall i :: 0 <= i < loc.i ==> e.text[i] == k[i])
    && (loc.Publishing? ==> Holds(e, s.records[loc.q - 1]))
  }

  /** What a reader has read so far, as long as the entry still has the number the reader looks for. */
  predicate ReaderOk(s: Sys, loc: Loc)
    requires Shaped(s) && (Reads(loc) || loc.Checking?)
  {
    Recorded(s, loc.q) && loc.room > 0 &&
    var r := s.records[loc.q - 1];
    var k := Kept(r.message);
    && (loc.Done? ==> loc.level == r.level && loc.text == Given(r.message, loc.room))
    && (s.entries[Place(loc.q)].sequence == loc.q && !loc.Checking? && !loc.Loading? ==>
          && loc.level == r.level && |loc.text| <= |k| && loc.text == k[..|loc.text|]
          && (loc.Copying? ==> |loc.text| < |k| && |loc.text| + 1 < loc.room)
          && (loc.Testing? ==> |loc.text| < loc.room)
          && (loc.Confirming? ==> loc.text == Given(r.message, loc.room)))
  }

  ghost predicate ThreadsOk(s: Sys)
    requires Shaped(s)
  {
    forall t :: 0 <= t < |s.threads| ==>
      && (Writes(s.threads[t]) ==> WriterOk(s, s.threads[t]))
      && (Reads(s.threads[t]) || s.threads[t].Checking? ==> ReaderOk(s, s.threads[t]))
  }

  /** A reader past its first check looks for a record that nobody is writing any more. */
  ghost predicate ReadersLate(s: Sys) {
    forall t :: 0 <= t < |s.threads| && Reads(s.threads[t]) ==> !InFlight(s, s.threads[t].q)
  }

  /** Two writers are never on the same entry. */
  ghost predicate OneWriter(s: Sys) {
    forall t, u :: 0 <= t < u < |s.threads| && Writes(s.threads[t]) && Writes(s.threads[u]) ==>
      Place(s.threads[t].q) != Place(s.threads[u].q)
  }

  /** An entry with a number holds that record, and nobody is writing it. */
  ghost predicate EntriesOk(s: Sys)
    requires Shaped(s)
  {
    forall p :: 0 <= p < CAPACITY && s.entries[p].sequence != 0 ==>
      var q := s.entries[p].sequence;
      Recorded(s, q) && Place(q) == p && !InFlight(s, q) && Holds(s.entries[p], s.records[q - 1])
  }

  /** Each of the last 64 records is being written or lies in its entry. */
  ghost predicate WindowOk(s: Sys)
    requires Shaped(s)
  {
    forall q :: 1 <= q <= s.head && q + CAPACITY > s.head ==> InFlight(s, q) || s.entries[Place(q)].sequence == q
  }

  predicate MessagesOk(s: Sys) {
    forall k :: 0 <= k < |s.records| ==> 0 !in s.records[k].message
  }

  ghost predicate Inv(s: Sys) {
    Shaped(s) && ThreadsOk(s) && ReadersLate(s) && OneWriter(s) && EntriesOk(s) && WindowOk(s) && MessagesOk(s)
  }

  // ---------------------------------------------------------------- the calls, undisturbed

  /** The ring as one thread uses it when no other is inside. */
  class Log {
    const entries: array<Entry>
    var head: nat
    ghost var records: seq<Record>

    ghost predicate Valid()
      reads this, entries
    {
      && entries.Length == CAPACITY && |records| == head
      && (forall q :: 1 <= q <= head && q + CAPACITY > head ==>
            entries[Place(q)].sequence == q && Holds(entries[Place(q)], records[q - 1]))
    }

    constructor ()
      ensures Valid() && fresh(entries) && records == []
    {
      entries := new Entry[CAPACITY](_ => Entry(0, 0, seq(MESSAGE_MAX, _ => 0)));
      head := 0;
      records := [];
    }

    /** The copy loop and the terminator. */
    method FillText(p: nat, message: seq<byte>)
      requires entries.Length == CAPACITY && p < CAPACITY && 0 !in message
      modifies entries
      ensures forall k :: 0 <= k < CAPACITY && k != p ==> entries[k] == old(entries[k])
      ensures entries[p] == old(entries[p]).(text := entries[p].text)
      ensures Holds(entries[p], Rec(entries[p].level, message))
    {
      ghost var e := entries[p];
      var i := 0;
      while i < |message| && i + 1 < MESSAGE_MAX
        invariant 0 <= i <= |Kept(message)| && entries[..] == old(entries[..])[p := e.(text := entries[p].text)]
        invariant forall k :: 0 <= k < i ==> entries[p].text[k] == message[k]
        decreases |message| - i
      {
        entries[p] := entries[p].(text := entries[p].text[i := message[i]]);
        i := i + 1;
      }
      entries[p] := entries[p].(text := entries[p].text[i := 0]);
      assert forall k :: 0 <= k < i ==> Kept(message)[k] == message[k] && message[k] in message;
    }

    /** kernel_log_ring_record. */
    method Record(level: nat, message: seq<byte>)
      requires Valid() && 0 !in message && head + 1 < U32
      modifies this, entries
      ensures Valid() && head == old(head) + 1 && records == old(records) + [Rec(level, message)]
    {
      hide Holds, Kept;
      head := head + 1;
      var p := Place(head);
      entries[p] := entries[p].(sequence := 0);
      entries[p] := entries[p].(level := level);
      FillText(p, message);
      entries[p] := entries[p].(sequence := head);
      SameText(entries[p].(sequence := 0), entries[p], Rec(level, message));
      records := records + [Rec(level, message)];
      forall q | 1 <= q <= head && q + CAPACITY > head
        ensures entries[Place(q)].sequence == q && Holds(entries[Place(q)], records[q - 1])
      {
        Window(q, head);
      }
    }

    /** kernel_log_entry_count. */
    method EntryCount() returns (n: nat)
      requires Valid()
      ensures n == Count(head)
    {
      n := if head > CAPACITY then CAPACITY else head;
    }

    /** kernel_log_read. */
    method Read(index: nat, room: nat) returns (rc: int, level: nat, text: seq<byte>)
      requires Valid()
      ensures rc == 0 <==> room > 0 && index < Count(head)
      ensures rc == 0 ==>
        var q := Selected(head, index);
        1 <= q <= head && level == records[q - 1].level && text == Given(records[q - 1].message, room)
    {
      rc, level, text := -1, 0, [];
      if room == 0 { return; }
      var count := EntryCount();
      if index >= count { return; }
      var q := Selected(head, index);
      var e := entries[Place(q)];
      assert e.sequence == q && Holds(e, records[q - 1]);
      ghost var k := Kept(records[q - 1].message);
      level := e.level;
      while |text| + 1 < room && |text| + 1 < MESSAGE_MAX && e.text[|text|] != 0
        invariant |text| <= |k| && text == k[..|text|] && |text| < room
        decreases |k| - |text|
      {
        assert text + [e.text[|text|]] == k[..|text| + 1];
        text := text + [e.text[|text|]];
      }
      assert |text| == |k| ==> k[..|k|] == k;
      rc := 0;
    }
  }

  lemma SameText(e: Entry, f: Entry, r: Record)
    requires Holds(e, r) && f.level == e.level && f.text == e.text
    ensures Holds(f, r)
  {}

  /** Among the last 64 records only the newest has the newest one's entry. */
  lemma Window(q: nat, head: nat)
    requires q <= head && q + CAPACITY > head
    ensures Place(q) == Place(head) <==> q == head
  {}
}
