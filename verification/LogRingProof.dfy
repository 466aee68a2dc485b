/** A log read that returns 0 returns one record, whole, whatever the writers do meanwhile. */
module LogRingProof {
  import opened Common
  import opened LogRing

  /** Nobody has started. */
  predicate Fresh(s: Sys) {
    && |s.entries| == CAPACITY && s.head == 0 && s.records == []
    && (forall p :: 0 <= p < CAPACITY ==> s.entries[p].sequence == 0)
    && (forall t :: 0 <= t < |s.threads| ==> s.threads[t].Idle?)
  }

  lemma FreshOk(s: Sys)
    requires Fresh(s)
    ensures Inv(s)
  {}

  // ---------------------------------------------------------------- who is in flight

  lemma SameFlight(s: Sys, s': Sys, t: nat)
    requires t < |s.threads| && |s'.threads| == |s.threads|
    requires forall u :: 0 <= u < |s.threads| && u != t ==> s'.threads[u] == s.threads[u]
    requires Writes(s'.threads[t]) == Writes(s.threads[t])
    requires Writes(s.threads[t]) ==> s'.threads[t].q == s.threads[t].q
    ensures forall q :: InFlight(s', q) == InFlight(s, q)
  {
    forall q ensures InFlight(s', q) == InFlight(s, q) {
      if InFlight(s, q) {
        var u :| 0 <= u < |s.threads| && Writes(s.threads[u]) && s.threads[u].q == q;
        assert Writes(s'.threads[u]) && s'.threads[u].q == q;
      }
      if InFlight(s', q) {
        var u :| 0 <= u < |s.threads| && Writes(s'.threads[u]) && s'.threads[u].q == q;
        assert Writes(s.threads[u]) && s.threads[u].q == q;
      }
    }
  }

  lemma Flying(s: Sys, t: nat)
    requires t < |s.threads| && Writes(s.threads[t])
    ensures InFlight(s, s.threads[t].q)
  {}

  // ---------------------------------------------------------------- a writer moves

  /** What thread t becomes, and what its entry becomes; nothing else changes. */
  ghost predicate WriterStep(s: Sys, s': Sys, t: nat, e: Entry) {
    && Shaped(s) && t < |s.threads| && Writes(s.threads[t])
    && s'.head == s.head && s'.records == s.records && s'.entries == s.entries[Place(s.threads[t].q) := e]
    && |s'.threads| == |s.threads| && (forall u :: 0 <= u < |s.threads| && u != t ==> s'.threads[u] == s.threads[u])
    && (e.sequence == 0 || e.sequence == s.threads[t].q)
    && (if e.sequence == 0 then Writes(s'.threads[t]) && s'.threads[t].q == s.threads[t].q && !s'.threads[t].Taken?
        else s'.threads[t].Idle? && s.threads[t].Publishing?)
  }

  lemma WriterIsStep(s: Sys, t: nat)
    requires Inv(s) && t < |s.threads| && Writes(s.threads[t])
    ensures var s' := MoveOn(s, t); var e := s'.entries[Place(s.threads[t].q)];
      && WriterStep(s, s', t, e)
      && (Writes(s'.threads[t]) ==> WriterOk(s', s'.threads[t]))
      && (e.sequence != 0 ==> Holds(e, s.records[s.threads[t].q - 1]) && Recorded(s, s.threads[t].q))
  {
    var loc := s.threads[t];
    assert WriterOk(s, loc) && 0 !in s.records[loc.q - 1].message;
    hide EntriesOk, WindowOk, ThreadsOk, ReadersLate, OneWriter, Holds;
    if loc.Filling? { FillStep(s, t); }
  }

  lemma FillStep(s: Sys, t: nat)
    requires Shaped(s) && t < |s.threads| && s.threads[t].Filling? && WriterOk(s, s.threads[t])
    requires 0 !in s.records[s.threads[t].q - 1].message
    ensures var s' := MoveOn(s, t); var e := s'.entries[Place(s.threads[t].q)];
      && WriterStep(s, s', t, e) && e.sequence == 0
      && Writes(s'.threads[t]) && WriterOk(s', s'.threads[t])
  {
    var k := Kept(s.records[s.threads[t].q - 1].message);
    assert forall i :: 0 <= i < |k| ==>
      k[i] == s.records[s.threads[t].q - 1].message[i] && k[i] in s.records[s.threads[t].q - 1].message;
  }

  /** Everybody else stays in order. */
  lemma OthersStay(s: Sys, s': Sys, t: nat, e: Entry, u: nat)
    requires Inv(s) && WriterStep(s, s', t, e) && u < |s.threads| && u != t
    ensures Writes(s.threads[u]) ==> WriterOk(s', s.threads[u])
    ensures Reads(s.threads[u]) || s.threads[u].Checking? ==> ReaderOk(s', s.threads[u])
  {
    var loc := s.threads[u];
    hide EntriesOk, WindowOk, Holds, Kept, Given;
    assert Writes(loc) ==> WriterOk(s, loc) && Place(loc.q) != Place(s.threads[t].q);
    if Reads(loc) || loc.Checking? {
      assert ReaderOk(s, loc);
      if Reads(loc) {
        assert !InFlight(s, loc.q);
        assert loc.q != s.threads[t].q;
      }
    }
  }

  /** After a publishing step the record is in flight no more; otherwise nothing changes. */
  lemma FlightAfter(s: Sys, s': Sys, t: nat, e: Entry, q: nat)
    requires Inv(s) && WriterStep(s, s', t, e)
    ensures InFlight(s', q) <==> InFlight(s, q) && !(e.sequence != 0 && q == s.threads[t].q)
  {
    hide EntriesOk, WindowOk, ThreadsOk, ReadersLate;
    if e.sequence == 0 {
      SameFlight(s, s', t);
    } else {
      if InFlight(s, q) && q != s.threads[t].q {
        var u :| 0 <= u < |s.threads| && Writes(s.threads[u]) && s.threads[u].q == q;
        assert u != t && s'.threads[u] == s.threads[u];
      }
      if InFlight(s', q) {
        var u :| 0 <= u < |s.threads| && Writes(s'.threads[u]) && s'.threads[u].q == q;
        assert u != t && s.threads[u] == s'.threads[u];
      }
    }
  }

  lemma WriterMoves(s: Sys, t: nat)
    requires Inv(s) && t < |s.threads| && Writes(s.threads[t])
    ensures Inv(MoveOn(s, t))
  {
    var s' := MoveOn(s, t);
    var q := s.threads[t].q;
    var e := s'.entries[Place(q)];
    WriterIsStep(s, t);
    hide MoveOn;
    WriterEntries(s, s', t, e);
    WriterThreads(s, s', t, e);
    hide WriterStep, ThreadsOk, ReadersLate, OneWriter, EntriesOk, WindowOk;
    assert Shaped(s') && MessagesOk(s') by { StillShaped(s, s', t, e); }
  }

  lemma StillShaped(s: Sys, s': Sys, t: nat, e: Entry)
    requires Shaped(s) && MessagesOk(s) && WriterStep(s, s', t, e)
    ensures Shaped(s') && MessagesOk(s')
  {}

  lemma WriterThreads(s: Sys, s': Sys, t: nat, e: Entry)
    requires Inv(s) && WriterStep(s, s', t, e) && (Writes(s'.threads[t]) ==> WriterOk(s', s'.threads[t]))
    ensures ThreadsOk(s') && ReadersLate(s') && OneWriter(s')
  {
    forall u | 0 <= u < |s'.threads|
      ensures Writes(s'.threads[u]) ==> WriterOk(s', s'.threads[u])
      ensures Reads(s'.threads[u]) || s'.threads[u].Checking? ==> ReaderOk(s', s'.threads[u])
      ensures Reads(s'.threads[u]) ==> !InFlight(s', s'.threads[u].q)
    {
      if u != t {
        OthersStay(s, s', t, e, u);
        if Reads(s.threads[u]) { FlightAfter(s, s', t, e, s.threads[u].q); }
      }
    }
    hide EntriesOk, WindowOk, WriterOk, ReaderOk, InFlight;
  }

  lemma WriterEntries(s: Sys, s': Sys, t: nat, e: Entry)
    requires Inv(s) && WriterStep(s, s', t, e)
    requires e.sequence != 0 ==> Holds(e, s.records[s.threads[t].q - 1]) && Recorded(s, s.threads[t].q)
    ensures EntriesOk(s') && WindowOk(s')
  {
    var q := s.threads[t].q;
    assert WriterOk(s, s.threads[t]);
    Flying(s, t);
    forall p | 0 <= p < CAPACITY && s'.entries[p].sequence != 0
      ensures var n := s'.entries[p].sequence;
        Recorded(s', n) && Place(n) == p && !InFlight(s', n) && Holds(s'.entries[p], s'.records[n - 1])
    {
      FlightAfter(s, s', t, e, s'.entries[p].sequence);
    }
    forall n | 1 <= n <= s'.head && n + CAPACITY > s'.head
      ensures InFlight(s', n) || s'.entries[Place(n)].sequence == n
    {
      FlightAfter(s, s', t, e, n);
      if Place(n) == Place(q) { SamePlace(n, q, s.head); }
    }
  }

  /** Two of the last 64 records in one entry are the same record. */
  lemma SamePlace(a: nat, b: nat, head: nat)
    requires Place(a) == Place(b) && a <= head && b <= head && a + CAPACITY > head && b + CAPACITY > head
    ensures a == b
  {}

  // ---------------------------------------------------------------- a reader moves

  /** One step of a reader keeps what it has read in order. */
  lemma ReaderIsOk(s: Sys, t: nat)
    requires Inv(s) && t < |s.threads| && !Writes(s.threads[t]) && !Resting(s.threads[t])
    ensures var s' := MoveOn(s, t); var loc := s'.threads[t];
      && s' == s.(threads := s.threads[t := loc]) && !Writes(loc)
      && (Reads(loc) ==> ReaderOk(s', loc) && loc.q == s.threads[t].q && !InFlight(s, loc.q))
      && !loc.Checking?
  {
    var loc := s.threads[t];
    var e := s.entries[Place(loc.q)];
    assert ReaderOk(s, loc);
    if e.sequence == loc.q { assert Holds(e, s.records[loc.q - 1]) && !InFlight(s, loc.q); }
    assert Reads(loc) ==> !InFlight(s, loc.q);
    hide EntriesOk, WindowOk, ThreadsOk, ReadersLate, OneWriter, InFlight;
    ReadStep(s, t);
  }

  lemma ReadStep(s: Sys, t: nat)
    requires Shaped(s) && t < |s.threads| && !Writes(s.threads[t]) && !Resting(s.threads[t])
    requires ReaderOk(s, s.threads[t])
    requires var e := s.entries[Place(s.threads[t].q)]; e.sequence == s.threads[t].q ==>
      Holds(e, s.records[s.threads[t].q - 1])
    ensures var s' := MoveOn(s, t); var loc := s'.threads[t];
      && s' == s.(threads := s.threads[t := loc]) && !Writes(loc) && !loc.Checking?
      && (Reads(loc) ==> ReaderOk(s', loc) && loc.q == s.threads[t].q)
      && (s.threads[t].Checking? && Reads(loc) ==> s.entries[Place(loc.q)].sequence == loc.q)
  {
    var loc := s.threads[t];
    var k := Kept(s.records[loc.q - 1].message);
    if loc.Copying? && s.entries[Place(loc.q)].sequence == loc.q {
      assert k[..|loc.text|] + [k[|loc.text|]] == k[..|loc.text| + 1];
    }
    if loc.Testing? && s.entries[Place(loc.q)].sequence == loc.q {
      assert |loc.text| == |k| ==> k[..|k|] == k;
    }
  }

  lemma ThreadMoves(s: Sys, s': Sys, t: nat)
    requires Inv(s) && t < |s.threads| == |s'.threads| && s' == s.(threads := s.threads[t := s'.threads[t]])
    requires !Writes(s.threads[t]) && !Writes(s'.threads[t])
    requires Reads(s'.threads[t]) || s'.threads[t].Checking? ==> ReaderOk(s', s'.threads[t])
    requires Reads(s'.threads[t]) ==> !InFlight(s, s'.threads[t].q)
    ensures Inv(s')
  {
    SameFlight(s, s', t);
    hide InFlight, Holds, WriterOk, ReaderOk;
    forall u | 0 <= u < |s'.threads|
      ensures Writes(s'.threads[u]) ==> WriterOk(s', s'.threads[u])
      ensures Reads(s'.threads[u]) || s'.threads[u].Checking? ==> ReaderOk(s', s'.threads[u])
    {
      if u != t { SameReader(s, s', s.threads[u]); }
    }
  }

  lemma SameReader(s: Sys, s': Sys, loc: Loc)
    requires Shaped(s) && s'.entries == s.entries && s'.records == s.records && s'.head == s.head
    ensures Writes(loc) ==> WriterOk(s', loc) == WriterOk(s, loc)
    ensures Reads(loc) || loc.Checking? ==> ReaderOk(s', loc) == ReaderOk(s, loc)
  {}

  // ---------------------------------------------------------------- a call starts

  lemma ReadStarts(s: Sys, t: nat, index: nat, room: nat)
    requires Inv(s) && Enabled(s, StartRead(t, index, room))
    ensures Inv(Do(s, StartRead(t, index, room)))
  {
    ThreadMoves(s, Do(s, StartRead(t, index, room)), t);
  }

  lemma Begins(s: Sys, t: nat, level: nat, message: seq<byte>)
    requires Inv(s) && Enabled(s, Begin(t, level, message))
    ensures Inv(Do(s, Begin(t, level, message)))
  {
    var s' := Do(s, Begin(t, level, message));
    var n := s.head + 1;
    assert forall k :: 0 <= k < s.head ==> s'.records[k] == s.records[k];
    forall q ensures InFlight(s', q) <==> InFlight(s, q) || q == n { BeginFlight(s, t, level, message, q); }
    hide InFlight, Holds;
    forall u | 0 <= u < |s'.threads|
      ensures Writes(s'.threads[u]) ==> WriterOk(s', s'.threads[u])
      ensures Reads(s'.threads[u]) || s'.threads[u].Checking? ==> ReaderOk(s', s'.threads[u])
      ensures Reads(s'.threads[u]) ==> !InFlight(s', s'.threads[u].q)
    {
      if u != t { BeginOthers(s, t, level, message, u); }
    }
    BeginEntries(s, t, level, message);
    hide WriterOk, ReaderOk, EntriesOk, WindowOk;
  }

  lemma BeginFlight(s: Sys, t: nat, level: nat, message: seq<byte>, q: nat)
    requires Enabled(s, Begin(t, level, message))
    ensures InFlight(Do(s, Begin(t, level, message)), q) <==> InFlight(s, q) || q == s.head + 1
  {
    var s' := Do(s, Begin(t, level, message));
    if InFlight(s, q) {
      var u :| 0 <= u < |s.threads| && Writes(s.threads[u]) && s.threads[u].q == q;
      assert u != t && s'.threads[u] == s.threads[u];
    }
    if q == s.head + 1 { assert Writes(s'.threads[t]) && s'.threads[t].q == q; }
  }

  lemma BeginOthers(s: Sys, t: nat, level: nat, message: seq<byte>, u: nat)
    requires Inv(s) && Enabled(s, Begin(t, level, message)) && u < |s.threads| && u != t
    ensures var s' := Do(s, Begin(t, level, message)); var loc := s.threads[u];
      && (Writes(loc) ==> WriterOk(s', loc))
      && (Reads(loc) || loc.Checking? ==> ReaderOk(s', loc))
      && (Reads(loc) ==> loc.q <= s.head && !InFlight(s, loc.q))
  {
    hide EntriesOk, WindowOk, Holds, Kept, Given;
    var loc := s.threads[u];
    if Writes(loc) {
      assert WriterOk(s, loc) && Place(loc.q) != Place(s.head + 1);
      PlaceAgain(loc.q, s.head + 1);
    }
    if Reads(loc) || loc.Checking? { assert ReaderOk(s, loc); }
  }

  lemma PlaceAgain(a: nat, b: nat)
    ensures a + CAPACITY == b ==> Place(a) == Place(b)
  {}

  lemma BeginEntries(s: Sys, t: nat, level: nat, message: seq<byte>)
    requires Inv(s) && Enabled(s, Begin(t, level, message))
    ensures EntriesOk(Do(s, Begin(t, level, message))) && WindowOk(Do(s, Begin(t, level, message)))
  {
    var s' := Do(s, Begin(t, level, message));
    forall q ensures InFlight(s', q) <==> InFlight(s, q) || q == s.head + 1 { BeginFlight(s, t, level, message, q); }
    hide InFlight, ThreadsOk, ReadersLate, OneWriter, Holds;
  }

  // ---------------------------------------------------------------- runs

  lemma StepKeeps(s: Sys, step: Step)
    requires Inv(s) && Enabled(s, step)
    ensures Inv(Do(s, step))
  {
    match step
    case Begin(t, level, message) => Begins(s, t, level, message);
    case StartRead(t, index, room) => ReadStarts(s, t, index, room);
    case Move(t) =>
      hide Inv;
      if Writes(s.threads[t]) { WriterMoves(s, t); } else { ReaderMoves(s, t); }
  }

  lemma ReaderMoves(s: Sys, t: nat)
    requires Inv(s) && t < |s.threads| && !Writes(s.threads[t]) && !Resting(s.threads[t])
    ensures Inv(MoveOn(s, t))
  {
    assert Shaped(s);
    ReaderIsOk(s, t);
    hide Inv, MoveOn;
    ThreadMoves(s, MoveOn(s, t), t);
  }

  ghost predicate IsRun(s: Sys, steps: seq<Step>)
    decreases |steps|
  {
    steps == [] || (Enabled(s, steps[0]) && IsRun(Do(s, steps[0]), steps[1..]))
  }

  ghost function After(s: Sys, steps: seq<Step>): Sys
    requires IsRun(s, steps)
    decreases |steps|
  {
    if steps == [] then s else After(Do(s, steps[0]), steps[1..])
  }

  lemma {:induction false} RunKeeps(s: Sys, steps: seq<Step>)
    requires Inv(s) && IsRun(s, steps)
    ensures Inv(After(s, steps))
    decreases |steps|
  {
    if steps != [] {
      StepKeeps(s, steps[0]);
      RunKeeps(Do(s, steps[0]), steps[1..]);
    }
  }

  /** A read that returns 0 gives the level and text of the record it selected, cut to the caller's room:
      never another record, never a mix. */
  lemma ReadIsWhole(s: Sys, steps: seq<Step>, t: nat)
    requires Fresh(s) && IsRun(s, steps)
    ensures var u := After(s, steps);
      t < |u.threads| && u.threads[t].Done? ==>
        var d := u.threads[t];
        && 1 <= d.q <= u.head == |u.records| && d.room > 0
        && d.level == u.records[d.q - 1].level && d.text == Given(u.records[d.q - 1].message, d.room)
  {
    FreshOk(s);
    RunKeeps(s, steps);
    var u := After(s, steps);
    if t < |u.threads| && u.threads[t].Done? { assert ReaderOk(u, u.threads[t]); }
  }

  /** When no writer is under way, every one of the last 64 records is there to be read, whole. */
  lemma QuietRingHoldsAll(s: Sys, steps: seq<Step>, index: nat)
    requires Fresh(s) && IsRun(s, steps)
    requires index < Count(After(s, steps).head) && forall loc :: loc in After(s, steps).threads ==> !Writes(loc)
    ensures var u := After(s, steps); var q := Selected(u.head, index);
      && Shaped(u) && 1 <= q <= u.head && u.entries[Place(q)].sequence == q
      && Holds(u.entries[Place(q)], u.records[q - 1])
  {
    FreshOk(s);
    RunKeeps(s, steps);
    var u := After(s, steps);
    var q := Selected(u.head, index);
    assert InFlight(u, q) || u.entries[Place(q)].sequence == q;
    assert !InFlight(u, q);
  }
}
