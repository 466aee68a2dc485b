/** Rings of transfer request blocks with cycle bits (src/xhci.c): the driver produces on rings of one or
    more linked segments, the controller consumes; events go the other way on a ring without links. The
    controller follows sections 4.9.2, 4.9.3 and 6.4.4.1 of xHCI 1.2. */
module TrbRing {
  import opened Common

  const RING_TRBS: nat := 256
  const DATA_TRBS: nat := 255 // the last of a segment is the link
  const EVENT_TRBS: nat := 256
  const INTR_SEGMENTS: nat := 4

  /** A block: its parameter, the cycle bit, and for a link the segment it leads to and Toggle Cycle. */
  datatype Trb = Trb(param: nat, cycle: bool, next: nat, toggle: bool)

  function ZeroTrb(): Trb { Trb(0, false, 0, false) }

  /** The driver's side: all segments one after another, and where it writes next with which cycle. */
  datatype Ring = Ring(trbs: seq<Trb>, segments: nat, segment: nat, index: nat, cycle: bool)

  predicate RingShape(r: Ring) {
    r.segments > 0 && |r.trbs| == RING_TRBS * r.segments && r.segment < r.segments && r.index < DATA_TRBS
  }

  function At(segment: nat, index: nat): nat { RING_TRBS * segment + index }
  function LinkAt(segment: nat): nat { At(segment, DATA_TRBS) }

  function NextSegment(g: nat, segments: nat): nat { if g + 1 >= segments then 0 else g + 1 }

  /** link_trb for segment g: cycle 0, Toggle Cycle on the last segment only. */
  function LinkTrb(g: nat, segments: nat): Trb { Trb(0, false, NextSegment(g, segments), g + 1 == segments) }

  /** setup_rings on cleared memory. */
  function Setup(segments: nat): Ring
    requires segments > 0
  {
    Ring(seq(RING_TRBS * segments, k requires 0 <= k < RING_TRBS * segments =>
           if k % RING_TRBS == DATA_TRBS then LinkTrb(k / RING_TRBS, segments) else ZeroTrb()),
         segments, 0, 0, true)
  }

  /** cmd_submit and submit_report: write the block with the current cycle; after the last of a segment,
      hand its link over and move on. */
  function Submit(r: Ring, param: nat): Ring
    requires RingShape(r)
  {
    var written := r.(trbs := r.trbs[At(r.segment, r.index) := Trb(param, r.cycle, 0, false)]);
    if r.index + 1 < DATA_TRBS then written.(index := r.index + 1)
    else
      var link := written.trbs[LinkAt(r.segment)];
      written.(trbs := written.trbs[LinkAt(r.segment) := link.(cycle := !link.cycle)],
               cycle := if link.toggle then !r.cycle else r.cycle,
               index := 0, segment := NextSegment(r.segment, r.segments))
  }

  // ---------------------------------------------------------------- the controller

  /** Where the controller reads next: a block of a segment, or its link. */
  datatype Reader = Reader(segment: nat, index: nat, cycle: bool)

  /** A link is followed when its cycle bit says it belongs to the controller. */
  function Follow(trbs: seq<Trb>, c: Reader): Reader {
    if c.index == DATA_TRBS && LinkAt(c.segment) < |trbs| && trbs[LinkAt(c.segment)].cycle == c.cycle then
      var link := trbs[LinkAt(c.segment)];
      Reader(link.next, 0, if link.toggle then !c.cycle else c.cycle)
    else c
  }

  /** A block is consumed when its cycle bit says it belongs to the controller. */
  function Fetch(trbs: seq<Trb>, c: Reader): (Reader, Option<nat>) {
    if c.index < DATA_TRBS && At(c.segment, c.index) < |trbs| && trbs[At(c.segment, c.index)].cycle == c.cycle then
      (c.(index := c.index + 1), Some(trbs[At(c.segment, c.index)].param))
    else (c, None)
  }

  // ---------------------------------------------------------------- the driver in place

  class Producer {
    const trbs: array<Trb>
    const segments: nat
    var segment: nat
    var index: nat
    var cycle: bool

    ghost predicate Wired()
      reads this
    {
      segments > 0 && trbs.Length == RING_TRBS * segments && segment < segments && index < DATA_TRBS
    }

    function State(): Ring
      reads this, trbs
    {
      Ring(trbs[..], segments, segment, index, cycle)
    }

    /** Cleared pages, then one link per segment. */
    constructor (segments: nat)
      requires segments > 0
      ensures Wired() && fresh(trbs) && State() == Setup(segments)
    {
      this.segments := segments;
      segment, index, cycle := 0, 0, true;
      trbs := new Trb[RING_TRBS * segments](_ => ZeroTrb());
      new;
      for g := 0 to segments
        invariant segment == 0 && index == 0 && cycle
        invariant forall k :: 0 <= k < trbs.Length ==> trbs[k] == Blank(k, g, segments)
      {
        LinkPlaces(g, segments);
        trbs[LinkAt(g)] := Trb(0, false, (g + 1) % segments, g == segments - 1);
        assert (g + 1) % segments == NextSegment(g, segments) by { NextIs(g, segments); }
      }
      assert trbs[..] == Setup(segments).trbs;
    }

    /** advance_link. */
    method AdvanceLink(at: nat)
      requires at < trbs.Length
      modifies this`cycle, trbs
      ensures trbs[..] == old(trbs[..])[at := old(trbs[at]).(cycle := !old(trbs[at]).cycle)]
      ensures cycle == (if old(trbs[at]).toggle then !old(cycle) else old(cycle))
    {
      var toggle := trbs[at].toggle;
      trbs[at] := trbs[at].(cycle := !trbs[at].cycle);
      if toggle { cycle := !cycle; }
    }

    method Write(param: nat)
      requires Wired()
      modifies this`segment, this`index, this`cycle, trbs
      ensures Wired() && RingShape(old(State())) && State() == Submit(old(State()), param)
    {
      SegmentFits(segment, segments);
      trbs[At(segment, index)] := Trb(param, cycle, 0, false);
      index := index + 1;
      if index >= DATA_TRBS {
        AdvanceLink(LinkAt(segment));
        index := 0;
        segment := segment + 1;
        if segment >= segments { segment := 0; }
      }
    }
  }

  /** The HID side: a report is submitted only on a configured endpoint with none pending; the event that
      completes it clears the flag. */
  class ReportQueue {
    const ring: Producer
    var endpoint: nat
    var ready: bool
    var pending: bool

    constructor ()
      ensures fresh(ring) && fresh(ring.trbs) && ring.Wired() && ring.State() == Setup(INTR_SEGMENTS) && !pending
    {
      ring := new Producer(INTR_SEGMENTS);
      endpoint, ready, pending := 0, false, false;
    }

    /** submit_report. */
    method SubmitReport(buffer: nat) returns (rc: int)
      requires ring.Wired()
      modifies this`pending, ring, ring.trbs
      ensures ring.Wired() && RingShape(old(ring.State())) && rc == (if endpoint == 0 then -1 else 0)
      ensures pending == (old(pending) || endpoint != 0)
      ensures ring.State() ==
        if endpoint == 0 || old(pending) then old(ring.State()) else Submit(old(ring.State()), buffer)
    {
      if endpoint == 0 { return -1; }
      rc := 0;
      if pending { return; }
      ring.Write(buffer);
      pending := true;
    }

    /** submit_keyboard_report. */
    method SubmitKeyboardReport(buffer: nat)
      requires ring.Wired()
      modifies this`pending, ring, ring.trbs
      ensures ring.Wired() && RingShape(old(ring.State()))
      ensures pending == (old(pending) || (ready && endpoint != 0))
      ensures ring.State() ==
        if !ready || endpoint == 0 || old(pending) then old(ring.State()) else Submit(old(ring.State()), buffer)
    {
      if !ready || endpoint == 0 || pending { return; }
      ring.Write(buffer);
      pending := true;
    }
  }

  function Blank(k: nat, linked: nat, segments: nat): Trb {
    if k % RING_TRBS == DATA_TRBS && k / RING_TRBS < linked then LinkTrb(k / RING_TRBS, segments) else ZeroTrb()
  }

  lemma NextIs(g: nat, segments: nat)
    requires g < segments
    ensures (g + 1) % segments == NextSegment(g, segments)
  {}

  lemma SegmentFits(g: nat, segments: nat)
    requires g < segments
    ensures RING_TRBS * g + RING_TRBS <= RING_TRBS * segments
  {}

  lemma LinkPlaces(g: nat, segments: nat)
    requires g < segments
    ensures LinkAt(g) < RING_TRBS * segments
    ensures forall k: nat :: k % RING_TRBS == DATA_TRBS && k / RING_TRBS < g + 1 <==>
      k == LinkAt(g) || (k % RING_TRBS == DATA_TRBS && k / RING_TRBS < g)
    ensures LinkAt(g) / RING_TRBS == g
  {}

  // ---------------------------------------------------------------- who owns what

  /** Producer and consumer together. `sent` is everything submitted, `out` what the controller has
      executed; `lap` counts the producer's turns around the ring, `behind` says that the controller is
      still on the turn before. */
  datatype Link = Link(ring: Ring, reader: Reader, sent: seq<nat>, out: seq<nat>, lap: nat, behind: bool)

  /** The cycle bit of a turn. */
  function Phase(lap: nat): bool { lap % 2 == 0 }

  function Total(segments: nat): nat { DATA_TRBS * segments }
  function PosOf(segment: nat, index: nat): nat { DATA_TRBS * segment + index }

  function Pos(l: Link): nat { PosOf(l.ring.segment, l.ring.index) }
  function ReaderPos(l: Link): nat { PosOf(l.reader.segment, l.reader.index) }

  /** Whole turns behind the producer, this turn up to where it stands. */
  predicate LapOk(l: Link) {
    && RingShape(l.ring) && l.ring.cycle == Phase(l.lap)
    && (if l.lap == 0 then |l.sent| == Pos(l) else |l.sent| >= Pos(l) + Total(l.ring.segments))
  }

  /** The block in data place (g, i): written this turn if it lies before the producer, else last turn, and
      a block never written has the cycle bit of no turn. */
  predicate DataOk(l: Link, g: nat, i: nat)
    requires LapOk(l) && g < l.ring.segments && i < DATA_TRBS
  {
    SegmentFits(g, l.ring.segments);
    var t, pos, s, n, total := l.ring.trbs[At(g, i)], Pos(l), PosOf(g, i), |l.sent|, Total(l.ring.segments);
    if s < pos then t.cycle == Phase(l.lap) && t.param == l.sent[n - pos + s]
    else t.cycle == !Phase(l.lap) && (l.lap > 0 ==> t.param == l.sent[n - pos - total + s])
  }

  predicate LinkOk(l: Link, g: nat)
    requires RingShape(l.ring) && g < l.ring.segments
  {
    SegmentFits(g, l.ring.segments);
    var t := l.ring.trbs[LinkAt(g)];
    && t.next == NextSegment(g, l.ring.segments) && t.toggle == (g + 1 == l.ring.segments)
    && t.cycle == (if Pos(l) >= DATA_TRBS * (g + 1) then Phase(l.lap) else !Phase(l.lap))
  }

  /** Every block and every link as the producer's position says. */
  ghost predicate RingOk(l: Link) {
    && LapOk(l)
    && (forall g, i :: 0 <= g < l.ring.segments && 0 <= i < DATA_TRBS ==> DataOk(l, g, i))
    && (forall g :: 0 <= g < l.ring.segments ==> LinkOk(l, g))
  }

  /** How many blocks have been submitted and not executed. */
  function Outstanding(l: Link): int { |l.sent| - |l.out| }

  /** At most a whole turn is outstanding, and less than that while the controller rests at a link. */
  predicate RoomOk(l: Link) {
    Outstanding(l) <= Total(l.ring.segments) - (if l.reader.index == DATA_TRBS then 1 else 0)
  }

  /** The ring in order, what has been executed being the first of what has been submitted. */
  ghost predicate LinkInv(l: Link) {
    RingOk(l) && ReaderOk(l) && l.out <= l.sent && RoomOk(l)
  }

  /** The controller moves; the ring does not. */
  lemma ReaderMoves(l: Link, l': Link)
    requires RingOk(l) && l'.ring == l.ring && l'.sent == l.sent && l'.lap == l.lap
    ensures RingOk(l')
  {
    forall g, i | 0 <= g < l.ring.segments && 0 <= i < DATA_TRBS ensures DataOk(l', g, i) { assert DataOk(l, g, i); }
    forall g | 0 <= g < l.ring.segments ensures LinkOk(l', g) { assert LinkOk(l, g); }
  }

  /** The controller is on this turn, or on the one before. */
  predicate ReaderOk(l: Link) {
    && l.reader.segment < l.ring.segments && l.reader.index <= DATA_TRBS
    && (if l.behind then
          && l.lap > 0 && l.reader.cycle == Phase(l.lap - 1)
          && |l.out| + Pos(l) + Total(l.ring.segments) == |l.sent| + ReaderPos(l)
        else l.reader.cycle == Phase(l.lap) && |l.out| + Pos(l) == |l.sent| + ReaderPos(l))
  }

  /** Before the first submission. */
  function Started(segments: nat): Link
    requires segments > 0
  {
    Link(Setup(segments), Reader(0, 0, true), [], [], 0, false)
  }

  lemma SetupOk(segments: nat)
    requires segments > 0
    ensures LinkInv(Started(segments))
  {
    var l := Started(segments);
    forall g, i | 0 <= g < segments && 0 <= i < DATA_TRBS ensures DataOk(l, g, i) {
      SegmentFits(g, segments);
      PlaceOf(g, i);
    }
    forall g | 0 <= g < segments ensures LinkOk(l, g) {
      SegmentFits(g, segments);
      PlaceOf(g, DATA_TRBS);
    }
  }

  lemma PlaceOf(g: nat, i: nat)
    requires i < RING_TRBS
    ensures At(g, i) % RING_TRBS == i && At(g, i) / RING_TRBS == g
  {}

  /** The controller takes the next block exactly when there is one, and it is the right one: never a stale
      block, never a block twice. */
  lemma FetchExact(l: Link)
    requires LinkInv(l) && l.reader.index < DATA_TRBS
    ensures var (c, x) := Fetch(l.ring.trbs, l.reader);
      && (x.Some? <==> |l.out| < |l.sent|)
      && (x.Some? ==> x.value == l.sent[|l.out|] && LinkInv(l.(reader := c, out := l.out + [x.value])))
      && (x.None? ==> c == l.reader)
  {
    var g, i := l.reader.segment, l.reader.index;
    SegmentFits(g, l.ring.segments);
    assert DataOk(l, g, i);
    PosFits(l);
    var (c, x) := Fetch(l.ring.trbs, l.reader);
    if x.Some? { ReaderMoves(l, l.(reader := c, out := l.out + [x.value])); }
    hide RingOk;
  }

  lemma PosFits(l: Link)
    requires RingShape(l.ring)
    ensures Pos(l) < Total(l.ring.segments)
  {}

  /** A controller at a link always gets across. */
  lemma FollowExact(l: Link)
    requires LinkInv(l) && l.reader.index == DATA_TRBS
    ensures Follow(l.ring.trbs, l.reader).index == 0 && LinkInv(Followed(l))
  {
    var g := l.reader.segment;
    SegmentFits(g, l.ring.segments);
    assert LinkOk(l, g);
    PosFits(l);
    ReaderMoves(l, Followed(l));
    hide RingOk;
  }

  /** The controller at a link: across, if the link is its own. */
  function Followed(l: Link): Link {
    var c := Follow(l.ring.trbs, l.reader);
    if c == l.reader then l
    else l.(reader := c, behind := if l.reader.segment + 1 == l.ring.segments then false else l.behind)
  }

  /** One more block fits: less than a whole turn is then outstanding, or exactly one while the controller
      does not rest at a link. */
  predicate Fits(l: Link) {
    var n := Outstanding(l) + 1;
    n < Total(l.ring.segments) || (n == Total(l.ring.segments) && l.reader.index < DATA_TRBS)
  }

  lemma InvLap(l: Link)
    requires LinkInv(l)
    ensures LapOk(l)
  {}

  /** Submitting a block that fits keeps the ring in order. */
  lemma SubmitKeeps(l: Link, param: nat)
    requires LinkInv(l) && Fits(l)
    ensures LinkInv(Submitted(l, param))
  {
    hide RingOk, Submitted, Phase;
    InvLap(l);
    PosFits(l);
    SubmitRing(l, param);
    SubmittedPos(l, param);
  }

  /** A block that does not fit stops the controller for good: it hands the link under a resting controller
      over a second time, or overwrites the block the controller is about to read. */
  lemma SubmitSticks(l: Link, param: nat)
    requires LinkInv(l) && !Fits(l)
    ensures Consumed(Submitted(l, param)) == Submitted(l, param) && Outstanding(Submitted(l, param)) > 0
  {
    var g := l.reader.segment;
    assert LapOk(l) && LinkOk(l, g) && LinkOk(l, l.ring.segment);
    PosFits(l);
    SegmentFits(g, l.ring.segments);
    SegmentFits(l.ring.segment, l.ring.segments);
    hide RingOk;
  }

  /** The producer submits one block: a turn ends when it comes back to the first segment. */
  function Submitted(l: Link, param: nat): (r: Link)
    requires RingShape(l.ring)
    ensures RingShape(r.ring)
  {
    var wraps := l.ring.index + 1 == DATA_TRBS && l.ring.segment + 1 == l.ring.segments;
    l.(ring := Submit(l.ring, param), sent := l.sent + [param],
       lap := if wraps then l.lap + 1 else l.lap, behind := if wraps then true else l.behind)
  }

  /** The controller takes a step: across a link, or over a block. */
  function Consumed(l: Link): Link {
    if l.reader.index == DATA_TRBS then Followed(l)
    else
      var (c, x) := Fetch(l.ring.trbs, l.reader);
      if x.Some? then l.(reader := c, out := l.out + [x.value]) else l
  }

  lemma SubmitRing(l: Link, param: nat)
    requires RingOk(l)
    ensures RingOk(Submitted(l, param))
  {
    var l' := Submitted(l, param);
    SegmentFits(l.ring.segment, l.ring.segments);
    SubmitLap(l, param);
    forall g, i | 0 <= g < l.ring.segments && 0 <= i < DATA_TRBS ensures DataOk(l', g, i) {
      SegmentFits(g, l.ring.segments);
      assert DataOk(l, g, i);
      hide RingOk;
      SubmitData(l, param, g, i);
    }
    forall g | 0 <= g < l.ring.segments ensures LinkOk(l', g) {
      SegmentFits(g, l.ring.segments);
      assert LinkOk(l, g) && LinkOk(l, l.ring.segment);
      hide RingOk;
      SubmitLink(l, param, g);
    }
  }

  lemma SubmitLap(l: Link, param: nat)
    requires LapOk(l) && LinkOk(l, l.ring.segment)
    ensures LapOk(Submitted(l, param))
  {
    SegmentFits(l.ring.segment, l.ring.segments);
  }

  /** The producer moves one place on, or to the first of the next turn. */
  lemma SubmittedPos(l: Link, param: nat)
    requires RingShape(l.ring)
    ensures var l' := Submitted(l, param);
      var wraps := Pos(l) + 1 == Total(l.ring.segments);
      && l'.ring.segments == l.ring.segments && l'.sent == l.sent + [param] && l'.out == l.out && l'.reader == l.reader
      && Pos(l') == (if wraps then 0 else Pos(l) + 1) && l'.lap == (if wraps then l.lap + 1 else l.lap)
      && l'.behind == (wraps || l.behind)
  {}

  /** One data place is written. */
  lemma SubmittedTrb(l: Link, param: nat, g: nat, i: nat)
    requires RingShape(l.ring) && g < l.ring.segments && i < DATA_TRBS
    ensures At(g, i) < |l.ring.trbs| && At(g, i) < |Submitted(l, param).ring.trbs|
    ensures Submitted(l, param).ring.trbs[At(g, i)] ==
      if PosOf(g, i) == Pos(l) then Trb(param, l.ring.cycle, 0, false) else l.ring.trbs[At(g, i)]
  {
    SegmentFits(g, l.ring.segments);
    SegmentFits(l.ring.segment, l.ring.segments);
    SamePlace(g, i, l.ring.segment, l.ring.index);
  }

  lemma SubmitData(l: Link, param: nat, g: nat, i: nat)
    requires LapOk(l) && LapOk(Submitted(l, param)) && g < l.ring.segments && i < DATA_TRBS && DataOk(l, g, i)
    ensures DataOk(Submitted(l, param), g, i)
  {
    hide Submitted, At;
    SegmentFits(g, l.ring.segments);
    PosFits(l);
    SamePlace(g, i, l.ring.segment, l.ring.index);
    SubmittedPos(l, param);
    SubmittedTrb(l, param, g, i);
  }

  lemma SubmitLink(l: Link, param: nat, g: nat)
    requires LapOk(l) && g < l.ring.segments && LinkOk(l, g)
    ensures RingShape(Submitted(l, param).ring) && LinkOk(Submitted(l, param), g)
  {
    SegmentFits(g, l.ring.segments);
    SegmentFits(l.ring.segment, l.ring.segments);
    PosFits(l);
  }

  lemma SamePlace(g: nat, i: nat, h: nat, j: nat)
    requires i < DATA_TRBS && j < DATA_TRBS
    ensures PosOf(g, i) == PosOf(h, j) <==> g == h && i == j
    ensures At(g, i) == At(h, j) <==> g == h && i == j
    ensures At(g, i) != LinkAt(h)
  {}

  // ---------------------------------------------------------------- runs

  /** One event on the ring: the driver submits a block, or the controller takes a step. */
  datatype Action = Produce(param: nat) | Consume

  function Step(l: Link, a: Action): (r: Link)
    requires RingShape(l.ring)
    ensures RingShape(r.ring)
  {
    match a
    case Produce(param) => Submitted(l, param)
    case Consume => Consumed(l)
  }

  function Run(l: Link, actions: seq<Action>): (r: Link)
    requires RingShape(l.ring)
    ensures RingShape(r.ring)
    decreases |actions|
  {
    if actions == [] then l else Run(Step(l, actions[0]), actions[1..])
  }

  /** Every block submitted along the run fits where it is submitted. */
  predicate AllFit(l: Link, actions: seq<Action>)
    requires RingShape(l.ring)
    decreases |actions|
  {
    actions != [] ==> (actions[0].Produce? ==> Fits(l)) && AllFit(Step(l, actions[0]), actions[1..])
  }

  /** The blocks a run submits, in order. */
  function Params(actions: seq<Action>): seq<nat>
    decreases |actions|
  {
    if actions == [] then []
    else (if actions[0].Produce? then [actions[0].param] else []) + Params(actions[1..])
  }

  lemma StepKeeps(l: Link, a: Action)
    requires LinkInv(l) && (a.Produce? ==> Fits(l))
    ensures RingShape(l.ring) && LinkInv(Step(l, a)) && l.out <= Step(l, a).out
    ensures Step(l, a).sent == l.sent + if a.Produce? then [a.param] else []
  {
    assert RingShape(l.ring);
    match a
    case Produce(param) => SubmitKeeps(l, param);
    case Consume =>
      if l.reader.index == DATA_TRBS {
        FollowExact(l);
      } else {
        assert l.reader.index < DATA_TRBS;
        FetchExact(l);
      }
  }

  /** Over any interleaving and any number of turns, as long as every block fits, the controller executes
      exactly what was submitted, in order. */
  lemma {:induction false} ExecutesInOrder(l: Link, actions: seq<Action>)
    requires LinkInv(l) && RingShape(l.ring) && AllFit(l, actions)
    ensures var u := Run(l, actions);
      LinkInv(u) && u.sent == l.sent + Params(actions) && l.out <= u.out <= u.sent
    decreases |actions|
  {
    hide LinkInv, Step, Fits;
    if actions != [] {
      var v := Step(l, actions[0]);
      StepKeeps(l, actions[0]);
      ExecutesInOrder(v, actions[1..]);
      ThenMore(l.sent, if actions[0].Produce? then [actions[0].param] else [], Params(actions[1..]));
      PrefixOfPrefix(l.out, v.out, Run(l, actions).out);
    } else {
      assert l.sent + [] == l.sent;
      InvPrefix(l);
    }
  }

  lemma ThenMore(a: seq<nat>, b: seq<nat>, c: seq<nat>)
    ensures (a + b) + c == a + (b + c)
  {}

  lemma PrefixOfPrefix(a: seq<nat>, b: seq<nat>, c: seq<nat>)
    requires a <= b <= c
    ensures a <= c
  {}

  lemma InvPrefix(l: Link)
    requires LinkInv(l)
    ensures l.out <= l.sent
  {}

  function Consumes(n: nat): (r: seq<Action>)
    ensures |r| == n && forall i :: 0 <= i < n ==> r[i] == Consume
  {
    seq(n, _ => Consume)
  }

  lemma NothingLeft(l: Link)
    requires LinkInv(l)
    ensures Outstanding(l) >= 0 && (Outstanding(l) == 0 ==> l.out == l.sent)
  {}

  lemma FollowedKeeps(l: Link)
    ensures var l' := Followed(l);
      l'.sent == l.sent && l'.out == l.out && l'.ring == l.ring && l'.reader == Follow(l.ring.trbs, l.reader)
  {}

  /** Left alone, the controller executes everything: two steps a block are enough. */
  lemma {:induction false} Drains(l: Link, n: nat)
    requires LinkInv(l) && RingShape(l.ring) && n >= 2 * Outstanding(l)
    ensures Run(l, Consumes(n)).out == l.sent
    decreases n
  {
    hide LinkInv, Followed, Fetch, Submit;
    NothingLeft(l);
    if n > 0 {
      assert Consumes(n)[1..] == Consumes(n - 1);
      if Outstanding(l) == 0 {
        StepKeeps(l, Consume);
        Drains(Consumed(l), n - 1);
      } else if l.reader.index == DATA_TRBS {
        FollowExact(l);
        FollowedKeeps(l);
        assert Consumes(n - 1)[1..] == Consumes(n - 2);
        FetchesNext(Followed(l));
        Drains(Consumed(Followed(l)), n - 2);
      } else {
        FetchesNext(l);
        Drains(Consumed(l), n - 1);
      }
    }
  }

  lemma FetchesNext(l: Link)
    requires LinkInv(l) && RingShape(l.ring) && l.reader.index != DATA_TRBS && Outstanding(l) > 0
    ensures LinkInv(Consumed(l)) && Consumed(l).sent == l.sent && Outstanding(Consumed(l)) == Outstanding(l) - 1
  {
    assert l.reader.index < DATA_TRBS;
    FetchExact(l);
    hide RingOk, Fetch;
  }

  /** Stuck for good: no number of steps gets the controller any further. */
  lemma {:induction false} StaysStuck(l: Link, n: nat)
    requires RingShape(l.ring) && Consumed(l) == l
    ensures Run(l, Consumes(n)) == l
  {
    if n > 0 {
      assert Consumes(n)[1..] == Consumes(n - 1);
      StaysStuck(l, n - 1);
    }
  }

  /** Exactly then: from a ring in order, one more block leaves the ring in order, and everything is
      executed in the end, if and only if it fits. */
  lemma ExecutesIff(l: Link, param: nat, n: nat)
    requires LinkInv(l) && RingShape(l.ring) && n >= 2 * (Outstanding(l) + 1)
    ensures Run(Submitted(l, param), Consumes(n)).out == l.sent + [param] <==> Fits(l)
  {
    hide RingOk, Submit;
    if Fits(l) {
      SubmitKeeps(l, param);
      Drains(Submitted(l, param), n);
    } else {
      SubmitSticks(l, param);
      StaysStuck(Submitted(l, param), n);
    }
  }

  // ---------------------------------------------------------------- a run that sticks

  lemma {:induction false} RunOn(l: Link, a: seq<Action>, b: seq<Action>)
    requires RingShape(l.ring)
    ensures Run(l, a + b) == Run(Run(l, a), b)
    decreases |a|
  {
    if a == [] {
      assert a + b == b;
    } else {
      assert (a + b)[1..] == a[1..] + b;
      RunOn(Step(l, a[0]), a[1..], b);
    }
  }

  function Produces(n: nat): (r: seq<Action>)
    ensures |r| == n && forall i :: 0 <= i < n ==> r[i] == Produce(0)
  {
    seq(n, _ => Produce(0))
  }

  lemma {:induction false} ProduceMany(l: Link, n: nat)
    requires LinkInv(l) && RingShape(l.ring) && Outstanding(l) + n < Total(l.ring.segments)
    ensures var u := Run(l, Produces(n));
      && LinkInv(u) && u.reader == l.reader && u.out == l.out && |u.sent| == |l.sent| + n
      && u.ring.segments == l.ring.segments
    decreases n
  {
    if n > 0 {
      assert Produces(n)[1..] == Produces(n - 1);
      SubmitKeeps(l, 0);
      hide LinkInv, Submit;
      ProduceMany(Submitted(l, 0), n - 1);
    }
  }

  lemma {:induction false} ConsumeMany(l: Link, n: nat)
    requires LinkInv(l) && RingShape(l.ring) && n <= Outstanding(l) && l.reader.index + n <= DATA_TRBS
    ensures var u := Run(l, Consumes(n));
      && LinkInv(u) && u.reader == l.reader.(index := l.reader.index + n) && |u.out| == |l.out| + n
      && u.sent == l.sent && u.ring == l.ring
    decreases n
  {
    if n > 0 {
      assert Consumes(n)[1..] == Consumes(n - 1);
      FetchExact(l);
      hide LinkInv;
      ConsumeMany(Consumed(l), n - 1);
    }
  }

  /** Fill all but one place, and execute up to the link: the controller rests there. */
  lemma RestAtLink() returns (actions: seq<Action>)
    ensures RingShape(Started(1).ring)
    ensures var u := Run(Started(1), actions);
      LinkInv(u) && u.reader.index == DATA_TRBS && Outstanding(u) == 0 && u.ring.segments == 1
  {
    var l0 := Started(1);
    SetupOk(1);
    ProduceMany(l0, 254);
    var l1 := Run(l0, Produces(254));
    ConsumeMany(l1, 1);
    var l2 := Run(l1, Consumes(1));
    ProduceMany(l2, 1);
    var l3 := Run(l2, Produces(1));
    ConsumeMany(l3, 254);
    hide LinkInv, Step, RingShape;
    RunOn(l0, Produces(254), Consumes(1));
    RunOn(l0, Produces(254) + Consumes(1), Produces(1));
    RunOn(l0, Produces(254) + Consumes(1) + Produces(1), Consumes(254));
    actions := Produces(254) + Consumes(1) + Produces(1) + Consumes(254);
  }

  lemma ProduceOne(l: Link, param: nat)
    requires RingShape(l.ring)
    ensures Run(l, [Produce(param)]) == Submitted(l, param)
  {
    assert [Produce(param)][1..] == [];
  }

  /** A run on one segment that ends with every place filled and a controller that never moves again. */
  lemma SomeRunSticks() returns (actions: seq<Action>)
    ensures RingShape(Started(1).ring)
    ensures var u := Run(Started(1), actions);
      Outstanding(u) == DATA_TRBS && forall n: nat :: Run(u, Consumes(n)) == u
  {
    hide LinkInv, Submitted, Step, RingShape;
    var before := RestAtLink();
    var l := Run(Started(1), before);
    ProduceMany(l, 254);
    var m := Run(l, Produces(254));
    SubmitSticks(m, 0);
    SubmittedPos(m, 0);
    var u := Submitted(m, 0);
    forall n: nat ensures Run(u, Consumes(n)) == u { StaysStuck(u, n); }
    var one := [Produce(0)];
    ProduceOne(m, 0);
    RunOn(Started(1), before, Produces(254));
    RunOn(Started(1), before + Produces(254), one);
    actions := before + Produces(254) + one;
  }

  // ---------------------------------------------------------------- the two rings of the driver

  /** Commands are submitted one at a time: the driver waits for each before the next. */
  predicate OneAtATime(l: Link, actions: seq<Action>)
    requires RingShape(l.ring)
    decreases |actions|
  {
    actions != [] ==>
      (actions[0].Produce? ==> Outstanding(l) == 0) && OneAtATime(Step(l, actions[0]), actions[1..])
  }

  lemma {:induction false} OneFits(l: Link, actions: seq<Action>)
    requires RingShape(l.ring) && OneAtATime(l, actions)
    ensures AllFit(l, actions)
    decreases |actions|
  {
    if actions != [] { OneFits(Step(l, actions[0]), actions[1..]); }
  }

  /** The command ring, one segment: every command is executed once and in order, for ever. */
  lemma CommandRing(actions: seq<Action>)
    requires RingShape(Started(1).ring) && OneAtATime(Started(1), actions)
    ensures var u := Run(Started(1), actions); LinkInv(u) && u.sent == Params(actions) && u.out <= u.sent
  {
    SetupOk(1);
    OneFits(Started(1), actions);
    ExecutesInOrder(Started(1), actions);
    assert [] + Params(actions) == Params(actions);
  }

  /** The interrupt ring with the driver's flag; `seen` counts the completions the driver has handled, one
      for each block executed. */
  datatype Reports = Reports(link: Link, pending: bool, seen: nat)

  datatype Happening = Report(buffer: nat) | Controller | Completion

  function ReportStep(q: Reports, h: Happening): (r: Reports)
    requires RingShape(q.link.ring)
    ensures RingShape(r.link.ring)
  {
    match h
    case Report(buffer) => if q.pending then q else q.(link := Submitted(q.link, buffer), pending := true)
    case Controller => q.(link := Consumed(q.link))
    case Completion => if q.seen < |q.link.out| then q.(pending := false, seen := q.seen + 1) else q
  }

  function ReportRun(q: Reports, hs: seq<Happening>): (r: Reports)
    requires RingShape(q.link.ring)
    ensures RingShape(r.link.ring)
    decreases |hs|
  {
    if hs == [] then q else ReportRun(ReportStep(q, hs[0]), hs[1..])
  }

  /** The flag counts the reports not yet completed: one or none. */
  ghost predicate ReportsOk(q: Reports) {
    LinkInv(q.link) && q.seen <= |q.link.out| && |q.link.sent| == q.seen + (if q.pending then 1 else 0)
  }

  lemma ReportKeeps(q: Reports, h: Happening)
    requires ReportsOk(q)
    ensures RingShape(q.link.ring) && ReportsOk(ReportStep(q, h))
  {
    assert RingShape(q.link.ring);
    match h
    case Report(buffer) => if !q.pending { StepKeeps(q.link, Produce(buffer)); }
    case Controller => StepKeeps(q.link, Consume);
    case Completion =>
  }

  /** The interrupt ring, four segments: the pending flag keeps at most one report outstanding, so over any
      run of submissions, controller steps and completions every report is executed once and in order. */
  lemma {:induction false} ReportRing(q: Reports, hs: seq<Happening>)
    requires ReportsOk(q) && RingShape(q.link.ring)
    ensures var u := ReportRun(q, hs); ReportsOk(u) && Outstanding(u.link) <= 1 && u.link.out <= u.link.sent
    decreases |hs|
  {
    if hs != [] {
      ReportKeeps(q, hs[0]);
      hide ReportsOk, ReportStep;
      ReportRing(ReportStep(q, hs[0]), hs[1..]);
    }
  }

  lemma ReportsStart()
    ensures ReportsOk(Reports(Started(INTR_SEGMENTS), false, 0))
  {
    SetupOk(INTR_SEGMENTS);
  }

  /** The buffers a run of happenings has submitted: each report that came while none was pending. */
  function Accepted(q: Reports, hs: seq<Happening>): seq<nat>
    requires RingShape(q.link.ring)
    decreases |hs|
  {
    if hs == [] then []
    else (if hs[0].Report? && !q.pending then [hs[0].buffer] else []) + Accepted(ReportStep(q, hs[0]), hs[1..])
  }

  lemma {:induction false} ReportsSent(q: Reports, hs: seq<Happening>)
    requires ReportsOk(q) && RingShape(q.link.ring)
    ensures ReportRun(q, hs).link.sent == q.link.sent + Accepted(q, hs)
    decreases |hs|
  {
    if hs != [] {
      ReportKeeps(q, hs[0]);
      var u := ReportStep(q, hs[0]);
      var now := if hs[0].Report? && !q.pending then [hs[0].buffer] else [];
      ReportSent(q, hs[0]);
      hide ReportsOk, ReportStep;
      ReportsSent(u, hs[1..]);
      ThenMore(q.link.sent, now, Accepted(u, hs[1..]));
    }
  }

  lemma ReportSent(q: Reports, h: Happening)
    requires ReportsOk(q) && RingShape(q.link.ring)
    ensures ReportStep(q, h).link.sent == q.link.sent + if h.Report? && !q.pending then [h.buffer] else []
  {
    match h
    case Report(buffer) => if !q.pending { StepKeeps(q.link, Produce(buffer)); }
    case Controller => StepKeeps(q.link, Consume);
    case Completion =>
  }

  /** From the configured endpoint on: at most one report is outstanding, and what the controller has executed
      are the accepted reports, in order, up to that one. */
  lemma ReportsFromStart(hs: seq<Happening>)
    ensures RingShape(Started(INTR_SEGMENTS).ring)
    ensures var q := Reports(Started(INTR_SEGMENTS), false, 0); var u := ReportRun(q, hs);
      && u.link.sent == Accepted(q, hs) && u.link.out <= Accepted(q, hs)
      && |Accepted(q, hs)| <= |u.link.out| + 1
  {
    ReportsStart();
    hide ReportRun, Accepted;
    var q := Reports(Started(INTR_SEGMENTS), false, 0);
    ReportRing(q, hs);
    ReportsSent(q, hs);
    assert [] + Accepted(q, hs) == Accepted(q, hs);
  }

  // ---------------------------------------------------------------- the event ring

  /** The driver's side: the ring, where it reads next, and the cycle bit a new event has. */
  datatype Events = Events(ring: seq<Trb>, index: nat, cycle: bool)

  predicate EventShape(e: Events) { |e.ring| == EVENT_TRBS && e.index < EVENT_TRBS }

  /** The controller publishes its n-th event. */
  function Publish(ring: seq<Trb>, n: nat, ev: nat): seq<Trb>
    requires |ring| == EVENT_TRBS
  {
    ring[n % EVENT_TRBS := Trb(ev, Phase(n / EVENT_TRBS), 0, false)]
  }

  function NextIndex(e: Events): Events {
    if e.index + 1 >= EVENT_TRBS then Events(e.ring, 0, !e.cycle) else e.(index := e.index + 1)
  }

  /** next_event. */
  function TakeEvent(e: Events): (Events, Option<nat>)
    requires EventShape(e)
  {
    if e.ring[e.index].cycle != e.cycle then (e, None) else (NextIndex(e), Some(e.ring[e.index].param))
  }

  /** event_available_count from `count` on. */
  function Available(e: Events, count: nat): (r: nat)
    requires EventShape(e) && count <= EVENT_TRBS
    ensures count <= r <= EVENT_TRBS
    decreases EVENT_TRBS - count
  {
    if count == EVENT_TRBS || e.ring[e.index].cycle != e.cycle then count else Available(NextIndex(e), count + 1)
  }

  lemma AvailableMore(e: Events, count: nat)
    requires EventShape(e) && count < EVENT_TRBS
    ensures Available(e, count) ==
      if e.ring[e.index].cycle != e.cycle then count else Available(NextIndex(e), count + 1)
  {}

  class EventQueue {
    const ring: array<Trb>
    var index: nat
    var cycle: bool

    ghost predicate Wired()
      reads this
    {
      ring.Length == EVENT_TRBS && index < EVENT_TRBS
    }

    function State(): Events
      reads this, ring
    {
      Events(ring[..], index, cycle)
    }

    constructor ()
      ensures Wired() && fresh(ring) && State() == Events(seq(EVENT_TRBS, _ => ZeroTrb()), 0, true)
    {
      ring := new Trb[EVENT_TRBS](_ => ZeroTrb());
      index, cycle := 0, true;
    }

    method NextEvent() returns (x: Option<nat>)
      requires Wired()
      modifies this`index, this`cycle
      ensures Wired() && (State(), x) == TakeEvent(old(State()))
    {
      if ring[index].cycle != cycle { return None; }
      x := Some(ring[index].param);
      index := index + 1;
      if index >= EVENT_TRBS {
        index := 0;
        cycle := !cycle;
      }
    }

    method AvailableCount() returns (count: nat)
      requires Wired()
      ensures count == Available(State(), 0)
    {
      hide Available;
      var idx, c := index, cycle;
      count := 0;
      while count < EVENT_TRBS
        invariant 0 <= count <= EVENT_TRBS && 0 <= idx < EVENT_TRBS
        invariant Available(State(), 0) == Available(Events(ring[..], idx, c), count)
      {
        AvailableMore(Events(ring[..], idx, c), count);
        if ring[idx].cycle != c { break; }
        count := count + 1;
        idx := idx + 1;
        if idx >= EVENT_TRBS {
          idx := 0;
          c := !c;
        }
      }
    }
  }

  /** Place s holds the last event published there; a place never written has the cycle bit of no turn. */
  predicate PlaceOk(ring: seq<Trb>, published: seq<nat>, s: nat)
    requires |ring| == EVENT_TRBS && s < EVENT_TRBS
  {
    var n := |published|;
    if s < n % EVENT_TRBS then
      ring[s].cycle == Phase(n / EVENT_TRBS) && ring[s].param == published[n / EVENT_TRBS * EVENT_TRBS + s]
    else
      && ring[s].cycle == !Phase(n / EVENT_TRBS)
      && (n >= EVENT_TRBS ==> ring[s].param == published[(n / EVENT_TRBS - 1) * EVENT_TRBS + s])
  }

  /** The driver has taken the first `taken` events, and the controller is at most one ring ahead. */
  ghost predicate EventsOk(e: Events, published: seq<nat>, taken: nat) {
    && EventShape(e) && taken <= |published| <= taken + EVENT_TRBS
    && e.index == taken % EVENT_TRBS && e.cycle == Phase(taken / EVENT_TRBS)
    && (forall s :: 0 <= s < EVENT_TRBS ==> PlaceOk(e.ring, published, s))
  }

  lemma EventsStart()
    ensures EventsOk(Events(seq(EVENT_TRBS, _ => ZeroTrb()), 0, true), [], 0)
  {}

  /** The driver sees an event exactly when one is there that it has not taken, and it is the next one. */
  lemma TakeExact(e: Events, published: seq<nat>, taken: nat)
    requires EventsOk(e, published, taken)
    ensures var (f, x) := TakeEvent(e);
      && (x.Some? <==> taken < |published|)
      && (x.Some? ==> x.value == published[taken] && EventsOk(f, published, taken + 1))
      && (x.None? ==> f == e)
  {
    var n := |published|;
    assert PlaceOk(e.ring, published, e.index);
    Turns(taken, n);
    OneOn(taken);
    hide PlaceOk;
    assert forall s :: 0 <= s < EVENT_TRBS ==> PlaceOk(NextIndex(e).ring, published, s);
  }

  /** Two positions at most a turn apart: same turn, or the next one. */
  lemma Turns(taken: nat, n: nat)
    requires taken <= n <= taken + EVENT_TRBS
    ensures taken / EVENT_TRBS == n / EVENT_TRBS ==>
      taken % EVENT_TRBS <= n % EVENT_TRBS && taken == n / EVENT_TRBS * EVENT_TRBS + taken % EVENT_TRBS
    ensures taken / EVENT_TRBS != n / EVENT_TRBS ==>
      && taken / EVENT_TRBS == n / EVENT_TRBS - 1 && taken % EVENT_TRBS >= n % EVENT_TRBS
      && taken == (n / EVENT_TRBS - 1) * EVENT_TRBS + taken % EVENT_TRBS && taken < n
    ensures taken / EVENT_TRBS == n / EVENT_TRBS && taken % EVENT_TRBS == n % EVENT_TRBS ==> taken == n
  {
    assert taken == taken / EVENT_TRBS * EVENT_TRBS + taken % EVENT_TRBS;
    assert n == n / EVENT_TRBS * EVENT_TRBS + n % EVENT_TRBS;
  }

  lemma OneOn(taken: nat)
    ensures taken % EVENT_TRBS + 1 < EVENT_TRBS ==>
      (taken + 1) % EVENT_TRBS == taken % EVENT_TRBS + 1 && (taken + 1) / EVENT_TRBS == taken / EVENT_TRBS
    ensures taken % EVENT_TRBS + 1 >= EVENT_TRBS ==>
      (taken + 1) % EVENT_TRBS == 0 && (taken + 1) / EVENT_TRBS == taken / EVENT_TRBS + 1
    ensures Phase(taken / EVENT_TRBS + 1) == !Phase(taken / EVENT_TRBS)
  {}

  /** The controller may publish while less than a ring is outstanding. */
  lemma PublishKeeps(e: Events, published: seq<nat>, taken: nat, ev: nat)
    requires EventsOk(e, published, taken) && |published| < taken + EVENT_TRBS
    ensures EventsOk(e.(ring := Publish(e.ring, |published|, ev)), published + [ev], taken)
  {
    var n := |published|;
    var ring := Publish(e.ring, n, ev);
    OneOn(n);
    forall s | 0 <= s < EVENT_TRBS ensures PlaceOk(ring, published + [ev], s) {
      assert PlaceOk(e.ring, published, s);
    }
  }

  /** The snapshot counts the events not yet taken. */
  lemma {:induction false} AvailableExact(e: Events, published: seq<nat>, taken: nat, count: nat)
    requires EventsOk(e, published, taken) && count + (|published| - taken) <= EVENT_TRBS
    ensures Available(e, count) == count + (|published| - taken)
    decreases |published| - taken
  {
    TakeExact(e, published, taken);
    if taken < |published| { AvailableExact(NextIndex(e), published, taken + 1, count + 1); }
  }

  // ---------------------------------------------------------------- runs on the event ring

  /** The event ring, everything published on it and everything the driver has taken from it. */
  datatype Bus = Bus(events: Events, published: seq<nat>, taken: seq<nat>)

  datatype EventAction = Post(ev: nat) | Take

  /** The controller holds back while the ring is full. */
  function EventStep(b: Bus, a: EventAction): (r: Bus)
    requires EventShape(b.events)
    ensures EventShape(r.events)
  {
    match a
    case Post(ev) =>
      if |b.published| >= |b.taken| + EVENT_TRBS then b
      else b.(events := b.events.(ring := Publish(b.events.ring, |b.published|, ev)), published := b.published + [ev])
    case Take =>
      var (e, x) := TakeEvent(b.events);
      if x.Some? then b.(events := e, taken := b.taken + [x.value]) else b
  }

  function EventRun(b: Bus, actions: seq<EventAction>): (r: Bus)
    requires EventShape(b.events)
    ensures EventShape(r.events)
    decreases |actions|
  {
    if actions == [] then b else EventRun(EventStep(b, actions[0]), actions[1..])
  }

  ghost predicate BusOk(b: Bus) {
    EventsOk(b.events, b.published, |b.taken|) && b.taken <= b.published
  }

  /** An empty ring. */
  function NewBus(): Bus { Bus(Events(seq(EVENT_TRBS, _ => ZeroTrb()), 0, true), [], []) }

  lemma NewBusOk()
    ensures BusOk(NewBus())
  {
    EventsStart();
  }

  lemma EventKeeps(b: Bus, a: EventAction)
    requires BusOk(b)
    ensures EventShape(b.events) && BusOk(EventStep(b, a))
  {
    assert EventShape(b.events);
    match a
    case Post(ev) => if |b.published| < |b.taken| + EVENT_TRBS { PublishKeeps(b.events, b.published, |b.taken|, ev); }
    case Take => TakeExact(b.events, b.published, |b.taken|);
  }

  /** Over any run the driver takes the published events, each once and in order, and the snapshot counts
      those still to be taken. */
  lemma {:induction false} EventsInOrder(b: Bus, actions: seq<EventAction>)
    requires BusOk(b) && EventShape(b.events)
    ensures var u := EventRun(b, actions);
      BusOk(u) && u.taken <= u.published && Available(u.events, 0) == |u.published| - |u.taken|
    decreases |actions|
  {
    if actions == [] {
      AvailableExact(b.events, b.published, |b.taken|, 0);
    } else {
      EventKeeps(b, actions[0]);
      hide BusOk, EventStep;
      EventsInOrder(EventStep(b, actions[0]), actions[1..]);
    }
  }

  /** From the empty ring on. */
  lemma EventsFromStart(actions: seq<EventAction>)
    ensures EventShape(NewBus().events)
    ensures var u := EventRun(NewBus(), actions);
      u.taken <= u.published && Available(u.events, 0) == |u.published| - |u.taken|
  {
    NewBusOk();
    hide EventRun, NewBus;
    EventsInOrder(NewBus(), actions);
  }
}
