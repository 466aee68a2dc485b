/** The physical frame allocator (src/memory.c): a bitmap of 32-bit words, 16-bit reference
    counts and a free counter, all updated in place. */
module Memory {
  import opened Common

  const PAGE_SIZE: nat := 4096
  const MAX_PAGES: nat := 65536
  const RESERVED_PAGES: nat := 2048
  const BITMAP_WORDS: nat := 2048
  const REF_MAX: nat := 0xFFFF

  // ---------------------------------------------------------------- bitmap words

  /** One 32-bit bitmap word as its bits, bit 0 first. */
  type Word = w: seq<bool> | |w| == 32 witness seq(32, _ => false)

  type Bitmap = b: seq<Word> | |b| == BITMAP_WORDS witness seq(BITMAP_WORDS, _ => seq(32, _ => false))

  /** The bitmap read as one flag per frame: word p / 32, bit p % 32. */
  function UsedOf(words: Bitmap): (used: seq<bool>)
    ensures |used| == MAX_PAGES
    ensures forall p :: 0 <= p < MAX_PAGES ==> used[p] == words[p / 32][p % 32]
  {
    seq(MAX_PAGES, p requires 0 <= p < MAX_PAGES => words[p / 32][p % 32])
  }

  /** Writing one bit of one word changes exactly one frame's flag. */
  lemma WriteBit(words: Bitmap, p: nat, v: bool)
    requires p < MAX_PAGES
    ensures UsedOf(words[p / 32 := words[p / 32][p % 32 := v]]) == UsedOf(words)[p := v]
  {
    var after: Bitmap := words[p / 32 := words[p / 32][p % 32 := v]];
    forall q | 0 <= q < MAX_PAGES
      ensures UsedOf(after)[q] == UsedOf(words)[p := v][q]
    {
      assert q == p <==> q / 32 == p / 32 && q % 32 == p % 32;
    }
  }

  // ---------------------------------------------------------------- the allocator as a value

  datatype Frames = Frames(used: seq<bool>, refs: seq<nat>, total: nat, free: nat)

  function CountFree(used: seq<bool>): nat {
    if used == [] then 0
    else CountFree(used[..|used| - 1]) + (if used[|used| - 1] then 0 else 1)
  }

  predicate Shape(s: Frames) {
    |s.used| == MAX_PAGES && |s.refs| == MAX_PAGES
  }

  /** What every reachable allocator state satisfies. */
  ghost predicate Valid(s: Frames) {
    && Shape(s)
    && s.free == CountFree(s.used)
    && (forall p :: 0 <= p < MAX_PAGES && !s.used[p] ==> s.refs[p] == 0)
    && (forall p :: 0 <= p < MAX_PAGES ==> s.refs[p] <= REF_MAX)
    && (forall p :: 0 <= p < RESERVED_PAGES ==> s.used[p])
  }

  /** The guard shared by retain, refcount and free: a page-aligned address of a managed frame. */
  predicate Managed(addr: nat) {
    addr % PAGE_SIZE == 0 && RESERVED_PAGES <= addr / PAGE_SIZE < MAX_PAGES
  }

  function RetainPage(s: Frames, addr: nat): Frames
    requires Shape(s)
  {
    var p := addr / PAGE_SIZE;
    if Managed(addr) && s.used[p] && s.refs[p] < REF_MAX then s.(refs := s.refs[p := s.refs[p] + 1])
    else s
  }

  function RefCount(s: Frames, addr: nat): nat
    requires Shape(s)
  {
    if Managed(addr) && s.used[addr / PAGE_SIZE] then s.refs[addr / PAGE_SIZE] else 0
  }

  function FreePage(s: Frames, addr: nat): (r: Frames)
    requires Shape(s)
    ensures Shape(r)
  {
    var p := addr / PAGE_SIZE;
    if Managed(addr) && s.used[p] && s.refs[p] > 0 then
      var less := s.(refs := s.refs[p := s.refs[p] - 1]);
      if s.refs[p] == 1 then less.(used := s.used[p := false], free := s.free + 1) else less
    else s
  }

  predicate RunFree(used: seq<bool>, p: nat, count: nat)
    requires |used| == MAX_PAGES
  {
    p + count <= MAX_PAGES && forall i :: p <= i < p + count ==> !used[i]
  }

  /** The lowest start, at or after `from`, of `count` free frames in a row. */
  function FirstRun(used: seq<bool>, count: nat, from: nat): (r: Option<nat>)
    requires |used| == MAX_PAGES && count > 0
    ensures r.Some? ==> from <= r.value && RunFree(used, r.value, count)
    ensures r.Some? ==> forall q :: from <= q < r.value ==> !RunFree(used, q, count)
    ensures r.None? ==> forall q :: from <= q ==> !RunFree(used, q, count)
    decreases MAX_PAGES - from
  {
    if from + count > MAX_PAGES then None
    else if RunFree(used, from, count) then Some(from)
    else FirstRun(used, count, from + 1)
  }

  function TakeRun(s: Frames, start: nat, count: nat): (r: Frames)
    requires Shape(s) && count <= s.free
    ensures Shape(r)
  {
    Frames(
      seq(MAX_PAGES, i requires 0 <= i < MAX_PAGES => s.used[i] || start <= i < start + count),
      seq(MAX_PAGES, i requires 0 <= i < MAX_PAGES => if start <= i < start + count then 1 else s.refs[i]),
      s.total, s.free - count)
  }

  /** Address of the first frame of the run taken, or 0. */
  function AllocRun(s: Frames, count: nat): (r: (Frames, nat))
    requires Valid(s)
    ensures Shape(r.0)
    ensures r.1 == 0 || (Managed(r.1) && r.1 / PAGE_SIZE + count <= MAX_PAGES)
  {
    if count == 0 || count > MAX_PAGES - RESERVED_PAGES then (s, 0)
    else
      match FirstRun(s.used, count, RESERVED_PAGES)
      case None => (s, 0)
      case Some(p) =>
        FreeRunFits(s.used, p, count);
        (TakeRun(s, p, count), p * PAGE_SIZE)
  }

  // ---------------------------------------------------------------- counting free frames

  lemma {:induction false} CountFreeUpdate(used: seq<bool>, p: nat, v: bool)
    requires p < |used|
    ensures CountFree(used[p := v]) + (if used[p] then 0 else 1) == CountFree(used) + (if v then 0 else 1)
  {
    var n := |used| - 1;
    if p < n {
      CountFreeUpdate(used[..n], p, v);
      assert used[p := v][..n] == used[..n][p := v];
    } else {
      assert used[p := v][..n] == used[..n];
    }
  }

  /** A free run of `count` frames needs `count` free frames. */
  lemma {:induction false} FreeRunFits(used: seq<bool>, p: nat, count: nat)
    requires p + count <= |used| && forall i :: p <= i < p + count ==> !used[i]
    ensures count <= CountFree(used)
    decreases |used|
  {
    if used != [] {
      var n := |used| - 1;
      if p + count <= n {
        FreeRunFits(used[..n], p, count);
      } else if count > 0 {
        FreeRunFits(used[..n], p, count - 1);
      }
    }
  }

  function Taken(used: seq<bool>, start: nat, count: nat): (r: seq<bool>)
    ensures |r| == |used|
  {
    seq(|used|, i requires 0 <= i < |used| => used[i] || start <= i < start + count)
  }

  lemma {:induction false} CountTaken(used: seq<bool>, start: nat, count: nat)
    requires start + count <= |used| && forall i :: start <= i < start + count ==> !used[i]
    ensures CountFree(Taken(used, start, count)) + count == CountFree(used)
    decreases count
  {
    if count == 0 {
      assert Taken(used, start, 0) == used;
    } else {
      CountTaken(used, start, count - 1);
      var before := Taken(used, start, count - 1);
      assert Taken(used, start, count) == before[start + count - 1 := true];
      CountFreeUpdate(before, start + count - 1, true);
    }
  }

  // ---------------------------------------------------------------- every operation keeps Valid

  lemma AllocValid(s: Frames, count: nat)
    requires Valid(s)
    ensures Valid(AllocRun(s, count).0)
  {
    var (t, a) := AllocRun(s, count);
    if a != 0 {
      var p := FirstRun(s.used, count, RESERVED_PAGES).value;
      CountTaken(s.used, p, count);
      assert t.used == Taken(s.used, p, count);
    }
  }

  lemma AllocNothing(s: Frames, count: nat)
    requires Valid(s)
    ensures AllocRun(s, count).1 == 0 ==> AllocRun(s, count).0 == s
  {}

  lemma RetainValid(s: Frames, addr: nat)
    requires Valid(s)
    ensures Valid(RetainPage(s, addr))
  {}

  lemma FreeValid(s: Frames, addr: nat)
    requires Valid(s)
    ensures Valid(FreePage(s, addr))
  {
    if Managed(addr) {
      CountFreeUpdate(s.used, addr / PAGE_SIZE, false);
    }
  }

  /** Allocation is exact: it returns the lowest free run above the reserved frames, and fails on a
      valid count only when there is none. */
  lemma AllocExact(s: Frames, count: nat)
    requires Valid(s) && 0 < count <= MAX_PAGES - RESERVED_PAGES
    ensures var (t, a) := AllocRun(s, count);
      if a == 0 then t == s && forall p :: RESERVED_PAGES <= p ==> !RunFree(s.used, p, count)
      else
        && Managed(a)
        && RunFree(s.used, a / PAGE_SIZE, count)
        && (forall p :: RESERVED_PAGES <= p < a / PAGE_SIZE ==> !RunFree(s.used, p, count))
        && (forall i :: a / PAGE_SIZE <= i < a / PAGE_SIZE + count ==> RefCount(t, i * PAGE_SIZE) == 1)
  {
    var (t, a) := AllocRun(s, count);
    if a != 0 {
      var p := FirstRun(s.used, count, RESERVED_PAGES).value;
      assert a / PAGE_SIZE == p;
      forall i | p <= i < p + count ensures RefCount(t, i * PAGE_SIZE) == 1 {
        assert Managed(i * PAGE_SIZE);
      }
    }
  }

  // ---------------------------------------------------------------- runs of the allocator

  datatype Op = Alloc(count: nat) | Retain(addr: nat) | Free(addr: nat)

  function Step(s: Frames, op: Op): (r: Frames)
    requires Valid(s)
    ensures Shape(r)
  {
    match op
    case Alloc(count) => AllocRun(s, count).0
    case Retain(addr) => RetainPage(s, addr)
    case Free(addr) => FreePage(s, addr)
  }

  lemma StepValid(s: Frames, op: Op)
    requires Valid(s)
    ensures Valid(Step(s, op))
  {
    match op
    case Alloc(count) => AllocValid(s, count);
    case Retain(addr) => RetainValid(s, addr);
    case Free(addr) => FreeValid(s, addr);
  }

  function Run(s: Frames, ops: seq<Op>): (r: Frames)
    requires Valid(s)
    ensures Valid(r)
    decreases ops
  {
    if ops == [] then s else
    StepValid(s, ops[0]);
    Run(Step(s, ops[0]), ops[1..])
  }

  /** A frame taken at initialisation: in use, but by no counted owner. */
  predicate Withheld(s: Frames, p: nat)
    requires Shape(s)
  {
    p < MAX_PAGES && s.used[p] && s.refs[p] == 0
  }

  /** A withheld frame stays withheld across one operation exactly when that operation does not
      retain it; so retaining a reserved frame is the one way to lose it. */
  lemma WithheldStep(s: Frames, op: Op, p: nat)
    requires Valid(s) && Withheld(s, p)
    ensures Withheld(Step(s, op), p) <==> !(op.Retain? && Managed(op.addr) && op.addr == p * PAGE_SIZE)
  {
    if op.Alloc? {
      AllocValid(s, op.count);
    }
  }

  /** Over every run that never retains it, a withheld frame is never handed out. */
  lemma {:induction false} WithheldForever(s: Frames, ops: seq<Op>, p: nat)
    requires Valid(s) && Withheld(s, p)
    requires forall i :: 0 <= i < |ops| ==> ops[i] != Retain(p * PAGE_SIZE)
    ensures Withheld(Run(s, ops), p)
    decreases ops
  {
    if ops != [] {
      WithheldStep(s, ops[0], p);
      StepValid(s, ops[0]);
      WithheldForever(Step(s, ops[0]), ops[1..], p);
    }
  }

  // ---------------------------------------------------------------- borrowing and giving back

  /** `s1` is `s0` with the frames `taken` newly allocated (count 1) and the already allocated
      frames in `shared` retained that many times. */
  ghost predicate Lent(s0: Frames, s1: Frames, taken: set<nat>, shared: multiset<nat>) {
    && Shape(s0) && Shape(s1) && s0.total == s1.total
    && (forall p :: p in taken || p in shared ==> RESERVED_PAGES <= p < MAX_PAGES)
    && (forall p :: p in shared ==> p !in taken && s0.used[p] && s0.refs[p] > 0)
    && (forall p :: 0 <= p < MAX_PAGES ==>
          if p in taken then !s0.used[p] && s1.used[p] && s1.refs[p] == 1
          else s1.used[p] == s0.used[p] && s1.refs[p] == s0.refs[p] + shared[p])
  }

  function RunSet(start: nat, count: nat): (r: set<nat>)
    ensures forall p :: p in r <==> start <= p < start + count
  {
    if count == 0 then {} else RunSet(start, count - 1) + {start + count - 1}
  }

  lemma NothingLent(s: Frames)
    requires Shape(s)
    ensures Lent(s, s, {}, multiset{})
  {}

  lemma AllocLends(s0: Frames, s1: Frames, taken: set<nat>, shared: multiset<nat>, count: nat)
    requires Valid(s1) && Lent(s0, s1, taken, shared)
    requires AllocRun(s1, count).1 != 0
    ensures var (s2, a) := AllocRun(s1, count);
      taken !! RunSet(a / PAGE_SIZE, count) && Lent(s0, s2, taken + RunSet(a / PAGE_SIZE, count), shared)
  {
    var p := FirstRun(s1.used, count, RESERVED_PAGES).value;
    assert AllocRun(s1, count).1 / PAGE_SIZE == p;
    forall q | p <= q < p + count ensures q !in taken && q !in shared {
      assert !s1.used[q];
    }
  }

  lemma AllocOneLends(s0: Frames, s1: Frames, taken: set<nat>, shared: multiset<nat>)
    requires Valid(s1) && Lent(s0, s1, taken, shared)
    requires AllocRun(s1, 1).1 != 0
    ensures var (s2, a) := AllocRun(s1, 1); var t := a / PAGE_SIZE;
      && t < MAX_PAGES && !s1.used[t] && t !in taken && t !in shared
      && Lent(s0, s2, taken + {t}, shared)
  {
    AllocLends(s0, s1, taken, shared, 1);
    AllocExact(s1, 1);
    var t := AllocRun(s1, 1).1 / PAGE_SIZE;
    assert RunSet(t, 1) == {t};
  }

  lemma RetainLends(s0: Frames, s1: Frames, taken: set<nat>, shared: multiset<nat>, p: nat)
    requires Lent(s0, s1, taken, shared) && RESERVED_PAGES <= p < MAX_PAGES
    requires p !in taken && s0.used[p] && 0 < s0.refs[p] && s1.refs[p] < REF_MAX
    ensures Lent(s0, RetainPage(s1, p * PAGE_SIZE), taken, shared + multiset{p})
  {
    assert p * PAGE_SIZE / PAGE_SIZE == p;
  }

  lemma FreeTaken(s0: Frames, s1: Frames, taken: set<nat>, shared: multiset<nat>, p: nat)
    requires Lent(s0, s1, taken, shared) && p in taken
    requires forall q :: 0 <= q < MAX_PAGES && !s0.used[q] ==> s0.refs[q] == 0
    ensures Lent(s0, FreePage(s1, p * PAGE_SIZE), taken - {p}, shared)
  {
    assert p * PAGE_SIZE / PAGE_SIZE == p;
  }

  /** One frame given back: `rest` is what is still owed. */
  lemma GiveBack(s0: Frames, s1: Frames, taken: set<nat>, rest: set<nat>, shared: multiset<nat>, p: nat)
    requires Valid(s0) && Valid(s1) && Lent(s0, s1, taken, shared) && p in taken && rest == taken - {p}
    ensures Valid(FreePage(s1, p * PAGE_SIZE)) && Lent(s0, FreePage(s1, p * PAGE_SIZE), rest, shared)
  {
    FreeTaken(s0, s1, taken, shared, p);
    FreeValid(s1, p * PAGE_SIZE);
  }

  lemma FreeShared(s0: Frames, s1: Frames, taken: set<nat>, shared: multiset<nat>, p: nat)
    requires Lent(s0, s1, taken, shared) && p in shared
    ensures Lent(s0, FreePage(s1, p * PAGE_SIZE), taken, shared - multiset{p})
  {
    assert p * PAGE_SIZE / PAGE_SIZE == p;
  }

  /** Giving everything back restores every field of the allocator. */
  lemma AllReturned(s0: Frames, s1: Frames)
    requires Valid(s0) && Valid(s1) && Lent(s0, s1, {}, multiset{})
    ensures s1 == s0
  {
    assert s1.used == s0.used;
    assert s1.refs == s0.refs;
  }

  // ---------------------------------------------------------------- boot-time ranges

  function FloorPage(a: nat): nat { a / PAGE_SIZE * PAGE_SIZE }

  function CeilPage(a: nat): nat { (a + PAGE_SIZE - 1) / PAGE_SIZE * PAGE_SIZE }

  /** A byte range (address, length) or (start, end); the code is exact below 2^44. */
  const RANGE_LIMIT: nat := 0x1000_0000_0000

  /** Page q lies wholly inside the available range (address, length). */
  predicate Offered(r: (nat, nat), q: nat) {
    CeilPage(r.0) <= q * PAGE_SIZE < FloorPage(r.0 + r.1)
  }

  /** Page q meets the reserved range (start, end). */
  predicate Claimed(r: (nat, nat), q: nat) {
    r.0 < r.1 && FloorPage(r.0) <= q * PAGE_SIZE < CeilPage(r.1)
  }

  predicate OfferedBy(rs: seq<(nat, nat)>, q: nat) {
    exists k :: 0 <= k < |rs| && Offered(rs[k], q)
  }

  predicate ClaimedBy(rs: seq<(nat, nat)>, q: nat) {
    exists k :: 0 <= k < |rs| && Claimed(rs[k], q)
  }

  lemma ClaimedPages(start: nat, end: nat)
    ensures FloorPage(start) % PAGE_SIZE == 0 && CeilPage(end) % PAGE_SIZE == 0
    ensures start < end ==> FloorPage(start) <= CeilPage(end)
    ensures forall q: nat :: Claimed((start, end), q) <==>
      start < end && FloorPage(start) / PAGE_SIZE <= q < CeilPage(end) / PAGE_SIZE
  {}

  lemma OfferedPages(addr: nat, len: nat)
    ensures forall q: nat :: Offered((addr, len), q) <==>
      CeilPage(addr) / PAGE_SIZE <= q < FloorPage(addr + len) / PAGE_SIZE
  {}

  // ---------------------------------------------------------------- the allocator in place

  class FrameAllocator {
    const bitmap: array<Word>
    const pageRefs: array<nat>
    var totalPages: nat
    var freePages: nat

    ghost predicate Wired()
      reads this
    {
      bitmap.Length == BITMAP_WORDS && pageRefs.Length == MAX_PAGES
    }

    function State(): (s: Frames)
      requires Wired()
      reads this, bitmap, pageRefs
      ensures Shape(s)
    {
      Frames(UsedOf(bitmap[..]), pageRefs[..], totalPages, freePages)
    }

    constructor ()
      ensures Wired() && fresh(bitmap) && fresh(pageRefs)
      ensures State() == Frames(seq(MAX_PAGES, _ => false), seq(MAX_PAGES, _ => 0), 0, 0)
    {
      bitmap := new Word[BITMAP_WORDS](_ => seq(32, _ => false));
      pageRefs := new nat[MAX_PAGES](_ => 0);
      totalPages, freePages := 0, 0;
      new;
      assert UsedOf(bitmap[..]) == seq(MAX_PAGES, _ => false);
      assert pageRefs[..] == seq(MAX_PAGES, _ => 0);
    }

    method MarkUsed(p: nat)
      requires Wired()
      modifies bitmap
      ensures p < MAX_PAGES ==> State() == old(State()).(used := old(State()).used[p := true])
      ensures p >= MAX_PAGES ==> State() == old(State())
    {
      if p < MAX_PAGES {
        WriteBit(bitmap[..], p, true);
        ghost var before := bitmap[..];
        bitmap[p / 32] := bitmap[p / 32][p % 32 := true];
        assert bitmap[..] == before[p / 32 := before[p / 32][p % 32 := true]];
      }
    }

    method MarkFree(p: nat)
      requires Wired()
      modifies bitmap
      ensures p < MAX_PAGES ==> State() == old(State()).(used := old(State()).used[p := false])
      ensures p >= MAX_PAGES ==> State() == old(State())
    {
      if p < MAX_PAGES {
        WriteBit(bitmap[..], p, false);
        ghost var before := bitmap[..];
        bitmap[p / 32] := bitmap[p / 32][p % 32 := false];
        assert bitmap[..] == before[p / 32 := before[p / 32][p % 32 := false]];
      }
    }

    method IsFree(p: nat) returns (free: bool)
      requires Wired()
      ensures free == (p < MAX_PAGES && !State().used[p])
    {
      free := p < MAX_PAGES && !bitmap[p / 32][p % 32];
    }

    method SetRefs(p: nat, n: nat)
      requires Wired() && p < MAX_PAGES
      modifies pageRefs
      ensures State() == old(State()).(refs := old(State()).refs[p := n])
    {
      pageRefs[p] := n;
    }

    method PageAllocContiguous(count: nat) returns (addr: nat)
      requires Wired() && Valid(State())
      modifies this, bitmap, pageRefs
      ensures (State(), addr) == AllocRun(old(State()), count)
    {
      if count == 0 || count > MAX_PAGES - RESERVED_PAGES {
        return 0;
      }
      var found, start := FindRun(count);
      if !found {
        return 0;
      }
      FreeRunFits(State().used, start, count);
      Claim(start, count);
      addr := start * PAGE_SIZE;
    }

    /** The scanning loop: extend a run of free frames, start over after a frame in use. */
    method FindRun(count: nat) returns (found: bool, start: nat)
      requires Wired() && count > 0
      ensures FirstRun(State().used, count, RESERVED_PAGES) == if found then Some(start) else None
    {
      ghost var used := State().used;
      var run := 0;
      start := RESERVED_PAGES;
      var p := RESERVED_PAGES;
      while p < MAX_PAGES
        invariant RESERVED_PAGES <= p <= MAX_PAGES && run < count
        invariant run > 0 ==> RESERVED_PAGES <= start && start + run == p
        invariant forall i :: p - run <= i < p ==> !used[i]
        invariant forall q :: RESERVED_PAGES <= q < p - run ==> !RunFree(used, q, count)
      {
        var free := IsFree(p);
        if free {
          if run == 0 { start := p; }
          run := run + 1;
          if run == count {
            FirstRunIs(used, count, start);
            return true, start;
          }
        } else {
          forall q | p - run <= q <= p
            ensures !RunFree(used, q, count)
          {
            assert used[p] && q <= p < q + count;
          }
          run := 0;
        }
        p := p + 1;
      }
      found := false;
    }

    /** The marking loop of a successful allocation. */
    method Claim(start: nat, count: nat)
      requires Wired() && start + count <= MAX_PAGES && count <= freePages
      modifies this, bitmap, pageRefs
      ensures State() == TakeRun(old(State()), start, count)
    {
      ghost var s := State();
      for i := 0 to count
        invariant freePages == s.free && totalPages == s.total
        invariant State() == TakeRun(s, start, i).(free := s.free)
      {
        MarkUsed(start + i);
        SetRefs(start + i, 1);
        assert State().used == TakeRun(s, start, i + 1).used;
        assert State().refs == TakeRun(s, start, i + 1).refs;
      }
      freePages := freePages - count;
    }

    method PageRetain(addr: nat)
      requires Wired()
      modifies pageRefs
      ensures State() == RetainPage(old(State()), addr)
    {
      if addr % PAGE_SIZE != 0 { return; }
      var p := addr / PAGE_SIZE;
      if p < RESERVED_PAGES || p >= MAX_PAGES { return; }
      var free := IsFree(p);
      if !free && pageRefs[p] < REF_MAX {
        SetRefs(p, pageRefs[p] + 1);
      }
    }

    method PageRefcount(addr: nat) returns (n: nat)
      requires Wired()
      ensures n == RefCount(State(), addr)
    {
      if addr % PAGE_SIZE != 0 { return 0; }
      var p := addr / PAGE_SIZE;
      if p < RESERVED_PAGES || p >= MAX_PAGES { return 0; }
      var free := IsFree(p);
      n := if free then 0 else pageRefs[p];
    }

    method PageFree(addr: nat)
      requires Wired()
      modifies this, bitmap, pageRefs
      ensures State() == FreePage(old(State()), addr)
    {
      if addr % PAGE_SIZE != 0 { return; }
      var p := addr / PAGE_SIZE;
      if p < RESERVED_PAGES || p >= MAX_PAGES { return; }
      var free := IsFree(p);
      if !free && pageRefs[p] != 0 {
        SetRefs(p, pageRefs[p] - 1);
        if pageRefs[p] == 0 {
          MarkFree(p);
          freePages := freePages + 1;
        }
      }
    }

    method Withhold(p: nat)
      requires Wired() && p < MAX_PAGES && !State().used[p] && freePages == CountFree(State().used)
      modifies this`freePages, bitmap
      ensures State() == old(State()).(used := old(State()).used[p := true], free := freePages)
      ensures freePages == CountFree(State().used)
    {
      CountFreeUpdate(State().used, p, true);
      MarkUsed(p);
      if freePages != 0 { freePages := freePages - 1; }
    }

    method ReserveRange(start: nat, end: nat)
      requires Wired() && start < RANGE_LIMIT && end < RANGE_LIMIT
      requires freePages == CountFree(State().used)
      modifies this, bitmap
      ensures freePages == CountFree(State().used)
      ensures State().refs == old(State().refs) && totalPages == old(totalPages)
      ensures forall q :: 0 <= q < MAX_PAGES ==>
        State().used[q] == (old(State()).used[q] || Claimed((start, end), q))
    {
      hide CountFree, Claimed, FloorPage, CeilPage;
      ClaimedPages(start, end);
      if end <= start { return; }
      var s, e := FloorPage(start), CeilPage(end);
      var a := s;
      ghost var before := State();
      while a < e
        invariant s <= a && a % PAGE_SIZE == 0 && a <= e
        invariant freePages == CountFree(State().used)
        invariant State().refs == before.refs && totalPages == before.total
        invariant forall q :: 0 <= q < MAX_PAGES ==>
          State().used[q] == (before.used[q] || s / PAGE_SIZE <= q < a / PAGE_SIZE)
      {
        var p := a / PAGE_SIZE;
        var free := IsFree(p);
        if p < MAX_PAGES && free { Withhold(p); }
        a := a + PAGE_SIZE;
      }
    }

    /** Every frame of one available range becomes free with count zero; the address loop is written
        over page numbers. */
    method OfferRange(addr: nat, len: nat)
      requires Wired() && addr + len < RANGE_LIMIT
      requires freePages == CountFree(State().used)
      requires forall q :: 0 <= q < MAX_PAGES ==> State().refs[q] == 0
      modifies this, bitmap, pageRefs
      ensures freePages == CountFree(State().used)
      ensures State().refs == old(State().refs)
      ensures forall q :: 0 <= q < MAX_PAGES ==>
        State().used[q] == (old(State()).used[q] && !Offered((addr, len), q))
    {
      var first, limit := CeilPage(addr) / PAGE_SIZE, FloorPage(addr + len) / PAGE_SIZE;
      OfferedPages(addr, len);
      var page := first;
      ghost var before := State();
      while page < limit
        invariant first <= page && (page == first || page <= limit)
        invariant freePages == CountFree(State().used) && State().refs == before.refs
        invariant forall q: nat :: q < MAX_PAGES ==>
          State().used[q] == (before.used[q] && !(first <= q < page))
      {
        OfferPage(page);
        page := page + 1;
      }
    }

    method OfferPage(p: nat)
      requires Wired() && freePages == CountFree(State().used)
      requires p < MAX_PAGES ==> State().refs[p] == 0
      modifies this, bitmap, pageRefs
      ensures freePages == CountFree(State().used)
      ensures State().refs == old(State().refs)
      ensures State().used == if p < MAX_PAGES then old(State()).used[p := false] else old(State()).used
    {
      var free := IsFree(p);
      if p < MAX_PAGES && !free {
        CountFreeUpdate(State().used, p, false);
        MarkFree(p);
        SetRefs(p, 0);
        assert State().refs == old(State().refs);
        freePages := freePages + 1;
        if p + 1 > totalPages { totalPages := p + 1; }
      }
    }

    /** Start from nothing: every frame in use, no counts. */
    method WithholdAll()
      requires Wired()
      modifies this, bitmap, pageRefs
      ensures totalPages == freePages == 0 && CountFree(State().used) == 0
      ensures forall q :: 0 <= q < MAX_PAGES ==> State().used[q] && State().refs[q] == 0
    {
      for i := 0 to BITMAP_WORDS
        invariant forall j :: 0 <= j < i ==> bitmap[j] == seq(32, _ => true)
      {
        bitmap[i] := seq(32, _ => true);
      }
      ghost var marked := bitmap[..];
      for i := 0 to MAX_PAGES
        invariant forall j :: 0 <= j < i ==> pageRefs[j] == 0
        invariant bitmap[..] == marked
      {
        pageRefs[i] := 0;
      }
      totalPages, freePages := 0, 0;
      ghost var used := State().used;
      forall p | 0 <= p < MAX_PAGES ensures used[p] {
        assert marked[p / 32] == seq(32, _ => true);
      }
      NoneFree(used);
    }

    method OfferAll(available: seq<(nat, nat)>)
      requires Wired() && freePages == CountFree(State().used)
      requires forall k :: 0 <= k < |available| ==> available[k].0 + available[k].1 < RANGE_LIMIT
      requires forall q :: 0 <= q < MAX_PAGES ==> State().used[q] && State().refs[q] == 0
      modifies this, bitmap, pageRefs
      ensures freePages == CountFree(State().used)
      ensures forall q :: 0 <= q < MAX_PAGES ==> State().refs[q] == 0
      ensures forall q :: 0 <= q < MAX_PAGES ==> State().used[q] == !OfferedBy(available, q)
    {
      for k := 0 to |available|
        invariant freePages == CountFree(State().used)
        invariant forall q :: 0 <= q < MAX_PAGES ==> State().refs[q] == 0
        invariant forall q :: 0 <= q < MAX_PAGES ==> State().used[q] == !OfferedBy(available[..k], q)
      {
        OfferRange(available[k].0, available[k].1);
        forall q | 0 <= q < MAX_PAGES
          ensures State().used[q] == !OfferedBy(available[..k + 1], q)
        {
          OfferedByMore(available, k, q);
        }
      }
      assert available[..|available|] == available;
    }

    /** `available` are the usable ranges of the memory map as (address, length); `boot` the kernel
        image, the boot information block and the modules as (start, end). */
    method MemoryInit(available: seq<(nat, nat)>, boot: seq<(nat, nat)>)
      requires Wired()
      requires forall k :: 0 <= k < |available| ==> available[k].0 + available[k].1 < RANGE_LIMIT
      requires forall k :: 0 <= k < |boot| ==> boot[k].0 < RANGE_LIMIT && boot[k].1 < RANGE_LIMIT
      modifies this, bitmap, pageRefs
      ensures Valid(State())
      ensures forall q :: 0 <= q < MAX_PAGES ==>
        State().used[q] == (!OfferedBy(available, q) || q < RESERVED_PAGES || ClaimedBy(boot, q))
      ensures forall q :: 0 <= q < MAX_PAGES ==> State().refs[q] == 0
    {
      hide CountFree, Claimed, OfferedBy, ClaimedBy;
      WithholdAll();
      OfferAll(available);
      ReserveRange(0, RESERVED_PAGES * PAGE_SIZE);
      ClaimedFirst(boot);
      for k := 0 to |boot|
        invariant freePages == CountFree(State().used)
        invariant forall q :: 0 <= q < MAX_PAGES ==> State().refs[q] == 0
        invariant forall q :: 0 <= q < MAX_PAGES ==>
          State().used[q] == (!OfferedBy(available, q) || q < RESERVED_PAGES || ClaimedBy(boot[..k], q))
      {
        ReserveRange(boot[k].0, boot[k].1);
        forall q | 0 <= q < MAX_PAGES
          ensures ClaimedBy(boot[..k + 1], q) == (ClaimedBy(boot[..k], q) || Claimed(boot[k], q))
        {
          ClaimedByMore(boot, k, q);
        }
      }
      assert boot[..|boot|] == boot;
    }
  }

  lemma {:induction false} NoneFree(used: seq<bool>)
    requires forall i :: 0 <= i < |used| ==> used[i]
    ensures CountFree(used) == 0
  {
    if used != [] {
      NoneFree(used[..|used| - 1]);
    }
  }

  lemma OfferedByMore(rs: seq<(nat, nat)>, k: nat, q: nat)
    requires k < |rs|
    ensures OfferedBy(rs[..k + 1], q) == (OfferedBy(rs[..k], q) || Offered(rs[k], q))
  {
    assert rs[..k + 1][k] == rs[k];
    assert forall j :: 0 <= j < k ==> rs[..k + 1][j] == rs[..k][j];
  }

  lemma ClaimedFirst(rs: seq<(nat, nat)>)
    ensures forall q: nat :: Claimed((0, RESERVED_PAGES * PAGE_SIZE), q) == (q < RESERVED_PAGES)
    ensures forall q :: !ClaimedBy(rs[..0], q)
  {}

  lemma ClaimedByMore(rs: seq<(nat, nat)>, k: nat, q: nat)
    requires k < |rs|
    ensures ClaimedBy(rs[..k + 1], q) == (ClaimedBy(rs[..k], q) || Claimed(rs[k], q))
  {
    assert rs[..k + 1][k] == rs[k];
    assert forall j :: 0 <= j < k ==> rs[..k + 1][j] == rs[..k][j];
  }

  lemma FirstRunIs(used: seq<bool>, count: nat, start: nat)
    requires |used| == MAX_PAGES && count > 0 && RESERVED_PAGES <= start && RunFree(used, start, count)
    requires forall q :: RESERVED_PAGES <= q < start ==> !RunFree(used, q, count)
    ensures FirstRun(used, count, RESERVED_PAGES) == Some(start)
  {}
}
