/** How many frames a mapping takes, and when there are enough (src/memory.c, src/paging.c). */
module Demand {
  import opened Common
  import opened Memory
  import opened Paging

  /** One frame can be allocated exactly when one is free. */
  lemma OneFree(fr: Frames)
    requires Valid(fr)
    ensures AllocRun(fr, 1).1 != 0 <==> fr.free > 0
    ensures AllocRun(fr, 1).1 != 0 ==> Valid(AllocRun(fr, 1).0) && AllocRun(fr, 1).0.free == fr.free - 1
  {
    AllocValid(fr, 1);
    if fr.free > 0 {
      var p := SomeFree(fr.used);
      assert RunFree(fr.used, p, 1);
    }
  }

  lemma {:induction false} SomeFree(used: seq<bool>) returns (p: nat)
    requires CountFree(used) > 0
    ensures p < |used| && !used[p]
  {
    var n := |used| - 1;
    if used[n] { p := SomeFree(used[..n]); } else { p := n; }
  }

  /** n single frames, one after another. */
  function TakeFrames(fr: Frames, n: nat): (r: Frames)
    requires Valid(fr)
    ensures Valid(r)
  {
    if n == 0 then fr
    else
      AllocValid(TakeFrames(fr, n - 1), 1);
      AllocRun(TakeFrames(fr, n - 1), 1).0
  }

  lemma OneMore(fr: Frames, n: nat)
    requires Valid(fr)
    ensures TakeFrames(fr, n + 1) == AllocRun(TakeFrames(fr, n), 1).0
  {
    hide Valid, AllocRun;
  }

  lemma {:induction false} TakenFree(fr: Frames, n: nat)
    requires Valid(fr) && n <= fr.free
    ensures TakeFrames(fr, n).free == fr.free - n
  {
    if n > 0 {
      TakenFree(fr, n - 1);
      OneFree(TakeFrames(fr, n - 1));
    }
  }

  lemma SetOfMore(vas: seq<nat>, va: nat)
    ensures SetOf(vas + [va]) == SetOf(vas) + {va}
  {
    assert (vas + [va])[|vas|] == va;
    forall x | x in SetOf(vas) ensures x in SetOf(vas + [va]) {
      var k :| 0 <= k < |vas| && vas[k] == x;
      assert (vas + [va])[k] == x;
    }
  }

  /** The directory entries a list of addresses goes through. */
  function DirsOf(vas: seq<nat>): (r: set<nat>)
    ensures forall k :: 0 <= k < |vas| ==> DirOf(vas[k]) in r
  {
    set k | 0 <= k < |vas| :: DirOf(vas[k])
  }

  lemma DirsMore(vas: seq<nat>, va: nat)
    ensures DirsOf(vas + [va]) == DirsOf(vas) + {DirOf(va)}
  {
    assert (vas + [va])[|vas|] == va;
    forall d | d in DirsOf(vas) ensures d in DirsOf(vas + [va]) {
      var k :| 0 <= k < |vas| && DirOf(vas[k]) == d;
      assert (vas + [va])[k] == vas[k];
    }
  }

  lemma NoDirs()
    ensures DirsOf([]) == {}
  {}

  lemma PrefixDirs(vas: seq<nat>, i: nat)
    requires i <= |vas|
    ensures DirsOf(vas[..i]) <= DirsOf(vas)
  {
    forall d | d in DirsOf(vas[..i]) ensures d in DirsOf(vas) {
      var k :| 0 <= k < i && DirOf(vas[..i][k]) == d;
      assert vas[k] == vas[..i][k];
    }
  }

  function SetOf(vas: seq<nat>): set<nat> { set k | 0 <= k < |vas| :: vas[k] }

  /** A list without repetition has as many elements as its set. */
  lemma {:induction false} DistinctSize(vas: seq<nat>)
    requires forall k, l :: 0 <= k < l < |vas| ==> vas[k] != vas[l]
    ensures |SetOf(vas)| == |vas|
  {
    if vas != [] {
      var n := |vas| - 1;
      DistinctSize(vas[..n]);
      assert SetOf(vas) == SetOf(vas[..n]) + {vas[n]};
    }
  }

  lemma {:induction false} Fewer(a: set<nat>, b: set<nat>)
    requires a <= b
    ensures |a| <= |b|
  {
    if a != {} {
      var x :| x in a;
      Fewer(a - {x}, b - {x});
    }
  }

  /** The directory entries a set of addresses goes through. */
  function DirsIn(vas: set<nat>): (r: set<nat>)
    ensures forall va :: va in vas ==> DirOf(va) in r
  {
    set va | va in vas :: DirOf(va)
  }

  lemma SameDirs(vas: seq<nat>)
    ensures DirsOf(vas) == DirsIn(SetOf(vas))
  {
    forall d | d in DirsOf(vas) ensures d in DirsIn(SetOf(vas)) {
      var k :| 0 <= k < |vas| && DirOf(vas[k]) == d;
      assert vas[k] in SetOf(vas);
    }
  }

  /** The private tables of a space are those of these directory entries. */
  ghost predicate TablesAre(s: Phys, pd: nat, dirs: set<nat>) {
    forall d: nat :: d < DIRECTORIES ==> (HasTable(s.words, pd, d) <==> d in dirs)
  }

  /** A mapping succeeds exactly when its table is there or a frame is free, and takes a frame exactly for a
      new table. */
  lemma MapTables(s: Phys, spaces: set<nat>, pd: nat, va: nat, pa: nat, flags: Flags, dirs: set<nat>)
    requires Spaces(s, spaces) && pd in spaces && TablesAre(s, pd, dirs)
    requires va < USER_LIMIT && va % PAGE_SIZE == 0 && pa % PAGE_SIZE == 0
    ensures var (s', ok) := MapUserPage(s, pd, va, pa, flags);
      && (ok <==> DirOf(va) in dirs || s.fr.free > 0)
      && (ok ==> TablesAre(s', pd, dirs + {DirOf(va)}))
      && (ok ==> s'.fr.free == s.fr.free - if DirOf(va) in dirs then 0 else 1)
      && (ok ==> Valid(s.fr) && s'.fr == if DirOf(va) in dirs then s.fr else AllocRun(s.fr, 1).0)
  {
    var (s', ok) := MapUserPage(s, pd, va, pa, flags);
    var pte, dir := UserPte(pa / PAGE_SIZE, flags), DirOf(va);
    WalkUsesPde(s.words, pd, va);
    assert PhysOk(s) && Valid(s.fr);
    hide Spaces, AllocRun, Valid;
    OneFree(s.fr);
    MapRefines(s, spaces, pd, va, pa, flags);
    if dir in dirs {
      TableWriteKeepsSpaces(s, spaces, pd, dir, TableIndex(va), pte);
    } else if ok {
      NewTableThere(s, spaces, pd, va, pte);
    }
  }

  /** The next page of a list: its table is there, or a frame is free for it, or the list needs too many. */
  lemma MapNext(s: Phys, spaces: set<nat>, pd: nat, vas: seq<nat>, i: nat, pa: nat, flags: Flags)
    requires Spaces(s, spaces) && pd in spaces && i < |vas| && TablesAre(s, pd, DirsOf(vas[..i]))
    requires vas[i] < USER_LIMIT && vas[i] % PAGE_SIZE == 0 && pa % PAGE_SIZE == 0
    ensures var (s', ok) := MapUserPage(s, pd, vas[i], pa, flags);
      && (ok ==> TablesAre(s', pd, DirsOf(vas[..i + 1])))
      && (ok ==> s'.fr.free + |DirsOf(vas[..i + 1])| == s.fr.free + |DirsOf(vas[..i])|)
      && (!ok ==> s.fr.free + |DirsOf(vas[..i])| < |DirsOf(vas[..i + 1])|)
      && |DirsOf(vas[..i + 1])| <= |DirsOf(vas)|
  {
    hide Spaces, MapUserPage, TablesAre, PhysOk, DirsOf;
    var va, before := vas[i], DirsOf(vas[..i]);
    assert vas[..i + 1] == vas[..i] + [va];
    DirsMore(vas[..i], va);
    MapTables(s, spaces, pd, va, pa, flags, before);
    PrefixDirs(vas, i + 1);
    Fewer(before + {DirOf(va)}, DirsOf(vas));
    assert DirOf(va) !in before ==> |before| < |before + {DirOf(va)}|;
  }

  /** And what the allocator then is: one frame taken for each table so far. */
  lemma MapNextTakes(s: Phys, fr: Frames, spaces: set<nat>, pd: nat, vas: seq<nat>, i: nat, pa: nat, flags: Flags)
    requires Spaces(s, spaces) && pd in spaces && i < |vas| && TablesAre(s, pd, DirsOf(vas[..i]))
    requires vas[i] < USER_LIMIT && vas[i] % PAGE_SIZE == 0 && pa % PAGE_SIZE == 0
    requires Valid(fr) && s.fr == TakeFrames(fr, |DirsOf(vas[..i])|)
    ensures var (s', ok) := MapUserPage(s, pd, vas[i], pa, flags);
      ok ==> s'.fr == TakeFrames(fr, |DirsOf(vas[..i + 1])|)
  {
    hide Spaces, MapUserPage, TablesAre, PhysOk, DirsOf, Valid, AllocRun, TakeFrames;
    var va, before := vas[i], DirsOf(vas[..i]);
    assert vas[..i + 1] == vas[..i] + [va];
    DirsMore(vas[..i], va);
    OneMore(fr, |before|);
    MapTables(s, spaces, pd, va, pa, flags, before);
    assert DirOf(va) in before ==> before + {DirOf(va)} == before;
    assert DirOf(va) !in before ==> |before + {DirOf(va)}| == |before| + 1;
  }

  /** The directory after a mapping that needed a new table. */
  lemma NewTableThere(s: Phys, spaces: set<nat>, pd: nat, va: nat, pte: Pte)
    requires Spaces(s, spaces) && pd in spaces && va < USER_LIMIT && !HasTable(s.words, pd, DirOf(va))
    requires DirOf(va) < DIRECTORIES && AllocRun(s.fr, 1).1 != 0
    ensures var (fr, a) := AllocRun(s.fr, 1);
      var words := SetEntry(WithTable(s, pd, DirOf(va), a / PAGE_SIZE, fr).words, a / PAGE_SIZE, TableIndex(va), pte);
      forall d: nat :: d < DIRECTORIES ==> (HasTable(words, pd, d) <==> HasTable(s.words, pd, d) || d == DirOf(va))
  {
    var (fr, a) := AllocRun(s.fr, 1);
    NewTableKeepsSpaces(s, spaces, pd, DirOf(va));
    TableWriteKeepsSpaces(WithTable(s, pd, DirOf(va), a / PAGE_SIZE, fr), spaces, pd, DirOf(va), TableIndex(va), pte);
    hide Spaces, AllocRun;
  }

  lemma RunTakes(fr: Frames, n: nat)
    requires Valid(fr) && AllocRun(fr, n).1 != 0
    ensures AllocRun(fr, n).0.free + n == fr.free
  {
    FreeRunFits(fr.used, FirstRun(fr.used, n, RESERVED_PAGES).value, n);
  }

  lemma SpaceIff(s: Phys, spaces: set<nat>, kernel: seq<Table>)
    requires Spaces(s, spaces) && |kernel| == 4
    ensures CreateSpace(s, kernel).1 != 0 <==> AllocRun(s.fr, PROCESS_PAGING_PAGES).1 != 0
  {}

  /** What is left after a new space has been made, if it can be. */
  lemma SpaceTakes(s: Phys, spaces: set<nat>, kernel: seq<Table>)
    requires Spaces(s, spaces) && |kernel| == 4 && CreateSpace(s, kernel).1 != 0
    ensures var (s', pd) := CreateSpace(s, kernel);
      && TablesAre(s', pd, {}) && s'.fr.free + PROCESS_PAGING_PAGES == s.fr.free
      && Valid(s.fr) && s'.fr == AllocRun(s.fr, PROCESS_PAGING_PAGES).0 && Valid(s'.fr)
  {
    CreateRefines(s, spaces, kernel);
    var p := FirstRun(s.fr.used, PROCESS_PAGING_PAGES, RESERVED_PAGES).value;
    FreeRunFits(s.fr.used, p, PROCESS_PAGING_PAGES);
  }
}
