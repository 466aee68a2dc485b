/** PAE page tables (src/paging.c): a root of four entries, four directories of 512 entries next to
    it, and private tables of 512 entries. An address space is named by the frame number of its
    root; the walk follows PAE paging (section 4.4 of the Intel SDM, volume 3A). */
module Paging {
  import opened Common
  import opened Memory

  const USER_LIMIT: nat := 0xC000_0000
  const USER_BASE: nat := 0x1000_0000
  const ENTRIES: nat := 512
  const DIRECTORIES: nat := 2048 // entries of the four directories of one space
  const PROCESS_PAGING_PAGES: nat := 5

  /** The entry bits kept by the flags mask 0x21F: 0, 1, 2, 3, 4 and the software COW bit 9. */
  datatype Flags = Flags(present: bool, writable: bool, user: bool, writeThrough: bool, cacheOff: bool, cow: bool)

  datatype Pte = Pte(frame: nat, flags: Flags)

  const NO_FLAGS := Flags(false, false, false, false, false, false)
  const ZERO_PTE := Pte(0, NO_FLAGS)
  const PRESENT := NO_FLAGS.(present := true)
  const USER_TABLE := Flags(true, true, true, false, false, false)

  type Table = t: seq<Pte> | |t| == ENTRIES witness seq(ENTRIES, _ => ZERO_PTE)
  type Page = p: seq<byte> | |p| == PAGE_SIZE witness seq(PAGE_SIZE, _ => 0)

  function ZeroTable(): Table { seq(ENTRIES, _ => ZERO_PTE) }

  function ZeroPage(): Page { seq(PAGE_SIZE, _ => 0) }

  /** Physical memory: the allocator, the frames that hold entries, the frames that hold bytes. */
  datatype Phys = Phys(fr: Frames, words: seq<Table>, bytes: seq<Page>)

  ghost predicate PhysOk(s: Phys) {
    Valid(s.fr) && |s.words| == MAX_PAGES && |s.bytes| == MAX_PAGES
  }

  predicate IsUser(e: Pte) { e.flags.present && e.flags.user }

  /** A 64-bit word of physical memory; nothing is mapped above the last frame. */
  function Entry(words: seq<Table>, f: nat, i: nat): Pte
    requires i < ENTRIES
  {
    if f < |words| then words[f][i] else ZERO_PTE
  }

  function SetEntry(words: seq<Table>, f: nat, i: nat, e: Pte): (r: seq<Table>)
    requires i < ENTRIES
    ensures |r| == |words|
  {
    if f < |words| then words[f := words[f][i := e]] else words
  }

  // ---------------------------------------------------------------- the three-level walk

  function RootIndex(va: nat): nat { va / 0x4000_0000 }
  function DirIndex(va: nat): (r: nat) ensures r < ENTRIES { va / 0x20_0000 % ENTRIES }
  function TableIndex(va: nat): (r: nat) ensures r < ENTRIES { va / PAGE_SIZE % ENTRIES }

  /** The three indices together name exactly one page: the split of an address is injective. */
  lemma SplitInjective(va: nat, vb: nat)
    ensures RootIndex(va) == RootIndex(vb) && DirIndex(va) == DirIndex(vb) && TableIndex(va) == TableIndex(vb)
       <==> va / PAGE_SIZE == vb / PAGE_SIZE
  {
    PageOfIndices(va);
    PageOfIndices(vb);
  }

  lemma PageOfIndices(va: nat)
    ensures va / PAGE_SIZE == RootIndex(va) * 0x4_0000 + DirIndex(va) * 512 + TableIndex(va)
  {
    var q := va / PAGE_SIZE;
    PageSplit(va);
    assert RootIndex(va) == DirOf(va) / ENTRIES && DirIndex(va) == DirOf(va) % ENTRIES;
  }

  function Directory(words: seq<Table>, pd: nat, va: nat): nat
    requires va < USER_LIMIT
  {
    Entry(words, pd, RootIndex(va)).frame
  }

  function PdeOf(words: seq<Table>, pd: nat, va: nat): Pte
    requires va < USER_LIMIT
  {
    Entry(words, Directory(words, pd, va), DirIndex(va))
  }

  function Lookup(words: seq<Table>, pd: nat, va: nat): Option<Pte> {
    if pd == 0 || va >= USER_LIMIT || Directory(words, pd, va) == 0 then None
    else
      var pde := PdeOf(words, pd, va);
      if !IsUser(pde) then None
      else
        var pte := Entry(words, pde.frame, TableIndex(va));
        if !IsUser(pte) then None else Some(pte)
  }

  function UserPte(frame: nat, flags: Flags): Pte {
    Pte(frame, flags.(present := true, user := true))
  }

  function MapUserPage(s: Phys, pd: nat, va: nat, pa: nat, flags: Flags): (r: (Phys, bool))
    requires PhysOk(s)
    ensures PhysOk(r.0)
  {
    AllocValid(s.fr, 1);
    if pd == 0 || va >= USER_LIMIT || va % PAGE_SIZE != 0 || pa % PAGE_SIZE != 0 then (s, false)
    else
      var dir := Directory(s.words, pd, va);
      if dir == 0 then (s, false)
      else
        var pde := PdeOf(s.words, pd, va);
        var pte := UserPte(pa / PAGE_SIZE, flags);
        if IsUser(pde) then
          (s.(words := SetEntry(s.words, pde.frame, TableIndex(va), pte)), true)
        else
          var (fr, a) := AllocRun(s.fr, 1);
          if a == 0 then (s, false)
          else
            var t := a / PAGE_SIZE;
            var words := SetEntry(s.words[t := ZeroTable()], dir, DirIndex(va), Pte(t, USER_TABLE));
            (s.(fr := fr, words := SetEntry(words, t, TableIndex(va), pte)), true)
  }

  function SetUserPageFlags(s: Phys, pd: nat, va: nat, flags: Flags): (Phys, bool) {
    if pd == 0 || va >= USER_LIMIT || va % PAGE_SIZE != 0 then (s, false)
    else if Directory(s.words, pd, va) == 0 then (s, false)
    else
      var pde := PdeOf(s.words, pd, va);
      if !IsUser(pde) then (s, false)
      else
        var pte := Entry(s.words, pde.frame, TableIndex(va));
        if !IsUser(pte) then (s, false)
        else (s.(words := SetEntry(s.words, pde.frame, TableIndex(va), UserPte(pte.frame, flags))), true)
  }

  function CowFlags(flags: Flags): Flags { flags.(writable := false, cow := true) }
  function UncowFlags(flags: Flags): Flags { flags.(writable := true, cow := false) }

  function MarkCow(s: Phys, pd: nat, va: nat): (Phys, bool) {
    match Lookup(s.words, pd, va)
    case None => (s, false)
    case Some(pte) =>
      if !pte.flags.writable then (s, false) else SetUserPageFlags(s, pd, va, CowFlags(pte.flags))
  }

  function ResolveCow(s: Phys, pd: nat, va: nat): (Phys, bool)
    requires PhysOk(s)
  {
    if pd == 0 || va >= USER_LIMIT || va % PAGE_SIZE != 0 then (s, false)
    else if Directory(s.words, pd, va) == 0 then (s, false)
    else
      var pde := PdeOf(s.words, pd, va);
      if !IsUser(pde) then (s, false)
      else
        var pte := Entry(s.words, pde.frame, TableIndex(va));
        if !IsUser(pte) || !pte.flags.cow then (s, false)
        else
          var refs := RefCount(s.fr, pte.frame * PAGE_SIZE);
          if refs == 0 then (s, false)
          else if refs == 1 then
            (s.(words := SetEntry(s.words, pde.frame, TableIndex(va), UserPte(pte.frame, UncowFlags(pte.flags)))), true)
          else
            var (fr, a) := AllocRun(s.fr, 1);
            if a == 0 then (s, false)
            else
              var copy := a / PAGE_SIZE;
              (Phys(
                 FreePage(fr, pte.frame * PAGE_SIZE),
                 SetEntry(s.words, pde.frame, TableIndex(va), UserPte(copy, UncowFlags(pte.flags))),
                 if pte.frame < MAX_PAGES then s.bytes[copy := s.bytes[pte.frame]] else s.bytes),
               true)
  }

  // ---------------------------------------------------------------- creating and destroying a space

  /** The kernel's four directories: 256 MiB of identity map below, 256 MiB of MMIO above, no user bit. */
  ghost predicate KernelTemplate(kernel: seq<Table>) {
    && |kernel| == 4
    && (forall i, j :: 0 <= i < 4 && 0 <= j < ENTRIES ==>
          kernel[i][j].flags.present == ((i == 0 && j < 128) || (i == 3 && j >= 384)))
  }

  function WithoutUser(t: Table): Table {
    seq(ENTRIES, j requires 0 <= j < ENTRIES => t[j].(flags := t[j].flags.(user := false)))
  }

  function RootTable(base: nat): Table {
    seq(ENTRIES, (i: nat) => if i < 4 then Pte(base + 1 + i, PRESENT) else ZERO_PTE)
  }

  /** Five frames from b on: the root, then the kernel's directories without user bits. */
  function BuildSpace(words: seq<Table>, kernel: seq<Table>, b: nat): (r: seq<Table>)
    requires b + 5 <= |words| && |kernel| == 4
    ensures |r| == |words|
  {
    words[b := RootTable(b)][b + 1 := WithoutUser(kernel[0])][b + 2 := WithoutUser(kernel[1])]
    [b + 3 := WithoutUser(kernel[2])][b + 4 := WithoutUser(kernel[3])]
  }

  function CreateSpace(s: Phys, kernel: seq<Table>): (Phys, nat)
    requires PhysOk(s) && |kernel| == 4
  {
    var (fr, a) := AllocRun(s.fr, PROCESS_PAGING_PAGES);
    if a == 0 then (s, 0)
    else
      var b := a / PAGE_SIZE;
      (s.(fr := fr, words := BuildSpace(s.words, kernel, b)), b)
  }

  /** Entry d of the directories that lie in the four frames after the root. */
  function Pde(words: seq<Table>, pd: nat, d: nat): Pte {
    Entry(words, pd + 1 + d / ENTRIES, d % ENTRIES)
  }

  /** Free the private tables named by the first n directory entries. */
  function FreeTables(fr: Frames, words: seq<Table>, pd: nat, n: nat): (r: Frames)
    requires Shape(fr)
    ensures Shape(r)
  {
    if n == 0 then fr
    else
      var before := FreeTables(fr, words, pd, n - 1);
      if IsUser(Pde(words, pd, n - 1)) then FreePage(before, Pde(words, pd, n - 1).frame * PAGE_SIZE) else before
  }

  function FreeBlock(fr: Frames, pd: nat, n: nat): (r: Frames)
    requires Shape(fr)
    ensures Shape(r)
  {
    if n == 0 then fr else FreePage(FreeBlock(fr, pd, n - 1), (pd + n - 1) * PAGE_SIZE)
  }

  function ClearRoot(t: Table): Table {
    t[0 := ZERO_PTE][1 := ZERO_PTE][2 := ZERO_PTE][3 := ZERO_PTE]
  }

  function DestroySpace(s: Phys, pd: nat): Phys
    requires Shape(s.fr)
  {
    if pd == 0 then s
    else
      s.(fr := FreeBlock(FreeTables(s.fr, s.words, pd, DIRECTORIES), pd, PROCESS_PAGING_PAGES),
         words := if pd < |s.words| then s.words[pd := ClearRoot(s.words[pd])] else s.words)
  }

  // ---------------------------------------------------------------- the invariant of all live spaces

  predicate Held(fr: Frames, f: nat) {
    RESERVED_PAGES <= f < MAX_PAGES && Shape(fr) && fr.used[f] && fr.refs[f] == 1
  }

  predicate InBlock(spaces: set<nat>, f: nat) {
    exists pd :: pd in spaces && pd <= f < pd + 5
  }

  predicate RootOk(words: seq<Table>, pd: nat) {
    pd < |words| && forall i :: 0 <= i < 4 ==> words[pd][i] == Pte(pd + 1 + i, PRESENT)
  }

  ghost predicate Blocks(s: Phys, spaces: set<nat>) {
    && (forall pd :: pd in spaces ==> RESERVED_PAGES <= pd && pd + 5 <= MAX_PAGES && RootOk(s.words, pd))
    && (forall pd, f :: pd in spaces && pd <= f < pd + 5 ==> Held(s.fr, f))
    && (forall p1, p2 :: p1 in spaces && p2 in spaces && p1 != p2 ==> p1 + 5 <= p2 || p2 + 5 <= p1)
  }

  /** Entry d of space pd names a private table. */
  predicate HasTable(words: seq<Table>, pd: nat, d: nat) {
    d < DIRECTORIES && IsUser(Pde(words, pd, d))
  }

  ghost predicate Tables(s: Phys, spaces: set<nat>) {
    && (forall pd, d :: pd in spaces && HasTable(s.words, pd, d) ==>
          Held(s.fr, Pde(s.words, pd, d).frame) && !InBlock(spaces, Pde(s.words, pd, d).frame))
    && (forall p1, d1, p2, d2 ::
          (p1 in spaces && p2 in spaces && HasTable(s.words, p1, d1) && HasTable(s.words, p2, d2)
           && Pde(s.words, p1, d1).frame == Pde(s.words, p2, d2).frame) ==> p1 == p2 && d1 == d2)
  }

  /** Roots, directories and private tables of all spaces are distinct frames, each held once. */
  ghost predicate Spaces(s: Phys, spaces: set<nat>) {
    PhysOk(s) && Blocks(s, spaces) && Tables(s, spaces)
  }

  /** Which directory entry an address uses. */
  function DirOf(va: nat): nat { va / 0x20_0000 }

  /** A page number is its directory entry and its table index. */
  lemma PageSplit(va: nat)
    ensures va / PAGE_SIZE == DirOf(va) * ENTRIES + TableIndex(va)
  {
    var q := va / PAGE_SIZE;
    assert DirOf(va) == q / ENTRIES;
  }

  lemma SamePage(va: nat, vb: nat)
    ensures vb / PAGE_SIZE == va / PAGE_SIZE <==> DirOf(va) == DirOf(vb) && TableIndex(va) == TableIndex(vb)
  {
    PageSplit(va);
    PageSplit(vb);
  }

  lemma WalkUsesPde(words: seq<Table>, pd: nat, va: nat)
    requires RootOk(words, pd) && va < USER_LIMIT
    ensures DirOf(va) < DIRECTORIES
    ensures Directory(words, pd, va) == pd + 1 + DirOf(va) / ENTRIES
    ensures PdeOf(words, pd, va) == Pde(words, pd, DirOf(va))
  {}

  /** The walk, seen through one entry of the directories. */
  function WalkVia(words: seq<Table>, pd: nat, va: nat): Option<Pte> {
    var pde := Pde(words, pd, DirOf(va));
    if !IsUser(pde) || !IsUser(Entry(words, pde.frame, TableIndex(va))) then None
    else Some(Entry(words, pde.frame, TableIndex(va)))
  }

  lemma LookupIsWalk(words: seq<Table>, pd: nat, va: nat)
    requires RootOk(words, pd) && pd > 0 && va < USER_LIMIT
    ensures Lookup(words, pd, va) == WalkVia(words, pd, va)
  {
    WalkUsesPde(words, pd, va);
  }

  // ---------------------------------------------------------------- the walk refines a map

  /** Writing an entry of a private table leaves roots and directories alone. */
  lemma TableWriteKeepsSpaces(s: Phys, spaces: set<nat>, pd: nat, d: nat, i: nat, e: Pte)
    requires Spaces(s, spaces) && pd in spaces && HasTable(s.words, pd, d) && i < ENTRIES
    ensures var t := Pde(s.words, pd, d).frame;
      var s' := s.(words := SetEntry(s.words, t, i, e));
      && Spaces(s', spaces)
      && (forall p, k: nat :: p in spaces && k < DIRECTORIES ==> Pde(s'.words, p, k) == Pde(s.words, p, k))
  {
    var t := Pde(s.words, pd, d).frame;
    var s' := s.(words := SetEntry(s.words, t, i, e));
    forall p | p in spaces
      ensures RootOk(s'.words, p)
      ensures forall k :: 0 <= k < DIRECTORIES ==> Pde(s'.words, p, k) == Pde(s.words, p, k)
    {
      assert RootOk(s.words, p);
      forall f | p <= f < p + 5 ensures f != t && s'.words[f] == s.words[f] {
        assert InBlock(spaces, f);
      }
    }
    assert forall p, k :: p in spaces && HasTable(s'.words, p, k) ==> HasTable(s.words, p, k);
  }

  /** ... and changes what exactly one page of one space maps to. */
  lemma TableWriteLookup(s: Phys, spaces: set<nat>, pd: nat, va: nat, e: Pte, p: nat, vb: nat)
    requires Spaces(s, spaces) && pd in spaces && p in spaces && va < USER_LIMIT && vb < USER_LIMIT
    requires HasTable(s.words, pd, DirOf(va)) && IsUser(e)
    ensures var words := SetEntry(s.words, Pde(s.words, pd, DirOf(va)).frame, TableIndex(va), e);
      Lookup(words, p, vb) == if p == pd && vb / PAGE_SIZE == va / PAGE_SIZE then Some(e) else Lookup(s.words, p, vb)
  {
    var words := SetEntry(s.words, Pde(s.words, pd, DirOf(va)).frame, TableIndex(va), e);
    TableWriteKeepsSpaces(s, spaces, pd, DirOf(va), TableIndex(va), e);
    WalkUsesPde(s.words, p, vb);
    LookupIsWalk(s.words, p, vb);
    LookupIsWalk(words, p, vb);
    SamePage(va, vb);
    if HasTable(s.words, p, DirOf(vb)) && !(p == pd && DirOf(vb) == DirOf(va)) {
      assert Pde(s.words, p, DirOf(vb)).frame != Pde(s.words, pd, DirOf(va)).frame;
    }
  }

  /** The memory after hanging a fresh, zeroed table from directory entry d of pd. */
  function WithTable(s: Phys, pd: nat, d: nat, t: nat, fr: Frames): Phys {
    Phys(fr,
         if t < |s.words|
         then SetEntry(s.words[t := ZeroTable()], pd + 1 + d / ENTRIES, d % ENTRIES, Pte(t, USER_TABLE))
         else s.words,
         s.bytes)
  }

  /** An allocation holds its frames once and leaves every held frame held. */
  lemma AllocHeld(fr: Frames, count: nat)
    requires Valid(fr) && AllocRun(fr, count).1 != 0
    ensures var (after, a) := AllocRun(fr, count); var t := a / PAGE_SIZE;
      && Valid(after) && RESERVED_PAGES <= t && t + count <= MAX_PAGES && a == t * PAGE_SIZE
      && (forall f: nat :: t <= f < t + count ==> !Held(fr, f) && Held(after, f))
      && (forall f: nat :: Held(fr, f) ==> Held(after, f))
  {
    AllocExact(fr, count);
    AllocValid(fr, count);
    var (after, a) := AllocRun(fr, count);
    var t := a / PAGE_SIZE;
    forall f: nat | t <= f < t + count ensures !Held(fr, f) && Held(after, f) {
      assert !fr.used[f];
    }
  }

  lemma NewTableWords(s: Phys, spaces: set<nat>, pd: nat, d: nat, t: nat, fr: Frames)
    requires Spaces(s, spaces) && pd in spaces && d < DIRECTORIES && t < MAX_PAGES && !Held(s.fr, t)
    ensures var s' := WithTable(s, pd, d, t, fr);
      && !InBlock(spaces, t)
      && (forall p :: p in spaces ==> RootOk(s'.words, p))
      && Pde(s'.words, pd, d) == Pte(t, USER_TABLE) && s'.words[t] == ZeroTable()
      && (forall p, k: nat :: p in spaces && k < DIRECTORIES && !(p == pd && k == d) ==>
            Pde(s'.words, p, k) == Pde(s.words, p, k))
      && (forall f :: 0 <= f < MAX_PAGES && f != t && !InBlock(spaces, f) ==> s'.words[f] == s.words[f])
  {
    var s' := WithTable(s, pd, d, t, fr);
    assert InBlock(spaces, pd + 1 + d / ENTRIES);
    forall p | p in spaces
      ensures RootOk(s'.words, p)
      ensures forall k: nat :: k < DIRECTORIES && !(p == pd && k == d) ==> Pde(s'.words, p, k) == Pde(s.words, p, k)
    {
      assert RootOk(s.words, p);
      assert p == pd || p + 5 <= pd || pd + 5 <= p;
      forall f | p <= f < p + 5 ensures f != t && InBlock(spaces, f) {
        assert Held(s.fr, f);
      }
    }
  }

  lemma NewTableKeepsSpaces(s: Phys, spaces: set<nat>, pd: nat, d: nat)
    requires Spaces(s, spaces) && pd in spaces && d < DIRECTORIES && !HasTable(s.words, pd, d)
    requires AllocRun(s.fr, 1).1 != 0
    ensures var (fr, a) := AllocRun(s.fr, 1);
      var s' := WithTable(s, pd, d, a / PAGE_SIZE, fr);
      && Spaces(s', spaces)
      && Pde(s'.words, pd, d) == Pte(a / PAGE_SIZE, USER_TABLE) && s'.words[a / PAGE_SIZE] == ZeroTable()
      && (forall p, k: nat :: p in spaces && k < DIRECTORIES && !(p == pd && k == d) ==>
            Pde(s'.words, p, k) == Pde(s.words, p, k))
      && (forall f :: 0 <= f < MAX_PAGES && f != a / PAGE_SIZE && !InBlock(spaces, f) ==> s'.words[f] == s.words[f])
  {
    hide AllocRun, Pde, RootOk, SetEntry, InBlock, Valid;
    var (fr, a) := AllocRun(s.fr, 1);
    var t := a / PAGE_SIZE;
    AllocHeld(s.fr, 1);
    NewTableWords(s, spaces, pd, d, t, fr);
    hide Held;
    var s' := WithTable(s, pd, d, t, fr);
    assert forall p, k :: p in spaces && HasTable(s'.words, p, k) ==> (p == pd && k == d) || HasTable(s.words, p, k);
    assert forall p, k :: p in spaces && HasTable(s.words, p, k) ==> Pde(s.words, p, k).frame != t;
  }

  /** A fresh table maps nothing yet. */
  lemma NewTableLookup(s: Phys, spaces: set<nat>, pd: nat, va: nat, p: nat, vb: nat)
    requires Spaces(s, spaces) && pd in spaces && p in spaces && va < USER_LIMIT && vb < USER_LIMIT
    requires !HasTable(s.words, pd, DirOf(va)) && AllocRun(s.fr, 1).1 != 0
    ensures var (fr, a) := AllocRun(s.fr, 1);
      Lookup(WithTable(s, pd, DirOf(va), a / PAGE_SIZE, fr).words, p, vb) == Lookup(s.words, p, vb)
  {
    var (fr, a) := AllocRun(s.fr, 1);
    var s' := WithTable(s, pd, DirOf(va), a / PAGE_SIZE, fr);
    WalkUsesPde(s.words, pd, va);
    WalkUsesPde(s.words, p, vb);
    NewTableKeepsSpaces(s, spaces, pd, DirOf(va));
    LookupIsWalk(s.words, p, vb);
    LookupIsWalk(s'.words, p, vb);
    if HasTable(s.words, p, DirOf(vb)) {
      var f := Pde(s.words, p, DirOf(vb)).frame;
      assert Held(s.fr, f);
      AllocExact(s.fr, 1);
      assert s'.words[f] == s.words[f];
    }
  }

  /** What lookup says once (pd, page of va) maps to e. */
  function Remapped(words: seq<Table>, pd: nat, va: nat, e: Pte, p: nat, vb: nat): Option<Pte> {
    if p == pd && vb / PAGE_SIZE == va / PAGE_SIZE then Some(e) else Lookup(words, p, vb)
  }

  /** A mapping writes one entry of a private table, after hanging a fresh one where there is none. */
  lemma MapShape(s: Phys, pd: nat, va: nat, pa: nat, flags: Flags)
    requires PhysOk(s) && RootOk(s.words, pd) && pd > 0 && va < USER_LIMIT
    requires va % PAGE_SIZE == 0 && pa % PAGE_SIZE == 0
    ensures var d, i, e := DirOf(va), TableIndex(va), UserPte(pa / PAGE_SIZE, flags);
      var (fr, a) := AllocRun(s.fr, 1); var mid := WithTable(s, pd, d, a / PAGE_SIZE, fr);
      && d < DIRECTORIES
      && MapUserPage(s, pd, va, pa, flags) ==
         if HasTable(s.words, pd, d) then (s.(words := SetEntry(s.words, Pde(s.words, pd, d).frame, i, e)), true)
         else if a == 0 then (s, false)
         else (mid.(words := SetEntry(mid.words, a / PAGE_SIZE, i, e)), true)
  {
    hide RootOk;
    WalkUsesPde(s.words, pd, va);
    if AllocRun(s.fr, 1).1 != 0 { AllocHeld(s.fr, 1); }
    hide AllocRun, Directory, PdeOf, Entry, SetEntry, Held;
  }

  lemma TableWriteMaps(s: Phys, spaces: set<nat>, pd: nat, va: nat, e: Pte)
    requires Spaces(s, spaces) && pd in spaces && va < USER_LIMIT && HasTable(s.words, pd, DirOf(va)) && IsUser(e)
    ensures var words := SetEntry(s.words, Pde(s.words, pd, DirOf(va)).frame, TableIndex(va), e);
      && Spaces(s.(words := words), spaces)
      && (forall p, vb :: p in spaces && 0 <= vb < USER_LIMIT ==>
            Lookup(words, p, vb) == Remapped(s.words, pd, va, e, p, vb))
  {
    hide Spaces, Lookup, SetEntry, Pde;
    var words := SetEntry(s.words, Pde(s.words, pd, DirOf(va)).frame, TableIndex(va), e);
    TableWriteKeepsSpaces(s, spaces, pd, DirOf(va), TableIndex(va), e);
    forall p, vb | p in spaces && 0 <= vb < USER_LIMIT
      ensures Lookup(words, p, vb) == Remapped(s.words, pd, va, e, p, vb)
    {
      TableWriteLookup(s, spaces, pd, va, e, p, vb);
    }
  }

  lemma NewTableMaps(s: Phys, spaces: set<nat>, pd: nat, va: nat, e: Pte)
    requires Spaces(s, spaces) && pd in spaces && va < USER_LIMIT && DirOf(va) < DIRECTORIES && IsUser(e)
    requires !HasTable(s.words, pd, DirOf(va)) && AllocRun(s.fr, 1).1 != 0
    ensures var (fr, a) := AllocRun(s.fr, 1);
      var mid := WithTable(s, pd, DirOf(va), a / PAGE_SIZE, fr);
      var words := SetEntry(mid.words, a / PAGE_SIZE, TableIndex(va), e);
      && Spaces(mid.(words := words), spaces)
      && (forall p, vb :: p in spaces && 0 <= vb < USER_LIMIT ==>
            Lookup(words, p, vb) == Remapped(s.words, pd, va, e, p, vb))
  {
    hide Spaces, Lookup, SetEntry, Pde, AllocRun, WithTable;
    SpaceRoot(s, spaces, pd);
    var (fr, a) := AllocRun(s.fr, 1);
    var mid := WithTable(s, pd, DirOf(va), a / PAGE_SIZE, fr);
    var words := SetEntry(mid.words, a / PAGE_SIZE, TableIndex(va), e);
    NewTableKeepsSpaces(s, spaces, pd, DirOf(va));
    TableWriteMaps(mid, spaces, pd, va, e);
    forall p, vb | p in spaces && 0 <= vb < USER_LIMIT
      ensures Lookup(words, p, vb) == Remapped(s.words, pd, va, e, p, vb)
    {
      NewTableLookup(s, spaces, pd, va, p, vb);
    }
  }

  lemma SpaceRoot(s: Phys, spaces: set<nat>, pd: nat)
    requires Spaces(s, spaces) && pd in spaces
    ensures PhysOk(s) && Shape(s.fr) && RootOk(s.words, pd) && RESERVED_PAGES <= pd && pd + 5 <= MAX_PAGES
  {}

  lemma WithTableParts(s: Phys, pd: nat, d: nat)
    ensures forall t, fr :: WithTable(s, pd, d, t, fr).fr == fr && WithTable(s, pd, d, t, fr).bytes == s.bytes
  {}

  /** Mapping one page-aligned address makes lookup return it, in that space, for that page only;
      it keeps the frames of all spaces apart, and touches no other allocator or byte frame. */
  lemma MapRefines(s: Phys, spaces: set<nat>, pd: nat, va: nat, pa: nat, flags: Flags)
    requires Spaces(s, spaces) && pd in spaces
    requires va < USER_LIMIT && va % PAGE_SIZE == 0 && pa % PAGE_SIZE == 0
    ensures var (s', ok) := MapUserPage(s, pd, va, pa, flags);
      && Spaces(s', spaces) && s'.bytes == s.bytes
      && (ok <==> HasTable(s.words, pd, DirOf(va)) || AllocRun(s.fr, 1).1 != 0)
      && (!ok ==> s' == s)
      && s'.fr == (if HasTable(s.words, pd, DirOf(va)) then s.fr else AllocRun(s.fr, 1).0)
      && (ok ==> forall p, vb :: p in spaces && 0 <= vb < USER_LIMIT ==>
            Lookup(s'.words, p, vb) == Remapped(s.words, pd, va, UserPte(pa / PAGE_SIZE, flags), p, vb))
  {
    hide Spaces, Lookup, MapUserPage, AllocRun, RootOk, Valid, Remapped, WithTable, Pde, SetEntry;
    SpaceRoot(s, spaces, pd);
    MapShape(s, pd, va, pa, flags);
    AllocNothing(s.fr, 1);
    var pte := UserPte(pa / PAGE_SIZE, flags);
    if HasTable(s.words, pd, DirOf(va)) {
      TableWriteMaps(s, spaces, pd, va, pte);
    } else if AllocRun(s.fr, 1).1 != 0 {
      NewTableMaps(s, spaces, pd, va, pte);
      WithTableParts(s, pd, DirOf(va));
    }
  }

  /** Re-flagging one mapped page changes that page's flags and nothing else. */
  lemma SetFlagsRefines(s: Phys, spaces: set<nat>, pd: nat, va: nat, flags: Flags)
    requires Spaces(s, spaces) && pd in spaces && va < USER_LIMIT && va % PAGE_SIZE == 0
    ensures var (s', ok) := SetUserPageFlags(s, pd, va, flags);
      && Spaces(s', spaces) && s'.fr == s.fr && s'.bytes == s.bytes
      && (ok <==> Lookup(s.words, pd, va).Some?) && (!ok ==> s' == s)
      && (ok ==> forall p, vb :: p in spaces && 0 <= vb < USER_LIMIT ==>
            Lookup(s'.words, p, vb) ==
              Remapped(s.words, pd, va, UserPte(Lookup(s.words, pd, va).value.frame, flags), p, vb))
  {
    var (s', ok) := SetUserPageFlags(s, pd, va, flags);
    WalkUsesPde(s.words, pd, va);
    LookupIsWalk(s.words, pd, va);
    if ok {
      var pte := UserPte(Lookup(s.words, pd, va).value.frame, flags);
      TableWriteKeepsSpaces(s, spaces, pd, DirOf(va), TableIndex(va), pte);
      forall p, vb | p in spaces && 0 <= vb < USER_LIMIT
        ensures Lookup(s'.words, p, vb) == if p == pd && vb / PAGE_SIZE == va / PAGE_SIZE then Some(pte)
                                           else Lookup(s.words, p, vb)
      {
        TableWriteLookup(s, spaces, pd, va, pte, p, vb);
      }
    }
  }

  /** A directory entry without a private table survives a mapping unless the mapping needs that very
      entry. */
  lemma MapKeepsSupervisor(s: Phys, spaces: set<nat>, pd: nat, va: nat, pa: nat, flags: Flags, d: nat)
    requires Spaces(s, spaces) && pd in spaces && d < DIRECTORIES && !HasTable(s.words, pd, d)
    requires va < USER_LIMIT && va % PAGE_SIZE == 0 && pa % PAGE_SIZE == 0
    requires MapUserPage(s, pd, va, pa, flags).1
    ensures Pde(MapUserPage(s, pd, va, pa, flags).0.words, pd, d) == Pde(s.words, pd, d) <==> DirOf(va) != d
  {
    hide Spaces, MapUserPage, AllocRun, RootOk, Valid, WithTable, Pde, SetEntry;
    SpaceRoot(s, spaces, pd);
    MapShape(s, pd, va, pa, flags);
    var pte := UserPte(pa / PAGE_SIZE, flags);
    if HasTable(s.words, pd, DirOf(va)) {
      TableWriteKeepsSpaces(s, spaces, pd, DirOf(va), TableIndex(va), pte);
    } else {
      var (fr, a) := AllocRun(s.fr, 1);
      NewTableKeepsSpaces(s, spaces, pd, DirOf(va));
      var mid := WithTable(s, pd, DirOf(va), a / PAGE_SIZE, fr);
      TableWriteKeepsSpaces(mid, spaces, pd, DirOf(va), TableIndex(va), pte);
    }
  }

  // ---------------------------------------------------------------- resolving a copy-on-write fault

  /** A resolved fault writes one entry of a private table, and copies a page that has other owners. */
  lemma ResolveShape(s: Phys, pd: nat, va: nat)
    requires PhysOk(s) && RootOk(s.words, pd) && pd > 0 && va < USER_LIMIT && va % PAGE_SIZE == 0
    requires Lookup(s.words, pd, va).Some? && Lookup(s.words, pd, va).value.flags.cow
    requires var f := Lookup(s.words, pd, va).value.frame;
      RESERVED_PAGES <= f < MAX_PAGES && s.fr.used[f] && s.fr.refs[f] > 0
    ensures DirOf(va) < DIRECTORIES && HasTable(s.words, pd, DirOf(va))
    ensures var was := Lookup(s.words, pd, va).value;
      var copies := s.fr.refs[was.frame] > 1;
      var (fr, a) := AllocRun(s.fr, 1);
      var e := UserPte(if copies then a / PAGE_SIZE else was.frame, UncowFlags(was.flags));
      var words := SetEntry(s.words, Pde(s.words, pd, DirOf(va)).frame, TableIndex(va), e);
      ResolveCow(s, pd, va) ==
      if copies && a == 0 then (s, false)
      else if copies then
        (Phys(FreePage(fr, was.frame * PAGE_SIZE), words, s.bytes[a / PAGE_SIZE := s.bytes[was.frame]]), true)
      else (s.(words := words), true)
  {
    hide RootOk, Valid, AllocRun, Entry, SetEntry, FreePage;
    WalkUsesPde(s.words, pd, va);
    var was := Lookup(s.words, pd, va).value;
    assert was.frame * PAGE_SIZE / PAGE_SIZE == was.frame;
  }

  lemma FreeKeepsHeld(fr: Frames, f: nat, g: nat)
    requires Held(fr, g) && g != f
    ensures Held(FreePage(fr, f * PAGE_SIZE), g)
  {
    assert f * PAGE_SIZE / PAGE_SIZE == f;
  }

  lemma HeldOnce(fr: Frames, f: nat)
    requires Held(fr, f)
    ensures fr.refs[f] == 1
  {}

  lemma SpacesPhys(s: Phys, spaces: set<nat>)
    requires Spaces(s, spaces)
    ensures PhysOk(s) && Shape(s.fr)
  {}

  /** Taking a frame and giving up one count of a shared one leaves the spaces in order. */
  lemma CopyKeepsSpaces(s: Phys, spaces: set<nat>, f: nat, bytes: seq<Page>)
    requires Spaces(s, spaces) && |bytes| == MAX_PAGES && f < MAX_PAGES && s.fr.refs[f] > 1
    requires AllocRun(s.fr, 1).1 != 0
    ensures Spaces(Phys(FreePage(AllocRun(s.fr, 1).0, f * PAGE_SIZE), s.words, bytes), spaces)
  {
    hide Spaces, AllocRun, FreePage, Valid, SpaceFrames, Held;
    SpacesPhys(s, spaces);
    AllocHeld(s.fr, 1);
    var fr := AllocRun(s.fr, 1).0;
    var s' := Phys(FreePage(fr, f * PAGE_SIZE), s.words, bytes);
    FreeValid(fr, f * PAGE_SIZE);
    forall p, g | p in spaces && g in SpaceFrames(s.words, p) ensures Held(s'.fr, g) {
      SpaceFramesHeld(s, spaces, p, g);
      HeldOnce(s.fr, g);
      FreeKeepsHeld(fr, f, g);
    }
    HeldStays(s, s', spaces);
  }

  /** Resolving a copy-on-write page makes it writable. With one owner the frame stays; otherwise the
      page moves to a fresh frame holding the same bytes and the old frame loses one count. */
  lemma ResolveRefines(s: Phys, spaces: set<nat>, pd: nat, va: nat)
    requires Spaces(s, spaces) && pd in spaces && va < USER_LIMIT && va % PAGE_SIZE == 0
    requires Lookup(s.words, pd, va).Some? && Lookup(s.words, pd, va).value.flags.cow
    requires var f := Lookup(s.words, pd, va).value.frame;
      RESERVED_PAGES <= f < MAX_PAGES && s.fr.used[f] && s.fr.refs[f] > 0
    ensures var (s', ok) := ResolveCow(s, pd, va);
      var was := Lookup(s.words, pd, va).value;
      var copies := s.fr.refs[was.frame] > 1;
      var (fr, a) := AllocRun(s.fr, 1);
      && Spaces(s', spaces)
      && (ok <==> !copies || a != 0) && (!ok ==> s' == s)
      && (ok && !copies ==> s'.fr == s.fr && s'.bytes == s.bytes)
      && (ok && copies ==> s'.fr == FreePage(fr, was.frame * PAGE_SIZE)
                           && s'.bytes == s.bytes[a / PAGE_SIZE := s.bytes[was.frame]])
      && (ok ==> forall p, vb :: p in spaces && 0 <= vb < USER_LIMIT ==>
            Lookup(s'.words, p, vb) ==
            Remapped(s.words, pd, va, UserPte(if copies then a / PAGE_SIZE else was.frame, UncowFlags(was.flags)), p,
              vb))
  {
    hide Spaces, Lookup, ResolveCow, AllocRun, RootOk, Valid, Remapped, Pde, SetEntry, FreePage;
    SpaceRoot(s, spaces, pd);
    ResolveShape(s, pd, va);
    var was := Lookup(s.words, pd, va).value;
    var copies := s.fr.refs[was.frame] > 1;
    var (fr, a) := AllocRun(s.fr, 1);
    var pte := UserPte(if copies then a / PAGE_SIZE else was.frame, UncowFlags(was.flags));
    TableWriteMaps(s, spaces, pd, va, pte);
    if copies && a != 0 {
      AllocHeld(s.fr, 1);
      var words := SetEntry(s.words, Pde(s.words, pd, DirOf(va)).frame, TableIndex(va), pte);
      CopyKeepsSpaces(s.(words := words), spaces, was.frame, s.bytes[a / PAGE_SIZE := s.bytes[was.frame]]);
    }
  }

  /** Spaces depend on the allocator only through the frames they hold. */
  lemma HeldStays(s: Phys, s': Phys, spaces: set<nat>)
    requires Spaces(s, spaces) && PhysOk(s') && s'.words == s.words
    requires forall pd, f :: pd in spaces && f in SpaceFrames(s.words, pd) ==> Held(s'.fr, f)
    ensures Spaces(s', spaces)
  {
    forall pd, d | pd in spaces && HasTable(s.words, pd, d)
      ensures Held(s'.fr, Pde(s.words, pd, d).frame)
    {
      assert Pde(s.words, pd, d).frame in SpaceFrames(s.words, pd);
    }
    forall pd, f | pd in spaces && pd <= f < pd + 5 ensures Held(s'.fr, f) {
      assert f in SpaceFrames(s.words, pd);
    }
  }

  lemma SpaceFramesHeld(s: Phys, spaces: set<nat>, pd: nat, f: nat)
    requires Spaces(s, spaces) && pd in spaces && f in SpaceFrames(s.words, pd)
    ensures Held(s.fr, f)
  {
    if f in TablesOf(s.words, pd, DIRECTORIES) {
      var d: nat :| d < DIRECTORIES && IsUser(Pde(s.words, pd, d)) && Pde(s.words, pd, d).frame == f;
      assert HasTable(s.words, pd, d);
    }
  }

  // ---------------------------------------------------------------- creating and destroying

  lemma CreateKeepsSpaces(s: Phys, spaces: set<nat>, kernel: seq<Table>)
    requires Spaces(s, spaces) && |kernel| == 4 && CreateSpace(s, kernel).1 != 0
    ensures var (s', pd) := CreateSpace(s, kernel);
      && pd !in spaces && RESERVED_PAGES <= pd && pd + 5 <= MAX_PAGES && RootOk(s'.words, pd) && PhysOk(s')
      && (forall f :: pd <= f < pd + 5 ==> !Held(s.fr, f) && Held(s'.fr, f))
      && (forall f: nat :: Held(s.fr, f) ==> Held(s'.fr, f) && s'.words[f] == s.words[f])
      && (forall d: nat :: d < DIRECTORIES ==> !HasTable(s'.words, pd, d))
      && (forall p :: p in spaces ==> RootOk(s'.words, p) && (p + 5 <= pd || pd + 5 <= p))
      && (forall p, k: nat :: p in spaces && k < DIRECTORIES ==> Pde(s'.words, p, k) == Pde(s.words, p, k))
  {
    var (s', pd) := CreateSpace(s, kernel);
    AllocHeld(s.fr, PROCESS_PAGING_PAGES);
    CreateWords(s, spaces, kernel, pd, s'.fr);
  }

  lemma CreateWords(s: Phys, spaces: set<nat>, kernel: seq<Table>, pd: nat, fr: Frames)
    requires Spaces(s, spaces) && |kernel| == 4 && RESERVED_PAGES <= pd && pd + 5 <= MAX_PAGES
    requires forall f: nat :: pd <= f < pd + 5 ==> !Held(s.fr, f)
    ensures var words := BuildSpace(s.words, kernel, pd);
      && pd !in spaces && RootOk(words, pd)
      && (forall f: nat :: Held(s.fr, f) ==> words[f] == s.words[f])
      && (forall d: nat :: d < DIRECTORIES ==> !HasTable(words, pd, d))
      && (forall p :: p in spaces ==> RootOk(words, p) && (p + 5 <= pd || pd + 5 <= p))
      && (forall p, k: nat :: p in spaces && k < DIRECTORIES ==> Pde(words, p, k) == Pde(s.words, p, k))
  {
    var words := BuildSpace(s.words, kernel, pd);
    forall d: nat | d < DIRECTORIES ensures !HasTable(words, pd, d) {
      assert !Pde(words, pd, d).flags.user;
    }
    forall p | p in spaces
      ensures p != pd && RootOk(words, p) && (p + 5 <= pd || pd + 5 <= p)
      ensures forall k: nat :: k < DIRECTORIES ==> Pde(words, p, k) == Pde(s.words, p, k)
    {
      assert RootOk(s.words, p);
      assert forall f :: p <= f < p + 5 ==> Held(s.fr, f);
      assert Held(s.fr, p) && Held(s.fr, p + 4);
    }
  }

  /** A new space shares no frame with any other and maps no user page. */
  lemma CreateRefines(s: Phys, spaces: set<nat>, kernel: seq<Table>)
    requires Spaces(s, spaces) && |kernel| == 4
    ensures var (s', pd) := CreateSpace(s, kernel);
      && (pd == 0 ==> s' == s)
      && (pd != 0 ==>
            && pd !in spaces && Spaces(s', spaces + {pd}) && s'.bytes == s.bytes
            && AllocRun(s.fr, PROCESS_PAGING_PAGES) == (s'.fr, pd * PAGE_SIZE)
            && (forall d: nat :: d < DIRECTORIES ==> !HasTable(s'.words, pd, d))
            && (forall vb :: 0 <= vb < USER_LIMIT ==> Lookup(s'.words, pd, vb) == None)
            && (forall p, vb :: p in spaces && 0 <= vb < USER_LIMIT ==>
                  Lookup(s'.words, p, vb) == Lookup(s.words, p, vb)))
  {
    var (s', pd) := CreateSpace(s, kernel);
    AllocNothing(s.fr, PROCESS_PAGING_PAGES);
    if pd != 0 {
      CreateKeepsSpaces(s, spaces, kernel);
      CreateBlocks(s, s', spaces, pd);
      forall vb | 0 <= vb < USER_LIMIT ensures Lookup(s'.words, pd, vb) == None {
        LookupIsWalk(s'.words, pd, vb);
        WalkUsesPde(s'.words, pd, vb);
        assert !HasTable(s'.words, pd, DirOf(vb));
      }
      forall p, vb | p in spaces && 0 <= vb < USER_LIMIT
        ensures Lookup(s'.words, p, vb) == Lookup(s.words, p, vb)
      {
        LookupIsWalk(s'.words, p, vb);
        LookupIsWalk(s.words, p, vb);
        WalkUsesPde(s.words, p, vb);
        if HasTable(s.words, p, DirOf(vb)) {
          assert Held(s.fr, Pde(s.words, p, DirOf(vb)).frame);
        }
      }
    }
  }

  lemma CreateBlocks(s: Phys, s': Phys, spaces: set<nat>, pd: nat)
    requires Spaces(s, spaces) && PhysOk(s') && pd !in spaces
    requires RESERVED_PAGES <= pd && pd + 5 <= MAX_PAGES && RootOk(s'.words, pd)
    requires forall f :: pd <= f < pd + 5 ==> !Held(s.fr, f) && Held(s'.fr, f)
    requires forall f: nat :: Held(s.fr, f) ==> Held(s'.fr, f)
    requires forall d: nat :: d < DIRECTORIES ==> !HasTable(s'.words, pd, d)
    requires forall p :: p in spaces ==> RootOk(s'.words, p) && (p + 5 <= pd || pd + 5 <= p)
    requires forall p, k: nat :: p in spaces && k < DIRECTORIES ==> Pde(s'.words, p, k) == Pde(s.words, p, k)
    ensures Spaces(s', spaces + {pd})
  {
    forall p, k | p in spaces + {pd} && HasTable(s'.words, p, k)
      ensures p in spaces && HasTable(s.words, p, k)
      ensures Held(s'.fr, Pde(s'.words, p, k).frame) && !InBlock(spaces + {pd}, Pde(s'.words, p, k).frame)
    {
      assert p != pd && HasTable(s.words, p, k);
      assert Held(s.fr, Pde(s.words, p, k).frame) && !InBlock(spaces, Pde(s.words, p, k).frame);
    }
  }

  /** The frames of the private tables among the first n directory entries. */
  function TablesOf(words: seq<Table>, pd: nat, n: nat): (r: set<nat>)
    ensures forall d: nat :: d < n && IsUser(Pde(words, pd, d)) ==> Pde(words, pd, d).frame in r
    ensures forall f :: f in r ==> exists d: nat :: d < n && IsUser(Pde(words, pd, d)) && Pde(words, pd, d).frame == f
  {
    if n == 0 then {}
    else TablesOf(words, pd, n - 1) + (if IsUser(Pde(words, pd, n - 1)) then {Pde(words, pd, n - 1).frame} else {})
  }

  /** The first n tables lie outside every block, and the next one is none of them. */
  lemma TablesApart(s: Phys, spaces: set<nat>, pd: nat, n: nat)
    requires Spaces(s, spaces) && pd in spaces && n <= DIRECTORIES
    ensures forall f :: f in TablesOf(s.words, pd, n) ==> !InBlock(spaces, f)
    ensures n < DIRECTORIES && IsUser(Pde(s.words, pd, n)) ==> Pde(s.words, pd, n).frame !in TablesOf(s.words, pd, n)
  {
    forall f | f in TablesOf(s.words, pd, n)
      ensures !InBlock(spaces, f)
      ensures n < DIRECTORIES && IsUser(Pde(s.words, pd, n)) ==> Pde(s.words, pd, n).frame != f
    {
      var d: nat :| d < n && IsUser(Pde(s.words, pd, d)) && Pde(s.words, pd, d).frame == f;
      assert HasTable(s.words, pd, d);
      assert n < DIRECTORIES && IsUser(Pde(s.words, pd, n)) ==> HasTable(s.words, pd, n);
    }
  }

  /** Freeing the tables of a space gives back exactly those frames, ... */
  lemma {:induction false} FreeTablesReturns(fr0: Frames, fr: Frames, words: seq<Table>, pd: nat, n: nat,
                                             taken: set<nat>, shared: multiset<nat>)
    requires forall d: nat :: d < n && IsUser(Pde(words, pd, d)) ==> Pde(words, pd, d).frame !in TablesOf(words, pd, d)
    requires Valid(fr0) && Valid(fr) && Lent(fr0, fr, taken, shared) && TablesOf(words, pd, n) <= taken
    ensures Lent(fr0, FreeTables(fr, words, pd, n), taken - TablesOf(words, pd, n), shared)
    ensures Valid(FreeTables(fr, words, pd, n))
  {
    hide Lent, Pde, FreePage;
    if n == 0 {
      assert taken - TablesOf(words, pd, 0) == taken;
    } else {
      FreeTablesReturns(fr0, fr, words, pd, n - 1, taken, shared);
      var before, rest := FreeTables(fr, words, pd, n - 1), taken - TablesOf(words, pd, n - 1);
      var e := Pde(words, pd, n - 1);
      if IsUser(e) {
        GiveBack(fr0, before, rest, taken - TablesOf(words, pd, n), shared, e.frame);
      } else {
        assert rest == taken - TablesOf(words, pd, n);
      }
    }
  }

  lemma {:induction false} FreeBlockReturns(fr0: Frames, fr: Frames, pd: nat, n: nat, taken: set<nat>,
                                            shared: multiset<nat>)
    requires Valid(fr0) && Valid(fr) && Lent(fr0, fr, taken, shared) && RunSet(pd, n) <= taken
    ensures Lent(fr0, FreeBlock(fr, pd, n), taken - RunSet(pd, n), shared) && Valid(FreeBlock(fr, pd, n))
  {
    if n > 0 {
      FreeBlockReturns(fr0, fr, pd, n - 1, taken, shared);
      GiveBack(fr0, FreeBlock(fr, pd, n - 1), taken - RunSet(pd, n - 1), taken - RunSet(pd, n), shared, pd + n - 1);
    }
  }

  function SpaceFrames(words: seq<Table>, pd: nat): set<nat> {
    RunSet(pd, PROCESS_PAGING_PAGES) + TablesOf(words, pd, DIRECTORIES)
  }

  lemma BlockApart(s: Phys, spaces: set<nat>, pd: nat)
    requires Spaces(s, spaces) && pd in spaces
    ensures RunSet(pd, PROCESS_PAGING_PAGES) !! TablesOf(s.words, pd, DIRECTORIES)
  {
    hide Spaces, TablesOf;
    TablesApart(s, spaces, pd, DIRECTORIES);
    assert forall f :: f in RunSet(pd, PROCESS_PAGING_PAGES) ==> InBlock(spaces, f);
  }

  /** Destroying a space gives back exactly its root, directories and private tables, ... */
  lemma DestroyReturns(fr0: Frames, s: Phys, spaces: set<nat>, pd: nat, taken: set<nat>, shared: multiset<nat>)
    requires Spaces(s, spaces) && pd in spaces
    requires Valid(fr0) && Lent(fr0, s.fr, taken, shared) && SpaceFrames(s.words, pd) <= taken
    ensures Lent(fr0, DestroySpace(s, pd).fr, taken - SpaceFrames(s.words, pd), shared)
    ensures PhysOk(DestroySpace(s, pd))
  {
    hide Lent, Valid, Held, Pde, TablesOf, FreeTables, FreeBlock, RunSet;
    SpaceRoot(s, spaces, pd);
    var tables, block := TablesOf(s.words, pd, DIRECTORIES), RunSet(pd, PROCESS_PAGING_PAGES);
    forall d: nat | d < DIRECTORIES && IsUser(Pde(s.words, pd, d))
      ensures Pde(s.words, pd, d).frame !in TablesOf(s.words, pd, d)
    {
      TablesApart(s, spaces, pd, d);
    }
    FreeTablesReturns(fr0, s.fr, s.words, pd, DIRECTORIES, taken, shared);
    BlockApart(s, spaces, pd);
    FreeBlockReturns(fr0, FreeTables(s.fr, s.words, pd, DIRECTORIES), pd, PROCESS_PAGING_PAGES, taken - tables, shared);
    assert taken - tables - block == taken - SpaceFrames(s.words, pd);
  }

  /** Freeing pages one after another changes no other frame. */
  lemma {:induction false} FreeTablesOnly(fr: Frames, words: seq<Table>, pd: nat, n: nat, f: nat)
    requires Shape(fr) && f < MAX_PAGES && f !in TablesOf(words, pd, n)
    ensures var r := FreeTables(fr, words, pd, n); r.used[f] == fr.used[f] && r.refs[f] == fr.refs[f]
  {
    if n > 0 {
      FreeTablesOnly(fr, words, pd, n - 1, f);
      assert Pde(words, pd, n - 1).frame * PAGE_SIZE / PAGE_SIZE == Pde(words, pd, n - 1).frame;
    }
  }

  lemma {:induction false} FreeBlockOnly(fr: Frames, pd: nat, n: nat, f: nat)
    requires Shape(fr) && f < MAX_PAGES && !(pd <= f < pd + n)
    ensures var r := FreeBlock(fr, pd, n); r.used[f] == fr.used[f] && r.refs[f] == fr.refs[f]
  {
    if n > 0 {
      FreeBlockOnly(fr, pd, n - 1, f);
      assert (pd + n - 1) * PAGE_SIZE / PAGE_SIZE == pd + n - 1;
    }
  }

  lemma TablesNotShared(s: Phys, spaces: set<nat>, pd: nat, p: nat, k: nat)
    requires Spaces(s, spaces) && pd in spaces && p in spaces && p != pd && HasTable(s.words, p, k)
    ensures Pde(s.words, p, k).frame !in TablesOf(s.words, pd, DIRECTORIES)
  {
    forall f | f in TablesOf(s.words, pd, DIRECTORIES)
      ensures f != Pde(s.words, p, k).frame
    {
      var d: nat :| d < DIRECTORIES && IsUser(Pde(s.words, pd, d)) && Pde(s.words, pd, d).frame == f;
      assert HasTable(s.words, pd, d);
    }
  }

  lemma {:induction false} FreeTablesValid(fr: Frames, words: seq<Table>, pd: nat, n: nat)
    requires Valid(fr)
    ensures Valid(FreeTables(fr, words, pd, n))
  {
    if n > 0 {
      FreeTablesValid(fr, words, pd, n - 1);
      FreeValid(FreeTables(fr, words, pd, n - 1), Pde(words, pd, n - 1).frame * PAGE_SIZE);
    }
  }

  lemma {:induction false} FreeBlockValid(fr: Frames, pd: nat, n: nat)
    requires Valid(fr)
    ensures Valid(FreeBlock(fr, pd, n))
  {
    if n > 0 {
      FreeBlockValid(fr, pd, n - 1);
      FreeValid(FreeBlock(fr, pd, n - 1), (pd + n - 1) * PAGE_SIZE);
    }
  }

  /** Destroying a space frees no frame but its own, and clears one table: its root. */
  lemma DestroyFrees(s: Phys, pd: nat, f: nat)
    requires Shape(s.fr) && f < MAX_PAGES && f !in SpaceFrames(s.words, pd)
    ensures var fr := DestroySpace(s, pd).fr; Shape(fr) && fr.used[f] == s.fr.used[f] && fr.refs[f] == s.fr.refs[f]
  {
    hide FreeTables, FreeBlock, TablesOf, FreePage;
    FreeTablesOnly(s.fr, s.words, pd, DIRECTORIES, f);
    FreeBlockOnly(FreeTables(s.fr, s.words, pd, DIRECTORIES), pd, PROCESS_PAGING_PAGES, f);
  }

  lemma DestroyWords(s: Phys, pd: nat)
    requires Shape(s.fr)
    ensures var s' := DestroySpace(s, pd);
      && |s'.words| == |s.words| && s'.bytes == s.bytes
      && (forall f :: 0 <= f < |s.words| && f != pd ==> s'.words[f] == s.words[f])
  {}

  lemma DestroyKeepsBlock(s: Phys, spaces: set<nat>, pd: nat, p: nat, f: nat)
    requires Spaces(s, spaces) && pd in spaces && p in spaces && p != pd && p <= f < p + 5
    ensures Held(DestroySpace(s, pd).fr, f)
  {
    hide DestroySpace, Tables, Valid, RootOk, TablesOf;
    SpaceRoot(s, spaces, pd);
    assert Held(s.fr, f) && (p + 5 <= pd || pd + 5 <= p);
    assert InBlock(spaces, f);
    TablesApart(s, spaces, pd, DIRECTORIES);
    DestroyFrees(s, pd, f);
  }

  lemma DestroyKeepsPdes(s: Phys, spaces: set<nat>, pd: nat, p: nat)
    requires Spaces(s, spaces) && pd in spaces && p in spaces && p != pd
    ensures RootOk(DestroySpace(s, pd).words, p)
    ensures forall k: nat :: k < DIRECTORIES ==> Pde(DestroySpace(s, pd).words, p, k) == Pde(s.words, p, k)
  {
    hide DestroySpace, Tables, Valid, Held;
    SpaceRoot(s, spaces, pd);
    DestroyWords(s, pd);
    assert p + 5 <= pd || pd + 5 <= p;
    assert RootOk(s.words, p);
  }

  lemma DestroyKeepsTable(s: Phys, spaces: set<nat>, pd: nat, p: nat, k: nat)
    requires Spaces(s, spaces) && pd in spaces && p in spaces && p != pd && HasTable(s.words, p, k)
    ensures Held(DestroySpace(s, pd).fr, Pde(s.words, p, k).frame)
  {
    hide DestroySpace, Valid, RootOk, TablesOf, Pde;
    SpaceRoot(s, spaces, pd);
    var f := Pde(s.words, p, k).frame;
    assert Held(s.fr, f) && !InBlock(spaces, f);
    assert pd in spaces;
    TablesNotShared(s, spaces, pd, p, k);
    DestroyFrees(s, pd, f);
  }

  lemma DestroyKeepsLookup(s: Phys, spaces: set<nat>, pd: nat, p: nat, vb: nat)
    requires Spaces(s, spaces) && pd in spaces && p in spaces && p != pd && vb < USER_LIMIT
    ensures Lookup(DestroySpace(s, pd).words, p, vb) == Lookup(s.words, p, vb)
  {
    hide DestroySpace, Lookup, Valid, RootOk, Pde;
    SpaceRoot(s, spaces, pd);
    var s' := DestroySpace(s, pd);
    DestroyKeepsPdes(s, spaces, pd, p);
    DestroyWords(s, pd);
    LookupIsWalk(s'.words, p, vb);
    LookupIsWalk(s.words, p, vb);
    WalkUsesPde(s.words, p, vb);
    if HasTable(s.words, p, DirOf(vb)) {
      assert pd in spaces && !InBlock(spaces, Pde(s.words, p, DirOf(vb)).frame);
    }
  }

  /** ... and leaves every other space as it was. */
  lemma DestroyKeepsOthers(s: Phys, spaces: set<nat>, pd: nat)
    requires Spaces(s, spaces) && pd in spaces && PhysOk(DestroySpace(s, pd))
    ensures var s' := DestroySpace(s, pd);
      && Spaces(s', spaces - {pd}) && s'.bytes == s.bytes
      && (forall p, vb :: p in spaces - {pd} && 0 <= vb < USER_LIMIT ==>
            Lookup(s'.words, p, vb) == Lookup(s.words, p, vb))
      && (forall f :: 0 <= f < MAX_PAGES && f !in SpaceFrames(s.words, pd) ==>
            s'.fr.used[f] == s.fr.used[f] && s'.fr.refs[f] == s.fr.refs[f])
  {
    hide DestroySpace, Held, SpaceFrames, Valid, Pde, RootOk, Lookup;
    SpaceRoot(s, spaces, pd);
    var s' := DestroySpace(s, pd);
    forall f | 0 <= f < MAX_PAGES && f !in SpaceFrames(s.words, pd)
      ensures Shape(s'.fr) && s'.fr.used[f] == s.fr.used[f] && s'.fr.refs[f] == s.fr.refs[f]
    {
      DestroyFrees(s, pd, f);
    }
    forall p, f | p in spaces - {pd} && p <= f < p + 5 ensures Held(s'.fr, f) {
      DestroyKeepsBlock(s, spaces, pd, p, f);
    }
    forall p | p in spaces - {pd}
      ensures RootOk(s'.words, p)
      ensures forall k: nat :: k < DIRECTORIES ==> Pde(s'.words, p, k) == Pde(s.words, p, k)
    {
      DestroyKeepsPdes(s, spaces, pd, p);
    }
    forall p, k | p in spaces - {pd} && HasTable(s'.words, p, k)
      ensures HasTable(s.words, p, k) && Pde(s'.words, p, k) == Pde(s.words, p, k)
      ensures Held(s'.fr, Pde(s'.words, p, k).frame) && !InBlock(spaces - {pd}, Pde(s'.words, p, k).frame)
    {
      assert HasTable(s.words, p, k) && !InBlock(spaces, Pde(s.words, p, k).frame);
      DestroyKeepsTable(s, spaces, pd, p, k);
    }
    forall p, vb | p in spaces - {pd} && 0 <= vb < USER_LIMIT
      ensures Lookup(s'.words, p, vb) == Lookup(s.words, p, vb)
    {
      DestroyKeepsLookup(s, spaces, pd, p, vb);
    }
    DestroyWords(s, pd);
  }

  // ---------------------------------------------------------------- page conservation

  /** Two memories with the same directory entries, except a table t added at d. */
  lemma {:induction false} TablesOfUpdate(w0: seq<Table>, w1: seq<Table>, pd: nat, d: nat, n: nat)
    requires forall k: nat :: k < n && k != d ==> Pde(w1, pd, k) == Pde(w0, pd, k)
    requires d < n ==> !IsUser(Pde(w0, pd, d)) && IsUser(Pde(w1, pd, d))
    ensures TablesOf(w1, pd, n) == TablesOf(w0, pd, n) + (if d < n then {Pde(w1, pd, d).frame} else {})
  {
    if n > 0 {
      TablesOfUpdate(w0, w1, pd, d, n - 1);
    }
  }

  /** A space whose directory entries stay keeps its frames. */
  lemma SameTables(w0: seq<Table>, w1: seq<Table>, q: nat)
    requires forall k: nat :: k < DIRECTORIES ==> Pde(w1, q, k) == Pde(w0, q, k)
    ensures SpaceFrames(w1, q) == SpaceFrames(w0, q)
  {
    TablesOfUpdate(w0, w1, q, DIRECTORIES, DIRECTORIES);
  }

  lemma OldTableTakes(s: Phys, spaces: set<nat>, pd: nat, d: nat, i: nat, e: Pte)
    requires Spaces(s, spaces) && pd in spaces && HasTable(s.words, pd, d) && i < ENTRIES
    ensures SpaceFrames(SetEntry(s.words, Pde(s.words, pd, d).frame, i, e), pd) == SpaceFrames(s.words, pd)
  {
    TableWriteKeepsSpaces(s, spaces, pd, d, i, e);
    TablesOfUpdate(s.words, SetEntry(s.words, Pde(s.words, pd, d).frame, i, e), pd, DIRECTORIES, DIRECTORIES);
  }

  lemma NewTableTakes(s: Phys, spaces: set<nat>, pd: nat, d: nat, i: nat, e: Pte)
    requires Spaces(s, spaces) && pd in spaces && d < DIRECTORIES && !HasTable(s.words, pd, d)
    requires AllocRun(s.fr, 1).1 != 0 && i < ENTRIES
    ensures var (fr, a) := AllocRun(s.fr, 1);
      var mid := WithTable(s, pd, d, a / PAGE_SIZE, fr);
      SpaceFrames(SetEntry(mid.words, a / PAGE_SIZE, i, e), pd) == SpaceFrames(s.words, pd) + {a / PAGE_SIZE}
  {
    var (fr, a) := AllocRun(s.fr, 1);
    NewTableKeepsSpaces(s, spaces, pd, d);
    var mid := WithTable(s, pd, d, a / PAGE_SIZE, fr);
    OldTableTakes(mid, spaces, pd, d, i, e);
    TablesOfUpdate(s.words, mid.words, pd, d, DIRECTORIES);
  }

  /** The frames a mapping adds to its space: none, or the one it allocates. */
  lemma MapFootprint(s: Phys, spaces: set<nat>, pd: nat, va: nat, pa: nat, flags: Flags)
    requires Spaces(s, spaces) && pd in spaces && va < USER_LIMIT && va % PAGE_SIZE == 0 && pa % PAGE_SIZE == 0
    ensures var s' := MapUserPage(s, pd, va, pa, flags).0; var (fr, a) := AllocRun(s.fr, 1);
      || (s'.fr == s.fr && SpaceFrames(s'.words, pd) == SpaceFrames(s.words, pd))
      || (a != 0 && s'.fr == fr && SpaceFrames(s'.words, pd) == SpaceFrames(s.words, pd) + {a / PAGE_SIZE})
  {
    hide Spaces, MapUserPage, AllocRun, RootOk, Valid, WithTable, Pde, SetEntry, SpaceFrames;
    SpaceRoot(s, spaces, pd);
    MapShape(s, pd, va, pa, flags);
    AllocNothing(s.fr, 1);
    var d, pte := DirOf(va), UserPte(pa / PAGE_SIZE, flags);
    if HasTable(s.words, pd, d) {
      OldTableTakes(s, spaces, pd, d, TableIndex(va), pte);
    } else if AllocRun(s.fr, 1).1 != 0 {
      NewTableTakes(s, spaces, pd, d, TableIndex(va), pte);
      WithTableParts(s, pd, d);
    }
  }

  /** A mapping adds to the frames of its space exactly what it takes from the allocator. */
  lemma MapTakes(fr0: Frames, s: Phys, spaces: set<nat>, pd: nat, va: nat, pa: nat, flags: Flags, shared: multiset<nat>)
    requires Spaces(s, spaces) && pd in spaces && va < USER_LIMIT && va % PAGE_SIZE == 0 && pa % PAGE_SIZE == 0
    requires Lent(fr0, s.fr, SpaceFrames(s.words, pd), shared)
    ensures var s' := MapUserPage(s, pd, va, pa, flags).0;
      Lent(fr0, s'.fr, SpaceFrames(s'.words, pd), shared)
  {
    MapFootprint(s, spaces, pd, va, pa, flags);
    if AllocRun(s.fr, 1).1 != 0 {
      AllocOneLends(fr0, s.fr, SpaceFrames(s.words, pd), shared);
    }
  }

  /** Neither mapping nor re-flagging changes which frames another space owns. */
  lemma MapKeepsOtherFrames(s: Phys, spaces: set<nat>, pd: nat, va: nat, pa: nat, flags: Flags, q: nat)
    requires Spaces(s, spaces) && pd in spaces && q in spaces && q != pd
    requires va < USER_LIMIT && va % PAGE_SIZE == 0 && pa % PAGE_SIZE == 0
    ensures SpaceFrames(MapUserPage(s, pd, va, pa, flags).0.words, q) == SpaceFrames(s.words, q)
  {
    hide Spaces, MapUserPage, AllocRun, RootOk, Valid, WithTable, Pde, SetEntry, SpaceFrames;
    SpaceRoot(s, spaces, pd);
    MapShape(s, pd, va, pa, flags);
    var d, pte := DirOf(va), UserPte(pa / PAGE_SIZE, flags);
    if HasTable(s.words, pd, d) {
      TableWriteKeepsSpaces(s, spaces, pd, d, TableIndex(va), pte);
    } else if AllocRun(s.fr, 1).1 != 0 {
      var (fr, a) := AllocRun(s.fr, 1);
      NewTableKeepsSpaces(s, spaces, pd, d);
      TableWriteKeepsSpaces(WithTable(s, pd, d, a / PAGE_SIZE, fr), spaces, pd, d, TableIndex(va), pte);
    }
    SameTables(s.words, MapUserPage(s, pd, va, pa, flags).0.words, q);
  }

  lemma FlagsKeepFrames(s: Phys, spaces: set<nat>, pd: nat, va: nat, flags: Flags, q: nat)
    requires Spaces(s, spaces) && pd in spaces && q in spaces && va < USER_LIMIT
    ensures SpaceFrames(SetUserPageFlags(s, pd, va, flags).0.words, q) == SpaceFrames(s.words, q)
  {
    WalkUsesPde(s.words, pd, va);
    var (s', ok) := SetUserPageFlags(s, pd, va, flags);
    if ok {
      var e := UserPte(Entry(s.words, PdeOf(s.words, pd, va).frame, TableIndex(va)).frame, flags);
      TableWriteKeepsSpaces(s, spaces, pd, DirOf(va), TableIndex(va), e);
      TablesOfUpdate(s.words, s'.words, q, DIRECTORIES, DIRECTORIES);
    }
  }

  lemma ResolveKeepsFrames(s: Phys, spaces: set<nat>, pd: nat, va: nat, q: nat)
    requires Spaces(s, spaces) && pd in spaces && q in spaces && va < USER_LIMIT
    ensures SpaceFrames(ResolveCow(s, pd, va).0.words, q) == SpaceFrames(s.words, q)
  {
    WalkUsesPde(s.words, pd, va);
    var words := ResolveCow(s, pd, va).0.words;
    if words != s.words {
      var e := Entry(words, PdeOf(s.words, pd, va).frame, TableIndex(va));
      TableWriteKeepsSpaces(s, spaces, pd, DirOf(va), TableIndex(va), e);
      TablesOfUpdate(s.words, words, q, DIRECTORIES, DIRECTORIES);
    }
  }

  lemma CreateKeepsFrames(s: Phys, spaces: set<nat>, kernel: seq<Table>, q: nat)
    requires Spaces(s, spaces) && |kernel| == 4 && q in spaces && CreateSpace(s, kernel).1 != 0
    ensures SpaceFrames(CreateSpace(s, kernel).0.words, q) == SpaceFrames(s.words, q)
  {
    CreateKeepsSpaces(s, spaces, kernel);
    TablesOfUpdate(s.words, CreateSpace(s, kernel).0.words, q, DIRECTORIES, DIRECTORIES);
  }

  lemma DestroyKeepsFrames(s: Phys, spaces: set<nat>, pd: nat, q: nat)
    requires Spaces(s, spaces) && pd in spaces && q in spaces && q != pd
    ensures SpaceFrames(DestroySpace(s, pd).words, q) == SpaceFrames(s.words, q)
  {
    assert q + 5 <= pd || pd + 5 <= q;
    TablesOfUpdate(s.words, DestroySpace(s, pd).words, q, DIRECTORIES, DIRECTORIES);
  }

  datatype Request = Request(va: nat, pa: nat, flags: Flags)

  function MapOne(s: Phys, pd: nat, q: Request): (r: Phys)
    requires PhysOk(s)
    ensures PhysOk(r)
  {
    MapUserPage(s, pd, q.va, q.pa, q.flags).0
  }

  function MapAll(s: Phys, pd: nat, requests: seq<Request>): (r: Phys)
    requires PhysOk(s)
    ensures PhysOk(r)
    decreases |requests|
  {
    if requests == [] then s else MapAll(MapOne(s, pd, requests[0]), pd, requests[1..])
  }

  predicate GoodRequest(q: Request) {
    q.va < USER_LIMIT && q.va % PAGE_SIZE == 0 && q.pa % PAGE_SIZE == 0
  }

  lemma MapAddsUp(fr0: Frames, s: Phys, spaces: set<nat>, pd: nat, q: Request)
    requires Spaces(s, spaces) && pd in spaces && GoodRequest(q)
    requires Lent(fr0, s.fr, SpaceFrames(s.words, pd), multiset{})
    ensures var s' := MapOne(s, pd, q);
      Spaces(s', spaces) && Lent(fr0, s'.fr, SpaceFrames(s'.words, pd), multiset{})
  {
    MapRefines(s, spaces, pd, q.va, q.pa, q.flags);
    MapTakes(fr0, s, spaces, pd, q.va, q.pa, q.flags, multiset{});
  }

  lemma {:induction false} MapAllTakes(fr0: Frames, s: Phys, spaces: set<nat>, pd: nat, requests: seq<Request>)
    requires Spaces(s, spaces) && pd in spaces
    requires forall i :: 0 <= i < |requests| ==> GoodRequest(requests[i])
    requires Lent(fr0, s.fr, SpaceFrames(s.words, pd), multiset{})
    ensures Spaces(MapAll(s, pd, requests), spaces)
    ensures Lent(fr0, MapAll(s, pd, requests).fr, SpaceFrames(MapAll(s, pd, requests).words, pd), multiset{})
    decreases |requests|
  {
    if requests != [] {
      assert GoodRequest(requests[0]);
      MapAddsUp(fr0, s, spaces, pd, requests[0]);
      MapAllTakes(fr0, MapOne(s, pd, requests[0]), spaces, pd, requests[1..]);
    }
  }

  /** Creating a space, mapping any pages (successfully or not) and destroying it restores every
      allocator field. */
  lemma CreateMapDestroy(s: Phys, spaces: set<nat>, kernel: seq<Table>, requests: seq<Request>, c: Phys, pd: nat)
    requires Spaces(s, spaces) && |kernel| == 4 && (c, pd) == CreateSpace(s, kernel) && pd != 0
    requires forall i :: 0 <= i < |requests| ==> GoodRequest(requests[i])
    ensures PhysOk(c) && DestroySpace(MapAll(c, pd, requests), pd).fr == s.fr
  {
    CreateRefines(s, spaces, kernel);
    FreshSpaceLent(s, spaces, kernel, c, pd);
    MapAllTakes(s.fr, c, spaces + {pd}, pd, requests);
    DestroyRestores(s.fr, MapAll(c, pd, requests), spaces + {pd}, pd);
  }

  lemma DestroyRestores(fr0: Frames, m: Phys, spaces: set<nat>, pd: nat)
    requires Valid(fr0) && Spaces(m, spaces) && pd in spaces
    requires Lent(fr0, m.fr, SpaceFrames(m.words, pd), multiset{})
    ensures DestroySpace(m, pd).fr == fr0
  {
    var taken := SpaceFrames(m.words, pd);
    DestroyReturns(fr0, m, spaces, pd, taken, multiset{});
    assert taken - taken == {};
    AllReturned(fr0, DestroySpace(m, pd).fr);
  }

  lemma FreshSpaceLent(s: Phys, spaces: set<nat>, kernel: seq<Table>, c: Phys, pd: nat)
    requires Spaces(s, spaces) && |kernel| == 4 && (c, pd) == CreateSpace(s, kernel) && pd != 0
    ensures SpaceFrames(c.words, pd) == RunSet(pd, PROCESS_PAGING_PAGES)
    ensures Lent(s.fr, c.fr, SpaceFrames(c.words, pd), multiset{})
  {
    CreateRefines(s, spaces, kernel);
    NoTables(c.words, pd, DIRECTORIES);
    NothingLent(s.fr);
    AllocLends(s.fr, s.fr, {}, multiset{}, PROCESS_PAGING_PAGES);
    assert {} + RunSet(pd, PROCESS_PAGING_PAGES) == SpaceFrames(c.words, pd);
  }

  lemma {:induction false} NoTables(words: seq<Table>, pd: nat, n: nat)
    requires n <= DIRECTORIES && forall d: nat :: d < n ==> !HasTable(words, pd, d)
    ensures TablesOf(words, pd, n) == {}
  {
    if n > 0 {
      NoTables(words, pd, n - 1);
      assert !HasTable(words, pd, n - 1);
    }
  }
}
