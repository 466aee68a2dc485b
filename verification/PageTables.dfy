/** src/paging.c in place: physical memory as arrays of frames, walked and written step by step.
    Every method is proved equal to the function of the same name in Paging. */
module PageTables {
  import opened Common
  import opened Memory
  import P = Paging

  type Table = P.Table
  type Page = P.Page

  /** The frames a walk of va in pd reads all exist. */
  predicate Walkable(words: seq<Table>, pd: nat, va: nat) {
    && |words| == MAX_PAGES && pd < MAX_PAGES
    && (va < P.USER_LIMIT ==>
          && P.Directory(words, pd, va) < MAX_PAGES
          && (P.IsUser(P.PdeOf(words, pd, va)) ==> P.PdeOf(words, pd, va).frame < MAX_PAGES))
  }

  lemma LiveSpaceWalkable(s: P.Phys, spaces: set<nat>, pd: nat, va: nat)
    requires P.Spaces(s, spaces) && pd in spaces
    ensures Walkable(s.words, pd, va)
  {
    if va < P.USER_LIMIT {
      P.WalkUsesPde(s.words, pd, va);
      assert P.HasTable(s.words, pd, P.DirOf(va)) ==> P.Held(s.fr, P.Pde(s.words, pd, P.DirOf(va)).frame);
    }
  }

  class Mmu {
    const frames: FrameAllocator
    const words: array<Table>
    const bytes: array<Page>
    const kernelPd: array<Table>

    ghost predicate Wired()
      reads this, frames
    {
      && frames.Wired()
      && words.Length == MAX_PAGES && bytes.Length == MAX_PAGES && kernelPd.Length == 4
      && words != kernelPd
      && words as object != bytes as object && kernelPd as object != bytes as object
      && words as object != frames.bitmap as object && words as object != frames.pageRefs as object
      && bytes as object != frames.bitmap as object && bytes as object != frames.pageRefs as object
      && kernelPd as object != frames.bitmap as object && kernelPd as object != frames.pageRefs as object
    }

    constructor (frames: FrameAllocator)
      requires frames.Wired()
      ensures Wired() && this.frames == frames && fresh(words) && fresh(bytes) && fresh(kernelPd)
    {
      this.frames := frames;
      words := new Table[MAX_PAGES](_ => P.ZeroTable());
      bytes := new Page[MAX_PAGES](_ => P.ZeroPage());
      kernelPd := new Table[4](_ => P.ZeroTable());
    }

    function State(): P.Phys
      requires Wired()
      reads this, frames, frames.bitmap, frames.pageRefs, words, bytes
    {
      P.Phys(frames.State(), words[..], bytes[..])
    }

    /** The identity tables, in which an address below 256 MiB names its own frame, empty MMIO tables, and the
        directories copied into every new space: the 128 identity tables, the 128 MMIO tables from 0xF0000000,
        all supervisor entries, and nothing else. The arguments are the tables and where they lie. */
    method PagingInit(identity: array<Table>, mmio: array<Table>, identityAt: nat, mmioAt: nat)
      requires Wired() && identity.Length == 128 && mmio.Length == 128
      requires identity != mmio && identity != kernelPd && mmio != kernelPd
      modifies kernelPd, identity, mmio
      ensures P.KernelTemplate(kernelPd[..])
      ensures forall i, j :: 0 <= i < 4 && 0 <= j < P.ENTRIES ==>
        kernelPd[i][j] ==
          if i == 0 && j < 128 then Kernel(identityAt + j)
          else if i == 3 && j >= 384 then Kernel(mmioAt + (j - 384))
          else P.ZERO_PTE
      ensures forall va: nat :: va < 0x1000_0000 ==>
        P.DirOf(va) < 128 && identity[P.DirOf(va)][P.TableIndex(va)] == Kernel(va / PAGE_SIZE)
      ensures forall t :: 0 <= t < 128 ==> mmio[t] == P.ZeroTable()
    {
      ZeroTables(kernelPd);
      ZeroTables(identity);
      ZeroTables(mmio);
      for table := 0 to 128
        invariant forall k :: 1 <= k < 4 ==> kernelPd[k] == P.ZeroTable()
        invariant forall j :: 0 <= j < P.ENTRIES ==>
          kernelPd[0][j] == if j < table then Kernel(identityAt + j) else P.ZERO_PTE
        invariant forall t, k :: 0 <= t < table && 0 <= k < P.ENTRIES ==> identity[t][k] == Kernel(t * P.ENTRIES + k)
        invariant forall t :: 0 <= t < 128 ==> mmio[t] == P.ZeroTable()
      {
        FillIdentity(identity, table);
        kernelPd[0] := kernelPd[0][table := Kernel(identityAt + table)];
      }
      FillMmio(mmioAt);
      forall va: nat | va < 0x1000_0000
        ensures P.DirOf(va) < 128 && identity[P.DirOf(va)][P.TableIndex(va)] == Kernel(va / PAGE_SIZE)
      {
        P.PageSplit(va);
      }
    }

    /** A supervisor entry of the kernel. */
    static function Kernel(frame: nat): P.Pte { P.Pte(frame, P.PRESENT.(writable := true)) }

    static method ZeroTables(tables: array<Table>)
      modifies tables
      ensures forall t :: 0 <= t < tables.Length ==> tables[t] == P.ZeroTable()
    {
      for t := 0 to tables.Length
        invariant forall k :: 0 <= k < t ==> tables[k] == P.ZeroTable()
      {
        tables[t] := P.ZeroTable();
      }
    }

    /** One identity table: entry k names frame 512 t + k. */
    static method FillIdentity(identity: array<Table>, table: nat)
      requires table < identity.Length
      modifies identity
      ensures forall k :: 0 <= k < P.ENTRIES ==> identity[table][k] == Kernel(table * P.ENTRIES + k)
      ensures forall t :: 0 <= t < identity.Length && t != table ==> identity[t] == old(identity[t])
    {
      for page := 0 to P.ENTRIES
        invariant forall k :: 0 <= k < page ==> identity[table][k] == Kernel(table * P.ENTRIES + k)
        invariant forall t :: 0 <= t < identity.Length && t != table ==> identity[t] == old(identity[t])
      {
        identity[table] := identity[table][page := Kernel(table * P.ENTRIES + page)];
      }
    }

    method FillMmio(mmioAt: nat)
      requires Wired() && kernelPd[3] == P.ZeroTable()
      modifies kernelPd
      ensures forall i :: 0 <= i < 3 ==> kernelPd[i] == old(kernelPd[i])
      ensures forall j :: 0 <= j < P.ENTRIES ==>
        kernelPd[3][j] == if j >= 384 then Kernel(mmioAt + (j - 384)) else P.ZERO_PTE
    {
      for table := 0 to 128
        invariant forall i :: 0 <= i < 3 ==> kernelPd[i] == old(kernelPd[i])
        invariant forall j :: 0 <= j < P.ENTRIES ==>
          kernelPd[3][j] == if 384 <= j < 384 + table then Kernel(mmioAt + (j - 384)) else P.ZERO_PTE
      {
        kernelPd[3] := kernelPd[3][384 + table := Kernel(mmioAt + table)];
      }
    }

    method WriteEntry(f: nat, i: nat, e: P.Pte)
      requires Wired() && f < MAX_PAGES && i < P.ENTRIES
      modifies words
      ensures words[..] == P.SetEntry(old(words[..]), f, i, e)
    {
      words[f] := words[f][i := e];
    }

    /** Zero the 512 words of one frame. */
    method ZeroWords(f: nat)
      requires Wired() && f < MAX_PAGES
      modifies words
      ensures words[..] == old(words[..])[f := P.ZeroTable()]
    {
      for i := 0 to P.ENTRIES
        invariant forall j :: 0 <= j < i ==> words[f][j] == P.ZERO_PTE
        invariant forall g :: 0 <= g < MAX_PAGES && g != f ==> words[g] == old(words[g])
      {
        words[f] := words[f][i := P.ZERO_PTE];
      }
      assert words[f] == P.ZeroTable();
    }

    /** Copy one frame byte by byte. */
    method CopyBytes(dst: nat, src: nat)
      requires Wired() && dst < MAX_PAGES && src < MAX_PAGES
      modifies bytes
      ensures bytes[..] == old(bytes[..])[dst := old(bytes[src])]
    {
      for i := 0 to PAGE_SIZE
        invariant forall j :: 0 <= j < i ==> bytes[dst][j] == old(bytes[src])[j]
        invariant dst != src ==> bytes[src] == old(bytes[src])
        invariant dst == src ==> bytes[dst] == old(bytes[src])
        invariant forall g :: 0 <= g < MAX_PAGES && g != dst ==> bytes[g] == old(bytes[g])
      {
        bytes[dst] := bytes[dst][i := bytes[src][i]];
      }
      assert bytes[dst] == old(bytes[src]);
    }

    /** The physical frame and the flags of a present user page, if there is one. */
    method GetUserPage(pd: nat, va: nat) returns (found: Option<P.Pte>)
      requires Wired() && Walkable(words[..], pd, va)
      ensures found == P.Lookup(words[..], pd, va)
    {
      if pd == 0 || va >= P.USER_LIMIT { return None; }
      var directory := words[pd][P.RootIndex(va)].frame;
      if directory == 0 { return None; }
      var pde := words[directory][P.DirIndex(va)];
      if !P.IsUser(pde) { return None; }
      var pte := words[pde.frame][P.TableIndex(va)];
      if !P.IsUser(pte) { return None; }
      found := Some(pte);
    }

    method MapUserPageIn(pd: nat, va: nat, pa: nat, flags: P.Flags) returns (ok: bool)
      requires Wired() && P.PhysOk(State()) && Walkable(words[..], pd, va)
      modifies frames, frames.bitmap, frames.pageRefs, words
      ensures (State(), ok) == P.MapUserPage(old(State()), pd, va, pa, flags)
    {
      if pd == 0 || va >= P.USER_LIMIT || va % PAGE_SIZE != 0 || pa % PAGE_SIZE != 0 { return false; }
      var directory := words[pd][P.RootIndex(va)].frame;
      if directory == 0 { return false; }
      var pde := words[directory][P.DirIndex(va)];
      var table;
      if P.IsUser(pde) {
        table := pde.frame;
      } else {
        var a := frames.PageAllocContiguous(1);
        AllocNothing(old(State()).fr, 1);
        if a == 0 { return false; }
        table := a / PAGE_SIZE;
        ZeroWords(table);
        WriteEntry(directory, P.DirIndex(va), P.Pte(table, P.USER_TABLE));
      }
      WriteEntry(table, P.TableIndex(va), P.UserPte(pa / PAGE_SIZE, flags));
      ok := true;
    }

    method SetUserPageFlags(pd: nat, va: nat, flags: P.Flags) returns (ok: bool)
      requires Wired() && Walkable(words[..], pd, va)
      modifies words
      ensures (State(), ok) == P.SetUserPageFlags(old(State()), pd, va, flags)
    {
      if pd == 0 || va >= P.USER_LIMIT || va % PAGE_SIZE != 0 { return false; }
      var directory := words[pd][P.RootIndex(va)].frame;
      if directory == 0 { return false; }
      var pde := words[directory][P.DirIndex(va)];
      if !P.IsUser(pde) { return false; }
      var pte := words[pde.frame][P.TableIndex(va)];
      if !P.IsUser(pte) { return false; }
      WriteEntry(pde.frame, P.TableIndex(va), P.UserPte(pte.frame, flags));
      ok := true;
    }

    method MarkCow(pd: nat, va: nat) returns (ok: bool)
      requires Wired() && Walkable(words[..], pd, va)
      modifies words
      ensures (State(), ok) == P.MarkCow(old(State()), pd, va)
    {
      var page := GetUserPage(pd, va);
      if page.None? || !page.value.flags.writable { return false; }
      ok := SetUserPageFlags(pd, va, P.CowFlags(page.value.flags));
    }

    method ResolveCow(pd: nat, va: nat) returns (ok: bool)
      requires Wired() && P.PhysOk(State()) && Walkable(words[..], pd, va)
      modifies frames, frames.bitmap, frames.pageRefs, words, bytes
      ensures (State(), ok) == P.ResolveCow(old(State()), pd, va)
    {
      hide FreePage, P.SetEntry, AllocRun;
      if pd == 0 || va >= P.USER_LIMIT || va % PAGE_SIZE != 0 { return false; }
      var directory := words[pd][P.RootIndex(va)].frame;
      if directory == 0 { return false; }
      var pde := words[directory][P.DirIndex(va)];
      if !P.IsUser(pde) { return false; }
      var pte := words[pde.frame][P.TableIndex(va)];
      if !P.IsUser(pte) || !pte.flags.cow { return false; }
      var refs := frames.PageRefcount(pte.frame * PAGE_SIZE);
      if refs == 0 { return false; }
      assert pte.frame * PAGE_SIZE / PAGE_SIZE == pte.frame;
      if refs == 1 {
        WriteEntry(pde.frame, P.TableIndex(va), P.UserPte(pte.frame, P.UncowFlags(pte.flags)));
      } else {
        ok := CopyPage(pde.frame, P.TableIndex(va), pte);
        return;
      }
      ok := true;
    }

    /** Entry i of a table gets a frame of its own with the same bytes. */
    method CopyPage(table: nat, i: nat, pte: P.Pte) returns (ok: bool)
      requires Wired() && P.PhysOk(State()) && table < MAX_PAGES && i < P.ENTRIES && pte.frame < MAX_PAGES
      modifies frames, frames.bitmap, frames.pageRefs, words, bytes
      ensures var s := old(State()); var (fr, a) := AllocRun(s.fr, 1);
        && ok == (a != 0)
        && State() ==
           if a == 0 then s
           else P.Phys(FreePage(fr, pte.frame * PAGE_SIZE),
                       P.SetEntry(s.words, table, i, P.UserPte(a / PAGE_SIZE, P.UncowFlags(pte.flags))),
                       s.bytes[a / PAGE_SIZE := s.bytes[pte.frame]])
    {
      hide FreePage, P.SetEntry;
      AllocNothing(State().fr, 1);
      var a := frames.PageAllocContiguous(1);
      if a == 0 { return false; }
      var copy := a / PAGE_SIZE;
      CopyBytes(copy, pte.frame);
      WriteEntry(table, i, P.UserPte(copy, P.UncowFlags(pte.flags)));
      frames.PageFree(pte.frame * PAGE_SIZE);
      ok := true;
    }

    method BuildSpace(pd: nat)
      requires Wired() && pd + 5 <= MAX_PAGES
      modifies words
      ensures words[..] == P.BuildSpace(old(words[..]), kernelPd[..], pd)
    {
      ghost var built := P.BuildSpace(words[..], kernelPd[..], pd);
      ZeroBlock(pd);
      FillBlock(pd);
      forall g | 0 <= g < MAX_PAGES
        ensures words[g] == built[g]
      {}
    }

    method CreateAddressSpace() returns (pd: nat)
      requires Wired() && P.PhysOk(State())
      modifies frames, frames.bitmap, frames.pageRefs, words
      ensures (State(), pd) == P.CreateSpace(old(State()), kernelPd[..])
    {
      var a := frames.PageAllocContiguous(P.PROCESS_PAGING_PAGES);
      AllocNothing(old(State()).fr, P.PROCESS_PAGING_PAGES);
      if a == 0 { return 0; }
      pd := a / PAGE_SIZE;
      BuildSpace(pd);
    }

    method ZeroBlock(pd: nat)
      requires Wired() && pd + 5 <= MAX_PAGES
      modifies words
      ensures words[pd] == P.ZeroTable()
      ensures forall g :: 0 <= g < MAX_PAGES && !(pd <= g < pd + 5) ==> words[g] == old(words[g])
    {
      for k := 0 to P.PROCESS_PAGING_PAGES
        invariant k > 0 ==> words[pd] == P.ZeroTable()
        invariant forall g :: 0 <= g < MAX_PAGES && !(pd <= g < pd + k) ==> words[g] == old(words[g])
      {
        ZeroWords(pd + k);
      }
    }

    /** Fill the four directories of a zeroed block and point the root at them. */
    method FillBlock(pd: nat)
      requires Wired() && pd + 5 <= MAX_PAGES
      requires words[pd] == P.ZeroTable()
      modifies words
      ensures words[pd] == P.RootTable(pd)
      ensures words[pd + 1] == P.WithoutUser(kernelPd[0]) && words[pd + 2] == P.WithoutUser(kernelPd[1])
      ensures words[pd + 3] == P.WithoutUser(kernelPd[2]) && words[pd + 4] == P.WithoutUser(kernelPd[3])
      ensures forall g :: 0 <= g < MAX_PAGES && !(pd <= g < pd + 5) ==> words[g] == old(words[g])
    {
      for i := 0 to 4
        invariant i > 0 ==> words[pd + 1] == P.WithoutUser(kernelPd[0])
        invariant i > 1 ==> words[pd + 2] == P.WithoutUser(kernelPd[1])
        invariant i > 2 ==> words[pd + 3] == P.WithoutUser(kernelPd[2])
        invariant i > 3 ==> words[pd + 4] == P.WithoutUser(kernelPd[3])
        invariant forall k :: 0 <= k < P.ENTRIES ==>
          words[pd][k] == if k < i then P.Pte(pd + 1 + k, P.PRESENT) else P.ZERO_PTE
        invariant forall g :: 0 <= g < MAX_PAGES && !(pd <= g < pd + 5) ==> words[g] == old(words[g])
      {
        CopyKernelDirectory(pd + 1 + i, i);
        WriteEntry(pd, i, P.Pte(pd + 1 + i, P.PRESENT));
      }
      assert words[pd] == P.RootTable(pd);
    }

    /** Copy one kernel directory, clearing the user bit of every entry. */
    method CopyKernelDirectory(f: nat, i: nat)
      requires Wired() && f < MAX_PAGES && i < 4
      modifies words
      ensures words[..] == old(words[..])[f := P.WithoutUser(kernelPd[i])]
    {
      for j := 0 to P.ENTRIES
        invariant forall k :: 0 <= k < j ==> words[f][k] == P.WithoutUser(kernelPd[i])[k]
        invariant forall g :: 0 <= g < MAX_PAGES && g != f ==> words[g] == old(words[g])
      {
        var e := kernelPd[i][j];
        words[f] := words[f][j := e.(flags := e.flags.(user := false))];
      }
      assert words[f] == P.WithoutUser(kernelPd[i]);
    }

    method DestroyAddressSpace(pd: nat)
      requires Wired() && pd + 5 <= MAX_PAGES
      modifies frames, frames.bitmap, frames.pageRefs, words
      ensures State() == P.DestroySpace(old(State()), pd)
    {
      hide P.FreeTables, P.FreeBlock;
      if pd == 0 { return; }
      ghost var before := State();
      FreeTablesStart(before.fr, before.words, pd);
      var i := 0;
      while i < 4
        invariant 0 <= i <= 4
        invariant frames.State() == P.FreeTables(before.fr, before.words, pd, i * 512)
        invariant forall g :: 0 <= g < MAX_PAGES && g != pd ==> words[g] == before.words[g]
        invariant forall k :: 0 <= k < P.ENTRIES ==>
          words[pd][k] == if k < i then P.ZERO_PTE else before.words[pd][k]
        invariant bytes[..] == before.bytes
      {
        FreeDirectoryTables(pd, i, before);
        WriteEntry(pd, i, P.ZERO_PTE);
        i := i + 1;
      }
      assert i * 512 == P.DIRECTORIES;
      assert words[pd] == P.ClearRoot(before.words[pd]);
      assert words[..] == before.words[pd := P.ClearRoot(before.words[pd])];
      FreeBlock(pd);
    }

    method FreeBlock(pd: nat)
      requires Wired()
      modifies frames, frames.bitmap, frames.pageRefs
      ensures frames.State() == P.FreeBlock(old(frames.State()), pd, P.PROCESS_PAGING_PAGES)
    {
      for k := 0 to P.PROCESS_PAGING_PAGES
        invariant frames.State() == P.FreeBlock(old(frames.State()), pd, k)
      {
        frames.PageFree((pd + k) * PAGE_SIZE);
      }
    }

    /** Free the private tables of directory i. */
    method FreeDirectoryTables(pd: nat, i: nat, ghost before: P.Phys)
      requires Wired() && pd + 5 <= MAX_PAGES && i < 4 && Shape(before.fr) && |before.words| == MAX_PAGES
      requires frames.State() == P.FreeTables(before.fr, before.words, pd, i * 512)
      requires words[pd + 1 + i] == before.words[pd + 1 + i]
      modifies frames, frames.bitmap, frames.pageRefs
      ensures frames.State() == P.FreeTables(before.fr, before.words, pd, i * 512 + 512)
    {
      hide P.FreeTables, FreePage;
      for j := 0 to P.ENTRIES
        invariant frames.State() == P.FreeTables(before.fr, before.words, pd, i * 512 + j)
      {
        var pde := words[pd + 1 + i][j];
        PlaceOfEntry(i, j);
        assert pde == P.Pde(before.words, pd, i * 512 + j);
        FreeTablesStep(before.fr, before.words, pd, i * 512 + j);
        if P.IsUser(pde) {
          frames.PageFree(pde.frame * PAGE_SIZE);
        }
      }
    }
  }

  lemma FreeTablesStart(fr: Frames, words: seq<P.Table>, pd: nat)
    requires Shape(fr)
    ensures P.FreeTables(fr, words, pd, 0) == fr
  {}

  lemma FreeTablesStep(fr: Frames, words: seq<P.Table>, pd: nat, n: nat)
    requires Shape(fr)
    ensures var before := P.FreeTables(fr, words, pd, n);
      P.FreeTables(fr, words, pd, n + 1) ==
      if P.IsUser(P.Pde(words, pd, n)) then FreePage(before, P.Pde(words, pd, n).frame * PAGE_SIZE) else before
  {}

  lemma PlaceOfEntry(i: nat, j: nat)
    requires j < P.ENTRIES
    ensures (i * 512 + j) / P.ENTRIES == i && (i * 512 + j) % P.ENTRIES == j
  {}
}
