/** The kernel's own entries in every address space (src/paging.c): which operations keep them. */
module Supervisor {
  import opened Common
  import opened Memory
  import opened Paging

  /** Directory entry d of the kernel. */
  function Template(kernel: seq<Table>, d: nat): Pte
    requires |kernel| == 4 && d < DIRECTORIES
  {
    kernel[d / ENTRIES][d % ENTRIES]
  }

  /** Every present entry of the kernel stands in the space, with the user bit off. */
  ghost predicate Stands(words: seq<Table>, pd: nat, kernel: seq<Table>) {
    && |kernel| == 4
    && forall d: nat :: d < DIRECTORIES && Template(kernel, d).flags.present ==> StandsAt(words, pd, kernel, d)
  }

  predicate StandsAt(words: seq<Table>, pd: nat, kernel: seq<Table>, d: nat)
    requires |kernel| == 4 && d < DIRECTORIES
  {
    var e := Template(kernel, d);
    Pde(words, pd, d) == e.(flags := e.flags.(user := false))
  }

  /** Spaces whose directories say the same. */
  lemma SamePdes(w: seq<Table>, w': seq<Table>, pd: nat, kernel: seq<Table>)
    requires Stands(w, pd, kernel) && forall d: nat :: d < DIRECTORIES ==> Pde(w', pd, d) == Pde(w, pd, d)
    ensures Stands(w', pd, kernel)
  {
    forall d: nat | d < DIRECTORIES && Template(kernel, d).flags.present ensures StandsAt(w', pd, kernel, d) {
      assert StandsAt(w, pd, kernel, d);
    }
  }

  /** A new space has the kernel's entries, and every other space keeps them. */
  lemma CreateStands(s: Phys, spaces: set<nat>, kernel: seq<Table>, q: nat)
    requires Spaces(s, spaces) && |kernel| == 4 && CreateSpace(s, kernel).1 != 0
    ensures var (s', pd) := CreateSpace(s, kernel);
      Stands(s'.words, pd, kernel) && (q in spaces && Stands(s.words, q, kernel) ==> Stands(s'.words, q, kernel))
  {
    var (s', pd) := CreateSpace(s, kernel);
    CreateKeepsSpaces(s, spaces, kernel);
    forall d: nat | d < DIRECTORIES ensures StandsAt(s'.words, pd, kernel, d) {
      BuiltAt(s.words, kernel, pd, d);
    }
    if q in spaces && Stands(s.words, q, kernel) { SamePdes(s.words, s'.words, q, kernel); }
  }

  lemma BuiltAt(words: seq<Table>, kernel: seq<Table>, pd: nat, d: nat)
    requires pd + 5 <= |words| && |kernel| == 4 && d < DIRECTORIES
    ensures StandsAt(BuildSpace(words, kernel, pd), pd, kernel, d)
  {
    assert WithoutUser(kernel[d / ENTRIES])[d % ENTRIES] == Pde(BuildSpace(words, kernel, pd), pd, d);
  }

  /** In the kernel's template the entries of the user range, and of nothing below it, are absent. */
  lemma UserRange(kernel: seq<Table>, va: nat)
    requires KernelTemplate(kernel) && va < USER_LIMIT
    ensures DirOf(va) < DIRECTORIES && (Template(kernel, DirOf(va)).flags.present <==> va < USER_BASE)
  {
    var d := DirOf(va);
    assert d < 3 * ENTRIES && (d < 128 <==> va < USER_BASE);
    assert d / ENTRIES == 0 <==> d < ENTRIES;
  }

  /** Mapping an address keeps every supervisor entry of its space if and only if the address is in the user
      range, and of every other space in any case. */
  lemma MapStandsIff(s: Phys, spaces: set<nat>, pd: nat, kernel: seq<Table>, va: nat, pa: nat, flags: Flags)
    requires Spaces(s, spaces) && pd in spaces && KernelTemplate(kernel) && Stands(s.words, pd, kernel)
    requires va < USER_LIMIT && va % PAGE_SIZE == 0 && pa % PAGE_SIZE == 0 && MapUserPage(s, pd, va, pa, flags).1
    ensures Stands(MapUserPage(s, pd, va, pa, flags).0.words, pd, kernel) <==> USER_BASE <= va
  {
    var words := MapUserPage(s, pd, va, pa, flags).0.words;
    UserRange(kernel, va);
    if USER_BASE <= va {
      forall d: nat | d < DIRECTORIES && Template(kernel, d).flags.present ensures StandsAt(words, pd, kernel, d) {
        assert StandsAt(s.words, pd, kernel, d);
        MapKeepsSupervisor(s, spaces, pd, va, pa, flags, d);
      }
    } else {
      var d := DirOf(va);
      assert StandsAt(s.words, pd, kernel, d);
      MapKeepsSupervisor(s, spaces, pd, va, pa, flags, d);
      assert !StandsAt(words, pd, kernel, d);
    }
  }

  lemma MapStandsElsewhere(s: Phys, spaces: set<nat>, pd: nat, kernel: seq<Table>, va: nat, pa: nat, flags: Flags,
                           q: nat)
    requires Spaces(s, spaces) && pd in spaces && q in spaces && q != pd && Stands(s.words, q, kernel)
    requires va < USER_LIMIT && va % PAGE_SIZE == 0 && pa % PAGE_SIZE == 0
    ensures Stands(MapUserPage(s, pd, va, pa, flags).0.words, q, kernel)
  {
    WalkUsesPde(s.words, pd, va);
    var d, pte, words := DirOf(va), UserPte(pa / PAGE_SIZE, flags), MapUserPage(s, pd, va, pa, flags).0.words;
    if HasTable(s.words, pd, d) {
      TableWriteKeepsSpaces(s, spaces, pd, d, TableIndex(va), pte);
    } else if AllocRun(s.fr, 1).1 != 0 {
      var (fr, a) := AllocRun(s.fr, 1);
      NewTableKeepsSpaces(s, spaces, pd, d);
      TableWriteKeepsSpaces(WithTable(s, pd, d, a / PAGE_SIZE, fr), spaces, pd, d, TableIndex(va), pte);
    }
    SamePdes(s.words, words, q, kernel);
  }

  /** Re-flagging keeps them, in every space. */
  lemma FlagsStand(s: Phys, spaces: set<nat>, pd: nat, kernel: seq<Table>, va: nat, flags: Flags, q: nat)
    requires Spaces(s, spaces) && pd in spaces && q in spaces && Stands(s.words, q, kernel) && va < USER_LIMIT
    ensures Stands(SetUserPageFlags(s, pd, va, flags).0.words, q, kernel)
  {
    WalkUsesPde(s.words, pd, va);
    var (s', ok) := SetUserPageFlags(s, pd, va, flags);
    if ok {
      var e := UserPte(Entry(s.words, PdeOf(s.words, pd, va).frame, TableIndex(va)).frame, flags);
      TableWriteKeepsSpaces(s, spaces, pd, DirOf(va), TableIndex(va), e);
      SamePdes(s.words, s'.words, q, kernel);
    }
  }

  /** So does marking copy-on-write. */
  lemma MarkStands(s: Phys, spaces: set<nat>, pd: nat, kernel: seq<Table>, va: nat, q: nat)
    requires Spaces(s, spaces) && pd in spaces && q in spaces && Stands(s.words, q, kernel) && va < USER_LIMIT
    ensures Stands(MarkCow(s, pd, va).0.words, q, kernel)
  {
    var l := Lookup(s.words, pd, va);
    if l.Some? { FlagsStand(s, spaces, pd, kernel, va, CowFlags(l.value.flags), q); }
  }

  /** So does resolving a write fault. */
  lemma ResolveStands(s: Phys, spaces: set<nat>, pd: nat, kernel: seq<Table>, va: nat, q: nat)
    requires Spaces(s, spaces) && pd in spaces && q in spaces && Stands(s.words, q, kernel) && va < USER_LIMIT
    ensures Stands(ResolveCow(s, pd, va).0.words, q, kernel)
  {
    WalkUsesPde(s.words, pd, va);
    var words := ResolveCow(s, pd, va).0.words;
    if words != s.words {
      var e := Entry(words, PdeOf(s.words, pd, va).frame, TableIndex(va));
      TableWriteKeepsSpaces(s, spaces, pd, DirOf(va), TableIndex(va), e);
      SamePdes(s.words, words, q, kernel);
    }
  }

  /** Destroying a space leaves the entries of every other. */
  lemma DestroyStands(s: Phys, spaces: set<nat>, pd: nat, kernel: seq<Table>, q: nat)
    requires Spaces(s, spaces) && pd in spaces && q in spaces && q != pd && Stands(s.words, q, kernel)
    ensures Stands(DestroySpace(s, pd).words, q, kernel)
  {
    var words := DestroySpace(s, pd).words;
    assert q + 5 <= pd || pd + 5 <= q;
    forall d: nat | d < DIRECTORIES ensures Pde(words, q, d) == Pde(s.words, q, d) {}
    SamePdes(s.words, words, q, kernel);
  }

  // ---------------------------------------------------------------- all spaces together

  ghost predicate AllStand(words: seq<Table>, spaces: set<nat>, kernel: seq<Table>) {
    forall q :: q in spaces ==> Stands(words, q, kernel)
  }

  /** The kernel's template is the one start-up leaves, and every space has its entries. */
  ghost predicate Guarded(words: seq<Table>, spaces: set<nat>, kernel: seq<Table>) {
    KernelTemplate(kernel) && AllStand(words, spaces, kernel)
  }

  predicate High(vas: seq<nat>) { forall k :: 0 <= k < |vas| ==> USER_BASE <= vas[k] }

  lemma CreateStandsAll(s: Phys, spaces: set<nat>, kernel: seq<Table>)
    requires Spaces(s, spaces) && |kernel| == 4 && AllStand(s.words, spaces, kernel)
    ensures PhysOk(s)
    ensures var (s', pd) := CreateSpace(s, kernel); pd != 0 ==> AllStand(s'.words, spaces + {pd}, kernel)
  {
    assert PhysOk(s);
    hide Stands, CreateSpace, Spaces;
    var (s', pd) := CreateSpace(s, kernel);
    if pd != 0 {
      CreateStands(s, spaces, kernel, pd);
      forall q | q in spaces ensures Stands(s'.words, q, kernel) { CreateStands(s, spaces, kernel, q); }
    }
  }

  lemma MapStandsAll(s: Phys, spaces: set<nat>, pd: nat, kernel: seq<Table>, va: nat, pa: nat, flags: Flags)
    requires Spaces(s, spaces) && pd in spaces && KernelTemplate(kernel) && AllStand(s.words, spaces, kernel)
    requires USER_BASE <= va < USER_LIMIT && va % PAGE_SIZE == 0 && pa % PAGE_SIZE == 0
    ensures AllStand(MapUserPage(s, pd, va, pa, flags).0.words, spaces, kernel)
  {
    MapRefines(s, spaces, pd, va, pa, flags);
    hide Stands, MapUserPage, Spaces, Lookup;
    var (s', ok) := MapUserPage(s, pd, va, pa, flags);
    if ok {
      MapStandsIff(s, spaces, pd, kernel, va, pa, flags);
      forall q | q in spaces ensures Stands(s'.words, q, kernel) {
        if q != pd { MapStandsElsewhere(s, spaces, pd, kernel, va, pa, flags, q); }
      }
    }
  }

  lemma FlagsStandAll(s: Phys, spaces: set<nat>, pd: nat, kernel: seq<Table>, va: nat, flags: Flags)
    requires Spaces(s, spaces) && pd in spaces && AllStand(s.words, spaces, kernel) && va < USER_LIMIT
    ensures AllStand(SetUserPageFlags(s, pd, va, flags).0.words, spaces, kernel)
  {
    hide Stands, SetUserPageFlags, Spaces;
    forall q | q in spaces ensures Stands(SetUserPageFlags(s, pd, va, flags).0.words, q, kernel) {
      FlagsStand(s, spaces, pd, kernel, va, flags, q);
    }
  }

  lemma ResolveStandsAll(s: Phys, spaces: set<nat>, pd: nat, kernel: seq<Table>, va: nat)
    requires Spaces(s, spaces) && pd in spaces && AllStand(s.words, spaces, kernel) && va < USER_LIMIT
    ensures PhysOk(s) && AllStand(ResolveCow(s, pd, va).0.words, spaces, kernel)
  {
    assert PhysOk(s);
    hide Stands, ResolveCow, Spaces;
    forall q | q in spaces ensures Stands(ResolveCow(s, pd, va).0.words, q, kernel) {
      ResolveStands(s, spaces, pd, kernel, va, q);
    }
  }

  lemma DestroyStandsAll(s: Phys, spaces: set<nat>, pd: nat, kernel: seq<Table>)
    requires Spaces(s, spaces) && pd in spaces && AllStand(s.words, spaces, kernel)
    ensures Shape(s.fr) && AllStand(DestroySpace(s, pd).words, spaces - {pd}, kernel)
  {
    assert Shape(s.fr);
    hide Stands, DestroySpace, Spaces;
    forall q | q in spaces - {pd} ensures Stands(DestroySpace(s, pd).words, q, kernel) {
      DestroyStands(s, spaces, pd, kernel, q);
    }
  }
}
