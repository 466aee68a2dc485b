/** Copy-on-write over mapping lists, against a machine whose fork copies every page at once. */
module Cow {
  import opened Common
  import opened Memory
  import opened Paging

  /** One mapped page of one process. */
  datatype Mapping = Mapping(va: nat, pte: Pte)

  /** All processes' mapped pages over shared frames. */
  datatype Vm = Vm(views: seq<seq<Mapping>>, refs: seq<nat>, bytes: seq<Page>)

  /** The same process image on the eager machine: every page has its own bytes. */
  datatype EagerPage = EagerPage(va: nat, flags: Flags, data: Page)

  const MAX_PROCESSES: nat := 16
  const MAX_USER_PAGES: nat := 128

  // ---------------------------------------------------------------- who names a frame

  /** How often the list names frame f. */
  function Count(m: seq<Mapping>, f: nat): nat {
    if m == [] then 0 else Count(m[..|m| - 1], f) + (if m[|m| - 1].pte.frame == f then 1 else 0)
  }

  /** How often all processes together name frame f. */
  function Total(views: seq<seq<Mapping>>, f: nat): nat {
    if views == [] then 0 else Total(views[..|views| - 1], f) + Count(views[|views| - 1], f)
  }

  function One(x: Mapping, f: nat): nat { if x.pte.frame == f then 1 else 0 }

  lemma {:induction false} CountUpdate(m: seq<Mapping>, k: nat, x: Mapping, f: nat)
    requires k < |m|
    ensures Count(m[k := x], f) + One(m[k], f) == Count(m, f) + One(x, f)
  {
    var n := |m| - 1;
    if k < n {
      CountUpdate(m[..n], k, x, f);
      assert m[k := x][..n] == m[..n][k := x];
    } else {
      assert m[k := x][..n] == m[..n];
    }
  }

  lemma {:induction false} TotalUpdate(views: seq<seq<Mapping>>, i: nat, m: seq<Mapping>, f: nat)
    requires i < |views|
    ensures Total(views[i := m], f) + Count(views[i], f) == Total(views, f) + Count(m, f)
  {
    var n := |views| - 1;
    if i < n {
      TotalUpdate(views[..n], i, m, f);
      assert views[i := m][..n] == views[..n][i := m];
    } else {
      assert views[i := m][..n] == views[..n];
    }
  }

  lemma {:induction false} Counted(m: seq<Mapping>, k: nat)
    requires k < |m|
    ensures Count(m, m[k].pte.frame) > 0
  {
    if k < |m| - 1 {
      Counted(m[..|m| - 1], k);
    }
  }

  lemma {:induction false} CountedFrom(m: seq<Mapping>, f: nat)
    requires Count(m, f) > 0
    ensures exists k :: 0 <= k < |m| && m[k].pte.frame == f
  {
    var n := |m| - 1;
    if m[n].pte.frame != f {
      CountedFrom(m[..n], f);
      var k :| 0 <= k < n && m[..n][k].pte.frame == f;
      assert m[k].pte.frame == f;
    }
  }

  lemma {:induction false} TotalCovers(views: seq<seq<Mapping>>, i: nat, f: nat)
    requires i < |views|
    ensures Count(views[i], f) <= Total(views, f)
  {
    if i < |views| - 1 {
      TotalCovers(views[..|views| - 1], i, f);
    }
  }

  lemma Mapped(views: seq<seq<Mapping>>, i: nat, k: nat)
    requires i < |views| && k < |views[i]|
    ensures Total(views, views[i][k].pte.frame) > 0
  {
    Counted(views[i], k);
    TotalCovers(views, i, views[i][k].pte.frame);
  }

  /** Two different mappings of a frame count it at least twice. */
  lemma TwoMappings(views: seq<seq<Mapping>>, i: nat, k: nat, j: nat, l: nat)
    requires i < |views| && k < |views[i]| && j < |views| && l < |views[j]|
    requires i != j || k != l
    requires views[i][k].pte.frame == views[j][l].pte.frame
    ensures Total(views, views[i][k].pte.frame) >= 2
  {
    var f := views[i][k].pte.frame;
    if i == j {
      var other := Mapping(0, Pte(f + 1, NO_FLAGS));
      CountUpdate(views[i], k, other, f);
      Counted(views[i][k := other], l);
      TotalCovers(views, i, f);
    } else {
      TotalUpdate(views, i, [], f);
      Mapped(views[i := []], j, l);
      Counted(views[i], k);
    }
  }

  lemma {:induction false} CountSize(m: seq<Mapping>, f: nat)
    ensures Count(m, f) <= |m|
  {
    if m != [] {
      CountSize(m[..|m| - 1], f);
    }
  }

  lemma {:induction false} TotalSize(views: seq<seq<Mapping>>, n: nat, f: nat)
    requires forall i :: 0 <= i < |views| ==> |views[i]| <= n
    ensures Total(views, f) <= |views| * n
  {
    if views != [] {
      TotalSize(views[..|views| - 1], n, f);
      CountSize(views[|views| - 1], f);
      assert (|views| - 1) * n + n == |views| * n;
    }
  }

  // ---------------------------------------------------------------- the invariant

  /** Every mapped frame is counted once per mapping; a writable mapping is the only one. */
  ghost predicate Inv(vm: Vm) {
    && |vm.refs| == MAX_PAGES && |vm.bytes| == MAX_PAGES
    && |vm.views| <= MAX_PROCESSES && (forall i :: 0 <= i < |vm.views| ==> |vm.views[i]| <= MAX_USER_PAGES)
    && (forall f: nat :: Total(vm.views, f) > 0 ==>
          RESERVED_PAGES <= f < MAX_PAGES && vm.refs[f] == Total(vm.views, f))
    && (forall i, k :: 0 <= i < |vm.views| && 0 <= k < |vm.views[i]| && vm.views[i][k].pte.flags.writable ==>
          Total(vm.views, vm.views[i][k].pte.frame) == 1)
  }

  /** No reference count ever comes near the saturation value of the allocator. */
  lemma CountsNeverSaturate(vm: Vm, f: nat)
    requires Inv(vm) && Total(vm.views, f) > 0
    ensures 0 < vm.refs[f] <= MAX_PROCESSES * MAX_USER_PAGES < REF_MAX
  {
    TotalSize(vm.views, MAX_USER_PAGES, f);
  }

  // ---------------------------------------------------------------- the eager view

  /** The permission a process really has: a copy-on-write page is a writable page. */
  function Effective(flags: Flags): Flags {
    flags.(writable := flags.writable || flags.cow, cow := false)
  }

  function EagerOf(m: seq<Mapping>, bytes: seq<Page>): (r: seq<EagerPage>)
    requires |bytes| == MAX_PAGES
    ensures |r| == |m|
  {
    seq(|m|, k requires 0 <= k < |m| =>
      EagerPage(m[k].va, Effective(m[k].pte.flags),
                if m[k].pte.frame < MAX_PAGES then bytes[m[k].pte.frame] else ZeroPage()))
  }

  function Eager(vm: Vm): (r: seq<seq<EagerPage>>)
    requires |vm.bytes| == MAX_PAGES
    ensures |r| == |vm.views|
  {
    seq(|vm.views|, i requires 0 <= i < |vm.views| => EagerOf(vm.views[i], vm.bytes))
  }

  // ---------------------------------------------------------------- fork

  function Shared(flags: Flags): Flags {
    if flags.writable then CowFlags(flags) else flags
  }

  function ForkedView(m: seq<Mapping>): (r: seq<Mapping>)
    ensures |r| == |m|
  {
    seq(|m|, k requires 0 <= k < |m| => m[k].(pte := m[k].pte.(flags := Shared(m[k].pte.flags))))
  }

  lemma {:induction false} ForkedCount(m: seq<Mapping>, f: nat)
    ensures Count(ForkedView(m), f) == Count(m, f)
  {
    if m != [] {
      ForkedCount(m[..|m| - 1], f);
      assert ForkedView(m)[..|m| - 1] == ForkedView(m[..|m| - 1]);
    }
  }

  lemma ForkTotal(views: seq<seq<Mapping>>, p: nat, c: nat, f: nat)
    requires p < |views| && c < |views| && p != c && views[c] == []
    ensures Total(views[p := ForkedView(views[p])][c := ForkedView(views[p])], f) ==
      Total(views, f) + Count(views[p], f)
    ensures Count(views[p], f) <= Total(views, f)
  {
    var shared := ForkedView(views[p]);
    ForkedCount(views[p], f);
    TotalUpdate(views, p, shared, f);
    TotalUpdate(views[p := shared], c, shared, f);
    TotalCovers(views, p, f);
  }

  /** A writable frame is in no other process's list. */
  lemma WritableIsPrivate(vm: Vm, i: nat, k: nat, p: nat)
    requires Inv(vm) && i < |vm.views| && k < |vm.views[i]| && p < |vm.views| && p != i
    requires vm.views[i][k].pte.flags.writable
    ensures Count(vm.views[p], vm.views[i][k].pte.frame) == 0
  {
    var f := vm.views[i][k].pte.frame;
    TotalUpdate(vm.views, i, [], f);
    TotalCovers(vm.views[i := []], p, f);
    Counted(vm.views[i], k);
  }

  /** Sharing every page read-only looks like copying every page. */
  lemma ForkSimulates(vm: Vm, vm': Vm, p: nat, c: nat)
    requires Inv(vm) && p < |vm.views| && c < |vm.views| && p != c && vm.views[c] == []
    requires vm'.views == vm.views[p := ForkedView(vm.views[p])][c := ForkedView(vm.views[p])]
    requires |vm'.refs| == MAX_PAGES && vm'.bytes == vm.bytes
    requires forall f: nat :: f < MAX_PAGES && Total(vm.views, f) > 0 ==>
      vm'.refs[f] == vm.refs[f] + Count(vm.views[p], f)
    ensures Inv(vm')
    ensures Eager(vm') == Eager(vm)[c := Eager(vm)[p]]
  {
    forall f: nat
      ensures Total(vm'.views, f) == Total(vm.views, f) + Count(vm.views[p], f)
      ensures Count(vm.views[p], f) <= Total(vm.views, f)
    {
      ForkTotal(vm.views, p, c, f);
    }
    forall i, k | 0 <= i < |vm'.views| && 0 <= k < |vm'.views[i]| && vm'.views[i][k].pte.flags.writable
      ensures Total(vm'.views, vm'.views[i][k].pte.frame) == 1
    {
      assert i != p && i != c;
      WritableIsPrivate(vm, i, k, p);
    }
    ForkEager(vm, vm', p, c);
  }

  lemma ForkEager(vm: Vm, vm': Vm, p: nat, c: nat)
    requires |vm.bytes| == MAX_PAGES && p < |vm.views| && c < |vm.views| && p != c && vm.views[c] == []
    requires vm'.views == vm.views[p := ForkedView(vm.views[p])][c := ForkedView(vm.views[p])]
    requires vm'.bytes == vm.bytes
    ensures Eager(vm') == Eager(vm)[c := Eager(vm)[p]]
  {
    assert EagerOf(ForkedView(vm.views[p]), vm.bytes) == EagerOf(vm.views[p], vm.bytes);
    assert Eager(vm') == Eager(vm)[c := Eager(vm)[p]];
  }

  lemma {:induction false} SameFramesCount(m: seq<Mapping>, m': seq<Mapping>, f: nat)
    requires |m'| == |m| && forall k :: 0 <= k < |m| ==> m'[k].pte.frame == m[k].pte.frame
    ensures Count(m', f) == Count(m, f)
  {
    if m != [] {
      SameFramesCount(m[..|m| - 1], m'[..|m| - 1], f);
    }
  }

  /** Marking some writable pages copy-on-write takes nothing away from their owner. */
  lemma ReflagSimulates(vm: Vm, vm': Vm, p: nat, m': seq<Mapping>)
    requires Inv(vm) && p < |vm.views| && |m'| == |vm.views[p]|
    requires forall k :: 0 <= k < |m'| ==> m'[k] == vm.views[p][k] || m'[k] == ForkedView(vm.views[p])[k]
    requires vm' == vm.(views := vm.views[p := m'])
    ensures Inv(vm') && Eager(vm') == Eager(vm)
  {
    forall f: nat ensures Total(vm'.views, f) == Total(vm.views, f) {
      SameFramesCount(vm.views[p], m', f);
      TotalUpdate(vm.views, p, m', f);
    }
    assert EagerOf(m', vm.bytes) == EagerOf(vm.views[p], vm.bytes);
    assert Eager(vm') == Eager(vm);
  }

  // ---------------------------------------------------------------- write faults

  function WithPte(views: seq<seq<Mapping>>, i: nat, k: nat, e: Pte): seq<seq<Mapping>>
    requires i < |views| && k < |views[i]|
  {
    views[i := views[i][k := views[i][k].(pte := e)]]
  }

  lemma WithPteTotal(views: seq<seq<Mapping>>, i: nat, k: nat, e: Pte, f: nat)
    requires i < |views| && k < |views[i]|
    ensures Total(WithPte(views, i, k, e), f) + (if views[i][k].pte.frame == f then 1 else 0)
         == Total(views, f) + (if e.frame == f then 1 else 0)
  {
    var x := views[i][k].(pte := e);
    CountUpdate(views[i], k, x, f);
    TotalUpdate(views, i, views[i][k := x], f);
  }

  /** One owner left: the page becomes writable where it is. */
  lemma ResolveInPlaceSimulates(vm: Vm, vm': Vm, i: nat, k: nat)
    requires Inv(vm) && i < |vm.views| && k < |vm.views[i]| && vm.views[i][k].pte.frame < MAX_PAGES
    requires var e := vm.views[i][k].pte;
      && e.flags.cow && vm.refs[e.frame] == 1
      && vm'.views == WithPte(vm.views, i, k, Pte(e.frame, UncowFlags(e.flags)))
    requires vm'.refs == vm.refs && vm'.bytes == vm.bytes
    ensures Inv(vm') && Eager(vm') == Eager(vm)
  {
    var e := vm.views[i][k].pte;
    forall f: nat ensures Total(vm'.views, f) == Total(vm.views, f) {
      WithPteTotal(vm.views, i, k, Pte(e.frame, UncowFlags(e.flags)), f);
    }
    Mapped(vm.views, i, k);
    assert EagerOf(vm'.views[i], vm.bytes) == EagerOf(vm.views[i], vm.bytes);
    assert Eager(vm') == Eager(vm);
  }

  /** More owners: the page moves to a fresh frame with the same bytes. */
  lemma ResolveByCopySimulates(vm: Vm, vm': Vm, i: nat, k: nat, g: nat)
    requires Inv(vm) && i < |vm.views| && k < |vm.views[i]| && vm.views[i][k].pte.frame < MAX_PAGES
    requires RESERVED_PAGES <= g < MAX_PAGES && Total(vm.views, g) == 0 && |vm'.refs| == MAX_PAGES
    requires var e := vm.views[i][k].pte;
      && e.flags.cow && vm.refs[e.frame] > 1
      && vm'.views == WithPte(vm.views, i, k, Pte(g, UncowFlags(e.flags)))
      && vm'.bytes == vm.bytes[g := vm.bytes[e.frame]]
      && vm'.refs[g] == 1 && vm'.refs[e.frame] == vm.refs[e.frame] - 1
      && (forall h: nat :: h < MAX_PAGES && Total(vm.views, h) > 0 && h != e.frame ==> vm'.refs[h] == vm.refs[h])
    ensures Inv(vm') && Eager(vm') == Eager(vm)
  {
    var e := vm.views[i][k].pte;
    Mapped(vm.views, i, k);
    forall f: nat
      ensures Total(vm'.views, f) + (if e.frame == f then 1 else 0) == Total(vm.views, f) + (if g == f then 1 else 0)
    {
      WithPteTotal(vm.views, i, k, Pte(g, UncowFlags(e.flags)), f);
    }
    forall j, l | 0 <= j < |vm'.views| && 0 <= l < |vm'.views[j]| && vm'.views[j][l].pte.flags.writable
      ensures Total(vm'.views, vm'.views[j][l].pte.frame) == 1
    {
      if j != i || l != k {
        assert vm'.views[j][l] == vm.views[j][l];
        Mapped(vm.views, j, l);
      }
    }
    CopyEager(vm, vm', i, k, g);
  }

  lemma CopyEager(vm: Vm, vm': Vm, i: nat, k: nat, g: nat)
    requires |vm.bytes| == MAX_PAGES && i < |vm.views| && k < |vm.views[i]| && vm.views[i][k].pte.frame < MAX_PAGES
    requires g < MAX_PAGES && Total(vm.views, g) == 0 && vm.views[i][k].pte.flags.cow
    requires vm'.views == WithPte(vm.views, i, k, Pte(g, UncowFlags(vm.views[i][k].pte.flags)))
    requires vm'.bytes == vm.bytes[g := vm.bytes[vm.views[i][k].pte.frame]]
    ensures Eager(vm') == Eager(vm)
  {
    forall j | 0 <= j < |vm.views|
      ensures EagerOf(vm'.views[j], vm'.bytes) == EagerOf(vm.views[j], vm.bytes)
    {
      forall l | 0 <= l < |vm.views[j]|
        ensures EagerOf(vm'.views[j], vm'.bytes)[l] == EagerOf(vm.views[j], vm.bytes)[l]
      {
        Mapped(vm.views, j, l);
      }
    }
    assert Eager(vm') == Eager(vm);
  }

  // ---------------------------------------------------------------- writes

  function EagerWrite(e: seq<seq<EagerPage>>, i: nat, k: nat, off: nat, b: byte): seq<seq<EagerPage>>
    requires i < |e| && k < |e[i]| && off < PAGE_SIZE
  {
    e[i := e[i][k := e[i][k].(data := e[i][k].data[off := b])]]
  }

  /** A store through a writable mapping changes that process's page and no other byte anywhere. */
  lemma WriteSimulates(vm: Vm, vm': Vm, i: nat, k: nat, off: nat, b: byte)
    requires Inv(vm) && i < |vm.views| && k < |vm.views[i]| && off < PAGE_SIZE
    requires vm.views[i][k].pte.flags.writable
    requires vm'.views == vm.views && vm'.refs == vm.refs
    requires var f := vm.views[i][k].pte.frame;
      f < MAX_PAGES && vm'.bytes == vm.bytes[f := vm.bytes[f][off := b]]
    ensures Inv(vm')
    ensures Eager(vm') == EagerWrite(Eager(vm), i, k, off, b)
  {
    var f := vm.views[i][k].pte.frame;
    forall j, l | 0 <= j < |vm.views| && 0 <= l < |vm.views[j]| && !(j == i && l == k)
      ensures vm.views[j][l].pte.frame != f
    {
      if vm.views[j][l].pte.frame == f {
        TwoMappings(vm.views, i, k, j, l);
        assert false;
      }
    }
    var e, e' := EagerWrite(Eager(vm), i, k, off, b), Eager(vm');
    forall j | 0 <= j < |vm.views|
      ensures e'[j] == e[j]
    {
      assert |e'[j]| == |e[j]|;
      assert forall l :: 0 <= l < |e[j]| ==> e'[j][l] == e[j][l];
    }
  }

  // ---------------------------------------------------------------- leaving

  /** Dropping one process and one count per mapping it had leaves the others as they were. */
  lemma LeaveSimulates(vm: Vm, vm': Vm, i: nat)
    requires Inv(vm) && i < |vm.views| && |vm'.refs| == MAX_PAGES
    requires vm'.views == vm.views[i := []] && vm'.bytes == vm.bytes
    requires forall f: nat :: f < MAX_PAGES && Total(vm.views, f) > 0 ==>
      vm'.refs[f] + Count(vm.views[i], f) == vm.refs[f]
    ensures Inv(vm')
    ensures Eager(vm') == Eager(vm)[i := []]
  {
    forall f: nat ensures Total(vm'.views, f) + Count(vm.views[i], f) == Total(vm.views, f) {
      TotalUpdate(vm.views, i, [], f);
    }
    forall j, k | 0 <= j < |vm'.views| && 0 <= k < |vm'.views[j]| && vm'.views[j][k].pte.flags.writable
      ensures Total(vm'.views, vm'.views[j][k].pte.frame) == 1
    {
      Mapped(vm'.views, j, k);
      assert vm.views[j][k] == vm'.views[j][k];
    }
    assert Eager(vm') == Eager(vm)[i := []];
  }
}
