/** What fork keeps, and what it gives: the sharing loop, the marking loop, success and failure. */
module ForkProof {
  import opened Common
  import opened Memory
  import opened Paging
  import opened Cow
  import opened Fork

  // ---------------------------------------------------------------- the sharing loop

  function ChildPte(e: Pte): Pte { Pte(e.frame, Shared(e.flags)) }

  function MaxCount(): nat { MAX_PROCESSES * MAX_USER_PAGES }

  /** A frame of the parent that may be shared. */
  ghost predicate Shareable(ph: Phys, spaces: set<nat>, f: nat) {
    && Shape(ph.fr) && RESERVED_PAGES <= f < MAX_PAGES && ph.fr.used[f] && 0 < ph.fr.refs[f] <= MaxCount()
    && (forall q :: q in spaces ==> f !in SpaceFrames(ph.words, q))
  }

  ghost predicate AllShareable(ph: Phys, spaces: set<nat>, ppd: nat, vas: seq<nat>) {
    forall k :: 0 <= k < |vas| ==>
      Lookup(ph.words, ppd, vas[k]).Some? && Shareable(ph, spaces, Lookup(ph.words, ppd, vas[k]).value.frame)
  }

  /** Who owns which frame while pages are being shared. */
  ghost predicate ShareFrames(ph0: Phys, spaces: set<nat>, cpd: nat, ph: Phys, ptes: seq<Pte>) {
    && Valid(ph0.fr) && Spaces(ph, spaces + {cpd}) && ph.bytes == ph0.bytes
    && (forall q :: q in spaces ==> SpaceFrames(ph.words, q) == SpaceFrames(ph0.words, q))
    && Lent(ph0.fr, ph.fr, SpaceFrames(ph.words, cpd), multiset(FramesIn(ptes)))
  }

  /** Who maps what while pages are being shared: the child maps the first |ptes| pages, shared. */
  ghost predicate ShareMaps(w0: seq<Table>, w: seq<Table>, spaces: set<nat>, ppd: nat, cpd: nat, vas: seq<nat>,
                            ptes: seq<Pte>) {
    && |ptes| <= |vas|
    && (forall k :: 0 <= k < |ptes| ==> Lookup(w0, ppd, vas[k]) == Some(ptes[k]))
    && (forall q, vb :: q in spaces && 0 <= vb < USER_LIMIT ==> Lookup(w, q, vb) == Lookup(w0, q, vb))
    && (forall k :: 0 <= k < |ptes| ==> Lookup(w, cpd, vas[k]) == Some(ChildPte(ptes[k])))
    && (forall vb: nat :: vb < USER_LIMIT && Lookup(w, cpd, vb).Some? ==> OnPage(vas, |ptes|, vb))
  }

  ghost predicate ShareInv(ph0: Phys, spaces: set<nat>, ppd: nat, cpd: nat, vas: seq<nat>, ph: Phys, ptes: seq<Pte>) {
    ShareFrames(ph0, spaces, cpd, ph, ptes) && ShareMaps(ph0.words, ph.words, spaces, ppd, cpd, vas, ptes)
  }

  lemma FramesInSnoc(ptes: seq<Pte>, e: Pte)
    ensures multiset(FramesIn(ptes + [e])) == multiset(FramesIn(ptes)) + multiset{e.frame}
  {
    assert FramesIn(ptes + [e]) == FramesIn(ptes) + [e.frame];
  }

  lemma {:induction false} SeqCount(s: seq<nat>, f: nat)
    ensures multiset(s)[f] <= |s|
  {
    if s != [] {
      SeqCount(s[..|s| - 1], f);
      assert s == s[..|s| - 1] + [s[|s| - 1]];
    }
  }

  lemma UserBits(words: seq<Table>, pd: nat, va: nat)
    requires Lookup(words, pd, va).Some?
    ensures var e := Lookup(words, pd, va).value; IsUser(e) && UserPte(e.frame, Shared(e.flags)) == ChildPte(e)
    ensures var e := Lookup(words, pd, va).value; UserPte(e.frame, e.flags) == e
    ensures var e := Lookup(words, pd, va).value; UserPte(e.frame, UncowFlags(e.flags)).flags == UncowFlags(e.flags)
  {}

  /** The state after mapping page |ptes| into the child and retaining its frame. */
  function ShareOne(ph: Phys, cpd: nat, va: nat, e: Pte): Phys
    requires PhysOk(ph)
  {
    var ph1 := MapUserPage(ph, cpd, va, e.frame * PAGE_SIZE, Shared(e.flags)).0;
    ph1.(fr := RetainPage(ph1.fr, e.frame * PAGE_SIZE))
  }

  /** Retaining a user frame disturbs no space. */
  lemma RetainKeepsSpaces(ph: Phys, spaces: set<nat>, f: nat)
    requires Spaces(ph, spaces) && forall q :: q in spaces ==> f !in SpaceFrames(ph.words, q)
    ensures Spaces(ph.(fr := RetainPage(ph.fr, f * PAGE_SIZE)), spaces)
  {
    RetainValid(ph.fr, f * PAGE_SIZE);
    assert f * PAGE_SIZE / PAGE_SIZE == f;
    forall q, g | q in spaces && g in SpaceFrames(ph.words, q)
      ensures Held(RetainPage(ph.fr, f * PAGE_SIZE), g)
    {
      SpaceFramesHeld(ph, spaces, q, g);
    }
    HeldStays(ph, ph.(fr := RetainPage(ph.fr, f * PAGE_SIZE)), spaces);
  }

  lemma MapFramesStep(ph0: Phys, spaces: set<nat>, cpd: nat, r: Sharing, va: nat, e: Pte)
    requires ShareFrames(ph0, spaces, cpd, r.ph, r.ptes) && cpd !in spaces && UserVa(va)
    requires MapUserPage(r.ph, cpd, va, e.frame * PAGE_SIZE, Shared(e.flags)).1
    ensures ShareFrames(ph0, spaces, cpd, MapUserPage(r.ph, cpd, va, e.frame * PAGE_SIZE, Shared(e.flags)).0, r.ptes)
  {
    var pa, all := e.frame * PAGE_SIZE, spaces + {cpd};
    var ph1 := MapUserPage(r.ph, cpd, va, pa, Shared(e.flags)).0;
    MapRefines(r.ph, all, cpd, va, pa, Shared(e.flags));
    MapTakes(ph0.fr, r.ph, all, cpd, va, pa, Shared(e.flags), multiset(FramesIn(r.ptes)));
    forall q | q in spaces ensures SpaceFrames(ph1.words, q) == SpaceFrames(ph0.words, q) {
      MapKeepsOtherFrames(r.ph, all, cpd, va, pa, Shared(e.flags), q);
    }
  }

  lemma RetainFramesStep(ph0: Phys, spaces: set<nat>, cpd: nat, r: Sharing, e: Pte)
    requires ShareFrames(ph0, spaces, cpd, r.ph, r.ptes) && |r.ptes| <= MAX_USER_PAGES
    requires Shareable(ph0, spaces, e.frame)
    ensures ShareFrames(ph0, spaces, cpd,
                        r.ph.(fr := RetainPage(r.ph.fr, e.frame * PAGE_SIZE)), r.ptes + [e])
  {
    var f := e.frame;
    SeqCount(FramesIn(r.ptes), f);
    FramesInSnoc(r.ptes, e);
    RetainLends(ph0.fr, r.ph.fr, SpaceFrames(r.ph.words, cpd), multiset(FramesIn(r.ptes)), f);
    RetainKeepsSpaces(r.ph, spaces + {cpd}, f);
  }

  lemma ShareMapsStep(w0: seq<Table>, w: seq<Table>, w': seq<Table>, spaces: set<nat>, ppd: nat, cpd: nat,
                      vas: seq<nat>, ptes: seq<Pte>, e: Pte)
    requires ShareMaps(w0, w, spaces, ppd, cpd, vas, ptes) && cpd !in spaces
    requires ListOk(vas) && |ptes| < |vas| && Lookup(w0, ppd, vas[|ptes|]) == Some(e)
    requires forall q, vb :: q in spaces + {cpd} && 0 <= vb < USER_LIMIT ==>
      Lookup(w', q, vb) == Remapped(w, cpd, vas[|ptes|], ChildPte(e), q, vb)
    ensures ShareMaps(w0, w', spaces, ppd, cpd, vas, ptes + [e])
  {
    hide Lookup, ChildPte;
    var n := |ptes|;
    var va := vas[n];
    forall k | 0 <= k < n + 1
      ensures Lookup(w', cpd, vas[k]) == Some(ChildPte((ptes + [e])[k]))
    {
      assert UserVa(vas[k]) && UserVa(va);
      assert k < n ==> vas[k] / PAGE_SIZE != va / PAGE_SIZE;
    }
    forall vb: nat | vb < USER_LIMIT && Lookup(w', cpd, vb).Some?
      ensures OnPage(vas, n + 1, vb)
    {
      if vb / PAGE_SIZE == va / PAGE_SIZE {
        assert vas[n] / PAGE_SIZE == vb / PAGE_SIZE;
      } else {
        assert OnPage(vas, n, vb);
      }
    }
  }

  lemma ShareStep(ph0: Phys, spaces: set<nat>, ppd: nat, cpd: nat, vas: seq<nat>, r: Sharing, e: Pte)
    requires ShareInv(ph0, spaces, ppd, cpd, vas, r.ph, r.ptes) && cpd !in spaces && ppd in spaces
    requires ListOk(vas) && |r.ptes| < |vas|
    requires Lookup(ph0.words, ppd, vas[|r.ptes|]) == Some(e) && Shareable(ph0, spaces, e.frame)
    requires MapUserPage(r.ph, cpd, vas[|r.ptes|], e.frame * PAGE_SIZE, Shared(e.flags)).1
    ensures ShareInv(ph0, spaces, ppd, cpd, vas, ShareOne(r.ph, cpd, vas[|r.ptes|], e), r.ptes + [e])
  {
    var va := vas[|r.ptes|];
    assert UserVa(va);
    MapRefines(r.ph, spaces + {cpd}, cpd, va, e.frame * PAGE_SIZE, Shared(e.flags));
    UserBits(ph0.words, ppd, va);
    assert e.frame * PAGE_SIZE / PAGE_SIZE == e.frame;
    var ph1 := MapUserPage(r.ph, cpd, va, e.frame * PAGE_SIZE, Shared(e.flags)).0;
    ShareMapsStep(ph0.words, r.ph.words, ph1.words, spaces, ppd, cpd, vas, r.ptes, e);
    MapFramesStep(ph0, spaces, cpd, r, va, e);
    RetainFramesStep(ph0, spaces, cpd, Sharing(ph1, r.ptes, true), e);
  }

  lemma ShareStart(ph0: Phys, spaces: set<nat>, kernel: seq<Table>, ppd: nat, vas: seq<nat>, ph1: Phys, cpd: nat)
    requires Spaces(ph0, spaces) && |kernel| == 4 && (ph1, cpd) == CreateSpace(ph0, kernel) && cpd != 0
    ensures PhysOk(ph1) && cpd !in spaces && ShareInv(ph0, spaces, ppd, cpd, vas, ph1, [])
  {
    CreateRefines(ph0, spaces, kernel);
    FreshSpaceLent(ph0, spaces, kernel, ph1, cpd);
    forall q | q in spaces ensures SpaceFrames(ph1.words, q) == SpaceFrames(ph0.words, q) {
      CreateKeepsFrames(ph0, spaces, kernel, q);
    }
    assert FramesIn([]) == [];
  }

  lemma ShareNextIs(before: Sharing, ppd: nat, cpd: nat, va: nat, e: Pte)
    requires PhysOk(before.ph) && Lookup(before.ph.words, ppd, va) == Some(e)
    ensures ShareNext(before, ppd, cpd, va) ==
      if MapUserPage(before.ph, cpd, va, e.frame * PAGE_SIZE, Shared(e.flags)).1
      then Sharing(ShareOne(before.ph, cpd, va, e), before.ptes + [e], true)
      else before.(ok := false)
  {}

  lemma ShareNextKeeps(ph0: Phys, spaces: set<nat>, ppd: nat, cpd: nat, vas: seq<nat>, before: Sharing, after: Sharing)
    requires ShareInv(ph0, spaces, ppd, cpd, vas, before.ph, before.ptes) && ppd in spaces && cpd !in spaces
    requires ListOk(vas) && |before.ptes| < |vas| && after == ShareNext(before, ppd, cpd, vas[|before.ptes|])
    requires AllShareable(ph0, spaces, ppd, vas)
    ensures ShareInv(ph0, spaces, ppd, cpd, vas, after.ph, after.ptes)
  {
    var va := vas[|before.ptes|];
    assert UserVa(va) && Lookup(before.ph.words, ppd, va) == Lookup(ph0.words, ppd, va);
    var e := Lookup(ph0.words, ppd, va).value;
    ShareNextIs(before, ppd, cpd, va, e);
    if MapUserPage(before.ph, cpd, va, e.frame * PAGE_SIZE, Shared(e.flags)).1 {
      ShareStep(ph0, spaces, ppd, cpd, vas, before, e);
    }
  }

  lemma ShareStops(ph: Phys, ppd: nat, cpd: nat, vas: seq<nat>, n: nat)
    requires PhysOk(ph) && 0 < n <= |vas| && !ShareUpTo(ph, ppd, cpd, vas, n - 1).ok
    ensures ShareUpTo(ph, ppd, cpd, vas, n) == ShareUpTo(ph, ppd, cpd, vas, n - 1)
  {}

  /** The loop: what holds after n rounds, whether or not one of them ran out of memory. */
  lemma {:induction false} ShareLoop(ph0: Phys, spaces: set<nat>, ppd: nat, cpd: nat, vas: seq<nat>, ph1: Phys, n: nat)
    requires PhysOk(ph1) && ShareInv(ph0, spaces, ppd, cpd, vas, ph1, [])
    requires ppd in spaces && cpd !in spaces && ListOk(vas) && n <= |vas|
    requires AllShareable(ph0, spaces, ppd, vas)
    ensures var r := ShareUpTo(ph1, ppd, cpd, vas, n); ShareInv(ph0, spaces, ppd, cpd, vas, r.ph, r.ptes)
  {
    hide ShareNext, ShareInv, MapUserPage, AllShareable, ListOk, PhysOk;
    if n > 0 {
      ShareLoop(ph0, spaces, ppd, cpd, vas, ph1, n - 1);
      var before, after := ShareUpTo(ph1, ppd, cpd, vas, n - 1), ShareUpTo(ph1, ppd, cpd, vas, n);
      if before.ok {
        ShareNextKeeps(ph0, spaces, ppd, cpd, vas, before, after);
      } else {
        ShareStops(ph1, ppd, cpd, vas, n);
      }
    }
  }

  // ---------------------------------------------------------------- re-flagging listed pages

  /** ph' is ph with the listed pages of pd re-flagged from `from` to `to`; nothing else changed. */
  ghost predicate Reflagged(ph: Phys, ph': Phys, spaces: set<nat>, pd: nat, vas: seq<nat>, from: seq<Pte>,
                            to: seq<Pte>) {
    && |from| == |to| == |vas|
    && Spaces(ph', spaces) && ph'.fr == ph.fr && ph'.bytes == ph.bytes
    && (forall q :: q in spaces ==> SpaceFrames(ph'.words, q) == SpaceFrames(ph.words, q))
    && (forall k :: 0 <= k < |vas| ==> Lookup(ph.words, pd, vas[k]) == Some(from[k]))
    && (forall k :: 0 <= k < |vas| ==> Lookup(ph'.words, pd, vas[k]) == Some(to[k]))
    && (forall q, vb :: q in spaces && q != pd && 0 <= vb < USER_LIMIT ==>
          Lookup(ph'.words, q, vb) == Lookup(ph.words, q, vb))
    && (forall vb: nat :: vb < USER_LIMIT ==> Lookup(ph'.words, pd, vb).Some? == Lookup(ph.words, pd, vb).Some?)
  }

  lemma ReflagStart(ph: Phys, spaces: set<nat>, pd: nat, vas: seq<nat>, ptes: seq<Pte>)
    requires Spaces(ph, spaces) && |ptes| == |vas|
    requires forall k :: 0 <= k < |vas| ==> Lookup(ph.words, pd, vas[k]) == Some(ptes[k])
    ensures Reflagged(ph, ph, spaces, pd, vas, ptes, ptes)
  {}

  lemma ReflagStep(ph: Phys, mid: Phys, spaces: set<nat>, pd: nat, vas: seq<nat>, from: seq<Pte>, to: seq<Pte>, n: nat,
                   flags: Flags)
    requires Reflagged(ph, mid, spaces, pd, vas, from, to) && pd in spaces && ListOk(vas) && n < |vas|
    ensures var (ph', ok) := SetUserPageFlags(mid, pd, vas[n], flags);
      ok && Reflagged(ph, ph', spaces, pd, vas, from, to[n := UserPte(to[n].frame, flags)])
  {
    hide SetUserPageFlags, Spaces, SpaceFrames, Lookup, ListOk;
    var (ph', ok) := SetUserPageFlags(mid, pd, vas[n], flags);
    ListedPages(vas);
    SetFlagsRefines(mid, spaces, pd, vas[n], flags);
    forall q | q in spaces ensures SpaceFrames(ph'.words, q) == SpaceFrames(ph.words, q) {
      FlagsKeepFrames(mid, spaces, pd, vas[n], flags, q);
    }
    forall k | 0 <= k < |vas|
      ensures Lookup(ph'.words, pd, vas[k]) == Some(to[n := UserPte(to[n].frame, flags)][k])
    {
      assert vas[k] / PAGE_SIZE == vas[n] / PAGE_SIZE <==> k == n;
    }
    forall vb: nat | vb < USER_LIMIT ensures Lookup(ph'.words, pd, vb).Some? == Lookup(ph.words, pd, vb).Some? {
      if vb / PAGE_SIZE == vas[n] / PAGE_SIZE { OnePage(ph.words, pd, vb, vas[n]); }
    }
  }

  /** The walk looks at the page of an address only. */
  lemma OnePage(words: seq<Table>, pd: nat, a: nat, b: nat)
    requires a < USER_LIMIT && b < USER_LIMIT && a / PAGE_SIZE == b / PAGE_SIZE
    ensures Lookup(words, pd, a) == Lookup(words, pd, b)
  {
    SplitInjective(a, b);
  }

  /** The pages of a list are user pages, and different ones. */
  lemma ListedPages(vas: seq<nat>)
    requires ListOk(vas)
    ensures forall k :: 0 <= k < |vas| ==> vas[k] < USER_LIMIT && vas[k] % PAGE_SIZE == 0
    ensures forall k, l :: 0 <= k < |vas| && 0 <= l < |vas| && k != l ==> vas[k] / PAGE_SIZE != vas[l] / PAGE_SIZE
  {
    forall k | 0 <= k < |vas|
      ensures vas[k] == vas[k] / PAGE_SIZE * PAGE_SIZE && vas[k] < USER_LIMIT
    {
      assert UserVa(vas[k]);
    }
  }

  lemma ReflaggedBits(ph: Phys, ph': Phys, spaces: set<nat>, pd: nat, vas: seq<nat>, from: seq<Pte>, to: seq<Pte>,
                      k: nat)
    requires Reflagged(ph, ph', spaces, pd, vas, from, to) && k < |vas|
    ensures |from| == |to| == |vas|
    ensures UserPte(from[k].frame, Shared(from[k].flags)) == ChildPte(from[k])
    ensures UserPte(from[k].frame, from[k].flags) == from[k]
  {
    UserBits(ph.words, pd, vas[k]);
  }

  /** The parent's entries after n rounds of marking, or after marking all and restoring n. */
  function MarkedPtes(ptes: seq<Pte>, n: nat): seq<Pte> {
    seq(|ptes|, k requires 0 <= k < |ptes| => if k < n then ChildPte(ptes[k]) else ptes[k])
  }

  function RestoredPtes(ptes: seq<Pte>, n: nat): seq<Pte> {
    seq(|ptes|, k requires 0 <= k < |ptes| => if k < n then ptes[k] else ChildPte(ptes[k]))
  }

  function WritableCount(ptes: seq<Pte>, n: nat): (r: nat)
    requires n <= |ptes|
    ensures r <= n
  {
    if n == 0 then 0 else WritableCount(ptes, n - 1) + (if ptes[n - 1].flags.writable then 1 else 0)
  }

  lemma {:induction false} MarkLoop(ph: Phys, spaces: set<nat>, pd: nat, vas: seq<nat>, ptes: seq<Pte>, n: nat)
    requires Reflagged(ph, ph, spaces, pd, vas, ptes, ptes) && pd in spaces && ListOk(vas)
    requires |ptes| == |vas| && n <= |vas|
    ensures var r := MarkUpTo(ph, pd, vas, ptes, n);
      r.ok && r.cowed == WritableCount(ptes, n) && Reflagged(ph, r.ph, spaces, pd, vas, ptes, MarkedPtes(ptes, n))
  {
    hide Reflagged, SetUserPageFlags;
    if n == 0 {
      assert MarkedPtes(ptes, 0) == ptes;
    } else {
      MarkLoop(ph, spaces, pd, vas, ptes, n - 1);
      var before, to := MarkUpTo(ph, pd, vas, ptes, n - 1), MarkedPtes(ptes, n - 1);
      ReflaggedBits(ph, ph, spaces, pd, vas, ptes, ptes, n - 1);
      if ptes[n - 1].flags.writable {
        ReflagStep(ph, before.ph, spaces, pd, vas, ptes, to, n - 1, Shared(ptes[n - 1].flags));
        assert to[n - 1 := ChildPte(ptes[n - 1])] == MarkedPtes(ptes, n);
      } else {
        assert to == MarkedPtes(ptes, n);
      }
    }
  }

  lemma {:induction false} RestoreLoop(ph: Phys, mid: Phys, spaces: set<nat>, pd: nat, vas: seq<nat>, ptes: seq<Pte>,
                                       n: nat)
    requires Reflagged(ph, mid, spaces, pd, vas, ptes, RestoredPtes(ptes, 0)) && pd in spaces && ListOk(vas)
    requires |ptes| == |vas| && n <= |vas|
    ensures Reflagged(ph, RestoreUpTo(mid, pd, vas, ptes, n), spaces, pd, vas, ptes, RestoredPtes(ptes, n))
  {
    hide Reflagged, SetUserPageFlags;
    if n > 0 {
      RestoreLoop(ph, mid, spaces, pd, vas, ptes, n - 1);
      var before, to := RestoreUpTo(mid, pd, vas, ptes, n - 1), RestoredPtes(ptes, n - 1);
      ReflaggedBits(ph, mid, spaces, pd, vas, ptes, RestoredPtes(ptes, 0), n - 1);
      ReflagStep(ph, before, spaces, pd, vas, ptes, to, n - 1, ptes[n - 1].flags);
      assert to[n - 1 := ptes[n - 1]] == RestoredPtes(ptes, n);
    }
  }

  /** The restore loop gives every page its old flags back exactly when the writable pages come first
      in the list: it walks the first `cowed` pages, not the pages that were marked. */
  lemma RestoreExact(ptes: seq<Pte>)
    ensures RestoredPtes(ptes, WritableCount(ptes, |ptes|)) == ptes <==>
      forall k :: 0 <= k < |ptes| ==> (ptes[k].flags.writable ==> k < WritableCount(ptes, |ptes|))
  {
    var w := WritableCount(ptes, |ptes|);
    var r := RestoredPtes(ptes, w);
    if forall k :: 0 <= k < |ptes| ==> (ptes[k].flags.writable ==> k < w) {
      assert r == ptes;
    } else {
      var k :| 0 <= k < |ptes| && ptes[k].flags.writable && k >= w;
      assert r[k] != ptes[k];
    }
  }

  // ---------------------------------------------------------------- one process among the others

  lemma SpaceOwner(slots: seq<Slot>, pd: nat) returns (i: nat)
    requires pd in SpacesOf(slots)
    ensures i < |slots| && slots[i].User? && slots[i].pd == pd
  {
    i :| 0 <= i < |slots| && slots[i].User? && slots[i].pd == pd;
  }

  /** A frame some process maps: in range, in use, counted, and holding no table. */
  lemma UserFrame(sys: Sys, f: nat)
    requires Ok(sys) && Total(Views(sys.ph.words, sys.slots), f) > 0
    ensures Shareable(sys.ph, SpacesOf(sys.slots), f)
    ensures sys.ph.fr.refs[f] == Total(Views(sys.ph.words, sys.slots), f)
  {
    CountsNeverSaturate(VmOf(sys), f);
    forall q | q in SpacesOf(sys.slots) ensures f !in SpaceFrames(sys.ph.words, q) {
      var i := SpaceOwner(sys.slots, q);
    }
  }

  /** A frame some process names is in use. */
  lemma NamedIsUsed(sys: Sys, f: nat)
    requires Ok(sys) && Total(Views(sys.ph.words, sys.slots), f) > 0
    ensures Shape(sys.ph.fr) && RESERVED_PAGES <= f < MAX_PAGES && sys.ph.fr.used[f]
    ensures sys.ph.fr.refs[f] == Total(Views(sys.ph.words, sys.slots), f)
  {
    CountsNeverSaturate(VmOf(sys), f);
  }

  lemma UnusedIsUnnamed(sys: Sys, f: nat)
    requires Ok(sys) && f < MAX_PAGES && Shape(sys.ph.fr) && !sys.ph.fr.used[f]
    ensures Total(Views(sys.ph.words, sys.slots), f) == 0
  {
    if Total(Views(sys.ph.words, sys.slots), f) > 0 { NamedIsUsed(sys, f); }
  }

  lemma ListedFrame(sys: Sys, i: nat, k: nat)
    requires Ok(sys) && i < |sys.slots| && sys.slots[i].User? && k < |sys.slots[i].vas|
    ensures var l := Lookup(sys.ph.words, sys.slots[i].pd, sys.slots[i].vas[k]);
      && l.Some? && Views(sys.ph.words, sys.slots)[i][k] == Mapping(sys.slots[i].vas[k], l.value)
      && Total(Views(sys.ph.words, sys.slots), l.value.frame) > 0
  {
    var views := Views(sys.ph.words, sys.slots);
    assert TableOk(sys.ph.words, sys.slots[i].pd, sys.slots[i].vas);
    Mapped(views, i, k);
  }

  lemma ParentShareable(sys: Sys, p: nat)
    requires Ok(sys) && p < |sys.slots| && sys.slots[p].User?
    ensures AllShareable(sys.ph, SpacesOf(sys.slots), sys.slots[p].pd, sys.slots[p].vas)
  {
    var slot := sys.slots[p];
    forall k | 0 <= k < |slot.vas|
      ensures Lookup(sys.ph.words, slot.pd, slot.vas[k]).Some?
      ensures Shareable(sys.ph, SpacesOf(sys.slots), Lookup(sys.ph.words, slot.pd, slot.vas[k]).value.frame)
    {
      ListedFrame(sys, p, k);
      UserFrame(sys, Lookup(sys.ph.words, slot.pd, slot.vas[k]).value.frame);
    }
  }

  lemma {:induction false} RetainedCount(m: seq<Mapping>, ptes: seq<Pte>, f: nat)
    requires |m| == |ptes| && forall k :: 0 <= k < |m| ==> m[k].pte == ptes[k]
    ensures multiset(FramesIn(ptes))[f] == Count(m, f)
  {
    if m == [] {
      assert FramesIn(ptes) == [];
    } else {
      var n := |m| - 1;
      RetainedCount(m[..n], ptes[..n], f);
      FramesInSnoc(ptes[..n], ptes[n]);
      assert ptes == ptes[..n] + [ptes[n]];
    }
  }

  /** Slots whose lookups did not change keep their views. */
  lemma ViewKept(w: seq<Table>, w': seq<Table>, slot: Slot)
    requires SlotShape(slot)
    requires slot.User? ==> forall vb :: 0 <= vb < USER_LIMIT ==> Lookup(w', slot.pd, vb) == Lookup(w, slot.pd, vb)
    ensures ViewOf(w', slot) == ViewOf(w, slot)
    ensures slot.User? ==> (TableOk(w, slot.pd, slot.vas) ==> TableOk(w', slot.pd, slot.vas))
  {
    if slot.User? {
      assert forall k :: 0 <= k < |slot.vas| ==> UserVa(slot.vas[k]);
    }
  }

  // ---------------------------------------------------------------- fork succeeds

  /** The memory in which fork succeeded: every page shared and marked, and a stack frame ks taken. */
  ghost predicate Forked(sys: Sys, p: nat, cpd: nat, sh: Phys, mk: Phys, ptes: seq<Pte>) {
    && Ok(sys) && p < |sys.slots| && sys.slots[p].User? && cpd !in SpacesOf(sys.slots)
    && |ptes| == |sys.slots[p].vas|
    && ShareInv(sys.ph, SpacesOf(sys.slots), sys.slots[p].pd, cpd, sys.slots[p].vas, sh, ptes)
    && Reflagged(sh, mk, SpacesOf(sys.slots) + {cpd}, sys.slots[p].pd, sys.slots[p].vas, ptes, MarkedPtes(ptes, |ptes|))
  }

  lemma ForkedLookups(sys: Sys, p: nat, cpd: nat, sh: Phys, mk: Phys, ptes: seq<Pte>)
    requires Forked(sys, p, cpd, sh, mk, ptes)
    ensures var slot := sys.slots[p];
      && (forall k :: 0 <= k < |slot.vas| ==>
            && Lookup(sys.ph.words, slot.pd, slot.vas[k]) == Some(ptes[k])
            && Lookup(mk.words, slot.pd, slot.vas[k]) == Some(ChildPte(ptes[k]))
            && Lookup(mk.words, cpd, slot.vas[k]) == Some(ChildPte(ptes[k])))
      && TableOk(mk.words, slot.pd, slot.vas) && TableOk(mk.words, cpd, slot.vas)
    ensures forall q, vb :: q in SpacesOf(sys.slots) && q != sys.slots[p].pd && 0 <= vb < USER_LIMIT ==>
      Lookup(mk.words, q, vb) == Lookup(sys.ph.words, q, vb)
  {
    hide Spaces, Lent, Lookup, Inv, Apart, SpaceFrames;
    var vas := sys.slots[p].vas;
    assert SlotShape(sys.slots[p]) && TableOk(sys.ph.words, sys.slots[p].pd, vas);
    assert forall k :: 0 <= k < |vas| ==> UserVa(vas[k]);
    assert cpd != sys.slots[p].pd;
  }

  lemma ForkedOther(sys: Sys, p: nat, cpd: nat, sh: Phys, mk: Phys, ptes: seq<Pte>, i: nat)
    requires Forked(sys, p, cpd, sh, mk, ptes) && i < |sys.slots| && i != p
    ensures ViewOf(mk.words, sys.slots[i]) == ViewOf(sys.ph.words, sys.slots[i])
    ensures sys.slots[i].User? ==> TableOk(mk.words, sys.slots[i].pd, sys.slots[i].vas)
  {
    ForkedLookups(sys, p, cpd, sh, mk, ptes);
    assert SlotShape(sys.slots[i]);
    if sys.slots[i].User? {
      assert TableOk(sys.ph.words, sys.slots[i].pd, sys.slots[i].vas);
      assert sys.slots[i].pd != sys.slots[p].pd;
    }
    ViewKept(sys.ph.words, mk.words, sys.slots[i]);
  }

  lemma ForkedOwn(sys: Sys, p: nat, cpd: nat, sh: Phys, mk: Phys, ptes: seq<Pte>, slot: Slot)
    requires Forked(sys, p, cpd, sh, mk, ptes)
    requires slot.User? && slot.vas == sys.slots[p].vas && (slot.pd == sys.slots[p].pd || slot.pd == cpd)
    ensures ViewOf(mk.words, slot) == ForkedView(ViewOf(sys.ph.words, sys.slots[p]))
    ensures TableOk(mk.words, slot.pd, slot.vas)
  {
    hide ShareInv, Reflagged, Lookup, TableOk, Ok;
    ForkedLookups(sys, p, cpd, sh, mk, ptes);
  }

  lemma ForkedViews(sys: Sys, p: nat, c: nat, cpd: nat, sh: Phys, mk: Phys, ptes: seq<Pte>, child: Slot)
    requires Forked(sys, p, cpd, sh, mk, ptes) && c < |sys.slots| && sys.slots[c].Unused?
    requires p < |sys.slots| && sys.slots[p].User?
    requires child.User? && child.pd == cpd && child.vas == sys.slots[p].vas
    ensures TablesOk(mk.words, sys.slots[c := child])
    ensures var view := ForkedView(Views(sys.ph.words, sys.slots)[p]);
      Views(mk.words, sys.slots[c := child]) == Views(sys.ph.words, sys.slots)[p := view][c := view]
  {
    hide Forked, ViewOf, TableOk;
    ForkedOwn(sys, p, cpd, sh, mk, ptes, sys.slots[p]);
    ForkedOwn(sys, p, cpd, sh, mk, ptes, child);
    forall i | 0 <= i < |sys.slots| && i != p
      ensures ViewOf(mk.words, sys.slots[i]) == ViewOf(sys.ph.words, sys.slots[i])
      ensures sys.slots[i].User? ==> TableOk(mk.words, sys.slots[i].pd, sys.slots[i].vas)
    {
      ForkedOther(sys, p, cpd, sh, mk, ptes, i);
    }
  }

  /** The kernel stack frame comes from the allocator, the child from the free slot. */
  ghost predicate ForkDone(sys: Sys, p: nat, c: nat, mk: Phys, ptes: seq<Pte>, child: Slot, fr: Frames) {
    && c < |sys.slots| && sys.slots[c].Unused?
    && child.User? && p < |sys.slots| && sys.slots[p].User? && child.vas == sys.slots[p].vas
    && child.pages == FramesIn(ptes) && Valid(mk.fr)
    && AllocRun(mk.fr, 1).1 != 0 && fr == AllocRun(mk.fr, 1).0 && child.kstack == AllocRun(mk.fr, 1).1 / PAGE_SIZE
  }

  lemma ForkRefs(sys: Sys, p: nat, cpd: nat, sh: Phys, mk: Phys, ptes: seq<Pte>, ks: nat, fr: Frames, f: nat)
    requires Forked(sys, p, cpd, sh, mk, ptes) && Valid(mk.fr)
    requires AllocRun(mk.fr, 1).1 != 0 && fr == AllocRun(mk.fr, 1).0 && ks == AllocRun(mk.fr, 1).1 / PAGE_SIZE
    requires f < MAX_PAGES && sys.ph.fr.used[f]
    ensures f != ks && f !in SpaceFrames(sh.words, cpd)
    ensures fr.refs[f] == sys.ph.fr.refs[f] + Count(Views(sys.ph.words, sys.slots)[p], f)
    ensures fr.used[f]
  {
    hide Spaces, ShareMaps, Apart, SlotsOk, Inv, SpaceFrames, TableOk, Lookup;
    var view := Views(sys.ph.words, sys.slots)[p];
    ForkedLookups(sys, p, cpd, sh, mk, ptes);
    assert forall k :: 0 <= k < |view| ==> view[k].pte == ptes[k];
    RetainedCount(view, ptes, f);
    AllocExact(mk.fr, 1);
    assert Lent(sys.ph.fr, mk.fr, SpaceFrames(sh.words, cpd), multiset(FramesIn(ptes)));
    assert mk.fr.used[f];
  }

  lemma ForkSimulation(sys: Sys, p: nat, c: nat, cpd: nat, sh: Phys, mk: Phys, ptes: seq<Pte>, child: Slot, fr: Frames)
    requires Forked(sys, p, cpd, sh, mk, ptes) && ForkDone(sys, p, c, mk, ptes, child, fr) && child.pd == cpd
    ensures var sys' := Sys(mk.(fr := fr), sys.kernel, sys.slots[c := child]);
      && Inv(VmOf(sys'))
      && Eager(VmOf(sys')) == Eager(VmOf(sys))[c := Eager(VmOf(sys))[p]]
  {
    assert mk.bytes == sys.ph.bytes && ViewOf(sys.ph.words, sys.slots[c]) == [] by {
      hide Spaces, Lent, ShareMaps;
    }
    hide Spaces, Lent, ShareInv, Reflagged, Apart, SlotsOk, ViewOf, Total, Count;
    var sys' := Sys(mk.(fr := fr), sys.kernel, sys.slots[c := child]);
    ForkedViews(sys, p, c, cpd, sh, mk, ptes, child);
    AllocHeld(mk.fr, 1);
    hide AllocRun;
    forall f: nat | f < MAX_PAGES && Total(VmOf(sys).views, f) > 0
      ensures fr.refs[f] == sys.ph.fr.refs[f] + Count(VmOf(sys).views[p], f)
    {
      UserFrame(sys, f);
      ForkRefs(sys, p, cpd, sh, mk, ptes, child.kstack, fr, f);
    }
    ForkSimulates(VmOf(sys), VmOf(sys'), p, c);
  }

  lemma ForkSpaces(sys: Sys, p: nat, c: nat, cpd: nat, sh: Phys, mk: Phys, ptes: seq<Pte>, child: Slot, fr: Frames)
    requires Forked(sys, p, cpd, sh, mk, ptes) && ForkDone(sys, p, c, mk, ptes, child, fr) && child.pd == cpd
    ensures SpacesOf(sys.slots[c := child]) == SpacesOf(sys.slots) + {cpd}
    ensures Spaces(mk.(fr := fr), SpacesOf(sys.slots) + {cpd})
  {
    hide ShareInv, Lent, Apart, SlotsOk, Inv;
    SpacesOfAdd(sys.slots, c, child);
    AllocHeld(mk.fr, 1);
    hide AllocRun;
    var spaces := SpacesOf(sys.slots) + {cpd};
    forall q, f | q in spaces && f in SpaceFrames(mk.words, q) ensures Held(fr, f) {
      SpaceFramesHeld(mk, spaces, q, f);
    }
    HeldStays(mk, mk.(fr := fr), spaces);
  }

  lemma SpacesOfAdd(slots: seq<Slot>, c: nat, child: Slot)
    requires c < |slots| && !slots[c].User? && child.User?
    ensures SpacesOf(slots[c := child]) == SpacesOf(slots) + {child.pd}
  {
    assert slots[c := child][c].User?;
    forall q | q in SpacesOf(slots) ensures q in SpacesOf(slots[c := child]) {
      var i := SpaceOwner(slots, q);
      assert slots[c := child][i].User?;
    }
  }

  /** Frames no process maps before fork: the new space's, and the new kernel stack. */
  lemma ForkFreshFrames(sys: Sys, p: nat, cpd: nat, sh: Phys, mk: Phys, ptes: seq<Pte>, ks: nat)
    requires Forked(sys, p, cpd, sh, mk, ptes) && Valid(mk.fr)
    requires AllocRun(mk.fr, 1).1 != 0 && ks == AllocRun(mk.fr, 1).1 / PAGE_SIZE
    ensures Total(Views(sys.ph.words, sys.slots), ks) == 0
    ensures forall q :: q in SpacesOf(sys.slots) + {cpd} ==> ks !in SpaceFrames(mk.words, q)
    ensures forall f :: f in SpaceFrames(mk.words, cpd) ==> Total(Views(sys.ph.words, sys.slots), f) == 0
  {
    hide Forked, SpaceFrames, Spaces, AllocRun, Views, Total, Lent, Valid, Held;
    ForkedFrames(sys, p, cpd, sh, mk, ptes);
    FreshRun(mk.fr, ks);
    LentUnused(sys.ph.fr, mk.fr, SpaceFrames(mk.words, cpd), multiset(FramesIn(ptes)), ks);
    UnusedIsUnnamed(sys, ks);
    forall q | q in SpacesOf(sys.slots) + {cpd} ensures ks !in SpaceFrames(mk.words, q) {
      if ks in SpaceFrames(mk.words, q) {
        SpaceFramesHeld(mk, SpacesOf(sys.slots) + {cpd}, q, ks);
        HeldUsed(mk.fr, ks);
      }
    }
    forall f | f in SpaceFrames(mk.words, cpd) ensures Total(Views(sys.ph.words, sys.slots), f) == 0 {
      SpaceFramesHeld(mk, SpacesOf(sys.slots) + {cpd}, cpd, f);
      HeldUsed(mk.fr, f);
      LentTaken(sys.ph.fr, mk.fr, SpaceFrames(mk.words, cpd), multiset(FramesIn(ptes)), f);
      UnusedIsUnnamed(sys, f);
    }
  }

  lemma ForkedFrames(sys: Sys, p: nat, cpd: nat, sh: Phys, mk: Phys, ptes: seq<Pte>)
    requires Forked(sys, p, cpd, sh, mk, ptes)
    ensures Ok(sys) && Spaces(mk, SpacesOf(sys.slots) + {cpd}) && Shape(sys.ph.fr) && Shape(mk.fr)
    ensures Lent(sys.ph.fr, mk.fr, SpaceFrames(mk.words, cpd), multiset(FramesIn(ptes)))
  {
    hide SpaceFrames, Lent, ShareMaps, SlotsOk, Apart, Inv;
  }

  lemma FreshRun(fr: Frames, ks: nat)
    requires Valid(fr) && AllocRun(fr, 1).1 != 0 && ks == AllocRun(fr, 1).1 / PAGE_SIZE
    ensures ks < MAX_PAGES && Shape(fr) && !fr.used[ks]
  {
    AllocExact(fr, 1);
  }

  lemma HeldUsed(fr: Frames, f: nat)
    requires Held(fr, f)
    ensures f < MAX_PAGES && Shape(fr) && fr.used[f]
  {}

  lemma LentUnused(a: Frames, b: Frames, taken: set<nat>, shared: multiset<nat>, f: nat)
    requires Lent(a, b, taken, shared) && f < MAX_PAGES && Shape(a) && Shape(b) && !b.used[f]
    ensures !a.used[f]
  {}

  lemma LentTaken(a: Frames, b: Frames, taken: set<nat>, shared: multiset<nat>, f: nat)
    requires Lent(a, b, taken, shared) && f < MAX_PAGES && Shape(a) && f in taken
    ensures !a.used[f]
  {}

  /** A kernel stack of the old state is kept out of everything fork touched. */
  lemma ForkOldStack(sys: Sys, p: nat, c: nat, cpd: nat, sh: Phys, mk: Phys, ptes: seq<Pte>, child: Slot, fr: Frames,
                     i: nat)
    requires Forked(sys, p, cpd, sh, mk, ptes) && ForkDone(sys, p, c, mk, ptes, child, fr)
    requires i < |sys.slots| && sys.slots[i].User?
    ensures Held(fr, sys.slots[i].kstack) && sys.slots[i].kstack != child.kstack
    ensures Total(Views(sys.ph.words, sys.slots), sys.slots[i].kstack) == 0
    ensures forall q :: q in SpacesOf(sys.slots) + {cpd} ==> sys.slots[i].kstack !in SpaceFrames(mk.words, q)
  {
    hide Lent, Spaces, SpaceFrames, Inv, SlotsOk, ShareMaps, ViewOf;
    var views, f := Views(sys.ph.words, sys.slots), sys.slots[i].kstack;
    assert Held(sys.ph.fr, f) && Total(views, f) == 0;
    TotalCovers(views, p, f);
    ForkRefs(sys, p, cpd, sh, mk, ptes, child.kstack, fr, f);
    hide AllocRun;
    forall q | q in SpacesOf(sys.slots) + {cpd} ensures f !in SpaceFrames(mk.words, q) {
      if q in SpacesOf(sys.slots) {
        var j := SpaceOwner(sys.slots, q);
      }
    }
  }

  lemma ForkSlots(sys: Sys, p: nat, c: nat, cpd: nat, sh: Phys, mk: Phys, ptes: seq<Pte>, child: Slot, fr: Frames)
    requires Forked(sys, p, cpd, sh, mk, ptes) && ForkDone(sys, p, c, mk, ptes, child, fr) && child.pd == cpd
    ensures SlotsOk(mk.words, sys.slots[c := child])
  {
    hide Spaces, Lent, Apart, ShareInv, Reflagged, ViewOf, TableOk, AllocRun, Inv, ListOk;
    ForkedViews(sys, p, c, cpd, sh, mk, ptes, child);
    forall i | 0 <= i < |sys.slots| && sys.slots[i].User?
      ensures sys.slots[i].pd != child.pd && sys.slots[i].kstack != child.kstack
    {
      ForkOldStack(sys, p, c, cpd, sh, mk, ptes, child, fr, i);
    }
    assert SlotShape(sys.slots[p]) && |child.pages| == |child.vas|;
  }

  lemma ForkApart(sys: Sys, p: nat, c: nat, cpd: nat, sh: Phys, mk: Phys, ptes: seq<Pte>, child: Slot, fr: Frames)
    requires Forked(sys, p, cpd, sh, mk, ptes) && ForkDone(sys, p, c, mk, ptes, child, fr) && child.pd == cpd
    ensures Apart(mk.(fr := fr), sys.slots[c := child])
  {
    hide SpaceFrames, Forked, AllocRun, Views, Total, Held, Valid;
    var slots' := sys.slots[c := child];
    var views, views' := Views(sys.ph.words, sys.slots), Views(mk.words, slots');
    ForkFreshFrames(sys, p, cpd, sh, mk, ptes, child.kstack);
    StackHeld(mk.fr);
    forall f: nat | Total(views, f) == 0
      ensures Total(views', f) == 0
    {
      StillNobody(sys, p, c, cpd, sh, mk, ptes, child, f);
    }
    forall i | 0 <= i < |slots'| && slots'[i].User?
      ensures Held(fr, slots'[i].kstack) && Total(views', slots'[i].kstack) == 0
      ensures forall q :: q in SpacesOf(sys.slots) + {cpd} ==> slots'[i].kstack !in SpaceFrames(mk.words, q)
      ensures slots'[i].pd in SpacesOf(sys.slots) + {cpd}
    {
      if i != c { ForkOldStack(sys, p, c, cpd, sh, mk, ptes, child, fr, i); }
    }
    forall i, f | 0 <= i < |slots'| && slots'[i].User? && f in SpaceFrames(mk.words, slots'[i].pd)
      ensures Total(views', f) == 0
    {
      if i != c { OldTables(sys, p, cpd, sh, mk, ptes, i, f); }
    }
  }

  lemma StackHeld(fr: Frames)
    requires Valid(fr) && AllocRun(fr, 1).1 != 0
    ensures Held(AllocRun(fr, 1).0, AllocRun(fr, 1).1 / PAGE_SIZE)
  {
    AllocHeld(fr, 1);
  }

  /** A frame nobody named before the fork nobody names after it. */
  lemma StillNobody(sys: Sys, p: nat, c: nat, cpd: nat, sh: Phys, mk: Phys, ptes: seq<Pte>, child: Slot, f: nat)
    requires Forked(sys, p, cpd, sh, mk, ptes) && c < |sys.slots| && sys.slots[c].Unused?
    requires p < |sys.slots| && sys.slots[p].User? && child.User? && child.pd == cpd && child.vas == sys.slots[p].vas
    requires Total(Views(sys.ph.words, sys.slots), f) == 0
    ensures Total(Views(mk.words, sys.slots[c := child]), f) == 0
  {
    hide Forked, Lookup;
    ForkedViews(sys, p, c, cpd, sh, mk, ptes, child);
    ForkTotal(Views(sys.ph.words, sys.slots), p, c, f);
  }

  lemma OldTables(sys: Sys, p: nat, cpd: nat, sh: Phys, mk: Phys, ptes: seq<Pte>, i: nat, f: nat)
    requires Forked(sys, p, cpd, sh, mk, ptes) && i < |sys.slots| && sys.slots[i].User?
    requires f in SpaceFrames(mk.words, sys.slots[i].pd)
    ensures Total(Views(sys.ph.words, sys.slots), f) == 0
  {
    assert sys.slots[i].pd in SpacesOf(sys.slots);
    ForkFramesSame(sys, p, cpd, sh, mk, ptes, sys.slots[i].pd);
    hide SpaceFrames, ShareInv, Reflagged, Spaces, SlotsOk, Inv, Views, Total;
  }

  lemma ForkFramesSame(sys: Sys, p: nat, cpd: nat, sh: Phys, mk: Phys, ptes: seq<Pte>, q: nat)
    requires Forked(sys, p, cpd, sh, mk, ptes) && q in SpacesOf(sys.slots)
    ensures SpaceFrames(mk.words, q) == SpaceFrames(sys.ph.words, q)
  {
    hide SpaceFrames, Lent, Spaces;
  }

  // ---------------------------------------------------------------- fork fails

  lemma ReleaseStep(fr0: Frames, fr: Frames, taken: set<nat>, all: seq<nat>, n: nat)
    requires Valid(fr) && n < |all| && Lent(fr0, fr, taken, multiset(all[n..]))
    ensures Valid(FreePage(fr, all[n] * PAGE_SIZE))
    ensures Lent(fr0, FreePage(fr, all[n] * PAGE_SIZE), taken, multiset(all[n + 1..]))
  {
    FreeValid(fr, all[n] * PAGE_SIZE);
    assert all[n..] == [all[n]] + all[n + 1..];
    FreeShared(fr0, fr, taken, multiset(all[n..]), all[n]);
    hide Lent, FreePage;
    assert multiset(all[n..]) - multiset{all[n]} == multiset(all[n + 1..]);
  }

  lemma ValidShape(fr: Frames)
    requires Valid(fr)
    ensures Shape(fr)
  {}

  lemma {:induction false} ReleaseLoop(fr0: Frames, fr: Frames, taken: set<nat>, ptes: seq<Pte>, n: nat)
    requires Valid(fr0) && Valid(fr) && Lent(fr0, fr, taken, multiset(FramesIn(ptes))) && n <= |ptes|
    ensures Valid(ReleaseUpTo(fr, ptes, n))
    ensures Lent(fr0, ReleaseUpTo(fr, ptes, n), taken, multiset(FramesIn(ptes)[n..]))
  {
    hide Lent, Valid, FreePage;
    assert Shape(fr) by { ValidShape(fr); }
    if n == 0 {
      assert FramesIn(ptes)[0..] == FramesIn(ptes);
    } else {
      ReleaseLoop(fr0, fr, taken, ptes, n - 1);
      ReleaseStep(fr0, ReleaseUpTo(fr, ptes, n - 1), taken, FramesIn(ptes), n - 1);
    }
  }

  lemma ReleaseKeepsSpaces(ph0: Phys, spaces: set<nat>, cpd: nat, mid: Phys, ptes: seq<Pte>)
    requires ShareFrames(ph0, spaces, cpd, mid, ptes)
    ensures var fr := ReleaseUpTo(mid.fr, ptes, |ptes|);
      Lent(ph0.fr, fr, SpaceFrames(mid.words, cpd), multiset{}) && Spaces(mid.(fr := fr), spaces + {cpd})
  {
    hide Lent, Spaces, SpaceFrames, ReleaseUpTo, Held, Valid, ShareFrames, PhysOk;
    SharedParts(ph0, spaces, cpd, mid, ptes);
    var fr := ReleaseUpTo(mid.fr, ptes, |ptes|);
    ReleaseLoop(ph0.fr, mid.fr, SpaceFrames(mid.words, cpd), ptes, |ptes|);
    assert FramesIn(ptes)[|ptes|..] == [];
    forall q, f | q in spaces + {cpd} && f in SpaceFrames(mid.words, q) ensures Held(fr, f) {
      SpaceFramesHeld(mid, spaces + {cpd}, q, f);
      HeldAtEnd(ph0, spaces, cpd, mid, ptes, fr, q, f);
    }
    OtherFrames(mid, fr);
    HeldStays(mid, mid.(fr := fr), spaces + {cpd});
  }

  lemma SharedParts(ph0: Phys, spaces: set<nat>, cpd: nat, mid: Phys, ptes: seq<Pte>)
    requires ShareFrames(ph0, spaces, cpd, mid, ptes)
    ensures Valid(ph0.fr) && Valid(mid.fr) && Shape(mid.fr) && PhysOk(mid) && Spaces(mid, spaces + {cpd})
    ensures Lent(ph0.fr, mid.fr, SpaceFrames(mid.words, cpd), multiset(FramesIn(ptes)))
  {
    hide Lent, SpaceFrames;
  }

  lemma OtherFrames(ph: Phys, fr: Frames)
    requires PhysOk(ph) && Valid(fr)
    ensures PhysOk(ph.(fr := fr))
  {}

  /** A table frame held by one owner after the retains was held so before them, or is of the new space. */
  lemma HeldAtEnd(ph0: Phys, spaces: set<nat>, cpd: nat, mid: Phys, ptes: seq<Pte>, fr: Frames, q: nat, f: nat)
    requires ShareFrames(ph0, spaces, cpd, mid, ptes) && q in spaces + {cpd} && f in SpaceFrames(mid.words, q)
    requires Held(mid.fr, f) && Lent(ph0.fr, fr, SpaceFrames(mid.words, cpd), multiset{})
    ensures Held(fr, f)
  {
    hide SpaceFrames, Spaces;
  }

  /** Abandoning a half-made child restores every allocator field and every other process's tables. */
  lemma AbandonRestores(ph0: Phys, spaces: set<nat>, cpd: nat, mid: Phys, ptes: seq<Pte>)
    requires ShareFrames(ph0, spaces, cpd, mid, ptes) && cpd !in spaces
    ensures var r := Abandon(mid, ptes, cpd);
      && r.fr == ph0.fr && Spaces(r, spaces) && r.bytes == ph0.bytes
      && (forall q :: q in spaces ==> SpaceFrames(r.words, q) == SpaceFrames(ph0.words, q))
      && (forall q, vb :: q in spaces && 0 <= vb < USER_LIMIT ==> Lookup(r.words, q, vb) == Lookup(mid.words, q, vb))
  {
    var m := mid.(fr := ReleaseUpTo(mid.fr, ptes, |ptes|));
    ReleaseKeepsSpaces(ph0, spaces, cpd, mid, ptes);
    DestroyRestores(ph0.fr, m, spaces + {cpd}, cpd);
    DestroyKeepsOthers(m, spaces + {cpd}, cpd);
    assert spaces + {cpd} - {cpd} == spaces;
    forall q | q in spaces
      ensures SpaceFrames(DestroySpace(m, cpd).words, q) == SpaceFrames(ph0.words, q)
    {
      DestroyKeepsFrames(m, spaces + {cpd}, cpd, q);
    }
  }

  /** Each entry of `to` is the old entry, or the old entry shared. */
  ghost predicate Softened(from: seq<Pte>, to: seq<Pte>) {
    |to| == |from| && forall k :: 0 <= k < |from| ==> to[k] == from[k] || to[k] == ChildPte(from[k])
  }

  /** The parent's tables after a failed fork: some writable pages left copy-on-write, nothing else. */
  ghost predicate Withdrawn(sys: Sys, r: Phys, p: nat, ptes: seq<Pte>, to: seq<Pte>) {
    && p < |sys.slots| && sys.slots[p].User? && |ptes| == |sys.slots[p].vas| && Softened(ptes, to)
    && r.fr == sys.ph.fr && r.bytes == sys.ph.bytes && Spaces(r, SpacesOf(sys.slots))
    && (forall q :: q in SpacesOf(sys.slots) ==> SpaceFrames(r.words, q) == SpaceFrames(sys.ph.words, q))
    && (forall k :: 0 <= k < |ptes| ==> Lookup(sys.ph.words, sys.slots[p].pd, sys.slots[p].vas[k]) == Some(ptes[k]))
    && (forall k :: 0 <= k < |ptes| ==> Lookup(r.words, sys.slots[p].pd, sys.slots[p].vas[k]) == Some(to[k]))
    && (forall q, vb :: q in SpacesOf(sys.slots) && q != sys.slots[p].pd && 0 <= vb < USER_LIMIT ==>
          Lookup(r.words, q, vb) == Lookup(sys.ph.words, q, vb))
    && (forall vb: nat :: vb < USER_LIMIT ==>
          Lookup(r.words, sys.slots[p].pd, vb).Some? == Lookup(sys.ph.words, sys.slots[p].pd, vb).Some?)
  }

  function WithPtes(m: seq<Mapping>, to: seq<Pte>): seq<Mapping>
    requires |to| == |m|
  {
    seq(|m|, k requires 0 <= k < |m| => m[k].(pte := to[k]))
  }

  lemma WithdrawnViews(sys: Sys, r: Phys, p: nat, ptes: seq<Pte>, to: seq<Pte>)
    requires Ok(sys) && Withdrawn(sys, r, p, ptes, to)
    ensures var views := Views(sys.ph.words, sys.slots);
      Views(r.words, sys.slots) == views[p := WithPtes(views[p], to)]
    ensures TablesOk(r.words, sys.slots)
  {
    hide Spaces, SpaceFrames, Inv, Apart;
    forall i | 0 <= i < |sys.slots| && i != p
      ensures ViewOf(r.words, sys.slots[i]) == ViewOf(sys.ph.words, sys.slots[i])
      ensures sys.slots[i].User? ==> TableOk(r.words, sys.slots[i].pd, sys.slots[i].vas)
    {
      assert SlotShape(sys.slots[i]);
      if sys.slots[i].User? {
        assert TableOk(sys.ph.words, sys.slots[i].pd, sys.slots[i].vas);
        assert sys.slots[i].pd != sys.slots[p].pd;
      }
      ViewKept(sys.ph.words, r.words, sys.slots[i]);
    }
    assert TableOk(r.words, sys.slots[p].pd, sys.slots[p].vas) by {
      assert TableOk(sys.ph.words, sys.slots[p].pd, sys.slots[p].vas);
    }
    hide TableOk;
    assert ViewOf(r.words, sys.slots[p]) == WithPtes(ViewOf(sys.ph.words, sys.slots[p]), to);
  }

  lemma WithdrawnOk(sys: Sys, r: Phys, p: nat, ptes: seq<Pte>, to: seq<Pte>)
    requires Ok(sys) && Withdrawn(sys, r, p, ptes, to)
    ensures Ok(sys.(ph := r)) && Eager(VmOf(sys.(ph := r))) == Eager(VmOf(sys))
  {
    hide Spaces, ViewOf, Lookup, Views, Total, SpaceFrames, Inv, SlotsOk, Apart, TablesOk, Eager;
    var sys' := sys.(ph := r);
    var views := Views(sys.ph.words, sys.slots);
    ViewLength(sys.ph.words, sys.slots, p);
    WithdrawnViews(sys, r, p, ptes, to);
    var m' := WithPtes(views[p], to);
    forall k | 0 <= k < |m'|
      ensures m'[k] == views[p][k] || m'[k] == ForkedView(views[p])[k]
    {
      ListedFrame(sys, p, k);
    }
    ReflagSimulates(VmOf(sys), VmOf(sys'), p, m');
    forall f: nat ensures Total(Views(r.words, sys.slots), f) == Total(views, f) {
      SameFramesCount(views[p], m', f);
      TotalUpdate(views, p, m', f);
    }
    WithdrawnApart(sys, r);
    WithdrawnSlots(sys, r);
  }

  /** Where frames and counts are the same, tables and stacks stay apart from user frames. */
  lemma WithdrawnApart(sys: Sys, r: Phys)
    requires Ok(sys) && r.fr == sys.ph.fr
    requires forall f: nat :: Total(Views(r.words, sys.slots), f) == Total(Views(sys.ph.words, sys.slots), f)
    requires forall q :: q in SpacesOf(sys.slots) ==> SpaceFrames(r.words, q) == SpaceFrames(sys.ph.words, q)
    ensures Apart(r, sys.slots)
  {
    hide SpaceFrames, SlotsOk, Inv, Spaces, Views, Total;
    assert forall i :: 0 <= i < |sys.slots| && sys.slots[i].User? ==> sys.slots[i].pd in SpacesOf(sys.slots);
  }

  lemma ViewLength(words: seq<Table>, slots: seq<Slot>, p: nat)
    requires p < |slots| && slots[p].User?
    ensures |Views(words, slots)[p]| == |slots[p].vas|
  {}

  lemma WithdrawnSlots(sys: Sys, r: Phys)
    requires Ok(sys) && TablesOk(r.words, sys.slots)
    ensures SlotsOk(r.words, sys.slots)
  {
    hide TablesOk, Spaces, Apart, Inv, ListOk;
  }

  // ---------------------------------------------------------------- fork as a whole

  /** What the parent maps, page by page. */
  function EntriesOf(words: seq<Table>, slot: Slot): seq<Pte>
    requires slot.User?
  {
    seq(|slot.vas|, k requires 0 <= k < |slot.vas| => PteAt(words, slot.pd, slot.vas[k]))
  }

  /** A child with the parent's list in slot c, and every byte the parent sees. */
  ghost predicate ForkSucceeded(sys: Sys, sys': Sys, p: nat, c: nat) {
    && c < |sys.slots| && sys.slots[c].Unused? && |sys'.slots| == |sys.slots| && sys'.slots[c].User?
    && p < |sys.slots| && sys.slots[p].User?
    && sys'.slots == sys.slots[c := sys'.slots[c]] && sys'.slots[c].vas == sys.slots[p].vas
    && sys'.slots[c].pages == FramesIn(EntriesOf(sys.ph.words, sys.slots[p]))
    && |sys.ph.bytes| == MAX_PAGES && |sys'.ph.bytes| == MAX_PAGES
    && Eager(VmOf(sys')) == Eager(VmOf(sys))[c := Eager(VmOf(sys))[p]]
  }

  /** A failed fork gives back every frame and count; the most it leaves behind is a page of the
      parent that was writable and is now copy-on-write with one owner. */
  ghost predicate ForkUndone(sys: Sys, sys': Sys, p: nat) {
    && sys'.slots == sys.slots && sys'.ph.fr == sys.ph.fr && sys'.ph.bytes == sys.ph.bytes
    && (forall i :: 0 <= i < |sys.slots| && i != p ==> VmOf(sys').views[i] == VmOf(sys).views[i])
    && p < |sys.slots| && |VmOf(sys').views[p]| == |VmOf(sys).views[p]|
    && (forall k :: 0 <= k < |VmOf(sys).views[p]| ==>
          var m: Mapping := VmOf(sys).views[p][k]; var m': Mapping := VmOf(sys').views[p][k];
          m' == m || (m.pte.flags.writable && m' == m.(pte := ChildPte(m.pte))
                      && m.pte.frame < |sys'.ph.fr.refs| && sys'.ph.fr.refs[m.pte.frame] == 1))
  }

  lemma WithdrawnUndone(sys: Sys, r: Phys, p: nat, ptes: seq<Pte>, to: seq<Pte>)
    requires Ok(sys) && Withdrawn(sys, r, p, ptes, to)
    ensures ForkUndone(sys, sys.(ph := r), p)
  {
    var views: seq<seq<Mapping>> := Views(sys.ph.words, sys.slots);
    WithdrawnViews(sys, r, p, ptes, to);
    forall k: nat | k < |views[p]|
      ensures views[p][k].pte == ptes[k]
      ensures to[k] == ptes[k] || (ptes[k].flags.writable && ptes[k].frame < MAX_PAGES && r.fr.refs[ptes[k].frame] == 1)
    {
      ListedFrame(sys, p, k);
      UserFrame(sys, ptes[k].frame);
      if ptes[k].flags.writable {
        var m: Mapping := views[p][k];
        assert m.pte.flags.writable;
      }
    }
  }

  /** The sharing loop ran out of memory: nothing of the parent was touched yet. */
  lemma EarlyFailure(sys: Sys, p: nat, cpd: nat, sh: Phys, shared: seq<Pte>)
    requires Ok(sys) && p < |sys.slots| && sys.slots[p].User? && cpd !in SpacesOf(sys.slots)
    requires ShareInv(sys.ph, SpacesOf(sys.slots), sys.slots[p].pd, cpd, sys.slots[p].vas, sh, shared)
    ensures var all := EntriesOf(sys.ph.words, sys.slots[p]);
      Withdrawn(sys, Abandon(sh, shared, cpd), p, all, all)
  {
    hide Abandon, Spaces, SpaceFrames, Lent, Inv, Apart, Lookup;
    AbandonRestores(sys.ph, SpacesOf(sys.slots), cpd, sh, shared);
    assert TableOk(sys.ph.words, sys.slots[p].pd, sys.slots[p].vas) && SlotShape(sys.slots[p]);
    forall k | 0 <= k < |sys.slots[p].vas| ensures UserVa(sys.slots[p].vas[k]) {}
  }

  lemma ReflaggedFrames(ph0: Phys, spaces: set<nat>, cpd: nat, sh: Phys, mk: Phys, pd: nat, vas: seq<nat>,
                        ptes: seq<Pte>, to: seq<Pte>)
    requires ShareFrames(ph0, spaces, cpd, sh, ptes) && Reflagged(sh, mk, spaces + {cpd}, pd, vas, ptes, to)
    ensures ShareFrames(ph0, spaces, cpd, mk, ptes)
  {
    hide Spaces, SpaceFrames, Lent;
  }

  /** The kernel stack could not be allocated: marks are partly undone, shares entirely. */
  lemma LateFailure(sys: Sys, p: nat, cpd: nat, sh: Phys, mid: Phys, ptes: seq<Pte>, to: seq<Pte>)
    requires Ok(sys) && p < |sys.slots| && sys.slots[p].User? && cpd !in SpacesOf(sys.slots)
    requires ShareInv(sys.ph, SpacesOf(sys.slots), sys.slots[p].pd, cpd, sys.slots[p].vas, sh, ptes)
    requires |ptes| == |sys.slots[p].vas| && Softened(ptes, to)
    requires Reflagged(sh, mid, SpacesOf(sys.slots) + {cpd}, sys.slots[p].pd, sys.slots[p].vas, ptes, to)
    ensures Withdrawn(sys, Abandon(mid, ptes, cpd), p, ptes, to)
  {
    hide Abandon, Spaces, SpaceFrames, Lent, Inv, Apart, Lookup, TableOk;
    ReflaggedFrames(sys.ph, SpacesOf(sys.slots), cpd, sh, mid, sys.slots[p].pd, sys.slots[p].vas, ptes, to);
    AbandonRestores(sys.ph, SpacesOf(sys.slots), cpd, mid, ptes);
    assert SlotShape(sys.slots[p]);
    forall k | 0 <= k < |sys.slots[p].vas| ensures UserVa(sys.slots[p].vas[k]) {}
  }

  lemma ForkStart(sys: Sys, p: nat, ph1: Phys, cpd: nat)
    requires Ok(sys) && p < |sys.slots| && sys.slots[p].User?
    requires (ph1, cpd) == CreateSpace(sys.ph, sys.kernel) && cpd != 0
    ensures PhysOk(ph1) && cpd !in SpacesOf(sys.slots)
    ensures var sh := ShareUpTo(ph1, sys.slots[p].pd, cpd, sys.slots[p].vas, |sys.slots[p].vas|);
      ShareInv(sys.ph, SpacesOf(sys.slots), sys.slots[p].pd, cpd, sys.slots[p].vas, sh.ph, sh.ptes)
  {
    var slot := sys.slots[p];
    ShareStart(sys.ph, SpacesOf(sys.slots), sys.kernel, slot.pd, slot.vas, ph1, cpd);
    ParentShareable(sys, p);
    assert SlotShape(slot);
    hide ShareInv, CreateSpace, AllShareable, Apart, Inv;
    ShareLoop(sys.ph, SpacesOf(sys.slots), slot.pd, cpd, slot.vas, ph1, |slot.vas|);
  }

  lemma ForkMarked(sys: Sys, p: nat, cpd: nat, sh: Sharing)
    requires Ok(sys) && p < |sys.slots| && sys.slots[p].User? && cpd !in SpacesOf(sys.slots)
    requires |sh.ptes| == |sys.slots[p].vas|
    requires ShareInv(sys.ph, SpacesOf(sys.slots), sys.slots[p].pd, cpd, sys.slots[p].vas, sh.ph, sh.ptes)
    ensures var slot := sys.slots[p];
      var mk := MarkUpTo(sh.ph, slot.pd, slot.vas, sh.ptes, |slot.vas|);
      && mk.ok && mk.cowed == WritableCount(sh.ptes, |sh.ptes|)
      && Reflagged(sh.ph, mk.ph, SpacesOf(sys.slots) + {cpd}, slot.pd, slot.vas, sh.ptes,
            MarkedPtes(sh.ptes, |sh.ptes|))
      && ListOk(slot.vas) && sh.ptes == EntriesOf(sys.ph.words, slot)
  {
    hide SpaceFrames, Lent, Inv, Apart, Lookup, Tables, Blocks, Reflagged;
    var slot := sys.slots[p];
    assert SlotShape(slot);
    assert forall k :: 0 <= k < |slot.vas| ==> UserVa(slot.vas[k]);
    assert sh.ptes == EntriesOf(sys.ph.words, slot);
    ReflagStart(sh.ph, SpacesOf(sys.slots) + {cpd}, slot.pd, slot.vas, sh.ptes);
    hide Ok, ShareInv, EntriesOf, Spaces;
    MarkLoop(sh.ph, SpacesOf(sys.slots) + {cpd}, slot.pd, slot.vas, sh.ptes, |slot.vas|);
  }

  lemma ForkCompletes(sys: Sys, p: nat, c: nat, cpd: nat, sh: Sharing, mk: Phys, child: Slot, fr: Frames)
    requires Ok(sys) && p < |sys.slots| && sys.slots[p].User? && cpd !in SpacesOf(sys.slots)
    requires |sh.ptes| == |sys.slots[p].vas| && sh.ptes == EntriesOf(sys.ph.words, sys.slots[p])
    requires Forked(sys, p, cpd, sh.ph, mk, sh.ptes)
    requires ForkDone(sys, p, c, mk, sh.ptes, child, fr) && child.pd == cpd
    ensures var sys' := Sys(mk.(fr := fr), sys.kernel, sys.slots[c := child]);
      Ok(sys') && ForkSucceeded(sys, sys', p, c)
  {
    hide Forked, Spaces, SlotsOk, Apart, Inv, Eager, Views, EntriesOf, AllocRun, Valid, ShareInv, Reflagged, VmOf;
    DoneBytes(sys, p, cpd, sh.ph, mk, sh.ptes);
    ForkSimulation(sys, p, c, cpd, sh.ph, mk, sh.ptes, child, fr);
    ForkSpaces(sys, p, c, cpd, sh.ph, mk, sh.ptes, child, fr);
    ForkSlots(sys, p, c, cpd, sh.ph, mk, sh.ptes, child, fr);
    ForkApart(sys, p, c, cpd, sh.ph, mk, sh.ptes, child, fr);
    SlotTable(sys);
  }

  lemma DoneBytes(sys: Sys, p: nat, cpd: nat, sh: Phys, mk: Phys, ptes: seq<Pte>)
    requires Forked(sys, p, cpd, sh, mk, ptes)
    ensures |sys.ph.bytes| == |mk.bytes| == MAX_PAGES && |sys.kernel| == 4
  {}

  lemma SlotTable(sys: Sys)
    requires Ok(sys)
    ensures SlotsOk(sys.ph.words, sys.slots)
  {}

  lemma ForkFails(sys: Sys, p: nat, r: Phys, ptes: seq<Pte>, to: seq<Pte>)
    requires Ok(sys) && Withdrawn(sys, r, p, ptes, to)
    ensures Ok(sys.(ph := r)) && Eager(VmOf(sys.(ph := r))) == Eager(VmOf(sys)) && ForkUndone(sys, sys.(ph := r), p)
  {
    WithdrawnOk(sys, r, p, ptes, to);
    WithdrawnUndone(sys, r, p, ptes, to);
  }

  /** A child that sees every byte its parent sees while nobody else sees any change; or nothing taken,
      every process seeing what it saw, and every formerly writable page of the parent writable or
      copy-on-write with one owner. */
  ghost predicate ForkOutcome(sys: Sys, p: nat, r: (Sys, Option<nat>)) {
    && Ok(sys) && Ok(r.0)
    && (r.1.Some? ==> ForkSucceeded(sys, r.0, p, r.1.value))
    && (r.1.None? ==> Eager(VmOf(r.0)) == Eager(VmOf(sys)) && (r.0 == sys || ForkUndone(sys, r.0, p)))
  }

  lemma ForkMarkedCase(sys: Sys, p: nat, c: nat, cpd: nat, sh: Sharing)
    requires Ok(sys) && p < |sys.slots| && sys.slots[p].User? && cpd !in SpacesOf(sys.slots)
    requires c < |sys.slots| && sys.slots[c].Unused? && |sh.ptes| == |sys.slots[p].vas|
    requires ShareInv(sys.ph, SpacesOf(sys.slots), sys.slots[p].pd, cpd, sys.slots[p].vas, sh.ph, sh.ptes)
    requires PhysOk(sh.ph)
    ensures ForkOutcome(sys, p, FinishFork(sys, p, c, cpd, sh))
  {
    hide Spaces, SlotsOk, Apart, Inv, ShareInv, Abandon, ForkUndone, ForkSucceeded, Reflagged, Eager, VmOf, MarkUpTo;
    hide Valid;
    var parent := sys.slots[p];
    ForkMarked(sys, p, cpd, sh);
    var mk := MarkUpTo(sh.ph, parent.pd, parent.vas, sh.ptes, |parent.vas|);
    var (fr, ks) := AllocRun(mk.ph.fr, 1);
    if ks == 0 {
      ForkRestoredCase(sys, p, cpd, sh, mk.ph, mk.cowed);
    } else {
      var child := User(cpd, parent.vas, FramesIn(sh.ptes), ks / PAGE_SIZE);
      ForkCompletes(sys, p, c, cpd, sh, mk.ph, child, fr);
    }
  }

  lemma RestoreStarts(sys: Sys, p: nat, ph: Phys, mk: Phys, spaces: set<nat>, ptes: seq<Pte>, cowed: nat)
    requires p < |sys.slots| && sys.slots[p].User? && cowed <= |ptes|
    requires Reflagged(ph, mk, spaces, sys.slots[p].pd, sys.slots[p].vas, ptes, MarkedPtes(ptes, |ptes|))
    ensures Shape(mk.fr) && sys.slots[p].pd in SpacesOf(sys.slots)
    ensures MarkedPtes(ptes, |ptes|) == RestoredPtes(ptes, 0) && Softened(ptes, RestoredPtes(ptes, cowed))
  {
    hide Blocks, Tables, Lookup, SpaceFrames;
  }

  lemma ForkRestoredCase(sys: Sys, p: nat, cpd: nat, sh: Sharing, mk: Phys, cowed: nat)
    requires Ok(sys) && p < |sys.slots| && sys.slots[p].User? && cpd !in SpacesOf(sys.slots)
    requires |sh.ptes| == |sys.slots[p].vas| && ListOk(sys.slots[p].vas) && cowed <= |sh.ptes|
    requires ShareInv(sys.ph, SpacesOf(sys.slots), sys.slots[p].pd, cpd, sys.slots[p].vas, sh.ph, sh.ptes)
    requires Reflagged(sh.ph, mk, SpacesOf(sys.slots) + {cpd}, sys.slots[p].pd, sys.slots[p].vas, sh.ptes,
      MarkedPtes(sh.ptes, |sh.ptes|))
    ensures var r := Abandon(RestoreUpTo(mk, sys.slots[p].pd, sys.slots[p].vas, sh.ptes, cowed), sh.ptes, cpd);
      && Ok(sys.(ph := r)) && Eager(VmOf(sys.(ph := r))) == Eager(VmOf(sys)) && ForkUndone(sys, sys.(ph := r), p)
      && Withdrawn(sys, r, p, sh.ptes, RestoredPtes(sh.ptes, cowed))
  {
    hide *;
    var slot := sys.slots[p];
    RestoreStarts(sys, p, sh.ph, mk, SpacesOf(sys.slots) + {cpd}, sh.ptes, cowed);
    RestoreLoop(sh.ph, mk, SpacesOf(sys.slots) + {cpd}, slot.pd, slot.vas, sh.ptes, cowed);
    var mid := RestoreUpTo(mk, slot.pd, slot.vas, sh.ptes, cowed);
    LateFailure(sys, p, cpd, sh.ph, mid, sh.ptes, RestoredPtes(sh.ptes, cowed));
    ForkFails(sys, p, Abandon(mid, sh.ptes, cpd), sh.ptes, RestoredPtes(sh.ptes, cowed));
  }

  lemma ForkIntoCorrect(sys: Sys, p: nat, c: nat, ph1: Phys, cpd: nat)
    requires Ok(sys) && p < |sys.slots| && sys.slots[p].User? && c < |sys.slots| && sys.slots[c].Unused?
    requires (ph1, cpd) == CreateSpace(sys.ph, sys.kernel) && cpd != 0
    ensures PhysOk(ph1) && ForkOutcome(sys, p, ForkInto(sys, p, c, ph1, cpd))
  {
    ForkStart(sys, p, ph1, cpd);
    hide Ok, FinishFork, ForkOutcome, Abandon, ShareInv, CreateSpace, ShareUpTo, ForkUndone, Eager, VmOf;
    var parent := sys.slots[p];
    var sh := ShareUpTo(ph1, parent.pd, cpd, parent.vas, |parent.vas|);
    if sh.ok {
      ForkMarkedCase(sys, p, c, cpd, sh);
    } else {
      EarlyFailure(sys, p, cpd, sh.ph, sh.ptes);
      var all, r := EntriesOf(sys.ph.words, parent), Abandon(sh.ph, sh.ptes, cpd);
      ForkFails(sys, p, r, all, all);
      OutcomeUndone(sys, p, sys.(ph := r));
    }
  }

  lemma OutcomeUndone(sys: Sys, p: nat, sys': Sys)
    requires Ok(sys) && Ok(sys') && Eager(VmOf(sys')) == Eager(VmOf(sys)) && ForkUndone(sys, sys', p)
    ensures ForkOutcome(sys, p, (sys', None))
  {
    hide Ok, Eager, VmOf, ForkUndone;
  }

  /** Fork is correct whatever happens inside it. */
  lemma ForkCorrect(sys: Sys, p: nat)
    requires Ok(sys) && p < |sys.slots|
    ensures ForkOutcome(sys, p, ForkProcess(sys, p))
  {
    assert PhysOk(sys.ph);
    hide Ok, ForkInto, ForkSucceeded, ForkUndone, CreateSpace, Eager, VmOf;
    if p != 0 && sys.slots[p].User? && sys.slots[p].vas != [] && FreeSlot(sys.slots, 0).Some? {
      var (ph1, cpd) := CreateSpace(sys.ph, sys.kernel);
      if cpd != 0 {
        ForkIntoCorrect(sys, p, FreeSlot(sys.slots, 0).value, ph1, cpd);
      }
    }
  }

  // ---------------------------------------------------------------- facts about prefixes of the loops

  /** After any number of rounds both spaces can still be walked. */
  lemma SharePrefix(sys: Sys, p: nat, ph1: Phys, cpd: nat, n: nat)
    requires Ok(sys) && p < |sys.slots| && sys.slots[p].User? && n <= |sys.slots[p].vas|
    requires (ph1, cpd) == CreateSpace(sys.ph, sys.kernel) && cpd != 0 && PhysOk(ph1)
    ensures var sh := ShareUpTo(ph1, sys.slots[p].pd, cpd, sys.slots[p].vas, n);
      && Spaces(sh.ph, SpacesOf(sys.slots) + {cpd}) && sys.slots[p].pd in SpacesOf(sys.slots)
      && cpd + 5 <= MAX_PAGES
  {
    var slot := sys.slots[p];
    ShareStart(sys.ph, SpacesOf(sys.slots), sys.kernel, slot.pd, slot.vas, ph1, cpd);
    ParentShareable(sys, p);
    assert SlotShape(slot);
    hide CreateSpace, AllShareable, Apart, Inv, ShareMaps, Tables, Lent;
    ShareLoop(sys.ph, SpacesOf(sys.slots), slot.pd, cpd, slot.vas, ph1, n);
  }

  /** Once the sharing loop has failed, the remaining rounds do nothing. */
  lemma {:induction false} ShareStays(ph: Phys, ppd: nat, cpd: nat, vas: seq<nat>, n: nat, m: nat)
    requires PhysOk(ph) && n <= m <= |vas| && !ShareUpTo(ph, ppd, cpd, vas, n).ok
    ensures ShareUpTo(ph, ppd, cpd, vas, m) == ShareUpTo(ph, ppd, cpd, vas, n)
    decreases m
  {
    hide *;
    if n < m {
      ShareStays(ph, ppd, cpd, vas, n, m - 1);
      ShareStops(ph, ppd, cpd, vas, m);
    }
  }

  /** The marking loop never fails on a sound state, and the parent can be walked all along. */
  lemma MarkPrefix(sys: Sys, p: nat, cpd: nat, sh: Sharing, n: nat)
    requires Ok(sys) && p < |sys.slots| && sys.slots[p].User? && cpd !in SpacesOf(sys.slots)
    requires |sh.ptes| == |sys.slots[p].vas| && n <= |sh.ptes|
    requires ShareInv(sys.ph, SpacesOf(sys.slots), sys.slots[p].pd, cpd, sys.slots[p].vas, sh.ph, sh.ptes)
    ensures var slot := sys.slots[p];
      var mk := MarkUpTo(sh.ph, slot.pd, slot.vas, sh.ptes, n);
      && mk.ok && Spaces(mk.ph, SpacesOf(sys.slots) + {cpd}) && slot.pd in SpacesOf(sys.slots)
      && Reflagged(sh.ph, mk.ph, SpacesOf(sys.slots) + {cpd}, slot.pd, slot.vas, sh.ptes, MarkedPtes(sh.ptes, n))
      && ListOk(slot.vas)
  {
    hide SpaceFrames, Lent, Inv, Apart, Lookup, Tables, Blocks;
    var slot := sys.slots[p];
    assert SlotShape(slot);
    assert forall k :: 0 <= k < |slot.vas| ==> UserVa(slot.vas[k]);
    ReflagStart(sh.ph, SpacesOf(sys.slots) + {cpd}, slot.pd, slot.vas, sh.ptes);
    MarkLoop(sh.ph, SpacesOf(sys.slots) + {cpd}, slot.pd, slot.vas, sh.ptes, n);
  }

  lemma RestorePrefix(ph: Phys, mk: Phys, spaces: set<nat>, pd: nat, vas: seq<nat>, ptes: seq<Pte>, n: nat)
    requires Reflagged(ph, mk, spaces, pd, vas, ptes, MarkedPtes(ptes, |ptes|)) && pd in spaces && ListOk(vas)
    requires |ptes| == |vas| && n <= |vas|
    ensures Spaces(RestoreUpTo(mk, pd, vas, ptes, n), spaces)
  {
    assert MarkedPtes(ptes, |ptes|) == RestoredPtes(ptes, 0);
    RestoreLoop(ph, mk, spaces, pd, vas, ptes, n);
  }
}
