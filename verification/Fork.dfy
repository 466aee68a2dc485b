/** Processes over page tables and the allocator (src/process.c): fork shares frames read-only, write
    faults split them, reaping frees them. */
module Fork {
  import opened Common
  import opened Memory
  import opened Paging
  import opened Cow

  /** The part of a process slot that owns memory: page directory, user_page_vas, user_pages and the
      frame of the kernel stack. Slot 0 and kernel threads own no user memory. */
  datatype Slot = Unused | Kernel | User(pd: nat, vas: seq<nat>, pages: seq<nat>, kstack: nat)

  datatype Sys = Sys(ph: Phys, kernel: seq<Table>, slots: seq<Slot>)

  // ---------------------------------------------------------------- what the processes map

  function PteAt(words: seq<Table>, pd: nat, va: nat): Pte {
    match Lookup(words, pd, va)
    case None => ZERO_PTE
    case Some(e) => e
  }

  function ViewOf(words: seq<Table>, slot: Slot): seq<Mapping> {
    if slot.User? then
      seq(|slot.vas|, k requires 0 <= k < |slot.vas| => Mapping(slot.vas[k], PteAt(words, slot.pd, slot.vas[k])))
    else []
  }

  function Views(words: seq<Table>, slots: seq<Slot>): (r: seq<seq<Mapping>>)
    ensures |r| == |slots|
  {
    seq(|slots|, i requires 0 <= i < |slots| => ViewOf(words, slots[i]))
  }

  function VmOf(sys: Sys): Vm {
    Vm(Views(sys.ph.words, sys.slots), sys.ph.fr.refs, sys.ph.bytes)
  }

  function SpacesOf(slots: seq<Slot>): (r: set<nat>)
    ensures forall i :: 0 <= i < |slots| && slots[i].User? ==> slots[i].pd in r
    ensures forall pd :: pd in r ==> exists i :: 0 <= i < |slots| && slots[i].User? && slots[i].pd == pd
  {
    set i | 0 <= i < |slots| && slots[i].User? :: slots[i].pd
  }

  // ---------------------------------------------------------------- the invariant

  predicate UserVa(va: nat) { va < USER_LIMIT && va % PAGE_SIZE == 0 }

  /** va lies on one of the first n listed pages. */
  predicate OnPage(vas: seq<nat>, n: nat, va: nat)
    requires n <= |vas|
  {
    exists k :: 0 <= k < n && vas[k] / PAGE_SIZE == va / PAGE_SIZE
  }

  /** The list of a process names distinct user pages. */
  predicate ListOk(vas: seq<nat>) {
    && 0 < |vas| <= MAX_USER_PAGES
    && (forall k :: 0 <= k < |vas| ==> UserVa(vas[k]))
    && (forall k, l :: 0 <= k < l < |vas| ==> vas[k] != vas[l])
  }

  /** ... and those are exactly the pages its page table maps. */
  ghost predicate TableOk(words: seq<Table>, pd: nat, vas: seq<nat>) {
    && (forall k :: 0 <= k < |vas| ==> Lookup(words, pd, vas[k]).Some?)
    && (forall va: nat :: va < USER_LIMIT && Lookup(words, pd, va).Some? ==> OnPage(vas, |vas|, va))
  }

  predicate SlotShape(slot: Slot) {
    slot.User? ==> ListOk(slot.vas) && |slot.pages| == |slot.vas|
  }

  ghost predicate TablesOk(words: seq<Table>, slots: seq<Slot>) {
    forall i :: 0 <= i < |slots| && slots[i].User? ==> TableOk(words, slots[i].pd, slots[i].vas)
  }

  ghost predicate SlotsOk(words: seq<Table>, slots: seq<Slot>) {
    && |slots| == MAX_PROCESSES && slots[0].Kernel?
    && (forall i :: 0 <= i < |slots| ==> SlotShape(slots[i]))
    && TablesOk(words, slots)
    && (forall i, j :: 0 <= i < j < |slots| && slots[i].User? && slots[j].User? ==>
          slots[i].pd != slots[j].pd && slots[i].kstack != slots[j].kstack)
  }

  /** Frames that hold tables and kernel stacks are never user frames. */
  ghost predicate Apart(ph: Phys, slots: seq<Slot>) {
    && (forall i :: 0 <= i < |slots| && slots[i].User? ==>
          Held(ph.fr, slots[i].kstack) && Total(Views(ph.words, slots), slots[i].kstack) == 0)
    && (forall i, j :: 0 <= i < |slots| && 0 <= j < |slots| && slots[i].User? && slots[j].User? ==>
          slots[i].kstack !in SpaceFrames(ph.words, slots[j].pd))
    && (forall i, f :: 0 <= i < |slots| && slots[i].User? && f in SpaceFrames(ph.words, slots[i].pd) ==>
          Total(Views(ph.words, slots), f) == 0)
  }

  ghost predicate Ok(sys: Sys) {
    && |sys.kernel| == 4
    && Spaces(sys.ph, SpacesOf(sys.slots))
    && SlotsOk(sys.ph.words, sys.slots)
    && Apart(sys.ph, sys.slots)
    && Inv(VmOf(sys))
  }

  // ---------------------------------------------------------------- fork

  datatype Sharing = Sharing(ph: Phys, ptes: seq<Pte>, ok: bool)

  /** One round of the first loop: map the parent's page at va in the child too, read-only and
      copy-on-write if it was writable, and retain its frame. */
  function ShareNext(before: Sharing, ppd: nat, cpd: nat, va: nat): (r: Sharing)
    requires PhysOk(before.ph)
    ensures PhysOk(r.ph) && |r.ptes| == |before.ptes| + (if r.ok then 1 else 0)
  {
    match Lookup(before.ph.words, ppd, va)
    case None => before.(ok := false)
    case Some(e) =>
      var (ph1, ok) := MapUserPage(before.ph, cpd, va, e.frame * PAGE_SIZE, Shared(e.flags));
      if !ok then Sharing(ph1, before.ptes, false)
      else
        RetainValid(ph1.fr, e.frame * PAGE_SIZE);
        Sharing(ph1.(fr := RetainPage(ph1.fr, e.frame * PAGE_SIZE)), before.ptes + [e], true)
  }

  function ShareUpTo(ph: Phys, ppd: nat, cpd: nat, vas: seq<nat>, n: nat): (r: Sharing)
    requires PhysOk(ph) && n <= |vas|
    ensures PhysOk(r.ph) && |r.ptes| <= n && (r.ok ==> |r.ptes| == n)
  {
    if n == 0 then Sharing(ph, [], true)
    else
      var before := ShareUpTo(ph, ppd, cpd, vas, n - 1);
      if !before.ok then before else ShareNext(before, ppd, cpd, vas[n - 1])
  }

  datatype Marking = Marking(ph: Phys, cowed: nat, ok: bool)

  /** After n rounds of the second loop: the parent's writable pages are read-only and copy-on-write. */
  function MarkUpTo(ph: Phys, ppd: nat, vas: seq<nat>, ptes: seq<Pte>, n: nat): (r: Marking)
    requires n <= |vas| && n <= |ptes|
    ensures r.cowed <= n && r.ph.fr == ph.fr && r.ph.bytes == ph.bytes
  {
    if n == 0 then Marking(ph, 0, true)
    else
      var before := MarkUpTo(ph, ppd, vas, ptes, n - 1);
      if !before.ok || !ptes[n - 1].flags.writable then before
      else
        var (ph1, ok) := SetUserPageFlags(before.ph, ppd, vas[n - 1], Shared(ptes[n - 1].flags));
        if ok then Marking(ph1, before.cowed + 1, true) else Marking(ph1, before.cowed, false)
  }

  /** The restore loop: it re-flags the first n listed pages, not the n pages that were marked. */
  function RestoreUpTo(ph: Phys, ppd: nat, vas: seq<nat>, ptes: seq<Pte>, n: nat): (r: Phys)
    requires n <= |vas| && n <= |ptes|
    ensures r.fr == ph.fr && r.bytes == ph.bytes
  {
    if n == 0 then ph
    else SetUserPageFlags(RestoreUpTo(ph, ppd, vas, ptes, n - 1), ppd, vas[n - 1], ptes[n - 1].flags).0
  }

  function ReleaseUpTo(fr: Frames, ptes: seq<Pte>, n: nat): (r: Frames)
    requires Shape(fr) && n <= |ptes|
    ensures Shape(r)
  {
    if n == 0 then fr else FreePage(ReleaseUpTo(fr, ptes, n - 1), ptes[n - 1].frame * PAGE_SIZE)
  }

  function Abandon(ph: Phys, ptes: seq<Pte>, cpd: nat): Phys
    requires Shape(ph.fr)
  {
    DestroySpace(ph.(fr := ReleaseUpTo(ph.fr, ptes, |ptes|)), cpd)
  }

  function FreeSlot(slots: seq<Slot>, n: nat): (r: Option<nat>)
    requires n <= |slots|
    ensures r.Some? ==> n <= r.value < |slots| && slots[r.value].Unused?
    ensures r.None? ==> forall i :: n <= i < |slots| ==> !slots[i].Unused?
    decreases |slots| - n
  {
    if n == |slots| then None else if slots[n].Unused? then Some(n) else FreeSlot(slots, n + 1)
  }

  function FramesIn(ptes: seq<Pte>): seq<nat> {
    seq(|ptes|, k requires 0 <= k < |ptes| => ptes[k].frame)
  }

  /** Fork once a slot c and a new space cpd (in memory ph1) have been found. */
  function ForkInto(sys: Sys, p: nat, c: nat, ph1: Phys, cpd: nat): (Sys, Option<nat>)
    requires PhysOk(ph1) && p < |sys.slots| && sys.slots[p].User? && c < |sys.slots|
  {
    var parent := sys.slots[p];
    var sh := ShareUpTo(ph1, parent.pd, cpd, parent.vas, |parent.vas|);
    if !sh.ok then (sys.(ph := Abandon(sh.ph, sh.ptes, cpd)), None) else FinishFork(sys, p, c, cpd, sh)
  }

  /** The marking loop and the creation of the child, whose kernel stack may not be available. */
  function FinishFork(sys: Sys, p: nat, c: nat, cpd: nat, sh: Sharing): (Sys, Option<nat>)
    requires PhysOk(sh.ph) && p < |sys.slots| && sys.slots[p].User? && c < |sys.slots|
    requires |sh.ptes| == |sys.slots[p].vas|
  {
    var parent := sys.slots[p];
    var mk := MarkUpTo(sh.ph, parent.pd, parent.vas, sh.ptes, |parent.vas|);
    var (fr, ks) := AllocRun(mk.ph.fr, 1);
    if !mk.ok || |parent.vas| > MAX_USER_PAGES || ks == 0 then
      (sys.(ph := Abandon(RestoreUpTo(mk.ph, parent.pd, parent.vas, sh.ptes, mk.cowed), sh.ptes, cpd)), None)
    else
      (Sys(mk.ph.(fr := fr), sys.kernel,
           sys.slots[c := User(cpd, parent.vas, FramesIn(sh.ptes), ks / PAGE_SIZE)]),
       Some(c))
  }

  /** The state after fork, and the child's slot if it succeeded. */
  function ForkProcess(sys: Sys, p: nat): (Sys, Option<nat>)
    requires PhysOk(sys.ph) && |sys.kernel| == 4 && p < |sys.slots|
  {
    if p == 0 || !sys.slots[p].User? || sys.slots[p].vas == [] then (sys, None)
    else
      match FreeSlot(sys.slots, 0)
      case None => (sys, None)
      case Some(c) =>
        AllocValid(sys.ph.fr, PROCESS_PAGING_PAGES);
        var (ph1, cpd) := CreateSpace(sys.ph, sys.kernel);
        if cpd == 0 then (sys, None) else ForkInto(sys, p, c, ph1, cpd)
  }
}
