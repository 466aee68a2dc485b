/** LionFS over runs with crashes (src/diskfs.c): what mounting establishes, and what the files are after any
    number of operations, some of them cut short between two sector writes. */
module DiskFsCrash {
  import opened Common
  import opened DiskFs
  import opened DiskFsProof

  // ---------------------------------------------------------------- what mounting establishes

  lemma WordBytes(a: byte, b: byte, c: byte, d: byte)
    ensures var v := FromLe(a, b, c, d); Le(v, 0) == a && Le(v, 1) == b && Le(v, 2) == c && Le(v, 3) == d
  {
    var v := FromLe(a, b, c, d);
    assert v / 256 == b + 256 * c + 65536 * d && v / 256 / 256 == c + 256 * d && v / 256 / 256 / 256 == d;
  }

  lemma WordIsBytes(disk: Disk, k: nat)
    requires k + 4 <= DIR_BYTES
    ensures forall t :: 0 <= t < 4 ==> Le(WordAt(disk, k), t) == DirByte(disk, k + t)
  {
    hide DirByte, Le, FromLe;
    WordBytes(DirByte(disk, k), DirByte(disk, k + 1), DirByte(disk, k + 2), DirByte(disk, k + 3));
  }

  /** Reading an entry and writing it again gives the bytes that were there. */
  lemma ParsedOnDisk(disk: Disk, i: nat)
    requires i < MAX_FILES
    ensures EntryOnDisk(disk, i, ParseEntry(disk, i))
  {
    hide DirByte, Le, FromLe, WordAt;
    WordIsBytes(disk, ENTRY_SIZE * i + 64);
    WordIsBytes(disk, ENTRY_SIZE * i + 68);
  }

  lemma MountedMatches(disk: Disk, i: nat)
    requires i < MAX_FILES
    ensures Matches(disk, i, Mounted(ParseEntry(disk, i), i))
  {
    ParsedOnDisk(disk, i);
    hide ParseEntry, AtEntry;
    OnDiskMatches(disk, i, ParseEntry(disk, i));
  }

  /** A mounted disk agrees with memory if and only if every file it holds has a terminated name and no two
      have the same. */
  lemma MountedAgreesIff(disk: Disk)
    ensures Init(disk).0 == 0 <==> SuperOk(disk)
    ensures SuperOk(disk) ==> (Agree(Init(disk).1, disk) <==> NamesOk(Init(disk).1.entries))
  {
    hide Matches, ParseEntry, LiveCount, Signature, CountField, CString;
    forall i | 0 <= i < MAX_FILES ensures Matches(disk, i, MountedEntries(disk)[i]) { MountedMatches(disk, i); }
  }

  predicate NamesOk(entries: Entries) {
    && (forall i :: 0 <= i < MAX_FILES && Live(entries[i]) ==> |CString(entries[i].name)| < NAME_MAX)
    && (forall i, j :: 0 <= i < j < MAX_FILES && Live(entries[i]) && Live(entries[j]) ==>
          CString(entries[i].name) != CString(entries[j].name))
  }

  /** A formatted disk: a superblock and an empty directory. */
  predicate Formatted(disk: Disk) {
    SuperOk(disk) && forall l :: DIR_LBA <= l < DIR_LBA + DIR_SECTORS ==> disk[l] == ZeroSector()
  }

  lemma FormattedAgrees(disk: Disk, n: seq<byte>)
    requires Formatted(disk)
    ensures var fs := Init(disk).1; Agree(fs, disk) && NoneStale(fs.entries) && File(fs, disk, n) == None
  {
    hide SuperOk, Agree, ParseEntry, CString, LiveCount, Find, Formatted, ZeroEntry;
    MountedAgreesIff(disk);
    ZeroUnused();
    forall i | 0 <= i < MAX_FILES ensures ParseEntry(disk, i) == ZeroEntry() { NothingThere(disk, i); }
    SuperThere(disk);
    var fs := Init(disk).1;
    NobodyThere(fs.entries, n, 0);
  }

  lemma SuperThere(disk: Disk)
    requires Formatted(disk)
    ensures SuperOk(disk) && Init(disk).1.entries == MountedEntries(disk)
  {}

  lemma ZeroUnused()
    ensures !Live(ZeroEntry()) && forall i: nat :: !Sound(ZeroEntry(), i)
  {}

  lemma {:induction false} NobodyThere(entries: Entries, n: seq<byte>, from: nat)
    requires from <= MAX_FILES && forall i :: 0 <= i < MAX_FILES ==> !Live(entries[i])
    ensures Find(entries, n, from) == None
    decreases MAX_FILES - from
  {
    if from < MAX_FILES { NobodyThere(entries, n, from + 1); }
  }

  lemma NothingThere(disk: Disk, i: nat)
    requires Formatted(disk) && i < MAX_FILES
    ensures ParseEntry(disk, i) == ZeroEntry()
  {
    forall t | 0 <= t < ENTRY_SIZE ensures AtEntry(disk, i, t) == EntryByte(ZeroEntry(), t) {
      ZeroThere(disk, ENTRY_SIZE * i + t);
      ZeroByte(t);
    }
    hide AtEntry, EntryByte, ParseEntry, ZeroEntry;
    ParseRoundTrip(disk, i, ZeroEntry());
  }

  lemma ZeroThere(disk: Disk, k: nat)
    requires Formatted(disk) && k < DIR_BYTES
    ensures DirByte(disk, k) == 0
  {
    hide SuperOk;
    assert disk[DIR_LBA + k / SECTOR_SIZE] == ZeroSector();
  }

  lemma ZeroByte(t: nat)
    requires t < ENTRY_SIZE
    ensures EntryByte(ZeroEntry(), t) == 0
  {}

  // ---------------------------------------------------------------- memory after a crash

  /** The directory of d is that of disk with the sectors of entry i written from `after` as far as first/last;
      what is mounted is in order if the half-written entry is not taken for a file, or has its old name. */
  lemma AfterCrash(fs: Fs, disk: Disk, d: Disk, after: Entries, i: nat, first: bool, last: bool)
    requires Agree(fs, disk) && SuperOk(d) && i < MAX_FILES && Clean(after)
    requires forall j :: 0 <= j < MAX_FILES && j != i ==> after[j] == fs.entries[j]
    requires DirState(disk, d, after, i, first, last)
    requires (FirstDirSector(i) == LastDirSector(i) ==> first == last) && (last ==> first)
    requires first && !last ==>
      after[i].name[0] == 0 || !Sound(fs.entries[i], i) || after[i].name == fs.entries[i].name
    ensures var (rc, m) := Init(d);
      && rc == 0 && Agree(m, d)
      && (forall j :: 0 <= j < MAX_FILES && j != i ==> m.entries[j] == fs.entries[j])
      && m.entries[i] == (if last then after[i] else m.entries[i])
      && (!last ==> m.entries[i] == fs.entries[i] || !Live(m.entries[i]))
      && (first && !last && after[i].name == fs.entries[i].name ==> m.entries[i] == fs.entries[i])
      && (first && !last ==> m.entries[i].size == fs.entries[i].size && m.entries[i].lba == fs.entries[i].lba)
      && (!first ==> m.entries[i] == fs.entries[i])
  {
    hide Agree, DirState, CString, Init, LiveCount, SuperOk, Clean, Sound, Mounted;
    AgreeParts(fs, disk);
    MountState(fs, disk, d, after, i, first, last);
    MountedAgreesIff(d);
    var m := Init(d).1;
    AsMounted(after, i);
    if first && !last && after[i].name == fs.entries[i].name { SameNameTorn(fs, disk, d, after, i); }
    StillClean(fs.entries, after, m.entries, i);
    if first && !last { TornSize(fs, disk, d, after, i); }
  }

  lemma TornSize(fs: Fs, disk: Disk, d: Disk, after: Entries, i: nat)
    requires Agree(fs, disk) && SuperOk(d) && i < MAX_FILES && FirstDirSector(i) != LastDirSector(i)
    requires DirState(disk, d, after, i, true, false)
    ensures var e := Init(d).1.entries[i]; e.size == fs.entries[i].size && e.lba == fs.entries[i].lba
  {
    assert Matches(disk, i, fs.entries[i]);
    hide Agree, DirState, Matches, ParseEntry, LiveCount;
    TornEntry(disk, d, after, i, fs.entries[i]);
  }

  lemma AsMounted(entries: Entries, i: nat)
    requires Clean(entries) && i < MAX_FILES
    ensures Mounted(entries[i], i) == entries[i]
  {
    assert CleanEntry(entries[i], i);
  }

  /** A table whose slot i is one or the other of two clean tables, or not in use. */
  lemma StillClean(before: Entries, after: Entries, now: Entries, i: nat)
    requires Clean(before) && Clean(after) && i < MAX_FILES
    requires forall j :: 0 <= j < MAX_FILES && j != i ==> after[j] == before[j] && now[j] == before[j]
    requires now[i] == before[i] || now[i] == after[i] || !Live(now[i])
    ensures NamesOk(now)
  {
    hide CString, Sound;
    assert forall j :: 0 <= j < MAX_FILES ==> CleanEntry(before[j], j) && CleanEntry(after[j], j);
  }

  /** An entry half-written over one of the same name is still the old one. */
  lemma SameNameTorn(fs: Fs, disk: Disk, d: Disk, after: Entries, i: nat)
    requires Agree(fs, disk) && SuperOk(d) && i < MAX_FILES && FirstDirSector(i) != LastDirSector(i)
    requires DirState(disk, d, after, i, true, false) && after[i].name == fs.entries[i].name
    ensures Init(d).1.entries[i] == fs.entries[i]
  {
    assert Matches(disk, i, fs.entries[i]) && CleanEntry(fs.entries[i], i);
    hide Agree, DirState, AtEntry, EntryByte, ParseEntry, CleanEntry, Mounted, LiveCount;
    forall t | 0 <= t < ENTRY_SIZE
      ensures AtEntry(d, i, t) == AtEntry(disk, i, t) || (t < 64 && AtEntry(d, i, t) == EntryByte(after[i], t))
    {
      EntrySectors(i, t);
      DirStateAt(disk, d, after, i, true, false, i, t);
    }
    NameBytes(after[i], fs.entries[i]);
    MountsTo(d, i, fs.entries[i]);
  }

  lemma NameBytes(a: Entry, b: Entry)
    requires a.name == b.name
    ensures forall t :: 0 <= t < 64 ==> EntryByte(a, t) == EntryByte(b, t)
    ensures EntryByte(b, 0) == b.name[0]
  {}

  // ---------------------------------------------------------------- runs with crashes

  /** An operation done, or cut short after j of its sector writes, after which the disk is mounted again. */
  datatype Attempt = Whole(op: Op) | CutShort(op: Op, j: nat)

  function Attempted(fs: Fs, disk: Disk, a: Attempt): (Fs, Disk) {
    match PlanOf(fs, a.op)
    case Refused => (fs, disk)
    case Plan(_, done, w) =>
      if a.Whole? then (done, Apply(disk, w))
      else
        var d := Apply(disk, if a.j <= |w| then w[..a.j] else w);
        (Init(d).1, d)
  }

  /** All sector writes were done. */
  predicate Complete(fs: Fs, a: Attempt) {
    PlanOf(fs, a.op).Plan? && (a.Whole? || a.j >= |PlanOf(fs, a.op).writes|)
  }

  /** What a name holds afterwards: a write counts when it is complete, a removal from its first directory
      sector on. */
  function Outcome(fs: Fs, disk: Disk, a: Attempt, n: seq<byte>): Option<seq<byte>> {
    match a.op
    case WriteFile(name, data) => if n == name && Complete(fs, a) then Some(data) else File(fs, disk, n)
    case RemoveFile(name) =>
      if n == name && PlanOf(fs, a.op).Plan? && (a.Whole? || a.j >= 2) then None else File(fs, disk, n)
  }

  /** Writing over a file was cut short: its bytes are written in place. */
  predicate Overwrites(fs: Fs, a: Attempt, n: seq<byte>) {
    a.CutShort? && a.op.WriteFile? && n == a.op.name && Find(fs.entries, n, 0).Some? && !Complete(fs, a)
  }

  predicate UnluckyAt(fs: Fs, a: Attempt) {
    && a.CutShort? && a.op.WriteFile? && PlanOf(fs, a.op).Plan? && !Complete(fs, a)
    && Find(fs.entries, a.op.name, 0).None? && Unlucky(fs, a.j)
  }

  lemma WholeAgrees(fs: Fs, disk: Disk, op: Op, n: seq<byte>)
    requires Agree(fs, disk)
    ensures var (f, d) := Attempted(fs, disk, Whole(op));
      Agree(f, d) && Init(d) == (0, f) && File(f, d, n) == Outcome(fs, disk, Whole(op), n)
  {
    hide Agree, File, Apply, PlanWrite, PlanRemove, Init;
    match op {
      case WriteFile(name, data) => if PlanWrite(fs, name, data).Plan? { WriteAgrees(fs, disk, name, data, n); }
      case RemoveFile(name) => if PlanRemove(fs, name).Plan? { RemoveAgrees(fs, disk, name, n); }
    }
    var (f, d) := Attempted(fs, disk, Whole(op));
    MountAgrees(f, d);
  }

  /** The new table, when the operation is complete, is clean. */
  lemma DoneClean(fs: Fs, disk: Disk, op: Op)
    requires Agree(fs, disk) && PlanOf(fs, op).Plan?
    ensures Clean(PlanOf(fs, op).done.entries)
  {
    hide File, Apply, PlanWrite, PlanRemove, Init;
    WholeAgrees(fs, disk, op, []);
  }

  lemma CreateCut(fs: Fs, disk: Disk, name: seq<byte>, data: seq<byte>, j: nat, n: seq<byte>)
    requires Agree(fs, disk) && PlanWrite(fs, name, data).Plan? && j < |PlanWrite(fs, name, data).writes|
    requires Find(fs.entries, name, 0).None? && !Unlucky(fs, j)
    ensures var d := Apply(disk, PlanWrite(fs, name, data).writes[..j]); var m := Init(d).1;
      && Agree(m, d) && File(m, d, n) == File(fs, disk, n) && (NoneStale(fs.entries) ==> NoneStale(m.entries))
  {
    hide PlanWrite, Apply, WriteWrites, DirState, DiskBytes, CString, Init, LiveCount, Find, File, FreeEntry;
    hide Agree, Stale, SuperOk, Clean, Sound;
    AgreeParts(fs, disk);
    CreateCrash(fs, disk, name, data, j, n);
    DoneClean(fs, disk, WriteFile(name, data));
    var p := PlanWrite(fs, name, data);
    var i := WritePlanned(fs, name, data);
    NewSlot(fs, name, data, i);
    WriteLands(disk, i, data, p.done.entries, p.done.count, j);
    WriteTotal(i, DataLba(i), data, p.done.entries, p.done.count);
    StaleFacts(fs.entries[i], i);
    var d := Apply(disk, p.writes[..j]);
    AfterCrash(fs, disk, d, p.done.entries, i, j > 9, false);
    StillNoneStale(fs.entries, Init(d).1.entries, i);
  }

  lemma StillNoneStale(before: Entries, after: Entries, i: nat)
    requires i < MAX_FILES && forall j :: 0 <= j < MAX_FILES && j != i ==> after[j] == before[j]
    requires Live(after[i]) || after[i] == before[i] ||
      (!Live(before[i]) && after[i].size == before[i].size && after[i].lba == before[i].lba)
    ensures NoneStale(before) ==> NoneStale(after)
  {}

  /** A removal cut short leaves a stale slot only between the two sectors of its entry. */
  lemma RemoveCut(fs: Fs, disk: Disk, name: seq<byte>, j: nat, n: seq<byte>)
    requires Agree(fs, disk) && PlanRemove(fs, name).Plan? && j < |PlanRemove(fs, name).writes|
    ensures var d := Apply(disk, PlanRemove(fs, name).writes[..j]); var m := Init(d).1;
      && Agree(m, d) && File(m, d, n) == (if j >= 2 && n == name then None else File(fs, disk, n))
      && (j < 2 && NoneStale(fs.entries) ==> NoneStale(m.entries))
  {
    hide PlanRemove, Apply, RemoveWrites, DirState, CString, Init, LiveCount, Find, File, SuperOk, Agree, Clean, Sound;
    hide Stale;
    AgreeParts(fs, disk);
    RemoveCrash(fs, disk, name, j, n);
    DoneClean(fs, disk, RemoveFile(name));
    var p := PlanRemove(fs, name);
    var i := RemovePlanned(fs, name);
    RemoveLands(disk, i, p.done.entries, p.done.count, j);
    RemoveShape(i, p.done.entries, p.done.count);
    var d := Apply(disk, p.writes[..j]);
    AfterCrash(fs, disk, d, p.done.entries, i, j > 1, false);
    if j < 2 { StillNoneStale(fs.entries, Init(d).1.entries, i); }
  }

  /** An overwriting write cut short leaves every other file as it was. */
  lemma OverwriteCut(fs: Fs, disk: Disk, name: seq<byte>, data: seq<byte>, j: nat, n: seq<byte>)
    requires Agree(fs, disk) && PlanWrite(fs, name, data).Plan? && j < |PlanWrite(fs, name, data).writes|
    requires Find(fs.entries, name, 0).Some?
    ensures var d := Apply(disk, PlanWrite(fs, name, data).writes[..j]); var m := Init(d).1;
      && Agree(m, d) && (n != name ==> File(m, d, n) == File(fs, disk, n))
      && (NoneStale(fs.entries) ==> NoneStale(m.entries))
  {
    hide PlanWrite, Apply, WriteWrites, DirState, DiskBytes, CString, Init, LiveCount, Find, File, FreeEntry;
    hide Agree, Stale, SuperOk, Clean, Sound, SameData;
    AgreeParts(fs, disk);
    DoneClean(fs, disk, WriteFile(name, data));
    var p := PlanWrite(fs, name, data);
    var i := WritePlanned(fs, name, data);
    OldSlot(fs, name, data, i);
    WriteLands(disk, i, data, p.done.entries, p.done.count, j);
    WriteTotal(i, DataLba(i), data, p.done.entries, p.done.count);
    var d := Apply(disk, p.writes[..j]);
    AfterCrash(fs, disk, d, p.done.entries, i, j > 9, false);
    var m := Init(d).1;
    StillNoneStale(fs.entries, m.entries, i);
    if n != name { OtherFiles(fs, disk, m, d, i, name, n); }
  }

  lemma OldSlot(fs: Fs, name: seq<byte>, data: seq<byte>, i: nat)
    requires PlanWrite(fs, name, data).Plan? && Find(fs.entries, name, 0) == Some(i)
    ensures i < MAX_FILES && Live(fs.entries[i]) && CString(fs.entries[i].name) == name
    ensures PlanWrite(fs, name, data).done.entries[i].name == fs.entries[i].name
  {
    hide WriteWrites, LiveCount, CString, CopyName, ValidName;
  }

  /** One attempt, whole or cut short: memory and disk agree again, and every name holds what it should,
      except one that was being written over. */
  lemma AttemptAgrees(fs: Fs, disk: Disk, a: Attempt, n: seq<byte>)
    requires Agree(fs, disk) && !UnluckyAt(fs, a)
    ensures var (f, d) := Attempted(fs, disk, a);
      Agree(f, d) && (!Overwrites(fs, a, n) ==> File(f, d, n) == Outcome(fs, disk, a, n))
  {
    hide Agree, File, Apply, PlanWrite, PlanRemove, Init, Unlucky;
    if PlanOf(fs, a.op).Plan? {
      var w := PlanOf(fs, a.op).writes;
      assert w[..|w|] == w;
      WholeAgrees(fs, disk, a.op, n);
      RemoveLength(fs, a.op);
      if a.CutShort? && a.j < |w| {
        match a.op
        case WriteFile(name, data) =>
          if Find(fs.entries, name, 0).Some? { OverwriteCut(fs, disk, name, data, a.j, n); }
          else { CreateCut(fs, disk, name, data, a.j, n); }
        case RemoveFile(name) => RemoveCut(fs, disk, name, a.j, n);
      }
    }
  }

  lemma RemoveLength(fs: Fs, op: Op)
    ensures PlanOf(fs, op).Plan? && op.RemoveFile? ==> |PlanOf(fs, op).writes| >= 2
  {
    hide Find;
  }

  function Attempts(fs: Fs, disk: Disk, attempts: seq<Attempt>): (Fs, Disk)
    decreases |attempts|
  {
    if attempts == [] then (fs, disk)
    else
      var (f, d) := Attempted(fs, disk, attempts[0]);
      Attempts(f, d, attempts[1..])
  }

  /** What the attempts leave under a name, one after another. */
  function Outcomes(fs: Fs, disk: Disk, attempts: seq<Attempt>, n: seq<byte>, now: Option<seq<byte>>): Option<seq<byte>>
    decreases |attempts|
  {
    if attempts == [] then now
    else
      var (f, d) := Attempted(fs, disk, attempts[0]);
      Outcomes(f, d, attempts[1..], n, NextContent(fs, attempts[0], n, now))
  }

  /** Outcome, from what the name held before. */
  function NextContent(fs: Fs, a: Attempt, n: seq<byte>, now: Option<seq<byte>>): Option<seq<byte>> {
    match a.op
    case WriteFile(name, data) => if n == name && Complete(fs, a) then Some(data) else now
    case RemoveFile(name) => if n == name && PlanOf(fs, a.op).Plan? && (a.Whole? || a.j >= 2) then None else now
  }

  /** No new file is cut short in a stale slot, and no write over `n` is cut short. */
  predicate Fortunate(fs: Fs, disk: Disk, attempts: seq<Attempt>, n: seq<byte>)
    decreases |attempts|
  {
    attempts == [] ||
      (!UnluckyAt(fs, attempts[0]) && !Overwrites(fs, attempts[0], n)
       && var (f, d) := Attempted(fs, disk, attempts[0]); Fortunate(f, d, attempts[1..], n))
  }

  /** Over any run of operations, any of them cut short by a crash at any sector write: memory and disk agree,
      the next mount gives memory back, and every name holds what the completed operations made of it. */
  lemma {:induction false} CrashRun(fs: Fs, disk: Disk, attempts: seq<Attempt>, n: seq<byte>)
    requires Agree(fs, disk) && Fortunate(fs, disk, attempts, n)
    ensures var (f, d) := Attempts(fs, disk, attempts);
      Agree(f, d) && Init(d) == (0, f) && File(f, d, n) == Outcomes(fs, disk, attempts, n, File(fs, disk, n))
    decreases |attempts|
  {
    hide Agree, File, Attempted, UnluckyAt, Overwrites, NextContent, Init;
    if attempts == [] {
      MountAgrees(fs, disk);
    } else {
      AttemptAgrees(fs, disk, attempts[0], n);
      SameOutcome(fs, disk, attempts[0], n);
      var (f, d) := Attempted(fs, disk, attempts[0]);
      CrashRun(f, d, attempts[1..], n);
    }
  }

  lemma SameOutcome(fs: Fs, disk: Disk, a: Attempt, n: seq<byte>)
    ensures NextContent(fs, a, n, File(fs, disk, n)) == Outcome(fs, disk, a, n)
  {
    hide File, Complete, PlanOf;
  }

  /** From a formatted disk on. */
  lemma FormattedRun(disk: Disk, attempts: seq<Attempt>, n: seq<byte>)
    requires Formatted(disk) && Fortunate(Init(disk).1, disk, attempts, n)
    ensures var (f, d) := Attempts(Init(disk).1, disk, attempts);
      Agree(f, d) && Init(d) == (0, f) && File(f, d, n) == Outcomes(Init(disk).1, disk, attempts, n, None)
  {
    FormattedAgrees(disk, n);
    hide Agree, File, Init, Formatted, Attempts, Outcomes, Fortunate;
    CrashRun(Init(disk).1, disk, attempts, n);
  }

  /** A step leaves no slot stale if none was, unless it is a removal cut short between the two directory
      sectors of its entry; so without such a removal no new file is ever unlucky. */
  lemma StaysNoneStale(fs: Fs, disk: Disk, a: Attempt)
    requires Agree(fs, disk) && NoneStale(fs.entries)
    requires a.CutShort? && a.op.RemoveFile? ==> a.j < 2 || Complete(fs, a)
    ensures !UnluckyAt(fs, a) && NoneStale(Attempted(fs, disk, a).0.entries)
  {
    hide Agree, File, Apply, PlanWrite, PlanRemove, Init, NoneStale, FreeEntry;
    if PlanOf(fs, a.op).Plan? {
      var w := PlanOf(fs, a.op).writes;
      assert w[..|w|] == w;
      DoneNoneStale(fs, disk, a.op);
      WholeAgrees(fs, disk, a.op, []);
      RemoveLength(fs, a.op);
      if a.CutShort? && a.j < |w| {
        match a.op
        case WriteFile(name, data) =>
          if Find(fs.entries, name, 0).Some? {
            OverwriteCut(fs, disk, name, data, a.j, []);
          } else {
            CreateCrash(fs, disk, name, data, a.j, []);
            CreateCut(fs, disk, name, data, a.j, []);
          }
        case RemoveFile(name) => RemoveCut(fs, disk, name, a.j, []);
      }
    }
  }

  lemma DoneNoneStale(fs: Fs, disk: Disk, op: Op)
    requires Agree(fs, disk) && NoneStale(fs.entries) && PlanOf(fs, op).Plan?
    ensures NoneStale(PlanOf(fs, op).done.entries)
  {
    hide PlanWrite, PlanRemove, Find, LiveCount, CString, Sound, SuperOk, Clean, DirMatches, WriteWrites, RemoveWrites;
    ZeroUnused();
    match op
    case WriteFile(name, data) => var i := WritePlanned(fs, name, data);
    case RemoveFile(name) => var i := RemovePlanned(fs, name);
  }
}
