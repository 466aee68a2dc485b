/** What LionFS promises: memory and disk agree after every operation, and a crash between sector
    writes leaves the old files or the new files. */
module DiskFsProof {
  import opened Common
  import opened DiskFs

  // ---------------------------------------------------------------- the invariant

  /** A slot of a clean image: not in use, or a sound file with a terminated name. */
  predicate CleanEntry(e: Entry, i: nat) {
    Live(e) ==> Sound(e, i) && |CString(e.name)| < NAME_MAX
  }

  /** A slot not in use with the size and place of a file, as a removal that was cut short leaves it. */
  predicate Stale(e: Entry, i: nat) { !Live(e) && Sound(e, i) }

  predicate NoneStale(entries: Entries) {
    forall i :: 0 <= i < MAX_FILES ==> !Stale(entries[i], i)
  }

  ghost predicate Clean(entries: Entries) {
    && (forall i :: 0 <= i < MAX_FILES ==> CleanEntry(entries[i], i))
    && (forall i, j :: 0 <= i < j < MAX_FILES && Live(entries[i]) && Live(entries[j]) ==>
          CString(entries[i].name) != CString(entries[j].name))
  }

  /** Entry i of the disk is e, except that mounting may have cleared the first byte of an unsound name. */
  predicate Matches(disk: Disk, i: nat, e: Entry)
    requires i < MAX_FILES
  {
    && (forall t :: 1 <= t < ENTRY_SIZE ==> AtEntry(disk, i, t) == EntryByte(e, t))
    && (AtEntry(disk, i, 0) == e.name[0] || (!Live(e) && !Sound(e, i)))
  }

  ghost predicate DirMatches(disk: Disk, entries: Entries) {
    forall i :: 0 <= i < MAX_FILES ==> Matches(disk, i, entries[i])
  }

  lemma OnDiskMatches(disk: Disk, i: nat, e: Entry)
    requires i < MAX_FILES && EntryOnDisk(disk, i, e)
    ensures Matches(disk, i, e)
  {
    assert AtEntry(disk, i, 0) == EntryByte(e, 0);
    hide AtEntry;
  }

  lemma ParsesTo(disk: Disk, i: nat, e: Entry)
    requires i < MAX_FILES && Matches(disk, i, e)
    ensures ParseEntry(disk, i) == e.(name := e.name[0 := AtEntry(disk, i, 0)])
  {
    hide AtEntry, ParseEntry;
    var raw := e.(name := e.name[0 := AtEntry(disk, i, 0)]);
    forall t | 0 <= t < ENTRY_SIZE ensures AtEntry(disk, i, t) == EntryByte(raw, t) {}
    ParseRoundTrip(disk, i, raw);
  }

  /** Mounting reads a matching entry as it is in memory. */
  lemma MountsTo(disk: Disk, i: nat, e: Entry)
    requires i < MAX_FILES && Matches(disk, i, e) && CleanEntry(e, i)
    ensures Mounted(ParseEntry(disk, i), i) == e
  {
    hide AtEntry, ParseEntry, CString, EntryByte;
    ParsesTo(disk, i, e);
    assert e.name[0 := AtEntry(disk, i, 0)][0 := e.name[0]] == e.name;
  }

  predicate SuperOk(disk: Disk) {
    Signature(disk[SUPER_LBA]) && CountField(disk[SUPER_LBA]) <= MAX_FILES
  }

  /** The driver is mounted, its table is clean, and the disk holds exactly that table. */
  ghost predicate Agree(fs: Fs, disk: Disk) {
    && fs.available && Clean(fs.entries) && fs.count == LiveCount(fs.entries, MAX_FILES)
    && SuperOk(disk) && DirMatches(disk, fs.entries)
  }

  /** Agreement is what mounting establishes: a fresh mount gives the memory back. */
  lemma MountAgrees(fs: Fs, disk: Disk)
    requires Agree(fs, disk)
    ensures Init(disk) == (0, fs)
  {
    forall i | 0 <= i < MAX_FILES
      ensures Mounted(ParseEntry(disk, i), i) == fs.entries[i]
    {
      MountsTo(disk, i, fs.entries[i]);
    }
    assert MountedEntries(disk) == fs.entries;
  }

  // ---------------------------------------------------------------- applying writes

  predicate DistinctLbas(writes: seq<Write>) {
    && (forall t :: 0 <= t < |writes| ==> writes[t].lba < DISK_SECTORS)
    && (forall t, u :: 0 <= t < u < |writes| ==> writes[t].lba != writes[u].lba)
  }

  lemma {:induction false} ApplyMiss(disk: Disk, writes: seq<Write>, l: nat)
    requires l < DISK_SECTORS && forall t :: 0 <= t < |writes| ==> writes[t].lba != l
    ensures Apply(disk, writes)[l] == disk[l]
  {
    if writes != [] {
      ApplyMiss(disk, writes[..|writes| - 1], l);
    }
  }

  lemma {:induction false} ApplyHit(disk: Disk, writes: seq<Write>, t: nat)
    requires DistinctLbas(writes) && t < |writes|
    ensures Apply(disk, writes)[writes[t].lba] == writes[t].data
  {
    var n := |writes| - 1;
    if t < n {
      assert writes[..n][t] == writes[t];
      ApplyHit(disk, writes[..n], t);
      assert writes[n].lba != writes[t].lba;
    }
  }

  /** What sector l holds after the first j writes. */
  lemma PrefixHit(disk: Disk, writes: seq<Write>, j: nat, t: nat)
    requires DistinctLbas(writes) && t < j <= |writes|
    ensures Apply(disk, writes[..j])[writes[t].lba] == writes[t].data
  {
    assert writes[..j][t] == writes[t];
    ApplyHit(disk, writes[..j], t);
  }

  lemma PrefixMiss(disk: Disk, writes: seq<Write>, j: nat, l: nat)
    requires j <= |writes| && l < DISK_SECTORS && forall t :: 0 <= t < j ==> writes[t].lba != l
    ensures Apply(disk, writes[..j])[l] == disk[l]
  {
    ApplyMiss(disk, writes[..j], l);
  }

  // ---------------------------------------------------------------- a half-written directory

  predicate Rewritten(i: nat, first: bool, last: bool, s: nat) {
    (s == FirstDirSector(i) && first) || (s == LastDirSector(i) && last)
  }

  /** The directory of d is that of disk except that the first / last sector of entry i may have been
      rewritten from `entries`. */
  ghost predicate DirState(disk: Disk, d: Disk, entries: Entries, i: nat, first: bool, last: bool)
    requires i < MAX_FILES
  {
    forall s :: 0 <= s < DIR_SECTORS ==>
      d[DIR_LBA + s] == if Rewritten(i, first, last, s) then DirSector(entries, s) else disk[DIR_LBA + s]
  }

  lemma DirStateByte(disk: Disk, d: Disk, entries: Entries, i: nat, first: bool, last: bool, k: nat)
    requires i < MAX_FILES && k < DIR_BYTES && DirState(disk, d, entries, i, first, last)
    ensures var s := k / SECTOR_SIZE;
      DirByte(d, k) == if Rewritten(i, first, last, s) then TableByte(entries, k)
                       else DirByte(disk, k)
  {
    hide TableByte, Rewritten, EntryByte;
    var s, j := k / SECTOR_SIZE, k % SECTOR_SIZE;
    assert s < DIR_SECTORS && SECTOR_SIZE * s + j == k;
    assert DirSector(entries, s)[j] == SectorByte(entries, s, j) == TableByte(entries, k);
    assert d[DIR_LBA + s] == if Rewritten(i, first, last, s) then DirSector(entries, s) else disk[DIR_LBA + s];
    hide DirState, DirSector, SectorByte;
  }

  lemma EntryBytesAt(entries: Entries, j: nat, t: nat)
    requires j < MAX_FILES && t < ENTRY_SIZE
    ensures ENTRY_SIZE * j + t < DIR_BYTES && TableByte(entries, ENTRY_SIZE * j + t) == EntryByte(entries[j], t)
  {
    assert (ENTRY_SIZE * j + t) / ENTRY_SIZE == j && (ENTRY_SIZE * j + t) % ENTRY_SIZE == t;
  }

  /** One byte of one entry, given which sectors made it to disk. */
  lemma DirStateAt(disk: Disk, d: Disk, entries: Entries, i: nat, first: bool, last: bool, j: nat, t: nat)
    requires i < MAX_FILES && j < MAX_FILES && t < ENTRY_SIZE && DirState(disk, d, entries, i, first, last)
    ensures AtEntry(d, j, t) ==
      if Rewritten(i, first, last, (ENTRY_SIZE * j + t) / SECTOR_SIZE) then EntryByte(entries[j], t)
      else AtEntry(disk, j, t)
  {
    hide TableByte, EntryByte, DirByte, DirState, Rewritten;
    EntryBytesAt(entries, j, t);
    DirStateByte(disk, d, entries, i, first, last, ENTRY_SIZE * j + t);
  }

  /** Entries that did not change read back unchanged, whichever sectors made it to disk. */
  lemma OtherEntries(disk: Disk, d: Disk, before: Entries, after: Entries, i: nat, first: bool, last: bool, j: nat)
    requires i < MAX_FILES && j < MAX_FILES && DirState(disk, d, after, i, first, last)
    requires Matches(disk, j, before[j]) && after[j] == before[j]
    ensures Matches(d, j, before[j])
  {
    FirstByte(after[j]);
    hide DirByte, DirState, EntryByte, AtEntry;
    forall t | 0 <= t < ENTRY_SIZE
      ensures AtEntry(d, j, t) == EntryByte(before[j], t) || AtEntry(d, j, t) == AtEntry(disk, j, t)
    {
      DirStateAt(disk, d, after, i, first, last, j, t);
    }
  }

  lemma FirstByte(e: Entry)
    ensures EntryByte(e, 0) == e.name[0]
  {}

  /** Every byte of entry i lies in its first or its last sector. */
  lemma EntrySectors(i: nat, t: nat)
    requires i < MAX_FILES && t < ENTRY_SIZE
    ensures var s := (ENTRY_SIZE * i + t) / SECTOR_SIZE;
      (s == FirstDirSector(i) || s == LastDirSector(i)) && LastDirSector(i) < DIR_SECTORS
    ensures t == 0 ==> (ENTRY_SIZE * i + t) / SECTOR_SIZE == FirstDirSector(i)
    ensures t >= 64 ==> (ENTRY_SIZE * i + t) / SECTOR_SIZE == LastDirSector(i)
  {
    var a := ENTRY_SIZE * i;
    assert (i + 1) * ENTRY_SIZE - 1 == a + 71;
    assert a % 8 == 0;
  }

  lemma WrittenEntry(disk: Disk, d: Disk, entries: Entries, i: nat)
    requires i < MAX_FILES && DirState(disk, d, entries, i, true, true)
    ensures EntryOnDisk(d, i, entries[i])
  {
    hide DirByte, DirState, EntryByte, AtEntry;
    forall t | 0 <= t < ENTRY_SIZE
      ensures AtEntry(d, i, t) == EntryByte(entries[i], t)
    {
      EntrySectors(i, t);
      DirStateAt(disk, d, entries, i, true, true, i, t);
    }
  }

  lemma UnwrittenEntry(disk: Disk, d: Disk, entries: Entries, i: nat, e: Entry)
    requires i < MAX_FILES && DirState(disk, d, entries, i, false, false) && Matches(disk, i, e)
    ensures Matches(d, i, e)
  {
    hide DirByte, DirState, EntryByte, AtEntry;
    forall t | 0 <= t < ENTRY_SIZE
      ensures AtEntry(d, i, t) == AtEntry(disk, i, t)
    {
      DirStateAt(disk, d, entries, i, false, false, i, t);
    }
  }

  /** Between the two sector writes of a straddling entry: the name begins as in the new entry, but size
      and place are still the old ones, so it mounts as in use exactly when the new name is one and the old
      size and place are those of a file. */
  lemma TornEntry(disk: Disk, d: Disk, entries: Entries, i: nat, e: Entry)
    requires i < MAX_FILES && FirstDirSector(i) != LastDirSector(i)
    requires DirState(disk, d, entries, i, true, false) && Matches(disk, i, e)
    ensures ParseEntry(d, i).name[0] == entries[i].name[0]
    ensures ParseEntry(d, i).size == e.size && ParseEntry(d, i).lba == e.lba
    ensures Live(Mounted(ParseEntry(d, i), i)) <==> entries[i].name[0] != 0 && Sound(e, i)
  {
    hide DirByte, DirState, AtEntry, WordAt, EntryOnDisk, NameOnDisk, EntryByte;
    EntrySectors(i, 0);
    DirStateAt(disk, d, entries, i, true, false, i, 0);
    FirstOfName(d, i, entries[i]);
    forall t | 64 <= t < ENTRY_SIZE
      ensures AtEntry(d, i, t) == AtEntry(disk, i, t)
    {
      EntrySectors(i, t);
      DirStateAt(disk, d, entries, i, true, false, i, t);
    }
    TornWord(disk, d, i, 64);
    TornWord(disk, d, i, 68);
    hide Matches;
    ParsesTo(disk, i, e);
  }

  lemma FirstOfName(d: Disk, i: nat, e: Entry)
    requires i < MAX_FILES && AtEntry(d, i, 0) == EntryByte(e, 0)
    ensures NameOnDisk(d, i)[0] == e.name[0]
  {}

  lemma TornWord(disk: Disk, d: Disk, i: nat, o: nat)
    requires i < MAX_FILES && 64 <= o && o + 4 <= ENTRY_SIZE
    requires forall t :: 64 <= t < ENTRY_SIZE ==> AtEntry(d, i, t) == AtEntry(disk, i, t)
    ensures WordAt(d, ENTRY_SIZE * i + o) == WordAt(disk, ENTRY_SIZE * i + o)
  {
    assert AtEntry(d, i, o) == AtEntry(disk, i, o) && AtEntry(d, i, o + 1) == AtEntry(disk, i, o + 1);
    assert AtEntry(d, i, o + 2) == AtEntry(disk, i, o + 2) && AtEntry(d, i, o + 3) == AtEntry(disk, i, o + 3);
  }

  // ---------------------------------------------------------------- the write sequences

  /** Position of a sector write of slot i's operation, by kind. */
  lemma EntryWriteLbas(entries: Entries, i: nat)
    requires i < MAX_FILES
    ensures var w := EntryWrites(entries, i);
      && |w| == (if FirstDirSector(i) == LastDirSector(i) then 1 else 2)
      && FirstDirSector(i) <= LastDirSector(i) < DIR_SECTORS
      && w[0] == Write(DIR_LBA + FirstDirSector(i), DirSector(entries, FirstDirSector(i)))
      && w[|w| - 1] == Write(DIR_LBA + LastDirSector(i), DirSector(entries, LastDirSector(i)))
  {
    EntrySectors(i, 0);
    EntrySectors(i, 71);
  }

  /** The writes of a write operation, position by position. */
  lemma WriteShape(i: nat, data: seq<byte>, entries: Entries, count: u32)
    requires i < MAX_FILES
    ensures var w := WriteWrites(i, DataLba(i), data, entries, count);
      && |w| == 9 + |EntryWrites(entries, i)| && DistinctLbas(w) && w[9..] == EntryWrites(entries, i)
      && (forall t :: 0 <= t < 8 ==> w[t] == Write(DataLba(i) + t, DataSector(data, t)))
      && w[8] == Write(SUPER_LBA, SuperSector(count))
      && (forall t :: 9 <= t < |w| ==> DIR_LBA <= w[t].lba < DATA_LBA)
  {
    EntryWriteLbas(entries, i);
    var w, e := WriteWrites(i, DataLba(i), data, entries, count), EntryWrites(entries, i);
    hide DirSector, SuperSector, DataSector;
    assert forall t :: 9 <= t < |w| ==> w[t] == e[t - 9];
    assert forall t :: 0 <= t < |e| ==> DIR_LBA <= e[t].lba < DATA_LBA;
    assert |e| == 2 ==> e[0].lba != e[1].lba;
  }

  lemma RemoveWritesDistinct(i: nat, entries: Entries, count: u32)
    requires i < MAX_FILES
    ensures DistinctLbas(RemoveWrites(i, entries, count))
    ensures |RemoveWrites(i, entries, count)| == 1 + |EntryWrites(entries, i)|
  {
    EntryWriteLbas(entries, i);
    var w, e := RemoveWrites(i, entries, count), EntryWrites(entries, i);
    assert forall t :: 1 <= t < |w| ==> w[t] == e[t - 1];
    assert forall t :: 0 <= t < |e| ==> DIR_LBA <= e[t].lba < DATA_LBA;
    assert |e| == 2 ==> e[0].lba != e[1].lba;
  }

  lemma DirAfterAt(disk: Disk, writes: seq<Write>, base: nat, entries: Entries, i: nat, j: nat, first: bool, last: bool,
                   s: nat)
    requires i < MAX_FILES && DistinctLbas(writes) && base <= |writes| && j <= |writes| && s < DIR_SECTORS
    requires writes[base..] == EntryWrites(entries, i) && first == (j > base) && last == (j == |writes|)
    requires forall t :: 0 <= t < base ==> writes[t].lba == SUPER_LBA || writes[t].lba >= DATA_LBA
    ensures Apply(disk, writes[..j])[DIR_LBA + s] ==
      if Rewritten(i, first, last, s) then DirSector(entries, s) else disk[DIR_LBA + s]
  {
    EntryWriteLbas(entries, i);
    var w := EntryWrites(entries, i);
    assert forall t :: base <= t < |writes| ==> writes[t] == w[t - base];
    hide Apply, DirSector, EntryWrites;
    if s == FirstDirSector(i) && j > base {
      PrefixHit(disk, writes, j, base);
    } else if s == LastDirSector(i) && j == |writes| {
      PrefixHit(disk, writes, j, |writes| - 1);
    } else {
      forall t | 0 <= t < j ensures writes[t].lba != DIR_LBA + s {
        assert t >= base ==> t == base || t == |writes| - 1;
      }
      PrefixMiss(disk, writes, j, DIR_LBA + s);
    }
  }

  /** How far the directory has got once j writes are done. */
  lemma DirAfter(disk: Disk, writes: seq<Write>, base: nat, entries: Entries, i: nat, j: nat, first: bool, last: bool)
    requires i < MAX_FILES && DistinctLbas(writes) && base <= |writes| && j <= |writes|
    requires writes[base..] == EntryWrites(entries, i) && first == (j > base) && last == (j == |writes|)
    requires forall t :: 0 <= t < base ==> writes[t].lba == SUPER_LBA || writes[t].lba >= DATA_LBA
    ensures DirState(disk, Apply(disk, writes[..j]), entries, i, first, last)
  {
    hide Apply, DirSector, EntryWrites, Rewritten, DistinctLbas;
    forall s: nat | s < DIR_SECTORS
      ensures Apply(disk, writes[..j])[DIR_LBA + s] ==
        if Rewritten(i, first, last, s) then DirSector(entries, s) else disk[DIR_LBA + s]
    {
      DirAfterAt(disk, writes, base, entries, i, j, first, last, s);
    }
  }

  // ---------------------------------------------------------------- files seen through the table

  /** Two tables with the same live entries find the same slot for every name. */
  lemma {:induction false} SameFind(a: Entries, b: Entries, name: seq<byte>, from: nat)
    requires from <= MAX_FILES
    requires forall i :: from <= i < MAX_FILES ==> Live(a[i]) == Live(b[i]) && (Live(a[i]) ==> a[i] == b[i])
    ensures Find(a, name, from) == Find(b, name, from)
    decreases MAX_FILES - from
  {
    if from < MAX_FILES {
      SameFind(a, b, name, from + 1);
    }
  }

  lemma {:induction false} CountUpdate(a: Entries, i: nat, e: Entry, n: nat)
    requires n <= MAX_FILES && i < MAX_FILES
    ensures LiveCount(a[i := e], n) + (if i < n && Live(a[i]) then 1 else 0)
         == LiveCount(a, n) + (if i < n && Live(e) then 1 else 0)
  {
    if n > 0 {
      CountUpdate(a, i, e, n - 1);
    }
  }

  lemma {:induction false} FindUnique(entries: Entries, name: seq<byte>, i: nat, from: nat)
    requires from <= i < MAX_FILES && Live(entries[i]) && CString(entries[i].name) == name
    requires forall j :: 0 <= j < MAX_FILES && j != i ==> !(Live(entries[j]) && CString(entries[j].name) == name)
    ensures Find(entries, name, from) == Some(i)
    decreases MAX_FILES - from
  {
    if from < i {
      FindUnique(entries, name, i, from + 1);
    }
  }

  /** The data sectors of a live slot. */
  predicate SameData(a: Disk, b: Disk, i: nat)
    requires i < MAX_FILES
  {
    forall l :: DataLba(i) <= l < DataLba(i) + SECTORS_PER_FILE ==> a[l] == b[l]
  }

  lemma SameBytes(a: Disk, b: Disk, i: nat, n: nat)
    requires i < MAX_FILES && SameData(a, b, i) && n <= MAX_FILE_SIZE
    ensures DiskBytes(a, DataLba(i), n) == DiskBytes(b, DataLba(i), n)
  {
    forall k | 0 <= k < n
      ensures a[DataLba(i) + k / SECTOR_SIZE] == b[DataLba(i) + k / SECTOR_SIZE]
    {
      assert k / SECTOR_SIZE < SECTORS_PER_FILE;
    }
  }

  /** Same live entries, same data: the same files. */
  lemma SameFiles(fa: Fs, a: Disk, fb: Fs, b: Disk, name: seq<byte>)
    requires Clean(fa.entries)
    requires forall i :: 0 <= i < MAX_FILES ==>
      Live(fa.entries[i]) == Live(fb.entries[i])
      && (Live(fa.entries[i]) ==> fa.entries[i] == fb.entries[i] && SameData(a, b, i))
    ensures File(fa, a, name) == File(fb, b, name)
  {
    SameFind(fa.entries, fb.entries, name, 0);
    var r := Find(fa.entries, name, 0);
    if r.Some? {
      assert CleanEntry(fa.entries[r.value], r.value);
      SameBytes(a, b, r.value, fa.entries[r.value].size);
    }
  }

  // ---------------------------------------------------------------- the effect of a finished operation

  lemma {:induction false} CStringOf(name: seq<byte>, rest: seq<byte>)
    requires 0 !in name
    ensures CString(name + [0] + rest) == name
  {
    var all := name + [0] + rest;
    if name != [] {
      CStringOf(name[1..], rest);
      assert all[1..] == name[1..] + [0] + rest;
      assert all[0] == name[0] && all[0] in name;
    }
  }

  lemma SuperRoundTrip(count: u32)
    ensures Signature(SuperSector(count)) && CountField(SuperSector(count)) == count
  {
    LeRoundTrip(count);
    LeRoundTrip(2);
  }

  /** Reading back the sectors a write put down gives the bytes written. */
  lemma DataRoundTrip(d: Disk, lba: nat, data: seq<byte>)
    requires lba + SECTORS_PER_FILE <= DISK_SECTORS && |data| <= MAX_FILE_SIZE
    requires forall s :: 0 <= s < SECTORS_PER_FILE ==> d[lba + s] == DataSector(data, s)
    ensures DiskBytes(d, lba, |data|) == data
  {
    forall k | 0 <= k < |data|
      ensures d[lba + k / SECTOR_SIZE][k % SECTOR_SIZE] == data[k]
    {
      var s := k / SECTOR_SIZE;
      assert d[lba + s] == DataSector(data, s) && SECTOR_SIZE * s + k % SECTOR_SIZE == k;
    }
  }

  // ---------------------------------------------------------------- mounting a half-written image

  /** What mounting finds when the sectors of entry i were rewritten from `after` as far as first/last. */
  lemma MountState(fs: Fs, disk: Disk, d: Disk, after: Entries, i: nat, first: bool, last: bool)
    requires Agree(fs, disk) && SuperOk(d) && i < MAX_FILES
    requires forall j :: 0 <= j < MAX_FILES && j != i ==> after[j] == fs.entries[j]
    requires DirState(disk, d, after, i, first, last)
    requires FirstDirSector(i) == LastDirSector(i) ==> first == last
    requires last ==> first
    ensures var (rc, m) := Init(d);
      && rc == 0 && m.available && m.count == LiveCount(m.entries, MAX_FILES)
      && (forall j :: 0 <= j < MAX_FILES && j != i ==> m.entries[j] == fs.entries[j])
      && (!first ==> m.entries[i] == fs.entries[i])
      && (last ==> m.entries[i] == Mounted(after[i], i))
      && (first && !last ==> (Live(m.entries[i]) <==> after[i].name[0] != 0 && Sound(fs.entries[i], i)))
  {
    var m := Init(d).1;
    forall j | 0 <= j < MAX_FILES && j != i ensures m.entries[j] == fs.entries[j] {
      OtherEntries(disk, d, fs.entries, after, i, first, last, j);
      MountsTo(d, j, fs.entries[j]);
    }
    assert CleanEntry(fs.entries[i], i);
    if !first {
      UnwrittenEntry(disk, d, after, i, fs.entries[i]);
      MountsTo(d, i, fs.entries[i]);
    } else if last {
      WrittenEntry(disk, d, after, i);
      ParseRoundTrip(d, i, after[i]);
    } else {
      TornEntry(disk, d, after, i, fs.entries[i]);
    }
  }

  // ---------------------------------------------------------------- creating a file

  /** The files after writing `data` under `name`. */
  function Updated(fs: Fs, disk: Disk, name: seq<byte>, data: Option<seq<byte>>, n: seq<byte>): Option<seq<byte>> {
    if n == name then data else File(fs, disk, n)
  }

  /** What a planned write does to memory, slot by slot. */
  ghost predicate WriteMemory(fs: Fs, done: Fs, i: nat, name: seq<byte>, size: nat) {
    && i < MAX_FILES && done.available && done.count == LiveCount(done.entries, MAX_FILES)
    && (forall j :: 0 <= j < MAX_FILES && j != i ==> done.entries[j] == fs.entries[j])
    && Live(done.entries[i]) && Sound(done.entries[i], i) && done.entries[i].size == size
    && CString(done.entries[i].name) == name
    && (Find(fs.entries, name, 0) == Some(i) || (Find(fs.entries, name, 0).None? && !Live(fs.entries[i])))
  }

  lemma WritePlanned(fs: Fs, name: seq<byte>, data: seq<byte>) returns (i: nat)
    requires Clean(fs.entries) && fs.count == LiveCount(fs.entries, MAX_FILES) && PlanWrite(fs, name, data).Plan?
    ensures var p := PlanWrite(fs, name, data);
      && WriteMemory(fs, p.done, i, name, |data|) && |data| <= MAX_FILE_SIZE && |name| < NAME_MAX
      && p.done.count <= MAX_FILES && p.writes == WriteWrites(i, DataLba(i), data, p.done.entries, p.done.count)
  {
    assert ValidName(name) && |name| < NAME_MAX && fs.available;
    hide WriteInto, CString, LiveCount, ValidName, Claim, Clean, Find;
    i := ClaimFacts(fs, name);
    var named := Claim(fs, name).value.1;
    assert PlanWrite(fs, name, data) == WriteInto(named, i, data);
    WriteIntoIs(fs, named, i, name, data);
  }

  lemma WriteIntoIs(fs: Fs, named: Fs, i: nat, name: seq<byte>, data: seq<byte>)
    requires i < MAX_FILES && |data| <= MAX_FILE_SIZE
    requires named.available && named.count == LiveCount(named.entries, MAX_FILES)
    requires forall j :: 0 <= j < MAX_FILES && j != i ==> named.entries[j] == fs.entries[j]
    requires Live(named.entries[i]) && named.entries[i].lba == DataLba(i) && CString(named.entries[i].name) == name
    requires Find(fs.entries, name, 0) == Some(i) || (Find(fs.entries, name, 0).None? && !Live(fs.entries[i]))
    ensures var p := WriteInto(named, i, data);
      && WriteMemory(fs, p.done, i, name, |data|)
      && p.done.count <= MAX_FILES && p.writes == WriteWrites(i, DataLba(i), data, p.done.entries, p.done.count)
  {
    hide WriteWrites, CString, LiveCount, Find;
    SizeSet(fs, named, WriteInto(named, i, data).done, i, name, |data|);
  }

  lemma SizeSet(fs: Fs, named: Fs, done: Fs, i: nat, name: seq<byte>, size: u32)
    requires i < MAX_FILES && size <= MAX_FILE_SIZE
    requires named.available && named.count == LiveCount(named.entries, MAX_FILES)
    requires forall j :: 0 <= j < MAX_FILES && j != i ==> named.entries[j] == fs.entries[j]
    requires Live(named.entries[i]) && named.entries[i].lba == DataLba(i) && CString(named.entries[i].name) == name
    requires Find(fs.entries, name, 0) == Some(i) || (Find(fs.entries, name, 0).None? && !Live(fs.entries[i]))
    requires done == named.(entries := named.entries[i := named.entries[i].(size := size)])
    ensures WriteMemory(fs, done, i, name, size)
  {
    hide CString, LiveCount, Find;
    CountUpdate(named.entries, i, done.entries[i], MAX_FILES);
  }

  /** Slot i of memory now has this name; nothing else has changed. */
  ghost predicate Claimed(fs: Fs, name: seq<byte>, i: nat, named: Fs) {
    && i < MAX_FILES && named.available == fs.available && named.count == LiveCount(named.entries, MAX_FILES)
    && (forall j :: 0 <= j < MAX_FILES && j != i ==> named.entries[j] == fs.entries[j])
    && Live(named.entries[i]) && named.entries[i].lba == DataLba(i) && CString(named.entries[i].name) == name
  }

  /** The slot a name claims, and what claiming it does to memory. */
  lemma ClaimFacts(fs: Fs, name: seq<byte>) returns (i: nat)
    requires Clean(fs.entries) && fs.count == LiveCount(fs.entries, MAX_FILES) && ValidName(name)
    requires Claim(fs, name).Some?
    ensures Claim(fs, name).value.0 == i && Claimed(fs, name, i, Claim(fs, name).value.1)
    ensures Find(fs.entries, name, 0) == Some(i) || (Find(fs.entries, name, 0).None? && !Live(fs.entries[i]))
  {
    assert |name| < NAME_MAX;
    hide LiveCount, CString, ValidName, Clean, Named, ZeroEntry, DataLba, CleanEntry, Find, FreeEntry, Claimed;
    i := Claim(fs, name).value.0;
    CleanSlot(fs.entries, i);
    if Find(fs.entries, name, 0).None? {
      ClaimsFree(fs, name, i);
    } else {
      ClaimsFound(fs, name, i);
    }
  }

  lemma ClaimsFound(fs: Fs, name: seq<byte>, i: nat)
    requires Find(fs.entries, name, 0) == Some(i) && fs.count == LiveCount(fs.entries, MAX_FILES)
    requires fs.entries[i].lba == DataLba(i)
    ensures Claimed(fs, name, i, fs)
  {
    hide LiveCount, CString;
  }

  lemma CleanSlot(entries: Entries, i: nat)
    requires Clean(entries) && i < MAX_FILES
    ensures Live(entries[i]) ==> entries[i].lba == DataLba(i)
  {
    assert CleanEntry(entries[i], i);
  }

  lemma ClaimsFree(fs: Fs, name: seq<byte>, i: nat)
    requires ValidName(name) && i < MAX_FILES && !Live(fs.entries[i]) && fs.count == LiveCount(fs.entries, MAX_FILES)
    ensures |name| < NAME_MAX && Claimed(fs, name, i, Named(fs, i, name))
  {
    CopiedName(fs.entries[i].name, name);
    hide LiveCount, CString, CopyName, ValidName;
    var named := Named(fs, i, name);
    CountUpdate(fs.entries, i, named.entries[i], MAX_FILES);
  }

  lemma CopiedName(buffer: Name, name: seq<byte>)
    requires ValidName(name)
    ensures CString(CopyName(buffer, name)) == name && CopyName(buffer, name)[0] != 0
  {
    CStringOf(name, buffer[|name| + 1..]);
    assert name[0] in name;
  }

  /** Names stay distinct when slot i takes a name no other slot has. */
  lemma CleanWith(entries: Entries, after: Entries, i: nat, name: seq<byte>)
    requires Clean(entries) && i < MAX_FILES && |name| < NAME_MAX
    requires forall j :: 0 <= j < MAX_FILES && j != i ==> after[j] == entries[j]
    requires Live(after[i]) && Sound(after[i], i) && CString(after[i].name) == name
    requires Find(entries, name, 0) == Some(i) || Find(entries, name, 0).None?
    ensures Clean(after)
    ensures Find(after, name, 0) == Some(i)
  {
    forall j | 0 <= j < MAX_FILES && j != i
      ensures !(Live(after[j]) && CString(after[j].name) == name)
    {
      if Live(entries[j]) && Find(entries, name, 0) == Some(i) {
        assert CString(entries[i].name) != CString(entries[j].name);
      }
    }
    forall j | 0 <= j < MAX_FILES ensures CleanEntry(after[j], j) {
      assert CleanEntry(entries[j], j);
    }
    FindUnique(after, name, i, 0);
  }

  /** For every other name the two tables find the same slot. */
  lemma {:induction false} FindOther(a: Entries, b: Entries, i: nat, n: seq<byte>, from: nat)
    requires from <= MAX_FILES && i < MAX_FILES
    requires forall j :: 0 <= j < MAX_FILES && j != i ==> a[j] == b[j]
    requires !(Live(a[i]) && CString(a[i].name) == n) && !(Live(b[i]) && CString(b[i].name) == n)
    ensures Find(a, n, from) == Find(b, n, from)
    ensures Find(a, n, from) != Some(i)
    decreases MAX_FILES - from
  {
    if from < MAX_FILES {
      FindOther(a, b, i, n, from + 1);
    }
  }

  /** The disk after the first j writes of a planned write: the directory of `entries` as far as it got,
      the bytes of `data` once all data sectors are down, and nobody else's data. */
  lemma WriteLands(disk: Disk, i: nat, data: seq<byte>, entries: Entries, count: u32, j: nat)
    requires i < MAX_FILES && |data| <= MAX_FILE_SIZE && count <= MAX_FILES && SuperOk(disk)
    requires j <= |WriteWrites(i, DataLba(i), data, entries, count)|
    ensures var w := WriteWrites(i, DataLba(i), data, entries, count); var d := Apply(disk, w[..j]);
      && SuperOk(d)
      && DirState(disk, d, entries, i, j > 9, j == |w|)
      && (forall k :: 0 <= k < MAX_FILES && k != i ==> SameData(disk, d, k))
      && (j >= 8 ==> DiskBytes(d, DataLba(i), |data|) == data)
  {
    var w := WriteWrites(i, DataLba(i), data, entries, count);
    WriteShape(i, data, entries, count);
    hide WriteWrites, EntryWrites, DirSector, SuperSector, DataSector, DiskBytes, Apply, Signature, CountField;
    DirAfter(disk, w, 9, entries, i, j, j > 9, j == |w|);
    SuperRoundTrip(count);
    if j > 8 {
      PrefixHit(disk, w, j, 8);
    } else {
      PrefixMiss(disk, w, j, SUPER_LBA);
    }
    WriteLandsData(disk, i, data, w, j);
  }

  lemma WriteLandsData(disk: Disk, i: nat, data: seq<byte>, w: seq<Write>, j: nat)
    requires i < MAX_FILES && |data| <= MAX_FILE_SIZE && j <= |w| && 9 <= |w| && DistinctLbas(w)
    requires forall t :: 0 <= t < 8 ==> w[t] == Write(DataLba(i) + t, DataSector(data, t))
    requires forall t :: 8 <= t < |w| ==> w[t].lba < DATA_LBA
    ensures var d := Apply(disk, w[..j]);
      && (forall k :: 0 <= k < MAX_FILES && k != i ==> SameData(disk, d, k))
      && (j >= 8 ==> DiskBytes(d, DataLba(i), |data|) == data)
  {
    hide Apply, DataSector, DiskBytes;
    var d := Apply(disk, w[..j]);
    forall k, l | 0 <= k < MAX_FILES && k != i && DataLba(k) <= l < DataLba(k) + SECTORS_PER_FILE
      ensures disk[l] == d[l]
    {
      PrefixMiss(disk, w, j, l);
    }
    if j >= 8 {
      forall s | 0 <= s < SECTORS_PER_FILE ensures d[DataLba(i) + s] == DataSector(data, s) {
        PrefixHit(disk, w, j, s);
      }
      DataRoundTrip(d, DataLba(i), data);
    }
  }

  /** After a write completes, memory and disk agree again and exactly that file changed. */
  lemma WriteAgrees(fs: Fs, disk: Disk, name: seq<byte>, data: seq<byte>, n: seq<byte>)
    requires Agree(fs, disk) && PlanWrite(fs, name, data).Plan?
    ensures var p := PlanWrite(fs, name, data); var d := Apply(disk, p.writes);
      Agree(p.done, d) && File(p.done, d, n) == Updated(fs, disk, name, Some(data), n)
  {
    var p := PlanWrite(fs, name, data);
    var i := WritePlanned(fs, name, data);
    hide PlanWrite, Apply, WriteWrites, DirState, DiskBytes, EntryOnDisk, ValidName;
    var w := p.writes;
    assert w[..|w|] == w;
    WriteLands(disk, i, data, p.done.entries, p.done.count, |w|);
    WriteEffect(fs, disk, p.done, Apply(disk, w), i, name, data, n);
  }

  lemma WriteEffect(fs: Fs, disk: Disk, after: Fs, d: Disk, i: nat, name: seq<byte>, data: seq<byte>, n: seq<byte>)
    requires Agree(fs, disk) && SuperOk(d) && i < MAX_FILES && |data| <= MAX_FILE_SIZE && |name| < NAME_MAX
    requires after.available && after.count == LiveCount(after.entries, MAX_FILES)
    requires forall j :: 0 <= j < MAX_FILES && j != i ==> after.entries[j] == fs.entries[j]
    requires Live(after.entries[i]) && Sound(after.entries[i], i) && after.entries[i].size == |data|
    requires CString(after.entries[i].name) == name
    requires Find(fs.entries, name, 0) == Some(i) || (Find(fs.entries, name, 0).None? && !Live(fs.entries[i]))
    requires DirState(disk, d, after.entries, i, true, true)
    requires forall k :: 0 <= k < MAX_FILES && k != i ==> SameData(disk, d, k)
    requires DiskBytes(d, DataLba(i), |data|) == data
    ensures Agree(after, d) && File(after, d, n) == Updated(fs, disk, name, Some(data), n)
  {
    CleanWith(fs.entries, after.entries, i, name);
    hide DiskBytes;
    forall j | 0 <= j < MAX_FILES ensures Matches(d, j, after.entries[j]) {
      if j == i {
        WrittenEntry(disk, d, after.entries, i);
        OnDiskMatches(d, i, after.entries[i]);
      } else {
        OtherEntries(disk, d, fs.entries, after.entries, i, true, true, j);
      }
    }
    if n != name {
      OtherFiles(fs, disk, after, d, i, name, n);
    }
  }

  /** Changing slot i, which holds or will hold `name`, changes no other file. */
  lemma OtherFiles(fs: Fs, disk: Disk, after: Fs, d: Disk, i: nat, name: seq<byte>, n: seq<byte>)
    requires Clean(fs.entries) && i < MAX_FILES && n != name
    requires forall j :: 0 <= j < MAX_FILES && j != i ==> after.entries[j] == fs.entries[j] && SameData(disk, d, j)
    requires Live(fs.entries[i]) ==> CString(fs.entries[i].name) == name
    requires Live(after.entries[i]) ==> CString(after.entries[i].name) == name
    ensures File(after, d, n) == File(fs, disk, n)
  {
    FindOther(fs.entries, after.entries, i, n, 0);
    var r := Find(fs.entries, n, 0);
    if r.Some? {
      assert CleanEntry(fs.entries[r.value], r.value);
      SameBytes(disk, d, r.value, fs.entries[r.value].size);
    }
  }

  /** The slot a new file takes straddles two sectors, only the first of them was written, and a removal cut
      short has left the slot with the size and place of a file. */
  predicate Unlucky(fs: Fs, j: nat) {
    var i := FreeEntry(fs.entries, 0);
    i.Some? && FirstDirSector(i.value) != LastDirSector(i.value) && j == 10 && Stale(fs.entries[i.value], i.value)
  }

  /** Crash atomicity of creation: after any prefix of its sector writes, mounting finds the old files,
      and the new file as well exactly when every write was done; except in the one unlucky case, where a file
      appears that was never written. Without an earlier crash no slot is stale and there is no such case. */
  lemma CreateCrash(fs: Fs, disk: Disk, name: seq<byte>, data: seq<byte>, j: nat, n: seq<byte>)
    requires Agree(fs, disk) && PlanWrite(fs, name, data).Plan? && Find(fs.entries, name, 0).None?
    requires j <= |PlanWrite(fs, name, data).writes|
    ensures NoneStale(fs.entries) ==> !Unlucky(fs, j)
    ensures var w := PlanWrite(fs, name, data).writes; var d := Apply(disk, w[..j]); var (rc, m) := Init(d);
      && rc == 0 && m.available && m.count == LiveCount(m.entries, MAX_FILES)
      && (if Unlucky(fs, j) then LiveCount(m.entries, MAX_FILES) == LiveCount(fs.entries, MAX_FILES) + 1
          else File(m, d, n) == (if j == |w| then Updated(fs, disk, name, Some(data), n) else File(fs, disk, n)))
  {
    hide PlanWrite, Apply, WriteWrites, DirState, DiskBytes, CString, Init, LiveCount, Find, File, Updated, FreeEntry;
    hide Agree, Stale, SuperOk, Clean;
    AgreeParts(fs, disk);
    var p := PlanWrite(fs, name, data);
    var i := WritePlanned(fs, name, data);
    NewSlot(fs, name, data, i);
    var w := p.writes;
    var d := Apply(disk, w[..j]);
    WriteLands(disk, i, data, p.done.entries, p.done.count, j);
    WriteTotal(i, DataLba(i), data, p.done.entries, p.done.count);
    if Unlucky(fs, j) {
      UnluckyMounted(fs, disk, d, p.done, i, name, |data|);
    } else {
      CreateMounted(fs, disk, d, p.done, i, name, data, j > 9, j == |w|, n);
    }
  }

  lemma AgreeParts(fs: Fs, disk: Disk)
    requires Agree(fs, disk)
    ensures Clean(fs.entries) && fs.count == LiveCount(fs.entries, MAX_FILES) && SuperOk(disk) && fs.available
  {}

  /** A new file takes the first free slot. */
  lemma NewSlot(fs: Fs, name: seq<byte>, data: seq<byte>, i: nat)
    requires PlanWrite(fs, name, data).Plan? && Find(fs.entries, name, 0).None? && i < MAX_FILES
    requires WriteMemory(fs, PlanWrite(fs, name, data).done, i, name, |data|)
    ensures FreeEntry(fs.entries, 0) == Some(i) && !Live(fs.entries[i])
    ensures NoneStale(fs.entries) ==> !Stale(fs.entries[i], i)
  {
    hide Find, WriteWrites, LiveCount, CString, CopyName, ValidName;
    var k := FreeEntry(fs.entries, 0).value;
    assert PlanWrite(fs, name, data).done.entries[k] != fs.entries[k];
  }

  /** The unlucky case: one file more. */
  lemma UnluckyMounted(fs: Fs, disk: Disk, d: Disk, done: Fs, i: nat, name: seq<byte>, size: nat)
    requires Agree(fs, disk) && SuperOk(d) && WriteMemory(fs, done, i, name, size) && Stale(fs.entries[i], i)
    requires DirState(disk, d, done.entries, i, true, false) && FirstDirSector(i) != LastDirSector(i)
    ensures var (rc, m) := Init(d);
      && rc == 0 && m.available && m.count == LiveCount(m.entries, MAX_FILES)
      && LiveCount(m.entries, MAX_FILES) == LiveCount(fs.entries, MAX_FILES) + 1
  {
    hide DirState, CString, Init, LiveCount, Find, SuperOk, Agree, Mounted, Sound;
    MountState(fs, disk, d, done.entries, i, true, false);
    StaleFacts(fs.entries[i], i);
    var m := Init(d).1;
    CountUpdate(fs.entries, i, m.entries[i], MAX_FILES);
    assert m.entries == fs.entries[i := m.entries[i]];
  }

  lemma StaleFacts(e: Entry, i: nat)
    ensures Stale(e, i) <==> !Live(e) && Sound(e, i)
  {}

  lemma CreateMounted(fs: Fs, disk: Disk, d: Disk, done: Fs, i: nat, name: seq<byte>, data: seq<byte>,
                      first: bool, last: bool, n: seq<byte>)
    requires Agree(fs, disk) && SuperOk(d) && WriteMemory(fs, done, i, name, |data|) && !Live(fs.entries[i])
    requires first && !last ==> !Stale(fs.entries[i], i)
    requires |data| <= MAX_FILE_SIZE && |name| < NAME_MAX && DirState(disk, d, done.entries, i, first, last)
    requires (last ==> first) && (FirstDirSector(i) == LastDirSector(i) ==> first == last)
    requires forall k :: 0 <= k < MAX_FILES && k != i ==> SameData(disk, d, k)
    requires last ==> DiskBytes(d, DataLba(i), |data|) == data
    ensures var (rc, m) := Init(d);
      && rc == 0 && m.available && m.count == LiveCount(m.entries, MAX_FILES)
      && File(m, d, n) == if last then Updated(fs, disk, name, Some(data), n) else File(fs, disk, n)
  {
    hide DirState, DiskBytes, CString, Init, LiveCount, Find, SuperOk, Agree, SameData, File, Updated, Clean;
    AgreeParts(fs, disk);
    MountState(fs, disk, d, done.entries, i, first, last);
    var m := Init(d).1;
    if last {
      CreatedFile(fs, disk, m, d, done, i, name, data, n);
    } else {
      SlotUnused(fs, disk, m, d, i, n);
    }
  }

  /** Slot i is not in use before or after, and nothing else has changed. */
  lemma SlotUnused(fs: Fs, disk: Disk, m: Fs, d: Disk, i: nat, n: seq<byte>)
    requires Clean(fs.entries) && i < MAX_FILES && !Live(fs.entries[i]) && !Live(m.entries[i])
    requires forall j :: 0 <= j < MAX_FILES && j != i ==> m.entries[j] == fs.entries[j] && SameData(disk, d, j)
    ensures File(m, d, n) == File(fs, disk, n)
  {
    hide SameData, CString, Find, File, Clean;
    SameFiles(fs, disk, m, d, n);
  }

  lemma WriteTotal(i: nat, lba: nat, data: seq<byte>, entries: Entries, count: u32)
    requires i < MAX_FILES
    ensures |WriteWrites(i, lba, data, entries, count)| == (if FirstDirSector(i) == LastDirSector(i) then 10 else 11)
  {
    EntryWriteLbas(entries, i);
  }

  lemma CreatedFile(fs: Fs, disk: Disk, m: Fs, d: Disk, done: Fs, i: nat, name: seq<byte>, data: seq<byte>,
                    n: seq<byte>)
    requires Clean(fs.entries) && WriteMemory(fs, done, i, name, |data|) && |data| <= MAX_FILE_SIZE && |name| < NAME_MAX
    requires forall j :: 0 <= j < MAX_FILES ==> m.entries[j] == done.entries[j]
    requires forall k :: 0 <= k < MAX_FILES && k != i ==> SameData(disk, d, k)
    requires DiskBytes(d, DataLba(i), |data|) == data
    ensures File(m, d, n) == Updated(fs, disk, name, Some(data), n)
  {
    hide DiskBytes, LiveCount;
    assert m.entries == done.entries;
    CleanWith(fs.entries, done.entries, i, name);
    if n != name {
      OtherFiles(fs, disk, m, d, i, name, n);
    }
  }

  // ---------------------------------------------------------------- removing a file

  ghost predicate RemoveMemory(fs: Fs, done: Fs, i: nat, name: seq<byte>) {
    && i < MAX_FILES && done.available && done.count == LiveCount(done.entries, MAX_FILES)
    && (forall j :: 0 <= j < MAX_FILES && j != i ==> done.entries[j] == fs.entries[j])
    && done.entries[i] == ZeroEntry() && Find(fs.entries, name, 0) == Some(i)
  }

  lemma RemovePlanned(fs: Fs, name: seq<byte>) returns (i: nat)
    requires Clean(fs.entries) && fs.count == LiveCount(fs.entries, MAX_FILES) && PlanRemove(fs, name).Plan?
    ensures var p := PlanRemove(fs, name);
      && RemoveMemory(fs, p.done, i, name)
      && p.done.count <= MAX_FILES && p.writes == RemoveWrites(i, p.done.entries, p.done.count)
  {
    hide RemoveWrites, CString, Clean;
    i := Find(fs.entries, name, 0).value;
    CountUpdate(fs.entries, i, ZeroEntry(), MAX_FILES);
    assert PlanRemove(fs, name).done.entries == fs.entries[i := ZeroEntry()];
  }

  lemma RemoveShape(i: nat, entries: Entries, count: u32)
    requires i < MAX_FILES
    ensures var w := RemoveWrites(i, entries, count);
      && |w| == (if FirstDirSector(i) == LastDirSector(i) then 2 else 3) && DistinctLbas(w)
      && w[1..] == EntryWrites(entries, i) && w[0] == Write(SUPER_LBA, SuperSector(count))
      && (forall t :: 0 <= t < |w| ==> w[t].lba < DATA_LBA)
  {
    EntryWriteLbas(entries, i);
    RemoveWritesDistinct(i, entries, count);
    var w, e := RemoveWrites(i, entries, count), EntryWrites(entries, i);
    assert forall t :: 1 <= t < |w| ==> w[t] == e[t - 1];
  }

  lemma RemoveLands(disk: Disk, i: nat, entries: Entries, count: u32, j: nat)
    requires i < MAX_FILES && count <= MAX_FILES && SuperOk(disk) && j <= |RemoveWrites(i, entries, count)|
    ensures var w := RemoveWrites(i, entries, count); var d := Apply(disk, w[..j]);
      && SuperOk(d) && DirState(disk, d, entries, i, j > 1, j == |w|)
      && (forall k :: 0 <= k < MAX_FILES ==> SameData(disk, d, k))
  {
    var w := RemoveWrites(i, entries, count);
    RemoveShape(i, entries, count);
    hide RemoveWrites, EntryWrites, DirSector, SuperSector, Apply, Signature, CountField;
    DirAfter(disk, w, 1, entries, i, j, j > 1, j == |w|);
    SuperRoundTrip(count);
    var d := Apply(disk, w[..j]);
    if j > 0 {
      PrefixHit(disk, w, j, 0);
    } else {
      PrefixMiss(disk, w, j, SUPER_LBA);
    }
    forall k, l | 0 <= k < MAX_FILES && DataLba(k) <= l < DataLba(k) + SECTORS_PER_FILE
      ensures disk[l] == d[l]
    {
      PrefixMiss(disk, w, j, l);
    }
  }

  lemma RemovedFile(fs: Fs, disk: Disk, m: Fs, d: Disk, i: nat, name: seq<byte>, n: seq<byte>)
    requires Clean(fs.entries) && i < MAX_FILES && Find(fs.entries, name, 0) == Some(i)
    requires forall j :: 0 <= j < MAX_FILES && j != i ==> m.entries[j] == fs.entries[j] && SameData(disk, d, j)
    requires !Live(m.entries[i])
    ensures File(m, d, n) == Updated(fs, disk, name, None, n)
  {
    hide DiskBytes, Find;
    if n != name {
      OtherFiles(fs, disk, m, d, i, name, n);
    } else {
      OnlyThere(fs.entries, i, name);
    }
  }

  /** In a clean table no other slot has this name. */
  lemma OnlyThere(entries: Entries, i: nat, name: seq<byte>)
    requires Clean(entries) && i < MAX_FILES && Find(entries, name, 0) == Some(i)
    ensures forall j :: 0 <= j < MAX_FILES && j != i && Live(entries[j]) ==> CString(entries[j].name) != name
  {}

  /** Crash atomicity of removal: after any prefix of its sector writes, mounting finds the files as they
      were, or without that one; the first directory write decides. */
  lemma RemoveCrash(fs: Fs, disk: Disk, name: seq<byte>, j: nat, n: seq<byte>)
    requires Agree(fs, disk) && PlanRemove(fs, name).Plan? && j <= |PlanRemove(fs, name).writes|
    ensures var d := Apply(disk, PlanRemove(fs, name).writes[..j]); var (rc, m) := Init(d);
      && rc == 0 && m.available && m.count == LiveCount(m.entries, MAX_FILES)
      && File(m, d, n) == if j >= 2 then Updated(fs, disk, name, None, n) else File(fs, disk, n)
  {
    var p := PlanRemove(fs, name);
    var i := RemovePlanned(fs, name);
    hide PlanRemove, Apply, RemoveWrites, DirState, EntryOnDisk, CString, Init, LiveCount, Find, File, Updated, SuperOk;
    var w := p.writes;
    RemoveLands(disk, i, p.done.entries, p.done.count, j);
    RemoveShape(i, p.done.entries, p.done.count);
    RemoveMounted(fs, disk, Apply(disk, w[..j]), p.done, i, name, j > 1, j == |w|, n);
  }

  lemma RemoveMounted(fs: Fs, disk: Disk, d: Disk, done: Fs, i: nat, name: seq<byte>, first: bool, last: bool,
                      n: seq<byte>)
    requires Agree(fs, disk) && SuperOk(d) && RemoveMemory(fs, done, i, name)
    requires DirState(disk, d, done.entries, i, first, last)
    requires (last ==> first) && (FirstDirSector(i) == LastDirSector(i) ==> first == last)
    requires forall k :: 0 <= k < MAX_FILES ==> SameData(disk, d, k)
    ensures var (rc, m) := Init(d);
      && rc == 0 && m.available && m.count == LiveCount(m.entries, MAX_FILES)
      && File(m, d, n) == if first then Updated(fs, disk, name, None, n) else File(fs, disk, n)
  {
    MountState(fs, disk, d, done.entries, i, first, last);
    hide DirState, CString, Init, LiveCount, Find, SuperOk, DirMatches, File, Updated;
    var m := Init(d).1;
    if first {
      assert !Live(m.entries[i]);
      RemovedFile(fs, disk, m, d, i, name, n);
    } else {
      SameFiles(fs, disk, m, d, n);
    }
  }

  /** After a removal completes, memory and disk agree again and exactly that file is gone. */
  lemma RemoveAgrees(fs: Fs, disk: Disk, name: seq<byte>, n: seq<byte>)
    requires Agree(fs, disk) && PlanRemove(fs, name).Plan?
    ensures var p := PlanRemove(fs, name); var d := Apply(disk, p.writes);
      Agree(p.done, d) && File(p.done, d, n) == Updated(fs, disk, name, None, n)
  {
    var p := PlanRemove(fs, name);
    var i := RemovePlanned(fs, name);
    hide PlanRemove, Apply, RemoveWrites, DirState, EntryOnDisk, SuperOk, File, Updated;
    var w := p.writes;
    assert w[..|w|] == w;
    RemoveLands(disk, i, p.done.entries, p.done.count, |w|);
    RemoveShape(i, p.done.entries, p.done.count);
    RemoveEffect(fs, disk, p.done, Apply(disk, w), i, name);
    RemovedFile(fs, disk, p.done, Apply(disk, w), i, name, n);
  }

  lemma RemoveEffect(fs: Fs, disk: Disk, after: Fs, d: Disk, i: nat, name: seq<byte>)
    requires Agree(fs, disk) && SuperOk(d) && RemoveMemory(fs, after, i, name)
    requires DirState(disk, d, after.entries, i, true, true)
    ensures Agree(after, d)
  {
    hide CString, Find, LiveCount;
    forall j | 0 <= j < MAX_FILES
      ensures Matches(d, j, after.entries[j]) && CleanEntry(after.entries[j], j)
    {
      assert CleanEntry(fs.entries[j], j);
      if j == i {
        WrittenEntry(disk, d, after.entries, i);
        OnDiskMatches(d, i, after.entries[i]);
      } else {
        OtherEntries(disk, d, fs.entries, after.entries, i, true, true, j);
      }
    }
  }

  // ---------------------------------------------------------------- whole histories

  datatype Op = WriteFile(name: seq<byte>, data: seq<byte>) | RemoveFile(name: seq<byte>)

  function PlanOf(fs: Fs, op: Op): Plan {
    match op
    case WriteFile(name, data) => PlanWrite(fs, name, data)
    case RemoveFile(name) => PlanRemove(fs, name)
  }

  /** Run the operations one after another on a device that performs every write; a refused operation
      does nothing. */
  function RunOps(fs: Fs, disk: Disk, ops: seq<Op>): (Fs, Disk) {
    if ops == [] then (fs, disk)
    else
      var (f, d) := RunOps(fs, disk, ops[..|ops| - 1]);
      match PlanOf(f, ops[|ops| - 1])
      case Refused => (f, d)
      case Plan(_, done, writes) => (done, Apply(d, writes))
  }

  /** The last word on a name: what the history wrote to it, if the operation was accepted. */
  function Model(fs: Fs, disk: Disk, ops: seq<Op>, n: seq<byte>): Option<seq<byte>> {
    if ops == [] then File(fs, disk, n)
    else
      var f := RunOps(fs, disk, ops[..|ops| - 1]).0;
      var before := Model(fs, disk, ops[..|ops| - 1], n);
      match ops[|ops| - 1]
      case WriteFile(name, data) => if PlanWrite(f, name, data).Plan? && n == name then Some(data) else before
      case RemoveFile(name) => if PlanRemove(f, name).Plan? && n == name then None else before
  }

  /** After any history, mounting the disk again gives back the driver's memory, and every name reads
      back the last bytes written to it. */
  lemma {:induction false} HistoryAgrees(fs: Fs, disk: Disk, ops: seq<Op>, n: seq<byte>)
    requires Agree(fs, disk)
    ensures var (f, d) := RunOps(fs, disk, ops);
      && Agree(f, d) && Init(d) == (0, f)
      && File(f, d, n) == Model(fs, disk, ops, n)
  {
    hide Agree, File, Apply, PlanWrite, PlanRemove, Init;
    if ops != [] {
      HistoryAgrees(fs, disk, ops[..|ops| - 1], n);
      var (f, d) := RunOps(fs, disk, ops[..|ops| - 1]);
      match ops[|ops| - 1]
      case WriteFile(name, data) => if PlanWrite(f, name, data).Plan? { WriteAgrees(f, d, name, data, n); }
      case RemoveFile(name) => if PlanRemove(f, name).Plan? { RemoveAgrees(f, d, name, n); }
    }
    var (f, d) := RunOps(fs, disk, ops);
    MountAgrees(f, d);
  }
}
