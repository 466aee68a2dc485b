/** src/diskfs.c in place: one sector buffer, the entry table, and a device that may stop accepting
    writes after any of them. */
module DiskFsDriver {
  import opened Common
  import opened DiskFs

  /** The disk. `budget` is how many more sector writes it will perform: running out models a device
      error or a power cut between two writes. */
  class Ata {
    const sectors: array<Sector>
    var budget: nat

    constructor (budget: nat)
      ensures sectors.Length == DISK_SECTORS && fresh(sectors) && this.budget == budget
    {
      sectors := new Sector[DISK_SECTORS](_ => ZeroSector());
      this.budget := budget;
    }

    function Image(): Disk
      requires sectors.Length == DISK_SECTORS
      reads this, sectors
    {
      sectors[..]
    }

    method WriteSector(lba: nat, data: Sector) returns (ok: bool)
      requires sectors.Length == DISK_SECTORS && lba < DISK_SECTORS
      modifies this, sectors
      ensures ok == (old(budget) > 0)
      ensures ok ==> Image() == old(Image())[lba := data] && budget == old(budget) - 1
      ensures !ok ==> Image() == old(Image()) && budget == old(budget)
    {
      if budget == 0 { return false; }
      sectors[lba] := data;
      budget := budget - 1;
      ok := true;
    }
  }

  /** After the first k of these writes the device stops, or all are done. */
  function Reached(budget: nat, total: nat): nat { if budget < total then budget else total }

  class Driver {
    const ata: Ata
    const entries: array<Entry>
    const sector: array<byte>
    var fileCount: nat
    var available: bool

    ghost predicate Wired()
      reads this, ata
    {
      && ata.sectors.Length == DISK_SECTORS && entries.Length == MAX_FILES && sector.Length == SECTOR_SIZE
      && ata.sectors as object != entries as object && ata.sectors as object != sector as object
      && entries as object != sector as object
    }

    function State(): Fs
      requires Wired()
      reads this, ata, entries
    {
      Fs(entries[..], fileCount, available)
    }

    constructor (ata: Ata)
      requires ata.sectors.Length == DISK_SECTORS
      ensures Wired() && this.ata == ata && fresh(entries) && fresh(sector)
    {
      this.ata := ata;
      entries := new Entry[MAX_FILES](_ => ZeroEntry());
      sector := new byte[SECTOR_SIZE](_ => 0);
      fileCount, available := 0, false;
    }

    // ------------------------------------------------------------ the sector buffer

    method ZeroSectorBuffer()
      requires Wired()
      modifies sector
      ensures sector[..] == ZeroSector()
    {
      for i := 0 to SECTOR_SIZE
        invariant forall j :: 0 <= j < i ==> sector[j] == 0
      {
        sector[i] := 0;
      }
    }

    /** Slice s of the bytes to write, padded with zeros. */
    method FillData(data: seq<byte>, s: nat)
      requires Wired() && s < SECTORS_PER_FILE && |data| <= MAX_FILE_SIZE
      modifies sector
      ensures sector[..] == DataSector(data, s)
    {
      ZeroSectorBuffer();
      var from := SECTOR_SIZE * s;
      var remaining := if from < |data| then |data| - from else 0;
      var n := if remaining > SECTOR_SIZE then SECTOR_SIZE else remaining;
      for i := 0 to n
        invariant forall j :: 0 <= j < SECTOR_SIZE ==> sector[j] == if j < i then data[from + j] else 0
      {
        sector[i] := data[from + i];
      }
      assert sector[..] == DataSector(data, s);
    }

    method FillDirectory(s: nat)
      requires Wired() && s < DIR_SECTORS
      modifies sector
      ensures sector[..] == DirSector(entries[..], s)
    {
      ZeroSectorBuffer();
      var off := s * SECTOR_SIZE;
      var n := DIR_BYTES - off;
      if n > SECTOR_SIZE { n := SECTOR_SIZE; }
      for i := 0 to n
        invariant forall j :: 0 <= j < SECTOR_SIZE ==> sector[j] == if j < i then TableByte(entries[..], off + j) else 0
      {
        sector[i] := TableByte(entries[..], off + i);
      }
      forall j | 0 <= j < SECTOR_SIZE ensures sector[j] == SectorByte(entries[..], s, j) {}
    }

    // ------------------------------------------------------------ metadata writes

    method WriteDirectorySector(s: nat) returns (ok: bool)
      requires Wired() && s < DIR_SECTORS
      modifies sector, ata, ata.sectors
      ensures ok == (old(ata.budget) > 0)
      ensures ok ==>
        ata.Image() == old(ata.Image())[DIR_LBA + s := DirSector(entries[..], s)] && ata.budget == old(ata.budget) - 1
      ensures !ok ==> ata.Image() == old(ata.Image()) && ata.budget == old(ata.budget)
    {
      FillDirectory(s);
      ok := ata.WriteSector(DIR_LBA + s, sector[..]);
    }

    /** Store a 32-bit word in the buffer, low byte first. */
    method PutWord(off: nat, v: u32)
      requires Wired() && off + 4 <= SECTOR_SIZE
      modifies sector
      ensures forall j :: 0 <= j < SECTOR_SIZE ==>
        sector[j] == if off <= j < off + 4 then Le(v, j - off) else old(sector[j])
    {
      hide Le;
      for k := 0 to 4
        invariant forall j :: 0 <= j < SECTOR_SIZE ==>
          sector[j] == if off <= j < off + k then Le(v, j - off) else old(sector[j])
      {
        sector[off + k] := Le(v, k);
      }
    }

    method FillSuper(n: u32)
      requires Wired()
      modifies sector
      ensures sector[..] == SuperSector(n)
    {
      ZeroSectorBuffer();
      var magic: seq<byte> := [76, 73, 79, 78, 70, 83, 49];
      for k := 0 to 7
        invariant forall j :: 0 <= j < SECTOR_SIZE ==> sector[j] == if j < k then magic[j] else 0
      {
        sector[k] := magic[k];
      }
      PutWord(8, VERSION);
      PutWord(12, n);
      forall j | 0 <= j < SECTOR_SIZE ensures sector[j] == SuperByte(n, j) {}
    }

    method SaveSuper() returns (ok: bool)
      requires Wired()
      modifies sector, ata, ata.sectors
      ensures ok == (old(ata.budget) > 0)
      ensures ok ==>
        ata.Image() == old(ata.Image())[SUPER_LBA := SuperSector(fileCount % U32)] && ata.budget == old(ata.budget) - 1
      ensures !ok ==> ata.Image() == old(ata.Image()) && ata.budget == old(ata.budget)
    {
      FillSuper(fileCount % U32);
      ok := ata.WriteSector(SUPER_LBA, sector[..]);
    }

    method WriteEntrySectors(i: nat) returns (ok: bool)
      requires Wired() && i < MAX_FILES
      modifies sector, ata, ata.sectors
      ensures var w := EntryWrites(entries[..], i);
        && ata.Image() == Apply(old(ata.Image()), w[..Reached(old(ata.budget), |w|)])
        && ok == (old(ata.budget) >= |w|) && ata.budget == old(ata.budget) - Reached(old(ata.budget), |w|)
    {
      var first, last := FirstDirSector(i), LastDirSector(i);
      ghost var w, d, b := EntryWrites(entries[..], i), ata.Image(), ata.budget;
      EntrySpan(i);
      ok := WriteDirectorySector(first);
      Extend(d, w, 0);
      if !ok { return; }
      if last > first {
        ok := WriteDirectorySector(last);
        Extend(d, w, 1);
      }
    }

    // ------------------------------------------------------------ looking up

    method FindEntry(name: seq<byte>) returns (r: Option<nat>)
      requires Wired()
      ensures r == Find(entries[..], name, 0)
    {
      var i := 0;
      while i < MAX_FILES
        invariant 0 <= i <= MAX_FILES && Find(entries[..], name, 0) == Find(entries[..], name, i)
      {
        if Live(entries[i]) && CString(entries[i].name) == name { return Some(i); }
        i := i + 1;
      }
      r := None;
    }

    method FindFree() returns (r: Option<nat>)
      requires Wired()
      ensures r == FreeEntry(entries[..], 0)
    {
      var i := 0;
      while i < MAX_FILES
        invariant 0 <= i <= MAX_FILES && FreeEntry(entries[..], 0) == FreeEntry(entries[..], i)
      {
        if !Live(entries[i]) { return Some(i); }
        i := i + 1;
      }
      r := None;
    }

    // ------------------------------------------------------------ writing and removing

    /** Give an unknown name the first free slot, in memory only. */
    method ClaimSlot(name: seq<byte>) returns (r: Option<nat>)
      requires Wired() && |name| < NAME_MAX
      modifies this`fileCount, entries
      ensures match Claim(old(State()), name)
        case None => r == None && State() == old(State())
        case Some((i, named)) => r == Some(i) && State() == named
    {
      r := FindEntry(name);
      if r.None? {
        r := FindFree();
        if r.Some? {
          NameSlot(r.value, name);
        }
      }
    }

    method NameSlot(i: nat, name: seq<byte>)
      requires Wired() && i < MAX_FILES && |name| < NAME_MAX
      modifies this`fileCount, entries
      ensures State() == Named(old(State()), i, name)
    {
      entries[i] := entries[i].(name := CopyName(entries[i].name, name), lba := DataLba(i));
      fileCount := fileCount + 1;
    }

    /** The eight data sectors, in order, as far as the device lets them through. */
    method WriteData(lba: nat, data: seq<byte>) returns (ok: bool)
      requires Wired() && |data| <= MAX_FILE_SIZE && lba + SECTORS_PER_FILE <= DISK_SECTORS
      modifies sector, ata, ata.sectors
      ensures var w := DataWrites(lba, data, SECTORS_PER_FILE); var k := Reached(old(ata.budget), SECTORS_PER_FILE);
        && ata.Image() == Apply(old(ata.Image()), w[..k]) && ok == (k == SECTORS_PER_FILE)
        && ata.budget == old(ata.budget) - k
    {
      ghost var w, d := DataWrites(lba, data, SECTORS_PER_FILE), ata.Image();
      Extend(d, w, 0);
      for s := 0 to SECTORS_PER_FILE
        invariant s <= old(ata.budget) && ata.budget == old(ata.budget) - s
        invariant ata.Image() == Apply(d, w[..s])
      {
        FillData(data, s);
        Extend(d, w, s);
        var done := ata.WriteSector(lba + s, sector[..]);
        if !done { return false; }
      }
      ok := true;
    }

    /** Superblock, then the sectors of entry i. */
    method WriteMetadata(i: nat) returns (ok: bool)
      requires Wired() && i < MAX_FILES
      modifies sector, ata, ata.sectors
      ensures var w := RemoveWrites(i, entries[..], fileCount % U32); var k := Reached(old(ata.budget), |w|);
        ata.Image() == Apply(old(ata.Image()), w[..k]) && ok == (k == |w|) && ata.budget == old(ata.budget) - k
    {
      ghost var w, d := RemoveWrites(i, entries[..], fileCount % U32), ata.Image();
      ghost var e := EntryWrites(entries[..], i);
      Extend(d, w, 0);
      ok := SaveSuper();
      if !ok { return; }
      ghost var mid := ata.Image();
      ghost var b := ata.budget;
      ok := WriteEntrySectors(i);
      ApplyInTwo(d, w[..1], e, Reached(b, |e|));
      assert w[..1] + e[..Reached(b, |e|)] == w[..1 + Reached(b, |e|)];
    }

    /** diskfs_write: what it does to memory and to the disk, wherever the device stops. */
    method WriteFile(name: seq<byte>, data: seq<byte>) returns (rc: int)
      requires Wired() && forall i :: 0 <= i < MAX_FILES && Live(entries[i]) ==> Sound(entries[i], i)
      modifies this`fileCount, entries, sector, ata, ata.sectors
      ensures match PlanWrite(old(State()), name, data)
        case Refused => rc == -1 && State() == old(State()) && ata.Image() == old(ata.Image())
        case Plan(named, done, writes) =>
          var k := Reached(old(ata.budget), |writes|);
          && ata.Image() == Apply(old(ata.Image()), writes[..k])
          && rc == (if k == |writes| then 0 else -1)
          && State() == if k < SECTORS_PER_FILE then named else done
    {
      if !available || !ValidName(name) || |data| > MAX_FILE_SIZE { return -1; }
      var slot := ClaimSlot(name);
      if slot.None? { return -1; }
      rc := FillSlot(slot.value, data);
    }

    /** The bytes of a claimed slot, its size, then the metadata. */
    method FillSlot(i: nat, data: seq<byte>) returns (rc: int)
      requires Wired() && i < MAX_FILES && |data| <= MAX_FILE_SIZE && entries[i].lba + SECTORS_PER_FILE <= DISK_SECTORS
      modifies entries, sector, ata, ata.sectors
      ensures var p := WriteInto(old(State()), i, data); var k := Reached(old(ata.budget), |p.writes|);
        && ata.Image() == Apply(old(ata.Image()), p.writes[..k])
        && rc == (if k == |p.writes| then 0 else -1)
        && State() == if k < SECTORS_PER_FILE then p.named else p.done
    {
      ghost var named := State();
      ghost var d, b := ata.Image(), ata.budget;
      ghost var p := WriteInto(named, i, data);
      ghost var w := DataWrites(named.entries[i].lba, data, SECTORS_PER_FILE);
      var ok := WriteData(entries[i].lba, data);
      if !ok {
        WriteSplit(named, i, data, b, b);
        return -1;
      }
      entries[i] := entries[i].(size := |data|);
      assert State() == p.done;
      ghost var m := RemoveWrites(i, entries[..], fileCount % U32);
      ghost var b1 := ata.budget;
      assert w[..SECTORS_PER_FILE] == w;
      WriteSplit(named, i, data, b, Reached(b1, |m|));
      ok := WriteMetadata(i);
      ApplyInTwo(d, w, m, Reached(b1, |m|));
      rc := if ok then 0 else -1;
    }

    /** diskfs_remove likewise. */
    method RemoveFile(name: seq<byte>) returns (rc: int)
      requires Wired()
      modifies this`fileCount, entries, sector, ata, ata.sectors
      ensures match PlanRemove(old(State()), name)
        case Refused => rc == -1 && State() == old(State()) && ata.Image() == old(ata.Image())
        case Plan(named, done, writes) =>
          var k := Reached(old(ata.budget), |writes|);
          && ata.Image() == Apply(old(ata.Image()), writes[..k])
          && rc == (if k == |writes| then 0 else -1)
          && State() == done
    {
      if !available { return -1; }
      var slot := FindEntry(name);
      if slot.None? { return -1; }
      var i := slot.value;
      ghost var p := PlanRemove(State(), name);
      entries[i] := ZeroEntry();
      if fileCount != 0 { fileCount := fileCount - 1; }
      assert State() == p.done && p.writes == RemoveWrites(i, entries[..], fileCount % U32);
      hide *;
      var ok := WriteMetadata(i);
      rc := if ok then 0 else -1;
    }

    // ------------------------------------------------------------ reading and mounting

    /** diskfs_read: sector by sector into the caller's buffer. */
    method ReadFile(name: seq<byte>, capacity: nat) returns (rc: int, bytes: seq<byte>)
      requires Wired() && forall i :: 0 <= i < MAX_FILES && Live(entries[i]) ==> Sound(entries[i], i)
      modifies sector
      ensures match File(State(), ata.Image(), name)
        case None => rc == -1
        case Some(content) =>
          if !available || capacity < |content| then rc == -1 else rc == |content| && bytes == content
    {
      bytes := [];
      var slot := FindEntry(name);
      if !available || slot.None? { return -1, bytes; }
      var e := entries[slot.value];
      if capacity < e.size { return -1, bytes; }
      bytes := ReadContent(e.lba, e.size);
      rc := e.size;
    }

    /** The sectors of a file, one after the other, the last cut to what remains of it. */
    method ReadContent(lba: nat, size: nat) returns (bytes: seq<byte>)
      requires Wired() && lba + SECTORS_PER_FILE <= DISK_SECTORS && size <= MAX_FILE_SIZE
      modifies sector
      ensures bytes == DiskBytes(ata.Image(), lba, size)
    {
      bytes := [];
      ghost var content := DiskBytes(ata.Image(), lba, size);
      var s, remaining := 0, size;
      while remaining > 0
        invariant |bytes| == size - remaining && 0 <= remaining <= size && |content| == size
        invariant bytes == content[..|bytes|]
        invariant remaining > 0 ==> |bytes| == s * SECTOR_SIZE
        decreases remaining
      {
        var n := if remaining > SECTOR_SIZE then SECTOR_SIZE else remaining;
        var chunk := ReadChunk(lba, s, n);
        SectorSlice(ata.Image(), lba, size, s, n);
        bytes := bytes + chunk;
        remaining := remaining - n;
        s := s + 1;
      }
      assert content[..size] == content;
    }

    /** Load one sector and take its first n bytes. */
    method ReadChunk(lba: nat, s: nat, n: nat) returns (chunk: seq<byte>)
      requires Wired() && lba + s < DISK_SECTORS && n <= SECTOR_SIZE
      modifies sector
      ensures chunk == ata.Image()[lba + s][..n]
    {
      var source := ata.sectors[lba + s];
      for i := 0 to SECTOR_SIZE
        invariant forall j :: 0 <= j < i ==> sector[j] == source[j]
      {
        sector[i] := source[i];
      }
      chunk := [];
      for i := 0 to n
        invariant chunk == source[..i]
      {
        chunk := chunk + [sector[i]];
      }
    }

    method ZeroTable()
      requires Wired()
      modifies entries
      ensures entries[..] == ZeroEntries()
    {
      for i := 0 to MAX_FILES
        invariant forall j :: 0 <= j < i ==> entries[j] == ZeroEntry()
      {
        entries[i] := ZeroEntry();
      }
      assert forall j :: 0 <= j < MAX_FILES ==> ZeroEntries()[j] == ZeroEntry();
    }

    /** The five directory sectors into the table. */
    method LoadTable()
      requires Wired()
      modifies entries
      ensures forall j :: 0 <= j < MAX_FILES ==> entries[j] == ParseEntry(ata.Image(), j)
    {
      hide ParseEntry;
      for i := 0 to MAX_FILES
        invariant forall j :: 0 <= j < i ==> entries[j] == ParseEntry(ata.Image(), j)
      {
        entries[i] := ParseEntry(ata.Image(), i);
      }
    }

    /** Drop unsound entries and count the rest. */
    method KeepSound() returns (actual: nat)
      requires Wired()
      modifies entries
      ensures forall j :: 0 <= j < MAX_FILES ==> entries[j] == Mounted(old(entries[j]), j)
      ensures actual == LiveCount(entries[..], MAX_FILES)
    {
      actual := 0;
      for i := 0 to MAX_FILES
        invariant forall j :: 0 <= j < i ==> entries[j] == Mounted(old(entries[j]), j)
        invariant forall j :: i <= j < MAX_FILES ==> entries[j] == old(entries[j])
        invariant actual == LiveCount(entries[..], i)
      {
        ghost var was := entries[..];
        if Live(entries[i]) {
          if !Sound(entries[i], i) {
            entries[i] := entries[i].(name := entries[i].name[0 := 0]);
          } else {
            actual := actual + 1;
          }
        }
        SameCount(was, entries[..], i);
      }
    }

    /** diskfs_init on a readable device. */
    method Mount() returns (rc: int)
      requires Wired()
      modifies this`fileCount, this`available, entries
      ensures (rc, State()) == Init(ata.Image())
    {
      available := false;
      fileCount := 0;
      ZeroTable();
      var super := ata.sectors[SUPER_LBA];
      if !Signature(super) { return -1; }
      fileCount := CountField(super);
      if fileCount > MAX_FILES { return -1; }
      LoadTable();
      var actual := KeepSound();
      assert entries[..] == MountedEntries(ata.Image()) by { hide ParseEntry, Mounted; }
      fileCount := actual;
      available := true;
      rc := 0;
    }
  }

  /** The part of a file that one sector holds. */
  lemma SectorSlice(disk: Disk, lba: nat, size: nat, s: nat, n: nat)
    requires lba + SECTORS_PER_FILE <= DISK_SECTORS && size <= MAX_FILE_SIZE
    requires n <= SECTOR_SIZE && SECTOR_SIZE * s + n <= size && n > 0
    ensures DiskBytes(disk, lba, size)[..SECTOR_SIZE * s] + disk[lba + s][..n] ==
      DiskBytes(disk, lba, size)[..SECTOR_SIZE * s + n]
  {
    var all := DiskBytes(disk, lba, size);
    var from := SECTOR_SIZE * s;
    forall x | from <= x < from + n ensures all[x] == disk[lba + s][..n][x - from] {
      assert x / SECTOR_SIZE == s && x % SECTOR_SIZE == x - from;
    }
    assert all[from..from + n] == disk[lba + s][..n];
    assert all[..from + n] == all[..from] + all[from..from + n];
  }

  /** Applying a sequence and then the first k writes of another. */
  lemma {:induction false} ApplyInTwo(disk: Disk, a: seq<Write>, b: seq<Write>, k: nat)
    requires k <= |b|
    ensures Apply(disk, a + b[..k]) == Apply(Apply(disk, a), b[..k])
  {
    if k == 0 {
      assert a + b[..0] == a;
    } else {
      ApplyInTwo(disk, a, b, k - 1);
      assert (a + b[..k])[..|a| + k - 1] == a + b[..k - 1] && b[..k][..k - 1] == b[..k - 1];
    }
  }

  /** The writes of a file write are the data writes, then the metadata writes. */
  lemma WriteSplit(named: Fs, i: nat, data: seq<byte>, b: nat, k: nat)
    requires i < MAX_FILES && |data| <= MAX_FILE_SIZE
    ensures var p := WriteInto(named, i, data); var w := DataWrites(named.entries[i].lba, data, SECTORS_PER_FILE);
      var m := RemoveWrites(i, p.done.entries, p.done.count % U32);
      && p.writes == w + m
      && (b < SECTORS_PER_FILE ==> p.writes[..b] == w[..b])
      && (k <= |m| ==> p.writes[..SECTORS_PER_FILE + k] == w + m[..k])
  {
    var p := WriteInto(named, i, data);
    var w, m := DataWrites(named.entries[i].lba, data, SECTORS_PER_FILE),
      RemoveWrites(i, p.done.entries, p.done.count % U32);
    hide DataSector, SuperSector, EntryWrites, DataWrites;
    assert p.writes == w + m;
  }

  /** One more write of a sequence applied. */
  lemma Extend(disk: Disk, writes: seq<Write>, k: nat)
    requires k < |writes| && writes[k].lba < DISK_SECTORS
    ensures Apply(disk, writes[..0]) == disk
    ensures Apply(disk, writes[..k + 1]) == Apply(disk, writes[..k])[writes[k].lba := writes[k].data]
  {
    assert writes[..k + 1][..k] == writes[..k];
  }

  lemma EntrySpan(i: nat)
    requires i < MAX_FILES
    ensures FirstDirSector(i) <= LastDirSector(i) <= FirstDirSector(i) + 1 && LastDirSector(i) < DIR_SECTORS
  {
    assert (i + 1) * ENTRY_SIZE - 1 == i * ENTRY_SIZE + 71;
  }
}
