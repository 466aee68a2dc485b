/** LionFS on sectors (src/diskfs.c): 72-byte directory entries packed across five 512-byte sectors,
    eight data sectors a slot, and the order in which one operation writes them. */
module DiskFs {
  import opened Common

  const SECTOR_SIZE: nat := 512
  const VERSION: nat := 2
  const SUPER_LBA: nat := 0
  const DIR_LBA: nat := 1
  const DIR_SECTORS: nat := 5
  const DATA_LBA: nat := 6
  const SECTORS_PER_FILE: nat := 8
  const MAX_FILES: nat := 32
  const NAME_MAX: nat := 64
  const MAX_FILE_SIZE: nat := 4096
  const ENTRY_SIZE: nat := 72
  const DIR_BYTES: nat := 2304
  const DISK_SECTORS: nat := 16384

  type Sector = s: seq<byte> | |s| == SECTOR_SIZE witness seq(SECTOR_SIZE, _ => 0)
  type Disk = d: seq<Sector> | |d| == DISK_SECTORS witness seq<Sector>(DISK_SECTORS, _ => ZeroSector())
  type Name = n: seq<byte> | |n| == NAME_MAX witness seq(NAME_MAX, _ => 0)

  datatype Entry = Entry(name: Name, size: u32, lba: u32)
  type Entries = e: seq<Entry> | |e| == MAX_FILES witness seq(MAX_FILES, _ => ZeroEntry())

  /** The driver's memory: `entries`, `file_count` and `available`. */
  datatype Fs = Fs(entries: Entries, count: nat, available: bool)

  function ZeroSector(): Sector { seq(SECTOR_SIZE, _ => 0) }
  function ZeroName(): Name { seq(NAME_MAX, _ => 0) }
  function ZeroEntry(): Entry { Entry(ZeroName(), 0, 0) }

  // ---------------------------------------------------------------- the directory as bytes

  /** Byte t of one packed entry. */
  function EntryByte(e: Entry, t: nat): byte
    requires t < ENTRY_SIZE
  {
    if t < 64 then e.name[t] else if t < 68 then Le(e.size, t - 64) else Le(e.lba, t - 68)
  }

  /** Byte k of the packed table. */
  function TableByte(entries: Entries, k: nat): byte
    requires k < DIR_BYTES
  {
    EntryByte(entries[k / ENTRY_SIZE], k % ENTRY_SIZE)
  }

  function SectorByte(entries: Entries, s: nat, j: nat): byte {
    var k := SECTOR_SIZE * s + j;
    if k < DIR_BYTES then TableByte(entries, k) else 0
  }

  /** Directory sector s as it is written: its slice of the table, padded with zeros. */
  function DirSector(entries: Entries, s: nat): Sector
    requires s < DIR_SECTORS
  {
    seq(SECTOR_SIZE, j requires 0 <= j < SECTOR_SIZE => SectorByte(entries, s, j))
  }

  /** Byte k of the table as it lies on disk. */
  function DirByte(disk: Disk, k: nat): byte
    requires k < DIR_BYTES
  {
    disk[DIR_LBA + k / SECTOR_SIZE][k % SECTOR_SIZE]
  }

  function WordAt(disk: Disk, k: nat): u32
    requires k + 4 <= DIR_BYTES
  {
    FromLe(DirByte(disk, k), DirByte(disk, k + 1), DirByte(disk, k + 2), DirByte(disk, k + 3))
  }

  /** Byte t of entry i on disk. */
  function AtEntry(disk: Disk, i: nat, t: nat): byte
    requires i < MAX_FILES && t < ENTRY_SIZE
  {
    DirByte(disk, ENTRY_SIZE * i + t)
  }

  function NameOnDisk(disk: Disk, i: nat): Name
    requires i < MAX_FILES
  {
    seq(NAME_MAX, t requires 0 <= t < NAME_MAX => AtEntry(disk, i, t))
  }

  /** Entry i read back from the bytes on disk. */
  function ParseEntry(disk: Disk, i: nat): Entry
    requires i < MAX_FILES
  {
    Entry(NameOnDisk(disk, i),
          WordAt(disk, ENTRY_SIZE * i + 64), WordAt(disk, ENTRY_SIZE * i + 68))
  }

  /** Entry i of the disk is e, byte for byte. */
  predicate EntryOnDisk(disk: Disk, i: nat, e: Entry)
    requires i < MAX_FILES
  {
    forall t :: 0 <= t < ENTRY_SIZE ==> AtEntry(disk, i, t) == EntryByte(e, t)
  }

  lemma ParseRoundTrip(disk: Disk, i: nat, e: Entry)
    requires i < MAX_FILES && EntryOnDisk(disk, i, e)
    ensures ParseEntry(disk, i) == e
  {
    WordOnDisk(disk, i, e, 64);
    WordOnDisk(disk, i, e, 68);
    LeRoundTrip(e.size);
    LeRoundTrip(e.lba);
    NameRoundTrip(disk, i, e);
  }

  lemma NameRoundTrip(disk: Disk, i: nat, e: Entry)
    requires i < MAX_FILES && EntryOnDisk(disk, i, e)
    ensures NameOnDisk(disk, i) == e.name
  {
    hide DirByte;
    forall t | 0 <= t < NAME_MAX ensures AtEntry(disk, i, t) == e.name[t] {
      assert EntryByte(e, t) == e.name[t];
    }
  }

  lemma WordOnDisk(disk: Disk, i: nat, e: Entry, o: nat)
    requires i < MAX_FILES && EntryOnDisk(disk, i, e) && (o == 64 || o == 68)
    ensures var v := if o == 64 then e.size else e.lba;
      WordAt(disk, ENTRY_SIZE * i + o) == FromLe(Le(v, 0), Le(v, 1), Le(v, 2), Le(v, 3))
  {
    assert AtEntry(disk, i, o) == EntryByte(e, o) && AtEntry(disk, i, o + 1) == EntryByte(e, o + 1);
    assert AtEntry(disk, i, o + 2) == EntryByte(e, o + 2) && AtEntry(disk, i, o + 3) == EntryByte(e, o + 3);
  }

  // ---------------------------------------------------------------- names

  /** The C string in a name buffer. */
  function CString(s: seq<byte>): (r: seq<byte>)
    ensures |r| <= |s| && r == s[..|r|] && 0 !in r
    ensures |r| < |s| ==> s[|r|] == 0
  {
    if s == [] || s[0] == 0 then []
    else
      var rest := CString(s[1..]);
      assert s[..|rest| + 1] == [s[0]] + s[1..][..|rest|];
      [s[0]] + rest
  }

  predicate ValidName(name: seq<byte>) {
    0 < |name| < NAME_MAX && 92 !in name && 0 !in name
  }

  /** copy_name: the string, a terminator, and whatever the buffer held behind it. */
  function CopyName(buffer: Name, name: seq<byte>): Name
    requires |name| < NAME_MAX
  {
    name + [0] + buffer[|name| + 1..]
  }

  predicate Live(e: Entry) { e.name[0] != 0 }

  function Find(entries: Entries, name: seq<byte>, from: nat): (r: Option<nat>)
    requires from <= MAX_FILES
    ensures r.Some? ==> from <= r.value < MAX_FILES && Live(entries[r.value]) && CString(entries[r.value].name) == name
    ensures forall i :: from <= i < (if r.Some? then r.value else MAX_FILES) ==>
      !(Live(entries[i]) && CString(entries[i].name) == name)
    decreases MAX_FILES - from
  {
    if from == MAX_FILES then None
    else if Live(entries[from]) && CString(entries[from].name) == name then Some(from)
    else Find(entries, name, from + 1)
  }

  function FreeEntry(entries: Entries, from: nat): (r: Option<nat>)
    requires from <= MAX_FILES
    ensures r.Some? ==> from <= r.value < MAX_FILES && !Live(entries[r.value])
    ensures forall i :: from <= i < (if r.Some? then r.value else MAX_FILES) ==> Live(entries[i])
    decreases MAX_FILES - from
  {
    if from == MAX_FILES then None else if !Live(entries[from]) then Some(from) else FreeEntry(entries, from + 1)
  }

  function LiveCount(entries: Entries, n: nat): (r: nat)
    requires n <= MAX_FILES
    ensures r <= n
  {
    if n == 0 then 0 else LiveCount(entries, n - 1) + (if Live(entries[n - 1]) then 1 else 0)
  }

  /** The count looks at nothing but which entries are live. */
  lemma {:induction false} SameCount(a: Entries, b: Entries, n: nat)
    requires n <= MAX_FILES && forall i :: 0 <= i < n ==> Live(a[i]) == Live(b[i])
    ensures LiveCount(a, n) == LiveCount(b, n)
  {
    if n > 0 {
      SameCount(a, b, n - 1);
    }
  }

  // ---------------------------------------------------------------- mounting

  function DataLba(i: nat): nat { DATA_LBA + i * SECTORS_PER_FILE }

  /** An entry mount keeps: a size and a place the slot may have. */
  predicate Sound(e: Entry, i: nat) {
    e.size <= MAX_FILE_SIZE && e.lba == DataLba(i)
  }

  /** What mounting makes of entry i: an unsound one loses the first byte of its name. */
  function Mounted(e: Entry, i: nat): Entry {
    if Live(e) && !Sound(e, i) then e.(name := e.name[0 := 0]) else e
  }

  predicate Signature(s: Sector) {
    && s[0] == 76 && s[1] == 73 && s[2] == 79 && s[3] == 78 && s[4] == 70 && s[5] == 83 && s[6] == 49
    && FromLe(s[8], s[9], s[10], s[11]) == VERSION
  }

  function CountField(s: Sector): u32 { FromLe(s[12], s[13], s[14], s[15]) }

  /** The superblock: the signature LIONFS1, the version at byte 8, the file count at byte 12. */
  function SuperByte(count: u32, j: nat): byte {
    if j == 0 then 76 else if j == 1 then 73 else if j == 2 then 79 else if j == 3 then 78
    else if j == 4 then 70 else if j == 5 then 83 else if j == 6 then 49
    else if j == 8 then 2
    else if 12 <= j < 16 then Le(count, j - 12)
    else 0
  }

  function SuperSector(count: u32): Sector {
    seq(SECTOR_SIZE, j requires 0 <= j < SECTOR_SIZE => SuperByte(count, j))
  }

  function MountedEntries(disk: Disk): Entries {
    seq(MAX_FILES, i requires 0 <= i < MAX_FILES => Mounted(ParseEntry(disk, i), i))
  }

  function ZeroEntries(): Entries { seq(MAX_FILES, _ => ZeroEntry()) }

  /** diskfs_init on a device whose sectors can be read. */
  function Init(disk: Disk): (int, Fs) {
    var super := disk[SUPER_LBA];
    if !Signature(super) then (-1, Fs(ZeroEntries(), 0, false))
    else if CountField(super) > MAX_FILES then (-1, Fs(ZeroEntries(), CountField(super), false))
    else
      var entries := MountedEntries(disk);
      (0, Fs(entries, LiveCount(entries, MAX_FILES), true))
  }

  // ---------------------------------------------------------------- operations as write sequences

  datatype Write = Write(lba: nat, data: Sector)

  function Apply(disk: Disk, writes: seq<Write>): Disk {
    if writes == [] then disk
    else
      var before := Apply(disk, writes[..|writes| - 1]);
      var w := writes[|writes| - 1];
      if w.lba < DISK_SECTORS then before[w.lba := w.data] else before
  }

  function FirstDirSector(i: nat): nat { i * ENTRY_SIZE / SECTOR_SIZE }
  function LastDirSector(i: nat): nat { ((i + 1) * ENTRY_SIZE - 1) / SECTOR_SIZE }

  function EntryWrites(entries: Entries, i: nat): seq<Write>
    requires i < MAX_FILES
  {
    var first, last := FirstDirSector(i), LastDirSector(i);
    if first == last then [Write(DIR_LBA + first, DirSector(entries, first))]
    else [Write(DIR_LBA + first, DirSector(entries, first)), Write(DIR_LBA + last, DirSector(entries, last))]
  }

  /** Data sector s: its slice of the bytes, padded with zeros. */
  function DataSector(data: seq<byte>, s: nat): Sector {
    seq<byte>(SECTOR_SIZE, j requires 0 <= j < SECTOR_SIZE =>
      if SECTOR_SIZE * s + j < |data| then data[SECTOR_SIZE * s + j] else 0)
  }

  function DataWrites(lba: nat, data: seq<byte>, n: nat): (r: seq<Write>)
    ensures |r| == n && forall s :: 0 <= s < n ==> r[s] == Write(lba + s, DataSector(data, s))
  {
    seq(n, s requires 0 <= s < n => Write(lba + s, DataSector(data, s)))
  }

  /** The slot a write to `name` uses, and the memory with that slot named. */
  function Claim(fs: Fs, name: seq<byte>): (r: Option<(nat, Fs)>)
    requires |name| < NAME_MAX
    ensures r.Some? ==> r.value.0 < MAX_FILES
  {
    match Find(fs.entries, name, 0)
    case Some(i) => Some((i, fs))
    case None =>
      match FreeEntry(fs.entries, 0)
      case None => None
      case Some(i) => Some((i, Named(fs, i, name)))
  }

  /** Memory with a free slot named. */
  function Named(fs: Fs, i: nat, name: seq<byte>): Fs
    requires i < MAX_FILES && |name| < NAME_MAX
  {
    var e := fs.entries[i].(name := CopyName(fs.entries[i].name, name), lba := DataLba(i));
    fs.(entries := fs.entries[i := e], count := fs.count + 1)
  }

  /** Creating or overwriting: eight data sectors, the superblock, then the sectors of the entry. */
  function WriteWrites(i: nat, lba: nat, data: seq<byte>, entries: Entries, count: u32): seq<Write>
    requires i < MAX_FILES
  {
    DataWrites(lba, data, SECTORS_PER_FILE) + [Write(SUPER_LBA, SuperSector(count))] + EntryWrites(entries, i)
  }

  /** Removing: the superblock, then the sectors of the entry. */
  function RemoveWrites(i: nat, entries: Entries, count: u32): seq<Write>
    requires i < MAX_FILES
  {
    [Write(SUPER_LBA, SuperSector(count))] + EntryWrites(entries, i)
  }

  /** One operation: what memory becomes and the sector writes it issues, in order. `named` is memory
      while the data sectors are being written. */
  datatype Plan = Refused | Plan(named: Fs, done: Fs, writes: seq<Write>)

  /** The write once slot i is claimed: bytes first, then the size in memory, then superblock and entry. */
  function WriteInto(named: Fs, i: nat, data: seq<byte>): Plan
    requires i < MAX_FILES && |data| <= MAX_FILE_SIZE
  {
    var done := named.(entries := named.entries[i := named.entries[i].(size := |data|)]);
    Plan(named, done, WriteWrites(i, named.entries[i].lba, data, done.entries, done.count % U32))
  }

  function PlanWrite(fs: Fs, name: seq<byte>, data: seq<byte>): Plan {
    if !fs.available || !ValidName(name) || |data| > MAX_FILE_SIZE then Refused
    else
      match Claim(fs, name)
      case None => Refused
      case Some((i, named)) => WriteInto(named, i, data)
  }

  function PlanRemove(fs: Fs, name: seq<byte>): Plan {
    if !fs.available then Refused
    else
      match Find(fs.entries, name, 0)
      case None => Refused
      case Some(i) =>
        var done := fs.(entries := fs.entries[i := ZeroEntry()], count := if fs.count > 0 then fs.count - 1 else 0);
        Plan(done, done, RemoveWrites(i, done.entries, done.count % U32))
  }

  // ---------------------------------------------------------------- what the files are

  function DiskBytes(disk: Disk, lba: nat, n: nat): seq<byte>
    requires lba + SECTORS_PER_FILE <= DISK_SECTORS && n <= MAX_FILE_SIZE
  {
    seq(n, k requires 0 <= k < n => disk[lba + k / SECTOR_SIZE][k % SECTOR_SIZE])
  }

  /** The bytes stored under a name, if there is such a file. */
  function File(fs: Fs, disk: Disk, name: seq<byte>): Option<seq<byte>> {
    match Find(fs.entries, name, 0)
    case None => None
    case Some(i) =>
      if Sound(fs.entries[i], i) then Some(DiskBytes(disk, fs.entries[i].lba, fs.entries[i].size)) else None
  }
}
