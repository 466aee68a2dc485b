/** Files behind descriptors (src/vfs.c): a name belongs to the RAM backend or to the disk, and reads and
    writes go through one of 32 descriptors. The backends are maps from names to bytes with the limits of
    src/ramfs.c and src/diskfs.c; the device performs every request. */
module Vfs {
  import opened Common
  import opened VfsPath

  const IO_MAX: nat := 4096
  const FD_MAX: nat := 32
  const DISK_FILE_MAX: nat := 4096
  const RAM_FILE_MAX: nat := 256
  const DISK_FILES: nat := 32
  const RAM_FILES: nat := 25 // 32 less the seven built-in programs
  const BACKSLASH: byte := 92

  type Name = seq<byte>
  datatype Backend = NoBackend | Ram | Disk
  datatype Flags = Flags(read: bool, write: bool, append: bool)
  datatype Fd = Fd(used: bool, backend: Backend, flags: Flags, offset: nat, path: Name)

  /** The stored files; `builtin` are the programs linked into the kernel. */
  datatype Store = Store(builtin: map<Name, seq<byte>>, ram: map<Name, seq<byte>>, disk: map<Name, seq<byte>>,
                         diskUp: bool)

  predicate StoreOk(s: Store) {
    && (forall n :: n in s.ram ==> |s.ram[n]| <= RAM_FILE_MAX)
    && (forall n :: n in s.disk ==> |s.disk[n]| <= DISK_FILE_MAX)
  }

  function Limit(b: Backend): nat { if b == Disk then DISK_FILE_MAX else RAM_FILE_MAX }

  /** backend_for. */
  function BackendOf(s: Store, path: Name): Backend {
    if path in s.builtin || path in s.ram then Ram
    else if s.diskUp && path in s.disk then Disk
    else NoBackend
  }

  function Content(s: Store, b: Backend, path: Name): seq<byte> {
    if b == Disk then (if path in s.disk then s.disk[path] else [])
    else if path in s.builtin then s.builtin[path]
    else if path in s.ram then s.ram[path]
    else []
  }

  /** What a path holds, if there is such a file. */
  function File(s: Store, path: Name): Option<seq<byte>> {
    if BackendOf(s, path) == NoBackend then None else Some(Content(s, BackendOf(s, path), path))
  }

  /** diskfs_write and ramfs_write as far as they matter above: what may be stored, and RAM cuts at 256. */
  function Put(s: Store, b: Backend, path: Name, data: seq<byte>): Option<Store> {
    if b == Disk then
      if !s.diskUp || path == [] || BACKSLASH in path || |data| > DISK_FILE_MAX then None
      else if path !in s.disk && |s.disk| >= DISK_FILES then None
      else Some(s.(disk := s.disk[path := data]))
    else
      if path == [] || path in s.builtin || (path !in s.ram && |s.ram| >= RAM_FILES) then None
      else Some(s.(ram := s.ram[path := if |data| > RAM_FILE_MAX then data[..RAM_FILE_MAX] else data]))
  }

  /** open_slot on a missing name: an empty file on the disk, else in RAM. */
  function CreateFile(s: Store, path: Name): Option<(Store, Backend)> {
    match Put(s, Disk, path, [])
    case Some(t) => Some((t, Disk))
    case None =>
      match Put(s, Ram, path, [])
      case Some(t) => Some((t, Ram))
      case None => None
  }

  function Removed(s: Store, path: Name): Option<Store> {
    if path in s.builtin then None
    else if path in s.ram then Some(s.(ram := s.ram - {path}))
    else if s.diskUp && path in s.disk then Some(s.(disk := s.disk - {path}))
    else None
  }

  function FreeFd(fds: seq<Fd>, from: nat): (r: Option<nat>)
    requires from <= |fds|
    ensures r.Some? ==> from <= r.value < |fds| && !fds[r.value].used
    ensures forall i :: from <= i < (if r.Some? then r.value else |fds|) ==> fds[i].used
    decreases |fds| - from
  {
    if from == |fds| then None else if !fds[from].used then Some(from) else FreeFd(fds, from + 1)
  }

  /** The files after open_slot: an empty one is made for a missing name that may be written, whether or not
      there is a descriptor for it. */
  function OpenedStore(s: Store, path: Name, flags: Flags): Store {
    if File(s, path).None? && flags.write && CreateFile(s, path).Some? then CreateFile(s, path).value.0 else s
  }

  /** open_slot: the lowest free descriptor for the file. It fails exactly without a descriptor, or on a
      missing name that may not be written or made. */
  ghost predicate Opens(s0: Store, s1: Store, fds0: seq<Fd>, fds1: seq<Fd>, path: Name, flags: Flags, fd: int) {
    && |fds0| == |fds1| && s1 == OpenedStore(s0, path, flags)
    && (fd >= 0 <==> FreeFd(fds0, 0).Some? && File(s1, path).Some?)
    && (if fd < 0 then fds1 == fds0
        else
          && FreeFd(fds0, 0) == Some(fd) && (File(s0, path).None? ==> File(s1, path) == Some([]))
          && var offset := if flags.append then |File(s1, path).value| else 0;
             fds1 == fds0[fd := Fd(true, BackendOf(s1, path), flags, offset, path)])
  }

  /** The bytes a read of this length returns. */
  function ReadBytes(all: seq<byte>, offset: nat, length: nat): seq<byte> {
    if offset >= |all| then [] else if length > |all| - offset then all[offset..] else all[offset..offset + length]
  }

  predicate ReadRefused(s: Store, f: Fd, length: nat, memory: bool) {
    || !f.used || length > IO_MAX || !f.flags.read
    || (f.backend == Disk && !memory && f.offset < |Content(s, Disk, f.path)|)
  }

  /** What a write makes of the file: the old bytes followed by the new ones, or the new ones alone. */
  function Rewritten(s: Store, f: Fd, data: seq<byte>): seq<byte> {
    if f.flags.append then Content(s, f.backend, f.path) + data else data
  }

  predicate WriteRefused(s: Store, f: Fd, data: seq<byte>, memory: bool) {
    || !f.used || |data| > IO_MAX || !f.flags.write
    || (if f.flags.append then |Rewritten(s, f, data)| > Limit(f.backend) || !memory else f.offset != 0)
    || Put(s, f.backend, f.path, Rewritten(s, f, data)).None?
  }

  lemma PutOk(s: Store, b: Backend, path: Name, data: seq<byte>)
    requires StoreOk(s) && Put(s, b, path, data).Some?
    ensures StoreOk(Put(s, b, path, data).value)
  {}

  class Files {
    var store: Store
    const fds: array<Fd>

    ghost predicate Valid()
      reads this
    {
      fds.Length == FD_MAX && StoreOk(store)
    }

    constructor (store: Store)
      requires StoreOk(store)
      ensures Valid() && this.store == store && fresh(fds)
    {
      this.store := store;
      fds := new Fd[FD_MAX](_ => Fd(false, NoBackend, Flags(false, false, false), 0, []));
    }

    method FirstFree() returns (i: nat)
      requires Valid()
      ensures i <= FD_MAX && FreeFd(fds[..], 0) == FreeFd(fds[..], i) && (i < FD_MAX ==> !fds[i].used)
    {
      i := 0;
      while i < FD_MAX && fds[i].used
        invariant 0 <= i <= FD_MAX && FreeFd(fds[..], 0) == FreeFd(fds[..], i)
      {
        i := i + 1;
      }
    }

    /** open_slot, on a normal path. */
    method OpenSlot(path: Name, flags: Flags) returns (fd: int)
      requires Valid()
      modifies this`store, fds
      ensures Valid() && -1 <= fd < FD_MAX
      ensures Opens(old(store), store, old(fds[..]), fds[..], path, flags, fd)
    {
      var backend := BackendOf(store, path);
      if backend == NoBackend {
        if !flags.write { return -1; }
        var created := CreateFile(store, path);
        if created.None? { return -1; }
        store, backend := created.value.0, created.value.1;
      }
      var i := FirstFree();
      if i == FD_MAX { return -1; }
      fds[i] := Fd(true, backend, flags, if flags.append then |Content(store, backend, path)| else 0, path);
      fd := i;
    }

    /** vfs_open. */
    method Open(path: seq<byte>, flags: Flags) returns (fd: int)
      requires Valid()
      modifies this`store, fds
      ensures Valid() && -1 <= fd < FD_MAX
      ensures Normalized(path).None? ==> fd == -1 && store == old(store) && fds[..] == old(fds[..])
      ensures Normalized(path).Some? ==>
        Opens(old(store), store, old(fds[..]), fds[..], Normalized(path).value, flags, fd)
    {
      var clean := PathNormalize(path);
      if clean.None? { return -1; }
      fd := OpenSlot(clean.value, flags);
    }

    method Close(fd: int) returns (rc: int)
      requires Valid() && -1 <= fd < FD_MAX
      modifies fds
      ensures Valid() && (fd >= 0 ==> fds[..] == old(fds[..])[fd := old(fds[fd]).(used := false)])
      ensures fd < 0 ==> fds[..] == old(fds[..])
    {
      if fd < 0 || !fds[fd].used { rc := -1; assert fd >= 0 ==> old(fds[fd]).(used := false) == old(fds[fd]); return; }
      fds[fd] := fds[fd].(used := false);
      rc := 0;
    }

    /** read_slot: the bytes from the descriptor's offset on, which moves past them. */
    method ReadSlot(fd: nat, length: nat, memory: bool) returns (rc: int, bytes: seq<byte>)
      requires Valid() && fd < FD_MAX
      modifies fds
      ensures Valid()
      ensures rc < 0 <==> ReadRefused(store, old(fds[fd]), length, memory)
      ensures rc < 0 ==> fds[..] == old(fds[..])
      ensures rc >= 0 ==>
        var f := old(fds[fd]);
        && rc == |bytes| && bytes == ReadBytes(Content(store, f.backend, f.path), f.offset, length)
        && fds[..] == old(fds[..])[fd := f.(offset := f.offset + |bytes|)]
    {
      bytes := [];
      var f := fds[fd];
      if !f.used || length > IO_MAX || !f.flags.read { return -1, bytes; }
      var all := Content(store, f.backend, f.path);
      if f.offset >= |all| {
        assert fds[..] == old(fds[..])[fd := f.(offset := f.offset + 0)];
        return 0, bytes;
      }
      var wanted := if length > |all| - f.offset then |all| - f.offset else length;
      if f.backend == Disk && !memory { return -1, bytes; }
      for i := 0 to wanted
        invariant bytes == all[f.offset..f.offset + i]
      {
        bytes := bytes + [all[f.offset + i]];
      }
      fds[fd] := f.(offset := f.offset + wanted);
      rc := wanted;
    }

    /** The append branch of write_slot: the old bytes and the new ones are written together. */
    method AppendSlot(fd: nat, data: seq<byte>, memory: bool) returns (rc: int)
      requires Valid() && fd < FD_MAX && fds[fd].used && |data| <= IO_MAX && fds[fd].flags.write
      requires fds[fd].flags.append
      modifies this`store, fds
      ensures Valid() && (rc < 0 || rc == |data|)
      ensures rc < 0 <==> WriteRefused(old(store), old(fds[fd]), data, memory)
      ensures rc < 0 ==> store == old(store) && fds[..] == old(fds[..])
      ensures rc >= 0 ==>
        var f := old(fds[fd]); var now := Rewritten(old(store), f, data);
        && Put(old(store), f.backend, f.path, now) == Some(store)
        && fds[..] == old(fds[..])[fd := f.(offset := |now|)]
    {
      hide Put;
      var f := fds[fd];
      var was := Content(store, f.backend, f.path);
      var max := Limit(f.backend);
      if |was| > max || |data| > max - |was| { return -1; }
      if !memory { return -1; }
      var put := Put(store, f.backend, f.path, was + data);
      if put.None? { return -1; }
      PutOk(store, f.backend, f.path, was + data);
      store := put.value;
      fds[fd] := f.(offset := |was| + |data|);
      rc := |data|;
    }

    /** write_slot: the whole file from offset 0, or the old bytes followed by the new ones. */
    method WriteSlot(fd: nat, data: seq<byte>, memory: bool) returns (rc: int)
      requires Valid() && fd < FD_MAX
      modifies this`store, fds
      ensures Valid() && (rc < 0 || rc == |data|)
      ensures rc < 0 <==> WriteRefused(old(store), old(fds[fd]), data, memory)
      ensures rc < 0 ==> store == old(store) && fds[..] == old(fds[..])
      ensures rc >= 0 ==>
        var f := old(fds[fd]); var now := Rewritten(old(store), f, data);
        && Put(old(store), f.backend, f.path, now) == Some(store)
        && fds[..] == old(fds[..])[fd := f.(offset := |now|)]
    {
      hide Put;
      var f := fds[fd];
      if !f.used || |data| > IO_MAX || !f.flags.write { return -1; }
      if f.offset != 0 && !f.flags.append { return -1; }
      if f.flags.append { rc := AppendSlot(fd, data, memory); return; }
      var put := Put(store, f.backend, f.path, data);
      if put.None? { return -1; }
      PutOk(store, f.backend, f.path, data);
      store := put.value;
      fds[fd] := f.(offset := f.offset + |data|);
      rc := |data|;
    }

    /** vfs_remove. */
    method Remove(path: seq<byte>) returns (rc: int)
      requires Valid()
      modifies this`store
      ensures Valid()
      ensures rc == 0 <==> Normalized(path).Some? && Removed(old(store), Normalized(path).value).Some?
      ensures store == if rc == 0 then Removed(old(store), Normalized(path).value).value else old(store)
    {
      var clean := PathNormalize(path);
      if clean.None? { return -1; }
      var gone := Removed(store, clean.value);
      if gone.None? { return -1; }
      store := gone.value;
      rc := 0;
    }

    /** vfs_stat_path. */
    method Stat(path: seq<byte>) returns (r: Option<(nat, Backend)>)
      requires Valid()
      ensures r.Some? <==> Normalized(path).Some? && File(store, Normalized(path).value).Some?
      ensures r.Some? ==>
        r.value == (|File(store, Normalized(path).value).value|, BackendOf(store, Normalized(path).value))
    {
      var clean := PathNormalize(path);
      if clean.None? { return None; }
      var b := BackendOf(store, clean.value);
      if b == NoBackend { return None; }
      r := Some((|Content(store, b, clean.value)|, b));
    }
  }

  /** A stored file reads back, and no other name changes; in RAM up to 256 bytes. */
  lemma PutReadsBack(s: Store, b: Backend, path: Name, data: seq<byte>, other: Name)
    requires b != NoBackend && Put(s, b, path, data).Some? && (b == Ram ==> |data| <= RAM_FILE_MAX)
    ensures var t := Put(s, b, path, data).value;
      && Content(t, b, path) == data
      && (BackendOf(s, path) == b || BackendOf(s, path) == NoBackend ==> File(t, path) == Some(data))
      && (other != path ==> File(t, other) == File(s, other))
  {}

  /** Removing takes away one file and nothing else; where a name lies on both backends, the disk file then
      shows. */
  lemma RemoveExact(s: Store, path: Name, other: Name)
    requires Removed(s, path).Some?
    ensures var t := Removed(s, path).value;
      && (File(t, path).None? <==> !(path in s.ram && s.diskUp && path in s.disk))
      && (other != path ==> File(t, other) == File(s, other))
  {}
}
