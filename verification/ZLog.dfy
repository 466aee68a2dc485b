/** The persistent log (src/zlog.c): one line at a time appended to a bounded file, which is cut at a line
    boundary when the next line would not fit. */
module ZLog {
  import opened Common
  import opened VfsPath
  import opened Vfs

  const NEWLINE: byte := 10
  const LINE_CAPACITY: nat := 128

  // ---------------------------------------------------------------- lines

  function LevelName(level: nat): (r: seq<byte>)
    ensures 4 <= |r| <= 7
  {
    if level == 0 then [68, 69, 66, 85, 71]          // DEBUG
    else if level == 1 then [73, 78, 70, 79]         // INFO
    else if level == 2 then [87, 65, 82, 78]         // WARN
    else if level == 3 then [69, 82, 82, 79, 82]     // ERROR
    else if level == 4 then [80, 65, 78, 73, 67]     // PANIC
    else [85, 78, 75, 78, 79, 87, 78]                // UNKNOWN
  }

  /** Tag, colon, space, as much of the message as fits in `capacity` with the newline and a terminator. */
  function Line(level: nat, message: seq<byte>, capacity: nat): seq<byte>
    requires capacity >= 16
  {
    var head := LevelName(level) + [58, 32];
    var room := capacity - 2 - |head|;
    head + (if |message| <= room then message else message[..room]) + [NEWLINE]
  }

  /** format_log_line. */
  method FormatLine(level: nat, message: seq<byte>, capacity: nat) returns (line: seq<byte>)
    requires capacity >= 16
    ensures line == Line(level, message, capacity) && |line| < capacity && line[|line| - 1] == NEWLINE
  {
    var tag := LevelName(level);
    line := [];
    while |line| < |tag| && |line| + 1 < capacity
      invariant |line| <= |tag| && line == tag[..|line|]
      decreases |tag| - |line|
    {
      line := line + [tag[|line|]];
    }
    assert line == tag;
    if |line| + 2 < capacity { line := line + [58, 32]; }
    ghost var head := line;
    var i := 0;
    while i < |message| && |line| + 2 < capacity
      invariant 0 <= i <= |message| && line == head + message[..i] && |line| + 2 <= capacity
      decreases |message| - i
    {
      line := line + [message[i]];
      i := i + 1;
    }
    assert message[..|message|] == message;
    if |line| + 1 < capacity { line := line + [NEWLINE]; }
  }

  // ---------------------------------------------------------------- what an append makes of the file

  function AfterNewline(c: seq<byte>, i: nat): (r: nat)
    requires i <= |c|
    ensures i <= r <= |c| && (r == |c| || (r > 0 && c[r - 1] == NEWLINE))
    decreases |c| - i
  {
    if i == |c| then i else if c[i] == NEWLINE then i + 1 else AfterNewline(c, i + 1)
  }

  function Keep(limit: nat): nat { if limit > 128 then limit - 128 else limit / 2 }

  /** Where the kept part starts. */
  function CutAt(c: seq<byte>, limit: nat): (r: nat)
    ensures r <= |c| && |c| - r <= Keep(limit)
  {
    var start := if |c| > Keep(limit) then |c| - Keep(limit) else 0;
    if start == 0 then 0 else AfterNewline(c, start)
  }

  function Appended(c: seq<byte>, line: seq<byte>, limit: nat): seq<byte> {
    if |c| + |line| > limit then c[CutAt(c, limit)..] + line else c + line
  }

  predicate IsSuffix(c: seq<byte>, history: seq<byte>) {
    |c| <= |history| && history[|history| - |c|..] == c
  }

  predicate IsLine(line: seq<byte>) { 0 < |line| < LINE_CAPACITY && line[|line| - 1] == NEWLINE }

  /** The file against everything ever appended: bounded, a suffix, starting at the start or at a line. */
  predicate LogOk(history: seq<byte>, c: seq<byte>, limit: nat) {
    |c| <= limit && IsSuffix(c, history) && StartsAtLine(history, |c|) && EndsWithLine(history)
  }

  /** The last n bytes are all there is, or begin behind a newline. */
  predicate StartsAtLine(history: seq<byte>, n: nat) { n < |history| ==> history[|history| - n - 1] == NEWLINE }

  predicate EndsWithLine(history: seq<byte>) { history != [] ==> history[|history| - 1] == NEWLINE }

  predicate BackendLimit(limit: nat) { limit == DISK_FILE_MAX || limit == RAM_FILE_MAX }

  lemma SuffixAt(c: seq<byte>, history: seq<byte>, k: nat)
    requires IsSuffix(c, history) && k < |c|
    ensures c[k] == history[|history| - |c| + k]
  {}

  lemma CutSuffix(c: seq<byte>, history: seq<byte>, start: nat)
    requires IsSuffix(c, history) && start <= |c|
    ensures IsSuffix(c[start..], history) && |c[start..]| <= |history|
  {
    var h := |history| - |c|;
    assert history[h..][start..] == history[h + start..];
  }

  lemma SuffixPlus(c: seq<byte>, history: seq<byte>, line: seq<byte>)
    requires IsSuffix(c, history)
    ensures IsSuffix(c + line, history + line) && IsSuffix(line, c + line)
  {
    var h := |history| - |c|;
    assert (history + line)[h..] == history[h..] + line;
    assert (c + line)[|c|..] == line;
  }

  /** What is cut off ends with a newline. */
  lemma CutAtLine(history: seq<byte>, c: seq<byte>, limit: nat)
    requires LogOk(history, c, limit)
    ensures CutAt(c, limit) > 0 ==> c[CutAt(c, limit) - 1] == NEWLINE
  {
    if |c| > 0 { SuffixAt(c, history, |c| - 1); }
  }

  lemma LogParts(history: seq<byte>, c: seq<byte>, limit: nat)
    requires LogOk(history, c, limit)
    ensures IsSuffix(c, history) && StartsAtLine(history, |c|)
  {}

  /** What is kept leaves room for the line. */
  lemma CutFits(history: seq<byte>, c: seq<byte>, line: seq<byte>, limit: nat)
    requires LogOk(history, c, limit) && IsLine(line) && BackendLimit(limit)
    ensures var start := if |c| + |line| > limit then CutAt(c, limit) else 0;
      Appended(c, line, limit) == c[start..] + line && |c[start..]| + |line| <= limit
  {}

  /** One append keeps the file in order; it ends with the new line. */
  lemma AppendKeeps(history: seq<byte>, c: seq<byte>, line: seq<byte>, limit: nat)
    requires LogOk(history, c, limit) && IsLine(line) && BackendLimit(limit)
    ensures var d := Appended(c, line, limit); LogOk(history + line, d, limit) && IsSuffix(line, d)
  {
    hide LogOk, CutAt, Appended, IsSuffix, StartsAtLine, IsLine;
    var start := if |c| + |line| > limit then CutAt(c, limit) else 0;
    LogParts(history, c, limit);
    CutFits(history, c, line, limit);
    CutAtLine(history, c, limit);
    CutSuffix(c, history, start);
    KeptStarts(history, c, start);
    SuffixPlus(c[start..], history, line);
    Extended(history, c[start..], line, limit);
  }

  /** The kept part starts at the start of the history or behind a newline. */
  lemma KeptStarts(history: seq<byte>, c: seq<byte>, start: nat)
    requires IsSuffix(c, history) && StartsAtLine(history, |c|) && start <= |c|
    requires start > 0 ==> c[start - 1] == NEWLINE
    ensures StartsAtLine(history, |c| - start)
  {
    if start > 0 { SuffixAt(c, history, start - 1); }
  }

  lemma Extended(history: seq<byte>, kept: seq<byte>, line: seq<byte>, limit: nat)
    requires IsLine(line) && |kept| <= |history| && StartsAtLine(history, |kept|) && |kept| + |line| <= limit
    requires IsSuffix(kept + line, history + line)
    ensures LogOk(history + line, kept + line, limit)
  {
    hide IsSuffix;
  }

  function AppendAll(c: seq<byte>, lines: seq<seq<byte>>, limit: nat): seq<byte> {
    if lines == [] then c else Appended(AppendAll(c, lines[..|lines| - 1], limit), lines[|lines| - 1], limit)
  }

  function Concat(history: seq<byte>, lines: seq<seq<byte>>): seq<byte> {
    if lines == [] then history else Concat(history, lines[..|lines| - 1]) + lines[|lines| - 1]
  }

  /** Over any run of appends: bounded, a suffix of the history, cut at a line, the newest line last. */
  lemma {:induction false} RunKeeps(history: seq<byte>, c: seq<byte>, lines: seq<seq<byte>>, limit: nat)
    requires LogOk(history, c, limit) && BackendLimit(limit) && forall k :: 0 <= k < |lines| ==> IsLine(lines[k])
    ensures LogOk(Concat(history, lines), AppendAll(c, lines, limit), limit)
    ensures lines != [] ==> IsSuffix(lines[|lines| - 1], AppendAll(c, lines, limit))
  {
    if lines != [] {
      var n := |lines| - 1;
      RunKeeps(history, c, lines[..n], limit);
      assert IsLine(lines[n]);
      AppendKeeps(Concat(history, lines[..n]), AppendAll(c, lines[..n], limit), lines[n], limit);
    }
  }

  // ---------------------------------------------------------------- the file

  const WRITE := Flags(false, true, false)
  const APPEND := Flags(false, true, true)
  const READ := Flags(true, false, false)

  /** The file is on the backend it was on. */
  predicate Stays(before: Store, after: Store, name: Name) {
    File(before, name).Some? && BackendOf(after, name) == BackendOf(before, name)
  }

  // ---------------------------------------------------------------- what an append makes of the stored files

  /** ensure_log_file: the files after it. */
  function EnsuredStore(s: Store, name: Name): Store {
    if File(s, name).Some? then s else OpenedStore(s, name, APPEND)
  }

  /** Writing a line behind the end of the file. */
  function AddedStore(s: Store, name: Name, line: seq<byte>, memory: bool): Option<Store> {
    var b := BackendOf(s, name);
    var now := Content(s, b, name) + line;
    if |line| > IO_MAX || |now| > Limit(b) || !memory then None else Put(s, b, name, now)
  }

  /** The whole file can be read through a descriptor. */
  predicate Readable(s: Store, name: Name, memory: bool) {
    var b := BackendOf(s, name);
    |Content(s, b, name)| <= IO_MAX && (b == Disk && !memory ==> Content(s, b, name) == [])
  }

  /** Removing the file and writing these bytes under its name. */
  function RewrittenStore(s: Store, name: Name, bytes: seq<byte>): Option<Store> {
    match Removed(s, name)
    case None => None
    case Some(gone) =>
      var open := OpenedStore(gone, name, WRITE);
      if File(open, name).None? then None
      else if bytes == [] then Some(open)
      else if |bytes| > IO_MAX then None
      else Put(open, BackendOf(open, name), name, bytes)
  }

  /** append_log_file_locked on the stored files: what they are afterwards, if the append succeeds. `free` says
      that there is a free descriptor. */
  function AppendStore(s: Store, name: Name, line: seq<byte>, free: bool, memory: bool): Option<Store> {
    var ensured := EnsuredStore(s, name);
    if line == [] || !free || File(ensured, name).None? then None
    else
      var limit := Limit(BackendOf(ensured, name));
      var c := File(ensured, name).value;
      if |line| > limit then None
      else if |c| + |line| <= limit then AddedStore(ensured, name, line, memory)
      else if !Readable(ensured, name, memory) then None
      else
        match RewrittenStore(ensured, name, c[CutAt(c, limit)..])
        case None => None
        case Some(cut) => if File(cut, name).None? then None else AddedStore(cut, name, line, memory)
  }

  /** Writing to the backend a file is on leaves it there. */
  lemma PutStays(s: Store, name: Name, data: seq<byte>)
    requires BackendOf(s, name) != NoBackend && Put(s, BackendOf(s, name), name, data).Some?
    ensures var b := BackendOf(s, name); var t := Put(s, b, name, data).value;
      && BackendOf(t, name) == b && File(t, name).Some? && (|data| <= Limit(b) ==> File(t, name) == Some(data))
  {}

  lemma AddedIs(s: Store, name: Name, line: seq<byte>, memory: bool)
    requires File(s, name).Some? && AddedStore(s, name, line, memory).Some?
    ensures var t := AddedStore(s, name, line, memory).value;
      BackendOf(t, name) == BackendOf(s, name) && File(t, name) == Some(File(s, name).value + line)
  {
    PutStays(s, name, File(s, name).value + line);
    hide Put;
  }

  lemma RewrittenIs(s: Store, name: Name, bytes: seq<byte>)
    requires RewrittenStore(s, name, bytes).Some?
    ensures var t := RewrittenStore(s, name, bytes).value;
      File(t, name).Some? && (BackendOf(t, name) == BackendOf(s, name) && |bytes| <= Limit(BackendOf(s, name)) ==>
                                File(t, name) == Some(bytes))
  {
    var gone := Removed(s, name).value;
    var open := OpenedStore(gone, name, WRITE);
    RemovedThere(s, name);
    if bytes != [] { PutStays(open, name, bytes); }
    hide Put, CreateFile, Removed;
  }

  lemma RemovedShows(s: Store, name: Name)
    requires Removed(s, name).Some?
    ensures File(Removed(s, name).value, name).Some? ==> BackendOf(Removed(s, name).value, name) != BackendOf(s, name)
  {}

  lemma MadeEmpty(s: Store, name: Name)
    requires File(s, name).None? && CreateFile(s, name).Some?
    ensures File(CreateFile(s, name).value.0, name) == Some([])
  {}

  /** A file removed and opened again: empty, or the one on the disk that it hid. */
  lemma RemovedThere(s: Store, name: Name)
    requires Removed(s, name).Some?
    ensures var open := OpenedStore(Removed(s, name).value, name, WRITE);
      File(open, name).Some? && BackendOf(open, name) == BackendOf(s, name) ==> File(open, name) == Some([])
  {
    hide CreateFile, Removed, File, BackendOf;
    var gone := Removed(s, name).value;
    RemovedShows(s, name);
    if File(gone, name).None? && CreateFile(gone, name).Some? { MadeEmpty(gone, name); }
  }

  lemma EnsuredIs(s: Store, name: Name)
    ensures var t := EnsuredStore(s, name);
      File(s, name).None? && File(t, name).Some? ==> File(t, name) == Some([])
  {}

  /** A successful append that stays on its backend leaves exactly the appended or rotated content. */
  lemma AppendContent(s: Store, name: Name, line: seq<byte>, free: bool, memory: bool)
    requires StoreOk(s) && AppendStore(s, name, line, free, memory).Some?
    ensures var t := AppendStore(s, name, line, free, memory).value;
      (File(s, name).Some? ==> Stays(s, t, name)) ==>
        File(t, name) ==
          Some(Appended(if File(s, name).Some? then File(s, name).value else [], line, Limit(BackendOf(t, name))))
  {
    hide CutAt, Put, CreateFile, Removed, OpenedStore, AddedStore, RewrittenStore, EnsuredStore, StoreOk;
    EnsuredIs(s, name);
    EnsuredSame(s, name);
    var ensured := EnsuredStore(s, name);
    var limit, c := Limit(BackendOf(ensured, name)), File(ensured, name).value;
    if |c| + |line| <= limit {
      AddedIs(ensured, name, line, memory);
    } else {
      var kept := c[CutAt(c, limit)..];
      RewrittenIs(ensured, name, kept);
      AddedIs(RewrittenStore(ensured, name, kept).value, name, line, memory);
    }
  }

  lemma EnsuredSame(s: Store, name: Name)
    ensures File(s, name).Some? ==> EnsuredStore(s, name) == s
  {}

  /** The files as the backends keep them. */
  predicate Stored(s: Store) {
    StoreOk(s) && |s.disk| <= DISK_FILES && |s.ram| <= RAM_FILES
  }

  /** A name the backends take, and no built-in program. */
  predicate Writable(s: Store, name: Name) { name != [] && BACKSLASH !in name && name !in s.builtin }

  lemma AddedSome(s: Store, name: Name, line: seq<byte>, memory: bool)
    requires Stored(s) && Writable(s, name) && File(s, name).Some?
    requires |line| < LINE_CAPACITY && |File(s, name).value| + |line| <= Limit(BackendOf(s, name))
    ensures AddedStore(s, name, line, memory).Some? <==> memory
  {}

  /** A file on the disk hidden by one in RAM. */
  predicate Hidden(s: Store, name: Name) { name in s.ram && s.diskUp && name in s.disk }

  /** A file removed: the one on the disk that it hid, or room for it on the backend it was on. */
  lemma GoneIs(s: Store, name: Name)
    requires Stored(s) && Writable(s, name) && File(s, name).Some?
    ensures Removed(s, name).Some?
    ensures var gone := Removed(s, name).value;
      && Stored(gone) && Writable(gone, name)
      && File(gone, name) == (if Hidden(s, name) then Some(s.disk[name]) else None)
      && (Hidden(s, name) ==> BackendOf(gone, name) == Disk)
      && (if BackendOf(s, name) == Disk then |gone.disk| < DISK_FILES && gone.diskUp else |gone.ram| < RAM_FILES)
  {}

  lemma CreateSome(s: Store, name: Name)
    requires Stored(s) && Writable(s, name) && File(s, name).None?
    requires |s.ram| < RAM_FILES || (|s.disk| < DISK_FILES && s.diskUp)
    ensures CreateFile(s, name).Some?
    ensures var t := CreateFile(s, name).value.0;
      && Stored(t) && Writable(t, name) && File(t, name) == Some([])
      && (|s.disk| < DISK_FILES && s.diskUp ==> BackendOf(t, name) == Disk)
  {}

  /** Removing the file and opening its name again: an empty file, or the one on the disk that it hid. */
  lemma OpenSome(s: Store, name: Name)
    requires Stored(s) && Writable(s, name) && File(s, name).Some?
    ensures Removed(s, name).Some?
    ensures var open := OpenedStore(Removed(s, name).value, name, WRITE);
      && Stored(open) && Writable(open, name)
      && (BackendOf(s, name) == Disk || Hidden(s, name) ==> BackendOf(open, name) == Disk)
      && File(open, name) == Some(if Hidden(s, name) then s.disk[name] else [])
  {
    hide Put, CreateFile, Removed, Writable, Stored, File, BackendOf;
    GoneIs(s, name);
    if !Hidden(s, name) { CreateSome(Removed(s, name).value, name); }
  }

  lemma PutSome(s: Store, name: Name, data: seq<byte>)
    requires Stored(s) && Writable(s, name) && File(s, name).Some? && |data| <= DISK_FILE_MAX
    ensures Put(s, BackendOf(s, name), name, data).Some?
    ensures var t := Put(s, BackendOf(s, name), name, data).value;
      Stored(t) && Writable(t, name) && BackendOf(t, name) == BackendOf(s, name)
  {}

  /** Rewriting never fails; it leaves the bytes, unless there are none and a file was hidden. */
  lemma RewrittenSome(s: Store, name: Name, bytes: seq<byte>)
    requires Stored(s) && Writable(s, name) && File(s, name).Some? && |bytes| <= Keep(Limit(BackendOf(s, name)))
    ensures RewrittenStore(s, name, bytes).Some?
    ensures var t := RewrittenStore(s, name, bytes).value;
      && Stored(t) && Writable(t, name) && |bytes| <= Keep(Limit(BackendOf(t, name)))
      && (BackendOf(s, name) == Disk || Hidden(s, name) ==> BackendOf(t, name) == Disk)
      && File(t, name) == Some(if bytes == [] && Hidden(s, name) then s.disk[name] else bytes)
  {
    hide Put, CreateFile, Removed, OpenedStore, Writable, Stored, File;
    OpenSome(s, name);
    var open := OpenedStore(Removed(s, name).value, name, WRITE);
    Backends(s, name);
    Backends(open, name);
    if bytes != [] {
      PutSome(open, name, bytes);
      PutStays(open, name, bytes);
    }
  }

  lemma Backends(s: Store, name: Name)
    requires Stored(s)
    ensures BackendOf(s, name) != NoBackend <==> File(s, name).Some?
    ensures Hidden(s, name) ==> BackendOf(s, name) == Ram
    ensures File(s, name).Some? && name !in s.builtin ==> |File(s, name).value| <= Limit(BackendOf(s, name))
  {}

  lemma EnsuredSome(s: Store, name: Name)
    requires Stored(s) && Writable(s, name)
    ensures var t := EnsuredStore(s, name);
      && Stored(t) && Writable(t, name)
      && (File(t, name).Some? <==> File(s, name).Some? || CreateFile(s, name).Some?)
  {
    if File(s, name).None? && CreateFile(s, name).Some? { CreatedStored(s, name); }
  }

  lemma CreatedStored(s: Store, name: Name)
    requires Stored(s) && Writable(s, name) && File(s, name).None? && CreateFile(s, name).Some?
    ensures var t := CreateFile(s, name).value.0; Stored(t) && Writable(t, name) && File(t, name).Some?
  {}

  lemma CanBeRead(s: Store, name: Name, memory: bool)
    requires Stored(s) && Writable(s, name) && File(s, name).Some?
    ensures memory ==> Readable(s, name, memory)
  {}

  /** Adding the line after a rotation. */
  lemma RotatedSome(s: Store, name: Name, line: seq<byte>, memory: bool)
    requires Stored(s) && Writable(s, name) && File(s, name).Some? && 0 < |line| < LINE_CAPACITY
    requires |File(s, name).value| + |line| > Limit(BackendOf(s, name))
    ensures var c := File(s, name).value; var kept := c[CutAt(c, Limit(BackendOf(s, name)))..];
      && RewrittenStore(s, name, kept).Some?
      && var cut := RewrittenStore(s, name, kept).value;
      File(cut, name).Some? && (AddedStore(cut, name, line, memory).Some? <==> memory && !Overflows(s, name, line))
  {
    hide Put, CreateFile, Removed, OpenedStore, RewrittenStore, Stored, Writable, CutAt;
    var limit := Limit(BackendOf(s, name));
    var c := File(s, name).value;
    var kept := c[CutAt(c, limit)..];
    RewrittenSome(s, name, kept);
    var cut := RewrittenStore(s, name, kept).value;
    if Hidden(s, name) { HiddenIs(s, name); }
    if |File(cut, name).value| + |line| <= Limit(BackendOf(cut, name)) { AddedSome(cut, name, line, memory); }
  }

  lemma HiddenIs(s: Store, name: Name)
    requires Writable(s, name) && Hidden(s, name)
    ensures BackendOf(s, name) == Ram && File(s, name) == Some(s.ram[name]) && name !in s.builtin
  {}

  lemma NoOverflow(s: Store, name: Name, line: seq<byte>)
    requires File(s, name).None? || |File(s, name).value| + |line| <= Limit(BackendOf(s, name))
    ensures !Overflows(s, name, line)
  {}

  /** The rotated file keeps nothing, and the file on the disk that then shows has no room for the line. */
  predicate Overflows(s: Store, name: Name, line: seq<byte>) {
    && name !in s.builtin && Hidden(s, name) && |s.ram[name]| + |line| > RAM_FILE_MAX
    && CutAt(s.ram[name], RAM_FILE_MAX) == |s.ram[name]| && |s.disk[name]| + |line| > DISK_FILE_MAX
  }

  /** A log line is appended exactly when there is a descriptor and memory for the copy, and the file is there
      or can be made; except where rotation brings up a full file that was hidden. */
  lemma AppendSucceeds(s: Store, name: Name, line: seq<byte>, free: bool, memory: bool)
    requires Stored(s) && Writable(s, name) && 0 < |line| < LINE_CAPACITY
    ensures AppendStore(s, name, line, free, memory).Some? <==>
      free && memory && (File(s, name).Some? || CreateFile(s, name).Some?) && !Overflows(s, name, line)
  {
    hide CutAt, Put, CreateFile, Removed, OpenedStore, AddedStore, RewrittenStore, EnsuredStore, StoreOk, Stored;
    hide Writable;
    hide BackendOf, Content, Readable;
    var ensured := EnsuredStore(s, name);
    EnsuredSome(s, name);
    EnsuredSame(s, name);
    EnsuredIs(s, name);
    Backends(ensured, name);
    if File(s, name).None? { NoOverflow(s, name, line); }
    if File(ensured, name).Some? {
      var limit, c := Limit(BackendOf(ensured, name)), File(ensured, name).value;
      if |c| + |line| <= limit {
        NoOverflow(s, name, line);
        AddedSome(ensured, name, line, memory);
      } else {
        CanBeRead(ensured, name, memory);
        RewrittenSome(ensured, name, c[CutAt(c, limit)..]);
        RotatedSome(ensured, name, line, memory);
      }
    }
  }

  class LogFile {
    const files: Files
    const path: seq<byte>

    ghost predicate Valid()
      reads files
    {
      files.Valid() && Normalized(path).Some?
    }

    constructor (files: Files, path: seq<byte>)
      requires files.Valid() && Normalized(path).Some?
      ensures Valid() && this.files == files && this.path == path
    {
      this.files := files;
      this.path := path;
    }

    ghost function Name(): seq<byte>
      requires Normalized(path).Some?
    {
      Normalized(path).value
    }

    /** There is a free descriptor. */
    ghost predicate Free()
      reads files.fds
    {
      FreeFd(files.fds[..], 0).Some?
    }

    /** ensure_log_file. */
    method EnsureLogFile() returns (st: Option<(nat, Backend)>)
      requires Valid()
      modifies files, files.fds
      ensures Valid() && Free() == old(Free())
      ensures files.store == EnsuredStore(old(files.store), Name())
      ensures st.Some? <==>
        (File(old(files.store), Name()).Some? || old(Free())) && File(files.store, Name()).Some?
      ensures st.Some? ==>
        && st.value == (|File(files.store, Name()).value|, BackendOf(files.store, Name()))
        && (File(old(files.store), Name()).None? ==> File(files.store, Name()) == Some([]))
    {
      st := files.Stat(path);
      if st.Some? { return; }
      ghost var before := files.fds[..];
      var fd := files.Open(path, APPEND);
      if fd < 0 { return None; }
      var closed := files.Close(fd);
      ReturnedFd(before, files.fds[..]);
      st := files.Stat(path);
    }

    /** Read the whole file through a descriptor. */
    method ReadAll(size: nat, memory: bool) returns (r: Option<seq<byte>>)
      requires Valid() && File(files.store, Name()).Some? && size == |File(files.store, Name()).value|
      modifies files, files.fds
      ensures Valid() && files.store == old(files.store) && Free() == old(Free())
      ensures r.Some? <==> old(Free()) && Readable(files.store, Name(), memory)
      ensures r.Some? ==> r.value == File(files.store, Name()).value
    {
      ghost var before := files.fds[..];
      var fd := files.Open(path, READ);
      if fd < 0 { return None; }
      var rc, bytes := 0, [];
      if size > 0 { rc, bytes := files.ReadSlot(fd, size, memory); }
      var closed := files.Close(fd);
      ReturnedFd(before, files.fds[..]);
      r := if rc < 0 then None else Some(bytes);
    }

    /** Replace the file by these bytes. */
    method Rewrite(bytes: seq<byte>, memory: bool) returns (ok: bool)
      requires Valid()
      modifies files, files.fds
      ensures Valid() && Free() == old(Free())
      ensures ok <==> old(Free()) && RewrittenStore(old(files.store), Name(), bytes).Some?
      ensures ok ==> files.store == RewrittenStore(old(files.store), Name(), bytes).value
    {
      hide Put, Removed, CreateFile;
      var gone := files.Remove(path);
      if gone != 0 { return false; }
      ghost var before := files.fds[..];
      var fd := files.Open(path, WRITE);
      if fd < 0 { return false; }
      var written := 0;
      if bytes != [] { written := files.WriteSlot(fd, bytes, memory); }
      var closed := files.Close(fd);
      ReturnedFd(before, files.fds[..]);
      ok := written >= 0 && written == |bytes|;
    }

    /** Add a line at the end of a file that has room for it. */
    method AddLine(line: seq<byte>, memory: bool) returns (rc: int)
      requires Valid() && File(files.store, Name()).Some? && BackendOf(files.store, Name()) != NoBackend
      modifies files, files.fds
      ensures Valid() && (rc == 0 || rc == -1)
      ensures rc == 0 <==> old(Free()) && AddedStore(old(files.store), Name(), line, memory).Some?
      ensures rc == 0 ==> files.store == AddedStore(old(files.store), Name(), line, memory).value
    {
      var fd := files.Open(path, APPEND);
      if fd < 0 { return -1; }
      var written := files.WriteSlot(fd, line, memory);
      var closed := files.Close(fd);
      rc := if written == |line| then 0 else -1;
    }

    /** Cut the oldest lines off. */
    method Rotate(size: nat, limit: nat, memory: bool) returns (ok: bool)
      requires Valid() && File(files.store, Name()).Some? && size == |File(files.store, Name()).value|
      modifies files, files.fds
      ensures Valid() && Free() == old(Free())
      ensures var s := old(files.store); var kept := File(s, Name()).value[CutAt(File(s, Name()).value, limit)..];
        && (ok <==> old(Free()) && Readable(s, Name(), memory) && RewrittenStore(s, Name(), kept).Some?)
        && (ok ==> files.store == RewrittenStore(s, Name(), kept).value)
    {
      hide CutAt, RewrittenStore, Readable;
      var all := ReadAll(size, memory);
      if all.None? { return false; }
      var cut := CutAt(all.value, limit);
      ok := Rewrite(all.value[cut..], memory);
    }

    /** append_log_file_locked: it succeeds exactly when, and leaves exactly what, AppendStore says. */
    method Append(line: seq<byte>, memory: bool) returns (rc: int)
      requires Valid()
      modifies files, files.fds
      ensures Valid() && (rc == 0 || rc == -1)
      ensures rc == 0 <==> AppendStore(old(files.store), Name(), line, old(Free()), memory).Some?
      ensures rc == 0 ==> files.store == AppendStore(old(files.store), Name(), line, old(Free()), memory).value
    {
      hide CutAt, Put, RewrittenStore, EnsuredStore, Readable;
      if line == [] { return -1; }
      var st := EnsureLogFile();
      if st.None? { return -1; }
      var limit := Limit(st.value.1);
      if |line| > limit { return -1; }
      if st.value.0 + |line| > limit {
        var ok := Rotate(st.value.0, limit, memory);
        if !ok { return -1; }
        st := files.Stat(path);
        if st.None? { return -1; }
        limit := Limit(st.value.1);
        if st.value.0 + |line| > limit { return -1; }
      }
      rc := AddLine(line, memory);
    }
  }

  /** Opening and closing leaves as many descriptors free as before. */
  lemma ReturnedFd(before: seq<Fd>, after: seq<Fd>)
    requires |after| == |before| && forall i :: 0 <= i < |before| ==> after[i].used == before[i].used
    ensures FreeFd(after, 0).Some? == FreeFd(before, 0).Some?
  {}

  // ---------------------------------------------------------------- the log's own name

  const LOG_PATH: seq<byte> :=
    [47, 118, 97, 114, 47, 108, 111, 103, 47, 108, 105, 111, 110, 111, 115, 46, 108, 111, 103]

  lemma LogPathJoined(a: Part, b: Part, c: Part)
    requires a == [118, 97, 114] && b == [108, 111, 103] && c == [108, 105, 111, 110, 111, 115, 46, 108, 111, 103]
    ensures Join([a, b, c]) == LOG_PATH[1..]
  {
    hide Join;
    JoinPush([], a);
    JoinPush([a], b);
    JoinPush([a, b], c);
    JoinEmpty([]);
    assert [] + [a] == [a] && [a] + [b] == [a, b] && [a, b] + [c] == [a, b, c];
  }

  /** `/var/log/lionos.log` is stored under its own name without the leading slash. */
  lemma LogPathNormal()
    ensures Normalized(LOG_PATH) == Some(LOG_PATH[1..])
  {
    hide Parts, Join, Fold, SkipSlashes, FirstPart;
    var a: Part, b: Part, c: Part := [118, 97, 114], [108, 111, 103], [108, 105, 111, 110, 111, 115, 46, 108, 111, 103];
    var stack := [a, b, c];
    assert AllPlain(stack);
    hide AllPlain, Plain;
    LogPathJoined(a, b, c);
    PartsSkip(LOG_PATH);
    JoinedIsNormal(stack);
  }

  /** Plain parts joined are a normal path. */
  lemma JoinedIsNormal(stack: seq<Part>)
    requires AllPlain(stack) && stack != [] && |Join(stack)| < PATH_MAX
    ensures Parts(Join(stack)) == stack && Fold([], stack) == Some(stack)
  {
    hide Join, Fold, SkipSlashes, FirstPart;
    PartsOfJoin(stack, []);
    assert Join(stack) + [] == Join(stack) && stack + Parts([]) == stack by { NoParts(); }
    assert [] + stack == stack;
    FoldStacks([], stack);
  }

  lemma NoParts()
    ensures Parts([]) == []
  {}
}
