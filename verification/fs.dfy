/**
 * The simulated filesystem of one server (matrix/fs/fs.*). Files persist
 * across crashes; open file descriptors, their offsets and the descriptor
 * counter are process state that a crash wipes.
 *
 * `files` maps each path to the file it names, in the path order of a
 * `std::map<std::string, ...>`. Files are shared objects in the simulator
 * (an unlinked file stays readable through a descriptor opened earlier), so
 * the model names files by number and keeps their bytes in `data`.
 *
 * The simulator's `File` class is not part of this model. Its data
 * operations are assumed to behave as a byte vector: `Append` concatenates,
 * `PRead` copies what is available at the offset, `Truncate` resizes
 * (padding with zero bytes).
 */
module Filesystem {
  import opened Wrappers
  import opened Strings
  import opened SortedMap
  import opened Digests

  datatype FileMode = ReadMode | AppendMode

  datatype OpenedFile = OpenedFile(fd: nat, path: string, mode: FileMode, offset: nat, file: nat)

  const RootPath: string := "/"
  const TmpPath: string := "/tmp"

  /** `File::PRead`: up to `n` bytes of `contents` from `offset`. */
  function PRead(contents: seq<Byte>, offset: nat, n: nat): (r: seq<Byte>)
    ensures |r| == if offset >= |contents| then 0 else if n < |contents| - offset then n else |contents| - offset
    ensures offset >= |contents| ==> r == []
    ensures offset < |contents| ==> r == contents[offset..offset + |r|]
  {
    if offset >= |contents| then []
    else if n < |contents| - offset then contents[offset..offset + n]
    else contents[offset..]
  }

  /** `File::Truncate`: cut to `size` bytes, or extend with zero bytes. */
  function Resize(contents: seq<Byte>, size: nat): (r: seq<Byte>)
    ensures |r| == size
    ensures forall i :: 0 <= i < size && i < |contents| ==> r[i] == contents[i]
    ensures forall i :: |contents| <= i < size ==> r[i] == 0
  {
    if size <= |contents| then contents[..size] else contents + seq(size - |contents|, _ => 0)
  }

  predicate EndsWithSlash(s: string)
  {
    |s| > 0 && s[|s| - 1] == '/'
  }

  /** `PathAppend`: joins with a single '/' unless `base` already ends with
      one. */
  function PathAppend(base: string, name: string): (r: string)
    ensures EndsWithSlash(base) ==> r == base + name
    ensures !EndsWithSlash(base) ==> r == base + "/" + name
  {
    if EndsWithSlash(base) then base + name else base + "/" + name
  }

  /** Position of the last '/' in `path`, if any. */
  function LastSlash(path: string): (r: Option<nat>)
    ensures r.Some? ==> r.value < |path| && path[r.value] == '/'
    ensures r.Some? ==> forall i :: r.value < i < |path| ==> path[i] != '/'
    ensures r.None? ==> forall i :: 0 <= i < |path| ==> path[i] != '/'
  {
    if path == [] then None
    else if path[|path| - 1] == '/' then Some(|path| - 1)
    else LastSlash(path[..|path| - 1])
  }

  /** `PathSplit`: parent and name around the last '/'; a path without '/'
      is all parent, with an empty name. */
  function PathSplit(path: string): (r: (string, string))
    ensures LastSlash(path).Some? ==> r.0 + "/" + r.1 == path
    ensures forall i :: 0 <= i < |r.1| ==> r.1[i] != '/'
    ensures LastSlash(path).None? ==> r == (path, "")
  {
    match LastSlash(path)
    case Some(k) =>
      assert path == path[..k] + "/" + path[k + 1..];
      (path[..k], path[k + 1..])
    case None => (path, "")
  }

  /** Splitting a joined path gives back the name, and the base without
      the separator. */
  lemma SplitAppend(base: string, name: string)
    requires forall i :: 0 <= i < |name| ==> name[i] != '/'
    ensures PathSplit(PathAppend(base, name)) ==
      (if EndsWithSlash(base) then (base[..|base| - 1], name) else (base, name))
  {
    var joined := PathAppend(base, name);
    var k := if EndsWithSlash(base) then |base| - 1 else |base|;
    assert joined[k] == '/';
    assert forall i :: k < i < |joined| ==> joined[i] == name[i - k - 1];
    var r := LastSlash(joined);
    assert r.Some?;
    assert r.value >= k;
    assert r.value <= k;
    assert joined[..k] == if EndsWithSlash(base) then base[..|base| - 1] else base;
    assert joined[k + 1..] == name;
  }

  /** The digest items of a file table, path by path in path order. */
  function FilesDigestItems(files: seq<Entry<nat>>, data: map<nat, seq<Byte>>): (items: seq<DigestItem>)
    requires forall i :: 0 <= i < |files| ==> files[i].value in data
    ensures |items| == 2 * |files|
    ensures forall i :: 0 <= i < |files| ==>
      items[2 * i] == EatText(files[i].key) && items[2 * i + 1] == Combine(FileDigest(data[files[i].value]))
  {
    if files == [] then []
    else [EatText(files[0].key), Combine(FileDigest(data[files[0].value]))] + FilesDigestItems(files[1..], data)
  }

  class FileSystem {
    var files: seq<Entry<nat>>          // path -> file
    var data: map<nat, seq<Byte>>       // contents of every file created
    var nextFile: nat                   // files 0 .. nextFile - 1 exist
    var openFiles: map<nat, OpenedFile>    // open descriptors
    var nextFd: nat                     // the last descriptor handed out

    constructor ()
      ensures Valid()
      ensures files == [] && data == map[] && nextFile == 0 && openFiles == map[] && nextFd == 0
    {
      files := [];
      data := map[];
      nextFile := 0;
      openFiles := map[];
      nextFd := 0;
    }

    ghost predicate Valid()
      reads this
    {
      Sorted(files) &&
      (forall i :: 0 <= i < |files| ==> files[i].value in data) &&
      (forall fd :: fd in openFiles ==> openFiles[fd].file in data && 1 <= fd <= nextFd) &&
      (forall f :: f in data ==> f < nextFile)
    }

    function Exists(path: string): (r: bool)
      reads this
      requires Valid()
      ensures r <==> path in Keys(files)
    {
      Get(files, path).Some?
    }

    /** The file `path` names, if any. */
    function Lookup(path: string): (r: Option<nat>)
      reads this
      requires Valid()
      ensures r.Some? <==> path in Keys(files)
      ensures r.Some? ==> r.value in data
    {
      var r := Get(files, path);
      if r.Some? then
        var i :| 0 <= i < |files| && files[i] == Entry(path, r.value);
        r
      else r
    }

    /** Paths in the order `ListAllFiles` visits them. */
    function Paths(): (ps: seq<string>)
      reads this
      ensures |ps| == |files| && forall i :: 0 <= i < |files| ==> ps[i] == files[i].key
    {
      KeyList(files)
    }

    /** Adds an empty file under `path`, which must be free. */
    method CreateFile(path: string) returns (file: nat)
      requires Valid() && path !in Keys(files)
      modifies this
      ensures Valid()
      ensures file == old(nextFile) && file !in old(data)
      ensures files == Put(old(files), path, file) && data == old(data)[file := []]
      ensures nextFile == file + 1 && openFiles == old(openFiles) && nextFd == old(nextFd)
    {
      file := nextFile;
      GetPut(files, path, file, path);
      files := Put(files, path, file);
      data := data[file := []];
      nextFile := nextFile + 1;
      forall i | 0 <= i < |files|
        ensures files[i].value in data
      {
        GetAt(files, i);
        GetPut(old(files), path, file, files[i].key);
        if files[i].key != path {
          var j :| 0 <= j < |old(files)| && old(files)[j] == Entry(files[i].key, files[i].value);
        }
      }
    }

    /** `FindOrCreateFile`: the file at `path`; a missing one is created when
        opening for append, and is an error otherwise. */
    method FindOrCreateFile(path: string, mode: FileMode) returns (file: Option<nat>)
      requires Valid()
      modifies this
      ensures Valid()
      ensures file.Some? <==> old(Exists(path)) || mode == AppendMode
      ensures old(Exists(path)) ==> file == old(Lookup(path)) && files == old(files) && data == old(data) && nextFile == old(nextFile)
      ensures !old(Exists(path)) && mode == AppendMode ==>
        file == Some(old(nextFile)) && files == Put(old(files), path, old(nextFile)) &&
        data == old(data)[old(nextFile) := []] && nextFile == old(nextFile) + 1
      ensures !old(Exists(path)) && mode == ReadMode ==> files == old(files) && data == old(data) && nextFile == old(nextFile)
      ensures file.Some? ==> file.value in data
      ensures openFiles == old(openFiles) && nextFd == old(nextFd)
    {
      file := Lookup(path);
      if file.None? && mode == AppendMode {
        var f := CreateFile(path);
        file := Some(f);
      }
    }

    /** Where a new descriptor starts: at 0 for reading, at the end for
        appending. */
    function InitOffset(file: nat, mode: FileMode): (offset: nat)
      reads this
      requires file in data
      ensures mode == ReadMode ==> offset == 0
      ensures mode == AppendMode ==> offset == |data[file]|
    {
      match mode
      case ReadMode => 0
      case AppendMode => |data[file]|
    }

    /** Opens `path`. Reading a missing file fails with "no such file or
        directory" (`None`); appending to one creates it. Descriptors are
        numbered 1, 2, 3, ... */
    method Open(path: string, mode: FileMode) returns (fd: Option<nat>)
      requires Valid()
      modifies this
      ensures Valid()
      ensures fd.Some? <==> old(Exists(path)) || mode == AppendMode
      ensures fd.None? ==> files == old(files) && data == old(data) && openFiles == old(openFiles) && nextFd == old(nextFd)
      ensures fd.Some? ==>
        fd.value == old(nextFd) + 1 && nextFd == fd.value && fd.value !in old(openFiles) &&
        Lookup(path).Some? &&
        openFiles == old(openFiles)[fd.value := OpenedFile(fd.value, path, mode, InitOffset(Lookup(path).value, mode), Lookup(path).value)]
      ensures old(Exists(path)) ==> files == old(files) && data == old(data)
      ensures !old(Exists(path)) && mode == AppendMode ==>
        files == Put(old(files), path, old(nextFile)) && data == old(data)[old(nextFile) := []]
    {
      var file := FindOrCreateFile(path, mode);
      if file.None? {
        return None;
      }
      GetPut(old(files), path, old(nextFile), path);
      assert Lookup(path) == file;
      var n := NewDescriptor(path, mode, file.value);
      fd := Some(n);
    }

    /** The next descriptor, open on `file` (the file at `path`) at the
        mode's initial offset. */
    method NewDescriptor(path: string, mode: FileMode, file: nat) returns (fd: nat)
      requires Valid() && file in data && Lookup(path) == Some(file)
      modifies this
      ensures Valid()
      ensures fd == old(nextFd) + 1 && nextFd == fd && fd !in old(openFiles)
      ensures files == old(files) && data == old(data) && nextFile == old(nextFile)
      ensures openFiles == old(openFiles)[fd := OpenedFile(fd, path, mode, InitOffset(file, mode), file)]
    {
      nextFd := nextFd + 1;
      var offset := InitOffset(file, mode);
      openFiles := openFiles[nextFd := OpenedFile(nextFd, path, mode, offset, file)];
      fd := nextFd;
    }

    /** Reads up to `n` bytes at the descriptor's offset and advances the
        offset by the number read. Reading through an unknown descriptor or
        one opened for append is a fatal error. */
    method Read(fd: nat, n: nat) returns (bytes: seq<Byte>)
      requires Valid() && fd in openFiles && openFiles[fd].mode == ReadMode
      modifies this
      ensures Valid()
      ensures var of := old(openFiles)[fd];
        bytes == PRead(old(data)[of.file], of.offset, n) &&
        openFiles == old(openFiles)[fd := of.(offset := of.offset + |bytes|)]
      ensures files == old(files) && data == old(data) && nextFile == old(nextFile) && nextFd == old(nextFd)
    {
      var of := openFiles[fd];
      bytes := PRead(data[of.file], of.offset, n);
      openFiles := openFiles[fd := of.(offset := of.offset + |bytes|)];
    }

    /** Appends `bytes` to the descriptor's file. Appending through an
        unknown descriptor or one opened for reading is a fatal error. */
    method Append(fd: nat, bytes: seq<Byte>)
      requires Valid() && fd in openFiles && openFiles[fd].mode == AppendMode
      modifies this
      ensures Valid()
      ensures var f := old(openFiles)[fd].file; data == old(data)[f := old(data)[f] + bytes]
      ensures files == old(files) && openFiles == old(openFiles) && nextFile == old(nextFile) && nextFd == old(nextFd)
    {
      var f := openFiles[fd].file;
      data := data[f := data[f] + bytes];
    }

    /** Closes `fd`; closing an unknown descriptor is a fatal error. */
    method Close(fd: nat)
      requires Valid() && fd in openFiles
      modifies this
      ensures Valid()
      ensures openFiles == old(openFiles) - {fd}
      ensures files == old(files) && data == old(data) && nextFile == old(nextFile) && nextFd == old(nextFd)
    {
      openFiles := openFiles - {fd};
    }

    /** Creates an empty file at `path`; returns false, changing nothing, if
        the path exists. */
    method Create(path: string) returns (created: bool)
      requires Valid()
      modifies this
      ensures Valid()
      ensures created <==> !old(Exists(path))
      ensures !created ==> files == old(files) && data == old(data) && nextFile == old(nextFile)
      ensures created ==> files == Put(old(files), path, old(nextFile)) && data == old(data)[old(nextFile) := []]
      ensures Exists(path)
      ensures openFiles == old(openFiles) && nextFd == old(nextFd)
    {
      if Exists(path) {
        return false;
      }
      var f := CreateFile(path);
      created := true;
    }

    /** Resizes the file at `path`; a missing file is a fatal error. */
    method Truncate(path: string, size: nat)
      requires Valid() && Exists(path)
      modifies this
      ensures Valid()
      ensures var f := old(Lookup(path)).value; data == old(data)[f := Resize(old(data)[f], size)]
      ensures files == old(files) && openFiles == old(openFiles) && nextFile == old(nextFile) && nextFd == old(nextFd)
    {
      var f := Lookup(path).value;
      data := data[f := Resize(data[f], size)];
    }

    /** Removes `path` from the table, if present. Descriptors already open
        on the file keep it. */
    method Unlink(path: string)
      requires Valid()
      modifies this
      ensures Valid()
      ensures files == Remove(old(files), path) && !Exists(path)
      ensures data == old(data) && openFiles == old(openFiles) && nextFile == old(nextFile) && nextFd == old(nextFd)
    {
      files := Remove(files, path);
      forall i | 0 <= i < |files|
        ensures files[i].value in data
      {
        GetAt(files, i);
        GetRemove(old(files), path, files[i].key);
        var j :| 0 <= j < |old(files)| && old(files)[j] == Entry(files[i].key, files[i].value);
      }
    }

    /** On a crash: open descriptors are dropped and numbering restarts, but
        every file and its contents are kept. */
    method Reset()
      requires Valid()
      modifies this
      ensures Valid()
      ensures openFiles == map[] && nextFd == 0
      ensures files == old(files) && data == old(data) && nextFile == old(nextFile)
    {
      openFiles := map[];
      nextFd := 0;
    }

    /** Every path, then its file's digest, in path order. */
    function ComputeDigest(): (d: Digest)
      reads this
      requires Valid()
      ensures d.Fed? && |d.items| == 2 * |files|
      ensures forall i :: 0 <= i < |files| ==> d.items[2 * i] == EatText(files[i].key)
    {
      Fed(FilesDigestItems(files, data))
    }
  }
}
