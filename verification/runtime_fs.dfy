/**
 * The filesystem a node program sees (matrix/server/runtime/filesystem.hpp):
 * it delegates to the server's `FileSystem` and charges simulated disk
 * latency before every data transfer.
 *
 * The disk emulation (`detail::Disk`) is not part of this model; the charges
 * are kept as a log of disk operations, in the order they are made.
 */
module RuntimeFs {
  import opened Wrappers
  import opened Strings
  import opened SortedMap
  import opened Filesystem

  /** A simulated disk access of `size` bytes. */
  datatype DiskOp = DiskWrite(size: nat) | DiskRead(size: nat)

  /** The paths of `ps` that start with `prefix`, in their order. */
  function WithPrefix(ps: seq<string>, prefix: string): (r: seq<string>)
    ensures |r| <= |ps|
  {
    if ps == [] then []
    else if StartsWith(ps[0], prefix) then [ps[0]] + WithPrefix(ps[1..], prefix)
    else WithPrefix(ps[1..], prefix)
  }

  lemma {:induction false} WithPrefixSnoc(ps: seq<string>, p: string, prefix: string)
    ensures WithPrefix(ps + [p], prefix) == WithPrefix(ps, prefix) + (if StartsWith(p, prefix) then [p] else [])
  {
    if ps == [] {
      assert ps + [p] == [p];
    } else {
      assert (ps + [p])[1..] == ps[1..] + [p];
      WithPrefixSnoc(ps[1..], p, prefix);
    }
  }

  /** Filtering keeps exactly the paths with the prefix. */
  lemma {:induction false} WithPrefixMembers(ps: seq<string>, prefix: string, x: string)
    ensures x in WithPrefix(ps, prefix) <==> x in ps && StartsWith(x, prefix)
  {
    if ps != [] {
      WithPrefixMembers(ps[1..], prefix, x);
      assert x in ps <==> x == ps[0] || x in ps[1..];
    }
  }

  /** Strictly ascending in path order. */
  predicate Ascending(ps: seq<string>)
  {
    forall i, j :: 0 <= i < j < |ps| ==> Less(ps[i], ps[j])
  }

  /** Filtering keeps a strictly ascending list ascending. */
  lemma {:induction false} WithPrefixAscending(ps: seq<string>, prefix: string)
    requires Ascending(ps)
    ensures Ascending(WithPrefix(ps, prefix))
  {
    if ps != [] {
      assert Ascending(ps[1..]) by {
        forall i, j | 0 <= i < j < |ps| - 1
          ensures Less(ps[1..][i], ps[1..][j])
        {
          assert ps[1..][i] == ps[i + 1] && ps[1..][j] == ps[j + 1];
        }
      }
      WithPrefixAscending(ps[1..], prefix);
      var rest := WithPrefix(ps[1..], prefix);
      forall x | x in rest
        ensures Less(ps[0], x)
      {
        WithPrefixMembers(ps[1..], prefix, x);
      }
      if StartsWith(ps[0], prefix) {
        var r := [ps[0]] + rest;
        forall i, j | 0 <= i < j < |r|
          ensures Less(r[i], r[j])
        {
          assert r[j] == rest[j - 1];
          if i == 0 {
            assert rest[j - 1] in rest;
          } else {
            assert r[i] == rest[i - 1];
            assert Ascending(rest);
            assert Less(rest[i - 1], rest[j - 1]);
          }
        }
      }
    }
  }

  /** The directory walk of `ListFiles`: visits `paths` in order, keeping
      those that start with `prefix`. */
  method CollectWithPrefix(paths: seq<string>, prefix: string) returns (listed: seq<string>)
    ensures listed == WithPrefix(paths, prefix)
  {
    listed := [];
    var i := 0;
    while i < |paths|
      invariant 0 <= i <= |paths|
      invariant listed == WithPrefix(paths[..i], prefix)
    {
      WithPrefixSnoc(paths[..i], paths[i], prefix);
      assert paths[..i + 1] == paths[..i] + [paths[i]];
      if StartsWith(paths[i], prefix) {
        listed := listed + [paths[i]];
      }
      i := i + 1;
    }
    assert paths[..i] == paths;
  }

  class FS {
    const impl: FileSystem
    var diskOps: seq<DiskOp>

    constructor (impl: FileSystem)
      ensures this.impl == impl && diskOps == []
    {
      this.impl := impl;
      diskOps := [];
    }

    /** The paths stored under `prefix`, in path order (the order of the
        underlying `std::map`). */
    method ListFiles(prefix: string) returns (listed: seq<string>)
      requires impl.Valid()
      ensures listed == WithPrefix(impl.Paths(), prefix)
    {
      listed := CollectWithPrefix(impl.Paths(), prefix);
    }

    /** Opens through the server's filesystem; append mode creates a missing
        file. */
    method Open(path: string, mode: FileMode) returns (fd: Option<nat>)
      requires impl.Valid()
      modifies impl
      ensures impl.Valid()
      ensures fd.Some? <==> old(impl.Exists(path)) || mode == AppendMode
      ensures fd.None? ==>
        impl.files == old(impl.files) && impl.data == old(impl.data) &&
        impl.openFiles == old(impl.openFiles) && impl.nextFd == old(impl.nextFd)
      ensures fd.Some? ==>
        fd.value == old(impl.nextFd) + 1 && impl.nextFd == fd.value && fd.value !in old(impl.openFiles) &&
        impl.Lookup(path).Some? &&
        var file := impl.Lookup(path).value;
        impl.openFiles == old(impl.openFiles)[fd.value := OpenedFile(fd.value, path, mode, impl.InitOffset(file, mode), file)]
      ensures old(impl.Exists(path)) ==> impl.files == old(impl.files) && impl.data == old(impl.data)
      ensures !old(impl.Exists(path)) && mode == AppendMode ==>
        impl.files == Put(old(impl.files), path, old(impl.nextFile)) &&
        impl.data == old(impl.data)[old(impl.nextFile) := []]
      ensures diskOps == old(diskOps)
    {
      fd := impl.Open(path, mode);
    }

    /** Charges a disk write of the data's size, then appends. */
    method Append(fd: nat, bytes: seq<Byte>)
      requires impl.Valid() && fd in impl.openFiles && impl.openFiles[fd].mode == AppendMode
      modifies this, impl
      ensures impl.Valid()
      ensures diskOps == old(diskOps) + [DiskWrite(|bytes|)]
      ensures var f := old(impl.openFiles)[fd].file; impl.data == old(impl.data)[f := old(impl.data)[f] + bytes]
      ensures impl.files == old(impl.files) && impl.openFiles == old(impl.openFiles)
    {
      diskOps := diskOps + [DiskWrite(|bytes|)];
      impl.Append(fd, bytes);
    }

    /** Charges a disk read of the buffer's size (not of the bytes actually
        read), then reads. */
    method Read(fd: nat, n: nat) returns (bytes: seq<Byte>)
      requires impl.Valid() && fd in impl.openFiles && impl.openFiles[fd].mode == ReadMode
      modifies this, impl
      ensures impl.Valid()
      ensures diskOps == old(diskOps) + [DiskRead(n)]
      ensures var of := old(impl.openFiles)[fd];
        bytes == PRead(old(impl.data)[of.file], of.offset, n) && |bytes| <= n &&
        impl.openFiles == old(impl.openFiles)[fd := of.(offset := of.offset + |bytes|)]
      ensures impl.files == old(impl.files) && impl.data == old(impl.data)
    {
      diskOps := diskOps + [DiskRead(n)];
      bytes := impl.Read(fd, n);
    }

    method Create(path: string) returns (created: bool)
      requires impl.Valid()
      modifies impl
      ensures impl.Valid()
      ensures created <==> !old(impl.Exists(path))
      ensures !created ==> impl.files == old(impl.files) && impl.data == old(impl.data) && impl.nextFile == old(impl.nextFile)
      ensures created ==>
        impl.files == Put(old(impl.files), path, old(impl.nextFile)) &&
        impl.data == old(impl.data)[old(impl.nextFile) := []]
      ensures impl.Exists(path)
      ensures impl.openFiles == old(impl.openFiles) && impl.nextFd == old(impl.nextFd) && diskOps == old(diskOps)
    {
      created := impl.Create(path);
    }

    method Unlink(path: string)
      requires impl.Valid()
      modifies impl
      ensures impl.Valid() && !impl.Exists(path)
      ensures impl.files == Remove(old(impl.files), path) && diskOps == old(diskOps)
      ensures impl.data == old(impl.data) && impl.openFiles == old(impl.openFiles) && impl.nextFd == old(impl.nextFd)
    {
      impl.Unlink(path);
    }

    method Truncate(path: string, size: nat)
      requires impl.Valid() && impl.Exists(path)
      modifies impl
      ensures impl.Valid()
      ensures var f := old(impl.Lookup(path)).value; impl.data == old(impl.data)[f := Resize(old(impl.data)[f], size)]
      ensures impl.files == old(impl.files) && impl.openFiles == old(impl.openFiles) && impl.nextFd == old(impl.nextFd)
      ensures diskOps == old(diskOps)
    {
      impl.Truncate(path, size);
    }

    function Exists(path: string): (r: bool)
      reads this, impl
      requires impl.Valid()
      ensures r <==> path in Keys(impl.files)
    {
      impl.Exists(path)
    }

    method Close(fd: nat)
      requires impl.Valid() && fd in impl.openFiles
      modifies impl
      ensures impl.Valid()
      ensures impl.openFiles == old(impl.openFiles) - {fd} && diskOps == old(diskOps)
      ensures impl.files == old(impl.files) && impl.data == old(impl.data) && impl.nextFd == old(impl.nextFd)
    {
      impl.Close(fd);
    }
  }

  /** `ListFiles` returns exactly the stored paths with the prefix, each once,
      in strictly ascending path order. */
  lemma ListFilesExact(fs: FileSystem, prefix: string, listed: seq<string>)
    requires fs.Valid() && listed == WithPrefix(fs.Paths(), prefix)
    ensures forall x :: x in listed <==> x in Keys(fs.files) && StartsWith(x, prefix)
    ensures Ascending(listed)
  {
    var ps := fs.Paths();
    forall x
      ensures x in listed <==> x in Keys(fs.files) && StartsWith(x, prefix)
    {
      WithPrefixMembers(ps, prefix, x);
      if x in Keys(fs.files) {
        var i :| 0 <= i < |fs.files| && fs.files[i].key == x;
        assert ps[i] == x;
      }
    }
    WithPrefixAscending(ps, prefix);
  }
}
