/** The file-system side of the archiver: a walked folder as `(relative path, size)`
    entries, archives as ordered entry lists, and the disk as a set of paths changed by a
    trace of create / write / remove operations.  Compression is not modelled. */
module Archive {

  /** `MAX_SIZE = 1.9 * 1024 * 1024 * 1024` is the float 2040109465.6, so for an integer
      size `s`, `s > MAX_SIZE` holds exactly when `s > MaxSize`. */
  const MaxSize: nat := 2040109465

  /** One walked file: its path relative to the folder and its size in bytes. */
  datatype Entry = Entry(rel: string, size: nat)

  /** An archive on disk and the entries written into it, in order. */
  datatype Zip = Zip(path: string, members: seq<Entry>)

  datatype FsOp =
    | CreateZip(zip: string)
    | WriteMember(zip: string, file: string, arcname: string)
    | RemoveFile(file: string)

  /** A folder path `os.path.join` puts a separator after: not empty and not ending in `/`. */
  predicate Unslashed(folder: string)
  {
    folder != "" && folder[|folder| - 1] != '/'
  }

  /** `os.path.join(root, file)` for a walked file of `folder`, whose relative path `rel`
      (from `os.path.relpath`) never starts with `/`: no separator is added after an
      empty folder or one that already ends in `/`. */
  function FilePath(folder: string, rel: string): (p: string)
    ensures |p| >= |folder| && p[..|folder|] == folder
    ensures Unslashed(folder) <==> |p| > |folder| && p[|folder|] == '/' && p[|folder| + 1..] == rel
  {
    if Unslashed(folder) then folder + "/" + rel else folder + rel
  }

  function Total(es: seq<Entry>): nat
  {
    if es == [] then 0 else Total(es[..|es| - 1]) + es[|es| - 1].size
  }

  function Flatten(zs: seq<Zip>): seq<Entry>
  {
    if zs == [] then [] else Flatten(zs[..|zs| - 1]) + zs[|zs| - 1].members
  }

  /** The operations that write `es` into `zip`: each file is written and then removed. */
  function MemberOps(folder: string, zip: string, es: seq<Entry>): (ops: seq<FsOp>)
    ensures |ops| == 2 * |es|
  {
    if es == [] then []
    else
      var e := es[|es| - 1];
      MemberOps(folder, zip, es[..|es| - 1])
        + [WriteMember(zip, FilePath(folder, e.rel), e.rel), RemoveFile(FilePath(folder, e.rel))]
  }

  function ZipOps(folder: string, z: Zip): seq<FsOp>
  {
    [CreateZip(z.path)] + MemberOps(folder, z.path, z.members)
  }

  function ZipsOps(folder: string, zs: seq<Zip>): seq<FsOp>
  {
    if zs == [] then [] else ZipsOps(folder, zs[..|zs| - 1]) + ZipOps(folder, zs[|zs| - 1])
  }

  // ---------------------------------------------------------------- disk effect

  function Step(disk: set<string>, op: FsOp): set<string>
  {
    match op
    case CreateZip(z) => disk + {z}
    case WriteMember(_, _, _) => disk
    case RemoveFile(f) => disk - {f}
  }

  function Run(disk: set<string>, ops: seq<FsOp>): set<string>
    decreases |ops|
  {
    if ops == [] then disk else Run(Step(disk, ops[0]), ops[1..])
  }

  lemma {:induction false} RunAppend(disk: set<string>, x: seq<FsOp>, y: seq<FsOp>)
    ensures Run(disk, x + y) == Run(Run(disk, x), y)
    decreases |x|
  {
    if x == [] {
      assert x + y == y;
    } else {
      assert (x + y)[1..] == x[1..] + y;
      RunAppend(Step(disk, x[0]), x[1..], y);
    }
  }

  /** The paths of the walked files. */
  function Files(folder: string, es: seq<Entry>): (fs: set<string>)
    ensures Unslashed(folder) ==> forall p :: p in fs ==> |p| > |folder| && p[|folder|] == '/'
  {
    if es == [] then {} else Files(folder, es[..|es| - 1]) + {FilePath(folder, es[|es| - 1].rel)}
  }

  lemma {:induction false} FilesAppend(folder: string, x: seq<Entry>, y: seq<Entry>)
    ensures Files(folder, x + y) == Files(folder, x) + Files(folder, y)
    decreases |y|
  {
    if y == [] {
      assert x + y == x;
    } else {
      assert (x + y)[..|x + y| - 1] == x + y[..|y| - 1];
      FilesAppend(folder, x, y[..|y| - 1]);
    }
  }

  function ZipPaths(zs: seq<Zip>): set<string>
  {
    if zs == [] then {} else ZipPaths(zs[..|zs| - 1]) + {zs[|zs| - 1].path}
  }

  lemma {:induction false} RunMemberOps(disk: set<string>, folder: string, zip: string, es: seq<Entry>)
    ensures Run(disk, MemberOps(folder, zip, es)) == disk - Files(folder, es)
  {
    if es != [] {
      var e := es[|es| - 1];
      var f := FilePath(folder, e.rel);
      var init := MemberOps(folder, zip, es[..|es| - 1]);
      RunAppend(disk, init, [WriteMember(zip, f, e.rel), RemoveFile(f)]);
      RunMemberOps(disk, folder, zip, es[..|es| - 1]);
      var d := Run(disk, init);
      assert [WriteMember(zip, f, e.rel), RemoveFile(f)][1..] == [RemoveFile(f)];
      assert Run(d, [WriteMember(zip, f, e.rel), RemoveFile(f)]) == Run(d, [RemoveFile(f)]);
      assert Run(d, [RemoveFile(f)]) == Run(d - {f}, []);
    }
  }

  /** Writing one archive adds it to the disk and removes every file it holds. */
  lemma RunZipOps(disk: set<string>, folder: string, z: Zip)
    requires z.path !in Files(folder, z.members)
    ensures Run(disk, ZipOps(folder, z)) == (disk + {z.path}) - Files(folder, z.members)
  {
    RunMemberOps(disk + {z.path}, folder, z.path, z.members);
    assert ZipOps(folder, z)[1..] == MemberOps(folder, z.path, z.members);
  }

  /** Writing a series of archives whose paths are not among the walked files leaves
      every archive on disk and none of the walked files. */
  lemma {:induction false} RunZipsOps(disk: set<string>, folder: string, zs: seq<Zip>)
    requires forall p :: p in ZipPaths(zs) ==> p !in Files(folder, Flatten(zs))
    ensures Run(disk, ZipsOps(folder, zs)) == (disk + ZipPaths(zs)) - Files(folder, Flatten(zs))
  {
    if zs != [] {
      var init := zs[..|zs| - 1];
      var z := zs[|zs| - 1];
      FilesAppend(folder, Flatten(init), z.members);
      RunAppend(disk, ZipsOps(folder, init), ZipOps(folder, z));
      assert Flatten(zs) == Flatten(init) + z.members;
      assert ZipPaths(zs) == ZipPaths(init) + {z.path};
      RunZipsOps(disk, folder, init);
      RunZipOps(Run(disk, ZipsOps(folder, init)), folder, z);
    }
  }

  // ---------------------------------------------------------------- order of operations

  /** Every write of a file is followed at once by the removal of that file. */
  predicate RemovedRightAfterWrite(ops: seq<FsOp>)
  {
    forall i :: 0 <= i < |ops| && ops[i].WriteMember? ==> i + 1 < |ops| && ops[i + 1] == RemoveFile(ops[i].file)
  }

  lemma {:induction false} RemovedRightAfterWriteAppend(x: seq<FsOp>, y: seq<FsOp>)
    requires RemovedRightAfterWrite(x) && RemovedRightAfterWrite(y)
    ensures RemovedRightAfterWrite(x + y)
  {
    var s := x + y;
    forall i | 0 <= i < |s| && s[i].WriteMember? ensures i + 1 < |s| && s[i + 1] == RemoveFile(s[i].file) {
      if i < |x| {
        assert s[i] == x[i] && s[i + 1] == x[i + 1];
      } else {
        assert s[i] == y[i - |x|] && s[i + 1] == y[i + 1 - |x|];
      }
    }
  }

  lemma {:induction false} MemberOpsOrder(folder: string, zip: string, es: seq<Entry>)
    ensures RemovedRightAfterWrite(MemberOps(folder, zip, es))
  {
    if es != [] {
      var e := es[|es| - 1];
      var f := FilePath(folder, e.rel);
      MemberOpsOrder(folder, zip, es[..|es| - 1]);
      RemovedRightAfterWriteAppend(MemberOps(folder, zip, es[..|es| - 1]), [WriteMember(zip, f, e.rel), RemoveFile(f)]);
    }
  }

  lemma {:induction false} ZipsOpsOrder(folder: string, zs: seq<Zip>)
    ensures RemovedRightAfterWrite(ZipsOps(folder, zs))
  {
    if zs != [] {
      var z := zs[|zs| - 1];
      ZipsOpsOrder(folder, zs[..|zs| - 1]);
      MemberOpsOrder(folder, z.path, z.members);
      RemovedRightAfterWriteAppend([CreateZip(z.path)], MemberOps(folder, z.path, z.members));
      RemovedRightAfterWriteAppend(ZipsOps(folder, zs[..|zs| - 1]), ZipOps(folder, z));
    }
  }

  /** The files written into the archives, read off the trace, are the entries in order. */
  function Written(ops: seq<FsOp>): seq<string>
  {
    if ops == [] then []
    else Written(ops[..|ops| - 1]) + (if ops[|ops| - 1].WriteMember? then [ops[|ops| - 1].arcname] else [])
  }

  function Rels(es: seq<Entry>): (r: seq<string>)
    ensures |r| == |es| && forall i :: 0 <= i < |es| ==> r[i] == es[i].rel
  {
    if es == [] then [] else Rels(es[..|es| - 1]) + [es[|es| - 1].rel]
  }

  lemma {:induction false} WrittenAppend(x: seq<FsOp>, y: seq<FsOp>)
    ensures Written(x + y) == Written(x) + Written(y)
    decreases |y|
  {
    if y == [] {
      assert x + y == x;
    } else {
      assert (x + y)[..|x + y| - 1] == x + y[..|y| - 1];
      WrittenAppend(x, y[..|y| - 1]);
    }
  }

  lemma {:induction false} WrittenMemberOps(folder: string, zip: string, es: seq<Entry>)
    ensures Written(MemberOps(folder, zip, es)) == Rels(es)
  {
    if es != [] {
      var e := es[|es| - 1];
      var f := FilePath(folder, e.rel);
      var w := [WriteMember(zip, f, e.rel), RemoveFile(f)];
      WrittenMemberOps(folder, zip, es[..|es| - 1]);
      WrittenAppend(MemberOps(folder, zip, es[..|es| - 1]), w);
      assert w[..1] == [WriteMember(zip, f, e.rel)];
      assert [WriteMember(zip, f, e.rel)][..0] == [];
      assert Written([WriteMember(zip, f, e.rel)]) == [e.rel];
      assert Written(w) == Written(w[..1]);
    }
  }

  /** The trace writes every entry of every archive, in order. */
  lemma {:induction false} WrittenZipsOps(folder: string, zs: seq<Zip>)
    ensures Written(ZipsOps(folder, zs)) == Rels(Flatten(zs))
  {
    if zs != [] {
      var z := zs[|zs| - 1];
      var init := zs[..|zs| - 1];
      WrittenZipsOps(folder, init);
      WrittenZipOps(folder, z);
      WrittenAppend(ZipsOps(folder, init), ZipOps(folder, z));
      RelsAppend(Flatten(init), z.members);
    }
  }

  lemma WrittenZipOps(folder: string, z: Zip)
    ensures Written(ZipOps(folder, z)) == Rels(z.members)
  {
    var create := [CreateZip(z.path)];
    WrittenMemberOps(folder, z.path, z.members);
    WrittenAppend(create, MemberOps(folder, z.path, z.members));
    assert create[..0] == [];
  }

  lemma RelsAppend(x: seq<Entry>, y: seq<Entry>)
    ensures Rels(x + y) == Rels(x) + Rels(y)
  {
    var l, r := Rels(x + y), Rels(x) + Rels(y);
    forall i | 0 <= i < |l| ensures l[i] == r[i] {
      if i < |x| {
        assert (x + y)[i] == x[i];
      } else {
        assert (x + y)[i] == y[i - |x|];
      }
    }
  }
}
