/** bot/helpers/utils.py: the size-bounded archiver, the retrying fetcher, template
    formatting, link construction, the cleanup decision and the progress arithmetic. */
module Utils {
  import opened Common
  import opened Strings
  import opened Paths
  import opened Encoding
  import opened Archive

  // ================================================================ archiving

  /** The name `add_to_zip` gives part `n` of `folder`. */
  function PartName(folder: string, n: nat): (r: string)
    requires n >= 1
    ensures |r| > |folder| && r[..|folder|] == folder && r[|folder|] == '.'
  {
    if n == 1 then folder + ".zip" else folder + ".part" + NatToString(n) + ".zip"
  }

  /** Different part numbers give different names. */
  lemma PartNameInjective(folder: string, m: nat, n: nat)
    requires m >= 1 && n >= 1
    ensures PartName(folder, m) == PartName(folder, n) ==> m == n
  {
    var a, b := PartName(folder, m), PartName(folder, n);
    if m == 1 && n != 1 {
      assert a[|folder| + 1] == 'z' && b[|folder| + 1] == 'p';
    } else if m != 1 && n == 1 {
      assert a[|folder| + 1] == 'p' && b[|folder| + 1] == 'z';
    } else if m != 1 && a == b {
      var k := |folder| + 5;
      assert a[k..|a| - 4] == NatToString(m);
      assert b[k..|b| - 4] == NatToString(n);
      NatToStringInjective(m, n);
    }
  }

  /** No part name is the path of a walked file: they differ right after the folder,
      which is followed by `/` in every walked path and by `.` in every part name. */
  lemma PartNameNotFile(folder: string, n: nat, es: seq<Entry>)
    requires n >= 1 && Unslashed(folder)
    ensures PartName(folder, n) !in Files(folder, es)
  {
  }

  predicate Named(folder: string, zs: seq<Zip>)
  {
    forall j :: 0 <= j < |zs| ==> zs[j].path == PartName(folder, j + 1)
  }

  /** A batch that was never sealed early: each entry after the first fit beside those
      before it. */
  predicate Fits(b: seq<Entry>)
  {
    |b| <= 1 || (Fits(b[..|b| - 1]) && Total(b[..|b| - 1]) + b[|b| - 1].size <= MaxSize)
  }

  /** Each archive was sealed because its successor's first entry would not fit. */
  predicate SealedOnOverflow(zs: seq<Zip>)
  {
    forall j :: 0 <= j < |zs| - 1 ==> SealedBefore(zs[j], zs[j + 1].members)
  }

  /** `z` was sealed because the first of `next` would not fit beside it. */
  predicate SealedBefore(z: Zip, next: seq<Entry>)
  {
    next != [] && Total(z.members) + next[0].size > MaxSize
  }

  /** The batching facts `split_zip_folder` keeps while it walks: sealed archives `zs`
      and the open batch `cur`. */
  predicate Batched(zs: seq<Zip>, cur: seq<Entry>)
  {
    (forall j :: 0 <= j < |zs| ==> Fits(zs[j].members))
    && Fits(cur)
    && SealedOnOverflow(zs)
    && (|zs| > 0 && cur != [] ==> SealedBefore(zs[|zs| - 1], cur))
    && (forall j :: 0 < j < |zs| ==> zs[j].members != [])
  }

  lemma SealStep(zs: seq<Zip>, cur: seq<Entry>, f: Entry, path: string)
    requires Batched(zs, cur) && (cur != [] || zs == [])
    requires Total(cur) + f.size > MaxSize
    ensures Batched(zs + [Zip(path, cur)], [f])
  {
    var zs' := zs + [Zip(path, cur)];
    assert forall j :: 0 <= j < |zs| ==> zs'[j] == zs[j];
    assert SealedOnOverflow(zs') by {
      forall j | 0 <= j < |zs'| - 1 ensures SealedBefore(zs'[j], zs'[j + 1].members) {
        if j < |zs| - 1 {
          assert SealedBefore(zs[j], zs[j + 1].members);
        }
      }
    }
  }

  lemma FitsAppend(cur: seq<Entry>, f: Entry)
    requires Fits(cur) && (cur == [] || Total(cur) + f.size <= MaxSize)
    ensures Fits(cur + [f])
  {
    assert (cur + [f])[..|cur|] == cur;
  }

  lemma AddStep(zs: seq<Zip>, cur: seq<Entry>, f: Entry)
    requires Batched(zs, cur) && (cur != [] || zs == [])
    requires Total(cur) + f.size <= MaxSize
    ensures Batched(zs, cur + [f])
  {
    FitsAppend(cur, f);
    if cur != [] {
      assert (cur + [f])[0] == cur[0];
    }
  }

  lemma FinalStep(zs: seq<Zip>, cur: seq<Entry>, path: string)
    requires Batched(zs, cur) && cur != []
    ensures Batched(zs + [Zip(path, cur)], [])
  {
    var zs' := zs + [Zip(path, cur)];
    assert forall j :: 0 <= j < |zs| ==> zs'[j] == zs[j];
    assert SealedOnOverflow(zs') by {
      forall j | 0 <= j < |zs'| - 1 ensures SealedBefore(zs'[j], zs'[j + 1].members) {
        if j < |zs| - 1 {
          assert SealedBefore(zs[j], zs[j + 1].members);
        }
      }
    }
  }

  lemma NamedAppend(folder: string, zs: seq<Zip>, z: Zip)
    requires Named(folder, zs) && z.path == PartName(folder, |zs| + 1)
    ensures Named(folder, zs + [z])
    ensures Flatten(zs + [z]) == Flatten(zs) + z.members
    ensures ZipsOps(folder, zs + [z]) == ZipsOps(folder, zs) + ZipOps(folder, z)
  {
    assert (zs + [z])[..|zs|] == zs;
  }

  lemma TotalAppend(b: seq<Entry>, e: Entry)
    ensures Total(b + [e]) == Total(b) + e.size
  {
    assert (b + [e])[..|b|] == b;
  }

  /** A batch that fits is within the bound, unless it is a single oversized file. */
  lemma FitsBound(b: seq<Entry>)
    requires Fits(b)
    ensures Total(b) <= MaxSize || |b| == 1 || b == []
  {
    if |b| >= 2 {
      assert b[..|b| - 1] + [b[|b| - 1]] == b;
      TotalAppend(b[..|b| - 1], b[|b| - 1]);
    }
  }

  /** `add_to_zip`: names part `partNum` of `folder` and writes `files` into it, removing
      each file right after it is written. */
  method AddToZip(folder: string, partNum: nat, files: seq<Entry>) returns (zipPath: string, ops: seq<FsOp>)
    requires partNum >= 1
    ensures zipPath == PartName(folder, partNum)
    ensures ops == ZipOps(folder, Zip(zipPath, files))
  {
    if partNum == 1 {
      zipPath := folder + ".zip";
    } else {
      zipPath := folder + ".part" + NatToString(partNum) + ".zip";
    }
    ops := [CreateZip(zipPath)];
    var i := 0;
    while i < |files|
      invariant 0 <= i <= |files|
      invariant ops == [CreateZip(zipPath)] + MemberOps(folder, zipPath, files[..i])
    {
      var filePath := FilePath(folder, files[i].rel);
      ops := ops + [WriteMember(zipPath, filePath, files[i].rel), RemoveFile(filePath)];
      i := i + 1;
      assert files[..i][..i - 1] == files[..i - 1];
    }
    assert files[..|files|] == files;
  }

  /** The parts `split_zip_folder` produces from the files still to walk, given the parts
      sealed so far and the open batch: the algorithm as a function. */
  function SplitFrom(folder: string, rest: seq<Entry>, zips: seq<Zip>, cur: seq<Entry>): seq<Zip>
    decreases |rest|
  {
    if rest == [] then
      if cur != [] then zips + [Zip(PartName(folder, |zips| + 1), cur)] else zips
    else if Total(cur) + rest[0].size > MaxSize then
      SplitFrom(folder, rest[1..], zips + [Zip(PartName(folder, |zips| + 1), cur)], [rest[0]])
    else
      SplitFrom(folder, rest[1..], zips, cur + [rest[0]])
  }

  function SplitParts(folder: string, walk: seq<Entry>): seq<Zip>
  {
    SplitFrom(folder, walk, [], [])
  }

  lemma {:induction false} SplitFromNamed(folder: string, rest: seq<Entry>, zips: seq<Zip>, cur: seq<Entry>)
    requires Named(folder, zips)
    ensures Named(folder, SplitFrom(folder, rest, zips, cur))
    decreases |rest|
  {
    var z := Zip(PartName(folder, |zips| + 1), cur);
    if rest == [] {
      NamedAppend(folder, zips, z);
    } else if Total(cur) + rest[0].size > MaxSize {
      NamedAppend(folder, zips, z);
      SplitFromNamed(folder, rest[1..], zips + [z], [rest[0]]);
    } else {
      SplitFromNamed(folder, rest[1..], zips, cur + [rest[0]]);
    }
  }

  lemma FlattenAppend(zs: seq<Zip>, z: Zip)
    ensures Flatten(zs + [z]) == Flatten(zs) + z.members
  {
    assert (zs + [z])[..|zs|] == zs;
  }

  lemma {:induction false} SplitFromFlatten(folder: string, rest: seq<Entry>, zips: seq<Zip>, cur: seq<Entry>)
    ensures Flatten(SplitFrom(folder, rest, zips, cur)) == Flatten(zips) + cur + rest
    decreases |rest|
  {
    var z := Zip(PartName(folder, |zips| + 1), cur);
    if rest == [] {
      FlattenAppend(zips, z);
    } else if Total(cur) + rest[0].size > MaxSize {
      FlattenAppend(zips, z);
      SplitFromFlatten(folder, rest[1..], zips + [z], [rest[0]]);
      assert Flatten(zips) + cur + [rest[0]] + rest[1..] == Flatten(zips) + cur + rest;
    } else {
      SplitFromFlatten(folder, rest[1..], zips, cur + [rest[0]]);
      assert Flatten(zips) + (cur + [rest[0]]) + rest[1..] == Flatten(zips) + cur + rest;
    }
  }

  lemma {:induction false} SplitFromBatched(folder: string, rest: seq<Entry>, zips: seq<Zip>, cur: seq<Entry>)
    requires Batched(zips, cur) && (cur == [] ==> zips == [])
    ensures Batched(SplitFrom(folder, rest, zips, cur), [])
    decreases |rest|
  {
    var z := Zip(PartName(folder, |zips| + 1), cur);
    if rest == [] {
      if cur != [] {
        FinalStep(zips, cur, z.path);
      }
    } else if Total(cur) + rest[0].size > MaxSize {
      SealStep(zips, cur, rest[0], z.path);
      SplitFromBatched(folder, rest[1..], zips + [z], [rest[0]]);
    } else {
      AddStep(zips, cur, rest[0]);
      SplitFromBatched(folder, rest[1..], zips, cur + [rest[0]]);
    }
  }

  /** The parts sealed so far stay the first parts. */
  lemma {:induction false} SplitFromKeeps(folder: string, rest: seq<Entry>, zips: seq<Zip>, cur: seq<Entry>)
    ensures |zips| <= |SplitFrom(folder, rest, zips, cur)|
    ensures SplitFrom(folder, rest, zips, cur)[..|zips|] == zips
    ensures cur != [] ==> |zips| < |SplitFrom(folder, rest, zips, cur)|
    ensures cur != [] ==> SplitFrom(folder, rest, zips, cur)[|zips|].members != []
    decreases |rest|
  {
    var z := Zip(PartName(folder, |zips| + 1), cur);
    var r := SplitFrom(folder, rest, zips, cur);
    if rest == [] {
      assert (zips + [z])[..|zips|] == zips;
    } else if Total(cur) + rest[0].size > MaxSize {
      SplitFromKeeps(folder, rest[1..], zips + [z], [rest[0]]);
      assert r[..|zips| + 1][..|zips|] == r[..|zips|];
      assert (zips + [z])[..|zips|] == zips;
      assert r[|zips|] == (zips + [z])[|zips|];
    } else {
      SplitFromKeeps(folder, rest[1..], zips, cur + [rest[0]]);
    }
  }

  /** The properties of the parts of a walk: named in sequence, the walk in order, each
      part fitting except a lone oversized file, and each sealed exactly on overflow. */
  lemma SplitPartsFacts(folder: string, walk: seq<Entry>)
    ensures Named(folder, SplitParts(folder, walk))
    ensures Flatten(SplitParts(folder, walk)) == walk
    ensures Batched(SplitParts(folder, walk), [])
    ensures SealedOnOverflow(SplitParts(folder, walk))
    ensures forall j :: 0 < j < |SplitParts(folder, walk)| ==> SplitParts(folder, walk)[j].members != []
    ensures forall j :: 0 <= j < |SplitParts(folder, walk)| ==>
      Total(SplitParts(folder, walk)[j].members) <= MaxSize || |SplitParts(folder, walk)[j].members| <= 1
  {
    var r := SplitParts(folder, walk);
    SplitFromNamed(folder, walk, [], []);
    SplitFromFlatten(folder, walk, [], []);
    assert Flatten([]) + [] + walk == walk;
    SplitFromBatched(folder, walk, [], []);
    forall j | 0 <= j < |r| ensures Total(r[j].members) <= MaxSize || |r[j].members| <= 1 {
      FitsBound(r[j].members);
    }
  }

  /** The first part is empty exactly when the first file alone is over the bound, and
      there are parts exactly when there are files. */
  lemma SplitPartsFirst(folder: string, walk: seq<Entry>)
    ensures (|SplitParts(folder, walk)| > 0 && SplitParts(folder, walk)[0].members == []) <==> (|walk| > 0 && walk[0].size > MaxSize)
    ensures walk == [] <==> SplitParts(folder, walk) == []
  {
    if walk != [] {
      var z := Zip(PartName(folder, 1), []);
      if walk[0].size > MaxSize {
        SplitFromKeeps(folder, walk[1..], [z], [walk[0]]);
        var r := SplitParts(folder, walk);
        assert [] + [z] == [z];
        assert r == SplitFrom(folder, walk[1..], [z], [walk[0]]);
        assert r[0] == r[..1][0] == z;
      } else {
        SplitFromKeeps(folder, walk[1..], [], [walk[0]]);
        assert [] + [walk[0]] == [walk[0]];
      }
    }
  }

  function PathsOf(zips: seq<Zip>): (paths: seq<string>)
    ensures |paths| == |zips| && forall j :: 0 <= j < |zips| ==> paths[j] == zips[j].path
  {
    if zips == [] then [] else PathsOf(zips[..|zips| - 1]) + [zips[|zips| - 1].path]
  }

  lemma SplitFromSeal(folder: string, rest: seq<Entry>, zips: seq<Zip>, cur: seq<Entry>)
    requires rest != [] && Total(cur) + rest[0].size > MaxSize
    ensures SplitFrom(folder, rest, zips, cur)
      == SplitFrom(folder, rest[1..], zips + [Zip(PartName(folder, |zips| + 1), cur)], [rest[0]])
  {
  }

  lemma SplitFromAdd(folder: string, rest: seq<Entry>, zips: seq<Zip>, cur: seq<Entry>)
    requires rest != [] && Total(cur) + rest[0].size <= MaxSize
    ensures SplitFrom(folder, rest, zips, cur) == SplitFrom(folder, rest[1..], zips, cur + [rest[0]])
  {
  }

  lemma PartsAppend(folder: string, zs: seq<Zip>, z: Zip)
    ensures PathsOf(zs + [z]) == PathsOf(zs) + [z.path]
    ensures ZipsOps(folder, zs + [z]) == ZipsOps(folder, zs) + ZipOps(folder, z)
  {
    assert (zs + [z])[..|zs|] == zs;
  }

  /** `split_zip_folder`: walks the files in order, sealing the current batch whenever the
      next file would take it over `MAX_SIZE`, and writes a final batch if one is left.
      The parts hold the walk in order; each part fits, or is a lone oversized file, or
      is the empty first part sealed before an oversized first file. */
  method SplitZipFolder(folder: string, walk: seq<Entry>) returns (zipPaths: seq<string>, zips: seq<Zip>, ops: seq<FsOp>)
    ensures zips == SplitParts(folder, walk)
    ensures zipPaths == PathsOf(zips)
    ensures ops == ZipsOps(folder, zips)
    ensures Named(folder, zips) && Flatten(zips) == walk
    ensures forall j :: 0 <= j < |zips| ==> Total(zips[j].members) <= MaxSize || |zips[j].members| <= 1
    ensures SealedOnOverflow(zips)
    ensures forall j :: 0 < j < |zips| ==> zips[j].members != []
    ensures (|zips| > 0 && zips[0].members == []) <==> (|walk| > 0 && walk[0].size > MaxSize)
  {
    zipPaths, zips, ops := [], [], [];
    var partNum := 1;
    var currentSize: nat := 0;
    var currentFiles: seq<Entry> := [];
    var i := 0;
    while i < |walk|
      invariant 0 <= i <= |walk|
      invariant partNum == |zips| + 1
      invariant currentSize == Total(currentFiles)
      invariant SplitFrom(folder, walk[i..], zips, currentFiles) == SplitParts(folder, walk)
      invariant zipPaths == PathsOf(zips)
      invariant ops == ZipsOps(folder, zips)
    {
      var file := walk[i];
      ghost var rest := walk[i..];
      assert rest[0] == file && rest[1..] == walk[i + 1..];
      if currentSize + file.size > MaxSize {
        var zipPath, zipOps := AddToZip(folder, partNum, currentFiles);
        var sealed := Zip(zipPath, currentFiles);
        SplitFromSeal(folder, rest, zips, currentFiles);
        PartsAppend(folder, zips, sealed);
        zipPaths := zipPaths + [zipPath];
        zips := zips + [sealed];
        ops := ops + zipOps;
        partNum := partNum + 1;
        currentFiles := [];
        currentSize := 0;
        assert currentFiles + [file] == [file];
      } else {
        SplitFromAdd(folder, rest, zips, currentFiles);
      }
      TotalAppend(currentFiles, file);
      currentFiles := currentFiles + [file];
      currentSize := currentSize + file.size;
      i := i + 1;
    }
    if currentFiles != [] {
      var zipPath, zipOps := AddToZip(folder, partNum, currentFiles);
      var last := Zip(zipPath, currentFiles);
      PartsAppend(folder, zips, last);
      zipPaths := zipPaths + [zipPath];
      zips := zips + [last];
      ops := ops + zipOps;
    }
    assert zips == SplitParts(folder, walk);
    SplitPartsFacts(folder, walk);
    SplitPartsFirst(folder, walk);
  }

  /** The disk after `split_zip_folder`: every part exists and no walked file is left. */
  lemma {:induction false} SplitZipDiskEffect(disk: set<string>, folder: string, zips: seq<Zip>)
    requires Named(folder, zips) && Unslashed(folder)
    ensures Run(disk, ZipsOps(folder, zips)) == (disk + ZipPaths(zips)) - Files(folder, Flatten(zips))
    ensures forall j :: 0 <= j < |zips| ==> zips[j].path in Run(disk, ZipsOps(folder, zips))
  {
    NamedPathsAreParts(folder, zips);
    forall p | p in ZipPaths(zips) ensures p !in Files(folder, Flatten(zips)) {
      var n :| 1 <= n && p == PartName(folder, n);
      PartNameNotFile(folder, n, Flatten(zips));
    }
    RunZipsOps(disk, folder, zips);
    forall j | 0 <= j < |zips| ensures zips[j].path in ZipPaths(zips) {
      ZipPathsHas(zips, j);
    }
  }

  lemma {:induction false} NamedPathsAreParts(folder: string, zips: seq<Zip>)
    requires Named(folder, zips)
    ensures forall p :: p in ZipPaths(zips) ==> exists n :: 1 <= n && p == PartName(folder, n)
  {
    if zips != [] {
      var init := zips[..|zips| - 1];
      assert Named(folder, init) by {
        forall j | 0 <= j < |init| ensures init[j].path == PartName(folder, j + 1) {
          assert init[j] == zips[j];
        }
      }
      NamedPathsAreParts(folder, init);
      assert zips[|zips| - 1].path == PartName(folder, |zips|);
    }
  }

  lemma {:induction false} ZipPathsHas(zips: seq<Zip>, j: nat)
    requires j < |zips|
    ensures zips[j].path in ZipPaths(zips)
  {
    if j < |zips| - 1 {
      ZipPathsHas(zips[..|zips| - 1], j);
    }
  }

  /** The parts of the trace: all walked files go into the archives in walk order, and each
      is removed right after it is written. */
  lemma SplitZipTrace(folder: string, zips: seq<Zip>, walk: seq<Entry>)
    requires Flatten(zips) == walk
    ensures Written(ZipsOps(folder, zips)) == Rels(walk)
    ensures RemovedRightAfterWrite(ZipsOps(folder, zips))
  {
    WrittenZipsOps(folder, zips);
    ZipsOpsOrder(folder, zips);
  }

  /** `zip_folder`: one archive `{folder}.zip` holding every walked file, each removed
      after it is written. */
  method ZipFolder(folder: string, walk: seq<Entry>) returns (zipPath: string, ops: seq<FsOp>)
    ensures zipPath == folder + ".zip"
    ensures ops == ZipOps(folder, Zip(zipPath, walk))
  {
    zipPath, ops := AddToZip(folder, 1, walk);
  }

  /** What `zip_handler` returns: a list of parts in Telegram mode, one path otherwise. */
  datatype Zips = Parts(paths: seq<string>) | Single(path: string)

  /** `zip_handler`: split archives in Telegram mode, a single archive otherwise. In both
      cases the archives hold the walk in order and the trace writes exactly them. */
  method ZipHandler(uploadMode: string, folder: string, walk: seq<Entry>) returns (result: Zips, zips: seq<Zip>, ops: seq<FsOp>)
    ensures result.Parts? <==> uploadMode == "Telegram"
    ensures result.Parts? ==> Named(folder, zips)
    ensures result.Parts? ==> |result.paths| == |zips| && forall j :: 0 <= j < |zips| ==> result.paths[j] == zips[j].path
    ensures result.Single? ==> result.path == folder + ".zip" && zips == [Zip(result.path, walk)]
    ensures Flatten(zips) == walk
    ensures ops == ZipsOps(folder, zips)
  {
    if uploadMode == "Telegram" {
      var paths;
      paths, zips, ops := SplitZipFolder(folder, walk);
      result := Parts(paths);
    } else {
      var path;
      path, ops := ZipFolder(folder, walk);
      result := Single(path);
      zips := [Zip(path, walk)];
      assert zips[..0] == [];
      assert ZipsOps(folder, zips) == ZipsOps(folder, []) + ZipOps(folder, zips[0]);
      assert Flatten(zips) == Flatten([]) + walk;
    }
  }

  // ================================================================ retrying fetcher

  /** What one `session.get` attempt came to. */
  datatype Attempt =
    | Status(code: int)
    | NetworkError(message: string)  // aiohttp.ClientError or asyncio.TimeoutError
    | OtherError(message: string)    // any other exception

  function Pow2(n: nat): (r: nat)
    ensures r >= 1
  {
    if n == 0 then 1 else 2 * Pow2(n - 1)
  }

  /** The sleeps after the first `n` failed attempts: `2 ** attempt` seconds each. */
  function Backoff(n: nat): (r: seq<nat>)
    ensures |r| == n && forall i :: 0 <= i < n ==> r[i] == Pow2(i + 1)
  {
    if n == 0 then [] else Backoff(n - 1) + [Pow2(n)]
  }

  function Sum(xs: seq<nat>): nat
  {
    if xs == [] then 0 else Sum(xs[..|xs| - 1]) + xs[|xs| - 1]
  }

  /** Backing off after `n` attempts waits `2 + 4 + ... + 2^n = 2^(n+1) - 2` seconds. */
  lemma {:induction false} BackoffTotal(n: nat)
    ensures Sum(Backoff(n)) == 2 * Pow2(n) - 2
  {
    if n > 0 {
      BackoffTotal(n - 1);
      assert Backoff(n)[..n - 1] == Backoff(n - 1);
    }
  }

  /** The message `download_file` returns for the outcome of its last attempt. */
  function AttemptError(a: Attempt, retries: int): Option<string>
  {
    match a
    case Status(code) => if code == 200 then None else Some("HTTP Status: " + IntToString(code))
    case NetworkError(m) => Some("Failed after " + IntToString(retries) + " attempts: " + m)
    case OtherError(m) => Some("Unexpected error: " + m)
  }

  /** `download_file`: `os.makedirs(os.path.dirname(path))` first, which raises
      FileNotFoundError for a path without a directory part, before any attempt. Then the
      attempts `1..retries` in turn, where `outcome(k)` is what attempt `k` meets. Only a
      network or timeout error is retried, after sleeping `2 ** k` seconds; the last such
      error, any status and any other exception end the loop at once. */
  method DownloadFile(path: string, retries: int, outcome: nat -> Attempt)
    returns (raised: Option<string>, err: Option<string>, attempts: nat, sleeps: seq<nat>)
    ensures raised.Some? <==> Dirname(path) == ""
    ensures raised.Some? ==> err == None && attempts == 0 && sleeps == []
    ensures raised.None? && retries <= 0 ==> err == None && attempts == 0
    ensures raised.None? && retries > 0 ==> 1 <= attempts <= retries
    ensures forall k :: 1 <= k < attempts ==> outcome(k).NetworkError?
    ensures attempts < retries ==> attempts == 0 || !outcome(attempts).NetworkError?
    ensures attempts > 0 ==> err == AttemptError(outcome(attempts), retries)
    ensures sleeps == Backoff(if attempts == 0 then 0 else attempts - 1)
  {
    raised, err, attempts, sleeps := None, None, 0, [];
    if Dirname(path) == "" {
      raised := Some("FileNotFoundError: [Errno 2] No such file or directory: ''");
      return;
    }
    var attempt := 1;
    while attempt <= retries
      invariant 1 <= attempt && (if retries >= 1 then attempt <= retries else attempt == 1)
      invariant attempts == attempt - 1
      invariant forall k :: 1 <= k < attempt ==> outcome(k).NetworkError?
      invariant sleeps == Backoff(attempt - 1)
      decreases retries - attempt
    {
      attempts := attempt;
      match outcome(attempt) {
        case Status(code) =>
          err := if code == 200 then None else Some("HTTP Status: " + IntToString(code));
          return;
        case NetworkError(m) =>
          if attempt == retries {
            err := Some("Failed after " + IntToString(retries) + " attempts: " + m);
            return;
          }
          sleeps := sleeps + [Pow2(attempt)];
        case OtherError(m) =>
          err := Some("Unexpected error: " + m);
          return;
      }
      attempt := attempt + 1;
    }
  }

  // ================================================================ template formatting

  /** The metadata fields `format_string` fills in, in the order it replaces them. */
  const FieldNames: seq<string> := ["title", "album", "artist", "albumartist", "tracknumber", "date",
    "upc", "isrc", "totaltracks", "volume", "totalvolume", "extension", "duration", "copyright",
    "genre", "provider", "quality", "explicit"]

  predicate IsWord(s: string)
  {
    |s| > 0 && forall i :: 0 <= i < |s| ==> IsLower(s[i])
  }

  lemma FieldNamesAreWords()
    ensures |FieldNames| == 18
    ensures forall i :: 0 <= i < |FieldNames| ==> IsWord(FieldNames[i])
  {
  }

  /** `provider` is the sixteenth field and no other. */
  lemma ProviderField()
    ensures |FieldNames| == 18 && FieldNames[15] == "provider"
    ensures forall i :: 0 <= i < |FieldNames| && i != 15 ==> FieldNames[i] != "provider"
  {
    forall i | 0 <= i < |FieldNames| && i != 15 ensures FieldNames[i] != "provider" {
      var n := FieldNames[i];
      if |n| == 8 {
        assert n[0] != 'p' by {
          assert i == 12 || i == 17;
        }
      }
    }
  }

  function Placeholder(name: string): (p: string)
    ensures |p| == |name| + 2 && p[0] == '{' && p[|p| - 1] == '}' && p[1..|p| - 1] == name
  {
    "{" + name + "}"
  }

  /** `d.get(k, '')`. */
  function Get(d: map<string, string>, k: string): string
  {
    if k in d then d[k] else ""
  }

  /** `if user:`: a user dictionary counts only when it is given and not empty. */
  predicate UserGiven(user: Option<map<string, string>>)
  {
    user.Some? && |user.value| > 0
  }

  function FieldValue(data: map<string, string>, name: string): string
  {
    if name == "provider" then Title(Get(data, name)) else Get(data, name)
  }

  function Fields(data: map<string, string>, names: seq<string>): (t: seq<(string, string)>)
    ensures |t| == |names|
    ensures forall i :: 0 <= i < |names| ==> t[i] == (Placeholder(names[i]), FieldValue(data, names[i]))
  {
    if names == [] then [] else [(Placeholder(names[0]), FieldValue(data, names[0]))] + Fields(data, names[1..])
  }

  /** The replacement table, in insertion order. */
  function Table(data: map<string, string>, user: Option<map<string, string>>): seq<(string, string)>
  {
    Fields(data, FieldNames)
      + (if UserGiven(user) then [("{user}", Get(user.value, "name")), ("{username}", Get(user.value, "user_name"))] else [])
  }

  /** The table has the eighteen metadata placeholders, a missing field giving '' and the
      provider title-cased, and then `{user}` and `{username}` only when a user is given. */
  lemma TableShape(data: map<string, string>, user: Option<map<string, string>>)
    ensures |Table(data, user)| == if UserGiven(user) then 20 else 18
    ensures forall i :: 0 <= i < 18 ==> Table(data, user)[i].0 == Placeholder(FieldNames[i])
    ensures forall i :: 0 <= i < 18 && i != 15 ==>
      Table(data, user)[i].1 == (if FieldNames[i] in data then data[FieldNames[i]] else "")
    ensures FieldNames[15] == "provider" && Table(data, user)[15].1 == Title(Get(data, "provider"))
    ensures UserGiven(user) ==> Table(data, user)[18] == ("{user}", Get(user.value, "name"))
    ensures UserGiven(user) ==> Table(data, user)[19] == ("{username}", Get(user.value, "user_name"))
  {
    var t, f := Table(data, user), Fields(data, FieldNames);
    ProviderField();
    assert t == f + (if UserGiven(user) then [("{user}", Get(user.value, "name")), ("{username}", Get(user.value, "user_name"))] else []);
    forall i | 0 <= i < 18 ensures t[i] == (Placeholder(FieldNames[i]), FieldValue(data, FieldNames[i])) {
      assert t[i] == f[i];
    }
  }

  predicate Keyed(table: seq<(string, string)>)
  {
    forall i :: 0 <= i < |table| ==> |table[i].0| > 0
  }

  lemma TableKeyed(data: map<string, string>, user: Option<map<string, string>>)
    ensures Keyed(Table(data, user))
  {
    TableIsPlaceholders(data, user);
  }

  /** Replacing each key in turn, throughout the text, as `str.replace` does. */
  function Apply(text: string, table: seq<(string, string)>): string
    requires Keyed(table)
    decreases |table|
  {
    if table == [] then text else Apply(ReplaceAll(text, table[0].0, table[0].1), table[1..])
  }

  function Format(text: string, data: map<string, string>, user: Option<map<string, string>>): string
  {
    TableKeyed(data, user);
    Apply(text, Table(data, user))
  }

  /** The loop of `format_string`: rebinds `text` once per table entry, in order. */
  method ReplaceEach(text: string, table: seq<(string, string)>) returns (r: string)
    requires Keyed(table)
    ensures r == Apply(text, table)
  {
    r := text;
    var i := 0;
    while i < |table|
      invariant 0 <= i <= |table|
      invariant Apply(r, table[i..]) == Apply(text, table)
    {
      assert table[i..][1..] == table[i + 1..];
      r := ReplaceAll(r, table[i].0, table[i].1);
      i := i + 1;
    }
  }

  /** `format_string`: builds the table and replaces each of its keys in turn. */
  method FormatString(text: string, data: map<string, string>, user: Option<map<string, string>>) returns (r: string)
    ensures r == Format(text, data, user)
  {
    TableKeyed(data, user);
    r := ReplaceEach(text, Table(data, user));
  }

  /** Text holding none of the keys comes back unchanged. */
  lemma {:induction false} ApplyUntouched(text: string, table: seq<(string, string)>)
    requires Keyed(table)
    requires forall i :: 0 <= i < |table| ==> !Contains(text, table[i].0)
    ensures Apply(text, table) == text
  {
    if table != [] {
      ApplyUntouched(text, table[1..]);
    }
  }

  /** A character that occurs in no key splits the formatting in two. */
  lemma {:induction false} ApplyAround(a: string, c: char, b: string, table: seq<(string, string)>)
    requires Keyed(table)
    requires forall i :: 0 <= i < |table| ==> c !in table[i].0
    ensures Apply(a + [c] + b, table) == Apply(a, table) + [c] + Apply(b, table)
    decreases |table|
  {
    if table != [] {
      ReplaceAround(a, c, b, table[0].0, table[0].1);
      ApplyAround(ReplaceAll(a, table[0].0, table[0].1), c, ReplaceAll(b, table[0].0, table[0].1), table[1..]);
    }
  }

  lemma {:induction false} NoOpenBrace(s: string, k: string)
    requires '{' !in s && |k| > 0 && k[0] == '{'
    ensures !Contains(s, k)
    decreases |s|
  {
    if s != [] {
      assert s[1..] == s[1..] && forall c :: c in s[1..] ==> c in s;
      NoOpenBrace(s[1..], k);
    }
  }

  /** A placeholder can begin another only when the two names are the same. */
  lemma PlaceholderPrefix(x: string, name: string)
    requires '}' !in x && '}' !in name
    ensures StartsWith(Placeholder(name), Placeholder(x)) ==> x == name
  {
    var p, q := Placeholder(name), Placeholder(x);
    assert |x| < |name| ==> p[|x| + 1] == name[|x|];
    assert StartsWith(p, q) && |x| == |name| ==> p[1..|p| - 1] == q[1..|q| - 1];
  }

  predicate Braceless(name: string)
  {
    '{' !in name && '}' !in name
  }

  function TableNames(user: Option<map<string, string>>): seq<string>
  {
    FieldNames + (if UserGiven(user) then ["user", "username"] else [])
  }

  lemma TableIsPlaceholders(data: map<string, string>, user: Option<map<string, string>>)
    ensures |Table(data, user)| == |TableNames(user)|
    ensures forall i :: 0 <= i < |TableNames(user)| ==>
      Table(data, user)[i].0 == Placeholder(TableNames(user)[i]) && IsWord(TableNames(user)[i])
  {
    var t, n := Table(data, user), TableNames(user);
    var f := Fields(data, FieldNames);
    FieldNamesAreWords();
    forall i | 0 <= i < |n| ensures t[i].0 == Placeholder(n[i]) && IsWord(n[i]) {
      if i < |FieldNames| {
        assert t[i] == f[i] && n[i] == FieldNames[i];
      } else if i == |FieldNames| {
        assert t[i].0 == Placeholder("user") && n[i] == "user";
      } else {
        assert t[i].0 == Placeholder("username") && n[i] == "username";
      }
    }
  }

  /** A placeholder the table does not know, `{r_link}` for instance, is left as written. */
  lemma FormatKeepsOther(name: string, data: map<string, string>, user: Option<map<string, string>>)
    requires Braceless(name)
    requires name !in TableNames(user)
    ensures Format(Placeholder(name), data, user) == Placeholder(name)
  {
    var table := Table(data, user);
    var p := Placeholder(name);
    TableKeyed(data, user);
    TableIsPlaceholders(data, user);
    forall i | 0 <= i < |table| ensures !Contains(p, table[i].0) {
      var x := TableNames(user)[i];
      assert '}' !in x by {
        assert IsWord(x);
      }
      PlaceholderPrefix(x, name);
      assert x != name;
      assert '{' !in p[1..] by {
        assert p[1..] == name + "}";
      }
      NoOpenBrace(p[1..], table[i].0);
    }
    ApplyUntouched(p, table);
  }

  /** A parenthesis occurs in no key, so it splits the formatting in two. */
  lemma FormatAroundParen(a: string, c: char, b: string, data: map<string, string>, user: Option<map<string, string>>)
    requires c == '(' || c == ')'
    ensures Format(a + [c] + b, data, user) == Format(a, data, user) + [c] + Format(b, data, user)
  {
    var table := Table(data, user);
    TableKeyed(data, user);
    TableIsPlaceholders(data, user);
    forall i | 0 <= i < |table| ensures c !in table[i].0 {
      assert IsWord(TableNames(user)[i]);
    }
    ApplyAround(a, c, b, table);
  }

  lemma FormatEmpty(data: map<string, string>, user: Option<map<string, string>>)
    ensures Format("", data, user) == ""
  {
    TableKeyed(data, user);
    ApplyUntouched("", Table(data, user));
  }

  /** A Rclone caption ends `({r_link})` whatever the metadata: `format_string` has no
      `{r_link}` placeholder, so the literal survives. */
  lemma FormatKeepsRLink(text: string, data: map<string, string>, user: Option<map<string, string>>)
    ensures Format(text + "({r_link})", data, user) == Format(text, data, user) + "({r_link})"
  {
    var tail := Placeholder("r_link") + [')'];
    assert "({r_link})" == ['('] + tail;
    SnocChar(text, '(', tail);
    FormatAroundParen(text, '(', tail, data, user);
    RLinkTailKept(data, user);
    SnocChar(Format(text, data, user), '(', tail);
  }

  lemma SnocChar(x: string, c: char, y: string)
    ensures x + [c] + y == x + ([c] + y)
  {
  }

  /** `{r_link})` comes out of the formatting as written. */
  lemma RLinkTailKept(data: map<string, string>, user: Option<map<string, string>>)
    ensures Format(Placeholder("r_link") + [')'], data, user) == Placeholder("r_link") + [')']
  {
    var r := Placeholder("r_link");
    assert r + [')'] == r + [')'] + "";
    FormatAroundParen(r, ')', "", data, user);
    RLinkUnknown(user);
    FormatKeepsOther("r_link", data, user);
    FormatEmpty(data, user);
  }

  lemma RLinkUnknown(user: Option<map<string, string>>)
    ensures Braceless("r_link") && "r_link" !in TableNames(user)
  {
  }

  // ================================================================ links

  /** What a finished subprocess reports. */
  datatype CliResult = CliResult(returncode: int, stdout: string, stderr: string)

  /** The two links `create_link` returns; `None` where a link is not made. */
  datatype Links = Links(rclone: Option<string>, index: Option<string>)

  function RcloneLinkCommand(dest: string, rel: string): string
  {
    "rclone link --config ./rclone.conf \"" + dest + "/" + rel + "\""
  }

  predicate WantsRclone(linkOptions: string)
  {
    linkOptions == "RCLONE" || linkOptions == "Both"
  }

  predicate WantsIndex(linkOptions: string)
  {
    linkOptions == "Index" || linkOptions == "Both"
  }

  /** `create_link`: the path relative to `basepath` (pathlib raises ValueError when it is
      not below it), the direct link from `rclone link` when it exits 0, and the index link
      with the relative path percent-encoded. `run` stands for the shell. */
  function CreateLink(path: string, basepath: string, linkOptions: string, rcloneDest: string,
                      indexLink: Option<string>, run: string -> CliResult): (r: Result<Links>)
    ensures r.Err? <==> RelativeTo(path, basepath).None?
    ensures r.Ok? ==> (r.value.rclone.Some? <==>
      WantsRclone(linkOptions) && run(RcloneLinkCommand(rcloneDest, RelativeTo(path, basepath).value)).returncode == 0)
    ensures r.Ok? && r.value.rclone.Some? ==>
      r.value.rclone.value == Strip(run(RcloneLinkCommand(rcloneDest, RelativeTo(path, basepath).value)).stdout)
    ensures r.Ok? ==> (r.value.index.Some? <==> WantsIndex(linkOptions) && Truthy(indexLink))
    ensures r.Ok? && r.value.index.Some? ==>
      r.value.index.value == indexLink.value + "/" + Quote(RelativeTo(path, basepath).value)
  {
    match RelativeTo(path, basepath)
    case None => Err("ValueError: path is not relative to the base path")
    case Some(rel) =>
      var rclone :=
        if WantsRclone(linkOptions) then
          var res := run(RcloneLinkCommand(rcloneDest, rel));
          if res.returncode == 0 then Some(Strip(res.stdout)) else None
        else None;
      var index := if WantsIndex(linkOptions) && Truthy(indexLink) then Some(indexLink.value + "/" + Quote(rel)) else None;
      Ok(Links(rclone, index))
  }

  /** For a file below the base, the index link is the index root, a slash and the
      percent-encoded relative path, and decoding that suffix gives back the path's bytes. */
  lemma CreateLinkIndex(base: string, rel: string, linkOptions: string, rcloneDest: string,
                        indexLink: string, run: string -> CliResult)
    requires base != "" && !StartsWith(rel, "/") && indexLink != "" && WantsIndex(linkOptions)
    ensures CreateLink(Join(base, rel), base, linkOptions, rcloneDest, Some(indexLink), run).Ok?
    ensures CreateLink(Join(base, rel), base, linkOptions, rcloneDest, Some(indexLink), run).value.index
      == Some(indexLink + "/" + Quote(JoinParts(Components(rel))))
    ensures PercentDecode(Quote(JoinParts(Components(rel)))) == Some(Utf8Encode(JoinParts(Components(rel))))
  {
    RelativeToOfJoin(base, rel);
    QuoteRoundTrip(JoinParts(Components(rel)));
  }

  // ================================================================ cleanup

  /** What cleanup does to one path: `os.remove` or `shutil.rmtree`. */
  datatype Effect = RemovePath(path: string) | RemoveTree(path: string)

  /** `metadata['folderpath']`: absent, one path, or the list of zip parts. */
  datatype FolderPath = NoFolder | OnePath(path: string) | PathList(paths: seq<string>)

  /** The entries of a (non-empty) `metadata` dictionary that cleanup reads. */
  datatype CleanupMeta = CleanupMeta(folderpath: FolderPath, kind: Option<string>)

  datatype CleanupUser = CleanupUser(userId: string, rId: string)

  /** `bot_set.album_zip`, `artist_zip` and `playlist_zip`. */
  datatype ZipFlags = ZipFlags(album: bool, artist: bool, playlist: bool)

  function ZipFlagFor(kind: string, flags: ZipFlags): bool
  {
    if kind == "album" then flags.album else if kind == "artist" then flags.artist else flags.playlist
  }

  /** `"Apple Music" in metadata.get('folderpath', '')`: a substring test on a path and an
      element test on a list. */
  predicate MentionsApple(f: FolderPath)
  {
    match f
    case NoFolder => false
    case OnePath(p) => Contains(p, "Apple Music")
    case PathList(ps) => "Apple Music" in ps
  }

  function RemoveEach(ps: seq<string>): (r: seq<Effect>)
    ensures |r| == |ps| && forall i :: 0 <= i < |ps| ==> r[i] == RemovePath(ps[i])
  {
    if ps == [] then [] else [RemovePath(ps[0])] + RemoveEach(ps[1..])
  }

  /** The item part of cleanup. A list path reaching `os.path.exists` raises TypeError and a
      missing key raises KeyError; both are caught and end the item part with nothing done. */
  function ItemCleanup(m: CleanupMeta, flags: ZipFlags): seq<Effect>
  {
    if MentionsApple(m.folderpath) then
      if m.folderpath.OnePath? then [RemoveTree(m.folderpath.path)] else []
    else if m.kind.None? then []
    else if ZipFlagFor(m.kind.value, flags) then
      match m.folderpath
      case NoFolder => []
      case OnePath(p) => [RemovePath(p)]
      case PathList(ps) => RemoveEach(ps)
    else
      if m.folderpath.OnePath? then [RemoveTree(m.folderpath.path)] else []
  }

  /** The user part: the Apple Music directory and the two download directories. */
  function UserDirs(u: CleanupUser, localStorage: string, baseDir: string): seq<string>
  {
    [Join(Join(localStorage, "Apple Music"), u.userId), baseDir + "/" + u.rId + "/", baseDir + "/" + u.rId + "-temp/"]
  }

  function RemoveTrees(ps: seq<string>): (r: seq<Effect>)
    ensures |r| == |ps| && forall i :: 0 <= i < |ps| ==> r[i] == RemoveTree(ps[i])
  {
    if ps == [] then [] else [RemoveTree(ps[0])] + RemoveTrees(ps[1..])
  }

  /** `cleanup(user, metadata)`. The `os.path.exists` guards only skip removals that would
      do nothing, so the effects are listed unguarded. */
  function Cleanup(user: Option<CleanupUser>, meta: Option<CleanupMeta>, flags: ZipFlags,
                   localStorage: string, baseDir: string): seq<Effect>
  {
    var item := if meta.Some? then ItemCleanup(meta.value, flags) else [];
    if meta.Some? && meta.value.folderpath.OnePath? && MentionsApple(meta.value.folderpath) then item
    else item + (if user.Some? then RemoveTrees(UserDirs(user.value, localStorage, baseDir)) else [])
  }

  /** `q` is `p` or lies below it. */
  predicate Under(q: string, p: string)
  {
    q == RStripSlash(p) || StartsWith(q, RStripSlash(p) + "/")
  }

  function ApplyEffect(disk: set<string>, e: Effect): (d: set<string>)
    ensures d <= disk
  {
    match e
    case RemovePath(p) => disk - {p}
    case RemoveTree(p) => set q | q in disk && !Under(q, p)
  }

  function RunEffects(disk: set<string>, es: seq<Effect>): (d: set<string>)
    ensures d <= disk
    decreases |es|
  {
    if es == [] then disk else RunEffects(ApplyEffect(disk, es[0]), es[1..])
  }

  /** A path cleaned by a tree removal is gone afterwards, whatever follows. */
  lemma {:induction false} RunEffectsRemoves(disk: set<string>, es: seq<Effect>, i: nat, q: string)
    requires i < |es| && es[i].RemoveTree? && Under(q, es[i].path)
    ensures q !in RunEffects(disk, es)
    decreases |es|
  {
    if i > 0 {
      RunEffectsRemoves(ApplyEffect(disk, es[0]), es[1..], i - 1, q);
    } else {
      assert q !in ApplyEffect(disk, es[0]);
    }
  }

  /** An Apple Music download folder is removed alone: the user directories are kept. */
  lemma CleanupAppleFolder(user: Option<CleanupUser>, p: string, kind: Option<string>, flags: ZipFlags,
                           localStorage: string, baseDir: string)
    requires Contains(p, "Apple Music")
    ensures Cleanup(user, Some(CleanupMeta(OnePath(p), kind)), flags, localStorage, baseDir) == [RemoveTree(p)]
  {
  }

  /** Outside the Apple Music case, the folder is removed as a file when the zip flag of
      its type is set, and as a tree otherwise; then the user directories follow. */
  lemma CleanupFolder(user: Option<CleanupUser>, p: string, kind: string, flags: ZipFlags,
                      localStorage: string, baseDir: string)
    requires !Contains(p, "Apple Music")
    ensures Cleanup(user, Some(CleanupMeta(OnePath(p), Some(kind))), flags, localStorage, baseDir)[0]
      == if (kind == "album" && flags.album) || (kind == "artist" && flags.artist)
            || (kind != "album" && kind != "artist" && flags.playlist)
         then RemovePath(p) else RemoveTree(p)
    ensures |Cleanup(user, Some(CleanupMeta(OnePath(p), Some(kind))), flags, localStorage, baseDir)|
      == 1 + (if user.Some? then 3 else 0)
  {
  }

  /** With the zip flag set, every listed part is removed, in order. */
  lemma CleanupZipParts(user: Option<CleanupUser>, ps: seq<string>, kind: string, flags: ZipFlags,
                        localStorage: string, baseDir: string)
    requires "Apple Music" !in ps && ZipFlagFor(kind, flags)
    ensures Cleanup(user, Some(CleanupMeta(PathList(ps), Some(kind))), flags, localStorage, baseDir)[..|ps|] == RemoveEach(ps)
  {
  }

  /** Unless an Apple Music folder ended it early, cleanup for a user leaves nothing below
      any of the user's three directories, on any disk. */
  lemma CleanupUserGone(disk: set<string>, u: CleanupUser, meta: Option<CleanupMeta>, flags: ZipFlags,
                        localStorage: string, baseDir: string, q: string)
    requires !(meta.Some? && meta.value.folderpath.OnePath? && MentionsApple(meta.value.folderpath))
    requires exists d :: d in UserDirs(u, localStorage, baseDir) && Under(q, d)
    ensures q !in RunEffects(disk, Cleanup(Some(u), meta, flags, localStorage, baseDir))
  {
    var es := Cleanup(Some(u), meta, flags, localStorage, baseDir);
    var item := if meta.Some? then ItemCleanup(meta.value, flags) else [];
    var dirs := UserDirs(u, localStorage, baseDir);
    assert es == item + RemoveTrees(dirs);
    var d :| d in dirs && Under(q, d);
    TreesRemove(disk, item, dirs, d, q);
  }

  /** Tree removals after any other effects clean what lies below each tree. */
  lemma TreesRemove(disk: set<string>, item: seq<Effect>, dirs: seq<string>, d: string, q: string)
    requires d in dirs && Under(q, d)
    ensures q !in RunEffects(disk, item + RemoveTrees(dirs))
  {
    var es, r := item + RemoveTrees(dirs), RemoveTrees(dirs);
    var k :| 0 <= k < |dirs| && dirs[k] == d;
    assert es[|item| + k] == r[k] == RemoveTree(d);
    RunEffectsRemoves(disk, es, |item| + k, q);
  }

  // ================================================================ progress

  /** The bar's full and empty cells. */
  const FullCell: char := '\U{25B0}'
  const EmptyCell: char := '\U{25B1}'

  /** `math.floor(done / total * 10)`, with exact division. */
  function Filled(done: nat, total: nat): nat
    requires total > 0
  {
    done * 10 / total
  }

  /** The bar `progress_message` draws, or the ZeroDivisionError when `total` is 0. */
  function ProgressBar(done: nat, total: nat): (r: Result<string>)
    ensures r.Err? <==> total == 0
  {
    if total == 0 then Err("ZeroDivisionError: division by zero")
    else Ok(Repeat(FullCell, Filled(done, total)) + Repeat(EmptyCell, 10 - Filled(done, total)))
  }

  lemma DivMonotone(a: nat, b: nat, d: nat)
    requires a <= b && d > 0
    ensures a / d <= b / d
  {
    var qa, qb := a / d, b / d;
    assert qa * d <= a && b < (qb + 1) * d;
    MulMonotone(qa, qb + 1, d);
  }

  lemma MulMonotone(x: int, y: int, d: nat)
    ensures x >= y ==> x * d >= y * d
  {
    assert x * d - y * d == (x - y) * d;
  }

  /** While `done <= total` the bar is ten cells: the first `Filled` full, the rest empty;
      all empty at 0 and all full at `total`. */
  lemma ProgressBarShape(done: nat, total: nat)
    requires 0 < total && done <= total
    ensures Filled(done, total) <= 10
    ensures |ProgressBar(done, total).value| == 10
    ensures forall i :: 0 <= i < 10 ==> (ProgressBar(done, total).value[i] == FullCell <==> i < Filled(done, total))
    ensures done == 0 ==> Filled(done, total) == 0
    ensures done == total ==> Filled(done, total) == 10
  {
    DivMonotone(done * 10, total * 10, total);
    var f := Filled(done, total);
    var bar := ProgressBar(done, total).value;
    forall i | 0 <= i < 10 ensures bar[i] == FullCell <==> i < f {
      if i < f {
        assert bar[i] == Repeat(FullCell, f)[i];
      } else {
        assert bar[i] == Repeat(EmptyCell, 10 - f)[i - f];
      }
    }
  }

  /** More done never shortens the filled part of the bar. */
  lemma ProgressBarMonotone(d1: nat, d2: nat, total: nat)
    requires 0 < total && d1 <= d2
    ensures Filled(d1, total) <= Filled(d2, total)
  {
    DivMonotone(d1 * 10, d2 * 10, total);
  }

  /** `int(completed / total * 100)` with exact division. */
  function CompletionPercent(completed: nat, total: nat): nat
    requires total > 0
  {
    completed * 100 / total
  }

  /** The percentage never decreases, never passes 100, and reaches 100 at the end. */
  lemma CompletionPercentBounds(d1: nat, d2: nat, total: nat)
    requires 0 < total && d1 <= d2 <= total
    ensures CompletionPercent(d1, total) <= CompletionPercent(d2, total) <= 100
    ensures CompletionPercent(total, total) == 100
  {
    DivMonotone(d1 * 100, d2 * 100, total);
    DivMonotone(d2 * 100, total * 100, total);
    MulDivCancel(100, total);
  }

  lemma MulDivCancel(a: nat, t: nat)
    requires t > 0
    ensures t * a / t == a && a * t / t == a
  {
    var q, r := a * t / t, a * t % t;
    assert a * t == q * t + r && 0 <= r < t;
    assert (a - q) * t == r;
    MulMonotone(a - q, 1, t);
    MulMonotone(-1, a - q, t);
    assert t * a == a * t;
  }

  /** `run_concurrent_tasks` with its tasks completing one after another: after the k-th
      completion it reports `int(k / total * 100)` percent (exact division). */
  method TaskProgress(total: nat) returns (percents: seq<nat>)
    ensures |percents| == total
    ensures forall k :: 0 <= k < total ==> percents[k] == CompletionPercent(k + 1, total)
    ensures forall k :: 0 <= k < total ==> percents[k] <= 100
    ensures forall j, k :: 0 <= j <= k < total ==> percents[j] <= percents[k]
    ensures total > 0 ==> percents[total - 1] == 100
  {
    percents := [];
    var completed := 0;
    while completed < total
      invariant completed <= total && |percents| == completed
      invariant forall k :: 0 <= k < completed ==> percents[k] == CompletionPercent(k + 1, total)
    {
      completed := completed + 1;
      percents := percents + [CompletionPercent(completed, total)];
    }
    forall j, k | 0 <= j <= k < total ensures percents[j] <= percents[k] <= 100 {
      CompletionPercentBounds(j + 1, k + 1, total);
    }
    if total > 0 {
      CompletionPercentBounds(total, total, total);
    }
  }
}
