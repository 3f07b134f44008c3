/** The Apple Music downloader wrapper of `bot/providers/apple_utils.py`: the command it
    runs, how it drains the downloader's output and reads progress from it, the result
    record, and the descriptive, collision-free path of the zip it builds.  The
    downloader, the pipe and the disk are inputs: the chunks read, the exit status and the
    set of paths that already exist. */
module AppleUtils {
  import opened Common
  import opened Strings
  import opened Paths
  import opened Archive

  // ================================================================ command

  /** `[Config.DOWNLOADER_PATH]`, then the options when there are any, then the URL. */
  function DownloaderCommand(downloader: string, options: seq<string>, url: string): (cmd: seq<string>)
    ensures |cmd| == |options| + 2
    ensures cmd[0] == downloader && cmd[|cmd| - 1] == url
    ensures cmd[1..|cmd| - 1] == options
  {
    var cmd := [downloader];
    var cmd := if options != [] then cmd + options else cmd;
    cmd + [url]
  }

  // ================================================================ progress

  /** The end of the run of digits that starts at `i`. */
  function DigitRunEnd(s: string, i: nat): (j: nat)
    requires i <= |s|
    ensures i <= j <= |s|
    ensures forall k :: i <= k < j ==> IsDigit(s[k])
    ensures j < |s| ==> !IsDigit(s[j])
    decreases |s| - i
  {
    if i < |s| && IsDigit(s[i]) then DigitRunEnd(s, i + 1) else i
  }

  /** The pattern `(\d+)%` matches at `i`: one or more digits, then '%'. */
  ghost predicate MatchesAt(s: string, i: nat)
  {
    exists j :: i < j < |s| && s[j] == '%' && forall k :: i <= k < j ==> IsDigit(s[k])
  }

  /** The check the scanner makes at `i`: the whole run of digits is followed by '%'. */
  predicate PercentAt(s: string, i: nat)
  {
    i < |s| && IsDigit(s[i]) && DigitRunEnd(s, i) < |s| && s[DigitRunEnd(s, i)] == '%'
  }

  /** Greedy matching loses nothing: the pattern matches at `i` exactly when the whole
      digit run from `i` ends in '%'. */
  lemma PercentAtMatches(s: string, i: nat)
    ensures PercentAt(s, i) <==> MatchesAt(s, i)
  {
    if MatchesAt(s, i) {
      var j :| i < j < |s| && s[j] == '%' && forall k :: i <= k < j ==> IsDigit(s[k]);
      RunEndsAt(s, i, j);
    }
    if PercentAt(s, i) {
      var e := DigitRunEnd(s, i);
      assert i < e by { assert IsDigit(s[i]); }
      assert s[e] == '%';
    }
  }

  /** The leftmost position at or after `i` where the pattern matches, as `re.search`
      tries them. */
  function SearchPercent(s: string, i: nat): (r: Option<nat>)
    requires i <= |s|
    ensures r.Some? ==> i <= r.value < |s| && PercentAt(s, r.value)
    ensures r.Some? ==> forall k :: i <= k < r.value ==> !PercentAt(s, k)
    ensures r.None? ==> forall k :: i <= k < |s| ==> !PercentAt(s, k)
    decreases |s| - i
  {
    if i == |s| then None else if PercentAt(s, i) then Some(i) else SearchPercent(s, i + 1)
  }

  /** `int(re.search(r'(\d+)%', chunk).group(1))`, or `None` when nothing matches. */
  function Progress(chunk: string): (p: Option<nat>)
  {
    match SearchPercent(chunk, 0)
    case None => None
    case Some(i) => Some(DigitsValue(chunk[i..DigitRunEnd(chunk, i)]))
  }

  /** A chunk carries a progress value exactly when the pattern matches somewhere in it. */
  lemma ProgressFound(chunk: string)
    ensures Progress(chunk).Some? <==> exists i :: 0 <= i < |chunk| && MatchesAt(chunk, i)
  {
    if Progress(chunk).Some? {
      var i := SearchPercent(chunk, 0).value;
      PercentAtMatches(chunk, i);
    } else {
      forall i | 0 <= i < |chunk| ensures !MatchesAt(chunk, i) {
        PercentAtMatches(chunk, i);
      }
    }
  }

  /** A percentage printed after text without digits is read back as the number
      printed, whatever follows it. */
  lemma ProgressOfPrinted(before: string, n: nat, after: string)
    requires forall k :: 0 <= k < |before| ==> !IsDigit(before[k])
    ensures Progress(before + NatToString(n) + "%" + after) == Some(n)
  {
    var d := NatToString(n);
    var s := before + d + "%" + after;
    var i := |before|;
    assert forall k :: 0 <= k < i ==> s[k] == before[k];
    assert i + |d| < |s| && s[i..i + |d|] == d && s[i + |d|] == '%';
    ProgressAt(s, i, d);
    DigitsValueOfNatToString(n);
  }

  /** A digit run preceded by no digit and followed by '%' is what the search finds. */
  lemma ProgressAt(s: string, i: nat, d: string)
    requires i + |d| < |s| && |d| > 0 && AllDigits(d) && s[i..i + |d|] == d && s[i + |d|] == '%'
    requires forall k :: 0 <= k < i ==> !IsDigit(s[k])
    ensures Progress(s) == Some(DigitsValue(d))
  {
    DigitRunOfPrinted(s, i, d);
    assert s[i] == d[0] by {
      assert s[i..i + |d|][0] == s[i];
    }
    assert PercentAt(s, i);
    SearchSkips(s, 0, i);
  }

  /** A digit run ends at the first character that is not a digit. */
  lemma {:induction false} RunEndsAt(s: string, i: nat, j: nat)
    requires i <= j < |s| && !IsDigit(s[j])
    requires forall k :: i <= k < j ==> IsDigit(s[k])
    ensures DigitRunEnd(s, i) == j
    decreases j - i
  {
    if i < j {
      RunEndsAt(s, i + 1, j);
    }
  }

  lemma DigitRunOfPrinted(s: string, i: nat, d: string)
    requires i + |d| < |s| && |d| > 0 && AllDigits(d) && s[i..i + |d|] == d && s[i + |d|] == '%'
    ensures DigitRunEnd(s, i) == i + |d|
  {
    forall k | i <= k < i + |d| ensures IsDigit(s[k]) {
      assert s[k] == s[i..i + |d|][k - i];
    }
    RunEndsAt(s, i, i + |d|);
  }

  /** The search steps over positions where nothing matches. */
  lemma {:induction false} SearchSkips(s: string, i: nat, m: nat)
    requires i <= m < |s| && PercentAt(s, m)
    requires forall k :: i <= k < m ==> !PercentAt(s, k)
    ensures SearchPercent(s, i) == Some(m)
    decreases m - i
  {
    if i < m {
      SearchSkips(s, i + 1, m);
    }
  }

  /** The message shown for a progress value. */
  function ProgressText(p: nat): string
  {
    "Apple Music Download: " + NatToString(p) + "%"
  }

  /** Whether a progress message can be shown for the chunk: only while a status message
      is tracked (`user` has a `bot_msg`) and the chunk matches. */
  function ChunkEdit(chunk: string, tracking: bool): (e: Option<string>)
    ensures e.Some? <==> tracking && Progress(chunk).Some?
  {
    if tracking && Progress(chunk).Some? then Some(ProgressText(Progress(chunk).value)) else None
  }

  /** The edit call as written: the name `edit_message` is not bound in this module, so
      the call raises NameError inside the `try`, and the bare `except` drops it. */
  function EditCallAsWritten(text: string): Result<string>
  {
    Err("NameError: name 'edit_message' is not defined")
  }

  function ChunkEditAsWritten(chunk: string, tracking: bool): Option<string>
  {
    if tracking && Progress(chunk).Some? then
      (match EditCallAsWritten(ProgressText(Progress(chunk).value))
       case Ok(t) => Some(t)
       case Err(_) => None)
    else None
  }

  /** As written no progress message is ever shown, even for a chunk that reports 50%;
      with the name imported the same chunk shows it. */
  lemma ProgressNeverShownAsWritten(chunk: string, tracking: bool)
    ensures ChunkEditAsWritten(chunk, tracking) == None
    ensures ChunkEdit("50%", true) == Some("Apple Music Download: 50%")
  {
    assert NatToString(50) == "50";
    ProgressOfPrinted("", 50, "");
    assert "" + NatToString(50) + "%" + "" == "50%";
    assert ProgressText(50) == "Apple Music Download: 50%";
  }

  /** The progress messages for a series of chunks, in order. */
  function ProgressEdits(chunks: seq<string>, tracking: bool): seq<string>
  {
    if chunks == [] then []
    else
      var last := chunks[|chunks| - 1];
      ProgressEdits(chunks[..|chunks| - 1], tracking) + (if ChunkEdit(last, tracking).Some? then [ChunkEdit(last, tracking).value] else [])
  }

  /** Without a tracked message nothing is shown; with one there is at most one message
      per chunk, each naming a progress value. */
  lemma {:induction false} ProgressEditsFacts(chunks: seq<string>, tracking: bool)
    ensures !tracking ==> ProgressEdits(chunks, tracking) == []
    ensures |ProgressEdits(chunks, tracking)| <= |chunks|
    ensures forall m :: m in ProgressEdits(chunks, tracking) ==> exists c, p :: c in chunks && Progress(c) == Some(p) && m == ProgressText(p)
  {
    if chunks != [] {
      var init := chunks[..|chunks| - 1];
      var last := chunks[|chunks| - 1];
      ProgressEditsFacts(init, tracking);
      forall m | m in ProgressEdits(chunks, tracking)
        ensures exists c, p :: c in chunks && Progress(c) == Some(p) && m == ProgressText(p)
      {
        if m in ProgressEdits(init, tracking) {
          var c, p :| c in init && Progress(c) == Some(p) && m == ProgressText(p);
          assert c in chunks;
        } else {
          assert m == ChunkEdit(last, tracking).value;
          assert last in chunks;
        }
      }
    }
  }

  /** The chunks `process.stdout.read(4096)` hands back before the first empty read. */
  function ChunksRead(stream: seq<string>): (r: seq<string>)
    ensures |r| <= |stream| && r == stream[..|r|]
    ensures forall k :: 0 <= k < |r| ==> r[k] != ""
    ensures |r| < |stream| ==> stream[|r|] == ""
  {
    if stream == [] || stream[0] == "" then [] else [stream[0]] + ChunksRead(stream[1..])
  }

  /** Reading stops at the first empty chunk and at nothing earlier. */
  lemma {:induction false} ChunksReadStops(stream: seq<string>, i: nat)
    requires i <= |stream|
    requires forall k :: 0 <= k < i ==> stream[k] != ""
    requires i == |stream| || stream[i] == ""
    ensures ChunksRead(stream) == stream[..i]
  {
    if i > 0 {
      ChunksReadStops(stream[1..], i - 1);
      assert stream[1..][..i - 1] == stream[1..i];
      assert [stream[0]] + stream[1..i] == stream[..i];
    }
  }

  /** The drain loop of `run_apple_downloader`: collect every chunk until the pipe is
      empty and show each chunk's progress while a status message is tracked.  The text
      read is the chunks joined. */
  method DrainOutput(stream: seq<string>, tracking: bool) returns (stdout: string, edits: seq<string>)
    ensures stdout == JoinWith("", ChunksRead(stream))
    ensures edits == ProgressEdits(ChunksRead(stream), tracking)
  {
    var chunks: seq<string> := [];
    edits := [];
    var i := 0;
    while i < |stream| && stream[i] != ""
      invariant 0 <= i <= |stream|
      invariant chunks == stream[..i]
      invariant forall k :: 0 <= k < i ==> stream[k] != ""
      invariant edits == ProgressEdits(chunks, tracking)
    {
      var chunk := stream[i];
      assert (chunks + [chunk])[..|chunks|] == chunks;
      chunks := chunks + [chunk];
      var e := ChunkEdit(chunk, tracking);
      if e.Some? {
        edits := edits + [e.value];
      }
      i := i + 1;
    }
    ChunksReadStops(stream, i);
    stdout := JoinWith("", chunks);
  }

  // ================================================================ result

  datatype Outcome = Success | Failure(error: string)

  /** The result record: any exit status other than 0 fails with the stripped stderr,
      or, when that is blank, the stdout lines joined by newlines.  `returncode` is
      `None` while the process has not been reaped. */
  function DownloaderResult(returncode: Option<int>, stdout: string, stderr: string): (r: Outcome)
    ensures r.Success? <==> returncode == Some(0)
    ensures r.Failure? && Strip(stderr) != "" ==> r.error == Strip(stderr)
    ensures r.Failure? && Strip(stderr) == "" ==> r.error == JoinWith("\n", SplitLines(stdout))
  {
    if returncode != Some(0) then
      var err := Strip(stderr);
      Failure(if err != "" then err else JoinWith("\n", SplitLines(stdout)))
    else Success
  }

  /** With nothing on stderr, a failed run whose stdout is one line reports that line;
      with empty stdout too, the error is empty. */
  lemma FailureReportsOutput(code: int, stdout: string, stderr: string)
    requires code != 0 && Strip(stderr) == ""
    requires forall k :: 0 <= k < |stdout| ==> !IsLineBreak(stdout[k])
    ensures DownloaderResult(Some(code), stdout, stderr) == Failure(stdout)
  {
    if stdout != [] {
      assert LineEnd(stdout) == |stdout|;
    }
  }

  /** As written `process.returncode` is read right after the pipes close, without
      `await process.wait()`; a run whose exit has not been collected yet is reported
      as a failure even when it succeeded. */
  lemma UnreapedRunFailsAsWritten(stdout: string, stderr: string)
    ensures DownloaderResult(None, stdout, stderr).Failure?
  {
  }

  /** After waiting, the exit status is known: the run succeeds exactly when it is 0. */
  function DownloaderResultAfterWait(exit: int, stdout: string, stderr: string): (r: Outcome)
    ensures r.Success? <==> exit == 0
    ensures r.Failure? ==> r == Failure(DownloaderResult(Some(exit), stdout, stderr).error)
  {
    DownloaderResult(Some(exit), stdout, stderr)
  }

  // ================================================================ zip name

  /** The characters the sanitiser removes: backslash, slash, star, question mark,
      colon, double quote, angle brackets and bar. */
  predicate Forbidden(c: char)
  {
    c == '\\' || c == '/' || c == '*' || c == '?' || c == ':' || c == '"' || c == '<' || c == '>' || c == '|'
  }

  function RemoveForbidden(s: string): (r: string)
    ensures |r| <= |s|
    ensures forall k :: 0 <= k < |r| ==> !Forbidden(r[k]) && r[k] in s
    ensures (forall k :: 0 <= k < |s| ==> !Forbidden(s[k])) ==> r == s
  {
    if s == [] then []
    else if Forbidden(s[0]) then RemoveForbidden(s[1..])
    else [s[0]] + RemoveForbidden(s[1..])
  }

  /** `s.replace(' ', '_')`. */
  function Underscored(s: string): (r: string)
    ensures |r| == |s|
    ensures forall k :: 0 <= k < |s| ==> r[k] == (if s[k] == ' ' then '_' else s[k])
  {
    if s == [] then [] else [if s[0] == ' ' then '_' else s[0]] + Underscored(s[1..])
  }

  /** The sanitised name: forbidden characters dropped, spaces made underscores, at
      most 100 characters kept. */
  function SanitizeName(name: string): string
  {
    Take(Underscored(RemoveForbidden(name)), 100)
  }

  /** A sanitised name is short, holds no forbidden character and no space, and
      sanitising it again changes nothing. */
  lemma SanitizeNameFacts(name: string)
    ensures |SanitizeName(name)| <= 100
    ensures forall k :: 0 <= k < |SanitizeName(name)| ==> !Forbidden(SanitizeName(name)[k]) && SanitizeName(name)[k] != ' '
    ensures SanitizeName(SanitizeName(name)) == SanitizeName(name)
  {
    var r := RemoveForbidden(name);
    var u := Underscored(r);
    var s := SanitizeName(name);
    forall k | 0 <= k < |s| ensures !Forbidden(s[k]) && s[k] != ' ' {
      assert s[k] == u[k];
    }
    assert RemoveForbidden(s) == s;
    assert Underscored(s) == s;
  }

  /** `safe_name` as written: a name that is blank once sanitised takes the
      `Apple_Music_{int(time.time())}` fallback, but `time` is not imported, so that
      branch raises NameError. */
  function SafeNameAsWritten(title: string): Result<string>
  {
    var s := SanitizeName(title);
    if Strip(s) == "" then Err("NameError: name 'time' is not defined") else Ok(s)
  }

  lemma BlankTitleRaisesAsWritten()
    ensures SafeNameAsWritten("???").Err?
  {
    assert RemoveForbidden("???") == "";
  }

  /** `safe_name` with the clock reading `now` supplied. */
  function SafeName(title: string, now: nat): string
  {
    var s := SanitizeName(title);
    if Strip(s) == "" then "Apple_Music_" + NatToString(now) else s
  }

  /** The name used is never blank, and it is the sanitised title whenever that is not
      blank. */
  lemma SafeNameNotBlank(title: string, now: nat)
    ensures Strip(SafeName(title, now)) != ""
    ensures Strip(SanitizeName(title)) != "" ==> SafeName(title, now) == SanitizeName(title)
  {
    var f := "Apple_Music_" + NatToString(now);
    if Strip(SanitizeName(title)) == "" {
      assert !IsSpace(f[0]);
    }
  }

  /** The suffix chosen by the content type, compared in lower case
      (`type.capitalize().lower()`). */
  function KindSuffix(kind: string): (r: string)
    ensures Lower(kind) == "album" ==> r == ""
  {
    var k := Lower(kind);
    if k == "album" then ""
    else if k == "playlist" then " (Playlist)"
    else if k == "artist" then " (Artist)"
    else if k == "video" then " (Video)"
    else ""
  }

  lemma LowerIdempotent(s: string)
    ensures Lower(Lower(s)) == Lower(s)
  {
    forall k | 0 <= k < |s| ensures ToLower(Lower(s)[k]) == Lower(s)[k] {
      assert Lower(s)[k] == ToLower(s[k]);
    }
  }

  /** The type is matched without regard to case. */
  lemma KindSuffixIgnoresCase(kind: string)
    ensures KindSuffix(Lower(kind)) == KindSuffix(kind)
  {
    LowerIdempotent(kind);
  }

  lemma KindSuffixMixedCase()
    ensures KindSuffix("PlayList") == " (Playlist)"
  {
    var l := Lower("PlayList");
    assert l[0] == 'p' && l[1] == 'l' && l[2] == 'a' && l[3] == 'y';
    assert l[4] == 'l' && l[5] == 'i' && l[6] == 's' && l[7] == 't';
    assert l == "playlist";
  }

  /** The metadata `create_apple_zip` reads: `type` (default 'album'), `title` (default
      'Unknown') and `provider` (default 'Apple Music'). */
  datatype ZipMeta = ZipMeta(kind: Option<string>, title: Option<string>, provider: Option<string>)

  function Get(o: Option<string>, d: string): string
  {
    if o.Some? then o.value else d
  }

  /** `[{provider}] {safe_name}` and the type's suffix. */
  function AppleZipName(meta: ZipMeta, now: nat): (name: string)
    ensures StartsWith(name, "[" + Get(meta.provider, "Apple Music") + "] " + SafeName(Get(meta.title, "Unknown"), now))
    ensures EndsWith(name, KindSuffix(Get(meta.kind, "album")))
  {
    var head := "[" + Get(meta.provider, "Apple Music") + "] " + SafeName(Get(meta.title, "Unknown"), now);
    var suffix := KindSuffix(Get(meta.kind, "album"));
    assert (head + suffix)[..|head|] == head;
    assert (head + suffix)[|head + suffix| - |suffix|..] == suffix;
    head + suffix
  }

  // ================================================================ unique path

  /** The `k`-th path tried: `{name}.zip`, then `{name}_1.zip`, `{name}_2.zip`, ... */
  function CandidateName(name: string, k: nat): string
  {
    if k == 0 then name + ".zip" else name + "_" + NatToString(k) + ".zip"
  }

  function Candidate(zipDir: string, name: string, k: nat): string
  {
    Join(zipDir, CandidateName(name, k))
  }

  lemma CandidateNameInjective(name: string, j: nat, k: nat)
    requires CandidateName(name, j) == CandidateName(name, k)
    ensures j == k
  {
    var a := CandidateName(name, j);
    var b := CandidateName(name, k);
    assert a[..|name|] == name && b[..|name|] == name;
    assert (j == 0) == (k == 0) by {
      assert k != 0 ==> |b| > |name| + 4;
      assert j != 0 ==> |a| > |name| + 4;
    }
    if j != 0 {
      var dj, dk := NatToString(j), NatToString(k);
      assert a == name + ("_" + dj) + ".zip";
      assert b == name + ("_" + dk) + ".zip";
      assert |dj| == |dk|;
      assert dj == a[|name| + 1..|a| - 4];
      assert dk == b[|name| + 1..|b| - 4];
      NatToStringInjective(j, k);
    }
  }

  lemma CandidateInjective(zipDir: string, name: string, j: nat, k: nat)
    requires Candidate(zipDir, name, j) == Candidate(zipDir, name, k)
    ensures j == k
  {
    var a := CandidateName(name, j);
    var b := CandidateName(name, k);
    assert StartsWith(a, "/") == StartsWith(b, "/") by {
      if name != "" {
        assert a[0] == name[0] && b[0] == name[0];
      } else {
        assert a[0] != '/' && b[0] != '/';
      }
    }
    JoinInjective(zipDir, a, b);
    CandidateNameInjective(name, j, k);
  }

  /** The first `n` candidates, as a set. */
  function Candidates(zipDir: string, name: string, n: nat): set<string>
  {
    if n == 0 then {} else Candidates(zipDir, name, n - 1) + {Candidate(zipDir, name, n - 1)}
  }

  lemma {:induction false} CandidatesExclude(zipDir: string, name: string, n: nat, m: nat)
    requires n <= m
    ensures Candidate(zipDir, name, m) !in Candidates(zipDir, name, n)
  {
    if n > 0 {
      CandidatesExclude(zipDir, name, n - 1, m);
      assert Candidate(zipDir, name, m) != Candidate(zipDir, name, n - 1) by {
        if Candidate(zipDir, name, m) == Candidate(zipDir, name, n - 1) {
          CandidateInjective(zipDir, name, m, n - 1);
        }
      }
    }
  }

  lemma {:induction false} CandidatesSize(zipDir: string, name: string, n: nat)
    ensures |Candidates(zipDir, name, n)| == n
  {
    if n > 0 {
      CandidatesSize(zipDir, name, n - 1);
      CandidatesExclude(zipDir, name, n - 1, n - 1);
    }
  }

  lemma {:induction false} CandidatesWithin(zipDir: string, name: string, existing: set<string>, n: nat)
    requires forall j :: 0 <= j < n ==> Candidate(zipDir, name, j) in existing
    ensures Candidates(zipDir, name, n) <= existing
  {
    if n > 0 {
      CandidatesWithin(zipDir, name, existing, n - 1);
    }
  }

  /** Only as many candidates as there are existing paths can be taken, so the search
      ends. */
  lemma CandidatesBound(zipDir: string, name: string, existing: set<string>, n: nat)
    requires forall j :: 0 <= j < n ==> Candidate(zipDir, name, j) in existing
    ensures n <= |existing|
  {
    CandidatesSize(zipDir, name, n);
    CandidatesWithin(zipDir, name, existing, n);
    SubsetSize(Candidates(zipDir, name, n), existing);
  }

  lemma SubsetSize(a: set<string>, b: set<string>)
    requires a <= b
    ensures |a| <= |b|
    decreases a
  {
    if a != {} {
      var x :| x in a;
      SubsetSize(a - {x}, b - {x});
    }
  }

  /** The `while os.path.exists(zip_path)` loop: the path returned is the first
      candidate not among the existing paths, and `index` says which one it is. */
  method UniqueZipPath(zipDir: string, name: string, existing: set<string>) returns (path: string, index: nat)
    ensures path == Candidate(zipDir, name, index) && path !in existing
    ensures forall j :: 0 <= j < index ==> Candidate(zipDir, name, j) in existing
    ensures index <= |existing|
  {
    path := Join(zipDir, name + ".zip");
    index := 0;
    var counter := 1;
    while path in existing
      invariant counter == index + 1
      invariant path == Candidate(zipDir, name, index)
      invariant forall j :: 0 <= j < index ==> Candidate(zipDir, name, j) in existing
      invariant index <= |existing|
      decreases |existing| - index
    {
      CandidatesBound(zipDir, name, existing, index + 1);
      path := Join(zipDir, name + "_" + NatToString(counter) + ".zip");
      index := counter;
      counter := counter + 1;
    }
    CandidatesBound(zipDir, name, existing, index);
  }

  /** `create_apple_zip`: the zip is named after the content and placed beside
      `directory`, and it holds every walked file of `directory` under its relative
      path, in walk order.  The files themselves are kept. */
  method CreateAppleZip(directory: string, meta: ZipMeta, existing: set<string>, walk: seq<Entry>, now: nat)
    returns (zip: Zip, index: nat)
    ensures zip.members == walk
    ensures zip.path !in existing
    ensures zip.path == Candidate(Dirname(directory), AppleZipName(meta, now), index)
    ensures forall j :: 0 <= j < index ==> Candidate(Dirname(directory), AppleZipName(meta, now), j) in existing
  {
    var name := AppleZipName(meta, now);
    var zipDir := Dirname(directory);
    var path;
    path, index := UniqueZipPath(zipDir, name, existing);
    zip := Zip(path, walk);
  }

  /** The zip lies in the parent of `directory` and is called after the content, as
      long as the provider name holds no '/'. */
  lemma AppleZipBeside(directory: string, meta: ZipMeta, now: nat, k: nat)
    requires '/' !in Get(meta.provider, "Apple Music")
    ensures StartsWith(Candidate(Dirname(directory), AppleZipName(meta, now), k), Dirname(directory))
    ensures Basename(Candidate(Dirname(directory), AppleZipName(meta, now), k)) == CandidateName(AppleZipName(meta, now), k)
  {
    NameHasNoSlash(meta, now);
    CandidateBeside(Dirname(directory), AppleZipName(meta, now), k);
  }

  lemma CandidateBeside(zipDir: string, name: string, k: nat)
    requires '/' !in name && |name| > 0
    ensures StartsWith(Candidate(zipDir, name, k), zipDir)
    ensures Basename(Candidate(zipDir, name, k)) == CandidateName(name, k)
  {
    CandidateNameHasNoSlash(name, k);
    var b := CandidateName(name, k);
    assert !StartsWith(b, "/") by { assert b[0] == name[0]; assert name[0] in name; }
    BasenameOfJoin(zipDir, b);
  }

  lemma NameHasNoSlash(meta: ZipMeta, now: nat)
    requires '/' !in Get(meta.provider, "Apple Music")
    ensures '/' !in AppleZipName(meta, now) && AppleZipName(meta, now)[0] == '['
  {
    var provider := Get(meta.provider, "Apple Music");
    var safe := SafeName(Get(meta.title, "Unknown"), now);
    var suffix := KindSuffix(Get(meta.kind, "album"));
    SafeNameHasNoSlash(Get(meta.title, "Unknown"), now);
    KindSuffixHasNoSlash(Get(meta.kind, "album"));
    var name := "[" + provider + "] " + safe + suffix;
    assert AppleZipName(meta, now) == name;
    assert name[0] == '[';
  }

  lemma SafeNameHasNoSlash(title: string, now: nat)
    ensures '/' !in SafeName(title, now)
  {
    if Strip(SanitizeName(title)) == "" {
      FallbackHasNoSlash(now);
    } else {
      SanitizedHasNoSlash(title);
    }
  }

  lemma SanitizedHasNoSlash(title: string)
    ensures '/' !in SanitizeName(title)
  {
    SanitizeNameFacts(title);
    var s := SanitizeName(title);
    assert forall k :: 0 <= k < |s| ==> s[k] != '/';
  }

  lemma KindSuffixHasNoSlash(kind: string)
    ensures '/' !in KindSuffix(kind)
  {
  }

  lemma CandidateNameHasNoSlash(name: string, k: nat)
    requires '/' !in name && |name| > 0
    ensures '/' !in CandidateName(name, k) && CandidateName(name, k)[0] == name[0]
  {
    if k != 0 {
      assert AllDigits(NatToString(k));
      assert '/' !in NatToString(k);
    }
  }

  lemma FallbackHasNoSlash(now: nat)
    ensures '/' !in "Apple_Music_" + NatToString(now)
  {
    var d := NatToString(now);
    assert forall k :: 0 <= k < |d| ==> d[k] != '/';
  }
}
