/** POSIX path string operations the core calls: `os.path.join`, `os.path.dirname`,
    `os.path.basename`, `os.path.splitext` and `pathlib.PurePath.relative_to`. */
module Paths {
  import opened Common
  import opened Strings

  /** Index of the last `c` in `s`, or -1: Python's `s.rfind(c)`. */
  function RFind(s: string, c: char): (r: int)
    ensures -1 <= r < |s|
    ensures r >= 0 ==> s[r] == c
    ensures forall j :: r < j < |s| ==> s[j] != c
  {
    if s == [] then -1 else if s[|s| - 1] == c then |s| - 1 else RFind(s[..|s| - 1], c)
  }

  /** Index of the first `c` in `s`, or `|s|`. */
  function FindFirst(s: string, c: char): (r: nat)
    ensures r <= |s|
    ensures r < |s| ==> s[r] == c
    ensures forall j :: 0 <= j < r ==> s[j] != c
  {
    if s == [] || s[0] == c then 0 else 1 + FindFirst(s[1..], c)
  }

  /** `os.path.join(a, b)`. */
  function Join(a: string, b: string): (r: string)
    ensures StartsWith(b, "/") ==> r == b
    ensures !StartsWith(b, "/") ==> EndsWith(r, b) && StartsWith(r, a)
  {
    if StartsWith(b, "/") then b
    else if a == "" || EndsWith(a, "/") then a + b
    else a + "/" + b
  }

  /** Joining onto the same head tells tails apart, when both or neither are absolute. */
  lemma JoinInjective(a: string, b1: string, b2: string)
    requires StartsWith(b1, "/") == StartsWith(b2, "/")
    requires Join(a, b1) == Join(a, b2)
    ensures b1 == b2
  {
    if !StartsWith(b1, "/") {
      var h := if a == "" || EndsWith(a, "/") then a else a + "/";
      assert Join(a, b1) == h + b1 && Join(a, b2) == h + b2;
      assert (h + b1)[|h|..] == b1 && (h + b2)[|h|..] == b2;
    }
  }

  /** The last component of a join is the joined name, when it holds no '/'. */
  lemma BasenameOfJoin(a: string, b: string)
    requires b != "" && '/' !in b
    ensures Basename(Join(a, b)) == b
  {
    assert b[0] != '/';
    if a == "" || EndsWith(a, "/") {
      BasenameAfterSlash(a, b);
    } else {
      BasenameAfterSlash(a + "/", b);
    }
  }

  /** A name with no '/' put after a head that is empty or ends in '/' is its basename. */
  lemma BasenameAfterSlash(h: string, b: string)
    requires b != "" && '/' !in b && (h == "" || h[|h| - 1] == '/')
    ensures Basename(h + b) == b
  {
    var p := h + b;
    var r := RFind(p, '/');
    forall j | |h| <= j < |p| ensures p[j] != '/' {
      assert p[j] == b[j - |h|];
    }
    if h != "" {
      assert p[|h| - 1] == '/';
    }
    assert r == |h| - 1;
    assert p[|h|..] == b;
  }

  /** `os.path.basename(p)`: whatever follows the last '/'. */
  function Basename(p: string): (r: string)
    ensures '/' !in r && EndsWith(p, r)
  {
    p[RFind(p, '/') + 1..]
  }

  function AllChar(s: string, c: char): bool
  {
    forall i :: 0 <= i < |s| ==> s[i] == c
  }

  /** `os.path.dirname(p)`: everything up to the last '/', with trailing slashes
      removed unless the head is nothing but slashes. */
  function Dirname(p: string): (r: string)
    ensures StartsWith(p, r)
    ensures '/' !in p ==> r == ""
  {
    var head := p[..RFind(p, '/') + 1];
    if head != "" && !AllChar(head, '/') then RStripSlash(head) else head
  }

  function RStripSlash(s: string): (r: string)
    ensures StartsWith(s, r)
    ensures r != [] ==> r[|r| - 1] != '/'
  {
    if s != [] && s[|s| - 1] == '/' then RStripSlash(s[..|s| - 1]) else s
  }

  /** Whether `s[from..to]` holds a character other than '.'. */
  predicate HasNonDot(s: string, from: nat, to: nat)
    requires from <= to <= |s|
  {
    exists i :: from <= i < to && s[i] != '.'
  }

  /** `os.path.splitext(p)`: the extension starts at the last '.' of the last
      component, unless that component has only dots before it. */
  function SplitExt(p: string): (r: (string, string))
    ensures r.0 + r.1 == p
    ensures r.1 != "" ==> r.1[0] == '.' && '/' !in r.1 && '.' !in r.1[1..]
  {
    var sep := RFind(p, '/');
    var dot := RFind(p, '.');
    if dot > sep && HasNonDot(p, sep + 1, dot) then
      (p[..dot], p[dot..])
    else
      (p, "")
  }

  /** An extension made of a dot and then neither dots nor slashes is split off
      exactly, provided the final component of the stem is not all dots. */
  lemma SplitExtOfStem(stem: string, ext: string)
    requires |ext| >= 1 && ext[0] == '.' && '.' !in ext[1..] && '/' !in ext
    requires HasNonDot(stem, RFind(stem, '/') + 1, |stem|)
    ensures SplitExt(stem + ext) == (stem, ext)
  {
    var p := stem + ext;
    assert p[|stem|] == '.';
    forall j | |stem| < j < |p| ensures p[j] != '.' && p[j] != '/' {
      assert p[j] == ext[j - |stem|];
      assert ext[1..][j - |stem| - 1] == ext[j - |stem|];
    }
    assert p[..|stem|] == stem;
    assert RFind(p, '.') == |stem|;
    assert RFind(p, '/') == RFind(stem, '/') by {
      assert p[..|stem|] == stem;
      PrefixRFind(p, stem, '/');
    }
    var i :| RFind(stem, '/') + 1 <= i < |stem| && stem[i] != '.';
    assert p[i] == stem[i];
  }

  lemma PrefixRFind(p: string, stem: string, c: char)
    requires |stem| <= |p| && p[..|stem|] == stem
    requires forall j :: |stem| <= j < |p| ==> p[j] != c
    ensures RFind(p, c) == RFind(stem, c)
  {
    var r := RFind(p, c);
    var q := RFind(stem, c);
    if r >= 0 {
      assert r < |stem|;
      assert stem[r] == c;
    }
    if q >= 0 {
      assert p[q] == c;
    }
  }

  // ---------------------------------------------------------------- pathlib components

  /** Python's `s.split(c)`. */
  function Split(s: string, c: char): (parts: seq<string>)
    ensures |parts| > 0
    ensures forall i :: 0 <= i < |parts| ==> c !in parts[i]
    decreases |s|
  {
    var i := FindFirst(s, c);
    if i == |s| then [s] else [s[..i]] + Split(s[i + 1..], c)
  }

  lemma {:induction false} SplitAround(a: string, c: char, b: string)
    ensures Split(a + [c] + b, c) == Split(a, c) + Split(b, c)
    decreases |a|
  {
    var s := a + [c] + b;
    var i := FindFirst(a, c);
    FindFirstConcat(a, c, b);
    if i == |a| {
      assert s[..|a|] == a && s[|a| + 1..] == b;
    } else {
      assert s[..i] == a[..i];
      assert s[i + 1..] == a[i + 1..] + [c] + b;
      SplitAround(a[i + 1..], c, b);
    }
  }

  /** The first `c` of `a + [c] + b` is the first of `a`, or the added one. */
  lemma FindFirstConcat(a: string, c: char, b: string)
    ensures FindFirst(a + [c] + b, c) == FindFirst(a, c)
  {
    var s := a + [c] + b;
    var i := FindFirst(a, c);
    assert s[i] == c by {
      if i < |a| {
        assert s[i] == a[i];
      }
    }
    assert forall j :: 0 <= j < i ==> s[j] == a[j];
  }

  /** The components pathlib keeps: empty and "." parts are dropped. */
  function Clean(parts: seq<string>): (r: seq<string>)
    ensures forall i :: 0 <= i < |r| ==> r[i] != "" && r[i] != "." && r[i] in parts
  {
    if parts == [] then []
    else if parts[0] == "" || parts[0] == "." then Clean(parts[1..])
    else [parts[0]] + Clean(parts[1..])
  }

  lemma {:induction false} CleanAppend(x: seq<string>, y: seq<string>)
    ensures Clean(x + y) == Clean(x) + Clean(y)
  {
    if x == [] {
      assert x + y == y;
    } else {
      assert (x + y)[1..] == x[1..] + y;
      CleanAppend(x[1..], y);
    }
  }

  function Components(p: string): seq<string>
  {
    Clean(Split(p, '/'))
  }

  /** pathlib's root of a POSIX path: exactly two leading slashes stay `//`, one or three
      and more are `/`, and a relative path has none. */
  function Anchor(p: string): string
  {
    if StartsWith(p, "//") && !StartsWith(p, "///") then "//"
    else if StartsWith(p, "/") then "/"
    else ""
  }

  /** A path has the anchor of a prefix of it that is three characters long or more, that
      ends in a character other than a slash, or that no slash follows. */
  lemma AnchorOfPrefix(a: string, p: string)
    requires StartsWith(p, a)
    requires |a| >= 3 || a == p || (a != "" && a[|a| - 1] != '/') || p[|a|] != '/'
    ensures Anchor(p) == Anchor(a)
  {
    if |a| >= 3 {
      assert p[..3] == a[..3];
      assert p[..2] == a[..2] && p[..1] == a[..1];
    } else if a != p {
      assert forall i :: 0 <= i < |a| ==> p[i] == a[i];
    }
  }

  /** `str(Path(...))` of a relative list of components. */
  function JoinParts(parts: seq<string>): string
  {
    if parts == [] then "." else JoinWith("/", parts)
  }

  /** `str(Path(path).relative_to(base))`, or `None` where pathlib raises ValueError. */
  function RelativeTo(path: string, base: string): (r: Option<string>)
    ensures r.Some? <==> Anchor(path) == Anchor(base) && IsPrefixOf(Components(base), Components(path))
  {
    var pp := Components(path);
    var bp := Components(base);
    if Anchor(path) == Anchor(base) && IsPrefixOf(bp, pp) then Some(JoinParts(pp[|bp|..])) else None
  }

  predicate IsPrefixOf(x: seq<string>, y: seq<string>)
  {
    |x| <= |y| && y[..|x|] == x
  }

  /** A path `os.path.join` builds from a non-empty base and a relative tail is relative to
      that base, and the result is the tail's normalised components. */
  lemma RelativeToOfJoin(base: string, rel: string)
    requires base != "" && !StartsWith(rel, "/")
    ensures RelativeTo(Join(base, rel), base) == Some(JoinParts(Components(rel)))
  {
    if EndsWith(base, "/") {
      var b := base[..|base| - 1];
      assert base == b + "/";
      assert Join(base, rel) == b + "/" + rel;
      RelativeToBelowSlashed(b, rel);
    } else {
      assert Join(base, rel) == base + "/" + rel;
      RelativeToBelowUnslashed(base, rel);
    }
  }

  lemma RelativeToBelowSlashed(b: string, rel: string)
    requires !StartsWith(rel, "/")
    ensures RelativeTo(b + "/" + rel, b + "/") == Some(JoinParts(Components(rel)))
  {
    var base, p := b + "/", b + "/" + rel;
    assert base == b + "/" + "";
    ComponentsOfSlashJoin(b, rel);
    ComponentsOfSlashJoin(b, "");
    var cb, cr := Components(b), Components(rel);
    assert Components("") == [] by {
      assert Split("", '/') == [""];
    }
    assert Components(base) == cb by {
      assert cb + [] == cb;
    }
    assert p == base + rel;
    assert |base| < 3 && rel != "" ==> p[|base|] == rel[0];
    AnchorOfPrefix(base, p);
    RelativeToOfComponents(p, base, rel);
  }

  lemma RelativeToBelowUnslashed(base: string, rel: string)
    requires base != "" && base[|base| - 1] != '/'
    ensures RelativeTo(base + "/" + rel, base) == Some(JoinParts(Components(rel)))
  {
    var p := base + "/" + rel;
    ComponentsOfSlashJoin(base, rel);
    AnchorOfPrefix(base, p);
    RelativeToOfComponents(p, base, rel);
  }

  lemma ComponentsOfSlashJoin(a: string, b: string)
    ensures Components(a + "/" + b) == Components(a) + Components(b)
  {
    SplitAround(a, '/', b);
    CleanAppend(Split(a, '/'), Split(b, '/'));
  }

  lemma RelativeToOfComponents(p: string, base: string, rel: string)
    requires Anchor(p) == Anchor(base) && Components(p) == Components(base) + Components(rel)
    ensures RelativeTo(p, base) == Some(JoinParts(Components(rel)))
  {
    assert Components(p)[..|Components(base)|] == Components(base);
    assert Components(p)[|Components(base)|..] == Components(rel);
  }

  /** pathlib keeps a leading `//` as its own root, so `//a/b` is not below `/a`. */
  lemma DoubleSlashRootIsOwn()
    ensures Anchor("//a/b") == "//" && Anchor("/a") == "/"
    ensures RelativeTo("//a/b", "/a") == None
  {
    var p, b := "//a/b", "/a";
    assert p[..2] == "//" && p[2] == 'a';
    assert b[..1] == "/" && b[1] == 'a';
  }
}
