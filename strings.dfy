/** The Python `str` operations the core relies on, written out over `seq<char>`:
    decimal rendering of integers, `in` (substring), `replace`, `strip`/`lstrip`,
    `splitlines`, `join`, `title` and `lower`. Case mapping covers ASCII letters only. */
module Strings {

  // ---------------------------------------------------------------- digits

  predicate IsDigit(c: char)
  {
    '0' <= c <= '9'
  }

  predicate AllDigits(s: string)
  {
    forall i :: 0 <= i < |s| ==> IsDigit(s[i])
  }

  function DigitChar(d: nat): (c: char)
    requires d < 10
    ensures IsDigit(c) && c as int - '0' as int == d
  {
    ('0' as int + d) as char
  }

  /** `str(n)` for a non-negative integer: decimal digits, no leading zero. */
  function NatToString(n: nat): (s: string)
    ensures |s| > 0 && AllDigits(s)
    ensures |s| > 1 ==> s[0] != '0'
    decreases n
  {
    if n < 10 then [DigitChar(n)] else NatToString(n / 10) + [DigitChar(n % 10)]
  }

  /** The value of a string of decimal digits (Python's `int(s)` on such a string). */
  function DigitsValue(s: string): nat
    requires AllDigits(s)
  {
    if s == [] then 0 else DigitsValue(s[..|s| - 1]) * 10 + (s[|s| - 1] as int - '0' as int)
  }

  /** Reading back what `str(n)` wrote gives `n`. */
  lemma {:induction false} DigitsValueOfNatToString(n: nat)
    ensures DigitsValue(NatToString(n)) == n
    decreases n
  {
    if n >= 10 {
      var s := NatToString(n);
      assert s[..|s| - 1] == NatToString(n / 10);
      DigitsValueOfNatToString(n / 10);
    }
  }

  lemma NatToStringInjective(m: nat, n: nat)
    requires NatToString(m) == NatToString(n)
    ensures m == n
  {
    DigitsValueOfNatToString(m);
    DigitsValueOfNatToString(n);
  }

  /** `str(i)` for any integer. */
  function IntToString(i: int): (s: string)
    ensures |s| > 0
    ensures i >= 0 <==> s[0] != '-'
  {
    if i < 0 then "-" + NatToString(-i) else NatToString(i)
  }

  // ---------------------------------------------------------------- prefixes and substrings

  predicate StartsWith(s: string, p: string)
  {
    |p| <= |s| && s[..|p|] == p
  }

  predicate EndsWith(s: string, p: string)
  {
    |p| <= |s| && s[|s| - |p|..] == p
  }

  /** Python's `s[:n]`. */
  function Take(s: string, n: nat): (r: string)
    ensures |r| == if |s| < n then |s| else n
    ensures r == s[..|r|]
  {
    if |s| <= n then s else s[..n]
  }

  /** Python's `k in s` for strings. */
  predicate Contains(s: string, k: string)
    decreases |s|
  {
    StartsWith(s, k) || (|s| > 0 && Contains(s[1..], k))
  }

  lemma {:induction false} ContainsAt(s: string, k: string, i: nat)
    requires i + |k| <= |s| && s[i..i + |k|] == k
    ensures Contains(s, k)
    decreases i
  {
    if i > 0 {
      assert s[1..][i - 1..i - 1 + |k|] == s[i..i + |k|];
      ContainsAt(s[1..], k, i - 1);
    }
  }

  // ---------------------------------------------------------------- replace

  /** Python's `s.replace(k, v)` for a non-empty `k`: every non-overlapping
      occurrence, scanning left to right, in one pass. */
  function ReplaceAll(s: string, k: string, v: string): (r: string)
    requires |k| > 0
    ensures !Contains(s, k) ==> r == s
    decreases |s|
  {
    if |s| < |k| then s
    else if s[..|k|] == k then v + ReplaceAll(s[|k|..], k, v)
    else [s[0]] + ReplaceAll(s[1..], k, v)
  }

  /** A character that does not occur in the key splits the replacement: no
      occurrence can straddle it. */
  lemma {:induction false} ReplaceAround(a: string, c: char, b: string, k: string, v: string)
    requires |k| > 0 && c !in k
    ensures ReplaceAll(a + [c] + b, k, v) == ReplaceAll(a, k, v) + [c] + ReplaceAll(b, k, v)
    decreases |a|, 1
  {
    if a == [] {
      var t := a + [c] + b;
      assert t == [c] + b;
      assert |t| >= |k| ==> t[..|k|][0] == c != k[0];
      ReplaceAllHead([c] + b, k, v);
      assert ([c] + b)[1..] == b;
    } else if |k| <= |a| && a[..|k|] == k {
      ReplaceAroundKey(a, c, b, k, v);
    } else {
      ReplaceAroundChar(a, c, b, k, v);
    }
  }

  lemma {:induction false} ReplaceAroundKey(a: string, c: char, b: string, k: string, v: string)
    requires |k| > 0 && c !in k && |k| <= |a| && a[..|k|] == k
    ensures ReplaceAll(a + [c] + b, k, v) == ReplaceAll(a, k, v) + [c] + ReplaceAll(b, k, v)
    decreases |a|, 0
  {
    var t := a + [c] + b;
    assert t[..|k|] == k && t[|k|..] == a[|k|..] + [c] + b;
    ReplaceAround(a[|k|..], c, b, k, v);
  }

  lemma {:induction false} ReplaceAroundChar(a: string, c: char, b: string, k: string, v: string)
    requires |k| > 0 && c !in k && a != [] && !(|k| <= |a| && a[..|k|] == k)
    ensures ReplaceAll(a + [c] + b, k, v) == ReplaceAll(a, k, v) + [c] + ReplaceAll(b, k, v)
    decreases |a|, 0
  {
    HeadAround(a, c, b, k, v);
    ReplaceAround(a[1..], c, b, k, v);
    ReplaceAllHead(a, k, v);
    Regroup([a[0]], ReplaceAll(a[1..], k, v), c, ReplaceAll(b, k, v));
  }

  lemma Regroup(x: string, y: string, c: char, z: string)
    ensures x + (y + [c] + z) == x + y + [c] + z
  {
  }

  lemma HeadAround(a: string, c: char, b: string, k: string, v: string)
    requires |k| > 0 && c !in k && a != [] && !(|k| <= |a| && a[..|k|] == k)
    ensures ReplaceAll(a + [c] + b, k, v) == [a[0]] + ReplaceAll(a[1..] + [c] + b, k, v)
  {
    var t := a + [c] + b;
    NoKeyAtHead(a, c, b, k);
    ReplaceAllHead(t, k, v);
    assert t[0] == a[0] && t[1..] == a[1..] + [c] + b;
  }

  /** Without the key at its front, the replacement keeps the first character. */
  lemma ReplaceAllHead(s: string, k: string, v: string)
    requires |k| > 0 && s != [] && (|s| < |k| || s[..|k|] != k)
    ensures ReplaceAll(s, k, v) == [s[0]] + ReplaceAll(s[1..], k, v)
  {
    if |s| < |k| {
      assert ReplaceAll(s[1..], k, v) == s[1..];
    }
  }

  /** A non-empty `a` that does not start with the key, followed by a character outside
      the key, cannot start with the key either. */
  lemma NoKeyAtHead(a: string, c: char, b: string, k: string)
    requires |k| > 0 && c !in k && a != [] && !(|k| <= |a| && a[..|k|] == k)
    ensures var t := a + [c] + b; |t| < |k| || t[..|k|] != k
  {
    var t := a + [c] + b;
    if |t| >= |k| {
      if |k| > |a| {
        assert t[..|k|][|a|] == c;
      } else {
        assert t[..|k|] == a[..|k|];
      }
    }
  }

  /** Python's `s.replace(k, '')`; replacing the empty string by the empty string changes nothing. */
  function RemoveAll(s: string, k: string): (r: string)
    ensures |r| <= |s|
    ensures !Contains(s, k) ==> r == s
  {
    if k == [] then s else RemoveEvery(s, k)
  }

  function RemoveEvery(s: string, k: string): (r: string)
    requires |k| > 0
    ensures r == ReplaceAll(s, k, "")
    ensures |r| <= |s|
    decreases |s|
  {
    if |s| < |k| then s
    else if s[..|k|] == k then RemoveEvery(s[|k|..], k)
    else [s[0]] + RemoveEvery(s[1..], k)
  }

  // ---------------------------------------------------------------- whitespace

  /** Python's `str.isspace()` for one character. */
  predicate IsSpace(c: char)
  {
    c == ' ' || '\t' <= c <= '\r' || '\U{1C}' <= c <= '\U{1F}' || c == '\U{85}' || c == '\U{A0}'
    || c == '\U{1680}' || '\U{2000}' <= c <= '\U{200A}' || c == '\U{2028}' || c == '\U{2029}'
    || c == '\U{202F}' || c == '\U{205F}' || c == '\U{3000}'
  }

  /** Leading characters satisfying `strip` removed: `s.lstrip()` or `s.lstrip(c)`. */
  function LStripChar(s: string, c: char): (r: string)
    ensures |r| <= |s| && r == s[|s| - |r|..]
    ensures r != [] ==> r[0] != c
    ensures forall i :: 0 <= i < |s| - |r| ==> s[i] == c
  {
    if s != [] && s[0] == c then LStripChar(s[1..], c) else s
  }

  function LStrip(s: string): (r: string)
    ensures |r| <= |s| && r == s[|s| - |r|..]
    ensures r != [] ==> !IsSpace(r[0])
    ensures forall i :: 0 <= i < |s| - |r| ==> IsSpace(s[i])
  {
    if s != [] && IsSpace(s[0]) then LStrip(s[1..]) else s
  }

  function RStrip(s: string): (r: string)
    ensures |r| <= |s| && r == s[..|r|]
    ensures r != [] ==> !IsSpace(r[|r| - 1])
    ensures forall i :: |r| <= i < |s| ==> IsSpace(s[i])
  {
    if s != [] && IsSpace(s[|s| - 1]) then RStrip(s[..|s| - 1]) else s
  }

  /** Python's `s.strip()`. */
  function Strip(s: string): (r: string)
    ensures r != [] ==> !IsSpace(r[0]) && !IsSpace(r[|r| - 1])
    ensures (forall i :: 0 <= i < |s| ==> IsSpace(s[i])) <==> r == []
  {
    var l := LStrip(s);
    var r := RStrip(l);
    assert r == [] ==> l == [];
    r
  }

  // ---------------------------------------------------------------- lines

  /** The line boundaries of Python's `str.splitlines()`. */
  predicate IsLineBreak(c: char)
  {
    c == '\n' || c == '\r' || c == '\U{0B}' || c == '\U{0C}' || c == '\U{1C}' || c == '\U{1D}'
    || c == '\U{1E}' || c == '\U{85}' || c == '\U{2028}' || c == '\U{2029}'
  }

  function LineEnd(s: string): (i: nat)
    ensures i <= |s|
    ensures forall j :: 0 <= j < i ==> !IsLineBreak(s[j])
    ensures i < |s| ==> IsLineBreak(s[i])
  {
    if s == [] || IsLineBreak(s[0]) then 0 else 1 + LineEnd(s[1..])
  }

  /** Python's `s.splitlines()`: the lines without their terminators, a `\r\n` pair
      ending one line, and no empty line after a final terminator. */
  function SplitLines(s: string): (lines: seq<string>)
    ensures forall l, j :: l in lines && 0 <= j < |l| ==> !IsLineBreak(l[j])
    ensures s == [] <==> lines == []
    decreases |s|
  {
    if s == [] then []
    else
      var i := LineEnd(s);
      if i == |s| then [s]
      else
        var skip := if s[i] == '\r' && i + 1 < |s| && s[i + 1] == '\n' then 2 else 1;
        [s[..i]] + SplitLines(s[i + skip..])
  }

  /** Python's `sep.join(parts)`. */
  function JoinWith(sep: string, parts: seq<string>): (r: string)
    ensures parts == [] ==> r == []
    ensures |parts| == 1 ==> r == parts[0]
  {
    if parts == [] then [] else if |parts| == 1 then parts[0] else parts[0] + sep + JoinWith(sep, parts[1..])
  }

  // ---------------------------------------------------------------- case

  predicate IsUpper(c: char)
  {
    'A' <= c <= 'Z'
  }

  predicate IsLower(c: char)
  {
    'a' <= c <= 'z'
  }

  predicate IsLetter(c: char)
  {
    IsUpper(c) || IsLower(c)
  }

  function ToLower(c: char): (r: char)
    ensures IsLetter(c) ==> IsLower(r)
    ensures !IsUpper(c) ==> r == c
  {
    if IsUpper(c) then (c as int + 32) as char else c
  }

  function ToUpper(c: char): (r: char)
    ensures IsLetter(c) ==> IsUpper(r)
    ensures !IsLower(c) ==> r == c
  {
    if IsLower(c) then (c as int - 32) as char else c
  }

  /** Python's `s.lower()` on ASCII letters. */
  function Lower(s: string): (r: string)
    ensures |r| == |s| && forall i :: 0 <= i < |s| ==> r[i] == ToLower(s[i])
  {
    if s == [] then [] else [ToLower(s[0])] + Lower(s[1..])
  }

  /** How `str.title()` maps the character at `i`: a letter is upper-cased when the
      character before it is not a letter, lower-cased otherwise. */
  function TitleCharAt(s: string, i: nat, prevCased: bool): char
    requires i < |s|
  {
    var before := if i == 0 then prevCased else IsLetter(s[i - 1]);
    if !IsLetter(s[i]) then s[i] else if before then ToLower(s[i]) else ToUpper(s[i])
  }

  function TitleFrom(s: string, prevCased: bool): (r: string)
    ensures |r| == |s|
    ensures forall i :: 0 <= i < |s| ==> r[i] == TitleCharAt(s, i, prevCased)
  {
    if s == [] then []
    else
      var c := s[0];
      var m := if !IsLetter(c) then c else if prevCased then ToLower(c) else ToUpper(c);
      [m] + TitleFrom(s[1..], IsLetter(c))
  }

  /** Python's `s.title()` on ASCII letters. */
  function Title(s: string): (r: string)
    ensures |r| == |s|
  {
    TitleFrom(s, false)
  }

  /** Title-casing twice is title-casing once: letters stay letters, so every
      letter sees the same predecessor class the second time. */
  lemma TitleIdempotent(s: string)
    ensures Title(Title(s)) == Title(s)
  {
    var t := Title(s);
    forall i | 0 <= i < |s| ensures Title(t)[i] == t[i] {
      assert IsLetter(t[i]) <==> IsLetter(s[i]);
      if i > 0 {
        assert IsLetter(t[i - 1]) <==> IsLetter(s[i - 1]);
      }
    }
  }

  /** `c * n` for a one-character string: empty when `n` is not positive. */
  function Repeat(c: char, n: int): (r: string)
    ensures |r| == (if n > 0 then n else 0)
    ensures forall i :: 0 <= i < |r| ==> r[i] == c
    decreases n
  {
    if n <= 0 then [] else [c] + Repeat(c, n - 1)
  }
}
