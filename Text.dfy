/** ASCII string helpers shared by both tools: character classes, prefix and
    suffix tests, whitespace trimming and whitespace collapsing. Python's
    `str.isspace`, `str.lower` and `os.path.splitext` are modelled on their
    ASCII behaviour only. */
module Text {

  /** `str.isspace` restricted to ASCII: tab, line feed, vertical tab, form
      feed, carriage return, the four separator controls 0x1C-0x1F and space.
      This is also what the regular expression class `\s` matches in ASCII. */
  predicate IsSpace(c: char) {
    9 <= c as int <= 13 || 28 <= c as int <= 32
  }

  predicate IsUpper(c: char) { 'A' <= c <= 'Z' }

  predicate IsLowerLetter(c: char) { 'a' <= c <= 'z' }

  predicate IsDigit(c: char) { '0' <= c <= '9' }

  /** The regular expression word class `\w` restricted to ASCII. */
  predicate IsWordChar(c: char) {
    IsUpper(c) || IsLowerLetter(c) || IsDigit(c) || c == '_'
  }

  /** `str.lower` on one ASCII character. */
  function Lower(c: char): (r: char)
    ensures !IsUpper(r)
    ensures IsSpace(r) == IsSpace(c)
    ensures !IsUpper(c) ==> r == c
    ensures IsUpper(c) ==> IsLowerLetter(r)
  {
    if IsUpper(c) then (c as int + 32) as char else c
  }

  function LowerStr(s: string): string {
    seq(|s|, i requires 0 <= i < |s| => Lower(s[i]))
  }

  predicate StartsWith(s: string, p: string) {
    |p| <= |s| && s[..|p|] == p
  }

  predicate EndsWith(s: string, p: string) {
    |p| <= |s| && s[|s| - |p|..] == p
  }

  /** Python's `t in s` for strings. */
  predicate Contains(s: string, t: string)
    decreases |s|
  {
    StartsWith(s, t) || (s != [] && Contains(s[1..], t))
  }

  /** `s.endswith(tuple)`: some element of `ps` is a suffix of `s`. */
  predicate EndsWithAny(s: string, ps: seq<string>) {
    exists j :: 0 <= j < |ps| && EndsWith(s, ps[j])
  }

  /** Drops the leading whitespace (Python's `lstrip()`). */
  function TrimStart(s: string): (r: string)
    ensures |r| <= |s| && r == s[|s| - |r|..]
    ensures r == [] || !IsSpace(r[0])
  {
    if s != [] && IsSpace(s[0]) then TrimStart(s[1..]) else s
  }

  /** Drops the trailing whitespace (Python's `rstrip()`). */
  function TrimEnd(s: string): (r: string)
    ensures |r| <= |s| && r == s[..|r|]
    ensures r == [] || !IsSpace(r[|r| - 1])
  {
    if s != [] && IsSpace(s[|s| - 1]) then TrimEnd(s[..|s| - 1]) else s
  }

  /** Python's `strip()`. */
  function Strip(s: string): string {
    TrimEnd(TrimStart(s))
  }

  /** `re.sub(r'\s+', ' ', s)`: every maximal run of whitespace becomes a
      single space. */
  function Collapse(s: string): string
    decreases |s|
  {
    if s == [] then []
    else if IsSpace(s[0]) then [' '] + Collapse(TrimStart(s[1..]))
    else [s[0]] + Collapse(s[1..])
  }

  /** Replaces every character of `cs` in `s` by a space. */
  function SpaceOut(s: string, cs: set<char>): string {
    seq(|s|, i requires 0 <= i < |s| => if s[i] in cs then ' ' else s[i])
  }

  /** Every whitespace character of `s` is a plain space and no two are
      adjacent. */
  predicate SingleSpaced(s: string) {
    (forall i :: 0 <= i < |s| && IsSpace(s[i]) ==> s[i] == ' ') &&
    (forall i :: 0 <= i < |s| - 1 ==> !(IsSpace(s[i]) && IsSpace(s[i + 1])))
  }

  /** No whitespace at either end. */
  predicate Trimmed(s: string) {
    s == [] || (!IsSpace(s[0]) && !IsSpace(s[|s| - 1]))
  }

  /** The first character of a collapsed string: a blank run becomes one
      space, anything else is kept. */
  lemma CollapseFirst(s: string)
    ensures s == [] <==> Collapse(s) == []
    ensures s != [] && !IsSpace(s[0]) ==> Collapse(s)[0] == s[0]
    ensures s != [] && IsSpace(s[0]) ==> Collapse(s)[0] == ' '
  {
  }

  /** A property of every character of `s` holds for every character of a
      suffix of `s`. */
  lemma SuffixKeeps(s: string, t: string, p: char -> bool)
    requires |t| <= |s| && t == s[|s| - |t|..]
    requires forall i :: 0 <= i < |s| ==> p(s[i])
    ensures forall k :: 0 <= k < |t| ==> p(t[k])
  {
    forall k | 0 <= k < |t| ensures p(t[k]) {
      assert t[k] == s[|s| - |t| + k];
    }
  }

  /** Collapsing introduces no character other than a space: a property of
      characters that holds for the space and for every character of `s`
      holds for every character of the result. */
  lemma {:induction false} CollapseKeeps(s: string, p: char -> bool)
    requires p(' ')
    requires forall i :: 0 <= i < |s| ==> p(s[i])
    ensures forall i :: 0 <= i < |Collapse(s)| ==> p(Collapse(s)[i])
    decreases |s|
  {
    if s != [] {
      var t := if IsSpace(s[0]) then TrimStart(s[1..]) else s[1..];
      SuffixKeeps(s, t, p);
      CollapseKeeps(t, p);
      var x := if IsSpace(s[0]) then ' ' else s[0];
      assert Collapse(s) == [x] + Collapse(t);
    }
  }

  lemma {:induction false} CollapseSingleSpaced(s: string)
    ensures SingleSpaced(Collapse(s))
    decreases |s|
  {
    if s == [] {
    } else if IsSpace(s[0]) {
      var t := TrimStart(s[1..]);
      CollapseSingleSpaced(t);
      CollapseFirst(t);
      var c := Collapse(t);
      assert Collapse(s) == [' '] + c;
    } else {
      var t := s[1..];
      CollapseSingleSpaced(t);
      CollapseFirst(t);
      var c := Collapse(t);
      assert Collapse(s) == [s[0]] + c;
    }
  }

  /** Collapsing keeps a non-blank last character last. */
  lemma {:induction false} CollapseLast(s: string)
    requires s != [] && !IsSpace(s[|s| - 1])
    ensures Collapse(s) != [] && Collapse(s)[|Collapse(s)| - 1] == s[|s| - 1]
    decreases |s|
  {
    if |s| == 1 {
      assert Collapse(s) == [s[0]] + Collapse([]);
    } else if IsSpace(s[0]) {
      var t := TrimStart(s[1..]);
      TrimKeepsLast(s[1..]);
      CollapseLast(t);
      assert Collapse(s) == [' '] + Collapse(t);
    } else {
      CollapseLast(s[1..]);
      assert Collapse(s) == [s[0]] + Collapse(s[1..]);
    }
  }

  /** Trimming the front of a string that ends in a non-space keeps that
      last character. */
  lemma TrimKeepsLast(u: string)
    requires u != [] && !IsSpace(u[|u| - 1])
    ensures TrimStart(u) != [] && TrimStart(u)[|TrimStart(u)| - 1] == u[|u| - 1]
  {
    var t := TrimStart(u);
    assert t == u[|u| - |t|..];
    if t == [] { TrimAllSpaces(u); }
  }

  /** `TrimStart` only returns the empty string for an all-blank input. */
  lemma {:induction false} TrimAllSpaces(s: string)
    requires TrimStart(s) == []
    ensures forall i :: 0 <= i < |s| ==> IsSpace(s[i])
    decreases |s|
  {
    if s != [] {
      assert IsSpace(s[0]) && TrimStart(s) == TrimStart(s[1..]);
      TrimAllSpaces(s[1..]);
      forall i | 1 <= i < |s| ensures IsSpace(s[i]) {
        assert s[i] == s[1..][i - 1];
      }
    }
  }

  /** Collapsing is the identity on a single-spaced string. */
  lemma {:induction false} CollapseFixed(s: string)
    requires SingleSpaced(s)
    ensures Collapse(s) == s
    decreases |s|
  {
    if s != [] {
      SingleSpacedTail(s);
      CollapseFixed(s[1..]);
      if IsSpace(s[0]) {
        assert s[1..] == [] || !IsSpace(s[1..][0]);
        assert TrimStart(s[1..]) == s[1..];
        assert Collapse(s) == [' '] + s[1..];
      } else {
        assert Collapse(s) == [s[0]] + s[1..];
      }
      assert s == [s[0]] + s[1..];
    }
  }

  lemma SingleSpacedTail(s: string)
    requires s != [] && SingleSpaced(s)
    ensures SingleSpaced(s[1..])
  {
    var t := s[1..];
    forall i | 0 <= i < |t| && IsSpace(t[i]) ensures t[i] == ' ' {
      assert t[i] == s[i + 1];
    }
    forall i | 0 <= i < |t| - 1 ensures !(IsSpace(t[i]) && IsSpace(t[i + 1])) {
      assert t[i] == s[i + 1] && t[i + 1] == s[i + 2];
    }
  }

  /** Stripping is the identity on a trimmed string. */
  lemma StripFixed(s: string)
    requires Trimmed(s)
    ensures Strip(s) == s
  {
  }

  /** Lower-casing is the identity on a string without upper-case letters. */
  lemma LowerFixed(s: string)
    requires forall i :: 0 <= i < |s| ==> !IsUpper(s[i])
    ensures LowerStr(s) == s
  {
    assert forall i :: 0 <= i < |s| ==> LowerStr(s)[i] == s[i];
  }

  /** Spacing out is the identity on a string without those characters. */
  lemma SpaceOutFixed(s: string, cs: set<char>)
    requires forall i :: 0 <= i < |s| ==> s[i] !in cs
    ensures SpaceOut(s, cs) == s
  {
    assert forall i :: 0 <= i < |s| ==> SpaceOut(s, cs)[i] == s[i];
  }

  /** Lower-casing commutes with stripping, since it keeps blanks blank. */
  lemma {:induction false} LowerTrimStart(s: string)
    ensures LowerStr(TrimStart(s)) == TrimStart(LowerStr(s))
    decreases |s|
  {
    if s != [] && IsSpace(s[0]) {
      assert LowerStr(s)[1..] == LowerStr(s[1..]);
      LowerTrimStart(s[1..]);
    }
  }

  lemma {:induction false} LowerTrimEnd(s: string)
    ensures LowerStr(TrimEnd(s)) == TrimEnd(LowerStr(s))
    decreases |s|
  {
    if s != [] && IsSpace(s[|s| - 1]) {
      assert LowerStr(s)[..|s| - 1] == LowerStr(s[..|s| - 1]);
      LowerTrimEnd(s[..|s| - 1]);
    }
  }

  lemma LowerStrip(s: string)
    ensures LowerStr(Strip(s)) == Strip(LowerStr(s))
  {
    LowerTrimStart(s);
    LowerTrimEnd(TrimStart(s));
  }

  /** A property of every character of `s` holds for every character of
      `Strip(s)`. */
  lemma StripKeeps(s: string, p: char -> bool)
    requires forall i :: 0 <= i < |s| ==> p(s[i])
    ensures forall i :: 0 <= i < |Strip(s)| ==> p(Strip(s)[i])
  {
    var a := TrimStart(s);
    SuffixKeeps(s, a, p);
    var r := TrimEnd(a);
    forall i | 0 <= i < |r| ensures p(r[i]) {
      assert r[i] == a[i];
    }
  }

  /** Stripping leaves no blank at either end and keeps a single-spaced
      string single-spaced. */
  lemma StripSingleSpaced(s: string)
    ensures Trimmed(Strip(s))
    ensures SingleSpaced(s) ==> SingleSpaced(Strip(s))
  {
    var a := TrimStart(s);
    var r := TrimEnd(a);
    if r != [] {
      assert r[0] == a[0];
    }
    if SingleSpaced(s) {
      var off := |s| - |a|;
      forall i | 0 <= i < |r| ensures r[i] == s[off + i] {
        assert r[i] == a[i];
      }
    }
  }

  // ---------------------------------------------------------------------
  // os.path.splitext (POSIX flavour: the only separator is '/')

  /** The first `c` at or after `k`, or `|s|`. */
  function IndexFrom(s: string, k: nat, c: char): (r: nat)
    requires k <= |s|
    ensures k <= r <= |s|
    ensures forall m :: k <= m < r ==> s[m] != c
    ensures r == |s| || s[r] == c
    decreases |s| - k
  {
    if k < |s| && s[k] != c then IndexFrom(s, k + 1, c) else k
  }

  /** The index of the last `c` in `s`, or -1. */
  function LastIndexOf(s: string, c: char): (r: int)
    ensures -1 <= r < |s|
    ensures r >= 0 ==> s[r] == c
    ensures forall k :: r < k < |s| ==> s[k] != c
  {
    if s == [] then -1
    else if s[|s| - 1] == c then |s| - 1
    else LastIndexOf(s[..|s| - 1], c)
  }

  /** Some character of `s[lo..hi]` is not a dot. */
  predicate HasNonDot(s: string, lo: int, hi: int)
    requires 0 <= lo <= hi <= |s|
  {
    exists k :: lo <= k < hi && s[k] != '.'
  }

  /** `os.path.splitext`: the extension starts at the last dot of the last
      path component, unless everything before that dot in the component is
      dots too (".profile" has no extension). */
  function SplitExt(p: string): (r: (string, string))
    ensures r.0 + r.1 == p
    ensures r.1 == [] || (r.1[0] == '.' && '.' !in r.1[1..] && '/' !in r.1)
  {
    var sepIndex := LastIndexOf(p, '/');
    var dotIndex := LastIndexOf(p, '.');
    if dotIndex > sepIndex && HasNonDot(p, sepIndex + 1, dotIndex) then
      assert p[..dotIndex] + p[dotIndex..] == p;
      (p[..dotIndex], p[dotIndex..])
    else
      (p, "")
  }

  /** The file name part of a POSIX path (`os.path.basename`). */
  function Basename(p: string): (r: string)
    ensures forall k :: 0 <= k < |r| ==> r[k] != '/'
    ensures EndsWith(p, r)
  {
    var i := LastIndexOf(p, '/');
    p[i + 1..]
  }

  /** Appending characters other than `c` leaves the last `c` where it is. */
  lemma {:induction false} LastIndexOfAppend(s: string, u: string, c: char)
    requires forall k :: 0 <= k < |u| ==> u[k] != c
    ensures LastIndexOf(s + u, c) == LastIndexOf(s, c)
    decreases |u|
  {
    if u != [] {
      var v := u[..|u| - 1];
      assert (s + u)[..|s + u| - 1] == s + v;
      assert (s + u)[|s + u| - 1] == u[|u| - 1];
      assert forall k :: 0 <= k < |v| ==> v[k] == u[k];
      LastIndexOfAppend(s, v, c);
      assert LastIndexOf(s + u, c) == LastIndexOf(s + v, c);
    } else {
      assert s + u == s;
    }
  }

  /** `splitext(t + e)` is `(t, e)` for an extension `e` (a dot, then no dot
      and no slash) after a last component of `t` that is not all dots. */
  lemma SplitExtAppend(t: string, e: string)
    requires e != [] && e[0] == '.' && (forall k :: 1 <= k < |e| ==> e[k] != '.') && (forall k :: 0 <= k < |e| ==> e[k] != '/')
    requires HasNonDot(t, LastIndexOf(t, '/') + 1, |t|)
    ensures SplitExt(t + e) == (t, e)
  {
    var s := t + e;
    LastIndexOfAppend(t, e, '/');
    LastDot(t, e);
    var sep := LastIndexOf(t, '/');
    assert HasNonDot(s, sep + 1, |t|) by {
      var k :| sep + 1 <= k < |t| && t[k] != '.';
      assert s[k] == t[k];
    }
    assert s[..|t|] == t && s[|t|..] == e;
  }

  lemma LastDot(t: string, e: string)
    requires e != [] && e[0] == '.' && (forall k :: 1 <= k < |e| ==> e[k] != '.')
    ensures LastIndexOf(t + e, '.') == |t|
  {
    var d := t + [e[0]];
    var u := e[1..];
    assert t + e == d + u;
    assert forall k :: 0 <= k < |u| ==> u[k] == e[k + 1];
    LastIndexOfAppend(d, u, '.');
  }
}
