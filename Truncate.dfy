/** `smart_truncate_path` of the Radarr import tool: shortens a path for a
    fixed-width column, keeping its first two components and its last one
    visible. The function as written and a corrected one are both here; they
    differ only in the filler put between the two ends. */
module Truncate {
  import opened Text

  /** Python's `s[:n]` for an `n` of either sign. */
  function PyPrefix(s: string, n: int): (r: string)
    ensures |r| <= |s| && r == s[..|r|]
    ensures 0 <= n ==> |r| == if n <= |s| then n else |s|
  {
    if 0 <= n then (if n <= |s| then s[..n] else s)
    else if -n <= |s| then s[..|s| + n]
    else []
  }

  predicate NoSlash(w: string) {
    forall k :: 0 <= k < |w| ==> w[k] != '/'
  }

  /** `s.lstrip("/")`. */
  function LStripSlash(s: string): (r: string)
  {
    if s != [] && s[0] == '/' then LStripSlash(s[1..]) else s
  }

  /** `s.rstrip("/")`. */
  function RStripSlash(s: string): (r: string)
  {
    if s != [] && s[|s| - 1] == '/' then RStripSlash(s[..|s| - 1]) else s
  }

  /** `s.strip("/")`. */
  function StripSlashes(s: string): string {
    RStripSlash(LStripSlash(s))
  }

  /** `"/".join(parts)`. */
  function JoinSlash(parts: seq<string>): string
    decreases |parts|
  {
    if parts == [] then []
    else if |parts| == 1 then parts[0]
    else parts[0] + "/" + JoinSlash(parts[1..])
  }

  /** `s.split("/")`: never empty, and the parts joined again give back `s`
      (`SplitNoSlash`: no part holds a slash). */
  function SplitSlash(s: string): (parts: seq<string>)
    ensures |parts| >= 1
    ensures JoinSlash(parts) == s
    decreases |s|
  {
    var k := IndexFrom(s, 0, '/');
    if k == |s| then
      assert s[..k] == s;
      [s]
    else
      var rest := SplitSlash(s[k + 1..]);
      var parts := [s[..k]] + rest;
      assert parts[1..] == rest;
      assert s == s[..k] + "/" + s[k + 1..];
      parts
  }

  /** `"/".join(parts[:2])` for at least two parts. */
  function HeadPart(parts: seq<string>): string
    requires |parts| >= 2
  {
    parts[0] + "/" + parts[1]
  }

  /** The display form: `path` itself when it fits, the first `maxLen - 3`
      characters and `...` when it has fewer than three components or its
      ends do not fit, and otherwise the first two components, `mid` and the
      last component. */
  function Shorten(path: string, maxLen: int, mid: string): (r: string)
    ensures |path| <= maxLen ==> r == path
  {
    if |path| <= maxLen then path
    else ShortenParts(path, maxLen, mid, SplitSlash(StripSlashes(path)))
  }

  /** `Shorten` of a path that does not fit, given its components. */
  function ShortenParts(path: string, maxLen: int, mid: string, parts: seq<string>): string {
    if |parts| < 3 then PyPrefix(path, maxLen - 3) + "..."
    else
      var head := "/" + HeadPart(parts);
      var tail := "/" + parts[|parts| - 1];
      if |head| + |tail| + 4 > maxLen then PyPrefix(path, maxLen - 3) + "..."
      else head + mid + tail
  }

  /** `smart_truncate_path(path, max_len)` as written: the filler is
      `"/.../"`, and `tail` begins with a slash of its own. */
  function SmartTruncatePath(path: string, maxLen: int): string {
    Shorten(path, maxLen, "/.../")
  }

  /** The evidently intended function: the length check reserves four
      characters, which is the filler `"/..."`. */
  function SmartTruncateFixed(path: string, maxLen: int): string {
    Shorten(path, maxLen, "/...")
  }

  // ---------------------------------------------------------------------
  // Properties

  /** No part of a split holds a slash. */
  lemma {:induction false} SplitNoSlash(s: string)
    ensures forall i :: 0 <= i < |SplitSlash(s)| ==> NoSlash(SplitSlash(s)[i])
    decreases |s|
  {
    var k := IndexFrom(s, 0, '/');
    if k < |s| {
      SplitNoSlash(s[k + 1..]);
      assert SplitSlash(s) == [s[..k]] + SplitSlash(s[k + 1..]);
    }
  }

  /** Splitting a join of slash-free parts gives the parts back. */
  lemma {:induction false} SplitJoin(parts: seq<string>)
    requires |parts| >= 1
    requires forall i :: 0 <= i < |parts| ==> NoSlash(parts[i])
    ensures SplitSlash(JoinSlash(parts)) == parts
    decreases |parts|
  {
    var s := JoinSlash(parts);
    var p0 := parts[0];
    if |parts| == 1 {
      assert IndexFrom(s, 0, '/') == |s| by { NoSlashRun(s, 0); }
    } else {
      var rest := parts[1..];
      var j := JoinSlash(rest);
      assert s == p0 + "/" + j;
      assert IndexFrom(s, 0, '/') == |p0| by {
        assert s[|p0|] == '/';
        assert forall m :: 0 <= m < |p0| ==> s[m] == p0[m];
        FirstSlash(s, |p0|);
      }
      assert s[..|p0|] == p0 && s[|p0| + 1..] == j;
      SplitJoin(rest);
      assert parts == [p0] + rest;
    }
  }

  lemma {:induction false} NoSlashRun(s: string, k: nat)
    requires k <= |s| && NoSlash(s)
    ensures IndexFrom(s, k, '/') == |s|
    decreases |s| - k
  {
    if k < |s| {
      NoSlashRun(s, k + 1);
    }
  }

  /** The first slash of `s` is at `i` when none comes before it. */
  lemma FirstSlash(s: string, i: nat)
    requires i < |s| && s[i] == '/'
    requires forall m :: 0 <= m < i ==> s[m] != '/'
    ensures IndexFrom(s, 0, '/') == i
  {
  }

  /** A join of three or more parts begins with the first two parts and a
      slash, and ends with a slash and the last part. */
  lemma {:induction false} JoinEnds(parts: seq<string>)
    requires |parts| >= 3
    ensures StartsWith(JoinSlash(parts), HeadPart(parts) + "/")
    ensures EndsWith(JoinSlash(parts), "/" + parts[|parts| - 1])
    decreases |parts|
  {
    var rest := parts[1..];
    assert JoinSlash(parts) == parts[0] + "/" + (parts[1] + "/" + JoinSlash(rest[1..]));
    LastOfJoin(rest);
    assert rest[|rest| - 1] == parts[|parts| - 1];
  }

  lemma {:induction false} LastOfJoin(parts: seq<string>)
    requires |parts| >= 2
    ensures EndsWith(JoinSlash(parts), "/" + parts[|parts| - 1])
    decreases |parts|
  {
    var rest := parts[1..];
    var j := JoinSlash(rest);
    var last := "/" + parts[|parts| - 1];
    assert JoinSlash(parts) == (parts[0] + "/") + j;
    if |parts| == 2 {
      assert j == parts[1];
      EndsWithAppend(parts[0], last);
    } else {
      LastOfJoin(rest);
      assert rest[|rest| - 1] == parts[|parts| - 1];
      EndsWithAppend(parts[0] + "/", j);
      EndsWithTrans(parts[0] + "/" + j, j, last);
    }
  }

  lemma EndsWithAppend(a: string, b: string)
    ensures EndsWith(a + b, b)
  {
    assert (a + b)[|a + b| - |b|..] == b;
  }

  lemma EndsWithTrans(a: string, b: string, c: string)
    requires EndsWith(a, b) && EndsWith(b, c)
    ensures EndsWith(a, c)
  {
    assert a[|a| - |c|..] == b[|b| - |c|..];
  }

  /** The fallback form keeps a prefix of the path and ends in `...`. */
  lemma FallbackShape(path: string, n: int)
    ensures var r := PyPrefix(path, n) + "...";
      EndsWith(r, "...") && StartsWith(path, r[..|r| - 3])
  {
    var p := PyPrefix(path, n);
    var r := p + "...";
    assert r[..|r| - 3] == p;
    EndsWithAppend(p, "...");
  }

  /** The two ends of a path of at least three components fit in `maxLen`
      (the test `len(head) + len(tail) + 4 > max_len` fails). */
  predicate EndsFit(parts: seq<string>, maxLen: int) {
    |parts| >= 3 && |"/" + HeadPart(parts)| + |"/" + parts[|parts| - 1]| + 4 <= maxLen
  }

  /** A path that does not fit shows the first two components of the path,
      `mid` and the last one when those fit, and otherwise keeps its
      beginning up to three characters short of `maxLen` and ends in `...`. */
  lemma ShortenKeepsEnds(path: string, maxLen: int, mid: string)
    requires |path| > maxLen
    ensures var parts := SplitSlash(StripSlashes(path));
      EndsFit(parts, maxLen) ==>
        Shorten(path, maxLen, mid) == ("/" + HeadPart(parts)) + mid + ("/" + parts[|parts| - 1]) &&
        StartsWith(StripSlashes(path), HeadPart(parts) + "/") && EndsWith(StripSlashes(path), "/" + parts[|parts| - 1])
    ensures var parts := SplitSlash(StripSlashes(path)); var r := Shorten(path, maxLen, mid);
      !EndsFit(parts, maxLen) ==>
        r == PyPrefix(path, maxLen - 3) + "..." && EndsWith(r, "...") && StartsWith(path, r[..|r| - 3]) &&
        (maxLen >= 3 ==> |r| == maxLen)
  {
    ShortenBothEnds(path, maxLen, mid);
    ShortenFallback(path, maxLen, mid);
  }

  lemma ShortenBothEnds(path: string, maxLen: int, mid: string)
    requires |path| > maxLen
    ensures var parts := SplitSlash(StripSlashes(path));
      EndsFit(parts, maxLen) ==>
        Shorten(path, maxLen, mid) == ("/" + HeadPart(parts)) + mid + ("/" + parts[|parts| - 1]) &&
        StartsWith(StripSlashes(path), HeadPart(parts) + "/") && EndsWith(StripSlashes(path), "/" + parts[|parts| - 1])
  {
    if EndsFit(SplitSlash(StripSlashes(path)), maxLen) {
      ShortenIsEnds(path, maxLen, mid);
      StrippedEnds(path);
    }
  }

  lemma ShortenIsEnds(path: string, maxLen: int, mid: string)
    requires |path| > maxLen && EndsFit(SplitSlash(StripSlashes(path)), maxLen)
    ensures var parts := SplitSlash(StripSlashes(path));
      Shorten(path, maxLen, mid) == ("/" + HeadPart(parts)) + mid + ("/" + parts[|parts| - 1])
  {
    ShortenIsParts(path, maxLen, mid);
    PartsBothEnds(path, maxLen, mid, SplitSlash(StripSlashes(path)));
  }

  lemma StrippedEnds(path: string)
    requires |SplitSlash(StripSlashes(path))| >= 3
    ensures var parts := SplitSlash(StripSlashes(path));
      StartsWith(StripSlashes(path), HeadPart(parts) + "/") && EndsWith(StripSlashes(path), "/" + parts[|parts| - 1])
  {
    var s := StripSlashes(path);
    SplitEnds(s, SplitSlash(s));
  }

  lemma ShortenFallback(path: string, maxLen: int, mid: string)
    requires |path| > maxLen
    ensures var parts := SplitSlash(StripSlashes(path)); var r := Shorten(path, maxLen, mid);
      !EndsFit(parts, maxLen) ==>
        r == PyPrefix(path, maxLen - 3) + "..." && EndsWith(r, "...") && StartsWith(path, r[..|r| - 3]) &&
        (maxLen >= 3 ==> |r| == maxLen)
  {
    var parts := SplitSlash(StripSlashes(path));
    if !EndsFit(parts, maxLen) {
      ShortenIsParts(path, maxLen, mid);
      PartsFallback(path, maxLen, mid, parts);
    }
  }

  lemma ShortenIsParts(path: string, maxLen: int, mid: string)
    requires |path| > maxLen
    ensures Shorten(path, maxLen, mid) == ShortenParts(path, maxLen, mid, SplitSlash(StripSlashes(path)))
  {
  }

  /** A string of at least three components starts with its first two and
      ends with its last. */
  lemma SplitEnds(s: string, parts: seq<string>)
    requires parts == SplitSlash(s) && |parts| >= 3
    ensures StartsWith(s, HeadPart(parts) + "/") && EndsWith(s, "/" + parts[|parts| - 1])
  {
    JoinEnds(parts);
  }

  lemma PartsBothEnds(path: string, maxLen: int, mid: string, parts: seq<string>)
    requires EndsFit(parts, maxLen)
    ensures ShortenParts(path, maxLen, mid, parts) == ("/" + HeadPart(parts)) + mid + ("/" + parts[|parts| - 1])
  {
  }

  lemma PartsFallback(path: string, maxLen: int, mid: string, parts: seq<string>)
    requires !EndsFit(parts, maxLen)
    requires |path| > maxLen
    ensures var r := ShortenParts(path, maxLen, mid, parts);
      r == PyPrefix(path, maxLen - 3) + "..." && EndsWith(r, "...") && StartsWith(path, r[..|r| - 3]) &&
      (maxLen >= 3 ==> |r| == maxLen)
  {
    FallbackShape(path, maxLen - 3);
  }

  /** The corrected function never exceeds `maxLen`, for any width of at
      least three. */
  lemma FixedFits(path: string, maxLen: int)
    requires maxLen >= 3
    ensures |SmartTruncateFixed(path, maxLen)| <= maxLen
  {
  }

  /** As written, the result can be one character longer than `maxLen`, and
      not more. */
  lemma AsWrittenBound(path: string, maxLen: int)
    requires maxLen >= 3
    ensures |SmartTruncatePath(path, maxLen)| <= maxLen + 1
  {
  }

  /** Whenever the two ends fit exactly, the result is `|mid| - 4`
      characters longer than `maxLen`: one character too long as written. */
  lemma EndsFitExactly(path: string, maxLen: int, mid: string)
    requires |path| > maxLen
    requires var parts := SplitSlash(StripSlashes(path));
      |parts| >= 3 && |parts[0]| + |parts[1]| + |parts[|parts| - 1]| + 7 == maxLen
    ensures |Shorten(path, maxLen, mid)| == maxLen - 4 + |mid|
  {
    ShortenIsParts(path, maxLen, mid);
    PartsFitExactly(path, maxLen, mid, SplitSlash(StripSlashes(path)));
  }

  /** `EndsFitExactly` on the components. */
  lemma PartsFitExactly(path: string, maxLen: int, mid: string, parts: seq<string>)
    requires |parts| >= 3 && |parts[0]| + |parts[1]| + |parts[|parts| - 1]| + 7 == maxLen
    ensures |ShortenParts(path, maxLen, mid, parts)| == maxLen - 4 + |mid|
  {
    assert |HeadPart(parts)| == |parts[0]| + |parts[1]| + 1;
  }

  /** `path.strip("/")` of a slash followed by a string that neither starts
      nor ends with a slash is that string. */
  lemma StripOneSlash(j: string)
    requires j != [] && j[0] != '/' && j[|j| - 1] != '/'
    ensures StripSlashes("/" + j) == j
  {
    assert ("/" + j)[1..] == j;
    assert LStripSlash("/" + j) == LStripSlash(j);
    assert LStripSlash(j) == j;
    assert RStripSlash(j) == j;
  }

  /** The four-part join, spelled out. */
  lemma JoinFour(a: string, b: string, c: string, d: string)
    ensures JoinSlash([a, b, c, d]) == a + "/" + b + "/" + c + "/" + d
  {
    assert [a, b, c, d][1..] == [b, c, d];
    assert [b, c, d][1..] == [c, d];
    assert [c, d][1..] == [d];
    assert JoinSlash([d]) == d;
    assert JoinSlash([c, d]) == c + "/" + d;
    assert JoinSlash([b, c, d]) == b + "/" + (c + "/" + d);
    assert JoinSlash([a, b, c, d]) == a + "/" + (b + "/" + (c + "/" + d));
  }

  /** A slash-led path of four slash-free components, the outer two not
      empty, splits into those components. */
  lemma SplitFour(a: string, b: string, c: string, d: string)
    requires a != [] && d != []
    requires NoSlash(a) && NoSlash(b) && NoSlash(c) && NoSlash(d)
    ensures SplitSlash(StripSlashes("/" + a + "/" + b + "/" + c + "/" + d)) == [a, b, c, d]
  {
    var j := a + "/" + b + "/" + c + "/" + d;
    assert "/" + a + "/" + b + "/" + c + "/" + d == "/" + j;
    FourEnds(a, b, c, d);
    StripOneSlash(j);
    JoinFour(a, b, c, d);
    FourNoSlash(a, b, c, d);
    SplitJoin([a, b, c, d]);
  }

  lemma FourEnds(a: string, b: string, c: string, d: string)
    requires a != [] && d != []
    ensures var j := a + "/" + b + "/" + c + "/" + d; j[0] == a[0] && j[|j| - 1] == d[|d| - 1]
  {
  }

  lemma FourNoSlash(a: string, b: string, c: string, d: string)
    requires NoSlash(a) && NoSlash(b) && NoSlash(c) && NoSlash(d)
    ensures forall i :: 0 <= i < 4 ==> NoSlash([a, b, c, d][i])
  {
    var parts := [a, b, c, d];
    forall i | 0 <= i < 4 ensures NoSlash(parts[i]) {
      if i == 0 {} else if i == 1 {} else if i == 2 {} else {}
    }
  }

  /** The inputs that show it: any path of four components whose third one
      is longer than three characters, shown in a width such that the two
      ends fit exactly, comes out one character too long. */
  lemma AsWrittenOverflow(a: string, b: string, c: string, d: string)
    requires a != [] && d != [] && |c| > 3
    requires NoSlash(a) && NoSlash(b) && NoSlash(c) && NoSlash(d)
    ensures var path := "/" + a + "/" + b + "/" + c + "/" + d;
      var maxLen := |a| + |b| + |d| + 7;
      |SmartTruncatePath(path, maxLen)| == maxLen + 1
  {
    SplitFour(a, b, c, d);
    EndsFitExactly("/" + a + "/" + b + "/" + c + "/" + d, |a| + |b| + |d| + 7, "/.../");
  }

  /** For instance `/aa/bb/cccccc/dd` in 13 columns takes 14. */
  lemma AsWrittenExample()
    ensures |SmartTruncatePath("/" + "aa" + "/" + "bb" + "/" + "cccccc" + "/" + "dd", 13)| == 14
  {
    AsWrittenOverflow("aa", "bb", "cccccc", "dd");
  }
}
