/** `sanitize_string` of the Radarr import tool: turns a release file or
    folder name into a title Radarr's parser can read. A video extension is
    dropped, everything from the first release tag to the end of its line is
    cut, brackets, dots and underscores become spaces, edition words are
    removed and the blanks are collapsed and stripped. The two regular
    expressions are modelled by the way `re.sub` scans: the leftmost match,
    then the search goes on where that match ended. */
module Sanitize {
  import opened Text
  import opened Media

  /** The alternatives of the release-tag group, in their order. */
  const RELEASE_TAGS: seq<string> :=
    ["1080p", "720p", "2160p", "4k", "bluray", "web-dl", "webrip", "h264", "x264", "h265", "x265",
     "hevc", "remux", "hdr", "aac", "dts", "ac3", "dd5.1", "atmos", "truehd"]

  /** The alternatives of the edition-word group, in their order. */
  const EDITION_WORDS: seq<string> := ["complete", "collection", "extended", "cut", "edition"]

  /** The characters replaced by a space after the tags are cut. */
  const SEPARATORS: set<char> := {'(', ')', '[', ']', '.', '_'}

  /** The tag lead-in class `[\.\s\-\(\[]`. */
  predicate IsTagSep(c: char) {
    c == '.' || IsSpace(c) || c == '-' || c == '(' || c == '['
  }

  /** `w` (lower case) occurs at `j` when letter case is ignored. */
  predicate MatchesCI(s: string, j: nat, w: string) {
    j + |w| <= |s| && LowerStr(s[j..j + |w|]) == w
  }

  /** The end of the run of tag lead-in characters that starts at `k`. */
  function RunEnd(s: string, k: nat): (r: nat)
    requires k <= |s|
    ensures k <= r <= |s|
    ensures forall m :: k <= m < r ==> IsTagSep(s[m])
    ensures r == |s| || !IsTagSep(s[r])
    decreases |s| - k
  {
    if k < |s| && IsTagSep(s[k]) then RunEnd(s, k + 1) else k
  }

  predicate TagAt(s: string, j: nat) {
    exists t :: 0 <= t < |RELEASE_TAGS| && MatchesCI(s, j, RELEASE_TAGS[t])
  }

  /** The tag pattern matches at `k`. Every tag starts with a letter or a
      digit, so the greedy lead-in run cannot give back a character to the
      tag: the tag has to start where the run ends. */
  predicate TagMatchAt(s: string, k: nat)
    requires k <= |s|
  {
    k < |s| && IsTagSep(s[k]) && TagAt(s, RunEnd(s, k))
  }

  /** The end of the match at `k`. No tag holds a line break, so the `.*`
      after the tag runs to the end of the line the tag is on. */
  function TagMatchEnd(s: string, k: nat): (e: nat)
    requires k <= |s| && TagMatchAt(s, k)
    ensures k < e <= |s|
  {
    IndexFrom(s, RunEnd(s, k), '\n')
  }

  /** `re.sub(tag_pattern, '', s[p..])` with the search starting at `p`. */
  function StripTagsFrom(s: string, p: nat): string
    requires p <= |s|
    decreases |s| - p
  {
    if p == |s| then []
    else if TagMatchAt(s, p) then StripTagsFrom(s, TagMatchEnd(s, p))
    else [s[p]] + StripTagsFrom(s, p + 1)
  }

  function StripTags(s: string): string {
    StripTagsFrom(s, 0)
  }

  /** `\b` at `q`: exactly one side is a word character. */
  predicate Boundary(s: string, q: nat)
    requires q <= |s|
  {
    (q > 0 && IsWordChar(s[q - 1])) != (q < |s| && IsWordChar(s[q]))
  }

  /** The length of the word `\b(...)\b` matches at `p` for the
      alternatives `words`, 0 for none: the alternatives are tried in
      order. */
  function WordAt(s: string, p: nat, words: seq<string>): (n: nat)
    requires p <= |s|
    ensures n > 0 ==> p + n <= |s|
    decreases |words|
  {
    if words == [] then 0
    else if MatchesCI(s, p, words[0]) && Boundary(s, p) && Boundary(s, p + |words[0]|) then |words[0]|
    else WordAt(s, p, words[1..])
  }

  /** `re.sub(r'(?i)\b(' + '|'.join(words) + r')\b', '', s)` from position
      `p`. The word boundary looks at the character before `p`, so the scan
      keeps the whole string. */
  function DropWordsFrom(s: string, p: nat, words: seq<string>): string
    requires p <= |s|
    decreases |s| - p
  {
    if p == |s| then []
    else
      var n := WordAt(s, p, words);
      if n > 0 then DropWordsFrom(s, p + n, words) else [s[p]] + DropWordsFrom(s, p + 1, words)
  }

  /** Everything after the extension step. */
  function CleanTitle(t: string): string {
    Strip(Collapse(DropWordsFrom(SpaceOut(StripTags(t), SEPARATORS), 0, EDITION_WORDS)))
  }

  /** `sanitize_string(text)`. */
  function SanitizeString(text: string): string {
    var parts := SplitExt(text);
    CleanTitle(if LowerStr(parts.1) in VIDEO_EXTS then parts.0 else text)
  }

  // ---------------------------------------------------------------------
  // Properties

  /** The two cutting passes only delete characters. */
  lemma {:induction false} StripTagsKeeps(s: string, p: nat, pr: char -> bool)
    requires p <= |s|
    requires forall i :: 0 <= i < |s| ==> pr(s[i])
    ensures forall i :: 0 <= i < |StripTagsFrom(s, p)| ==> pr(StripTagsFrom(s, p)[i])
    decreases |s| - p
  {
    if p < |s| {
      if TagMatchAt(s, p) {
        StripTagsKeeps(s, TagMatchEnd(s, p), pr);
      } else {
        StripTagsKeeps(s, p + 1, pr);
        assert StripTagsFrom(s, p) == [s[p]] + StripTagsFrom(s, p + 1);
      }
    }
  }

  lemma {:induction false} DropWordsKeeps(s: string, p: nat, words: seq<string>, pr: char -> bool)
    requires p <= |s|
    requires forall i :: 0 <= i < |s| ==> pr(s[i])
    ensures forall i :: 0 <= i < |DropWordsFrom(s, p, words)| ==> pr(DropWordsFrom(s, p, words)[i])
    decreases |s| - p
  {
    if p < |s| {
      var n := WordAt(s, p, words);
      if n > 0 {
        DropWordsKeeps(s, p + n, words, pr);
      } else {
        DropWordsKeeps(s, p + 1, words, pr);
        assert DropWordsFrom(s, p, words) == [s[p]] + DropWordsFrom(s, p + 1, words);
      }
    }
  }

  /** A sanitised title holds no dot, underscore, parenthesis or square
      bracket, has no blank at either end and no run of blanks, and every
      blank in it is a plain space. */
  lemma SanitizeShape(text: string)
    ensures var r := SanitizeString(text);
      (forall i :: 0 <= i < |r| ==> r[i] !in SEPARATORS) && Trimmed(r) && SingleSpaced(r)
  {
    var parts := SplitExt(text);
    var t0 := if LowerStr(parts.1) in VIDEO_EXTS then parts.0 else text;
    var t2 := SpaceOut(StripTags(t0), SEPARATORS);
    var t3 := DropWordsFrom(t2, 0, EDITION_WORDS);
    var pr := (x: char) => x !in SEPARATORS;
    assert forall i :: 0 <= i < |t2| ==> pr(t2[i]);
    DropWordsKeeps(t2, 0, EDITION_WORDS, pr);
    CollapseKeeps(t3, pr);
    StripKeeps(Collapse(t3), pr);
    CollapseSingleSpaced(t3);
    StripSingleSpaced(Collapse(t3));
  }

  /** A name without a line break loses everything from its first release
      tag on. */
  lemma CutAtFirstTag(s: string, i: nat)
    requires forall k :: 0 <= k < |s| ==> s[k] != '\n'
    requires i <= |s| && TagMatchAt(s, i)
    requires forall k :: 0 <= k < i ==> !TagMatchAt(s, k)
    ensures StripTags(s) == s[..i]
  {
    CutBefore(s, 0, i);
  }

  lemma {:induction false} CutBefore(s: string, p: nat, i: nat)
    requires forall k :: 0 <= k < |s| ==> s[k] != '\n'
    requires p <= i <= |s| && TagMatchAt(s, i)
    requires forall k :: p <= k < i ==> !TagMatchAt(s, k)
    ensures StripTagsFrom(s, p) == s[p..i]
    decreases i - p
  {
    if p == i {
    } else {
      CutBefore(s, p + 1, i);
      assert s[p..i] == [s[p]] + s[p + 1..i];
    }
  }

  /** A name in which the tag pattern matches nowhere keeps all of its
      characters. */
  lemma {:induction false} NoTagUnchanged(s: string, p: nat)
    requires p <= |s|
    requires forall k :: p <= k < |s| ==> !TagMatchAt(s, k)
    ensures StripTagsFrom(s, p) == s[p..]
    decreases |s| - p
  {
    if p < |s| {
      NoTagUnchanged(s, p + 1);
      assert s[p..] == [s[p]] + s[p + 1..];
    }
  }

  /** The shape of every video extension: a dot, then characters that are
      neither dots nor slashes. Lower-casing maps no other character to a dot
      or a slash, so the same holds in any letter case. */
  lemma VideoExtShape(e: string)
    requires LowerStr(e) in VIDEO_EXTS
    ensures e != [] && e[0] == '.' && (forall k :: 1 <= k < |e| ==> e[k] != '.') && (forall k :: 0 <= k < |e| ==> e[k] != '/')
  {
    var le := LowerStr(e);
    assert le != [] && le[0] == '.' && (forall k :: 1 <= k < |le| ==> le[k] != '.') && (forall k :: 0 <= k < |le| ==> le[k] != '/');
    forall k | 0 <= k < |e| ensures (e[k] == '.' <==> le[k] == '.') && (e[k] == '/' <==> le[k] == '/') {
      assert le[k] == Lower(e[k]);
    }
  }

  /** A trailing video extension goes first: a title followed by one of the
      video extensions, in any letter case, sanitises to the title's clean
      form (when the last path component of the title has a character other
      than a dot, as `splitext` needs to see an extension). */
  lemma VideoExtDropped(t: string, e: string)
    requires LowerStr(e) in VIDEO_EXTS
    requires HasNonDot(t, LastIndexOf(t, '/') + 1, |t|)
    ensures SanitizeString(t + e) == CleanTitle(t)
  {
    VideoExtSplits(t, e);
    SanitizeVideo(t, e);
  }

  lemma VideoExtSplits(t: string, e: string)
    requires LowerStr(e) in VIDEO_EXTS
    requires HasNonDot(t, LastIndexOf(t, '/') + 1, |t|)
    ensures SplitExt(t + e) == (t, e)
  {
    VideoExtShape(e);
    SplitExtAppend(t, e);
  }

  lemma SanitizeVideo(t: string, e: string)
    requires LowerStr(e) in VIDEO_EXTS
    requires SplitExt(t + e) == (t, e)
    ensures SanitizeString(t + e) == CleanTitle(t)
  {
  }
}
