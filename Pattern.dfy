/** The episode pattern `(?i)S(\d+)E(\d+)` of the TV library consolidator,
    searched for the way `re.search` does: the leftmost position at which the
    pattern matches, with both digit runs taken greedily. */
module Pattern {
  import opened Text
  import opened Optional

  /** A match: where it starts, the two numbers and `match.end()`. */
  datatype EpMatch = EpMatch(start: nat, season: nat, episode: nat, end: nat)

  /** The length of the run of ASCII digits that starts at `i`. */
  function DigitRun(s: string, i: nat): (n: nat)
    requires i <= |s|
    ensures i + n <= |s|
    ensures forall k :: i <= k < i + n ==> IsDigit(s[k])
    ensures i + n == |s| || !IsDigit(s[i + n])
    decreases |s| - i
  {
    if i < |s| && IsDigit(s[i]) then 1 + DigitRun(s, i + 1) else 0
  }

  /** `int()` of a string of ASCII digits. */
  function DecimalValue(d: string): nat
    decreases |d|
  {
    if d == [] then 0
    else DecimalValue(d[..|d| - 1]) * 10 + (if IsDigit(d[|d| - 1]) then d[|d| - 1] as int - '0' as int else 0)
  }

  /** The pattern matches at `i`: an `S`, at least one digit, an `E`, at
      least one digit (letters in either case). Because a digit is never an
      `E`, backtracking inside the first digit run cannot help, so the
      greedy run decides. */
  predicate MatchesAt(s: string, i: nat) {
    i < |s| && (s[i] == 'S' || s[i] == 's') &&
    var d1 := DigitRun(s, i + 1);
    d1 >= 1 && i + 1 + d1 < |s| && (s[i + 1 + d1] == 'E' || s[i + 1 + d1] == 'e') &&
    DigitRun(s, i + 2 + d1) >= 1
  }

  /** The match at `i`: the numbers are the two greedy digit runs, and the
      match ends where the second run ends. */
  function MatchAt(s: string, i: nat): (m: EpMatch)
    requires MatchesAt(s, i)
    ensures m.start == i && i < m.end <= |s|
  {
    var d1 := DigitRun(s, i + 1);
    var d2 := DigitRun(s, i + 2 + d1);
    EpMatch(i, DecimalValue(s[i + 1..i + 1 + d1]), DecimalValue(s[i + 2 + d1..i + 2 + d1 + d2]), i + 2 + d1 + d2)
  }

  /** The leftmost match at or after `i`. */
  function SearchFrom(s: string, i: nat): (r: Option<EpMatch>)
    requires i <= |s|
    ensures r.Some? ==> i <= r.value.start && MatchesAt(s, r.value.start) && r.value == MatchAt(s, r.value.start)
    ensures r.Some? ==> forall j :: i <= j < r.value.start ==> !MatchesAt(s, j)
    ensures r.None? ==> forall j :: i <= j ==> !MatchesAt(s, j)
    decreases |s| - i
  {
    if i == |s| then None
    else if MatchesAt(s, i) then Some(MatchAt(s, i))
    else SearchFrom(s, i + 1)
  }

  /** A digit run that ends before `n` reads only the first `n`
      characters, so a string that agrees on them has the same run. */
  lemma {:induction false} DigitRunAgrees(s: string, t: string, i: nat, n: nat)
    requires n <= |s| && n <= |t| && s[..n] == t[..n]
    requires i <= |s| && i + DigitRun(s, i) < n
    ensures i <= |t| && DigitRun(t, i) == DigitRun(s, i)
    decreases |s| - i
  {
    assert s[i] == s[..n][i] && t[i] == t[..n][i];
    if IsDigit(s[i]) {
      DigitRunAgrees(s, t, i + 1, n);
    }
  }

  /** A string that starts with a name up to the end of the name's match
      matches at the same place, and so has a match. */
  lemma SearchKept(s: string, t: string)
    requires Search(s).Some?
    requires var e := Search(s).value.end; e <= |t| && t[..e] == s[..e]
    ensures MatchesAt(t, Search(s).value.start) && Search(t).Some?
  {
    var m := Search(s).value;
    var i, e := m.start, m.end;
    var d1 := DigitRun(s, i + 1);
    DigitRunAgrees(s, t, i + 1, e);
    assert t[i] == t[..e][i] && s[i] == s[..e][i];
    assert t[i + 1 + d1] == t[..e][i + 1 + d1] && s[i + 1 + d1] == s[..e][i + 1 + d1];
    assert t[i + 2 + d1] == t[..e][i + 2 + d1] && s[i + 2 + d1] == s[..e][i + 2 + d1];
  }

  /** `PATTERN.search(name)`. */
  function Search(name: string): (r: Option<EpMatch>)
    ensures r.Some? ==> MatchesAt(name, r.value.start) && r.value == MatchAt(name, r.value.start)
    ensures r.Some? ==> forall j: nat :: j < r.value.start ==> !MatchesAt(name, j)
    ensures r.Some? ==> r.value.end <= |name|
    ensures r.None? ==> forall j: nat :: !MatchesAt(name, j)
  {
    SearchFrom(name, 0)
  }
}
