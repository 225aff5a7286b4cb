/** Series-name normalisation of the TV library consolidator: the grouping
    key under which folders on different roots are recognised as the same
    show. */
module Names {
  import opened Text

  /** `normalize_name`: dots and underscores become spaces, the result is
      stripped and lower-cased, then every whitespace run becomes one space. */
  function NormalizeName(name: string): string {
    Collapse(LowerStr(Strip(SpaceOut(name, {'.', '_'}))))
  }

  /** The shape of a grouping key. */
  predicate IsNormalKey(s: string) {
    Clean(s) && Trimmed(s) && SingleSpaced(s)
  }

  /** No dot, no underscore and no upper-case letter. */
  predicate Clean(s: string) {
    forall i :: 0 <= i < |s| ==> s[i] != '.' && s[i] != '_' && !IsUpper(s[i])
  }

  /** Before the final collapse the name is already clean and trimmed. */
  lemma StrippedLowerClean(name: string)
    ensures Clean(LowerStr(Strip(SpaceOut(name, {'.', '_'}))))
    ensures Trimmed(LowerStr(Strip(SpaceOut(name, {'.', '_'}))))
  {
    var a := SpaceOut(name, {'.', '_'});
    assert forall i :: 0 <= i < |a| ==> a[i] != '.' && a[i] != '_';
    StripKeeps(a, x => x != '.' && x != '_');
    LowerClean(Strip(a));
  }

  /** Lower-casing a string without dots and underscores makes it clean and
      keeps it trimmed. */
  lemma LowerClean(b: string)
    requires forall i :: 0 <= i < |b| ==> b[i] != '.' && b[i] != '_'
    requires Trimmed(b)
    ensures Clean(LowerStr(b)) && Trimmed(LowerStr(b))
  {
    var c := LowerStr(b);
    forall i | 0 <= i < |c| ensures c[i] != '.' && c[i] != '_' && !IsUpper(c[i]) {
      assert c[i] == Lower(b[i]);
    }
  }

  /** Collapsing keeps a clean, trimmed string clean and trimmed. */
  lemma CollapseClean(c: string)
    requires Clean(c) && Trimmed(c)
    ensures Clean(Collapse(c)) && Trimmed(Collapse(c))
  {
    CollapseKeeps(c, x => x != '.' && x != '_' && !IsUpper(x));
    if c != [] {
      CollapseFirst(c);
      CollapseLast(c);
    }
  }

  /** A normalised name has no dot, no underscore, no upper-case letter, no
      blank at either end and no run of two or more blanks. */
  lemma NormalizeNameIsNormal(name: string)
    ensures IsNormalKey(NormalizeName(name))
  {
    var c := LowerStr(Strip(SpaceOut(name, {'.', '_'})));
    StrippedLowerClean(name);
    CollapseClean(c);
    CollapseSingleSpaced(c);
  }

  /** Normalising a key again changes nothing. */
  lemma NormalizeNameIdempotent(name: string)
    ensures NormalizeName(NormalizeName(name)) == NormalizeName(name)
  {
    var k := NormalizeName(name);
    NormalizeNameIsNormal(name);
    SpaceOutFixed(k, {'.', '_'});
    StripFixed(k);
    LowerFixed(k);
    CollapseFixed(k);
  }

  /** The character map the key is insensitive to: case, and `.`/`_` versus
      a space. */
  function Fold(c: char): char {
    if c == '.' || c == '_' then ' ' else Lower(c)
  }

  function FoldStr(s: string): string {
    seq(|s|, i requires 0 <= i < |s| => Fold(s[i]))
  }

  /** The key is a function of the folded name alone. */
  lemma NormalizeNameByFold(name: string)
    ensures NormalizeName(name) == Collapse(Strip(FoldStr(name)))
  {
    var a := SpaceOut(name, {'.', '_'});
    LowerStrip(a);
    assert |LowerStr(a)| == |FoldStr(name)|;
    forall i | 0 <= i < |a|
      ensures LowerStr(a)[i] == FoldStr(name)[i]
    {
      assert a[i] == if name[i] == '.' || name[i] == '_' then ' ' else name[i];
    }
    assert LowerStr(a) == FoldStr(name);
  }

  /** Folder names that differ only by letter case or by `.`/`_` standing for
      a space fall into one series group. */
  lemma NormalizeNameInsensitive(a: string, b: string)
    requires |a| == |b|
    requires forall i :: 0 <= i < |a| ==> Fold(a[i]) == Fold(b[i])
    ensures NormalizeName(a) == NormalizeName(b)
  {
    NormalizeNameByFold(a);
    NormalizeNameByFold(b);
    assert FoldStr(a) == FoldStr(b);
  }
}
