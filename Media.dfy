/** The name tests the Radarr import tool applies to files and folders: the
    video extensions, and the terms that mark samples, trailers, extras and
    Synology's `@eaDir` thumbnail folders as not being movies.

    As written, both uses of `IGNORE_TERMS` compare the term against a
    lower-cased name, so the one term with a capital letter, `@eaDir`, can
    never match. The rest of the model uses the tests as written; the
    corrected tests, which lower-case the terms too, are stated beside them. */
module Media {
  import opened Text

  const VIDEO_EXTS: seq<string> := [".mkv", ".mp4", ".avi", ".m4v", ".iso", ".ts"]

  const IGNORE_TERMS: seq<string> := ["sample", "trailer", "featurette", "extras", "@eaDir"]

  /** `lf.endswith(VIDEO_EXTS)` for a lower-cased name `lf`. */
  predicate IsVideoName(lf: string) {
    EndsWithAny(lf, VIDEO_EXTS)
  }

  /** A video file whose name holds no ignore term: what both the scan and
      the extras renaming take for a movie file. */
  predicate IsMovieFile(f: string) {
    var lf := LowerStr(f);
    IsVideoName(lf) && !MentionsTermAsWritten(lf)
  }

  /** `any(x in lf for x in IGNORE_TERMS)` as written. */
  predicate MentionsTermAsWritten(lf: string) {
    exists i :: 0 <= i < |IGNORE_TERMS| && Contains(lf, IGNORE_TERMS[i])
  }

  /** `d.lower() not in IGNORE_TERMS` fails: the folder is pruned, as written. */
  predicate PrunedAsWritten(d: string) {
    LowerStr(d) in IGNORE_TERMS
  }

  /** The corrected term test: the term is lower-cased as well. */
  predicate MentionsTerm(lf: string) {
    exists i :: 0 <= i < |IGNORE_TERMS| && Contains(lf, LowerStr(IGNORE_TERMS[i]))
  }

  /** The corrected pruning test. */
  predicate Pruned(d: string) {
    exists i :: 0 <= i < |IGNORE_TERMS| && LowerStr(d) == LowerStr(IGNORE_TERMS[i])
  }

  /** A lower-cased string holds no capital letter. */
  lemma LowerHasNoUpper(s: string)
    ensures forall k :: 0 <= k < |LowerStr(s)| ==> !IsUpper(LowerStr(s)[k])
  {
  }

  /** A string that contains a string with a capital letter has one itself. */
  lemma {:induction false} ContainsUpper(s: string, t: string, k: nat)
    requires k < |t| && IsUpper(t[k]) && Contains(s, t)
    ensures exists m :: 0 <= m < |s| && IsUpper(s[m])
    decreases |s|
  {
    if StartsWith(s, t) {
      assert s[k] == t[k];
    } else {
      ContainsUpper(s[1..], t, k);
      var m :| 0 <= m < |s[1..]| && IsUpper(s[1..][m]);
      assert s[m + 1] == s[1..][m];
    }
  }

  /** As written, `@eaDir` is never found in a lower-cased file name. */
  lemma EaDirNeverMentioned(name: string)
    ensures !Contains(LowerStr(name), "@eaDir")
  {
    if Contains(LowerStr(name), "@eaDir") {
      assert IsUpper("@eaDir"[3]);
      ContainsUpper(LowerStr(name), "@eaDir", 3);
      LowerHasNoUpper(name);
    }
  }

  /** As written, a folder named `@eaDir` is walked into, although the
      term list names it. */
  lemma EaDirNotPrunedAsWritten()
    ensures "@eaDir" in IGNORE_TERMS
    ensures !PrunedAsWritten("@eaDir")
  {
    assert LowerStr("@eaDir") == "@eadir";
  }

  /** The corrected test prunes `@eaDir` in any letter case, and prunes
      every folder the test as written prunes. */
  lemma PrunedFixed(d: string)
    ensures LowerStr(d) == "@eadir" ==> Pruned(d)
    ensures PrunedAsWritten(d) ==> Pruned(d)
  {
    assert LowerStr(IGNORE_TERMS[4]) == "@eadir";
    if PrunedAsWritten(d) {
      var i :| 0 <= i < |IGNORE_TERMS| && IGNORE_TERMS[i] == LowerStr(d);
      if i < 4 {
        LowerFixed(IGNORE_TERMS[i]);
      }
    }
  }

  /** On a lower-cased name the corrected term test finds every term the
      test as written finds, and it finds `@eaDir` in any letter case. */
  lemma MentionsFixed(name: string)
    ensures MentionsTermAsWritten(LowerStr(name)) ==> MentionsTerm(LowerStr(name))
    ensures Contains(LowerStr(name), "@eadir") ==> MentionsTerm(LowerStr(name))
  {
    var lf := LowerStr(name);
    assert LowerStr(IGNORE_TERMS[4]) == "@eadir";
    if MentionsTermAsWritten(lf) {
      var i :| 0 <= i < |IGNORE_TERMS| && Contains(lf, IGNORE_TERMS[i]);
      if i < 4 {
        LowerFixed(IGNORE_TERMS[i]);
      } else {
        EaDirNeverMentioned(name);
      }
    }
  }
}
