/** Python's ordering of `str` values (lexicographic by code point, a
    proper prefix first) and `sorted` applied to a set of distinct keys. */
module Lex {

  predicate LexLe(a: string, b: string)
    decreases |a|
  {
    a == [] || (b != [] && (a[0] < b[0] || (a[0] == b[0] && LexLe(a[1..], b[1..]))))
  }

  lemma {:induction false} LexTotal(a: string, b: string)
    ensures LexLe(a, b) || LexLe(b, a)
    decreases |a|
  {
    if a != [] && b != [] && a[0] == b[0] {
      LexTotal(a[1..], b[1..]);
    }
  }

  lemma {:induction false} LexAntisymmetric(a: string, b: string)
    requires LexLe(a, b) && LexLe(b, a)
    ensures a == b
    decreases |a|
  {
    if a != [] {
      LexAntisymmetric(a[1..], b[1..]);
      assert a == [a[0]] + a[1..] && b == [b[0]] + b[1..];
    }
  }

  lemma {:induction false} LexTransitive(a: string, b: string, c: string)
    requires LexLe(a, b) && LexLe(b, c)
    ensures LexLe(a, c)
    decreases |a|
  {
    if a != [] && a[0] == b[0] && b[0] == c[0] {
      LexTransitive(a[1..], b[1..], c[1..]);
    }
  }

  /** `m` is the smallest element of `ks`. */
  predicate IsLeast(m: string, ks: set<string>) {
    m in ks && forall k :: k in ks ==> LexLe(m, k)
  }

  lemma {:induction false} LeastExists(ks: set<string>)
    requires ks != {}
    ensures exists m :: IsLeast(m, ks)
    decreases |ks|
  {
    var x :| x in ks;
    var rest := ks - {x};
    if rest == {} {
      assert ks == {x};
      assert LexLe(x, x) by { LexTotal(x, x); }
      assert IsLeast(x, ks);
    } else {
      LeastExists(rest);
      var m :| IsLeast(m, rest);
      LexTotal(m, x);
      if LexLe(m, x) {
        assert IsLeast(m, ks);
      } else {
        forall k | k in ks ensures LexLe(x, k) {
          if k == x {
            LexTotal(x, x);
          } else {
            LexTransitive(x, m, k);
          }
        }
        assert IsLeast(x, ks);
      }
    }
  }

  /** A set has at most one smallest element. */
  lemma LeastUnique(ks: set<string>)
    ensures forall m1, m2 :: IsLeast(m1, ks) && IsLeast(m2, ks) ==> m1 == m2
  {
    forall m1, m2 | IsLeast(m1, ks) && IsLeast(m2, ks) ensures m1 == m2 {
      LexAntisymmetric(m1, m2);
    }
  }

  /** `sorted(ks)`: the keys in strictly ascending order, each once. */
  function SortedKeys(ks: set<string>): (r: seq<string>)
    ensures |r| == |ks|
    ensures forall k :: k in r <==> k in ks
    ensures forall i, j :: 0 <= i < j < |r| ==> LexLe(r[i], r[j]) && r[i] != r[j]
    decreases |ks|
  {
    if ks == {} then []
    else
      LeastExists(ks);
      LeastUnique(ks);
      var m :| IsLeast(m, ks);
      var rest := SortedKeys(ks - {m});
      assert forall i :: 0 <= i < |rest| ==> rest[i] in ks - {m};
      ConsAscending(m, ks, rest);
      [m] + rest
  }

  /** The least key in front of the others in ascending order keeps the
      order strict. */
  lemma ConsAscending(m: string, ks: set<string>, rest: seq<string>)
    requires IsLeast(m, ks)
    requires forall i :: 0 <= i < |rest| ==> rest[i] in ks - {m}
    requires forall i, j :: 0 <= i < j < |rest| ==> LexLe(rest[i], rest[j]) && rest[i] != rest[j]
    ensures var r := [m] + rest;
      forall i, j :: 0 <= i < j < |r| ==> LexLe(r[i], r[j]) && r[i] != r[j]
  {
    var r := [m] + rest;
    forall i, j | 0 <= i < j < |r| ensures LexLe(r[i], r[j]) && r[i] != r[j] {
      if i == 0 {
        assert r[j] == rest[j - 1];
      } else {
        assert r[i] == rest[i - 1] && r[j] == rest[j - 1];
      }
    }
  }
}
