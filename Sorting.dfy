/** Python's `sorted(xs, key=k, reverse=True)` / `xs.sort(key=k, reverse=True)`:
    a stable sort into descending key order (elements with equal keys keep
    their relative order). */
module Sorting {

  predicate SortedDesc<T>(s: seq<T>, key: T -> int) {
    forall i, j :: 0 <= i < j < |s| ==> key(s[i]) >= key(s[j])
  }

  /** The elements of `s` whose key is `v`, in order. */
  function WithKey<T>(s: seq<T>, key: T -> int, v: int): seq<T> {
    if s == [] then [] else (if key(s[0]) == v then [s[0]] else []) + WithKey(s[1..], key, v)
  }

  /** Puts `x` in front of the first element whose key is not larger. */
  function Insert<T>(x: T, t: seq<T>, key: T -> int): seq<T> {
    if t == [] || key(x) >= key(t[0]) then [x] + t else [t[0]] + Insert(x, t[1..], key)
  }

  function SortDesc<T>(s: seq<T>, key: T -> int): seq<T> {
    if s == [] then [] else Insert(s[0], SortDesc(s[1..], key), key)
  }

  /** The index of the first element of largest key. */
  function FirstMax<T>(s: seq<T>, key: T -> int): (m: nat)
    requires s != []
    ensures m < |s|
    ensures forall j :: 0 <= j < |s| ==> key(s[j]) <= key(s[m])
    ensures forall j :: 0 <= j < m ==> key(s[j]) < key(s[m])
  {
    if |s| == 1 then 0
    else
      var m := FirstMax(s[1..], key) + 1;
      if key(s[0]) >= key(s[m]) then 0 else m
  }

  lemma {:induction false} InsertCount<T>(x: T, t: seq<T>, key: T -> int)
    ensures multiset(Insert(x, t, key)) == multiset(t) + multiset{x}
    ensures |Insert(x, t, key)| == |t| + 1
    decreases |t|
  {
    if !(t == [] || key(x) >= key(t[0])) {
      InsertCount(x, t[1..], key);
      assert t == [t[0]] + t[1..];
    }
  }

  lemma {:induction false} InsertSorted<T>(x: T, t: seq<T>, key: T -> int)
    requires SortedDesc(t, key)
    ensures SortedDesc(Insert(x, t, key), key)
    ensures Insert(x, t, key)[0] == if t != [] && key(x) < key(t[0]) then t[0] else x
    decreases |t|
  {
    InsertCount(x, t, key);
    if !(t == [] || key(x) >= key(t[0])) {
      var rest := Insert(x, t[1..], key);
      InsertSorted(x, t[1..], key);
      InsertCount(x, t[1..], key);
      var r := [t[0]] + rest;
      assert Insert(x, t, key) == r;
      forall i | 0 < i < |r|
        ensures key(r[0]) >= key(r[i])
      {
        assert r[i] == rest[i - 1];
        assert rest[i - 1] in multiset(rest);
        assert rest[i - 1] in multiset(t[1..]) + multiset{x};
        if rest[i - 1] != x {
          assert rest[i - 1] in t[1..];
        }
      }
    }
  }

  lemma {:induction false} InsertWithKey<T>(x: T, t: seq<T>, key: T -> int, v: int)
    ensures WithKey(Insert(x, t, key), key, v) == (if key(x) == v then [x] else []) + WithKey(t, key, v)
    decreases |t|
  {
    if t == [] || key(x) >= key(t[0]) {
      WithKeyCons(x, t, key, v);
    } else {
      var rest := Insert(x, t[1..], key);
      InsertWithKey(x, t[1..], key, v);
      WithKeyCons(t[0], rest, key, v);
      WithKeyCons(t[0], t[1..], key, v);
      assert [t[0]] + t[1..] == t;
      var w := WithKey(t[1..], key, v);
      if key(x) == v {
        assert key(t[0]) != v;
        assert WithKey(Insert(x, t, key), key, v) == [x] + w;
      } else if key(t[0]) == v {
        assert WithKey(Insert(x, t, key), key, v) == [t[0]] + w;
      } else {
        assert WithKey(Insert(x, t, key), key, v) == w;
      }
    }
  }

  lemma WithKeyCons<T>(a: T, s: seq<T>, key: T -> int, v: int)
    ensures WithKey([a] + s, key, v) == (if key(a) == v then [a] else []) + WithKey(s, key, v)
  {
    assert ([a] + s)[1..] == s;
  }

  /** The sort returns the input reordered into descending key order. */
  lemma {:induction false} SortDescCorrect<T>(s: seq<T>, key: T -> int)
    ensures SortedDesc(SortDesc(s, key), key)
    ensures multiset(SortDesc(s, key)) == multiset(s)
    ensures |SortDesc(s, key)| == |s|
    decreases |s|
  {
    if s != [] {
      SortDescCorrect(s[1..], key);
      InsertCount(s[0], SortDesc(s[1..], key), key);
      InsertSorted(s[0], SortDesc(s[1..], key), key);
      assert s == [s[0]] + s[1..];
    }
  }

  /** Stability: the elements that share a key come out in input order. */
  lemma {:induction false} SortDescStable<T>(s: seq<T>, key: T -> int, v: int)
    ensures WithKey(SortDesc(s, key), key, v) == WithKey(s, key, v)
    decreases |s|
  {
    if s != [] {
      SortDescStable(s[1..], key, v);
      InsertWithKey(s[0], SortDesc(s[1..], key), key, v);
    }
  }

  /** The head of the sorted list is the first element of largest key. */
  lemma {:induction false} SortDescHead<T>(s: seq<T>, key: T -> int)
    requires s != []
    ensures SortDesc(s, key) != [] && SortDesc(s, key)[0] == s[FirstMax(s, key)]
    decreases |s|
  {
    SortDescCorrect(s, key);
    var t := SortDesc(s[1..], key);
    SortDescCorrect(s[1..], key);
    InsertSorted(s[0], t, key);
    if |s| > 1 {
      SortDescHead(s[1..], key);
      var m := FirstMax(s[1..], key) + 1;
      assert t[0] == s[m];
    }
  }
}
