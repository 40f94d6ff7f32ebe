/** Python's `list.sort(key=key, reverse=True)`: a stable sort into
    non-increasing key order, given here as insertion sort on sequences. */
module StableSort {

  /** Inserts `x` before the first element whose key is not above `x`'s,
      so that `x` precedes every element with an equal key. */
  function Insert<T>(x: T, s: seq<T>, key: T -> real): seq<T>
    decreases |s|
  {
    if s == [] || key(s[0]) <= key(x) then [x] + s
    else [s[0]] + Insert(x, s[1..], key)
  }

  function SortDesc<T>(s: seq<T>, key: T -> real): seq<T>
    decreases |s|
  {
    if s == [] then [] else Insert(s[0], SortDesc(s[1..], key), key)
  }

  predicate NonIncreasing<T>(s: seq<T>, key: T -> real) {
    forall i, j :: 0 <= i < j < |s| ==> key(s[i]) >= key(s[j])
  }

  /** The elements of `s` whose key is `v`, in their order in `s`. */
  function WithKey<T>(s: seq<T>, key: T -> real, v: real): seq<T>
    decreases |s|
  {
    if s == [] then []
    else (if key(s[0]) == v then [s[0]] else []) + WithKey(s[1..], key, v)
  }

  /** Stability: for every key, the elements carrying it appear in the same order. */
  ghost predicate SameOrderPerKey<T>(s: seq<T>, t: seq<T>, key: T -> real) {
    forall v :: WithKey(s, key, v) == WithKey(t, key, v)
  }

  lemma {:induction false} InsertPermutes<T>(x: T, s: seq<T>, key: T -> real)
    ensures multiset(Insert(x, s, key)) == multiset([x] + s)
    decreases |s|
  {
    if s != [] && key(s[0]) > key(x) {
      InsertPermutes(x, s[1..], key);
      assert s == [s[0]] + s[1..];
    }
  }

  lemma {:induction false} InsertSorted<T>(x: T, s: seq<T>, key: T -> real)
    requires NonIncreasing(s, key)
    ensures NonIncreasing(Insert(x, s, key), key)
    decreases |s|
  {
    if s != [] && key(s[0]) > key(x) {
      var rest := Insert(x, s[1..], key);
      InsertSorted(x, s[1..], key);
      InsertPermutes(x, s[1..], key);
      forall j | 0 <= j < |rest| ensures key(s[0]) >= key(rest[j]) {
        assert rest[j] in multiset([x] + s[1..]);
        if rest[j] != x {
          assert rest[j] in s[1..];
        }
      }
    }
  }

  lemma WithKeyCons<T>(x: T, s: seq<T>, key: T -> real, v: real)
    ensures WithKey([x] + s, key, v) == (if key(x) == v then [x] else []) + WithKey(s, key, v)
  {
    assert ([x] + s)[1..] == s;
  }

  lemma {:induction false} InsertKeepsOrderPerKey<T>(x: T, s: seq<T>, key: T -> real, v: real)
    ensures WithKey(Insert(x, s, key), key, v) == WithKey([x] + s, key, v)
    decreases |s|
  {
    if s != [] && key(s[0]) > key(x) {
      var rest := s[1..];
      var fx: seq<T> := if key(x) == v then [x] else [];
      var f0: seq<T> := if key(s[0]) == v then [s[0]] else [];
      assert s == [s[0]] + rest;
      InsertKeepsOrderPerKey(x, rest, key, v);
      WithKeyCons(s[0], Insert(x, rest, key), key, v);
      WithKeyCons(x, rest, key, v);
      WithKeyCons(x, s, key, v);
      WithKeyCons(s[0], rest, key, v);
      // at most one of `x` and `s[0]` carries the key `v`
      assert fx == [] || f0 == [];
      calc {
        WithKey(Insert(x, s, key), key, v);
        f0 + WithKey(Insert(x, rest, key), key, v);
        f0 + (fx + WithKey(rest, key, v));
        { assert f0 + fx == fx + f0; }
        fx + (f0 + WithKey(rest, key, v));
        WithKey([x] + s, key, v);
      }
    }
  }

  /** The three facts that together say `SortDesc` is a stable descending sort. */
  lemma {:induction false} SortDescCorrect<T>(s: seq<T>, key: T -> real)
    ensures multiset(SortDesc(s, key)) == multiset(s)
    ensures |SortDesc(s, key)| == |s|
    ensures NonIncreasing(SortDesc(s, key), key)
    ensures SameOrderPerKey(SortDesc(s, key), s, key)
    decreases |s|
  {
    if s != [] {
      var t := SortDesc(s[1..], key);
      SortDescCorrect(s[1..], key);
      InsertPermutes(s[0], t, key);
      InsertSorted(s[0], t, key);
      assert s == [s[0]] + s[1..];
      forall v ensures WithKey(SortDesc(s, key), key, v) == WithKey(s, key, v) {
        InsertKeepsOrderPerKey(s[0], t, key, v);
        WithKeyCons(s[0], t, key, v);
        WithKeyCons(s[0], s[1..], key, v);
      }
      assert |multiset(SortDesc(s, key))| == |multiset(s)|;
    }
  }
}
