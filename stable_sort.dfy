/**
 * Python's `sorted(s, key=...)` for string keys: a stable sort, so that the
 * result is ordered by key, is a permutation of `s`, and keeps the input order
 * of elements whose keys are equal.
 */
module StableSort {
  import opened Text

  /** Ordered by key: no element's key is smaller than that of an element before it. */
  predicate SortedBy<T>(s: seq<T>, key: T -> string) {
    forall i, j :: 0 <= i < j < |s| ==> !Less(key(s[j]), key(s[i]))
  }

  /** The elements of `s` whose key is `k`, in their order in `s`. */
  function WithKey<T>(s: seq<T>, key: T -> string, k: string): seq<T> {
    if s == [] then [] else (if key(s[0]) == k then [s[0]] else []) + WithKey(s[1..], key, k)
  }

  /** Inserts `x` before the first element whose key is not smaller than that of `x`. */
  function Insert<T>(x: T, s: seq<T>, key: T -> string): (r: seq<T>)
    ensures multiset(r) == multiset(s) + multiset{x}
  {
    if s == [] then [x]
    else if Less(key(s[0]), key(x)) then
      assert s == [s[0]] + s[1..];
      [s[0]] + Insert(x, s[1..], key)
    else [x] + s
  }

  /** Insertion sort by key, each element inserted into the sorted rest of the sequence. */
  function SortBy<T>(s: seq<T>, key: T -> string): (r: seq<T>)
    ensures multiset(r) == multiset(s)
  {
    if s == [] then []
    else
      assert s == [s[0]] + s[1..];
      Insert(s[0], SortBy(s[1..], key), key)
  }

  lemma {:induction false} InsertSorted<T>(x: T, s: seq<T>, key: T -> string)
    requires SortedBy(s, key)
    ensures SortedBy(Insert(x, s, key), key)
  {
    if s != [] {
      if Less(key(s[0]), key(x)) {
        var rest := Insert(x, s[1..], key);
        InsertSorted(x, s[1..], key);
        LessAsymmetric(key(s[0]), key(x));
        forall j | 0 <= j < |rest|
          ensures !Less(key(rest[j]), key(s[0]))
        {
          assert rest[j] in multiset(rest);
          if rest[j] != x {
            assert rest[j] in multiset(s[1..]);
            var m :| 0 <= m < |s[1..]| && s[1..][m] == rest[j];
            assert s[m + 1] == rest[j];
          }
        }
      } else {
        forall j | 1 <= j < |s|
          ensures !Less(key(s[j]), key(x))
        {
          NotAfterTransitive(key(x), key(s[0]), key(s[j]));
        }
      }
    }
  }

  /** `sorted` returns its input ordered by key. */
  lemma {:induction false} SortBySorted<T>(s: seq<T>, key: T -> string)
    ensures SortedBy(SortBy(s, key), key)
  {
    if s != [] {
      SortBySorted(s[1..], key);
      InsertSorted(s[0], SortBy(s[1..], key), key);
    }
  }

  lemma {:induction false} WithKeyAppend<T>(a: seq<T>, b: seq<T>, key: T -> string, k: string)
    ensures WithKey(a + b, key, k) == WithKey(a, key, k) + WithKey(b, key, k)
  {
    if a == [] {
      assert a + b == b;
    } else {
      var head := if key(a[0]) == k then [a[0]] else [];
      assert (a + b)[0] == a[0] && (a + b)[1..] == a[1..] + b;
      assert WithKey(a + b, key, k) == head + WithKey(a[1..] + b, key, k);
      WithKeyAppend(a[1..], b, key, k);
      assert WithKey(a, key, k) == head + WithKey(a[1..], key, k);
    }
  }

  /** Inserting `x` places it before every element with an equal key. */
  lemma {:induction false} InsertWithKey<T>(x: T, s: seq<T>, key: T -> string, k: string)
    ensures WithKey(Insert(x, s, key), key, k) == WithKey([x], key, k) + WithKey(s, key, k)
  {
    if s != [] {
      if Less(key(s[0]), key(x)) {
        InsertWithKey(x, s[1..], key, k);
        LessIrreflexive(key(x));
        WithKeyAppend([s[0]], Insert(x, s[1..], key), key, k);
        WithKeyAppend([s[0]], s[1..], key, k);
        assert [s[0]] + s[1..] == s;
      } else {
        WithKeyAppend([x], s, key, k);
      }
    }
  }

  /** `sorted` is stable: the elements with any one key keep their input order. */
  lemma {:induction false} SortByStable<T>(s: seq<T>, key: T -> string, k: string)
    ensures WithKey(SortBy(s, key), key, k) == WithKey(s, key, k)
  {
    if s != [] {
      var rest := SortBy(s[1..], key);
      assert SortBy(s, key) == Insert(s[0], rest, key);
      SortByStable(s[1..], key, k);
      InsertWithKey(s[0], rest, key, k);
      assert WithKey(s, key, k) == WithKey([s[0]], key, k) + WithKey(s[1..], key, k) by {
        WithKeyAppend([s[0]], s[1..], key, k);
        assert [s[0]] + s[1..] == s;
      }
    }
  }
}
