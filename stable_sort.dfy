/** Python's `list.sort(key=...)` is a stable sort: elements with equal keys
    keep their original relative order, also with `reverse=True`. `SortBy`
    is a stable insertion sort by a real-valued key, ascending; a descending
    sort is `SortBy` on the negated key. */
module StableSort {

  predicate SortedBy<T>(s: seq<T>, key: T -> real) {
    forall i, j :: 0 <= i < j < |s| ==> key(s[i]) <= key(s[j])
  }

  /** The elements of `s` whose key is `v`, in their order in `s`. */
  function WithKey<T>(s: seq<T>, key: T -> real, v: real): (r: seq<T>)
    ensures |r| <= |s|
  {
    if s == [] then []
    else (if key(s[0]) == v then [s[0]] else []) + WithKey(s[1..], key, v)
  }

  lemma {:induction false} WithKeyAppend<T>(a: seq<T>, b: seq<T>, key: T -> real, v: real)
    ensures WithKey(a + b, key, v) == WithKey(a, key, v) + WithKey(b, key, v)
    decreases |a|
  {
    if a == [] {
      assert a + b == b;
    } else {
      var h := if key(a[0]) == v then [a[0]] else [];
      var x, y := WithKey(a[1..], key, v), WithKey(b, key, v);
      assert (a + b)[0] == a[0];
      assert (a + b)[1..] == a[1..] + b;
      assert WithKey(a + b, key, v) == h + WithKey(a[1..] + b, key, v);
      WithKeyAppend(a[1..], b, key, v);
      assert h + (x + y) == (h + x) + y;
    }
  }

  lemma {:induction false} WithKeyNone<T>(s: seq<T>, key: T -> real, v: real)
    requires forall i :: 0 <= i < |s| ==> key(s[i]) > v
    ensures WithKey(s, key, v) == []
  {
    if s != [] {
      WithKeyNone(s[1..], key, v);
    }
  }

  /** Where `Insert` puts `x`: after the leading run of keys at most `key(x)`. */
  function InsertPos<T>(x: T, s: seq<T>, key: T -> real): (m: nat)
    ensures m <= |s|
    ensures forall i :: 0 <= i < m ==> key(s[i]) <= key(x)
    ensures m < |s| ==> key(s[m]) > key(x)
  {
    if s == [] then 0
    else if key(s[0]) <= key(x) then 1 + InsertPos(x, s[1..], key)
    else 0
  }

  /** Insert `x` after the leading run of elements whose key is at most
      `key(x)`. */
  function Insert<T>(x: T, s: seq<T>, key: T -> real): (r: seq<T>)
    ensures |r| == |s| + 1
  {
    var m := InsertPos(x, s, key);
    s[..m] + [x] + s[m..]
  }

  /** In a sorted sequence, every element from `InsertPos` on has a key above `key(x)`. */
  lemma AfterInsertPos<T>(x: T, s: seq<T>, key: T -> real)
    requires SortedBy(s, key)
    ensures var m := InsertPos(x, s, key); forall i :: m <= i < |s| ==> key(s[i]) > key(x)
  {
    var m := InsertPos(x, s, key);
    forall i | m <= i < |s| ensures key(s[i]) > key(x) {
      assert key(s[m]) <= key(s[i]);
    }
  }

  lemma InsertOrdered<T>(x: T, s: seq<T>, key: T -> real)
    requires SortedBy(s, key)
    ensures SortedBy(Insert(x, s, key), key)
  {
    var m := InsertPos(x, s, key);
    AfterInsertPos(x, s, key);
    var r := Insert(x, s, key);
    forall i, j | 0 <= i < j < |r| ensures key(r[i]) <= key(r[j]) {
      if j < m {
        assert r[i] == s[i] && r[j] == s[j];
      } else if j == m {
        assert r[i] == s[i];
      } else if i == m {
        assert r[j] == s[j - 1];
      } else if i < m {
        assert r[i] == s[i] && r[j] == s[j - 1];
      } else {
        assert r[i] == s[i - 1] && r[j] == s[j - 1];
      }
    }
  }

  lemma InsertMultiset<T>(x: T, s: seq<T>, key: T -> real)
    ensures multiset(Insert(x, s, key)) == multiset(s) + multiset{x}
  {
    var m := InsertPos(x, s, key);
    var a, b := s[..m], s[m..];
    assert multiset(a + [x] + b) == multiset(a) + multiset{x} + multiset(b);
    assert s == a + b;
  }

  lemma WithKeySingle<T>(x: T, key: T -> real, v: real)
    ensures WithKey([x], key, v) == if key(x) == v then [x] else []
  {
    assert [x][1..] == [];
  }

  /** Nothing after `InsertPos` has the key of `x`. */
  lemma WithKeyAfterPos<T>(x: T, s: seq<T>, key: T -> real)
    requires SortedBy(s, key)
    ensures WithKey(s[InsertPos(x, s, key)..], key, key(x)) == []
  {
    var m := InsertPos(x, s, key);
    var b := s[m..];
    AfterInsertPos(x, s, key);
    forall i | 0 <= i < |b| ensures key(b[i]) > key(x) {
      assert b[i] == s[m + i];
    }
    WithKeyNone(b, key, key(x));
  }

  /** `x` lands after every element of `s` with its key, and other keys keep
      their elements' order. */
  lemma InsertWithKey<T>(x: T, s: seq<T>, key: T -> real, v: real)
    requires SortedBy(s, key)
    ensures WithKey(Insert(x, s, key), key, v) ==
            WithKey(s, key, v) + (if v == key(x) then [x] else [])
  {
    var m := InsertPos(x, s, key);
    var a, b := s[..m], s[m..];
    var wa, wx, wb := WithKey(a, key, v), WithKey([x], key, v), WithKey(b, key, v);
    assert WithKey(Insert(x, s, key), key, v) == wa + wx + wb by {
      WithKeyAppend(a + [x], b, key, v);
      WithKeyAppend(a, [x], key, v);
    }
    assert WithKey(s, key, v) == wa + wb by {
      assert s == a + b;
      WithKeyAppend(a, b, key, v);
    }
    if v == key(x) {
      assert wx == [x] by { WithKeySingle(x, key, v); }
      assert wb == [] by { WithKeyAfterPos(x, s, key); }
      assert wa + wx + wb == wa + wb + [x];
    } else {
      assert wx == [] by { WithKeySingle(x, key, v); }
      assert wa + wx + wb == wa + wb;
    }
  }

  /** The stable sort of `s` by ascending key. */
  function SortBy<T>(s: seq<T>, key: T -> real): (r: seq<T>)
    decreases |s|
  {
    if s == [] then [] else Insert(s[|s| - 1], SortBy(s[..|s| - 1], key), key)
  }

  /** `SortBy` returns a permutation of its input, ordered by key, in which
      the elements of each key value appear in their original order. */
  lemma {:induction false} SortByCorrect<T>(s: seq<T>, key: T -> real)
    ensures SortedBy(SortBy(s, key), key)
    ensures multiset(SortBy(s, key)) == multiset(s)
    ensures forall v :: WithKey(SortBy(s, key), key, v) == WithKey(s, key, v)
    decreases |s|
  {
    if s != [] {
      var p, x := s[..|s| - 1], s[|s| - 1];
      assert s == p + [x];
      SortByCorrect(p, key);
      InsertOrdered(x, SortBy(p, key), key);
      InsertMultiset(x, SortBy(p, key), key);
      forall v ensures WithKey(SortBy(s, key), key, v) == WithKey(s, key, v) {
        InsertWithKey(x, SortBy(p, key), key, v);
        WithKeyAppend(p, [x], key, v);
      }
    }
  }

  lemma SortByLength<T>(s: seq<T>, key: T -> real)
    ensures |SortBy(s, key)| == |s|
  {
    SortByCorrect(s, key);
    assert |multiset(SortBy(s, key))| == |multiset(s)|;
  }
  /** The elements' images under `f` are pairwise different. */
  predicate DistinctBy<T, K(==)>(s: seq<T>, f: T -> K) {
    forall i, j :: 0 <= i < j < |s| ==> f(s[i]) != f(s[j])
  }

  /** Inserting an element whose image is new keeps the images distinct. */
  lemma InsertDistinctBy<T, K>(x: T, t: seq<T>, key: T -> real, f: T -> K)
    requires DistinctBy(t, f)
    requires forall y :: y in t ==> f(y) != f(x)
    ensures DistinctBy(Insert(x, t, key), f)
  {
    var m := InsertPos(x, t, key);
    var r := Insert(x, t, key);
    forall i, j | 0 <= i < j < |r| ensures f(r[i]) != f(r[j]) {
      if j < m {
        assert r[i] == t[i] && r[j] == t[j];
      } else if j == m {
        assert r[i] == t[i] && r[j] == x;
      } else if i == m {
        assert r[i] == x && r[j] == t[j - 1];
      } else if i < m {
        assert r[i] == t[i] && r[j] == t[j - 1];
      } else {
        assert r[i] == t[i - 1] && r[j] == t[j - 1];
      }
    }
  }

  /** Sorting introduces no repetition: images distinct before are
      distinct after. */
  lemma {:induction false} SortByDistinctBy<T, K>(s: seq<T>, key: T -> real, f: T -> K)
    requires DistinctBy(s, f)
    ensures DistinctBy(SortBy(s, key), f)
    decreases |s|
  {
    if s != [] {
      var p, x := s[..|s| - 1], s[|s| - 1];
      assert DistinctBy(p, f) by {
        forall i, j | 0 <= i < j < |p| ensures f(p[i]) != f(p[j]) {
          assert p[i] == s[i] && p[j] == s[j];
        }
      }
      SortByDistinctBy(p, key, f);
      var t := SortBy(p, key);
      assert forall y :: y in t ==> f(y) != f(x) by {
        SortByCorrect(p, key);
        forall y | y in t ensures f(y) != f(x) {
          assert y in multiset(t);
          var k :| 0 <= k < |p| && p[k] == y;
          assert s[k] == y;
        }
      }
      InsertDistinctBy(x, t, key, f);
    }
  }
}
