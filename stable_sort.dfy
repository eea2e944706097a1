/**
 * Python's `sorted(s, key=...)`, which is a stable sort: elements with equal
 * keys keep their relative order. It is modelled as an insertion sort on an
 * ascending real key (a descending sort uses the negated key, as
 * `reverse=True` keeps ties in input order too). Its meaning is stated
 * independently of the insertion sort: the result is a permutation, it is
 * sorted, and for every key value the subsequence of elements carrying that
 * key is the same as in the input; and it is the only sequence with the last
 * two properties.
 */
module StableSort {

  predicate SortedBy<T>(s: seq<T>, key: T -> real) {
    forall i, j :: 0 <= i < j < |s| ==> key(s[i]) <= key(s[j])
  }

  /** The elements of `s` whose key is `v`, in their order in `s`. */
  function WithKey<T>(s: seq<T>, key: T -> real, v: real): seq<T> {
    if s == [] then [] else (if key(s[0]) == v then [s[0]] else []) + WithKey(s[1..], key, v)
  }

  /** Puts `x` in front of the first element whose key is not below its own. */
  function Insert<T>(x: T, s: seq<T>, key: T -> real): seq<T> {
    if s == [] || key(x) <= key(s[0]) then [x] + s else [s[0]] + Insert(x, s[1..], key)
  }

  function SortBy<T>(s: seq<T>, key: T -> real): seq<T> {
    if s == [] then [] else Insert(s[0], SortBy(s[1..], key), key)
  }

  lemma {:induction false} WithKeyMember<T>(s: seq<T>, key: T -> real, v: real, x: T)
    requires x in WithKey(s, key, v)
    ensures x in s && key(x) == v
  {
    if !(key(s[0]) == v && x == s[0]) {
      WithKeyMember(s[1..], key, v, x);
    }
  }

  lemma SortedHeadIsLeast<T>(s: seq<T>, key: T -> real, x: T)
    requires SortedBy(s, key) && x in s
    ensures key(s[0]) <= key(x)
  {
    var i :| 0 <= i < |s| && s[i] == x;
    if i > 0 { assert key(s[0]) <= key(s[i]); }
  }

  lemma {:induction false} InsertPermutes<T>(x: T, s: seq<T>, key: T -> real)
    ensures |Insert(x, s, key)| == |s| + 1
    ensures multiset(Insert(x, s, key)) == multiset(s) + multiset{x}
  {
    if s != [] && key(s[0]) < key(x) {
      InsertPermutes(x, s[1..], key);
      assert s == [s[0]] + s[1..];
    }
  }

  lemma {:induction false} InsertSorted<T>(x: T, s: seq<T>, key: T -> real)
    requires SortedBy(s, key)
    ensures SortedBy(Insert(x, s, key), key)
  {
    if s == [] || key(x) <= key(s[0]) {
      var r := [x] + s;
      assert Insert(x, s, key) == r;
      forall i, j | 0 <= i < j < |r| ensures key(r[i]) <= key(r[j]) {
        if i > 0 {
          assert key(s[i - 1]) <= key(s[j - 1]);
        } else if j > 1 {
          assert key(s[0]) <= key(s[j - 1]);
        }
      }
    } else {
      var t := s[1..];
      InsertSorted(x, t, key);
      InsertPermutes(x, t, key);
      var u := Insert(x, t, key);
      var r := [s[0]] + u;
      assert Insert(x, s, key) == r;
      forall i, j | 0 <= i < j < |r| ensures key(r[i]) <= key(r[j]) {
        if i == 0 {
          var y := u[j - 1];
          assert y in multiset(u);
          assert y == x || y in multiset(t);
          if y != x {
            var m :| 0 <= m < |t| && t[m] == y;
            assert key(s[0]) <= key(s[m + 1]);
          }
        }
      }
    }
  }

  lemma {:induction false} InsertWithKey<T>(x: T, s: seq<T>, key: T -> real, v: real)
    ensures WithKey(Insert(x, s, key), key, v)
         == (if key(x) == v then [x] else []) + WithKey(s, key, v)
  {
    var mine := if key(x) == v then [x] else [];
    if s == [] || key(x) <= key(s[0]) {
      var r := [x] + s;
      assert r[0] == x && r[1..] == s;
      assert WithKey(r, key, v) == mine + WithKey(s, key, v);
    } else {
      var u := Insert(x, s[1..], key);
      var first := if key(s[0]) == v then [s[0]] else [];
      InsertWithKey(x, s[1..], key, v);
      var r := [s[0]] + u;
      assert r[0] == s[0] && r[1..] == u;
      assert WithKey(r, key, v) == first + (mine + WithKey(s[1..], key, v));
      assert first == [] || mine == [];
      assert WithKey(s, key, v) == first + WithKey(s[1..], key, v);
    }
  }

  /** The sort returns a permutation of its input, in ascending key order. */
  lemma {:induction false} SortByPermutesAndSorts<T>(s: seq<T>, key: T -> real)
    ensures |SortBy(s, key)| == |s|
    ensures multiset(SortBy(s, key)) == multiset(s)
    ensures SortedBy(SortBy(s, key), key)
  {
    if s != [] {
      var t := SortBy(s[1..], key);
      assert SortBy(s, key) == Insert(s[0], t, key);
      SortByPermutesAndSorts(s[1..], key);
      InsertPermutes(s[0], t, key);
      InsertSorted(s[0], t, key);
      assert s == [s[0]] + s[1..];
      assert multiset(s) == multiset(s[1..]) + multiset{s[0]};
    }
  }

  /** Stability: for every key value, the elements with that key keep their input order. */
  lemma {:induction false} SortByIsStable<T>(s: seq<T>, key: T -> real, v: real)
    ensures WithKey(SortBy(s, key), key, v) == WithKey(s, key, v)
  {
    if s != [] {
      SortByIsStable(s[1..], key, v);
      InsertWithKey(s[0], SortBy(s[1..], key), key, v);
    }
  }

  lemma HeadIsKept<T>(s: seq<T>, key: T -> real)
    requires s != []
    ensures WithKey(s, key, key(s[0])) != []
  {
  }

  lemma {:induction false} SameKeyedSortedAreEqual<T>(t: seq<T>, u: seq<T>, key: T -> real)
    requires SortedBy(t, key) && SortedBy(u, key)
    requires forall v :: WithKey(t, key, v) == WithKey(u, key, v)
    ensures t == u
  {
    if t == [] && u == [] {
    } else if t == [] {
      HeadIsKept(u, key);
      assert false;
    } else if u == [] {
      HeadIsKept(t, key);
      assert false;
    } else {
      var a, b := key(t[0]), key(u[0]);
      assert t[0] in WithKey(u, key, a) by { assert WithKey(t, key, a)[0] == t[0]; }
      WithKeyMember(u, key, a, t[0]);
      SortedHeadIsLeast(u, key, t[0]);
      assert u[0] in WithKey(t, key, b) by { assert WithKey(u, key, b)[0] == u[0]; }
      WithKeyMember(t, key, b, u[0]);
      SortedHeadIsLeast(t, key, u[0]);
      assert a == b;
      assert t[0] == u[0] by {
        assert WithKey(t, key, a)[0] == t[0];
        assert WithKey(u, key, a)[0] == u[0];
      }
      forall v ensures WithKey(t[1..], key, v) == WithKey(u[1..], key, v) {
        var wt, wu := WithKey(t, key, v), WithKey(u, key, v);
        assert wt == wu;
        if v == a {
          assert wt == [t[0]] + WithKey(t[1..], key, v);
          assert wu == [u[0]] + WithKey(u[1..], key, v);
          assert wt[1..] == WithKey(t[1..], key, v);
        } else {
          assert wt == WithKey(t[1..], key, v);
        }
      }
      SameKeyedSortedAreEqual(t[1..], u[1..], key);
      assert t == [t[0]] + t[1..] && u == [u[0]] + u[1..];
    }
  }

  /**
   * The stable sort is the only sorted sequence that keeps, for every key,
   * the input order of the elements carrying it.
   */
  lemma SortByIsTheStableSort<T>(s: seq<T>, t: seq<T>, key: T -> real)
    requires SortedBy(t, key)
    requires forall v :: WithKey(t, key, v) == WithKey(s, key, v)
    ensures t == SortBy(s, key)
  {
    SortByPermutesAndSorts(s, key);
    forall v ensures WithKey(t, key, v) == WithKey(SortBy(s, key), key, v) {
      SortByIsStable(s, key, v);
    }
    SameKeyedSortedAreEqual(t, SortBy(s, key), key);
  }

  // ---------------------------------------------------------------------------
  // Filtering, and how it commutes with the sort.

  /** The elements `x` of `s` with `f(x) == v`, in their order in `s` (a boolean mask in pandas). */
  function Where<T, K(==)>(s: seq<T>, f: T -> K, v: K): seq<T> {
    if s == [] then [] else (if f(s[0]) == v then [s[0]] else []) + Where(s[1..], f, v)
  }

  lemma {:induction false} WhereAppend<T, K>(a: seq<T>, b: seq<T>, f: T -> K, v: K)
    ensures Where(a + b, f, v) == Where(a, f, v) + Where(b, f, v)
  {
    if a != [] {
      assert (a + b)[0] == a[0] && (a + b)[1..] == a[1..] + b;
      WhereAppend(a[1..], b, f, v);
    } else {
      assert a + b == b;
    }
  }

  lemma {:induction false} WhereMember<T, K>(s: seq<T>, f: T -> K, v: K, x: T)
    requires x in Where(s, f, v)
    ensures x in s && f(x) == v
  {
    if !(f(s[0]) == v && x == s[0]) {
      WhereMember(s[1..], f, v, x);
    }
  }

  lemma {:induction false} WhereOfSorted<T, K>(t: seq<T>, f: T -> K, v: K, key: T -> real)
    requires SortedBy(t, key)
    ensures SortedBy(Where(t, f, v), key)
  {
    if t != [] {
      WhereOfSorted(t[1..], f, v, key);
      var u := Where(t[1..], f, v);
      if f(t[0]) == v {
        var r := [t[0]] + u;
        forall i, j | 0 <= i < j < |r| ensures key(r[i]) <= key(r[j]) {
          if i == 0 {
            WhereMember(t[1..], f, v, r[j]);
            var m :| 0 <= m < |t[1..]| && t[1..][m] == r[j];
            assert key(t[0]) <= key(t[m + 1]);
          } else {
            assert r[i] == u[i - 1] && r[j] == u[j - 1];
          }
        }
      }
    }
  }

  lemma {:induction false} WhereWithKey<T, K>(s: seq<T>, f: T -> K, v: K, key: T -> real, w: real)
    ensures WithKey(Where(s, f, v), key, w) == Where(WithKey(s, key, w), f, v)
  {
    if s != [] {
      WhereWithKey(s[1..], f, v, key, w);
      var head := if f(s[0]) == v then [s[0]] else [];
      WithKeyAppend(head, Where(s[1..], f, v), key, w);
      WhereAppend(if key(s[0]) == w then [s[0]] else [], WithKey(s[1..], key, w), f, v);
    }
  }

  lemma {:induction false} WithKeyAppend<T>(a: seq<T>, b: seq<T>, key: T -> real, w: real)
    ensures WithKey(a + b, key, w) == WithKey(a, key, w) + WithKey(b, key, w)
  {
    if a != [] {
      assert (a + b)[0] == a[0] && (a + b)[1..] == a[1..] + b;
      WithKeyAppend(a[1..], b, key, w);
    } else {
      assert a + b == b;
    }
  }

  /** Filtering the sorted sequence gives the sort of the filtered sequence. */
  lemma WhereOfSortBy<T, K>(s: seq<T>, f: T -> K, v: K, key: T -> real)
    ensures Where(SortBy(s, key), f, v) == SortBy(Where(s, f, v), key)
  {
    var sorted := SortBy(s, key);
    SortByPermutesAndSorts(s, key);
    WhereOfSorted(sorted, f, v, key);
    forall w ensures WithKey(Where(sorted, f, v), key, w) == WithKey(Where(s, f, v), key, w) {
      WhereWithKey(sorted, f, v, key, w);
      WhereWithKey(s, f, v, key, w);
      SortByIsStable(s, key, w);
    }
    SortByIsTheStableSort(Where(s, f, v), Where(sorted, f, v), key);
  }
}
