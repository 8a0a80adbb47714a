/**
 * Python's `list.sort(key=...)` and `sorted(...)` on string keys: a stable sort
 * in code-point order of the key. Modelled by insertion sort, with the three
 * facts the callers rely on proved about it: the result is ordered by key, it
 * is a permutation of the input, and entries with equal keys keep their order.
 */
module StableSort {
  import opened Text

  predicate SortedBy<T>(s: seq<T>, key: T -> string) {
    forall i, j :: 0 <= i < j < |s| ==> StrLe(key(s[i]), key(s[j]))
  }

  /** Insert `x` after every entry whose key is not greater than its own. */
  function Insert<T>(x: T, s: seq<T>, key: T -> string): seq<T>
    decreases |s|
  {
    if s == [] then [x]
    else if StrLt(key(x), key(s[0])) then [x] + s
    else [s[0]] + Insert(x, s[1..], key)
  }

  /** `sorted(s, key=key)`: stable, ascending. */
  function Sort<T>(s: seq<T>, key: T -> string): seq<T>
    decreases |s|
  {
    if s == [] then [] else Insert(s[|s| - 1], Sort(s[..|s| - 1], key), key)
  }

  /** The entries of `s` whose key is `k`, in order. */
  function WithKey<T>(s: seq<T>, key: T -> string, k: string): seq<T>
    decreases |s|
  {
    if s == [] then []
    else (if key(s[0]) == k then [s[0]] else []) + WithKey(s[1..], key, k)
  }

  lemma {:induction false} InsertPerm<T>(x: T, s: seq<T>, key: T -> string)
    ensures multiset(Insert(x, s, key)) == multiset(s) + multiset{x}
    ensures |Insert(x, s, key)| == |s| + 1
    decreases |s|
  {
    if s != [] && !StrLt(key(x), key(s[0])) {
      InsertPerm(x, s[1..], key);
      assert s == [s[0]] + s[1..];
    }
  }

  lemma SortedTail<T>(s: seq<T>, key: T -> string)
    requires s != [] && SortedBy(s, key)
    ensures SortedBy(s[1..], key)
  {
    forall i, j | 0 <= i < j < |s[1..]| ensures StrLe(key(s[1..][i]), key(s[1..][j])) {
      assert s[1..][i] == s[i + 1] && s[1..][j] == s[j + 1];
    }
  }

  lemma {:induction false} InsertSorted<T>(x: T, s: seq<T>, key: T -> string)
    requires SortedBy(s, key)
    ensures SortedBy(Insert(x, s, key), key)
    decreases |s|
  {
    if s == [] {
    } else if StrLt(key(x), key(s[0])) {
      var r := [x] + s;
      forall i, j | 0 <= i < j < |r| ensures StrLe(key(r[i]), key(r[j])) {
        if i == 0 {
          if j > 1 { StrLeTrans(key(x), key(s[0]), key(s[j - 1])); }
        } else {
          assert r[i] == s[i - 1] && r[j] == s[j - 1];
        }
      }
    } else {
      SortedTail(s, key);
      InsertSorted(x, s[1..], key);
      InsertPerm(x, s[1..], key);
      var t := Insert(x, s[1..], key);
      StrLeTotal(key(x), key(s[0]));
      assert StrLe(key(s[0]), key(x)) by {
        if key(x) == key(s[0]) { StrLeRefl(key(x)); }
      }
      forall m | 0 <= m < |t| ensures StrLe(key(s[0]), key(t[m])) {
        assert t[m] in multiset(t);
        if t[m] != x {
          assert t[m] in multiset(s[1..]);
          var n :| 0 <= n < |s[1..]| && s[1..][n] == t[m];
          assert s[1..][n] == s[n + 1];
        }
      }
      var r := [s[0]] + t;
      forall i, j | 0 <= i < j < |r| ensures StrLe(key(r[i]), key(r[j])) {
        if i == 0 {
          assert r[j] == t[j - 1];
        } else {
          assert r[i] == t[i - 1] && r[j] == t[j - 1];
        }
      }
    }
  }

  /** The sort orders by key and rearranges without losing or adding entries. */
  lemma {:induction false} SortFacts<T>(s: seq<T>, key: T -> string)
    ensures SortedBy(Sort(s, key), key)
    ensures multiset(Sort(s, key)) == multiset(s)
    ensures |Sort(s, key)| == |s|
    decreases |s|
  {
    if s != [] {
      var p := s[..|s| - 1];
      SortFacts(p, key);
      InsertSorted(s[|s| - 1], Sort(p, key), key);
      InsertPerm(s[|s| - 1], Sort(p, key), key);
      assert s == p + [s[|s| - 1]];
    }
  }

  lemma {:induction false} WithKeyAppend<T>(a: seq<T>, b: seq<T>, key: T -> string, k: string)
    ensures WithKey(a + b, key, k) == WithKey(a, key, k) + WithKey(b, key, k)
    decreases |a|
  {
    if a == [] {
      assert a + b == b;
    } else {
      var h := if key(a[0]) == k then [a[0]] else [];
      assert (a + b)[0] == a[0] && (a + b)[1..] == a[1..] + b;
      assert WithKey(a + b, key, k) == h + WithKey(a[1..] + b, key, k);
      WithKeyAppend(a[1..], b, key, k);
      assert WithKey(a, key, k) == h + WithKey(a[1..], key, k);
      assert h + (WithKey(a[1..], key, k) + WithKey(b, key, k)) == (h + WithKey(a[1..], key, k)) + WithKey(b, key, k);
    }
  }

  lemma {:induction false} WithKeyNone<T>(s: seq<T>, key: T -> string, k: string)
    requires forall i :: 0 <= i < |s| ==> key(s[i]) != k
    ensures WithKey(s, key, k) == []
    decreases |s|
  {
    if s != [] {
      WithKeyNone(s[1..], key, k);
    }
  }

  lemma {:induction false} WithKeyInsert<T>(x: T, s: seq<T>, key: T -> string, k: string)
    requires SortedBy(s, key)
    ensures WithKey(Insert(x, s, key), key, k)
         == WithKey(s, key, k) + (if key(x) == k then [x] else [])
    decreases |s|
  {
    if s == [] {
    } else if StrLt(key(x), key(s[0])) {
      if key(x) == k {
        forall i | 0 <= i < |s| ensures key(s[i]) != k {
          if i > 0 { StrLeTrans(key(x), key(s[0]), key(s[i])); }
          if key(s[i]) == k { StrLeAntisym(key(x), key(s[0])); }
        }
        WithKeyNone(s, key, k);
        WithKeyNone(s[1..], key, k);
      } else {
        assert ([x] + s)[1..] == s;
      }
    } else {
      SortedTail(s, key);
      WithKeyInsert(x, s[1..], key, k);
      assert ([s[0]] + Insert(x, s[1..], key))[1..] == Insert(x, s[1..], key);
    }
  }

  /** Stability: for every key, the entries with that key appear in input order. */
  lemma {:induction false} SortStable<T>(s: seq<T>, key: T -> string, k: string)
    ensures WithKey(Sort(s, key), key, k) == WithKey(s, key, k)
    decreases |s|
  {
    if s != [] {
      var p, x := s[..|s| - 1], s[|s| - 1];
      SortStable(p, key, k);
      SortFacts(p, key);
      WithKeyInsert(x, Sort(p, key), key, k);
      assert s == p + [x];
      WithKeyAppend(p, [x], key, k);
    }
  }
}
