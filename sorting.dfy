/** The library sorts the source calls (`slice::sort_by`, `slice::sort`),
    specified as a stable insertion sort: the result is a permutation of the
    input, ordered by the comparison, and elements the comparison ties keep
    their input order. */
module Sorting {
  import opened Text

  ghost predicate TotalPreorder<T(!new)>(le: (T, T) -> bool) {
    && (forall a, b :: le(a, b) || le(b, a))
    && (forall a, b, c :: le(a, b) && le(b, c) ==> le(a, c))
  }

  predicate SortedBy<T>(s: seq<T>, le: (T, T) -> bool) {
    forall i, j :: 0 <= i < j < |s| ==> le(s[i], s[j])
  }

  /** Puts `x` after the leading run of elements that are `le` it, hence after
      every element it ties with. */
  function Insert<T>(s: seq<T>, x: T, le: (T, T) -> bool): seq<T> {
    if s == [] then [x]
    else if le(s[0], x) then [s[0]] + Insert(s[1..], x, le)
    else [x] + s
  }

  /** A stable sort of `s` by `le`. */
  function SortBy<T>(s: seq<T>, le: (T, T) -> bool): seq<T> {
    if s == [] then []
    else Insert(SortBy(s[..|s| - 1], le), s[|s| - 1], le)
  }

  /** Inserting adds exactly `x`. */
  lemma {:induction false} InsertPerm<T>(s: seq<T>, x: T, le: (T, T) -> bool)
    ensures multiset(Insert(s, x, le)) == multiset(s) + multiset{x}
  {
    if s != [] && le(s[0], x) {
      assert s == [s[0]] + s[1..];
      InsertPerm(s[1..], x, le);
    }
  }

  /** The sort is a permutation of its input. */
  lemma {:induction false} SortByPerm<T>(s: seq<T>, le: (T, T) -> bool)
    ensures multiset(SortBy(s, le)) == multiset(s)
  {
    if s != [] {
      assert s == s[..|s| - 1] + [s[|s| - 1]];
      SortByPerm(s[..|s| - 1], le);
      InsertPerm(SortBy(s[..|s| - 1], le), s[|s| - 1], le);
    }
  }

  lemma {:induction false} InsertSorted<T(!new)>(s: seq<T>, x: T, le: (T, T) -> bool)
    requires TotalPreorder(le) && SortedBy(s, le)
    ensures SortedBy(Insert(s, x, le), le)
  {
    if s != [] && le(s[0], x) {
      InsertSorted(s[1..], x, le);
      var t := Insert(s[1..], x, le);
      InsertPerm(s[1..], x, le);
      assert multiset(t) == multiset(s[1..]) + multiset{x};
      forall j | 0 <= j < |t| ensures le(s[0], t[j]) {
        assert t[j] in multiset(t);
        if t[j] != x {
          assert t[j] in multiset(s[1..]);
          var k :| 0 <= k < |s[1..]| && s[1..][k] == t[j];
          assert s[k + 1] == t[j];
        }
      }
    }
  }

  /** The sort orders its result by `le`. */
  lemma {:induction false} SortBySorted<T(!new)>(s: seq<T>, le: (T, T) -> bool)
    requires TotalPreorder(le)
    ensures SortedBy(SortBy(s, le), le)
  {
    if s != [] {
      SortBySorted(s[..|s| - 1], le);
      InsertSorted(SortBy(s[..|s| - 1], le), s[|s| - 1], le);
    }
  }

  // ---- sorting by an integer key (`sort_by(|a, b| key(a).cmp(&key(b)))`) ----

  function KeyLe<T>(key: T -> int): (T, T) -> bool {
    (a: T, b: T) => key(a) <= key(b)
  }

  function SortByKey<T>(s: seq<T>, key: T -> int): seq<T> {
    SortBy(s, KeyLe(key))
  }

  /** The elements of `s` whose key is `k`, in order. */
  function WithKey<T>(s: seq<T>, key: T -> int, k: int): seq<T> {
    if s == [] then [] else (if key(s[0]) == k then [s[0]] else []) + WithKey(s[1..], key, k)
  }

  lemma {:induction false} WithKeyAppend<T>(a: seq<T>, b: seq<T>, key: T -> int, k: int)
    ensures WithKey(a + b, key, k) == WithKey(a, key, k) + WithKey(b, key, k)
  {
    if a == [] {
      assert a + b == b;
    } else {
      var head := if key(a[0]) == k then [a[0]] else [];
      calc {
        WithKey(a + b, key, k);
        { assert a + b == [a[0]] + (a[1..] + b);
          WithKeyCons(a[0], a[1..] + b, key, k); }
        head + WithKey(a[1..] + b, key, k);
        { WithKeyAppend(a[1..], b, key, k); }
        head + (WithKey(a[1..], key, k) + WithKey(b, key, k));
        (head + WithKey(a[1..], key, k)) + WithKey(b, key, k);
        WithKey(a, key, k) + WithKey(b, key, k);
      }
    }
  }

  lemma {:induction false} WithKeyNone<T>(s: seq<T>, key: T -> int, k: int)
    requires forall i :: 0 <= i < |s| ==> key(s[i]) > k
    ensures WithKey(s, key, k) == []
  {
    if s != [] {
      WithKeyNone(s[1..], key, k);
    }
  }

  lemma {:induction false} InsertStable<T>(s: seq<T>, x: T, key: T -> int, k: int)
    requires SortedBy(s, KeyLe(key))
    ensures WithKey(Insert(s, x, KeyLe(key)), key, k)
            == WithKey(s, key, k) + (if key(x) == k then [x] else [])
  {
    SortedByKeyIndices(s, key);
    InsertStableByKey(s, x, key, k);
  }

  lemma SortedByKeyIndices<T>(s: seq<T>, key: T -> int)
    requires SortedBy(s, KeyLe(key))
    ensures forall i, j :: 0 <= i < j < |s| ==> key(s[i]) <= key(s[j])
  {
    forall i, j | 0 <= i < j < |s| ensures key(s[i]) <= key(s[j]) {
      assert KeyLe(key)(s[i], s[j]);
    }
  }

  lemma {:induction false} InsertStableByKey<T>(s: seq<T>, x: T, key: T -> int, k: int)
    requires forall i, j :: 0 <= i < j < |s| ==> key(s[i]) <= key(s[j])
    ensures WithKey(Insert(s, x, KeyLe(key)), key, k)
            == WithKey(s, key, k) + (if key(x) == k then [x] else [])
  {
    if s == [] {
      assert Insert(s, x, KeyLe(key)) == [x];
      WithKeyCons(x, [], key, k);
    } else if key(s[0]) <= key(x) {
      forall i, j | 0 <= i < j < |s[1..]| ensures key(s[1..][i]) <= key(s[1..][j]) {
        assert s[1..][i] == s[i + 1] && s[1..][j] == s[j + 1];
      }
      InsertStableByKey(s[1..], x, key, k);
      InsertStableSkip(s, x, key, k);
    } else {
      InsertStableFront(s, x, key, k);
    }
  }

  /** `x` goes past the first element, which keeps its place. */
  lemma InsertStableSkip<T>(s: seq<T>, x: T, key: T -> int, k: int)
    requires s != [] && key(s[0]) <= key(x)
    requires WithKey(Insert(s[1..], x, KeyLe(key)), key, k)
             == WithKey(s[1..], key, k) + (if key(x) == k then [x] else [])
    ensures WithKey(Insert(s, x, KeyLe(key)), key, k)
            == WithKey(s, key, k) + (if key(x) == k then [x] else [])
  {
    var rest := Insert(s[1..], x, KeyLe(key));
    assert Insert(s, x, KeyLe(key)) == [s[0]] + rest;
    WithKeyCons(s[0], rest, key, k);
  }

  /** `x` goes first, ahead of elements whose keys all exceed its own. */
  lemma InsertStableFront<T>(s: seq<T>, x: T, key: T -> int, k: int)
    requires s != [] && key(x) < key(s[0])
    requires forall i, j :: 0 <= i < j < |s| ==> key(s[i]) <= key(s[j])
    ensures WithKey(Insert(s, x, KeyLe(key)), key, k)
            == WithKey(s, key, k) + (if key(x) == k then [x] else [])
  {
    assert Insert(s, x, KeyLe(key)) == [x] + s;
    WithKeyCons(x, s, key, k);
    if key(x) == k {
      forall i | 0 <= i < |s| ensures key(s[i]) > k {
        if i > 0 {
          assert key(s[0]) <= key(s[i]);
        }
      }
      WithKeyNone(s, key, k);
    }
  }

  lemma WithKeyCons<T>(a: T, t: seq<T>, key: T -> int, k: int)
    ensures WithKey([a] + t, key, k) == (if key(a) == k then [a] else []) + WithKey(t, key, k)
  {
    assert ([a] + t)[0] == a && ([a] + t)[1..] == t;
  }

  /** Stability: for every key, the elements carrying it appear in the result in
      the order they had in the input. */
  lemma {:induction false} SortByKeyStable<T(!new)>(s: seq<T>, key: T -> int, k: int)
    ensures WithKey(SortByKey(s, key), key, k) == WithKey(s, key, k)
  {
    if s != [] {
      var init, x := s[..|s| - 1], s[|s| - 1];
      var tail := if key(x) == k then [x] else [];
      calc {
        WithKey(SortByKey(s, key), key, k);
        WithKey(Insert(SortByKey(init, key), x, KeyLe(key)), key, k);
        { SortedByKey(init, key);
          InsertStable(SortByKey(init, key), x, key, k); }
        WithKey(SortByKey(init, key), key, k) + tail;
        { SortByKeyStable(init, key, k); }
        WithKey(init, key, k) + tail;
        { WithKeySnoc(s, key, k); }
        WithKey(s, key, k);
      }
    }
  }

  /** The last element of `s` comes last among those with its key. */
  lemma {:induction false} WithKeySnoc<T>(s: seq<T>, key: T -> int, k: int)
    requires s != []
    ensures WithKey(s, key, k)
            == WithKey(s[..|s| - 1], key, k) + (if key(s[|s| - 1]) == k then [s[|s| - 1]] else [])
  {
    var x := s[|s| - 1];
    assert s == s[..|s| - 1] + [x];
    WithKeyAppend(s[..|s| - 1], [x], key, k);
    assert [x][1..] == [];
  }

  /** The insertion sort by a key is ordered by that key. */
  lemma SortedByKey<T(!new)>(s: seq<T>, key: T -> int)
    ensures SortedBy(SortByKey(s, key), KeyLe(key))
  {
    KeyLeTotalPreorder(key);
    SortBySorted(s, KeyLe(key));
  }

  lemma KeyLeTotalPreorder<T(!new)>(key: T -> int)
    ensures TotalPreorder(KeyLe(key))
  {
  }

  /** Sorting by a key orders the result by non-decreasing key. */
  lemma SortByKeySorted<T(!new)>(s: seq<T>, key: T -> int)
    ensures multiset(SortByKey(s, key)) == multiset(s)
    ensures forall i, j :: 0 <= i < j < |SortByKey(s, key)| ==>
              key(SortByKey(s, key)[i]) <= key(SortByKey(s, key)[j])
  {
    KeyLeTotalPreorder(key);
    SortBySorted(s, KeyLe(key));
    SortByPerm(s, KeyLe(key));
  }

  // ---- sorting by a string field (`sort_by(|a, b| a.name.cmp(&b.name))`, `sort()`) ----

  function NameLe<T>(name: T -> string): (T, T) -> bool {
    (a: T, b: T) => StrLe(name(a), name(b))
  }

  function SortByName<T>(s: seq<T>, name: T -> string): seq<T> {
    SortBy(s, NameLe(name))
  }

  lemma NameLeTotalPreorder<T(!new)>(name: T -> string)
    ensures TotalPreorder(NameLe(name))
  {
    forall a: T, b: T ensures NameLe(name)(a, b) || NameLe(name)(b, a) {
      StrLeTotal(name(a), name(b));
    }
    forall a: T, b: T, c: T | NameLe(name)(a, b) && NameLe(name)(b, c)
      ensures NameLe(name)(a, c)
    {
      StrLeTransitive(name(a), name(b), name(c));
    }
  }

  /** Sorting by a string field gives a permutation in lexicographic order of
      that field. */
  lemma SortByNameSorted<T(!new)>(s: seq<T>, name: T -> string)
    ensures multiset(SortByName(s, name)) == multiset(s)
    ensures forall i, j :: 0 <= i < j < |SortByName(s, name)| ==>
              StrLe(name(SortByName(s, name)[i]), name(SortByName(s, name)[j]))
  {
    NameLeTotalPreorder(name);
    SortBySorted(s, NameLe(name));
    SortByPerm(s, NameLe(name));
  }
}
