/** Stable insertion by a key: what VectorImpl::sort and ALooper::post do to an ordered list. */
module StableSort {
  predicate SortedBy<T>(s: seq<T>, key: T -> int) {
    forall i, j :: 0 <= i < j < |s| ==> key(s[i]) <= key(s[j])
  }

  /** Puts e behind everything with a key no larger than its own. */
  function Insert<T>(s: seq<T>, e: T, key: T -> int): seq<T> {
    if s == [] || key(s[|s| - 1]) <= key(e) then s + [e]
    else Insert(s[..|s| - 1], e, key) + [s[|s| - 1]]
  }

  function Sort<T>(s: seq<T>, key: T -> int): seq<T> {
    if s == [] then [] else Insert(Sort(s[..|s| - 1], key), s[|s| - 1], key)
  }

  /** The elements with key k, in order. */
  function WithKey<T>(s: seq<T>, key: T -> int, k: int): seq<T> {
    if s == [] then [] else
      WithKey(s[..|s| - 1], key, k) + if key(s[|s| - 1]) == k then [s[|s| - 1]] else []
  }

  lemma {:induction false} InsertIsSorted<T>(s: seq<T>, e: T, key: T -> int)
    requires SortedBy(s, key)
    ensures SortedBy(Insert(s, e, key), key)
    ensures forall x :: x in Insert(s, e, key) ==> x == e || x in s
  {
    if s != [] && key(s[|s| - 1]) > key(e) {
      var init := s[..|s| - 1];
      InsertIsSorted(init, e, key);
      var r := Insert(init, e, key);
      forall i | 0 <= i < |r| ensures key(r[i]) <= key(s[|s| - 1]) {
        assert r[i] in r;
      }
    }
  }

  lemma {:induction false} SortIsSorted<T>(s: seq<T>, key: T -> int)
    ensures SortedBy(Sort(s, key), key)
  {
    if s != [] {
      SortIsSorted(s[..|s| - 1], key);
      InsertIsSorted(Sort(s[..|s| - 1], key), s[|s| - 1], key);
    }
  }

  lemma {:induction false} InsertIsPermutation<T>(s: seq<T>, e: T, key: T -> int)
    ensures multiset(Insert(s, e, key)) == multiset(s + [e])
  {
    if s != [] && key(s[|s| - 1]) > key(e) {
      InsertIsPermutation(s[..|s| - 1], e, key);
      assert s == s[..|s| - 1] + [s[|s| - 1]];
    }
  }

  lemma {:induction false} SortIsPermutation<T>(s: seq<T>, key: T -> int)
    ensures multiset(Sort(s, key)) == multiset(s)
  {
    if s != [] {
      SortIsPermutation(s[..|s| - 1], key);
      InsertIsPermutation(Sort(s[..|s| - 1], key), s[|s| - 1], key);
      assert s == s[..|s| - 1] + [s[|s| - 1]];
    }
  }

  lemma WithKeyAppend<T>(s: seq<T>, e: T, key: T -> int, k: int)
    ensures WithKey(s + [e], key, k) == WithKey(s, key, k) + if key(e) == k then [e] else []
  {
    assert (s + [e])[..|s|] == s;
  }

  lemma {:induction false} InsertKeepsOrder<T>(s: seq<T>, e: T, key: T -> int, k: int)
    requires SortedBy(s, key)
    ensures WithKey(Insert(s, e, key), key, k) == WithKey(s, key, k) + if key(e) == k then [e] else []
  {
    if s == [] || key(s[|s| - 1]) <= key(e) {
      WithKeyAppend(s, e, key, k);
    } else {
      var init, last := s[..|s| - 1], s[|s| - 1];
      InsertKeepsOrder(init, e, key, k);
      WithKeyAppend(Insert(init, e, key), last, key, k);
      Commute(WithKey(init, key, k), if key(e) == k then [e] else [], if key(last) == k then [last] else []);
    }
  }

  // Adding nothing can be done at any time.
  lemma Commute<T>(x: seq<T>, a: seq<T>, b: seq<T>)
    requires a == [] || b == []
    ensures x + a + b == x + b + a
  {}

  /** Elements with the same key stay in the order they came in. */
  lemma {:induction false} SortIsStable<T>(s: seq<T>, key: T -> int, k: int)
    ensures WithKey(Sort(s, key), key, k) == WithKey(s, key, k)
  {
    if s != [] {
      var init := s[..|s| - 1];
      SortIsSorted(init, key);
      SortIsStable(init, key, k);
      InsertKeepsOrder(Sort(init, key), s[|s| - 1], key, k);
    }
  }

  /** Where Insert puts e. */
  lemma {:induction false} InsertAt<T>(s: seq<T>, e: T, key: T -> int, k: nat)
    requires k <= |s| && (k > 0 ==> key(s[k - 1]) <= key(e)) && forall i :: k <= i < |s| ==> key(s[i]) > key(e)
    ensures Insert(s, e, key) == s[..k] + [e] + s[k..]
  {
    if k == |s| {
      assert s[..k] == s && s[k..] == [];
    } else {
      var init := s[..|s| - 1];
      InsertAt(init, e, key, k);
      assert init[..k] == s[..k] && s[k..] == init[k..] + [s[|s| - 1]];
    }
  }

  lemma SortNext<T>(s: seq<T>, key: T -> int, i: nat)
    requires i < |s|
    ensures Sort(s[..i + 1], key) == Insert(Sort(s[..i], key), s[i], key)
  {
    assert s[..i + 1][..i] == s[..i];
  }

  lemma {:induction false} SortSize<T>(s: seq<T>, key: T -> int)
    ensures |Sort(s, key)| == |s|
  {
    SortIsPermutation(s, key);
    assert |multiset(Sort(s, key))| == |multiset(s)|;
  }
}
