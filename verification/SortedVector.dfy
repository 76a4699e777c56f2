/** SortedVectorImpl (libutils/VectorImpl.cpp): a vector kept in the order of its items' keys stands for a
    map from keys to items. */
module SortedVector {
  import opened StableSort
  import opened VectorImpl

  predicate Increasing<T>(s: seq<T>, key: T -> int) {
    forall i, j :: 0 <= i < j < |s| ==> key(s[i]) < key(s[j])
  }

  /** The items by key; of several with the same key, the last. */
  function AsMap<T>(s: seq<T>, key: T -> int): map<int, T> {
    if s == [] then map[] else AsMap(s[..|s| - 1], key)[key(s[|s| - 1]) := s[|s| - 1]]
  }

  lemma {:induction false} KeysOf<T>(s: seq<T>, key: T -> int, k: int)
    ensures k in AsMap(s, key) <==> exists i :: 0 <= i < |s| && key(s[i]) == k
  {
    if s != [] {
      var init := s[..|s| - 1];
      KeysOf(init, key, k);
      if i :| 0 <= i < |init| && key(init[i]) == k {
        assert key(s[i]) == k;
      }
      if i :| 0 <= i < |s| && key(s[i]) == k {
        if i < |init| { assert key(init[i]) == k; }
      }
    }
  }

  /** What comes later wins. */
  lemma {:induction false} MapOfBoth<T>(a: seq<T>, b: seq<T>, key: T -> int)
    ensures AsMap(a + b, key) == AsMap(a, key) + AsMap(b, key)
  {
    if b == [] {
      assert a + b == a;
    } else {
      var init := b[..|b| - 1];
      assert (a + b)[..|a + b| - 1] == a + init;
      MapOfBoth(a, init, key);
    }
  }

  lemma MapOfOne<T>(e: T, key: T -> int)
    ensures AsMap([e], key) == map[key(e) := e]
  {
    assert [e][..0] == [];
  }

  // ------------------------------------------------------------------ what editing does to the map

  /** All keys of s are below k; all are above it. */
  predicate Below<T>(s: seq<T>, key: T -> int, k: int) { forall i :: 0 <= i < |s| ==> key(s[i]) < k }
  predicate Above<T>(s: seq<T>, key: T -> int, k: int) { forall i :: 0 <= i < |s| ==> key(s[i]) > k }

  /** Where an item with key k belongs. */
  predicate Belongs<T>(s: seq<T>, key: T -> int, k: int, order: nat) {
    order <= |s| && Below(s[..order], key, k) && Above(s[order..], key, k)
  }

  // A strictly increasing vector around one of its items.
  lemma Around<T>(s: seq<T>, key: T -> int, index: nat)
    requires Increasing(s, key) && index < |s|
    ensures var x, y, k := s[..index], s[index + 1..], key(s[index]);
            s == x + [s[index]] + y && Increasing(x, key) && Increasing(y, key) && Below(x, key, k) && Above(y, key, k)
  {}

  // The three parts together.
  lemma Together<T>(x: seq<T>, key: T -> int, e: T, y: seq<T>)
    requires Increasing(x, key) && Increasing(y, key) && Below(x, key, key(e)) && Above(y, key, key(e))
    ensures Increasing(x + [e] + y, key) && AsMap(x + [e] + y, key) == (AsMap(x, key) + AsMap(y, key))[key(e) := e]
  {
    InOrder(x, key, e, y);
    MapOfBoth(x + [e], y, key);
    MapOfBoth(x, [e], key);
    MapOfOne(e, key);
    KeysOf(y, key, key(e));
    PutBetween(AsMap(x, key), key(e), e, AsMap(y, key));
  }

  lemma InOrder<T>(x: seq<T>, key: T -> int, e: T, y: seq<T>)
    requires Increasing(x, key) && Increasing(y, key) && Below(x, key, key(e)) && Above(y, key, key(e))
    ensures Increasing(x + [e] + y, key)
  {
    var r := x + [e] + y;
    forall i | 0 <= i < |r|
      ensures r[i] == if i < |x| then x[i] else if i == |x| then e else y[i - |x| - 1]
    {}
  }

  lemma PutBetween<T>(x: map<int, T>, k: int, e: T, y: map<int, T>)
    requires k !in y
    ensures (x + map[k := e]) + y == (x + y)[k := e]
  {}

  lemma Inserted<T>(s: seq<T>, key: T -> int, e: T, order: nat)
    requires Increasing(s, key) && Belongs(s, key, key(e), order)
    ensures var r := s[..order] + [e] + s[order..];
            Increasing(r, key) && AsMap(r, key) == AsMap(s, key)[key(e) := e]
  {
    var x, y := s[..order], s[order..];
    assert x + y == s;
    MapOfBoth(x, y, key);
    Together(x, key, e, y);
  }

  lemma Replaced<T>(s: seq<T>, key: T -> int, e: T, index: nat)
    requires Increasing(s, key) && index < |s| && key(s[index]) == key(e)
    ensures Increasing(s[index := e], key) && AsMap(s[index := e], key) == AsMap(s, key)[key(e) := e]
  {
    var x, y := s[..index], s[index + 1..];
    Around(s, key, index);
    Together(x, key, s[index], y);
    Together(x, key, e, y);
    assert s[index := e] == x + [e] + y;
  }

  // Replacing an item by itself changes nothing.
  lemma ReplacedBySelf<T>(s: seq<T>, key: T -> int, e: T, index: nat)
    requires Increasing(s, key) && index < |s| && key(s[index]) == key(e)
    ensures e in s ==> s[index := e] == s
  {
    if e in s {
      var i :| 0 <= i < |s| && s[i] == e;
      assert i == index;
    }
  }

  // An item that belongs between others is not one of them.
  lemma NotThere<T>(s: seq<T>, key: T -> int, e: T, order: nat)
    requires Belongs(s, key, key(e), order)
    ensures e !in s
  {
    assert s == s[..order] + s[order..];
  }

  lemma Removed<T>(s: seq<T>, key: T -> int, index: nat)
    requires Increasing(s, key) && index < |s|
    ensures var r := s[..index] + s[index + 1..];
            Increasing(r, key) && AsMap(r, key) == AsMap(s, key) - {key(s[index])}
  {
    var x, y, k := s[..index], s[index + 1..], key(s[index]);
    Around(s, key, index);
    Together(x, key, s[index], y);
    WithoutMiddle(x, y, key, k);
    MapOfBoth(x, y, key);
    TakenOut(AsMap(x, key) + AsMap(y, key), k, s[index]);
  }

  lemma WithoutMiddle<T>(x: seq<T>, y: seq<T>, key: T -> int, k: int)
    requires Increasing(x, key) && Increasing(y, key) && Below(x, key, k) && Above(y, key, k)
    ensures Increasing(x + y, key) && k !in AsMap(x, key) && k !in AsMap(y, key)
  {
    KeysOf(x, key, k);
    KeysOf(y, key, k);
    forall i | 0 <= i < |x + y| ensures (x + y)[i] == if i < |x| then x[i] else y[i - |x|] {}
  }

  lemma TakenOut<T>(m: map<int, T>, k: int, e: T)
    requires k !in m
    ensures m[k := e] - {k} == m == m - {k}
  {}

  // What a search says about the map.
  lemma Searched<T>(s: seq<T>, key: T -> int, k: int, index: int, order: nat)
    requires index >= 0 ==> index < |s| && key(s[index]) == k
    requires index < 0 ==> Belongs(s, key, k, order)
    ensures index >= 0 <==> k in AsMap(s, key)
    ensures index < 0 ==> AsMap(s, key) - {k} == AsMap(s, key)
  {
    KeysOf(s, key, k);
    if index < 0 {
      assert s == s[..order] + s[order..];
      forall i | 0 <= i < |s| ensures key(s[i]) != k {
        assert s[i] == if i < order then s[..order][i] else s[order..][i - order];
      }
    }
  }

  // One more item merged.
  lemma MergedOne<T>(m: map<int, T>, s: seq<T>, key: T -> int, i: nat)
    requires i < |s|
    ensures (m + AsMap(s[..i], key))[key(s[i]) := s[i]] == m + AsMap(s[..i + 1], key)
  {
    assert s[..i + 1][..i] == s[..i];
  }

  // ------------------------------------------------------------------ merging at the ends

  /** The merged vectors meet in a key that both have, and the shortcut for vectors that are sorted
      together is taken. */
  predicate EndsTouch<T>(a: seq<T>, b: seq<T>, key: T -> int)
  {
    a != [] && b != []
        && (key(b[|b| - 1]) == key(a[0]) || (key(b[|b| - 1]) > key(a[0]) && key(b[0]) == key(a[|a| - 1])))
  }

  // One after the other: strictly increasing exactly when the ends differ.
  lemma Joined<T>(a: seq<T>, b: seq<T>, key: T -> int)
    requires Increasing(a, key) && Increasing(b, key) && a != [] && b != [] && key(a[|a| - 1]) <= key(b[0])
    ensures SortedBy(a + b, key)
    ensures Increasing(a + b, key) <==> key(a[|a| - 1]) < key(b[0])
    ensures key(a[|a| - 1]) < key(b[0]) ==>
              AsMap(a + b, key) == AsMap(a, key) + AsMap(b, key) == AsMap(b, key) + AsMap(a, key)
  {
    var r := a + b;
    forall i | 0 <= i < |r| ensures if i < |a| then key(r[i]) <= key(a[|a| - 1]) else key(r[i]) >= key(b[0]) {
      if i < |a| - 1 { assert key(a[i]) < key(a[|a| - 1]); }
      if i > |a| { assert key(b[0]) < key(b[i - |a|]); }
    }
    assert r[|a| - 1] == a[|a| - 1] && r[|a|] == b[0];
    if key(a[|a| - 1]) < key(b[0]) {
      JoinedMaps(a, b, key, key(b[0]));
    }
  }

  lemma JoinedMaps<T>(a: seq<T>, b: seq<T>, key: T -> int, k: int)
    requires Below(a, key, k) && (forall i :: 0 <= i < |b| ==> key(b[i]) >= k)
    ensures AsMap(a + b, key) == AsMap(a, key) + AsMap(b, key) == AsMap(b, key) + AsMap(a, key)
  {
    MapOfBoth(a, b, key);
    forall x | x in AsMap(a, key) ensures x !in AsMap(b, key) {
      KeysOf(a, key, x);
      KeysOf(b, key, x);
    }
    assert AsMap(a, key) + AsMap(b, key) == AsMap(b, key) + AsMap(a, key);
  }

  /** What merging b into a should come to. */
  ghost predicate MergedInto<T>(r: seq<T>, a: seq<T>, b: seq<T>, key: T -> int)
  {
    && SortedBy(r, key)
    && (Increasing(r, key) <==> !EndsTouch(a, b, key))
    && (!EndsTouch(a, b, key) ==> AsMap(r, key) == AsMap(a, key) + AsMap(b, key))
    && (EndsTouch(a, b, key) ==> r == a + b || r == b + a)
  }

  lemma MergedInFront<T>(a: seq<T>, b: seq<T>, key: T -> int)
    requires Increasing(a, key) && Increasing(b, key) && a != [] && b != [] && key(b[|b| - 1]) <= key(a[0])
    ensures MergedInto(b + a, a, b, key)
  {
    Joined(b, a, key);
    FirstIsLeast(a, key);
    FirstIsLeast(b, key);
  }

  lemma MergedNothing<T>(a: seq<T>, key: T -> int)
    requires Increasing(a, key)
    ensures MergedInto(a, a, [], key)
  {}

  lemma MergedBehind<T>(a: seq<T>, b: seq<T>, key: T -> int)
    requires Increasing(a, key) && Increasing(b, key) && a != [] && b != []
    requires key(b[|b| - 1]) > key(a[0]) && key(b[0]) >= key(a[|a| - 1])
    ensures MergedInto(a + b, a, b, key)
  {
    Joined(a, b, key);
  }

  lemma FirstIsLeast<T>(s: seq<T>, key: T -> int)
    requires Increasing(s, key) && s != []
    ensures key(s[0]) <= key(s[|s| - 1])
  {
    if |s| > 1 { assert key(s[0]) < key(s[|s| - 1]); }
  }

  // ------------------------------------------------------------------ the operations

  /** _indexOrderOf: an item with the key if there is one, and otherwise where it belongs. */
  method IndexOrderOf<T(0)>(v: Vector<T>, k: int, key: T -> int, ghost world: set<Vector<T>>)
          returns (index: int, order: nat)
    requires v.Valid(world) && SortedBy(v.Contents(), key)
    ensures index >= 0 ==> index == order < |v.Contents()| && key(v.Contents()[index]) == k
    ensures index < 0 ==> Belongs(v.Contents(), key, k, order)
  {
    assert Stored(world, v);
    ghost var s := v.Contents();
    index := -1;
    var l, h := 0, v.count - 1;
    while l <= h
      invariant 0 <= l <= h + 1 <= |s|
      invariant Below(s[..l], key, k) && Above(s[h + 1..], key, k)
      decreases h - l
    {
      var mid := l + (h - l) / 2;
      var c := key(v.storage.slots[mid]);
      assert v.storage.slots[mid] == s[mid];
      if c == k {
        return mid, mid;
      } else if c < k {
        l := mid + 1;
      } else {
        h := mid - 1;
      }
    }
    order := l;
  }

  /** add: one item more, or one replaced. */
  method Add<T(0)>(v: Vector<T>, e: T, key: T -> int, ghost world: set<Vector<T>>) returns (r: Result)
    requires v.Valid(world) && Increasing(v.Contents(), key)
    modifies v`storage, v`count, v.Buffer()
    ensures v.Valid(world) && Increasing(v.Contents(), key)
    ensures AsMap(v.Contents(), key) == old(AsMap(v.Contents(), key))[key(e) := e]
    ensures r.Index? && r.index < |v.Contents()| && v.Contents()[r.index] == e
    ensures e in old(v.Contents()) ==> v.Contents() == old(v.Contents())
    ensures v.storage == old(v.storage) || (v.storage != null && fresh(v.storage))
    ensures forall u :: u in world && u != v ==> u.Contents() == old(u.Contents())
  {
    assert Stored(world, v);
    ghost var s := v.Contents();
    var index, order := IndexOrderOf(v, key(e), key, world);
    if index < 0 {
      Inserted(s, key, e, order);
      NotThere(s, key, e, order);
      r := v.InsertArrayAt([e], order, world);
    } else {
      Replaced(s, key, e, index);
      ReplacedBySelf(s, key, e, index);
      r := v.ReplaceAt(e, index, world);
    }
  }

  /** remove: the item with the key goes, if there is one. */
  method Remove<T(0)>(v: Vector<T>, k: int, key: T -> int, ghost world: set<Vector<T>>) returns (index: int)
    requires v.Valid(world) && Increasing(v.Contents(), key)
    modifies v`storage, v`count, v.Buffer()
    ensures v.Valid(world) && Increasing(v.Contents(), key)
    ensures AsMap(v.Contents(), key) == old(AsMap(v.Contents(), key)) - {k}
    ensures index >= 0 <==> k in old(AsMap(v.Contents(), key))
    ensures forall u :: u in world && u != v ==> u.Contents() == old(u.Contents())
  {
    assert Stored(world, v);
    ghost var s := v.Contents();
    var order;
    index, order := IndexOrderOf(v, k, key, world);
    Searched(s, key, k, index, order);
    if index >= 0 {
      Removed(s, key, index);
      var _ := v.RemoveItemsAt(index, 1, world);
    }
  }

  /** merge of any vector, itself included: its items are added one by one. */
  method Merge<T(0)>(v: Vector<T>, w: Vector<T>, key: T -> int, ghost world: set<Vector<T>>)
    requires v.Valid(world) && w in world && Increasing(v.Contents(), key)
    modifies v`storage, v`count, v.Buffer()
    ensures v.Valid(world) && Increasing(v.Contents(), key)
    ensures AsMap(v.Contents(), key) == old(AsMap(v.Contents(), key)) + AsMap(old(w.Contents()), key)
    ensures forall u :: u in world && u != v ==> u.Contents() == old(u.Contents())
  {
    ghost var m, s := AsMap(v.Contents(), key), w.Contents();
    var i := 0;
    assert Stored(world, w);
    assert m + AsMap(s[..0], key) == m;
    while i < w.count
      invariant i <= w.count == |s| && w.Contents() == s
      invariant v.Valid(world) && Increasing(v.Contents(), key)
      invariant AsMap(v.Contents(), key) == m + AsMap(s[..i], key)
      invariant v.storage == old(v.storage) || (v.storage != null && fresh(v.storage))
      invariant forall u :: u in world && u != v ==> u.Contents() == old(u.Contents())
    {
      assert Stored(world, w);
      assert w.storage.slots[i] == s[i];
      MergedOne(m, s, key, i);
      var _ := Add(v, w.storage.slots[i], key, world);
      i := i + 1;
    }
    assert s[..i] == s;
  }

  /** merge of a sorted vector: still one item to a key, and the other vector's items winning, exactly when
      the two do not touch at their ends.  If they do, the key they meet in is in the vector twice. */
  method MergeSorted<T(0)>(v: Vector<T>, w: Vector<T>, key: T -> int, ghost world: set<Vector<T>>)
    requires v.Valid(world) && w in world && w != v && Increasing(v.Contents(), key) && Increasing(w.Contents(), key)
    requires w.count > 0 ==> v.count > 0  // the first item of this vector is read
    modifies v`storage, v`count, v.Buffer()
    ensures v.Valid(world) && MergedInto(v.Contents(), old(v.Contents()), old(w.Contents()), key)
    ensures forall u :: u in world && u != v ==> u.Contents() == old(u.Contents())
  {
    assert Stored(world, v) && Stored(world, w);
    ghost var a, b := v.Contents(), w.Contents();
    if w.count == 0 {
      MergedNothing(a, key);
    } else {
      var first, last := v.storage.slots[0], v.storage.slots[v.count - 1];
      var wFirst, wLast := w.storage.slots[0], w.storage.slots[w.count - 1];
      if key(wLast) <= key(first) {
        MergedInFront(a, b, key);
        AtFront(a, b);
        var _ := v.InsertArrayAt(w.storage.slots[..w.count], 0, world);
      } else if key(wFirst) >= key(last) {
        MergedBehind(a, b, key);
        AtBack(a, b);
        var _ := v.InsertArrayAt(w.storage.slots[..w.count], v.count, world);
      } else {
        Merge(v, w, key, world);
      }
    }
  }

  /** Whenever the ends touch, the merged vector has a key twice. */
  lemma MergeDuplicates<T>(r: seq<T>, a: seq<T>, b: seq<T>, key: T -> int)
    requires EndsTouch(a, b, key) && MergedInto(r, a, b, key)
    ensures exists i, j :: 0 <= i < j < |r| && key(r[i]) == key(r[j])
  {
    var i, j :| 0 <= i < j < |r| && !(key(r[i]) < key(r[j]));
    assert key(r[i]) <= key(r[j]);
  }

  /** Two strictly increasing vectors whose merge has a key twice. */
  lemma MergeCanDuplicate(r: seq<int>)
    requires MergedInto(r, [1, 2], [2, 3], (x: int) => x)
    ensures exists i, j :: 0 <= i < j < |r| && r[i] == r[j]
  {
    var key := (x: int) => x;
    MergeDuplicates(r, [1, 2], [2, 3], key);
    var i, j :| 0 <= i < j < |r| && key(r[i]) == key(r[j]);
  }

  lemma AtFront<T>(a: seq<T>, b: seq<T>)
    ensures a[..0] + b + a[0..] == b + a
  {}

  lemma AtBack<T>(a: seq<T>, b: seq<T>)
    ensures a[..|a|] + b + a[|a|..] == a + b
  {}
}
