/** VectorImpl over reference-counted, copy-on-write buffers (libutils/VectorImpl.cpp,
    libutils/SharedBuffer.cpp): vectors that share storage behave like independent sequences. */
module VectorImpl {
  import opened StableSort

  const MIN_VECTOR_CAPACITY: nat := 4

  function Max(a: nat, b: nat): nat { if a > b then a else b }

  class SharedBuffer<T(0)> {
    var refs: nat        // mRefs
    var slots: seq<T>    // the storage; those past a vector's count hold nothing of interest

    constructor (capacity: nat)
      ensures refs == 1 && |slots| == capacity
    {
      refs := 1;
      var a := new T[capacity];
      slots := a[..];
    }

    function OnlyOwner(): bool
      reads this
    {
      refs == 1
    }

    method Acquire()
      modifies `refs
      ensures refs == old(refs) + 1
    {
      refs := refs + 1;
    }

    /** release with eKeepStorage: the count before. */
    method Release() returns (prev: nat)
      requires refs > 0
      modifies `refs
      ensures prev == old(refs) && refs == old(refs) - 1
    {
      prev := 1;
      if OnlyOwner() {
        refs := 0;
      } else {
        prev := refs;
        refs := refs - 1;
      }
    }
  }

  /** The vectors of `world` that point at buffer b. */
  ghost function Sharers<T(0)>(world: set<Vector<T>>, b: SharedBuffer<T>): set<Vector<T>>
    reads world
  {
    set v | v in world && v.storage == b
  }

  // What one vector's storage is like.
  ghost predicate Stored<T(0)>(world: set<Vector<T>>, v: Vector<T>)
    reads world, set u | u in world && u.storage != null :: u.storage
    requires v in world
  {
    if v.storage == null then v.count == 0
    else v.count <= |v.storage.slots| && v.storage.refs == |Sharers(world, v.storage)|
  }

  /** Every buffer's count is the number of vectors that point at it, and no vector holds more than its
      buffer has room for. */
  ghost predicate Consistent<T(0)>(world: set<Vector<T>>)
    reads world, set u | u in world && u.storage != null :: u.storage
  {
    forall v :: v in world ==> Stored(world, v)
  }

  class Vector<T(0)> {
    const trivial: bool               // HAS_TRIVIAL_COPY and HAS_TRIVIAL_DTOR
    var storage: SharedBuffer?<T>     // mStorage
    var count: nat                    // mCount

    ghost predicate Valid(world: set<Vector<T>>)
      reads world, set u | u in world && u.storage != null :: u.storage
    {
      this in world && Consistent(world)
    }

    /** The sequence this vector stands for. */
    ghost function Contents(): seq<T>
      reads this, storage
    {
      if storage == null || count > |storage.slots| then [] else storage.slots[..count]
    }

    constructor (trivial: bool)
      ensures storage == null && count == 0 && this.trivial == trivial
    {
      this.trivial, storage, count := trivial, null, 0;
    }

    function Capacity(): nat
      reads this, storage
    {
      if storage == null then 0 else |storage.slots|
    }

    // What this vector's methods may change besides the vector.
    ghost function Buffer(): set<object>
      reads this
    {
      if storage == null then {} else {storage}
    }

    /** release_storage, and on to a buffer that no vector has yet. */
    method MoveTo(sb: SharedBuffer<T>, ghost world: set<Vector<T>>)
      requires Valid(world) && sb.refs == 1 && count <= |sb.slots|
      requires forall v :: v in world ==> v.storage != sb
      modifies `storage, Buffer()
      ensures Valid(world) && storage == sb && storage.refs == 1
      ensures old(storage) != null ==> old(storage).slots == old(storage.slots)
    {
      ghost var was := storage;
      if storage != null {
        SharersPositive(world, this);
        var _ := storage.Release();
      }
      ghost var before := if was == null then {} else Sharers(world, was);
      storage := sb;
      assert Sharers(world, sb) == {this};
      if was != null {
        assert Sharers(world, was) == before - {this};
      }
      forall v | v in world ensures Stored(world, v) {
        if v != this && v.storage != null && v.storage != was {
          assert Sharers(world, v.storage) == old(Sharers(world, v.storage));
        }
      }
    }

    /** editArrayImpl: the storage is this vector's alone. */
    method EditArray(ghost world: set<Vector<T>>)
      requires Valid(world)
      modifies `storage, Buffer()
      ensures Valid(world) && (storage != null ==> storage.refs == 1)
      ensures Contents() == old(Contents()) && Capacity() == old(Capacity())
              && (storage == null <==> old(storage) == null)
      ensures storage == old(storage) || (storage != null && fresh(storage))
      ensures old(storage) != null ==> old(storage).slots == old(storage.slots)
    {
      if storage != null && !storage.OnlyOwner() {
        assert Stored(world, this);
        var sb := new SharedBuffer<T>(Capacity());
        sb.slots := storage.slots[..count] + sb.slots[count..];
        MoveTo(sb, world);
      }
    }

    // Changing the slots of a buffer that is this vector's alone.
    method Fill(slots: seq<T>, ghost world: set<Vector<T>>)
      requires Valid(world) && storage != null && storage.refs == 1 && count <= |slots|
      modifies storage`slots
      ensures Valid(world) && storage.slots == slots
      ensures forall v :: v in world && v != this ==> v.storage != storage
    {
      storage.slots := slots;
      forall v | v in world ensures Stored(world, v) && (v != this ==> v.storage != storage) {
        if v.storage == storage { SoleOwner(world, this, v); }
      }
    }

    method SetCount(n: nat, ghost world: set<Vector<T>>)
      requires Valid(world) && (if storage == null then n == 0 else n <= |storage.slots|)
      modifies `count
      ensures Valid(world) && count == n
    {
      count := n;
      forall v | v in world ensures Stored(world, v) {
        assert v.storage != null ==> Sharers(world, v.storage) == old(Sharers(world, v.storage));
      }
    }

    /** editResize of the storage, of which the first `keep` items are still wanted. */
    method EditResize(newCapacity: nat, keep: nat, ghost world: set<Vector<T>>)
      requires Valid(world) && storage != null && keep <= count && keep <= newCapacity
      modifies `storage, `count, Buffer()
      ensures Valid(world) && storage != null && storage.refs == 1
      ensures |storage.slots| == newCapacity && count == keep && Contents() == old(Contents())[..keep]
      ensures storage == old(storage) || fresh(storage)
      ensures forall v :: v in world && v != this ==> v.Contents() == old(v.Contents())
    {
      assert Stored(world, this);
      SetCount(keep, world);
      if storage.OnlyOwner() {
        Reallocate(newCapacity, world);
      } else {
        CopyFront(newCapacity, world);
      }
    }

    // realloc.
    method Reallocate(newCapacity: nat, ghost world: set<Vector<T>>)
      requires Valid(world) && storage != null && storage.refs == 1 && count <= newCapacity
      modifies storage`slots
      ensures Valid(world) && |storage.slots| == newCapacity && Contents() == old(Contents())
      ensures forall v :: v in world && v != this ==> v.Contents() == old(v.Contents())
    {
      assert Stored(world, this);
      var more := new T[newCapacity];
      var n := if newCapacity < |storage.slots| then newCapacity else |storage.slots|;
      FrontKept(storage.slots, more[..], n, count);
      Fill(storage.slots[..n] + more[n..], world);
    }

    // alloc, memcpy, release.
    method CopyFront(newCapacity: nat, ghost world: set<Vector<T>>)
      requires Valid(world) && storage != null && storage.refs != 1 && count <= newCapacity
      modifies `storage, Buffer()
      ensures Valid(world) && storage != null && storage.refs == 1 && fresh(storage)
      ensures |storage.slots| == newCapacity && Contents() == old(Contents())
      ensures forall v :: v in world && v != this ==> v.Contents() == old(v.Contents())
    {
      assert Stored(world, this);
      var sb := new SharedBuffer<T>(newCapacity);
      var n := if newCapacity < |storage.slots| then newCapacity else |storage.slots|;
      FrontKept(storage.slots, sb.slots, n, count);
      sb.slots := storage.slots[..n] + sb.slots[n..];
      MoveTo(sb, world);
    }

    // Two pieces of the storage go to a new buffer, with a gap between them.
    method CopyOut(newCapacity: nat, a: nat, b: nat, gap: nat, keep: nat, ghost world: set<Vector<T>>)
      requires Valid(world) && a <= b <= count && a + gap + (count - b) == keep <= newCapacity
      modifies `storage, `count, Buffer()
      ensures Valid(world) && storage != null && storage.refs == 1 && fresh(storage)
      ensures count == keep && Contents()[..a] == old(Contents())[..a] && Contents()[a + gap..] == old(Contents())[b..]
      ensures old(storage) != null ==> old(storage).slots == old(storage.slots)
    {
      assert Stored(world, this);
      var sb := new SharedBuffer<T>(newCapacity);
      if storage != null {
        PiecesKept(storage.slots, sb.slots, a, gap, b, count);
        sb.slots := storage.slots[..a] + sb.slots[a..a + gap] + storage.slots[b..count] + sb.slots[keep..];
      }
      var n := if keep <= count then keep else count;
      SetCount(n, world);
      MoveTo(sb, world);
      SetCount(keep, world);
    }

    /** _grow: room for `amount` items at `where`, in storage of its own. */
    method Grow(where: nat, amount: nat, ghost world: set<Vector<T>>)
      requires Valid(world) && where <= count
      modifies `storage, `count, Buffer()
      ensures Valid(world) && (if storage == null then old(count) + amount == 0 else storage.refs == 1)
      ensures count == |Contents()| == old(count) + amount
      ensures HasRoom(old(Contents()), Contents(), where, amount)
      ensures amount == 0 ==> Capacity() == old(Capacity())
      ensures storage == old(storage) || (storage != null && fresh(storage))
      ensures forall v :: v in world && v != this ==> v.Contents() == old(v.Contents())
    {
      assert Stored(world, this);
      var newSize := count + amount;
      if Capacity() < newSize {
        var newCapacity := Max(MIN_VECTOR_CAPACITY, (newSize * 3 + 1) / 2);
        if storage != null && count == where && trivial {
          EditResize(newCapacity, count, world);
          SetCount(newSize, world);
        } else {
          CopyOut(newCapacity, where, where, amount, newSize, world);
        }
      } else {
        EditArray(world);
        if where != count {
          Fill(storage.slots[..where + amount] + storage.slots[where..count] + storage.slots[newSize..], world);
        }
        SetCount(newSize, world);
      }
    }

    /** _shrink: `amount` items at `where` go. */
    method Shrink(where: nat, amount: nat, ghost world: set<Vector<T>>)
      requires Valid(world) && where + amount <= count
      modifies `storage, `count, Buffer()
      ensures Valid(world)
      ensures Contents() == old(Contents())[..where] + old(Contents())[where + amount..]
      ensures forall v :: v in world && v != this ==> v.Contents() == old(v.Contents())
    {
      assert Stored(world, this);
      if storage == null {
        return;
      }
      ghost var was := Contents();
      var newSize := count - amount;
      if newSize * 3 < Capacity() {
        var newCapacity := Max(MIN_VECTOR_CAPACITY, newSize * 2);
        if where == newSize && trivial {
          EditResize(newCapacity, newSize, world);
        } else {
          CopyOut(newCapacity, where, where + amount, 0, newSize, world);
          TwoHalves(Contents(), where);
        }
        AllButTheLast(was, where, amount);
      } else {
        ShrinkInPlace(where, amount, world);
      }
    }

    method ShrinkInPlace(where: nat, amount: nat, ghost world: set<Vector<T>>)
      requires Valid(world) && where + amount <= count && storage != null
      modifies `storage, `count, Buffer()
      ensures Valid(world)
      ensures Contents() == old(Contents())[..where] + old(Contents())[where + amount..]
      ensures forall v :: v in world && v != this ==> v.Contents() == old(v.Contents())
    {
      assert Stored(world, this);
      ghost var was := Contents();
      EditArray(world);
      assert Stored(world, this);
      ClosedUp(storage.slots, where, amount, count);
      AllButTheLast(was, where, amount);
      if where != count - amount {
        Fill(storage.slots[..where] + storage.slots[where + amount..count] + storage.slots[count - amount..], world);
      }
      SetCount(count - amount, world);
    }

    // Copies items into storage of its own.
    method PutItems(items: seq<T>, index: nat, ghost world: set<Vector<T>>)
      requires Valid(world) && storage != null && storage.refs == 1 && index + |items| <= count
      modifies storage`slots
      ensures Valid(world)
      ensures Contents() == old(Contents())[..index] + items + old(Contents())[index + |items|..]
      ensures forall v :: v in world && v != this ==> v.Contents() == old(v.Contents())
    {
      assert Stored(world, this);
      PutInto(storage.slots, index, items, count);
      Fill(storage.slots[..index] + items + storage.slots[index + |items|..], world);
    }

    /** insertArrayAt, of items that are not in this vector's own storage.  Memory is reported to have run
        out exactly when nothing was to be inserted at the very end of the storage. */
    method InsertArrayAt(items: seq<T>, index: nat, ghost world: set<Vector<T>>) returns (r: Result)
      requires Valid(world)
      modifies `storage, `count, Buffer()
      ensures Valid(world)
      ensures index > old(count) <==> r == BadIndex
      ensures r == BadIndex ==> Contents() == old(Contents())
      ensures r != BadIndex ==> Contents() == old(Contents())[..index] + items + old(Contents())[index..]
      ensures r == NoMemory <==> index <= old(count) && items == [] && index == old(Capacity())
      ensures r == BadIndex || r == NoMemory || r == Index(index)
      ensures storage == old(storage) || (storage != null && fresh(storage))
      ensures forall v :: v in world && v != this ==> v.Contents() == old(v.Contents())
    {
      assert Stored(world, this);
      if index > count {
        return BadIndex;
      }
      r := InsertGrown(items, index, world);
    }

    method InsertGrown(items: seq<T>, index: nat, ghost world: set<Vector<T>>) returns (r: Result)
      requires Valid(world) && index <= count
      modifies `storage, `count, Buffer()
      ensures Valid(world) && r == if |items| == 0 && index == old(Capacity()) then NoMemory else Index(index)
      ensures Contents() == old(Contents())[..index] + items + old(Contents())[index..]
      ensures storage == old(storage) || (storage != null && fresh(storage))
      ensures forall v :: v in world && v != this ==> v.Contents() == old(v.Contents())
    {
      ghost var was := Contents();
      assert Stored(world, this);
      Grow(index, |items|, world);
      RoomIsFilled(was, Contents(), index, items);
      r := PutGrown(items, index, world);
    }

    // The copying, if there is a place to copy to.
    method PutGrown(items: seq<T>, index: nat, ghost world: set<Vector<T>>) returns (r: Result)
      requires Valid(world) && index + |items| <= count && (storage != null ==> storage.refs == 1)
      modifies Buffer()
      ensures Valid(world) && r == if index < old(Capacity()) then Index(index) else NoMemory
      ensures Contents() == old(Contents())[..index] + items + old(Contents())[index + |items|..]
      ensures forall v :: v in world && v != this ==> v.Contents() == old(v.Contents())
    {
      assert Stored(world, this);
      if index < Capacity() {
        PutItems(items, index, world);
        r := Index(index);
      } else {
        r := NoMemory;  // itemLocation is null, although nothing was to be copied
        NothingToPut(Contents(), index, items);
      }
    }

    method RemoveItemsAt(index: nat, n: nat, ghost world: set<Vector<T>>) returns (r: Result)
      requires Valid(world)
      modifies `storage, `count, Buffer()
      ensures Valid(world)
      ensures if index + n > old(count) then r == BadIndex && Contents() == old(Contents())
              else r == Index(index) && Contents() == old(Contents())[..index] + old(Contents())[index + n..]
      ensures forall v :: v in world && v != this ==> v.Contents() == old(v.Contents())
    {
      if index + n > count {
        return BadIndex;
      }
      Shrink(index, n, world);
      r := Index(index);
    }

    /** replaceAt: writing one item copies shared storage first. */
    method ReplaceAt(item: T, index: nat, ghost world: set<Vector<T>>) returns (r: Result)
      requires Valid(world)
      modifies `storage, Buffer()
      ensures Valid(world)
      ensures if index >= count then r == BadIndex && Contents() == old(Contents())
              else r == Index(index) && Contents() == old(Contents())[index := item]
      ensures storage == old(storage) || (storage != null && fresh(storage))
      ensures forall v :: v in world && v != this ==> v.Contents() == old(v.Contents())
    {
      assert Stored(world, this);
      if index >= count {
        return BadIndex;
      }
      EditArray(world);
      Fill(storage.slots[index := item], world);
      r := Index(index);
    }

    /** release_storage, and no storage: finish_vector. */
    method Finish(ghost world: set<Vector<T>>)
      requires Valid(world)
      modifies `storage, `count, Buffer()
      ensures Valid(world) && storage == null && count == 0
      ensures old(storage) != null ==> old(storage).slots == old(storage.slots)
      ensures old(storage) != null && Sharers(world, old(storage)) != {} ==> old(storage).refs > 0
    {
      ghost var was := storage;
      if storage != null {
        SharersPositive(world, this);
        var _ := storage.Release();
      }
      ghost var before := if was == null then {} else Sharers(world, was);
      storage, count := null, 0;
      if was != null {
        assert Sharers(world, was) == before - {this};
      }
      forall v | v in world ensures Stored(world, v) {
        if v.storage != null && v.storage != was {
          assert Sharers(world, v.storage) == old(Sharers(world, v.storage));
        }
      }
    }

    // A vector without storage takes a share of another's.
    method Share(rhs: Vector<T>, ghost world: set<Vector<T>>)
      requires Valid(world) && storage == null && rhs in world && rhs.storage != null
      modifies `storage, `count, rhs.storage
      ensures Valid(world) && storage == rhs.storage && count == rhs.count && storage.slots == old(rhs.storage.slots)
    {
      ghost var b := rhs.storage;
      ghost var before := Sharers(world, b);
      assert Stored(world, rhs);
      rhs.storage.Acquire();
      storage, count := rhs.storage, rhs.count;
      assert Sharers(world, b) == before + {this};
      forall v | v in world ensures Stored(world, v) {
        if v.storage != null && v.storage != b {
          assert Sharers(world, v.storage) == old(Sharers(world, v.storage));
        }
      }
    }

    /** operator=: from now on both vectors stand for the same sequence, in one buffer. */
    method Assign(rhs: Vector<T>, ghost world: set<Vector<T>>)
      requires Valid(world) && rhs in world
      modifies `storage, `count, Buffer(), rhs.Buffer()
      ensures Valid(world) && Contents() == old(rhs.Contents())
      ensures this != rhs && rhs.count > 0 ==> storage == rhs.storage
      ensures forall v :: v in world && v != this ==> v.Contents() == old(v.Contents())
    {
      if this != rhs {
        assert Stored(world, rhs);
        Finish(world);
        assert Stored(world, rhs);
        if rhs.count > 0 {
          Share(rhs, world);
        }
      }
    }

    // One round of sort: item i goes to its place in the sorted items before it.
    method InsertItem(i: nat, key: T -> int, ghost world: set<Vector<T>>)
      requires Valid(world) && 0 < i < count && SortedBy(Contents()[..i], key)
      modifies `storage, Buffer()
      ensures Valid(world)
      ensures Contents() == Insert(old(Contents())[..i], old(Contents())[i], key) + old(Contents())[i + 1..]
      ensures forall v :: v in world && v != this ==> v.Contents() == old(v.Contents())
      ensures storage == old(storage) || (storage != null && fresh(storage))
    {
      assert Stored(world, this);
      ghost var was := Contents();
      var item := storage.slots[i];
      if key(storage.slots[i - 1]) > key(item) {
        MoveItemDown(i, key, world);
      } else {
        InsertAt(was[..i], item, key, i);
        ThreeParts(was, i);
      }
    }

    method MoveItemDown(i: nat, key: T -> int, ghost world: set<Vector<T>>)
      requires Valid(world) && 0 < i < count && SortedBy(Contents()[..i], key)
      requires key(Contents()[i - 1]) > key(Contents()[i])
      modifies `storage, Buffer()
      ensures Valid(world)
      ensures Contents() == Insert(old(Contents())[..i], old(Contents())[i], key) + old(Contents())[i + 1..]
      ensures forall v :: v in world && v != this ==> v.Contents() == old(v.Contents())
      ensures storage == old(storage) || (storage != null && fresh(storage))
    {
      assert Stored(world, this);
      ghost var was := Contents();
      EditArray(world);
      var slots, k := ShiftUp(storage.slots, i, key);
      assert forall m :: k <= m < i ==> was[..i][m] == storage.slots[m];
      InsertAt(was[..i], was[i], key, k);
      Moved(storage.slots, k, i, count);
      Fill(slots, world);
    }

    // The first i items of `was` have been sorted; now one more is.
    method SortOneMore(i: nat, key: T -> int, ghost was: seq<T>, ghost world: set<Vector<T>>)
      requires Valid(world) && 0 < i < count == |was| && Contents() == Sort(was[..i], key) + was[i..]
      modifies `storage, Buffer()
      ensures Valid(world) && Contents() == Sort(was[..i + 1], key) + was[i + 1..]
      ensures forall v :: v in world && v != this ==> v.Contents() == old(v.Contents())
      ensures storage == old(storage) || (storage != null && fresh(storage))
    {
      assert Stored(world, this);
      SortSize(was[..i], key);
      SortIsSorted(was[..i], key);
      SplitAt(Sort(was[..i], key), was, i);
      SortNext(was, key, i);
      InsertItem(i, key, world);
    }

    /** sort: stable, by insertion; only a vector that is out of order copies shared storage. */
    method SortItems(key: T -> int, ghost world: set<Vector<T>>)
      requires Valid(world)
      modifies `storage, Buffer()
      ensures Valid(world) && Contents() == Sort(old(Contents()), key)
      ensures forall v :: v in world && v != this ==> v.Contents() == old(v.Contents())
    {
      assert Stored(world, this);
      ghost var was := Contents();
      SortOfOne(was, key);
      var i := 1;
      while i < count
        invariant 1 <= i && (count > 0 ==> i <= count) && Valid(world)
        invariant storage == old(storage) || (storage != null && fresh(storage))
        invariant forall v :: v in world && v != this ==> v.Contents() == old(v.Contents())
        invariant |was| == count
        invariant Contents() == if count == 0 then [] else Sort(was[..i], key) + was[i..]
      {
        SortOneMore(i, key, was, world);
        i := i + 1;
      }
      assert count > 0 ==> was[..i] == was && was[i..] == [];
    }
  }

  lemma ThreeParts<T>(s: seq<T>, i: nat)
    requires i < |s|
    ensures s == s[..i] + [s[i]] + s[i + 1..]
  {}

  // A sequence of which the first i elements were replaced.
  lemma SplitAt<T>(front: seq<T>, s: seq<T>, i: nat)
    requires |front| == i < |s|
    ensures (front + s[i..])[..i] == front && (front + s[i..])[i] == s[i] && (front + s[i..])[i + 1..] == s[i + 1..]
  {}

  lemma SortOfOne<T>(s: seq<T>, key: T -> int)
    ensures s != [] ==> s == Sort(s[..1], key) + s[1..]
    ensures s == [] ==> Sort(s, key) == []
  {
    if s != [] {
      assert s[..1][..0] == [] && Sort<T>([], key) == [];
      assert Insert([], s[0], key) == [s[0]];
    }
  }

  // The inner loop of sort: larger items move up by one, and the item takes the place that is left.
  method ShiftUp<T>(slots: seq<T>, i: nat, key: T -> int) returns (r: seq<T>, k: nat)
    requires 0 < i < |slots| && SortedBy(slots[..i], key) && key(slots[i - 1]) > key(slots[i])
    ensures k < i && (k > 0 ==> key(slots[k - 1]) <= key(slots[i]))
    ensures forall m :: k <= m < i ==> key(slots[m]) > key(slots[i])
    ensures r == MovedDown(slots, k, i)
  {
    var item := slots[i];
    r, k := slots[i := slots[i - 1]], i - 1;
    while k > 0 && key(r[k - 1]) > key(item)
      invariant Moving(slots, k, i, key, r)
    {
      MovingOne(slots, k, i, key, r);
      r, k := r[k := r[k - 1]], k - 1;
    }
    PutDown(slots, k, i);
    r := r[k := item];
  }

  // The items from k to i are larger than item i, and have moved up by one.
  ghost predicate Moving<T>(slots: seq<T>, k: nat, i: nat, key: T -> int, r: seq<T>) {
    && k < i < |slots| && r == Shifted(slots, k, i)
    && forall m :: k <= m < i ==> key(slots[m]) > key(slots[i])
  }

  lemma MovingOne<T>(slots: seq<T>, k: nat, i: nat, key: T -> int, r: seq<T>)
    requires Moving(slots, k, i, key, r) && k > 0 && key(r[k - 1]) > key(slots[i])
    ensures Moving(slots, k - 1, i, key, r[k := r[k - 1]])
  {
    ShiftOne(slots, k, i);
  }

  // Items k to i moved up by one.
  function Shifted<T>(slots: seq<T>, k: nat, i: nat): seq<T>
    requires k < i < |slots|
  {
    slots[..k + 1] + slots[k..i] + slots[i + 1..]
  }

  // Item i put before item k.
  function MovedDown<T>(slots: seq<T>, k: nat, i: nat): seq<T>
    requires k < i < |slots|
  {
    slots[..k] + [slots[i]] + slots[k..i] + slots[i + 1..]
  }

  lemma ShiftOne<T>(slots: seq<T>, k: nat, i: nat)
    requires 0 < k < i < |slots|
    ensures Shifted(slots, k, i)[k - 1] == slots[k - 1]
    ensures Shifted(slots, k, i)[k := slots[k - 1]] == Shifted(slots, k - 1, i)
  {}

  lemma PutDown<T>(slots: seq<T>, k: nat, i: nat)
    requires k < i < |slots|
    ensures Shifted(slots, k, i)[k := slots[i]] == MovedDown(slots, k, i)
  {}

  /** The copy constructor: one more vector, in the same buffer. */
  method Copy<T(0)>(rhs: Vector<T>, ghost world: set<Vector<T>>) returns (v: Vector<T>)
    requires rhs.Valid(world)
    modifies rhs.Buffer()
    ensures fresh(v) && v.Valid(world + {v}) && v.storage == rhs.storage && v.Contents() == old(rhs.Contents())
    ensures forall u :: u in world ==> u.Contents() == old(u.Contents())
  {
    v := new Vector<T>(rhs.trivial);
    assert Stored(world, rhs);
    forall u | u in world + {v} ensures Stored(world + {v}, u) {
      assert u in world ==> Stored(world, u);
      if u.storage != null {
        assert Sharers(world + {v}, u.storage) == Sharers(world, u.storage);
      }
    }
    if rhs.storage != null {
      v.Share(rhs, world + {v});
    }
  }

  /** Inserting nothing into a vector that has no storage is reported as a lack of memory. */
  method InsertNothing() returns (r: Result)
    ensures r == NoMemory
  {
    var v := new Vector<int>(true);
    r := v.InsertArrayAt([], 0, {v});
  }

  // The same items, with room for `amount` more at `where`.
  ghost predicate HasRoom<T>(was: seq<T>, now: seq<T>, where: nat, amount: nat) {
    where <= |was| && |now| == |was| + amount && now[..where] == was[..where] && now[where + amount..] == was[where..]
  }

  lemma RoomIsFilled<T>(was: seq<T>, now: seq<T>, where: nat, items: seq<T>)
    requires HasRoom(was, now, where, |items|)
    ensures now[..where] + items + now[where + |items|..] == was[..where] + items + was[where..]
  {}

  /** What the editing calls return. */
  datatype Result = Index(index: nat) | BadIndex | NoMemory

  lemma PiecesKept<T>(slots: seq<T>, more: seq<T>, a: nat, gap: nat, b: nat, n: nat)
    requires a <= b <= n <= |slots| && a + gap + (n - b) <= |more|
    ensures var keep := a + gap + (n - b);
            var all := slots[..a] + more[a..a + gap] + slots[b..n] + more[keep..];
            |all| == |more| && all[..keep][..a] == slots[..n][..a] && all[..keep][a + gap..] == slots[..n][b..]
  {}

  lemma FrontKept<T>(slots: seq<T>, more: seq<T>, n: nat, k: nat)
    requires k <= n <= |slots| && n <= |more|
    ensures (slots[..n] + more[n..])[..k] == slots[..k]
  {}

  // Slices of slots, as slices of the first n of them.
  lemma ClosedUp<T>(slots: seq<T>, where: nat, amount: nat, n: nat)
    requires where + amount <= n <= |slots|
    ensures (slots[..where] + slots[where + amount..n] + slots[n - amount..])[..n - amount]
         == slots[..n][..where] + slots[..n][where + amount..]
  {}

  lemma AllButTheLast<T>(s: seq<T>, where: nat, amount: nat)
    requires where + amount <= |s|
    ensures where + amount == |s| ==> s[..where] == s[..where] + s[where + amount..]
  {}

  lemma TwoHalves<T>(s: seq<T>, k: nat)
    requires k <= |s|
    ensures s == s[..k] + s[k..]
  {}

  lemma PutInto<T>(slots: seq<T>, index: nat, items: seq<T>, n: nat)
    requires index + |items| <= n <= |slots|
    ensures (slots[..index] + items + slots[index + |items|..])[..n]
         == slots[..n][..index] + items + slots[..n][index + |items|..]
  {}

  lemma NothingToPut<T>(s: seq<T>, index: nat, items: seq<T>)
    requires items == [] && index <= |s|
    ensures s == s[..index] + items + s[index + |items|..]
  {}

  lemma Moved<T>(slots: seq<T>, k: nat, i: nat, n: nat)
    requires k < i < n <= |slots|
    ensures MovedDown(slots, k, i)[..n]
         == (slots[..n][..i][..k] + [slots[i]] + slots[..n][..i][k..]) + slots[..n][i + 1..]
  {
    assert slots[..n][..i] == slots[..i] && slots[..i][..k] == slots[..k] && slots[..i][k..] == slots[k..i];
    assert slots[..n][i + 1..] == slots[i + 1..n];
    TakeInLast(slots[..k] + [slots[i]] + slots[k..i], slots[i + 1..], n - (i + 1));
  }

  lemma TakeInLast<T>(a: seq<T>, b: seq<T>, n: nat)
    requires n <= |b|
    ensures (a + b)[..|a| + n] == a + b[..n]
  {}

  lemma SharersPositive<T(0)>(world: set<Vector<T>>, v: Vector<T>)
    requires v in world && v.storage != null && Stored(world, v)
    ensures v.storage.refs > 0
  {
    assert v in Sharers(world, v.storage);
  }

  // A count of one means no other vector points here.
  lemma SoleOwner<T(0)>(world: set<Vector<T>>, v: Vector<T>, u: Vector<T>)
    requires v in world && u in world && v.storage != null && v.storage.refs == 1 && u.storage == v.storage
             && Stored(world, v)
    ensures u == v
  {
    var s := Sharers(world, v.storage);
    assert v in s && u in s;
    assert |s - {v}| == 0;
    assert s == (s - {v}) + {v};
  }
}
