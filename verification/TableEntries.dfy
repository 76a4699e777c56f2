/** ListTableEntries of MPEG4Writer (libstagefright/MPEG4Writer.cpp): a growing table kept in blocks. */
module TableEntries {
  import opened Bits

  // The blocks, one after the other.
  function Flat<T>(blocks: seq<seq<T>>): seq<T> {
    if blocks == [] then [] else Flat(blocks[..|blocks| - 1]) + blocks[|blocks| - 1]
  }

  predicate SameSize<T>(blocks: seq<seq<T>>, size: nat) {
    forall b :: 0 <= b < |blocks| ==> |blocks[b]| == size
  }

  lemma {:induction false} FlatSize<T>(blocks: seq<seq<T>>, size: nat)
    requires SameSize(blocks, size)
    ensures |Flat(blocks)| == |blocks| * size
  {
    if blocks != [] {
      FlatSize(blocks[..|blocks| - 1], size);
      assert (|blocks| - 1) * size + size == |blocks| * size;
    }
  }

  /** A value is in the block and place that division gives. */
  lemma {:induction false} FlatAt<T>(blocks: seq<seq<T>>, size: nat, k: nat)
    requires SameSize(blocks, size) && size > 0 && k < |blocks| * size
    ensures k / size < |blocks| && |Flat(blocks)| == |blocks| * size && Flat(blocks)[k] == blocks[k / size][k % size]
  {
    var n := |blocks| - 1;
    FlatSize(blocks, size);
    FlatSize(blocks[..n], size);
    DivMod(k, size);
    if k < n * size {
      FlatAt(blocks[..n], size, k);
    } else {
      DivModIs(k, size, n, k - n * size);
    }
  }

  lemma {:induction false} FlatSet<T>(blocks: seq<seq<T>>, size: nat, b: nat, i: nat, value: T)
    requires SameSize(blocks, size) && b < |blocks| && i < size
    ensures b * size + i < |Flat(blocks)|
    ensures Flat(blocks[b := blocks[b][i := value]]) == Flat(blocks)[b * size + i := value]
  {
    var n, k := |blocks| - 1, b * size + i;
    var init, block := blocks[..n], blocks[b][i := value];
    FlatSize(init, size);
    if b < n {
      BelowProduct(b, i, n, size);
      FlatSet(init, size, b, i, value);
      assert blocks[b := block][..n] == init[b := block];
    } else {
      assert blocks[b := block][..n] == init;
    }
    SetInParts(Flat(init), blocks[n], k, value);
  }

  lemma BelowProduct(b: nat, i: nat, n: nat, size: nat)
    requires i < size && b < n
    ensures b * size + i < n * size
  {
    MulAtLeast(n - b, size);
    assert (n - b) * size == n * size - b * size;
  }

  lemma SetInParts<T>(a: seq<T>, b: seq<T>, k: nat, value: T)
    requires k < |a| + |b|
    ensures (a + b)[k := value] == if k < |a| then a[k := value] + b else a + b[k - |a| := value]
  {}

  /** The values are the first in the blocks, and the last block is needed for them. */
  ghost predicate Holds<T>(blocks: seq<seq<T>>, size: nat, values: seq<T>) {
    && SameSize(blocks, size)
    && (if blocks == [] then values == [] else (|blocks| - 1) * size < |values| <= |blocks| * size)
    && |values| <= |Flat(blocks)| && Flat(blocks)[..|values|] == values
  }

  lemma ReadPlace<T>(blocks: seq<seq<T>>, size: nat, values: seq<T>, pos: nat)
    requires Holds(blocks, size, values) && pos < |values| && size > 0
    ensures pos / size < |blocks| && blocks[pos / size][pos % size] == values[pos]
  {
    FlatAt(blocks, size, pos);
    assert values[pos] == Flat(blocks)[..|values|][pos];
  }

  class ListTableEntries<T(0)> {
    const elementCapacity: nat    // entries in a block
    const entryCapacity: nat      // values in an entry
    var total: nat                // mTotalNumTableEntries
    var numValues: nat            // mNumValuesInCurrEntry
    var blocks: seq<seq<T>>       // mTableEntryList; the last is mCurrTableEntriesElement
    ghost var values: seq<T>      // what was added

    ghost predicate Valid()
      reads this
    {
      && elementCapacity > 0 && numValues < entryCapacity
      && |values| == total * entryCapacity + numValues
      && Holds(blocks, entryCapacity * elementCapacity, values)
    }

    constructor (elementCapacity: nat, entryCapacity: nat)
      requires elementCapacity > 0 && entryCapacity > 0
      ensures Valid() && values == [] && total == 0
      ensures this.elementCapacity == elementCapacity && this.entryCapacity == entryCapacity
    {
      this.elementCapacity, this.entryCapacity := elementCapacity, entryCapacity;
      total, numValues, blocks, values := 0, 0, [], [];
    }

    /** set, of a complete entry's value. */
    method Set(value: T, pos: nat)
      requires Valid() && pos < total * entryCapacity
      modifies `blocks, `values
      ensures Valid() && values == old(values)[pos := value]
    {
      var size := entryCapacity * elementCapacity;
      MulAtLeast(elementCapacity, entryCapacity);
      FlatAt(blocks, size, pos);
      DivMod(pos, size);
      FlatSet(blocks, size, pos / size, pos % size, value);
      PrefixSet(Flat(blocks), |values|, pos, value);
      blocks := blocks[pos / size := blocks[pos / size][pos % size := value]];
      values := values[pos := value];
    }

    /** get: only values of complete entries are found. */
    method Get(pos: nat) returns (found: bool, value: T)
      requires Valid()
      ensures found <==> pos < total * entryCapacity
      ensures found ==> pos < |values| && value == values[pos]
    {
      if pos >= total * entryCapacity {
        var none := new T[1];
        return false, none[0];
      }
      var size := entryCapacity * elementCapacity;
      MulAtLeast(elementCapacity, entryCapacity);
      found := true;
      value := GetAt(size, pos);
    }

    // Block pos / size, place pos % size.
    method GetAt(size: nat, pos: nat) returns (value: T)
      requires Holds(blocks, size, values) && pos < |values| && size > 0
      ensures value == values[pos]
    {
      ReadPlace(blocks, size, values, pos);
      value := blocks[pos / size][pos % size];
    }

    /** add. */
    method Add(value: T)
      requires Valid() && numValues < elementCapacity
      modifies this
      ensures Valid() && values == old(values) + [value]
    {
      PutValue(value);
      values := values + [value];
      numValues := numValues + 1;
      CountOne(total, numValues, entryCapacity);
      if numValues % entryCapacity == 0 {
        total, numValues := total + 1, 0;
      }
    }

    // Puts the value in its place, in a new block if the last is full.
    method PutValue(value: T)
      requires Valid()
      modifies `blocks
      ensures Holds(blocks, entryCapacity * elementCapacity, values + [value])
    {
      ghost var size := entryCapacity * elementCapacity;
      var pos := (total % elementCapacity) * entryCapacity + numValues % entryCapacity;
      PlaceOf(|values|, entryCapacity, elementCapacity, total, numValues);
      if total % elementCapacity == 0 && numValues % entryCapacity == 0 {
        AppendBlock(entryCapacity * elementCapacity);
      } else {
        PartBlock(|values|, |blocks|, size);
      }
      AddPlace(blocks, size, values, pos, value);
      blocks := blocks[|blocks| - 1 := blocks[|blocks| - 1][pos := value]];
    }

    // The new block: room for the value.
    method AppendBlock(size: nat)
      requires SameSize(blocks, size) && size > 0 && Holds(blocks, size, values) && |values| % size == 0
      modifies `blocks
      ensures SameSize(blocks, size) && |blocks| > 0 && |values| == (|blocks| - 1) * size
      ensures |values| <= |Flat(blocks)| && Flat(blocks)[..|values|] == values
    {
      var fresh_ := new T[size];
      FlatSize(blocks, size);
      WholeBlocks(|values|, |blocks|, size);
      assert (blocks + [fresh_[..]])[..|blocks|] == blocks;
      blocks := blocks + [fresh_[..]];
    }

    /** write: the number of entries, and the values of all blocks in order. */
    method Write() returns (count: nat, written: seq<T>)
      requires Valid() && numValues % entryCapacity == 0
      ensures count == total && written == values
    {
      count := total;
      var nEntries: nat := total;
      written := [];
      SmallRemainder(numValues, entryCapacity);
      var i := 0;
      assert blocks[..0] == [];
      while i < |blocks|
        invariant 0 <= i <= |blocks| && written == Flat(blocks[..i]) && nEntries + i * elementCapacity == total
      {
        assert blocks[..i + 1][..i] == blocks[..i];
        if nEntries >= elementCapacity {
          written := written + blocks[i];
        } else {
          LastWritten(i, nEntries);
          written := written + blocks[i][..entryCapacity * nEntries];
          return;
        }
        OneLess(nEntries, i, elementCapacity);
        nEntries, i := nEntries - elementCapacity, i + 1;
      }
      assert blocks[..|blocks|] == blocks;
      AllWritten(i, nEntries);
    }

    // The values in block i, and how many entries that is.
    lemma WriteSizes(i: nat, nEntries: nat)
      requires Valid() && numValues == 0 && i < |blocks| && nEntries + i * elementCapacity == total
      ensures |values| == i * (entryCapacity * elementCapacity) + nEntries * entryCapacity
      ensures nEntries < elementCapacity ==>
              i + 1 == |blocks| && entryCapacity * nEntries < entryCapacity * elementCapacity
    {
      Distribute(nEntries, i, elementCapacity, entryCapacity);
      if nEntries < elementCapacity {
        MulAtLeast(elementCapacity - nEntries, entryCapacity);
        NotMore(|blocks| - 1, i, entryCapacity * elementCapacity, nEntries * entryCapacity);
      }
    }

    lemma LastWritten(i: nat, nEntries: nat)
      requires Valid() && numValues == 0 && i < |blocks| && nEntries + i * elementCapacity == total
               && nEntries < elementCapacity
      ensures entryCapacity * nEntries <= |blocks[i]|
              && Flat(blocks[..i]) + blocks[i][..entryCapacity * nEntries] == values
    {
      WriteSizes(i, nEntries);
      FlatPrefix(blocks, i, entryCapacity * elementCapacity, |values|);
    }

    lemma AllWritten(i: nat, nEntries: nat)
      requires Valid() && numValues == 0 && i == |blocks| && nEntries + i * elementCapacity == total
      ensures Flat(blocks) == values
    {
      FlatSize(blocks, entryCapacity * elementCapacity);
      Distribute(nEntries, i, elementCapacity, entryCapacity);
      assert Flat(blocks)[..|Flat(blocks)|] == Flat(blocks);
    }
  }

  // The position is what the values are over whole blocks.
  lemma PlaceOf(n: nat, c: nat, e: nat, total: nat, numValues: nat)
    requires e > 0 && numValues < c && n == total * c + numValues
    ensures c * e > 0 && n % (c * e) == (total % e) * c + numValues % c < c * e
    ensures n % (c * e) == 0 <==> total % e == 0 && numValues % c == 0
  {
    DivModIs(n, c, total, numValues);
    Digits(n, c, e);
    DivMod(n % (c * e), c);
    SmallRemainder(numValues, c);
    ZeroDigits(total % e, c, numValues);
  }

  lemma SmallRemainder(v: nat, c: nat)
    requires v < c
    ensures v % c == v
  {}

  lemma ZeroDigits(q: nat, c: nat, v: nat)
    requires c > 0
    ensures q * c + v == 0 <==> q == 0 && v == 0
  {
    if q > 0 { MulAtLeast(q, c); }
  }

  lemma CountOne(total: nat, numValues: nat, c: nat)
    requires 0 < numValues <= c
    ensures numValues % c == 0 <==> numValues == c
    ensures (total + 1) * c == total * c + c
  {}

  // A last block that is not full has the rest of the values.
  lemma PartBlock(n: nat, blocks: nat, size: nat)
    requires size > 0 && n % size != 0 && (if blocks == 0 then n == 0 else (blocks - 1) * size < n <= blocks * size)
    ensures blocks > 0 && n == (blocks - 1) * size + n % size
  {
    if blocks > 0 {
      assert blocks * size == (blocks - 1) * size + size;
      if n < blocks * size {
        DivModIs(n, size, blocks - 1, n - (blocks - 1) * size);
      } else {
        DivModIs(n, size, blocks, 0);
      }
    }
  }

  lemma Distribute(n: nat, i: nat, e: nat, c: nat)
    ensures (n + i * e) * c == i * (c * e) + n * c
  {}

  lemma OneLess(n: nat, i: nat, e: nat)
    ensures (n - e) + (i + 1) * e == n + i * e
  {}

  // If the last block but one is not filled by what comes after block i, there is none after it.
  lemma NotMore(last: nat, i: nat, size: nat, left: nat)
    requires i <= last && left < size && last * size < i * size + left
    ensures last == i
  {
    if last > i { MulAtLeast(last - i, size); }
  }

  lemma WholeBlocks(n: nat, blocks: nat, size: nat)
    requires size > 0 && n % size == 0 && (if blocks == 0 then n == 0 else (blocks - 1) * size < n <= blocks * size)
    ensures n == blocks * size
  {
    DivMod(n, size);
    if blocks > 0 && n < blocks * size {
      DivModIs(n, size, blocks - 1, n - (blocks - 1) * size);
    }
  }

  lemma PrefixSet<T>(s: seq<T>, n: nat, k: nat, value: T)
    requires k < n <= |s|
    ensures s[k := value][..n] == s[..n][k := value]
  {}

  // Writing behind the values.
  lemma AddPlace<T>(blocks: seq<seq<T>>, size: nat, values: seq<T>, pos: nat, value: T)
    requires SameSize(blocks, size) && blocks != [] && pos < size && |values| == (|blocks| - 1) * size + pos
    requires |values| <= |Flat(blocks)| && Flat(blocks)[..|values|] == values
    ensures Holds(blocks[|blocks| - 1 := blocks[|blocks| - 1][pos := value]], size, values + [value])
  {
    var b := |blocks| - 1;
    FlatSet(blocks, size, b, pos, value);
    FlatSize(blocks, size);
    assert (b + 1) * size == b * size + size;
    PutBehind(Flat(blocks), |values|, value);
  }

  lemma PutBehind<T>(s: seq<T>, n: nat, value: T)
    requires n < |s|
    ensures s[n := value][..n + 1] == s[..n] + [value]
  {}

  // The values are the blocks before block i, the last, and its first values.
  lemma FlatPrefix<T>(blocks: seq<seq<T>>, i: nat, size: nat, n: nat)
    requires SameSize(blocks, size) && i + 1 == |blocks| && i * size <= n <= i * size + size
    ensures n <= |Flat(blocks)| && Flat(blocks)[..n] == Flat(blocks[..i]) + blocks[i][..n - i * size]
  {
    FlatSize(blocks[..i], size);
  }
}
