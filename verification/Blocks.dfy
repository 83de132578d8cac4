/**
 ortoa-lbl/BS_thread_pool.hpp, class blocks: dividing an index range into blocks.
 Indices are mathematical integers.
 */
module Blocks {
  import opened Partition

  // `count` blocks of `size`, the last one longer by the remainder, make `total`.
  ghost predicate Divides(total: nat, size: nat, count: nat) {
    && count >= 1 && size >= 1
    && (total == 0 ==> count == 1)
    && (total > 0 ==> count * size + total % count == total)
  }

  class Blocks {
    var firstIndex: int
    var indexAfterLast: int
    var blockSize: nat
    var numBlocks: nat
    var totalSize: nat

    ghost predicate Valid()
      reads this
    {
      && totalSize == indexAfterLast - firstIndex
      && Divides(totalSize, blockSize, numBlocks)
    }

    constructor (first: int, afterLast: int, requested: nat)
      requires requested >= 1
      ensures Valid()
      ensures firstIndex == Min(first, afterLast) && indexAfterLast == Max(first, afterLast)
      ensures numBlocks == Min(requested, Max(1, totalSize))
    {
      firstIndex, indexAfterLast, numBlocks := first, afterLast, requested;
      new;
      if indexAfterLast < firstIndex {
        indexAfterLast, firstIndex := firstIndex, indexAfterLast;
      }
      totalSize := indexAfterLast - firstIndex;
      blockSize := totalSize / numBlocks;
      SizeIsZeroIffFewerThanCount(totalSize, numBlocks);
      if blockSize == 0 {
        blockSize := 1;
        numBlocks := if totalSize > 1 then totalSize else 1;
      }
    }

    function Start(i: nat): int
      reads this
    {
      i * blockSize + firstIndex
    }

    function End(i: nat): int
      reads this
    {
      if i == numBlocks - 1 then indexAfterLast else (i + 1) * blockSize + firstIndex
    }

    // The block an index falls in.
    ghost function BlockOf(x: int): nat
      requires Valid() && firstIndex <= x < indexAfterLast
      reads this
    {
      Min((x - firstIndex) / blockSize, numBlocks - 1)
    }

    // The blocks are consecutive, begin and end with the range, and have blockSize indices
    // each, except that the last one also takes the remainder; only the single block of an
    // empty range is empty.
    lemma BlocksAreConsecutive(i: nat)
      requires Valid() && i < numBlocks
      ensures Start(0) == firstIndex && End(numBlocks - 1) == indexAfterLast
      ensures i + 1 < numBlocks ==> End(i) == Start(i + 1)
      ensures End(i) - Start(i) == if i + 1 < numBlocks then blockSize
                                   else if totalSize == 0 then 0
                                   else blockSize + totalSize % numBlocks
    {
      assert (i + 1) * blockSize == i * blockSize + blockSize;
      assert numBlocks == i + 1 ==> numBlocks * blockSize == i * blockSize + blockSize;
    }

    // Every index of the range lies in exactly one block.
    lemma EachIndexIsInOneBlock(x: int, i: nat)
      requires Valid() && firstIndex <= x < indexAfterLast && i < numBlocks
      ensures BlockOf(x) < numBlocks
      ensures Start(i) <= x < End(i) <==> i == BlockOf(x)
    {
      OffsetIsInOneBlock(x - firstIndex, blockSize, i);
    }
  }

  lemma SizeIsZeroIffFewerThanCount(total: nat, count: nat)
    requires count >= 1
    ensures total / count == 0 <==> total < count
    ensures count * (total / count) + total % count == total
  {
    OwnerOfByte(total, count, total / count);
    if total / count >= 1 {
      MulMonotone(1, total / count, count);
    }
  }

  lemma OffsetIsInOneBlock(d: nat, size: nat, i: nat)
    requires size >= 1
    ensures i * size <= d < (i + 1) * size <==> i == d / size
    ensures i * size <= d <==> i <= d / size
  {
    var q := d / size;
    OwnerOfByte(d, size, q);
    assert (i + 1) * size == i * size + size;
    if i < q {
      MulMonotone(i + 1, q, size);
    } else if i > q {
      MulMonotone(q + 1, i, size);
      assert (q + 1) * size == q * size + size;
    }
  }
}
