// The allocators that only move forward: the bump heap, the chained arena and the task arena.
module Allocators {
  import opened Ast

  // ---- Alignment ----

  function Pow2(k: nat): (p: nat)
    ensures p > 0
  {
    if k == 0 then 1 else 2 * Pow2(k - 1)
  }

  /** `x & ~(2^k - 1)`: the lowest `k` bits cleared, bit by bit. */
  function ClearLow(x: nat, k: nat): nat {
    if k == 0 then x else 2 * ClearLow(x / 2, k - 1)
  }

  function AlignUp(n: nat, k: nat): nat {
    ClearLow(n + Pow2(k) - 1, k)
  }

  lemma {:induction false} ClearLowRoundsDown(x: nat, k: nat) returns (q: nat)
    ensures ClearLow(x, k) == q * Pow2(k) && q * Pow2(k) <= x < q * Pow2(k) + Pow2(k)
    decreases k
  {
    if k == 0 {
      q := x;
    } else {
      q := ClearLowRoundsDown(x / 2, k - 1);
      assert q * Pow2(k) == 2 * (q * Pow2(k - 1));
    }
  }

  lemma PositiveFactor(a: int, p: nat)
    requires a * p > 0
    ensures a > 0
  {
  }

  lemma MultiplesApart(q: nat, m: nat, p: nat)
    requires q * p < m * p + p
    ensures q * p <= m * p
  {
    assert (m + 1 - q) * p == m * p + p - q * p;
    PositiveFactor(m + 1 - q, p);
    assert m * p == q * p + (m - q) * p;
  }

  ghost predicate IsMultiple(n: nat, k: nat) {
    exists q: nat :: n == q * Pow2(k)
  }

  lemma ZeroIsMultiple(k: nat)
    ensures IsMultiple(0, k)
  {
    assert 0 == 0 * Pow2(k);
  }

  /** The least multiple of the alignment that is not below `n`. */
  lemma AlignUpIsLeastMultiple(n: nat, k: nat)
    ensures IsMultiple(AlignUp(n, k), k) && n <= AlignUp(n, k) < n + Pow2(k)
    ensures forall m: nat :: n <= m && IsMultiple(m, k) ==> AlignUp(n, k) <= m
  {
    var q := ClearLowRoundsDown(n + Pow2(k) - 1, k);
    forall m: nat | n <= m && IsMultiple(m, k)
      ensures q * Pow2(k) <= m
    {
      var f: nat :| m == f * Pow2(k);
      MultiplesApart(q, f, Pow2(k));
    }
  }

  // ---- What has been handed out ----

  /** `length` bytes from an offset into a block of memory. */
  datatype Extent = Extent(block: nat, offset: nat, length: nat)

  predicate Disjoint(a: Extent, b: Extent) {
    a.block != b.block || a.offset + a.length <= b.offset || b.offset + b.length <= a.offset
  }

  ghost predicate Apart(handed: seq<Extent>) {
    forall i, j :: 0 <= i < j < |handed| ==> Disjoint(handed[i], handed[j])
  }

  class BumpAllocator {
    const size: nat
    var offset: nat
    var highWater: nat
    /** The blocks handed out since the last reset. */
    ghost var handed: seq<Extent>

    ghost predicate Valid()
      reads this
    {
      && offset <= size && offset <= highWater <= size && Apart(handed)
      && forall i :: 0 <= i < |handed| ==> handed[i].block == 0 && handed[i].offset + handed[i].length <= offset
    }

    constructor (size: nat)
      ensures Valid() && this.size == size && offset == highWater == 0 && handed == []
    {
      this.size := size;
      offset, highWater, handed := 0, 0, [];
    }

    /** The new block is aligned, within the heap and apart from all others; it is refused exactly
        when it would not fit behind the next multiple of the alignment. */
    method Alloc(bytes: nat, k: nat) returns (p: Option<nat>)
      requires Valid()
      modifies this
      ensures Valid() && (p.Some? <==> AlignUp(old(offset), k) + bytes <= size)
      ensures p.Some? ==>
                var e := Extent(0, p.value, bytes);
                && handed == old(handed) + [e] && IsMultiple(e.offset, k) && offset == e.offset + bytes <= size
                && highWater == if offset > old(highWater) then offset else old(highWater)
      ensures p.None? ==> handed == old(handed) && offset == old(offset) && highWater == old(highWater)
    {
      AlignUpIsLeastMultiple(offset, k);
      var aligned := AlignUp(offset, k);
      if aligned + bytes > size {
        return None;
      }
      p := Some(aligned);
      offset := aligned + bytes;
      if offset > highWater {
        highWater := offset;
      }
      handed := handed + [Extent(0, aligned, bytes)];
    }

    method Reset()
      requires Valid()
      modifies this`offset, this`handed
      ensures Valid() && offset == 0 && handed == []
    {
      offset := 0;
      handed := [];
    }
  }

  // ---- The chained arena ----

  /** The size of a block's header. */
  const HEADER: nat := 32

  datatype ArenaBlock = ArenaBlock(size: nat, used: nat)

  function Used(blocks: seq<ArenaBlock>): nat {
    if blocks == [] then 0 else Used(blocks[..|blocks| - 1]) + blocks[|blocks| - 1].used
  }

  function Sizes(blocks: seq<ArenaBlock>): nat {
    if blocks == [] then 0 else Sizes(blocks[..|blocks| - 1]) + blocks[|blocks| - 1].size
  }

  function Requested(handed: seq<Extent>): nat {
    if handed == [] then 0 else Requested(handed[..|handed| - 1]) + handed[|handed| - 1].length
  }

  ghost predicate Filled(blocks: seq<ArenaBlock>) {
    forall i :: 0 <= i < |blocks| ==> blocks[i].used <= blocks[i].size
  }

  /** What was handed out lies in the used part of its block. */
  ghost predicate Within(handed: seq<Extent>, blocks: seq<ArenaBlock>) {
    forall i :: 0 <= i < |handed| ==>
      handed[i].block < |blocks| && handed[i].offset + handed[i].length <= blocks[handed[i].block].used
  }

  lemma {:induction false} UsedWithinSizes(blocks: seq<ArenaBlock>)
    requires Filled(blocks)
    ensures Used(blocks) <= Sizes(blocks)
    decreases |blocks|
  {
    if blocks != [] {
      UsedWithinSizes(blocks[..|blocks| - 1]);
    }
  }

  class ChainedArena {
    const blockSize: nat
    var blocks: seq<ArenaBlock>
    var totalAllocated: nat
    var totalUsed: nat
    ghost var handed: seq<Extent>

    ghost predicate Valid()
      reads this
    {
      && |blocks| > 0 && Apart(handed) && Filled(blocks) && Within(handed, blocks)
      && totalUsed == Requested(handed) <= Used(blocks)
      && totalAllocated >= Sizes(blocks) + HEADER * |blocks|
    }

    constructor (blockSize: nat)
      requires blockSize >= HEADER
      ensures Valid() && this.blockSize == blockSize && blocks == [ArenaBlock(blockSize - HEADER, 0)] && handed == []
    {
      this.blockSize := blockSize;
      blocks := [ArenaBlock(blockSize - HEADER, 0)];
      totalAllocated, totalUsed, handed := blockSize, 0, [];
    }

    predicate Fits(bytes: nat, k: nat)
      requires |blocks| > 0
      reads this
    {
      AlignUp(blocks[|blocks| - 1].used, k) + bytes <= blocks[|blocks| - 1].size
    }

    /** What a new block for the request has room for: the usual size unless the request needs more. */
    function BlockRoom(bytes: nat): nat {
      if bytes + HEADER > blockSize then bytes else blockSize - HEADER
    }

    /** From the current block if there is room, else from the beginning of a new one. */
    method Alloc(bytes: nat, k: nat) returns (e: Extent)
      requires Valid()
      modifies this
      ensures Valid() && handed == old(handed) + [e] && e.length == bytes && IsMultiple(e.offset, k)
      ensures e.block == |blocks| - 1 && e.offset + bytes <= blocks[e.block].size
      ensures old(Fits(bytes, k)) ==> blocks == FilledTo(old(blocks), e) && totalAllocated == old(totalAllocated)
      ensures !old(Fits(bytes, k)) ==> blocks == old(blocks) + [ArenaBlock(BlockRoom(bytes), bytes)]
      ensures !old(Fits(bytes, k)) ==> totalAllocated == old(totalAllocated) + BlockRoom(bytes) + HEADER
    {
      var block := blocks[|blocks| - 1];
      AlignUpIsLeastMultiple(block.used, k);
      var aligned := AlignUp(block.used, k);
      if aligned + bytes <= block.size {
        e := AllocInCurrent(aligned, bytes);
      } else {
        e := AllocInNew(bytes);
        ZeroIsMultiple(k);
      }
    }

    method AllocInCurrent(aligned: nat, bytes: nat) returns (e: Extent)
      requires Valid() && blocks[|blocks| - 1].used <= aligned && aligned + bytes <= blocks[|blocks| - 1].size
      modifies this`blocks, this`totalUsed, this`handed
      ensures Valid() && e == Extent(old(|blocks|) - 1, aligned, bytes) && handed == old(handed) + [e]
      ensures blocks == FilledTo(old(blocks), e)
    {
      var at := |blocks| - 1;
      e := Extent(at, aligned, bytes);
      LastGrows(blocks, handed, e);
      blocks := blocks[at := blocks[at].(used := aligned + bytes)];
      assert blocks == FilledTo(old(blocks), e);
      totalUsed := totalUsed + bytes;
      handed := handed + [e];
    }

    method AllocInNew(bytes: nat) returns (e: Extent)
      requires Valid()
      modifies this
      ensures Valid() && e == Extent(|old(blocks)|, 0, bytes) && handed == old(handed) + [e]
      ensures blocks == old(blocks) + [ArenaBlock(BlockRoom(bytes), bytes)]
      ensures totalAllocated == old(totalAllocated) + BlockRoom(bytes) + HEADER
    {
      var newSize := if bytes + HEADER > blockSize then bytes + HEADER else blockSize;
      e := Extent(|blocks|, 0, bytes);
      BlockAdded(blocks, handed, ArenaBlock(newSize - HEADER, bytes), e);
      blocks := blocks + [ArenaBlock(newSize - HEADER, bytes)];
      totalAllocated := totalAllocated + newSize;
      totalUsed := totalUsed + bytes;
      handed := handed + [e];
    }

    /** Only the first block stays, empty. */
    method Reset()
      requires Valid()
      modifies this`blocks, this`totalUsed, this`handed
      ensures Valid() && blocks == [ArenaBlock(old(blocks[0].size), 0)] && totalUsed == 0 && handed == []
    {
      SizesAtLeast(blocks);
      blocks := [ArenaBlock(blocks[0].size, 0)];
      totalUsed := 0;
      handed := [];
    }

    /** Bytes asked for, bytes taken, bytes there are. */
    lemma Accounting()
      requires Valid()
      ensures totalUsed <= Used(blocks) <= Sizes(blocks) <= totalAllocated
    {
      UsedWithinSizes(blocks);
    }
  }

  lemma {:induction false} RequestedGrows(handed: seq<Extent>, e: Extent)
    ensures Requested(handed + [e]) == Requested(handed) + e.length
  {
    assert (handed + [e])[..|handed|] == handed;
  }

  /** The last block filled up to the end of `e`. */
  function FilledTo(blocks: seq<ArenaBlock>, e: Extent): seq<ArenaBlock>
    requires |blocks| > 0
  {
    blocks[|blocks| - 1 := blocks[|blocks| - 1].(used := e.offset + e.length)]
  }

  /** An extent behind the used part of the last block. */
  lemma {:induction false} LastGrows(blocks: seq<ArenaBlock>, handed: seq<Extent>, e: Extent)
    requires |blocks| > 0 && Apart(handed) && Filled(blocks) && Within(handed, blocks)
    requires var last := blocks[|blocks| - 1];
             e.block == |blocks| - 1 && last.used <= e.offset && e.offset + e.length <= last.size
    ensures Apart(handed + [e]) && Filled(FilledTo(blocks, e)) && Within(handed + [e], FilledTo(blocks, e))
    ensures Used(FilledTo(blocks, e)) >= Used(blocks) + e.length && Sizes(FilledTo(blocks, e)) == Sizes(blocks)
    ensures Requested(handed + [e]) == Requested(handed) + e.length
  {
    var more := FilledTo(blocks, e);
    assert more[..|more| - 1] == blocks[..|blocks| - 1];
    RequestedGrows(handed, e);
  }

  /** An extent at the beginning of a new block. */
  lemma {:induction false} BlockAdded(blocks: seq<ArenaBlock>, handed: seq<Extent>, b: ArenaBlock, e: Extent)
    requires Apart(handed) && Filled(blocks) && Within(handed, blocks)
    requires e.block == |blocks| && e.offset == 0 && e.length == b.used <= b.size
    ensures Apart(handed + [e]) && Filled(blocks + [b]) && Within(handed + [e], blocks + [b])
    ensures Used(blocks + [b]) == Used(blocks) + b.used && Sizes(blocks + [b]) == Sizes(blocks) + b.size
    ensures Requested(handed + [e]) == Requested(handed) + e.length
  {
    assert (blocks + [b])[..|blocks|] == blocks;
    RequestedGrows(handed, e);
  }

  lemma {:induction false} SizesAtLeast(blocks: seq<ArenaBlock>)
    requires blocks != []
    ensures Sizes(blocks) >= blocks[0].size && Sizes([ArenaBlock(blocks[0].size, 0)]) == blocks[0].size
    decreases |blocks|
  {
    if |blocks| > 1 {
      SizesAtLeast(blocks[..|blocks| - 1]);
    }
  }

  // ---- The task arena ----

  /** Pointers take eight bytes. */
  const POINTER_BITS: nat := 3

  class TaskArena {
    const capacity: nat
    var size: nat
    ghost var handed: seq<Extent>

    ghost predicate Valid()
      reads this
    {
      && Apart(handed) && IsMultiple(size, POINTER_BITS)
      && forall i :: 0 <= i < |handed| ==>
           handed[i].block == 0 && handed[i].offset + handed[i].length <= size
           && handed[i].offset + handed[i].length <= capacity && IsMultiple(handed[i].offset, POINTER_BITS)
    }

    constructor (capacity: nat)
      ensures Valid() && this.capacity == capacity && size == 0 && handed == []
    {
      this.capacity := capacity;
      size, handed := 0, [];
      ZeroIsMultiple(POINTER_BITS);
    }

    /** The mark is aligned after each block, and may pass the end of the arena in doing so; the
        blocks themselves never do. */
    method Alloc(bytes: nat) returns (p: Option<nat>)
      requires Valid()
      modifies this
      ensures Valid() && (p.Some? <==> old(size) + bytes <= capacity)
      ensures p.Some? ==> p.value == old(size) && handed == old(handed) + [Extent(0, p.value, bytes)]
      ensures p.Some? ==> size == AlignUp(old(size) + bytes, POINTER_BITS)
      ensures p.None? ==> size == old(size) && handed == old(handed)
    {
      if size + bytes > capacity {
        return None;
      }
      p := Some(size);
      handed := handed + [Extent(0, size, bytes)];
      AlignUpIsLeastMultiple(size + bytes, POINTER_BITS);
      size := AlignUp(size + bytes, POINTER_BITS);
    }

    method Reset()
      requires Valid()
      modifies this
      ensures Valid() && size == 0 && handed == []
    {
      size, handed := 0, [];
      ZeroIsMultiple(POINTER_BITS);
    }
  }
}
