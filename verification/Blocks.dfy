/** What both kinds of producers in Common/concurrentqueue.h share: blocks of 32 elements. */
module Blocks {

  type BlockId = nat
  type Value = int

  /** The k-th element, or the k-th flag, of a block. */
  datatype Cell = Cell(block: BlockId, k: nat)

  function ElementIn(elements: map<Cell, Value>, cell: Cell): Value {
    if cell in elements then elements[cell] else 0
  }

  /** The storage of a block before it is filled. */
  function Blank(): (xs: seq<Value>)
    ensures |xs| == 32
  {
    seq(32, _ => 0)
  }

  /** The start of the block that element i belongs to. */
  function BlockBase(i: int): int {
    i - i % 32
  }

  /** How many of these indices start a block. */
  function BlockStarts(from: nat, count: nat): nat {
    if count == 0 then 0 else BlockStarts(from, count - 1) + if (from + count - 1) % 32 == 0 then 1 else 0
  }

  lemma NoBlockStarts(from: nat)
    ensures BlockStarts(from, 0) == 0
  {
  }

  lemma BlockStartsNext(from: nat, count: nat)
    ensures BlockStarts(from, count + 1) == BlockStarts(from, count) + if (from + count) % 32 == 0 then 1 else 0
  {
  }

  lemma {:induction false} BlockStartsMono(from: nat, i: nat, count: nat)
    requires i <= count
    ensures BlockStarts(from, i) <= BlockStarts(from, count)
    decreases count
  {
    if i < count {
      BlockStartsMono(from, i, count - 1);
    }
  }

  lemma BaseBounds(i: int)
    ensures BlockBase(i) <= i < BlockBase(i) + 32
  {
  }

  lemma BaseStep(i: int)
    ensures BlockBase(i) - BlockBase(i - 1) == if i % 32 == 0 then 32 else 0
  {
  }

  /** The difference of block bases counts the blocks that a bulk enqueue starts, also from index 0. */
  lemma {:induction false} BaseDiff(from: nat, count: nat)
    ensures BlockBase(from + count - 1) - BlockBase(from - 1) == 32 * BlockStarts(from, count)
  {
    hide BlockBase;
    if count > 0 {
      BaseStep(from + count - 1);
      BaseDiff(from, count - 1);
    }
  }

  /** c numbers from i on. */
  function Range(i: nat, c: nat): (range: set<nat>)
    ensures forall j: nat :: j in range <==> i <= j < i + c
  {
    if c == 0 then {} else Range(i, c - 1) + {i + c - 1}
  }

  lemma RangeIs(i: nat, c: nat)
    ensures forall j: nat :: j in Range(i, c) <==> i <= j < i + c
  {
  }

  lemma SliceAppend(log: seq<Value>, i: nat, j: nat, k: nat)
    requires i <= j <= k <= |log|
    ensures log[i..j] + log[j..k] == log[i..k]
  {
  }

  lemma PrefixAppend(log: seq<Value>, items: seq<Value>, i: nat, j: nat)
    requires i <= j <= |items|
    ensures log + items[..i] + items[i..j] == log + items[..j]
  {
    assert items[..i] + items[i..j] == items[..j];
  }

  lemma {:induction false} RangeAppend(i: nat, c: nat, d: nat)
    ensures Range(i, c) + Range(i + c, d) == Range(i, c + d)
  {
  }
}
