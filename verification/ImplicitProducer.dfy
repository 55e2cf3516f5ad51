/**
 The producer that every thread without a token gets (Common/concurrentqueue.h, struct ImplicitProducer),
 at the granularity of its operations.

 Its blocks are found through an index of pointers to entries.  An entry has the index of a block's first
 element as its key, and the block as its value, or nothing when the block was given back.  The index
 grows by copying the pointers.  A block is given back by whoever reads the last of its 32 elements.

 Allocations may fail: their outcomes are parameters.  Pointers to entries and to blocks are numbers.
 Elements are read in any order once `Claim` took their indices from headIndex.
 */
module ImplicitProducer {
  import opened Blocks
  import opened Modular
  import opened Options

  const INVALID_BLOCK_BASE := 1

  // ---------------------------------------------------------------- counting what was read

  /** How many of the k indices from `from` on were read. */
  ghost function CountDone(done: set<nat>, from: nat, k: nat): (c: nat)
    ensures c <= k
  {
    if k == 0 then 0 else CountDone(done, from, k - 1) + if from + k - 1 in done then 1 else 0
  }

  lemma {:induction false} CountAll(done: set<nat>, from: nat, k: nat)
    ensures CountDone(done, from, k) == k <==> forall i :: from <= i < from + k ==> i in done
  {
    if k > 0 {
      CountAll(done, from, k - 1);
    }
  }

  lemma {:induction false} CountAdd(done: set<nat>, from: nat, k: nat, i: nat)
    requires i !in done
    ensures CountDone(done + {i}, from, k) == CountDone(done, from, k) + if from <= i < from + k then 1 else 0
  {
    if k > 0 {
      CountAdd(done, from, k - 1, i);
    }
  }

  lemma {:induction false} CountNone(done: set<nat>, from: nat, k: nat)
    requires forall i :: i in done ==> i < from
    ensures CountDone(done, from, k) == 0
  {
    if k > 0 {
      CountNone(done, from, k - 1);
    }
  }

  /** All elements of block number b were read. */
  ghost predicate Freed(done: set<nat>, b: nat) {
    CountDone(done, 32 * b, 32) == 32
  }

  lemma FreedMeans(done: set<nat>, b: nat)
    ensures Freed(done, b) <==> forall i :: 32 * b <= i < 32 * b + 32 ==> i in done
  {
    CountAll(done, 32 * b, 32);
  }

  lemma FreedAdd(done: set<nat>, b: nat, i: nat)
    requires i !in done
    ensures i / 32 != b ==> CountDone(done + {i}, 32 * b, 32) == CountDone(done, 32 * b, 32)
    ensures i / 32 == b ==> CountDone(done + {i}, 32 * b, 32) == CountDone(done, 32 * b, 32) + 1
  {
    CountAdd(done, 32 * b, 32, i);
  }

  // ---------------------------------------------------------------- the state as a value

  /** Entries are numbered, and have a key and a value each; `index` has the entries' numbers.
      The auxiliary parts: all values enqueued, the block that each block number was written into, the
      indices read, the oldest block number in the index, and the slot of block number 0. */
  datatype Rep = Rep(
    keys: seq<int>,
    values: seq<Option<BlockId>>,
    index: seq<nat>,
    tail: nat,
    elements: map<BlockId, seq<Value>>,
    counts: map<BlockId, nat>,
    log: seq<Value>,
    blocks: seq<BlockId>,
    done: set<nat>,
    low: nat,
    origin: int)

  ghost predicate Shape(r: Rep) {
    && |r.keys| == |r.values| && |r.index| >= 2
    && (forall k :: 0 <= k < |r.index| ==> r.index[k] < |r.keys|)
    && (forall j, k :: 0 <= j < k < |r.index| ==> r.index[j] != r.index[k])
  }

  /** The entry of block number b. */
  function EntryOf(r: Rep, b: int): nat
    requires |r.index| > 0
  {
    r.index[Wrap(r.origin + b, |r.index|)]
  }

  ghost predicate Keyed(r: Rep, b: nat)
    requires Shape(r)
  {
    r.keys[EntryOf(r, b)] == 32 * b
  }

  /** The entry leads to the block, until that was given back. */
  ghost predicate Valued(r: Rep, b: nat)
    requires Shape(r) && b < |r.blocks|
  {
    r.values[EntryOf(r, b)] == if Freed(r.done, b) then None else Some(r.blocks[b])
  }

  ghost predicate Vacant(r: Rep, b: nat)
    requires Shape(r)
  {
    r.keys[EntryOf(r, b)] == INVALID_BLOCK_BASE || r.values[EntryOf(r, b)] == None
  }

  /** The index is a window of block numbers from `low` on: those that were started have their keys, 32
      apart up to the tail, and the other slots are vacant.  Blocks below the window were given back. */
  ghost predicate IndexInv(r: Rep) {
    && Shape(r)
    && r.low <= |r.blocks| <= r.low + |r.index|
    && r.tail == Wrap(r.origin + |r.blocks| - 1, |r.index|)
    && (forall b :: r.low <= b < |r.blocks| ==> Keyed(r, b))
    && (forall b :: r.low <= b < |r.blocks| ==> Valued(r, b))
    && (forall b :: |r.blocks| <= b < r.low + |r.index| ==> Vacant(r, b))
    && (forall b :: 0 <= b < r.low ==> Freed(r.done, b))
  }

  /** Block number b has its elements, and counts how many of them were read. */
  ghost predicate Counted(r: Rep, b: nat)
    requires b < |r.blocks|
  {
    var block := r.blocks[b];
    && block in r.elements && |r.elements[block]| == 32
    && block in r.counts && r.counts[block] == CountDone(r.done, 32 * b, 32)
  }

  ghost predicate Stored(r: Rep, i: nat)
    requires i < |r.log| && i / 32 < |r.blocks|
  {
    var block := r.blocks[i / 32];
    block in r.elements && |r.elements[block]| == 32 && r.elements[block][i % 32] == r.log[i]
  }

  ghost predicate BlocksInv(r: Rep) {
    && |r.log| <= 32 * |r.blocks|
    && (forall i :: i in r.done ==> i < |r.log|)
    && (forall b :: 0 <= b < |r.blocks| && !Freed(r.done, b) ==> Counted(r, b))
    && (forall b, c :: 0 <= b < c < |r.blocks| && !Freed(r.done, b) && !Freed(r.done, c) ==> r.blocks[b] != r.blocks[c])
    && (forall i :: 0 <= i < |r.log| && i !in r.done ==> Stored(r, i))
  }

  /** The entries of different block numbers in a window are different. */
  lemma EntriesDiffer(r: Rep, b: nat, c: nat)
    requires Shape(r) && b < c < b + |r.index|
    ensures EntryOf(r, b) != EntryOf(r, c)
  {
    WrapUnique(r.origin + c, r.origin + b, |r.index|);
  }

  // ---------------------------------------------------------------- looking a block up

  /** get_block_index_index_for_index: the slot of the entry, by arithmetic from the tail. */
  function LookupSlot(keys: seq<int>, index: seq<nat>, tail: nat, i: nat): (slot: nat)
    requires tail < |index| && index[tail] < |keys|
    ensures slot < |index|
  {
    Wrap(tail + (BlockBase(i) - keys[index[tail]]) / 32, |index|)
  }

  /** With the tail at block number t, the lookup of an element of block number b ends at b's entry. */
  lemma LookupFrom(r: Rep, t: nat, b: nat, i: nat)
    requires Shape(r) && r.tail == Wrap(r.origin + t, |r.index|) && Keyed(r, t) && b == i / 32
    ensures r.keys[r.index[r.tail]] != INVALID_BLOCK_BASE
    ensures LookupSlot(r.keys, r.index, r.tail, i) == Wrap(r.origin + b, |r.index|)
  {
    assert (BlockBase(i) - 32 * t) / 32 == b - t;
    WrapShift(r.origin + t, b - t, |r.index|);
    assert r.origin + t + (b - t) == r.origin + b;
  }

  /** Both assertions of the lookup hold, for every element that is still to be read. */
  lemma LookupFinds(r: Rep, i: nat)
    requires IndexInv(r) && i / 32 < |r.blocks| && !Freed(r.done, i / 32)
    ensures r.keys[r.index[r.tail]] != INVALID_BLOCK_BASE
    ensures LookupSlot(r.keys, r.index, r.tail, i) == Wrap(r.origin + i / 32, |r.index|)
    ensures var entry := r.index[LookupSlot(r.keys, r.index, r.tail, i)];
      entry == EntryOf(r, i / 32) && r.keys[entry] == BlockBase(i) && r.values[entry] == Some(r.blocks[i / 32])
  {
    var b, last := i / 32, |r.blocks| - 1;
    assert Keyed(r, last) && Keyed(r, b) && Valued(r, b);
    assert r.origin + |r.blocks| - 1 == r.origin + last;
    LookupFrom(r, last, b, i);
  }

  // ---------------------------------------------------------------- inserting an entry

  /** The entry after the tail may be used. */
  predicate Free(keys: seq<int>, values: seq<Option<BlockId>>, entry: nat)
    requires entry < |keys| == |values|
  {
    keys[entry] == INVALID_BLOCK_BASE || values[entry] == None
  }

  /** It is the entry of the next block number, and it is free unless the window is full and its oldest
      block was not given back. */
  lemma NextEntry(r: Rep)
    requires IndexInv(r)
    ensures Shape(r) && r.tail < |r.index| && |r.blocks| <= r.low + |r.index|
    ensures r.index[Wrap(r.tail + 1, |r.index|)] == EntryOf(r, |r.blocks|)
    ensures Free(r.keys, r.values, EntryOf(r, |r.blocks|)) <==> |r.blocks| < r.low + |r.index| || Freed(r.done, r.low)
  {
    var n := |r.blocks|;
    WrapShift(r.origin + n - 1, 1, |r.index|);
    assert r.origin + n - 1 + 1 == r.origin + n;
    if n < r.low + |r.index| {
      assert Vacant(r, n);
    } else {
      WrapPeriod(r.origin + r.low, |r.index|);
      assert r.origin + r.low + |r.index| == r.origin + n;
      assert Keyed(r, r.low) && Valued(r, r.low);
    }
  }

  /** The window with the key of the next block number in place, before its block is there. */
  ghost predicate Open(r: Rep) {
    && Shape(r)
    && r.low <= |r.blocks| < r.low + |r.index|
    && r.tail == Wrap(r.origin + |r.blocks|, |r.index|)
    && (forall b :: r.low <= b <= |r.blocks| ==> Keyed(r, b))
    && (forall b :: r.low <= b < |r.blocks| ==> Valued(r, b))
    && (forall b :: |r.blocks| < b < r.low + |r.index| ==> Vacant(r, b))
    && (forall b :: 0 <= b < r.low ==> Freed(r.done, b))
  }

  function Opened(r: Rep): Rep
    requires Shape(r)
  {
    var n := |r.blocks|;
    r.(keys := r.keys[EntryOf(r, n) := 32 * n], tail := Wrap(r.tail + 1, |r.index|),
       low := if n == r.low + |r.index| then r.low + 1 else r.low)
  }

  /** Other block numbers keep their entries as they were. */
  lemma OpenedKeeps(r: Rep, b: nat)
    requires Shape(r) && b != |r.blocks| && |r.blocks| - |r.index| < b < |r.blocks| + |r.index|
    ensures Shape(Opened(r))
    ensures Keyed(r, b) ==> Keyed(Opened(r), b)
    ensures b < |r.blocks| && Valued(r, b) ==> Valued(Opened(r), b)
    ensures Vacant(r, b) ==> Vacant(Opened(r), b)
  {
    if b < |r.blocks| {
      EntriesDiffer(r, b, |r.blocks|);
    } else {
      EntriesDiffer(r, |r.blocks|, b);
    }
  }

  lemma OpenedOpen(r: Rep)
    requires IndexInv(r) && Free(r.keys, r.values, EntryOf(r, |r.blocks|))
    ensures Shape(Opened(r)) && Open(Opened(r)) && EntryOf(Opened(r), |r.blocks|) == EntryOf(r, |r.blocks|)
  {
    hide Keyed, Valued, Vacant;
    var n, r' := |r.blocks|, Opened(r);
    NextEntry(r);
    WrapShift(r.origin + n - 1, 1, |r.index|);
    forall b | r'.low <= b < r'.low + |r'.index| && b != n
      ensures if b < n then Keyed(r', b) && Valued(r', b) else Vacant(r', b)
    {
      OpenedKeeps(r, b);
    }
    OpenedKey(r);
  }

  lemma OpenedKey(r: Rep)
    requires Shape(r)
    ensures Keyed(Opened(r), |r.blocks|)
  {
  }

  // ---------------------------------------------------------------- filling or withdrawing it

  /** The new block is put into the entry. */
  function Placed(r: Rep, block: BlockId): Rep
    requires Shape(r)
  {
    r.(values := r.values[EntryOf(r, |r.blocks|) := Some(block)], blocks := r.blocks + [block],
       elements := r.elements[block := Blank()], counts := r.counts[block := 0])
  }

  lemma PlacedKeeps(r: Rep, block: BlockId, b: nat)
    requires Shape(r) && b != |r.blocks| && |r.blocks| - |r.index| < b < |r.blocks| + |r.index|
    ensures Shape(Placed(r, block))
    ensures Keyed(r, b) ==> Keyed(Placed(r, block), b)
    ensures b < |r.blocks| && Valued(r, b) ==> Valued(Placed(r, block), b)
    ensures Vacant(r, b) ==> Vacant(Placed(r, block), b)
  {
    if b < |r.blocks| {
      EntriesDiffer(r, b, |r.blocks|);
    } else {
      EntriesDiffer(r, |r.blocks|, b);
    }
  }

  lemma PlacedIndex(r: Rep, block: BlockId)
    requires Open(r) && (forall i :: i in r.done ==> i < 32 * |r.blocks|)
    ensures IndexInv(Placed(r, block))
  {
    var n, r' := |r.blocks|, Placed(r, block);
    assert Keyed(r', n) && Valued(r', n) by {
      assert Keyed(r, n);
      CountNone(r.done, 32 * n, 32);
    }
    hide Keyed, Valued, Vacant;
    assert r'.origin + |r'.blocks| - 1 == r.origin + n;
    forall b | r.low <= b < r.low + |r.index| && b != n
      ensures if b < n then Keyed(r', b) && Valued(r', b) else Vacant(r', b)
    {
      PlacedKeeps(r, block, b);
    }
  }

  lemma PlacedBlocks(r: Rep, block: BlockId)
    requires BlocksInv(r) && Shape(r)
    requires forall b :: 0 <= b < |r.blocks| && !Freed(r.done, b) ==> r.blocks[b] != block
    ensures BlocksInv(Placed(r, block))
  {
    var n, r' := |r.blocks|, Placed(r, block);
    CountNone(r.done, 32 * n, 32);
    forall b | 0 <= b < n && !Freed(r.done, b)
      ensures Counted(r', b)
    {
      assert Counted(r, b);
    }
    forall i | 0 <= i < |r.log| && i !in r.done
      ensures Stored(r', i)
    {
      assert Stored(r, i);
      FreedMeans(r.done, i / 32);
    }
  }

  /** rewind_block_index_tail, with the entry's value cleared. */
  function Withdrawn(r: Rep): Rep
    requires Shape(r)
  {
    r.(values := r.values[EntryOf(r, |r.blocks|) := None], tail := Wrap(r.tail - 1, |r.index|))
  }

  lemma WithdrawnKeeps(r: Rep, b: nat)
    requires Shape(r) && |r.blocks| - |r.index| < b < |r.blocks| + |r.index|
    ensures Shape(Withdrawn(r))
    ensures Keyed(r, b) ==> Keyed(Withdrawn(r), b)
    ensures b < |r.blocks| && Valued(r, b) ==> Valued(Withdrawn(r), b)
    ensures b == |r.blocks| || Vacant(r, b) ==> Vacant(Withdrawn(r), b)
  {
    if b < |r.blocks| {
      EntriesDiffer(r, b, |r.blocks|);
    }
  }

  /** A failed allocation leaves the index as it was, but for keys of vacant entries. */
  lemma WithdrawnIndex(r: Rep)
    requires Open(r)
    ensures IndexInv(Withdrawn(r))
  {
    hide Keyed, Valued, Vacant;
    var n, r' := |r.blocks|, Withdrawn(r);
    WrapShift(r.origin + n, -1, |r.index|);
    forall b | r.low <= b < r.low + |r.index|
      ensures b < n ==> Keyed(r', b) && Valued(r', b)
      ensures b >= n ==> Vacant(r', b)
    {
      WithdrawnKeeps(r, b);
    }
  }

  // ---------------------------------------------------------------- a larger index

  /** The pointers of an index, from the one after the tail round to the tail. */
  function Rotated(index: seq<nat>, tail: nat): (copy: seq<nat>)
    requires |index| > 0
    ensures |copy| == |index| && forall j :: 0 <= j < |copy| ==> copy[j] == index[Wrap(tail + 1 + j, |index|)]
  {
    seq(|index|, j requires 0 <= j => index[Wrap(tail + 1 + j, |index|)])
  }

  /** The numbers of the next entries. */
  function Fresh(from: nat, count: nat): (numbers: seq<nat>)
    ensures |numbers| == count && forall j :: 0 <= j < count ==> numbers[j] == from + j
  {
    if count == 0 then [] else Fresh(from, count - 1) + [from + count - 1]
  }

  /** Twice as many pointers: the old ones, oldest first, and pointers to fresh entries whose values are
      whatever was in the memory. */
  function Grown(r: Rep, junk: seq<Option<BlockId>>): Rep
    requires Shape(r)
  {
    var count := |r.index|;
    r.(keys := r.keys + seq(count, _ => INVALID_BLOCK_BASE), values := r.values + junk,
       index := Rotated(r.index, r.tail) + Fresh(|r.keys|, count), tail := count - 1, origin := 0 - r.low)
  }

  lemma GrownShape(r: Rep, junk: seq<Option<BlockId>>)
    requires Shape(r) && |junk| == |r.index|
    ensures Shape(Grown(r, junk))
  {
    var r' := Grown(r, junk);
    forall j, k | 0 <= j < k < |r'.index|
      ensures r'.index[j] != r'.index[k]
    {
      if k < |r.index| {
        WrapUnique(r.tail + 1 + k, r.tail + 1 + j, |r.index|);
      }
    }
  }

  /** An index that is full of blocks, none of which can make room, becomes one that is half vacant. */
  lemma GrownEntry(r: Rep, junk: seq<Option<BlockId>>, b: nat)
    requires IndexInv(r) && |junk| == |r.index| && |r.blocks| == r.low + |r.index|
    requires r.low <= b < r.low + 2 * |r.index|
    ensures Shape(Grown(r, junk))
    ensures b < |r.blocks| ==> EntryOf(Grown(r, junk), b) == EntryOf(r, b)
    ensures b >= |r.blocks| ==> Vacant(Grown(r, junk), b) && Grown(r, junk).keys[EntryOf(Grown(r, junk), b)] == INVALID_BLOCK_BASE
  {
    GrownShape(r, junk);
    if b < |r.blocks| {
      GrownSlot(r, b);
    }
  }

  /** Where the walk that starts after the tail comes to block b. */
  lemma GrownSlot(r: Rep, b: nat)
    requires IndexInv(r) && |r.blocks| == r.low + |r.index| && r.low <= b < |r.blocks|
    ensures Wrap(r.tail + 1 + (b - r.low), |r.index|) == Wrap(r.origin + b, |r.index|)
  {
    var j := b - r.low;
    WrapShift(r.origin + |r.blocks| - 1, 1 + j, |r.index|);
    WrapPeriod(r.origin + b, |r.index|);
    assert r.origin + |r.blocks| - 1 + (1 + j) == r.origin + b + |r.index|;
    assert r.tail + (1 + j) == r.tail + 1 + (b - r.low);
  }

  lemma GrownIndex(r: Rep, junk: seq<Option<BlockId>>)
    requires IndexInv(r) && |junk| == |r.index|
    requires !(|r.blocks| < r.low + |r.index|)
    ensures IndexInv(Grown(r, junk)) && |Grown(r, junk).blocks| < r.low + |Grown(r, junk).index|
    ensures Grown(r, junk).keys[EntryOf(Grown(r, junk), |r.blocks|)] == INVALID_BLOCK_BASE
    ensures |Grown(r, junk).index| == 2 * |r.index| && Grown(r, junk).blocks == r.blocks && Grown(r, junk).low == r.low
  {
    GrownEntry(r, junk, |r.blocks|);
    var r' := Grown(r, junk);
    GrownShape(r, junk);
    forall b | r.low <= b < r.low + 2 * |r.index|
      ensures b < |r.blocks| ==> Keyed(r', b) && Valued(r', b)
      ensures b >= |r.blocks| ==> Vacant(r', b)
    {
      GrownEntry(r, junk, b);
      if b < |r.blocks| {
        assert Keyed(r, b) && Valued(r, b);
      }
    }
  }

  // ---------------------------------------------------------------- writing and reading elements

  /** A block that misses an element is not given back. */
  lemma NotFreed(done: set<nat>, i: nat)
    requires i !in done
    ensures !Freed(done, i / 32)
  {
    FreedMeans(done, i / 32);
  }

  function Written(r: Rep, x: Value): Rep
    requires |r.log| / 32 < |r.blocks| && r.blocks[|r.log| / 32] in r.elements
    requires |r.elements[r.blocks[|r.log| / 32]]| == 32
  {
    var block := r.blocks[|r.log| / 32];
    r.(elements := r.elements[block := r.elements[block][|r.log| % 32 := x]], log := r.log + [x])
  }

  lemma WrittenBlocks(r: Rep, x: Value)
    requires BlocksInv(r) && |r.log| < 32 * |r.blocks|
    ensures Counted(r, |r.log| / 32) && BlocksInv(Written(r, x))
  {
    var n := |r.log|;
    NotFreed(r.done, n);
    assert Counted(r, n / 32);
    var r' := Written(r, x);
    forall b | 0 <= b < |r.blocks| && !Freed(r.done, b)
      ensures Counted(r', b)
    {
      assert Counted(r, b);
    }
    forall i | 0 <= i <= n && i !in r.done
      ensures Stored(r', i)
    {
      NotFreed(r.done, i);
      if i < n {
        assert Stored(r, i);
      }
    }
  }

  /** Writing elements does not concern the index. */
  lemma WrittenIndex(r: Rep, x: Value)
    requires IndexInv(r) && BlocksInv(r) && |r.log| < 32 * |r.blocks|
    ensures Counted(r, |r.log| / 32) && IndexInv(Written(r, x))
  {
    WrittenBlocks(r, x);
    forall b | r.low <= b < |r.blocks|
      ensures Keyed(Written(r, x), b) && Valued(Written(r, x), b)
    {
      assert Keyed(r, b) && Valued(r, b);
    }
    forall b | |r.blocks| <= b < r.low + |r.index|
      ensures Vacant(Written(r, x), b)
    {
      assert Vacant(r, b);
    }
  }

  /** Element i is read; if it was the last one of its block, the entry lets go of the block. */
  function Taken(r: Rep, i: nat): Rep
    requires Shape(r) && i / 32 < |r.blocks| && r.blocks[i / 32] in r.counts
  {
    var block := r.blocks[i / 32];
    var count := r.counts[block] + 1;
    r.(counts := r.counts[block := count], done := r.done + {i},
       values := if count == 32 then r.values[EntryOf(r, i / 32) := None] else r.values)
  }

  lemma TakenKeeps(r: Rep, i: nat, b: nat)
    requires Shape(r) && i !in r.done && i / 32 < |r.blocks| && Counted(r, i / 32)
    requires |r.blocks| - |r.index| <= b < |r.blocks| + |r.index| && |r.blocks| - |r.index| <= i / 32
    requires b < i / 32 + |r.index|
    ensures Shape(Taken(r, i))
    ensures Keyed(r, b) ==> Keyed(Taken(r, i), b)
    ensures b < |r.blocks| && Valued(r, b) ==> Valued(Taken(r, i), b)
    ensures Vacant(r, b) ==> Vacant(Taken(r, i), b)
  {
    hide CountDone;
    FreedAdd(r.done, b, i);
    if b < i / 32 {
      EntriesDiffer(r, b, i / 32);
    } else if b > i / 32 {
      EntriesDiffer(r, i / 32, b);
    }
  }

  lemma TakenIndex(r: Rep, i: nat)
    requires IndexInv(r) && BlocksInv(r) && i < |r.log| && i !in r.done
    ensures Counted(r, i / 32) && IndexInv(Taken(r, i))
  {
    NotFreed(r.done, i);
    assert Counted(r, i / 32);
    hide Keyed, Valued, Vacant, CountDone, Stored;
    var r' := Taken(r, i);
    forall b | r.low <= b < r.low + |r.index|
      ensures b < |r.blocks| ==> Keyed(r', b) && Valued(r', b)
      ensures b >= |r.blocks| ==> Vacant(r', b)
    {
      TakenKeeps(r, i, b);
    }
    forall b | 0 <= b < r.low
      ensures Freed(r'.done, b)
    {
      assert Freed(r.done, b);
      FreedAdd(r.done, b, i);
    }
  }

  lemma TakenBlocks(r: Rep, i: nat)
    requires BlocksInv(r) && Shape(r) && i < |r.log| && i !in r.done
    ensures Counted(r, i / 32) && BlocksInv(Taken(r, i))
    ensures Freed(r.done + {i}, i / 32) <==> r.counts[r.blocks[i / 32]] == 31
  {
    NotFreed(r.done, i);
    assert Counted(r, i / 32);
    var r' := Taken(r, i);
    FreedAdd(r.done, i / 32, i);
    forall b | 0 <= b < |r.blocks|
      ensures !Freed(r'.done, b) ==> !Freed(r.done, b) && Counted(r', b)
    {
      FreedAdd(r.done, b, i);
      if !Freed(r.done, b) {
        assert Counted(r, b);
      }
    }
    forall j | 0 <= j < |r.log| && j !in r'.done
      ensures Stored(r', j)
    {
      assert Stored(r, j);
    }
  }

  /** Block numbers are given back when all their elements were read, and once. */
  ghost predicate ReleasedOk(r: Rep, released: seq<nat>) {
    && (forall j, k :: 0 <= j < k < |released| ==> released[j] != released[k])
    && (forall b :: b in released ==> b < |r.blocks| && Freed(r.done, b))
    && (forall b :: 0 <= b < |r.blocks| && Freed(r.done, b) ==> b in released)
  }

  lemma TakenReleased(r: Rep, i: nat, released: seq<nat>)
    requires BlocksInv(r) && Shape(r) && i < |r.log| && i !in r.done && ReleasedOk(r, released)
    ensures Counted(r, i / 32)
    ensures i / 32 !in released
    ensures ReleasedOk(Taken(r, i), if r.counts[r.blocks[i / 32]] == 31 then released + [i / 32] else released)
  {
    hide Counted, Stored;
    NotFreed(r.done, i);
    TakenBlocks(r, i);
    forall b | 0 <= b < |r.blocks|
      ensures b != i / 32 ==> (Freed(r.done + {i}, b) <==> Freed(r.done, b))
    {
      FreedAdd(r.done, b, i);
    }
  }

  /** The part of the invariant that holds at all times, also when there are blocks nothing was put into yet. */
  ghost predicate Stocked(r: Rep, headIndex: nat, released: seq<nat>) {
    && IndexInv(r) && BlocksInv(r) && ReleasedOk(r, released)
    && headIndex <= |r.log| && (forall i :: i in r.done ==> i < headIndex)
  }

  /** The invariant between operations. */
  ghost predicate Good(r: Rep, tailIndex: nat, headIndex: nat, tailBlock: Option<BlockId>, released: seq<nat>) {
    && Stocked(r, headIndex, released)
    && tailIndex == |r.log| && 32 * |r.blocks| < tailIndex + 32
    && (|r.blocks| > 0 ==> tailBlock == Some(r.blocks[|r.blocks| - 1]))
  }

  // ---------------------------------------------------------------- how many blocks can be started

  /** The block numbers that the index has room for, and the next one to start. */
  datatype Window = Window(low: nat, size: nat, next: nat)

  ghost function WindowOf(r: Rep): Window {
    Window(r.low, |r.index|, |r.blocks|)
  }

  /** The index has an entry for the next block number without growing. */
  ghost predicate HasRoom(w: Window, done: set<nat>) {
    w.next < w.low + w.size || Freed(done, w.low)
  }

  /** The window has room while it has block numbers left, or when all elements of its oldest one were dequeued; one
      more block takes the next number, or takes the place of the oldest one, or doubles the window. */
  lemma WindowMeans(w: Window, done: set<nat>)
    ensures var oldestRead := forall i :: 32 * w.low <= i < 32 * w.low + 32 ==> i in done;
      && (HasRoom(w, done) <==> w.next < w.low + w.size || oldestRead)
      && Started(w, done) == (if w.next < w.low + w.size then Window(w.low, w.size, w.next + 1)
                              else if oldestRead then Window(w.low + 1, w.size, w.next + 1)
                              else Window(w.low, 2 * w.size, w.next + 1))
  {
    hide Freed;
    FreedMeans(done, w.low);
  }

  /** There is room for the next block number, or for a larger index, and there is a block. */
  ghost predicate CanStart(w: Window, done: set<nat>, canAlloc: bool, newBlock: Option<BlockId>) {
    (HasRoom(w, done) || canAlloc) && newBlock.Some?
  }

  /** The window with one more block: it covers one more number, lets go of the oldest one, or doubles. */
  ghost function Started(w: Window, done: set<nat>): Window {
    if w.next < w.low + w.size then Window(w.low, w.size, w.next + 1)
    else if Freed(done, w.low) then Window(w.low + 1, w.size, w.next + 1)
    else Window(w.low, 2 * w.size, w.next + 1)
  }

  /** How many of `count` blocks can be started, with what the allocations from number k on come to. */
  ghost function Startable(w: Window, done: set<nat>, canAlloc: seq<bool>, newBlocks: seq<Option<BlockId>>, k: nat, count: nat): (n: nat)
    requires k + count <= |canAlloc| && k + count <= |newBlocks|
    ensures n <= count
    decreases count
  {
    if count > 0 && CanStart(w, done, canAlloc[k], newBlocks[k])
    then 1 + Startable(Started(w, done), done, canAlloc, newBlocks, k + 1, count - 1)
    else 0
  }

  lemma StartableNext(w: Window, done: set<nat>, canAlloc: seq<bool>, newBlocks: seq<Option<BlockId>>, k: nat, count: nat)
    requires k + count <= |canAlloc| && k + count <= |newBlocks| && count > 0
    ensures Startable(w, done, canAlloc, newBlocks, k, count)
      == if (HasRoom(w, done) || canAlloc[k]) && newBlocks[k].Some?
         then 1 + Startable(Started(w, done), done, canAlloc, newBlocks, k + 1, count - 1) else 0
  {
  }

  /** The window with n more blocks. */
  ghost function StartedMany(w: Window, done: set<nat>, n: nat): Window
    decreases n
  {
    if n == 0 then w else StartedMany(Started(w, done), done, n - 1)
  }

  /** Those that are started find room in the index or can allocate, and get the blocks of the pool; the first
      one that is not finds neither, or no block. */
  lemma {:induction false} StartableMeans(w: Window, done: set<nat>, canAlloc: seq<bool>, newBlocks: seq<Option<BlockId>>, k: nat, count: nat)
    requires k + count <= |canAlloc| && k + count <= |newBlocks|
    ensures var n := Startable(w, done, canAlloc, newBlocks, k, count);
      && (forall j :: 0 <= j < n ==> CanStart(StartedMany(w, done, j), done, canAlloc[k + j], newBlocks[k + j]))
      && (n < count ==> !CanStart(StartedMany(w, done, n), done, canAlloc[k + n], newBlocks[k + n]))
    decreases count
  {
    hide CanStart, Started;
    var n := Startable(w, done, canAlloc, newBlocks, k, count);
    if n > 0 {
      StartableMeans(Started(w, done), done, canAlloc, newBlocks, k + 1, count - 1);
      forall j | 0 <= j < n
        ensures CanStart(StartedMany(w, done, j), done, canAlloc[k + j], newBlocks[k + j])
      {
        if j > 0 {
          var i := j - 1;
          assert CanStart(StartedMany(Started(w, done), done, i), done, canAlloc[k + 1 + i], newBlocks[k + 1 + i]);
        }
      }
    }
  }

  lemma StartableAll(w: Window, done: set<nat>, canAlloc: seq<bool>, newBlocks: seq<Option<BlockId>>, count: nat)
    requires count <= |canAlloc| && count <= |newBlocks|
    ensures Startable(w, done, canAlloc, newBlocks, 0, count) == count ==> forall k :: 0 <= k < count ==> newBlocks[k].Some?
    ensures Startable(w, done, canAlloc, newBlocks, 0, count) < count ==>
      exists k :: 0 <= k < count && !(canAlloc[k] && newBlocks[k].Some?)
  {
    hide Startable, StartedMany, HasRoom;
    StartableMeans(w, done, canAlloc, newBlocks, 0, count);
    var n := Startable(w, done, canAlloc, newBlocks, 0, count);
    if n == count {
      forall k | 0 <= k < count
        ensures newBlocks[k].Some?
      {
        assert CanStart(StartedMany(w, done, k), done, canAlloc[0 + k], newBlocks[0 + k]);
      }
    } else {
      assert !(canAlloc[n] && newBlocks[n].Some?);
    }
  }

  /** These are the first blocks of the pool, in order. */
  ghost predicate HandedOut(blocks: seq<BlockId>, newBlocks: seq<Option<BlockId>>) {
    |blocks| <= |newBlocks| && forall k :: 0 <= k < |blocks| ==> newBlocks[k] == Some(blocks[k])
  }

  lemma HandedOutMore(blocks: seq<BlockId>, first: nat, block: BlockId, newBlocks: seq<Option<BlockId>>)
    requires first <= |blocks| && HandedOut(blocks[first..], newBlocks)
    requires |blocks| - first < |newBlocks| && newBlocks[|blocks| - first] == Some(block)
    ensures HandedOut((blocks + [block])[first..], newBlocks)
  {
    assert (blocks + [block])[first..] == blocks[first..] + [block];
  }

  lemma HandedOutNone(blocks: seq<BlockId>, newBlocks: seq<Option<BlockId>>)
    ensures HandedOut(blocks[|blocks|..], newBlocks)
  {
  }

  /** Between operations, a block was given back exactly when its 32 elements were read, each block number
      once; and blocks that were not are different, so that no block holds elements of two block numbers. */
  lemma GivenBackOnce(r: Rep, tailIndex: nat, headIndex: nat, tailBlock: Option<BlockId>, released: seq<nat>, b: nat)
    requires Good(r, tailIndex, headIndex, tailBlock, released) && b < |r.blocks|
    ensures b in released <==> forall i :: 32 * b <= i < 32 * b + 32 ==> i in r.done
    ensures forall j, k :: 0 <= j < k < |released| ==> released[j] != released[k]
    ensures b !in released ==> forall c :: 0 <= c < |r.blocks| && c != b && c !in released ==> r.blocks[c] != r.blocks[b]
  {
    FreedMeans(r.done, b);
  }

  /** What BlocksInv needs of a block that is put to use: no element that is still to be read is in it. */
  ghost predicate Unused(r: Rep, block: BlockId) {
    forall b :: 0 <= b < |r.blocks| && !Freed(r.done, b) ==> r.blocks[b] != block
  }

  /** Nothing but the index changed. */
  lemma BlocksFrame(r: Rep, r': Rep, released: seq<nat>, newBlock: Option<BlockId>)
    requires BlocksInv(r) && ReleasedOk(r, released) && (newBlock.Some? ==> Unused(r, newBlock.value))
    requires r'.elements == r.elements && r'.counts == r.counts && r'.log == r.log
    requires r'.blocks == r.blocks && r'.done == r.done
    ensures BlocksInv(r') && ReleasedOk(r', released) && (newBlock.Some? ==> Unused(r', newBlock.value))
  {
    forall b | 0 <= b < |r.blocks| && !Freed(r.done, b)
      ensures Counted(r', b)
    {
      assert Counted(r, b);
    }
    forall i | 0 <= i < |r.log| && i !in r.done
      ensures Stored(r', i)
    {
      assert Stored(r, i);
    }
  }

  lemma PlacedStocked(r: Rep, headIndex: nat, released: seq<nat>, block: BlockId)
    requires Open(r) && BlocksInv(r) && ReleasedOk(r, released) && Unused(r, block)
    requires headIndex <= |r.log| && (forall i :: i in r.done ==> i < headIndex)
    ensures Stocked(Placed(r, block), headIndex, released)
  {
    PlacedIndex(r, block);
    PlacedBlocks(r, block);
    CountNone(r.done, 32 * |r.blocks|, 32);
  }

  lemma StockedLog(r: Rep, headIndex: nat, released: seq<nat>)
    requires Stocked(r, headIndex, released)
    ensures |r.log| <= 32 * |r.blocks| && headIndex <= |r.log|
  {
  }

  lemma StockedGood(r: Rep, tailIndex: nat, headIndex: nat, tailBlock: Option<BlockId>, released: seq<nat>)
    requires Stocked(r, headIndex, released) == true && tailIndex == |r.log| && 32 * |r.blocks| < tailIndex + 32
    requires |r.blocks| > 0 ==> tailBlock == Some(r.blocks[|r.blocks| - 1])
    ensures Good(r, tailIndex, headIndex, tailBlock, released)
  {
  }

  /** When the tail is at the end of a block, all blocks are full. */
  lemma FullBlocks(r: Rep, tailIndex: nat, headIndex: nat, tailBlock: Option<BlockId>, released: seq<nat>)
    requires Good(r, tailIndex, headIndex, tailBlock, released) && tailIndex % 32 == 0
    ensures tailIndex == 32 * |r.blocks|
  {
  }

  lemma WrittenStocked(r: Rep, headIndex: nat, released: seq<nat>, x: Value)
    requires Stocked(r, headIndex, released) && |r.log| < 32 * |r.blocks|
    ensures Counted(r, |r.log| / 32) && Stocked(Written(r, x), headIndex, released)
  {
    hide Keyed, Valued, Vacant, Stored;
    WrittenIndex(r, x);
    WrittenBlocks(r, x);
  }

  lemma TakenGood(r: Rep, tailIndex: nat, headIndex: nat, tailBlock: Option<BlockId>, released: seq<nat>, i: nat)
    requires Good(r, tailIndex, headIndex, tailBlock, released) && i < headIndex && i !in r.done
    ensures Counted(r, i / 32)
    ensures Good(Taken(r, i), tailIndex, headIndex, tailBlock,
                 if r.counts[r.blocks[i / 32]] == 31 then released + [i / 32] else released)
  {
    TakenIndex(r, i);
    TakenBlocks(r, i);
    TakenReleased(r, i, released);
  }

  /** c elements from i on, all in one block, are read. */
  ghost function TakenMany(r: Rep, i: nat, c: nat): Rep
    requires Shape(r) && i / 32 < |r.blocks| && r.blocks[i / 32] in r.counts
  {
    var block := r.blocks[i / 32];
    var count := r.counts[block] + c;
    r.(counts := r.counts[block := count], done := r.done + Range(i, c),
       values := if count == 32 then r.values[EntryOf(r, i / 32) := None] else r.values)
  }

  /** It comes to the same as reading them one by one, as long as the block is not empty before the last. */
  lemma TakenManyStep(r: Rep, i: nat, c: nat)
    requires Shape(r) && i / 32 < |r.blocks| && r.blocks[i / 32] in r.counts
    requires (i + c) / 32 == i / 32 && r.counts[r.blocks[i / 32]] + c < 32
    ensures Shape(TakenMany(r, i, c)) && TakenMany(r, i, c + 1) == Taken(TakenMany(r, i, c), i + c)
  {
    assert r.done + Range(i, c + 1) == r.done + Range(i, c) + {i + c};
  }

  ghost function ReleasedMany(r: Rep, released: seq<nat>, i: nat, c: nat): seq<nat>
    requires i / 32 < |r.blocks| && r.blocks[i / 32] in r.counts
  {
    if r.counts[r.blocks[i / 32]] + c == 32 then released + [i / 32] else released
  }

  lemma TakenManyIs(r: Rep, released: seq<nat>, i: nat, c: nat)
    requires Shape(r) && i / 32 < |r.blocks| && r.blocks[i / 32] in r.counts
    ensures var r' := TakenMany(r, i, c); r'.done == r.done + Range(i, c) && r'.log == r.log && r'.blocks == r.blocks
    ensures ReleasedMany(r, released, i, c) == released + if r.counts[r.blocks[i / 32]] + c == 32 then [i / 32] else []
  {
  }

  lemma {:induction false} TakenManyGood(r: Rep, tailIndex: nat, headIndex: nat, tailBlock: Option<BlockId>,
                                         released: seq<nat>, i: nat, c: nat)
    requires Good(r, tailIndex, headIndex, tailBlock, released) && c > 0 && i + c <= headIndex && i % 32 + c <= 32
    requires forall j :: i <= j < i + c ==> j !in r.done
    ensures Shape(r) && i / 32 < |r.blocks| && r.blocks[i / 32] in r.counts
    ensures r.counts[r.blocks[i / 32]] + c <= 32
    ensures Good(TakenMany(r, i, c), tailIndex, headIndex, tailBlock, ReleasedMany(r, released, i, c))
    ensures r.counts[r.blocks[i / 32]] + c == 32 <==> Freed(TakenMany(r, i, c).done, i / 32)
    decreases c
  {
    hide Good, Taken, Freed;
    if c == 1 {
      ReadFacts(r, tailIndex, headIndex, tailBlock, released, i);
      TakenOne(r, i);
    } else {
      TakenManyGood(r, tailIndex, headIndex, tailBlock, released, i, c - 1);
      var r1, released1 := TakenMany(r, i, c - 1), ReleasedMany(r, released, i, c - 1);
      assert (i + c - 1) / 32 == i / 32 && i + c - 1 !in r1.done;
      NotFreed(r1.done, i + c - 1);
      ReadFacts(r1, tailIndex, headIndex, tailBlock, released1, i + c - 1);
      TakenManyStep(r, i, c - 1);
      assert r.done + Range(i, c) == r1.done + {i + c - 1};
    }
  }

  lemma TakenOne(r: Rep, i: nat)
    requires Shape(r) && i / 32 < |r.blocks| && r.blocks[i / 32] in r.counts
    ensures TakenMany(r, i, 1) == Taken(r, i) && TakenMany(r, i, 1).done == r.done + {i}
  {
    assert Range(i, 1) == {i};
  }

  /** What reading element i finds and leaves. */
  lemma ReadFacts(r: Rep, tailIndex: nat, headIndex: nat, tailBlock: Option<BlockId>, released: seq<nat>, i: nat)
    requires Good(r, tailIndex, headIndex, tailBlock, released) && i < headIndex && i !in r.done
    ensures Shape(r) && r.tail < |r.index| && i / 32 < |r.blocks| && i < |r.log|
    ensures LookupSlot(r.keys, r.index, r.tail, i) == Wrap(r.origin + i / 32, |r.index|)
    ensures var block := r.blocks[i / 32];
      && r.values[EntryOf(r, i / 32)] == Some(block)
      && block in r.elements && |r.elements[block]| == 32 && r.elements[block][i % 32] == r.log[i]
      && block in r.counts && r.counts[block] <= 31 && (r.counts[block] == 31 <==> Freed(r.done + {i}, i / 32))
    ensures Good(Taken(r, i), tailIndex, headIndex, tailBlock,
                 if r.counts[r.blocks[i / 32]] == 31 then released + [i / 32] else released)
  {
    NotFreed(r.done, i);
    LookupFinds(r, i);
    TakenGood(r, tailIndex, headIndex, tailBlock, released, i);
    TakenBlocks(r, i);
    assert Stored(r, i);
  }

  lemma ElementAt(r: Rep, tailIndex: nat, headIndex: nat, tailBlock: Option<BlockId>, released: seq<nat>, i: nat)
    requires Good(r, tailIndex, headIndex, tailBlock, released) && i < headIndex && i !in r.done
    ensures i < |r.log| && i / 32 < |r.blocks| && r.blocks[i / 32] in r.elements
    ensures |r.elements[r.blocks[i / 32]]| == 32 && r.elements[r.blocks[i / 32]][i % 32] == r.log[i]
  {
    hide Good;
    ReadFacts(r, tailIndex, headIndex, tailBlock, released, i);
  }

  /** Blocks, and their numbers. */
  ghost predicate AreBlocks(some: seq<BlockId>, numbers: seq<nat>, blocks: seq<BlockId>) {
    |some| == |numbers| && forall k :: 0 <= k < |numbers| ==> numbers[k] < |blocks| && some[k] == blocks[numbers[k]]
  }

  lemma BlockOf(blocks: seq<BlockId>, b: nat)
    requires b < |blocks|
    ensures AreBlocks([blocks[b]], [b], blocks) && AreBlocks([], [], blocks)
  {
  }

  lemma AreBlocksAppend(some: seq<BlockId>, numbers: seq<nat>, more: seq<BlockId>, moreNumbers: seq<nat>, blocks: seq<BlockId>)
    requires AreBlocks(some, numbers, blocks) && AreBlocks(more, moreNumbers, blocks)
    ensures AreBlocks(some + more, numbers + moreNumbers, blocks)
  {
  }

  /** What a bulk read has done when it comes to index i. */
  ghost predicate MovedOut(log: seq<Value>, first: nat, i: nat, items: seq<Value>, before: set<nat>, done: set<nat>,
                           released: seq<nat>, released': seq<nat>, emptied: seq<nat>, givenBack: seq<BlockId>, blocks: seq<BlockId>) {
    && first <= i <= |log| && items == log[first..i] && done == before + Range(first, i - first)
    && released' == released + emptied && AreBlocks(givenBack, emptied, blocks)
  }

  lemma NothingMoved(log: seq<Value>, first: nat, done: set<nat>, released: seq<nat>, blocks: seq<BlockId>)
    requires first <= |log|
    ensures MovedOut(log, first, first, [], done, done, released, released, [], [], blocks)
  {
  }

  lemma MovedMore(log: seq<Value>, first: nat, i: nat, end: nat, items: seq<Value>, more: seq<Value>,
                  before: set<nat>, done: set<nat>, released: seq<nat>, released': seq<nat>,
                  emptied: seq<nat>, numbers: seq<nat>, givenBack: seq<BlockId>, back: seq<BlockId>, blocks: seq<BlockId>)
    requires MovedOut(log, first, i, items, before, done, released, released', emptied, givenBack, blocks)
    requires i <= end <= |log| && more == log[i..end] && AreBlocks(back, numbers, blocks)
    ensures MovedOut(log, first, end, items + more, before, done + Range(i, end - i), released, released' + numbers,
                     emptied + numbers, givenBack + back, blocks)
  {
    hide Range, AreBlocks;
    RangeAppend(first, i - first, end - i);
    SliceAppend(log, first, i, end);
    AreBlocksAppend(givenBack, emptied, back, numbers, blocks);
  }

  lemma MovedAll(log: seq<Value>, first: nat, i: nat, items: seq<Value>, before: set<nat>, done: set<nat>,
                 released: seq<nat>, released': seq<nat>, emptied: seq<nat>, givenBack: seq<BlockId>, blocks: seq<BlockId>)
    requires MovedOut(log, first, i, items, before, done, released, released', emptied, givenBack, blocks)
    ensures first <= i <= |log| && items == log[first..i] && done == before + Range(first, i - first)
    ensures released' == released + emptied && AreBlocks(givenBack, emptied, blocks)
  {
  }

  lemma SameBlock(i: nat, j: nat, end: nat)
    requires i <= j < end && (end - 1) / 32 == i / 32
    ensures j / 32 == i / 32
  {
  }

  lemma BlockEnd(i: nat, end: nat)
    requires i < end <= BlockBase(i) + 32
    ensures (end - 1) / 32 == i / 32 && i % 32 + (end - i) <= 32
  {
  }

  lemma BlockAfter(i: nat)
    ensures i < BlockBase(i) + 32 && (BlockBase(i) + 32) / 32 == i / 32 + 1
  {
  }

  /** The copy loop of new_block_index. */
  method CopyIndex(index: seq<nat>, tail: nat) returns (copy: seq<nat>)
    requires tail < |index|
    ensures copy == Rotated(index, tail)
  {
    var capacity := |index|;
    assert Wrap(tail, capacity) == tail;
    WrapPeriod(tail, capacity);
    copy := [];
    var prevPos := tail;
    while copy == [] || prevPos != tail
      invariant |copy| <= capacity && prevPos == Wrap(tail + |copy|, capacity)
      invariant forall j :: 0 <= j < |copy| ==> copy[j] == index[Wrap(tail + 1 + j, capacity)]
      decreases capacity - |copy|
    {
      WrapShift(tail + |copy|, 1, capacity);
      assert tail + |copy| + 1 == tail + 1 + |copy|;
      prevPos := Wrap(prevPos + 1, capacity);
      copy := copy + [index[prevPos]];
    }
    assert |copy| == capacity;
  }

  // ---------------------------------------------------------------- undoing a bulk enqueue

  /** The blocks from number `first` on are taken out of the index, oldest first, while the tail moves back;
      j of them are out. */
  ghost predicate Rolling(r: Rep, first: nat, j: nat) {
    && Shape(r)
    && r.low <= first && first + j <= |r.blocks| <= r.low + |r.index|
    && r.tail == Wrap(r.origin + |r.blocks| - 1 - j, |r.index|)
    && (forall b :: r.low <= b < |r.blocks| ==> Keyed(r, b))
    && (forall b :: r.low <= b < first ==> Valued(r, b))
    && (forall b :: first <= b < first + j ==> Vacant(r, b))
    && (forall b :: first + j <= b < |r.blocks| ==> Valued(r, b))
    && (forall b :: |r.blocks| <= b < r.low + |r.index| ==> Vacant(r, b))
    && (forall b :: 0 <= b < r.low ==> Freed(r.done, b))
  }

  lemma RollingStart(r: Rep, first: nat)
    requires IndexInv(r) && first <= |r.blocks|
    requires forall b :: first <= b < |r.blocks| ==> !Freed(r.done, b)
    ensures Rolling(r, first, 0)
  {
    var firstFreed := Freed(r.done, first);
    assert first < |r.blocks| ==> !firstFreed;
  }

  /** The lookup finds the next block to take out although it may be ahead of the tail. */
  lemma RollingLookup(r: Rep, first: nat, j: nat)
    requires Rolling(r, first, j) && first + j < |r.blocks| && !Freed(r.done, first + j)
    ensures Shape(r) && r.tail < |r.index| && r.keys[r.index[r.tail]] != INVALID_BLOCK_BASE
    ensures var entry := r.index[LookupSlot(r.keys, r.index, r.tail, 32 * (first + j))];
      && entry == EntryOf(r, first + j)
      && r.keys[entry] == 32 * (first + j) && r.values[entry] == Some(r.blocks[first + j])
  {
    var t := |r.blocks| - 1 - j;
    assert Keyed(r, t) && Keyed(r, first + j) && Valued(r, first + j);
    assert r.origin + |r.blocks| - 1 - j == r.origin + t;
    LookupFrom(r, t, first + j, 32 * (first + j));
  }

  function Emptied(r: Rep, b: nat): Rep
    requires Shape(r)
  {
    r.(values := r.values[EntryOf(r, b) := None], tail := Wrap(r.tail - 1, |r.index|))
  }

  lemma EmptiedKeeps(r: Rep, c: nat, b: nat)
    requires Shape(r) && c - |r.index| < b < c + |r.index|
    ensures Shape(Emptied(r, c))
    ensures Keyed(r, b) ==> Keyed(Emptied(r, c), b)
    ensures b != c && b < |r.blocks| && Valued(r, b) ==> Valued(Emptied(r, c), b)
    ensures b == c || Vacant(r, b) ==> Vacant(Emptied(r, c), b)
  {
    if b < c {
      EntriesDiffer(r, b, c);
    } else if b > c {
      EntriesDiffer(r, c, b);
    }
  }

  lemma RollingNext(r: Rep, first: nat, j: nat)
    requires Rolling(r, first, j) && first + j < |r.blocks|
    ensures Rolling(Emptied(r, first + j), first, j + 1)
  {
    hide Keyed, Valued, Vacant;
    var r' := Emptied(r, first + j);
    WrapShift(r.origin + |r.blocks| - 1 - j, -1, |r.index|);
    forall b | r.low <= b < r.low + |r.index|
      ensures b < |r.blocks| ==> Keyed(r', b)
      ensures b < first || first + j < b < |r.blocks| ==> Valued(r', b)
      ensures first <= b <= first + j || b >= |r.blocks| ==> Vacant(r', b)
    {
      EmptiedKeeps(r, first + j, b);
    }
  }

  /** All the blocks from number `first` on are forgotten. */
  function Truncated(r: Rep, first: nat): Rep
    requires first <= |r.blocks|
  {
    r.(blocks := r.blocks[..first])
  }

  lemma TruncatedKeeps(r: Rep, first: nat, b: nat)
    requires Shape(r) && first <= |r.blocks|
    ensures Keyed(r, b) ==> Keyed(Truncated(r, first), b)
    ensures b < first && Valued(r, b) ==> Valued(Truncated(r, first), b)
    ensures Vacant(r, b) ==> Vacant(Truncated(r, first), b)
  {
  }

  lemma RollingDone(r: Rep, first: nat)
    requires first <= |r.blocks| && Rolling(r, first, |r.blocks| - first)
    ensures IndexInv(Truncated(r, first))
  {
    hide Keyed, Valued, Vacant;
    var r' := Truncated(r, first);
    assert r.origin + |r.blocks| - 1 - (|r.blocks| - first) == r.origin + |r'.blocks| - 1;
    forall b | r.low <= b < r.low + |r.index|
      ensures b < first ==> Keyed(r', b) && Valued(r', b)
      ensures b >= first ==> Vacant(r', b)
    {
      TruncatedKeeps(r, first, b);
    }
  }

  lemma TruncatedStocked(r: Rep, first: nat, headIndex: nat, released: seq<nat>)
    requires BlocksInv(r) && ReleasedOk(r, released) && first <= |r.blocks| && |r.log| <= 32 * first
    requires headIndex <= |r.log| && (forall i :: i in r.done ==> i < headIndex)
    requires IndexInv(Truncated(r, first))
    requires forall b :: first <= b < |r.blocks| ==> !Freed(r.done, b)
    ensures Stocked(Truncated(r, first), headIndex, released)
  {
    hide IndexInv;
    var r' := Truncated(r, first);
    forall b | 0 <= b < first && !Freed(r.done, b)
      ensures Counted(r', b)
    {
      assert Counted(r, b);
    }
    forall i | 0 <= i < |r.log| && i !in r.done
      ensures Stored(r', i)
    {
      assert Stored(r, i);
    }
  }

  // ---------------------------------------------------------------- the chain of new blocks

  function NextOf(blocks: seq<BlockId>, k: nat): Option<BlockId> {
    if k + 1 < |blocks| then Some(blocks[k + 1]) else None
  }

  ghost predicate Linked(blocks: seq<BlockId>, next: map<BlockId, Option<BlockId>>, k: nat)
    requires k < |blocks|
  {
    blocks[k] in next && next[blocks[k]] == NextOf(blocks, k)
  }

  ghost predicate Chained(blocks: seq<BlockId>, next: map<BlockId, Option<BlockId>>, from: nat) {
    forall k :: from <= k < |blocks| ==> Linked(blocks, next, k)
  }

  /** The links after a new block was put after the tail block, if that is part of the chain. */
  function Linking(next: map<BlockId, Option<BlockId>>, tailBlock: Option<BlockId>, newBlock: BlockId): map<BlockId, Option<BlockId>> {
    if tailBlock.Some? then next[newBlock := None][tailBlock.value := Some(newBlock)] else next[newBlock := None]
  }

  /** A block with room for an element that nobody claimed yet is not given back. */
  lemma LiveFrom(r: Rep, headIndex: nat, b: nat)
    requires headIndex <= |r.log| && (forall i :: i in r.done ==> i < headIndex) && |r.log| / 32 <= b
    ensures !Freed(r.done, b)
  {
    FreedMeans(r.done, b);
    assert 32 * b + 31 !in r.done;
  }

  lemma ChainedAppend(r: Rep, next: map<BlockId, Option<BlockId>>, from: nat, first: nat, newBlock: BlockId)
    requires BlocksInv(r) && Unused(r, newBlock) && from <= |r.blocks| && first <= |r.blocks| && first - 1 <= from <= first
    requires forall b :: from <= b < |r.blocks| ==> !Freed(r.done, b)
    requires first < |r.blocks| ==> Chained(r.blocks, next, from)
    ensures var tailBlock := if from < |r.blocks| then Some(r.blocks[|r.blocks| - 1]) else None;
      Chained(r.blocks + [newBlock], Linking(next, tailBlock, newBlock), from)
  {
    hide Counted, Stored;
    var blocks, n := r.blocks + [newBlock], |r.blocks|;
    var next' := Linking(next, if from < n then Some(r.blocks[n - 1]) else None, newBlock);
    forall k | from <= k < |blocks|
      ensures Linked(blocks, next', k)
    {
      if k < n - 1 {
        assert Linked(r.blocks, next, k);
        assert r.blocks[k] != r.blocks[n - 1];
      }
    }
  }

  /** Part of the way through a bulk enqueue: the blocks from number `first` on are new. */
  ghost predicate Entering(r: Rep, next: map<BlockId, Option<BlockId>>, tailBlock: Option<BlockId>,
                           firstAllocated: Option<BlockId>, first: nat, headIndex: nat, released: seq<nat>) {
    && Stocked(r, headIndex, released)
    && first <= |r.blocks| && 32 * first - 32 < |r.log| <= 32 * first
    && (first < |r.blocks| ==> Chained(r.blocks, next, |r.log| / 32))
    && firstAllocated == (if first < |r.blocks| then Some(r.blocks[first]) else None)
    && (|r.blocks| > 0 ==> tailBlock == Some(r.blocks[|r.blocks| - 1]))
  }

  lemma EnteringStart(r: Rep, next: map<BlockId, Option<BlockId>>, tailIndex: nat, headIndex: nat,
                      tailBlock: Option<BlockId>, released: seq<nat>)
    requires Good(r, tailIndex, headIndex, tailBlock, released)
    ensures Entering(r, next, tailBlock, None, |r.blocks|, headIndex, released)
    ensures BlockBase(tailIndex - 1) == 32 * |r.blocks| - 32 && tailIndex == |r.log|
    ensures |r.blocks| > 0 ==> tailBlock == Some(r.blocks[|r.blocks| - 1])
  {
  }

  lemma EnteringFirst(r: Rep, next: map<BlockId, Option<BlockId>>, tailBlock: Option<BlockId>,
                      firstAllocated: Option<BlockId>, first: nat, headIndex: nat, released: seq<nat>)
    requires Entering(r, next, tailBlock, firstAllocated, first, headIndex, released)
    ensures first <= |r.blocks|
  {
  }

  lemma EnteredOne(r: Rep, r': Rep, next: map<BlockId, Option<BlockId>>, tailBlock: Option<BlockId>,
                   firstAllocated: Option<BlockId>, first: nat, headIndex: nat, released: seq<nat>, newBlock: BlockId)
    requires Entering(r, next, tailBlock, firstAllocated, first, headIndex, released) && Unused(r, newBlock)
    requires Stocked(r', headIndex, released) && r'.blocks == r.blocks + [newBlock] && r'.log == r.log
    ensures var link := if |r.log| % 32 != 0 || firstAllocated != None then tailBlock else None;
      Entering(r', Linking(next, link, newBlock), Some(newBlock),
               if firstAllocated == None then Some(newBlock) else firstAllocated, first, headIndex, released)
  {
    hide IndexInv, ReleasedOk;
    forall b | |r.log| / 32 <= b < |r.blocks|
      ensures !Freed(r.done, b)
    {
      LiveFrom(r, headIndex, b);
    }
    ChainedAppend(r, next, |r.log| / 32, first, newBlock);
  }

  /** Block k is the last one, or it differs from that and is linked to block k + 1. */
  ghost predicate Follows(blocks: seq<BlockId>, next: map<BlockId, Option<BlockId>>, k: nat) {
    k < |blocks| && (k == |blocks| - 1 || (blocks[k] != blocks[|blocks| - 1] && Linked(blocks, next, k)))
  }

  ghost predicate ReadyToFill(blocks: seq<BlockId>, next: map<BlockId, Option<BlockId>>, from: nat) {
    from < |blocks| && forall k :: from <= k < |blocks| ==> Follows(blocks, next, k)
  }

  lemma FollowsAt(blocks: seq<BlockId>, next: map<BlockId, Option<BlockId>>, from: nat, k: nat)
    requires ReadyToFill(blocks, next, from) && from <= k < |blocks|
    ensures blocks[k] == blocks[|blocks| - 1] <==> k == |blocks| - 1
    ensures k < |blocks| - 1 ==> blocks[k] in next && next[blocks[k]] == Some(blocks[k + 1])
  {
    assert Follows(blocks, next, k);
  }

  lemma BlockBaseIs(i: nat, k: nat)
    requires 32 * k <= i < 32 * k + 32
    ensures BlockBase(i) == 32 * k && i / 32 == k
  {
  }

  lemma EnteredReady(r: Rep, next: map<BlockId, Option<BlockId>>, tailBlock: Option<BlockId>,
                     firstAllocated: Option<BlockId>, first: nat, headIndex: nat, released: seq<nat>)
    requires Entering(r, next, tailBlock, firstAllocated, first, headIndex, released) && |r.log| < 32 * |r.blocks|
    ensures ReadyToFill(r.blocks, next, |r.log| / 32)
    ensures Stocked(r, headIndex, released)
    ensures if |r.log| % 32 == 0 then firstAllocated == Some(r.blocks[|r.log| / 32]) else first == |r.log| / 32 + 1
    ensures tailBlock == Some(r.blocks[|r.blocks| - 1])
  {
    hide IndexInv, ReleasedOk;
    var last := |r.blocks| - 1;
    forall k | |r.log| / 32 <= k < |r.blocks|
      ensures Follows(r.blocks, next, k)
    {
      LiveFrom(r, headIndex, k);
      LiveFrom(r, headIndex, last);
    }
  }

  lemma RollbackStart(r: Rep, next: map<BlockId, Option<BlockId>>, tailBlock: Option<BlockId>,
                      firstAllocated: Option<BlockId>, first: nat, headIndex: nat, released: seq<nat>)
    requires Entering(r, next, tailBlock, firstAllocated, first, headIndex, released)
    ensures first <= |r.blocks| && Rolling(r, first, 0)
    ensures firstAllocated == (if first < |r.blocks| then Some(r.blocks[first]) else None)
    ensures forall b :: first <= b < |r.blocks| ==> Linked(r.blocks, next, b)
    ensures forall b :: first <= b < |r.blocks| ==> !Freed(r.done, b)
    ensures BlocksInv(r) && ReleasedOk(r, released) && |r.log| <= 32 * first && headIndex <= |r.log|
    ensures forall i :: i in r.done ==> i < headIndex
  {
    hide BlocksInv, ReleasedOk;
    forall b | first <= b < |r.blocks|
      ensures !Freed(r.done, b) && Linked(r.blocks, next, b)
    {
      LiveFrom(r, headIndex, b);
    }
    RollingStart(r, first);
  }

  lemma RollbackDone(r: Rep, r': Rep, first: nat, headIndex: nat, released: seq<nat>)
    requires r' == r.(values := r'.values, tail := r'.tail)
    requires first <= |r.blocks| && Rolling(r', first, |r.blocks| - first)
    requires BlocksInv(r) && ReleasedOk(r, released) && |r.log| <= 32 * first && headIndex <= |r.log|
    requires forall i :: i in r.done ==> i < headIndex
    requires forall b :: first <= b < |r.blocks| ==> !Freed(r.done, b)
    ensures Stocked(Truncated(r', first), headIndex, released)
  {
    hide Rolling;
    RollingDone(r', first);
    BlocksFrame(r, r', released, None);
    TruncatedStocked(r', first, headIndex, released);
  }

  /** The blocks that the pool hands out are different, and nothing in them is still to be read. */
  ghost predicate Spare(r: Rep, newBlocks: seq<Option<BlockId>>, from: nat) {
    && (forall k :: from <= k < |newBlocks| && newBlocks[k].Some? ==> Unused(r, newBlocks[k].value))
    && (forall j, k :: from <= j < k < |newBlocks| && newBlocks[j].Some? && newBlocks[k].Some? ==> newBlocks[j] != newBlocks[k])
  }

  lemma SpareThis(r: Rep, newBlocks: seq<Option<BlockId>>, k: nat)
    requires Spare(r, newBlocks, k) && k < |newBlocks|
    ensures newBlocks[k].Some? ==> Unused(r, newBlocks[k].value)
  {
  }

  lemma SpareNext(r: Rep, r': Rep, newBlocks: seq<Option<BlockId>>, k: nat)
    requires Spare(r, newBlocks, k) && k < |newBlocks| && newBlocks[k].Some?
    requires r'.blocks == r.blocks + [newBlocks[k].value] && r'.done == r.done
    ensures Spare(r', newBlocks, k + 1)
  {
  }

  lemma SpareSame(r: Rep, r': Rep, newBlocks: seq<Option<BlockId>>, k: nat)
    requires Spare(r, newBlocks, k) && r'.blocks == r.blocks && r'.done == r.done
    ensures Spare(r', newBlocks, k)
  {
  }

  /** Where a bulk enqueue of some items starts, and how many blocks it is to start. */
  lemma BulkStart(r: Rep, next: map<BlockId, Option<BlockId>>, tailIndex: nat, headIndex: nat,
                  tailBlock: Option<BlockId>, released: seq<nat>, items: nat)
    requires Good(r, tailIndex, headIndex, tailBlock, released) && items > 0
    ensures Entering(r, next, tailBlock, None, |r.blocks|, headIndex, released)
    ensures tailIndex == |r.log| && 32 * |r.blocks| < tailIndex + 32 && BlockBase(tailIndex - 1) == 32 * |r.blocks| - 32
    ensures BlockBase(tailIndex + items - 1) - BlockBase(tailIndex - 1) == 32 * BlockStarts(tailIndex, items)
    ensures var blocks := |r.blocks| + BlockStarts(tailIndex, items); tailIndex + items <= 32 * blocks < tailIndex + items + 32
    ensures |r.blocks| > 0 ==> tailBlock == Some(r.blocks[|r.blocks| - 1])
  {
    hide Good, Entering, BlockStarts, BlockBase;
    EnteringStart(r, next, tailIndex, headIndex, tailBlock, released);
    BaseDiff(tailIndex, items);
    BaseBounds(tailIndex + items - 1);
    BaseBounds(tailIndex - 1);
  }

  class Producer {
    var tailIndex: nat
    var headIndex: nat
    var tailBlock: Option<BlockId>
    var next: map<BlockId, Option<BlockId>>
    var elements: map<BlockId, seq<Value>>
    var counts: map<BlockId, nat>
    var nextBlockIndexCapacity: nat
    /** The entries, and the current index: pointers to entries, and its tail. */
    var keys: seq<int>
    var values: seq<Option<BlockId>>
    var index: seq<nat>
    var tail: nat

    ghost var log: seq<Value>
    ghost var blocks: seq<BlockId>
    ghost var done: set<nat>
    /** The numbers of the blocks that were given back, in that order. */
    ghost var released: seq<nat>
    ghost var low: nat
    ghost var origin: int

    ghost function State(): Rep
      reads this
    {
      Rep(keys, values, index, tail, elements, counts, log, blocks, done, low, origin)
    }

    ghost predicate Valid()
      reads this
    {
      Good(State(), tailIndex, headIndex, tailBlock, released) && nextBlockIndexCapacity == 2 * |index|
    }

    /** An empty producer; its first index has this capacity, of which at least two is asserted. */
    constructor (capacity: nat, junk: nat -> Option<BlockId>)
      requires capacity >= 2
      ensures Valid() && log == [] && blocks == [] && done == {} && released == [] && headIndex == 0
    {
      tailIndex, headIndex, tailBlock, next, elements, counts := 0, 0, None, map[], map[], map[];
      keys := seq(capacity, _ => INVALID_BLOCK_BASE);
      values := seq(capacity, junk);
      index := Fresh(0, capacity);
      tail := Wrap(-1, capacity);
      nextBlockIndexCapacity := 2 * capacity;
      log, blocks, done, released, low, origin := [], [], {}, [], 0, 0;
    }

    /** Takes indices, one for a dequeue; the counters of the dequeue protocol make sure that there are enough. */
    method Claim(count: nat) returns (first: nat)
      requires Valid() && headIndex + count <= tailIndex
      modifies `headIndex
      ensures Valid() && first == old(headIndex) && headIndex == old(headIndex) + count
    {
      first := headIndex;
      headIndex := headIndex + count;
    }

    /** Counts the element as read; with the last one of its block, the block goes. */
    method SetEmpty(i: nat, entry: nat, block: BlockId) returns (empty: bool)
      requires Shape(State()) && i / 32 < |blocks| && block == blocks[i / 32] && block in counts && counts[block] < 32
      requires entry == EntryOf(State(), i / 32)
      modifies `counts, `values, `done, `released
      ensures State() == Taken(old(State()), i)
      ensures empty <==> old(counts[block]) == 31
      ensures released == if empty then old(released) + [i / 32] else old(released)
    {
      counts := counts[block := counts[block] + 1];
      empty := counts[block] == 32;
      if empty {
        values := values[entry := None];
        released := released + [i / 32];
      }
      done := done + {i};
    }

    /** Moves the element out.  Whoever reads the last element of a block removes the block from the index
        and gives it back. */
    method Read(i: nat) returns (x: Value, givenBack: Option<BlockId>)
      requires Valid() && i < headIndex && i !in done
      modifies `counts, `values, `done, `released
      ensures Valid() && i < |log| && x == log[i] && done == old(done) + {i}
      ensures i / 32 < |blocks| && givenBack == if Freed(done, i / 32) then Some(blocks[i / 32]) else None
      ensures released == if Freed(done, i / 32) then old(released) + [i / 32] else old(released)
    {
      hide Good, Freed;
      ReadFacts(State(), tailIndex, headIndex, tailBlock, released, i);
      var entry := index[LookupSlot(keys, index, tail, i)];
      var block := values[entry].value;
      x := elements[block][i % 32];
      var empty := SetEmpty(i, entry, block);
      givenBack := if empty then Some(block) else None;
    }

    /** Counts c elements of a block as read; with the last one, the block goes. */
    method SetManyEmpty(i: nat, c: nat, entry: nat, block: BlockId) returns (empty: bool)
      requires Shape(State()) && i / 32 < |blocks| && block == blocks[i / 32] && block in counts && counts[block] + c <= 32
      requires entry == EntryOf(State(), i / 32)
      modifies `counts, `values, `done, `released
      ensures State() == TakenMany(old(State()), i, c)
      ensures empty <==> old(counts[block]) + c == 32
      ensures released == ReleasedMany(old(State()), old(released), i, c)
    {
      counts := counts[block := counts[block] + c];
      empty := counts[block] == 32;
      if empty {
        values := values[entry := None];
        released := released + [i / 32];
      }
      done := done + Range(i, c);
    }

    /** Moves out elements of one block. */
    method MoveOut(i: nat, end: nat, block: BlockId) returns (items: seq<Value>)
      requires Good(State(), tailIndex, headIndex, tailBlock, released) == true && i < end <= headIndex
      requires (end - 1) / 32 == i / 32 && forall j :: i <= j < end ==> j !in done
      requires i / 32 < |blocks| && block == blocks[i / 32]
      ensures end <= |log| && items == log[i..end]
    {
      hide Good;
      ElementAt(State(), tailIndex, headIndex, tailBlock, released, i);
      items := [];
      var j := i;
      while j != end
        invariant i <= j <= end && j <= |log| && items == log[i..j]
      {
        ElementAt(State(), tailIndex, headIndex, tailBlock, released, j);
        SameBlock(i, j, end);
        SliceAppend(log, i, j, j + 1);
        items := items + [elements[block][j % 32]];
        j := j + 1;
      }
    }

    /** Moves out what the block behind this slot has of the elements from i on, up to the last one wanted. */
    method ReadFromSlot(i: nat, stop: nat, indexIndex: nat, ghost b: nat)
      returns (items: seq<Value>, end: nat, givenBack: seq<BlockId>, ghost emptied: seq<nat>)
      requires Good(State(), tailIndex, headIndex, tailBlock, released) == true && i < stop <= headIndex
      requires forall j :: i <= j < stop ==> j !in done
      requires |index| > 0 && b == i / 32 && indexIndex == Wrap(origin + b, |index|)
      modifies `counts, `values, `done, `released
      ensures i < end <= stop && (end < stop ==> end / 32 == b + 1)
      ensures Good(State(), tailIndex, headIndex, tailBlock, released) == true && done == old(done) + Range(i, end - i)
      ensures end <= |log| && items == log[i..end]
      ensures b < |blocks| && emptied == (if Freed(done, b) then [b] else [])
      ensures released == old(released) + emptied && AreBlocks(givenBack, emptied, blocks)
    {
      hide Good, Freed, Range, LookupSlot, BlockBase, TakenMany, ReleasedMany, AreBlocks, Shape, Wrap;
      BlockAfter(i);
      end := BlockBase(i) + 32;
      if stop < end {
        end := stop;
      }
      ReadFacts(State(), tailIndex, headIndex, tailBlock, released, i);
      BlockEnd(i, end);
      var entry := index[indexIndex];
      var block := values[entry].value;
      items := MoveOut(i, end, block);
      TakenManyGood(State(), tailIndex, headIndex, tailBlock, released, i, end - i);
      TakenManyIs(State(), released, i, end - i);
      BlockOf(blocks, b);
      var empty := SetManyEmpty(i, end - i, entry, block);
      givenBack := if empty then [block] else [];
      emptied := if empty then [b] else [];
    }

    /** Moves out all elements from firstIndex on: one lookup, and then slot after slot of the index.
        givenBack are the blocks that became empty on the way, emptied their numbers. */
    method ReadBulk(firstIndex: nat, count: nat)
      returns (items: seq<Value>, givenBack: seq<BlockId>, ghost emptied: seq<nat>)
      requires Valid() && count > 0 && firstIndex + count <= headIndex
      requires forall j :: firstIndex <= j < firstIndex + count ==> j !in done
      modifies `counts, `values, `done, `released
      ensures Valid() && firstIndex + count <= |log| && items == log[firstIndex..firstIndex + count]
      ensures done == old(done) + Range(firstIndex, count)
      ensures released == old(released) + emptied && AreBlocks(givenBack, emptied, blocks)
    {
      hide Good, Range, Freed, LookupSlot, Wrap, AreBlocks, MovedOut, BlockBase, Shape;
      ReadFacts(State(), tailIndex, headIndex, tailBlock, released, firstIndex);
      var indexIndex := LookupSlot(keys, index, tail, firstIndex);
      var i := firstIndex;
      ghost var b, zero := firstIndex / 32, origin;
      var capacity := |index|;
      items, givenBack, emptied := [], [], [];
      NothingMoved(log, firstIndex, done, released, blocks);
      while i != firstIndex + count
        invariant Good(State(), tailIndex, headIndex, tailBlock, released) == true
        invariant firstIndex <= i <= firstIndex + count
        invariant MovedOut(log, firstIndex, i, items, old(done), done, old(released), released, emptied, givenBack, blocks) == true
        invariant i < firstIndex + count ==> i / 32 == b
        invariant forall j :: i <= j < firstIndex + count ==> j !in done
        invariant capacity == |index| > 0 && zero == origin && indexIndex == Wrap(zero + b, capacity)
        decreases firstIndex + count - i
      {
        var more, end, back;
        ghost var numbers;
        ghost var doneBefore, releasedBefore := done, released;
        more, end, back, numbers := ReadFromSlot(i, firstIndex + count, indexIndex, b);
        MovedMore(log, firstIndex, i, end, items, more, old(done), doneBefore, old(released), releasedBefore,
                  emptied, numbers, givenBack, back, blocks);
        RangeIs(i, end - i);
        items, givenBack, emptied := items + more, givenBack + back, emptied + numbers;
        NextSlot(zero, b, capacity);
        indexIndex := Wrap(indexIndex + 1, capacity);
        i, b := end, b + 1;
      }
      MovedAll(log, firstIndex, i, items, old(done), done, old(released), released, emptied, givenBack, blocks);
    }

    /** new_block_index; junk is what the memory holds. */
    method NewBlockIndex(junk: nat -> Option<BlockId>)
      requires Shape(State()) && tail < |index| && nextBlockIndexCapacity == 2 * |index|
      modifies `keys, `values, `index, `tail, `origin, `nextBlockIndexCapacity
      ensures State() == Grown(old(State()), seq(|old(index)|, junk))
      ensures nextBlockIndexCapacity == 2 * |index|
    {
      var prevCapacity := |index|;
      var entryCount := prevCapacity;
      var copy := CopyIndex(index, tail);
      index := copy + Fresh(|keys|, entryCount);
      keys := keys + seq(entryCount, _ => INVALID_BLOCK_BASE);
      values := values + seq(entryCount, junk);
      tail := prevCapacity - 1;
      nextBlockIndexCapacity := 2 * nextBlockIndexCapacity;
      origin := 0 - low;
    }

    method PutKey(entry: nat, newTail: nat, blockStartIndex: nat)
      requires Shape(State()) && entry == EntryOf(State(), |blocks|) && newTail == Wrap(tail + 1, |index|)
      requires blockStartIndex == 32 * |blocks|
      modifies `keys, `tail, `low
      ensures State() == Opened(old(State()))
    {
      keys := keys[entry := blockStartIndex];
      tail := newTail;
      low := if |blocks| == low + |index| then low + 1 else low;
    }

    /** A larger index, and the entry after its tail, which is fresh. */
    method GrowForInsert(junk: nat -> Option<BlockId>) returns (newTail: nat, entry: nat)
      requires IndexInv(State()) == true && nextBlockIndexCapacity == 2 * |index|
      requires !(|blocks| < low + |index|)
      modifies `keys, `values, `index, `tail, `origin, `nextBlockIndexCapacity
      ensures IndexInv(State()) == true && nextBlockIndexCapacity == 2 * |index|
      ensures Shape(State()) && newTail == Wrap(tail + 1, |index|) && entry == EntryOf(State(), |blocks|)
      ensures entry < |keys| && keys[entry] == INVALID_BLOCK_BASE
      ensures |index| == 2 * old(|index|) && |blocks| < low + |index|
    {
      hide IndexInv, Grown, EntryOf;
      NextEntry(State());
      GrownIndex(State(), seq(|index|, junk));
      NewBlockIndex(junk);
      NextEntry(State());
      newTail := Wrap(tail + 1, |index|);
      entry := index[newTail];
    }

    /** insert_block_index_entry: puts the key of the next block into the entry after the tail, and moves
        the tail there; the index grows when that entry is still in use. */
    method InsertEntry(blockStartIndex: nat, canAlloc: bool, junk: nat -> Option<BlockId>)
      returns (ok: bool, entry: nat)
      requires IndexInv(State()) && nextBlockIndexCapacity == 2 * |index| && blockStartIndex == 32 * |blocks|
      modifies `keys, `values, `index, `tail, `low, `origin, `nextBlockIndexCapacity
      ensures nextBlockIndexCapacity == 2 * |index|
      ensures ok <==> canAlloc || HasRoom(old(WindowOf(State())), done)
      ensures ok ==> Open(State()) && entry == EntryOf(State(), |blocks|)
      ensures ok ==> WindowOf(State()).(next := |blocks| + 1) == Started(old(WindowOf(State())), done)
      ensures !ok ==> State() == old(State())
    {
      hide IndexInv, Open, EntryOf, Freed;
      NextEntry(State());
      var newTail := Wrap(tail + 1, |index|);
      entry := index[newTail];
      if !Free(keys, values, entry) {
        if !canAlloc {
          return false, entry;
        }
        newTail, entry := GrowForInsert(junk);
        assert keys[entry] == INVALID_BLOCK_BASE;
      }
      OpenedOpen(State());
      PutKey(entry, newTail, blockStartIndex);
      ok := true;
    }

    /** Clears the entry at the tail and moves the tail back. */
    method Withdraw(entry: nat)
      requires Open(State()) && entry == EntryOf(State(), |blocks|)
      modifies `values, `tail
      ensures IndexInv(State()) == true && State() == Withdrawn(old(State()))
    {
      WithdrawnIndex(State());
      hide IndexInv, Open, Keyed, Valued, Vacant;
      tail := Wrap(tail - 1, |index|);
      values := values[entry := None];
    }

    /** Puts a block into the entry at the tail, ready to be filled. */
    method Place(entry: nat, block: BlockId)
      requires Open(State()) && entry == EntryOf(State(), |blocks|)
      modifies `values, `elements, `counts, `blocks
      ensures State() == Placed(old(State()), block)
    {
      counts := counts[block := 0];
      values := values[entry := Some(block)];
      elements := elements[block := Blank()];
      blocks := blocks + [block];
    }

    /** Starts a block; newBlock is what the pool hands out, if anything. */
    method StartBlock(blockStartIndex: nat, canAlloc: bool, junk: nat -> Option<BlockId>, newBlock: Option<BlockId>)
      returns (ok: bool)
      requires Stocked(State(), headIndex, released) && nextBlockIndexCapacity == 2 * |index|
      requires blockStartIndex == 32 * |blocks| && (newBlock.Some? ==> Unused(State(), newBlock.value))
      modifies `keys, `values, `index, `tail, `low, `origin, `nextBlockIndexCapacity, `elements, `counts, `blocks
      ensures Stocked(State(), headIndex, released) == true && nextBlockIndexCapacity == 2 * |index|
      ensures ok <==> (canAlloc || HasRoom(old(WindowOf(State())), done)) && newBlock.Some?
      ensures ok ==> WindowOf(State()) == Started(old(WindowOf(State())), done)
      ensures blocks == if ok then old(blocks) + [newBlock.value] else old(blocks)
    {
      hide IndexInv, Open, ReleasedOk, Unused, BlocksInv;
      ghost var r := State();
      var entry;
      ok, entry := InsertEntry(blockStartIndex, canAlloc, junk);
      BlocksFrame(r, State(), released, newBlock);
      if !ok {
        return;
      }
      if newBlock == None {
        Withdraw(entry);
        BlocksFrame(r, State(), released, newBlock);
        return false;
      }
      PlacedStocked(State(), headIndex, released, newBlock.value);
      Place(entry, newBlock.value);
    }

    /** Constructs the next element in its block. */
    method Construct(i: nat, x: Value)
      requires Stocked(State(), headIndex, released) && i == |log| < 32 * |blocks|
      requires tailBlock == Some(blocks[|log| / 32])
      modifies `elements, `log
      ensures Stocked(State(), headIndex, released) == true && log == old(log) + [x]
    {
      ghost var r := State();
      WrittenStocked(r, headIndex, released, x);
      hide IndexInv, BlocksInv, ReleasedOk;
      var block := tailBlock.value;
      assert Counted(r, i / 32);
      elements := elements[block := elements[block][i % 32 := x]];
      log := log + [x];
      assert State() == Written(r, x);
    }

    /** Appends x.  It fails exactly when a block is needed and either the index is full and cannot grow, or
        no block can be had; then nothing is lost. */
    method Enqueue(x: Value, canAlloc: bool, junk: nat -> Option<BlockId>, newBlock: Option<BlockId>) returns (ok: bool)
      requires Valid() && (newBlock.Some? ==> Unused(State(), newBlock.value))
      modifies this
      ensures Valid() && headIndex == old(headIndex) && done == old(done) && released == old(released)
      ensures ok <==> (old(tailIndex) % 32 != 0 || (newBlock.Some? && (canAlloc || HasRoom(old(WindowOf(State())), done))))
      ensures log == (if ok then old(log) + [x] else old(log)) && tailIndex == old(tailIndex) + if ok then 1 else 0
      ensures blocks == if ok && old(tailIndex) % 32 == 0 then old(blocks) + [newBlock.value] else old(blocks)
      ensures ok ==> WindowOf(State()) == (if old(tailIndex) % 32 == 0 then Started(old(WindowOf(State())), done) else old(WindowOf(State())))
    {
      hide Stocked;
      var currentTailIndex := tailIndex;
      if currentTailIndex % 32 == 0 {
        FullBlocks(State(), tailIndex, headIndex, tailBlock, released);
        ok := StartBlock(currentTailIndex, canAlloc, junk, newBlock);
        StockedLog(State(), headIndex, released);
        if !ok {
          return;
        }
        tailBlock := newBlock;
      } else {
        StockedLog(State(), headIndex, released);
        assert currentTailIndex / 32 == |blocks| - 1;
      }
      Construct(currentTailIndex, x);
      tailIndex := currentTailIndex + 1;
      ok := true;
    }

    // -------------------------------------------------------------- many elements at once
    //
    // `P(...) == true` instead of `P(...)` makes the verifier prove it as a whole.

    /** Starts one more block, and links it in after the previous one. */
    method EnterBlock(currentTailIndex: nat, canAlloc: bool, junk: nat -> Option<BlockId>, newBlock: Option<BlockId>,
                      firstAllocated: Option<BlockId>, ghost first: nat)
      returns (ok: bool, firstAllocated': Option<BlockId>)
      requires Entering(State(), next, tailBlock, firstAllocated, first, headIndex, released) == true
      requires nextBlockIndexCapacity == 2 * |index| && currentTailIndex == 32 * |blocks| && tailIndex == |log|
      requires newBlock.Some? ==> Unused(State(), newBlock.value)
      modifies `keys, `values, `index, `tail, `low, `origin, `nextBlockIndexCapacity, `elements, `counts, `blocks, `next, `tailBlock
      ensures Entering(State(), next, tailBlock, firstAllocated', first, headIndex, released) == true
      ensures nextBlockIndexCapacity == 2 * |index|
      ensures ok <==> (canAlloc || HasRoom(old(WindowOf(State())), done)) && newBlock.Some?
      ensures ok ==> WindowOf(State()) == Started(old(WindowOf(State())), done)
      ensures blocks == if ok then old(blocks) + [newBlock.value] else old(blocks)
    {
      hide Stocked, Unused, Chained;
      ghost var r := State();
      firstAllocated' := firstAllocated;
      ok := StartBlock(currentTailIndex, canAlloc, junk, newBlock);
      if !ok {
        return;
      }
      EnteredOne(r, State(), next, tailBlock, firstAllocated, first, headIndex, released, newBlock.value);
      next := Linking(next, if tailIndex % 32 != 0 || firstAllocated != None then tailBlock else None, newBlock.value);
      tailBlock := newBlock;
      firstAllocated' := if firstAllocated == None then newBlock else firstAllocated;
    }

    /** Starts block k of those that the elements need. */
    method EnterNext(currentTailIndex: nat, canAlloc: seq<bool>, junk: nat -> Option<BlockId>, newBlocks: seq<Option<BlockId>>,
                     k: nat, firstAllocated: Option<BlockId>, ghost first: nat, ghost count: nat)
      returns (ok: bool, firstAllocated': Option<BlockId>)
      requires Entering(State(), next, tailBlock, firstAllocated, first, headIndex, released) == true
      requires nextBlockIndexCapacity == 2 * |index| && currentTailIndex == 32 * |blocks| && tailIndex == |log|
      requires k < count <= |canAlloc| && count <= |newBlocks| && Spare(State(), newBlocks, k)
      requires |blocks| == first + k && HandedOut(blocks[first..], newBlocks)
      modifies `keys, `values, `index, `tail, `low, `origin, `nextBlockIndexCapacity, `elements, `counts, `blocks, `next, `tailBlock
      ensures Entering(State(), next, tailBlock, firstAllocated', first, headIndex, released) == true
      ensures nextBlockIndexCapacity == 2 * |index|
      ensures Startable(old(WindowOf(State())), done, canAlloc, newBlocks, k, count - k)
           == if ok then 1 + Startable(WindowOf(State()), done, canAlloc, newBlocks, k + 1, count - k - 1) else 0
      ensures |blocks| == old(|blocks|) + (if ok then 1 else 0) && blocks[..old(|blocks|)] == old(blocks)
      ensures HandedOut(blocks[first..], newBlocks) && (ok ==> Spare(State(), newBlocks, k + 1))
    {
      hide Entering, Spare, Started, HasRoom, Startable, HandedOut, WindowOf;
      ghost var r := State();
      SpareThis(r, newBlocks, k);
      StartableNext(WindowOf(r), done, canAlloc, newBlocks, k, count - k);
      ok, firstAllocated' := EnterBlock(currentTailIndex, canAlloc[k], junk, newBlocks[k], firstAllocated, first);
      if ok {
        SpareNext(r, State(), newBlocks, k);
        HandedOutMore(r.blocks, first, newBlocks[k].value, newBlocks);
      }
    }

    /** Starts the blocks that the elements need; stops at the first failure. */
    method EnterBlocks(baseDiff: nat, ghost count: nat, canAlloc: seq<bool>, junk: nat -> Option<BlockId>, newBlocks: seq<Option<BlockId>>)
      returns (ok: bool, firstAllocated: Option<BlockId>)
      requires Entering(State(), next, tailBlock, None, |blocks|, headIndex, released) == true
      requires nextBlockIndexCapacity == 2 * |index| && tailIndex == |log|
      requires baseDiff == 32 * count && count <= |canAlloc| && count <= |newBlocks|
      requires BlockBase(tailIndex - 1) == 32 * |blocks| - 32 && Spare(State(), newBlocks, 0)
      modifies `keys, `values, `index, `tail, `low, `origin, `nextBlockIndexCapacity, `elements, `counts, `blocks, `next, `tailBlock
      ensures Entering(State(), next, tailBlock, firstAllocated, old(|blocks|), headIndex, released) == true
      ensures nextBlockIndexCapacity == 2 * |index|
      ensures |blocks| == old(|blocks|) + Startable(old(WindowOf(State())), done, canAlloc, newBlocks, 0, count)
      ensures blocks[..old(|blocks|)] == old(blocks) && HandedOut(blocks[old(|blocks|)..], newBlocks)
      ensures ok <==> |blocks| == old(|blocks|) + count
    {
      hide Entering, Spare, Started, HasRoom, Startable, HandedOut, WindowOf;
      HandedOutNone(blocks, newBlocks);
      ghost var first, total := |blocks|, Startable(WindowOf(State()), done, canAlloc, newBlocks, 0, count);
      var blockBaseDiff: int := baseDiff;
      var currentTailIndex := BlockBase(tailIndex - 1);
      var k := 0;
      ok, firstAllocated := true, None;
      while blockBaseDiff > 0 && ok
        invariant Entering(State(), next, tailBlock, firstAllocated, first, headIndex, released) == true
        invariant nextBlockIndexCapacity == 2 * |index|
        invariant k <= count && blockBaseDiff == 32 * (count - k)
        invariant first <= |blocks| && blocks[..first] == old(blocks) && HandedOut(blocks[first..], newBlocks)
        invariant ok ==> |blocks| == first + k && currentTailIndex == 32 * |blocks| - 32
        invariant ok ==> Spare(State(), newBlocks, k)
        invariant ok ==> total == k + Startable(WindowOf(State()), done, canAlloc, newBlocks, k, count - k)
        invariant !ok ==> |blocks| == first + total && total < count
        decreases count - k
      {
        blockBaseDiff := blockBaseDiff - 32;
        currentTailIndex := currentTailIndex + 32;
        ok, firstAllocated := EnterNext(currentTailIndex, canAlloc, junk, newBlocks, k, firstAllocated, first, count);
        k := k + 1;
      }
    }

    /** Takes one block out of the index again, by looking it up. */
    method Unenter(currentTailIndex: nat, ghost first: nat, ghost j: nat)
      requires Rolling(State(), first, j) == true && first + j < |blocks| && !Freed(done, first + j)
      requires currentTailIndex == 32 * (first + j)
      modifies `values, `tail
      ensures Rolling(State(), first, j + 1) == true
    {
      hide Rolling, Freed;
      ghost var r := State();
      RollingLookup(r, first, j);
      RollingNext(r, first, j);
      var slot := LookupSlot(keys, index, tail, currentTailIndex);
      assert keys[index[slot]] == currentTailIndex && values[index[slot]] != None;
      var entry := index[slot];
      values := values[entry := None];
      tail := Wrap(tail - 1, |index|);
      assert State() == Emptied(r, first + j);
    }

    /** The blocks along the chain, which go back to the pool. */
    method GiveBack(firstAllocated: Option<BlockId>, ghost first: nat) returns (givenBack: seq<BlockId>)
      requires first <= |blocks| && firstAllocated == (if first < |blocks| then Some(blocks[first]) else None)
      requires forall b :: first <= b < |blocks| ==> Linked(blocks, next, b)
      ensures givenBack == blocks[first..]
    {
      givenBack := [];
      var block := firstAllocated;
      ghost var j := first;
      while block != None
        invariant first <= j <= |blocks| && givenBack == blocks[first..j]
        invariant block == if j < |blocks| then Some(blocks[j]) else None
        decreases |blocks| - j
      {
        assert Linked(blocks, next, j);
        givenBack := givenBack + [block.value];
        block := next[block.value];
        j := j + 1;
      }
    }

    /** Takes the new blocks out of the index again, from the first one along the chain, and gives them back. */
    method Rollback(startTailIndex: nat, firstAllocated: Option<BlockId>, ghost first: nat) returns (givenBack: seq<BlockId>)
      requires Entering(State(), next, tailBlock, firstAllocated, first, headIndex, released) == true
      requires startTailIndex == |log| && BlockBase(startTailIndex - 1) == 32 * first - 32
      modifies `values, `tail, `blocks
      ensures Stocked(State(), headIndex, released) == true && blocks == old(blocks[..first])
      ensures givenBack == old(blocks[first..])
    {
      hide Entering, Rolling, Stocked, BlocksInv, ReleasedOk, IndexInv;
      ghost var r := State();
      RollbackStart(r, next, tailBlock, firstAllocated, first, headIndex, released);
      var currentTailIndex := BlockBase(startTailIndex - 1);
      var block := firstAllocated;
      ghost var j := 0;
      while block != None
        invariant Rolling(State(), first, j) == true
        invariant State() == r.(values := values, tail := tail)
        invariant first + j <= |blocks| && currentTailIndex == 32 * (first + j) - 32
        invariant block == if first + j < |blocks| then Some(blocks[first + j]) else None
        decreases |blocks| - j
      {
        currentTailIndex := currentTailIndex + 32;
        Unenter(currentTailIndex, first, j);
        assert Linked(blocks, next, first + j);
        block := next[block.value];
        j := j + 1;
      }
      RollbackDone(r, State(), first, headIndex, released);
      givenBack := GiveBack(firstAllocated, first);
      blocks := blocks[..first];
    }

    /** Undoes what a bulk enqueue has entered so far. */
    method Revert(startBlock: Option<BlockId>, firstAllocated: Option<BlockId>, ghost first: nat) returns (givenBack: seq<BlockId>)
      requires Entering(State(), next, tailBlock, firstAllocated, first, headIndex, released) == true
      requires tailIndex == |log| && BlockBase(tailIndex - 1) == 32 * first - 32 && 32 * first < tailIndex + 32
      requires 0 < first <= |blocks| ==> startBlock == Some(blocks[first - 1])
      modifies `values, `tail, `blocks, `tailBlock
      ensures Good(State(), tailIndex, headIndex, tailBlock, released) == true
      ensures first <= old(|blocks|) && blocks == old(blocks[..first]) && givenBack == old(blocks[first..])
    {
      hide Good, Stocked, Entering, BlockBase;
      EnteringFirst(State(), next, tailBlock, firstAllocated, first, headIndex, released);
      givenBack := Rollback(tailIndex, firstAllocated, first);
      tailBlock := startBlock;
      StockedGood(State(), tailIndex, headIndex, tailBlock, released);
    }

    /** Constructs elements in the tail block, up to the index where to stop. */
    method FillBlock(items: seq<Value>, from: nat, startTailIndex: nat, stopIndex: nat, ghost k: nat)
      requires Stocked(State(), headIndex, released) == true && |log| < 32 * |blocks|
      requires startTailIndex + from == |log| <= stopIndex <= startTailIndex + |items|
      requires 32 * k <= |log| && stopIndex <= 32 * k + 32
      requires k < |blocks| && tailBlock == Some(blocks[k])
      modifies `elements, `log
      ensures Stocked(State(), headIndex, released) == true
      ensures log == old(log) + items[from..stopIndex - startTailIndex]
    {
      hide Stocked;
      var i := from;
      while startTailIndex + i != stopIndex
        invariant from <= i <= stopIndex - startTailIndex
        invariant Stocked(State(), headIndex, released) == true
        invariant log == old(log) + items[from..i]
      {
        assert |log| / 32 == k;
        Construct(startTailIndex + i, items[i]);
        assert items[from..i + 1] == items[from..i] + [items[i]];
        i := i + 1;
      }
    }

    /** Constructs the elements, block by block along the chain, up to the last block. */
    method FillBlocks(items: seq<Value>, startTailIndex: nat, endBlock: Option<BlockId>)
      requires Stocked(State(), headIndex, released) == true && items != []
      requires startTailIndex == |log| && startTailIndex + |items| <= 32 * |blocks| < startTailIndex + |items| + 32
      requires ReadyToFill(blocks, next, startTailIndex / 32)
      requires tailBlock == Some(blocks[startTailIndex / 32]) && endBlock == Some(blocks[|blocks| - 1])
      modifies `tailBlock, `elements, `log
      ensures Stocked(State(), headIndex, released) == true
      ensures log == old(log) + items && tailBlock == endBlock
    {
      hide Stocked, ReadyToFill, BlockBase, Linked, Follows;
      var i := 0;
      ghost var k := startTailIndex / 32;
      var newTailIndex := startTailIndex + |items|;
      while true
        invariant startTailIndex / 32 <= k < |blocks| && 0 <= i < |items|
        invariant Stocked(State(), headIndex, released) == true
        invariant log == old(log) + items[..i] && tailBlock == Some(blocks[k])
        invariant 32 * k <= startTailIndex + i < 32 * k + 32
        decreases |blocks| - k
      {
        BlockBaseIs(startTailIndex + i, k);
        FollowsAt(blocks, next, startTailIndex / 32, k);
        var stopIndex := BlockBase(startTailIndex + i) + 32;
        if newTailIndex < stopIndex {
          stopIndex := newTailIndex;
        }
        FillBlock(items, i, startTailIndex, stopIndex, k);
        PrefixAppend(old(log), items, i, stopIndex - startTailIndex);
        i := stopIndex - startTailIndex;
        if tailBlock == endBlock {
          break;
        }
        tailBlock := next[tailBlock.value];
        k := k + 1;
      }
      assert items[..|items|] == items;
    }

    /** All blocks are there: constructs the elements, from the start block on or, when that is full, from
        the first new block on, and moves the tail past them. */
    method FillEntered(items: seq<Value>, startBlock: Option<BlockId>, firstAllocated: Option<BlockId>, ghost first: nat)
      requires Entering(State(), next, tailBlock, firstAllocated, first, headIndex, released) == true && items != []
      requires tailIndex == |log| && tailIndex + |items| <= 32 * |blocks| < tailIndex + |items| + 32
      requires 0 < first <= |blocks| ==> startBlock == Some(blocks[first - 1])
      modifies `tailBlock, `elements, `log, `tailIndex
      ensures Good(State(), tailIndex, headIndex, tailBlock, released) == true && log == old(log) + items
    {
      hide Stocked, Entering, ReadyToFill, Good;
      EnteredReady(State(), next, tailBlock, firstAllocated, first, headIndex, released);
      var endBlock := tailBlock;
      tailBlock := startBlock;
      if tailIndex % 32 == 0 && firstAllocated != None {
        tailBlock := firstAllocated;
      }
      FillBlocks(items, tailIndex, endBlock);
      tailIndex := tailIndex + |items|;
      StockedGood(State(), tailIndex, headIndex, tailBlock, released);
    }

    /** A bulk enqueue of at least one item. */
    method EnqueueItems(items: seq<Value>, canAlloc: seq<bool>, junk: nat -> Option<BlockId>, newBlocks: seq<Option<BlockId>>,
                        ghost count: nat)
      returns (ok: bool, givenBack: seq<BlockId>)
      requires Valid() && items != [] && Spare(State(), newBlocks, 0)
      requires count == BlockStarts(tailIndex, |items|) && count <= |canAlloc| && count <= |newBlocks|
      modifies this
      ensures Valid() && headIndex == old(headIndex) && done == old(done) && released == old(released)
      ensures ok <==> Startable(old(WindowOf(State())), done, canAlloc, newBlocks, 0, count) == count
      ensures log == if ok then old(log) + items else old(log)
      ensures !ok ==> blocks == old(blocks) && HandedOut(givenBack, newBlocks)
      ensures ok ==> givenBack == []
      ensures !ok ==> |givenBack| == Startable(old(WindowOf(State())), done, canAlloc, newBlocks, 0, count)
    {
      hide Stocked, Entering, Spare, BlockStarts, BlockBase, Good, Startable, HandedOut, WindowOf;
      ghost var first := |blocks|;
      BulkStart(State(), next, tailIndex, headIndex, tailBlock, released, |items|);
      var startBlock, firstAllocated := tailBlock, None;
      var blockBaseDiff := BlockBase(tailIndex + |items| - 1) - BlockBase(tailIndex - 1);
      ok, givenBack := true, [];
      if blockBaseDiff > 0 {
        ok, firstAllocated := EnterBlocks(blockBaseDiff, count, canAlloc, junk, newBlocks);
      } else {
        StartableMeans(WindowOf(State()), done, canAlloc, newBlocks, 0, count);
      }
      if ok {
        FillEntered(items, startBlock, firstAllocated, first);
      } else {
        givenBack := Revert(startBlock, firstAllocated, first);
      }
    }

    /** Appends all the items, or none.  canAlloc and newBlocks tell what the allocations for the k-th block
        come to.  It succeeds exactly when all the blocks that the items need can be started; otherwise the
        blocks that were go back to the pool. */
    method EnqueueBulk(items: seq<Value>, canAlloc: seq<bool>, junk: nat -> Option<BlockId>, newBlocks: seq<Option<BlockId>>)
      returns (ok: bool, givenBack: seq<BlockId>)
      requires Valid() && Spare(State(), newBlocks, 0)
      requires BlockStarts(tailIndex, |items|) <= |canAlloc| && BlockStarts(tailIndex, |items|) <= |newBlocks|
      modifies this
      ensures Valid() && headIndex == old(headIndex) && done == old(done) && released == old(released)
      ensures ok <==> Startable(old(WindowOf(State())), done, canAlloc, newBlocks, 0, BlockStarts(old(tailIndex), |items|))
                      == BlockStarts(old(tailIndex), |items|)
      ensures log == if ok then old(log) + items else old(log)
      ensures !ok ==> blocks == old(blocks) && HandedOut(givenBack, newBlocks)
      ensures |givenBack| == if ok then 0
        else Startable(old(WindowOf(State())), done, canAlloc, newBlocks, 0, BlockStarts(old(tailIndex), |items|))
      ensures ok ==> forall k :: 0 <= k < BlockStarts(old(tailIndex), |items|) ==> newBlocks[k].Some?
      ensures !ok ==> exists k :: 0 <= k < BlockStarts(old(tailIndex), |items|) && !(canAlloc[k] && newBlocks[k].Some?)
    {
      hide Good, Spare, HandedOut;
      ghost var count := BlockStarts(tailIndex, |items|);
      StartableAll(WindowOf(State()), done, canAlloc, newBlocks, count);
      if items == [] {
        return true, [];  // all loops are empty
      }
      ok, givenBack := EnqueueItems(items, canAlloc, junk, newBlocks, count);
    }

    /** The same items one after the other, with the same allocations, up to the first failure.  It succeeds
        exactly when a bulk enqueue does, and then comes to the same. */
    method EnqueueEach(items: seq<Value>, canAlloc: seq<bool>, junk: nat -> Option<BlockId>, newBlocks: seq<Option<BlockId>>)
      returns (ok: bool, n: nat)
      requires Valid() && Spare(State(), newBlocks, 0)
      requires BlockStarts(tailIndex, |items|) <= |canAlloc| && BlockStarts(tailIndex, |items|) <= |newBlocks|
      modifies this
      ensures Valid() && headIndex == old(headIndex) && done == old(done) && released == old(released)
      ensures ok <==> Startable(old(WindowOf(State())), done, canAlloc, newBlocks, 0, BlockStarts(old(tailIndex), |items|))
                      == BlockStarts(old(tailIndex), |items|)
      ensures n <= |items| && log == old(log) + items[..n] && (ok <==> n == |items|)
    {
      hide Good, Spare, HasRoom, Started, WindowOf, Startable, BlockStarts;
      NoBlockStarts(tailIndex);
      ghost var from, count := tailIndex, BlockStarts(tailIndex, |items|);
      ghost var total := Startable(WindowOf(State()), done, canAlloc, newBlocks, 0, count);
      ok, n := true, 0;
      var j := 0;
      while n < |items|
        invariant Valid() && headIndex == old(headIndex) && done == old(done) && released == old(released)
        invariant ok && n <= |items| && log == old(log) + items[..n]
        invariant tailIndex == from + n && j == BlockStarts(from, n) <= count && Spare(State(), newBlocks, j)
        invariant total == j + Startable(WindowOf(State()), done, canAlloc, newBlocks, j, count - j)
      {
        BlockStartsMono(from, n + 1, |items|);
        BlockStartsNext(from, n);
        ghost var r := State();
        if tailIndex % 32 == 0 {
          StartableNext(WindowOf(r), done, canAlloc, newBlocks, j, count - j);
          SpareThis(r, newBlocks, j);
          ok := Enqueue(items[n], canAlloc[j], junk, newBlocks[j]);
          if !ok {
            return;
          }
          SpareNext(r, State(), newBlocks, j);
          j := j + 1;
        } else {
          ok := Enqueue(items[n], false, junk, None);
          SpareSame(r, State(), newBlocks, j);
        }
        assert items[..n] + [items[n]] == items[..n + 1];
        n := n + 1;
      }
    }
  }
}
