/**
 The producer that owns a ring of blocks and a circular index over them
 (Common/concurrentqueue.h, struct ExplicitProducer), at the granularity of its operations.

 An element goes through three operations: `Enqueue` writes it, `Claim` takes its index from
 headIndex, and `Read` finds its block through the block index, moves it out and marks it as
 dequeued.  Reads may come in any order, so blocks empty in any order; a block is used again only
 when all its elements were read.

 A block has 32 elements, the default that the repository uses, and so keeps its emptiness in flags.
 Blocks are named by numbers.  Allocation succeeds and constructors do not throw; the blocks that the
 parent queue would hand out are passed in.
 */
module ExplicitProducer {
  import opened Blocks
  import opened Modular
  import opened Options

  /** An entry of the block index. */
  datatype Entry = Entry(base: int, block: BlockId)

  /** The flags of a block after reset_empty, and after set_all_empty. */
  function Unset(): (fs: seq<bool>)
    ensures |fs| == 32 && forall j :: 0 <= j < 32 ==> !fs[j]
  {
    seq(32, _ => false)
  }

  function Set(): (fs: seq<bool>)
    ensures |fs| == 32 && forall j :: 0 <= j < 32 ==> fs[j]
  {
    seq(32, _ => true)
  }

  // ---------------------------------------------------------------- the ring and the index as values

  /** The blocks are linked in this order, the last one to `to`, and are all different. */
  ghost predicate Linked(ring: seq<BlockId>, next: map<BlockId, BlockId>, to: BlockId)
    decreases |ring|
  {
    ring == [] || (
      && ring[0] in next && next[ring[0]] == (if |ring| > 1 then ring[1] else to)
      && ring[0] !in ring[1..]
      && Linked(ring[1..], next, to))
  }

  ghost predicate RingOk(ring: seq<BlockId>, next: map<BlockId, BlockId>) {
    ring != [] ==> Linked(ring, next, ring[0])
  }

  /** From slot `start` on, going round, the index maps the blocks to bases 32 apart. */
  ghost predicate IndexOk(entries: seq<Entry>, start: int, ring: seq<BlockId>, base: int)
    requires |entries| > 0
    decreases |ring|
  {
    ring == [] || (
      && entries[Wrap(start, |entries|)] == Entry(base, ring[0])
      && IndexOk(entries, start + 1, ring[1..], base + 32))
  }

  lemma {:induction false} LinkedAppend(ring: seq<BlockId>, next: map<BlockId, BlockId>, b: BlockId, to: BlockId)
    requires Linked(ring, next, b) && b !in ring && b in next && next[b] == to
    ensures Linked(ring + [b], next, to)
    decreases |ring|
  {
    if ring != [] {
      LinkedAppend(ring[1..], next, b, to);
      assert (ring + [b])[1..] == ring[1..] + [b];
    }
  }

  /** Links of other blocks, and of the last one, may change. */
  lemma {:induction false} LinkedFrame(ring: seq<BlockId>, next: map<BlockId, BlockId>, next': map<BlockId, BlockId>, to: BlockId, to': BlockId)
    requires Linked(ring, next, to)
    requires forall k :: 0 <= k < |ring| ==> ring[k] in next && ring[k] in next'
    requires forall k :: 0 <= k < |ring| - 1 ==> next'[ring[k]] == next[ring[k]]
    requires ring != [] ==> next'[ring[|ring| - 1]] == to'
    ensures Linked(ring, next', to')
    decreases |ring|
  {
    if ring != [] {
      LinkedFrame(ring[1..], next, next', to, to');
    }
  }

  lemma {:induction false} LinkedLast(ring: seq<BlockId>, next: map<BlockId, BlockId>, to: BlockId)
    requires Linked(ring, next, to) && ring != []
    ensures ring[|ring| - 1] in next && next[ring[|ring| - 1]] == to
    ensures forall k :: 0 <= k < |ring| ==> ring[k] in next
    ensures forall k :: 0 <= k < |ring| - 1 ==> ring[k] != ring[|ring| - 1]
    decreases |ring|
  {
    if |ring| > 1 {
      LinkedLast(ring[1..], next, to);
      assert ring[|ring| - 1] == ring[1..][|ring| - 2];
    }
  }

  /** The oldest block becomes the newest one: the circle is the same. */
  lemma RingRotate(ring: seq<BlockId>, next: map<BlockId, BlockId>)
    requires RingOk(ring, next) && ring != []
    ensures ring[|ring| - 1] in next && next[ring[|ring| - 1]] == ring[0]
    ensures RingOk(ring[1..] + [ring[0]], next)
  {
    LinkedLast(ring, next, ring[0]);
    LinkedAppend(ring[1..], next, ring[0], (ring[1..] + [ring[0]])[0]);
  }

  /** The links after a new block was put between the last one and the first. */
  function Linking(ring: seq<BlockId>, next: map<BlockId, BlockId>, b: BlockId): map<BlockId, BlockId> {
    if ring == [] then next[b := b] else next[b := ring[0]][ring[|ring| - 1] := b]
  }

  lemma RingInsert(ring: seq<BlockId>, next: map<BlockId, BlockId>, b: BlockId)
    requires RingOk(ring, next) && b !in ring
    ensures RingOk(ring + [b], Linking(ring, next, b))
  {
    var next' := Linking(ring, next, b);
    if ring != [] {
      LinkedLast(ring, next, ring[0]);
      LinkedFrame(ring, next, next', ring[0], b);
      LinkedAppend(ring, next', b, ring[0]);
    } else {
      LinkedAppend([], next', b, b);
    }
  }

  /** Writing the slot after the last one enters a new block. */
  lemma {:induction false} IndexAppend(entries: seq<Entry>, start: int, ring: seq<BlockId>, base: int, b: BlockId)
    requires |ring| < |entries| && IndexOk(entries, start, ring, base)
    ensures IndexOk(entries[Wrap(start + |ring|, |entries|) := Entry(base + 32 * |ring|, b)], start, ring + [b], base)
    decreases |ring|
  {
    if ring != [] {
      WrapUnique(start + |ring|, start, |entries|);
      IndexAppend(entries, start + 1, ring[1..], base + 32, b);
      assert (ring + [b])[1..] == ring[1..] + [b];
      assert start + 1 + |ring[1..]| == start + |ring|;
    }
  }

  /** Writing it over an index that forgets the oldest block. */
  lemma IndexRotate(entries: seq<Entry>, start: int, ring: seq<BlockId>, base: int)
    requires 0 < |ring| <= |entries| && IndexOk(entries, start, ring, base)
    ensures IndexOk(entries[Wrap(start + |ring|, |entries|) := Entry(base + 32 * |ring|, ring[0])],
                    start + 1, ring[1..] + [ring[0]], base + 32)
  {
    IndexAppend(entries, start + 1, ring[1..], base + 32, ring[0]);
    assert start + 1 + |ring[1..]| == start + |ring|;
  }

  /** The slot of the k-th block. */
  lemma {:induction false} IndexAt(entries: seq<Entry>, start: int, ring: seq<BlockId>, base: int, k: nat)
    requires |entries| > 0 && IndexOk(entries, start, ring, base) && k < |ring|
    ensures entries[Wrap(start + k, |entries|)] == Entry(base + 32 * k, ring[k])
    decreases |ring|
  {
    if k > 0 {
      IndexAt(entries, start + 1, ring[1..], base + 32, k - 1);
    }
  }

  /** An index filled from slot `from` on without going round. */
  lemma {:induction false} IndexFresh(entries: seq<Entry>, from: nat, ring: seq<BlockId>, base: int)
    requires from + |ring| < |entries|
    requires forall k :: 0 <= k < |ring| ==> entries[from + k] == Entry(base + 32 * k, ring[k])
    ensures IndexOk(entries, from, ring, base)
    decreases |ring|
  {
    if ring != [] {
      assert entries[from + 0] == Entry(base, ring[0]);
      forall k | 0 <= k < |ring[1..]|
        ensures entries[from + 1 + k] == Entry(base + 32 + 32 * k, ring[1..][k])
      {
        assert entries[from + (k + 1)] == Entry(base + 32 * (k + 1), ring[k + 1]);
      }
      IndexFresh(entries, from + 1, ring[1..], base + 32);
    }
  }

  /** What the copy loop of new_block_index leaves. */
  lemma IndexCopied(entries: seq<Entry>, ring: seq<BlockId>, base: int)
    requires |ring| < |entries|
    requires forall k :: 0 <= k < |ring| ==> entries[k] == Entry(base + 32 * k, ring[k])
    ensures IndexOk(entries, 0, ring, base) && Wrap(0 + |ring|, |entries|) == |ring|
  {
    IndexFresh(entries, 0, ring, base);
  }

  // ---------------------------------------------------------------- elements and flags as values

  /** Each block has its elements and its flags. */
  ghost predicate StorageOk(ring: seq<BlockId>, elements: map<BlockId, seq<Value>>, flags: map<BlockId, seq<bool>>) {
    forall b :: b in ring ==> b in elements && |elements[b]| == 32 && b in flags && |flags[b]| == 32
  }

  /** The flags of the block with this base say which of its elements were dequeued; emptyFlags are
      kept in reverse. */
  ghost predicate FlagsOk(flags: seq<bool>, base: int, done: set<nat>) {
    && |flags| == 32
    && forall j :: 0 <= j < 32 ==> (flags[j] <==> exists i :: i in done && i == base + 31 - j)
  }

  ghost predicate RingFlags(ring: seq<BlockId>, base: int, flags: map<BlockId, seq<bool>>, done: set<nat>)
    decreases |ring|
  {
    ring == [] || (
      && ring[0] in flags && FlagsOk(flags[ring[0]], base, done)
      && RingFlags(ring[1..], base + 32, flags, done))
  }

  /** Element i, with value x, is in the block it was written into, and that block is in the ring. */
  ghost predicate Live(i: nat, x: Value, home: BlockId, ring: seq<BlockId>, base: int, elements: map<BlockId, seq<Value>>) {
    && base <= i < base + 32 * |ring|
    && home == ring[(i - base) / 32]
    && home in elements && |elements[home]| == 32 && elements[home][i % 32] == x
  }

  ghost predicate AllLive(log: seq<Value>, home: seq<BlockId>, done: set<nat>, ring: seq<BlockId>, base: int,
                          elements: map<BlockId, seq<Value>>) {
    && |home| == |log|
    && forall i :: 0 <= i < |log| && i !in done ==> Live(i, log[i], home[i], ring, base, elements)
  }

  predicate AllSet(flags: seq<bool>) {
    forall j :: 0 <= j < |flags| ==> flags[j]
  }

  /** Nobody misses the elements of a block whose flags are all set. */
  lemma LiveRotate(log: seq<Value>, home: seq<BlockId>, done: set<nat>, ring: seq<BlockId>, base: int,
                   elements: map<BlockId, seq<Value>>, flags: seq<bool>)
    requires ring != [] && base % 32 == 0
    requires AllLive(log, home, done, ring, base, elements) && FlagsOk(flags, base, done) && AllSet(flags)
    ensures AllLive(log, home, done, ring[1..] + [ring[0]], base + 32, elements)
  {
    var ring' := ring[1..] + [ring[0]];
    forall i | 0 <= i < |log| && i !in done
      ensures Live(i, log[i], home[i], ring', base + 32, elements)
    {
      assert Live(i, log[i], home[i], ring, base, elements);
      assert flags[31 - i % 32];
    }
  }

  /** A longer ring does no harm. */
  lemma LiveInsert(log: seq<Value>, home: seq<BlockId>, done: set<nat>, ring: seq<BlockId>, base: int,
                   elements: map<BlockId, seq<Value>>, b: BlockId, xs: seq<Value>)
    requires AllLive(log, home, done, ring, base, elements) && b !in ring
    ensures AllLive(log, home, done, ring + [b], base, elements[b := xs])
  {
    forall i | 0 <= i < |log| && i !in done
      ensures Live(i, log[i], home[i], ring + [b], base, elements[b := xs])
    {
      assert Live(i, log[i], home[i], ring, base, elements);
    }
  }

  /** Writing element number |log| into the block where it belongs, block k of the ring. */
  lemma LiveWrite(log: seq<Value>, home: seq<BlockId>, done: set<nat>, ring: seq<BlockId>, base: int,
                  elements: map<BlockId, seq<Value>>, k: nat, x: Value)
    requires AllLive(log, home, done, ring, base, elements) && base % 32 == 0
    requires k < |ring| && base + 32 * k <= |log| < base + 32 * k + 32
    requires ring[k] in elements && |elements[ring[k]]| == 32
    requires forall j :: 0 <= j < k ==> ring[j] != ring[k]
    ensures AllLive(log + [x], home + [ring[k]], done, ring, base,
                    elements[ring[k] := elements[ring[k]][|log| % 32 := x]])
  {
    hide Live;
    var b := ring[k];
    var elements' := elements[b := elements[b][|log| % 32 := x]];
    forall i | 0 <= i < |log + [x]| && i !in done
      ensures Live(i, (log + [x])[i], (home + [b])[i], ring, base, elements')
    {
      if i < |log| {
        assert Live(i, log[i], home[i], ring, base, elements);
        LiveOther(i, log[i], home[i], ring, base, elements, k, |log|, x);
      } else {
        LiveNew(ring, base, elements, k, |log|, x);
      }
    }
  }

  lemma LiveOther(i: nat, y: Value, h: BlockId, ring: seq<BlockId>, base: int, elements: map<BlockId, seq<Value>>,
                  k: nat, m: nat, x: Value)
    requires Live(i, y, h, ring, base, elements) && i < m && base % 32 == 0
    requires k < |ring| && base + 32 * k <= m < base + 32 * k + 32
    requires ring[k] in elements && |elements[ring[k]]| == 32
    requires forall j :: 0 <= j < k ==> ring[j] != ring[k]
    ensures Live(i, y, h, ring, base, elements[ring[k] := elements[ring[k]][m % 32 := x]])
  {
    var j := (i - base) / 32;
    assert j <= k;
    assert j == k ==> i % 32 != m % 32;
  }

  lemma LiveNew(ring: seq<BlockId>, base: int, elements: map<BlockId, seq<Value>>, k: nat, m: nat, x: Value)
    requires k < |ring| && base + 32 * k <= m < base + 32 * k + 32
    requires ring[k] in elements && |elements[ring[k]]| == 32
    ensures Live(m, x, ring[k], ring, base, elements[ring[k] := elements[ring[k]][m % 32 := x]])
  {
    assert (m - base) / 32 == k;
  }

  lemma {:induction false} RingFlagsFrame(ring: seq<BlockId>, base: int, flags: map<BlockId, seq<bool>>, flags': map<BlockId, seq<bool>>, done: set<nat>)
    requires RingFlags(ring, base, flags, done)
    requires forall b :: b in ring && b in flags ==> b in flags' && flags'[b] == flags[b]
    ensures RingFlags(ring, base, flags', done)
    decreases |ring|
  {
    if ring != [] {
      RingFlagsFrame(ring[1..], base + 32, flags, flags', done);
    }
  }

  lemma {:induction false} RingFlagsAppend(ring: seq<BlockId>, base: int, flags: map<BlockId, seq<bool>>, done: set<nat>, b: BlockId)
    requires RingFlags(ring, base, flags, done) && b in flags && FlagsOk(flags[b], base + 32 * |ring|, done)
    ensures RingFlags(ring + [b], base, flags, done)
    decreases |ring|
  {
    if ring != [] {
      RingFlagsAppend(ring[1..], base + 32, flags, done, b);
      assert (ring + [b])[1..] == ring[1..] + [b];
    }
  }

  lemma {:induction false} RingFlagsPrefix(ring: seq<BlockId>, base: int, flags: map<BlockId, seq<bool>>, done: set<nat>, k: nat)
    requires RingFlags(ring, base, flags, done) && k <= |ring|
    ensures RingFlags(ring[..k], base, flags, done)
    decreases k
  {
    if k > 0 {
      RingFlagsPrefix(ring[1..], base + 32, flags, done, k - 1);
      assert ring[..k][1..] == ring[1..][..k - 1];
    }
  }

  /** Reading element i sets one flag of one block. */
  lemma {:induction false} RingFlagsRead(ring: seq<BlockId>, base: int, flags: map<BlockId, seq<bool>>, done: set<nat>, i: nat, k: nat)
    requires RingFlags(ring, base, flags, done) && i !in done
    requires k < |ring| && base + 32 * k <= i < base + 32 * k + 32
    requires forall j :: 0 <= j < |ring| && j != k ==> ring[j] != ring[k]
    requires ring[k] in flags && |flags[ring[k]]| == 32
    ensures RingFlags(ring, base, flags[ring[k] := flags[ring[k]][31 - (i - base - 32 * k) := true]], done + {i})
    decreases |ring|
  {
    var flags' := flags[ring[k] := flags[ring[k]][31 - (i - base - 32 * k) := true]];
    if k == 0 {
      RingFlagsOther(ring[1..], base + 32, flags, flags', done, i);
    } else {
      forall j | 0 <= j < |ring[1..]| && j != k - 1
        ensures ring[1..][j] != ring[1..][k - 1]
      {
        assert ring[j + 1] != ring[k];
      }
      RingFlagsRead(ring[1..], base + 32, flags, done, i, k - 1);
    }
  }

  /** Reading an element of another block. */
  lemma {:induction false} RingFlagsOther(ring: seq<BlockId>, base: int, flags: map<BlockId, seq<bool>>, flags': map<BlockId, seq<bool>>, done: set<nat>, i: nat)
    requires RingFlags(ring, base, flags, done) && i < base
    requires forall b :: b in ring && b in flags ==> b in flags' && flags'[b] == flags[b]
    ensures RingFlags(ring, base, flags', done + {i})
    decreases |ring|
  {
    if ring != [] {
      RingFlagsOther(ring[1..], base + 32, flags, flags', done, i);
    }
  }

  /** The flags of a block that nobody has read from yet. */
  lemma FreshFlags(base: int, done: set<nat>)
    requires forall i :: i in done ==> i < base
    ensures FlagsOk(Unset(), base, done)
  {
  }

  // ---------------------------------------------------------------- the whole state as a value

  /** The fields of a producer, with the auxiliary ones last. */
  datatype Rep = Rep(
    tailBlock: Option<BlockId>,
    next: map<BlockId, BlockId>,
    elements: map<BlockId, seq<Value>>,
    flags: map<BlockId, seq<bool>>,
    entries: seq<Entry>,
    slotsUsed: nat,
    front: nat,
    log: seq<Value>,
    home: seq<BlockId>,
    done: set<nat>,
    ring: seq<BlockId>,
    base: int,
    start: int)

  ghost predicate IndexGood(r: Rep) {
    && RingOk(r.ring, r.next)
    && r.slotsUsed == |r.ring| <= |r.entries| && |r.entries| > 0
    && IndexOk(r.entries, r.start, r.ring, r.base)
    && r.front == Wrap(r.start + |r.ring|, |r.entries|)
    && r.tailBlock == (if r.ring == [] then None else Some(r.ring[|r.ring| - 1]))
  }

  /** The flags are right for the first `settled` blocks. */
  ghost predicate ElementsGood(r: Rep, settled: nat) {
    && StorageOk(r.ring, r.elements, r.flags)
    && settled <= |r.ring| && RingFlags(r.ring[..settled], r.base, r.flags, r.done)
    && r.base % 32 == 0
    && AllLive(r.log, r.home, r.done, r.ring, r.base, r.elements)
  }

  /** The block after the tail block becomes the tail block and enters the index. */
  function Advanced(r: Rep): Rep
    requires r.ring != [] && r.front < |r.entries|
  {
    var b := r.ring[0];
    r.(tailBlock := Some(b), entries := r.entries[r.front := Entry(r.base + 32 * |r.ring|, b)],
       front := Wrap(r.front + 1, |r.entries|), ring := r.ring[1..] + [b], base := r.base + 32, start := r.start + 1)
  }

  lemma AdvancedIndex(r: Rep)
    requires IndexGood(r) && r.ring != []
    ensures IndexGood(Advanced(r))
  {
    hide Linked, IndexOk;
    RingRotate(r.ring, r.next);
    IndexRotate(r.entries, r.start, r.ring, r.base);
    WrapShift(r.start + |r.ring|, 1, |r.entries|);
  }

  /** The block after the tail block is the oldest one. */
  lemma NextIsOldest(r: Rep)
    requires IndexGood(r) && r.ring != []
    ensures r.tailBlock.Some? && r.tailBlock.value in r.next && r.next[r.tailBlock.value] == r.ring[0]
  {
    RingRotate(r.ring, r.next);
  }

  lemma AdvancedElements(r: Rep, settled: nat)
    requires ElementsGood(r, settled) && r.ring != [] && r.front < |r.entries| && 0 < settled
    requires AllSet(r.flags[r.ring[0]])
    ensures ElementsGood(Advanced(r), settled - 1)
  {
    LiveRotate(r.log, r.home, r.done, r.ring, r.base, r.elements, r.flags[r.ring[0]]);
    assert r.ring[..settled][1..] == (r.ring[1..] + [r.ring[0]])[..settled - 1];
  }

  /** Looking at the flags of the block ahead is safe. */
  lemma TailBlockNext(r: Rep, settled: nat)
    requires IndexGood(r) && ElementsGood(r, settled)
    ensures r.tailBlock.Some? <==> r.ring != []
    ensures r.tailBlock.Some? ==> r.tailBlock.value in r.next && r.next[r.tailBlock.value] == r.ring[0]
    ensures r.ring != [] ==> r.ring[0] in r.flags && |r.flags[r.ring[0]]| == 32
  {
    if r.ring != [] {
      NextIsOldest(r);
    }
  }

  /** A new block becomes the tail block and enters the index. */
  function Inserted(r: Rep, b: BlockId, fs: seq<bool>): Rep
    requires r.front < |r.entries|
  {
    r.(tailBlock := Some(b), next := Linking(r.ring, r.next, b), elements := r.elements[b := Blank()],
       flags := r.flags[b := fs], entries := r.entries[r.front := Entry(r.base + 32 * |r.ring|, b)],
       slotsUsed := r.slotsUsed + 1, front := Wrap(r.front + 1, |r.entries|), ring := r.ring + [b])
  }

  lemma InsertedIndex(r: Rep, b: BlockId, fs: seq<bool>)
    requires IndexGood(r) && b !in r.ring && r.slotsUsed < |r.entries|
    ensures IndexGood(Inserted(r, b, fs))
  {
    hide Linked, IndexOk;
    RingInsert(r.ring, r.next, b);
    IndexAppend(r.entries, r.start, r.ring, r.base, b);
    WrapShift(r.start + |r.ring|, 1, |r.entries|);
  }

  lemma InsertedElements(r: Rep, b: BlockId, fs: seq<bool>, settled: nat)
    requires ElementsGood(r, settled) && b !in r.ring && r.front < |r.entries| && |fs| == 32
    ensures ElementsGood(Inserted(r, b, fs), settled)
  {
    LiveInsert(r.log, r.home, r.done, r.ring, r.base, r.elements, b, Blank());
    assert (r.ring + [b])[..settled] == r.ring[..settled];
    RingFlagsFrame(r.ring[..settled], r.base, r.flags, r.flags[b := fs], r.done);
  }

  /** The flags of block k are cleared, before it is filled. */
  lemma ClearedElements(r: Rep, k: nat)
    requires ElementsGood(r, k) && k < |r.ring|
    requires forall i :: i in r.done ==> i < r.base + 32 * k
    requires forall j :: 0 <= j < k ==> r.ring[j] != r.ring[k]
    ensures ElementsGood(r.(flags := r.flags[r.ring[k] := Unset()]), k + 1)
  {
    var flags' := r.flags[r.ring[k] := Unset()];
    FreshFlags(r.base + 32 * k, r.done);
    RingFlagsFrame(r.ring[..k], r.base, r.flags, flags', r.done);
    RingFlagsAppend(r.ring[..k], r.base, flags', r.done, r.ring[k]);
    assert r.ring[..k + 1] == r.ring[..k] + [r.ring[k]];
  }

  /** One more element is written into block k. */
  function Written(r: Rep, k: nat, x: Value): Rep
    requires k < |r.ring| && r.ring[k] in r.elements && |r.elements[r.ring[k]]| == 32
  {
    var b := r.ring[k];
    r.(elements := r.elements[b := r.elements[b][|r.log| % 32 := x]], log := r.log + [x], home := r.home + [b])
  }

  lemma WrittenElements(r: Rep, k: nat, x: Value)
    requires ElementsGood(r, |r.ring|) && k < |r.ring|
    requires r.base + 32 * k <= |r.log| < r.base + 32 * k + 32
    requires forall j :: 0 <= j < k ==> r.ring[j] != r.ring[k]
    ensures ElementsGood(Written(r, k, x), |r.ring|)
  {
    LiveWrite(r.log, r.home, r.done, r.ring, r.base, r.elements, k, x);
  }

  /** Element i, in block k, is read. */
  function Taken(r: Rep, k: nat, i: nat): Rep
    requires k < |r.ring| && r.ring[k] in r.flags && |r.flags[r.ring[k]]| == 32
  {
    var b := r.ring[k];
    r.(flags := r.flags[b := r.flags[b][31 - i % 32 := true]], done := r.done + {i})
  }

  lemma TakenElements(r: Rep, k: nat, i: nat)
    requires ElementsGood(r, |r.ring|) && k < |r.ring| && i !in r.done
    requires r.base + 32 * k <= i < r.base + 32 * k + 32
    requires forall j :: 0 <= j < |r.ring| && j != k ==> r.ring[j] != r.ring[k]
    ensures ElementsGood(Taken(r, k, i), |r.ring|)
  {
    assert r.ring[..|r.ring|] == r.ring;
    assert i % 32 == i - r.base - 32 * k;
    RingFlagsRead(r.ring, r.base, r.flags, r.done, i, k);
    forall j | 0 <= j < |r.log| && j !in r.done + {i}
      ensures Live(j, r.log[j], r.home[j], r.ring, r.base, r.elements)
    {
    }
  }

  lemma {:induction false} LinkedDistinct(ring: seq<BlockId>, next: map<BlockId, BlockId>, to: BlockId)
    requires Linked(ring, next, to)
    ensures forall j, k :: 0 <= j < k < |ring| ==> ring[j] != ring[k]
    decreases |ring|
  {
    if ring != [] {
      LinkedDistinct(ring[1..], next, to);
      forall j, k | 0 <= j < k < |ring|
        ensures ring[j] != ring[k]
      {
        if j == 0 {
          assert ring[k] == ring[1..][k - 1];
        } else {
          assert ring[1..][j - 1] != ring[1..][k - 1];
        }
      }
    }
  }

  // ---------------------------------------------------------------- looking an element up

  /** The slot where a consumer looks for element i, by arithmetic from the newest block's slot. */
  function LookupSlot(entries: seq<Entry>, published: nat, i: nat): (slot: nat)
    requires published < |entries|
    ensures slot < |entries|
  {
    Wrap(published + (BlockBase(i) - entries[published].base) / 32, |entries|)
  }

  /** From the slot of the newest block, the arithmetic leads to the slot of block k of the ring. */
  lemma SlotArith(start: int, base: int, size: nat, ringSize: nat, i: nat, k: nat)
    requires size > 0 && base % 32 == 0 && k < ringSize && base + 32 * k <= i < base + 32 * k + 32
    ensures (BlockBase(i) - (base + 32 * (ringSize - 1))) % 32 == 0
    ensures Wrap(Wrap(start + ringSize - 1, size) + (BlockBase(i) - (base + 32 * (ringSize - 1))) / 32, size) == Wrap(start + k, size)
  {
    var last := ringSize - 1;
    BlockBaseIs(i, k, base);
    assert (base + 32 * k - (base + 32 * last)) / 32 == k - last;
    WrapShift(start + last, k - last, size);
    assert start + last + (k - last) == start + k && start + ringSize - 1 == start + last;
  }

  /** A number in block k after a block base. */
  lemma BlockBaseIs(i: int, k: int, base: int)
    requires base % 32 == 0 && base + 32 * k <= i < base + 32 * k + 32
    ensures BlockBase(i) == base + 32 * k
  {
  }

  /** The index leads to the block an element was written into, and there it is. */
  lemma LookupFinds(r: Rep, published: nat, i: nat)
    requires IndexGood(r) && ElementsGood(r, |r.ring|) && i < |r.log| && i !in r.done
    requires published == Wrap(r.start + |r.ring| - 1, |r.entries|)
    ensures (BlockBase(i) - r.entries[published].base) % 32 == 0
    ensures r.entries[LookupSlot(r.entries, published, i)].block == r.home[i]
    ensures r.home[i] in r.elements && |r.elements[r.home[i]]| == 32 && r.elements[r.home[i]][i % 32] == r.log[i]
  {
    hide BlockBase, IndexOk, Linked, RingFlags;
    assert Live(i, r.log[i], r.home[i], r.ring, r.base, r.elements);
    var k := (i - r.base) / 32;
    IndexAt(r.entries, r.start, r.ring, r.base, |r.ring| - 1);
    IndexAt(r.entries, r.start, r.ring, r.base, k);
    assert r.start + |r.ring| - 1 == r.start + (|r.ring| - 1);
    SlotArith(r.start, r.base, |r.entries|, |r.ring|, i, k);
  }

  /** The block of an element that is still to be read. */
  lemma HomeOf(r: Rep, i: nat) returns (k: nat)
    requires IndexGood(r) && ElementsGood(r, |r.ring|) && i < |r.log| && i !in r.done
    ensures k < |r.ring| && r.home[i] == r.ring[k] && r.base + 32 * k <= i < r.base + 32 * k + 32
    ensures r.home[i] in r.flags && |r.flags[r.home[i]]| == 32
    ensures forall j :: 0 <= j < |r.ring| && j != k ==> r.ring[j] != r.ring[k]
  {
    assert Live(i, r.log[i], r.home[i], r.ring, r.base, r.elements);
    k := (i - r.base) / 32;
    LinkedDistinct(r.ring, r.next, r.ring[0]);
  }

  /** The invariant of a producer between operations. */
  ghost predicate Good(r: Rep, tailIndex: nat, headIndex: nat, published: int) {
    && IndexGood(r) && ElementsGood(r, |r.ring|)
    && headIndex <= tailIndex == |r.log|
    && (forall i :: i in r.done ==> i < headIndex)
    && r.base + 32 * |r.ring| - 32 < tailIndex <= r.base + 32 * |r.ring|
    && (r.ring == [] ==> r.base == 0)
    && (r.ring != [] ==> published == Wrap(r.start + |r.ring| - 1, |r.entries|))
  }

  lemma TakenGood(r: Rep, tailIndex: nat, headIndex: nat, published: int, k: nat, i: nat)
    requires Good(r, tailIndex, headIndex, published) && i < headIndex && i !in r.done
    requires k < |r.ring| && r.base + 32 * k <= i < r.base + 32 * k + 32
    requires forall j :: 0 <= j < |r.ring| && j != k ==> r.ring[j] != r.ring[k]
    ensures Good(Taken(r, k, i), tailIndex, headIndex, published)
  {
    TakenElements(r, k, i);
  }

  function Cleared(r: Rep, k: nat): Rep
    requires k < |r.ring|
  {
    r.(flags := r.flags[r.ring[k] := Unset()])
  }

  /** The tail block has room for the next element. */
  ghost predicate Room(r: Rep, tailIndex: nat, headIndex: nat, published: int) {
    && IndexGood(r) && ElementsGood(r, |r.ring|)
    && headIndex <= tailIndex == |r.log|
    && (forall i :: i in r.done ==> i < headIndex)
    && r.ring != []
    && r.base + 32 * |r.ring| - 32 <= tailIndex < r.base + 32 * |r.ring|
    && published == Wrap(r.start + |r.ring| - 1, |r.entries|)
  }

  /** The empty block ahead becomes the tail block. */
  lemma ReusedRoom(r: Rep, tailIndex: nat, headIndex: nat, published: int)
    requires Good(r, tailIndex, headIndex, published) && tailIndex % 32 == 0
    requires r.ring != [] && AllSet(r.flags[r.ring[0]])
    ensures Room(Cleared(Advanced(r), |r.ring| - 1), tailIndex, headIndex, r.front)
  {
    AdvancedIndex(r);
    AdvancedElements(r, |r.ring|);
    var r1 := Advanced(r);
    LinkedDistinct(r1.ring, r1.next, r1.ring[0]);
    ClearedElements(r1, |r.ring| - 1);
    assert r1.start + |r1.ring| - 1 == r.start + |r.ring|;
  }

  /** All blocks are full, or there are none. */
  ghost predicate Full(r: Rep, tailIndex: nat, headIndex: nat) {
    && IndexGood(r) && ElementsGood(r, |r.ring|)
    && headIndex <= tailIndex == |r.log| == r.base + 32 * |r.ring|
    && forall i :: i in r.done ==> i < headIndex
  }

  lemma InsertedRoom(r: Rep, tailIndex: nat, headIndex: nat, b: BlockId)
    requires Full(r, tailIndex, headIndex)
    requires b !in r.ring && r.slotsUsed < |r.entries|
    ensures Room(Cleared(Inserted(r, b, Unset()), |r.ring|), tailIndex, headIndex, r.front)
  {
    var r1 := Inserted(r, b, Unset());
    InsertedIndex(r, b, Unset());
    InsertedElements(r, b, Unset(), |r.ring|);
    ClearedElements(r1, |r.ring|);
    assert r1.start + |r1.ring| - 1 == r.start + |r.ring|;
  }

  lemma WrittenGood(r: Rep, tailIndex: nat, headIndex: nat, published: int, x: Value)
    requires Room(r, tailIndex, headIndex, published)
    ensures Good(Written(r, |r.ring| - 1, x), tailIndex + 1, headIndex, published)
  {
    LinkedDistinct(r.ring, r.next, r.ring[0]);
    WrittenElements(r, |r.ring| - 1, x);
  }

  lemma {:induction false} FlagsAt(ring: seq<BlockId>, base: int, flags: map<BlockId, seq<bool>>, done: set<nat>, k: nat)
    requires RingFlags(ring, base, flags, done) && k < |ring|
    ensures ring[k] in flags && FlagsOk(flags[ring[k]], base + 32 * k, done)
    decreases |ring|
  {
    if k > 0 {
      FlagsAt(ring[1..], base + 32, flags, done, k - 1);
    }
  }

  /** The flags of c elements that are still to be read, all in block k, are not set: the assertions of
      set_empty and set_many_empty hold. */
  lemma FlagsUnset(r: Rep, tailIndex: nat, headIndex: nat, published: int, k: nat, i: nat, c: nat)
    requires Good(r, tailIndex, headIndex, published)
    requires k < |r.ring| && r.base + 32 * k <= i && i + c <= r.base + 32 * k + 32 && i % 32 + c <= 32
    requires forall j :: i <= j < i + c ==> j !in r.done
    ensures r.ring[k] in r.flags && |r.flags[r.ring[k]]| == 32
    ensures forall j :: 32 - i % 32 - c <= j < 32 - i % 32 ==> !r.flags[r.ring[k]][j]
  {
    hide IndexOk, Linked, AllLive, StorageOk, FlagsOk;
    assert r.ring[..|r.ring|] == r.ring;
    FlagsAt(r.ring, r.base, r.flags, r.done, k);
    BitsUnset(r.flags[r.ring[k]], r.base + 32 * k, r.done, i, c);
  }

  lemma BitsUnset(flags: seq<bool>, base: int, done: set<nat>, i: nat, c: nat)
    requires FlagsOk(flags, base, done) && base % 32 == 0 && base <= i && i + c <= base + 32 && i % 32 + c <= 32
    requires forall j :: i <= j < i + c ==> j !in done
    ensures |flags| == 32
    ensures forall j :: 32 - i % 32 - c <= j < 32 - i % 32 ==> !flags[j]
  {
    assert c > 0 ==> i % 32 == i - base;
    forall j | 32 - i % 32 - c <= j < 32 - i % 32
      ensures !flags[j]
    {
      assert i <= base + 31 - j < i + c;
    }
  }

  /** What reading element i finds and leaves. */
  lemma ReadFacts(r: Rep, tailIndex: nat, headIndex: nat, published: int, i: nat) returns (k: nat)
    requires Good(r, tailIndex, headIndex, published) && i < headIndex && i !in r.done
    ensures 0 <= published < |r.entries| && i < |r.log| && k < |r.ring|
    ensures r.entries[LookupSlot(r.entries, published, i)].block == r.ring[k]
    ensures r.ring[k] in r.elements && |r.elements[r.ring[k]]| == 32 && r.elements[r.ring[k]][i % 32] == r.log[i]
    ensures r.ring[k] in r.flags && |r.flags[r.ring[k]]| == 32 && !r.flags[r.ring[k]][31 - i % 32]
    ensures Good(Taken(r, k, i), tailIndex, headIndex, published)
  {
    hide LookupSlot, Taken, Live, RingFlags;
    LookupFinds(r, published, i);
    k := HomeOf(r, i);
    FlagsUnset(r, tailIndex, headIndex, published, k, i, 1);
    TakenGood(r, tailIndex, headIndex, published, k, i);
  }

  // ---------------------------------------------------------------- reading many elements of a block

  /** set_many_empty sets c flags in a row. */
  function SetMany(flags: seq<bool>, from: nat, c: nat): (flags': seq<bool>)
    requires from + c <= |flags|
    ensures |flags'| == |flags|
    ensures forall j :: 0 <= j < |flags| ==> flags'[j] == (from <= j < from + c || flags[j])
  {
    flags[..from] + seq(c, _ => true) + flags[from + c..]
  }

  /** c elements from i on, all in block k, are read. */
  ghost function TakenMany(r: Rep, k: nat, i: nat, c: nat): Rep
    requires k < |r.ring| && r.ring[k] in r.flags && |r.flags[r.ring[k]]| == 32 && i % 32 + c <= 32
  {
    var b := r.ring[k];
    r.(flags := r.flags[b := SetMany(r.flags[b], 32 - i % 32 - c, c)], done := r.done + Range(i, c))
  }

  /** It comes to the same as reading them one by one. */
  lemma TakenManyStep(r: Rep, k: nat, i: nat, c: nat)
    requires k < |r.ring| && r.ring[k] in r.flags && |r.flags[r.ring[k]]| == 32 && i % 32 + c < 32
    ensures TakenMany(r, k, i, c + 1) == Taken(TakenMany(r, k, i, c), k, i + c)
  {
    var b := r.ring[k];
    assert (i + c) % 32 == i % 32 + c;
    var one, many := Taken(TakenMany(r, k, i, c), k, i + c).flags[b], TakenMany(r, k, i, c + 1).flags[b];
    assert one == many;
    assert r.done + Range(i, c + 1) == r.done + Range(i, c) + {i + c};
  }

  lemma TakenManyNone(r: Rep, k: nat, i: nat)
    requires k < |r.ring| && r.ring[k] in r.flags && |r.flags[r.ring[k]]| == 32
    ensures TakenMany(r, k, i, 0) == r
  {
    var b := r.ring[k];
    assert SetMany(r.flags[b], 32 - i % 32, 0) == r.flags[b];
    assert r.flags[b := r.flags[b]] == r.flags;
    assert r.done + Range(i, 0) == r.done;
  }

  lemma {:induction false} TakenManyGood(r: Rep, tailIndex: nat, headIndex: nat, published: int, k: nat, i: nat, c: nat)
    requires Good(r, tailIndex, headIndex, published) && i + c <= headIndex
    requires forall j :: i <= j < i + c ==> j !in r.done
    requires k < |r.ring| && r.base + 32 * k <= i && i + c <= r.base + 32 * k + 32 && i % 32 + c <= 32
    requires forall j :: 0 <= j < |r.ring| && j != k ==> r.ring[j] != r.ring[k]
    ensures r.ring[k] in r.flags && |r.flags[r.ring[k]]| == 32
    ensures Good(TakenMany(r, k, i, c), tailIndex, headIndex, published)
    decreases c
  {
    hide Good, SetMany, Taken;
    BlockStorage(r, tailIndex, headIndex, published, k);
    if c == 0 {
      TakenManyNone(r, k, i);
    } else {
      TakenManyGood(r, tailIndex, headIndex, published, k, i, c - 1);
      TakenManyStep(r, k, i, c - 1);
      TakenGood(TakenMany(r, k, i, c - 1), tailIndex, headIndex, published, k, i + c - 1);
    }
  }

  lemma BlockStorage(r: Rep, tailIndex: nat, headIndex: nat, published: int, k: nat)
    requires Good(r, tailIndex, headIndex, published) && k < |r.ring|
    ensures r.ring[k] in r.flags && |r.flags[r.ring[k]]| == 32
    ensures r.ring[k] in r.elements && |r.elements[r.ring[k]]| == 32
    ensures |r.entries| > 0 && r.entries[Wrap(r.start + k, |r.entries|)] == Entry(r.base + 32 * k, r.ring[k])
    ensures forall j :: 0 <= j < |r.ring| && j != k ==> r.ring[j] != r.ring[k]
    ensures r.base % 32 == 0
  {
    IndexAt(r.entries, r.start, r.ring, r.base, k);
    LinkedDistinct(r.ring, r.next, r.ring[0]);
  }

  /** Where a bulk dequeue starts: the block of its first element, and its slot. */
  lemma FirstBlock(r: Rep, tailIndex: nat, headIndex: nat, published: int, i: nat) returns (k: nat)
    requires Good(r, tailIndex, headIndex, published) && i < headIndex && i !in r.done
    ensures k < |r.ring| && r.base + 32 * k <= i < r.base + 32 * k + 32
    ensures 0 <= published < |r.entries|
    ensures LookupSlot(r.entries, published, i) == Wrap(r.start + k, |r.entries|)
  {
    k := HomeOf(r, i);
    IndexAt(r.entries, r.start, r.ring, r.base, |r.ring| - 1);
    assert r.start + |r.ring| - 1 == r.start + (|r.ring| - 1);
    SlotArith(r.start, r.base, |r.entries|, |r.ring|, i, k);
  }

  lemma GoodLog(r: Rep, tailIndex: nat, headIndex: nat, published: int)
    requires Good(r, tailIndex, headIndex, published)
    ensures headIndex <= tailIndex == |r.log| && |r.entries| > 0 && tailIndex <= r.base + 32 * |r.ring|
  {
  }

  /** What a consumer finds in block k for an element it has claimed. */
  lemma ElementAt(r: Rep, tailIndex: nat, headIndex: nat, published: int, k: nat, i: nat)
    requires Good(r, tailIndex, headIndex, published) && i < headIndex && i !in r.done
    requires r.base + 32 * k <= i < r.base + 32 * k + 32
    ensures k < |r.ring| && i < |r.log| && r.ring[k] in r.elements && |r.elements[r.ring[k]]| == 32
    ensures r.elements[r.ring[k]][i % 32] == r.log[i]
  {
    assert Live(i, r.log[i], r.home[i], r.ring, r.base, r.elements);
    assert (i - r.base) / 32 == k;
  }

  // ---------------------------------------------------------------- entering and filling many blocks

  /** Part of the way through a bulk enqueue: the blocks after the first `settled` ones, from `first` on,
      were entered into the index but are not filled yet; the others go up to the start block, and end at
      `end`. */
  ghost predicate Entering(r: Rep, startBlock: Option<BlockId>, first: Option<BlockId>, settled: nat, end: int, tailIndex: nat, headIndex: nat) {
    && IndexGood(r) && ElementsGood(r, settled)
    && headIndex <= tailIndex == |r.log|
    && (forall i :: i in r.done ==> i < headIndex)
    && r.base + 32 * settled == end && end - 32 < tailIndex <= end
    && (r.ring == [] ==> r.base == 0)
    && first == (if settled < |r.ring| then Some(r.ring[settled]) else None)
    && (if settled == 0 then tailIndex == end else startBlock == Some(r.ring[settled - 1]))
  }

  ghost predicate Foreign(blocks: seq<BlockId>, ring: seq<BlockId>) {
    forall k :: 0 <= k < |blocks| ==> blocks[k] !in ring
  }

  ghost predicate Distinct(blocks: seq<BlockId>) {
    forall j, k :: 0 <= j < k < |blocks| ==> blocks[j] != blocks[k]
  }

  /** The other new blocks are still new when the first of them is in the ring. */
  lemma ForeignNext(blocks: seq<BlockId>, ring: seq<BlockId>, j: nat)
    requires j < |blocks| && Foreign(blocks[j..], ring) && Distinct(blocks)
    ensures blocks[j] !in ring && Foreign(blocks[j + 1..], ring + [blocks[j]])
  {
    assert blocks[j] == blocks[j..][0];
    var rest := blocks[j + 1..];
    forall k | 0 <= k < |rest|
      ensures rest[k] !in ring + [blocks[j]]
    {
      assert rest[k] == blocks[j..][k + 1];
    }
  }

  lemma ForeignRotate(blocks: seq<BlockId>, ring: seq<BlockId>)
    requires Foreign(blocks, ring) && ring != []
    ensures Foreign(blocks, ring[1..] + [ring[0]])
  {
    forall k | 0 <= k < |blocks|
      ensures blocks[k] !in ring[1..] + [ring[0]]
    {
    }
  }

  /** The ring after one enqueue: as it was, turned by one block, or with a new block at its end. */
  ghost predicate RingStep(ring: seq<BlockId>, ring': seq<BlockId>, newBlock: BlockId) {
    ring' == ring || (ring != [] && ring' == ring[1..] + [ring[0]]) || ring' == ring + [newBlock]
  }

  lemma ForeignStep(blocks: seq<BlockId>, ring: seq<BlockId>, ring': seq<BlockId>, j: nat)
    requires j < |blocks| && Foreign(blocks[j..], ring) && Distinct(blocks) && RingStep(ring, ring', blocks[j])
    ensures Foreign(blocks[j + 1..], ring')
  {
    hide Foreign;
    ForeignNext(blocks, ring, j);
    ForeignFewer(blocks[j + 1..], ring + [blocks[j]], ring');
  }

  lemma ForeignFewer(blocks: seq<BlockId>, ring: seq<BlockId>, ring': seq<BlockId>)
    requires Foreign(blocks, ring) && forall b :: b in ring' ==> b in ring
    ensures Foreign(blocks, ring')
  {
    forall k | 0 <= k < |blocks|
      ensures blocks[k] !in ring'
    {
    }
  }

  /** The oldest block is empty and was not entered by the same operation. */
  ghost predicate Reusable(r: Rep, settled: nat) {
    settled > 0 && r.ring != [] && r.ring[0] in r.flags && AllSet(r.flags[r.ring[0]])
  }

  /** All elements of the block with this base were dequeued. */
  ghost predicate BlockRead(base: int, done: set<nat>) {
    forall i: int :: base <= i < base + 32 ==> i in done
  }

  /** How many of the oldest blocks, up to `count`, can be put to use again. */
  ghost function Takeable(base: int, done: set<nat>, count: nat): (n: nat)
    ensures n <= count
    decreases count
  {
    if count > 0 && BlockRead(base, done) then 1 + Takeable(base + 32, done, count - 1) else 0
  }

  /** The ring after an operation that starts `count` blocks: the oldest ones come to the end as far as they can,
      and new ones behind them. */
  ghost function RingAfter(ring: seq<BlockId>, base: int, done: set<nat>, count: nat, newBlocks: seq<BlockId>): seq<BlockId>
    requires count <= |newBlocks|
  {
    var n := Takeable(base, done, count);
    if n <= |ring| then ring[n..] + ring[..n] + newBlocks[..count - n] else ring
  }

  /** Those are the oldest blocks of which every element was dequeued; the next one, if it is asked for, has an
      element that was not. */
  lemma {:induction false} TakeableMeans(base: int, done: set<nat>, count: nat)
    ensures var n := Takeable(base, done, count);
      && n <= count
      && (forall i: int :: base <= i < base + 32 * n ==> i in done)
      && (n < count ==> exists i: int :: base + 32 * n <= i < base + 32 * n + 32 && i !in done)
    decreases count
  {
    if count > 0 && BlockRead(base, done) {
      TakeableMeans(base + 32, done, count - 1);
    }
  }

  lemma RingAfterMeans(ring: seq<BlockId>, base: int, done: set<nat>, count: nat, newBlocks: seq<BlockId>)
    requires count <= |newBlocks| && Takeable(base, done, count) <= |ring|
    ensures var n, ring' := Takeable(base, done, count), RingAfter(ring, base, done, count, newBlocks);
      && |ring'| == |ring| + count - n
      && (forall k :: 0 <= k < |ring| ==> ring'[k] == ring[if k + n < |ring| then k + n else k + n - |ring|])
      && (forall k :: 0 <= k < count - n ==> ring'[|ring| + k] == newBlocks[k])
  {
    hide Takeable, BlockRead;
    var n, ring' := Takeable(base, done, count), RingAfter(ring, base, done, count, newBlocks);
    var turned, more := ring[n..] + ring[..n], newBlocks[..count - n];
    assert ring' == turned + more && |turned| == |ring|;
    forall k | 0 <= k < |ring|
      ensures ring'[k] == ring[if k + n < |ring| then k + n else k + n - |ring|]
    {
      assert ring'[k] == turned[k];
    }
    forall k | 0 <= k < count - n
      ensures ring'[|ring| + k] == newBlocks[k]
    {
      assert ring'[|ring| + k] == more[k];
    }
  }

  lemma FlagsSetMeans(flags: seq<bool>, base: int, done: set<nat>)
    requires FlagsOk(flags, base, done)
    ensures AllSet(flags) <==> BlockRead(base, done)
  {
    if AllSet(flags) {
      forall i: int | base <= i < base + 32
        ensures i in done
      {
        assert flags[base + 31 - i];
      }
    }
    if BlockRead(base, done) {
      forall j | 0 <= j < 32
        ensures flags[j]
      {
        var i := base + 31 - j;
        assert i in done;
      }
    }
  }

  /** The block ahead can be used exactly when all elements of the oldest block were dequeued. */
  lemma ReusableMeans(r: Rep, settled: nat, tailIndex: nat)
    requires IndexGood(r) && ElementsGood(r, settled)
    requires (forall i :: i in r.done ==> i < tailIndex) && tailIndex <= r.base + 32 * settled
    ensures Reusable(r, settled) <==> BlockRead(r.base, r.done)
  {
    hide IndexGood, AllLive, FlagsOk;
    if settled > 0 {
      assert r.ring[..settled][0] == r.ring[0];
      FlagsSetMeans(r.flags[r.ring[0]], r.base, r.done);
    } else {
      assert r.base !in r.done;
    }
  }

  /** One block more of the oldest ones. */
  lemma TakeableNext(base: int, done: set<nat>, count: nat)
    ensures Takeable(base, done, count) == if count > 0 && BlockRead(base, done) then 1 + Takeable(base + 32, done, count - 1) else 0
  {
  }

  /** The same between operations. */
  lemma OldestMeans(r: Rep, tailIndex: nat, headIndex: nat, published: int)
    requires Good(r, tailIndex, headIndex, published) && tailIndex % 32 == 0
    ensures BlockRead(r.base, r.done) <==> r.ring != [] && r.ring[0] in r.flags && AllSet(r.flags[r.ring[0]])
  {
    hide BlockRead, AllSet, IndexGood;
    ReusableMeans(r, |r.ring|, tailIndex);
  }

  /** A block of the oldest number is taken only when there is one. */
  lemma RingOne(ring: seq<BlockId>, base: int, done: set<nat>, b: BlockId)
    requires BlockRead(base, done) ==> ring != []
    ensures RingAfter(ring, base, done, 1, [b]) == if BlockRead(base, done) then ring[1..] + [ring[0]] else ring + [b]
  {
    hide BlockRead;
    TakeableNext(base, done, 1);
    assert Takeable(base + 32, done, 0) == 0;
    if !BlockRead(base, done) {
      assert ring[0..] + ring[..0] + [b][..1] == ring + [b];
    } else {
      assert ring[1..] + ring[..1] + [b][..0] == ring[1..] + [ring[0]];
    }
  }

  lemma RingNone(ring: seq<BlockId>, base: int, done: set<nat>, newBlocks: seq<BlockId>)
    ensures RingAfter(ring, base, done, 0, newBlocks) == ring
  {
    assert ring[0..] + ring[..0] + newBlocks[..0] == ring;
  }

  lemma EnteringReusable(r: Rep, startBlock: Option<BlockId>, first: Option<BlockId>, settled: nat, end: int, tailIndex: nat, headIndex: nat)
    requires Entering(r, startBlock, first, settled, end, tailIndex, headIndex)
    ensures Reusable(r, settled) <==> BlockRead(r.base, r.done)
  {
    hide BlockRead, Reusable, IndexGood, ElementsGood;
    ReusableMeans(r, settled, tailIndex);
  }

  lemma TailNext(r: Rep, tailIndex: nat, headIndex: nat, published: int)
    requires Good(r, tailIndex, headIndex, published)
    ensures r.tailBlock.Some? <==> r.ring != []
    ensures r.ring != [] ==> r.tailBlock.value in r.next && r.next[r.tailBlock.value] == r.ring[0] && r.ring[0] in r.flags
    ensures if tailIndex % 32 == 0 then Full(r, tailIndex, headIndex) else Room(r, tailIndex, headIndex, published)
    ensures r.slotsUsed <= |r.entries|
  {
    TailBlockNext(r, |r.ring|);
  }

  /** Part of the way through entering blocks ahead: of `count` blocks, `left` are left, and the others are the
      oldest ones, which could all be taken again. */
  ghost predicate TurnedBy(ring0: seq<BlockId>, base0: int, ring: seq<BlockId>, base: int, done: set<nat>, count: nat, left: nat) {
    && left <= count && count - left <= |ring0| == |ring|
    && ring == ring0[count - left..] + ring0[..count - left]
    && Takeable(base0, done, count) == count - left + Takeable(base, done, left)
  }

  lemma TurnedNone(ring: seq<BlockId>, base: int, done: set<nat>, count: nat)
    ensures TurnedBy(ring, base, ring, base, done, count, count)
  {
    assert ring[0..] + ring[..0] == ring;
  }

  lemma TurnedNext(ring0: seq<BlockId>, base0: int, ring: seq<BlockId>, base: int, done: set<nat>, count: nat, left: nat)
    requires TurnedBy(ring0, base0, ring, base, done, count, left)
    requires 0 < left && count - left < |ring0| && BlockRead(base, done)
    ensures ring != [] && TurnedBy(ring0, base0, ring[1..] + [ring[0]], base + 32, done, count, left - 1)
  {
    hide BlockRead;
    var n := count - left;
    assert ring0[..n + 1] == ring0[..n] + [ring0[n]];
  }

  lemma TurnedAll(ring0: seq<BlockId>, base0: int, ring: seq<BlockId>, base: int, done: set<nat>, count: nat, left: nat)
    requires TurnedBy(ring0, base0, ring, base, done, count, left) && (left == 0 || !BlockRead(base, done))
    ensures var n := Takeable(base0, done, count);
      left == count - n && n <= |ring0| && ring == ring0[n..] + ring0[..n]
  {
    hide BlockRead;
  }

  lemma EnteringStart(r: Rep, tailIndex: nat, headIndex: nat)
    requires Entering(r, r.tailBlock, None, |r.ring|, r.base + 32 * |r.ring|, tailIndex, headIndex)
    ensures BlockBase(tailIndex - 1) == r.base + 32 * |r.ring| - 32
  {
  }

  lemma EnteringAdvanced(r: Rep, startBlock: Option<BlockId>, first: Option<BlockId>, settled: nat, end: int, tailIndex: nat, headIndex: nat)
    requires Entering(r, startBlock, first, settled, end, tailIndex, headIndex)
    requires 0 < settled && AllSet(r.flags[r.ring[0]])
    ensures Entering(Advanced(r), startBlock, if first == None then Some(r.ring[0]) else first, settled - 1, end, tailIndex, headIndex)
  {
    AdvancedIndex(r);
    AdvancedElements(r, settled);
    assert r.ring[..settled][0] == r.ring[0] && r.flags[r.ring[0]][0];
  }

  lemma EnteringInserted(r: Rep, startBlock: Option<BlockId>, first: Option<BlockId>, settled: nat, end: int, tailIndex: nat, headIndex: nat, b: BlockId)
    requires Entering(r, startBlock, first, settled, end, tailIndex, headIndex)
    requires b !in r.ring && r.slotsUsed < |r.entries|
    ensures Entering(Inserted(r, b, Set()), startBlock, if first == None then Some(b) else first, settled, end, tailIndex, headIndex)
  {
    InsertedIndex(r, b, Set());
    InsertedElements(r, b, Set(), settled);
  }

  lemma {:induction false} LinkedNext(ring: seq<BlockId>, next: map<BlockId, BlockId>, to: BlockId, k: nat)
    requires Linked(ring, next, to) && k < |ring|
    ensures ring[k] in next && next[ring[k]] == (if k < |ring| - 1 then ring[k + 1] else to)
    decreases |ring|
  {
    if k > 0 {
      LinkedNext(ring[1..], next, to, k - 1);
    }
  }

  /** The flags are cleared for the first k blocks; block k is next. */
  ghost predicate Resetting(r: Rep, k: nat, block: BlockId) {
    && IndexGood(r) && ElementsGood(r, k)
    && k < |r.ring| && block == r.ring[k]
    && forall i :: i in r.done ==> i < r.base + 32 * k
  }

  lemma ResettingStart(r: Rep, startBlock: Option<BlockId>, first: Option<BlockId>, settled: nat, end: int, tailIndex: nat, headIndex: nat)
    requires Entering(r, startBlock, first, settled, end, tailIndex, headIndex) && settled < |r.ring|
    ensures first.Some? && Resetting(r, settled, first.value)
  {
  }

  /** The flags of the next block are cleared: either it was the last one, or the one after it follows. */
  lemma ResettingNext(r: Rep, k: nat, block: BlockId)
    requires Resetting(r, k, block)
    ensures k < |r.ring| && block == r.ring[k]
    ensures r.tailBlock.Some? && (r.tailBlock.value == block <==> k == |r.ring| - 1)
    ensures if k == |r.ring| - 1 then ElementsGood(Cleared(r, k), |r.ring|)
            else block in r.next && Resetting(Cleared(r, k), k + 1, r.next[block])
    ensures IndexGood(Cleared(r, k))
  {
    LinkedDistinct(r.ring, r.next, r.ring[0]);
    LinkedNext(r.ring, r.next, r.ring[0], k);
    ClearedElements(r, k);
  }

  /** All blocks are in the index and block k is being filled; the tail block is k for the while. */
  ghost predicate Filling(r: Rep, k: nat, headIndex: nat) {
    && k < |r.ring| && r.tailBlock == Some(r.ring[k])
    && IndexGood(r.(tailBlock := Some(r.ring[|r.ring| - 1])))
    && ElementsGood(r, |r.ring|)
    && headIndex <= |r.log| && (forall i :: i in r.done ==> i < headIndex)
    && r.base + 32 * k <= |r.log| <= r.base + 32 * k + 32
  }

  lemma FilledOne(r: Rep, k: nat, headIndex: nat, x: Value)
    requires Filling(r, k, headIndex) && |r.log| < r.base + 32 * k + 32
    ensures Filling(Written(r, k, x), k, headIndex)
  {
    LinkedDistinct(r.ring, r.next, r.ring[0]);
    WrittenElements(r, k, x);
  }

  /** When block k is full, the next one is filled. */
  lemma FilledBlock(r: Rep, k: nat, headIndex: nat)
    requires Filling(r, k, headIndex) && k < |r.ring| - 1 && |r.log| == r.base + 32 * k + 32
    ensures r.ring[k] in r.next && Filling(r.(tailBlock := Some(r.next[r.ring[k]])), k + 1, headIndex)
  {
    LinkedNext(r.ring, r.next, r.ring[0], k);
  }

  /** Where to stop filling block k, and whether it is the last one. */
  lemma FillingBlock(r: Rep, k: nat, headIndex: nat)
    requires Filling(r, k, headIndex) && |r.log| < r.base + 32 * k + 32
    ensures BlockBase(|r.log|) == r.base + 32 * k
    ensures k < |r.ring| && (r.tailBlock == Some(r.ring[|r.ring| - 1]) <==> k == |r.ring| - 1)
    ensures r.tailBlock == Some(r.ring[k])
  {
    LinkedDistinct(r.ring, r.next, r.ring[0]);
  }

  lemma FillingDone(r: Rep, headIndex: nat, published: int)
    requires |r.ring| > 0 && Filling(r, |r.ring| - 1, headIndex) && |r.log| > r.base + 32 * |r.ring| - 32
    requires published == Wrap(r.front - 1, |r.entries|)
    ensures Good(r, |r.log|, headIndex, published)
  {
    WrapShift(r.start + |r.ring|, -1, |r.entries|);
    assert r.(tailBlock := Some(r.ring[|r.ring| - 1])) == r;
  }

  /** A bulk enqueue starts: no block was entered yet. */
  lemma GoodEntering(r: Rep, tailIndex: nat, headIndex: nat, published: int)
    requires Good(r, tailIndex, headIndex, published)
    ensures Entering(r, r.tailBlock, None, |r.ring|, r.base + 32 * |r.ring|, tailIndex, headIndex)
    ensures Prepared(r, r.tailBlock, None, |r.ring|, r.base + 32 * |r.ring|, tailIndex, headIndex)
    ensures |r.entries| > 0 && (r.ring != [] ==> published == Wrap(r.front - 1, |r.entries|))
  {
    WrapShift(r.start + |r.ring|, -1, |r.entries|);
  }

  /** All blocks are entered and cleared. */
  ghost predicate Prepared(r: Rep, startBlock: Option<BlockId>, first: Option<BlockId>, settled: nat, end: int,
                           tailIndex: nat, headIndex: nat) {
    && Entering(r, startBlock, first, settled, end, tailIndex, headIndex)
    && ElementsGood(r, |r.ring|)
  }

  lemma PreparedFrom(r: Rep, startBlock: Option<BlockId>, first: Option<BlockId>, settled: nat, end: int,
                     tailIndex: nat, headIndex: nat, flags: map<BlockId, seq<bool>>)
    requires Entering(r, startBlock, first, settled, end, tailIndex, headIndex)
    requires IndexGood(r.(flags := flags)) && ElementsGood(r.(flags := flags), |r.ring|)
    ensures Prepared(r.(flags := flags), startBlock, first, settled, end, tailIndex, headIndex)
  {
    hide IndexOk, RingOk, AllLive, StorageOk;
    assert r.ring[..|r.ring|] == r.ring;
    RingFlagsPrefix(r.ring, r.base, flags, r.done, settled);
  }

  lemma PreparedFacts(r: Rep, startBlock: Option<BlockId>, first: Option<BlockId>, settled: nat, end: int,
                      tailIndex: nat, headIndex: nat)
    requires Prepared(r, startBlock, first, settled, end, tailIndex, headIndex)
    ensures settled <= |r.ring| && (settled < |r.ring| ==> first.Some?)
    ensures tailIndex % 32 == 0 <==> tailIndex == end
    ensures tailIndex == |r.log| && end - 32 < tailIndex <= end == r.base + 32 * settled
    ensures |r.ring| > 0 ==> r.tailBlock == Some(r.ring[|r.ring| - 1])
    ensures BlockBase(tailIndex - 1) == end - 32
  {
    hide IndexOk, RingOk, RingFlags, AllLive, StorageOk, BlockBase;
    BlockBaseIs(tailIndex - 1, settled - 1, r.base);
  }

  function FirstToFill(startBlock: Option<BlockId>, first: Option<BlockId>, tailIndex: nat): Option<BlockId> {
    if tailIndex % 32 == 0 && first.Some? then first else startBlock
  }

  /** Filling starts in the start block, or in the first block entered when the start block is full. */
  lemma FillingStart(r: Rep, startBlock: Option<BlockId>, first: Option<BlockId>, settled: nat, end: int,
                     tailIndex: nat, headIndex: nat) returns (k: nat)
    requires Prepared(r, startBlock, first, settled, end, tailIndex, headIndex)
    requires |r.ring| > 0 && (tailIndex == end ==> settled < |r.ring|)
    ensures k < |r.ring| && r.base + 32 * k <= tailIndex == |r.log| < r.base + 32 * k + 32
    ensures Filling(r.(tailBlock := FirstToFill(startBlock, first, tailIndex)), k, headIndex)
    ensures r.tailBlock == Some(r.ring[|r.ring| - 1])
  {
    PreparedFacts(r, startBlock, first, settled, end, tailIndex, headIndex);
    k := if tailIndex == end then settled else settled - 1;
    assert r.(tailBlock := FirstToFill(startBlock, first, tailIndex)).(tailBlock := Some(r.ring[|r.ring| - 1])) == r;
  }

  // ---------------------------------------------------------------- a larger index

  /** The copied index starts over at slot 0. */
  function Reindexed(r: Rep, entries: seq<Entry>): Rep {
    r.(entries := entries, front := |r.ring|, start := 0)
  }

  lemma ReindexedIndex(r: Rep, entries: seq<Entry>)
    requires IndexGood(r) && |entries| == 2 * |r.entries|
    requires forall k :: 0 <= k < |r.ring| ==> entries[k] == Entry(r.base + 32 * k, r.ring[k])
    ensures IndexGood(Reindexed(r, entries))
  {
    IndexCopied(entries, r.ring, r.base);
  }

  /** The copy loop of new_block_index, over the slots that are in use. */
  method CopyIndex(entries: array<Entry>, used: nat, front: nat, ghost start: int, ghost ring: seq<BlockId>, ghost base: int)
    returns (newEntries: array<Entry>)
    requires 0 < entries.Length && used == |ring| <= entries.Length
    requires IndexOk(entries[..], start, ring, base) && front == Wrap(start + used, entries.Length)
    ensures fresh(newEntries) && newEntries.Length == 2 * entries.Length
    ensures forall k :: 0 <= k < used ==> newEntries[k] == Entry(base + 32 * k, ring[k])
  {
    hide IndexOk, Wrap;
    newEntries := new Entry[2 * entries.Length](_ => Entry(0, 0));
    if used == 0 {
      return;
    }
    var i := Wrap(front - used, entries.Length);
    WrapShift(start + used, -(used as int), entries.Length);
    assert start + used - used == start + 0;
    var j := 0;
    while j == 0 || i != front
      invariant 0 <= j <= used && i == Wrap(start + j, entries.Length)
      invariant forall k :: 0 <= k < j ==> newEntries[k] == Entry(base + 32 * k, ring[k])
      decreases used - j
    {
      assert j < used;
      IndexAt(entries[..], start, ring, base, j);
      newEntries[j] := entries[i];
      NextSlot(start, j, entries.Length);
      i := Wrap(i + 1, entries.Length);
      j := j + 1;
    }
    if j < used {
      WrapUnique(start + used, start + j, entries.Length);
      assert false;
    }
  }

  class Producer {
    var tailIndex: nat
    var headIndex: nat
    var tailBlock: Option<BlockId>
    var next: map<BlockId, BlockId>
    var elements: map<BlockId, seq<Value>>
    var flags: map<BlockId, seq<bool>>
    var entries: array<Entry>
    var slotsUsed: nat
    var front: nat
    var published: int

    /** All values enqueued, the block each was written into, and the indices that were read. */
    ghost var log: seq<Value>
    ghost var home: seq<BlockId>
    ghost var done: set<nat>
    /** The blocks, oldest first, the index of the first element of the oldest, and its slot. */
    ghost var ring: seq<BlockId>
    ghost var base: int
    ghost var start: int

    ghost function State(): Rep
      reads this, entries
    {
      Rep(tailBlock, next, elements, flags, entries[..], slotsUsed, front, log, home, done, ring, base, start)
    }

    ghost predicate Valid()
      reads this, entries
    {
      Good(State(), tailIndex, headIndex, published)
    }

    /** An empty producer; halfSize is half the number of slots of its first index. */
    constructor (halfSize: nat)
      requires halfSize > 0
      ensures Valid() && fresh(entries) && entries.Length == 2 * halfSize
      ensures log == [] && ring == [] && done == {} && headIndex == 0
    {
      tailIndex, headIndex := 0, 0;
      tailBlock, next, elements, flags := None, map[], map[], map[];
      entries := new Entry[2 * halfSize](_ => Entry(0, 0));
      slotsUsed, front, published := 0, 0, -1;
      log, home, done, ring, base, start := [], [], {}, [], 0, 0;
    }

    /** Takes indices, one for a dequeue; the counters of the dequeue protocol make sure that there are enough. */
    method Claim(count: nat) returns (first: nat)
      requires Valid() && headIndex + count <= tailIndex
      modifies `headIndex
      ensures Valid() && first == old(headIndex) && headIndex == old(headIndex) + count
    {
      first := headIndex;
      headIndex := headIndex + count;
    }

    /** Moves the element out and marks it as dequeued. */
    method Read(index: nat) returns (x: Value)
      requires Valid() && index < headIndex && index !in done
      modifies `flags, `done
      ensures Valid() && index < |log| && x == log[index] && done == old(done) + {index}
    {
      hide Good;
      ghost var r := State();
      ghost var k := ReadFacts(r, tailIndex, headIndex, published, index);
      var headBase := entries[published].base;
      var offset := (BlockBase(index) - headBase) / 32;
      var block := entries[Wrap(published + offset, entries.Length)].block;
      x := elements[block][index % 32];
      flags := flags[block := flags[block][31 - index % 32 := true]];
      done := done + {index};
      assert State() == Taken(r, k, index);
    }

    /** Sets the flags of elements in a row. */
    method SetManyEmpty(block: BlockId, i: nat, count: nat)
      requires block in flags && |flags[block]| == 32 && i % 32 + count <= 32
      requires forall j :: 32 - i % 32 - count <= j < 32 - i % 32 ==> !flags[block][j]
      modifies `flags
      ensures flags == old(flags)[block := SetMany(old(flags)[block], 32 - i % 32 - count, count)]
    {
      var from := 32 - i % 32 - count;
      var fs := flags[block];
      ghost var before := fs;
      for j := 0 to count
        invariant |fs| == 32 && fs == SetMany(before, from, j)
      {
        assert !fs[from + j];
        fs := fs[from + j := true];
      }
      flags := flags[block := fs];
    }

    /** Moves out elements of one block. */
    method MoveOut(index: nat, endIndex: nat, block: BlockId, ghost k: nat) returns (items: seq<Value>)
      requires Good(State(), tailIndex, headIndex, published) == true && index <= endIndex <= headIndex
      requires forall j :: index <= j < endIndex ==> j !in done
      requires k < |ring| && block == ring[k] && base + 32 * k <= index && endIndex <= base + 32 * k + 32
      ensures endIndex <= |log| && items == log[index..endIndex]
    {
      hide Good;
      GoodLog(State(), tailIndex, headIndex, published);
      items := [];
      var i := index;
      while i != endIndex
        invariant index <= i <= endIndex && items == log[index..i]
      {
        ElementAt(State(), tailIndex, headIndex, published, k, i);
        items := items + [elements[block][i % 32]];
        i := i + 1;
      }
    }

    /** Moves out the elements that one block has of those from index on, and marks them as dequeued. */
    method ReadFromBlock(index: nat, endIndex: nat, block: BlockId, ghost k: nat) returns (items: seq<Value>)
      requires Valid() && index <= endIndex <= headIndex && k < |ring| && block == ring[k]
      requires forall j :: index <= j < endIndex ==> j !in done
      requires base + 32 * k <= index && endIndex <= base + 32 * k + 32 && index < base + 32 * k + 32
      modifies `flags, `done
      ensures Good(State(), tailIndex, headIndex, published) == true && done == old(done) + Range(index, endIndex - index)
      ensures endIndex <= |log| && items == log[index..endIndex]
    {
      hide Good, SetMany, Range;
      ghost var r := State();
      BlockStorage(r, tailIndex, headIndex, published, k);
      items := MoveOut(index, endIndex, block, k);
      BlockBaseIs(index, k, base);
      TakenManyGood(r, tailIndex, headIndex, published, k, index, endIndex - index);
      FlagsUnset(r, tailIndex, headIndex, published, k, index, endIndex - index);
      SetManyEmpty(block, index, endIndex - index);
      done := done + Range(index, endIndex - index);
      assert State() == TakenMany(r, k, index, endIndex - index);
    }

    /** Moves out what the block in this slot has of the elements from index on, up to the last one wanted. */
    method ReadFromSlot(index: nat, stop: nat, indexIndex: nat, ghost k: nat) returns (items: seq<Value>, endIndex: nat)
      requires Good(State(), tailIndex, headIndex, published) == true && index < stop <= headIndex
      requires forall j :: index <= j < stop ==> j !in done
      requires base + 32 * k <= index < base + 32 * k + 32 && entries.Length > 0
      requires indexIndex == Wrap(start + k, entries.Length)
      modifies `flags, `done
      ensures index < endIndex <= stop
      ensures Good(State(), tailIndex, headIndex, published) == true && done == old(done) + Range(index, endIndex - index)
      ensures endIndex < stop ==> endIndex == base + 32 * (k + 1)
      ensures endIndex <= |log| && items == log[index..endIndex]
    {
      hide Good, Range;
      GoodLog(State(), tailIndex, headIndex, published);
      BlockStorage(State(), tailIndex, headIndex, published, k);
      BlockBaseIs(index, k, base);
      endIndex := BlockBase(index) + 32;
      if stop < endIndex {
        endIndex := stop;
      }
      var block := entries[indexIndex].block;
      items := ReadFromBlock(index, endIndex, block, k);
    }

    /** Moves out all elements from firstIndex on: one lookup, and then slot after slot of the index. */
    method ReadBulk(firstIndex: nat, count: nat) returns (items: seq<Value>)
      requires Valid() && count > 0 && firstIndex + count <= headIndex
      requires forall j :: firstIndex <= j < firstIndex + count ==> j !in done
      modifies `flags, `done
      ensures Valid() && firstIndex + count <= |log| && items == log[firstIndex..firstIndex + count]
      ensures done == old(done) + Range(firstIndex, count)
    {
      hide Good, LookupSlot, Range, Wrap;
      GoodLog(State(), tailIndex, headIndex, published);
      ghost var k := FirstBlock(State(), tailIndex, headIndex, published, firstIndex);
      var indexIndex := LookupSlot(entries[..], published, firstIndex);
      var index := firstIndex;
      items := [];
      while index != firstIndex + count
        invariant Good(State(), tailIndex, headIndex, published) == true
        invariant firstIndex <= index <= firstIndex + count && items == log[firstIndex..index]
        invariant done == old(done) + Range(firstIndex, index - firstIndex)
        invariant index < firstIndex + count ==> base + 32 * k <= index < base + 32 * k + 32
        invariant indexIndex == Wrap(start + k, entries.Length)
        decreases firstIndex + count - index
      {
        var more, endIndex := ReadFromSlot(index, firstIndex + count, indexIndex, k);
        RangeAppend(firstIndex, index - firstIndex, endIndex - index);
        SliceAppend(log, firstIndex, index, endIndex);
        items := items + more;
        index := endIndex;
        NextSlot(start, k, entries.Length);
        indexIndex := Wrap(indexIndex + 1, entries.Length);
        k := k + 1;
      }
    }

    /** Allocates an index twice as large, with the entries of the old one at its front. */
    method NewBlockIndex(filledSlotsToExpose: nat)
      requires IndexGood(State())
      modifies `entries, `front, `published, `start
      ensures fresh(entries) && entries.Length == 2 * old(entries.Length)
      ensures State() == Reindexed(old(State()), entries[..]) && IndexGood(State())
      ensures published == filledSlotsToExpose - 1
    {
      ghost var r := State();
      var newEntries := CopyIndex(entries, slotsUsed, front, start, ring, base);
      ReindexedIndex(r, newEntries[..]);
      published := filledSlotsToExpose - 1;
      front := slotsUsed;
      entries := newEntries;
      start := 0;
      assert State() == Reindexed(r, newEntries[..]);
    }

    /** Adds the tail block to the index, in the slot at the front. */
    method IndexTail(currentTailIndex: int)
      requires tailBlock.Some? && front < entries.Length
      modifies `front, entries
      ensures front == Wrap(old(front) + 1, entries.Length)
      ensures entries[..] == old(entries[..])[old(front) := Entry(currentTailIndex, tailBlock.value)]
    {
      entries[front] := Entry(currentTailIndex, tailBlock.value);
      front := Wrap(front + 1, entries.Length);
    }

    /** The block ahead becomes the tail block. */
    method Advance(currentTailIndex: int)
      requires ring != [] && front < entries.Length && currentTailIndex == base + 32 * |ring|
      requires tailBlock.Some? && tailBlock.value in next && next[tailBlock.value] == ring[0]
      modifies `tailBlock, `front, `ring, `base, `start, entries
      ensures State() == Advanced(old(State()))
    {
      tailBlock := Some(next[tailBlock.value]);
      IndexTail(currentTailIndex);
      ring, base, start := ring[1..] + [ring[0]], base + 32, start + 1;
    }

    /** Links a new block in after the tail block. */
    method LinkIn(newBlock: BlockId)
      requires if ring == [] then tailBlock == None
               else tailBlock == Some(ring[|ring| - 1]) && tailBlock.value in next && next[tailBlock.value] == ring[0]
      modifies `tailBlock, `next
      ensures tailBlock == Some(newBlock) && next == Linking(ring, old(next), newBlock)
    {
      if tailBlock == None {
        next := next[newBlock := newBlock];
      } else {
        next := next[newBlock := next[tailBlock.value]][tailBlock.value := newBlock];
      }
      tailBlock := Some(newBlock);
    }

    /** Gives a new block its storage and its flags. */
    method Store(newBlock: BlockId, newFlags: seq<bool>)
      modifies `elements, `flags
      ensures elements == old(elements)[newBlock := Blank()] && flags == old(flags)[newBlock := newFlags]
    {
      flags := flags[newBlock := newFlags];
      elements := elements[newBlock := Blank()];
    }

    /** A new block, with these flags, is linked in as the tail block. */
    method Attach(newBlock: BlockId, newFlags: seq<bool>)
      requires if ring == [] then tailBlock == None
               else tailBlock == Some(ring[|ring| - 1]) && tailBlock.value in next && next[tailBlock.value] == ring[0]
      modifies `tailBlock, `next, `elements, `flags
      ensures var r := old(State());
        State() == r.(elements := r.elements[newBlock := Blank()], flags := r.flags[newBlock := newFlags],
                      next := Linking(r.ring, r.next, newBlock), tailBlock := Some(newBlock))
    {
      hide Linking, Blank;
      Store(newBlock, newFlags);
      LinkIn(newBlock);
    }

    /** The tail block, which is new, enters the index. */
    method IndexNew(newBlock: BlockId, currentTailIndex: int)
      requires front < entries.Length && tailBlock == Some(newBlock)
      modifies `slotsUsed, `front, `ring, entries
      ensures var r := old(State());
        State() == r.(entries := r.entries[r.front := Entry(currentTailIndex, newBlock)], slotsUsed := r.slotsUsed + 1,
                      front := Wrap(r.front + 1, |r.entries|), ring := r.ring + [newBlock])
    {
      hide Wrap;
      slotsUsed := slotsUsed + 1;
      IndexTail(currentTailIndex);
      ring := ring + [newBlock];
    }

    /** A new block, with these flags, becomes the tail block and enters the index. */
    method Insert(newBlock: BlockId, newFlags: seq<bool>, currentTailIndex: int)
      requires front < entries.Length && currentTailIndex == base + 32 * |ring|
      requires if ring == [] then tailBlock == None
               else tailBlock == Some(ring[|ring| - 1]) && tailBlock.value in next && next[tailBlock.value] == ring[0]
      modifies `tailBlock, `next, `elements, `flags, `slotsUsed, `front, `ring, entries
      ensures State() == Inserted(old(State()), newBlock, newFlags)
    {
      hide Linking, Wrap, Blank;
      Attach(newBlock, newFlags);
      IndexNew(newBlock, currentTailIndex);
    }

    method ResetEmpty(block: BlockId)
      modifies `flags
      ensures flags == old(flags)[block := Unset()]
    {
      flags := flags[block := Unset()];
    }

    /** Puts the block ahead, which is empty, to use again. */
    method ReuseBlock()
      requires Valid() && tailIndex % 32 == 0
      requires ring != [] && AllSet(flags[ring[0]])
      modifies `tailBlock, `flags, `front, `published, `ring, `base, `start, entries
      ensures Room(State(), tailIndex, headIndex, published) == true
      ensures ring == old(ring[1..] + [ring[0]])
    {
      hide Room, RingOk, IndexOk, RingFlags, AllLive;
      ghost var r := State();
      NextIsOldest(r);
      ReusedRoom(r, tailIndex, headIndex, published);
      published := front;
      Advance(tailIndex);
      ResetEmpty(tailBlock.value);
      assert State() == Cleared(Advanced(r), |r.ring| - 1);
    }

    /** Makes the index larger when it is full. */
    method GrowIndex()
      requires Full(State(), tailIndex, headIndex)
      modifies `entries, `front, `published, `start
      ensures Full(State(), tailIndex, headIndex) && slotsUsed < entries.Length
      ensures entries == old(entries) || fresh(entries)
      ensures entries == old(entries) <==> old(slotsUsed < entries.Length)
    {
      if slotsUsed == entries.Length {
        NewBlockIndex(slotsUsed);
      }
    }

    /** Puts a new block to use. */
    method AddBlock(newBlock: BlockId)
      requires Full(State(), tailIndex, headIndex) && slotsUsed < entries.Length && newBlock !in ring
      modifies `tailBlock, `next, `elements, `flags, `slotsUsed, `front, `published, `ring, entries
      ensures Room(State(), tailIndex, headIndex, published) == true
      ensures ring == old(ring) + [newBlock]
    {
      hide Room, RingOk, IndexOk, RingFlags, AllLive;
      ghost var r := State();
      InsertedRoom(r, tailIndex, headIndex, newBlock);
      TailBlockNext(r, |ring|);
      published := front;
      Insert(newBlock, Unset(), tailIndex);
      ResetEmpty(newBlock);
      assert State() == Cleared(Inserted(r, newBlock, Unset()), |r.ring|);
    }

    /** Puts a new block to use, whether or not the index has a slot left. */
    method RequisitionBlock(newBlock: BlockId)
      requires Full(State(), tailIndex, headIndex) && newBlock !in ring
      modifies `tailBlock, `next, `elements, `flags, `entries, `slotsUsed, `front, `published, `ring, `start, entries
      ensures Room(State(), tailIndex, headIndex, published) == true
      ensures entries == old(entries) || fresh(entries)
      ensures entries == old(entries) <==> old(slotsUsed < entries.Length)
      ensures ring == old(ring) + [newBlock]
    {
      GrowIndex();
      AddBlock(newBlock);
    }

    /** Constructs the element in the tail block and moves the tail past it. */
    method Construct(x: Value)
      requires Room(State(), tailIndex, headIndex, published)
      modifies `elements, `tailIndex, `log, `home
      ensures Valid() && log == old(log) + [x] && tailIndex == old(tailIndex) + 1
    {
      ghost var r := State();
      WrittenGood(r, tailIndex, headIndex, published, x);
      var block := tailBlock.value;
      elements := elements[block := elements[block][tailIndex % 32 := x]];
      tailIndex := tailIndex + 1;
      log, home := log + [x], home + [block];
      assert State() == Written(r, |r.ring| - 1, x);
    }

    /** Starts a block when the tail block is full. */
    method MakeRoom(newBlock: BlockId)
      requires Valid() && (tailIndex % 32 == 0 ==> newBlock !in ring)
      modifies `tailBlock, `next, `elements, `flags, `entries, `slotsUsed, `front, `published, `ring, `base, `start, entries
      ensures Room(State(), tailIndex, headIndex, published) == true
      ensures entries == old(entries) || fresh(entries)
      ensures RingStep(old(ring), ring, newBlock) && (tailIndex % 32 != 0 ==> ring == old(ring))
      ensures ring == RingAfter(old(ring), old(base), done, if tailIndex % 32 == 0 then 1 else 0, [newBlock])
      ensures entries != old(entries) <==> tailIndex % 32 == 0 && old(!BlockRead(base, done) && slotsUsed == entries.Length)
    {
      hide RingAfter, BlockRead, Takeable, IndexGood, ElementsGood, AllSet;
      RingNone(ring, base, done, [newBlock]);
      TailNext(State(), tailIndex, headIndex, published);
      if tailIndex % 32 == 0 {
        OldestMeans(State(), tailIndex, headIndex, published);
        RingOne(ring, base, done, newBlock);
        if tailBlock.Some? && AllSet(flags[next[tailBlock.value]]) {
          ReuseBlock();
        } else {
          RequisitionBlock(newBlock);
        }
      }
    }

    /** Appends x; newBlock is what the pool hands out, should a block be needed. */
    method Enqueue(x: Value, newBlock: BlockId)
      requires Valid() && (tailIndex % 32 == 0 ==> newBlock !in ring)
      modifies this, entries
      ensures Valid() && log == old(log) + [x] && tailIndex == old(tailIndex) + 1
      ensures headIndex == old(headIndex) && done == old(done)
      ensures entries == old(entries) || fresh(entries)
      ensures RingStep(old(ring), ring, newBlock) && (old(tailIndex) % 32 != 0 ==> ring == old(ring))
      ensures ring == RingAfter(old(ring), old(base), done, if old(tailIndex) % 32 == 0 then 1 else 0, [newBlock])
      ensures entries != old(entries) <==> old(tailIndex % 32 == 0 && !BlockRead(base, done) && slotsUsed == entries.Length)
    {
      hide Room, Good, RingStep, RingAfter, BlockRead;
      MakeRoom(newBlock);
      Construct(x);
    }

    // -------------------------------------------------------------- many elements at once
    //
    // `Entering(...) == true` instead of `Entering(...)` makes the verifier prove it as a whole.

    /** Is there a block ahead that this operation did not enter itself, and is it empty? */
    method EmptyAhead(firstAllocated: Option<BlockId>, ghost startBlock: Option<BlockId>, ghost settled: nat, ghost end: int)
      returns (ahead: bool)
      requires Entering(State(), startBlock, firstAllocated, settled, end, tailIndex, headIndex) == true
      ensures ahead <==> Reusable(State(), settled)
    {
      TailBlockNext(State(), settled);
      if ring != [] {
        LinkedDistinct(ring, next, ring[0]);
      }
      ahead := tailBlock.Some? && Some(next[tailBlock.value]) != firstAllocated && AllSet(flags[next[tailBlock.value]]);
    }

    /** Enters the block ahead. */
    method EnterAhead(currentTailIndex: int, firstAllocated: Option<BlockId>, ghost blocks: seq<BlockId>,
                      ghost startBlock: Option<BlockId>, ghost settled: nat, ghost end: int)
      returns (first: Option<BlockId>)
      requires Entering(State(), startBlock, firstAllocated, settled, end, tailIndex, headIndex) == true
      requires Reusable(State(), settled) && currentTailIndex == base + 32 * |ring| && Foreign(blocks, ring)
      modifies `tailBlock, `front, `ring, `base, `start, entries
      ensures Entering(State(), startBlock, first, settled - 1, end, tailIndex, headIndex) == true
      ensures base == old(base) + 32 && |ring| == |old(ring)| && Foreign(blocks, ring)
      ensures old(ring) != [] && ring == old(ring[1..] + [ring[0]])
    {
      ForeignRotate(blocks, ring);
      ghost var r := State();
      EnteringAdvanced(r, startBlock, firstAllocated, settled, end, tailIndex, headIndex);
      NextIsOldest(r);
      Advance(currentTailIndex);
      first := if firstAllocated == None then tailBlock else firstAllocated;
    }

    /** Enters the block ahead, if that can be used. */
    method TryEnterAhead(currentTailIndex: int, firstAllocated: Option<BlockId>, ghost blocks: seq<BlockId>,
                         ghost startBlock: Option<BlockId>, ghost settled: nat, ghost end: int)
      returns (entered: bool, first: Option<BlockId>)
      requires Entering(State(), startBlock, firstAllocated, settled, end, tailIndex, headIndex) == true
      requires currentTailIndex == base + 32 * |ring| && Foreign(blocks, ring)
      modifies `tailBlock, `front, `ring, `base, `start, entries
      ensures entered <==> old(Reusable(State(), settled))
      ensures entered ==> settled > 0
      ensures !entered ==> State() == old(State())
      ensures Entering(State(), startBlock, first, if entered then settled - 1 else settled, end, tailIndex, headIndex) == true
      ensures base == (if entered then old(base) + 32 else old(base)) && |ring| == |old(ring)| && Foreign(blocks, ring)
      ensures entered ==> old(ring) != [] && ring == old(ring[1..] + [ring[0]])
    {
      hide Entering, Foreign, AllSet;
      entered := EmptyAhead(firstAllocated, startBlock, settled, end);
      first := firstAllocated;
      if entered {
        first := EnterAhead(currentTailIndex, firstAllocated, blocks, startBlock, settled, end);
      }
    }

    /** Enters the empty blocks ahead, as many as are needed and can be had; returns how far it came, the
        first block entered, how many of the oldest blocks were not touched, and how many are left to do. */
    method EnterBlocksAhead(blockBaseDiff: nat, ghost count: nat, ghost blocks: seq<BlockId>)
      returns (diff: int, currentTailIndex: int, firstAllocated: Option<BlockId>, ghost settled: nat, ghost left: nat)
      requires Entering(State(), tailBlock, None, |ring|, base + 32 * |ring|, tailIndex, headIndex) == true
      requires blockBaseDiff == 32 * count && Foreign(blocks, ring)
      modifies `tailBlock, `front, `ring, `base, `start, entries
      ensures Entering(State(), old(tailBlock), firstAllocated, settled, old(base + 32 * |ring|), tailIndex, headIndex) == true
      ensures settled <= |ring| && diff == 32 * left && settled + count == |ring| + left
      ensures left > 0 ==> !Reusable(State(), settled)
      ensures currentTailIndex == base + 32 * |ring| - 32 && Foreign(blocks, ring)
      ensures var n := Takeable(old(base), done, count);
        left == count - n && n <= old(|ring|) && ring == old(ring)[n..] + old(ring)[..n]
    {
      hide Entering, Foreign, BlockBase, Takeable, BlockRead, AllSet, Reusable, TurnedBy;
      EnteringStart(State(), tailIndex, headIndex);
      TurnedNone(ring, base, done, count);
      diff, settled, left, firstAllocated := blockBaseDiff, |ring|, count, None;
      currentTailIndex := BlockBase(tailIndex - 1);
      ghost var startBlock, end := tailBlock, base + 32 * |ring|;
      while diff > 0
        invariant Entering(State(), startBlock, firstAllocated, settled, end, tailIndex, headIndex) == true
        invariant settled <= |ring| && diff == 32 * left && settled + count == |ring| + left
        invariant currentTailIndex == base + 32 * |ring| - 32 && Foreign(blocks, ring)
        invariant |ring| == old(|ring|) && TurnedBy(old(ring), old(base), ring, base, done, count, left)
        decreases left
      {
        EnteringReusable(State(), startBlock, firstAllocated, settled, end, tailIndex, headIndex);
        ghost var was, from := ring, base;
        var entered;
        entered, firstAllocated := TryEnterAhead(currentTailIndex + 32, firstAllocated, blocks, startBlock, settled, end);
        if !entered {
          break;
        }
        TurnedNext(old(ring), old(base), was, from, done, count, left);
        diff, currentTailIndex := diff - 32, currentTailIndex + 32;
        settled, left := settled - 1, left - 1;
      }
      TurnedAll(old(ring), old(base), ring, base, done, count, left);
    }

    /** Makes the index larger when it is full, part of the way through. */
    method GrowEntering(filledSlotsToExpose: nat, ghost first: Option<BlockId>, ghost startBlock: Option<BlockId>, ghost settled: nat, ghost end: int)
      requires Entering(State(), startBlock, first, settled, end, tailIndex, headIndex)
      modifies `entries, `front, `published, `start
      ensures Entering(State(), startBlock, first, settled, end, tailIndex, headIndex) == true
      ensures slotsUsed < entries.Length && ring == old(ring)
      ensures entries == old(entries) || fresh(entries)
      ensures entries == old(entries) <==> old(slotsUsed < entries.Length)
    {
      if slotsUsed == entries.Length {
        NewBlockIndex(filledSlotsToExpose);
      }
    }

    /** Enters a new block. */
    method EnterNew(newBlock: BlockId, currentTailIndex: int, firstAllocated: Option<BlockId>, ghost startBlock: Option<BlockId>, ghost settled: nat, ghost end: int)
      returns (first: Option<BlockId>)
      requires Entering(State(), startBlock, firstAllocated, settled, end, tailIndex, headIndex) == true
      requires slotsUsed < entries.Length && newBlock !in ring && currentTailIndex == base + 32 * |ring|
      modifies `tailBlock, `next, `elements, `flags, `slotsUsed, `front, `ring, entries
      ensures Entering(State(), startBlock, first, settled, end, tailIndex, headIndex) == true
      ensures ring == old(ring) + [newBlock]
    {
      ghost var r := State();
      EnteringInserted(r, startBlock, firstAllocated, settled, end, tailIndex, headIndex, newBlock);
      TailBlockNext(r, settled);
      Insert(newBlock, Set(), currentTailIndex);
      first := if firstAllocated == None then tailBlock else firstAllocated;
    }

    /** Enters a new block, whether or not the index has a slot left. */
    method EnterGrown(newBlock: BlockId, currentTailIndex: int, originalSlotsUsed: nat, firstAllocated: Option<BlockId>,
                      ghost startBlock: Option<BlockId>, ghost settled: nat, ghost end: int)
      returns (first: Option<BlockId>)
      requires Entering(State(), startBlock, firstAllocated, settled, end, tailIndex, headIndex) == true
      requires newBlock !in ring && currentTailIndex == base + 32 * |ring|
      modifies `tailBlock, `next, `elements, `flags, `entries, `slotsUsed, `front, `published, `ring, `start, entries
      ensures Entering(State(), startBlock, first, settled, end, tailIndex, headIndex) == true
      ensures ring == old(ring) + [newBlock]
      ensures entries == old(entries) || fresh(entries)
    {
      GrowEntering(originalSlotsUsed, firstAllocated, startBlock, settled, end);
      first := EnterNew(newBlock, currentTailIndex, firstAllocated, startBlock, settled, end);
    }

    /** Enters new blocks, as many as are still needed. */
    method EnterNewBlocks(blockBaseDiff: int, ghost count: nat, lastBase: int, firstEntered: Option<BlockId>,
                          newBlocks: seq<BlockId>, ghost startBlock: Option<BlockId>, ghost settled: nat, ghost end: int)
      returns (firstAllocated: Option<BlockId>)
      requires Entering(State(), startBlock, firstEntered, settled, end, tailIndex, headIndex) == true
      requires blockBaseDiff == 32 * count && lastBase == base + 32 * |ring| - 32
      requires count <= |newBlocks| && Foreign(newBlocks, ring) && Distinct(newBlocks)
      modifies `tailBlock, `next, `elements, `flags, `entries, `slotsUsed, `front, `published, `ring, `start, entries
      ensures Entering(State(), startBlock, firstAllocated, settled, end, tailIndex, headIndex) == true
      ensures ring == old(ring) + newBlocks[..count]
      ensures entries == old(entries) || fresh(entries)
    {
      hide Entering;
      var originalSlotsUsed := slotsUsed;
      var diff, currentTailIndex, j := blockBaseDiff, lastBase, 0;
      firstAllocated := firstEntered;
      assert newBlocks[0..] == newBlocks;
      while diff > 0
        invariant Entering(State(), startBlock, firstAllocated, settled, end, tailIndex, headIndex) == true
        invariant 0 <= j <= count && diff == 32 * (count - j) && currentTailIndex == base + 32 * |ring| - 32
        invariant ring == old(ring) + newBlocks[..j] && Foreign(newBlocks[j..], ring)
        invariant entries == old(entries) || fresh(entries)
        decreases diff
      {
        ForeignNext(newBlocks, ring, j);
        diff := diff - 32;
        currentTailIndex := currentTailIndex + 32;
        firstAllocated := EnterGrown(newBlocks[j], currentTailIndex, originalSlotsUsed, firstAllocated, startBlock, settled, end);
        j := j + 1;
      }
    }

    /** Clears the flags of the blocks entered, from the first one to the tail block. */
    method ResetEntered(firstAllocated: BlockId, ghost settled: nat)
      requires Resetting(State(), settled, firstAllocated) && settled < |ring|
      modifies `flags
      ensures IndexGood(State()) && ElementsGood(State(), |ring|)
    {
      hide Resetting;
      var block := firstAllocated;
      ghost var k := settled;
      while true
        invariant Resetting(State(), k, block) && k < |ring|
        decreases |ring| - k
      {
        ghost var r := State();
        ResettingNext(r, k, block);
        ResetEmpty(block);
        assert State() == Cleared(r, k);
        if Some(block) == tailBlock {
          break;
        }
        block := next[block];
        k := k + 1;
      }
    }

    /** Constructs one element of many in the tail block. */
    method FillOne(currentTailIndex: nat, x: Value, ghost k: nat)
      requires Filling(State(), k, headIndex) && currentTailIndex == |log| < base + 32 * k + 32
      modifies `elements, `log, `home
      ensures Filling(State(), k, headIndex) == true
      ensures log == old(log) + [x]
    {
      ghost var r := State();
      FilledOne(r, k, headIndex, x);
      var block := tailBlock.value;
      elements := elements[block := elements[block][currentTailIndex % 32 := x]];
      log, home := log + [x], home + [block];
      assert State() == Written(r, k, x);
    }

    /** Constructs elements in the tail block, up to the index where to stop. */
    method FillBlock(items: seq<Value>, from: nat, startTailIndex: nat, stopIndex: nat, ghost k: nat)
      requires Filling(State(), k, headIndex) == true
      requires startTailIndex <= |log| == startTailIndex + from <= stopIndex <= startTailIndex + |items|
      requires stopIndex <= base + 32 * k + 32
      modifies `elements, `log, `home
      ensures Filling(State(), k, headIndex) == true
      ensures log == old(log) + items[from..stopIndex - startTailIndex]
    {
      hide Filling;
      var i := from;
      while startTailIndex + i != stopIndex
        invariant from <= i <= stopIndex - startTailIndex
        invariant Filling(State(), k, headIndex) == true
        invariant log == old(log) + items[from..i]
      {
        FillOne(startTailIndex + i, items[i], k);
        assert items[from..i + 1] == items[from..i] + [items[i]];
        i := i + 1;
      }
    }

    /** Goes on to the block after one that is full. */
    method NextToFill(ghost k: nat)
      requires Filling(State(), k, headIndex) == true && k < |ring| - 1 && |log| == base + 32 * k + 32
      modifies `tailBlock
      ensures Filling(State(), k + 1, headIndex) == true
    {
      FilledBlock(State(), k, headIndex);
      ghost var r := State();
      tailBlock := Some(next[tailBlock.value]);
      assert State() == r.(tailBlock := Some(r.next[r.ring[k]]));
    }

    /** Constructs the elements, block by block from block k on, up to the last block. */
    method FillBlocks(items: seq<Value>, startTailIndex: nat, endBlock: Option<BlockId>, ghost first: nat)
      requires Filling(State(), first, headIndex) == true && first < |ring| && items != []
      requires |log| == startTailIndex && base + 32 * first <= startTailIndex < base + 32 * first + 32
      requires base + 32 * |ring| - 32 < startTailIndex + |items| <= base + 32 * |ring|
      requires endBlock == Some(ring[|ring| - 1])
      modifies `tailBlock, `elements, `log, `home
      ensures Filling(State(), |ring| - 1, headIndex) == true
      ensures log == old(log) + items
    {
      hide Filling, BlockBase;
      var i := 0;
      ghost var k := first;
      var newTailIndex := startTailIndex + |items|;
      while true
        invariant first <= k < |ring| && 0 <= i < |items|
        invariant Filling(State(), k, headIndex) == true
        invariant log == old(log) + items[..i]
        invariant base + 32 * k <= startTailIndex + i < base + 32 * k + 32
        decreases |ring| - k
      {
        FillingBlock(State(), k, headIndex);
        var stopIndex := BlockBase(startTailIndex + i) + 32;
        if newTailIndex < stopIndex {
          stopIndex := newTailIndex;
        }
        FillBlock(items, i, startTailIndex, stopIndex, k);
        PrefixAppend(old(log), items, i, stopIndex - startTailIndex);
        i := stopIndex - startTailIndex;
        if tailBlock == endBlock {
          break;
        }
        NextToFill(k);
        k := k + 1;
      }
      assert items[..|items|] == items;
    }

    /** Enters all the blocks that the elements need, used ones first. */
    method EnterBlocks(blockBaseDiff: nat, ghost count: nat, newBlocks: seq<BlockId>)
      returns (firstAllocated: Option<BlockId>, ghost settled: nat)
      requires Entering(State(), tailBlock, None, |ring|, base + 32 * |ring|, tailIndex, headIndex) == true
      requires blockBaseDiff == 32 * count
      requires count <= |newBlocks| && Foreign(newBlocks, ring) && Distinct(newBlocks)
      modifies `tailBlock, `next, `elements, `flags, `entries, `slotsUsed, `front, `published, `ring, `base, `start, entries
      ensures Entering(State(), old(tailBlock), firstAllocated, settled, old(base + 32 * |ring|), tailIndex, headIndex) == true
      ensures settled + count == |ring|
      ensures ring == RingAfter(old(ring), old(base), done, count, newBlocks)
      ensures entries == old(entries) || fresh(entries)
    {
      hide Entering;
      ghost var startBlock, end := tailBlock, base + 32 * |ring|;
      var diff, currentTailIndex;
      ghost var left;
      diff, currentTailIndex, firstAllocated, settled, left := EnterBlocksAhead(blockBaseDiff, count, newBlocks);
      firstAllocated := EnterNewBlocks(diff, left, currentTailIndex, firstAllocated, newBlocks, startBlock, settled, end);
    }

    /** Enters the blocks, clears their flags and shows the index to the consumers. */
    method Prepare(blockBaseDiff: nat, ghost count: nat, newBlocks: seq<BlockId>)
      returns (firstAllocated: Option<BlockId>, ghost settled: nat)
      requires Entering(State(), tailBlock, None, |ring|, base + 32 * |ring|, tailIndex, headIndex) == true
      requires blockBaseDiff == 32 * count > 0
      requires count <= |newBlocks| && Foreign(newBlocks, ring) && Distinct(newBlocks)
      modifies `tailBlock, `next, `elements, `flags, `entries, `slotsUsed, `front, `published, `ring, `base, `start, entries
      ensures Prepared(State(), old(tailBlock), firstAllocated, settled, old(base + 32 * |ring|), tailIndex, headIndex) == true
      ensures settled + count == |ring|
      ensures ring == RingAfter(old(ring), old(base), done, count, newBlocks)
      ensures entries.Length > 0 && published == Wrap(front - 1, entries.Length)
      ensures entries == old(entries) || fresh(entries)
    {
      hide Entering, Resetting, IndexOk, RingOk, RingAfter;
      ghost var startBlock, end := tailBlock, base + 32 * |ring|;
      firstAllocated, settled := EnterBlocks(blockBaseDiff, count, newBlocks);
      ghost var r := State();
      ResettingStart(r, startBlock, firstAllocated, settled, end, tailIndex, headIndex);
      ResetEntered(firstAllocated.value, settled);
      assert State() == r.(flags := flags);
      PreparedFrom(r, startBlock, firstAllocated, settled, end, tailIndex, headIndex, flags);
      published := Wrap(front - 1, entries.Length);
    }

    /** Goes to the block where filling starts; endBlock is where it ends. */
    method StartFilling(startBlock: Option<BlockId>, firstAllocated: Option<BlockId>, ghost settled: nat, ghost end: int)
      returns (endBlock: Option<BlockId>, ghost first: nat)
      requires Prepared(State(), startBlock, firstAllocated, settled, end, tailIndex, headIndex) == true
      requires |ring| > 0 && (tailIndex == end ==> settled < |ring|)
      modifies `tailBlock
      ensures Filling(State(), first, headIndex) == true && first < |ring| && endBlock == Some(ring[|ring| - 1])
      ensures |log| == tailIndex && base + 32 * first <= tailIndex < base + 32 * first + 32
    {
      hide Prepared, Filling, FirstToFill;
      ghost var r := State();
      first := FillingStart(r, startBlock, firstAllocated, settled, end, tailIndex, headIndex);
      endBlock := tailBlock;
      tailBlock := FirstToFill(startBlock, firstAllocated, tailIndex);
      assert State() == r.(tailBlock := tailBlock);
    }

    /** Fills the blocks that are prepared and moves the tail past the elements. */
    method FillPrepared(items: seq<Value>, startBlock: Option<BlockId>, firstAllocated: Option<BlockId>,
                        ghost settled: nat, ghost end: int)
      requires Prepared(State(), startBlock, firstAllocated, settled, end, tailIndex, headIndex) == true
      requires |ring| > 0 && entries.Length > 0 && published == Wrap(front - 1, entries.Length)
      requires items != [] && base + 32 * |ring| - 32 < tailIndex + |items| <= base + 32 * |ring|
      requires tailIndex == end ==> settled < |ring|
      modifies `tailBlock, `elements, `log, `home, `tailIndex
      ensures Good(State(), tailIndex, headIndex, published) == true
      ensures log == old(log) + items && tailIndex == old(tailIndex) + |items|
    {
      hide Prepared, Filling, Good, Wrap;
      ghost var first;
      var endBlock;
      endBlock, first := StartFilling(startBlock, firstAllocated, settled, end);
      FillBlocks(items, tailIndex, endBlock, first);
      FillingDone(State(), headIndex, published);
      tailIndex := tailIndex + |items|;
    }

    /** Appends all the items; newBlocks are what the pool hands out, should blocks be needed. */
    method EnqueueBulk(items: seq<Value>, newBlocks: seq<BlockId>)
      requires Valid()
      requires BlockStarts(tailIndex, |items|) <= |newBlocks| && Foreign(newBlocks, ring) && Distinct(newBlocks)
      modifies this, entries
      ensures Valid() && log == old(log) + items && tailIndex == old(tailIndex) + |items|
      ensures headIndex == old(headIndex) && done == old(done)
      ensures ring == RingAfter(old(ring), old(base), done, BlockStarts(old(tailIndex), |items|), newBlocks)
      ensures entries == old(entries) || fresh(entries)
    {
      hide Entering, Prepared, Good, Foreign, Distinct, BlockStarts, Wrap, RingAfter;
      NoBlockStarts(tailIndex);
      RingNone(ring, base, done, newBlocks);
      if items == [] {
        return;  // all loops are empty
      }
      ghost var settled, end := |ring|, base + 32 * |ring|;
      var startBlock, firstAllocated := tailBlock, None;
      ghost var count := BlockStarts(tailIndex, |items|);
      BaseDiff(tailIndex, |items|);
      GoodEntering(State(), tailIndex, headIndex, published);
      var blockBaseDiff := BlockBase(tailIndex + |items| - 1) - BlockBase(tailIndex - 1);
      if blockBaseDiff > 0 {
        firstAllocated, settled := Prepare(blockBaseDiff, count, newBlocks);
      }
      PreparedFacts(State(), startBlock, firstAllocated, settled, end, tailIndex, headIndex);
      FillPrepared(items, startBlock, firstAllocated, settled, end);
    }

    /** The same items one after the other, with the same new blocks: it comes to the same. */
    method EnqueueEach(items: seq<Value>, newBlocks: seq<BlockId>)
      requires Valid()
      requires BlockStarts(tailIndex, |items|) <= |newBlocks| && Foreign(newBlocks, ring) && Distinct(newBlocks)
      modifies this, entries
      ensures Valid() && log == old(log) + items && tailIndex == old(tailIndex) + |items|
      ensures headIndex == old(headIndex) && done == old(done)
      ensures entries == old(entries) || fresh(entries)
    {
      hide Good, Foreign, RingStep, BlockStarts;
      NoBlockStarts(tailIndex);
      assert newBlocks[0..] == newBlocks;
      ghost var from := tailIndex;
      var n, j := 0, 0;
      while n < |items|
        invariant Valid() && headIndex == old(headIndex) && done == old(done)
        invariant n <= |items| && log == old(log) + items[..n] && tailIndex == from + n
        invariant j == BlockStarts(from, n) <= |newBlocks| && Foreign(newBlocks[j..], ring)
        invariant entries == old(entries) || fresh(entries)
      {
        BlockStartsMono(from, n + 1, |items|);
        BlockStartsNext(from, n);
        ghost var before := ring;
        if tailIndex % 32 == 0 {
          ForeignNext(newBlocks, ring, j);
          Enqueue(items[n], newBlocks[j]);
          ForeignStep(newBlocks, before, ring, j);
          j := j + 1;
        } else {
          Enqueue(items[n], 0);
        }
        assert items[..n] + [items[n]] == items[..n + 1];
        n := n + 1;
      }
    }
  }
}
