/**
 One implicit producer and its consumers, access by access (Common/concurrentqueue.h): the producer inserts
 entries into the block index, takes blocks from the pool and undoes both when an allocation fails, while
 consumers look up blocks, count their elements and give empty ones back to the pool.

 `enqueue` is `enqueue_bulk` of one value: the same accesses in the same order.  Loads by the producer of what
 only the producer stores are no steps of their own.  Blocks are numbered in the order in which they are
 filled, as in module ExplicitRuns.  Elements are constructed without exceptions.
 */
module ImplicitRuns {
  import opened Blocks
  import opened Claims
  import opened Modular
  import opened Options
  import C = DequeueCounters

  type EntryId = nat

  /** No block starts at an odd index. */
  const INVALID_BLOCK_BASE := 1

  /** A block index: pointers to entries, and the slot of the tail.  `shift`, `high` and `newest` are auxiliary:
      where block number 0 would be, the first number never entered, and the number at the tail. */
  datatype Header = Header(size: Size, index: map<int, EntryId>, tail: int, shift: int, high: nat, newest: int)

  /** An enqueue operation: its values, the number of blocks still needed, and the chain of those it has got. */
  datatype Op = Op(values: seq<Value>, need: nat, chain: seq<BlockId>)

  /** Where the producer stands; `e` is the entry to be used, `at` the place in the chain, -1 for the tail block
      of before. */
  datatype Producing =
    | Ready
    | LoadEntry(op: Op)
    | Grow(op: Op)
    | SetKey(op: Op, e: EntryId)
    | SetTail(op: Op, e: EntryId)
    | Requisition(op: Op, e: EntryId)
    | Reset(op: Op, e: EntryId, b: BlockId)
    | SetValue(op: Op, e: EntryId, b: BlockId)
    | Rewind(op: Op, e: EntryId)
    | ClearValue(op: Op, e: EntryId)
    | Undo(op: Op, k: nat)
    | UndoTail(op: Op, k: nat)
    | Write(op: Op, at: int, k: nat)
    | StoreTail(op: Op)

  /** Keys and values of the entries, elements and counters of the blocks.  Auxiliary: the blocks handed out and
      not given back, the values written, the block of every block number, the oldest number in the index, and
      the numbers whose entry was cleared and whose block was given back. */
  datatype Producer = Producer(
    older: seq<Header>,
    current: Header,
    keys: map<EntryId, int>,
    values: map<EntryId, Option<BlockId>>,
    nextEntry: EntryId,
    elements: map<Cell, Value>,
    counts: map<BlockId, nat>,
    tailBlock: BlockId,
    producing: Producing,
    out: set<BlockId>,
    log: seq<Value>,
    home: seq<BlockId>,
    low: nat,
    cleared: set<nat>,
    back: set<nat>)

  /** Where a consumer stands that has claimed indices; `newest` is auxiliary. */
  datatype Look =
    | LoadIndex
    | LoadTail(h: nat)
    | LoadKey(h: nat, tail: int, newest: int)
    | LoadValue(h: nat, slot: int, next: nat)
    | ReadElement(h: nat, slot: int, block: BlockId, from: nat, next: nat)
    | Count(h: nat, slot: int, block: BlockId, from: nat, end: nat)
    | ClearEntry(h: nat, slot: int, block: BlockId, from: nat, end: nat)
    | FreeBlock(h: nat, slot: int, block: BlockId, from: nat, end: nat)
    | Finished

  /** Auxiliary: the values taken out, in the order of the accesses, the indices that were counted, and who
      counted the last one of a block number. */
  datatype State = State(c: C.State, p: Producer, looks: map<Tid, Look>, taken: seq<Taken>, done: set<nat>, holder: map<nat, Tid>)

  /** `block` is what the pool hands out, if it is asked, and `canAlloc` whether an index can be allocated. */
  datatype Action = Start(values: seq<Value>) | Produce(block: Option<BlockId>, canAlloc: bool) | Consume(a: C.Action)

  // ---------------------------------------------------------------- the producer's accesses

  function Slot(h: Header, n: int): int {
    Wrap(n + h.shift, h.size)
  }

  function At(p: Producer, h: nat): Header {
    if h < |p.older| then p.older[h] else p.current
  }

  function EntryAt(h: Header, slot: int): EntryId {
    if slot in h.index then h.index[slot] else 0
  }

  function KeyOf(keys: map<EntryId, int>, e: EntryId): int {
    if e in keys then keys[e] else 0
  }

  function ValueOf(values: map<EntryId, Option<BlockId>>, e: EntryId): Option<BlockId> {
    if e in values then values[e] else None
  }

  function CountOf(counts: map<BlockId, nat>, b: BlockId): nat {
    if b in counts then counts[b] else 0
  }

  /** get_block_index_index_for_index: from the tail, as many slots back as the bases are blocks apart. */
  function SlotFor(h: Header, tail: int, tailBase: int, index: int): int {
    Wrap(tail + (BlockBase(index) - tailBase) / 32, h.size)
  }

  /** Elements go to the tail block of before, or to the first new one when that is full. */
  function Fill(op: Op, tail: nat): Producing {
    if op.values == [] then StoreTail(op) else Write(op, if tail % 32 == 0 then 0 else -1, 0)
  }

  function Started(p: Producer, values: seq<Value>, tail: nat): Producer {
    var need := BlockStarts(tail, |values|);
    var op := Op(values, need, []);
    p.(producing := if need > 0 then LoadEntry(op) else Fill(op, tail))
  }

  function NextTail(h: Header): int {
    Wrap(h.tail + 1, h.size)
  }

  function CopiedEntry(h: Header, nextEntry: EntryId, k: int): EntryId {
    if k < h.size then EntryAt(h, Wrap(h.tail + 1 + k, h.size)) else nextEntry + k - h.size
  }

  /** new_block_index: the pointers of before, from the one after the tail on, and as many new entries. */
  function Larger(h: Header, nextEntry: EntryId, low: nat): Header {
    Header(2 * h.size,
           map k: int | 0 <= k < 2 * h.size :: CopiedEntry(h, nextEntry, k),
           h.size - 1, 0 - low, h.high, h.newest)
  }

  function NewKeys(keys: map<EntryId, int>, nextEntry: EntryId, size: nat): map<EntryId, int> {
    keys + map e | e in Range(nextEntry, size) :: INVALID_BLOCK_BASE
  }

  function Grown(p: Producer, op: Op): Producer {
    var h := Larger(p.current, p.nextEntry, p.low);
    p.(older := p.older + [p.current], current := h, nextEntry := p.nextEntry + p.current.size,
       keys := NewKeys(p.keys, p.nextEntry, p.current.size), producing := SetKey(op, EntryAt(h, NextTail(h))))
  }

  function BlockAt(p: Producer, op: Op, at: int): BlockId {
    if 0 <= at < |op.chain| then op.chain[at] else p.tailBlock
  }

  function LastBlock(p: Producer, op: Op): BlockId {
    BlockAt(p, op, |op.chain| - 1)
  }

  /** The base of the k-th block of the chain. */
  function ChainBase(tail: nat, k: nat): int {
    BlockBase(tail - 1) + 32 * (k + 1)
  }

  /** The key of the next block is set.  When its entry was that of the oldest number, this number leaves the index. */
  function Keyed(p: Producer, op: Op, e: EntryId, tail: nat): Producer {
    p.(keys := p.keys[e := ChainBase(tail, |op.chain|)], producing := SetTail(op, e),
       low := if |p.home| == p.low + p.current.size then p.low + 1 else p.low,
       current := p.current.(high := if p.current.high > |p.home| then p.current.high else |p.home| + 1))
  }

  /** The entry of the k-th block of the chain, found by a lookup. */
  function UndoEntry(p: Producer, tail: nat, k: nat): EntryId {
    EntryAt(p.current, SlotFor(p.current, p.current.tail, KeyOf(p.keys, EntryAt(p.current, p.current.tail)), ChainBase(tail, k)))
  }

  function Rewound(h: Header): Header {
    h.(tail := Wrap(h.tail - 1, h.size), newest := h.newest - 1)
  }

  /** One access of the producer. */
  function ProducerStep(p: Producer, tail: nat, block: Option<BlockId>, canAlloc: bool): Producer {
    match p.producing
    case Ready => p
    case LoadEntry(op) =>
      var e := EntryAt(p.current, NextTail(p.current));
      p.(producing := if KeyOf(p.keys, e) == INVALID_BLOCK_BASE || ValueOf(p.values, e) == None then SetKey(op, e) else Grow(op))
    case Grow(op) => if canAlloc then Grown(p, op) else p.(producing := Undo(op, 0))
    case SetKey(op, e) => Keyed(p, op, e, tail)
    case SetTail(op, e) =>
      p.(current := p.current.(tail := NextTail(p.current), newest := p.current.newest + 1), producing := Requisition(op, e))
    case Requisition(op, e) =>
      if block.Some? then p.(out := p.out + {block.value}, producing := Reset(op, e, block.value))
      else p.(producing := Rewind(op, e))
    case Reset(op, e, b) => p.(counts := p.counts[b := 0], producing := SetValue(op, e, b))
    case SetValue(op, e, b) =>
      var op' := op.(chain := op.chain + [b], need := if op.need > 0 then op.need - 1 else 0);
      p.(values := p.values[e := Some(b)], home := p.home + [b],
         producing := if op'.need > 0 then LoadEntry(op') else Fill(op', tail))
    case Rewind(op, e) => p.(current := Rewound(p.current), producing := ClearValue(op, e))
    case ClearValue(op, e) => p.(values := p.values[e := None], producing := Undo(op, 0))
    case Undo(op, k) =>
      if k < |op.chain| then p.(values := p.values[UndoEntry(p, tail, k) := None], producing := UndoTail(op, k))
      else p.(out := p.out - (set b | b in op.chain), producing := Ready,
              home := if |op.chain| <= |p.home| then p.home[..|p.home| - |op.chain|] else [])
    case UndoTail(op, k) => p.(current := Rewound(p.current), producing := Undo(op, k + 1))
    case Write(op, at, k) =>
      if k < |op.values| then
        p.(elements := p.elements[Cell(BlockAt(p, op, at), (tail + k) % 32) := op.values[k]], log := p.log + [op.values[k]],
           producing := Write(op, if (tail + k + 1) % 32 == 0 then at + 1 else at, k + 1))
      else p.(producing := StoreTail(op))
    case StoreTail(op) => p.(tailBlock := LastBlock(p, op), producing := Ready)
  }

  // ---------------------------------------------------------------- the consumers' accesses

  /** After a block: the next one, or the return. */
  function Advance(h: Header, k: nat, slot: int, end: nat, lim: nat): Look {
    if end == lim then Finished else LoadValue(k, Wrap(slot + 1, h.size), end)
  }

  /** One access of consumer t, which has claimed the indices from first on and below lim.  No block has address 0. */
  function LookStep(s: State, t: Tid, look: Look, first: nat, lim: nat): State {
    match look
    case LoadIndex => s.(looks := s.looks[t := LoadTail(|s.p.older|)])
    case LoadTail(h) => s.(looks := s.looks[t := LoadKey(h, At(s.p, h).tail, At(s.p, h).newest)])
    case LoadKey(h, tail, _) =>
      var tailBase := KeyOf(s.p.keys, EntryAt(At(s.p, h), tail));
      s.(looks := s.looks[t := LoadValue(h, SlotFor(At(s.p, h), tail, tailBase, first), first)])
    case LoadValue(h, slot, next) =>
      var block := ValueOf(s.p.values, EntryAt(At(s.p, h), slot));
      s.(looks := s.looks[t := ReadElement(h, slot, if block.Some? then block.value else 0, next, next)])
    case ReadElement(h, slot, block, from, next) =>
      if next < End(from, lim) then
        s.(taken := s.taken + [Taken(next, ElementIn(s.p.elements, Cell(block, next % 32)))],
           looks := s.looks[t := ReadElement(h, slot, block, from, next + 1)])
      else s.(looks := s.looks[t := Count(h, slot, block, from, next)])
    case Count(h, slot, block, from, end) =>
      var count := CountOf(s.p.counts, block) + if end >= from then end - from else 0;
      s.(p := s.p.(counts := s.p.counts[block := count]), done := s.done + Range(from, if end >= from then end - from else 0),
         holder := if count == 32 then s.holder[from / 32 := t] else s.holder,
         looks := s.looks[t := if count == 32 then ClearEntry(h, slot, block, from, end) else Advance(At(s.p, h), h, slot, end, lim)])
    case ClearEntry(h, slot, block, from, end) =>
      s.(p := s.p.(values := s.p.values[EntryAt(At(s.p, h), slot) := None], cleared := s.p.cleared + {from / 32}),
         looks := s.looks[t := FreeBlock(h, slot, block, from, end)])
    case FreeBlock(h, slot, block, from, end) =>
      s.(p := s.p.(out := s.p.out - {block}, back := s.p.back + {from / 32}),
         looks := s.looks[t := Advance(At(s.p, h), h, slot, end, lim)])
    case Finished => s
  }

  /** A bulk dequeue of no element takes no step here after the counters. */
  function ConsumerStep(s: State, a: C.Action): State
    requires C.Enabled(s.c, a)
  {
    if a.Run? && Reading(s.c, a.t) && a.t in s.looks && !s.looks[a.t].Finished? then
      LookStep(s, a.t, s.looks[a.t], s.c.pcs[a.t].first, s.c.pcs[a.t].first + s.c.pcs[a.t].actual)
    else if a.Run? && s.c.pcs[a.t].AddHead? then
      s.(c := C.Apply(s.c, a), looks := s.looks[a.t := if s.c.pcs[a.t].actual > 0 then LoadIndex else Finished])
    else s.(c := C.Apply(s.c, a))
  }

  // ---------------------------------------------------------------- runs

  /** The pool hands out a block only after it was given back. */
  predicate Enabled(s: State, a: Action) {
    match a
    case Start(_) => s.p.producing.Ready?
    case Produce(block, _) => !s.p.producing.Ready? && (s.p.producing.Requisition? && block.Some? ==> block.value !in s.p.out)
    case Consume(a) => !a.Enqueue? && C.Enabled(s.c, a)
  }

  function Apply(s: State, a: Action): State
    requires Enabled(s, a)
  {
    match a
    case Start(values) => s.(p := Started(s.p, values, s.c.tail))
    case Produce(block, canAlloc) =>
      var s' := s.(p := ProducerStep(s.p, s.c.tail, block, canAlloc));
      if s.p.producing.StoreTail? then s'.(c := C.Apply(s.c, C.Enqueue(|s.p.producing.op.values|))) else s'
    case Consume(a) => ConsumerStep(s, a)
  }

  /** The constructor: an index of new entries. */
  predicate InitialProducer(p: Producer) {
    && p.older == [] && p.producing.Ready? && p.out == {}
    && p.log == [] && p.home == [] && p.low == 0 && p.cleared == {} && p.back == {}
    && var h := p.current;
       && (forall k :: 0 <= k < h.size ==> k in h.index && h.index[k] == k && k in p.keys && p.keys[k] == INVALID_BLOCK_BASE)
       && p.nextEntry == h.size
       && h.tail == h.size - 1 && h.shift == 0 && h.high == 0 && h.newest == -1
  }

  predicate Init(s: State) {
    C.Init(s.c) && s.taken == [] && s.done == {} && s.holder == map[] && InitialProducer(s.p)
  }

  predicate CanRun(s: State, actions: seq<Action>)
    decreases |actions|
  {
    actions == [] || (Enabled(s, actions[0]) && CanRun(Apply(s, actions[0]), actions[1..]))
  }

  function Exec(s: State, actions: seq<Action>): State
    requires CanRun(s, actions)
    decreases |actions|
  {
    if actions == [] then s else Exec(Apply(s, actions[0]), actions[1..])
  }

  // ---------------------------------------------------------------- the producer's invariant

  /** All elements of a block number were counted. */
  ghost predicate Complete(done: set<nat>, n: nat) {
    forall i: nat :: 32 * n <= i < 32 * n + 32 ==> i in done
  }

  /** How many of the first k elements of a block number were counted. */
  ghost function Counted(done: set<nat>, n: nat, k: nat): nat {
    if k == 0 then 0 else Counted(done, n, k - 1) + if 32 * n + k - 1 in done then 1 else 0
  }

  function EntryOf(p: Producer, n: int): EntryId {
    EntryAt(p.current, Slot(p.current, n))
  }

  /** An index, published or replaced, leads to the entries of all numbers from the oldest one of now on. */
  ghost predicate HeaderOk(p: Producer, h: Header) {
    && -1 <= h.newest < h.high <= p.current.high
    && (forall n :: p.low <= n < h.high ==> EntryAt(h, Slot(h, n)) == EntryOf(p, n))
    && h.tail == Slot(h, h.newest)
  }

  /** The entries of the current index are different ones. */
  ghost predicate IndexOk(p: Producer) {
    && (forall k :: 0 <= k < p.current.size ==> k in p.current.index && p.current.index[k] < p.nextEntry)
    && (forall j, k :: 0 <= j < k < p.current.size ==> p.current.index[j] != p.current.index[k])
  }

  ghost predicate HeadersOk(p: Producer) {
    && (forall k :: 0 <= k < |p.older| ==> HeaderOk(p, p.older[k]))
    && HeaderOk(p, p.current)
  }

  /** Entries have the base of their number as key, or no valid one before they are first used. */
  ghost predicate KeysOk(p: Producer) {
    && (forall n :: p.low <= n < p.current.high ==> EntryOf(p, n) in p.keys && p.keys[EntryOf(p, n)] == 32 * n)
    && (forall n :: p.current.high <= n < p.low + p.current.size ==>
          EntryOf(p, n) in p.keys && p.keys[EntryOf(p, n)] == INVALID_BLOCK_BASE)
  }

  /** The numbers that the operation under way has not entered, or has not taken out again yet. */
  function Settled(producing: Producing, count: nat): int {
    match producing
    case Undo(op, _) => count - |op.chain|
    case UndoTail(op, _) => count - |op.chain|
    case _ => count
  }

  predicate Vacant(producing: Producing, count: nat, n: int) {
    match producing
    case SetKey(_, _) => n > count
    case SetTail(_, _) => n > count
    case Requisition(_, _) => n > count
    case Reset(_, _, _) => n > count
    case SetValue(_, _, _) => n > count
    case Rewind(_, _) => n > count
    case ClearValue(_, _) => n > count
    case Undo(op, k) => n >= count || count - |op.chain| <= n < count - |op.chain| + k
    case UndoTail(op, k) => n >= count || count - |op.chain| <= n < count - |op.chain| + k + 1
    case _ => n >= count
  }

  /** Entries have the block of their number until that is empty, and none when there is no block. */
  ghost predicate ValuesOk(p: Producer) {
    && (forall n :: p.low <= n < Settled(p.producing, |p.home|) && n < |p.home| ==>
          && EntryOf(p, n) in p.values
          && p.values[EntryOf(p, n)] == if n in p.cleared then None else Some(p.home[n]))
    && (forall n :: p.low <= n < p.current.high && Vacant(p.producing, |p.home|, n) ==> ValueOf(p.values, EntryOf(p, n)) == None)
  }

  predicate Stored(p: Producer, i: int)
    requires 0 <= i < |p.log|
  {
    i / 32 < |p.home| && Cell(p.home[i / 32], i % 32) in p.elements && p.elements[Cell(p.home[i / 32], i % 32)] == p.log[i]
  }

  ghost predicate StoredOk(p: Producer, done: set<nat>) {
    forall i: nat :: i < |p.log| && i !in done ==> Stored(p, i)
  }

  /** Numbers that left the index were cleared, cleared ones are empty, and blocks go back after that. */
  ghost predicate DoneOk(p: Producer, done: set<nat>, tail: nat) {
    && (forall n: nat :: n < p.low ==> n in p.cleared)
    && (forall n :: n in p.cleared ==> Complete(done, n))
    && p.back <= p.cleared
    && (forall i :: i in done ==> i < tail)
  }

  /** The counters of the blocks that are out. */
  ghost predicate CountsOk(p: Producer, done: set<nat>) {
    forall n: nat :: n < |p.home| && n !in p.back ==> p.home[n] in p.counts && p.counts[p.home[n]] == Counted(done, n, 32)
  }

  ghost predicate BlocksOk(p: Producer) {
    && (forall n: nat :: n < |p.home| && n !in p.back ==> p.home[n] in p.out)
    && (forall n: nat, m: nat :: n < m < |p.home| && n !in p.back && m !in p.back ==> p.home[n] != p.home[m])
  }

  /** A block that was handed out and is not in use yet. */
  ghost predicate NewBlock(p: Producer, b: BlockId) {
    b in p.out && forall n: nat :: n < |p.home| && n !in p.back ==> p.home[n] != b
  }

  /** An operation between two of its accesses; `newest` is the number at the tail of the index, counted from
      the last block. */
  predicate OpOk(p: Producer, op: Op, tail: nat, newest: int) {
    var start := |p.home| - |op.chain|;
    && 0 <= start && p.home[start..] == op.chain
    && 32 * start - 32 < tail <= 32 * start
    && (tail % 32 != 0 ==> start > 0 && p.tailBlock == p.home[start - 1])
    && (op.values == [] ==> op.need == 0 && op.chain == [])
    && (op.values != [] ==> 32 * (|p.home| + op.need) - 32 < tail + |op.values| <= 32 * (|p.home| + op.need))
    && p.current.newest == |p.home| - 1 + newest
  }

  /** The entry for the next block. */
  predicate NextOk(p: Producer, e: EntryId) {
    e == EntryOf(p, |p.home|) && p.low <= |p.home| < p.low + p.current.size
  }

  predicate AfterKey(p: Producer, op: Op, e: EntryId) {
    op.need > 0 && NextOk(p, e) && |p.home| < p.current.high
  }

  ghost predicate PlaceOk(p: Producer, tail: nat) {
    match p.producing
    case Ready =>
      && |p.log| == tail && 32 * |p.home| - 32 < tail <= 32 * |p.home| && p.current.newest == |p.home| - 1
      && (tail % 32 != 0 ==> |p.home| > 0 && p.tailBlock == p.home[|p.home| - 1])
    case LoadEntry(op) => OpOk(p, op, tail, 0) && |p.log| == tail && op.need > 0
    case Grow(op) => OpOk(p, op, tail, 0) && |p.log| == tail && op.need > 0 && |p.home| == p.low + p.current.size
    case SetKey(op, e) =>
      && OpOk(p, op, tail, 0) && |p.log| == tail && op.need > 0
      && e == EntryOf(p, |p.home|) && p.low <= |p.home| <= p.low + p.current.size
      && (|p.home| == p.low + p.current.size ==> p.low in p.cleared)
    case SetTail(op, e) => OpOk(p, op, tail, 0) && |p.log| == tail && AfterKey(p, op, e)
    case Requisition(op, e) => OpOk(p, op, tail, 1) && |p.log| == tail && AfterKey(p, op, e)
    case Reset(op, e, b) => OpOk(p, op, tail, 1) && |p.log| == tail && AfterKey(p, op, e) && NewBlock(p, b)
    case SetValue(op, e, b) =>
      OpOk(p, op, tail, 1) && |p.log| == tail && AfterKey(p, op, e) && NewBlock(p, b) && b in p.counts && p.counts[b] == 0
    case Rewind(op, e) => OpOk(p, op, tail, 1) && |p.log| == tail && AfterKey(p, op, e)
    case ClearValue(op, e) => OpOk(p, op, tail, 0) && |p.log| == tail && AfterKey(p, op, e)
    case Undo(op, k) => OpOk(p, op, tail, 0 - k) && |p.log| == tail && k <= |op.chain|
    case UndoTail(op, k) => OpOk(p, op, tail, 0 - k) && |p.log| == tail && k < |op.chain|
    case Write(op, at, k) =>
      && OpOk(p, op, tail, 0) && op.need == 0 && k <= |op.values|
      && |p.log| == tail + k && p.log[tail..] == op.values[..k]
      && (k < |op.values| ==> at == (tail + k) / 32 - (|p.home| - |op.chain|))
    case StoreTail(op) => OpOk(p, op, tail, 0) && op.need == 0 && |p.log| == tail + |op.values| && p.log[tail..] == op.values
  }

  /** Numbers of the index that are entered or were. */
  ghost predicate WindowOk(p: Producer, tail: nat) {
    && 32 * p.low <= tail && |p.home| <= p.current.high <= p.low + p.current.size
  }

  ghost predicate ProducerOk(p: Producer, done: set<nat>, tail: nat) {
    && HeadersOk(p) && IndexOk(p) && KeysOk(p) && ValuesOk(p) && StoredOk(p, done) && DoneOk(p, done, tail)
    && CountsOk(p, done) && BlocksOk(p) && WindowOk(p, tail) && PlaceOk(p, tail)
  }

  // ---------------------------------------------------------------- slots and entries

  lemma SlotsDiffer(p: Producer, n: int, m: int)
    requires IndexOk(p) && (n < m < n + p.current.size || m < n < m + p.current.size)
    ensures EntryOf(p, n) != EntryOf(p, m)
  {
    if n < m {
      WrapUnique(m + p.current.shift, n + p.current.shift, p.current.size);
    } else {
      WrapUnique(n + p.current.shift, m + p.current.shift, p.current.size);
    }
    var j, k := Slot(p.current, n), Slot(p.current, m);
    assert j < k || k < j;
  }

  lemma NextSlotIs(h: Header, n: int)
    ensures Wrap(Slot(h, n) + 1, h.size) == Slot(h, n + 1)
    ensures Wrap(Slot(h, n) - 1, h.size) == Slot(h, n - 1)
  {
    WrapShift(n + h.shift, 1, h.size);
    WrapShift(n + h.shift, -1, h.size);
    assert n + h.shift + 1 == n + 1 + h.shift && n + h.shift - 1 == n - 1 + h.shift;
    assert Slot(h, n) + -1 == Slot(h, n) - 1;
  }

  /** From a number on, whichever it is, the slot of an index is as many slots on as it is blocks. */
  lemma OffsetFinds(h: Header, newest: int, base: int, i: int, n: int)
    requires base == 32 * newest && 32 * n <= i < 32 * n + 32
    ensures SlotFor(h, Slot(h, newest), base, i) == Slot(h, n)
  {
    hide Wrap;
    assert BlockBase(i) == 32 * n;
    assert (BlockBase(i) - base) / 32 == n - newest;
    WrapShift(newest + h.shift, n - newest, h.size);
    assert newest + h.shift + (n - newest) == n + h.shift;
  }

  lemma BaseIs(tail: nat, start: nat, k: nat)
    requires 32 * start - 32 < tail <= 32 * start
    ensures BlockBase(tail - 1) == 32 * (start - 1) && ChainBase(tail, k) == 32 * (start + k)
  {
  }

  // ---------------------------------------------------------------- what steps leave alone

  predicate SameIndex(p: Producer, p': Producer) {
    p'.older == p.older && p'.current.size == p.current.size && p'.current.shift == p.current.shift && p'.current.index == p.current.index
  }

  lemma EntriesSame(p: Producer, p': Producer)
    requires SameIndex(p, p')
    ensures forall n: int :: EntryOf(p', n) == EntryOf(p, n)
    ensures forall n: int :: Slot(p'.current, n) == Slot(p.current, n)
  {
  }

  lemma HeadersKept(p: Producer, p': Producer)
    requires HeadersOk(p) && SameIndex(p, p') && p.low <= p'.low && p.current.high <= p'.current.high
    requires -1 <= p'.current.newest < p'.current.high && p'.current.tail == Slot(p'.current, p'.current.newest)
    ensures HeadersOk(p')
  {
    hide EntryOf, Slot;
    EntriesSame(p, p');
    forall k | 0 <= k < |p.older|
      ensures HeaderOk(p', p'.older[k])
    {
      assert HeaderOk(p, p.older[k]);
    }
    CurrentHeader(p');
  }

  lemma CurrentHeader(p: Producer)
    requires -1 <= p.current.newest < p.current.high && p.current.tail == Slot(p.current, p.current.newest)
    ensures HeaderOk(p, p.current)
  {
  }

  lemma IndexKept(p: Producer, p': Producer)
    requires IndexOk(p) && SameIndex(p, p') && p.nextEntry == p'.nextEntry
    ensures IndexOk(p')
  {
  }

  lemma KeysKept(p: Producer, p': Producer)
    requires KeysOk(p) && SameIndex(p, p') && p'.keys == p.keys && p'.low == p.low && p'.current.high == p.current.high
    ensures KeysOk(p')
  {
    hide EntryOf;
    EntriesSame(p, p');
  }

  lemma ValuesKept(p: Producer, p': Producer)
    requires ValuesOk(p) && SameIndex(p, p') && p'.values == p.values && p'.home == p.home && p'.cleared == p.cleared && p.low <= p'.low
    requires Settled(p'.producing, |p.home|) <= Settled(p.producing, |p.home|)
    requires forall n :: p'.low <= n < p'.current.high && Vacant(p'.producing, |p.home|, n) ==>
               n < p.current.high && Vacant(p.producing, |p.home|, n)
    ensures ValuesOk(p')
  {
    hide EntryOf, Vacant, Settled;
    EntriesSame(p, p');
  }

  lemma StoredKept(p: Producer, p': Producer, done: set<nat>)
    requires StoredOk(p, done) && p.home <= p'.home && p'.log == p.log && p'.elements == p.elements
    ensures StoredOk(p', done)
  {
    forall i: nat | i < |p'.log| && i !in done
      ensures Stored(p', i)
    {
      assert Stored(p, i);
    }
  }

  lemma DoneKept(p: Producer, p': Producer, done: set<nat>, tail: nat)
    requires DoneOk(p, done, tail) && p'.low == p.low && p'.cleared == p.cleared && p'.back == p.back
    ensures DoneOk(p', done, tail)
  {
  }

  lemma BlocksKept(p: Producer, p': Producer, done: set<nat>)
    requires CountsOk(p, done) && BlocksOk(p) && p'.home == p.home && p'.back == p.back && p'.counts == p.counts && p.out <= p'.out
    ensures CountsOk(p', done) && BlocksOk(p')
  {
  }

  /** Numbers from the tail on are not complete. */
  lemma NotComplete(p: Producer, done: set<nat>, tail: nat, n: nat)
    requires DoneOk(p, done, tail) && tail < 32 * n + 32
    ensures !Complete(done, n) && n !in p.cleared && n !in p.back
  {
    assert 32 * n + 31 !in done;
  }

  lemma {:induction false} CountedNone(done: set<nat>, n: nat, k: nat)
    requires forall i :: i in done ==> i < 32 * n
    ensures Counted(done, n, k) == 0
    decreases k
  {
    if k > 0 {
      CountedNone(done, n, k - 1);
    }
  }

  /** A step that changes neither entries nor blocks. */
  lemma Moved(p: Producer, p': Producer, done: set<nat>, tail: nat)
    requires ProducerOk(p, done, tail) && SameIndex(p, p') && p'.nextEntry == p.nextEntry
    requires p'.keys == p.keys && p'.values == p.values && p'.counts == p.counts && p.out <= p'.out && p'.elements == p.elements
    requires p'.log == p.log && p'.home == p.home && p'.low == p.low && p'.cleared == p.cleared && p'.back == p.back
    requires p'.current.high == p.current.high && -1 <= p'.current.newest < p'.current.high
    requires p'.current.tail == Slot(p'.current, p'.current.newest)
    requires Settled(p'.producing, |p.home|) <= Settled(p.producing, |p.home|)
    requires forall n :: p.low <= n < p.current.high && Vacant(p'.producing, |p.home|, n) ==> Vacant(p.producing, |p.home|, n)
    requires PlaceOk(p', tail)
    ensures ProducerOk(p', done, tail)
  {
    hide HeadersOk, IndexOk, KeysOk, ValuesOk, StoredOk, DoneOk, CountsOk, BlocksOk, PlaceOk, Slot, Vacant, Settled, SameIndex;
    HeadersKept(p, p');
    IndexKept(p, p');
    KeysKept(p, p');
    ValuesKept(p, p');
    StoredKept(p, p', done);
    DoneKept(p, p', done, tail);
    BlocksKept(p, p', done);
    WindowKept(p, p', tail);
  }

  lemma WindowKept(p: Producer, p': Producer, tail: nat)
    requires WindowOk(p, tail) && SameIndex(p, p') && p'.low == p.low && p'.home == p.home && p'.current.high == p.current.high
    ensures WindowOk(p', tail)
  {
  }

  // ---------------------------------------------------------------- every access of the producer keeps it

  lemma TailIs(p: Producer)
    requires HeadersOk(p)
    ensures p.current.tail == Slot(p.current, p.current.newest) && -1 <= p.current.newest < p.current.high
    ensures NextTail(p.current) == Slot(p.current, p.current.newest + 1)
    ensures Wrap(p.current.tail - 1, p.current.size) == Slot(p.current, p.current.newest - 1)
  {
    NextSlotIs(p.current, p.current.newest);
  }

  /** The entry after the tail is free exactly when the window has room or its oldest number was cleared. */
  lemma EntryFree(p: Producer, done: set<nat>, tail: nat)
    requires ProducerOk(p, done, tail) && p.producing.LoadEntry?
    ensures EntryAt(p.current, NextTail(p.current)) == EntryOf(p, |p.home|)
    ensures var e := EntryOf(p, |p.home|);
      (KeyOf(p.keys, e) == INVALID_BLOCK_BASE || ValueOf(p.values, e) == None) <==>
      (|p.home| < p.low + p.current.size || p.low in p.cleared)
  {
    hide HeadersOk, StoredOk, DoneOk, CountsOk, BlocksOk, IndexOk;
    TailIs(p);
    var n := |p.home|;
    if n == p.low + p.current.size {
      WrapPeriod(p.low + p.current.shift, p.current.size);
      assert n + p.current.shift == p.low + p.current.shift + p.current.size;
      assert EntryOf(p, n) == EntryOf(p, p.low);
    } else if n < p.current.high {
      assert Vacant(p.producing, n, n);
    }
  }

  lemma LoadEntryOk(p: Producer, done: set<nat>, tail: nat, block: Option<BlockId>, canAlloc: bool)
    requires ProducerOk(p, done, tail) && p.producing.LoadEntry?
    ensures ProducerOk(ProducerStep(p, tail, block, canAlloc), done, tail)
  {
    hide HeadersOk, StoredOk, DoneOk, CountsOk, BlocksOk, IndexOk, KeysOk, ValuesOk, Slot, EntryOf, KeyOf, ValueOf, NextTail;
    var p' := ProducerStep(p, tail, block, canAlloc);
    TailIs(p);
    EntryFree(p, done, tail);
    EntriesSame(p, p');
    Moved(p, p', done, tail);
  }

  lemma GrowFailOk(p: Producer, done: set<nat>, tail: nat, block: Option<BlockId>)
    requires ProducerOk(p, done, tail) && p.producing.Grow?
    ensures ProducerOk(ProducerStep(p, tail, block, false), done, tail)
  {
    hide HeadersOk, StoredOk, DoneOk, CountsOk, BlocksOk, IndexOk, KeysOk, ValuesOk, Slot, EntryOf;
    var p' := ProducerStep(p, tail, block, false);
    TailIs(p);
    EntriesSame(p, p');
    Moved(p, p', done, tail);
  }

  /** The larger index has the entries of all numbers, and new ones behind them. */
  lemma LargerEntries(p: Producer, op: Op)
    requires HeadersOk(p) && p.current.newest == p.low + p.current.size - 1 && |p.home| == p.low + p.current.size
    ensures forall n :: p.low <= n < |p.home| ==> EntryOf(Grown(p, op), n) == EntryOf(p, n)
    ensures forall n :: |p.home| <= n < p.low + 2 * p.current.size ==> EntryOf(Grown(p, op), n) == p.nextEntry + n - |p.home|
    ensures var h := Grown(p, op).current; h.tail == Slot(h, h.newest) && NextTail(h) == Slot(h, |p.home|)
  {
    hide HeadersOk;
    TailIs(p);
    var h, h' := p.current, Grown(p, op).current;
    forall n | p.low <= n < |p.home|
      ensures EntryOf(Grown(p, op), n) == EntryOf(p, n)
    {
      CopiedFrom(h, p.low, n);
    }
    NextSlotIs(h', h'.newest);
  }

  /** The walk that starts after the tail comes to the entries in the order of their numbers. */
  lemma CopiedFrom(h: Header, low: nat, n: int)
    requires h.tail == Slot(h, h.newest) && h.newest == low + h.size - 1
    ensures Wrap(h.tail + 1 + (n - low), h.size) == Slot(h, n)
  {
    WrapShift(h.newest + h.shift, 1 + n - low, h.size);
    WrapPeriod(n + h.shift, h.size);
    assert h.tail + (1 + n - low) == h.tail + 1 + (n - low);
    assert h.newest + h.shift + (1 + n - low) == n + h.shift + h.size;
  }

  lemma GrownIndex(p: Producer, op: Op)
    requires IndexOk(p)
    ensures IndexOk(Grown(p, op))
  {
    var h, h' := p.current, Grown(p, op).current;
    forall j, k | 0 <= j < k < h'.size
      ensures h'.index[j] != h'.index[k]
    {
      if k < h.size {
        WrapUnique(h.tail + 1 + k, h.tail + 1 + j, h.size);
        var a, b := Wrap(h.tail + 1 + j, h.size), Wrap(h.tail + 1 + k, h.size);
        assert a < b || b < a;
      }
    }
  }

  lemma GrownHeaders(p: Producer, op: Op)
    requires HeadersOk(p) && p.current.newest == p.low + p.current.size - 1 && |p.home| == p.low + p.current.size == p.current.high
    ensures HeadersOk(Grown(p, op))
  {
    hide EntryOf, Slot, Larger, NextTail;
    var p' := Grown(p, op);
    LargerEntries(p, op);
    LargerIs(p, op);
    forall k | 0 <= k < |p'.older|
      ensures HeaderOk(p', p'.older[k])
    {
      assert HeaderOk(p, At(p, k));
    }
    CurrentHeader(p');
  }

  lemma LargerIs(p: Producer, op: Op)
    ensures var h := Grown(p, op).current;
      h.size == 2 * p.current.size && h.high == p.current.high && h.newest == p.current.newest
  {
  }

  lemma GrownKeys(p: Producer, op: Op)
    requires KeysOk(p) && HeadersOk(p) && IndexOk(p)
    requires p.current.newest == p.low + p.current.size - 1 && |p.home| == p.low + p.current.size == p.current.high
    ensures KeysOk(Grown(p, op))
  {
    hide EntryOf, Larger, NextTail, HeadersOk, Slot;
    LargerEntries(p, op);
    LargerIs(p, op);
    forall n | p.low <= n < |p.home|
      ensures EntryOf(p, n) < p.nextEntry
    {
      EntryOld(p, n);
    }
  }

  lemma EntryOld(p: Producer, n: int)
    requires IndexOk(p)
    ensures EntryOf(p, n) < p.nextEntry
  {
  }

  lemma GrowOk(p: Producer, done: set<nat>, tail: nat, block: Option<BlockId>)
    requires ProducerOk(p, done, tail) && p.producing.Grow?
    ensures var p' := ProducerStep(p, tail, block, true);
      && ProducerOk(p', done, tail)
      && p'.producing.SetKey? && KeyOf(p'.keys, p'.producing.e) == INVALID_BLOCK_BASE
  {
    hide HeadersOk, StoredOk, DoneOk, CountsOk, BlocksOk, IndexOk, KeysOk, EntryOf, Slot, Larger, NewKeys;
    var op, p' := p.producing.op, ProducerStep(p, tail, block, true);
    LargerEntries(p, op);
    LargerIs(p, op);
    GrownHeaders(p, op);
    GrownIndex(p, op);
    GrownKeys(p, op);
    StoredKept(p, p', done);
    DoneKept(p, p', done, tail);
    BlocksKept(p, p', done);
    EntryIs(p'.current, |p.home|);
    NextUnused(p', |p.home|);
  }

  lemma NextUnused(p: Producer, n: nat)
    requires KeysOk(p) && p.current.high <= n < p.low + p.current.size
    ensures KeyOf(p.keys, EntryOf(p, n)) == INVALID_BLOCK_BASE
  {
    hide EntryOf;
  }

  lemma EntryIs(h: Header, n: int)
    ensures forall p: Producer :: p.current == h ==> EntryOf(p, n) == EntryAt(h, Slot(h, n))
  {
  }

  /** Setting the key of the next number's entry, for the keys. */
  lemma KeyedKeys(p: Producer, p': Producer, e: EntryId)
    requires KeysOk(p) && IndexOk(p) && SameIndex(p, p') && e == EntryOf(p, |p.home|)
    requires p.low <= |p.home| <= p.low + p.current.size && |p.home| <= p.current.high <= p.low + p.current.size
    requires p'.low == if |p.home| == p.low + p.current.size then p.low + 1 else p.low
    requires p'.current.high == if p.current.high > |p.home| then p.current.high else |p.home| + 1
    requires p'.keys == p.keys[e := 32 * |p.home|]
    ensures KeysOk(p')
  {
    hide EntryOf, IndexOk;
    EntriesSame(p, p');
    forall n | p'.low <= n < p'.low + p'.current.size && n != |p.home|
      ensures EntryOf(p, n) != e
    {
      SlotsDiffer(p, n, |p.home|);
    }
  }

  lemma KeyedDone(p: Producer, p': Producer, done: set<nat>, tail: nat)
    requires DoneOk(p, done, tail) && 32 * p.low <= tail && p'.cleared == p.cleared && p'.back == p.back
    requires p'.low == p.low || (p'.low == p.low + 1 && p.low in p.cleared)
    ensures DoneOk(p', done, tail) && 32 * p'.low <= tail
  {
    if p'.low == p.low + 1 {
      assert Complete(done, p.low);
      assert 32 * p.low + 31 in done;
    }
  }

  lemma SetKeyOk(p: Producer, done: set<nat>, tail: nat, block: Option<BlockId>, canAlloc: bool)
    requires ProducerOk(p, done, tail) && p.producing.SetKey?
    ensures ProducerOk(ProducerStep(p, tail, block, canAlloc), done, tail)
  {
    hide HeadersOk, StoredOk, DoneOk, CountsOk, BlocksOk, IndexOk, KeysOk, ValuesOk, EntryOf, Slot, ChainBase;
    var op, p' := p.producing.op, ProducerStep(p, tail, block, canAlloc);
    TailIs(p);
    EntriesSame(p, p');
    BaseIs(tail, |p.home| - |op.chain|, |op.chain|);
    KeyedKeys(p, p', p.producing.e);
    KeyedDone(p, p', done, tail);
    HeadersKept(p, p');
    IndexKept(p, p');
    ValuesKept(p, p');
    StoredKept(p, p', done);
    BlocksKept(p, p', done);
  }

  lemma SetTailOk(p: Producer, done: set<nat>, tail: nat, block: Option<BlockId>, canAlloc: bool)
    requires ProducerOk(p, done, tail) && (p.producing.SetTail? || p.producing.Rewind? || p.producing.UndoTail?)
    ensures ProducerOk(ProducerStep(p, tail, block, canAlloc), done, tail)
  {
    hide HeadersOk, StoredOk, DoneOk, CountsOk, BlocksOk, IndexOk, KeysOk, ValuesOk, EntryOf, Slot, NextTail, PlaceOk, ProducerStep;
    var p' := ProducerStep(p, tail, block, canAlloc);
    TailIs(p);
    TailMoves(p, tail, block, canAlloc);
    SlotSame(p.current, p'.current, p'.current.newest);
    Moved(p, p', done, tail);
  }

  lemma SlotSame(h: Header, h': Header, n: int)
    requires h'.size == h.size && h'.shift == h.shift
    ensures Slot(h', n) == Slot(h, n)
  {
  }

  /** The step changes the tail of the index and where the producer stands. */
  ghost predicate TailStep(p: Producer, p': Producer, tail: nat, on: bool) {
    && p' == p.(current := p'.current, producing := p'.producing)
    && p'.current == p.current.(tail := p'.current.tail, newest := p'.current.newest)
    && (if on then p'.current.tail == NextTail(p.current) && p'.current.newest == p.current.newest + 1 == |p.home| < p.current.high
        else p'.current.tail == Wrap(p.current.tail - 1, p.current.size) && p'.current.newest == p.current.newest - 1 >= -1)
    && Settled(p'.producing, |p.home|) <= Settled(p.producing, |p.home|)
    && forall n :: Vacant(p'.producing, |p.home|, n) ==> Vacant(p.producing, |p.home|, n)
  }

  /** The tail of the index goes one slot on, or back. */
  lemma TailMoves(p: Producer, tail: nat, block: Option<BlockId>, canAlloc: bool)
    requires PlaceOk(p, tail) && (p.producing.SetTail? || p.producing.Rewind? || p.producing.UndoTail?)
    ensures var p' := ProducerStep(p, tail, block, canAlloc);
      PlaceOk(p', tail) && TailStep(p, p', tail, p.producing.SetTail?)
  {
    if p.producing.SetTail? {
      TailOn(p, tail, block, canAlloc);
    } else if p.producing.Rewind? {
      TailBack(p, tail, block, canAlloc);
    } else {
      TailBackMore(p, tail, block, canAlloc);
    }
  }

  lemma TailOn(p: Producer, tail: nat, block: Option<BlockId>, canAlloc: bool)
    requires PlaceOk(p, tail) && p.producing.SetTail?
    ensures var p' := ProducerStep(p, tail, block, canAlloc); PlaceOk(p', tail) && TailStep(p, p', tail, true)
  {
    hide EntryOf, NextTail;
    EntriesSame(p, ProducerStep(p, tail, block, canAlloc));
  }

  lemma TailBack(p: Producer, tail: nat, block: Option<BlockId>, canAlloc: bool)
    requires PlaceOk(p, tail) && p.producing.Rewind?
    ensures var p' := ProducerStep(p, tail, block, canAlloc); PlaceOk(p', tail) && TailStep(p, p', tail, false)
  {
    hide EntryOf, Wrap;
    EntriesSame(p, ProducerStep(p, tail, block, canAlloc));
  }

  lemma TailBackMore(p: Producer, tail: nat, block: Option<BlockId>, canAlloc: bool)
    requires PlaceOk(p, tail) && p.producing.UndoTail?
    ensures var p' := ProducerStep(p, tail, block, canAlloc); PlaceOk(p', tail) && TailStep(p, p', tail, false)
  {
    hide EntryOf, Wrap;
  }

  lemma NewBlockOk(p: Producer, b: BlockId)
    requires BlocksOk(p) && b !in p.out
    ensures NewBlock(p.(out := p.out + {b}), b)
  {
  }

  lemma RequisitionOk(p: Producer, done: set<nat>, tail: nat, block: Option<BlockId>, canAlloc: bool)
    requires ProducerOk(p, done, tail) && p.producing.Requisition? && (block.Some? ==> block.value !in p.out)
    ensures ProducerOk(ProducerStep(p, tail, block, canAlloc), done, tail)
  {
    hide HeadersOk, StoredOk, DoneOk, CountsOk, BlocksOk, IndexOk, KeysOk, ValuesOk, EntryOf, Slot;
    var p' := ProducerStep(p, tail, block, canAlloc);
    if block.Some? {
      NewBlockOk(p, block.value);
    }
    TailIs(p);
    EntriesSame(p, p');
    Moved(p, p', done, tail);
  }

  lemma ResetCounts(p: Producer, p': Producer, done: set<nat>, b: BlockId)
    requires CountsOk(p, done) && BlocksOk(p) && NewBlock(p, b)
    requires p'.home == p.home && p'.back == p.back && p'.out == p.out && p'.counts == p.counts[b := 0]
    ensures CountsOk(p', done) && BlocksOk(p') && NewBlock(p', b)
  {
  }

  lemma ResetOk(p: Producer, done: set<nat>, tail: nat, block: Option<BlockId>, canAlloc: bool)
    requires ProducerOk(p, done, tail) && p.producing.Reset?
    ensures ProducerOk(ProducerStep(p, tail, block, canAlloc), done, tail)
  {
    hide HeadersOk, StoredOk, DoneOk, CountsOk, BlocksOk, IndexOk, KeysOk, ValuesOk, EntryOf, Slot, NewBlock;
    var p' := ProducerStep(p, tail, block, canAlloc);
    TailIs(p);
    EntriesSame(p, p');
    HeadersKept(p, p');
    IndexKept(p, p');
    KeysKept(p, p');
    ValuesKept(p, p');
    StoredKept(p, p', done);
    DoneKept(p, p', done, tail);
    ResetCounts(p, p', done, p.producing.b);
  }

  /** Setting a value leaves those of the other numbers. */
  lemma OtherValues(p: Producer, e: EntryId, m: int, x: Option<BlockId>)
    requires IndexOk(p) && e == EntryOf(p, m) && p.low <= m < p.low + p.current.size && p.current.high <= p.low + p.current.size
    ensures forall n :: p.low <= n < p.current.high && n != m ==>
              && EntryOf(p, n) != e && ValueOf(p.values[e := x], EntryOf(p, n)) == ValueOf(p.values, EntryOf(p, n))
    ensures ValueOf(p.values[e := x], EntryOf(p, m)) == x
  {
    hide EntryOf, IndexOk;
    forall n | p.low <= n < p.current.high && n != m
      ensures EntryOf(p, n) != e
    {
      SlotsDiffer(p, n, m);
    }
  }

  lemma SetValues(p: Producer, p': Producer, e: EntryId, b: BlockId)
    requires ValuesOk(p) && IndexOk(p) && SameIndex(p, p') && p.producing.SetValue? && |p.home| !in p.cleared
    requires NextOk(p, e) && |p.home| < p.current.high <= p.low + p.current.size
    requires p'.values == p.values[e := Some(b)] && p'.home == p.home + [b] && p'.cleared == p.cleared && p'.low == p.low
    requires p'.current.high == p.current.high && (p'.producing.LoadEntry? || p'.producing.Write? || p'.producing.StoreTail?)
    ensures ValuesOk(p')
  {
    hide EntryOf, IndexOk;
    EntriesSame(p, p');
    OtherValues(p, e, |p.home|, Some(b));
  }

  lemma SetBlocks(p: Producer, p': Producer, done: set<nat>, b: BlockId)
    requires CountsOk(p, done) && BlocksOk(p) && NewBlock(p, b) && b in p.counts && p.counts[b] == 0
    requires Counted(done, |p.home|, 32) == 0
    requires p'.home == p.home + [b] && p'.back == p.back && p'.out == p.out && p'.counts == p.counts
    ensures CountsOk(p', done) && BlocksOk(p')
  {
    hide Counted;
  }

  lemma SetPlace(p: Producer, done: set<nat>, tail: nat, block: Option<BlockId>, canAlloc: bool)
    requires PlaceOk(p, tail) && p.producing.SetValue?
    ensures PlaceOk(ProducerStep(p, tail, block, canAlloc), tail)
  {
    hide EntryOf, NewBlock;
    var op, p' := p.producing.op, ProducerStep(p, tail, block, canAlloc);
    assert p'.home[|p.home| - |op.chain|..] == op.chain + [p.producing.b];
    assert p.log[tail..] == [];
  }

  lemma SetValueOk(p: Producer, done: set<nat>, tail: nat, block: Option<BlockId>, canAlloc: bool)
    requires ProducerOk(p, done, tail) && p.producing.SetValue?
    ensures ProducerOk(ProducerStep(p, tail, block, canAlloc), done, tail)
  {
    hide HeadersOk, StoredOk, CountsOk, BlocksOk, IndexOk, KeysOk, ValuesOk, EntryOf, Slot, NewBlock, Complete, Counted;
    var p', n := ProducerStep(p, tail, block, canAlloc), |p.home|;
    NotComplete(p, done, tail, n);
    CountedNone(done, n, 32);
    SetPlace(p, done, tail, block, canAlloc);
    TailIs(p);
    EntriesSame(p, p');
    HeadersKept(p, p');
    IndexKept(p, p');
    KeysKept(p, p');
    SetValues(p, p', p.producing.e, p.producing.b);
    StoredKept(p, p', done);
    DoneKept(p, p', done, tail);
    SetBlocks(p, p', done, p.producing.b);
  }

  /** Taking the block of number m out of the index, where it is not settled any more. */
  lemma UnsetValues(p: Producer, p': Producer, e: EntryId, m: int)
    requires ValuesOk(p) && IndexOk(p) && SameIndex(p, p')
    requires e == EntryOf(p, m) && p.low <= m < p.low + p.current.size && p.current.high <= p.low + p.current.size
    requires p'.values == p.values[e := None] && p'.home == p.home && p'.cleared == p.cleared && p'.low == p.low
    requires p'.current.high == p.current.high >= |p.home|
    requires Settled(p'.producing, |p.home|) <= m && Settled(p'.producing, |p.home|) <= Settled(p.producing, |p.home|)
    requires forall n :: Vacant(p'.producing, |p.home|, n) ==> n == m || Vacant(p.producing, |p.home|, n)
    ensures ValuesOk(p')
  {
    hide EntryOf, IndexOk, Vacant, Settled;
    EntriesSame(p, p');
    OtherValues(p, e, m, None);
  }

  lemma ClearValueOk(p: Producer, done: set<nat>, tail: nat, block: Option<BlockId>, canAlloc: bool)
    requires ProducerOk(p, done, tail) && p.producing.ClearValue?
    ensures ProducerOk(ProducerStep(p, tail, block, canAlloc), done, tail)
  {
    hide HeadersOk, StoredOk, DoneOk, CountsOk, BlocksOk, IndexOk, KeysOk, ValuesOk, EntryOf, Slot;
    var p' := ProducerStep(p, tail, block, canAlloc);
    TailIs(p);
    EntriesSame(p, p');
    HeadersKept(p, p');
    IndexKept(p, p');
    KeysKept(p, p');
    UnsetValues(p, p', p.producing.e, |p.home|);
    StoredKept(p, p', done);
    DoneKept(p, p', done, tail);
    BlocksKept(p, p', done);
  }

  /** The lookup of a block that is taken out finds its entry, however far the tail was rewound. */
  lemma UndoFinds(p: Producer, done: set<nat>, tail: nat)
    requires ProducerOk(p, done, tail) && p.producing.Undo? && p.producing.k < |p.producing.op.chain|
    ensures var start := |p.home| - |p.producing.op.chain|;
      UndoEntry(p, tail, p.producing.k) == EntryOf(p, start + p.producing.k) && p.low <= start
  {
    hide HeadersOk, StoredOk, DoneOk, CountsOk, BlocksOk, IndexOk, ValuesOk, Slot, BlockBase;
    var op, k := p.producing.op, p.producing.k;
    var start := |p.home| - |op.chain|;
    TailIs(p);
    BaseIs(tail, start, k);
    assert EntryAt(p.current, p.current.tail) == EntryOf(p, p.current.newest);
    OffsetFinds(p.current, p.current.newest, 32 * p.current.newest, 32 * (start + k), start + k);
  }

  lemma UndoOk(p: Producer, done: set<nat>, tail: nat, block: Option<BlockId>, canAlloc: bool)
    requires ProducerOk(p, done, tail) && p.producing.Undo? && p.producing.k < |p.producing.op.chain|
    ensures ProducerOk(ProducerStep(p, tail, block, canAlloc), done, tail)
  {
    hide HeadersOk, StoredOk, DoneOk, CountsOk, BlocksOk, IndexOk, KeysOk, ValuesOk, EntryOf, Slot, UndoEntry;
    var p' := ProducerStep(p, tail, block, canAlloc);
    UndoFinds(p, done, tail);
    TailIs(p);
    EntriesSame(p, p');
    HeadersKept(p, p');
    IndexKept(p, p');
    KeysKept(p, p');
    UnsetValues(p, p', UndoEntry(p, tail, p.producing.k), |p.home| - |p.producing.op.chain| + p.producing.k);
    StoredKept(p, p', done);
    DoneKept(p, p', done, tail);
    BlocksKept(p, p', done);
  }

  /** The blocks of the chain were not given back before. */
  lemma ChainOut(p: Producer, done: set<nat>, tail: nat, op: Op)
    requires DoneOk(p, done, tail) && BlocksOk(p) && |op.chain| <= |p.home| && p.home[|p.home| - |op.chain|..] == op.chain
    requires tail <= 32 * (|p.home| - |op.chain|)
    ensures forall b :: b in op.chain ==> b in p.out
    ensures forall n: nat :: n < |p.home| - |op.chain| && n !in p.back ==> p.home[n] !in op.chain
  {
    var start := |p.home| - |op.chain|;
    forall k | 0 <= k < |op.chain|
      ensures op.chain[k] == p.home[start + k] && start + k !in p.back
    {
      NotComplete(p, done, tail, start + k);
    }
  }

  lemma UndoneBlocks(p: Producer, p': Producer, done: set<nat>, tail: nat, op: Op)
    requires DoneOk(p, done, tail) && BlocksOk(p) && CountsOk(p, done)
    requires |op.chain| <= |p.home| && p.home[|p.home| - |op.chain|..] == op.chain && tail <= 32 * (|p.home| - |op.chain|)
    requires p'.home == p.home[..|p.home| - |op.chain|] && p'.back == p.back && p'.counts == p.counts
    requires p'.out == p.out - set b | b in op.chain
    ensures BlocksOk(p') && CountsOk(p', done)
  {
    hide Counted, DoneOk;
    ChainOut(p, done, tail, op);
  }

  lemma UndoneStored(p: Producer, p': Producer, done: set<nat>)
    requires StoredOk(p, done) && p'.home <= p.home && |p.log| <= 32 * |p'.home| && p'.log == p.log && p'.elements == p.elements
    ensures StoredOk(p', done)
  {
    forall i: nat | i < |p'.log| && i !in done
      ensures Stored(p', i)
    {
      assert Stored(p, i);
    }
  }

  lemma UndoneValues(p: Producer, p': Producer, op: Op)
    requires ValuesOk(p) && SameIndex(p, p') && p'.values == p.values && p'.cleared == p.cleared && p'.low == p.low
    requires p.producing == Undo(op, |op.chain|) && |op.chain| <= |p.home| && p'.producing.Ready?
    requires p'.home == p.home[..|p.home| - |op.chain|] && p'.current.high == p.current.high
    ensures ValuesOk(p')
  {
    hide EntryOf;
    EntriesSame(p, p');
    forall n | p'.low <= n < p'.current.high && n >= |p'.home|
      ensures ValueOf(p'.values, EntryOf(p', n)) == None
    {
      assert Vacant(p.producing, |p.home|, n);
    }
  }

  lemma UndoneOk(p: Producer, done: set<nat>, tail: nat, block: Option<BlockId>, canAlloc: bool)
    requires ProducerOk(p, done, tail) && p.producing.Undo? && p.producing.k >= |p.producing.op.chain|
    ensures ProducerOk(ProducerStep(p, tail, block, canAlloc), done, tail)
  {
    hide HeadersOk, StoredOk, DoneOk, CountsOk, BlocksOk, IndexOk, KeysOk, ValuesOk, EntryOf, Slot;
    var op, p' := p.producing.op, ProducerStep(p, tail, block, canAlloc);
    TailIs(p);
    EntriesSame(p, p');
    HeadersKept(p, p');
    IndexKept(p, p');
    KeysKept(p, p');
    UndoneValues(p, p', op);
    UndoneStored(p, p', done);
    DoneKept(p, p', done, tail);
    UndoneBlocks(p, p', done, tail, op);
  }

  /** A value written leaves the elements that are still to be read. */
  lemma WrittenStored(p: Producer, p': Producer, done: set<nat>, tail: nat, x: Value)
    requires BlocksOk(p) && StoredOk(p, done) && DoneOk(p, done, tail) && tail <= |p.log|
    requires |p.log| / 32 < |p.home| && p'.home == p.home && p'.log == p.log + [x]
    requires p'.elements == p.elements[Cell(p.home[|p.log| / 32], |p.log| % 32) := x]
    ensures StoredOk(p', done)
  {
    var m := |p.log|;
    NotComplete(p, done, tail, m / 32);
    forall i: nat | i < |p'.log| && i !in done
      ensures Stored(p', i)
    {
      if i < m {
        assert Stored(p, i);
        InUse(p, done, tail, i);
        if i / 32 != m / 32 {
          assert p.home[i / 32] != p.home[m / 32];
        } else {
          assert i % 32 != m % 32;
        }
      }
    }
  }

  /** The block of an element that is not counted was not given back. */
  lemma InUse(p: Producer, done: set<nat>, tail: nat, i: nat)
    requires DoneOk(p, done, tail) && i !in done
    ensures i / 32 !in p.back && i / 32 !in p.cleared && i / 32 >= p.low
  {
    assert 32 * (i / 32) <= i < 32 * (i / 32) + 32;
    assert !Complete(done, i / 32);
  }

  lemma FilledBlock(p: Producer, op: Op, tail: nat, at: int, k: nat)
    requires OpOk(p, op, tail, 0) && op.need == 0 && k < |op.values| && at == (tail + k) / 32 - (|p.home| - |op.chain|)
    ensures (tail + k) / 32 < |p.home| && BlockAt(p, op, at) == p.home[(tail + k) / 32]
  {
    var start := |p.home| - |op.chain|;
    if at >= 0 {
      assert p.home[start..][at] == p.home[start + at];
    }
  }

  lemma NextNumber(i: nat)
    ensures (i + 1) / 32 == i / 32 + if (i + 1) % 32 == 0 then 1 else 0
  {
  }

  lemma WriteOk(p: Producer, done: set<nat>, tail: nat, block: Option<BlockId>, canAlloc: bool)
    requires ProducerOk(p, done, tail) && p.producing.Write? && p.producing.k < |p.producing.op.values|
    ensures ProducerOk(ProducerStep(p, tail, block, canAlloc), done, tail)
  {
    hide HeadersOk, StoredOk, DoneOk, CountsOk, BlocksOk, IndexOk, KeysOk, ValuesOk, EntryOf, Slot, ProducerStep, PlaceOk;
    var p' := ProducerStep(p, tail, block, canAlloc);
    WriteIs(p, tail, block, canAlloc);
    WrittenStored(p, p', done, tail, p.producing.op.values[p.producing.k]);
    TailIs(p);
    EntriesSame(p, p');
    HeadersKept(p, p');
    IndexKept(p, p');
    KeysKept(p, p');
    ValuesKept(p, p');
    DoneKept(p, p', done, tail);
    BlocksKept(p, p', done);
  }

  lemma WriteIs(p: Producer, tail: nat, block: Option<BlockId>, canAlloc: bool)
    requires PlaceOk(p, tail) && p.producing.Write? && p.producing.k < |p.producing.op.values|
    ensures var p', x := ProducerStep(p, tail, block, canAlloc), p.producing.op.values[p.producing.k];
      && tail <= |p.log| && |p.log| / 32 < |p.home|
      && p' == p.(elements := p.elements[Cell(p.home[|p.log| / 32], |p.log| % 32) := x], log := p.log + [x], producing := p'.producing)
      && p'.producing.Write? && PlaceOk(p', tail)
  {
    hide BlockAt, EntryOf, NewBlock, OpOk;
    var op, at, k := p.producing.op, p.producing.at, p.producing.k;
    FilledBlock(p, op, tail, at, k);
    WrittenPlace(p, ProducerStep(p, tail, block, canAlloc), tail);
  }

  lemma WrittenPlace(p: Producer, p': Producer, tail: nat)
    requires PlaceOk(p, tail) && p.producing.Write? && p.producing.k < |p.producing.op.values|
    requires var op, at, k := p.producing.op, p.producing.at, p.producing.k;
      && p' == p.(elements := p'.elements, log := p.log + [op.values[k]], producing := p'.producing)
      && p'.producing == Write(op, if (tail + k + 1) % 32 == 0 then at + 1 else at, k + 1)
    ensures PlaceOk(p', tail)
  {
    hide EntryOf, NewBlock, OpOk;
    var op, k := p.producing.op, p.producing.k;
    NextNumber(tail + k);
    OpKept(p, p', op, tail);
    assert p'.log[tail..] == p.log[tail..] + [op.values[k]];
  }

  lemma OpKept(p: Producer, p': Producer, op: Op, tail: nat)
    requires OpOk(p, op, tail, 0) && p'.home == p.home && p'.tailBlock == p.tailBlock && p'.current == p.current
    ensures OpOk(p', op, tail, 0)
  {
  }

  lemma OtherStepOk(p: Producer, done: set<nat>, tail: nat, block: Option<BlockId>, canAlloc: bool)
    requires ProducerOk(p, done, tail)
    requires p.producing.Ready? || (p.producing.Write? && p.producing.k >= |p.producing.op.values|)
    ensures ProducerOk(ProducerStep(p, tail, block, canAlloc), done, tail)
  {
    hide HeadersOk, StoredOk, DoneOk, CountsOk, BlocksOk, IndexOk, KeysOk, ValuesOk, EntryOf, Slot;
    var p' := ProducerStep(p, tail, block, canAlloc);
    TailIs(p);
    EntriesSame(p, p');
    Moved(p, p', done, tail);
  }

  lemma DoneLater(p: Producer, done: set<nat>, tail: nat, tail': nat)
    requires DoneOk(p, done, tail) && tail <= tail'
    ensures DoneOk(p, done, tail')
  {
  }

  lemma LastIs(p: Producer, op: Op, tail: nat)
    requires OpOk(p, op, tail, 0) && op.need == 0 && (tail + |op.values|) % 32 != 0
    ensures |p.home| > 0 && LastBlock(p, op) == p.home[|p.home| - 1]
  {
    var start := |p.home| - |op.chain|;
    if op.chain != [] {
      assert p.home[start..][|op.chain| - 1] == p.home[|p.home| - 1];
    }
  }

  lemma StoredPlace(p: Producer, tail: nat, block: Option<BlockId>, canAlloc: bool)
    requires PlaceOk(p, tail) && p.producing.StoreTail?
    ensures var op, p' := p.producing.op, ProducerStep(p, tail, block, canAlloc);
      p' == p.(tailBlock := p'.tailBlock, producing := Ready) && PlaceOk(p', tail + |op.values|)
  {
    hide EntryOf, LastBlock, NewBlock;
    var op := p.producing.op;
    if (tail + |op.values|) % 32 != 0 {
      LastIs(p, op, tail);
    }
  }

  lemma StoreTailOk(p: Producer, done: set<nat>, tail: nat, block: Option<BlockId>, canAlloc: bool)
    requires ProducerOk(p, done, tail) && p.producing.StoreTail?
    ensures ProducerOk(ProducerStep(p, tail, block, canAlloc), done, tail + |p.producing.op.values|)
  {
    hide HeadersOk, StoredOk, DoneOk, CountsOk, BlocksOk, IndexOk, KeysOk, ValuesOk, EntryOf, Slot, LastBlock, PlaceOk, ProducerStep;
    var op, p' := p.producing.op, ProducerStep(p, tail, block, canAlloc);
    StoredPlace(p, tail, block, canAlloc);
    TailIs(p);
    EntriesSame(p, p');
    HeadersKept(p, p');
    IndexKept(p, p');
    KeysKept(p, p');
    ValuesKept(p, p');
    StoredKept(p, p', done);
    DoneKept(p, p', done, tail);
    DoneLater(p', done, tail, tail + |op.values|);
    BlocksKept(p, p', done);
  }

  lemma StartOk(p: Producer, done: set<nat>, tail: nat, values: seq<Value>)
    requires ProducerOk(p, done, tail) && p.producing.Ready?
    ensures ProducerOk(Started(p, values, tail), done, tail)
  {
    hide HeadersOk, StoredOk, DoneOk, CountsOk, BlocksOk, IndexOk, KeysOk, ValuesOk, EntryOf, Slot, BlockStarts, PlaceOk;
    var p' := Started(p, values, tail);
    StartedPlace(p, tail, values);
    TailIs(p);
    EntriesSame(p, p');
    Moved(p, p', done, tail);
  }

  lemma StartedPlace(p: Producer, tail: nat, values: seq<Value>)
    requires PlaceOk(p, tail) && p.producing.Ready?
    ensures PlaceOk(Started(p, values, tail), tail)
  {
    hide EntryOf, NewBlock, BlockStarts, BlockBase, OpOk;
    NeededBlocks(tail, |values|, |p.home|);
    StartedOp(p, Started(p, values, tail), Op(values, BlockStarts(tail, |values|), []), tail);
    assert p.log[tail..] == [];
  }

  /** The blocks that are started are those that are needed. */
  lemma NeededBlocks(tail: nat, count: nat, start: nat)
    requires 32 * start - 32 < tail <= 32 * start
    ensures count == 0 ==> BlockStarts(tail, count) == 0
    ensures count > 0 ==> 32 * (start + BlockStarts(tail, count)) - 32 < tail + count <= 32 * (start + BlockStarts(tail, count))
  {
    hide BlockStarts, BlockBase;
    NoBlockStarts(tail);
    BaseDiff(tail, count);
    BaseIs(tail, start, 0);
    BaseBounds(tail + count - 1);
  }

  lemma StartedOp(p: Producer, p': Producer, op: Op, tail: nat)
    requires PlaceOk(p, tail) && p.producing.Ready? && p' == p.(producing := p'.producing) && op.chain == []
    requires if op.values == [] then op.need == 0
             else 32 * (|p.home| + op.need) - 32 < tail + |op.values| <= 32 * (|p.home| + op.need)
    ensures OpOk(p', op, tail, 0)
  {
  }

  lemma ProducerStepOk(p: Producer, done: set<nat>, tail: nat, block: Option<BlockId>, canAlloc: bool)
    requires ProducerOk(p, done, tail) && !p.producing.StoreTail?
    requires p.producing.Requisition? && block.Some? ==> block.value !in p.out
    ensures ProducerOk(ProducerStep(p, tail, block, canAlloc), done, tail)
  {
    hide ProducerOk, ProducerStep;
    match p.producing
    case LoadEntry(_) => LoadEntryOk(p, done, tail, block, canAlloc);
    case Grow(_) => if canAlloc { GrowOk(p, done, tail, block); } else { GrowFailOk(p, done, tail, block); }
    case SetKey(_, _) => SetKeyOk(p, done, tail, block, canAlloc);
    case SetTail(_, _) => SetTailOk(p, done, tail, block, canAlloc);
    case Requisition(_, _) => RequisitionOk(p, done, tail, block, canAlloc);
    case Reset(_, _, _) => ResetOk(p, done, tail, block, canAlloc);
    case SetValue(_, _, _) => SetValueOk(p, done, tail, block, canAlloc);
    case Rewind(_, _) => SetTailOk(p, done, tail, block, canAlloc);
    case ClearValue(_, _) => ClearValueOk(p, done, tail, block, canAlloc);
    case Undo(op, k) =>
      if k < |op.chain| { UndoOk(p, done, tail, block, canAlloc); } else { UndoneOk(p, done, tail, block, canAlloc); }
    case UndoTail(_, _) => SetTailOk(p, done, tail, block, canAlloc);
    case Write(op, _, k) =>
      if k < |op.values| { WriteOk(p, done, tail, block, canAlloc); } else { OtherStepOk(p, done, tail, block, canAlloc); }
    case _ => OtherStepOk(p, done, tail, block, canAlloc);
  }

  // ---------------------------------------------------------------- the consumers' invariant

  /** The first index that is not read yet. */
  function ReadUpTo(look: Look, first: nat, lim: nat): nat {
    match look
    case LoadValue(_, _, next) => next
    case ReadElement(_, _, _, _, next) => next
    case Count(_, _, _, _, end) => end
    case ClearEntry(_, _, _, _, end) => end
    case FreeBlock(_, _, _, _, end) => end
    case Finished => lim
    case _ => first
  }

  /** Has this consumer counted an index it claimed? */
  predicate IsCounted(look: Look, i: nat) {
    match look
    case LoadValue(_, _, next) => i < next
    case ReadElement(_, _, _, from, _) => i < from
    case Count(_, _, _, from, _) => i < from
    case ClearEntry(_, _, _, _, end) => i < end
    case FreeBlock(_, _, _, _, end) => i < end
    case Finished => true
    case _ => false
  }

  predicate Found(p: Producer, h: nat, slot: int, block: BlockId, from: nat, lim: nat) {
    && h <= |p.older| && lim <= 32 * At(p, h).high && from < lim
    && slot == Slot(At(p, h), from / 32) && from / 32 < |p.home| && block == p.home[from / 32]
  }

  predicate Holds(holder: map<nat, Tid>, n: nat, t: Tid) {
    n in holder && holder[n] == t
  }

  /** What consumer t has loaded is right for what it still has to read, and it alone gives a block back. */
  predicate PlaceFound(p: Producer, holder: map<nat, Tid>, t: Tid, look: Look, first: nat, lim: nat) {
    match look
    case LoadIndex => first < lim
    case LoadTail(h) => first < lim && h <= |p.older| && lim <= 32 * (At(p, h).newest + 1)
    case LoadKey(h, tail, newest) =>
      && first < lim && h <= |p.older| && newest < At(p, h).high && lim <= 32 * (newest + 1)
      && tail == Slot(At(p, h), newest)
    case LoadValue(h, slot, next) =>
      h <= |p.older| && lim <= 32 * At(p, h).high && first <= next < lim && slot == Slot(At(p, h), next / 32)
    case ReadElement(h, slot, block, from, next) => Found(p, h, slot, block, from, lim) && first <= from <= next <= End(from, lim)
    case Count(h, slot, block, from, end) => Found(p, h, slot, block, from, lim) && first <= from && end == End(from, lim)
    case ClearEntry(h, slot, block, from, end) =>
      && Found(p, h, slot, block, from, lim) && first <= from && end == End(from, lim)
      && Holds(holder, from / 32, t) && from / 32 !in p.cleared
    case FreeBlock(h, slot, block, from, end) =>
      && Found(p, h, slot, block, from, lim) && first <= from && end == End(from, lim)
      && Holds(holder, from / 32, t) && from / 32 in p.cleared && from / 32 !in p.back
    case Finished => true
  }

  ghost predicate ShareOk(taken: seq<Taken>, done: set<nat>, look: Look, first: nat, lim: nat) {
    && (forall i: nat :: first <= i < lim ==> (WasTaken(taken, i) <==> i < ReadUpTo(look, first, lim)))
    && (forall i: nat :: first <= i < lim ==> (i in done <==> IsCounted(look, i)))
  }

  ghost predicate LookOk(p: Producer, holder: map<nat, Tid>, taken: seq<Taken>, done: set<nat>, t: Tid, look: Look, first: nat, lim: nat) {
    PlaceFound(p, holder, t, look, first, lim) && ShareOk(taken, done, look, first, lim)
  }

  ghost predicate LooksOk(s: State) {
    forall t :: Reading(s.c, t) ==>
      && t in s.looks
      && LookOk(s.p, s.holder, s.taken, s.done, t, s.looks[t], s.c.pcs[t].first, s.c.pcs[t].first + s.c.pcs[t].actual)
  }

  /** A block number that is complete was given back, or is with the consumer that counted its last elements. */
  predicate WithHolder(c: C.State, looks: map<Tid, Look>, back: set<nat>, n: nat, t: Tid) {
    n in back || (Reading(c, t) && t in looks && (looks[t].ClearEntry? || looks[t].FreeBlock?) && looks[t].from / 32 == n)
  }

  ghost predicate HolderOk(s: State) {
    && (forall n: nat :: n in s.holder <==> Complete(s.done, n))
    && (forall n :: n in s.holder ==> WithHolder(s.c, s.looks, s.p.back, n, s.holder[n]))
  }

  predicate JustHandedOut(producing: Producing, b: BlockId) {
    (producing.Reset? || producing.SetValue?) && producing.b == b
  }

  /** The blocks that are out have a number. */
  ghost predicate OutOk(p: Producer) {
    forall b :: b in p.out ==>
      JustHandedOut(p.producing, b) || exists n: nat :: n < |p.home| && n !in p.back && p.home[n] == b
  }

  ghost predicate Inv(s: State) {
    && C.Inv(s.c) && ProducerOk(s.p, s.done, s.c.tail) && OutOk(s.p)
    && LooksOk(s) && HolderOk(s) && ThroughOk(s.c, s.taken, s.done) && TakenOk(s.taken, s.p.log)
  }

  // ---------------------------------------------------------------- the producer does not disturb the consumers

  lemma NewestCovers(p: Producer, tail: nat)
    requires PlaceOk(p, tail)
    ensures tail <= 32 * (p.current.newest + 1)
  {
    hide EntryOf;
  }

  /** Indexes keep what consumers can have found in them, and blocks with elements keep their numbers. */
  predicate Grows(p: Producer, p': Producer, tail: nat) {
    && |p.older| <= |p'.older| && p.log <= p'.log && p'.cleared == p.cleared && p'.back == p.back
    && (forall n :: 0 <= n < |p.home| && 32 * n < tail ==> n < |p'.home| && p'.home[n] == p.home[n])
    && forall h :: 0 <= h <= |p.older| ==> HeaderGrows(At(p, h), At(p', h), tail)
  }

  predicate HeaderGrows(h: Header, h': Header, tail: nat) {
    h'.size == h.size && h'.shift == h.shift && h'.high >= h.high && (h'.newest >= h.newest || tail <= 32 * (h'.newest + 1))
  }

  lemma PlaceKept(p: Producer, p': Producer, holder: map<nat, Tid>, t: Tid, look: Look, first: nat, lim: nat, tail: nat)
    requires Grows(p, p', tail) && PlaceFound(p, holder, t, look, first, lim) && lim <= tail
    ensures PlaceFound(p', holder, t, look, first, lim)
  {
    hide Slot;
    match look
    case LoadIndex =>
    case LoadTail(h) => assert HeaderGrows(At(p, h), At(p', h), tail);
    case LoadKey(h, _, newest) =>
      assert HeaderGrows(At(p, h), At(p', h), tail);
      SlotSame(At(p, h), At(p', h), newest);
    case LoadValue(h, _, next) =>
      assert HeaderGrows(At(p, h), At(p', h), tail);
      SlotSame(At(p, h), At(p', h), next / 32);
    case ReadElement(h, slot, block, from, _) => FoundKept(p, p', h, slot, block, from, lim, tail);
    case Count(h, slot, block, from, _) => FoundKept(p, p', h, slot, block, from, lim, tail);
    case ClearEntry(h, slot, block, from, _) => FoundKept(p, p', h, slot, block, from, lim, tail);
    case FreeBlock(h, slot, block, from, _) => FoundKept(p, p', h, slot, block, from, lim, tail);
    case Finished =>
  }

  lemma FoundKept(p: Producer, p': Producer, h: nat, slot: int, block: BlockId, from: nat, lim: nat, tail: nat)
    requires Grows(p, p', tail) && Found(p, h, slot, block, from, lim) && lim <= tail
    ensures Found(p', h, slot, block, from, lim)
  {
    hide Slot;
    assert HeaderGrows(At(p, h), At(p', h), tail);
    SlotSame(At(p, h), At(p', h), from / 32);
    assert 32 * (from / 32) <= from < tail;
  }

  lemma ConsumersKept(s: State, s': State)
    requires C.Inv(s.c) && LooksOk(s) && TakenOk(s.taken, s.p.log) && HolderOk(s) && Grows(s.p, s'.p, s.c.tail)
    requires s'.c.pcs == s.c.pcs && s'.looks == s.looks && s'.taken == s.taken && s'.done == s.done && s'.holder == s.holder
    ensures LooksOk(s') && TakenOk(s'.taken, s'.p.log) && HolderOk(s')
  {
    hide PlaceFound, ShareOk, Grows, C.Inv, Complete;
    GrowsIs(s.p, s'.p, s.c.tail);
    forall t | Reading(s'.c, t)
      ensures t in s'.looks
      ensures LookOk(s'.p, s'.holder, s'.taken, s'.done, t, s'.looks[t], s'.c.pcs[t].first, s'.c.pcs[t].first + s'.c.pcs[t].actual)
    {
      assert Reading(s.c, t);
      OwnClaim(s.c, t);
      PlaceKept(s.p, s'.p, s.holder, t, s.looks[t], s.c.pcs[t].first, s.c.pcs[t].first + s.c.pcs[t].actual, s.c.tail);
    }
  }

  lemma GrowsIs(p: Producer, p': Producer, tail: nat)
    requires Grows(p, p', tail)
    ensures p.log <= p'.log && p'.cleared == p.cleared && p'.back == p.back
  {
  }

  lemma GrowsSame(p: Producer, p': Producer, tail: nat)
    requires p'.older == p.older && p.log <= p'.log && p'.cleared == p.cleared && p'.back == p.back
    requires forall n :: 0 <= n < |p.home| && 32 * n < tail ==> n < |p'.home| && p'.home[n] == p.home[n]
    requires p'.current.size == p.current.size && p'.current.shift == p.current.shift
    requires p'.current.high >= p.current.high && tail <= 32 * (p'.current.newest + 1)
    ensures Grows(p, p', tail)
  {
    forall h | 0 <= h <= |p.older|
      ensures HeaderGrows(At(p, h), At(p', h), tail)
    {
    }
  }

  lemma GrowsLarger(p: Producer, p': Producer, tail: nat)
    requires p'.older == p.older + [p.current] && p'.home == p.home && p'.log == p.log
    requires p'.cleared == p.cleared && p'.back == p.back
    ensures Grows(p, p', tail)
  {
    forall h | 0 <= h <= |p.older|
      ensures At(p', h) == At(p, h)
    {
    }
  }

  lemma StepGrows(p: Producer, tail: nat, block: Option<BlockId>, canAlloc: bool)
    requires PlaceOk(p, tail) && PlaceOk(ProducerStep(p, tail, block, canAlloc), if p.producing.StoreTail? then tail + |p.producing.op.values| else tail)
    ensures Grows(p, ProducerStep(p, tail, block, canAlloc), tail)
  {
    hide ProducerStep, Grows, PlaceOk;
    var p' := ProducerStep(p, tail, block, canAlloc);
    if p.producing.Grow? && canAlloc {
      StepLarger(p, tail, block);
      GrowsLarger(p, p', tail);
    } else {
      StepHome(p, tail, block, canAlloc);
      StepHeader(p, tail, block, canAlloc);
      NewestCovers(p', if p.producing.StoreTail? then tail + |p.producing.op.values| else tail);
      GrowsSame(p, p', tail);
    }
  }

  lemma StepLarger(p: Producer, tail: nat, block: Option<BlockId>)
    requires p.producing.Grow?
    ensures var p' := ProducerStep(p, tail, block, true);
      && p'.older == p.older + [p.current] && p'.home == p.home && p'.log == p.log && p'.cleared == p.cleared && p'.back == p.back
      && p'.out == p.out && p'.producing.SetKey?
  {
    hide Larger, NewKeys;
  }

  predicate HeaderSame(p: Producer, p': Producer) {
    && p'.older == p.older && p'.current.size == p.current.size && p'.current.shift == p.current.shift
    && p'.current.high >= p.current.high
  }

  predicate Inserting(producing: Producing) {
    producing.LoadEntry? || producing.Grow? || producing.SetKey? || producing.SetTail? || producing.Requisition? || producing.Reset?
  }

  lemma InsertHeader(p: Producer, tail: nat, block: Option<BlockId>, canAlloc: bool)
    requires Inserting(p.producing) && !(p.producing.Grow? && canAlloc)
    ensures HeaderSame(p, ProducerStep(p, tail, block, canAlloc))
  {
    hide NextTail, EntryOf, UndoEntry, Wrap, ChainBase, BlockAt, LastBlock;
    match p.producing
    case LoadEntry(_) =>
    case Grow(_) =>
    case SetKey(_, _) =>
    case SetTail(_, _) =>
    case Requisition(_, _) =>
    case Reset(_, _, _) =>
  }

  lemma FillHeader(p: Producer, tail: nat, block: Option<BlockId>, canAlloc: bool)
    requires !Inserting(p.producing)
    ensures HeaderSame(p, ProducerStep(p, tail, block, canAlloc))
  {
    hide NextTail, EntryOf, UndoEntry, Wrap, ChainBase, BlockAt, LastBlock;
    match p.producing
    case SetValue(_, _, _) =>
    case Rewind(_, _) =>
    case ClearValue(_, _) =>
    case Undo(_, _) =>
    case UndoTail(_, _) =>
    case Write(_, _, _) =>
    case _ =>
  }

  /** All steps but one leave the list of indexes alone. */
  lemma StepHeader(p: Producer, tail: nat, block: Option<BlockId>, canAlloc: bool)
    requires !(p.producing.Grow? && canAlloc)
    ensures HeaderSame(p, ProducerStep(p, tail, block, canAlloc))
  {
    hide ProducerStep, HeaderSame;
    if Inserting(p.producing) {
      InsertHeader(p, tail, block, canAlloc);
    } else {
      FillHeader(p, tail, block, canAlloc);
    }
  }

  predicate NumbersSame(p: Producer, p': Producer, block: Option<BlockId>) {
    && p.log <= p'.log && p'.cleared == p.cleared && p'.back == p.back && p'.home == p.home
    && (!(p.producing.Requisition? && block.Some?) ==> p'.out == p.out)
    && (p.producing.Reset? ==> p'.producing.SetValue? && p'.producing.b == p.producing.b)
  }

  lemma InsertSame(p: Producer, tail: nat, block: Option<BlockId>, canAlloc: bool)
    requires Inserting(p.producing)
    ensures NumbersSame(p, ProducerStep(p, tail, block, canAlloc), block)
  {
    hide NextTail, EntryOf, UndoEntry, Larger, NewKeys, Rewound, BlockAt, LastBlock, Wrap, ChainBase;
    match p.producing
    case LoadEntry(_) =>
    case Grow(_) =>
    case SetKey(_, _) =>
    case SetTail(_, _) =>
    case Requisition(_, _) =>
    case Reset(_, _, _) =>
  }

  lemma FillSame(p: Producer, tail: nat, block: Option<BlockId>, canAlloc: bool)
    requires !Inserting(p.producing) && !p.producing.SetValue? && !(p.producing.Undo? && p.producing.k >= |p.producing.op.chain|)
    ensures NumbersSame(p, ProducerStep(p, tail, block, canAlloc), block)
  {
    hide NextTail, EntryOf, UndoEntry, Larger, NewKeys, Rewound, BlockAt, LastBlock, Wrap, ChainBase;
    match p.producing
    case Rewind(_, _) =>
    case ClearValue(_, _) =>
    case Undo(_, _) =>
    case UndoTail(_, _) =>
    case Write(_, _, _) =>
    case _ =>
  }

  /** All steps but two leave the numbers of blocks alone. */
  lemma StepSame(p: Producer, tail: nat, block: Option<BlockId>, canAlloc: bool)
    requires !p.producing.SetValue? && !(p.producing.Undo? && p.producing.k >= |p.producing.op.chain|)
    ensures NumbersSame(p, ProducerStep(p, tail, block, canAlloc), block)
  {
    hide ProducerStep, NumbersSame;
    if Inserting(p.producing) {
      InsertSame(p, tail, block, canAlloc);
    } else {
      FillSame(p, tail, block, canAlloc);
    }
  }

  lemma StepHome(p: Producer, tail: nat, block: Option<BlockId>, canAlloc: bool)
    requires PlaceOk(p, tail)
    ensures var p' := ProducerStep(p, tail, block, canAlloc);
      && p.log <= p'.log && p'.cleared == p.cleared && p'.back == p.back
      && forall n :: 0 <= n < |p.home| && 32 * n < tail ==> n < |p'.home| && p'.home[n] == p.home[n]
  {
    if p.producing.SetValue? {
      hide PlaceOk;
    } else if p.producing.Undo? && p.producing.k >= |p.producing.op.chain| {
      UndoneHome(p, tail, block, canAlloc);
    } else {
      hide PlaceOk, ProducerStep;
      StepSame(p, tail, block, canAlloc);
    }
  }

  lemma UndoneHome(p: Producer, tail: nat, block: Option<BlockId>, canAlloc: bool)
    requires PlaceOk(p, tail) && p.producing.Undo? && p.producing.k >= |p.producing.op.chain|
    ensures var p', op := ProducerStep(p, tail, block, canAlloc), p.producing.op;
      && p'.log == p.log && p'.cleared == p.cleared && p'.back == p.back
      && |op.chain| <= |p.home| && p.home[|p.home| - |op.chain|..] == op.chain && tail <= 32 * (|p.home| - |op.chain|)
      && p'.home == p.home[..|p.home| - |op.chain|] && p'.out == p.out - set b | b in op.chain
  {
    hide NewBlock, EntryOf;
  }

  /** A step that hands out nothing. */
  lemma OutKept(p: Producer, p': Producer)
    requires OutOk(p) && p'.out == p.out && p'.home == p.home && p'.back == p.back
    requires forall b :: JustHandedOut(p.producing, b) ==> JustHandedOut(p'.producing, b)
    ensures OutOk(p')
  {
  }

  lemma OutEntered(p: Producer, p': Producer, b: BlockId)
    requires OutOk(p) && p'.out == p.out && p'.home == p.home + [b] && p'.back == p.back && |p.home| !in p.back
    requires p.producing.SetValue? && p.producing.b == b
    ensures OutOk(p')
  {
    forall c | c in p'.out
      ensures exists n: nat :: n < |p'.home| && n !in p'.back && p'.home[n] == c
    {
      if c == b {
        assert p'.home[|p.home|] == c;
      } else {
        var n: nat :| n < |p.home| && n !in p.back && p.home[n] == c;
        assert p'.home[n] == c;
      }
    }
  }

  lemma OutUndone(p: Producer, p': Producer, op: Op)
    requires OutOk(p) && |op.chain| <= |p.home| && p.home[|p.home| - |op.chain|..] == op.chain
    requires p'.out == p.out - (set b | b in op.chain) && p'.home == p.home[..|p.home| - |op.chain|] && p'.back == p.back
    requires !p.producing.Reset? && !p.producing.SetValue?
    ensures OutOk(p')
  {
    var start := |p.home| - |op.chain|;
    forall c | c in p'.out
      ensures exists n: nat :: n < |p'.home| && n !in p'.back && p'.home[n] == c
    {
      var n: nat :| n < |p.home| && n !in p.back && p.home[n] == c;
      ChainHas(p.home, op.chain, n);
      assert p'.home[n] == c;
    }
  }

  lemma ChainHas(home: seq<BlockId>, chain: seq<BlockId>, n: nat)
    requires |chain| <= |home| && home[|home| - |chain|..] == chain && n < |home|
    ensures n >= |home| - |chain| ==> home[n] in chain
  {
    assert n >= |home| - |chain| ==> home[|home| - |chain|..][n - (|home| - |chain|)] == home[n];
  }

  lemma OutRequisition(p: Producer, p': Producer, b: BlockId)
    requires OutOk(p) && p'.out == p.out + {b} && p'.home == p.home && p'.back == p.back
    requires p.producing.Requisition? && JustHandedOut(p'.producing, b)
    ensures OutOk(p')
  {
  }

  lemma OutStep(p: Producer, done: set<nat>, tail: nat, block: Option<BlockId>, canAlloc: bool)
    requires OutOk(p) && ProducerOk(p, done, tail)
    ensures OutOk(ProducerStep(p, tail, block, canAlloc))
  {
    var p' := ProducerStep(p, tail, block, canAlloc);
    if p.producing.Requisition? && block.Some? {
      hide ProducerOk, OutOk;
      OutRequisition(p, p', block.value);
    } else if p.producing.SetValue? {
      SetValueOut(p, done, tail, block, canAlloc);
    } else if p.producing.Undo? && p.producing.k >= |p.producing.op.chain| {
      hide ProducerStep, OutOk, PlaceOk, HeadersOk, IndexOk, KeysOk, ValuesOk, StoredOk, CountsOk, BlocksOk, DoneOk;
      UndoneHome(p, tail, block, canAlloc);
      OutUndone(p, p', p.producing.op);
    } else {
      hide ProducerStep, OutOk, ProducerOk;
      StepSame(p, tail, block, canAlloc);
      OutKept(p, p');
    }
  }

  lemma SetValueOut(p: Producer, done: set<nat>, tail: nat, block: Option<BlockId>, canAlloc: bool)
    requires OutOk(p) && ProducerOk(p, done, tail) && p.producing.SetValue?
    ensures OutOk(ProducerStep(p, tail, block, canAlloc))
  {
    hide OutOk, PlaceOk, HeadersOk, IndexOk, KeysOk, ValuesOk, StoredOk, CountsOk, BlocksOk;
    StartPlace(p, tail);
    NotComplete(p, done, tail, |p.home|);
    OutEntered(p, ProducerStep(p, tail, block, canAlloc), p.producing.b);
  }

  lemma StartPlace(p: Producer, tail: nat)
    requires PlaceOk(p, tail) && !p.producing.Ready?
    ensures var op := p.producing.op; |op.chain| <= |p.home| && p.home[|p.home| - |op.chain|..] == op.chain && tail <= 32 * |p.home|
  {
    hide NewBlock, EntryOf;
  }

  lemma InvProduce(s: State, block: Option<BlockId>, canAlloc: bool)
    requires Inv(s) && Enabled(s, Produce(block, canAlloc))
    ensures Inv(Apply(s, Produce(block, canAlloc)))
  {
    hide ProducerStep, ProducerOk, LooksOk, HolderOk, TakenOk, Grows, C.Inv, OutOk, PlaceOk;
    var s' := Apply(s, Produce(block, canAlloc));
    OutStep(s.p, s.done, s.c.tail, block, canAlloc);
    if s.p.producing.StoreTail? {
      StoreTailOk(s.p, s.done, s.c.tail, block, canAlloc);
      C.InvEnqueue(s.c, |s.p.producing.op.values|);
    } else {
      ProducerStepOk(s.p, s.done, s.c.tail, block, canAlloc);
    }
    PlaceOf(s.p, s.done, s.c.tail);
    PlaceOf(s'.p, s.done, s'.c.tail);
    StepGrows(s.p, s.c.tail, block, canAlloc);
    ConsumersKept(s, s');
  }

  lemma PlaceOf(p: Producer, done: set<nat>, tail: nat)
    requires ProducerOk(p, done, tail)
    ensures PlaceOk(p, tail)
  {
  }

  lemma InvStart(s: State, values: seq<Value>)
    requires Inv(s) && Enabled(s, Start(values))
    ensures Inv(Apply(s, Start(values)))
  {
    hide ProducerOk, LooksOk, HolderOk, TakenOk, C.Inv, OutOk, Grows;
    var s' := Apply(s, Start(values));
    StartOk(s.p, s.done, s.c.tail, values);
    OutKept(s.p, s'.p);
    PlaceOf(s.p, s.done, s.c.tail);
    NewestCovers(s.p, s.c.tail);
    GrowsSame(s.p, s'.p, s.c.tail);
    ConsumersKept(s, s');
  }

  // ---------------------------------------------------------------- every access of a consumer keeps it

  /** Nothing changes outside of the claim of t, nor for blocks that others are giving back. */
  ghost predicate OnlyIn(s: State, s': State, t: Tid, first: nat, lim: nat) {
    && (forall i: nat :: i < first || lim <= i ==> (WasTaken(s'.taken, i) <==> WasTaken(s.taken, i)) && (i in s'.done <==> i in s.done))
    && (forall n: nat, u :: u != t && Holds(s.holder, n, u) ==>
          && Holds(s'.holder, n, u) && (n in s'.p.cleared <==> n in s.p.cleared) && (n in s'.p.back <==> n in s.p.back))
  }

  /** A consumer's access changes no index and no block number. */
  predicate SameNumbers(p: Producer, p': Producer) {
    p'.older == p.older && p'.current == p.current && p'.home == p.home
  }

  lemma OtherLook(s: State, s': State, t: Tid, u: Tid, look: Look, first: nat, lim: nat, myFirst: nat, myLim: nat)
    requires LookOk(s.p, s.holder, s.taken, s.done, u, look, first, lim) && SameNumbers(s.p, s'.p)
    requires OnlyIn(s, s', t, myFirst, myLim) && Apart(first, lim, myFirst, myLim) && u != t
    ensures LookOk(s'.p, s'.holder, s'.taken, s'.done, u, look, first, lim)
  {
    hide PlaceFound, WasTaken, SameNumbers;
    OtherPlace(s, s', t, u, look, first, lim, myFirst, myLim);
  }

  lemma OtherPlace(s: State, s': State, t: Tid, u: Tid, look: Look, first: nat, lim: nat, myFirst: nat, myLim: nat)
    requires PlaceFound(s.p, s.holder, u, look, first, lim) && SameNumbers(s.p, s'.p)
    requires OnlyIn(s, s', t, myFirst, myLim) && u != t
    ensures PlaceFound(s'.p, s'.holder, u, look, first, lim)
  {
    hide WasTaken, Slot;
    if look.ClearEntry? || look.FreeBlock? {
      assert Holds(s.holder, look.from / 32, u);
    }
  }

  /** What is left to show of an access of t. */
  lemma LookUpdated(s: State, s': State, t: Tid)
    requires C.Inv(s.c) && LooksOk(s) && ThroughOk(s.c, s.taken, s.done) && Reading(s.c, t)
    requires s'.c == s.c && t in s'.looks && s'.looks == s.looks[t := s'.looks[t]] && SameNumbers(s.p, s'.p)
    requires OnlyIn(s, s', t, s.c.pcs[t].first, s.c.pcs[t].first + s.c.pcs[t].actual)
    requires LookOk(s'.p, s'.holder, s'.taken, s'.done, t, s'.looks[t], s.c.pcs[t].first, s.c.pcs[t].first + s.c.pcs[t].actual)
    ensures LooksOk(s') && ThroughOk(s'.c, s'.taken, s'.done)
  {
    hide LookOk, WasTaken, C.Inv, SameNumbers;
    var myFirst, myLim := s.c.pcs[t].first, s.c.pcs[t].first + s.c.pcs[t].actual;
    OwnClaim(s.c, t);
    forall u | Reading(s'.c, u)
      ensures u in s'.looks
      ensures LookOk(s'.p, s'.holder, s'.taken, s'.done, u, s'.looks[u], s.c.pcs[u].first, s.c.pcs[u].first + s.c.pcs[u].actual)
    {
      if u != t {
        ClaimsApart(s.c, u, t);
        OtherLook(s, s', t, u, s.looks[u], s.c.pcs[u].first, s.c.pcs[u].first + s.c.pcs[u].actual, myFirst, myLim);
      }
    }
  }

  /** Whoever gives back a block is still at it, unless the access was the last one of this. */
  lemma HoldersMoved(s: State, s': State, t: Tid)
    requires HolderOk(s) && s'.c == s.c && t in s'.looks && s'.looks == s.looks[t := s'.looks[t]]
    requires s'.holder == s.holder && s'.done == s.done && s.p.back <= s'.p.back
    requires forall n: nat :: Holds(s.holder, n, t) && WithHolder(s.c, s.looks, s.p.back, n, t) ==>
               WithHolder(s.c, s'.looks, s'.p.back, n, t)
    ensures HolderOk(s')
  {
    hide Complete;
    forall n | n in s'.holder
      ensures WithHolder(s'.c, s'.looks, s'.p.back, n, s'.holder[n])
    {
      assert WithHolder(s.c, s.looks, s.p.back, n, s.holder[n]);
    }
  }

  /** An access that only moves the consumer on. */
  lemma LookMoved(s: State, t: Tid, look: Look)
    requires Inv(s) && Reading(s.c, t) && t in s.looks && !s.looks[t].ClearEntry? && !s.looks[t].FreeBlock?
    requires var first, lim := s.c.pcs[t].first, s.c.pcs[t].first + s.c.pcs[t].actual;
      LookOk(s.p, s.holder, s.taken, s.done, t, look, first, lim)
    ensures Inv(s.(looks := s.looks[t := look]))
  {
    hide LookOk, WasTaken, ProducerOk, TakenOk, LooksOk, ThroughOk, HolderOk, C.Inv, OutOk;
    var s' := s.(looks := s.looks[t := look]);
    LookUpdated(s, s', t);
    HoldersMoved(s, s', t);
  }

  lemma LookOkOf(s: State, t: Tid)
    requires LooksOk(s) && Reading(s.c, t)
    ensures t in s.looks
    ensures LookOk(s.p, s.holder, s.taken, s.done, t, s.looks[t], s.c.pcs[t].first, s.c.pcs[t].first + s.c.pcs[t].actual)
  {
  }

  lemma HeaderAt(p: Producer, h: nat)
    requires HeadersOk(p) && h <= |p.older|
    ensures HeaderOk(p, At(p, h))
  {
  }

  lemma SettledCovers(p: Producer, tail: nat, i: nat)
    requires PlaceOk(p, tail) && i < tail
    ensures i / 32 < |p.home| && i / 32 < Settled(p.producing, |p.home|)
  {
    hide EntryOf, NewBlock;
  }

  /** An element that is not counted: its block number is in the index, and its entry has key and block. */
  lemma EntryFound(p: Producer, done: set<nat>, tail: nat, h: nat, i: nat)
    requires ProducerOk(p, done, tail) && i !in done && i < tail && h <= |p.older| && i < 32 * At(p, h).high
    ensures var e := EntryAt(At(p, h), Slot(At(p, h), i / 32));
      && e == EntryOf(p, i / 32) && KeyOf(p.keys, e) == 32 * (i / 32)
      && i / 32 < |p.home| && ValueOf(p.values, e) == Some(p.home[i / 32])
    ensures p.low <= i / 32
  {
    hide HeadersOk, CountsOk, BlocksOk, StoredOk, PlaceOk, Slot, EntryOf, IndexOk, DoneOk, Vacant, Settled;
    InUse(p, done, tail, i);
    HeaderAt(p, h);
    SettledCovers(p, tail, i);
  }

  /** The key of the tail that a consumer loaded is still the base of its number. */
  lemma TailKey(p: Producer, done: set<nat>, tail: nat, h: nat, newest: int, i: nat)
    requires ProducerOk(p, done, tail) && i !in done && h <= |p.older| && i / 32 <= newest < At(p, h).high
    ensures KeyOf(p.keys, EntryAt(At(p, h), Slot(At(p, h), newest))) == 32 * newest
  {
    hide HeadersOk, CountsOk, BlocksOk, StoredOk, PlaceOk, Slot, EntryOf, IndexOk, DoneOk, ValuesOk;
    InUse(p, done, tail, i);
    HeaderAt(p, h);
  }

  /** The loads of the index, its tail, a key and a block. */
  lemma LoadPlace(s: State, t: Tid, look: Look, first: nat, lim: nat)
    requires ProducerOk(s.p, s.done, s.c.tail) && LookOk(s.p, s.holder, s.taken, s.done, t, look, first, lim) && lim <= s.c.tail
    requires look.LoadIndex? || look.LoadTail? || look.LoadKey? || look.LoadValue?
    ensures PlaceFound(s.p, s.holder, t, LookStep(s, t, look, first, lim).looks[t], first, lim)
  {
    hide WasTaken, HeadersOk, CountsOk, BlocksOk, StoredOk, PlaceOk, IndexOk, KeysOk, ValuesOk, DoneOk, Slot, SlotFor, EntryOf, KeyOf, ValueOf;
    match look
    case LoadIndex =>
      assert At(s.p, |s.p.older|) == s.p.current;
      NewestCovers(s.p, s.c.tail);
    case LoadTail(h) =>
      HeaderAt(s.p, h);
    case LoadKey(h, tail, newest) =>
      HeaderAt(s.p, h);
      assert first !in s.done;
      TailKey(s.p, s.done, s.c.tail, h, newest, first);
      OffsetFinds(At(s.p, h), newest, 32 * newest, first, first / 32);
    case LoadValue(h, slot, next) =>
      assert next !in s.done;
      EntryFound(s.p, s.done, s.c.tail, h, next);
  }

  lemma InvLoad(s: State, t: Tid)
    requires Inv(s) && Reading(s.c, t) && t in s.looks
    requires s.looks[t].LoadIndex? || s.looks[t].LoadTail? || s.looks[t].LoadKey? || s.looks[t].LoadValue?
    ensures Inv(LookStep(s, t, s.looks[t], s.c.pcs[t].first, s.c.pcs[t].first + s.c.pcs[t].actual))
  {
    hide WasTaken, ProducerOk, PlaceFound, TakenOk, ThroughOk, HolderOk, C.Inv, OutOk, SlotFor;
    var look, first, lim := s.looks[t], s.c.pcs[t].first, s.c.pcs[t].first + s.c.pcs[t].actual;
    LookOkOf(s, t);
    OwnClaim(s.c, t);
    LoadPlace(s, t, look, first, lim);
    LookMoved(s, t, LookStep(s, t, look, first, lim).looks[t]);
  }

  /** Taking a value: it is in the block that was found. */
  lemma ElementFound(p: Producer, done: set<nat>, tail: nat, look: Look, first: nat, lim: nat, holder: map<nat, Tid>, taken: seq<Taken>, t: Tid)
    requires ProducerOk(p, done, tail) && LookOk(p, holder, taken, done, t, look, first, lim) && lim <= tail
    requires look.ReadElement? && look.next < End(look.from, lim)
    ensures first <= look.next < lim && look.next !in done && !WasTaken(taken, look.next) && look.next < |p.log|
    ensures look.next / 32 < |p.home| && look.block == p.home[look.next / 32]
    ensures ElementIn(p.elements, Cell(look.block, look.next % 32)) == p.log[look.next]
  {
    hide WasTaken, HeadersOk, CountsOk, BlocksOk, PlaceOk, IndexOk, KeysOk, ValuesOk, DoneOk, Slot, EntryOf;
    LogCovers(p, tail);
    assert look.next / 32 == look.from / 32;
    assert Stored(p, look.next);
  }

  lemma LogCovers(p: Producer, tail: nat)
    requires PlaceOk(p, tail)
    ensures tail <= |p.log|
  {
    hide EntryOf, NewBlock;
  }

  lemma InvRead(s: State, t: Tid)
    requires Inv(s) && Reading(s.c, t) && t in s.looks && s.looks[t].ReadElement?
    ensures Inv(LookStep(s, t, s.looks[t], s.c.pcs[t].first, s.c.pcs[t].first + s.c.pcs[t].actual))
  {
    hide WasTaken, ProducerOk, TakenOk, ThroughOk, LooksOk, HolderOk, C.Inv, Slot, OutOk;
    var look, first, lim := s.looks[t], s.c.pcs[t].first, s.c.pcs[t].first + s.c.pcs[t].actual;
    LookOkOf(s, t);
    OwnClaim(s.c, t);
    var s', next := LookStep(s, t, look, first, lim), look.next;
    if next < End(look.from, lim) {
      ElementFound(s.p, s.done, s.c.tail, look, first, lim, s.holder, s.taken, t);
      TakenMore(s.taken, Taken(next, s.p.log[next]), s.p.log);
      LookUpdated(s, s', t);
      HoldersMoved(s, s', t);
    } else {
      LookMoved(s, t, s'.looks[t]);
    }
  }

  // ---------------------------------------------------------------- counting the elements of a block

  lemma {:induction false} CountedBound(done: set<nat>, n: nat, k: nat)
    ensures Counted(done, n, k) <= k
    ensures Counted(done, n, k) == k <==> forall i: nat :: 32 * n <= i < 32 * n + k ==> i in done
    decreases k
  {
    if k > 0 {
      CountedBound(done, n, k - 1);
    }
  }

  lemma CountedAll(done: set<nat>, n: nat)
    ensures Counted(done, n, 32) == 32 <==> Complete(done, n)
  {
    CountedBound(done, n, 32);
  }

  /** How many of the first k elements of block number n are among the indices from `from` on and below `end`. */
  function Overlap(n: nat, k: nat, from: nat, end: nat): nat {
    var hi := if end < 32 * n + k then end else 32 * n + k;
    if from < hi then hi - from else 0
  }

  lemma {:induction false} CountedMore(done: set<nat>, n: nat, k: nat, from: nat, end: nat)
    requires 32 * n <= from <= end && forall i :: from <= i < end ==> i !in done
    ensures Counted(done + Range(from, end - from), n, k) == Counted(done, n, k) + Overlap(n, k, from, end)
    decreases k
  {
    RangeIs(from, end - from);
    if k > 0 {
      CountedMore(done, n, k - 1, from, end);
    }
  }

  lemma {:induction false} CountedSame(done: set<nat>, n: nat, k: nat, from: nat, end: nat)
    requires from <= end && (end <= 32 * n || 32 * n + k <= from)
    ensures Counted(done + Range(from, end - from), n, k) == Counted(done, n, k)
    decreases k
  {
    RangeIs(from, end - from);
    if k > 0 {
      CountedSame(done, n, k - 1, from, end);
    }
  }

  lemma CompleteSame(done: set<nat>, n: nat, from: nat, end: nat)
    requires from <= end && (end <= 32 * n || 32 * n + 32 <= from)
    ensures Complete(done + Range(from, end - from), n) <==> Complete(done, n)
  {
    CountedSame(done, n, 32, from, end);
    CountedAll(done, n);
    CountedAll(done + Range(from, end - from), n);
  }

  /** The counter after the access, and what it says. */
  lemma CountsAfter(p: Producer, p': Producer, done: set<nat>, tail: nat, from: nat, end: nat)
    requires ProducerOk(p, done, tail) && from < end <= from / 32 * 32 + 32 && end <= tail
    requires forall i :: from <= i < end ==> i !in done
    requires from / 32 < |p.home| && p'.home == p.home && p'.back == p.back
    requires p'.counts == p.counts[p.home[from / 32] := CountOf(p.counts, p.home[from / 32]) + (end - from)]
    ensures CountsOk(p', done + Range(from, end - from))
    ensures p'.counts[p.home[from / 32]] == 32 <==> Complete(done + Range(from, end - from), from / 32)
  {
    hide HeadersOk, PlaceOk, StoredOk, IndexOk, KeysOk, ValuesOk, Counted, Complete, DoneOk;
    var n, done' := from / 32, done + Range(from, end - from);
    InUse(p, done, tail, from);
    CountedMore(done, n, 32, from, end);
    CountedAll(done', n);
    forall m: nat | m < |p.home| && m !in p.back
      ensures p.home[m] in p'.counts && p'.counts[p.home[m]] == Counted(done', m, 32)
    {
      if m != n {
        CountedSame(done, m, 32, from, end);
        assert m < n || n < m;
      }
    }
  }

  lemma CountedDone(p: Producer, p': Producer, done: set<nat>, tail: nat, from: nat, end: nat)
    requires DoneOk(p, done, tail) && from <= end <= tail && StoredOk(p, done)
    requires p'.low == p.low && p'.cleared == p.cleared && p'.back == p.back
    requires p'.home == p.home && p'.log == p.log && p'.elements == p.elements
    ensures DoneOk(p', done + Range(from, end - from), tail) && StoredOk(p', done + Range(from, end - from))
  {
    var done' := done + Range(from, end - from);
    RangeIs(from, end - from);
    forall i: nat | i < |p'.log| && i !in done'
      ensures Stored(p', i)
    {
      assert Stored(p, i);
    }
    forall n | n in p'.cleared
      ensures Complete(done', n)
    {
      assert Complete(done, n);
    }
  }

  /** What an access of a consumer does not touch. */
  lemma CountedIndex(p: Producer, p': Producer, tail: nat)
    requires HeadersOk(p) && IndexOk(p) && KeysOk(p) && ValuesOk(p) && WindowOk(p, tail)
    requires p' == p.(counts := p'.counts)
    ensures HeadersOk(p') && IndexOk(p') && KeysOk(p') && ValuesOk(p') && WindowOk(p', tail)
  {
    hide EntryOf, Slot;
    TailIs(p);
    EntriesSame(p, p');
    HeadersKept(p, p');
    IndexKept(p, p');
    KeysKept(p, p');
    ValuesKept(p, p');
  }

  /** The counter of a block that is just being set up is not touched. */
  lemma CountedPlace(p: Producer, p': Producer, tail: nat, n: nat, count: nat)
    requires PlaceOk(p, tail) && BlocksOk(p) && n < |p.home| && n !in p.back
    requires p' == p.(counts := p.counts[p.home[n] := count])
    ensures PlaceOk(p', tail) && BlocksOk(p')
  {
    hide PlaceOk;
    PlaceShared(p, p', tail);
  }

  /** What consumers change does not matter to an operation, but for the block that was just handed out. */
  lemma PlaceShared(p: Producer, p': Producer, tail: nat)
    requires PlaceOk(p, tail)
    requires p' == p.(counts := p'.counts, values := p'.values, cleared := p'.cleared, out := p'.out, back := p'.back)
    requires p.cleared <= p'.cleared
    requires forall b :: JustHandedOut(p.producing, b) && NewBlock(p, b) ==>
               NewBlock(p', b) && (b in p.counts ==> b in p'.counts && p'.counts[b] == p.counts[b])
    ensures PlaceOk(p', tail)
  {
    hide EntryOf, NewBlock;
    EntriesSame(p, p');
    match p.producing
    case Ready =>
    case LoadEntry(_) =>
    case Grow(_) =>
    case SetKey(_, _) =>
    case SetTail(_, _) =>
    case Requisition(_, _) =>
    case Reset(_, _, b) => assert JustHandedOut(p.producing, b);
    case SetValue(_, _, b) => assert JustHandedOut(p.producing, b);
    case _ =>
  }

  lemma CountOk(p: Producer, p': Producer, done: set<nat>, tail: nat, from: nat, end: nat)
    requires ProducerOk(p, done, tail) && from < end <= from / 32 * 32 + 32 && end <= tail
    requires forall i :: from <= i < end ==> i !in done
    requires from / 32 < |p.home|
    requires p' == p.(counts := p.counts[p.home[from / 32] := CountOf(p.counts, p.home[from / 32]) + (end - from)])
    ensures ProducerOk(p', done + Range(from, end - from), tail)
    ensures p'.counts[p.home[from / 32]] == 32 <==> Complete(done + Range(from, end - from), from / 32)
  {
    hide HeadersOk, PlaceOk, StoredOk, IndexOk, KeysOk, ValuesOk, DoneOk, Complete, BlocksOk, CountsOk, CountOf;
    InUse(p, done, tail, from);
    CountsAfter(p, p', done, tail, from, end);
    CountedDone(p, p', done, tail, from, end);
    CountedIndex(p, p', tail);
    CountedPlace(p, p', tail, from / 32, CountOf(p.counts, p.home[from / 32]) + (end - from));
  }

  /** Where the counting ends, and what the consumer finds next. */
  lemma AdvanceFound(p: Producer, holder: map<nat, Tid>, t: Tid, h: nat, slot: int, block: BlockId, from: nat, end: nat, first: nat, lim: nat)
    requires Found(p, h, slot, block, from, lim) && first <= from && end == End(from, lim)
    ensures var look' := Advance(At(p, h), h, slot, end, lim);
      && PlaceFound(p, holder, t, look', first, lim) && ReadUpTo(look', first, lim) == end
      && forall i: nat :: i < lim ==> (IsCounted(look', i) <==> i < end)
  {
    hide Slot, Wrap;
    NextSlotIs(At(p, h), from / 32);
    NextBlockNumber(from, lim);
  }

  /** The indices of a consumer after its count. */
  lemma ShareCounted(taken: seq<Taken>, done: set<nat>, look: Look, first: nat, lim: nat, look': Look)
    requires ShareOk(taken, done, look, first, lim) && look.Count? && first <= look.from < lim && look.end == End(look.from, lim)
    requires ReadUpTo(look', first, lim) == look.end && forall i: nat :: i < lim ==> (IsCounted(look', i) <==> i < look.end)
    ensures ShareOk(taken, done + Range(look.from, look.end - look.from), look', first, lim)
    ensures forall i :: look.from <= i < look.end ==> i !in done
  {
    hide WasTaken;
    RangeIs(look.from, look.end - look.from);
  }

  /** Whoever counts the last elements of a block clears its entry next. */
  function AfterCount(p: Producer, look: Look, lim: nat, last: bool): Look
    requires look.Count?
  {
    if last then ClearEntry(look.h, look.slot, look.block, look.from, look.end)
    else Advance(At(p, look.h), look.h, look.slot, look.end, lim)
  }

  lemma AfterCountOk(p: Producer, holder: map<nat, Tid>, taken: seq<Taken>, done: set<nat>, t: Tid, look: Look, first: nat, lim: nat,
                     last: bool)
    requires LookOk(p, holder, taken, done, t, look, first, lim) && look.Count?
    ensures first <= look.from < look.end <= look.from / 32 * 32 + 32 && look.end <= lim
    ensures last ==> AfterCount(p, look, lim, last).ClearEntry? && AfterCount(p, look, lim, last).from == look.from
    ensures look.from / 32 < |p.home| && look.block == p.home[look.from / 32]
    ensures forall i :: look.from <= i < look.end ==> i !in done
    ensures ShareOk(taken, done + Range(look.from, look.end - look.from), AfterCount(p, look, lim, last), first, lim)
    ensures look.from / 32 !in p.cleared ==>
      PlaceFound(p, if last then holder[look.from / 32 := t] else holder, t, AfterCount(p, look, lim, last), first, lim)
  {
    hide WasTaken, Slot, Wrap, Advance, ShareOk;
    AdvanceFound(p, holder, t, look.h, look.slot, look.block, look.from, look.end, first, lim);
    ShareCounted(taken, done, look, first, lim, AfterCount(p, look, lim, last));
  }

  lemma CountIs(s: State, t: Tid, look: Look, first: nat, lim: nat)
    requires look.Count? && look.from <= look.end
    ensures var count := CountOf(s.p.counts, look.block) + (look.end - look.from);
      LookStep(s, t, look, first, lim)
      == s.(p := s.p.(counts := s.p.counts[look.block := count]), done := s.done + Range(look.from, look.end - look.from),
            holder := if count == 32 then s.holder[look.from / 32 := t] else s.holder,
            looks := s.looks[t := AfterCount(s.p, look, lim, count == 32)])
  {
    hide Advance, CountOf, Range;
  }

  lemma InvCount(s: State, t: Tid)
    requires Inv(s) && Reading(s.c, t) && t in s.looks && s.looks[t].Count?
    ensures Inv(LookStep(s, t, s.looks[t], s.c.pcs[t].first, s.c.pcs[t].first + s.c.pcs[t].actual))
  {
    hide WasTaken, ProducerOk, LookOk, TakenOk, ThroughOk, LooksOk, HolderOk, C.Inv, OutOk, Complete, CountOf, AfterCount, LookStep, Range;
    var look, first, lim := s.looks[t], s.c.pcs[t].first, s.c.pcs[t].first + s.c.pcs[t].actual;
    var s', n := LookStep(s, t, look, first, lim), look.from / 32;
    var count := CountOf(s.p.counts, look.block) + if look.from <= look.end then look.end - look.from else 0;
    LookOkOf(s, t);
    OwnClaim(s.c, t);
    AfterCountOk(s.p, s.holder, s.taken, s.done, t, look, first, lim, count == 32);
    CountIs(s, t, look, first, lim);
    CountOk(s.p, s'.p, s.done, s.c.tail, look.from, look.end);
    CountHolders(s, s', t, look.from, look.end, s'.looks[t]);
    CountLook(s, s', t, look, first, lim, count == 32);
    CountOnly(s, s', t, look.from, look.end, first, lim);
    LookUpdated(s, s', t);
    OutKept(s.p, s'.p);
  }

  lemma CountLook(s: State, s': State, t: Tid, look: Look, first: nat, lim: nat, last: bool)
    requires ProducerOk(s.p, s.done, s.c.tail) && LookOk(s.p, s.holder, s.taken, s.done, t, look, first, lim) && look.Count?
    requires SameNumbers(s.p, s'.p) && s'.p.cleared == s.p.cleared && s'.p.back == s.p.back && s'.taken == s.taken
    requires s'.done == s.done + Range(look.from, look.end - look.from) && look.from <= look.end
    requires s'.holder == if last then s.holder[look.from / 32 := t] else s.holder
    ensures LookOk(s'.p, s'.holder, s'.taken, s'.done, t, AfterCount(s.p, look, lim, last), first, lim)
  {
    hide WasTaken, ShareOk, PlaceFound, AfterCount, Range, SameNumbers, HeadersOk, IndexOk, KeysOk, ValuesOk, StoredOk, DoneOk, CountsOk, BlocksOk,
      PlaceOk;
    AfterCountOk(s.p, s.holder, s.taken, s.done, t, look, first, lim, last);
    InUse(s.p, s.done, s.c.tail, look.from);
    PlaceSame(s.p, s'.p, s'.holder, t, AfterCount(s.p, look, lim, last), first, lim);
  }

  lemma CountOnly(s: State, s': State, t: Tid, from: nat, end: nat, first: nat, lim: nat)
    requires first <= from <= end <= lim && s'.taken == s.taken && s'.done == s.done + Range(from, end - from)
    requires from / 32 !in s.holder && (s'.holder == s.holder || s'.holder == s.holder[from / 32 := t])
    requires s'.p.cleared == s.p.cleared && s'.p.back == s.p.back
    ensures OnlyIn(s, s', t, first, lim)
  {
    hide WasTaken;
    RangeIs(from, end - from);
  }

  lemma PlaceSame(p: Producer, p': Producer, holder: map<nat, Tid>, t: Tid, look: Look, first: nat, lim: nat)
    requires PlaceFound(p, holder, t, look, first, lim) && SameNumbers(p, p') && p'.cleared == p.cleared && p'.back == p.back
    ensures PlaceFound(p', holder, t, look, first, lim)
  {
    hide Slot;
  }

  /** Who counts the last element of a block has to give it back; all others have to as before. */
  lemma CountHolders(s: State, s': State, t: Tid, from: nat, end: nat, look': Look)
    requires HolderOk(s) && Reading(s.c, t) && t in s.looks && s.looks[t].Count?
    requires from < end <= from / 32 * 32 + 32 && from !in s.done
    requires s'.c == s.c && s'.looks == s.looks[t := look'] && s'.done == s.done + Range(from, end - from) && s'.p.back == s.p.back
    requires s'.holder == if Complete(s'.done, from / 32) then s.holder[from / 32 := t] else s.holder
    requires Complete(s'.done, from / 32) ==> look'.ClearEntry? && look'.from == from
    ensures HolderOk(s')
    ensures from / 32 !in s.holder
  {
    var n := from / 32;
    assert !Complete(s.done, n);
    forall m: nat
      ensures m in s'.holder <==> Complete(s'.done, m)
      ensures m in s'.holder ==> WithHolder(s'.c, s'.looks, s'.p.back, m, s'.holder[m])
    {
      if m != n {
        CompleteSame(s.done, m, from, end);
        if m in s.holder {
          assert WithHolder(s.c, s.looks, s.p.back, m, s.holder[m]);
        }
      }
    }
  }

  // ---------------------------------------------------------------- giving back an empty block

  /** The entry of an empty block is cleared: other entries keep their blocks. */
  lemma ClearedValues(p: Producer, p': Producer, done: set<nat>, tail: nat, n: nat)
    requires ProducerOk(p, done, tail) && Complete(done, n) && n !in p.cleared
    requires p' == p.(values := p.values[EntryOf(p, n) := None], cleared := p.cleared + {n})
    ensures ValuesOk(p') && p.low <= n < p.current.high
  {
    hide HeadersOk, IndexOk, KeysOk, StoredOk, CountsOk, BlocksOk, EntryOf, Vacant, Settled, NewBlock;
    assert 32 * n + 31 in done;
    SettledCovers(p, tail, 32 * n);
    EntriesSame(p, p');
    OtherValues(p, EntryOf(p, n), n, None);
  }

  lemma ClearedDone(p: Producer, p': Producer, done: set<nat>, tail: nat, n: nat)
    requires DoneOk(p, done, tail) && Complete(done, n)
    requires p'.low == p.low && p'.back == p.back && p'.cleared == p.cleared + {n}
    ensures DoneOk(p', done, tail)
  {
    hide Complete;
  }

  lemma ClearedPlace(p: Producer, p': Producer, tail: nat, n: nat)
    requires PlaceOk(p, tail) && p' == p.(values := p'.values, cleared := p.cleared + {n})
    ensures PlaceOk(p', tail)
  {
    hide PlaceOk;
    PlaceShared(p, p', tail);
  }

  lemma ClearOk(p: Producer, p': Producer, done: set<nat>, tail: nat, n: nat)
    requires ProducerOk(p, done, tail) && Complete(done, n) && n !in p.cleared
    requires p' == p.(values := p.values[EntryOf(p, n) := None], cleared := p.cleared + {n})
    ensures ProducerOk(p', done, tail)
  {
    hide HeadersOk, IndexOk, KeysOk, ValuesOk, StoredOk, DoneOk, CountsOk, BlocksOk, PlaceOk, EntryOf, Slot, Complete;
    TailIs(p);
    EntriesSame(p, p');
    ClearedValues(p, p', done, tail, n);
    ClearedDone(p, p', done, tail, n);
    ClearedPlace(p, p', tail, n);
    HeadersKept(p, p');
    IndexKept(p, p');
    KeysKept(p, p');
    StoredKept(p, p', done);
    BlocksKept(p, p', done);
  }

  /** The entry that a consumer clears is that of its block. */
  lemma EntryToClear(p: Producer, done: set<nat>, tail: nat, h: nat, n: nat)
    requires ProducerOk(p, done, tail) && n !in p.cleared && h <= |p.older| && n < At(p, h).high
    ensures EntryAt(At(p, h), Slot(At(p, h), n)) == EntryOf(p, n)
  {
    hide HeadersOk, IndexOk, KeysOk, ValuesOk, StoredOk, CountsOk, BlocksOk, PlaceOk, EntryOf, Slot, Complete;
    HeaderAt(p, h);
  }

  lemma InvClear(s: State, t: Tid)
    requires Inv(s) && Reading(s.c, t) && t in s.looks && s.looks[t].ClearEntry?
    ensures Inv(LookStep(s, t, s.looks[t], s.c.pcs[t].first, s.c.pcs[t].first + s.c.pcs[t].actual))
  {
    hide WasTaken, ProducerOk, ShareOk, TakenOk, ThroughOk, LooksOk, C.Inv, Slot, OutOk, Complete, EntryOf, EntryAt;
    var look, first, lim := s.looks[t], s.c.pcs[t].first, s.c.pcs[t].first + s.c.pcs[t].actual;
    LookOkOf(s, t);
    OwnClaim(s.c, t);
    var s', n := LookStep(s, t, look, first, lim), look.from / 32;
    EntryToClear(s.p, s.done, s.c.tail, look.h, n);
    NotBack(s.p, s.done, s.c.tail, n);
    ClearOk(s.p, s'.p, s.done, s.c.tail, n);
    ShareSame(s.taken, s.done, look, s'.looks[t], first, lim);
    LookUpdated(s, s', t);
    HoldersMoved(s, s', t);
    OutKept(s.p, s'.p);
  }

  lemma NotBack(p: Producer, done: set<nat>, tail: nat, n: nat)
    requires ProducerOk(p, done, tail) && n !in p.cleared
    ensures n !in p.back
  {
    hide HeadersOk, IndexOk, KeysOk, ValuesOk, StoredOk, CountsOk, BlocksOk, PlaceOk, Complete;
  }

  lemma ShareSame(taken: seq<Taken>, done: set<nat>, look: Look, look': Look, first: nat, lim: nat)
    requires ShareOk(taken, done, look, first, lim) && ReadUpTo(look', first, lim) == ReadUpTo(look, first, lim)
    requires forall i: nat :: i < lim ==> (IsCounted(look', i) <==> IsCounted(look, i))
    ensures ShareOk(taken, done, look', first, lim)
  {
  }

  lemma FreedBlocks(p: Producer, p': Producer, done: set<nat>, tail: nat, n: nat)
    requires CountsOk(p, done) && BlocksOk(p) && DoneOk(p, done, tail) && PlaceOk(p, tail) && OutOk(p)
    requires n < |p.home| && n !in p.back && n in p.cleared
    requires p' == p.(out := p.out - {p.home[n]}, back := p.back + {n})
    ensures CountsOk(p', done) && BlocksOk(p') && DoneOk(p', done, tail) && OutOk(p')
  {
    hide EntryOf, Complete, Counted, PlaceOk;
    forall b | b in p'.out && !JustHandedOut(p'.producing, b)
      ensures exists m: nat :: m < |p'.home| && m !in p'.back && p'.home[m] == b
    {
      var m: nat :| m < |p.home| && m !in p.back && p.home[m] == b;
      assert m != n;
    }
  }

  lemma FreedPlace(p: Producer, p': Producer, tail: nat, n: nat)
    requires PlaceOk(p, tail) && n < |p.home| && n !in p.back
    requires p' == p.(out := p.out - {p.home[n]}, back := p.back + {n})
    ensures PlaceOk(p', tail)
  {
    hide PlaceOk;
    PlaceShared(p, p', tail);
  }

  lemma FreeOk(p: Producer, p': Producer, done: set<nat>, tail: nat, n: nat)
    requires ProducerOk(p, done, tail) && OutOk(p) && n < |p.home| && n !in p.back && n in p.cleared
    requires p' == p.(out := p.out - {p.home[n]}, back := p.back + {n})
    ensures ProducerOk(p', done, tail) && OutOk(p')
    ensures p.home[n] in p.out
  {
    hide HeadersOk, IndexOk, KeysOk, ValuesOk, StoredOk, DoneOk, CountsOk, PlaceOk, EntryOf, Slot, Complete, OutOk;
    TailIs(p);
    EntriesSame(p, p');
    FreedBlocks(p, p', done, tail, n);
    FreedPlace(p, p', tail, n);
    HeadersKept(p, p');
    IndexKept(p, p');
    KeysKept(p, p');
    ValuesKept(p, p');
    StoredKept(p, p', done);
  }

  lemma InvFree(s: State, t: Tid)
    requires Inv(s) && Reading(s.c, t) && t in s.looks && s.looks[t].FreeBlock?
    ensures Inv(LookStep(s, t, s.looks[t], s.c.pcs[t].first, s.c.pcs[t].first + s.c.pcs[t].actual))
  {
    hide WasTaken, ProducerOk, ShareOk, TakenOk, ThroughOk, LooksOk, C.Inv, Slot, OutOk, Complete, Advance, End;
    var look, first, lim := s.looks[t], s.c.pcs[t].first, s.c.pcs[t].first + s.c.pcs[t].actual;
    LookOkOf(s, t);
    OwnClaim(s.c, t);
    var s', n := LookStep(s, t, look, first, lim), look.from / 32;
    AdvanceFound(s.p, s.holder, t, look.h, look.slot, look.block, look.from, look.end, first, lim);
    FreeOk(s.p, s'.p, s.done, s.c.tail, n);
    ShareSame(s.taken, s.done, look, s'.looks[t], first, lim);
    AdvancePlace(s.p, s'.p, s.holder, t, look.h, look.slot, look.end, first, lim);
    LookUpdated(s, s', t);
    HoldersMoved(s, s', t);
  }

  lemma AdvancePlace(p: Producer, p': Producer, holder: map<nat, Tid>, t: Tid, h: nat, slot: int, end: nat, first: nat, lim: nat)
    requires PlaceFound(p, holder, t, Advance(At(p, h), h, slot, end, lim), first, lim) && SameNumbers(p, p')
    ensures PlaceFound(p', holder, t, Advance(At(p, h), h, slot, end, lim), first, lim)
  {
    hide Slot, Wrap;
  }

  // ---------------------------------------------------------------- the steps of the counters

  /** The steps that do not begin or end the reading. */
  lemma InvCounter(s: State, c': C.State, t: Tid)
    requires Inv(s) && C.Inv(c') && t in s.c.pcs && t in c'.pcs && c'.pcs == s.c.pcs[t := c'.pcs[t]]
    requires c'.tail == s.c.tail && c'.head == s.c.head && c'.takers == s.c.takers && !s.c.pcs[t].Read? && !c'.pcs[t].Read?
    ensures Inv(s.(c := c'))
  {
    hide LookOk, WasTaken, ProducerOk, TakenOk, C.Inv, OutOk, Complete;
    forall u | Reading(c', u)
      ensures u in s.looks && LookOk(s.p, s.holder, s.taken, s.done, u, s.looks[u], c'.pcs[u].first, c'.pcs[u].first + c'.pcs[u].actual)
    {
      assert Reading(s.c, u);
    }
    forall n | n in s.holder
      ensures WithHolder(c', s.looks, s.p.back, n, s.holder[n])
    {
      assert WithHolder(s.c, s.looks, s.p.back, n, s.holder[n]);
    }
    forall i: nat
      ensures InHands(c', i) <==> InHands(s.c, i)
    {
    }
  }

  lemma InvClaim(s: State, t: Tid)
    requires Inv(s) && t in s.c.pcs && s.c.pcs[t].AddHead?
    ensures Inv(s.(c := C.RunStep(s.c, t), looks := s.looks[t := if s.c.pcs[t].actual > 0 then LoadIndex else Finished]))
  {
    hide WasTaken, ProducerOk, TakenOk, C.Inv, C.RunStep, OutOk, Complete, PlaceFound;
    var c', look := C.RunStep(s.c, t), if s.c.pcs[t].actual > 0 then LoadIndex else Finished;
    var looks := s.looks[t := look];
    C.InvAddHead(s.c, t);
    ClaimIs(s.c, t);
    BeginFound(s.p, s.holder, t, look, s.c.head, c'.head);
    forall u | Reading(c', u)
      ensures u in looks && LookOk(s.p, s.holder, s.taken, s.done, u, looks[u], c'.pcs[u].first, c'.pcs[u].first + c'.pcs[u].actual)
    {
      if u != t {
        assert Reading(s.c, u);
      }
    }
    forall n | n in s.holder
      ensures WithHolder(c', looks, s.p.back, n, s.holder[n])
    {
      assert WithHolder(s.c, s.looks, s.p.back, n, s.holder[n]);
    }
    forall i: nat | i < c'.head
      ensures i < s.c.head ==> (InHands(s.c, i) ==> InHands(c', i))
      ensures i >= s.c.head ==> InHands(c', i)
    {
    }
  }

  lemma BeginFound(p: Producer, holder: map<nat, Tid>, t: Tid, look: Look, first: nat, lim: nat)
    requires first <= lim && look == if first < lim then LoadIndex else Finished
    ensures PlaceFound(p, holder, t, look, first, lim)
  {
  }

  lemma InvReturn(s: State, t: Tid)
    requires Inv(s) && Reading(s.c, t) && s.looks[t].Finished?
    ensures Inv(s.(c := C.RunStep(s.c, t)))
  {
    hide WasTaken, ProducerOk, TakenOk, PlaceFound, C.Inv, C.RunStep, OutOk, Complete;
    var c' := C.RunStep(s.c, t);
    C.InvMove(s.c, t, C.Idle);
    ReturnIs(s.c, t);
    LookOkOf(s, t);
    forall u | Reading(c', u)
      ensures u in s.looks && LookOk(s.p, s.holder, s.taken, s.done, u, s.looks[u], c'.pcs[u].first, c'.pcs[u].first + c'.pcs[u].actual)
    {
      assert Reading(s.c, u);
    }
    forall n | n in s.holder
      ensures WithHolder(c', s.looks, s.p.back, n, s.holder[n])
    {
      assert WithHolder(s.c, s.looks, s.p.back, n, s.holder[n]);
    }
    forall i: nat | i < c'.head && !InHands(c', i)
      ensures WasTaken(s.taken, i) && i in s.done
    {
      if InHands(s.c, i) {
        assert s.c.takers[i] == t;
      }
    }
  }

  lemma InvConsume(s: State, a: C.Action)
    requires Inv(s) && !a.Enqueue? && C.Enabled(s.c, a)
    ensures Inv(ConsumerStep(s, a))
  {
    hide LookStep, ProducerOk, ThroughOk, TakenOk, C.Inv, LookOk, OutOk, HolderOk;
    match a
    case Begin(t, max) =>
      C.InvStep(s.c, a);
      InvCounter(s, C.Apply(s.c, a), t);
    case Run(t) =>
      if Reading(s.c, t) {
        LookOkOf(s, t);
        match s.looks[t] {
          case Finished => InvReturn(s, t);
          case ReadElement(_, _, _, _, _) => InvRead(s, t);
          case Count(_, _, _, _, _) => InvCount(s, t);
          case ClearEntry(_, _, _, _, _) => InvClear(s, t);
          case FreeBlock(_, _, _, _, _) => InvFree(s, t);
          case _ => InvLoad(s, t);
        }
      } else if s.c.pcs[t].AddHead? {
        InvClaim(s, t);
      } else {
        C.InvStep(s.c, a);
        InvCounter(s, C.Apply(s.c, a), t);
      }
  }

  lemma InvStep(s: State, a: Action)
    requires Inv(s) && Enabled(s, a)
    ensures Inv(Apply(s, a))
  {
    hide Inv, ConsumerStep, ProducerStep;
    match a
    case Start(values) => InvStart(s, values);
    case Produce(block, canAlloc) => InvProduce(s, block, canAlloc);
    case Consume(a') => InvConsume(s, a');
  }

  // ---------------------------------------------------------------- the theorems

  lemma InvInit(s: State)
    requires Init(s)
    ensures Inv(s)
  {
    hide InitialProducer, ProducerOk, C.Inv, OutOk;
    InitProducer(s.p);
    InitCounters(s.c);
    InitOut(s.p);
    forall n: nat
      ensures !Complete(s.done, n)
    {
      assert 32 * n !in s.done;
    }
  }

  lemma InitCounters(c: C.State)
    requires C.Init(c)
    ensures C.Inv(c) && c.tail == 0
  {
  }

  lemma InitOut(p: Producer)
    requires InitialProducer(p)
    ensures OutOk(p) && p.back == {} && p.log == []
  {
  }

  lemma InitProducer(p: Producer)
    requires InitialProducer(p)
    ensures ProducerOk(p, {}, 0)
  {
    WrapUnit(p.current.size);
    forall n | 0 <= n < p.current.size
      ensures EntryOf(p, n) == n
    {
      assert Slot(p.current, n) == n;
    }
  }

  lemma WrapUnit(size: Size)
    ensures Wrap(-1, size) == size - 1
  {
  }

  lemma {:induction false} InvExec(s: State, actions: seq<Action>)
    requires Inv(s) && CanRun(s, actions)
    ensures Inv(Exec(s, actions))
    decreases |actions|
  {
    hide Inv, Enabled, Apply;
    if actions != [] {
      InvStep(s, actions[0]);
      InvExec(Apply(s, actions[0]), actions[1..]);
    }
  }

  /** Whatever the interleaving, and whichever allocations fail, the invariant holds. */
  lemma InvAlways(s: State, actions: seq<Action>)
    requires Init(s) && CanRun(s, actions)
    ensures Inv(Exec(s, actions))
  {
    hide Inv, Init;
    InvInit(s);
    InvExec(s, actions);
  }

  /** What an action adds to the queue: an operation its values, when it stores the tail. */
  function Brings(s: State, a: Action): seq<Value> {
    if a.Produce? && s.p.producing.StoreTail? then s.p.producing.op.values else []
  }

  /** The values of the enqueue operations of a run that succeed, in order. */
  function Enqueued(s: State, actions: seq<Action>): seq<Value>
    requires CanRun(s, actions)
    decreases |actions|
  {
    if actions == [] then [] else Brings(s, actions[0]) + Enqueued(Apply(s, actions[0]), actions[1..])
  }

  lemma TailWritten(p: Producer, tail: nat)
    requires PlaceOk(p, tail) && p.producing.StoreTail?
    ensures |p.log| == tail + |p.producing.op.values| && p.log[tail..] == p.producing.op.values
  {
  }

  /** What was written below the tail. */
  function Contents(s: State): seq<Value> {
    if s.c.tail <= |s.p.log| then s.p.log[..s.c.tail] else s.p.log
  }

  lemma LogStep(s: State, s': State, a: Action)
    requires Enabled(s, a) && s' == Apply(s, a) && Inv(s) && Inv(s')
    ensures Contents(s') == Contents(s) + Brings(s, a)
  {
    hide ProducerStep, LooksOk, HolderOk, ThroughOk, TakenOk, OutOk, ProducerOk, C.Inv, Grows, PlaceOk;
    PlaceOf(s.p, s.done, s.c.tail);
    LogCovers(s.p, s.c.tail);
    PlaceOf(s'.p, s'.done, s'.c.tail);
    LogCovers(s'.p, s'.c.tail);
    match a
    case Start(_) =>
    case Produce(block, canAlloc) =>
      StepGrows(s.p, s.c.tail, block, canAlloc);
      GrowsIs(s.p, s'.p, s.c.tail);
      if s.p.producing.StoreTail? {
        TailWritten(s.p, s.c.tail);
        assert s.p.log == s.p.log[..s.c.tail] + s.p.log[s.c.tail..];
      }
    case Consume(a') => ConsumerTail(s, a');
  }

  lemma ConsumerTail(s: State, a: C.Action)
    requires !a.Enqueue? && C.Enabled(s.c, a)
    ensures var s' := ConsumerStep(s, a); s'.p.log == s.p.log && s'.c.tail == s.c.tail
  {
    hide Advance, Range, C.Decide, C.Split, C.Batch, Wrap, SlotFor;
  }

  lemma {:induction false} LogExec(s: State, actions: seq<Action>)
    requires Inv(s) && CanRun(s, actions)
    ensures Contents(Exec(s, actions)) == Contents(s) + Enqueued(s, actions)
    decreases |actions|
  {
    hide Enabled, Apply, Brings, Inv, Contents;
    if actions != [] {
      InvStep(s, actions[0]);
      LogStep(s, Apply(s, actions[0]), actions[0]);
      LogExec(Apply(s, actions[0]), actions[1..]);
    }
  }

  lemma TailCovered(s: State)
    requires Inv(s)
    ensures s.c.tail <= |s.p.log|
  {
    hide LooksOk, HolderOk, ThroughOk, TakenOk, OutOk, ProducerOk, C.Inv, PlaceOk;
    PlaceOf(s.p, s.done, s.c.tail);
    LogCovers(s.p, s.c.tail);
  }

  /** What was written below the tail is what the operations brought that succeeded, and nothing of the others. */
  lemma LogIsEnqueued(s: State, actions: seq<Action>)
    requires Init(s) && CanRun(s, actions)
    ensures var e := Exec(s, actions); e.c.tail <= |e.p.log| && e.p.log[..e.c.tail] == Enqueued(s, actions)
  {
    hide Inv, CanRun, Exec, Enqueued;
    InvInit(s);
    InvExec(s, actions);
    TailCovered(Exec(s, actions));
    LogExec(s, actions);
    assert Contents(s) == [];
  }

  /** Whichever of the indexes it loaded, and whatever the producer has done and undone since, both assertions of
      the lookup hold, a consumer that takes an element is at the block of this element and finds the value that
      was enqueued at its index, and the block that it clears and gives back is in the entry, and is out. */
  lemma LookupFinds(s: State, actions: seq<Action>, t: Tid)
    requires Init(s) && CanRun(s, actions)
    requires var e := Exec(s, actions); Reading(e.c, t)
    ensures var e := Exec(s, actions);
      && t in e.looks
      && match e.looks[t]
         case LoadKey(h, tail, _) => KeyOf(e.p.keys, EntryAt(At(e.p, h), tail)) != INVALID_BLOCK_BASE
         case LoadValue(h, slot, next) =>
           && next / 32 < |e.p.home|
           && KeyOf(e.p.keys, EntryAt(At(e.p, h), slot)) == BlockBase(next)
           && ValueOf(e.p.values, EntryAt(At(e.p, h), slot)) == Some(e.p.home[next / 32])
         case ReadElement(h, slot, block, from, next) =>
           next < End(from, e.c.pcs[t].first + e.c.pcs[t].actual) ==>
             && next / 32 < |e.p.home| && block == e.p.home[next / 32]
             && next < |Enqueued(s, actions)| && ElementIn(e.p.elements, Cell(block, next % 32)) == Enqueued(s, actions)[next]
         case ClearEntry(h, slot, block, from, end) =>
           ValueOf(e.p.values, EntryAt(At(e.p, h), slot)) == Some(block) && block in e.p.out
         case FreeBlock(h, slot, block, from, end) => block in e.p.out
         case _ => true
  {
    hide CanRun, Exec, Enqueued, Init, ShareOk, ProducerOk, TakenOk, ThroughOk, LooksOk, OutOk, HolderOk, C.Inv, Slot, PlaceFound;
    InvAlways(s, actions);
    LogIsEnqueued(s, actions);
    var e := Exec(s, actions);
    LookOkOf(e, t);
    OwnClaim(e.c, t);
    var first, lim := e.c.pcs[t].first, e.c.pcs[t].first + e.c.pcs[t].actual;
    match e.looks[t]
    case LoadKey(_, _, _) => KeyLoaded(e, t, e.looks[t], first, lim);
    case LoadValue(_, _, _) => ValueLoaded(e, t, e.looks[t], first, lim);
    case ReadElement(h, slot, block, from, next) =>
      if next < End(from, lim) {
        ElementFound(e.p, e.done, e.c.tail, e.looks[t], first, lim, e.holder, e.taken, t);
        assert e.p.log[..e.c.tail][next] == e.p.log[next];
      }
    case ClearEntry(_, _, _, _, _) => BlockHeld(e, t, e.looks[t], first, lim);
    case FreeBlock(_, _, _, _, _) => BlockHeld(e, t, e.looks[t], first, lim);
    case _ =>
  }

  lemma KeyLoaded(e: State, t: Tid, look: Look, first: nat, lim: nat)
    requires ProducerOk(e.p, e.done, e.c.tail) && LookOk(e.p, e.holder, e.taken, e.done, t, look, first, lim) && look.LoadKey?
    ensures KeyOf(e.p.keys, EntryAt(At(e.p, look.h), look.tail)) != INVALID_BLOCK_BASE
  {
    hide ProducerOk, WasTaken, Slot;
    assert first !in e.done;
    TailKey(e.p, e.done, e.c.tail, look.h, look.newest, first);
  }

  lemma ValueLoaded(e: State, t: Tid, look: Look, first: nat, lim: nat)
    requires ProducerOk(e.p, e.done, e.c.tail) && LookOk(e.p, e.holder, e.taken, e.done, t, look, first, lim)
    requires look.LoadValue? && lim <= e.c.tail
    ensures look.next / 32 < |e.p.home|
    ensures KeyOf(e.p.keys, EntryAt(At(e.p, look.h), look.slot)) == BlockBase(look.next)
    ensures ValueOf(e.p.values, EntryAt(At(e.p, look.h), look.slot)) == Some(e.p.home[look.next / 32])
  {
    hide ProducerOk, WasTaken, Slot, KeyOf, ValueOf;
    assert look.next !in e.done;
    EntryFound(e.p, e.done, e.c.tail, look.h, look.next);
  }

  lemma BlockHeld(e: State, t: Tid, look: Look, first: nat, lim: nat)
    requires ProducerOk(e.p, e.done, e.c.tail) && LookOk(e.p, e.holder, e.taken, e.done, t, look, first, lim) && lim <= e.c.tail
    requires look.ClearEntry? || look.FreeBlock?
    ensures look.block in e.p.out
    ensures look.ClearEntry? ==> ValueOf(e.p.values, EntryAt(At(e.p, look.h), look.slot)) == Some(look.block)
  {
    hide WasTaken, Slot, HeadersOk, IndexOk, KeysOk, StoredOk, CountsOk, PlaceOk, Vacant, Settled, EntryOf, Complete, ShareOk;
    var n := look.from / 32;
    if look.ClearEntry? {
      NotBack(e.p, e.done, e.c.tail, n);
      EntryToClear(e.p, e.done, e.c.tail, look.h, n);
      SettledCovers(e.p, e.c.tail, look.from);
    }
  }

  /** In every run, every value taken is the one enqueued at the index that was claimed for it, by an operation
      that succeeded, and no index is taken twice. */
  lemma TakenAreEnqueued(s: State, actions: seq<Action>)
    requires Init(s) && CanRun(s, actions)
    ensures var e := Exec(s, actions);
      && (forall k :: 0 <= k < |e.taken| ==>
            && e.taken[k].index < e.c.head && e.taken[k].index < |Enqueued(s, actions)|
            && e.taken[k].value == Enqueued(s, actions)[e.taken[k].index])
      && (forall j, k :: 0 <= j < k < |e.taken| ==> e.taken[j].index != e.taken[k].index)
  {
    hide CanRun, Exec, Enqueued, Init, ProducerOk, LooksOk, HolderOk, OutOk, C.Inv;
    InvAlways(s, actions);
    LogIsEnqueued(s, actions);
    var e := Exec(s, actions);
    C.HeadAtMostTail(e.c);
    forall k | 0 <= k < |e.taken|
      ensures e.taken[k].index < e.c.head && e.p.log[..e.c.tail][e.taken[k].index] == e.p.log[e.taken[k].index]
    {
      assert WasTaken(e.taken, e.taken[k].index);
    }
  }

  /** With no dequeue running, exactly the elements below the head were taken, and the tail is where the operations
      that succeeded end: nothing is lost. */
  lemma NothingLost(s: State, actions: seq<Action>, i: nat)
    requires Init(s) && CanRun(s, actions)
    requires var e := Exec(s, actions); forall t :: t in e.c.pcs ==> e.c.pcs[t].Idle?
    ensures var e := Exec(s, actions);
      && (i < e.c.head <==> exists k :: 0 <= k < |e.taken| && e.taken[k].index == i)
      && e.c.head <= e.c.tail == |Enqueued(s, actions)|
  {
    hide CanRun, Exec, Enqueued, Init, ProducerOk, LooksOk, HolderOk, OutOk, TakenOk, C.Inv;
    InvAlways(s, actions);
    LogIsEnqueued(s, actions);
    var e := Exec(s, actions);
    assert forall t :: t in e.c.pcs ==> e.c.pcs[t].Idle?;
    C.HeadAtMostTail(e.c);
    assert WasTaken(e.taken, i) <==> i < e.c.head;
  }

  /** With no call running, the blocks that are not with the pool are those that have elements still to be
      dequeued: every other block was given back. */
  lemma BlocksReturned(s: State, actions: seq<Action>, b: BlockId)
    requires Init(s) && CanRun(s, actions)
    requires var e := Exec(s, actions); e.p.producing.Ready? && forall t :: t in e.c.pcs ==> e.c.pcs[t].Idle?
    ensures var e := Exec(s, actions);
      && (b in e.p.out <==> exists n: nat :: n < |e.p.home| && e.c.head < 32 * n + 32 && e.p.home[n] == b)
      && 32 * |e.p.home| - 32 < e.c.tail <= 32 * |e.p.home|
  {
    hide CanRun, Exec, Init, LooksOk, TakenOk, C.Inv, HeadersOk, IndexOk, KeysOk, ValuesOk, StoredOk, CountsOk, OutOk, BlocksOk;
    InvAlways(s, actions);
    var e := Exec(s, actions);
    assert forall t :: t in e.c.pcs ==> e.c.pcs[t].Idle?;
    forall n: nat
      ensures n in e.p.back <==> 32 * n + 32 <= e.c.head
    {
      CompleteAtRest(e, n);
      if n in e.holder {
        assert WithHolder(e.c, e.looks, e.p.back, n, e.holder[n]);
      }
    }
    OutIs(e.p, b);
  }

  lemma CompleteAtRest(e: State, n: nat)
    requires ThroughOk(e.c, e.taken, e.done) && forall t :: t in e.c.pcs ==> e.c.pcs[t].Idle?
    ensures Complete(e.done, n) <==> 32 * n + 32 <= e.c.head
  {
    hide WasTaken;
    forall i: nat
      ensures i in e.done <==> i < e.c.head
    {
      assert !InHands(e.c, i);
    }
    assert 32 * n + 31 in e.done <==> 32 * n + 32 <= e.c.head;
  }

  lemma OutIs(p: Producer, b: BlockId)
    requires OutOk(p) && BlocksOk(p) && p.producing.Ready?
    ensures b in p.out <==> exists n: nat :: n < |p.home| && n !in p.back && p.home[n] == b
  {
  }

  // ---------------------------------------------------------------- when operations fail, and that they end

  lemma ProducerSame(s: State, a: C.Action)
    requires !a.Enqueue? && C.Enabled(s.c, a)
    ensures var p := ConsumerStep(s, a).p;
      p.producing == s.p.producing && p.current == s.p.current && p.older == s.p.older && p.home == s.p.home
  {
    hide Advance, Range, C.Apply, Wrap, SlotFor, LookStep;
    if a.Run? && Reading(s.c, a.t) && a.t in s.looks && !s.looks[a.t].Finished? {
      LookSame(s, a.t, s.looks[a.t], s.c.pcs[a.t].first, s.c.pcs[a.t].first + s.c.pcs[a.t].actual);
    }
  }

  lemma LookSame(s: State, t: Tid, look: Look, first: nat, lim: nat)
    ensures var p := LookStep(s, t, look, first, lim).p;
      p.producing == s.p.producing && p.current == s.p.current && p.older == s.p.older && p.home == s.p.home
  {
    hide Advance, Range, Wrap, SlotFor, CountOf, EntryAt, ValueOf, KeyOf;
  }

  /** An operation that is being undone. */
  predicate Failing(producing: Producing) {
    producing.Rewind? || producing.ClearValue? || producing.Undo? || producing.UndoTail?
  }

  /** In every run, an operation starts to fail only when the pool has no block for it, or no larger index can be
      allocated; and a larger index is asked for only when the window is full of block numbers and the oldest of
      them had not been cleared when the producer looked. */
  lemma FailureMeans(s: State, actions: seq<Action>, a: Action)
    requires Init(s) && CanRun(s, actions) && Enabled(Exec(s, actions), a)
    ensures var e := Exec(s, actions);
      var e' := Apply(e, a);
      && (!Failing(e.p.producing) && Failing(e'.p.producing) ==>
            a.Produce? && ((e.p.producing.Requisition? && a.block.None?) || (e.p.producing.Grow? && !a.canAlloc)))
      && (!e.p.producing.Grow? && e'.p.producing.Grow? ==>
            |e.p.home| == e.p.low + e.p.current.size && e.p.low !in e.p.cleared)
      && (if |e'.p.older| == |e.p.older| then e'.p.current.size == e.p.current.size
          else e.p.producing.Grow? && e'.p.current.size == 2 * e.p.current.size && e'.p.older == e.p.older + [e.p.current])
  {
    hide CanRun, Exec, Init, LooksOk, TakenOk, ThroughOk, C.Inv, HolderOk, OutOk, ProducerOk, ProducerStep;
    InvAlways(s, actions);
    var e := Exec(s, actions);
    match a
    case Start(_) =>
    case Produce(block, canAlloc) =>
      StepFails(e.p, e.done, e.c.tail, block, canAlloc);
      StepSize(e.p, e.c.tail, block, canAlloc);
    case Consume(a') => ProducerSame(e, a');
  }

  lemma StepFails(p: Producer, done: set<nat>, tail: nat, block: Option<BlockId>, canAlloc: bool)
    requires ProducerOk(p, done, tail)
    ensures var p' := ProducerStep(p, tail, block, canAlloc);
      && (!Failing(p.producing) && Failing(p'.producing) ==>
            (p.producing.Requisition? && block.None?) || (p.producing.Grow? && !canAlloc))
      && (!p.producing.Grow? && p'.producing.Grow? ==> |p.home| == p.low + p.current.size && p.low !in p.cleared)
  {
    hide ProducerOk, ProducerStep, FailSame;
    if p.producing.LoadEntry? {
      LookedAt(p, done, tail, block, canAlloc);
    } else if Inserting(p.producing) {
      FailInserted(p, tail, block, canAlloc);
    } else {
      FailFilled(p, tail, block, canAlloc);
    }
    FailIs(p, ProducerStep(p, tail, block, canAlloc), block, canAlloc);
  }

  predicate FailSame(p: Producer, p': Producer, block: Option<BlockId>, canAlloc: bool) {
    && (!Failing(p.producing) && Failing(p'.producing) ==>
          (p.producing.Requisition? && block.None?) || (p.producing.Grow? && !canAlloc))
    && (!p.producing.Grow? && p'.producing.Grow? ==> p.producing.LoadEntry?)
  }

  lemma FailIs(p: Producer, p': Producer, block: Option<BlockId>, canAlloc: bool)
    requires p.producing.LoadEntry? ==> p'.producing.SetKey? || p'.producing.Grow?
    ensures FailSame(p, p', block, canAlloc) ==>
      && (!Failing(p.producing) && Failing(p'.producing) ==>
            (p.producing.Requisition? && block.None?) || (p.producing.Grow? && !canAlloc))
      && (!p.producing.Grow? && p'.producing.Grow? ==> p.producing.LoadEntry?)
    ensures p.producing.LoadEntry? ==> !Failing(p'.producing)
  {
  }

  lemma FailInserted(p: Producer, tail: nat, block: Option<BlockId>, canAlloc: bool)
    requires Inserting(p.producing)
    ensures FailSame(p, ProducerStep(p, tail, block, canAlloc), block, canAlloc)
  {
    hide NextTail, EntryOf, UndoEntry, Larger, NewKeys, Rewound, BlockAt, LastBlock, Wrap, ChainBase, OpOk, NewBlock;
    match p.producing
    case LoadEntry(_) =>
    case Grow(_) =>
    case SetKey(_, _) =>
    case SetTail(_, _) =>
    case Requisition(_, _) =>
    case Reset(_, _, _) =>
  }

  lemma FailFilled(p: Producer, tail: nat, block: Option<BlockId>, canAlloc: bool)
    requires !Inserting(p.producing)
    ensures FailSame(p, ProducerStep(p, tail, block, canAlloc), block, canAlloc)
  {
    hide NextTail, EntryOf, UndoEntry, Larger, NewKeys, Rewound, BlockAt, LastBlock, Wrap, ChainBase, OpOk, NewBlock;
    match p.producing
    case SetValue(_, _, _) =>
    case Rewind(_, _) =>
    case ClearValue(_, _) =>
    case Undo(_, _) =>
    case UndoTail(_, _) =>
    case Write(_, _, _) =>
    case _ =>
  }

  lemma LookedAt(p: Producer, done: set<nat>, tail: nat, block: Option<BlockId>, canAlloc: bool)
    requires ProducerOk(p, done, tail) && p.producing.LoadEntry?
    ensures var p' := ProducerStep(p, tail, block, canAlloc);
      if |p.home| < p.low + p.current.size || p.low in p.cleared then p'.producing.SetKey?
      else p'.producing.Grow? && |p.home| == p.low + p.current.size
  {
    hide HeadersOk, StoredOk, DoneOk, CountsOk, BlocksOk, IndexOk, KeysOk, ValuesOk, EntryOf, Slot, PlaceOk;
    EntryFree(p, done, tail);
  }

  lemma StepSize(p: Producer, tail: nat, block: Option<BlockId>, canAlloc: bool)
    ensures var p' := ProducerStep(p, tail, block, canAlloc);
      if |p'.older| == |p.older| then p'.current.size == p.current.size
      else p.producing.Grow? && p'.current.size == 2 * p.current.size && p'.older == p.older + [p.current]
  {
    if p.producing.Grow? && canAlloc {
      LargerIs(p, p.producing.op);
    } else {
      hide ProducerStep;
      StepHeader(p, tail, block, canAlloc);
    }
  }

  /** The pool always has a block, and memory does not run out. */
  predicate NothingFails(actions: seq<Action>) {
    forall k :: 0 <= k < |actions| && actions[k].Produce? ==> actions[k].block.Some? && actions[k].canAlloc
  }

  /** The values of all the operations of a run. */
  function Brought(actions: seq<Action>): seq<Value> {
    if actions == [] then [] else (if actions[0].Start? then actions[0].values else []) + Brought(actions[1..])
  }

  function Pending(producing: Producing): seq<Value> {
    if producing.Ready? then [] else producing.op.values
  }

  lemma PendingStep(s: State, a: Action)
    requires Enabled(s, a) && !Failing(s.p.producing) && (a.Produce? ==> a.block.Some? && a.canAlloc)
    ensures var s' := Apply(s, a);
      && !Failing(s'.p.producing)
      && Brings(s, a) + Pending(s'.p.producing) == Pending(s.p.producing) + (if a.Start? then a.values else [])
  {
    match a
    case Start(_) =>
    case Produce(block, canAlloc) => PendingProduced(s.p, s.c.tail, block);
    case Consume(a') =>
      hide ConsumerStep;
      ProducerSame(s, a');
  }

  predicate PendingSame(p: Producer, p': Producer) {
    && !p.producing.Ready? && !Failing(p'.producing)
    && if p.producing.StoreTail? then p'.producing.Ready? else !p'.producing.Ready? && p'.producing.op.values == p.producing.op.values
  }

  lemma PendingInserted(p: Producer, tail: nat, block: Option<BlockId>)
    requires block.Some? && !Failing(p.producing) && !p.producing.Ready? && Inserting(p.producing)
    ensures PendingSame(p, ProducerStep(p, tail, block, true))
  {
    hide NextTail, EntryOf, UndoEntry, Larger, NewKeys, Rewound, BlockAt, LastBlock, Wrap, ChainBase, OpOk, NewBlock;
    match p.producing
    case LoadEntry(_) =>
    case Grow(_) =>
    case SetKey(_, _) =>
    case SetTail(_, _) =>
    case Requisition(_, _) =>
    case Reset(_, _, _) =>
  }

  lemma PendingFilled(p: Producer, tail: nat, block: Option<BlockId>)
    requires block.Some? && !Failing(p.producing) && !p.producing.Ready? && !Inserting(p.producing)
    ensures PendingSame(p, ProducerStep(p, tail, block, true))
  {
    hide NextTail, EntryOf, UndoEntry, Larger, NewKeys, Rewound, BlockAt, LastBlock, Wrap, ChainBase, OpOk, NewBlock;
    match p.producing
    case SetValue(_, _, _) =>
    case Rewind(_, _) =>
    case ClearValue(_, _) =>
    case Undo(_, _) =>
    case UndoTail(_, _) =>
    case Write(_, _, _) =>
    case _ =>
  }

  lemma PendingProduced(p: Producer, tail: nat, block: Option<BlockId>)
    requires block.Some? && !Failing(p.producing) && !p.producing.Ready?
    ensures PendingSame(p, ProducerStep(p, tail, block, true))
  {
    hide ProducerStep, PendingSame;
    if Inserting(p.producing) {
      PendingInserted(p, tail, block);
    } else {
      PendingFilled(p, tail, block);
    }
  }

  lemma {:induction false} PendingRun(s: State, actions: seq<Action>)
    requires CanRun(s, actions) && NothingFails(actions) && !Failing(s.p.producing)
    ensures !Failing(Exec(s, actions).p.producing)
    ensures Enqueued(s, actions) + Pending(Exec(s, actions).p.producing) == Pending(s.p.producing) + Brought(actions)
    decreases |actions|
  {
    hide Enabled, Apply, Brings, Failing, Pending;
    if actions != [] {
      PendingStep(s, actions[0]);
      assert NothingFails(actions[1..]);
      PendingRun(Apply(s, actions[0]), actions[1..]);
      var a, b := Brings(s, actions[0]), Enqueued(Apply(s, actions[0]), actions[1..]);
      var p0, p1, end := Pending(s.p.producing), Pending(Apply(s, actions[0]).p.producing), Pending(Exec(s, actions).p.producing);
      var x, rest := if actions[0].Start? then actions[0].values else [], Brought(actions[1..]);
      calc {
        a + b + end;
        a + (b + end);
        a + (p1 + rest);
        (a + p1) + rest;
        (p0 + x) + rest;
        p0 + (x + rest);
      }
    }
  }

  /** When nothing fails, every operation succeeds: between operations, the queue got all the values of all of
      them, in order. */
  lemma AllSucceed(s: State, actions: seq<Action>)
    requires Init(s) && CanRun(s, actions) && NothingFails(actions)
    ensures var e := Exec(s, actions);
      && !Failing(e.p.producing)
      && Enqueued(s, actions) + Pending(e.p.producing) == Brought(actions)
      && (e.p.producing.Ready? ==> e.c.tail == |Brought(actions)|)
  {
    hide CanRun, Exec, Enqueued, Brought, NothingFails;
    PendingRun(s, actions);
    LogIsEnqueued(s, actions);
    assert [] + Brought(actions) == Brought(actions);
  }

  function ProducerRank(producing: Producing): Rank {
    match producing
    case Ready => Rank(0, 0, 0)
    case LoadEntry(op) => Rank(op.need, 14, 0)
    case Grow(op) => Rank(op.need, 13, 0)
    case SetKey(op, _) => Rank(op.need, 12, 0)
    case SetTail(op, _) => Rank(op.need, 11, 0)
    case Requisition(op, _) => Rank(op.need, 10, 0)
    case Reset(op, _, _) => Rank(op.need, 9, 0)
    case SetValue(op, _, _) => Rank(op.need, 8, 0)
    case Rewind(op, _) => Rank(op.need, 7, 0)
    case ClearValue(op, _) => Rank(op.need, 6, 0)
    case Undo(op, k) => Rank(op.need, 5, 2 * (|op.chain| - k) + 1)
    case UndoTail(op, k) => Rank(op.need, 5, 2 * (|op.chain| - k))
    case Write(op, _, k) => Rank(op.need, 4, |op.values| - k)
    case StoreTail(op) => Rank(op.need, 3, 0)
  }

  /** What the rank needs to know of an operation. */
  predicate Counting(producing: Producing) {
    match producing
    case SetValue(op, _, _) => op.need > 0
    case Undo(op, k) => k <= |op.chain|
    case UndoTail(op, k) => k < |op.chain|
    case Write(op, _, k) => k <= |op.values|
    case _ => true
  }

  lemma CountingIs(p: Producer, tail: nat)
    requires PlaceOk(p, tail)
    ensures Counting(p.producing)
  {
    hide OpOk, EntryOf, NewBlock;
  }

  lemma InsertNearer(p: Producer, tail: nat, block: Option<BlockId>, canAlloc: bool)
    requires !p.producing.Ready? && Inserting(p.producing)
    ensures Nearer(ProducerRank(ProducerStep(p, tail, block, canAlloc).producing), ProducerRank(p.producing))
  {
    hide NextTail, EntryOf, UndoEntry, Larger, NewKeys, Rewound, BlockAt, LastBlock, Wrap, ChainBase, OpOk, NewBlock;
    match p.producing
    case LoadEntry(_) =>
    case Grow(_) =>
    case SetKey(_, _) =>
    case SetTail(_, _) =>
    case Requisition(_, _) =>
    case Reset(_, _, _) =>
  }

  lemma FillNearer(p: Producer, tail: nat, block: Option<BlockId>, canAlloc: bool)
    requires Counting(p.producing) && !p.producing.Ready? && !Inserting(p.producing) && !Failing(p.producing)
    ensures Nearer(ProducerRank(ProducerStep(p, tail, block, canAlloc).producing), ProducerRank(p.producing))
  {
    hide NextTail, EntryOf, UndoEntry, Larger, NewKeys, Rewound, BlockAt, LastBlock, Wrap, ChainBase, OpOk, NewBlock;
    match p.producing
    case SetValue(_, _, _) =>
    case Write(_, _, _) =>
    case _ =>
  }

  lemma UndoNearer(p: Producer, tail: nat, block: Option<BlockId>, canAlloc: bool)
    requires Counting(p.producing) && !p.producing.Ready? && !Inserting(p.producing) && Failing(p.producing)
    ensures Nearer(ProducerRank(ProducerStep(p, tail, block, canAlloc).producing), ProducerRank(p.producing))
  {
    hide NextTail, EntryOf, UndoEntry, Larger, NewKeys, Rewound, BlockAt, LastBlock, Wrap, ChainBase, OpOk, NewBlock;
    match p.producing
    case Rewind(_, _) =>
    case ClearValue(_, _) =>
    case Undo(_, _) =>
    case _ =>
  }

  lemma StepNearer(p: Producer, tail: nat, block: Option<BlockId>, canAlloc: bool)
    requires PlaceOk(p, tail) && !p.producing.Ready?
    ensures Nearer(ProducerRank(ProducerStep(p, tail, block, canAlloc).producing), ProducerRank(p.producing))
  {
    hide ProducerStep, PlaceOk, Nearer, ProducerRank, Counting;
    CountingIs(p, tail);
    if Inserting(p.producing) {
      InsertNearer(p, tail, block, canAlloc);
    } else if Failing(p.producing) {
      UndoNearer(p, tail, block, canAlloc);
    } else {
      FillNearer(p, tail, block, canAlloc);
    }
  }

  /** In every run, every access of the producer brings it nearer to the end of its operation, also of one that
      fails, and nobody else's access takes it back. */
  lemma ProducerEnds(s: State, actions: seq<Action>, a: Action)
    requires Init(s) && CanRun(s, actions) && Enabled(Exec(s, actions), a)
    ensures var e := Exec(s, actions);
      && (a.Produce? ==> Nearer(ProducerRank(Apply(e, a).p.producing), ProducerRank(e.p.producing)))
      && (a.Consume? ==> Apply(e, a).p.producing == e.p.producing)
  {
    hide CanRun, Exec, Init, LooksOk, TakenOk, ThroughOk, C.Inv, HolderOk, OutOk, ProducerOk, ProducerStep, PlaceOk, Nearer, ProducerRank;
    InvAlways(s, actions);
    var e := Exec(s, actions);
    match a
    case Start(_) =>
    case Produce(block, canAlloc) =>
      PlaceOf(e.p, e.done, e.c.tail);
      StepNearer(e.p, e.c.tail, block, canAlloc);
    case Consume(a') => ProducerSame(e, a');
  }

  function LookRank(look: Look, lim: nat): Rank {
    match look
    case LoadIndex => Rank(lim + 1, 2, 0)
    case LoadTail(_) => Rank(lim + 1, 1, 0)
    case LoadKey(_, _, _) => Rank(lim + 1, 0, 0)
    case LoadValue(_, _, next) => Rank(if next < lim then lim - next else 0, 5, 0)
    case ReadElement(_, _, _, from, next) => Rank(if from < lim then lim - from else 0, 4, End(from, lim) - next)
    case Count(_, _, _, from, _) => Rank(if from < lim then lim - from else 0, 3, 0)
    case ClearEntry(_, _, _, from, _) => Rank(if from < lim then lim - from else 0, 2, 0)
    case FreeBlock(_, _, _, from, _) => Rank(if from < lim then lim - from else 0, 1, 0)
    case Finished => Rank(0, 0, 0)
  }

  lemma LookNearer(s: State, t: Tid, look: Look, first: nat, lim: nat)
    requires PlaceFound(s.p, s.holder, t, look, first, lim) && !look.Finished? && t in s.looks
    ensures var s' := LookStep(s, t, look, first, lim);
      s'.c == s.c && t in s'.looks && Nearer(LookRank(s'.looks[t], lim), LookRank(look, lim))
  {
    hide Wrap, BlockBase, Slot, SlotFor, Range, CountOf;
  }

  /** In every run, every access of a consumer after its claim brings it nearer to its return. */
  lemma ConsumerEnds(s: State, actions: seq<Action>, t: Tid)
    requires Init(s) && CanRun(s, actions)
    requires var e := Exec(s, actions); Reading(e.c, t)
    ensures var e := Exec(s, actions);
      && t in e.looks
      && (e.looks[t].Finished? ==> t in ConsumerStep(e, C.Run(t)).c.pcs && ConsumerStep(e, C.Run(t)).c.pcs[t].Idle?)
      && (!e.looks[t].Finished? ==>
            var lim := e.c.pcs[t].first + e.c.pcs[t].actual;
            && t in ConsumerStep(e, C.Run(t)).looks && ConsumerStep(e, C.Run(t)).c == e.c
            && Nearer(LookRank(ConsumerStep(e, C.Run(t)).looks[t], lim), LookRank(e.looks[t], lim)))
  {
    hide CanRun, Exec, Init, LooksOk, TakenOk, ThroughOk, HolderOk, OutOk, C.Inv, ProducerOk, ShareOk, Nearer, LookStep, LookRank;
    InvAlways(s, actions);
    var e := Exec(s, actions);
    LookOkOf(e, t);
    if e.looks[t].Finished? {
      ReturnIs(e.c, t);
    } else {
      LookNearer(e, t, e.looks[t], e.c.pcs[t].first, e.c.pcs[t].first + e.c.pcs[t].actual);
    }
  }
}
