/**
 One explicit producer and its consumers, access by access (Common/concurrentqueue.h): the producer fills
 blocks, enters them into the circular block index, takes empty blocks again and publishes larger indexes,
 while consumers take indices from the counters of module DequeueCounters and look up and empty the blocks.

 Blocks are numbered in the order in which they are filled: element i is element i % 32 of block number
 i / 32.  Positions in the ring stand for following `next` pointers; only the producer follows them.
 Elements are constructed without exceptions, and allocations succeed.
 */
module ExplicitRuns {
  import opened Blocks
  import opened Claims
  import opened Modular
  import C = DequeueCounters

  /** A block index: entries with a base and a block, and the slot of the front.  `shift`, `high` and `newest`
      are auxiliary: where block number 0 would be, the first number not entered, and the number at the front. */
  datatype Header = Header(size: Size, bases: map<int, int>, blocks: map<int, BlockId>, front: int,
                           shift: int, high: nat, newest: int)

  /** An enqueue operation: its values, the number of blocks still to be entered and of those entered, the
      slots that a larger index exposes, and whether blocks ahead are still looked at. */
  datatype Op = Op(values: seq<Value>, bulk: bool, need: nat, entered: nat, exposed: nat, ahead: bool)

  /** Where the producer stands. */
  datatype Producing =
    | Ready
    | Check(op: Op, j: nat)          // the first j flags of the block ahead are set
    | Allocate(op: Op)
    | Clear(op: Op)
    | SetBase(op: Op)
    | SetBlock(op: Op)
    | ClearEntered(op: Op, k: nat)
    | StoreFront(op: Op)
    | Write(op: Op, at: int, k: nat)
    | StoreTail(op: Op)

  /** `older` are the indexes that were published before the current one.  Auxiliary: the values written, the
      block of every block number, and the number of the oldest block. */
  datatype Producer = Producer(
    ring: seq<BlockId>,
    slotsUsed: nat,
    nextSlot: int,
    older: seq<Header>,
    current: Header,
    elements: map<Cell, Value>,
    flags: set<Cell>,
    producing: Producing,
    log: seq<Value>,
    home: seq<BlockId>,
    low: nat)

  /** Where a consumer stands that has claimed indices; `newest` is auxiliary. */
  datatype Look =
    | LoadIndex
    | LoadFront(h: nat)
    | LoadBase(h: nat, front: int, newest: int)
    | LoadBlock(h: nat, slot: int, next: nat)
    | ReadElement(h: nat, slot: int, block: BlockId, from: nat, next: nat)
    | SetFlag(h: nat, slot: int, block: BlockId, from: nat, end: nat, k: nat)
    | Finished

  /** Auxiliary: the values taken out, in the order of the accesses, and the indices whose flag was set. */
  datatype State = State(c: C.State, p: Producer, looks: map<Tid, Look>, taken: seq<Taken>, done: set<nat>)

  /** `b` is the block that the pool hands out, if one is asked for. */
  datatype Action = Start(values: seq<Value>, bulk: bool) | Produce(b: BlockId) | Consume(a: C.Action)

  // ---------------------------------------------------------------- the producer's accesses

  /** The slot of a block number. */
  function Slot(h: Header, n: int): int {
    Wrap(n + h.shift, h.size)
  }

  function At(p: Producer, h: nat): Header {
    if h < |p.older| then p.older[h] else p.current
  }

  function BlockAt(ring: seq<BlockId>, k: int): BlockId {
    if 0 <= k < |ring| then ring[k] else 0
  }

  function Cells(b: BlockId): (cells: set<Cell>)
    ensures forall c :: c in cells <==> c.block == b && c.k < 32
  {
    set k: nat | k < 32 :: Cell(b, k)
  }

  function Cleared(flags: set<Cell>, b: BlockId): set<Cell> {
    flags - Cells(b)
  }

  /** The next block is looked for ahead, unless that is one that this operation has entered. */
  function Enter(p: Producer, op: Op): Producing {
    if op.ahead && p.ring != [] && op.entered < |p.ring| then Check(op, 0) else Allocate(op.(ahead := false))
  }

  /** Elements go to the tail block of before, or to the first block entered when that one is full. */
  function Fill(p: Producer, op: Op, tail: nat): Producing {
    if op.values == [] then StoreTail(op)
    else Write(op, |p.ring| - op.entered - (if tail % 32 == 0 then 0 else 1), 0)
  }

  function Started(p: Producer, values: seq<Value>, bulk: bool, tail: nat): Producer {
    var need := BlockStarts(tail, |values|);
    var op := Op(values, bulk, need, 0, p.slotsUsed, true);
    p.(producing := if need > 0 then Enter(p, op) else Fill(p, op, tail))
  }

  /** new_block_index: an index of twice the size with the used slots in front, and the older ones exposed. */
  function Larger(h: Header, nextSlot: int, slotsUsed: nat, exposed: nat, low: nat): Header {
    var from := (k: int) => Wrap(nextSlot - slotsUsed + k, h.size);
    Header(2 * h.size,
           map k: int | 0 <= k < slotsUsed && from(k) in h.bases :: h.bases[from(k)],
           map k: int | 0 <= k < slotsUsed && from(k) in h.blocks :: h.blocks[from(k)],
           exposed - 1, 0 - low, h.high, low + exposed - 1)
  }

  /** The block ahead becomes the tail block. */
  function TakeAhead(p: Producer, op: Op): Producer {
    var b, op' := BlockAt(p.ring, 0), op.(need := if op.need > 0 then op.need - 1 else 0, entered := op.entered + 1);
    p.(ring := if p.ring == [] then [] else p.ring[1..] + [b], home := p.home + [b], low := p.low + 1,
       producing := if op.bulk then SetBase(op') else Clear(op'))
  }

  /** A block of the pool is linked in. */
  function LinkNew(p: Producer, op: Op, b: BlockId): Producer {
    var op' := op.(need := if op.need > 0 then op.need - 1 else 0, entered := op.entered + 1);
    p.(ring := p.ring + [b], home := p.home + [b], slotsUsed := p.slotsUsed + 1,
       flags := if op.bulk then p.flags + Cells(b) else p.flags,
       producing := if op.bulk then SetBase(op') else Clear(op'))
  }

  /** One access of the producer.  `enqueue` sets the flags of a block back before it enters it,
      `enqueue_bulk` those of all blocks after it has entered them. */
  function ProducerStep(p: Producer, tail: nat, b: BlockId): Producer {
    match p.producing
    case Ready => p
    case Check(op, j) =>
      if j >= 32 then TakeAhead(p, op)
      else if Cell(BlockAt(p.ring, 0), j) in p.flags then p.(producing := Check(op, j + 1))
      else p.(producing := Allocate(op.(ahead := false)))
    case Allocate(op) =>
      if p.slotsUsed == p.current.size then
        p.(older := p.older + [p.current], current := Larger(p.current, p.nextSlot, p.slotsUsed, op.exposed, p.low),
           nextSlot := p.slotsUsed)
      else LinkNew(p, op, b)
    case Clear(op) =>
      p.(flags := Cleared(p.flags, BlockAt(p.ring, |p.ring| - 1)), producing := SetBase(op))
    case SetBase(op) =>
      p.(current := p.current.(bases := p.current.bases[p.nextSlot := BlockBase(tail - 1) + 32 * op.entered]),
         producing := SetBlock(op))
    case SetBlock(op) =>
      p.(current := p.current.(blocks := p.current.blocks[p.nextSlot := BlockAt(p.ring, |p.ring| - 1)], high := p.current.high + 1),
         nextSlot := Wrap(p.nextSlot + 1, p.current.size),
         producing := if op.need > 0 then Enter(p, op) else if op.bulk then ClearEntered(op, 0) else StoreFront(op))
    case ClearEntered(op, k) =>
      if k < op.entered then
        p.(flags := Cleared(p.flags, BlockAt(p.ring, |p.ring| - op.entered + k)), producing := ClearEntered(op, k + 1))
      else p.(producing := StoreFront(op))
    case StoreFront(op) =>
      p.(current := p.current.(front := Wrap(p.nextSlot - 1, p.current.size), newest := |p.home| - 1),
         producing := Fill(p, op, tail))
    case Write(op, at, k) =>
      if k < |op.values| then
        p.(elements := p.elements[Cell(BlockAt(p.ring, at), (tail + k) % 32) := op.values[k]], log := p.log + [op.values[k]],
           producing := Write(op, if (tail + k + 1) % 32 == 0 then at + 1 else at, k + 1))
      else p.(producing := StoreTail(op))
    case StoreTail(op) => p.(producing := Ready)
  }

  // ---------------------------------------------------------------- the consumers' accesses

  function BaseIn(h: Header, slot: int): int {
    if slot in h.bases then h.bases[slot] else 0
  }

  function BlockIn(h: Header, slot: int): BlockId {
    if slot in h.blocks then h.blocks[slot] else 0
  }

  /** One access of consumer t, which has claimed the indices from first on and below lim. */
  function LookStep(s: State, t: Tid, look: Look, first: nat, lim: nat): State {
    match look
    case LoadIndex => s.(looks := s.looks[t := LoadFront(|s.p.older|)])
    case LoadFront(h) => s.(looks := s.looks[t := LoadBase(h, At(s.p, h).front, At(s.p, h).newest)])
    case LoadBase(h, front, _) =>
      var offset := (BlockBase(first) - BaseIn(At(s.p, h), front)) / 32;
      s.(looks := s.looks[t := LoadBlock(h, Wrap(front + offset, At(s.p, h).size), first)])
    case LoadBlock(h, slot, next) =>
      s.(looks := s.looks[t := ReadElement(h, slot, BlockIn(At(s.p, h), slot), next, next)])
    case ReadElement(h, slot, block, from, next) =>
      if next < End(from, lim) then
        s.(taken := s.taken + [Taken(next, ElementIn(s.p.elements, Cell(block, next % 32)))],
           looks := s.looks[t := ReadElement(h, slot, block, from, next + 1)])
      else s.(looks := s.looks[t := SetFlag(h, slot, block, from, next, 0)])
    case SetFlag(h, slot, block, from, end, k) =>
      if from + k < end then
        var i := end - 1 - k;
        s.(p := s.p.(flags := s.p.flags + {Cell(block, 31 - i % 32)}), done := s.done + {i},
           looks := s.looks[t := SetFlag(h, slot, block, from, end, k + 1)])
      else s.(looks := s.looks[t := if end == lim then Finished else LoadBlock(h, Wrap(slot + 1, At(s.p, h).size), end)])
    case Finished => s
  }

  function ConsumerStep(s: State, a: C.Action): State
    requires C.Enabled(s.c, a)
  {
    if a.Run? && Reading(s.c, a.t) && a.t in s.looks && !s.looks[a.t].Finished? then
      LookStep(s, a.t, s.looks[a.t], s.c.pcs[a.t].first, s.c.pcs[a.t].first + s.c.pcs[a.t].actual)
    else if a.Run? && s.c.pcs[a.t].AddHead? then
      s.(c := C.Apply(s.c, a), looks := s.looks[a.t := LoadIndex])
    else s.(c := C.Apply(s.c, a))
  }

  // ---------------------------------------------------------------- runs

  predicate Enabled(s: State, a: Action) {
    match a
    case Start(values, bulk) => s.p.producing.Ready? && (!bulk ==> |values| == 1)
    case Produce(b) => !s.p.producing.Ready? && (s.p.producing.Allocate? ==> b !in s.p.ring)
    case Consume(a) => !a.Enqueue? && C.Enabled(s.c, a)
  }

  function Apply(s: State, a: Action): State
    requires Enabled(s, a)
  {
    match a
    case Start(values, bulk) => s.(p := Started(s.p, values, bulk, s.c.tail))
    case Produce(b) =>
      var s' := s.(p := ProducerStep(s.p, s.c.tail, b));
      if s.p.producing.StoreTail? then s'.(c := C.Apply(s.c, C.Enqueue(|s.p.producing.op.values|))) else s'
    case Consume(a) => ConsumerStep(s, a)
  }

  /** The constructor: an index without entries. */
  predicate Init(s: State) {
    && C.Init(s.c) && s.taken == [] && s.done == {}
    && s.p.ring == [] && s.p.slotsUsed == 0 && s.p.nextSlot == 0 && s.p.older == [] && s.p.producing.Ready?
    && s.p.log == [] && s.p.home == [] && s.p.low == 0
    && s.p.current.front == -1 && s.p.current.shift == 0 && s.p.current.high == 0 && s.p.current.newest == -1
  }

  predicate CanRun(s: State, actions: seq<Action>)
    decreases |actions|
  {
    actions == [] || (Enabled(s, actions[0]) && CanRun(Apply(s, actions[0]), actions[1..]))
  }

  function Exec(s: State, actions: seq<Action>): State
    requires CanRun(s, actions)
    decreases |actions|
  {
    if actions == [] then s else Exec(Apply(s, actions[0]), actions[1..])
  }

  // ---------------------------------------------------------------- the producer's invariant

  predicate EntryOk(h: Header, n: int, home: seq<BlockId>) {
    && 0 <= n < |home|
    && Slot(h, n) in h.bases && h.bases[Slot(h, n)] == 32 * n
    && Slot(h, n) in h.blocks && h.blocks[Slot(h, n)] == home[n]
  }

  /** An index, published or replaced, has the entries of all numbers from the oldest block of now on. */
  ghost predicate HeaderOk(h: Header, home: seq<BlockId>, low: nat) {
    && -1 <= h.newest < h.high <= |home|
    && (forall n :: low <= n < h.high ==> EntryOk(h, n, home))
    && (low <= h.newest ==> h.front == Slot(h, h.newest))
  }

  ghost predicate RingOk(p: Producer) {
    && p.low + |p.ring| == |p.home| && p.ring == p.home[p.low..] && p.slotsUsed == |p.ring|
    && forall a, b :: p.low <= a < b < |p.home| ==> p.home[a] != p.home[b]
  }

  ghost predicate HeadersOk(p: Producer) {
    && (forall k :: 0 <= k < |p.older| ==> HeaderOk(p.older[k], p.home, p.low))
    && HeaderOk(p.current, p.home, p.low)
  }

  /** A block that is in the ring, but not in the index yet. */
  function Entering(producing: Producing): nat {
    if producing.Clear? || producing.SetBase? || producing.SetBlock? then 1 else 0
  }

  ghost predicate CurrentOk(p: Producer, tail: nat) {
    && |p.ring| <= p.current.size && p.nextSlot == Slot(p.current, p.current.high)
    && p.current.high + Entering(p.producing) == |p.home|
    && tail <= 32 * (p.current.newest + 1)
  }

  predicate Stored(p: Producer, i: int)
    requires 0 <= i < |p.log|
  {
    i / 32 < |p.home| && Cell(p.home[i / 32], i % 32) in p.elements && p.elements[Cell(p.home[i / 32], i % 32)] == p.log[i]
  }

  ghost predicate StoredOk(p: Producer, done: set<nat>) {
    forall i: nat :: i < |p.log| && i !in done ==> Stored(p, i)
  }

  ghost predicate DoneOk(low: nat, done: set<nat>, tail: nat) {
    (forall i: nat :: i < 32 * low ==> i in done) && (forall i :: i in done ==> i < tail)
  }

  /** The blocks whose flags are still to be set back. */
  function Unclear(producing: Producing): int {
    match producing
    case Check(op, _) => if op.bulk then op.entered else 0
    case Allocate(op) => if op.bulk then op.entered else 0
    case SetBase(op) => if op.bulk then op.entered else 0
    case SetBlock(op) => if op.bulk then op.entered else 0
    case Clear(_) => 1
    case ClearEntered(op, k) => op.entered - k
    case _ => 0
  }

  ghost predicate FlagsOk(home: seq<BlockId>, flags: set<Cell>, done: set<nat>, low: nat, clear: int) {
    forall n: nat, k: nat :: low <= n < clear && n < |home| && k < 32 ==> (Cell(home[n], k) in flags <==> 32 * n + 31 - k in done)
  }

  /** An operation between two of its accesses. */
  predicate OpOk(p: Producer, op: Op, tail: nat) {
    var start := |p.home| - op.entered;
    && p.low <= start && start <= p.low + op.exposed <= |p.home|
    && 32 * start - 32 < tail <= 32 * start
    && (op.values == [] ==> op.need == 0 && op.entered == 0)
    && (op.values != [] ==> 32 * (|p.home| + op.need) - 32 < tail + |op.values| <= 32 * (|p.home| + op.need))
    && (!op.bulk ==> op.need + op.entered <= 1)
  }

  /** Blocks ahead are not looked at any more only when the operation has linked in a new one. */
  predicate Looked(p: Producer, op: Op) {
    !op.ahead ==> |p.ring| > op.exposed
  }

  ghost predicate PlaceOk(p: Producer, tail: nat) {
    match p.producing
    case Ready => |p.log| == tail && 32 * |p.home| - 32 < tail <= 32 * |p.home| && p.current.newest == |p.home| - 1
    case Check(op, j) =>
      && OpOk(p, op, tail) && |p.log| == tail && op.need > 0 && op.ahead && op.entered < |p.ring| && j <= 32
      && forall k: nat :: k < j ==> Cell(p.ring[0], k) in p.flags
    case Allocate(op) => OpOk(p, op, tail) && |p.log| == tail && op.need > 0
    case Clear(op) => OpOk(p, op, tail) && |p.log| == tail && op.entered > 0 && !op.bulk && Looked(p, op)
    case SetBase(op) => OpOk(p, op, tail) && |p.log| == tail && op.entered > 0 && Looked(p, op)
    case SetBlock(op) =>
      && OpOk(p, op, tail) && |p.log| == tail && op.entered > 0 && Looked(p, op)
      && p.nextSlot in p.current.bases && p.current.bases[p.nextSlot] == 32 * (|p.home| - 1)
    case ClearEntered(op, k) => OpOk(p, op, tail) && |p.log| == tail && op.need == 0 && k <= op.entered && op.entered > 0
    case StoreFront(op) => OpOk(p, op, tail) && |p.log| == tail && op.need == 0 && op.entered > 0
    case Write(op, at, k) =>
      && OpOk(p, op, tail) && op.need == 0 && p.current.newest == |p.home| - 1
      && k <= |op.values| && |p.log| == tail + k && (k < |op.values| ==> at == (tail + k) / 32 - p.low)
    case StoreTail(op) =>
      OpOk(p, op, tail) && op.need == 0 && p.current.newest == |p.home| - 1 && |p.log| == tail + |op.values|
  }

  ghost predicate ProducerOk(p: Producer, done: set<nat>, tail: nat) {
    && RingOk(p) && HeadersOk(p) && CurrentOk(p, tail) && StoredOk(p, done) && DoneOk(p.low, done, tail)
    && FlagsOk(p.home, p.flags, done, p.low, |p.home| - Unclear(p.producing)) && PlaceOk(p, tail)
  }

  // ---------------------------------------------------------------- every access of the producer keeps it

  /** Block numbers less than the size apart have different slots. */
  lemma SlotsDiffer(h: Header, n: int, m: int)
    requires n < m < n + h.size
    ensures Slot(h, n) != Slot(h, m)
  {
    WrapUnique(m + h.shift, n + h.shift, h.size);
  }

  /** More blocks in the ring, or fewer old ones, leave what an index says. */
  lemma HeaderKept(h: Header, home: seq<BlockId>, low: nat, home': seq<BlockId>, low': nat)
    requires HeaderOk(h, home, low) && home <= home' && low <= low'
    ensures HeaderOk(h, home', low')
  {
    forall n | low' <= n < h.high
      ensures EntryOk(h, n, home')
    {
      assert EntryOk(h, n, home);
    }
  }

  lemma HeadersKept(p: Producer, p': Producer)
    requires HeadersOk(p) && p.home <= p'.home && p.low <= p'.low && p'.older == p.older && p'.current == p.current
    ensures HeadersOk(p')
  {
    hide HeaderOk;
    forall k | 0 <= k < |p.older|
      ensures HeaderOk(p.older[k], p'.home, p'.low)
    {
      HeaderKept(p.older[k], p.home, p.low, p'.home, p'.low);
    }
    HeaderKept(p.current, p.home, p.low, p'.home, p'.low);
  }

  lemma StoredKept(p: Producer, p': Producer, done: set<nat>)
    requires StoredOk(p, done) && p.home <= p'.home && p'.log == p.log && p'.elements == p.elements
    ensures StoredOk(p', done)
  {
    forall i: nat | i < |p'.log| && i !in done
      ensures Stored(p', i)
    {
      assert Stored(p, i);
    }
  }

  /** The whole block is done. */
  lemma AheadDone(p: Producer, done: set<nat>, tail: nat, clear: int)
    requires DoneOk(p.low, done, tail) && FlagsOk(p.home, p.flags, done, p.low, clear) && p.low < clear && p.low < |p.home|
    requires forall k: nat :: k < 32 ==> Cell(p.home[p.low], k) in p.flags
    ensures DoneOk(p.low + 1, done, tail)
  {
    forall i: nat | i < 32 * (p.low + 1)
      ensures i in done
    {
      if i >= 32 * p.low {
        var k := 32 * p.low + 31 - i;
        assert Cell(p.home[p.low], k) in p.flags;
      }
    }
  }

  lemma FlagsKept(home: seq<BlockId>, home': seq<BlockId>, flags: set<Cell>, done: set<nat>, low: nat, low': nat, clear: int)
    requires FlagsOk(home, flags, done, low, clear) && home <= home' && low <= low' && clear <= |home|
    ensures FlagsOk(home', flags, done, low', clear)
  {
  }

  lemma AheadRing(p: Producer, op: Op)
    requires RingOk(p) && p.ring != []
    ensures RingOk(TakeAhead(p, op))
  {
    var p' := TakeAhead(p, op);
    assert p.ring[0] == p.home[p.low];
    assert p'.ring == p'.home[p'.low..];
  }

  lemma TakeAheadOk(p: Producer, done: set<nat>, tail: nat, b: BlockId)
    requires ProducerOk(p, done, tail) && p.producing.Check? && p.producing.j >= 32
    ensures ProducerOk(ProducerStep(p, tail, b), done, tail)
  {
    hide HeadersOk, StoredOk, DoneOk, FlagsOk;
    var op, p' := p.producing.op, ProducerStep(p, tail, b);
    AheadRing(p, op);
    assert p.ring[0] == p.home[p.low];
    AheadDone(p, done, tail, |p.home| - Unclear(p.producing));
    FlagsKept(p.home, p'.home, p.flags, done, p.low, p'.low, |p.home| - Unclear(p.producing));
    HeadersKept(p, p');
    StoredKept(p, p', done);
  }

  lemma CheckOk(p: Producer, done: set<nat>, tail: nat, b: BlockId)
    requires ProducerOk(p, done, tail) && p.producing.Check? && p.producing.j < 32
    ensures ProducerOk(ProducerStep(p, tail, b), done, tail)
  {
    hide HeaderOk, StoredOk, DoneOk, FlagsOk, Slot;
    StoredKept(p, ProducerStep(p, tail, b), done);
  }

  lemma LinkedRing(p: Producer, op: Op, b: BlockId)
    requires RingOk(p) && b !in p.ring
    ensures RingOk(LinkNew(p, op, b))
  {
    var p' := LinkNew(p, op, b);
    assert p'.ring == p'.home[p'.low..];
    forall a | p.low <= a < |p.home|
      ensures p.home[a] != b
    {
      assert p.ring[a - p.low] == p.home[a];
    }
  }

  lemma LinkedFlags(p: Producer, b: BlockId, done: set<nat>, clear: int)
    requires RingOk(p) && b !in p.ring && FlagsOk(p.home, p.flags, done, p.low, clear) && clear <= |p.home|
    ensures FlagsOk(p.home + [b], p.flags, done, p.low, clear)
    ensures FlagsOk(p.home + [b], p.flags + Cells(b), done, p.low, clear)
  {
    forall a | p.low <= a < |p.home|
      ensures p.home[a] != b
    {
      assert p.ring[a - p.low] == p.home[a];
    }
  }

  lemma LinkNewOk(p: Producer, done: set<nat>, tail: nat, b: BlockId)
    requires ProducerOk(p, done, tail) && p.producing.Allocate? && p.slotsUsed != p.current.size && b !in p.ring
    ensures ProducerOk(ProducerStep(p, tail, b), done, tail)
  {
    hide HeadersOk, StoredOk, DoneOk, FlagsOk;
    var op, p' := p.producing.op, ProducerStep(p, tail, b);
    LinkedRing(p, op, b);
    LinkedFlags(p, b, done, |p.home| - Unclear(p.producing));
    HeadersKept(p, p');
    StoredKept(p, p', done);
  }

  /** The larger index has all entries that the current one has. */
  lemma LargerOk(h: Header, home: seq<BlockId>, low: nat, nextSlot: int, slotsUsed: nat, exposed: nat)
    requires HeaderOk(h, home, low) && h.high == |home| && slotsUsed <= h.size && low + slotsUsed == |home|
    requires nextSlot == Slot(h, h.high) && low + exposed <= |home|
    ensures HeaderOk(Larger(h, nextSlot, slotsUsed, exposed, low), home, low)
    ensures slotsUsed == Slot(Larger(h, nextSlot, slotsUsed, exposed, low), |home|)
  {
    var h' := Larger(h, nextSlot, slotsUsed, exposed, low);
    forall n | low <= n < h.high
      ensures EntryOk(h', n, home)
    {
      assert EntryOk(h, n, home);
      var k := n - low;
      WrapShift(h.high + h.shift, k - slotsUsed, h.size);
      assert nextSlot - slotsUsed + k == nextSlot + (k - slotsUsed);
      assert h.high + h.shift + (k - slotsUsed) == n + h.shift;
    }
  }

  lemma GrowOk(p: Producer, done: set<nat>, tail: nat, b: BlockId)
    requires ProducerOk(p, done, tail) && p.producing.Allocate? && p.slotsUsed == p.current.size
    ensures ProducerOk(ProducerStep(p, tail, b), done, tail)
  {
    hide HeaderOk, StoredOk, DoneOk, FlagsOk, Slot, Larger;
    var op, p' := p.producing.op, ProducerStep(p, tail, b);
    LargerOk(p.current, p.home, p.low, p.nextSlot, p.slotsUsed, op.exposed);
    LargerIs(p.current, p.nextSlot, p.slotsUsed, op.exposed, p.low);
    StoredKept(p, p', done);
  }

  lemma LargerIs(h: Header, nextSlot: int, slotsUsed: nat, exposed: nat, low: nat)
    ensures var h' := Larger(h, nextSlot, slotsUsed, exposed, low);
      h'.size == 2 * h.size && h'.high == h.high && h'.newest == low + exposed - 1
  {
  }

  /** Setting back the flags of a block that nothing was read from yet. */
  lemma ClearedOk(home: seq<BlockId>, flags: set<Cell>, done: set<nat>, low: nat, n: nat)
    requires FlagsOk(home, flags, done, low, n) && low <= n < |home|
    requires forall a, b :: low <= a < b < |home| ==> home[a] != home[b]
    requires forall i :: i in done ==> i < 32 * n
    ensures FlagsOk(home, Cleared(flags, home[n]), done, low, n + 1)
  {
  }

  lemma ClearOk(p: Producer, done: set<nat>, tail: nat, b: BlockId)
    requires ProducerOk(p, done, tail) && (p.producing.Clear? || p.producing.ClearEntered?)
    ensures ProducerOk(ProducerStep(p, tail, b), done, tail)
  {
    hide HeaderOk, StoredOk, FlagsOk, Slot, Cleared;
    var p' := ProducerStep(p, tail, b);
    var n := |p.home| - Unclear(p.producing);
    if p.producing.Clear? || p.producing.k < p.producing.op.entered {
      assert p.ring[n - p.low] == p.home[n];
      ClearedOk(p.home, p.flags, done, p.low, n);
    }
    StoredKept(p, p', done);
  }

  lemma OtherEntries(h: Header, h': Header, home: seq<BlockId>, low: nat, slot: int)
    requires HeaderOk(h, home, low) && slot == Slot(h, h.high) && h.high < low + h.size
    requires h' == h.(bases := h'.bases) || h' == h.(blocks := h'.blocks)
    requires h'.bases == h.bases || (slot in h'.bases && h'.bases == h.bases[slot := h'.bases[slot]])
    requires h'.blocks == h.blocks || (slot in h'.blocks && h'.blocks == h.blocks[slot := h'.blocks[slot]])
    ensures HeaderOk(h', home, low)
  {
    forall n | low <= n < h.high
      ensures EntryOk(h', n, home)
    {
      assert EntryOk(h, n, home);
      SlotsDiffer(h, n, h.high);
    }
  }

  lemma BaseIs(tail: nat, start: nat)
    requires 32 * start - 32 < tail <= 32 * start
    ensures BlockBase(tail - 1) == 32 * (start - 1)
  {
  }

  lemma SetBaseOk(p: Producer, done: set<nat>, tail: nat, b: BlockId)
    requires ProducerOk(p, done, tail) && p.producing.SetBase?
    ensures ProducerOk(ProducerStep(p, tail, b), done, tail)
  {
    hide HeaderOk, StoredOk, DoneOk, FlagsOk, Slot, BlockBase;
    var p' := ProducerStep(p, tail, b);
    BaseIs(tail, |p.home| - p.producing.op.entered);
    OtherEntries(p.current, p'.current, p.home, p.low, p.nextSlot);
    SlotIs(p.current, p'.current, p.current.high);
    StoredKept(p, p', done);
  }

  lemma SlotIs(h: Header, h': Header, n: int)
    requires h'.shift == h.shift && h'.size == h.size
    ensures Slot(h', n) == Slot(h, n)
  {
  }

  /** With its block the entry is complete. */
  lemma EntryAdded(h: Header, home: seq<BlockId>, low: nat, b: BlockId)
    requires HeaderOk(h, home, low) && h.high < |home| && b == home[h.high] && h.high < low + h.size
    requires Slot(h, h.high) in h.bases && h.bases[Slot(h, h.high)] == 32 * h.high
    ensures HeaderOk(h.(blocks := h.blocks[Slot(h, h.high) := b], high := h.high + 1), home, low)
  {
    hide Slot;
    var h1 := h.(blocks := h.blocks[Slot(h, h.high) := b]);
    var h' := h1.(high := h.high + 1);
    OtherEntries(h, h1, home, low, Slot(h, h.high));
    forall n | low <= n < h'.high
      ensures EntryOk(h', n, home)
    {
      SlotIs(h, h', n);
      SlotIs(h1, h', n);
      if n < h.high {
        assert EntryOk(h1, n, home);
      }
    }
    SlotIs(h1, h', h.newest);
  }

  lemma SetBlockOk(p: Producer, done: set<nat>, tail: nat, b: BlockId)
    requires ProducerOk(p, done, tail) && p.producing.SetBlock?
    ensures ProducerOk(ProducerStep(p, tail, b), done, tail)
  {
    hide HeaderOk, StoredOk, DoneOk, FlagsOk, Slot;
    var p' := ProducerStep(p, tail, b);
    assert p.ring[|p.ring| - 1] == p.home[|p.home| - 1];
    EntryAdded(p.current, p.home, p.low, p.ring[|p.ring| - 1]);
    NextSlotIs(p.current, p'.current, p.current.high);
    StoredKept(p, p', done);
  }

  lemma NextSlotIs(h: Header, h': Header, n: int)
    requires h'.shift == h.shift && h'.size == h.size
    ensures Wrap(Slot(h, n) + 1, h.size) == Slot(h', n + 1)
    ensures Wrap(Slot(h, n) - 1, h.size) == Slot(h', n - 1)
  {
    WrapShift(n + h.shift, 1, h.size);
    WrapShift(n + h.shift, -1, h.size);
    assert n + h.shift + 1 == n + 1 + h.shift && n + h.shift - 1 == n - 1 + h.shift;
    assert Slot(h, n) + -1 == Slot(h, n) - 1;
  }

  lemma FrontStored(h: Header, home: seq<BlockId>, low: nat, front: int)
    requires HeaderOk(h, home, low) && h.high > 0 && front == Slot(h, h.high - 1)
    ensures HeaderOk(h.(front := front, newest := h.high - 1), home, low)
  {
    var h' := h.(front := front, newest := h.high - 1);
    forall n | low <= n < h.high
      ensures EntryOk(h', n, home)
    {
      assert EntryOk(h, n, home);
    }
  }

  lemma StoreFrontOk(p: Producer, done: set<nat>, tail: nat, b: BlockId)
    requires ProducerOk(p, done, tail) && p.producing.StoreFront?
    ensures ProducerOk(ProducerStep(p, tail, b), done, tail)
  {
    hide HeaderOk, StoredOk, DoneOk, FlagsOk, Slot;
    var p' := ProducerStep(p, tail, b);
    NextSlotIs(p.current, p.current, p.current.high);
    FrontStored(p.current, p.home, p.low, p'.current.front);
    SlotIs(p.current, p'.current, p.current.high);
    StoredKept(p, p', done);
  }

  /** A value written leaves the elements that are still to be read. */
  lemma WrittenStored(p: Producer, p': Producer, done: set<nat>, tail: nat, at: int, x: Value)
    requires RingOk(p) && StoredOk(p, done) && DoneOk(p.low, done, tail) && tail <= |p.log|
    requires p.low <= |p.log| / 32 < |p.home| && p'.home == p.home && p'.log == p.log + [x]
    requires p'.elements == p.elements[Cell(p.home[|p.log| / 32], |p.log| % 32) := x]
    ensures StoredOk(p', done)
  {
    var m := |p.log|;
    forall i: nat | i < |p'.log| && i !in done
      ensures Stored(p', i)
    {
      if i < m {
        assert Stored(p, i);
        assert i / 32 >= p.low;
        if i / 32 != m / 32 {
          assert p.home[i / 32] != p.home[m / 32];
        } else {
          assert i % 32 != m % 32;
        }
      }
    }
  }

  lemma WriteOk(p: Producer, done: set<nat>, tail: nat, b: BlockId)
    requires ProducerOk(p, done, tail) && p.producing.Write? && p.producing.k < |p.producing.op.values|
    ensures ProducerOk(ProducerStep(p, tail, b), done, tail)
  {
    hide HeaderOk, StoredOk, FlagsOk, DoneOk, Slot;
    var p', at, k := ProducerStep(p, tail, b), p.producing.at, p.producing.k;
    LowBelowTail(p.low, done, tail);
    NextNumber(tail + k);
    assert BlockAt(p.ring, at) == p.home[(tail + k) / 32];
    WrittenStored(p, p', done, tail, at, p.producing.op.values[k]);
  }

  lemma LowBelowTail(low: nat, done: set<nat>, tail: nat)
    requires DoneOk(low, done, tail)
    ensures 32 * low <= tail
  {
    assert tail !in done;
  }

  lemma NextNumber(i: nat)
    ensures (i + 1) / 32 == i / 32 + if (i + 1) % 32 == 0 then 1 else 0
  {
  }

  lemma OtherStepOk(p: Producer, done: set<nat>, tail: nat, b: BlockId)
    requires ProducerOk(p, done, tail)
    requires p.producing.Ready? || (p.producing.Write? && p.producing.k >= |p.producing.op.values|)
    ensures ProducerOk(ProducerStep(p, tail, b), done, tail)
  {
    hide HeaderOk, StoredOk, DoneOk, FlagsOk, Slot;
    StoredKept(p, ProducerStep(p, tail, b), done);
  }

  lemma StoreTailOk(p: Producer, done: set<nat>, tail: nat, b: BlockId)
    requires ProducerOk(p, done, tail) && p.producing.StoreTail?
    ensures ProducerOk(ProducerStep(p, tail, b), done, tail + |p.producing.op.values|)
  {
    hide HeaderOk, StoredOk, FlagsOk, Slot;
    StoredKept(p, ProducerStep(p, tail, b), done);
  }

  lemma StartOk(p: Producer, done: set<nat>, tail: nat, values: seq<Value>, bulk: bool)
    requires ProducerOk(p, done, tail) && p.producing.Ready? && (!bulk ==> |values| == 1)
    ensures ProducerOk(Started(p, values, bulk, tail), done, tail)
  {
    hide HeaderOk, StoredOk, DoneOk, FlagsOk, Slot, BlockStarts, BlockBase;
    var p', c := Started(p, values, bulk, tail), |values|;
    NoBlockStarts(tail);
    BaseDiff(tail, c);
    BaseIs(tail, |p.home|);
    BaseBounds(tail + c - 1);
    StoredKept(p, p', done);
  }

  lemma ProducerStepOk(p: Producer, done: set<nat>, tail: nat, b: BlockId)
    requires ProducerOk(p, done, tail) && !p.producing.StoreTail? && (p.producing.Allocate? ==> b !in p.ring)
    ensures ProducerOk(ProducerStep(p, tail, b), done, tail)
  {
    hide ProducerOk, ProducerStep;
    match p.producing
    case Check(op, j) => if j >= 32 { TakeAheadOk(p, done, tail, b); } else { CheckOk(p, done, tail, b); }
    case Allocate(_) => if p.slotsUsed == p.current.size { GrowOk(p, done, tail, b); } else { LinkNewOk(p, done, tail, b); }
    case Clear(_) => ClearOk(p, done, tail, b);
    case SetBase(_) => SetBaseOk(p, done, tail, b);
    case SetBlock(_) => SetBlockOk(p, done, tail, b);
    case ClearEntered(_, _) => ClearOk(p, done, tail, b);
    case StoreFront(_) => StoreFrontOk(p, done, tail, b);
    case Write(op, _, k) => if k < |op.values| { WriteOk(p, done, tail, b); } else { OtherStepOk(p, done, tail, b); }
    case _ => OtherStepOk(p, done, tail, b);
  }

  // ---------------------------------------------------------------- the consumers' invariant

  /** The first index that is not read yet. */
  function ReadUpTo(look: Look, first: nat, lim: nat): nat {
    match look
    case LoadBlock(_, _, next) => next
    case ReadElement(_, _, _, _, next) => next
    case SetFlag(_, _, _, _, end, _) => end
    case Finished => lim
    case _ => first
  }

  /** Has this consumer set the flag of an index it claimed? */
  predicate Flagged(look: Look, i: nat) {
    match look
    case LoadBlock(_, _, next) => i < next
    case ReadElement(_, _, _, from, _) => i < from
    case SetFlag(_, _, _, from, end, k) => i < from || end - k <= i < end
    case Finished => true
    case _ => false
  }

  predicate Found(p: Producer, h: nat, slot: int, block: BlockId, from: nat) {
    slot == Slot(At(p, h), from / 32) && from / 32 < |p.home| && block == p.home[from / 32]
  }

  /** What a consumer has loaded is right for what it still has to read. */
  predicate PlaceFound(p: Producer, look: Look, first: nat, lim: nat) {
    match look
    case LoadIndex => true
    case LoadFront(h) => h <= |p.older| && lim <= 32 * (At(p, h).newest + 1)
    case LoadBase(h, front, newest) =>
      && h <= |p.older| && lim <= 32 * (newest + 1) && newest < At(p, h).high
      && (first < lim ==> front == Slot(At(p, h), newest))
    case LoadBlock(h, slot, next) =>
      && h <= |p.older| && lim <= 32 * At(p, h).high && first <= next <= lim
      && (next < lim ==> slot == Slot(At(p, h), next / 32))
    case ReadElement(h, slot, block, from, next) =>
      && h <= |p.older| && lim <= 32 * At(p, h).high && first <= from <= next <= End(from, lim) && from <= lim
      && (from < lim ==> Found(p, h, slot, block, from))
    case SetFlag(h, slot, block, from, end, k) =>
      && h <= |p.older| && lim <= 32 * At(p, h).high && first <= from <= lim && end == End(from, lim) && from + k <= end
      && (from < lim ==> Found(p, h, slot, block, from))
    case Finished => true
  }

  ghost predicate LookOk(p: Producer, taken: seq<Taken>, done: set<nat>, look: Look, first: nat, lim: nat) {
    && PlaceFound(p, look, first, lim)
    && (forall i: nat :: first <= i < lim ==> (WasTaken(taken, i) <==> i < ReadUpTo(look, first, lim)))
    && (forall i: nat :: first <= i < lim ==> (i in done <==> Flagged(look, i)))
  }

  ghost predicate LooksOk(s: State) {
    forall t :: Reading(s.c, t) ==>
      t in s.looks && LookOk(s.p, s.taken, s.done, s.looks[t], s.c.pcs[t].first, s.c.pcs[t].first + s.c.pcs[t].actual)
  }

  ghost predicate Inv(s: State) {
    && C.Inv(s.c) && ProducerOk(s.p, s.done, s.c.tail)
    && LooksOk(s) && ThroughOk(s.c, s.taken, s.done) && TakenOk(s.taken, s.p.log)
  }

  // ---------------------------------------------------------------- the producer does not disturb the consumers

  /** Indexes only get more entries and newer fronts, and blocks keep their numbers. */
  predicate Grows(p: Producer, p': Producer) {
    && |p.older| <= |p'.older| && p.home <= p'.home && p.log <= p'.log
    && forall h :: 0 <= h <= |p.older| ==>
         && At(p', h).size == At(p, h).size && At(p', h).shift == At(p, h).shift
         && At(p', h).high >= At(p, h).high && At(p', h).newest >= At(p, h).newest
  }

  lemma PlaceKept(p: Producer, p': Producer, look: Look, first: nat, lim: nat)
    requires Grows(p, p') && PlaceFound(p, look, first, lim)
    ensures PlaceFound(p', look, first, lim)
  {
    match look
    case LoadBase(h, _, newest) => SlotIs(At(p, h), At(p', h), newest);
    case LoadBlock(h, _, next) => SlotIs(At(p, h), At(p', h), next / 32);
    case ReadElement(h, _, _, from, _) => SlotIs(At(p, h), At(p', h), from / 32);
    case SetFlag(h, _, _, from, _, _) => SlotIs(At(p, h), At(p', h), from / 32);
    case _ =>
  }

  lemma ConsumersKept(s: State, s': State)
    requires LooksOk(s) && TakenOk(s.taken, s.p.log) && Grows(s.p, s'.p)
    requires s'.c.pcs == s.c.pcs && s'.looks == s.looks && s'.taken == s.taken && s'.done == s.done
    ensures LooksOk(s') && TakenOk(s'.taken, s'.p.log)
  {
    hide PlaceFound, Grows;
    forall t | Reading(s'.c, t)
      ensures t in s'.looks && LookOk(s'.p, s'.taken, s'.done, s'.looks[t], s'.c.pcs[t].first, s'.c.pcs[t].first + s'.c.pcs[t].actual)
    {
      assert Reading(s.c, t);
      PlaceKept(s.p, s'.p, s.looks[t], s.c.pcs[t].first, s.c.pcs[t].first + s.c.pcs[t].actual);
    }
    LogGrows(s.p, s'.p);
  }

  lemma LogGrows(p: Producer, p': Producer)
    requires Grows(p, p')
    ensures p.log <= p'.log
  {
  }

  lemma StepGrows(p: Producer, tail: nat, b: BlockId)
    requires HeadersOk(p) && RingOk(p) && CurrentOk(p, tail) && PlaceOk(p, tail)
    ensures Grows(p, ProducerStep(p, tail, b))
  {
    hide HeaderOk, HeadersOk, FlagsOk, Slot, Larger, RingOk, Grows, OpOk, Cleared;
    var p' := ProducerStep(p, tail, b);
    CurrentNewest(p);
    if p.producing.Allocate? && p.slotsUsed == p.current.size {
      GrowsLarger(p, p');
    } else {
      GrowsSame(p, p');
    }
  }

  lemma GrowsSame(p: Producer, p': Producer)
    requires p'.older == p.older && p.home <= p'.home && p.log <= p'.log
    requires p'.current.size == p.current.size && p'.current.shift == p.current.shift
    requires p'.current.high >= p.current.high && p'.current.newest >= p.current.newest
    ensures Grows(p, p')
  {
  }

  lemma GrowsLarger(p: Producer, p': Producer)
    requires p'.older == p.older + [p.current] && p'.home == p.home && p'.log == p.log
    ensures Grows(p, p')
  {
    forall h | 0 <= h <= |p.older|
      ensures At(p', h) == At(p, h)
    {
    }
  }

  lemma CurrentNewest(p: Producer)
    requires HeadersOk(p)
    ensures p.current.newest < p.current.high <= |p.home|
  {
  }

  lemma InvProduce(s: State, b: BlockId)
    requires Inv(s) && Enabled(s, Produce(b))
    ensures Inv(Apply(s, Produce(b)))
  {
    hide ProducerStep, PlaceOk, HeaderOk, LooksOk, TakenOk, Grows, C.Inv;
    var s' := Apply(s, Produce(b));
    StepGrows(s.p, s.c.tail, b);
    ConsumersKept(s, s');
    if s.p.producing.StoreTail? {
      StoreTailOk(s.p, s.done, s.c.tail, b);
      C.InvEnqueue(s.c, |s.p.producing.op.values|);
    } else {
      ProducerStepOk(s.p, s.done, s.c.tail, b);
    }
  }

  lemma InvStart(s: State, values: seq<Value>, bulk: bool)
    requires Inv(s) && Enabled(s, Start(values, bulk))
    ensures Inv(Apply(s, Start(values, bulk)))
  {
    hide PlaceOk, HeaderOk, LooksOk, TakenOk, C.Inv;
    var s' := Apply(s, Start(values, bulk));
    StartOk(s.p, s.done, s.c.tail, values, bulk);
    ConsumersKept(s, s');
  }

  // ---------------------------------------------------------------- every access of a consumer keeps it

  /** Nothing changes outside of the claim of t. */
  ghost predicate OnlyIn(s: State, s': State, first: nat, lim: nat) {
    forall i: nat :: i < first || lim <= i ==> (WasTaken(s'.taken, i) <==> WasTaken(s.taken, i)) && (i in s'.done <==> i in s.done)
  }

  lemma OtherLook(p: Producer, p': Producer, s: State, s': State, look: Look, first: nat, lim: nat, myFirst: nat, myLim: nat)
    requires LookOk(p, s.taken, s.done, look, first, lim) && Grows(p, p') && OnlyIn(s, s', myFirst, myLim)
    requires Apart(first, lim, myFirst, myLim)
    ensures LookOk(p', s'.taken, s'.done, look, first, lim)
  {
    hide PlaceFound, WasTaken, Grows;
    PlaceKept(p, p', look, first, lim);
  }

  /** What is left to show of an access of t. */
  lemma LookUpdated(s: State, s': State, t: Tid)
    requires C.Inv(s.c) && LooksOk(s) && ThroughOk(s.c, s.taken, s.done) && Reading(s.c, t)
    requires s'.c == s.c && t in s'.looks && s'.looks == s.looks[t := s'.looks[t]] && Grows(s.p, s'.p)
    requires OnlyIn(s, s', s.c.pcs[t].first, s.c.pcs[t].first + s.c.pcs[t].actual)
    requires LookOk(s'.p, s'.taken, s'.done, s'.looks[t], s.c.pcs[t].first, s.c.pcs[t].first + s.c.pcs[t].actual)
    ensures LooksOk(s') && ThroughOk(s'.c, s'.taken, s'.done)
  {
    hide LookOk, WasTaken, Grows, C.Inv;
    var myFirst, myLim := s.c.pcs[t].first, s.c.pcs[t].first + s.c.pcs[t].actual;
    OwnClaim(s.c, t);
    forall u | Reading(s'.c, u)
      ensures u in s'.looks && LookOk(s'.p, s'.taken, s'.done, s'.looks[u], s.c.pcs[u].first, s.c.pcs[u].first + s.c.pcs[u].actual)
    {
      if u != t {
        var first, lim := s.c.pcs[u].first, s.c.pcs[u].first + s.c.pcs[u].actual;
        ClaimsApart(s.c, u, t);
        OtherLook(s.p, s'.p, s, s', s.looks[u], first, lim, myFirst, myLim);
      }
    }
  }

  /** An access that only moves the consumer on. */
  lemma LookMoved(s: State, t: Tid, look: Look)
    requires Inv(s) && Reading(s.c, t) && t in s.looks
    requires var first, lim := s.c.pcs[t].first, s.c.pcs[t].first + s.c.pcs[t].actual;
      LookOk(s.p, s.taken, s.done, look, first, lim)
    ensures Inv(s.(looks := s.looks[t := look]))
  {
    hide LookOk, WasTaken, ProducerOk, TakenOk, LooksOk, ThroughOk, C.Inv;
    LookUpdated(s, s.(looks := s.looks[t := look]), t);
  }

  /** Unread indices are in blocks that are still in the ring. */
  lemma UnreadInRing(p: Producer, done: set<nat>, tail: nat, h: nat, i: nat)
    requires ProducerOk(p, done, tail) && i !in done && h <= |p.older|
    ensures p.low <= i / 32
    ensures i / 32 < At(p, h).high ==> EntryOk(At(p, h), i / 32, p.home)
    ensures HeaderOk(At(p, h), p.home, p.low)
  {
    hide FlagsOk, PlaceOk, StoredOk;
    assert i >= 32 * p.low;
  }

  /** From the front, whichever number it has, an unread index is as many slots back as it is blocks. */
  lemma OffsetFinds(h: Header, newest: int, base: int, i: nat)
    requires base == 32 * newest
    ensures Wrap(Slot(h, newest) + (BlockBase(i) - base) / 32, h.size) == Slot(h, i / 32)
  {
    hide Wrap;
    assert BlockBase(i) == 32 * (i / 32);
    assert (BlockBase(i) - base) / 32 == i / 32 - newest;
    WrapShift(newest + h.shift, i / 32 - newest, h.size);
    assert newest + h.shift + (i / 32 - newest) == i / 32 + h.shift;
  }

  /** The loads of the index, its front, a base and a block. */
  lemma LoadPlace(s: State, t: Tid, look: Look, first: nat, lim: nat)
    requires ProducerOk(s.p, s.done, s.c.tail) && LookOk(s.p, s.taken, s.done, look, first, lim) && first <= lim <= s.c.tail
    requires look.LoadIndex? || look.LoadFront? || look.LoadBase? || look.LoadBlock?
    ensures var look' := LookStep(s, t, look, first, lim).looks[t]; PlaceFound(s.p, look', first, lim)
  {
    hide WasTaken, FlagsOk, PlaceOk, StoredOk, HeadersOk, Slot, BlockBase;
    match look
    case LoadIndex =>
      assert At(s.p, |s.p.older|) == s.p.current;
    case LoadFront(h) =>
      if first < lim {
        assert first !in s.done;
        UnreadInRing(s.p, s.done, s.c.tail, h, first);
      } else {
        HeaderAt(s.p, h);
      }
    case LoadBase(h, front, newest) =>
      HeaderAt(s.p, h);
      if first < lim {
        assert first !in s.done;
        UnreadInRing(s.p, s.done, s.c.tail, h, first);
        assert EntryOk(At(s.p, h), newest, s.p.home);
        OffsetFinds(At(s.p, h), newest, 32 * newest, first);
      }
    case LoadBlock(h, slot, next) =>
      if next < lim {
        assert next !in s.done;
        UnreadInRing(s.p, s.done, s.c.tail, h, next);
      }
  }

  lemma HeaderAt(p: Producer, h: nat)
    requires HeadersOk(p) && h <= |p.older|
    ensures HeaderOk(At(p, h), p.home, p.low)
  {
  }

  lemma InvLoad(s: State, t: Tid)
    requires Inv(s) && Reading(s.c, t) && t in s.looks
    requires s.looks[t].LoadIndex? || s.looks[t].LoadFront? || s.looks[t].LoadBase? || s.looks[t].LoadBlock?
    ensures Inv(LookStep(s, t, s.looks[t], s.c.pcs[t].first, s.c.pcs[t].first + s.c.pcs[t].actual))
  {
    hide WasTaken, ProducerOk, PlaceFound, TakenOk, ThroughOk, C.Inv;
    var look, first, lim := s.looks[t], s.c.pcs[t].first, s.c.pcs[t].first + s.c.pcs[t].actual;
    OwnClaim(s.c, t);
    LoadPlace(s, t, look, first, lim);
    LookMoved(s, t, LookStep(s, t, look, first, lim).looks[t]);
  }

  /** Taking a value: it is in the block that was found. */
  lemma ElementFound(p: Producer, done: set<nat>, tail: nat, h: nat, slot: int, block: BlockId, from: nat, next: nat, lim: nat)
    requires ProducerOk(p, done, tail) && Found(p, h, slot, block, from) && from <= next < End(from, lim)
    requires next !in done && next < |p.log|
    ensures ElementIn(p.elements, Cell(block, next % 32)) == p.log[next]
  {
    hide FlagsOk, PlaceOk, HeadersOk, DoneOk, RingOk;
    assert Stored(p, next);
    assert next / 32 == from / 32;
  }

  lemma LogCovers(p: Producer, done: set<nat>, tail: nat)
    requires ProducerOk(p, done, tail)
    ensures tail <= |p.log|
  {
    hide FlagsOk, HeadersOk, DoneOk, RingOk, StoredOk;
  }

  lemma InvRead(s: State, t: Tid)
    requires Inv(s) && Reading(s.c, t) && t in s.looks && s.looks[t].ReadElement?
    ensures Inv(LookStep(s, t, s.looks[t], s.c.pcs[t].first, s.c.pcs[t].first + s.c.pcs[t].actual))
  {
    hide WasTaken, ProducerOk, TakenOk, ThroughOk, LooksOk, C.Inv, Slot;
    assert LooksOk(s);
    var look, first, lim := s.looks[t], s.c.pcs[t].first, s.c.pcs[t].first + s.c.pcs[t].actual;
    LookOkOf(s, t);
    OwnClaim(s.c, t);
    var s', next := LookStep(s, t, look, first, lim), look.next;
    if next < End(look.from, lim) {
      assert next !in s.done && !WasTaken(s.taken, next);
      LogCovers(s.p, s.done, s.c.tail);
      ElementFound(s.p, s.done, s.c.tail, look.h, look.slot, look.block, look.from, next, lim);
      TakenMore(s.taken, Taken(next, s.p.log[next]), s.p.log);
      LookUpdated(s, s', t);
    } else {
      LookMoved(s, t, s'.looks[t]);
    }
  }

  lemma LookOkOf(s: State, t: Tid)
    requires LooksOk(s) && Reading(s.c, t)
    ensures t in s.looks && LookOk(s.p, s.taken, s.done, s.looks[t], s.c.pcs[t].first, s.c.pcs[t].first + s.c.pcs[t].actual)
  {
  }

  /** Setting the flag of an element that was read. */
  lemma FlagSetOk(p: Producer, done: set<nat>, tail: nat, i: nat)
    requires ProducerOk(p, done, tail) && i < tail && i !in done && i / 32 < |p.home|
    ensures Cell(p.home[i / 32], 31 - i % 32) !in p.flags
    ensures ProducerOk(p.(flags := p.flags + {Cell(p.home[i / 32], 31 - i % 32)}), done + {i}, tail)
  {
    hide HeaderOk, Slot, FlagsOk, StoredOk, OpOk;
    var p' := p.(flags := p.flags + {Cell(p.home[i / 32], 31 - i % 32)});
    assert i / 32 >= p.low;
    FlagPlace(p, p', tail);
    ClearBelow(p, tail, i);
    FlagAdded(p.home, p.flags, done, p.low, |p.home| - Unclear(p.producing), i);
    DoneStored(p, p', done, i);
  }

  /** More flags do not matter to an operation. */
  lemma FlagPlace(p: Producer, p': Producer, tail: nat)
    requires PlaceOk(p, tail) && p' == p.(flags := p'.flags) && p.flags <= p'.flags
    ensures PlaceOk(p', tail)
  {
  }

  /** Blocks whose flags are not set back yet have no elements. */
  lemma ClearBelow(p: Producer, tail: nat, i: nat)
    requires PlaceOk(p, tail) && i < tail
    ensures i / 32 < |p.home| - Unclear(p.producing)
  {
  }

  lemma DoneStored(p: Producer, p': Producer, done: set<nat>, i: nat)
    requires StoredOk(p, done) && p'.home == p.home && p'.log == p.log && p'.elements == p.elements
    ensures StoredOk(p', done + {i})
  {
    forall j: nat | j < |p'.log| && j !in done + {i}
      ensures Stored(p', j)
    {
      assert Stored(p, j);
    }
  }

  lemma FlagAdded(home: seq<BlockId>, flags: set<Cell>, done: set<nat>, low: nat, clear: int, i: nat)
    requires FlagsOk(home, flags, done, low, clear) && low <= i / 32 < |home| && i !in done
    requires forall a, b :: low <= a < b < |home| ==> home[a] != home[b]
    ensures FlagsOk(home, flags + {Cell(home[i / 32], 31 - i % 32)}, done + {i}, low, clear)
    ensures i / 32 < clear ==> Cell(home[i / 32], 31 - i % 32) !in flags
  {
    var cell := Cell(home[i / 32], 31 - i % 32);
    forall n: nat, k: nat | low <= n < clear && n < |home| && k < 32
      ensures Cell(home[n], k) in flags + {cell} <==> 32 * n + 31 - k in done + {i}
    {
      if n != i / 32 {
        assert home[n] != home[i / 32];
      }
      assert 32 * n + 31 - k == i <==> n == i / 32 && k == 31 - i % 32;
    }
  }

  lemma InvSetFlag(s: State, t: Tid)
    requires Inv(s) && Reading(s.c, t) && t in s.looks && s.looks[t].SetFlag?
    ensures Inv(LookStep(s, t, s.looks[t], s.c.pcs[t].first, s.c.pcs[t].first + s.c.pcs[t].actual))
  {
    hide LookOk, WasTaken, ProducerOk, TakenOk, ThroughOk, LooksOk, C.Inv, Wrap;
    var look, first, lim := s.looks[t], s.c.pcs[t].first, s.c.pcs[t].first + s.c.pcs[t].actual;
    LookOkOf(s, t);
    OwnClaim(s.c, t);
    var s' := LookStep(s, t, look, first, lim);
    if look.from + look.k < look.end {
      var i := look.end - 1 - look.k;
      FlaggedLook(s.p, s'.p, s.taken, s.done, look, first, lim, i);
      FlagSetOk(s.p, s.done, s.c.tail, i);
      LookUpdated(s, s', t);
    } else {
      FlaggedAll(s.p, s.taken, s.done, look, first, lim);
      LookMoved(s, t, s'.looks[t]);
    }
  }

  /** The flag that is set next, counted from the last element of the block. */
  lemma FlaggedLook(p: Producer, p': Producer, taken: seq<Taken>, done: set<nat>, look: Look, first: nat, lim: nat, i: nat)
    requires LookOk(p, taken, done, look, first, lim) && look.SetFlag? && look.from + look.k < look.end
    requires p' == p.(flags := p'.flags) && i == look.end - 1 - look.k
    ensures first <= i < lim && i !in done && i / 32 < |p.home| && look.block == p.home[i / 32]
    ensures LookOk(p', taken, done + {i}, look.(k := look.k + 1), first, lim)
  {
    hide WasTaken, Slot;
    assert i / 32 == look.from / 32;
  }

  lemma FlaggedAll(p: Producer, taken: seq<Taken>, done: set<nat>, look: Look, first: nat, lim: nat)
    requires LookOk(p, taken, done, look, first, lim) && look.SetFlag? && look.from + look.k >= look.end && first <= lim
    ensures LookOk(p, taken, done, if look.end == lim then Finished
                                   else LoadBlock(look.h, Wrap(look.slot + 1, At(p, look.h).size), look.end), first, lim)
  {
    hide WasTaken, Slot, Wrap;
    NextSlotIs(At(p, look.h), At(p, look.h), look.from / 32);
    NextBlockNumber(look.from, lim);
  }

  /** The steps of the counters that do not begin or end the reading. */
  lemma InvCounter(s: State, c': C.State, t: Tid)
    requires Inv(s) && C.Inv(c') && t in s.c.pcs && t in c'.pcs && c'.pcs == s.c.pcs[t := c'.pcs[t]]
    requires c'.tail == s.c.tail && c'.head == s.c.head && c'.takers == s.c.takers && !s.c.pcs[t].Read? && !c'.pcs[t].Read?
    ensures Inv(s.(c := c'))
  {
    hide LookOk, WasTaken, ProducerOk, TakenOk, C.Inv;
    forall u | Reading(c', u)
      ensures u in s.looks && LookOk(s.p, s.taken, s.done, s.looks[u], c'.pcs[u].first, c'.pcs[u].first + c'.pcs[u].actual)
    {
      assert Reading(s.c, u);
    }
    forall i: nat
      ensures InHands(c', i) <==> InHands(s.c, i)
    {
    }
  }

  lemma InvClaim(s: State, t: Tid)
    requires Inv(s) && t in s.c.pcs && s.c.pcs[t].AddHead?
    ensures Inv(s.(c := C.RunStep(s.c, t), looks := s.looks[t := LoadIndex]))
  {
    hide WasTaken, ProducerOk, TakenOk, PlaceFound, C.Inv, C.RunStep;
    var c' := C.RunStep(s.c, t);
    C.InvAddHead(s.c, t);
    ClaimIs(s.c, t);
    LoadIndexFound(s.p, s.c.head, c'.head);
    forall u | Reading(c', u)
      ensures u in s.looks[t := LoadIndex] && LookOk(s.p, s.taken, s.done, s.looks[t := LoadIndex][u], c'.pcs[u].first, c'.pcs[u].first + c'.pcs[u].actual)
    {
      if u != t {
        assert Reading(s.c, u);
      }
    }
    forall i: nat | i < c'.head
      ensures i < s.c.head ==> (InHands(s.c, i) ==> InHands(c', i))
      ensures i >= s.c.head ==> InHands(c', i)
    {
    }
  }

  lemma LoadIndexFound(p: Producer, first: nat, lim: nat)
    ensures PlaceFound(p, LoadIndex, first, lim)
  {
  }

  lemma InvReturn(s: State, t: Tid)
    requires Inv(s) && Reading(s.c, t) && s.looks[t].Finished?
    ensures Inv(s.(c := C.RunStep(s.c, t)))
  {
    hide WasTaken, ProducerOk, TakenOk, PlaceFound, C.Inv, C.RunStep;
    var c' := C.RunStep(s.c, t);
    C.InvMove(s.c, t, C.Idle);
    ReturnIs(s.c, t);
    LookOkOf(s, t);
    forall u | Reading(c', u)
      ensures u in s.looks && LookOk(s.p, s.taken, s.done, s.looks[u], c'.pcs[u].first, c'.pcs[u].first + c'.pcs[u].actual)
    {
      assert Reading(s.c, u);
    }
    forall i: nat | i < c'.head && !InHands(c', i)
      ensures WasTaken(s.taken, i) && i in s.done
    {
      if InHands(s.c, i) {
        assert s.c.takers[i] == t;
      }
    }
  }

  lemma InvConsume(s: State, a: C.Action)
    requires Inv(s) && !a.Enqueue? && C.Enabled(s.c, a)
    ensures Inv(ConsumerStep(s, a))
  {
    hide LookStep, ProducerOk, ThroughOk, TakenOk, C.Inv, LookOk;
    match a
    case Begin(t, max) =>
      C.InvStep(s.c, a);
      InvCounter(s, C.Apply(s.c, a), t);
    case Run(t) =>
      if Reading(s.c, t) {
        LookOkOf(s, t);
        match s.looks[t] {
          case Finished => InvReturn(s, t);
          case ReadElement(_, _, _, _, _) => InvRead(s, t);
          case SetFlag(_, _, _, _, _, _) => InvSetFlag(s, t);
          case _ => InvLoad(s, t);
        }
      } else if s.c.pcs[t].AddHead? {
        InvClaim(s, t);
      } else {
        C.InvStep(s.c, a);
        InvCounter(s, C.Apply(s.c, a), t);
      }
  }

  lemma InvStep(s: State, a: Action)
    requires Inv(s) && Enabled(s, a)
    ensures Inv(Apply(s, a))
  {
    hide Inv, ConsumerStep, ProducerStep;
    match a
    case Start(values, bulk) => InvStart(s, values, bulk);
    case Produce(b) => InvProduce(s, b);
    case Consume(a') => InvConsume(s, a');
  }

  // ---------------------------------------------------------------- the theorems

  lemma InvInit(s: State)
    requires Init(s)
    ensures Inv(s)
  {
    assert Slot(s.p.current, 0) == 0;
  }

  lemma {:induction false} InvExec(s: State, actions: seq<Action>)
    requires Inv(s) && CanRun(s, actions)
    ensures Inv(Exec(s, actions))
    decreases |actions|
  {
    hide Inv, Enabled, Apply;
    if actions != [] {
      InvStep(s, actions[0]);
      InvExec(Apply(s, actions[0]), actions[1..]);
    }
  }

  /** Whatever the interleaving, the invariant holds. */
  lemma InvAlways(s: State, actions: seq<Action>)
    requires Init(s) && CanRun(s, actions)
    ensures Inv(Exec(s, actions))
  {
    hide Inv, Init;
    InvInit(s);
    InvExec(s, actions);
  }

  /** The values that the enqueue operations of a run bring, in order. */
  function Enqueued(actions: seq<Action>): seq<Value> {
    if actions == [] then []
    else (if actions[0].Start? then actions[0].values else []) + Enqueued(actions[1..])
  }

  /** The values of the operation under way that are not written yet. */
  function Unwritten(producing: Producing): seq<Value> {
    match producing
    case Ready => []
    case StoreTail(_) => []
    case Write(op, _, k) => if k < |op.values| then op.values[k..] else []
    case _ => producing.op.values
  }

  lemma UnwrittenStep(p: Producer, tail: nat, b: BlockId)
    ensures var p' := ProducerStep(p, tail, b); p'.log + Unwritten(p'.producing) == p.log + Unwritten(p.producing)
  {
    hide Larger, Cleared;
    if p.producing.Write? && p.producing.k < |p.producing.op.values| {
      var values, k := p.producing.op.values, p.producing.k;
      assert values[k..] == [values[k]] + values[k + 1..];
      assert p.log + [values[k]] + values[k + 1..] == p.log + ([values[k]] + values[k + 1..]);
    }
  }

  lemma LogStep(s: State, a: Action)
    requires Enabled(s, a)
    ensures var s' := Apply(s, a);
      s'.p.log + Unwritten(s'.p.producing) == s.p.log + Unwritten(s.p.producing) + (if a.Start? then a.values else [])
  {
    hide ProducerStep;
    match a
    case Start(values, bulk) =>
    case Produce(b) => UnwrittenStep(s.p, s.c.tail, b);
    case Consume(_) =>
  }

  lemma {:induction false} LogExec(s: State, actions: seq<Action>)
    requires CanRun(s, actions)
    ensures var e := Exec(s, actions);
      e.p.log + Unwritten(e.p.producing) == s.p.log + Unwritten(s.p.producing) + Enqueued(actions)
    decreases |actions|
  {
    hide Enabled, Apply, Unwritten;
    if actions != [] {
      LogStep(s, actions[0]);
      LogExec(Apply(s, actions[0]), actions[1..]);
    }
  }

  /** What was written is what was enqueued, up to where the operation under way has come. */
  lemma LogIsEnqueued(s: State, actions: seq<Action>)
    requires Init(s) && CanRun(s, actions)
    ensures var e := Exec(s, actions);
      && e.p.log <= Enqueued(actions)
      && (e.p.producing.Ready? ==> e.p.log == Enqueued(actions))
  {
    hide CanRun, Exec, Enqueued;
    LogExec(s, actions);
    assert [] + [] + Enqueued(actions) == Enqueued(actions);
  }

  /** Whichever of the indexes it loaded, and whatever the producer has done since, a consumer that takes an
      element is at the block of this element, finds the value that was enqueued at its index, and sets a flag
      that is not set. */
  lemma LookupFinds(s: State, actions: seq<Action>, t: Tid)
    requires Init(s) && CanRun(s, actions)
    requires var e := Exec(s, actions); Reading(e.c, t)
    ensures var e := Exec(s, actions);
      && t in e.looks
      && match e.looks[t]
         case ReadElement(h, slot, block, from, next) =>
           next < End(from, e.c.pcs[t].first + e.c.pcs[t].actual) ==>
             && next / 32 < |e.p.home| && block == e.p.home[next / 32]
             && next < |Enqueued(actions)| && ElementIn(e.p.elements, Cell(block, next % 32)) == Enqueued(actions)[next]
         case SetFlag(h, slot, block, from, end, k) =>
           from + k < end ==>
             && (end - 1 - k) / 32 < |e.p.home| && block == e.p.home[(end - 1 - k) / 32]
             && Cell(block, 31 - (end - 1 - k) % 32) !in e.p.flags
         case _ => true
  {
    hide CanRun, Exec, Enqueued, Init, LookOk, WasTaken, ProducerOk, TakenOk, ThroughOk, LooksOk, C.Inv, Slot;
    InvAlways(s, actions);
    LogIsEnqueued(s, actions);
    var e := Exec(s, actions);
    LookOkOf(e, t);
    OwnClaim(e.c, t);
    LogCovers(e.p, e.done, e.c.tail);
    var first, lim := e.c.pcs[t].first, e.c.pcs[t].first + e.c.pcs[t].actual;
    match e.looks[t]
    case ReadElement(h, slot, block, from, next) =>
      if next < End(from, lim) {
        NextFound(e.p, e.taken, e.done, e.looks[t], first, lim);
        ElementFound(e.p, e.done, e.c.tail, h, slot, block, from, next, lim);
      }
    case SetFlag(h, slot, block, from, end, k) =>
      if from + k < end {
        FlaggedLook(e.p, e.p, e.taken, e.done, e.looks[t], first, lim, end - 1 - k);
        FlagSetOk(e.p, e.done, e.c.tail, end - 1 - k);
      }
    case _ =>
  }

  lemma NextFound(p: Producer, taken: seq<Taken>, done: set<nat>, look: Look, first: nat, lim: nat)
    requires LookOk(p, taken, done, look, first, lim) && look.ReadElement? && look.next < End(look.from, lim)
    ensures first <= look.next < lim && look.next !in done && look.next / 32 < |p.home| && look.block == p.home[look.next / 32]
    ensures Found(p, look.h, look.slot, look.block, look.from) && look.from <= look.next
  {
    hide WasTaken, Slot;
    assert look.next / 32 == look.from / 32;
  }

  /** Consumers only read entries of the index that were written. */
  lemma EntriesWritten(s: State, actions: seq<Action>, t: Tid)
    requires Init(s) && CanRun(s, actions)
    requires var e := Exec(s, actions); Reading(e.c, t) && e.c.pcs[t].actual > 0
    ensures var e := Exec(s, actions);
      && t in e.looks
      && match e.looks[t]
         case LoadBase(h, front, _) => front in At(e.p, h).bases
         case LoadBlock(h, slot, next) => next < e.c.pcs[t].first + e.c.pcs[t].actual ==> slot in At(e.p, h).blocks
         case _ => true
  {
    hide CanRun, Exec, Init, WasTaken, ProducerOk, TakenOk, ThroughOk, LooksOk, C.Inv, Slot;
    InvAlways(s, actions);
    var e := Exec(s, actions);
    LookOkOf(e, t);
    match e.looks[t]
    case LoadBase(h, front, newest) =>
      assert e.c.pcs[t].first !in e.done;
      UnreadInRing(e.p, e.done, e.c.tail, h, e.c.pcs[t].first);
      assert EntryOk(At(e.p, h), newest, e.p.home);
    case LoadBlock(h, slot, next) =>
      if next < e.c.pcs[t].first + e.c.pcs[t].actual {
        assert next !in e.done;
        UnreadInRing(e.p, e.done, e.c.tail, h, next);
      }
    case _ =>
  }

  /** In every run, every value taken is the one enqueued at the index that was claimed for it, and no index is
      taken twice. */
  lemma TakenAreEnqueued(s: State, actions: seq<Action>)
    requires Init(s) && CanRun(s, actions)
    ensures var e := Exec(s, actions);
      && (forall k :: 0 <= k < |e.taken| ==>
            && e.taken[k].index < e.c.head && e.taken[k].index < |Enqueued(actions)|
            && e.taken[k].value == Enqueued(actions)[e.taken[k].index])
      && (forall j, k :: 0 <= j < k < |e.taken| ==> e.taken[j].index != e.taken[k].index)
  {
    hide CanRun, Exec, Enqueued, Init, ProducerOk, LooksOk, C.Inv;
    InvAlways(s, actions);
    LogIsEnqueued(s, actions);
    var e := Exec(s, actions);
    forall k | 0 <= k < |e.taken|
      ensures e.taken[k].index < e.c.head
    {
      assert WasTaken(e.taken, e.taken[k].index);
    }
  }

  /** With no dequeue running, exactly the elements below the head were taken, and the head is not past what
      was enqueued: nothing is lost. */
  lemma NothingLost(s: State, actions: seq<Action>, i: nat)
    requires Init(s) && CanRun(s, actions)
    requires var e := Exec(s, actions); forall t :: t in e.c.pcs ==> e.c.pcs[t].Idle?
    ensures var e := Exec(s, actions);
      && (i < e.c.head <==> exists k :: 0 <= k < |e.taken| && e.taken[k].index == i)
      && e.c.head <= e.c.tail <= |Enqueued(actions)|
      && (e.p.producing.Ready? ==> e.c.tail == |Enqueued(actions)|)
  {
    hide CanRun, Exec, Enqueued, Init, LooksOk, TakenOk, C.Inv, HeadersOk, CurrentOk, FlagsOk, StoredOk;
    InvAlways(s, actions);
    LogIsEnqueued(s, actions);
    var e := Exec(s, actions);
    assert forall t :: t in e.c.pcs ==> e.c.pcs[t].Idle?;
    C.HeadAtMostTail(e.c);
    LogCovers(e.p, e.done, e.c.tail);
    assert WasTaken(e.taken, i) <==> i < e.c.head;
  }

  // ---------------------------------------------------------------- what operations take, and that they end

  /** In every run, the producer sets out to take a new block only when the oldest block has an element that is
      not dequeued, or there is no block but those that this operation has entered, or it has linked in a new one
      already. */
  lemma NewBlockMeans(s: State, actions: seq<Action>, a: Action)
    requires Init(s) && CanRun(s, actions) && Enabled(Exec(s, actions), a)
    requires !Exec(s, actions).p.producing.Allocate? && Apply(Exec(s, actions), a).p.producing.Allocate?
    ensures var e := Exec(s, actions);
      var op := Apply(e, a).p.producing.op;
      || op.entered == |e.p.ring| || |e.p.ring| > op.exposed
      || exists i: nat :: 32 * e.p.low <= i < 32 * e.p.low + 32 && i !in e.done
  {
    hide CanRun, Exec, Init, LooksOk, TakenOk, ThroughOk, C.Inv, StoredOk, HeadersOk, CurrentOk;
    InvAlways(s, actions);
    var e := Exec(s, actions);
    match a
    case Start(_, _) =>
    case Produce(b) =>
      if e.p.producing.Check? {
        FlagMissing(e.p, e.done, e.c.tail);
      }
    case Consume(a') => ProducerSame(e, a');
  }

  lemma ProducerSame(s: State, a: C.Action)
    requires !a.Enqueue? && C.Enabled(s.c, a)
    ensures var p := ConsumerStep(s, a).p; p == s.p.(flags := p.flags)
    ensures ConsumerStep(s, a).c.tail == s.c.tail
  {
    hide C.Decide, C.Split, C.Batch, Wrap, BlockBase;
  }

  /** A flag that is not set is that of an element that is not dequeued. */
  lemma FlagMissing(p: Producer, done: set<nat>, tail: nat)
    requires ProducerOk(p, done, tail) && p.producing.Check?
    requires p.producing.j < 32 && Cell(BlockAt(p.ring, 0), p.producing.j) !in p.flags
    ensures exists i: nat :: 32 * p.low <= i < 32 * p.low + 32 && i !in done
  {
    hide StoredOk, HeadersOk, CurrentOk, DoneOk;
    assert p.ring[0] == p.home[p.low];
    var i := 32 * p.low + 31 - p.producing.j;
    assert i !in done;
  }

  /** In every run, a larger index is made only when all slots of the current one have blocks of the ring; it is
      twice as large. */
  lemma GrowsWhenFull(s: State, actions: seq<Action>, a: Action)
    requires Init(s) && CanRun(s, actions) && Enabled(Exec(s, actions), a)
    ensures var e := Exec(s, actions);
      var e' := Apply(e, a);
      if |e'.p.older| == |e.p.older| then e'.p.current.size == e.p.current.size
      else |e.p.ring| == e.p.current.size && e'.p.current.size == 2 * e.p.current.size && e'.p.older == e.p.older + [e.p.current]
  {
    hide CanRun, Exec, Init, LooksOk, TakenOk, ThroughOk, C.Inv, StoredOk, HeadersOk, CurrentOk, FlagsOk, PlaceOk, DoneOk, Slot;
    InvAlways(s, actions);
    var e := Exec(s, actions);
    match a
    case Start(_, _) =>
    case Produce(b) =>
      if e.p.producing.Allocate? && e.p.slotsUsed == e.p.current.size {
        LargerIs(e.p.current, e.p.nextSlot, e.p.slotsUsed, e.p.producing.op.exposed, e.p.low);
      }
    case Consume(a') => ProducerSame(e, a');
  }

  function ProducerRank(p: Producer): Rank {
    match p.producing
    case Ready => Rank(0, 0, 0)
    case Clear(op) => Rank(op.need, 9, 0)
    case SetBase(op) => Rank(op.need, 8, 0)
    case SetBlock(op) => Rank(op.need, 7, 0)
    case Check(op, j) => Rank(op.need, 6, 32 - j)
    case Allocate(op) => Rank(op.need, 5, if p.slotsUsed == p.current.size then 1 else 0)
    case ClearEntered(op, k) => Rank(op.need, 4, op.entered - k)
    case StoreFront(op) => Rank(op.need, 3, 0)
    case Write(op, _, k) => Rank(op.need, 2, |op.values| - k)
    case StoreTail(op) => Rank(op.need, 1, 0)
  }

  /** In every run, every access of the producer brings it nearer to the end of its operation, and nobody else's
      access takes it back: an operation ends after a bounded number of its own accesses. */
  lemma ProducerEnds(s: State, actions: seq<Action>, a: Action)
    requires Init(s) && CanRun(s, actions) && Enabled(Exec(s, actions), a)
    ensures var e := Exec(s, actions);
      && (a.Produce? ==> Nearer(ProducerRank(Apply(e, a).p), ProducerRank(e.p)))
      && (a.Consume? ==> ProducerRank(Apply(e, a).p) == ProducerRank(e.p))
  {
    hide CanRun, Exec, Init, LooksOk, TakenOk, ThroughOk, C.Inv, StoredOk, HeadersOk, FlagsOk, DoneOk, RingOk, ProducerStep, CurrentOk, Nearer;
    InvAlways(s, actions);
    var e := Exec(s, actions);
    match a
    case Start(_, _) =>
    case Produce(b) => StepNearer(e.p, e.c.tail, b);
    case Consume(a') => ProducerSame(e, a');
  }

  lemma StepNearer(p: Producer, tail: nat, b: BlockId)
    requires PlaceOk(p, tail) && !p.producing.Ready?
    ensures Nearer(ProducerRank(ProducerStep(p, tail, b)), ProducerRank(p))
  {
    hide OpOk, Cleared, Wrap, BlockBase, BlockAt, Larger;
    match p.producing
    case Check(_, _) =>
    case Allocate(_) => LargerSize(p);
    case Clear(_) =>
    case SetBase(_) =>
    case SetBlock(_) =>
    case ClearEntered(_, _) =>
    case StoreFront(_) =>
    case Write(_, _, _) =>
    case _ =>
  }

  lemma LargerSize(p: Producer)
    requires p.producing.Allocate?
    ensures Larger(p.current, p.nextSlot, p.slotsUsed, p.producing.op.exposed, p.low).size == 2 * p.current.size
  {
  }

  function LookRank(look: Look, lim: nat): Rank {
    match look
    case LoadIndex => Rank(lim + 1, 2, 0)
    case LoadFront(_) => Rank(lim + 1, 1, 0)
    case LoadBase(_, _, _) => Rank(lim + 1, 0, 0)
    case LoadBlock(_, _, next) => Rank(if next < lim then lim - next else 0, 3, 0)
    case ReadElement(_, _, _, from, next) => Rank(if from < lim then lim - from else 0, 2, End(from, lim) - next)
    case SetFlag(_, _, _, from, end, k) => Rank(if from < lim then lim - from else 0, 1, end - from - k)
    case Finished => Rank(0, 0, 0)
  }

  /** In every run, every access of a consumer after its claim brings it nearer to its return. */
  lemma ConsumerEnds(s: State, actions: seq<Action>, t: Tid)
    requires Init(s) && CanRun(s, actions)
    requires var e := Exec(s, actions); Reading(e.c, t)
    ensures var e := Exec(s, actions);
      && t in e.looks
      && (e.looks[t].Finished? ==> t in ConsumerStep(e, C.Run(t)).c.pcs && ConsumerStep(e, C.Run(t)).c.pcs[t].Idle?)
      && (!e.looks[t].Finished? ==>
            var lim := e.c.pcs[t].first + e.c.pcs[t].actual;
            && t in ConsumerStep(e, C.Run(t)).looks && ConsumerStep(e, C.Run(t)).c == e.c
            && Nearer(LookRank(ConsumerStep(e, C.Run(t)).looks[t], lim), LookRank(e.looks[t], lim)))
  {
    hide CanRun, Exec, Init, LooksOk, TakenOk, ThroughOk, C.Inv, ProducerOk, WasTaken, Nearer, LookStep, LookRank;
    InvAlways(s, actions);
    var e := Exec(s, actions);
    LookOkOf(e, t);
    if e.looks[t].Finished? {
      ReturnIs(e.c, t);
    } else {
      LookNearer(e, t, e.looks[t], e.c.pcs[t].first, e.c.pcs[t].first + e.c.pcs[t].actual);
    }
  }

  lemma LookNearer(s: State, t: Tid, look: Look, first: nat, lim: nat)
    requires PlaceFound(s.p, look, first, lim) && first <= lim && !look.Finished? && t in s.looks
    ensures var s' := LookStep(s, t, look, first, lim);
      s'.c == s.c && t in s'.looks && Nearer(LookRank(s'.looks[t], lim), LookRank(look, lim))
  {
    hide Wrap, BlockBase, Slot;
  }
}
