/**
 The bounded multi-producer multi-consumer ring (Common/LockFreeCurcularQueue.h) as a transition
 system.  Every slot carries a sequence number; threads claim positions by compare-and-swap on two
 counters.  Each load, compare-and-swap and store of the C++ code is one step, so the calls may
 interleave in any way, and a weak compare-and-swap may fail for no reason.

 Positions are unbounded; that a 64-bit counter agrees with them is the subject of module Circular.
 The values are integers, but no step looks at one.
 */
module RingQueue {
  import opened Modular

  type Tid = nat
  type Value = int

  /** Where a thread stands, with its local variables. */
  datatype PC =
    | Idle
    | EnqPos(v: Value)                // load of enqueuePos_
    | EnqLoad(v: Value, pos: nat)     // load of the slot's sequence
    | EnqCas(v: Value, pos: nat)
    | EnqWrite(v: Value, pos: nat)
    | EnqStore(v: Value, pos: nat)
    | DeqPos
    | DeqLoad(pos: nat)
    | DeqCas(pos: nat)
    | DeqRead(pos: nat)
    | DeqStore(pos: nat, v: Value)

  /** Auxiliary: what is going on in a slot. */
  datatype Phase = Free | Writing(t: Tid) | Full | Reading(t: Tid) {
    predicate Published() {
      Full? || Reading?
    }
  }

  /** `pos` and `phase` are auxiliary: the position the slot stands for, and how far it is with it. */
  datatype Slot = Slot(seqNo: nat, data: Value, pos: nat, phase: Phase)

  /** `claimed` and `returned` are auxiliary: the value of the k-th successful enqueue claim, and the
      value that the k-th successful dequeue claim returned, once it has returned. */
  datatype State = State(
    slots: seq<Slot>,
    enqueuePos: nat,
    dequeuePos: nat,
    pcs: map<Tid, PC>,
    claimed: seq<Value>,
    returned: map<nat, Value>)

  datatype Action = BeginEnqueue(t: Tid, v: Value) | BeginDequeue(t: Tid) | Run(t: Tid, spurious: bool)

  /** pos & bufferMask_, for a buffer of n slots. */
  function Index(pos: nat, n: nat): nat
    requires n > 0
  {
    pos % n
  }

  // ---------------------------------------------------------------- the steps

  predicate Enabled(s: State, a: Action) {
    a.t in s.pcs && |s.slots| > 0 && (a.Run? <==> !s.pcs[a.t].Idle?)
  }

  function Move(s: State, t: Tid, pc: PC): State {
    s.(pcs := s.pcs[t := pc])
  }

  function Apply(s: State, a: Action): State
    requires Enabled(s, a)
  {
    match a
    case BeginEnqueue(t, v) => Move(s, t, EnqPos(v))
    case BeginDequeue(t) => Move(s, t, DeqPos)
    case Run(t, spurious) => RunStep(s, t, spurious)
  }

  function RunStep(s: State, t: Tid, spurious: bool): State
    requires t in s.pcs && |s.slots| > 0
  {
    var n := |s.slots|;
    match s.pcs[t]
    case Idle => s
    case EnqPos(v) =>
      Move(s, t, EnqLoad(v, s.enqueuePos))
    case EnqLoad(v, pos) =>
      var dif := s.slots[Index(pos, n)].seqNo - pos;
      if dif == 0 then Move(s, t, EnqCas(v, pos))
      else if dif < 0 then Move(s, t, Idle)               // returns false
      else Move(s, t, EnqPos(v))
    case EnqCas(v, pos) =>
      if s.enqueuePos == pos && !spurious then
        var i := Index(pos, n);
        State(s.slots[i := s.slots[i].(phase := Writing(t))], pos + 1, s.dequeuePos,
              s.pcs[t := EnqWrite(v, pos)], s.claimed + [v], s.returned)
      else
        Move(s, t, EnqLoad(v, s.enqueuePos))
    case EnqWrite(v, pos) =>
      var i := Index(pos, n);
      s.(slots := s.slots[i := s.slots[i].(data := v)], pcs := s.pcs[t := EnqStore(v, pos)])
    case EnqStore(v, pos) =>
      var i := Index(pos, n);
      s.(slots := s.slots[i := s.slots[i].(seqNo := pos + 1, phase := Full)], pcs := s.pcs[t := Idle])
    case DeqPos =>
      Move(s, t, DeqLoad(s.dequeuePos))
    case DeqLoad(pos) =>
      var dif := s.slots[Index(pos, n)].seqNo - (pos + 1);
      if dif == 0 then Move(s, t, DeqCas(pos))
      else if dif < 0 then Move(s, t, Idle)               // returns false
      else Move(s, t, DeqPos)
    case DeqCas(pos) =>
      if s.dequeuePos == pos && !spurious then
        var i := Index(pos, n);
        State(s.slots[i := s.slots[i].(phase := Reading(t))], s.enqueuePos, pos + 1,
              s.pcs[t := DeqRead(pos)], s.claimed, s.returned)
      else
        Move(s, t, DeqLoad(s.dequeuePos))
    case DeqRead(pos) =>
      Move(s, t, DeqStore(pos, s.slots[Index(pos, n)].data))
    case DeqStore(pos, v) =>
      var i := Index(pos, n);
      s.(slots := s.slots[i := s.slots[i].(seqNo := pos + n, pos := pos + n, phase := Free)],
         pcs := s.pcs[t := Idle], returned := s.returned[pos := v])
  }

  /** The constructor: slot i carries sequence number i. */
  predicate Init(s: State) {
    && |s.slots| > 0
    && (forall i :: 0 <= i < |s.slots| ==> s.slots[i].seqNo == i && s.slots[i].pos == i && s.slots[i].phase == Free)
    && s.enqueuePos == 0 && s.dequeuePos == 0
    && (forall t :: t in s.pcs ==> s.pcs[t] == Idle)
    && s.claimed == [] && s.returned == map[]
  }

  /** The actions can be taken one after the other from s. */
  predicate CanRun(s: State, actions: seq<Action>)
    decreases |actions|
  {
    actions == [] || (Enabled(s, actions[0]) && CanRun(Apply(s, actions[0]), actions[1..]))
  }

  /** The state they lead to. */
  function Exec(s: State, actions: seq<Action>): State
    requires CanRun(s, actions)
    decreases |actions|
  {
    if actions == [] then s else Exec(Apply(s, actions[0]), actions[1..])
  }

  // ---------------------------------------------------------------- positions and slots

  /** Two positions in one slot are a whole round apart. */
  lemma SameSlot(p: nat, q: nat, n: nat)
    requires n > 0 && p < q && Index(p, n) == Index(q, n)
    ensures p + n <= q
  {
    if q - p < n {
      ModUnique(q, p, n);
    }
  }

  /** With at least two slots a position and the next one are in different slots. */
  lemma Neighbours(p: nat, n: nat)
    requires n >= 2
    ensures Index(p + 1, n) != Index(p, n)
  {
    if Index(p + 1, n) == Index(p, n) {
      SameSlot(p, p + 1, n);
    }
  }

  // ---------------------------------------------------------------- the invariant

  /** The sequence number of a slot determines its position and phase. */
  predicate SlotOk(sl: Slot, i: nat, n: nat, enq: nat, deq: nat, claimed: seq<Value>)
    requires n > 0
  {
    && Index(sl.pos, n) == i
    && sl.seqNo == sl.pos + (if sl.phase.Published() then 1 else 0)
    && enq <= sl.pos + n && sl.pos < deq + n
    && (sl.phase.Free? <==> sl.pos >= enq)
    && (sl.phase.Writing? ==> deq <= sl.pos)
    && (sl.phase.Full? ==> deq <= sl.pos)
    && (sl.phase.Reading? ==> sl.pos < deq)
    && (sl.phase.Published() ==> sl.pos < |claimed| && sl.data == claimed[sl.pos])
  }

  /** What a thread knows of the slot it looks at. */
  predicate ThreadOk(t: Tid, pc: PC, slots: seq<Slot>, enq: nat, deq: nat, claimed: seq<Value>)
    requires |slots| > 0
  {
    var n := |slots|;
    match pc
    case EnqLoad(v, pos) => pos <= enq
    case EnqCas(v, pos) => pos <= enq && slots[Index(pos, n)].pos >= pos
    case EnqWrite(v, pos) =>
      && slots[Index(pos, n)].pos == pos && slots[Index(pos, n)].phase == Writing(t)
      && pos < |claimed| && claimed[pos] == v
    case EnqStore(v, pos) =>
      && slots[Index(pos, n)].pos == pos && slots[Index(pos, n)].phase == Writing(t)
      && pos < |claimed| && claimed[pos] == v && slots[Index(pos, n)].data == v
    case DeqLoad(pos) => pos <= deq
    case DeqCas(pos) =>
      && pos <= deq
      && (slots[Index(pos, n)].pos > pos || (slots[Index(pos, n)].pos == pos && slots[Index(pos, n)].phase.Published()))
    case DeqRead(pos) =>
      slots[Index(pos, n)].pos == pos && slots[Index(pos, n)].phase == Reading(t)
    case DeqStore(pos, v) =>
      && slots[Index(pos, n)].pos == pos && slots[Index(pos, n)].phase == Reading(t)
      && pos < |claimed| && claimed[pos] == v
    case _ => true
  }

  /** A slot that is being written or read is in the hands of its thread. */
  predicate Stands(sl: Slot, pcs: map<Tid, PC>) {
    && (sl.phase.Writing? ==>
          && sl.phase.t in pcs
          && (pcs[sl.phase.t].EnqWrite? || pcs[sl.phase.t].EnqStore?) && pcs[sl.phase.t].pos == sl.pos)
    && (sl.phase.Reading? ==>
          && sl.phase.t in pcs
          && (pcs[sl.phase.t].DeqRead? || pcs[sl.phase.t].DeqStore?) && pcs[sl.phase.t].pos == sl.pos)
  }

  /** Everything dequeued was returned, or is being read. */
  predicate ReturnedOk(s: State)
    requires |s.slots| > 0
  {
    && (forall p :: p in s.returned ==> p < s.dequeuePos && p < |s.claimed| && s.returned[p] == s.claimed[p])
    && (forall p: nat :: p < s.dequeuePos && p !in s.returned ==>
          var sl := s.slots[Index(p, |s.slots|)]; sl.pos == p && sl.phase.Reading?)
  }

  predicate SlotsOk(s: State)
    requires |s.slots| > 0
  {
    forall i :: 0 <= i < |s.slots| ==>
      && SlotOk(s.slots[i], i, |s.slots|, s.enqueuePos, s.dequeuePos, s.claimed)
      && Stands(s.slots[i], s.pcs)
  }

  predicate ThreadsOk(s: State)
    requires |s.slots| > 0
  {
    forall t :: t in s.pcs ==> ThreadOk(t, s.pcs[t], s.slots, s.enqueuePos, s.dequeuePos, s.claimed)
  }

  ghost predicate Inv(s: State) {
    && |s.slots| >= 2
    && s.dequeuePos <= s.enqueuePos <= s.dequeuePos + |s.slots|
    && |s.claimed| == s.enqueuePos
    && SlotsOk(s) && ThreadsOk(s) && ReturnedOk(s)
  }

  // ---------------------------------------------------------------- every step keeps it

  /** The slot of a position that was claimed and not dequeued stands for that position. */
  lemma Covering(sl: Slot, i: nat, n: nat, enq: nat, deq: nat, claimed: seq<Value>, p: nat)
    requires n > 0 && SlotOk(sl, i, n, enq, deq, claimed) && Index(p, n) == i
    ensures deq <= p < enq ==> sl.pos == p
    ensures p < enq ==> sl.pos >= p
    ensures sl.pos < p ==> sl.pos + n <= p
    ensures sl.pos > p ==> p + n <= sl.pos
  {
    if sl.pos < p {
      SameSlot(sl.pos, p, n);
    } else if p < sl.pos {
      SameSlot(p, sl.pos, n);
    }
  }

  /** The slot moves forward, and only if nobody but t has it. */
  predicate Forward(t: Tid, sl: Slot, sl': Slot) {
    sl' == sl || (
      && sl.phase in {Free, Full, Writing(t), Reading(t)}
      && sl'.pos >= sl.pos
      && (sl.phase.Published() ==> sl'.phase.Published() || sl'.pos > sl.pos))
  }

  lemma OtherThread(u: Tid, t: Tid, pc: PC, slots: seq<Slot>, slots': seq<Slot>, j: nat,
                    enq: nat, deq: nat, enq': nat, deq': nat, claimed: seq<Value>, claimed': seq<Value>)
    requires j < |slots| == |slots'| && u != t && slots' == slots[j := slots'[j]] && Forward(t, slots[j], slots'[j])
    requires enq <= enq' && deq <= deq' && claimed <= claimed'
    requires ThreadOk(u, pc, slots, enq, deq, claimed)
    ensures ThreadOk(u, pc, slots', enq', deq', claimed')
  {
  }

  /** One slot, one thread and perhaps the counters change. */
  lemma Update(s: State, s': State, t: Tid, j: nat)
    requires Inv(s) && t in s.pcs && t in s'.pcs && j < |s.slots| == |s'.slots|
    requires s'.slots == s.slots[j := s'.slots[j]] && s'.pcs == s.pcs[t := s'.pcs[t]]
    requires s.enqueuePos <= s'.enqueuePos && s.dequeuePos <= s'.dequeuePos && s.claimed <= s'.claimed
    requires s'.dequeuePos <= s'.enqueuePos <= s'.dequeuePos + |s.slots| && |s'.claimed| == s'.enqueuePos
    requires Forward(t, s.slots[j], s'.slots[j])
    requires forall i :: 0 <= i < |s.slots| ==>
               SlotOk(s'.slots[i], i, |s.slots|, s'.enqueuePos, s'.dequeuePos, s'.claimed)
    requires Stands(s'.slots[j], s'.pcs)
    requires forall i :: 0 <= i < |s.slots| && i != j ==> s.slots[i].phase != Writing(t) && s.slots[i].phase != Reading(t)
    requires ThreadOk(t, s'.pcs[t], s'.slots, s'.enqueuePos, s'.dequeuePos, s'.claimed)
    requires ReturnedOk(s')
    ensures Inv(s')
  {
    forall u | u in s'.pcs
      ensures ThreadOk(u, s'.pcs[u], s'.slots, s'.enqueuePos, s'.dequeuePos, s'.claimed)
    {
      if u != t {
        OtherThread(u, t, s.pcs[u], s.slots, s'.slots, j, s.enqueuePos, s.dequeuePos,
                    s'.enqueuePos, s'.dequeuePos, s.claimed, s'.claimed);
      }
    }
    forall i | 0 <= i < |s'.slots|
      ensures Stands(s'.slots[i], s'.pcs)
    {
      assert Stands(s.slots[i], s.pcs);
    }
  }

  /** A thread has at most the slot of its own position. */
  lemma OnlyOwn(s: State, t: Tid, j: nat)
    requires Inv(s) && t in s.pcs && j < |s.slots|
    requires s.pcs[t].EnqWrite? || s.pcs[t].EnqStore? || s.pcs[t].DeqRead? || s.pcs[t].DeqStore?
             ==> j == Index(s.pcs[t].pos, |s.slots|)
    ensures forall i :: 0 <= i < |s.slots| && i != j ==> s.slots[i].phase != Writing(t) && s.slots[i].phase != Reading(t)
  {
    forall i | 0 <= i < |s.slots| && i != j
      ensures s.slots[i].phase != Writing(t) && s.slots[i].phase != Reading(t)
    {
      assert Stands(s.slots[i], s.pcs) && SlotOk(s.slots[i], i, |s.slots|, s.enqueuePos, s.dequeuePos, s.claimed);
    }
  }

  /** Loads, and failed compare-and-swaps. */
  lemma InvMove(s: State, t: Tid, pc: PC)
    requires Inv(s) && t in s.pcs
    requires !s.pcs[t].EnqWrite? && !s.pcs[t].EnqStore? && !s.pcs[t].DeqRead? && !s.pcs[t].DeqStore?
    requires ThreadOk(t, pc, s.slots, s.enqueuePos, s.dequeuePos, s.claimed)
    ensures Inv(Move(s, t, pc))
  {
    OnlyOwn(s, t, 0);
    OnlyOwn(s, t, 1);
    assert Stands(s.slots[0], s.pcs);
    Update(s, Move(s, t, pc), t, 0);
  }

  lemma InvLoad(s: State, t: Tid, spurious: bool)
    requires Inv(s) && t in s.pcs
    requires s.pcs[t].EnqPos? || s.pcs[t].DeqPos? || s.pcs[t].EnqLoad? || s.pcs[t].DeqLoad?
    ensures Inv(RunStep(s, t, spurious))
  {
    var n, pc := |s.slots|, s.pcs[t];
    if pc.EnqLoad? || pc.DeqLoad? {
      var i := Index(pc.pos, n);
      assert ThreadOk(t, pc, s.slots, s.enqueuePos, s.dequeuePos, s.claimed);
      assert SlotOk(s.slots[i], i, n, s.enqueuePos, s.dequeuePos, s.claimed);
      Neighbours(s.slots[i].pos, n);
      Covering(s.slots[i], i, n, s.enqueuePos, s.dequeuePos, s.claimed, pc.pos);
    }
    InvMove(s, t, RunStep(s, t, spurious).pcs[t]);
  }

  lemma SlotsAfterEnqueueClaim(s: State, t: Tid, v: Value, j: nat, slots: seq<Slot>)
    requires Inv(s) && j < |s.slots| && slots == s.slots[j := s.slots[j].(phase := Writing(t))]
    requires j == Index(s.enqueuePos, |s.slots|) && s.slots[j].pos >= s.enqueuePos
    ensures s.slots[j].pos == s.enqueuePos
    ensures forall i :: 0 <= i < |s.slots| ==>
              SlotOk(slots[i], i, |s.slots|, s.enqueuePos + 1, s.dequeuePos, s.claimed + [v])
  {
    hide SlotOk, Stands, ThreadsOk, ReturnedOk;
    var n, enq, deq := |s.slots|, s.enqueuePos, s.dequeuePos;
    assert SlotOk(s.slots[j], j, n, enq, deq, s.claimed);
    OwnSlotToWrite(s.slots[j], j, n, enq, deq, s.claimed, t, v);
    forall i | 0 <= i < n && i != j
      ensures SlotOk(s.slots[i], i, n, enq + 1, deq, s.claimed + [v])
    {
      assert SlotOk(s.slots[i], i, n, enq, deq, s.claimed);
      OtherSlotAtEnqueue(s.slots[i], i, n, enq, deq, s.claimed, v);
    }
  }

  lemma OwnSlotToWrite(sl: Slot, i: nat, n: nat, enq: nat, deq: nat, claimed: seq<Value>, t: Tid, v: Value)
    requires n > 0 && i == Index(enq, n) && deq <= enq && |claimed| == enq
    requires SlotOk(sl, i, n, enq, deq, claimed) && enq <= sl.pos && enq <= deq + n
    ensures sl.pos == enq && SlotOk(sl.(phase := Writing(t)), i, n, enq + 1, deq, claimed + [v])
  {
    Covering(sl, i, n, enq, deq, claimed, enq);
  }

  lemma OtherSlotAtEnqueue(sl: Slot, i: nat, n: nat, enq: nat, deq: nat, claimed: seq<Value>, v: Value)
    requires n > 0 && SlotOk(sl, i, n, enq, deq, claimed) && i != Index(enq, n) && |claimed| == enq
    ensures SlotOk(sl, i, n, enq + 1, deq, claimed + [v])
  {
    ModPeriod(sl.pos, n);
  }

  /** The claim of position enqueuePos: its slot is free, and no other slot minds. */
  lemma InvEnqCas(s: State, t: Tid, spurious: bool)
    requires Inv(s) && t in s.pcs && s.pcs[t].EnqCas?
    ensures Inv(RunStep(s, t, spurious))
  {
    var s', n, pos := RunStep(s, t, spurious), |s.slots|, s.pcs[t].pos;
    assert ThreadOk(t, s.pcs[t], s.slots, s.enqueuePos, s.dequeuePos, s.claimed);
    if s.enqueuePos == pos && !spurious {
      var j := Index(pos, n);
      assert SlotOk(s.slots[j], j, n, s.enqueuePos, s.dequeuePos, s.claimed);
      SlotsAfterEnqueueClaim(s, t, s.pcs[t].v, j, s'.slots);
      OnlyOwn(s, t, j);
      Update(s, s', t, j);
    } else {
      InvMove(s, t, EnqLoad(s.pcs[t].v, s.enqueuePos));
    }
  }

  lemma InvEnqWrite(s: State, t: Tid, spurious: bool)
    requires Inv(s) && t in s.pcs && (s.pcs[t].EnqWrite? || s.pcs[t].EnqStore?)
    ensures Inv(RunStep(s, t, spurious))
  {
    var s', n := RunStep(s, t, spurious), |s.slots|;
    var j := Index(s.pcs[t].pos, n);
    assert ThreadOk(t, s.pcs[t], s.slots, s.enqueuePos, s.dequeuePos, s.claimed);
    OnlyOwn(s, t, j);
    forall i | 0 <= i < n
      ensures SlotOk(s'.slots[i], i, n, s'.enqueuePos, s'.dequeuePos, s'.claimed)
    {
      assert SlotOk(s.slots[i], i, n, s.enqueuePos, s.dequeuePos, s.claimed);
    }
    Update(s, s', t, j);
  }

  lemma SlotsAfterDequeueClaim(s: State, t: Tid, j: nat, slots: seq<Slot>)
    requires Inv(s) && j < |s.slots| && slots == s.slots[j := s.slots[j].(phase := Reading(t))]
    requires s.dequeuePos < s.enqueuePos && j == Index(s.dequeuePos, |s.slots|)
    requires s.slots[j].phase.Published()
    ensures s.slots[j].pos == s.dequeuePos
    ensures forall i :: 0 <= i < |s.slots| ==>
              SlotOk(slots[i], i, |s.slots|, s.enqueuePos, s.dequeuePos + 1, s.claimed)
  {
    hide SlotOk, Stands, ThreadsOk, ReturnedOk;
    var n, enq, deq := |s.slots|, s.enqueuePos, s.dequeuePos;
    assert SlotOk(s.slots[j], j, n, enq, deq, s.claimed);
    OwnSlotToRead(s.slots[j], j, n, enq, deq, s.claimed, t);
    forall i | 0 <= i < n && i != j
      ensures SlotOk(s.slots[i], i, n, enq, deq + 1, s.claimed)
    {
      assert SlotOk(s.slots[i], i, n, enq, deq, s.claimed);
      OtherSlotAtDequeue(s.slots[i], i, n, enq, deq, s.claimed);
    }
  }

  lemma OwnSlotToRead(sl: Slot, i: nat, n: nat, enq: nat, deq: nat, claimed: seq<Value>, t: Tid)
    requires n > 0 && i == Index(deq, n) && deq < enq && sl.phase.Published()
    requires SlotOk(sl, i, n, enq, deq, claimed)
    ensures sl.pos == deq && SlotOk(sl.(phase := Reading(t)), i, n, enq, deq + 1, claimed)
  {
    Covering(sl, i, n, enq, deq, claimed, deq);
  }

  lemma OtherSlotAtDequeue(sl: Slot, i: nat, n: nat, enq: nat, deq: nat, claimed: seq<Value>)
    requires n > 0 && SlotOk(sl, i, n, enq, deq, claimed) && i != Index(deq, n)
    ensures SlotOk(sl, i, n, enq, deq + 1, claimed)
  {
  }

  /** The claim of position dequeuePos: its slot is full, and no other slot minds. */
  lemma InvDeqCas(s: State, t: Tid, spurious: bool)
    requires Inv(s) && t in s.pcs && s.pcs[t].DeqCas?
    ensures Inv(RunStep(s, t, spurious))
  {
    var s', n, pos := RunStep(s, t, spurious), |s.slots|, s.pcs[t].pos;
    assert ThreadOk(t, s.pcs[t], s.slots, s.enqueuePos, s.dequeuePos, s.claimed);
    if s.dequeuePos == pos && !spurious {
      var j := Index(pos, n);
      assert SlotOk(s.slots[j], j, n, s.enqueuePos, s.dequeuePos, s.claimed);
      Covering(s.slots[j], j, n, s.enqueuePos, s.dequeuePos, s.claimed, pos);
      SlotsAfterDequeueClaim(s, t, j, s'.slots);
      OnlyOwn(s, t, j);
      Update(s, s', t, j);
    } else {
      InvMove(s, t, DeqLoad(s.dequeuePos));
    }
  }

  lemma InvDeqRead(s: State, t: Tid, spurious: bool)
    requires Inv(s) && t in s.pcs && (s.pcs[t].DeqRead? || s.pcs[t].DeqStore?)
    ensures Inv(RunStep(s, t, spurious))
  {
    var s', n := RunStep(s, t, spurious), |s.slots|;
    var j := Index(s.pcs[t].pos, n);
    assert ThreadOk(t, s.pcs[t], s.slots, s.enqueuePos, s.dequeuePos, s.claimed);
    OnlyOwn(s, t, j);
    ModPeriod(s.pcs[t].pos, n);
    forall i | 0 <= i < n
      ensures SlotOk(s'.slots[i], i, n, s'.enqueuePos, s'.dequeuePos, s'.claimed)
    {
      assert SlotOk(s.slots[i], i, n, s.enqueuePos, s.dequeuePos, s.claimed);
    }
    Update(s, s', t, j);
  }

  lemma InvStep(s: State, a: Action)
    requires Inv(s) && Enabled(s, a)
    ensures Inv(Apply(s, a))
  {
    match a
    case BeginEnqueue(t, v) => InvMove(s, t, EnqPos(v));
    case BeginDequeue(t) => InvMove(s, t, DeqPos);
    case Run(t, spurious) =>
      match s.pcs[t] {
        case EnqCas(_, _) => InvEnqCas(s, t, spurious);
        case EnqWrite(_, _) => InvEnqWrite(s, t, spurious);
        case EnqStore(_, _) => InvEnqWrite(s, t, spurious);
        case DeqCas(_) => InvDeqCas(s, t, spurious);
        case DeqRead(_) => InvDeqRead(s, t, spurious);
        case DeqStore(_, _) => InvDeqRead(s, t, spurious);
        case _ => InvLoad(s, t, spurious);
      }
  }

  // ---------------------------------------------------------------- the theorems

  lemma SizeKept(s: State, a: Action)
    requires Enabled(s, a)
    ensures |Apply(s, a).slots| == |s.slots|
  {
  }

  lemma {:induction false} InvExec(s: State, actions: seq<Action>)
    requires Inv(s) && CanRun(s, actions)
    ensures Inv(Exec(s, actions)) && |Exec(s, actions).slots| == |s.slots|
    decreases |actions|
  {
    hide Apply, Enabled, Inv;
    if actions != [] {
      InvStep(s, actions[0]);
      SizeKept(s, actions[0]);
      InvExec(Apply(s, actions[0]), actions[1..]);
    }
  }

  /** Whatever the interleaving, a ring of at least two slots keeps the invariant. */
  lemma InvAlways(s: State, actions: seq<Action>)
    requires Init(s) && |s.slots| >= 2 && CanRun(s, actions)
    ensures Inv(Exec(s, actions)) && |Exec(s, actions).slots| == |s.slots|
  {
    forall i | 0 <= i < |s.slots|
      ensures Index(s.slots[i].pos, |s.slots|) == i
    {
      assert i == |s.slots| * 0 + i;
    }
    InvExec(s, actions);
  }

  /** First in, first out: the k-th dequeue claim returns what the k-th enqueue claim brought. */
  ghost predicate Fifo(s: State) {
    forall k :: k in s.returned ==> k < |s.claimed| && s.returned[k] == s.claimed[k]
  }

  /** Every run of a ring of n slots, by any number of threads, is first in, first out. */
  ghost predicate AlwaysFifo(n: nat) {
    forall s: State, actions: seq<Action> ::
      Init(s) && |s.slots| == n && CanRun(s, actions) ==> Fifo(Exec(s, actions))
  }

  /** With no call running, the values claimed are those returned and those in the slots, in order. */
  lemma NothingLost(s: State, actions: seq<Action>, k: nat)
    requires Init(s) && |s.slots| >= 2 && CanRun(s, actions)
    requires var e := Exec(s, actions);
             k < |e.claimed| && forall t :: t in e.pcs ==> e.pcs[t].Idle?
    ensures var e := Exec(s, actions);
            && |e.slots| > 0
            && (k < e.dequeuePos <==> k in e.returned)
            && (k < e.dequeuePos ==> e.returned[k] == e.claimed[k])
            && (k >= e.dequeuePos ==>
                  var sl := e.slots[Index(k, |e.slots|)]; sl.phase.Full? && sl.pos == k && sl.data == e.claimed[k])
  {
    var e := Exec(s, actions);
    InvAlways(s, actions);
    var i := Index(k, |e.slots|);
    assert SlotOk(e.slots[i], i, |e.slots|, e.enqueuePos, e.dequeuePos, e.claimed) && Stands(e.slots[i], e.pcs);
    Covering(e.slots[i], i, |e.slots|, e.enqueuePos, e.dequeuePos, e.claimed, k);
  }

  predicate HasSlot(pc: PC) {
    pc.EnqWrite? || pc.EnqStore? || pc.DeqRead? || pc.DeqStore?
  }

  /** No two threads are between claim and publication on one slot. */
  lemma Exclusive(s: State, actions: seq<Action>, t: Tid, u: Tid)
    requires Init(s) && |s.slots| >= 2 && CanRun(s, actions)
    requires var e := Exec(s, actions);
             && t in e.pcs && u in e.pcs && HasSlot(e.pcs[t]) && HasSlot(e.pcs[u])
             && |e.slots| > 0 && Index(e.pcs[t].pos, |e.slots|) == Index(e.pcs[u].pos, |e.slots|)
    ensures t == u
  {
    var e := Exec(s, actions);
    InvAlways(s, actions);
    assert ThreadOk(t, e.pcs[t], e.slots, e.enqueuePos, e.dequeuePos, e.claimed);
    assert ThreadOk(u, e.pcs[u], e.slots, e.enqueuePos, e.dequeuePos, e.claimed);
  }

  /** Sequence numbers never decrease, and the counters stay within one round of each other. */
  lemma SequenceGrows(s: State, actions: seq<Action>, a: Action, i: nat)
    requires Init(s) && |s.slots| >= 2 && CanRun(s, actions) && i < |s.slots|
    requires Enabled(Exec(s, actions), a)
    ensures var e := Exec(s, actions);
            && |e.slots| == |s.slots| == |Apply(e, a).slots|
            && e.slots[i].seqNo <= Apply(e, a).slots[i].seqNo
            && e.dequeuePos <= e.enqueuePos <= e.dequeuePos + |s.slots|
  {
    var e := Exec(s, actions);
    InvAlways(s, actions);
    var pc := e.pcs[a.t];
    assert ThreadOk(a.t, pc, e.slots, e.enqueuePos, e.dequeuePos, e.claimed);
    if HasSlot(pc) {
      var j := Index(pc.pos, |e.slots|);
      assert SlotOk(e.slots[j], j, |e.slots|, e.enqueuePos, e.dequeuePos, e.claimed);
    }
  }

  /** enqueue returns false only at an instant when the position it wants is the next one and the
      same slot's previous position has not been released: the ring is full. */
  lemma EnqueueFalse(s: State, actions: seq<Action>, t: Tid, spurious: bool)
    requires Init(s) && |s.slots| >= 2 && CanRun(s, actions)
    requires var e := Exec(s, actions);
             t in e.pcs && (e.pcs[t].EnqPos? || e.pcs[t].EnqLoad? || e.pcs[t].EnqCas?) && |e.slots| > 0 &&
             RunStep(e, t, spurious).pcs[t].Idle?
    ensures var e := Exec(s, actions);
            && e.pcs[t].EnqLoad?
            && var pos := e.pcs[t].pos;
            && e.enqueuePos == pos && pos >= |e.slots|
            && e.slots[Index(pos, |e.slots|)].pos == pos - |e.slots| && !e.slots[Index(pos, |e.slots|)].phase.Free?
  {
    var e := Exec(s, actions);
    InvAlways(s, actions);
    var n, pos := |e.slots|, e.pcs[t].pos;
    var i := Index(pos, n);
    assert ThreadOk(t, e.pcs[t], e.slots, e.enqueuePos, e.dequeuePos, e.claimed);
    assert SlotOk(e.slots[i], i, n, e.enqueuePos, e.dequeuePos, e.claimed);
    Covering(e.slots[i], i, n, e.enqueuePos, e.dequeuePos, e.claimed, pos);
  }

  /** dequeue returns false only at an instant when the position it wants is the next one and has
      not been published. */
  lemma DequeueFalse(s: State, actions: seq<Action>, t: Tid, spurious: bool)
    requires Init(s) && |s.slots| >= 2 && CanRun(s, actions)
    requires var e := Exec(s, actions);
             t in e.pcs && (e.pcs[t].DeqPos? || e.pcs[t].DeqLoad? || e.pcs[t].DeqCas?) && |e.slots| > 0 &&
             RunStep(e, t, spurious).pcs[t].Idle?
    ensures var e := Exec(s, actions);
            && e.pcs[t].DeqLoad?
            && var pos, i := e.pcs[t].pos, Index(e.pcs[t].pos, |e.slots|);
            && e.dequeuePos == pos
            && (e.slots[i].pos < pos || (e.slots[i].pos == pos && !e.slots[i].phase.Published()))
  {
    var e := Exec(s, actions);
    InvAlways(s, actions);
    var n, pos := |e.slots|, e.pcs[t].pos;
    var i := Index(pos, n);
    assert ThreadOk(t, e.pcs[t], e.slots, e.enqueuePos, e.dequeuePos, e.claimed);
    assert SlotOk(e.slots[i], i, n, e.enqueuePos, e.dequeuePos, e.claimed);
    Covering(e.slots[i], i, n, e.enqueuePos, e.dequeuePos, e.claimed, pos);
  }

  /** A call goes round its loop again only because another thread has advanced the counter, unless
      a weak compare-and-swap failed for no reason. */
  lemma RetryMeansProgress(s: State, actions: seq<Action>, t: Tid, spurious: bool)
    requires Init(s) && |s.slots| >= 2 && CanRun(s, actions)
    requires var e := Exec(s, actions);
             && t in e.pcs && |e.slots| > 0
             && ((e.pcs[t].EnqLoad? && RunStep(e, t, spurious).pcs[t].EnqPos?)
                 || (e.pcs[t].EnqCas? && !spurious && RunStep(e, t, spurious).pcs[t].EnqLoad?)
                 || (e.pcs[t].DeqLoad? && RunStep(e, t, spurious).pcs[t].DeqPos?)
                 || (e.pcs[t].DeqCas? && !spurious && RunStep(e, t, spurious).pcs[t].DeqLoad?))
    ensures var e := Exec(s, actions);
            e.pcs[t].pos < if e.pcs[t].EnqLoad? || e.pcs[t].EnqCas? then e.enqueuePos else e.dequeuePos
  {
    var e := Exec(s, actions);
    InvAlways(s, actions);
    var n, pos := |e.slots|, e.pcs[t].pos;
    var i := Index(pos, n);
    assert ThreadOk(t, e.pcs[t], e.slots, e.enqueuePos, e.dequeuePos, e.claimed);
    assert SlotOk(e.slots[i], i, n, e.enqueuePos, e.dequeuePos, e.claimed);
    Covering(e.slots[i], i, n, e.enqueuePos, e.dequeuePos, e.claimed, pos);
    Neighbours(e.slots[i].pos, n);
  }

  // ---------------------------------------------------------------- calls that nobody disturbs

  /** The state after k accesses of thread t, or less if its call has ended. */
  function Alone(s: State, t: Tid, k: nat): State {
    if k == 0 then s
    else
      var s' := Alone(s, t, k - 1);
      if Enabled(s', Run(t, false)) then Apply(s', Run(t, false)) else s'
  }

  lemma AloneZero(s: State, t: Tid)
    ensures Alone(s, t, 0) == s
  {
  }

  lemma AloneStep(s: State, t: Tid, k: nat)
    requires Enabled(Alone(s, t, k), Run(t, false))
    ensures Alone(s, t, k + 1) == RunStep(Alone(s, t, k), t, false)
  {
  }

  /** The slots of the next positions, with no call running. */
  lemma AtRest(e: State)
    requires Inv(e) && forall t :: t in e.pcs ==> e.pcs[t].Idle?
    ensures var n := |e.slots|;
      var sl, next := e.slots[Index(e.enqueuePos, n)], e.slots[Index(e.dequeuePos, n)];
      && (if e.enqueuePos < e.dequeuePos + n then sl.seqNo == e.enqueuePos else sl.seqNo < e.enqueuePos)
      && (if e.dequeuePos < e.enqueuePos then next.seqNo == e.dequeuePos + 1 && next.data == e.claimed[e.dequeuePos]
          else next.seqNo <= e.dequeuePos)
  {
    var n := |e.slots|;
    var i, j := Index(e.enqueuePos, n), Index(e.dequeuePos, n);
    assert SlotOk(e.slots[i], i, n, e.enqueuePos, e.dequeuePos, e.claimed) && Stands(e.slots[i], e.pcs);
    assert SlotOk(e.slots[j], j, n, e.enqueuePos, e.dequeuePos, e.claimed) && Stands(e.slots[j], e.pcs);
    Covering(e.slots[i], i, n, e.enqueuePos, e.dequeuePos, e.claimed, e.enqueuePos);
    Covering(e.slots[j], j, n, e.enqueuePos, e.dequeuePos, e.claimed, e.dequeuePos);
  }

  /** With no other call running, enqueue puts the value at the next position, and returns without doing so exactly
      when all slots hold values that were not dequeued. */
  lemma LoneEnqueue(s: State, actions: seq<Action>, t: Tid, v: Value)
    requires Init(s) && |s.slots| >= 2 && CanRun(s, actions) && t in Exec(s, actions).pcs && |Exec(s, actions).slots| > 0
    requires forall u :: u in Exec(s, actions).pcs ==> Exec(s, actions).pcs[u].Idle?
    ensures var e := Exec(s, actions);
      if e.enqueuePos - e.dequeuePos == |s.slots| then Alone(Apply(e, BeginEnqueue(t, v)), t, 2) == e
      else
        var e' := Alone(Apply(e, BeginEnqueue(t, v)), t, 5);
        && e'.pcs == e.pcs && e'.claimed == e.claimed + [v] && e'.enqueuePos == e.enqueuePos + 1
        && e'.dequeuePos == e.dequeuePos && e'.returned == e.returned
  {
    hide CanRun, Exec, Init;
    InvAlways(s, actions);
    var e := Exec(s, actions);
    AtRest(e);
    if e.enqueuePos - e.dequeuePos == |s.slots| {
      FullEnqueue(e, t, v);
    } else {
      RoomEnqueue(e, t, v);
    }
  }

  lemma FullEnqueue(e: State, t: Tid, v: Value)
    requires |e.slots| > 0 && t in e.pcs && e.pcs[t].Idle? && e.slots[Index(e.enqueuePos, |e.slots|)].seqNo < e.enqueuePos
    ensures Alone(Apply(e, BeginEnqueue(t, v)), t, 2) == e
  {
    hide Alone;
    var s0 := Apply(e, BeginEnqueue(t, v));
    AloneZero(s0, t);
    AloneStep(s0, t, 0);
    AloneStep(s0, t, 1);
    assert e.pcs[t := Idle] == e.pcs;
  }

  lemma RoomEnqueue(e: State, t: Tid, v: Value)
    requires |e.slots| > 0 && t in e.pcs && e.pcs[t].Idle? && e.slots[Index(e.enqueuePos, |e.slots|)].seqNo == e.enqueuePos
    ensures var e' := Alone(Apply(e, BeginEnqueue(t, v)), t, 5);
      && e'.pcs == e.pcs && e'.claimed == e.claimed + [v] && e'.enqueuePos == e.enqueuePos + 1
      && e'.dequeuePos == e.dequeuePos && e'.returned == e.returned
  {
    hide Alone;
    var s0 := Apply(e, BeginEnqueue(t, v));
    AloneZero(s0, t);
    AloneStep(s0, t, 0);
    AloneStep(s0, t, 1);
    AloneStep(s0, t, 2);
    AloneStep(s0, t, 3);
    AloneStep(s0, t, 4);
    assert e.pcs[t := Idle] == e.pcs;
  }

  /** With no other call running, dequeue returns the value of the oldest position that was not dequeued, and
      nothing exactly when there is none. */
  lemma LoneDequeue(s: State, actions: seq<Action>, t: Tid)
    requires Init(s) && |s.slots| >= 2 && CanRun(s, actions) && t in Exec(s, actions).pcs && |Exec(s, actions).slots| > 0
    requires forall u :: u in Exec(s, actions).pcs ==> Exec(s, actions).pcs[u].Idle?
    ensures var e := Exec(s, actions);
      if e.dequeuePos == e.enqueuePos then Alone(Apply(e, BeginDequeue(t)), t, 2) == e
      else
        var e' := Alone(Apply(e, BeginDequeue(t)), t, 5);
        && e.dequeuePos < |e.claimed| && e'.returned == e.returned[e.dequeuePos := e.claimed[e.dequeuePos]]
        && e'.pcs == e.pcs && e'.claimed == e.claimed && e'.enqueuePos == e.enqueuePos && e'.dequeuePos == e.dequeuePos + 1
  {
    hide CanRun, Exec, Init;
    InvAlways(s, actions);
    var e := Exec(s, actions);
    AtRest(e);
    if e.dequeuePos == e.enqueuePos {
      EmptyDequeue(e, t);
    } else {
      NextDequeue(e, t);
    }
  }

  lemma EmptyDequeue(e: State, t: Tid)
    requires |e.slots| > 0 && t in e.pcs && e.pcs[t].Idle? && e.slots[Index(e.dequeuePos, |e.slots|)].seqNo <= e.dequeuePos
    ensures Alone(Apply(e, BeginDequeue(t)), t, 2) == e
  {
    hide Alone;
    var s0 := Apply(e, BeginDequeue(t));
    AloneZero(s0, t);
    AloneStep(s0, t, 0);
    AloneStep(s0, t, 1);
    assert e.pcs[t := Idle] == e.pcs;
  }

  lemma NextDequeue(e: State, t: Tid)
    requires |e.slots| > 0 && t in e.pcs && e.pcs[t].Idle? && e.slots[Index(e.dequeuePos, |e.slots|)].seqNo == e.dequeuePos + 1
    ensures var e' := Alone(Apply(e, BeginDequeue(t)), t, 5);
      && e'.returned == e.returned[e.dequeuePos := e.slots[Index(e.dequeuePos, |e.slots|)].data]
      && e'.pcs == e.pcs && e'.claimed == e.claimed && e'.enqueuePos == e.enqueuePos && e'.dequeuePos == e.dequeuePos + 1
  {
    hide Alone;
    var s0 := Apply(e, BeginDequeue(t));
    AloneZero(s0, t);
    AloneStep(s0, t, 0);
    AloneStep(s0, t, 1);
    AloneStep(s0, t, 2);
    AloneStep(s0, t, 3);
    AloneStep(s0, t, 4);
    assert e.pcs[t := Idle] == e.pcs;
  }

  // ---------------------------------------------------------------- one slot is not enough

  lemma {:induction false} ExecAppend(s: State, a: seq<Action>, b: seq<Action>)
    requires CanRun(s, a) && CanRun(Exec(s, a), b)
    ensures CanRun(s, a + b) && Exec(s, a + b) == Exec(Exec(s, a), b)
    decreases |a|
  {
    if a == [] {
      assert a + b == b;
    } else {
      assert (a + b)[1..] == a[1..] + b;
      ExecAppend(Apply(s, a[0]), a[1..], b);
    }
  }

  lemma ExecOne(s: State, a: Action, rest: seq<Action>)
    requires Enabled(s, a) && CanRun(Apply(s, a), rest)
    ensures CanRun(s, [a] + rest) && Exec(s, [a] + rest) == Exec(Apply(s, a), rest)
  {
    assert ([a] + rest)[1..] == rest;
  }

  /** A call of enqueue that nobody disturbs, in a ring of one slot whose sequence number invites it. */
  lemma SoloEnqueue(s: State, t: Tid, v: Value) returns (actions: seq<Action>)
    requires |s.slots| == 1 && t in s.pcs && s.pcs[t].Idle? && s.slots[0].seqNo == s.enqueuePos
    ensures CanRun(s, actions)
    ensures Exec(s, actions) == State([s.slots[0].(seqNo := s.enqueuePos + 1, data := v, phase := Full)],
                                      s.enqueuePos + 1, s.dequeuePos, s.pcs[t := Idle], s.claimed + [v], s.returned)
  {
    var s1 := Apply(s, BeginEnqueue(t, v));
    var s2 := RunStep(s1, t, false);
    var s3 := RunStep(s2, t, false);
    var s4 := RunStep(s3, t, false);
    var s5 := RunStep(s4, t, false);
    var s6 := RunStep(s5, t, false);
    var go := Run(t, false);
    ExecOne(s5, go, []);
    ExecOne(s4, go, [go] + []);
    ExecOne(s3, go, [go] + ([go] + []));
    ExecOne(s2, go, [go] + ([go] + ([go] + [])));
    ExecOne(s1, go, [go] + ([go] + ([go] + ([go] + []))));
    actions := [BeginEnqueue(t, v)] + ([go] + ([go] + ([go] + ([go] + ([go] + [])))));
    ExecOne(s, BeginEnqueue(t, v), [go] + ([go] + ([go] + ([go] + ([go] + [])))));
  }

  /** A consumer up to the point where it is about to claim position 0. */
  lemma DequeueUpToCas(s: State, t: Tid) returns (actions: seq<Action>)
    requires |s.slots| == 1 && t in s.pcs && s.pcs[t].Idle? && s.dequeuePos == 0 && s.slots[0].seqNo == 1
    ensures CanRun(s, actions) && Exec(s, actions) == Move(s, t, DeqCas(0))
  {
    var s1 := Apply(s, BeginDequeue(t));
    var s2 := RunStep(s1, t, false);
    var s3 := RunStep(s2, t, false);
    var go := Run(t, false);
    ExecOne(s2, go, []);
    ExecOne(s1, go, [go] + []);
    actions := [BeginDequeue(t)] + ([go] + ([go] + []));
    ExecOne(s, BeginDequeue(t), [go] + ([go] + []));
  }

  lemma DequeueFromCas(s: State, t: Tid) returns (actions: seq<Action>)
    requires |s.slots| == 1 && t in s.pcs && s.pcs[t] == DeqCas(0) && s.dequeuePos == 0
    ensures CanRun(s, actions) && Exec(s, actions).returned == s.returned[0 := s.slots[0].data]
    ensures Exec(s, actions).claimed == s.claimed
  {
    var s1 := RunStep(s, t, false);
    var s2 := RunStep(s1, t, false);
    var s3 := RunStep(s2, t, false);
    var go := Run(t, false);
    ExecOne(s2, go, []);
    ExecOne(s1, go, [go] + []);
    actions := [go] + ([go] + ([go] + []));
    ExecOne(s, go, [go] + ([go] + []));
  }

  /** In a ring of one slot, "full at position p" and "free for position p + 1" have the same
      sequence number: a producer overwrites the value that a consumer is about to claim. */
  lemma OneSlotLosesValue() returns (s: State, actions: seq<Action>)
    ensures Init(s) && |s.slots| == 1 && CanRun(s, actions) && !Fifo(Exec(s, actions))
  {
    s := State([Slot(0, 0, 0, Free)], 0, 0, map[0 := Idle, 1 := Idle], [], map[]);
    var first := SoloEnqueue(s, 0, 7);
    var s1 := Exec(s, first);
    var pin := DequeueUpToCas(s1, 1);
    var s2 := Exec(s1, pin);
    var second := SoloEnqueue(s2, 0, 8);
    var s3 := Exec(s2, second);
    var rest := DequeueFromCas(s3, 1);
    ExecAppend(s2, second, rest);
    ExecAppend(s1, pin, second + rest);
    ExecAppend(s, first, pin + (second + rest));
    actions := first + (pin + (second + rest));
    assert Exec(s, actions).returned[0] == 8 && Exec(s, actions).claimed == [7, 8];
  }

  /** The queue is first in, first out in every run exactly when it has at least two slots. */
  lemma FifoExactly(n: nat)
    requires n > 0
    ensures AlwaysFifo(n) <==> n >= 2
  {
    if n >= 2 {
      forall s: State, actions: seq<Action> | Init(s) && |s.slots| == n && CanRun(s, actions)
        ensures Fifo(Exec(s, actions))
      {
        InvAlways(s, actions);
      }
    } else {
      var s, actions := OneSlotLosesValue();
    }
  }
}
