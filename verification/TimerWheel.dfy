/**
 The timing wheel (Net/src/TimerWheel.cpp, with the timers of Net/include/Timer.h): an array of slots,
 each with a doubly linked list of nodes.  A node waits for its slot to come up `rotation` more times.

 What the wheel refines is a countdown per timer: the number of ticks that pass before the tick on which
 it fires.

 Node pointers are numbers, and the nodes a map from them.  An insertion runs at once, as it does in the
 thread of the event loop; callbacks of timers do not insert other timers.  Reading the timer descriptor
 and cancelling are not part of this model.
 */
module TimerWheel {
  import opened Modular
  import opened Options

  type NodeId = nat
  type TimerId = nat

  datatype Node = Node(prev: Option<NodeId>, next: Option<NodeId>, data: TimerId, rotation: nat, timeSlot: nat)

  type Nodes = map<NodeId, Node>

  // ---------------------------------------------------------------- linked lists

  function First(list: seq<NodeId>): Option<NodeId> {
    if list == [] then None else Some(list[0])
  }

  /** The nodes are linked in this order, in both directions, and are all different; the prev link of the
      first one does not matter. */
  ghost predicate Linked(list: seq<NodeId>, nodes: Nodes)
    decreases |list|
  {
    list == [] || (
      && list[0] in nodes && nodes[list[0]].next == First(list[1..])
      && (|list| > 1 ==> list[1] in nodes && nodes[list[1]].prev == Some(list[0]))
      && list[0] !in list[1..]
      && Linked(list[1..], nodes))
  }

  lemma {:induction false} LinkedFrame(list: seq<NodeId>, nodes: Nodes, nodes': Nodes)
    requires Linked(list, nodes)
    requires forall k :: 0 <= k < |list| ==> list[k] in nodes && list[k] in nodes' && nodes'[list[k]].next == nodes[list[k]].next
    requires forall k :: 0 < k < |list| ==> nodes'[list[k]].prev == nodes[list[k]].prev
    ensures Linked(list, nodes')
    decreases |list|
  {
    if list != [] {
      LinkedFrame(list[1..], nodes, nodes');
    }
  }

  lemma {:induction false} LinkedMembers(list: seq<NodeId>, nodes: Nodes)
    requires Linked(list, nodes)
    ensures forall k :: 0 <= k < |list| ==> list[k] in nodes
    ensures forall j, k :: 0 <= j < k < |list| ==> list[j] != list[k]
    decreases |list|
  {
    if list != [] {
      LinkedMembers(list[1..], nodes);
      forall j, k | 0 <= j < k < |list|
        ensures list[j] != list[k]
      {
        assert list[k] == list[1..][k - 1];
        if j > 0 {
          assert list[j] == list[1..][j - 1];
        }
      }
    }
  }

  /** The nodes after a new one was put before the list. */
  function Pushed(nodes: Nodes, list: seq<NodeId>, n: NodeId, node: Node): Nodes {
    if list == [] || list[0] !in nodes then nodes[n := node]
    else nodes[n := node.(next := Some(list[0]))][list[0] := nodes[list[0]].(prev := Some(n))]
  }

  lemma LinkedPush(nodes: Nodes, list: seq<NodeId>, n: NodeId, node: Node)
    requires Linked(list, nodes) && n !in list && node.next == None
    ensures list != [] ==> list[0] in nodes
    ensures Linked([n] + list, Pushed(nodes, list, n, node))
  {
    LinkedMembers(list, nodes);
    LinkedFrame(list, nodes, Pushed(nodes, list, n, node));
    assert ([n] + list)[1..] == list;
  }

  /** The nodes after the one behind `kept` was unlinked. */
  function Bypassed(nodes: Nodes, kept: seq<NodeId>, rest: seq<NodeId>): Nodes {
    if kept == [] || kept[|kept| - 1] !in nodes then nodes
    else
      var p := kept[|kept| - 1];
      var bypassed := nodes[p := nodes[p].(next := First(rest))];
      if rest == [] || rest[0] !in nodes then bypassed else bypassed[rest[0] := nodes[rest[0]].(prev := Some(p))]
  }

  lemma {:induction false} LinkedBypass(nodes: Nodes, kept: seq<NodeId>, x: NodeId, rest: seq<NodeId>)
    requires Linked(kept + [x] + rest, nodes)
    ensures kept != [] ==> kept[|kept| - 1] in nodes
    ensures rest != [] ==> rest[0] in nodes
    ensures Linked(kept + rest, Bypassed(nodes, kept, rest))
    decreases |kept|
  {
    var list := kept + [x] + rest;
    LinkedMembers(list, nodes);
    if kept == [] {
      assert list[1..] == rest && kept + rest == rest;
      assert rest != [] ==> list[1] == rest[0];
    } else {
      assert list[1..] == kept[1..] + [x] + rest;
      assert (kept + rest)[1..] == kept[1..] + rest;
      assert list[|kept| - 1] == kept[|kept| - 1];
      assert rest != [] ==> list[|kept| + 1] == rest[0];
      LinkedBypass(nodes, kept[1..], x, rest);
      var nodes' := Bypassed(nodes, kept, rest);
      if |kept| == 1 {
        BypassOne(nodes, kept[0], x, rest);
      } else {
        assert nodes' == Bypassed(nodes, kept[1..], rest);
        assert list[0] == kept[0] && list[1] == kept[1];
        assert kept[0] !in rest by {
          forall k | 0 <= k < |rest|
            ensures rest[k] != kept[0]
          {
            assert list[|kept| + 1 + k] == rest[k];
          }
        }
      }
    }
  }

  lemma BypassOne(nodes: Nodes, k: NodeId, x: NodeId, rest: seq<NodeId>)
    requires Linked([k] + [x] + rest, nodes)
    ensures k in nodes && (rest != [] ==> rest[0] in nodes)
    ensures Linked([k] + rest, Bypassed(nodes, [k], rest))
  {
    var list := [k] + [x] + rest;
    assert list[1..] == [x] + rest && list[1..][1..] == rest;
    LinkedMembers(list, nodes);
    assert rest != [] ==> list[2] == rest[0];
    var nodes' := Bypassed(nodes, [k], rest);
    forall i | 0 <= i < |rest|
      ensures rest[i] in nodes && rest[i] != k
    {
      assert list[i + 2] == rest[i];
    }
    assert forall i :: 0 < i < |rest| ==> rest[i] != rest[0] by {
      forall i | 0 < i < |rest|
        ensures rest[i] != rest[0]
      {
        assert list[i + 2] == rest[i] && list[2] == rest[0];
      }
    }
    LinkedFrame(rest, nodes, nodes');
    assert ([k] + rest)[1..] == rest;
  }

  // ---------------------------------------------------------------- the wheel as a value

  datatype Rep = Rep(size: nat, current: nat, slots: seq<Option<NodeId>>, nodes: Nodes, lists: seq<seq<NodeId>>)

  ghost predicate SlotOk(r: Rep, s: nat)
    requires s < |r.slots| == |r.lists|
  {
    && r.slots[s] == First(r.lists[s]) && Linked(r.lists[s], r.nodes)
    && forall n :: n in r.lists[s] ==> n in r.nodes && r.nodes[n].timeSlot == s
  }

  /** Each slot has its list, and each node is in the list of its slot. */
  ghost predicate Wheel(r: Rep) {
    && |r.slots| == |r.lists| == r.size && r.current < r.size
    && (forall s :: 0 <= s < r.size ==> SlotOk(r, s))
    && (forall n :: n in r.nodes ==> r.nodes[n].timeSlot < r.size && n in r.lists[r.nodes[n].timeSlot])
  }

  /** What a node says about its timer stays the same. */
  ghost predicate Unmoved(nodes: Nodes, nodes': Nodes, n: NodeId) {
    && n in nodes && n in nodes'
    && nodes'[n].data == nodes[n].data && nodes'[n].rotation == nodes[n].rotation && nodes'[n].timeSlot == nodes[n].timeSlot
  }

  /** A slot whose nodes are as they were. */
  lemma SlotFrame(r: Rep, r': Rep, s: nat)
    requires s < |r.slots| == |r.lists| == |r'.slots| == |r'.lists|
    requires SlotOk(r, s) && r'.slots[s] == r.slots[s] && r'.lists[s] == r.lists[s]
    requires forall n :: n in r.lists[s] && n in r.nodes ==> n in r'.nodes && r'.nodes[n] == r.nodes[n]
    ensures SlotOk(r', s)
  {
    LinkedMembers(r.lists[s], r.nodes);
    LinkedFrame(r.lists[s], r.nodes, r'.nodes);
  }

  lemma PushedFacts(nodes: Nodes, list: seq<NodeId>, n: NodeId, node: Node)
    requires n !in nodes && (list != [] ==> list[0] in nodes)
    ensures Pushed(nodes, list, n, node).Keys == nodes.Keys + {n}
    ensures forall m :: m in nodes ==> Unmoved(nodes, Pushed(nodes, list, n, node), m)
    ensures forall m :: m in nodes && m !in list ==> Pushed(nodes, list, n, node)[m] == nodes[m]
    ensures Pushed(nodes, list, n, node)[n].(prev := None, next := None) == node.(prev := None, next := None)
  {
  }

  lemma BypassedFacts(nodes: Nodes, kept: seq<NodeId>, rest: seq<NodeId>)
    requires (kept != [] ==> kept[|kept| - 1] in nodes) && (rest != [] ==> rest[0] in nodes)
    ensures Bypassed(nodes, kept, rest).Keys == nodes.Keys
    ensures forall m :: m in nodes ==> Unmoved(nodes, Bypassed(nodes, kept, rest), m)
    ensures forall m :: m in nodes && m !in kept + rest ==> Bypassed(nodes, kept, rest)[m] == nodes[m]
  {
    assert kept != [] ==> (kept + rest)[|kept| - 1] == kept[|kept| - 1];
    assert rest != [] ==> (kept + rest)[|kept|] == rest[0];
  }

  /** A new node at the head of the list of a slot. */
  function Inserted(r: Rep, n: NodeId, t: TimerId, rotation: nat, ts: nat): Rep
    requires ts < |r.slots| == |r.lists|
  {
    r.(slots := r.slots[ts := Some(n)], lists := r.lists[ts := [n] + r.lists[ts]],
       nodes := Pushed(r.nodes, r.lists[ts], n, Node(None, None, t, rotation, ts)))
  }

  lemma InsertedCurrent(r: Rep, n: NodeId, t: TimerId, rotation: nat, ts: nat)
    requires ts < |r.slots| == |r.lists| && SlotOk(r, ts) && n !in r.nodes
    ensures r.lists[ts] != [] ==> r.lists[ts][0] in r.nodes
    ensures SlotOk(Inserted(r, n, t, rotation, ts), ts)
  {
    LinkedMembers(r.lists[ts], r.nodes);
    LinkedPush(r.nodes, r.lists[ts], n, Node(None, None, t, rotation, ts));
  }

  lemma InsertedWheel(r: Rep, n: NodeId, t: TimerId, rotation: nat, ts: nat)
    requires Wheel(r) && n !in r.nodes && ts < r.size
    ensures r.lists[ts] != [] ==> r.lists[ts][0] in r.nodes
    ensures Wheel(Inserted(r, n, t, rotation, ts))
    ensures forall m :: m in r.nodes ==> Unmoved(r.nodes, Inserted(r, n, t, rotation, ts).nodes, m)
    ensures Inserted(r, n, t, rotation, ts).nodes.Keys == r.nodes.Keys + {n}
    ensures Inserted(r, n, t, rotation, ts).size == r.size && Inserted(r, n, t, rotation, ts).current == r.current
    ensures var node := Inserted(r, n, t, rotation, ts).nodes[n];
      node.data == t && node.rotation == rotation && node.timeSlot == ts
  {
    hide Linked, Pushed;
    assert SlotOk(r, ts);
    InsertedCurrent(r, n, t, rotation, ts);
    PushedFacts(r.nodes, r.lists[ts], n, Node(None, None, t, rotation, ts));
    var r' := Inserted(r, n, t, rotation, ts);
    forall s | 0 <= s < r.size
      ensures SlotOk(r', s)
    {
      assert SlotOk(r, s);
      if s != ts {
        SlotFrame(r, r', s);
      }
    }
  }

  /** The node behind `kept` is unlinked from the current slot, and gone. */
  function Removed(r: Rep, kept: seq<NodeId>, x: NodeId, rest: seq<NodeId>): Rep
    requires r.current < |r.slots| == |r.lists|
  {
    r.(slots := r.slots[r.current := First(kept + rest)], lists := r.lists[r.current := kept + rest],
       nodes := Bypassed(r.nodes, kept, rest) - {x})
  }

  lemma RemovedWheel(r: Rep, kept: seq<NodeId>, x: NodeId, rest: seq<NodeId>)
    requires Wheel(r) && r.lists[r.current] == kept + [x] + rest
    ensures (kept != [] ==> kept[|kept| - 1] in r.nodes) && (rest != [] ==> rest[0] in r.nodes)
    ensures Wheel(Removed(r, kept, x, rest))
    ensures forall m :: m in r.nodes && m != x ==> Unmoved(r.nodes, Removed(r, kept, x, rest).nodes, m)
    ensures Removed(r, kept, x, rest).nodes.Keys == r.nodes.Keys - {x}
    ensures x in r.nodes && x !in kept + rest
  {
    hide Linked, Bypassed;
    assert SlotOk(r, r.current);
    RemovedCurrent(r, kept, x, rest);
    BypassedFacts(r.nodes, kept, rest);
    var r' := Removed(r, kept, x, rest);
    forall s | 0 <= s < r.size
      ensures SlotOk(r', s)
    {
      assert SlotOk(r, s);
      if s != r.current {
        SlotFrame(r, r', s);
      }
    }
  }

  lemma RemovedCurrent(r: Rep, kept: seq<NodeId>, x: NodeId, rest: seq<NodeId>)
    requires r.current < |r.slots| == |r.lists| && SlotOk(r, r.current) && r.lists[r.current] == kept + [x] + rest
    ensures (kept != [] ==> kept[|kept| - 1] in r.nodes) && (rest != [] ==> rest[0] in r.nodes)
    ensures SlotOk(Removed(r, kept, x, rest), r.current)
    ensures x in r.nodes && x !in kept + rest && x in r.lists[r.current]
    ensures forall n :: n in kept + [x] + rest <==> n == x || n in kept + rest
    ensures kept != [] ==> kept[|kept| - 1] in r.lists[r.current]
    ensures rest != [] ==> rest[0] in r.lists[r.current]
  {
    var list := kept + [x] + rest;
    LinkedMembers(list, r.nodes);
    assert list[|kept|] == x;
    LinkedBypass(r.nodes, kept, x, rest);
    RestIn(kept, x, rest);
    var bypassed := Bypassed(r.nodes, kept, rest);
    LinkedMembers(kept + rest, bypassed);
    LinkedFrame(kept + rest, bypassed, bypassed - {x});
  }

  lemma RestIn(kept: seq<NodeId>, x: NodeId, rest: seq<NodeId>)
    requires forall j, k :: 0 <= j < k < |kept + [x] + rest| ==> (kept + [x] + rest)[j] != (kept + [x] + rest)[k]
    ensures x !in kept + rest
    ensures forall n :: n in kept + [x] + rest <==> n == x || n in kept + rest
    ensures kept != [] ==> kept[|kept| - 1] in kept + [x] + rest
    ensures rest != [] ==> rest[0] in kept + [x] + rest
  {
    var list := kept + [x] + rest;
    assert list[|kept|] == x;
    forall k | 0 <= k < |kept + rest|
      ensures (kept + rest)[k] != x
    {
      if k < |kept| {
        assert list[k] == (kept + rest)[k];
      } else {
        assert list[k + 1] == (kept + rest)[k];
      }
    }
  }

  // ---------------------------------------------------------------- execution counts

  /** The count of a timer that is meant to execute for ever. */
  const FOREVER := -1

  /** What an execution leaves of a count (Timer::execute). */
  function Executed(count: int): int {
    if count == FOREVER then count else count - 1
  }

  /** A count that an execution accepts. */
  predicate Lasting(count: int) {
    count >= 1 || count == FOREVER
  }

  /** How often a timer executes.  The wheel puts a timer back only while its count is above 0, and so one
      that is meant to execute for ever executes once. */
  function Executions(count: int): nat {
    if count == FOREVER then 1 else if count > 0 then count else 0
  }

  // ---------------------------------------------------------------- countdowns

  /** An interval as a number of ticks; tickLength is what the wheel calls SI. */
  function Ticks(timeout: int, tickLength: int): int
    requires tickLength > 0
  {
    if timeout < tickLength then 1 else timeout / tickLength
  }

  lemma TicksPositive(timeout: int, tickLength: int)
    requires tickLength > 0
    ensures Ticks(timeout, tickLength) >= 1
  {
    if timeout >= tickLength {
      var q := timeout / tickLength;
      if q <= 0 {
        MulMono(q, 0, tickLength);
      }
    }
  }

  function TicksNat(timeout: int, tickLength: int): (ticks: nat)
    requires tickLength > 0
    ensures ticks >= 1 && ticks == Ticks(timeout, tickLength)
  {
    TicksPositive(timeout, tickLength);
    Ticks(timeout, tickLength)
  }

  /** So many whole ticks the interval has, and one at least. */
  predicate IsTicks(ticks: nat, interval: int, tickLength: int) {
    if interval < tickLength then ticks == 1 else ticks * tickLength <= interval < (ticks + 1) * tickLength
  }

  lemma TicksMean(interval: int, tickLength: int)
    requires tickLength > 0
    ensures IsTicks(TicksNat(interval, tickLength), interval, tickLength)
  {
    var q := interval / tickLength;
    assert interval == tickLength * q + interval % tickLength;
    assert tickLength * q == q * tickLength && (q + 1) * tickLength == q * tickLength + tickLength;
  }

  /** There is only one such number. */
  lemma TicksUnique(ticks: nat, interval: int, tickLength: int)
    requires tickLength > 0 && IsTicks(ticks, interval, tickLength)
    ensures ticks == TicksNat(interval, tickLength)
  {
    TicksMean(interval, tickLength);
    var n, length: nat := TicksNat(interval, tickLength), tickLength;
    if ticks < n {
      MulMono(ticks + 1, n, length);
    } else if n < ticks {
      MulMono(n + 1, ticks, length);
    }
  }

  /** The slot and the rotations of a node that is inserted. */
  function SlotFor(current: nat, ticks: nat, size: nat): (ts: nat)
    requires size > 0
    ensures ts < size
  {
    (current + ticks % size) % size
  }

  function RotationFor(ticks: nat, size: nat): (rotation: nat)
    requires size > 0
  {
    DivNat(ticks, size);
    ticks / size
  }

  lemma DivNat(x: nat, n: nat)
    requires n > 0
    ensures x / n >= 0
  {
    if x / n < 0 {
      MulMono(x / n, -1, n);
    }
  }

  /** The number of ticks that pass before the one on which the node fires. */
  function Remaining(size: nat, current: nat, node: Node): nat
    requires size > 0
  {
    Wrap(node.timeSlot - current, size) + node.rotation * size
  }

  /** The same, one slot later. */
  function After(size: nat, current: nat, node: Node): nat
    requires size > 0
  {
    Remaining(size, Wrap(current + 1, size), node)
  }

  /** How far apart a timer fires: a timer that comes back to the slot being drained misses its turn. */
  function Period(ticks: nat, size: nat): nat
    requires size > 0
  {
    if ticks % size == 0 then ticks + size else ticks
  }

  lemma InsertArith(size: nat, current: nat, ticks: nat)
    requires current < size
    ensures var ts := SlotFor(current, ticks, size);
      && Wrap(ts - current, size) == ticks % size
      && Wrap(ts - current, size) + RotationFor(ticks, size) * size == ticks
      && (ts == current <==> ticks % size == 0)
  {
    var r := ticks % size;
    var ts := SlotFor(current, ticks, size);
    WrapIsMod(current + r, size);
    WrapShift(current + r, -(current as int), size);
    assert Wrap(r, size) == r;
    assert Wrap(0, size) == 0;
    assert ticks == size * (ticks / size) + r;
    if r == 0 {
      assert Wrap(current, size) == current;
    }
  }

  /** One slot later, the current slot is a full turn away, and every other one is nearer by one. */
  lemma AfterArith(size: nat, current: nat, node: Node)
    requires current < size && node.timeSlot < size
    ensures node.timeSlot == current ==>
      Remaining(size, current, node) == node.rotation * size && After(size, current, node) == size - 1 + node.rotation * size
    ensures node.timeSlot != current ==>
      Remaining(size, current, node) >= 1 && After(size, current, node) == Remaining(size, current, node) - 1
  {
    var d := node.timeSlot - current;
    var next := Wrap(current + 1, size);
    assert Wrap(0, size) == 0;
    if current + 1 == size {
      assert Wrap(node.timeSlot, size) == node.timeSlot;
      WrapPeriod(d, size);
    } else {
      assert next == current + 1;
      assert Wrap(-1, size) == size - 1;
    }
    if d < 0 {
      WrapPeriod(d, size);
      WrapPeriod(d - 1, size);
      assert d + size - 1 < size;
    }
  }

  /** The countdown that a timer has after the tick. */
  function Target(countdown: nat, ticks: nat, size: nat): int
    requires size > 0
  {
    if countdown > 0 then countdown - 1 else Period(ticks, size) - 1
  }

  // ---------------------------------------------------------------- draining the current slot

  /** Part of the way through a tick: the list of the current slot, passed and not yet passed; the
      countdowns and execution counts before the tick; the counts now, and the timers that fired. */
  datatype Drain = Drain(
    kept: seq<NodeId>,
    rest: seq<NodeId>,
    before: map<TimerId, nat>,
    ticks: map<TimerId, nat>,
    initial: map<TimerId, int>,
    counts: map<TimerId, int>,
    fired: set<TimerId>)

  ghost predicate Present(nodes: Nodes, t: TimerId) {
    exists n :: n in nodes && nodes[n].data == t
  }

  ghost predicate Queued(nodes: Nodes, rest: seq<NodeId>, t: TimerId) {
    exists n :: n in rest && n in nodes && nodes[n].data == t
  }

  ghost predicate Waiting(r: Rep, d: Drain, n: NodeId) {
    && n in r.nodes && r.nodes[n].data in d.before
    && d.before[r.nodes[n].data] == r.nodes[n].rotation * r.size
  }

  ghost predicate Settled(r: Rep, d: Drain, n: NodeId)
    requires r.size > 0
  {
    && n in r.nodes && r.nodes[n].data in d.before && r.nodes[n].data in d.ticks
    && After(r.size, r.current, r.nodes[n]) == Target(d.before[r.nodes[n].data], d.ticks[r.nodes[n].data], r.size)
  }

  ghost predicate OneNodeEach(nodes: Nodes) {
    forall m, n :: m in nodes && n in nodes && m != n ==> nodes[m].data != nodes[n].data
  }

  /** The timer's count went down by one if it fired, and it fired if its countdown was 0, once its node
      was passed; it is on the wheel unless it fired for the last time. */
  ghost predicate TimerOk(nodes: Nodes, d: Drain, t: TimerId)
    requires t in d.before
  {
    && t in d.ticks && d.ticks[t] >= 1
    && t in d.initial && t in d.counts && d.counts[t] == (if t in d.fired then Executed(d.initial[t]) else d.initial[t])
    && Lasting(d.initial[t])
    && (t in d.fired <==> d.before[t] == 0 && !Queued(nodes, d.rest, t))
    && (Present(nodes, t) <==> t !in d.fired || d.counts[t] > 0)
  }

  ghost predicate Draining(r: Rep, d: Drain) {
    && Wheel(r) && r.lists[r.current] == d.kept + d.rest
    && (forall n :: n in d.rest ==> Waiting(r, d, n))
    && (forall n :: n in r.nodes && n !in d.rest ==> Settled(r, d, n))
    && OneNodeEach(r.nodes) && d.fired <= d.before.Keys
    && (forall t :: t in d.before ==> TimerOk(r.nodes, d, t))
  }

  /** The first node behind `kept`. */
  lemma LinkedBehind(nodes: Nodes, kept: seq<NodeId>, rest: seq<NodeId>)
    requires Linked(kept + rest, nodes) && rest != []
    ensures rest[0] in nodes && rest[0] !in rest[1..] && rest[0] !in kept && rest[0] in kept + rest
    ensures nodes[rest[0]].next == First(rest[1..])
    ensures kept != [] ==> nodes[rest[0]].prev == Some(kept[|kept| - 1])
  {
    var list := kept + rest;
    LinkedMembers(list, nodes);
    LinkedAt(list, nodes, |kept|);
    assert list[|kept|] == rest[0] && list[|kept| + 1..] == rest[1..];
    forall k | 0 <= k < |rest[1..]|
      ensures rest[1..][k] != rest[0]
    {
      assert rest[1..][k] == list[|kept| + 1 + k];
    }
    forall k | 0 <= k < |kept|
      ensures kept[k] != rest[0]
    {
      assert kept[k] == list[k];
    }
  }

  /** The first node that was not passed yet. */
  lemma DrainHead(r: Rep, d: Drain)
    requires Wheel(r) && r.lists[r.current] == d.kept + d.rest && d.rest != []
    ensures d.rest[0] in r.nodes && r.nodes[d.rest[0]].timeSlot == r.current
    ensures d.rest[0] !in d.rest[1..] && d.rest[0] !in d.kept
    ensures r.nodes[d.rest[0]].next == First(d.rest[1..])
    ensures d.kept != [] ==> r.nodes[d.rest[0]].prev == Some(d.kept[|d.kept| - 1])
    ensures r.slots[r.current] == First(d.kept + d.rest)
  {
    hide Linked;
    assert SlotOk(r, r.current);
    LinkedBehind(r.nodes, d.kept, d.rest);
  }

  lemma {:induction false} LinkedAt(list: seq<NodeId>, nodes: Nodes, k: nat)
    requires Linked(list, nodes) && k < |list|
    ensures list[k] in nodes && nodes[list[k]].next == First(list[k + 1..])
    ensures k > 0 ==> nodes[list[k]].prev == Some(list[k - 1])
    decreases |list|
  {
    if k > 0 {
      LinkedAt(list[1..], nodes, k - 1);
      assert list[1..][k..] == list[k + 1..];
    }
  }

  /** The node's turn is not yet there: it waits one rotation less. */
  function Turned(r: Rep, x: NodeId): Rep
    requires x in r.nodes && r.nodes[x].rotation > 0
  {
    r.(nodes := r.nodes[x := r.nodes[x].(rotation := r.nodes[x].rotation - 1)])
  }

  lemma TurnedWheel(r: Rep, x: NodeId)
    requires Wheel(r) && x in r.nodes && r.nodes[x].rotation > 0
    ensures Wheel(Turned(r, x))
  {
    var r' := Turned(r, x);
    forall s | 0 <= s < r.size
      ensures SlotOk(r', s)
    {
      assert SlotOk(r, s);
      LinkedMembers(r.lists[s], r.nodes);
      LinkedFrame(r.lists[s], r.nodes, r'.nodes);
    }
  }

  function Pass(d: Drain): Drain
    requires d.rest != []
  {
    d.(kept := d.kept + [d.rest[0]], rest := d.rest[1..])
  }

  lemma DrainTurn(r: Rep, d: Drain)
    requires Draining(r, d) && d.rest != [] && d.rest[0] in r.nodes && r.nodes[d.rest[0]].rotation > 0
    ensures Draining(Turned(r, d.rest[0]), Pass(d))
  {
    hide Waiting, Settled, TimerOk, SlotOk, After;
    var x := d.rest[0];
    var r', d' := Turned(r, x), Pass(d);
    DrainHead(r, d);
    TurnedWheel(r, x);
    assert d'.kept + d'.rest == d.kept + d.rest;
    assert OneNodeEach(r'.nodes);
    forall n | n in d'.rest
      ensures Waiting(r', d', n)
    {
      assert Waiting(r, d, n);
      TurnedWaiting(r, d, n);
    }
    forall n | n in r'.nodes && n !in d'.rest
      ensures Settled(r', d', n)
    {
      if n == x {
        TurnedNode(r, d);
      } else {
        assert Settled(r, d, n);
        TurnedSettled(r, d, n);
      }
    }
    forall u | u in d.before
      ensures TimerOk(r'.nodes, d', u)
    {
      assert TimerOk(r.nodes, d, u);
      assert Waiting(r, d, x);
      TurnedTimer(r, d, u);
    }
  }

  lemma TurnedWaiting(r: Rep, d: Drain, n: NodeId)
    requires d.rest != [] && d.rest[0] in r.nodes && r.nodes[d.rest[0]].rotation > 0 && n != d.rest[0]
    requires Waiting(r, d, n)
    ensures Waiting(Turned(r, d.rest[0]), Pass(d), n)
  {
  }

  lemma TurnedSettled(r: Rep, d: Drain, n: NodeId)
    requires d.rest != [] && d.rest[0] in r.nodes && r.nodes[d.rest[0]].rotation > 0 && n != d.rest[0]
    requires r.size > 0 && Settled(r, d, n)
    ensures Settled(Turned(r, d.rest[0]), Pass(d), n)
  {
    hide After, Target;
  }

  lemma TurnedNode(r: Rep, d: Drain)
    requires Draining(r, d) && d.rest != [] && d.rest[0] in r.nodes
    requires r.nodes[d.rest[0]].timeSlot == r.current && r.nodes[d.rest[0]].rotation > 0
    ensures Settled(Turned(r, d.rest[0]), Pass(d), d.rest[0])
  {
    hide SlotOk, Settled, OneNodeEach, Present, Queued;
    var x := d.rest[0];
    assert Waiting(r, d, x) && TimerOk(r.nodes, d, r.nodes[x].data);
    TurnArith(r.size, r.nodes[x].rotation);
    AfterArith(r.size, r.current, Turned(r, x).nodes[x]);
    SettledIs(Turned(r, x), Pass(d), x);
  }

  lemma SettledIs(r: Rep, d: Drain, n: NodeId)
    requires r.size > 0 && n in r.nodes && r.nodes[n].data in d.before && r.nodes[n].data in d.ticks
    requires After(r.size, r.current, r.nodes[n]) == Target(d.before[r.nodes[n].data], d.ticks[r.nodes[n].data], r.size)
    ensures Settled(r, d, n)
  {
  }

  lemma TurnedTimer(r: Rep, d: Drain, u: TimerId)
    requires d.rest != [] && d.rest[0] in r.nodes && r.nodes[d.rest[0]].rotation > 0 && r.size > 0
    requires Waiting(r, d, d.rest[0]) && u in d.before && TimerOk(r.nodes, d, u)
    ensures TimerOk(Turned(r, d.rest[0]).nodes, Pass(d), u)
  {
    hide Present, Queued;
    var r' := Turned(r, d.rest[0]);
    TurnArith(r.size, r.nodes[d.rest[0]].rotation);
    PresentSame(r.nodes, r'.nodes, u);
    if u != r.nodes[d.rest[0]].data {
      QueuedPass(r.nodes, r'.nodes, d.rest, u);
    }
  }

  /** Passing a node only concerns its own timer. */
  lemma QueuedPass(nodes: Nodes, nodes': Nodes, rest: seq<NodeId>, t: TimerId)
    requires rest != [] && rest[0] in nodes && nodes[rest[0]].data != t
    requires forall n :: n in rest[1..] && n in nodes ==> n in nodes' && nodes'[n].data == nodes[n].data
    requires forall n :: n in rest[1..] && n in nodes' ==> n in nodes
    ensures Queued(nodes', rest[1..], t) <==> Queued(nodes, rest, t)
  {
    if Queued(nodes, rest, t) {
      var n :| n in rest && n in nodes && nodes[n].data == t;
      assert n in rest[1..] && nodes'[n].data == t;
    }
    if Queued(nodes', rest[1..], t) {
      var n :| n in rest[1..] && n in nodes' && nodes'[n].data == t;
      assert n in rest && nodes[n].data == t;
    }
  }

  lemma PresentSame(nodes: Nodes, nodes': Nodes, t: TimerId)
    requires nodes.Keys == nodes'.Keys && forall n :: n in nodes ==> nodes'[n].data == nodes[n].data
    ensures Present(nodes', t) <==> Present(nodes, t)
  {
    if Present(nodes, t) {
      var n :| n in nodes && nodes[n].data == t;
      assert nodes'[n].data == t;
    }
    if Present(nodes', t) {
      var n :| n in nodes' && nodes'[n].data == t;
      assert nodes[n].data == t;
    }
  }

  lemma TurnArith(size: nat, rotation: nat)
    requires size > 0 && rotation > 0
    ensures rotation * size > 0 && (rotation - 1) * size == rotation * size - size
  {
    MulMono(1, rotation, size);
  }

  /** The timer of the first node fires. */
  function Fire(d: Drain, t: TimerId, kept: seq<NodeId>): Drain
    requires d.rest != [] && t in d.counts
  {
    d.(kept := kept, rest := d.rest[1..], counts := d.counts[t := Executed(d.counts[t])], fired := d.fired + {t})
  }

  /** What becomes of the nodes: the first one goes, and a new one of the same timer comes if it is to fire
      again. */
  ghost predicate Replaced(r: Rep, d: Drain, r': Rep, n: Option<NodeId>)
    requires d.rest != [] && d.rest[0] in r.nodes && r.nodes[d.rest[0]].data in d.counts && r.size > 0
    requires r.nodes[d.rest[0]].data in d.ticks
  {
    var x := d.rest[0];
    var t := r.nodes[x].data;
    && r'.size == r.size && r'.current == r.current
    && (forall m :: m in r.nodes && m != x ==> Unmoved(r.nodes, r'.nodes, m))
    && (match n
        case None => d.counts[t] <= 1 && r'.nodes.Keys == r.nodes.Keys - {x}
        case Some(n) =>
          && d.counts[t] > 1 && n !in r.nodes && r'.nodes.Keys == r.nodes.Keys - {x} + {n}
          && r'.nodes[n].data == t && After(r.size, r.current, r'.nodes[n]) == Period(d.ticks[t], r.size) - 1)
  }

  lemma FiredTimers(r: Rep, d: Drain, r': Rep, n: Option<NodeId>, kept: seq<NodeId>, u: TimerId)
    requires d.rest != [] && d.rest[0] in r.nodes && r.nodes[d.rest[0]].data in d.counts && r.size > 0
    requires r.nodes[d.rest[0]].data in d.ticks && d.rest[0] !in d.rest[1..]
    requires Replaced(r, d, r', n) && OneNodeEach(r.nodes) && u in d.before && TimerOk(r.nodes, d, u)
    requires r.nodes[d.rest[0]].data in d.before && d.before[r.nodes[d.rest[0]].data] == 0
    requires forall m :: m in d.rest ==> m in r.nodes
    ensures TimerOk(r'.nodes, Fire(d, r.nodes[d.rest[0]].data, kept), u)
  {
    var x := d.rest[0];
    var t := r.nodes[x].data;
    if u == t {
      assert Queued(r.nodes, d.rest, t);
      assert !Queued(r'.nodes, d.rest[1..], t);
      if n.Some? {
        assert r'.nodes[n.value].data == t;
      }
    } else {
      QueuedPass(r.nodes, r'.nodes, d.rest, u);
      PresentOther(r, d, r', n, u);
    }
  }

  lemma PresentOther(r: Rep, d: Drain, r': Rep, n: Option<NodeId>, u: TimerId)
    requires d.rest != [] && d.rest[0] in r.nodes && r.nodes[d.rest[0]].data in d.counts && r.size > 0
    requires r.nodes[d.rest[0]].data in d.ticks && Replaced(r, d, r', n) && u != r.nodes[d.rest[0]].data
    ensures Present(r'.nodes, u) <==> Present(r.nodes, u)
  {
    if Present(r.nodes, u) {
      var m :| m in r.nodes && r.nodes[m].data == u;
      assert Unmoved(r.nodes, r'.nodes, m);
    }
    if Present(r'.nodes, u) {
      var m :| m in r'.nodes && r'.nodes[m].data == u;
      assert Unmoved(r.nodes, r'.nodes, m);
    }
  }

  lemma FiredNode(r: Rep, d: Drain, r': Rep, n: Option<NodeId>, kept: seq<NodeId>, m: NodeId)
    requires d.rest != [] && d.rest[0] in r.nodes && r.nodes[d.rest[0]].data in d.counts && r.size > 0
    requires r.nodes[d.rest[0]].data in d.ticks && r.nodes[d.rest[0]].data in d.before
    requires Replaced(r, d, r', n) && d.before[r.nodes[d.rest[0]].data] == 0 && m in r'.nodes
    ensures m in r.nodes && m != d.rest[0] && Waiting(r, d, m) ==> Waiting(r', Fire(d, r.nodes[d.rest[0]].data, kept), m)
    ensures m in r.nodes && m != d.rest[0] && Settled(r, d, m) ==> Settled(r', Fire(d, r.nodes[d.rest[0]].data, kept), m)
    ensures n == Some(m) ==> Settled(r', Fire(d, r.nodes[d.rest[0]].data, kept), m)
  {
    hide Period;
    if m in r.nodes && m != d.rest[0] {
      assert Unmoved(r.nodes, r'.nodes, m);
    }
  }

  lemma FiredDistinct(r: Rep, d: Drain, r': Rep, n: Option<NodeId>)
    requires d.rest != [] && d.rest[0] in r.nodes && r.nodes[d.rest[0]].data in d.counts && r.size > 0
    requires r.nodes[d.rest[0]].data in d.ticks && Replaced(r, d, r', n) && OneNodeEach(r.nodes)
    ensures OneNodeEach(r'.nodes)
  {
    forall a, b | a in r'.nodes && b in r'.nodes && a != b
      ensures r'.nodes[a].data != r'.nodes[b].data
    {
      assert n == Some(a) || Unmoved(r.nodes, r'.nodes, a);
      assert n == Some(b) || Unmoved(r.nodes, r'.nodes, b);
    }
  }

  lemma DrainFire(r: Rep, d: Drain, r': Rep, n: Option<NodeId>, kept: seq<NodeId>)
    requires Draining(r, d) && d.rest != [] && d.rest[0] in r.nodes && r.nodes[d.rest[0]].rotation == 0
    requires r.nodes[d.rest[0]].data in d.counts && r.nodes[d.rest[0]].data in d.ticks
    requires Replaced(r, d, r', n) && Wheel(r') && r'.lists[r'.current] == kept + d.rest[1..]
    requires forall m :: m in d.rest[1..] ==> m in r.nodes
    ensures Draining(r', Fire(d, r.nodes[d.rest[0]].data, kept))
  {
    hide Settled, TimerOk, SlotOk, OneNodeEach, After, Period;
    var x := d.rest[0];
    var t := r.nodes[x].data;
    var d' := Fire(d, t, kept);
    DrainHead(r, d);
    assert Waiting(r, d, x);
    FiredDistinct(r, d, r', n);
    forall m | m in d'.rest
      ensures Waiting(r', d', m)
    {
      assert Waiting(r, d, m) && Unmoved(r.nodes, r'.nodes, m);
      FiredNode(r, d, r', n, kept, m);
    }
    forall m | m in r'.nodes && m !in d'.rest
      ensures Settled(r', d', m)
    {
      if n != Some(m) {
        assert Settled(r, d, m);
      }
      FiredNode(r, d, r', n, kept, m);
    }
    forall u | u in d.before
      ensures TimerOk(r'.nodes, d', u)
    {
      assert TimerOk(r.nodes, d, u);
      FiredTimers(r, d, r', n, kept, u);
    }
  }

  // ---------------------------------------------------------------- the refinement

  /** Each node's timer counts down to its turn, and each timer has a node. */
  ghost predicate Refines(r: Rep, countdown: map<TimerId, nat>) {
    && Wheel(r) && OneNodeEach(r.nodes)
    && (forall n :: n in r.nodes ==>
         r.nodes[n].data in countdown && countdown[r.nodes[n].data] == Remaining(r.size, r.current, r.nodes[n]))
    && (forall t :: t in countdown ==> Present(r.nodes, t))
  }

  ghost function TicksMap(intervals: map<TimerId, int>, tickLength: int): map<TimerId, nat>
    requires tickLength > 0
  {
    map t | t in intervals :: TicksNat(intervals[t], tickLength)
  }

  /** Timers have an interval of at least one tick and, while on the wheel, executions left. */
  ghost predicate TimersOk(countdown: map<TimerId, nat>, ticks: map<TimerId, nat>, counts: map<TimerId, int>) {
    forall t :: t in countdown ==> t in ticks && ticks[t] >= 1 && t in counts && Lasting(counts[t])
  }

  lemma DrainStart(r: Rep, countdown: map<TimerId, nat>, ticks: map<TimerId, nat>, counts: map<TimerId, int>)
    requires Refines(r, countdown) && TimersOk(countdown, ticks, counts)
    ensures Draining(r, Drain([], r.lists[r.current], countdown, ticks, counts, counts, {}))
  {
    hide Linked, Period;
    var d := Drain([], r.lists[r.current], countdown, ticks, counts, counts, {});
    assert d.kept + d.rest == r.lists[r.current];
    assert SlotOk(r, r.current);
    forall n | n in r.nodes
      ensures n in d.rest ==> Waiting(r, d, n)
      ensures n !in d.rest ==> Settled(r, d, n) && Remaining(r.size, r.current, r.nodes[n]) >= 1
    {
      AfterArith(r.size, r.current, r.nodes[n]);
    }
    forall t | t in countdown
      ensures TimerOk(r.nodes, d, t)
    {
      var n :| n in r.nodes && r.nodes[n].data == t;
      if countdown[t] == 0 {
        assert n in d.rest;
      }
    }
  }

  /** The countdowns after a tick. */
  ghost function Counted(countdown: map<TimerId, nat>, ticks: map<TimerId, nat>, counts: map<TimerId, int>, size: nat): map<TimerId, nat>
    requires TimersOk(countdown, ticks, counts) && size > 0
  {
    map t | t in countdown && (countdown[t] > 0 || counts[t] > 1) :: Target(countdown[t], ticks[t], size) as nat
  }

  /** The timers that fire on a tick. */
  ghost function Due(countdown: map<TimerId, nat>): set<TimerId> {
    set t | t in countdown && countdown[t] == 0
  }

  lemma DrainEnd(r: Rep, d: Drain, r': Rep)
    requires Draining(r, d) && d.rest == [] && TimersOk(d.before, d.ticks, d.initial)
    requires r' == r.(current := Wrap(r.current + 1, r.size))
    ensures d.fired == Due(d.before)
    ensures Refines(r', Counted(d.before, d.ticks, d.initial, r.size))
  {
    hide Linked, Period, Remaining;
    forall s | 0 <= s < r.size
      ensures SlotOk(r', s)
    {
      assert SlotOk(r, s);
    }
    var after := Counted(d.before, d.ticks, d.initial, r.size);
    forall t | t in d.before
      ensures t in d.fired <==> d.before[t] == 0
      ensures t in after <==> Present(r.nodes, t)
    {
      assert TimerOk(r.nodes, d, t);
    }
    forall n | n in r.nodes
      ensures r.nodes[n].data in after && after[r.nodes[n].data] == Remaining(r'.size, r'.current, r.nodes[n])
    {
      assert Settled(r, d, n);
      assert Present(r.nodes, r.nodes[n].data);
    }
  }

  /** Inserting a timer starts its countdown and leaves the others alone. */
  lemma InsertRefines(r: Rep, countdown: map<TimerId, nat>, n: NodeId, t: TimerId, ticks: nat)
    requires Refines(r, countdown) && n !in r.nodes && t !in countdown
    ensures var ts := SlotFor(r.current, ticks, r.size);
      && Refines(Inserted(r, n, t, RotationFor(ticks, r.size), ts), countdown[t := ticks])
      && Inserted(r, n, t, RotationFor(ticks, r.size), ts).nodes.Keys == r.nodes.Keys + {n}
  {
    hide Wheel, Inserted, Remaining, SlotFor, RotationFor;
    RefinesSize(r, countdown);
    var ts, rotation := SlotFor(r.current, ticks, r.size), RotationFor(ticks, r.size);
    InsertedWheel(r, n, t, rotation, ts);
    InsertArith(r.size, r.current, ticks);
    var r' := Inserted(r, n, t, rotation, ts);
    InsertedRemaining(r, r', n, ticks);
    forall u | u in countdown[t := ticks]
      ensures Present(r'.nodes, u)
    {
      if u == t {
        assert r'.nodes[n].data == t;
      } else {
        var m :| m in r.nodes && r.nodes[m].data == u;
        assert r'.nodes[m].data == u;
      }
    }
  }

  /** The passed part of the current slot's list after an insertion: a node that is inserted into the slot
      that is being drained is put before all others. */
  function KeptAfter(kept: seq<NodeId>, n: NodeId, ticks: nat, current: nat, size: nat): seq<NodeId>
    requires size > 0
  {
    if SlotFor(current, ticks, size) == current then [n] + kept else kept
  }

  /** The first node fires and its timer goes back on the wheel. */
  lemma FireAgain(r: Rep, d: Drain, n: NodeId, ticks: nat)
    requires Draining(r, d) && d.rest != [] && d.rest[0] in r.nodes && r.nodes[d.rest[0]].rotation == 0 && n !in r.nodes
    requires var t := r.nodes[d.rest[0]].data; t in d.counts && t in d.ticks && d.ticks[t] == ticks >= 1 && d.counts[t] > 1
    ensures var t := r.nodes[d.rest[0]].data;
      var ts := SlotFor(r.current, ticks, r.size);
      var kept := KeptAfter(d.kept, n, ticks, r.current, r.size);
      var r1 := Inserted(r, n, t, RotationFor(ticks, r.size), ts);
      && Wheel(r1) && r1.lists[r1.current] == kept + [d.rest[0]] + d.rest[1..]
      && Draining(Removed(r1, kept, d.rest[0], d.rest[1..]), Fire(d, t, kept))
      && r1.nodes.Keys == r.nodes.Keys + {n}
  {
    hide SlotOk, Draining, Inserted, Removed, RotationFor, SlotFor, After, Unmoved, Replaced;
    DrainingWheel(r, d);
    var x := d.rest[0];
    var t := r.nodes[x].data;
    var ts := SlotFor(r.current, ticks, r.size);
    var kept := KeptAfter(d.kept, n, ticks, r.current, r.size);
    InsertedWheel(r, n, t, RotationFor(ticks, r.size), ts);
    var r1 := Inserted(r, n, t, RotationFor(ticks, r.size), ts);
    InsertedList(r, n, t, RotationFor(ticks, r.size), ts);
    assert d.rest == [x] + d.rest[1..];
    assert r1.lists[r.current] == kept + [x] + d.rest[1..];
    RemovedWheel(r1, kept, x, d.rest[1..]);
    var r2 := Removed(r1, kept, x, d.rest[1..]);
    RemovedList(r1, kept, x, d.rest[1..]);
    ReplacedAgain(r, d, r1, r2, n, ticks);
    DrainFire(r, d, r2, Some(n), kept);
  }

  lemma ReplacedAgain(r: Rep, d: Drain, r1: Rep, r2: Rep, n: NodeId, ticks: nat)
    requires d.rest != [] && d.rest[0] in r.nodes && r.current < r.size && n !in r.nodes
    requires var t := r.nodes[d.rest[0]].data; t in d.counts && t in d.ticks && d.ticks[t] == ticks >= 1 && d.counts[t] > 1
    requires r1.size == r2.size == r.size && r1.current == r2.current == r.current
    requires r1.nodes.Keys == r.nodes.Keys + {n} && r2.nodes.Keys == r1.nodes.Keys - {d.rest[0]}
    requires forall m :: m in r.nodes ==> Unmoved(r.nodes, r1.nodes, m)
    requires forall m :: m in r1.nodes && m != d.rest[0] ==> Unmoved(r1.nodes, r2.nodes, m)
    requires r1.nodes[n].data == r.nodes[d.rest[0]].data
    requires r1.nodes[n].timeSlot == SlotFor(r.current, ticks, r.size) && r1.nodes[n].rotation == RotationFor(ticks, r.size)
    ensures Replaced(r, d, r2, Some(n))
  {
    hide SlotFor, RotationFor, After, Period;
    assert Unmoved(r1.nodes, r2.nodes, n);
    InsertedAfter(r.size, r.current, r2.nodes[n], ticks);
    forall m | m in r.nodes && m != d.rest[0]
      ensures Unmoved(r.nodes, r2.nodes, m)
    {
      assert Unmoved(r.nodes, r1.nodes, m) && Unmoved(r1.nodes, r2.nodes, m);
    }
  }

  lemma DrainingWheel(r: Rep, d: Drain)
    requires Draining(r, d)
    ensures Wheel(r) && r.current < r.size && r.lists[r.current] == d.kept + d.rest
    ensures forall m :: m in d.rest ==> m in r.nodes
  {
    hide SlotOk;
    forall m | m in d.rest
      ensures m in r.nodes
    {
      assert Waiting(r, d, m);
    }
  }

  lemma InsertedList(r: Rep, n: NodeId, t: TimerId, rotation: nat, ts: nat)
    requires ts < |r.slots| == |r.lists|
    ensures Inserted(r, n, t, rotation, ts).lists == r.lists[ts := [n] + r.lists[ts]]
  {
  }

  lemma RemovedList(r: Rep, kept: seq<NodeId>, x: NodeId, rest: seq<NodeId>)
    requires r.current < |r.slots| == |r.lists|
    ensures var r' := Removed(r, kept, x, rest);
      r'.lists == r.lists[r.current := kept + rest] && r'.size == r.size && r'.current == r.current
  {
  }

  lemma InsertedAfter(size: nat, current: nat, node: Node, ticks: nat)
    requires current < size && ticks >= 1
    requires node.timeSlot == SlotFor(current, ticks, size) && node.rotation == RotationFor(ticks, size)
    ensures After(size, current, node) == Period(ticks, size) - 1
  {
    InsertArith(size, current, ticks);
    AfterArith(size, current, node);
  }

  /** The first node fires for the last time. */
  lemma FireLast(r: Rep, d: Drain)
    requires Draining(r, d) && d.rest != [] && d.rest[0] in r.nodes && r.nodes[d.rest[0]].rotation == 0
    requires var t := r.nodes[d.rest[0]].data; t in d.counts && t in d.ticks && d.counts[t] <= 1
    ensures r.current < |r.slots| == |r.lists| && r.lists[r.current] == d.kept + [d.rest[0]] + d.rest[1..]
    ensures Wheel(r) && Draining(Removed(r, d.kept, d.rest[0], d.rest[1..]), Fire(d, r.nodes[d.rest[0]].data, d.kept))
  {
    hide SlotOk, Draining, Removed;
    var x := d.rest[0];
    DrainingWheel(r, d);
    assert d.rest == [x] + d.rest[1..];
    assert r.lists[r.current] == d.kept + [x] + d.rest[1..];
    RemovedWheel(r, d.kept, x, d.rest[1..]);
    var r2 := Removed(r, d.kept, x, d.rest[1..]);
    RemovedList(r, d.kept, x, d.rest[1..]);
    assert Replaced(r, d, r2, None);
    DrainFire(r, d, r2, None, d.kept);
  }

  /** What unlinking finds. */
  lemma UnlinkFacts(r: Rep, kept: seq<NodeId>, x: NodeId, rest: seq<NodeId>)
    requires Wheel(r) && r.lists[r.current] == kept + [x] + rest
    ensures x in r.nodes && r.nodes[x].next == First(rest)
    ensures r.slots[r.current] == (if kept == [] then Some(x) else Some(kept[0]))
    ensures kept != [] ==> kept[0] != x && kept[|kept| - 1] in r.nodes && r.nodes[x].prev == Some(kept[|kept| - 1])
    ensures rest != [] ==> rest[0] in r.nodes && (kept != [] ==> rest[0] != kept[|kept| - 1])
  {
    assert SlotOk(r, r.current);
    var list := kept + [x] + rest;
    assert kept + ([x] + rest) == list;
    LinkedBehind(r.nodes, kept, [x] + rest);
    assert ([x] + rest)[1..] == rest;
    LinkedMembers(list, r.nodes);
    assert kept != [] ==> list[|kept| - 1] == kept[|kept| - 1] && list[0] == kept[0];
    assert rest != [] ==> list[|kept| + 1] == rest[0];
    assert list[|kept|] == x;
  }

  lemma ExecuteFacts(r: Rep, d: Drain)
    requires Draining(r, d) && d.rest != [] && d.rest[0] in r.nodes && r.nodes[d.rest[0]].rotation == 0
    ensures var t := r.nodes[d.rest[0]].data;
      t in d.counts && t in d.ticks && t in d.before && t !in d.fired && d.ticks[t] >= 1 && Lasting(d.counts[t])
    ensures Wheel(r) && d.rest[0] in r.nodes
  {
    hide Wheel, Settled;
    var x := d.rest[0];
    assert Waiting(r, d, x) && TimerOk(r.nodes, d, r.nodes[x].data);
    assert Queued(r.nodes, d.rest, r.nodes[x].data);
  }

  lemma RemovedKeys(r: Rep, kept: seq<NodeId>, x: NodeId, rest: seq<NodeId>)
    requires Wheel(r) && r.lists[r.current] == kept + [x] + rest
    ensures Removed(r, kept, x, rest).nodes.Keys == r.nodes.Keys - {x}
  {
    RemovedWheel(r, kept, x, rest);
  }

  lemma TurnFacts(r: Rep, d: Drain)
    requires Draining(r, d) && d.rest != []
    ensures d.rest[0] in r.nodes && r.nodes[d.rest[0]].next == First(d.rest[1..])
  {
    DrainHead(r, d);
  }

  lemma RefinesFacts(r: Rep, countdown: map<TimerId, nat>)
    requires Refines(r, countdown)
    ensures r.current < r.size == |r.slots| == |r.lists| && r.slots[r.current] == First(r.lists[r.current])
  {
    assert SlotOk(r, r.current);
  }

  lemma CountedTimers(before: map<TimerId, nat>, ticks: map<TimerId, nat>, initial: map<TimerId, int>,
                      counts: map<TimerId, int>, size: nat)
    requires TimersOk(before, ticks, initial) && size > 0 && counts.Keys == initial.Keys
    requires forall t :: t in counts ==> counts[t] == if t in Due(before) then Executed(initial[t]) else initial[t]
    ensures TimersOk(Counted(before, ticks, initial, size), ticks, counts)
  {
  }

  lemma RefinesSize(r: Rep, countdown: map<TimerId, nat>)
    requires Refines(r, countdown)
    ensures Wheel(r) && r.current < r.size && |r.lists| == r.size
  {
  }

  lemma InsertedRemaining(r: Rep, r': Rep, n: NodeId, ticks: nat)
    requires r.current < r.size && r'.size == r.size && r'.current == r.current
    requires forall m :: m in r.nodes ==> Unmoved(r.nodes, r'.nodes, m)
    requires n in r'.nodes && r'.nodes[n].timeSlot == SlotFor(r.current, ticks, r.size) && r'.nodes[n].rotation == RotationFor(ticks, r.size)
    ensures forall m :: m in r.nodes ==> m in r'.nodes && Remaining(r.size, r.current, r'.nodes[m]) == Remaining(r.size, r.current, r.nodes[m])
    ensures Remaining(r.size, r.current, r'.nodes[n]) == ticks
  {
    InsertArith(r.size, r.current, ticks);
  }

  lemma TimersInsert(countdown: map<TimerId, nat>, intervals: map<TimerId, int>, counts: map<TimerId, int>, tickLength: int,
                     t: TimerId, interval: int, count: int)
    requires tickLength > 0 && TimersOk(countdown, TicksMap(intervals, tickLength), counts) && Lasting(count)
    ensures TicksMap(intervals[t := interval], tickLength) == TicksMap(intervals, tickLength)[t := TicksNat(interval, tickLength)]
    ensures TimersOk(countdown[t := TicksNat(interval, tickLength)], TicksMap(intervals[t := interval], tickLength), counts[t := count])
  {
    hide TicksNat;
    var countdown', counts' := countdown[t := TicksNat(interval, tickLength)], counts[t := count];
    forall u | u in countdown'
      ensures u in intervals[t := interval] && u in counts' && Lasting(counts'[u])
    {
      assert u != t ==> u in countdown && u in TicksMap(intervals, tickLength);
    }
  }

  class TimerWheel {
    const size: nat
    const tickLength: int
    var current: nat
    var slots: seq<Option<NodeId>>
    var nodes: Nodes
    /** A number that no node has. */
    var nextNode: NodeId
    /** The timers' intervals and remaining execution counts. */
    var intervals: map<TimerId, int>
    var counts: map<TimerId, int>

    /** The list of each slot, and what the wheel refines: the number of ticks before the one on which a
        timer fires. */
    ghost var lists: seq<seq<NodeId>>
    ghost var countdown: map<TimerId, nat>

    ghost function State(): Rep
      reads this
    {
      Rep(size, current, slots, nodes, lists)
    }

    ghost predicate Valid()
      reads this
    {
      && tickLength > 0
      && Refines(State(), countdown)
      && TimersOk(countdown, TicksMap(intervals, tickLength), counts)
      && forall n :: n in nodes ==> n < nextNode
    }

    /** What runs of the wheel, further down, are about. */
    ghost function AsClock(): Clock
      reads this
      requires tickLength > 0
    {
      Clock(countdown, TicksMap(intervals, tickLength), counts)
    }

    constructor (size: nat, tickLength: int)
      requires size > 0 && tickLength > 0
      ensures Valid() && countdown == map[] && this.size == size && this.tickLength == tickLength
    {
      this.size, this.tickLength := size, tickLength;
      current, nextNode := 0, 0;
      slots := seq(size, _ => None);
      nodes, intervals, counts := map[], map[], map[];
      lists, countdown := seq(size, _ => []), map[];
    }

    /** insert(timer): a new node at the head of the list of the slot that comes up in time. */
    method InsertNode(timer: TimerId) returns (n: NodeId)
      requires tickLength > 0 && Wheel(State()) && timer in intervals && nextNode !in nodes
      modifies `slots, `nodes, `nextNode, `lists
      ensures n == old(nextNode) && nextNode == n + 1
      ensures var r := old(State());
        var ticks := TicksNat(intervals[timer], tickLength);
        var ts := SlotFor(current, ticks, size);
        State() == Inserted(r, n, timer, RotationFor(ticks, size), ts)
    {
      var ticks := TicksNat(intervals[timer], tickLength);
      var rotation := RotationFor(ticks, size);
      var ts := SlotFor(current, ticks, size);
      assert SlotOk(State(), ts);
      LinkedMembers(lists[ts], nodes);
      n := nextNode;
      nextNode := nextNode + 1;
      var head := slots[ts];
      if head == None {
        nodes := nodes[n := Node(None, None, timer, rotation, ts)];
      } else {
        nodes := nodes[n := Node(None, head, timer, rotation, ts)][head.value := nodes[head.value].(prev := Some(n))];
      }
      slots := slots[ts := Some(n)];
      lists := lists[ts := [n] + lists[ts]];
    }

    /** Puts a new timer on the wheel, with a count of executions or FOREVER. */
    method Insert(timer: TimerId, interval: int, count: int)
      requires Valid() && timer !in countdown && Lasting(count)
      modifies this
      ensures Valid() && countdown == old(countdown)[timer := TicksNat(interval, tickLength)]
      ensures intervals == old(intervals)[timer := interval] && counts == old(counts)[timer := count]
      ensures ClockOk(old(AsClock())) && Allowed(old(AsClock()), InsertEvent(timer, TicksNat(interval, tickLength), count))
      ensures size > 0 && AsClock() == Next(old(AsClock()), InsertEvent(timer, TicksNat(interval, tickLength), count), size)
    {
      hide Refines, TimersOk, TicksMap, Inserted;
      RefinesSize(State(), countdown);
      TimersInsert(countdown, intervals, counts, tickLength, timer, interval, count);
      intervals := intervals[timer := interval];
      counts := counts[timer := count];
      InsertRefines(State(), countdown, nextNode, timer, TicksNat(interval, tickLength));
      var n := InsertNode(timer);
      countdown := countdown[timer := TicksNat(interval, tickLength)];
    }

    /** Takes a node out of the list of the current slot. */
    method Unlink(x: NodeId, ghost kept: seq<NodeId>, ghost rest: seq<NodeId>) returns (next: Option<NodeId>)
      requires Wheel(State()) && lists[current] == kept + [x] + rest
      modifies `slots, `nodes, `lists
      ensures var r := old(State());
        State() == Removed(r, kept, x, rest)
      ensures next == First(rest)
    {
      UnlinkFacts(State(), kept, x, rest);
      next := nodes[x].next;
      var prev := nodes[x].prev;
      if slots[current] == Some(x) {
        slots := slots[current := next];
      } else {
        nodes := nodes[prev.value := nodes[prev.value].(next := next)];
        if next.Some? {
          nodes := nodes[next.value := nodes[next.value].(prev := prev)];
        }
      }
      nodes := nodes - {x};
      lists := lists[current := kept + rest];
    }

    /** The first node of those to come fires: its timer executes, goes back on the wheel if it has
        executions left, and only then is the node taken out. */
    method Execute(x: NodeId, ghost d: Drain) returns (timer: TimerId, next: Option<NodeId>, ghost d': Drain)
      requires Draining(State(), d) == true && d.rest != [] && x == d.rest[0] && x in nodes && nodes[x].rotation == 0
      requires tickLength > 0 && d.counts == counts && d.ticks == TicksMap(intervals, tickLength)
      requires forall n :: n in nodes ==> n < nextNode
      modifies `slots, `nodes, `nextNode, `lists, `counts
      ensures timer == old(nodes[x].data) && timer in d.counts && timer !in d.fired && timer in d.before
      ensures counts == old(counts)[timer := Executed(d.counts[timer])]
      ensures counts[timer] == if d.counts[timer] == -1 then -1 else d.counts[timer] - 1
      ensures d'.fired == d.fired + {timer} && d'.rest == d.rest[1..] && d'.counts == counts
      ensures d'.before == d.before && d'.ticks == d.ticks && d'.initial == d.initial
      ensures next == First(d.rest[1..]) && Draining(State(), d') == true
      ensures forall n :: n in nodes ==> n < nextNode
    {
      hide Draining, Wheel, Inserted, Removed, SlotFor, RotationFor;
      ExecuteFacts(State(), d);
      timer := nodes[x].data;
      var ticks := TicksNat(intervals[timer], tickLength);
      if counts[timer] != FOREVER {
        counts := counts[timer := counts[timer] - 1];
      }
      if counts[timer] > 0 {
        FireAgain(State(), d, nextNode, ticks);
        var n := InsertNode(timer);
        ghost var kept := KeptAfter(d.kept, n, ticks, current, size);
        RemovedKeys(State(), kept, x, d.rest[1..]);
        next := Unlink(x, kept, d.rest[1..]);
        d' := Fire(d, timer, kept);
      } else {
        FireLast(State(), d);
        RemovedKeys(State(), d.kept, x, d.rest[1..]);
        next := Unlink(x, d.kept, d.rest[1..]);
        d' := Fire(d, timer, d.kept);
      }
    }

    /** The first node of those to come waits one rotation less. */
    method Turn(x: NodeId, ghost d: Drain) returns (next: Option<NodeId>)
      requires Draining(State(), d) == true && d.rest != [] && x == d.rest[0] && x in nodes && nodes[x].rotation > 0
      modifies `nodes
      ensures Draining(State(), Pass(d)) == true && next == First(d.rest[1..]) && nodes.Keys == old(nodes).Keys
    {
      DrainTurn(State(), d);
      TurnFacts(State(), d);
      hide Draining;
      next := nodes[x].next;
      nodes := nodes[x := nodes[x].(rotation := nodes[x].rotation - 1)];
    }

    /** One tick: the timers whose countdowns are 0 fire, once each, and those with executions left start
        over; every other countdown goes down by one. */
    method Tick() returns (fired: seq<TimerId>)
      requires Valid()
      modifies `current, `slots, `nodes, `nextNode, `lists, `counts, `countdown
      ensures Valid()
      ensures countdown == Counted(old(countdown), TicksMap(intervals, tickLength), old(counts), size)
      ensures forall t :: t in fired <==> t in Due(old(countdown))
      ensures forall j, k :: 0 <= j < k < |fired| ==> fired[j] != fired[k]
      ensures counts.Keys == old(counts).Keys
      ensures forall t :: t in counts ==> counts[t] == if t in Due(old(countdown)) then Executed(old(counts)[t]) else old(counts)[t]
      ensures ClockOk(old(AsClock())) && AsClock() == Next(old(AsClock()), TickEvent, size)
    {
      hide Draining, Refines, TimersOk, Counted, TicksMap, Due;
      ghost var ticks := TicksMap(intervals, tickLength);
      RefinesFacts(State(), countdown);
      DrainStart(State(), countdown, ticks, counts);
      ghost var d := Drain([], lists[current], countdown, ticks, counts, counts, {});
      fired := [];
      var tmp := slots[current];
      while tmp != None
        invariant Draining(State(), d) == true && tmp == First(d.rest)
        invariant d.before == old(countdown) && d.ticks == ticks && d.initial == old(counts) && d.counts == counts
        invariant forall n :: n in nodes ==> n < nextNode
        invariant forall t :: t in fired <==> t in d.fired
        invariant forall j, k :: 0 <= j < k < |fired| ==> fired[j] != fired[k]
        invariant counts.Keys == old(counts).Keys
        invariant forall t :: t in counts ==> counts[t] == if t in d.fired then Executed(old(counts)[t]) else old(counts)[t]
        modifies `slots, `nodes, `nextNode, `lists, `counts
        decreases |d.rest|
      {
        var x := tmp.value;
        TurnFacts(State(), d);
        if nodes[x].rotation > 0 {
          tmp := Turn(x, d);
          d := Pass(d);
        } else {
          var timer;
          timer, tmp, d := Execute(x, d);
          fired := fired + [timer];
        }
      }
      ghost var r := State();
      current := Wrap(current + 1, size);
      DrainEnd(r, d, State());
      countdown := Counted(d.before, d.ticks, d.initial, size);
      CountedTimers(d.before, d.ticks, d.initial, counts, size);
    }
  }

  // ---------------------------------------------------------------- when a timer fires

  /** A timer as the ticks count it down. */
  datatype Life = Life(countdown: nat, count: nat)

  /** What one tick does to a timer that is on the wheel. */
  function Step(life: Life, ticks: nat, size: nat): Life
    requires size > 0 && ticks >= 1 && life.count >= 1
  {
    if life.countdown > 0 then Life(life.countdown - 1, life.count) else Life(Period(ticks, size) - 1, life.count - 1)
  }

  /** The timer after some ticks; it leaves the wheel when its count comes to 0. */
  function LifeAfter(life: Life, ticks: nat, size: nat, n: nat): Life
    requires size > 0 && ticks >= 1
    decreases n
  {
    if n == 0 || life.count == 0 then life else LifeAfter(Step(life, ticks, size), ticks, size, n - 1)
  }

  /** Does it fire on tick number n, the first tick being number 1? */
  ghost predicate FiresOn(life: Life, ticks: nat, size: nat, n: nat)
    requires size > 0 && ticks >= 1 && n >= 1
  {
    var at := LifeAfter(life, ticks, size, n - 1);
    at.count >= 1 && at.countdown == 0
  }

  lemma {:induction false} LifeStep(life: Life, ticks: nat, size: nat, n: nat)
    requires size > 0 && ticks >= 1 && life.count >= 1 && n >= 2
    ensures FiresOn(life, ticks, size, n) <==> FiresOn(Step(life, ticks, size), ticks, size, n - 1)
  {
    assert LifeAfter(life, ticks, size, n - 1) == LifeAfter(Step(life, ticks, size), ticks, size, n - 2);
  }

  /** The j-th execution of a timer, counted from 0. */
  function FiringTick(countdown: nat, period: nat, j: nat): nat {
    if j == 0 then countdown + 1 else FiringTick(countdown, period, j - 1) + period
  }

  lemma {:induction false} FiringTickIs(countdown: nat, period: nat, j: nat)
    ensures FiringTick(countdown, period, j) == countdown + 1 + period * j
  {
    if j > 0 {
      FiringTickIs(countdown, period, j - 1);
      assert period * (j - 1) + period == period * j;
    }
  }

  lemma {:induction false} FiringShift(countdown: nat, period: nat, j: nat)
    requires countdown > 0
    ensures FiringTick(countdown, period, j) == FiringTick(countdown - 1, period, j) + 1
  {
    if j > 0 {
      FiringShift(countdown, period, j - 1);
    }
  }

  lemma {:induction false} FiringNext(period: nat, j: nat)
    requires period >= 1
    ensures FiringTick(0, period, j + 1) == FiringTick(period - 1, period, j) + 1
  {
    if j > 0 {
      FiringNext(period, j - 1);
    }
  }

  lemma {:induction false} FiringBound(countdown: nat, period: nat, j: nat)
    ensures FiringTick(countdown, period, j) >= countdown + 1 + if j > 0 then period else 0
  {
    if j > 0 {
      FiringBound(countdown, period, j - 1);
    }
  }

  /** Tick n is the tick of one of the first `count` executions. */
  ghost predicate Scheduled(countdown: nat, period: nat, count: nat, n: nat) {
    exists j :: 0 <= j < count && n == FiringTick(countdown, period, j)
  }

  lemma ScheduledFirst(countdown: nat, period: nat, count: nat)
    requires period >= 1
    ensures Scheduled(countdown, period, count, 1) <==> count >= 1 && countdown == 0
  {
    forall j | 0 <= j < count
      ensures 1 == FiringTick(countdown, period, j) <==> j == 0 && countdown == 0
    {
      FiringBound(countdown, period, j);
    }
    if count >= 1 && countdown == 0 {
      assert 1 == FiringTick(countdown, period, 0);
    }
  }

  lemma ScheduledLater(countdown: nat, period: nat, count: nat, n: nat)
    requires countdown > 0 && n >= 2
    ensures Scheduled(countdown, period, count, n) <==> Scheduled(countdown - 1, period, count, n - 1)
  {
    if Scheduled(countdown, period, count, n) {
      var j :| 0 <= j < count && n == FiringTick(countdown, period, j);
      FiringShift(countdown, period, j);
      assert n - 1 == FiringTick(countdown - 1, period, j);
    }
    if Scheduled(countdown - 1, period, count, n - 1) {
      var j :| 0 <= j < count && n - 1 == FiringTick(countdown - 1, period, j);
      FiringShift(countdown, period, j);
      assert n == FiringTick(countdown, period, j);
    }
  }

  lemma ScheduledAgain(period: nat, count: nat, n: nat)
    requires period >= 1 && count >= 1 && n >= 2
    ensures Scheduled(0, period, count, n) <==> Scheduled(period - 1, period, count - 1, n - 1)
  {
    if Scheduled(0, period, count, n) {
      var j :| 0 <= j < count && n == FiringTick(0, period, j);
      FiringNext(period, j - 1);
      assert n - 1 == FiringTick(period - 1, period, j - 1);
    }
    if Scheduled(period - 1, period, count - 1, n - 1) {
      var j :| 0 <= j < count - 1 && n - 1 == FiringTick(period - 1, period, j);
      FiringNext(period, j);
      assert n == FiringTick(0, period, j + 1);
    }
  }

  /** A timer fires exactly on the ticks countdown + 1 + j * period, for each of its executions j. */
  lemma {:induction false} Schedule(life: Life, ticks: nat, size: nat, n: nat)
    requires size > 0 && ticks >= 1 && n >= 1
    ensures FiresOn(life, ticks, size, n) <==> Scheduled(life.countdown, Period(ticks, size), life.count, n)
    decreases n
  {
    var period := Period(ticks, size);
    if n == 1 {
      ScheduledFirst(life.countdown, period, life.count);
    } else if life.count >= 1 {
      LifeStep(life, ticks, size, n);
      Schedule(Step(life, ticks, size), ticks, size, n - 1);
      if life.countdown > 0 {
        ScheduledLater(life.countdown, period, life.count, n);
      } else {
        ScheduledAgain(period, life.count, n);
      }
    }
  }

  // ---------------------------------------------------------------- runs of the wheel

  /** What `TimerWheel.Insert` and `TimerWheel.Tick` do to countdowns, intervals in ticks and counts. */
  datatype Clock = Clock(countdown: map<TimerId, nat>, ticks: map<TimerId, nat>, counts: map<TimerId, int>)

  datatype Event = TickEvent | InsertEvent(timer: TimerId, ticks: nat, count: int)

  ghost predicate ClockOk(clock: Clock) {
    TimersOk(clock.countdown, clock.ticks, clock.counts)
  }

  /** A timer that is put on the wheel is not on it yet, and is to fire. */
  ghost predicate Allowed(clock: Clock, e: Event) {
    e.InsertEvent? ==> e.timer !in clock.countdown && e.ticks >= 1 && Lasting(e.count)
  }

  ghost function Next(clock: Clock, e: Event, size: nat): (clock': Clock)
    requires ClockOk(clock) && Allowed(clock, e) && size > 0
    ensures ClockOk(clock')
  {
    match e
    case TickEvent =>
      var counts := map t | t in clock.counts :: if t in Due(clock.countdown) then Executed(clock.counts[t]) else clock.counts[t];
      CountedTimers(clock.countdown, clock.ticks, clock.counts, counts, size);
      Clock(Counted(clock.countdown, clock.ticks, clock.counts, size), clock.ticks, counts)
    case InsertEvent(t, ticks, count) =>
      Clock(clock.countdown[t := ticks], clock.ticks[t := ticks], clock.counts[t := count])
  }

  /** The state after the events, none if one of them is not allowed. */
  ghost function Run(clock: Clock, events: seq<Event>, size: nat): (result: Option<Clock>)
    requires ClockOk(clock) && size > 0
    ensures result.Some? ==> ClockOk(result.value)
    decreases |events|
  {
    if events == [] then Some(clock)
    else if Allowed(clock, events[0]) then Run(Next(clock, events[0], size), events[1..], size)
    else None
  }

  function TickCount(events: seq<Event>): nat {
    if events == [] then 0 else (if events[0].TickEvent? then 1 else 0) + TickCount(events[1..])
  }

  ghost predicate Untouched(events: seq<Event>, t: TimerId) {
    forall k :: 0 <= k < |events| && events[k].InsertEvent? ==> events[k].timer != t
  }

  lemma NextLife(clock: Clock, e: Event, size: nat, t: TimerId)
    requires ClockOk(clock) && Allowed(clock, e) && size > 0 && t in clock.countdown
    ensures t in clock.ticks && t in clock.counts && clock.ticks[t] >= 1 && Lasting(clock.counts[t])
    ensures e.TickEvent? ==>
      var life, clock' := Step(Life(clock.countdown[t], Executions(clock.counts[t])), clock.ticks[t], size), Next(clock, e, size);
      && (t in clock'.countdown <==> life.count > 0)
      && (t in clock'.countdown ==> clock'.countdown[t] == life.countdown)
      && (t in clock'.countdown ==> t in clock'.counts && Executions(clock'.counts[t]) == life.count)
      && t in clock'.ticks && clock'.ticks[t] == clock.ticks[t]
    ensures e.InsertEvent? && e.timer != t ==>
      var clock' := Next(clock, e, size);
      && t in clock'.countdown && clock'.countdown[t] == clock.countdown[t]
      && t in clock'.counts && clock'.counts[t] == clock.counts[t] && t in clock'.ticks && clock'.ticks[t] == clock.ticks[t]
  {
  }

  lemma OnClock(clock: Clock, t: TimerId)
    requires ClockOk(clock) && t in clock.countdown
    ensures t in clock.ticks && t in clock.counts && clock.ticks[t] >= 1 && Lasting(clock.counts[t])
  {
  }

  /** Whatever else is put on the wheel, a timer lives as its own ticks say. */
  lemma {:induction false} RunLife(clock: Clock, events: seq<Event>, size: nat, t: TimerId)
    requires ClockOk(clock) && size > 0 && t in clock.countdown && Untouched(events, t)
    requires Run(clock, events, size).Some?
    ensures t in clock.ticks && t in clock.counts && clock.ticks[t] >= 1 && Lasting(clock.counts[t])
    ensures var life := LifeAfter(Life(clock.countdown[t], Executions(clock.counts[t])), clock.ticks[t], size, TickCount(events));
      var after := Run(clock, events, size).value;
      && (t in after.countdown <==> life.count > 0)
      && (t in after.countdown ==> after.countdown[t] == life.countdown)
      && (t in after.countdown ==> t in after.counts && Executions(after.counts[t]) == life.count)
    decreases |events|
  {
    hide ClockOk, Next, Step;
    OnClock(clock, t);
    if events != [] {
      NextLife(clock, events[0], size, t);
      var next := Next(clock, events[0], size);
      assert Untouched(events[1..], t) && (events[0].InsertEvent? ==> events[0].timer != t);
      if t in next.countdown {
        RunLife(next, events[1..], size, t);
      } else {
        GoneStays(next, events[1..], size, t);
      }
    }
  }

  lemma {:induction false} GoneStays(clock: Clock, events: seq<Event>, size: nat, t: TimerId)
    requires ClockOk(clock) && size > 0 && t !in clock.countdown && Untouched(events, t)
    requires Run(clock, events, size).Some?
    ensures t !in Run(clock, events, size).value.countdown
    decreases |events|
  {
    if events != [] {
      assert Untouched(events[1..], t);
      if events[0].InsertEvent? {
        assert events[0].timer != t;
      }
      GoneStays(Next(clock, events[0], size), events[1..], size, t);
    }
  }

  /** A timer of `ticks` ticks that was just put on the wheel with some count fires on tick n, counted from
      there, exactly when n is ticks + 1 + j * period for one of its executions j, whatever other timers come
      and go meanwhile. */
  lemma FiresExactly(clock: Clock, t: TimerId, ticks: nat, count: int, events: seq<Event>, size: nat)
    requires ClockOk(clock) && size > 0 && Allowed(clock, InsertEvent(t, ticks, count)) && Untouched(events, t)
    requires Run(Next(clock, InsertEvent(t, ticks, count), size), events, size).Some?
    ensures t in Due(Run(Next(clock, InsertEvent(t, ticks, count), size), events, size).value.countdown)
      <==> Scheduled(ticks, Period(ticks, size), Executions(count), TickCount(events) + 1)
  {
    hide ClockOk, Untouched, LifeAfter, Run, Scheduled, TickCount, Executions;
    var start := Next(clock, InsertEvent(t, ticks, count), size);
    RunLife(start, events, size, t);
    Schedule(Life(ticks, Executions(count)), ticks, size, TickCount(events) + 1);
  }

  /** The same from the interval: a timer fires on tick n exactly when n is T + 1 + j * period for one of its
      executions j, where T is the number of whole ticks in its interval, and one at least. */
  lemma FiresAfterInterval(clock: Clock, t: TimerId, interval: int, tickLength: int, ticks: nat, count: int,
                           events: seq<Event>, size: nat)
    requires tickLength > 0 && IsTicks(ticks, interval, tickLength)
    requires ClockOk(clock) && size > 0 && t !in clock.countdown && Lasting(count) && Untouched(events, t)
    requires Run(Next(clock, InsertEvent(t, TicksNat(interval, tickLength), count), size), events, size).Some?
    ensures t in Due(Run(Next(clock, InsertEvent(t, TicksNat(interval, tickLength), count), size), events, size).value.countdown)
      <==> Scheduled(ticks, if ticks % size == 0 then ticks + size else ticks, Executions(count), TickCount(events) + 1)
  {
    hide ClockOk, Untouched, Run, Next, TickCount, Executions, Due, TicksNat, IsTicks, Scheduled;
    TicksUnique(ticks, interval, tickLength);
    FiresExactly(clock, t, ticks, count, events, size);
  }

  lemma FewerTicks(n: nat, m: nat, length: nat, interval: int)
    requires n * length <= interval < m * length
    ensures n < m
  {
    if m <= n {
      MulMono(m, n, length);
    }
  }

  /** A timer of whole ticks fires first on the tick that comes just after its interval. */
  lemma FirstAfterInterval(clock: Clock, t: TimerId, interval: int, tickLength: int, count: int, events: seq<Event>, size: nat)
    requires 0 < tickLength <= interval
    requires ClockOk(clock) && size > 0 && t !in clock.countdown && Lasting(count) && Untouched(events, t)
    requires Run(Next(clock, InsertEvent(t, TicksNat(interval, tickLength), count), size), events, size).Some?
    requires TickCount(events) * tickLength <= interval
    ensures t in Due(Run(Next(clock, InsertEvent(t, TicksNat(interval, tickLength), count), size), events, size).value.countdown)
      <==> interval < (TickCount(events) + 1) * tickLength
  {
    hide ClockOk, Untouched, Run, Next, TickCount, Due;
    var ticks, n, length: nat := TicksNat(interval, tickLength), TickCount(events), tickLength;
    FiresExactly(clock, t, ticks, count, events, size);
    TicksMean(interval, tickLength);
    FewerTicks(n, ticks + 1, length, interval);
    if n < ticks {
      MulMono(n + 1, ticks, length);
    }
    FirstFiring(ticks, Period(ticks, size), Executions(count), n);
  }

  /** No tick up to the first firing is another one. */
  lemma FirstFiring(ticks: nat, period: nat, count: nat, n: nat)
    requires count >= 1 && period >= 1 && n <= ticks
    ensures Scheduled(ticks, period, count, n + 1) <==> n == ticks
  {
    assert FiringTick(ticks, period, 0) == ticks + 1;
    forall j | 0 < j < count
      ensures FiringTick(ticks, period, j) > n + 1
    {
      FiringTickIs(ticks, period, j);
      MulMono(1, j, period);
    }
  }

  /** In every run, a timer that is meant to execute for ever fires on tick ticks + 1 and never again. */
  lemma ForeverFiresOnce(clock: Clock, t: TimerId, ticks: nat, events: seq<Event>, size: nat)
    requires ClockOk(clock) && size > 0 && Allowed(clock, InsertEvent(t, ticks, FOREVER)) && Untouched(events, t)
    requires Run(Next(clock, InsertEvent(t, ticks, FOREVER), size), events, size).Some?
    ensures t in Due(Run(Next(clock, InsertEvent(t, ticks, FOREVER), size), events, size).value.countdown)
      <==> TickCount(events) == ticks
  {
    hide ClockOk, Untouched, Run, Next, TickCount, Allowed;
    FiresExactly(clock, t, ticks, FOREVER, events, size);
    var period := Period(ticks, size);
    assert FiringTick(ticks, period, 0) == ticks + 1;
  }
}
