/**
 The lock-free free list of blocks (Common/concurrentqueue.h, struct FreeList), as a transition
 system.  Any number of threads call `add` and `try_get`; every atomic access of the C++ code is
 one step, so the calls may interleave in any way.

 The reference count of a node is the 32-bit word of the source: the low 31 bits count the
 references, the top bit says that the node should be on the list.
 */
module FreeList {
  import opened Sets

  type Node = nat
  type Tid = nat

  datatype Ptr = Null | At(node: Node)

  const SHOULD_BE_ON_FREELIST: nat := 0x8000_0000

  /** A 32-bit unsigned word. */
  type Word = w: nat | w < 0x1_0000_0000

  /** refs & REFS_MASK */
  function Count(refs: Word): nat {
    if refs >= 0x8000_0000 then refs - 0x8000_0000 else refs
  }

  predicate Flag(refs: Word) {
    refs >= 0x8000_0000
  }

  /** fetch_add and fetch_sub, wrapping around. */
  function FetchAdd(refs: Word, delta: int): Word
    requires -0x1_0000_0000 < delta < 0x1_0000_0000
  {
    var sum := refs + delta;
    if sum >= 0x1_0000_0000 then sum - 0x1_0000_0000 else if sum < 0 then sum + 0x1_0000_0000 else sum
  }

  /** What a thread does when add_knowing_refcount_is_zero returns. */
  datatype Cont = Return | Retry(head: Ptr)

  /** Where a thread stands, with its local variables. */
  datatype PC =
    | Idle
    | GetHead                                            // try_get: load of the head
    | AddBit(node: Node)                                 // add: fetch_add of the top bit
    | LinkLoad(node: Node, cont: Cont)                   // add_knowing_refcount_is_zero
    | LinkNext(node: Node, head: Ptr, cont: Cont)
    | LinkRefs(node: Node, head: Ptr, cont: Cont)
    | LinkCas(node: Node, head: Ptr, cont: Cont)
    | LinkUndo(node: Node, cont: Cont, head: Ptr)
    | GetRefs(node: Node)                                // the rest of try_get
    | GetPin(node: Node, refs: Word)
    | GetNext(node: Node)
    | GetCas(node: Node, next: Ptr)
    | GetAssert(node: Node)
    | GetFinish(node: Node)
    | GetUnpin(node: Node, head: Ptr)
  {
    predicate HasNode() {
      !Idle? && !GetHead?
    }
  }

  /** Auxiliary: the life cycle of a node.  No access reads it; only the client's discipline, to add a node
      just while it has the node, is stated with it. */
  datatype Status =
    | Out                // a client has it
    | Entering(t: Tid)   // t called add
    | Pending            // to be added by whoever drops the last reference
    | Unlinked(t: Tid)   // t is adding it, reference count 0
    | Linking(t: Tid)    // t is adding it, the list's reference already counted
    | Listed
    | Taking(t: Tid)     // t removed it and has not yet dropped the two references

  /** A node: its two fields, its status and how often it was added and handed out. */
  datatype Cell = Cell(refs: Word, next: Ptr, status: Status, adds: nat, gets: nat)

  /** `list` is auxiliary: the nodes on the list, head first. */
  datatype State = State(head: Ptr, list: seq<Node>, cells: map<Node, Cell>, pcs: map<Tid, PC>)

  datatype Action = BeginAdd(t: Tid, node: Node) | BeginGet(t: Tid) | Run(t: Tid)

  // ---------------------------------------------------------------- the steps

  /** The loop of try_get with `head` as its current head; a null head ends the call. */
  function GetLoop(head: Ptr): PC {
    if head.Null? then Idle else GetRefs(head.node)
  }

  function Continue(k: Cont): PC {
    match k
    case Return => Idle
    case Retry(h) => GetLoop(h)
  }

  /** What one access changes: the thread, the node it works on, and the head of the list. */
  datatype Effect = Effect(pc: PC, cell: Cell, head: Ptr, list: seq<Node>)

  /** One atomic access of thread t, which stands at pc and works on a node with contents c. */
  function Access(t: Tid, pc: PC, c: Cell, head: Ptr, list: seq<Node>): Effect
    requires pc.HasNode()
  {
    match pc
    case AddBit(n) =>
      var c1 := c.(refs := FetchAdd(c.refs, SHOULD_BE_ON_FREELIST));
      if c.refs == 0 then
        Effect(LinkLoad(n, Return), c1.(status := Unlinked(t)), head, list)
      else
        Effect(Idle, c1.(status := Pending), head, list)
    case LinkLoad(n, k) =>
      Effect(LinkNext(n, head, k), c, head, list)
    case LinkNext(n, h, k) =>
      Effect(LinkRefs(n, h, k), c.(next := h), head, list)
    case LinkRefs(n, h, k) =>
      Effect(LinkCas(n, h, k), c.(refs := 1, status := Linking(t)), head, list)
    case LinkCas(n, h, k) =>
      if head == h then
        Effect(Continue(k), c.(status := Listed), At(n), [n] + list)
      else
        Effect(LinkUndo(n, k, head), c, head, list)
    case LinkUndo(n, k, h) =>
      var c1 := c.(refs := FetchAdd(c.refs, SHOULD_BE_ON_FREELIST - 1));
      if c.refs == 1 then
        Effect(LinkNext(n, h, k), c1.(status := Unlinked(t)), head, list)
      else
        Effect(Continue(k), c1.(status := Pending), head, list)
    case GetRefs(n) =>
      Effect(if Count(c.refs) == 0 then GetHead else GetPin(n, c.refs), c, head, list)
    case GetPin(n, r) =>
      if c.refs == r then
        Effect(GetNext(n), c.(refs := FetchAdd(r, 1)), head, list)
      else
        Effect(GetHead, c, head, list)
    case GetNext(n) =>
      Effect(GetCas(n, c.next), c, head, list)
    case GetCas(n, nx) =>
      if head == At(n) then
        Effect(GetAssert(n), c.(status := Taking(t)), nx, if list == [] then [] else list[1..])
      else
        Effect(GetUnpin(n, head), c, head, list)
    case GetAssert(n) =>
      Effect(GetFinish(n), c, head, list)
    case GetFinish(n) =>
      Effect(Idle, c.(refs := FetchAdd(c.refs, -2), status := Out, gets := c.gets + 1), head, list)
    case GetUnpin(n, h) =>
      var c1 := c.(refs := FetchAdd(c.refs, -1));
      if c.refs == SHOULD_BE_ON_FREELIST + 1 then
        Effect(LinkLoad(n, Retry(h)), c1.(status := Unlinked(t)), head, list)
      else
        Effect(GetLoop(h), c1, head, list)
  }

  /** Calling add: the client hands its node over. */
  function Enter(t: Tid, n: Node, c: Cell, head: Ptr, list: seq<Node>): Effect {
    Effect(AddBit(n), c.(status := Entering(t), adds := c.adds + 1), head, list)
  }

  /** s with thread t and node n changed as e says. */
  function Put(s: State, t: Tid, n: Node, e: Effect): State {
    State(e.head, e.list, s.cells[n := e.cell], s.pcs[t := e.pc])
  }

  predicate Enabled(s: State, a: Action) {
    && a.t in s.pcs
    && match a
       // a client may add a node only while it has it
       case BeginAdd(t, n) => s.pcs[t].Idle? && n in s.cells && s.cells[n].status.Out?
       case BeginGet(t) => s.pcs[t].Idle?
       case Run(t) => s.pcs[t].GetHead? || (s.pcs[t].HasNode() && s.pcs[t].node in s.cells)
  }

  function Apply(s: State, a: Action): State
    requires Enabled(s, a)
  {
    match a
    case BeginAdd(t, n) =>
      Put(s, t, n, Enter(t, n, s.cells[n], s.head, s.list))
    case BeginGet(t) =>
      s.(pcs := s.pcs[t := GetHead])
    case Run(t) =>
      var pc := s.pcs[t];
      if pc.GetHead? then
        s.(pcs := s.pcs[t := GetLoop(s.head)])
      else
        Put(s, t, pc.node, Access(t, pc, s.cells[pc.node], s.head, s.list))
  }

  /** At the start every node is outside and no call is running. */
  predicate Init(s: State) {
    && s.head == Null && s.list == []
    && (forall n :: n in s.cells ==> s.cells[n] == Cell(0, Null, Out, 0, 0))
    && (forall t :: t in s.pcs ==> s.pcs[t] == Idle)
    && |s.pcs| < SHOULD_BE_ON_FREELIST - 1
  }

  /** Any interleaving whatever. */
  ghost predicate IsRun(states: seq<State>, actions: seq<Action>) {
    && |states| == |actions| + 1
    && Init(states[0])
    && forall i :: 0 <= i < |actions| ==>
         Enabled(states[i], actions[i]) && states[i + 1] == Apply(states[i], actions[i])
  }

  // ---------------------------------------------------------------- the invariant

  /** A thread at pc has incremented the count of n and not yet given the reference back. */
  predicate Holds(pc: PC, n: Node) {
    (pc.GetNext? || pc.GetCas? || pc.GetAssert? || pc.GetFinish? || pc.GetUnpin?) && pc.node == n
  }

  function Holders(pcs: map<Tid, PC>, n: Node): set<Tid> {
    set t | t in pcs && Holds(pcs[t], n)
  }

  /** The list's own reference. */
  function ListRef(st: Status): nat {
    if st.Linking? || st.Listed? || st.Taking? then 1 else 0
  }

  /** The word of a node counts the list's reference and the threads holding the node. */
  predicate CellOk(c: Cell, holders: set<Tid>) {
    && Count(c.refs) == |holders| + ListRef(c.status)
    && (Flag(c.refs) <==> c.status.Pending? || c.status.Unlinked?)
    && (c.status.Unlinked? ==> holders == {})
    && (c.status.Pending? ==> holders != {})
    && c.adds == c.gets + (if c.status.Out? then 0 else 1)
  }

  /** Some thread is in the middle of adding or removing the node. */
  predicate HasAgent(st: Status) {
    st.Entering? || st.Unlinked? || st.Linking? || st.Taking?
  }

  /** That thread stands where the status says. */
  predicate Stands(st: Status, pc: PC, n: Node) {
    && pc.HasNode() && pc.node == n
    && (st.Entering? ==> pc.AddBit?)
    && (st.Unlinked? ==> pc.LinkLoad? || pc.LinkNext? || pc.LinkRefs?)
    && (st.Linking? ==> pc.LinkCas? || pc.LinkUndo?)
    && (st.Taking? ==> pc.GetAssert? || pc.GetFinish?)
  }

  predicate AgentOk(st: Status, n: Node, pcs: map<Tid, PC>) {
    HasAgent(st) ==> st.t in pcs && Stands(st, pcs[st.t], n)
  }

  /** What thread t at pc knows of the node it works on. */
  predicate ThreadOk(t: Tid, pc: PC, c: Cell)
    requires pc.HasNode()
  {
    match pc
    case AddBit(n) => c.status == Entering(t)
    case LinkLoad(n, k) => c.status == Unlinked(t)
    case LinkNext(n, h, k) => c.status == Unlinked(t)
    case LinkRefs(n, h, k) => c.status == Unlinked(t) && c.next == h
    case LinkCas(n, h, k) => c.status == Linking(t) && c.next == h
    case LinkUndo(n, k, h) => c.status == Linking(t)
    case GetPin(n, r) => Count(r) != 0
    case GetCas(n, nx) => c.next == nx
    case GetAssert(n) => c.status == Taking(t)
    case GetFinish(n) => c.status == Taking(t)
    case _ => true
  }

  /** Every pointer in a thread's hands leads to a node. */
  predicate Known(nodes: set<Node>, p: Ptr) {
    p.At? ==> p.node in nodes
  }

  predicate PointersOk(nodes: set<Node>, pc: PC) {
    && (pc.HasNode() ==> pc.node in nodes)
    && (pc.LinkNext? || pc.LinkRefs? || pc.LinkCas? || pc.LinkUndo? || pc.GetUnpin? ==> Known(nodes, pc.head))
    && ((pc.LinkLoad? || pc.LinkNext? || pc.LinkRefs? || pc.LinkCas? || pc.LinkUndo?) && pc.cont.Retry?
        ==> Known(nodes, pc.cont.head))
    && (pc.GetCas? ==> Known(nodes, pc.next))
  }

  /** The next pointers lead from head through exactly the nodes of list, each once. */
  predicate Chain(head: Ptr, list: seq<Node>, cells: map<Node, Cell>)
    decreases list
  {
    if list == [] then head == Null
    else
      && head == At(list[0]) && list[0] in cells && cells[list[0]].status.Listed?
      && list[0] !in list[1..]
      && Chain(cells[list[0]].next, list[1..], cells)
  }

  predicate ListOk(head: Ptr, list: seq<Node>, cells: map<Node, Cell>) {
    && Chain(head, list, cells)
    && (forall n :: n in cells && cells[n].status.Listed? ==> n in list)
  }

  predicate CellsOk(s: State) {
    && (forall n :: n in s.cells ==> CellOk(s.cells[n], Holders(s.pcs, n)))
    && (forall n :: n in s.cells ==> AgentOk(s.cells[n].status, n, s.pcs))
    && (forall n :: n in s.cells ==> Known(s.cells.Keys, s.cells[n].next))
  }

  predicate ThreadsOk(s: State) {
    && (forall t :: t in s.pcs ==> PointersOk(s.cells.Keys, s.pcs[t]))
    && (forall t :: t in s.pcs && s.pcs[t].HasNode() ==> ThreadOk(t, s.pcs[t], s.cells[s.pcs[t].node]))
  }

  predicate Inv(s: State) {
    && |s.pcs| < SHOULD_BE_ON_FREELIST - 1
    && CellsOk(s)
    && ThreadsOk(s)
    && ListOk(s.head, s.list, s.cells)
  }

  // ---------------------------------------------------------------- every step keeps it

  /** Moving one thread changes the holders of a node by that thread alone. */
  lemma HoldersAfter(pcs: map<Tid, PC>, t: Tid, pc: PC, n: Node)
    requires t in pcs
    ensures Holders(pcs[t := pc], n) == if Holds(pc, n) then Holders(pcs, n) + {t} else Holders(pcs, n) - {t}
    ensures t in Holders(pcs, n) <==> Holds(pcs[t], n)
    ensures |Holders(pcs, n) - {t}| + 1 <= |pcs|
  {
    OthersFewer(Holders(pcs, n), pcs.Keys, t);
  }

  lemma OthersFewer(holders: set<Tid>, threads: set<Tid>, t: Tid)
    requires t in threads && holders <= threads
    ensures |holders - {t}| + 1 <= |threads|
  {
    SubsetSize(holders - {t}, threads - {t});
  }

  /** The state of a node's agent, other than t, is left alone. */
  predicate Undisturbed(t: Tid, c: Cell, c': Cell) {
    && (c'.status == c.status || !HasAgent(c.status) || c.status.t == t)
    && (c'.next == c.next || c.status == Unlinked(t))
  }

  /** What an access with effect e must give back to the other threads. */
  predicate EffectOk(t: Tid, n: Node, c: Cell, holders: set<Tid>, e: Effect) {
    && CellOk(e.cell, if Holds(e.pc, n) then holders + {t} else holders - {t})
    && (e.pc.HasNode() && !e.pc.GetRefs? ==> e.pc.node == n && ThreadOk(t, e.pc, e.cell))
    && Undisturbed(t, c, e.cell)
    && (HasAgent(e.cell.status) && e.cell.status.t == t ==> Stands(e.cell.status, e.pc, n))
    && (HasAgent(e.cell.status) && e.cell.status != c.status ==> e.cell.status.t == t)
  }

  /** The premises of the access lemmas. */
  predicate AccessPre(t: Tid, pc: PC, c: Cell, head: Ptr, holders: set<Tid>) {
    && pc.HasNode() && ThreadOk(t, pc, c) && CellOk(c, holders)
    && (t in holders <==> Holds(pc, pc.node))
    && (HasAgent(c.status) && c.status.t == t ==> Stands(c.status, pc, pc.node))
    && |holders - {t}| + 1 < SHOULD_BE_ON_FREELIST - 1
    && (pc.GetCas? && head == At(pc.node) ==> c.status.Listed?)
  }

  lemma SetSizes(holders: set<Tid>, t: Tid)
    ensures |holders + {t}| == |holders - {t}| + 1
    ensures if t in holders then holders + {t} == holders else holders - {t} == holders
  {
    assert holders + {t} == (holders - {t}) + {t};
  }

  /** The accesses of add and add_knowing_refcount_is_zero before the node is linked. */
  lemma LinkAccessOk(t: Tid, pc: PC, c: Cell, head: Ptr, list: seq<Node>, holders: set<Tid>)
    requires AccessPre(t, pc, c, head, holders)
    requires pc.AddBit? || pc.LinkLoad? || pc.LinkNext? || pc.LinkRefs?
    ensures EffectOk(t, pc.node, c, holders, Access(t, pc, c, head, list))
  {
    SetSizes(holders, t);
  }

  /** The head CAS of add_knowing_refcount_is_zero. */
  lemma LinkCasAccessOk(t: Tid, pc: PC, c: Cell, head: Ptr, list: seq<Node>, holders: set<Tid>)
    requires AccessPre(t, pc, c, head, holders)
    requires pc.LinkCas?
    ensures EffectOk(t, pc.node, c, holders, Access(t, pc, c, head, list))
  {
    SetSizes(holders, t);
  }

  /** After a failed CAS the reference is taken back. */
  lemma UndoAccessOk(t: Tid, pc: PC, c: Cell, head: Ptr, list: seq<Node>, holders: set<Tid>)
    requires AccessPre(t, pc, c, head, holders)
    requires pc.LinkUndo?
    ensures EffectOk(t, pc.node, c, holders, Access(t, pc, c, head, list))
  {
    SetSizes(holders, t);
  }

  /** The two loads of try_get that touch a node. */
  lemma ReadAccessOk(t: Tid, pc: PC, c: Cell, head: Ptr, list: seq<Node>, holders: set<Tid>)
    requires AccessPre(t, pc, c, head, holders)
    requires pc.GetRefs? || pc.GetNext?
    ensures EffectOk(t, pc.node, c, holders, Access(t, pc, c, head, list))
  {
    SetSizes(holders, t);
  }

  /** The CAS that takes a reference. */
  lemma PinAccessOk(t: Tid, pc: PC, c: Cell, head: Ptr, list: seq<Node>, holders: set<Tid>)
    requires AccessPre(t, pc, c, head, holders)
    requires pc.GetPin?
    ensures EffectOk(t, pc.node, c, holders, Access(t, pc, c, head, list))
  {
    SetSizes(holders, t);
  }

  /** The head CAS of try_get and what follows it. */
  lemma TakeAccessOk(t: Tid, pc: PC, c: Cell, head: Ptr, list: seq<Node>, holders: set<Tid>)
    requires AccessPre(t, pc, c, head, holders)
    requires pc.GetCas? || pc.GetAssert? || pc.GetFinish?
    ensures EffectOk(t, pc.node, c, holders, Access(t, pc, c, head, list))
  {
    SetSizes(holders, t);
  }

  /** Giving the reference back may make this thread the one that adds the node. */
  lemma UnpinAccessOk(t: Tid, pc: PC, c: Cell, head: Ptr, list: seq<Node>, holders: set<Tid>)
    requires AccessPre(t, pc, c, head, holders)
    requires pc.GetUnpin?
    ensures EffectOk(t, pc.node, c, holders, Access(t, pc, c, head, list))
  {
    SetSizes(holders, t);
  }

  lemma AccessOk(t: Tid, pc: PC, c: Cell, head: Ptr, list: seq<Node>, holders: set<Tid>)
    requires AccessPre(t, pc, c, head, holders)
    ensures EffectOk(t, pc.node, c, holders, Access(t, pc, c, head, list))
  {
    if pc.AddBit? || pc.LinkLoad? || pc.LinkNext? || pc.LinkRefs? {
      LinkAccessOk(t, pc, c, head, list, holders);
    } else if pc.LinkCas? {
      LinkCasAccessOk(t, pc, c, head, list, holders);
    } else if pc.LinkUndo? {
      UndoAccessOk(t, pc, c, head, list, holders);
    } else if pc.GetRefs? || pc.GetNext? {
      ReadAccessOk(t, pc, c, head, list, holders);
    } else if pc.GetPin? {
      PinAccessOk(t, pc, c, head, list, holders);
    } else if pc.GetUnpin? {
      UnpinAccessOk(t, pc, c, head, list, holders);
    } else {
      TakeAccessOk(t, pc, c, head, list, holders);
    }
  }

  /** The node worked on. */
  lemma CellAfter(pcs: map<Tid, PC>, t: Tid, pc: PC, n: Node, c: Cell, c': Cell)
    requires t in pcs
    requires CellOk(c', if Holds(pc, n) then Holders(pcs, n) + {t} else Holders(pcs, n) - {t})
    requires AgentOk(c.status, n, pcs)
    requires HasAgent(c'.status) && c'.status.t == t ==> Stands(c'.status, pc, n)
    requires HasAgent(c'.status) && c'.status != c.status ==> c'.status.t == t
    ensures CellOk(c', Holders(pcs[t := pc], n)) && AgentOk(c'.status, n, pcs[t := pc])
  {
    HoldersAfter(pcs, t, pc, n);
  }

  /** Every other node. */
  lemma OtherCell(pcs: map<Tid, PC>, t: Tid, pc: PC, n: Node, m: Node, c: Cell)
    requires t in pcs && m != n
    requires pcs[t].HasNode() ==> pcs[t].node == n
    requires !Holds(pc, m)
    requires CellOk(c, Holders(pcs, m)) && AgentOk(c.status, m, pcs)
    ensures CellOk(c, Holders(pcs[t := pc], m)) && AgentOk(c.status, m, pcs[t := pc])
  {
    HoldersAfter(pcs, t, pc, m);
    assert Holders(pcs[t := pc], m) == Holders(pcs, m);
  }

  lemma CellsAfter(s: State, t: Tid, n: Node, e: Effect)
    requires CellsOk(s) && t in s.pcs && n in s.cells
    requires s.pcs[t].HasNode() ==> s.pcs[t].node == n
    requires EffectOk(t, n, s.cells[n], Holders(s.pcs, n), e) && Known(s.cells.Keys, e.cell.next)
    ensures CellsOk(Put(s, t, n, e))
  {
    hide CellOk, AgentOk, Holders;
    var s' := Put(s, t, n, e);
    assert s'.cells.Keys == s.cells.Keys;
    forall m | m in s'.cells
      ensures CellOk(s'.cells[m], Holders(s'.pcs, m)) && AgentOk(s'.cells[m].status, m, s'.pcs)
    {
      if m == n {
        CellAfter(s.pcs, t, e.pc, n, s.cells[n], e.cell);
      } else {
        OtherCell(s.pcs, t, e.pc, n, m, s.cells[m]);
      }
    }
  }

  lemma ThreadsAfter(s: State, t: Tid, n: Node, e: Effect)
    requires CellsOk(s) && ThreadsOk(s) && t in s.pcs && n in s.cells
    requires s.pcs[t].HasNode() ==> s.pcs[t].node == n
    requires EffectOk(t, n, s.cells[n], Holders(s.pcs, n), e) && PointersOk(s.cells.Keys, e.pc)
    ensures ThreadsOk(Put(s, t, n, e))
  {
    var s' := Put(s, t, n, e);
    assert s'.cells.Keys == s.cells.Keys;
    forall u | u in s'.pcs && s'.pcs[u].HasNode()
      ensures ThreadOk(u, s'.pcs[u], s'.cells[s'.pcs[u].node])
    {
      if u != t && s.pcs[u].node == n {
        assert ThreadOk(u, s.pcs[u], s.cells[n]);
        assert CellOk(s.cells[n], Holders(s.pcs, n));
        assert Holds(s.pcs[u], n) ==> u in Holders(s.pcs, n);
      }
    }
  }

  lemma {:induction false} ChainNodes(head: Ptr, list: seq<Node>, cells: map<Node, Cell>)
    requires Chain(head, list, cells)
    ensures forall m :: m in list ==> m in cells && cells[m].status.Listed?
    decreases list
  {
    if list != [] {
      ChainNodes(cells[list[0]].next, list[1..], cells);
    }
  }

  /** A chain does not mind a change of a node that keeps its place, or has none. */
  lemma {:induction false} ChainKept(n: Node, c: Cell, head: Ptr, list: seq<Node>, cells: map<Node, Cell>)
    requires Chain(head, list, cells)
    requires n in list ==> c.status.Listed? && n in cells && c.next == cells[n].next
    ensures Chain(head, list, cells[n := c])
    decreases list
  {
    if list != [] {
      ChainKept(n, c, cells[list[0]].next, list[1..], cells);
    }
  }

  lemma ListPush(n: Node, c: Cell, head: Ptr, list: seq<Node>, cells: map<Node, Cell>)
    requires ListOk(head, list, cells) && n in cells && !cells[n].status.Listed?
    requires c.next == head && c.status.Listed?
    ensures ListOk(At(n), [n] + list, cells[n := c])
  {
    ChainNodes(head, list, cells);
    ChainKept(n, c, head, list, cells);
    assert ([n] + list)[1..] == list;
  }

  lemma ListPop(c: Cell, head: Ptr, list: seq<Node>, cells: map<Node, Cell>)
    requires ListOk(head, list, cells) && list != [] && !c.status.Listed?
    ensures ListOk(cells[list[0]].next, list[1..], cells[list[0] := c])
  {
    ChainKept(list[0], c, cells[list[0]].next, list[1..], cells);
  }

  lemma ListKept(n: Node, c: Cell, head: Ptr, list: seq<Node>, cells: map<Node, Cell>)
    requires ListOk(head, list, cells) && n in cells
    requires c.status.Listed? <==> cells[n].status.Listed?
    requires c.status.Listed? ==> c.next == cells[n].next
    ensures ListOk(head, list, cells[n := c])
  {
    ChainNodes(head, list, cells);
    ChainKept(n, c, head, list, cells);
  }

  /** The list after an access: pushed, popped or untouched. */
  lemma ListAfter(t: Tid, pc: PC, head: Ptr, list: seq<Node>, cells: map<Node, Cell>)
    requires pc.HasNode() && pc.node in cells && ListOk(head, list, cells)
    requires ThreadOk(t, pc, cells[pc.node])
    requires pc.GetUnpin? && Flag(cells[pc.node].refs) ==> !cells[pc.node].status.Listed?
    ensures var e := Access(t, pc, cells[pc.node], head, list);
            ListOk(e.head, e.list, cells[pc.node := e.cell])
  {
    var e, n := Access(t, pc, cells[pc.node], head, list), pc.node;
    if pc.LinkCas? && head == pc.head {
      ListPush(n, e.cell, head, list, cells);
    } else if pc.GetCas? && head == At(n) {
      ListPop(e.cell, head, list, cells);
    } else {
      ListKept(n, e.cell, head, list, cells);
    }
  }

  /** No access invents a pointer. */
  lemma PointersAfter(t: Tid, pc: PC, c: Cell, head: Ptr, list: seq<Node>, nodes: set<Node>)
    requires pc.HasNode() && PointersOk(nodes, pc) && Known(nodes, c.next) && Known(nodes, head)
    ensures var e := Access(t, pc, c, head, list);
            PointersOk(nodes, e.pc) && Known(nodes, e.cell.next)
  {
  }

  /** The premises of the lemmas about accesses hold. */
  lemma AccessReady(s: State, t: Tid)
    requires Inv(s) && t in s.pcs && s.pcs[t].HasNode()
    ensures var n := s.pcs[t].node;
            n in s.cells && AccessPre(t, s.pcs[t], s.cells[n], s.head, Holders(s.pcs, n))
    ensures Known(s.cells.Keys, s.head)
  {
    var n := s.pcs[t].node;
    HoldersAfter(s.pcs, t, s.pcs[t], n);
    assert CellOk(s.cells[n], Holders(s.pcs, n)) && AgentOk(s.cells[n].status, n, s.pcs);
  }

  lemma InvPut(s: State, t: Tid, n: Node, e: Effect)
    requires Inv(s) && t in s.pcs && n in s.cells
    requires s.pcs[t].HasNode() ==> s.pcs[t].node == n
    requires EffectOk(t, n, s.cells[n], Holders(s.pcs, n), e)
    requires PointersOk(s.cells.Keys, e.pc) && Known(s.cells.Keys, e.cell.next)
    requires ListOk(e.head, e.list, s.cells[n := e.cell])
    ensures Inv(Put(s, t, n, e))
  {
    CellsAfter(s, t, n, e);
    ThreadsAfter(s, t, n, e);
    assert s.pcs[t := e.pc].Keys == s.pcs.Keys;
  }

  lemma InvRun(s: State, t: Tid)
    requires Inv(s) && t in s.pcs && s.pcs[t].HasNode()
    ensures Inv(Apply(s, Run(t)))
  {
    hide Access, EffectOk, ListOk;
    AccessReady(s, t);
    var n := s.pcs[t].node;
    var e := Access(t, s.pcs[t], s.cells[n], s.head, s.list);
    AccessOk(t, s.pcs[t], s.cells[n], s.head, s.list, Holders(s.pcs, n));
    PointersAfter(t, s.pcs[t], s.cells[n], s.head, s.list, s.cells.Keys);
    ListAfter(t, s.pcs[t], s.head, s.list, s.cells);
    InvPut(s, t, n, e);
  }

  lemma EnterOk(t: Tid, n: Node, c: Cell, head: Ptr, list: seq<Node>, holders: set<Tid>)
    requires CellOk(c, holders) && c.status.Out? && t !in holders
    ensures EffectOk(t, n, c, holders, Enter(t, n, c, head, list))
  {
    SetSizes(holders, t);
  }

  lemma InvBeginAdd(s: State, t: Tid, n: Node)
    requires Inv(s) && Enabled(s, BeginAdd(t, n))
    ensures Inv(Apply(s, BeginAdd(t, n)))
  {
    var c := s.cells[n];
    var e := Enter(t, n, c, s.head, s.list);
    assert CellOk(c, Holders(s.pcs, n));
    EnterOk(t, n, c, s.head, s.list, Holders(s.pcs, n));
    ListKept(n, e.cell, s.head, s.list, s.cells);
    InvPut(s, t, n, e);
  }

  /** Steps that move only the thread: the start of try_get and the load of the head. */
  lemma InvMove(s: State, t: Tid, pc: PC)
    requires Inv(s) && t in s.pcs && !s.pcs[t].HasNode()
    requires pc.Idle? || pc.GetHead? || (pc.GetRefs? && pc.node in s.cells)
    ensures Inv(s.(pcs := s.pcs[t := pc]))
  {
    var s' := s.(pcs := s.pcs[t := pc]);
    CellsMoved(s, t, pc);
    ThreadsMoved(s, t, pc);
    assert s'.pcs.Keys == s.pcs.Keys;
    assert |s'.pcs.Keys| == |s.pcs.Keys|;
    assert ListOk(s'.head, s'.list, s'.cells);
  }

  lemma ThreadsMoved(s: State, t: Tid, pc: PC)
    requires ThreadsOk(s) && t in s.pcs
    requires pc.Idle? || pc.GetHead? || (pc.GetRefs? && pc.node in s.cells)
    ensures ThreadsOk(s.(pcs := s.pcs[t := pc]))
  {
  }

  lemma CellsMoved(s: State, t: Tid, pc: PC)
    requires CellsOk(s) && t in s.pcs && !s.pcs[t].HasNode()
    requires forall n :: !Holds(pc, n)
    ensures CellsOk(s.(pcs := s.pcs[t := pc]))
  {
    forall m | m in s.cells
      ensures CellOk(s.cells[m], Holders(s.pcs[t := pc], m)) && AgentOk(s.cells[m].status, m, s.pcs[t := pc])
    {
      OtherCell(s.pcs, t, pc, m + 1, m, s.cells[m]);
    }
  }

  lemma InvStep(s: State, a: Action)
    requires Inv(s) && Enabled(s, a)
    ensures Inv(Apply(s, a))
  {
    match a
    case BeginAdd(t, n) => InvBeginAdd(s, t, n);
    case BeginGet(t) => InvMove(s, t, GetHead);
    case Run(t) =>
      if s.pcs[t].GetHead? {
        InvMove(s, t, GetLoop(s.head));
      } else {
        InvRun(s, t);
      }
  }

  // ---------------------------------------------------------------- the theorems

  lemma InvInit(s: State)
    requires Init(s)
    ensures Inv(s)
  {
    forall n | n in s.cells
      ensures Holders(s.pcs, n) == {}
    {
    }
  }

  /** The invariant holds at every moment of every run. */
  lemma {:induction false} InvAlways(states: seq<State>, actions: seq<Action>, i: nat)
    requires IsRun(states, actions) && i < |states|
    ensures Inv(states[i])
  {
    if i == 0 {
      InvInit(states[0]);
    } else {
      InvAlways(states, actions, i - 1);
      InvStep(states[i - 1], actions[i - 1]);
    }
  }

  /** The count of a node is its list reference plus the threads holding it. */
  lemma CountsReferences(states: seq<State>, actions: seq<Action>, i: nat, n: Node)
    requires IsRun(states, actions) && i < |states| && n in states[i].cells
    ensures var c := states[i].cells[n];
            Count(c.refs) == |Holders(states[i].pcs, n)| + ListRef(c.status)
  {
    InvAlways(states, actions, i);
    assert CellOk(states[i].cells[n], Holders(states[i].pcs, n));
  }

  predicate Adding(pc: PC, n: Node) {
    (pc.LinkLoad? || pc.LinkNext? || pc.LinkRefs? || pc.LinkCas? || pc.LinkUndo?) && pc.node == n
  }

  predicate Removing(pc: PC, n: Node) {
    (pc.GetAssert? || pc.GetFinish?) && pc.node == n
  }

  /** At most one thread adds a node, or has taken it, at a time; and a node is listed once. */
  lemma OneAgent(states: seq<State>, actions: seq<Action>, i: nat, t: Tid, u: Tid, n: Node)
    requires IsRun(states, actions) && i < |states| && t in states[i].pcs && u in states[i].pcs
    requires Adding(states[i].pcs[t], n) || Removing(states[i].pcs[t], n)
    requires Adding(states[i].pcs[u], n) || Removing(states[i].pcs[u], n)
    ensures t == u && n !in states[i].list
  {
    hide CellsOk, Init, IsRun;
    var s := states[i];
    InvAlways(states, actions, i);
    assert ThreadOk(t, s.pcs[t], s.cells[n]) && ThreadOk(u, s.pcs[u], s.cells[n]);
    ChainNodes(s.head, s.list, s.cells);
  }

  lemma {:induction false} ChainDistinct(head: Ptr, list: seq<Node>, cells: map<Node, Cell>, i: nat, j: nat)
    requires Chain(head, list, cells) && i < j < |list|
    ensures list[i] != list[j]
    decreases list
  {
    if i == 0 {
      assert list[j] == list[1..][j - 1];
    } else {
      ChainDistinct(cells[list[0]].next, list[1..], cells, i - 1, j - 1);
    }
  }

  /** A successful head CAS of try_get installs the head's true successor: there is no ABA. */
  lemma NoAba(states: seq<State>, actions: seq<Action>, i: nat, t: Tid)
    requires IsRun(states, actions) && i < |actions| && actions[i] == Run(t)
    requires states[i].pcs[t].GetCas? && states[i].head == At(states[i].pcs[t].node)
    ensures states[i].list != [] && states[i].list[0] == states[i].pcs[t].node
    ensures states[i + 1].list == states[i].list[1..]
    ensures states[i + 1].head == if |states[i].list| > 1 then At(states[i].list[1]) else Null
  {
    var s := states[i];
    InvAlways(states, actions, i);
    assert Enabled(s, actions[i]);
    assert states[i + 1] == Apply(s, actions[i]);
    assert ThreadOk(t, s.pcs[t], s.cells[s.pcs[t].node]);
    assert Chain(s.cells[s.list[0]].next, s.list[1..], s.cells);
  }

  /** The assertion after that CAS never fails. */
  lemma AssertHolds(states: seq<State>, actions: seq<Action>, i: nat, t: Tid)
    requires IsRun(states, actions) && i < |states| && t in states[i].pcs && states[i].pcs[t].GetAssert?
    ensures states[i].pcs[t].node in states[i].cells
    ensures !Flag(states[i].cells[states[i].pcs[t].node].refs)
  {
    var s, n := states[i], states[i].pcs[t].node;
    InvAlways(states, actions, i);
    assert PointersOk(s.cells.Keys, s.pcs[t]) && ThreadOk(t, s.pcs[t], s.cells[n]);
    assert CellOk(s.cells[n], Holders(s.pcs, n));
  }

  /** When no call is running, the list holds exactly the nodes added and not taken, each once. */
  lemma Quiescent(states: seq<State>, actions: seq<Action>, i: nat)
    requires IsRun(states, actions) && i < |states|
    requires forall t :: t in states[i].pcs ==> states[i].pcs[t].Idle?
    ensures forall n :: n in states[i].cells ==>
              (n in states[i].list <==> states[i].cells[n].adds == states[i].cells[n].gets + 1)
    ensures forall n :: n in states[i].cells ==>
              (n !in states[i].list <==> states[i].cells[n].adds == states[i].cells[n].gets)
    ensures forall j, k :: 0 <= j < k < |states[i].list| ==> states[i].list[j] != states[i].list[k]
  {
    var s := states[i];
    InvAlways(states, actions, i);
    ChainNodes(s.head, s.list, s.cells);
    forall n | n in s.cells
      ensures n in s.list <==> s.cells[n].adds == s.cells[n].gets + 1
      ensures n !in s.list <==> s.cells[n].adds == s.cells[n].gets
    {
      assert CellOk(s.cells[n], Holders(s.pcs, n)) && AgentOk(s.cells[n].status, n, s.pcs);
      assert Holders(s.pcs, n) == {};
    }
    forall j, k | 0 <= j < k < |s.list|
      ensures s.list[j] != s.list[k]
    {
      ChainDistinct(s.head, s.list, s.cells, j, k);
    }
  }

  lemma NullHead(s: State)
    requires Inv(s) && s.head == Null
    ensures s.list == []
  {
    hide CellsOk, ThreadsOk;
  }

  /** A thread in try_get that has read a null head, and still has to give a reference back or to add the
      node whose last reference that was. */
  predicate HasReadNull(pc: PC) {
    || (pc.GetUnpin? && pc.head == Null)
    || ((pc.LinkLoad? || pc.LinkNext? || pc.LinkRefs? || pc.LinkCas? || pc.LinkUndo?) && pc.cont == Retry(Null))
  }

  /** In a call of try_get, also while that adds a node again. */
  predicate Getting(pc: PC) {
    match pc
    case Idle => false
    case AddBit(_) => false
    case LinkLoad(_, cont) => cont.Retry?
    case LinkNext(_, _, cont) => cont.Retry?
    case LinkRefs(_, _, cont) => cont.Retry?
    case LinkCas(_, _, cont) => cont.Retry?
    case LinkUndo(_, cont, _) => cont.Retry?
    case _ => true
  }

  /** This step of the thread ends its call of try_get without a node. */
  predicate ReturnsNull(pc: PC, pc': PC) {
    Getting(pc) && pc'.Idle? && !pc.GetFinish?
  }

  lemma ReadNullStep(s: State, a: Action, t: Tid)
    requires Enabled(s, a) && t in Apply(s, a).pcs && HasReadNull(Apply(s, a).pcs[t])
    ensures t in s.pcs && !s.pcs[t].Idle? && (HasReadNull(s.pcs[t]) || s.head == Null)
  {
  }

  lemma StartsIdle(states: seq<State>, actions: seq<Action>, t: Tid)
    requires IsRun(states, actions) && t in states[0].pcs
    ensures states[0].pcs[t].Idle?
  {
  }

  lemma InCall(s: State, t: Tid)
    requires t in s.pcs && HasReadNull(s.pcs[t])
    ensures !s.pcs[t].Idle?
  {
  }

  /** It read the null head at an earlier moment of the same call, when the list was empty. */
  lemma {:induction false} ReadNullBefore(states: seq<State>, actions: seq<Action>, i: nat, t: Tid) returns (j: nat)
    requires IsRun(states, actions) && i < |states| && t in states[i].pcs && HasReadNull(states[i].pcs[t])
    ensures j < i && states[j].head == Null && states[j].list == []
    ensures forall m :: j <= m <= i ==> t in states[m].pcs && !states[m].pcs[t].Idle?
  {
    hide Inv, Enabled, Apply, HasReadNull;
    InCall(states[i], t);
    if i == 0 {
      StartsIdle(states, actions, t);
      assert false;
    } else {
      assert Enabled(states[i - 1], actions[i - 1]) && states[i] == Apply(states[i - 1], actions[i - 1]);
      ReadNullStep(states[i - 1], actions[i - 1], t);
      InvAlways(states, actions, i - 1);
      if HasReadNull(states[i - 1].pcs[t]) {
        j := ReadNullBefore(states, actions, i - 1, t);
      } else {
        j := i - 1;
        NullHead(states[j]);
      }
    }
  }

  /** try_get returns no node only if, at some moment of the call, the head was null and the list empty. */
  lemma NullMeansEmpty(states: seq<State>, actions: seq<Action>, i: nat, t: Tid)
    requires IsRun(states, actions) && i < |actions| && actions[i] == Run(t)
    requires ReturnsNull(states[i].pcs[t], states[i + 1].pcs[t])
    ensures exists j :: 0 <= j <= i && states[j].head == Null && states[j].list == []
                        && forall m :: j <= m <= i ==> t in states[m].pcs && !states[m].pcs[t].Idle?
  {
    hide Inv, Init;
    assert Enabled(states[i], actions[i]) && states[i + 1] == Apply(states[i], actions[i]);
    if HasReadNull(states[i].pcs[t]) {
      var j := ReadNullBefore(states, actions, i, t);
    } else {
      InvAlways(states, actions, i);
      NullHead(states[i]);
    }
  }

  /** Nodes are conserved: between two hand-outs of a node there is exactly one add of it. */
  lemma Conserved(states: seq<State>, actions: seq<Action>, i: nat, n: Node)
    requires IsRun(states, actions) && i < |states| && n in states[i].cells
    ensures var c := states[i].cells[n];
            c.gets <= c.adds <= c.gets + 1 && (c.adds == c.gets <==> c.status.Out?)
  {
    InvAlways(states, actions, i);
    assert CellOk(states[i].cells[n], Holders(states[i].pcs, n));
  }

  // ---------------------------------------------------------------- calls that nobody disturbs

  /** The state after k accesses of thread t, or less if its call has ended. */
  function Alone(s: State, t: Tid, k: nat): State {
    if k == 0 then s
    else
      var s' := Alone(s, t, k - 1);
      if Enabled(s', Run(t)) then Apply(s', Run(t)) else s'
  }

  /** With no call running, a listed node has one reference, and one that is outside has none. */
  lemma AtRest(s: State, n: Node)
    requires Inv(s) && n in s.cells && forall t :: t in s.pcs ==> s.pcs[t].Idle?
    ensures s.cells[n].status.Listed? ==> s.cells[n].refs == 1
    ensures s.cells[n].status.Out? ==> s.cells[n].refs == 0
  {
    assert CellOk(s.cells[n], Holders(s.pcs, n));
    assert Holders(s.pcs, n) == {};
  }

  lemma HeadListed(s: State)
    requires Inv(s) && s.list != []
    ensures s.head == At(s.list[0]) && s.list[0] in s.cells && s.cells[s.list[0]].status.Listed?
  {
    hide CellsOk, ThreadsOk;
    ChainNodes(s.head, s.list, s.cells);
  }

  /** With no other call running, try_get hands out the first node of the list, and none exactly when the list is
      empty. */
  lemma LoneGet(states: seq<State>, actions: seq<Action>, i: nat, t: Tid)
    requires IsRun(states, actions) && i < |states| && t in states[i].pcs
    requires forall u :: u in states[i].pcs ==> states[i].pcs[u].Idle?
    ensures var s := states[i];
      if s.list == [] then Alone(Apply(s, BeginGet(t)), t, 1) == s
      else
        var s', n := Alone(Apply(s, BeginGet(t)), t, 7), s.list[0];
        && s'.pcs == s.pcs && s'.list == s.list[1..] && n in s.cells
        && s'.cells == s.cells[n := s.cells[n].(refs := 0, status := Out, gets := s.cells[n].gets + 1)]
  {
    hide IsRun;
    var s := states[i];
    InvAlways(states, actions, i);
    if s.list == [] {
      LoneGetNone(s, t);
    } else {
      HeadListed(s);
      AtRest(s, s.list[0]);
      LoneGetFirst(s, t, s.list[0]);
    }
  }

  lemma LoneGetNone(s: State, t: Tid)
    requires Inv(s) && s.list == [] && t in s.pcs && s.pcs[t].Idle?
    ensures Alone(Apply(s, BeginGet(t)), t, 1) == s
  {
    hide CellsOk, ThreadsOk;
    assert s.pcs[t := Idle] == s.pcs;
    assert Alone(Apply(s, BeginGet(t)), t, 0) == Apply(s, BeginGet(t));
  }

  lemma AloneStep(s: State, t: Tid, k: nat)
    requires Enabled(Alone(s, t, k), Run(t))
    ensures Alone(s, t, k + 1) == Apply(Alone(s, t, k), Run(t))
  {
  }

  lemma LoneGetFirst(s: State, t: Tid, n: Node)
    requires t in s.pcs && s.pcs[t].Idle? && s.head == At(n) && s.list != [] && n in s.cells && s.cells[n].refs == 1
    ensures var s' := Alone(Apply(s, BeginGet(t)), t, 7);
      && s'.pcs == s.pcs && s'.list == s.list[1..]
      && s'.cells == s.cells[n := s.cells[n].(refs := 0, status := Out, gets := s.cells[n].gets + 1)]
  {
    hide Alone, Apply, Access;
    LonePin(s, t, n);
    var s0 := Apply(s, BeginGet(t));
    LoneTake(s, Alone(s0, t, 4), t, n);
    AloneMore(s0, t, 4, 3);
  }

  /** The head is loaded, looked at, pinned, and its successor loaded. */
  lemma LonePin(s: State, t: Tid, n: Node)
    requires t in s.pcs && s.pcs[t].Idle? && s.head == At(n) && n in s.cells && s.cells[n].refs == 1
    ensures Enabled(s, BeginGet(t))
    ensures Alone(Apply(s, BeginGet(t)), t, 4)
         == s.(cells := s.cells[n := s.cells[n].(refs := 2)], pcs := s.pcs[t := GetCas(n, s.cells[n].next)])
  {
    hide Alone;
    var s0 := Apply(s, BeginGet(t));
    AloneZero(s0, t);
    AloneStep(s0, t, 0);
    AloneStep(s0, t, 1);
    AloneStep(s0, t, 2);
    AloneStep(s0, t, 3);
  }

  /** The head moves on, and both references are given back. */
  lemma LoneTake(s: State, s0: State, t: Tid, n: Node)
    requires t in s.pcs && s.pcs[t].Idle? && s.head == At(n) && s.list != [] && n in s.cells
    requires s0 == s.(cells := s.cells[n := s.cells[n].(refs := 2)], pcs := s.pcs[t := GetCas(n, s.cells[n].next)])
    ensures var s' := Alone(s0, t, 3);
      && s'.pcs == s.pcs && s'.list == s.list[1..]
      && s'.cells == s.cells[n := s.cells[n].(refs := 0, status := Out, gets := s.cells[n].gets + 1)]
  {
    hide Alone;
    AloneZero(s0, t);
    AloneStep(s0, t, 0);
    AloneStep(s0, t, 1);
    AloneStep(s0, t, 2);
    assert s.pcs[t := Idle] == s.pcs;
  }

  lemma {:induction false} AloneMore(s: State, t: Tid, j: nat, k: nat)
    ensures Alone(s, t, j + k) == Alone(Alone(s, t, j), t, k)
    decreases k
  {
    hide Enabled, Apply;
    if k > 0 {
      AloneMore(s, t, j, k - 1);
    }
  }

  lemma AloneZero(s: State, t: Tid)
    ensures Alone(s, t, 0) == s
  {
  }

  /** With no other call running, add puts the node at the front of the list. */
  lemma LoneAdd(states: seq<State>, actions: seq<Action>, i: nat, t: Tid, n: Node)
    requires IsRun(states, actions) && i < |states| && Enabled(states[i], BeginAdd(t, n))
    requires forall u :: u in states[i].pcs ==> states[i].pcs[u].Idle?
    ensures var s := states[i];
      var s' := Alone(Apply(s, BeginAdd(t, n)), t, 5);
      && s'.pcs == s.pcs && s'.list == [n] + s.list && s'.head == At(n) && n in s'.cells && s'.cells[n].next == s.head
      && s'.cells[n].status == Listed && s'.cells[n].refs == 1
  {
    hide IsRun;
    InvAlways(states, actions, i);
    AtRest(states[i], n);
    LoneAddFirst(states[i], t, n);
  }

  lemma LoneAddFirst(s: State, t: Tid, n: Node)
    requires t in s.pcs && s.pcs[t].Idle? && n in s.cells && s.cells[n].status.Out? && s.cells[n].refs == 0
    ensures var s' := Alone(Apply(s, BeginAdd(t, n)), t, 5);
      && s'.pcs == s.pcs && s'.list == [n] + s.list && s'.head == At(n) && n in s'.cells && s'.cells[n].next == s.head
      && s'.cells[n].status == Listed && s'.cells[n].refs == 1
  {
    hide Alone;
    var s0 := Apply(s, BeginAdd(t, n));
    AloneZero(s0, t);
    AloneStep(s0, t, 0);
    AloneStep(s0, t, 1);
    AloneStep(s0, t, 2);
    AloneStep(s0, t, 3);
    AloneStep(s0, t, 4);
    assert s.pcs[t := Idle] == s.pcs;
  }
}
