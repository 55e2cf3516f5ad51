/**
 How consumers share out the elements of one producer (Common/concurrentqueue.h, `dequeue` and
 `dequeue_bulk` of ExplicitProducer and ImplicitProducer), as a transition system.

 A consumer takes tickets from dequeueOptimisticCount, looks at the tail, and either claims indices
 from headIndex or gives its tickets back through dequeueOvercommit.  `dequeue` is `dequeue_bulk`
 with max = 1: the same accesses in the same order.  Counters are unbounded here; that comparing them
 modulo 2^64 agrees with comparing them is the subject of module Circular.
 */
module DequeueCounters {

  type Tid = nat

  /** Where a consumer stands, with its local variables. */
  datatype PC =
    | Idle
    | LoadTail(max: nat)
    | LoadOvercommit(max: nat, tail: nat)
    | LoadOptimistic(max: nat, tail: nat, overcommit: nat)
    | AddOptimistic(desired: nat, overcommit: nat)
    | ReloadTail(desired: nat, overcommit: nat, mine: nat)
    | AddOvercommit(back: nat, actual: nat, mine: nat)
    | AddHead(actual: nat, mine: nat)
    | Read(first: nat, actual: nat)

  /** Auxiliary: what became of a ticket. */
  datatype Fate =
    | Undecided
    | Passed      // will claim an index
    | Claimed     // has claimed it
    | Failed      // will be given back
    | Returned    // has been given back

  datatype Ticket = Ticket(t: Tid, fate: Fate)

  /** `tickets` and `takers` are auxiliary: the tickets handed out, and who claimed each index. */
  datatype State = State(
    tail: nat,
    head: nat,
    optimistic: nat,
    overcommit: nat,
    pcs: map<Tid, PC>,
    tickets: seq<Ticket>,
    takers: seq<Tid>)

  datatype Action = Enqueue(count: nat) | Begin(t: Tid, max: nat) | Run(t: Tid)

  function Min(a: int, b: int): int {
    if a < b then a else b
  }

  /** n tickets of thread t. */
  function Batch(t: Tid, n: nat, fate: Fate): (ts: seq<Ticket>)
    ensures |ts| == n && Owned(ts, 0, n, t, fate)
  {
    seq(n, i => Ticket(t, fate))
  }

  /** The n tickets from lo on are those of t, and met this fate. */
  predicate Owned(ts: seq<Ticket>, lo: nat, n: nat, t: Tid, fate: Fate) {
    lo + n <= |ts| && forall i :: lo <= i < lo + n ==> ts[i] == Ticket(t, fate)
  }

  /** The n tickets from lo on come to a decision. */
  function Decide(ts: seq<Ticket>, lo: nat, n: nat, t: Tid, fate: Fate): (ts': seq<Ticket>)
    ensures |ts'| == |ts|
    ensures forall i :: 0 <= i < |ts| ==> ts'[i] == if lo <= i < lo + n then Ticket(t, fate) else ts[i]
  {
    seq(|ts|, i requires 0 <= i < |ts| => if lo <= i < lo + n then Ticket(t, fate) else ts[i])
  }

  /** Of the tickets from lo on, the first `actual` pass and the next `back` fail. */
  function Split(ts: seq<Ticket>, lo: nat, actual: nat, back: nat, t: Tid): (ts': seq<Ticket>)
    ensures |ts'| == |ts|
    ensures forall i :: 0 <= i < |ts| ==>
              ts'[i] == (if lo <= i < lo + actual then Ticket(t, Passed)
                         else if lo + actual <= i < lo + actual + back then Ticket(t, Failed)
                         else ts[i])
  {
    Decide(Decide(ts, lo, actual, t, Passed), lo + actual, back, t, Failed)
  }

  predicate Enabled(s: State, a: Action) {
    match a
    case Enqueue(_) => true
    case Begin(t, _) => t in s.pcs && s.pcs[t].Idle?
    case Run(t) => t in s.pcs && !s.pcs[t].Idle?
  }

  function Move(s: State, t: Tid, pc: PC): State {
    s.(pcs := s.pcs[t := pc])
  }

  /** One atomic access of consumer t. */
  function RunStep(s: State, t: Tid): State
    requires t in s.pcs
  {
    match s.pcs[t]
    case Idle => s
    case LoadTail(max) =>
      Move(s, t, LoadOvercommit(max, s.tail))
    case LoadOvercommit(max, tail) =>
      Move(s, t, LoadOptimistic(max, tail, s.overcommit))
    case LoadOptimistic(max, tail, oc) =>
      var desired := tail - (s.optimistic - oc);
      Move(s, t, if desired > 0 then AddOptimistic(Min(desired, max), oc) else Idle)
    case AddOptimistic(desired, oc) =>
      s.(optimistic := s.optimistic + desired, tickets := s.tickets + Batch(t, desired, Undecided),
         pcs := s.pcs[t := ReloadTail(desired, oc, s.optimistic)])
    case ReloadTail(desired, oc, mine) =>
      var available := s.tail - (mine - oc);
      if available > 0 then
        var actual := Min(desired, available);
        s.(tickets := Split(s.tickets, mine, actual, desired - actual, t),
           pcs := s.pcs[t := if actual < desired then AddOvercommit(desired - actual, actual, mine) else AddHead(actual, mine)])
      else
        s.(tickets := Decide(s.tickets, mine, desired, t, Failed), pcs := s.pcs[t := AddOvercommit(desired, 0, mine)])
    case AddOvercommit(back, actual, mine) =>
      s.(overcommit := s.overcommit + back, tickets := Decide(s.tickets, mine + actual, back, t, Returned),
         pcs := s.pcs[t := if actual > 0 then AddHead(actual, mine) else Idle])
    case AddHead(actual, mine) =>
      s.(head := s.head + actual, tickets := Decide(s.tickets, mine, actual, t, Claimed),
         takers := s.takers + seq(actual, i => t), pcs := s.pcs[t := Read(s.head, actual)])
    case Read(first, actual) =>
      Move(s, t, Idle)
  }

  function Apply(s: State, a: Action): State
    requires Enabled(s, a)
  {
    match a
    case Enqueue(count) => s.(tail := s.tail + count)
    case Begin(t, max) => Move(s, t, LoadTail(max))
    case Run(t) => RunStep(s, t)
  }

  predicate Init(s: State) {
    && s.tail == 0 && s.head == 0 && s.optimistic == 0 && s.overcommit == 0
    && s.tickets == [] && s.takers == []
    && (forall t :: t in s.pcs ==> s.pcs[t] == Idle)
  }

  predicate CanRun(s: State, actions: seq<Action>)
    decreases |actions|
  {
    actions == [] || (Enabled(s, actions[0]) && CanRun(Apply(s, actions[0]), actions[1..]))
  }

  function Exec(s: State, actions: seq<Action>): State
    requires CanRun(s, actions)
    decreases |actions|
  {
    if actions == [] then s else Exec(Apply(s, actions[0]), actions[1..])
  }

  // ---------------------------------------------------------------- counting tickets

  /** How many of the tickets met one of the fates. */
  function Num(ts: seq<Ticket>, fates: set<Fate>): nat {
    if ts == [] then 0
    else Num(ts[..|ts| - 1], fates) + if ts[|ts| - 1].fate in fates then 1 else 0
  }

  lemma {:induction false} NumAppend(a: seq<Ticket>, b: seq<Ticket>, fates: set<Fate>)
    ensures Num(a + b, fates) == Num(a, fates) + Num(b, fates)
  {
    if b == [] {
      assert a + b == a;
    } else {
      assert (a + b)[..|a + b| - 1] == a + b[..|b| - 1];
      NumAppend(a, b[..|b| - 1], fates);
    }
  }

  lemma {:induction false} NumBatch(t: Tid, n: nat, fate: Fate, fates: set<Fate>)
    ensures Num(Batch(t, n, fate), fates) == if fate in fates then n else 0
  {
    if n > 0 {
      assert Batch(t, n, fate)[..n - 1] == Batch(t, n - 1, fate);
      NumBatch(t, n - 1, fate, fates);
    }
  }

  /** A decision moves a batch from one count to another. */
  lemma NumDecide(ts: seq<Ticket>, lo: nat, n: nat, t: Tid, was: Fate, fate: Fate, fates: set<Fate>)
    requires Owned(ts, lo, n, t, was)
    ensures Num(Decide(ts, lo, n, t, fate), fates)
         == Num(ts, fates) - (if was in fates then n else 0) + (if fate in fates then n else 0)
    ensures was in fates ==> Num(ts, fates) >= n
  {
    assert ts == ts[..lo] + Batch(t, n, was) + ts[lo + n..];
    assert Decide(ts, lo, n, t, fate) == ts[..lo] + Batch(t, n, fate) + ts[lo + n..];
    NumAppend(ts[..lo] + Batch(t, n, was), ts[lo + n..], fates);
    NumAppend(ts[..lo], Batch(t, n, was), fates);
    NumBatch(t, n, was, fates);
    NumAppend(ts[..lo] + Batch(t, n, fate), ts[lo + n..], fates);
    NumAppend(ts[..lo], Batch(t, n, fate), fates);
    NumBatch(t, n, fate, fates);
  }

  /** The fates in a state only ever progress towards failure or success. */
  lemma {:induction false} NumMono(ts: seq<Ticket>, ts': seq<Ticket>, m: nat, fates: set<Fate>)
    requires m <= |ts| && m <= |ts'|
    requires forall i :: 0 <= i < m && ts[i].fate in fates ==> ts'[i].fate in fates
    ensures Num(ts[..m], fates) <= Num(ts'[..m], fates)
  {
    if m > 0 {
      assert ts[..m][..m - 1] == ts[..m - 1] && ts'[..m][..m - 1] == ts'[..m - 1];
      NumMono(ts, ts', m - 1, fates);
    }
  }

  lemma {:induction false} NumDisjoint(ts: seq<Ticket>, a: set<Fate>, b: set<Fate>)
    requires a !! b
    ensures Num(ts, a + b) == Num(ts, a) + Num(ts, b) && Num(ts, a) + Num(ts, b) <= |ts|
  {
    if ts != [] {
      NumDisjoint(ts[..|ts| - 1], a, b);
    }
  }

  const FAILING := {Failed, Returned}
  const PASSING := {Passed, Claimed}

  // ---------------------------------------------------------------- the invariant

  /** A passing ticket is covered by the tail, once the failing tickets below it are discounted. */
  predicate PassOk(ts: seq<Ticket>, m: nat, tail: nat)
    requires m < |ts|
  {
    ts[m].fate in PASSING ==> m + 1 - Num(ts[..m], FAILING) <= tail
  }

  predicate ThreadOk(t: Tid, pc: PC, s: State) {
    match pc
    case LoadOptimistic(_, _, oc) => oc <= s.overcommit
    case AddOptimistic(_, oc) => oc <= s.overcommit
    case ReloadTail(desired, oc, mine) =>
      Owned(s.tickets, mine, desired, t, Undecided) && oc <= Num(s.tickets[..mine], FAILING)
    case AddOvercommit(back, actual, mine) =>
      Owned(s.tickets, mine, actual, t, Passed) && Owned(s.tickets, mine + actual, back, t, Failed)
    case AddHead(actual, mine) =>
      Owned(s.tickets, mine, actual, t, Passed)
    case Read(first, actual) =>
      first + actual <= |s.takers| && forall i :: first <= i < first + actual ==> s.takers[i] == t
    case _ => true
  }

  /** A ticket whose fate is not sealed is in the hands of its thread. */
  predicate TicketOk(ticket: Ticket, i: nat, pcs: map<Tid, PC>) {
    ticket.fate in {Undecided, Passed, Failed} ==> ticket.t in pcs && Concerns(pcs[ticket.t], i, ticket.fate)
  }

  predicate Concerns(pc: PC, i: nat, fate: Fate) {
    && (fate.Undecided? ==> pc.ReloadTail? && pc.mine <= i < pc.mine + pc.desired)
    && (fate.Passed? ==> (pc.AddOvercommit? || pc.AddHead?) && pc.mine <= i < pc.mine + pc.actual)
    && (fate.Failed? ==> pc.AddOvercommit? && pc.mine + pc.actual <= i < pc.mine + pc.actual + pc.back)
  }

  predicate CountsOk(s: State) {
    && |s.tickets| == s.optimistic && |s.takers| == s.head
    && s.head == Num(s.tickets, {Claimed})
    && s.overcommit == Num(s.tickets, {Returned})
  }

  ghost predicate Inv(s: State) {
    && CountsOk(s)
    && (forall t :: t in s.pcs ==> ThreadOk(t, s.pcs[t], s))
    && (forall i :: 0 <= i < |s.tickets| ==> TicketOk(s.tickets[i], i, s.pcs))
    && (forall m :: 0 <= m < |s.tickets| ==> PassOk(s.tickets, m, s.tail))
  }

  /** At most `tail` tickets pass. */
  lemma {:induction false} PassesBounded(ts: seq<Ticket>, tail: nat, k: nat)
    requires k <= |ts| && forall m :: 0 <= m < |ts| ==> PassOk(ts, m, tail)
    ensures Num(ts[..k], PASSING) <= tail
  {
    if k > 0 {
      assert ts[..k][..k - 1] == ts[..k - 1];
      if ts[k - 1].fate in PASSING {
        assert PassOk(ts, k - 1, tail);
        NumDisjoint(ts[..k - 1], PASSING, FAILING);
      } else {
        PassesBounded(ts, tail, k - 1);
      }
    }
  }

  // ---------------------------------------------------------------- every step keeps it

  /** Only tickets of t change, no failure is forgotten and nobody is taken off the list of takers. */
  predicate Evolves(t: Tid, s: State, s': State) {
    && |s.tickets| <= |s'.tickets| && s.takers <= s'.takers && s.tail <= s'.tail && s.overcommit <= s'.overcommit
    && (forall i :: 0 <= i < |s.tickets| && s.tickets[i].t != t ==> s'.tickets[i] == s.tickets[i])
    && (forall i :: 0 <= i < |s.tickets| && s.tickets[i].fate in FAILING ==> s'.tickets[i].fate in FAILING)
  }

  lemma OtherThread(t: Tid, u: Tid, pc: PC, s: State, s': State)
    requires Evolves(t, s, s') && t != u && ThreadOk(u, pc, s)
    ensures ThreadOk(u, pc, s')
  {
    if pc.ReloadTail? {
      NumMono(s.tickets, s'.tickets, pc.mine, FAILING);
    }
  }

  lemma StillPassing(t: Tid, s: State, s': State, m: nat)
    requires Evolves(t, s, s') && m < |s.tickets| && PassOk(s.tickets, m, s.tail)
    requires s'.tickets[m].fate in PASSING ==> s.tickets[m].fate in PASSING
    ensures PassOk(s'.tickets, m, s'.tail)
  {
    NumMono(s.tickets, s'.tickets, m, FAILING);
  }

  /** What is left to show of a step of t. */
  lemma Update(t: Tid, s: State, s': State)
    requires Inv(s) && t in s.pcs && t in s'.pcs && s'.pcs == s.pcs[t := s'.pcs[t]]
    requires Evolves(t, s, s') && CountsOk(s') && ThreadOk(t, s'.pcs[t], s')
    requires forall i :: 0 <= i < |s'.tickets| && (i >= |s.tickets| || s.tickets[i].t == t) ==>
               TicketOk(s'.tickets[i], i, s'.pcs)
    requires forall m :: 0 <= m < |s'.tickets| && (m >= |s.tickets| || s'.tickets[m] != s.tickets[m]) ==>
               PassOk(s'.tickets, m, s'.tail)
    ensures Inv(s')
  {
    forall u | u in s'.pcs
      ensures ThreadOk(u, s'.pcs[u], s')
    {
      if u != t {
        OtherThread(t, u, s.pcs[u], s, s');
      }
    }
    forall i | 0 <= i < |s'.tickets|
      ensures TicketOk(s'.tickets[i], i, s'.pcs) && PassOk(s'.tickets, i, s'.tail)
    {
      if i < |s.tickets| {
        assert TicketOk(s.tickets[i], i, s.pcs) && PassOk(s.tickets, i, s.tail);
        if s'.tickets[i] == s.tickets[i] {
          StillPassing(t, s, s', i);
        }
      }
    }
  }

  lemma InvEnqueue(s: State, count: nat)
    requires Inv(s)
    ensures Inv(s.(tail := s.tail + count))
  {
    var s' := s.(tail := s.tail + count);
    forall m | 0 <= m < |s.tickets|
      ensures PassOk(s'.tickets, m, s'.tail)
    {
      assert PassOk(s.tickets, m, s.tail);
    }
    forall u | u in s'.pcs
      ensures ThreadOk(u, s'.pcs[u], s')
    {
      assert ThreadOk(u, s.pcs[u], s);
    }
  }

  /** Loads, and the return of a call. */
  lemma InvMove(s: State, t: Tid, pc: PC)
    requires Inv(s) && t in s.pcs && ThreadOk(t, pc, s)
    requires s.pcs[t].Idle? || s.pcs[t].LoadTail? || s.pcs[t].LoadOvercommit? || s.pcs[t].LoadOptimistic? || s.pcs[t].Read?
    ensures Inv(Move(s, t, pc))
  {
    forall i | 0 <= i < |s.tickets| && s.tickets[i].t == t
      ensures TicketOk(s.tickets[i], i, s.pcs[t := pc])
    {
      assert TicketOk(s.tickets[i], i, s.pcs);
    }
    Update(t, s, Move(s, t, pc));
  }

  lemma InvAddOptimistic(s: State, t: Tid)
    requires Inv(s) && t in s.pcs && s.pcs[t].AddOptimistic?
    ensures Inv(RunStep(s, t))
  {
    var s', d := RunStep(s, t), s.pcs[t].desired;
    assert ThreadOk(t, s.pcs[t], s);
    NumAppend(s.tickets, Batch(t, d, Undecided), {Claimed});
    NumAppend(s.tickets, Batch(t, d, Undecided), {Returned});
    NumBatch(t, d, Undecided, {Claimed});
    NumBatch(t, d, Undecided, {Returned});
    assert s'.tickets[..|s.tickets|] == s.tickets;
    // every returned ticket is a failing one, and all of them are below the new tickets
    NumMonoFates(s.tickets, {Returned}, FAILING);
    forall i | 0 <= i < |s.tickets| && s.tickets[i].t == t
      ensures TicketOk(s'.tickets[i], i, s'.pcs)
    {
      assert TicketOk(s.tickets[i], i, s.pcs);
    }
    Update(t, s, s');
  }

  lemma {:induction false} NumMonoFates(ts: seq<Ticket>, a: set<Fate>, b: set<Fate>)
    requires a <= b
    ensures Num(ts, a) <= Num(ts, b)
  {
    if ts != [] {
      NumMonoFates(ts[..|ts| - 1], a, b);
    }
  }

  /** The tickets of a prefix are among those of a longer one. */
  lemma NumPrefix(ts: seq<Ticket>, k: nat, m: nat, fates: set<Fate>)
    requires k <= m <= |ts|
    ensures Num(ts[..k], fates) <= Num(ts[..m], fates)
  {
    assert ts[..m] == ts[..k] + ts[k..m];
    NumAppend(ts[..k], ts[k..m], fates);
  }

  /** After a step of t, its tickets are still where its new position says. */
  lemma OwnTickets(s: State, s': State, t: Tid)
    requires Inv(s) && t in s.pcs && (s.pcs[t].ReloadTail? || s.pcs[t].AddOvercommit? || s.pcs[t].AddHead?)
    requires s' == RunStep(s, t) && |s'.tickets| == |s.tickets|
    ensures forall i :: 0 <= i < |s'.tickets| && s.tickets[i].t == t ==> TicketOk(s'.tickets[i], i, s'.pcs)
  {
    forall i | 0 <= i < |s'.tickets| && s.tickets[i].t == t
      ensures TicketOk(s'.tickets[i], i, s'.pcs)
    {
      assert TicketOk(s.tickets[i], i, s.pcs);
    }
  }

  lemma OnlyOwnTickets(s: State, s': State, t: Tid)
    requires t in s.pcs && ThreadOk(t, s.pcs[t], s) && s' == RunStep(s, t)
    requires s.pcs[t].ReloadTail? || s.pcs[t].AddOvercommit? || s.pcs[t].AddHead?
    ensures Evolves(t, s, s') && |s'.tickets| == |s.tickets|
  {
  }

  /** The tickets of t that pass are covered by the tail it has seen. */
  lemma CoveredByTail(s: State, t: Tid, ts': seq<Ticket>, actual: nat, m: nat)
    requires t in s.pcs && s.pcs[t].ReloadTail? && ThreadOk(t, s.pcs[t], s)
    requires s.pcs[t].mine <= m < s.pcs[t].mine + actual <= |s.tickets| == |ts'|
    requires actual <= s.tail - (s.pcs[t].mine - s.pcs[t].overcommit)
    requires forall i :: 0 <= i < s.pcs[t].mine ==> ts'[i] == s.tickets[i]
    ensures PassOk(ts', m, s.tail)
  {
    NumMono(s.tickets, ts', s.pcs[t].mine, FAILING);
    NumPrefix(ts', s.pcs[t].mine, m, FAILING);
  }

  /** Deciding does not touch the counts of what is done. */
  lemma DecidingCounts(ts: seq<Ticket>, lo: nat, actual: nat, back: nat, t: Tid, fates: set<Fate>)
    requires Owned(ts, lo, actual + back, t, Undecided) && fates !! {Undecided, Passed, Failed}
    ensures Num(Split(ts, lo, actual, back, t), fates) == Num(ts, fates)
  {
    NumDecide(ts, lo, actual, t, Undecided, Passed, fates);
    NumDecide(Decide(ts, lo, actual, t, Passed), lo + actual, back, t, Undecided, Failed, fates);
  }

  /** The state after a consumer saw `actual` elements for its tickets. */
  lemma ReloadPass(s: State, t: Tid, s': State, actual: nat)
    requires Inv(s) && t in s.pcs && s.pcs[t].ReloadTail? && s' == RunStep(s, t)
    requires var available := s.tail - (s.pcs[t].mine - s.pcs[t].overcommit);
             available > 0 && actual == Min(s.pcs[t].desired, available)
    ensures s'.tickets == Split(s.tickets, s.pcs[t].mine, actual, s.pcs[t].desired - actual, t)
    ensures CountsOk(s') && ThreadOk(t, s'.pcs[t], s') && Evolves(t, s, s')
  {
    hide Num, Decide, Split, TicketOk, PassOk;
    assert ThreadOk(t, s.pcs[t], s);
    DecidingCounts(s.tickets, s.pcs[t].mine, actual, s.pcs[t].desired - actual, t, {Claimed});
    DecidingCounts(s.tickets, s.pcs[t].mine, actual, s.pcs[t].desired - actual, t, {Returned});
    OnlyOwnTickets(s, s', t);
  }

  lemma InvReloadPass(s: State, t: Tid, actual: nat)
    requires Inv(s) && t in s.pcs && s.pcs[t].ReloadTail?
    requires var available := s.tail - (s.pcs[t].mine - s.pcs[t].overcommit);
             available > 0 && actual == Min(s.pcs[t].desired, available)
    ensures Inv(RunStep(s, t))
  {
    assert ThreadOk(t, s.pcs[t], s);
    var s' := RunStep(s, t);
    ReloadPass(s, t, s', actual);
    OwnTickets(s, s', t);
    forall m | 0 <= m < |s.tickets| && s'.tickets[m] != s.tickets[m]
      ensures PassOk(s'.tickets, m, s.tail)
    {
      if m < s.pcs[t].mine + actual {
        CoveredByTail(s, t, s'.tickets, actual, m);
      }
    }
    Update(t, s, s');
  }

  lemma InvReloadFail(s: State, t: Tid)
    requires Inv(s) && t in s.pcs && s.pcs[t].ReloadTail?
    requires s.tail - (s.pcs[t].mine - s.pcs[t].overcommit) <= 0
    ensures Inv(RunStep(s, t))
  {
    assert ThreadOk(t, s.pcs[t], s);
    var s', desired, mine := RunStep(s, t), s.pcs[t].desired, s.pcs[t].mine;
    NumDecide(s.tickets, mine, desired, t, Undecided, Failed, {Claimed});
    NumDecide(s.tickets, mine, desired, t, Undecided, Failed, {Returned});
    OnlyOwnTickets(s, s', t);
    OwnTickets(s, s', t);
    Update(t, s, s');
  }

  lemma InvAddOvercommit(s: State, t: Tid)
    requires Inv(s) && t in s.pcs && s.pcs[t].AddOvercommit?
    ensures Inv(RunStep(s, t))
  {
    hide Num, Decide, TicketOk;
    assert ThreadOk(t, s.pcs[t], s);
    var s', back, at := RunStep(s, t), s.pcs[t].back, s.pcs[t].mine + s.pcs[t].actual;
    NumDecide(s.tickets, at, back, t, Failed, Returned, {Claimed});
    NumDecide(s.tickets, at, back, t, Failed, Returned, {Returned});
    OnlyOwnTickets(s, s', t);
    OwnTickets(s, s', t);
    Update(t, s, s');
  }

  /** The indices claimed are below the tail. */
  lemma HeadBelowTail(s: State, t: Tid)
    requires Inv(s) && t in s.pcs && s.pcs[t].AddHead?
    ensures s.head + s.pcs[t].actual <= s.tail
  {
    assert ThreadOk(t, s.pcs[t], s);
    var actual, mine := s.pcs[t].actual, s.pcs[t].mine;
    NumDecide(s.tickets, mine, actual, t, Passed, Claimed, {Passed});
    NumDisjoint(s.tickets, {Passed}, {Claimed});
    assert {Passed} + {Claimed} == PASSING;
    PassesBounded(s.tickets, s.tail, |s.tickets|);
    assert s.tickets[..|s.tickets|] == s.tickets;
  }

  lemma HeadAtMostTail(s: State)
    requires Inv(s)
    ensures s.head <= s.tail
  {
    NumMonoFates(s.tickets, {Claimed}, PASSING);
    PassesBounded(s.tickets, s.tail, |s.tickets|);
    assert s.tickets[..|s.tickets|] == s.tickets;
  }

  lemma InvAddHead(s: State, t: Tid)
    requires Inv(s) && t in s.pcs && s.pcs[t].AddHead?
    ensures Inv(RunStep(s, t))
  {
    assert ThreadOk(t, s.pcs[t], s);
    var s', actual, mine := RunStep(s, t), s.pcs[t].actual, s.pcs[t].mine;
    NumDecide(s.tickets, mine, actual, t, Passed, Claimed, {Claimed});
    NumDecide(s.tickets, mine, actual, t, Passed, Claimed, {Returned});
    OnlyOwnTickets(s, s', t);
    OwnTickets(s, s', t);
    forall m | mine <= m < mine + actual
      ensures PassOk(s'.tickets, m, s'.tail)
    {
      assert PassOk(s.tickets, m, s.tail);
      StillPassing(t, s, s', m);
    }
    Update(t, s, s');
  }

  lemma InvStep(s: State, a: Action)
    requires Inv(s) && Enabled(s, a)
    ensures Inv(Apply(s, a))
  {
    match a
    case Enqueue(count) => InvEnqueue(s, count);
    case Begin(t, max) => InvMove(s, t, LoadTail(max));
    case Run(t) =>
      assert ThreadOk(t, s.pcs[t], s);
      if s.pcs[t].AddOptimistic? {
        InvAddOptimistic(s, t);
      } else if s.pcs[t].ReloadTail? {
        var available := s.tail - (s.pcs[t].mine - s.pcs[t].overcommit);
        if available > 0 {
          InvReloadPass(s, t, Min(s.pcs[t].desired, available));
        } else {
          InvReloadFail(s, t);
        }
      } else if s.pcs[t].AddOvercommit? {
        InvAddOvercommit(s, t);
      } else if s.pcs[t].AddHead? {
        InvAddHead(s, t);
      } else {
        InvMove(s, t, RunStep(s, t).pcs[t]);
      }
  }

  // ---------------------------------------------------------------- the theorems

  lemma {:induction false} InvExec(s: State, actions: seq<Action>)
    requires Inv(s) && CanRun(s, actions)
    ensures Inv(Exec(s, actions))
    decreases |actions|
  {
    if actions != [] {
      InvStep(s, actions[0]);
      InvExec(Apply(s, actions[0]), actions[1..]);
    }
  }

  /** In every run, the indices that a consumer claims are below the tail at that moment. */
  lemma IndicesBelowTail(s: State, actions: seq<Action>, t: Tid)
    requires Init(s) && CanRun(s, actions)
    requires var e := Exec(s, actions); t in e.pcs && e.pcs[t].AddHead?
    ensures var e := Exec(s, actions); e.head + e.pcs[t].actual <= e.tail
  {
    InvExec(s, actions);
    HeadBelowTail(Exec(s, actions), t);
  }

  /** No two consumers have claimed one index. */
  lemma IndicesDistinct(s: State, actions: seq<Action>, t: Tid, u: Tid, index: nat)
    requires Init(s) && CanRun(s, actions)
    requires var e := Exec(s, actions);
             && t in e.pcs && e.pcs[t].Read? && e.pcs[t].first <= index < e.pcs[t].first + e.pcs[t].actual
             && u in e.pcs && e.pcs[u].Read? && e.pcs[u].first <= index < e.pcs[u].first + e.pcs[u].actual
    ensures t == u && index < Exec(s, actions).head
  {
    InvExec(s, actions);
    var e := Exec(s, actions);
    assert ThreadOk(t, e.pcs[t], e) && ThreadOk(u, e.pcs[u], e);
    assert e.takers[index] == t && e.takers[index] == u;
  }

  lemma {:induction false} TakersGrow(s: State, actions: seq<Action>)
    requires CanRun(s, actions)
    ensures s.takers <= Exec(s, actions).takers
    decreases |actions|
  {
    if actions != [] {
      TakersGrow(Apply(s, actions[0]), actions[1..]);
    }
  }

  /** An index that a consumer has claimed stays below the head for good, and claims are made from the head
      on: nobody claims it again. */
  lemma ClaimedForGood(s: State, before: seq<Action>, after: seq<Action>, t: Tid, u: Tid, index: nat)
    requires Init(s) && CanRun(s, before) && CanRun(Exec(s, before), after)
    requires var e := Exec(s, before);
             t in e.pcs && e.pcs[t].Read? && e.pcs[t].first <= index < e.pcs[t].first + e.pcs[t].actual
    ensures var e := Exec(Exec(s, before), after);
            && index < e.head && index < |e.takers| && e.takers[index] == t
            && (u in e.pcs && e.pcs[u].Read? && e.pcs[u].first <= index < e.pcs[u].first + e.pcs[u].actual ==> u == t)
            && (u in e.pcs && e.pcs[u].AddHead? ==> index < RunStep(e, u).pcs[u].first)
  {
    InvExec(s, before);
    InvExec(Exec(s, before), after);
    TakersGrow(Exec(s, before), after);
    var e1, e2 := Exec(s, before), Exec(Exec(s, before), after);
    assert ThreadOk(t, e1.pcs[t], e1);
    if u in e2.pcs {
      assert ThreadOk(u, e2.pcs[u], e2);
    }
  }

  /** With no dequeue running, the effective count is the head, and at most the tail. */
  lemma EffectiveCount(s: State, actions: seq<Action>)
    requires Init(s) && CanRun(s, actions)
    requires forall t :: t in Exec(s, actions).pcs ==> Exec(s, actions).pcs[t].Idle?
    ensures var e := Exec(s, actions);
            e.optimistic == e.head + e.overcommit && e.head <= e.tail
  {
    InvExec(s, actions);
    var e := Exec(s, actions);
    assert forall t :: t in e.pcs ==> e.pcs[t].Idle?;
    forall i | 0 <= i < |e.tickets|
      ensures e.tickets[i].fate.Claimed? || e.tickets[i].fate.Returned?
    {
      assert TicketOk(e.tickets[i], i, e.pcs);
    }
    NumAll(e.tickets, {Claimed} + {Returned});
    NumDisjoint(e.tickets, {Claimed}, {Returned});
    HeadAtMostTail(e);
  }

  lemma {:induction false} NumAll(ts: seq<Ticket>, fates: set<Fate>)
    requires forall i :: 0 <= i < |ts| ==> ts[i].fate in fates
    ensures Num(ts, fates) == |ts|
  {
    if ts != [] {
      NumAll(ts[..|ts| - 1], fates);
    }
  }

  // ---------------------------------------------------------------- a dequeue comes back with what there is

  /** Consumer t begins a call and runs alone for n accesses. */
  function Alone(t: Tid, max: nat, n: nat): seq<Action> {
    if n == 0 then [Begin(t, max)] else Alone(t, max, n - 1) + [Run(t)]
  }

  lemma {:induction false} ExecAppend(s: State, a: seq<Action>, x: Action)
    requires CanRun(s, a) && Enabled(Exec(s, a), x)
    ensures CanRun(s, a + [x]) && Exec(s, a + [x]) == Apply(Exec(s, a), x)
    decreases |a|
  {
    if a == [] {
      assert a + [x] == [x] && [x][1..] == [];
    } else {
      assert (a + [x])[1..] == a[1..] + [x];
      ExecAppend(Apply(s, a[0]), a[1..], x);
    }
  }

  lemma AloneBegins(s: State, t: Tid, max: nat)
    requires t in s.pcs && s.pcs[t].Idle?
    ensures CanRun(s, Alone(t, max, 0)) && Exec(s, Alone(t, max, 0)) == Move(s, t, LoadTail(max))
  {
    ExecAppend(s, [], Begin(t, max));
  }

  lemma AloneStep(s: State, t: Tid, max: nat, n: nat)
    requires CanRun(s, Alone(t, max, n)) && Enabled(Exec(s, Alone(t, max, n)), Run(t))
    ensures CanRun(s, Alone(t, max, n + 1)) && Exec(s, Alone(t, max, n + 1)) == RunStep(Exec(s, Alone(t, max, n)), t)
  {
    ExecAppend(s, Alone(t, max, n), Run(t));
  }

  /** The three loads of a call. */
  lemma AloneLoads(s: State, t: Tid, max: nat)
    requires t in s.pcs && s.pcs[t].Idle?
    ensures CanRun(s, Alone(t, max, 0)) && CanRun(s, Alone(t, max, 1)) && CanRun(s, Alone(t, max, 2))
    ensures Exec(s, Alone(t, max, 0)) == Move(s, t, LoadTail(max))
    ensures Exec(s, Alone(t, max, 1)) == Move(s, t, LoadOvercommit(max, s.tail))
    ensures Exec(s, Alone(t, max, 2)) == Move(s, t, LoadOptimistic(max, s.tail, s.overcommit))
  {
    hide Exec, Alone, CanRun;
    AloneBegins(s, t, max);
    AloneStep(s, t, max, 0);
    AloneStep(s, t, max, 1);
  }

  /** With no other call running, a call claims all there is, up to the number asked for; it comes back with
      nothing exactly when there is nothing. */
  lemma LoneDequeue(s: State, actions: seq<Action>, t: Tid, max: nat)
    requires Init(s) && CanRun(s, actions) && max > 0
    requires forall u :: u in Exec(s, actions).pcs ==> Exec(s, actions).pcs[u].Idle?
    requires t in Exec(s, actions).pcs
    ensures var e := Exec(s, actions);
      if e.head < e.tail then
        && CanRun(e, Alone(t, max, 6))
        && t in Exec(e, Alone(t, max, 6)).pcs && Exec(e, Alone(t, max, 6)).pcs[t] == Read(e.head, Min(max, e.tail - e.head))
        && Exec(e, Alone(t, max, 6)).head == e.head + Min(max, e.tail - e.head)
      else
        && e.head == e.tail && CanRun(e, Alone(t, max, 3))
        && Exec(e, Alone(t, max, 3)) == e
  {
    hide Inv, CanRun, Init;
    EffectiveCount(s, actions);
    var e := Exec(s, actions);
    if e.head < e.tail {
      LoneClaim(e, t, max);
    } else {
      LoneReturn(e, t, max);
    }
  }

  lemma LoneReturn(e: State, t: Tid, max: nat)
    requires t in e.pcs && e.pcs[t].Idle? && e.optimistic == e.head + e.overcommit && e.head == e.tail
    ensures CanRun(e, Alone(t, max, 3)) && Exec(e, Alone(t, max, 3)) == e
  {
    hide Exec, CanRun, Alone;
    AloneLoads(e, t, max);
    AloneStep(e, t, max, 2);
    assert e.pcs[t := Idle] == e.pcs;
  }

  lemma LoneClaim(e: State, t: Tid, max: nat)
    requires t in e.pcs && e.pcs[t].Idle? && e.optimistic == e.head + e.overcommit && e.head < e.tail && max > 0
    ensures CanRun(e, Alone(t, max, 6))
    ensures var e', n := Exec(e, Alone(t, max, 6)), Min(max, e.tail - e.head);
      t in e'.pcs && e'.pcs[t] == Read(e.head, n) && e'.head == e.head + n
  {
    hide Exec, CanRun, Alone, Split, Decide, Batch;
    AloneLoads(e, t, max);
    AloneStep(e, t, max, 2);
    AloneStep(e, t, max, 3);
    AloneStep(e, t, max, 4);
    AloneStep(e, t, max, 5);
  }

  /** A ticket of another consumer than t that was outstanding at some moment from an earlier state on: it is not
      claimed, nor was it given back before. */
  predicate Since(before: seq<Ticket>, now: seq<Ticket>, t: Tid, i: nat)
    requires i < |now|
  {
    now[i].t != t && !now[i].fate.Claimed? && !(now[i].fate.Returned? && i < |before| && before[i].fate.Returned?)
  }

  /** How many of the first m tickets are such. */
  function Outstanding(before: seq<Ticket>, now: seq<Ticket>, t: Tid, m: nat): nat
    requires m <= |now|
  {
    if m == 0 then 0 else Outstanding(before, now, t, m - 1) + if Since(before, now, t, m - 1) then 1 else 0
  }

  lemma {:induction false} OutstandingMore(before: seq<Ticket>, now: seq<Ticket>, t: Tid, k: nat, m: nat)
    requires k <= m <= |now|
    ensures Outstanding(before, now, t, k) <= Outstanding(before, now, t, m)
    decreases m
  {
    if k < m {
      OutstandingMore(before, now, t, k, m - 1);
    }
  }

  /** Consumer t has no ticket that is not sealed, nor one that it gave back since. */
  predicate Sealed(before: seq<Ticket>, now: seq<Ticket>, t: Tid, m: nat)
    requires m <= |now|
  {
    forall i :: 0 <= i < m && now[i].t == t ==> now[i].fate.Claimed? || (i < |before| && before[i].fate.Returned?)
  }

  /** Every ticket is claimed, was given back before, or is outstanding since. */
  lemma {:induction false} AllTickets(before: seq<Ticket>, now: seq<Ticket>, t: Tid, m: nat)
    requires m <= |now| && Sealed(before, now, t, m)
    ensures m <= Num(now[..m], {Claimed}) + Num(before[..Least(m, |before|)], {Returned}) + Outstanding(before, now, t, m)
    decreases m
  {
    if m > 0 {
      AllTickets(before, now, t, m - 1);
      assert now[..m][..m - 1] == now[..m - 1];
      if m <= |before| {
        assert before[..m][..m - 1] == before[..m - 1];
      }
    }
  }

  function Least(a: nat, b: nat): nat {
    if a < b then a else b
  }

  /** In one call since the load of the overcommit: what was loaded, and that nothing was given back by t. */
  predicate SameCall(s1: State, s2: State, t: Tid) {
    && t in s2.pcs && !s2.pcs[t].LoadTail? && !s2.pcs[t].LoadOvercommit?
    && (s2.pcs[t].LoadOptimistic? || s2.pcs[t].AddOptimistic? || s2.pcs[t].ReloadTail? ==>
          && s2.pcs[t].overcommit == s1.overcommit
          && forall i :: 0 <= i < |s2.tickets| && s2.tickets[i] == Ticket(t, Returned) ==>
               i < |s1.tickets| && s1.tickets[i].fate.Returned?)
  }

  predicate NoBegin(actions: seq<Action>, t: Tid) {
    forall k :: 0 <= k < |actions| && actions[k].Begin? ==> actions[k].t != t
  }

  /** Accesses of another consumer leave the tickets of t alone. */
  lemma TicketsOf(s: State, u: Tid, t: Tid)
    requires Inv(s) && u in s.pcs && u != t
    ensures var s' := RunStep(s, u);
      forall i :: 0 <= i < |s'.tickets| && s'.tickets[i].t == t ==> i < |s.tickets| && s'.tickets[i] == s.tickets[i]
  {
    hide Num, TicketOk, PassOk;
    assert ThreadOk(u, s.pcs[u], s);
  }

  lemma SameCallStep(s1: State, s2: State, t: Tid, a: Action)
    requires Inv(s2) && SameCall(s1, s2, t) && Enabled(s2, a) && (a.Begin? ==> a.t != t)
    ensures SameCall(s1, Apply(s2, a), t)
  {
    hide Inv;
    if a.Run? && a.t != t {
      TicketsOf(s2, a.t, t);
      hide Decide, Split, Batch;
    }
  }

  lemma {:induction false} SameCallRun(s1: State, s2: State, t: Tid, actions: seq<Action>)
    requires Inv(s2) && SameCall(s1, s2, t) && CanRun(s2, actions) && NoBegin(actions, t)
    ensures Inv(Exec(s2, actions)) && SameCall(s1, Exec(s2, actions), t)
    decreases |actions|
  {
    hide Inv, SameCall, Apply, Enabled;
    if actions != [] {
      InvStep(s2, actions[0]);
      SameCallStep(s1, s2, t, actions[0]);
      assert NoBegin(actions[1..], t);
      SameCallRun(s1, Apply(s2, actions[0]), t, actions[1..]);
    }
  }

  /** A decision of a call, and the number it is about: how many tickets to take, or how many indices. */
  predicate Decides(pc: PC) {
    pc.LoadOptimistic? || pc.ReloadTail?
  }

  function Asked(pc: PC): nat
    requires Decides(pc)
  {
    if pc.LoadOptimistic? then pc.max else pc.desired
  }

  function Granted(pc: PC): nat {
    match pc
    case AddOptimistic(desired, _) => desired
    case AddOvercommit(_, actual, _) => actual
    case AddHead(actual, _) => actual
    case _ => 0
  }

  /** The tail that the decision is made with. */
  function TailSeen(s: State, pc: PC): nat
    requires Decides(pc)
  {
    if pc.LoadOptimistic? then pc.tail else s.tail
  }

  /** What is below the tickets of a decision. */
  lemma TicketsBelow(s1: State, s2: State, t: Tid, m: nat)
    requires Inv(s1) && Inv(s2) && SameCall(s1, s2, t) && Decides(s2.pcs[t])
    requires m == if s2.pcs[t].LoadOptimistic? then |s2.tickets| else s2.pcs[t].mine
    ensures m <= |s2.tickets|
    ensures m <= s2.head + s1.overcommit + Outstanding(s1.tickets, s2.tickets, t, |s2.tickets|)
  {
    assert ThreadOk(t, s2.pcs[t], s2);
    forall i | 0 <= i < m && s2.tickets[i].t == t
      ensures s2.tickets[i].fate.Claimed? || (i < |s1.tickets| && s1.tickets[i].fate.Returned?)
    {
      assert TicketOk(s2.tickets[i], i, s2.pcs);
    }
    AllTickets(s1.tickets, s2.tickets, t, m);
    NumPrefix(s2.tickets, m, |s2.tickets|, {Claimed});
    var k := Least(m, |s1.tickets|);
    NumPrefix(s1.tickets, k, |s1.tickets|, {Returned});
    assert s1.tickets[..|s1.tickets|] == s1.tickets && s2.tickets[..|s2.tickets|] == s2.tickets;
    OutstandingMore(s1.tickets, s2.tickets, t, m, |s2.tickets|);
  }

  /** In every run: when a call decides for less than it asked for, also for nothing, then the tail it saw is not
      past the head, the number decided for, and the tickets of other consumers that were outstanding since it
      loaded the overcommit. */
  lemma ShortMeansTaken(s: State, before: seq<Action>, since: seq<Action>, t: Tid)
    requires Init(s) && CanRun(s, before)
    requires var s1 := Exec(s, before); t in s1.pcs && s1.pcs[t].LoadOvercommit?
    requires var s1 := Exec(s, before); CanRun(RunStep(s1, t), since) && NoBegin(since, t)
    requires var s2 := Exec(RunStep(Exec(s, before), t), since); t in s2.pcs && Decides(s2.pcs[t])
    ensures var s1 := Exec(s, before);
      var s2 := Exec(RunStep(s1, t), since);
      var n := Granted(RunStep(s2, t).pcs[t]);
      && n <= Asked(s2.pcs[t])
      && (n < Asked(s2.pcs[t]) ==>
            TailSeen(s2, s2.pcs[t]) <= s2.head + n + Outstanding(s1.tickets, s2.tickets, t, |s2.tickets|))
  {
    hide Exec, CanRun, Init, Inv, Num, SameCall;
    InvAlways(s, before);
    var s1 := Exec(s, before);
    InvStep(s1, Run(t));
    CallStarts(s1, t);
    SameCallRun(s1, RunStep(s1, t), t, since);
    var s2 := Exec(RunStep(s1, t), since);
    DecidedShort(s1, s2, t);
  }

  lemma InvAlways(s: State, actions: seq<Action>)
    requires Init(s) && CanRun(s, actions)
    ensures Inv(Exec(s, actions))
  {
    InvExec(s, actions);
  }

  lemma CallStarts(s1: State, t: Tid)
    requires t in s1.pcs && s1.pcs[t].LoadOvercommit?
    ensures SameCall(s1, RunStep(s1, t), t)
  {
  }

  lemma DecidedShort(s1: State, s2: State, t: Tid)
    requires Inv(s1) && Inv(s2) && SameCall(s1, s2, t) && Decides(s2.pcs[t])
    ensures var n := Granted(RunStep(s2, t).pcs[t]);
      && n <= Asked(s2.pcs[t])
      && (n < Asked(s2.pcs[t]) ==>
            TailSeen(s2, s2.pcs[t]) <= s2.head + n + Outstanding(s1.tickets, s2.tickets, t, |s2.tickets|))
  {
    hide Outstanding, Split, Decide;
    TicketsBelow(s1, s2, t, if s2.pcs[t].LoadOptimistic? then |s2.tickets| else s2.pcs[t].mine);
    Counts(s2);
  }

  lemma Counts(s: State)
    requires Inv(s)
    ensures |s.tickets| == s.optimistic
  {
  }

  function AccessesLeft(pc: PC): nat {
    match pc
    case Idle => 0
    case LoadTail(_) => 8
    case LoadOvercommit(_, _) => 7
    case LoadOptimistic(_, _, _) => 6
    case AddOptimistic(_, _) => 5
    case ReloadTail(_, _, _) => 4
    case AddOvercommit(_, _, _) => 3
    case AddHead(_, _) => 2
    case Read(_, _) => 1
  }

  /** A call makes at most eight accesses here, whatever the others do. */
  lemma CallEnds(s: State, t: Tid, u: Tid)
    requires t in s.pcs && u in s.pcs && !s.pcs[t].Idle?
    ensures AccessesLeft(RunStep(s, t).pcs[t]) < AccessesLeft(s.pcs[t])
    ensures u != t ==> u in RunStep(s, t).pcs && RunStep(s, t).pcs[u] == s.pcs[u]
  {
    hide Split, Decide, Batch;
  }
}
