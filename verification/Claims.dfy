/**
 What consumers hold of the indices they claimed (Common/concurrentqueue.h): module DequeueCounters tells who
 claimed an index, and the values taken are kept in a list.  Both kinds of producers have this in common.
 */
module Claims {
  import opened Blocks
  import C = DequeueCounters

  type Tid = C.Tid

  datatype Taken = Taken(index: nat, value: Value)

  /** Where the elements of one block end that are taken from index `from` on. */
  function End(from: nat, lim: nat): nat {
    if lim < from / 32 * 32 + 32 then lim else from / 32 * 32 + 32
  }

  lemma NextBlockNumber(from: nat, lim: nat)
    requires from <= lim
    ensures End(from, lim) < lim ==> End(from, lim) / 32 == from / 32 + 1
  {
  }

  predicate Reading(c: C.State, t: Tid) {
    t in c.pcs && c.pcs[t].Read?
  }

  ghost predicate WasTaken(taken: seq<Taken>, i: nat) {
    exists k :: 0 <= k < |taken| && taken[k].index == i
  }

  /** Each index is taken once, and with its value. */
  ghost predicate TakenOk(taken: seq<Taken>, log: seq<Value>) {
    && (forall k :: 0 <= k < |taken| ==> taken[k].index < |log| && taken[k].value == log[taken[k].index])
    && (forall j, k :: 0 <= j < k < |taken| ==> taken[j].index != taken[k].index)
  }

  lemma TakenMore(taken: seq<Taken>, x: Taken, log: seq<Value>)
    requires TakenOk(taken, log) && !WasTaken(taken, x.index) && x.index < |log| && x.value == log[x.index]
    ensures TakenOk(taken + [x], log)
    ensures forall i: nat :: WasTaken(taken + [x], i) <==> WasTaken(taken, i) || i == x.index
  {
    forall i: nat
      ensures WasTaken(taken + [x], i) <==> WasTaken(taken, i) || i == x.index
    {
      if WasTaken(taken, i) {
        var k :| 0 <= k < |taken| && taken[k].index == i;
        assert (taken + [x])[k].index == i;
      }
      assert (taken + [x])[|taken|] == x;
    }
  }

  /** The consumer that claimed index i is not through with its claim. */
  predicate InHands(c: C.State, i: nat) {
    i < |c.takers| && Reading(c, c.takers[i]) && c.pcs[c.takers[i]].first <= i < c.pcs[c.takers[i]].first + c.pcs[c.takers[i]].actual
  }

  /** An index is through exactly when it was claimed and its consumer has let go of it. */
  ghost predicate ThroughOk(c: C.State, taken: seq<Taken>, done: set<nat>) {
    && (forall i: nat :: i < c.head && !InHands(c, i) ==> WasTaken(taken, i) && i in done)
    && (forall i: nat :: i >= c.head ==> !WasTaken(taken, i) && i !in done)
  }

  predicate Apart(first: nat, lim: nat, first': nat, lim': nat) {
    lim <= first || lim' <= first' || lim <= first' || lim' <= first
  }

  lemma TakerIs(c: C.State, t: Tid, i: nat)
    requires C.Inv(c) && Reading(c, t) && c.pcs[t].first <= i < c.pcs[t].first + c.pcs[t].actual
    ensures i < |c.takers| && c.takers[i] == t
  {
    assert C.ThreadOk(t, c.pcs[t], c);
  }

  /** The claims of different consumers are apart. */
  lemma ClaimsApart(c: C.State, t: Tid, u: Tid)
    requires C.Inv(c) && Reading(c, t) && Reading(c, u) && t != u
    ensures Apart(c.pcs[t].first, c.pcs[t].first + c.pcs[t].actual, c.pcs[u].first, c.pcs[u].first + c.pcs[u].actual)
  {
    hide C.Inv;
    var i := if c.pcs[t].first < c.pcs[u].first then c.pcs[u].first else c.pcs[t].first;
    if !Apart(c.pcs[t].first, c.pcs[t].first + c.pcs[t].actual, c.pcs[u].first, c.pcs[u].first + c.pcs[u].actual) {
      TakerIs(c, t, i);
      TakerIs(c, u, i);
    }
  }

  lemma OwnClaim(c: C.State, t: Tid)
    requires C.Inv(c) && Reading(c, t)
    ensures var lim := c.pcs[t].first + c.pcs[t].actual; lim <= c.head && lim <= c.tail
    ensures forall i: nat :: c.pcs[t].first <= i < c.pcs[t].first + c.pcs[t].actual ==> InHands(c, i)
  {
    hide C.TicketOk, C.PassOk;
    assert C.ThreadOk(t, c.pcs[t], c);
    C.HeadAtMostTail(c);
  }

  lemma ClaimIs(c: C.State, t: Tid)
    requires C.Inv(c) && t in c.pcs && c.pcs[t].AddHead?
    ensures var c' := C.RunStep(c, t);
      && c'.tail == c.tail && c'.head == c.head + c.pcs[t].actual && |c.takers| == c.head && |c'.takers| == c'.head
      && c'.pcs == c.pcs[t := C.Read(c.head, c.pcs[t].actual)] && c.takers <= c'.takers
      && forall i :: c.head <= i < c'.head ==> c'.takers[i] == t
  {
    hide C.ThreadOk, C.TicketOk, C.PassOk, C.Decide;
  }

  lemma ReturnIs(c: C.State, t: Tid)
    requires Reading(c, t)
    ensures C.RunStep(c, t) == C.Move(c, t, C.Idle)
    ensures C.Move(c, t, C.Idle) == c.(pcs := c.pcs[t := C.Idle])
  {
  }

  /** How far an operation is from its end: what is still to be done, a stage, and the accesses of the
      stage. */
  datatype Rank = Rank(need: nat, stage: nat, left: int)

  predicate Nearer(r: Rank, r': Rank) {
    r.need < r'.need || (r.need == r'.need && (r.stage < r'.stage || (r.stage == r'.stage && 0 <= r.left < r'.left)))
  }
}
