/**
 The phase barrier of the benchmark library
 (ThreadPool/threadpool_test/google-benchmark/src/mutex.h): a condition-variable barrier whose
 membership shrinks while threads wait.

 What happens between taking the lock and giving it up, or waiting, is one step: entering, waking up and
 being removed.  A waiting thread may wake up whenever its condition holds; that it is notified in the
 end is not part of this model.
 */
module Barrier {
  import opened Sets

  /** The fields that the lock protects. */
  datatype Shared = Shared(running: int, phase: int, entered: int)

  /** What a step comes to for its thread: `wait` returns, or the thread waits for the phase to end. */
  datatype Outcome = Returned(last: bool) | Waits(phase: int)

  function Complete(s: Shared): Shared {
    s.(phase := s.phase + 1, entered := 0)
  }

  /** createBarrier up to the wait. */
  function EnterStep(s: Shared): (Shared, Outcome) {
    var s' := s.(entered := s.entered + 1);
    if s'.entered < s'.running then (s', Waits(s'.phase)) else (Complete(s'), Returned(true))
  }

  /** The condition of the wait, for a thread that waits for this phase to end. */
  predicate MayWake(s: Shared, phase: int) {
    s.phase > phase || s.entered == s.running
  }

  /** createBarrier from the wait on. */
  function WakeStep(s: Shared, phase: int): (Shared, Outcome) {
    if s.phase > phase then (s, Returned(false)) else (Complete(s), Returned(true))
  }

  function RemoveStep(s: Shared): Shared {
    s.(running := s.running - 1)
  }

  /** The object itself: each method is what one thread does while it holds the lock. */
  class BarrierObject {
    var running: int
    var phase: int
    var entered: int

    ghost function State(): Shared
      reads this
    {
      Shared(running, phase, entered)
    }

    constructor (threads: int)
      ensures State() == Shared(threads, 0, 0)
    {
      running, phase, entered := threads, 0, 0;
    }

    method Enter() returns (outcome: Outcome)
      requires entered < running
      modifies this
      ensures (State(), outcome) == EnterStep(old(State()))
    {
      entered := entered + 1;
      if entered < running {
        return Waits(phase);
      }
      phase := phase + 1;
      entered := 0;
      outcome := Returned(true);
    }

    method Wake(phaseCopy: int) returns (outcome: Outcome)
      requires MayWake(State(), phaseCopy)
      modifies this
      ensures (State(), outcome) == WakeStep(old(State()), phaseCopy)
    {
      if phase > phaseCopy {
        return Returned(false);
      }
      phase := phase + 1;
      entered := 0;
      outcome := Returned(true);
    }

    method RemoveThread() returns (notify: bool)
      modifies this
      ensures State() == RemoveStep(old(State())) && (notify <==> entered != 0)
    {
      running := running - 1;
      notify := entered != 0;
    }
  }

  // ---------------------------------------------------------------- all threads together

  type ThreadId = nat

  /** Outside the barrier, waiting in it, or removed. */
  datatype Place = Outside | Inside(phase: int) | Gone

  /** The barrier, the threads, how often each of them called `wait`, and for each phase the threads that
      came back from it, with what they were told. */
  datatype State = State(shared: Shared, places: seq<Place>, calls: seq<nat>, told: seq<map<ThreadId, bool>>)

  datatype Action = Enter(t: ThreadId) | Wake(t: ThreadId) | Remove(t: ThreadId)

  function Initial(threads: nat): State {
    State(Shared(threads, 0, 0), seq(threads, _ => Outside), seq(threads, _ => 0), [])
  }

  /** A thread enters or is removed from outside the barrier, and wakes up inside it. */
  predicate Enabled(s: State, a: Action) {
    && a.t < |s.places| == |s.calls|
    && match a
       case Enter(t) => s.places[t] == Outside
       case Wake(t) => s.places[t].Inside? && MayWake(s.shared, s.places[t].phase)
       case Remove(t) => s.places[t] == Outside
  }

  /** Notes what the wait for phase k told the thread. */
  function Note(told: seq<map<ThreadId, bool>>, k: int, t: ThreadId, last: bool): seq<map<ThreadId, bool>> {
    if 0 <= k < |told| then
      var notes: map<ThreadId, bool> := told[k];
      told[k := notes[t := last]]
    else told + [map[t := last]]
  }

  function Next(s: State, a: Action): State
    requires Enabled(s, a)
  {
    match a
    case Enter(t) =>
      var (shared, outcome) := EnterStep(s.shared);
      var calls := s.calls[t := s.calls[t] + 1];
      (match outcome
       case Waits(phase) => State(shared, s.places[t := Inside(phase)], calls, s.told)
       case Returned(last) => State(shared, s.places[t := Outside], calls, Note(s.told, s.calls[t], t, last)))
    case Wake(t) =>
      var (shared, outcome) := WakeStep(s.shared, s.places[t].phase);
      State(shared, s.places[t := Outside], s.calls, Note(s.told, s.calls[t] as int - 1, t, outcome == Returned(true)))
    case Remove(t) =>
      State(RemoveStep(s.shared), s.places[t := Gone], s.calls, s.told)
  }

  predicate CanRun(s: State, actions: seq<Action>)
    decreases |actions|
  {
    actions == [] || (Enabled(s, actions[0]) && CanRun(Next(s, actions[0]), actions[1..]))
  }

  function Exec(s: State, actions: seq<Action>): State
    requires CanRun(s, actions)
    decreases |actions|
  {
    if actions == [] then s else Exec(Next(s, actions[0]), actions[1..])
  }

  // ---------------------------------------------------------------- the invariant

  ghost function Running(places: seq<Place>): set<ThreadId> {
    set t | 0 <= t < |places| && places[t] != Gone
  }

  /** The threads that wait for the current phase to end. */
  ghost function InPhase(places: seq<Place>, phase: int): set<ThreadId> {
    set t | 0 <= t < |places| && places[t] == Inside(phase)
  }

  /** How many phases a thread that is still counted has entered. */
  ghost predicate ThreadOk(s: State, t: ThreadId)
    requires t < |s.places| == |s.calls|
  {
    match s.places[t]
    case Outside => s.calls[t] == s.shared.phase
    case Inside(k) => k >= 0 && s.calls[t] == k + 1 && (k == s.shared.phase || k == s.shared.phase - 1)
    case Gone => s.calls[t] <= s.shared.phase
  }

  /** What was told about phase k: exactly one thread was told that it was the last, and told were exactly
      the threads that entered the phase and are not inside any more. */
  ghost predicate PhaseOk(s: State, k: nat)
    requires k < |s.told| && |s.places| == |s.calls|
  {
    && (exists t :: t in s.told[k] && s.told[k][t])
    && (forall t, u :: t in s.told[k] && s.told[k][t] && u in s.told[k] && s.told[k][u] ==> t == u)
    && (forall t: ThreadId :: t in s.told[k] <==> t < |s.calls| && s.calls[t] > k && s.places[t] != Inside(k))
  }

  ghost predicate Inv(s: State) {
    && |s.places| == |s.calls|
    && s.shared.running == |Running(s.places)|
    && s.shared.entered == |InPhase(s.places, s.shared.phase)|
    && s.shared.phase == |s.told|
    && (forall t :: 0 <= t < |s.places| ==> ThreadOk(s, t))
    && (forall k :: 0 <= k < |s.told| ==> PhaseOk(s, k))
  }

  /** Threads that wait are counted. */
  lemma EnteredBound(s: State)
    requires Inv(s)
    ensures 0 <= s.shared.entered <= s.shared.running
    ensures s.shared.entered == s.shared.running ==> InPhase(s.places, s.shared.phase) == Running(s.places)
  {
    SubsetSize(InPhase(s.places, s.shared.phase), Running(s.places));
  }

  /** The check at the start of createBarrier never fails. */
  lemma EnterCheck(s: State, t: ThreadId)
    requires Inv(s) && Enabled(s, Enter(t))
    ensures s.shared.entered < s.shared.running
    ensures s.shared.entered + 1 == s.shared.running ==> InPhase(s.places, s.shared.phase) + {t} == Running(s.places)
  {
    SubsetSize(InPhase(s.places, s.shared.phase) + {t}, Running(s.places));
  }

  ghost function UpTo(n: nat): (threads: set<ThreadId>)
    ensures |threads| == n && forall t: nat :: t in threads <==> t < n
  {
    if n == 0 then {} else UpTo(n - 1) + {n - 1}
  }

  lemma InitialInv(threads: nat)
    ensures Inv(Initial(threads))
  {
    var s := Initial(threads);
    assert Running(s.places) == UpTo(threads);
    assert InPhase(s.places, 0) == {};
  }

  // ---------------------------------------------------------------- every step keeps it

  lemma MovedSets(places: seq<Place>, t: ThreadId, place: Place, phase: int)
    requires t < |places|
    ensures Running(places[t := place]) == if place == Gone then Running(places) - {t} else Running(places) + {t}
    ensures InPhase(places[t := place], phase) == if place == Inside(phase) then InPhase(places, phase) + {t} else InPhase(places, phase) - {t}
  {
  }

  lemma EnterInv(s: State, t: ThreadId)
    requires Inv(s) && Enabled(s, Enter(t)) && s.shared.entered + 1 < s.shared.running
    ensures Inv(Next(s, Enter(t)))
  {
    var s' := Next(s, Enter(t));
    MovedSets(s.places, t, Inside(s.shared.phase), s.shared.phase);
    assert Running(s.places) + {t} == Running(s.places);
    assert t !in InPhase(s.places, s.shared.phase);
    forall u | 0 <= u < |s'.places|
      ensures ThreadOk(s', u)
    {
      assert ThreadOk(s, u);
    }
    forall k | 0 <= k < |s'.told|
      ensures PhaseOk(s', k)
    {
      assert PhaseOk(s, k) && ThreadOk(s, t);
    }
  }

  /** The phase ends: all threads that are counted have entered it. */
  lemma CompleteInv(s: State, s': State, t: ThreadId)
    requires Inv(s) && t < |s.places| && (s.places[t] == Outside || s.places[t] == Inside(s.shared.phase))
    requires InPhase(s.places, s.shared.phase) + {t} == Running(s.places)
    requires s'.shared == s.shared.(phase := s.shared.phase + 1, entered := 0)
    requires s'.places == s.places[t := Outside] && s'.told == s.told + [map[t := true]]
    requires s'.calls == s.calls[t := s.shared.phase + 1]
    ensures Inv(s')
  {
    hide PhaseOk;
    var phase := s.shared.phase;
    MovedSets(s.places, t, Outside, phase);
    assert Running(s.places) + {t} == Running(s.places);
    forall u | 0 <= u < |s'.places|
      ensures ThreadOk(s', u) && s'.places[u] != Inside(phase + 1)
      ensures u != t && s.places[u] != Gone ==> s.places[u] == Inside(phase)
    {
      assert ThreadOk(s, u);
      assert u in Running(s.places) ==> u in InPhase(s.places, phase) + {t};
    }
    assert InPhase(s'.places, phase + 1) == {};
    forall k | 0 <= k < |s'.told|
      ensures PhaseOk(s', k)
    {
      if k < phase {
        assert PhaseOk(s, k) && ThreadOk(s, t);
        CompletePhase(s, s', t, k);
      } else {
        CompleteLast(s, s', t);
      }
    }
  }

  lemma CompletePhase(s: State, s': State, t: ThreadId, k: nat)
    requires |s.places| == |s.calls| && k < |s.told| == s.shared.phase && t < |s.places| && PhaseOk(s, k) && ThreadOk(s, t)
    requires s.places[t] != Gone && s.places[t] != Inside(k)
    requires s'.places == s.places[t := Outside] && s'.told == s.told + [map[t := true]]
    requires s'.calls == s.calls[t := s.shared.phase + 1]
    ensures PhaseOk(s', k)
  {
    assert s'.told[k] == s.told[k];
    var u :| u in s.told[k] && s.told[k][u];
    assert u in s'.told[k] && s'.told[k][u];
  }

  lemma CompleteLast(s: State, s': State, t: ThreadId)
    requires |s.places| == |s.calls| && |s.told| == s.shared.phase && t < |s.places|
    requires forall u :: 0 <= u < |s.places| ==> ThreadOk(s, u)
    requires forall u :: 0 <= u < |s.places| && u != t && s.places[u] != Gone ==> s.places[u] == Inside(s.shared.phase)
    requires s'.places == s.places[t := Outside] && s'.told == s.told + [map[t := true]]
    requires s'.calls == s.calls[t := s.shared.phase + 1]
    ensures PhaseOk(s', s.shared.phase)
  {
    var k := s.shared.phase;
    assert s'.told[k][t];
    forall u: ThreadId
      ensures u in s'.told[k] <==> u < |s'.calls| && s'.calls[u] > k && s'.places[u] != Inside(k)
    {
      if u < |s.places| {
        assert ThreadOk(s, u);
      }
    }
  }

  /** A thread comes back from a phase that another thread ended. */
  lemma LeaveInv(s: State, t: ThreadId)
    requires Inv(s) && Enabled(s, Wake(t)) && s.shared.phase > s.places[t].phase
    ensures Inv(Next(s, Wake(t)))
  {
    hide PhaseOk;
    var s' := Next(s, Wake(t));
    var phase := s.shared.phase;
    assert ThreadOk(s, t);
    LeaveThreads(s, t);
    MovedSets(s.places, t, Outside, phase);
    assert Running(s.places) + {t} == Running(s.places);
    assert InPhase(s.places, phase) - {t} == InPhase(s.places, phase);
    hide ThreadOk;
    forall j | 0 <= j < |s'.told|
      ensures PhaseOk(s', j)
    {
      assert PhaseOk(s, j);
      LeavePhase(s, t, j);
    }
  }

  lemma LeaveThreads(s: State, t: ThreadId)
    requires |s.places| == |s.calls| && s.shared.phase == |s.told| && Enabled(s, Wake(t)) && s.shared.phase > s.places[t].phase
    requires forall u :: 0 <= u < |s.places| ==> ThreadOk(s, u)
    ensures var s' := Next(s, Wake(t));
      && |s'.places| == |s'.calls| && |s'.told| == |s.told| && s'.shared == s.shared && s'.places == s.places[t := Outside]
      && forall u :: 0 <= u < |s'.places| ==> ThreadOk(s', u)
  {
    var s' := Next(s, Wake(t));
    assert ThreadOk(s, t);
    forall u | 0 <= u < |s'.places|
      ensures ThreadOk(s', u)
    {
      assert ThreadOk(s, u);
    }
  }

  lemma LeavePhase(s: State, t: ThreadId, j: nat)
    requires |s.places| == |s.calls| && Enabled(s, Wake(t)) && s.shared.phase > s.places[t].phase
    requires j < |s.told| == s.shared.phase && ThreadOk(s, t) && PhaseOk(s, j)
    ensures PhaseOk(Next(s, Wake(t)), j)
  {
    var s' := Next(s, Wake(t));
    var u :| u in s.told[j] && s.told[j][u];
    assert u != t || j != s.places[t].phase;
    assert u in s'.told[j] && s'.told[j][u];
  }

  lemma RemoveInv(s: State, t: ThreadId)
    requires Inv(s) && Enabled(s, Remove(t))
    ensures Inv(Next(s, Remove(t)))
  {
    var s' := Next(s, Remove(t));
    MovedSets(s.places, t, Gone, s.shared.phase);
    assert t in Running(s.places);
    assert InPhase(s.places, s.shared.phase) - {t} == InPhase(s.places, s.shared.phase);
    forall u | 0 <= u < |s'.places|
      ensures ThreadOk(s', u)
    {
      assert ThreadOk(s, u);
    }
    forall k | 0 <= k < |s'.told|
      ensures PhaseOk(s', k)
    {
      assert PhaseOk(s, k);
    }
  }

  lemma StepInv(s: State, a: Action)
    requires Inv(s) && Enabled(s, a)
    ensures Inv(Next(s, a))
  {
    if a.Enter? {
      EnterCheck(s, a.t);
      assert ThreadOk(s, a.t);
      if s.shared.entered + 1 < s.shared.running {
        EnterInv(s, a.t);
      } else {
        CompleteInv(s, Next(s, a), a.t);
      }
    } else if a.Wake? {
      assert ThreadOk(s, a.t);
      if s.shared.phase > s.places[a.t].phase {
        LeaveInv(s, a.t);
      } else {
        EnteredBound(s);
        assert a.t in Running(s.places);
        assert InPhase(s.places, s.shared.phase) + {a.t} == Running(s.places);
        CompleteInv(s, Next(s, a), a.t);
      }
    } else {
      RemoveInv(s, a.t);
    }
  }

  // ---------------------------------------------------------------- every run

  lemma {:induction false} ExecInv(s: State, actions: seq<Action>)
    requires Inv(s) && CanRun(s, actions)
    ensures Inv(Exec(s, actions))
    decreases |actions|
  {
    if actions != [] {
      StepInv(s, actions[0]);
      ExecInv(Next(s, actions[0]), actions[1..]);
    }
  }

  /** In every run, at most as many threads as are counted have entered, and a thread that enters finds
      fewer than that. */
  lemma EnteredAlways(threads: nat, actions: seq<Action>)
    requires CanRun(Initial(threads), actions)
    ensures var s := Exec(Initial(threads), actions);
      && 0 <= s.shared.entered <= s.shared.running == |Running(s.places)|
      && forall t :: Enabled(s, Enter(t)) ==> s.shared.entered < s.shared.running
  {
    InitialInv(threads);
    ExecInv(Initial(threads), actions);
    var s := Exec(Initial(threads), actions);
    EnteredBound(s);
    forall t | Enabled(s, Enter(t))
      ensures s.shared.entered < s.shared.running
    {
      EnterCheck(s, t);
    }
  }

  /** In every run, for every phase that ended exactly one thread is told that it was the last, and the
      threads that came back from it are exactly those that entered it and are not inside any more. */
  lemma OneLastThread(threads: nat, actions: seq<Action>, k: nat)
    requires CanRun(Initial(threads), actions) && k < Exec(Initial(threads), actions).shared.phase
    ensures var s := Exec(Initial(threads), actions);
      && k < |s.told| && |s.places| == |s.calls|
      && (exists t :: t in s.told[k] && s.told[k][t] && forall u :: u in s.told[k] && s.told[k][u] ==> u == t)
      && (forall t: ThreadId :: t in s.told[k] <==> t < |s.places| && s.calls[t] > k && s.places[t] != Inside(k))
  {
    InitialInv(threads);
    ExecInv(Initial(threads), actions);
    var s := Exec(Initial(threads), actions);
    assert PhaseOk(s, k);
    var t :| t in s.told[k] && s.told[k][t];
    assert forall u :: u in s.told[k] && s.told[k][u] ==> u == t;
  }

  /** In every run, when a thread comes back from its wait number k, every thread that is still counted has
      called wait for the k-th time too. */
  lemma NoneLeavesEarly(threads: nat, actions: seq<Action>, a: Action, u: ThreadId)
    requires CanRun(Initial(threads), actions) && Enabled(Exec(Initial(threads), actions), a)
    requires var s := Exec(Initial(threads), actions); !a.Remove? && Next(s, a).places[a.t] == Outside
    requires u in Running(Next(Exec(Initial(threads), actions), a).places)
    ensures var s' := Next(Exec(Initial(threads), actions), a);
      u < |s'.calls| && a.t < |s'.calls| && s'.calls[u] >= s'.calls[a.t]
  {
    InitialInv(threads);
    ExecInv(Initial(threads), actions);
    var s := Exec(Initial(threads), actions);
    StepInv(s, a);
    assert ThreadOk(Next(s, a), u) && ThreadOk(Next(s, a), a.t);
  }

  /** All threads that are still counted, but perhaps t, are inside this phase. */
  ghost predicate AllInside(places: seq<Place>, phase: int, t: ThreadId) {
    forall u :: 0 <= u < |places| && u != t && places[u] != Gone ==> places[u] == Inside(phase)
  }

  lemma InsideAll(places: seq<Place>, phase: int, t: ThreadId)
    requires t < |places| && places[t] != Gone
    ensures InPhase(places, phase) + {t} == Running(places) <==> AllInside(places, phase, t)
  {
    var inside := InPhase(places, phase) + {t};
    if inside == Running(places) {
      forall u | 0 <= u < |places| && u != t && places[u] != Gone
        ensures places[u] == Inside(phase)
      {
        assert u in Running(places);
      }
    }
  }

  lemma EnteredAll(s: State, t: ThreadId)
    requires Inv(s) && t < |s.places| && s.places[t] != Gone
    ensures s.places[t] == Inside(s.shared.phase) ==>
      (s.shared.entered == s.shared.running <==> AllInside(s.places, s.shared.phase, t))
    ensures s.places[t] != Inside(s.shared.phase) ==>
      (s.shared.entered + 1 == s.shared.running <==> AllInside(s.places, s.shared.phase, t))
  {
    hide PhaseOk, ThreadOk, AllInside;
    var phase := InPhase(s.places, s.shared.phase);
    assert phase + {t} <= Running(s.places);
    SubsetSize(phase + {t}, Running(s.places));
    InsideAll(s.places, s.shared.phase, t);
    if s.places[t] == Inside(s.shared.phase) {
      assert phase + {t} == phase;
    } else {
      assert |phase + {t}| == |phase| + 1;
    }
  }

  /** In every run, a thread inside the barrier may wake exactly when its phase has ended, or all threads that
      are counted are inside it; in the first case it is told that it was not the last, in the second that it is. */
  lemma WakesExactly(threads: nat, actions: seq<Action>, t: ThreadId)
    requires CanRun(Initial(threads), actions)
    requires var s := Exec(Initial(threads), actions); t < |s.places| && s.places[t].Inside?
    ensures var s := Exec(Initial(threads), actions);
      var k := s.places[t].phase;
      && 0 <= k <= |s.told|
      && (Enabled(s, Wake(t)) <==> k < |s.told| || AllInside(s.places, k, t))
      && (Enabled(s, Wake(t)) ==> WakeStep(s.shared, k).1 == Returned(k == |s.told|))
  {
    InitialInv(threads);
    ExecInv(Initial(threads), actions);
    var s := Exec(Initial(threads), actions);
    assert ThreadOk(s, t);
    EnteredAll(s, t);
  }

  /** In every run, a thread that enters returns at once, and is told that it is the last, exactly when all
      other threads that are counted are inside the phase; otherwise it waits for this phase to end. */
  lemma EntersExactly(threads: nat, actions: seq<Action>, t: ThreadId)
    requires CanRun(Initial(threads), actions) && Enabled(Exec(Initial(threads), actions), Enter(t))
    ensures var s := Exec(Initial(threads), actions);
      EnterStep(s.shared).1 == if AllInside(s.places, |s.told|, t) then Returned(true) else Waits(|s.told|)
  {
    InitialInv(threads);
    ExecInv(Initial(threads), actions);
    var s := Exec(Initial(threads), actions);
    EnterCheck(s, t);
    EnteredAll(s, t);
  }
}
