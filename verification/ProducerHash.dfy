/**
 The chained hash tables that map a thread to its implicit producer (Common/concurrentqueue.h,
 get_or_add_implicit_producer and implicit_producer_thread_exited), at the granularity of those two
 operations.

 The newest table is the main one.  A slot is empty, holds a thread id, or is a tombstone that a thread
 left when it exited.  All tables share one count of used slots.  What the tables refine is a map from the
 threads that are alive to their producers.

 Allocations may fail: their outcomes are parameters.  Thread ids are numbers; how they hash is arbitrary.
 */
module ProducerHash {
  import opened Modular
  import opened Options
  import opened Sets

  type ThreadId = nat
  type ProducerId = nat

  datatype Key = Empty | Tombstone | Id(id: ThreadId)
  datatype Entry = Entry(key: Key, value: ProducerId)

  type Table = seq<Entry>
  type Hash = ThreadId -> nat

  // ---------------------------------------------------------------- one table

  /** The slot that a probe starting at h looks at after j steps. */
  function At(table: Table, h: nat, j: nat): (slot: nat)
    requires |table| > 0
    ensures slot < |table|
  {
    Wrap(h + j, |table|)
  }

  /** No slot on the probe's way to this one is empty. */
  ghost predicate Reached(table: Table, h: nat, slot: nat)
    requires slot < |table|
  {
    forall j :: 0 <= j < Wrap(slot - h, |table|) ==> table[At(table, h, j)].key != Empty
  }

  ghost predicate Holds(table: Table, id: ThreadId) {
    exists slot :: 0 <= slot < |table| && table[slot].key == Id(id)
  }

  /** Ids in the table belong to threads that are alive, have their producers, are there once and can be
      found. */
  ghost predicate TableOk(table: Table, hash: Hash, live: map<ThreadId, ProducerId>) {
    && (forall slot :: 0 <= slot < |table| && table[slot].key.Id? ==>
         && table[slot].key.id in live && table[slot].value == live[table[slot].key.id]
         && Reached(table, hash(table[slot].key.id), slot))
    && (forall s, t :: 0 <= s < t < |table| && table[s].key.Id? ==> table[s].key != table[t].key)
  }

  /** How many slots of the table are not empty. */
  ghost function Used(table: Table): (n: nat)
    ensures n <= |table|
  {
    if table == [] then 0 else Used(table[..|table| - 1]) + if table[|table| - 1].key == Empty then 0 else 1
  }

  lemma {:induction false} UsedBelow(table: Table)
    requires Used(table) < |table|
    ensures exists slot :: 0 <= slot < |table| && table[slot].key == Empty
  {
    var last := |table| - 1;
    if table[last].key != Empty {
      UsedBelow(table[..last]);
      var slot :| 0 <= slot < last && table[..last][slot].key == Empty;
      assert table[slot].key == Empty;
    }
  }

  lemma {:induction false} UsedUpdate(table: Table, slot: nat, e: Entry)
    requires slot < |table|
    ensures Used(table[slot := e]) + (if table[slot].key == Empty then 0 else 1)
      == Used(table) + (if e.key == Empty then 0 else 1)
  {
    var last := |table| - 1;
    if slot < last {
      UsedUpdate(table[..last], slot, e);
      assert table[slot := e][..last] == table[..last][slot := e];
    } else {
      assert table[slot := e][..last] == table[..last];
    }
  }

  lemma {:induction false} UsedNone(table: Table)
    requires forall slot :: 0 <= slot < |table| ==> table[slot].key == Empty
    ensures Used(table) == 0
  {
    if table != [] {
      UsedNone(table[..|table| - 1]);
    }
  }

  /** The step at which a probe from h comes to the slot. */
  lemma AtDistance(table: Table, h: nat, slot: nat)
    requires slot < |table|
    ensures At(table, h, Wrap(slot - h, |table|)) == slot
  {
    WrapShift(slot - h, h, |table|);
    assert Wrap(slot, |table|) == slot;
  }

  /** Different steps of a probe come to different slots. */
  lemma DistanceAt(table: Table, h: nat, j: nat)
    requires j < |table|
    ensures Wrap(At(table, h, j) - h, |table|) == j
  {
    WrapShift(h + j, -(h as int), |table|);
    assert Wrap(j, |table|) == j;
  }

  /** Searching a table: an id that is not found before an empty slot is not in the table. */
  method Find(table: Table, hashedId: nat, id: ThreadId) returns (found: Option<nat>)
    requires Used(table) < |table|
    requires forall slot :: 0 <= slot < |table| && table[slot].key == Id(id) ==> Reached(table, hashedId, slot)
    ensures match found
      case Some(slot) => slot < |table| && table[slot].key == Id(id)
      case None => !Holds(table, id)
  {
    UsedBelow(table);
    ghost var empty :| 0 <= empty < |table| && table[empty].key == Empty;
    AtDistance(table, hashedId, empty);
    var index := hashedId;
    ghost var j := 0;
    while true
      invariant j <= Wrap(empty - hashedId, |table|) && index == hashedId + j
      invariant forall i :: 0 <= i < j ==> table[At(table, hashedId, i)].key != Empty && table[At(table, hashedId, i)].key != Id(id)
      decreases Wrap(empty - hashedId, |table|) - j
    {
      var slot := Wrap(index, |table|);
      var probedKey := table[slot].key;
      if probedKey == Id(id) {
        return Some(slot);
      }
      if probedKey == Empty {
        NotBeyond(table, hashedId, id, j);
        return None;
      }
      index := index + 1;
      j := j + 1;
    }
  }

  lemma NotBeyond(table: Table, h: nat, id: ThreadId, j: nat)
    requires j < |table| && table[At(table, h, j)].key == Empty
    requires forall i :: 0 <= i < j ==> table[At(table, h, i)].key != Id(id)
    requires forall slot :: 0 <= slot < |table| && table[slot].key == Id(id) ==> Reached(table, h, slot)
    ensures !Holds(table, id)
  {
    forall slot | 0 <= slot < |table|
      ensures table[slot].key != Id(id)
    {
      AtDistance(table, h, slot);
    }
  }

  /** The first slot on the probe's way that holds no id. */
  method FindFree(table: Table, hashedId: nat) returns (slot: nat)
    requires Used(table) < |table|
    ensures slot < |table| && !table[slot].key.Id? && Reached(table, hashedId, slot)
    ensures forall j :: 0 <= j < Wrap(slot - hashedId, |table|) ==> table[At(table, hashedId, j)].key.Id?
  {
    UsedBelow(table);
    ghost var empty :| 0 <= empty < |table| && table[empty].key == Empty;
    AtDistance(table, hashedId, empty);
    var index := hashedId;
    ghost var j := 0;
    slot := Wrap(index, |table|);
    while table[slot].key.Id?
      invariant j <= Wrap(empty - hashedId, |table|) && index == hashedId + j && slot == At(table, hashedId, j)
      invariant forall i :: 0 <= i < j ==> table[At(table, hashedId, i)].key.Id?
      decreases Wrap(empty - hashedId, |table|) - j
    {
      index := index + 1;
      j := j + 1;
      slot := Wrap(index, |table|);
    }
    DistanceAt(table, hashedId, j);
  }

  // ---------------------------------------------------------------- changing a table

  lemma ReachedPut(table: Table, h: nat, slot: nat, at: nat, e: Entry)
    requires slot < |table| && at < |table| && Reached(table, h, slot) && e.key != Empty
    ensures Reached(table[at := e], h, slot)
  {
    var table' := table[at := e];
    forall j | 0 <= j < Wrap(slot - h, |table|)
      ensures table'[At(table', h, j)].key != Empty
    {
      assert table[At(table, h, j)].key != Empty;
    }
  }

  /** A thread's id is put into a free slot: a slot that held a tombstone was counted already. */
  lemma PutOk(table: Table, hash: Hash, live: map<ThreadId, ProducerId>, live': map<ThreadId, ProducerId>,
              slot: nat, id: ThreadId)
    requires TableOk(table, hash, live) && slot < |table| && !table[slot].key.Id? && Reached(table, hash(id), slot)
    requires !Holds(table, id) && id in live' && (forall other :: other in live ==> other in live' && live'[other] == live[other])
    ensures TableOk(table[slot := Entry(Id(id), live'[id])], hash, live')
    ensures Used(table[slot := Entry(Id(id), live'[id])]) == Used(table) + if table[slot].key == Empty then 1 else 0
  {
    var e := Entry(Id(id), live'[id]);
    var table' := table[slot := e];
    UsedUpdate(table, slot, e);
    forall s | 0 <= s < |table|
      ensures table'[s].key.Id? ==> Reached(table', hash(table'[s].key.id), s)
      ensures s != slot ==> table'[s].key != Id(id)
    {
      if table'[s].key.Id? {
        ReachedPut(table, hash(table'[s].key.id), s, slot, e);
      }
    }
  }

  /** A thread's id is replaced by a tombstone. */
  lemma EraseOk(table: Table, hash: Hash, live: map<ThreadId, ProducerId>, slot: nat, id: ThreadId)
    requires TableOk(table, hash, live) && slot < |table| && table[slot].key == Id(id)
    ensures TableOk(table[slot := table[slot].(key := Tombstone)], hash, live - {id})
    ensures Used(table[slot := table[slot].(key := Tombstone)]) == Used(table)
    ensures !Holds(table[slot := table[slot].(key := Tombstone)], id)
    ensures forall other :: other != id ==> (Holds(table[slot := table[slot].(key := Tombstone)], other) <==> Holds(table, other))
  {
    var e := table[slot].(key := Tombstone);
    var table' := table[slot := e];
    UsedUpdate(table, slot, e);
    forall s | 0 <= s < |table|
      ensures s != slot ==> table'[s].key != Id(id)
      ensures table'[s].key.Id? ==> Reached(table', hash(table'[s].key.id), s)
    {
      if table'[s].key.Id? {
        ReachedPut(table, hash(table'[s].key.id), s, slot, e);
      }
    }
    forall other | other != id
      ensures Holds(table', other) <==> Holds(table, other)
    {
      HoldsUpdate(table, slot, e, other);
    }
  }

  lemma HoldsUpdate(table: Table, slot: nat, e: Entry, id: ThreadId)
    requires slot < |table| && table[slot].key != Id(id)
    ensures Holds(table[slot := e], id) <==> Holds(table, id) || e.key == Id(id)
  {
    if Holds(table, id) {
      var s :| 0 <= s < |table| && table[s].key == Id(id);
      assert table[slot := e][s].key == Id(id);
    }
    if e.key == Id(id) {
      assert table[slot := e][slot].key == Id(id);
    }
  }

  /** A table that does not know the thread does not mind whether it is alive. */
  lemma TableOther(table: Table, hash: Hash, live: map<ThreadId, ProducerId>, id: ThreadId, p: ProducerId)
    requires TableOk(table, hash, live) && !Holds(table, id)
    ensures TableOk(table, hash, live[id := p]) && TableOk(table, hash, live - {id})
  {
  }

  function NewTable(capacity: nat): (table: Table)
    ensures |table| == capacity && forall slot :: 0 <= slot < capacity ==> table[slot].key == Empty
  {
    seq(capacity, _ => Entry(Empty, 0))
  }

  lemma NewTableOk(capacity: nat, hash: Hash, live: map<ThreadId, ProducerId>)
    ensures TableOk(NewTable(capacity), hash, live) && Used(NewTable(capacity)) == 0
  {
    UsedNone(NewTable(capacity));
  }

  // ---------------------------------------------------------------- the count

  /** The threads that are alive but not in this table. */
  ghost function Missing(table: Table, live: map<ThreadId, ProducerId>): set<ThreadId> {
    set id | id in live && !Holds(table, id)
  }

  ghost function HeldIds(table: Table): set<ThreadId> {
    if table == [] then {}
    else HeldIds(table[..|table| - 1]) + if table[|table| - 1].key.Id? then {table[|table| - 1].key.id} else {}
  }

  lemma {:induction false} HeldIdsBound(table: Table)
    ensures |HeldIds(table)| <= Used(table)
    ensures forall id :: Holds(table, id) ==> id in HeldIds(table)
  {
    if table != [] {
      var rest := table[..|table| - 1];
      HeldIdsBound(rest);
      forall id | Holds(table, id)
        ensures id in HeldIds(table)
      {
        var slot :| 0 <= slot < |table| && table[slot].key == Id(id);
        if slot < |table| - 1 {
          assert rest[slot].key == Id(id);
        }
      }
    }
  }

  /** The main table's used slots and the threads missing from it bound the number of live threads. */
  lemma LiveBound(table: Table, live: map<ThreadId, ProducerId>)
    ensures |live.Keys| <= Used(table) + |Missing(table, live)|
  {
    HeldIdsBound(table);
    SubsetSize(live.Keys, HeldIds(table) + Missing(table, live));
  }

  // ---------------------------------------------------------------- the chain of tables

  ghost predicate InSome(tables: seq<Table>, id: ThreadId) {
    exists k :: 0 <= k < |tables| && Holds(tables[k], id)
  }

  /** Less than half of every table is used; the main table has room for all that the count counts. */
  ghost predicate ChainOk(tables: seq<Table>, hash: Hash, live: map<ThreadId, ProducerId>, count: nat) {
    && tables != []
    && (forall k :: 0 <= k < |tables| ==> TableOk(tables[k], hash, live) && 2 * Used(tables[k]) < |tables[k]|)
    && (forall id :: id in live ==> InSome(tables, id))
    && Used(tables[0]) + |Missing(tables[0], live)| <= count && count < |tables[0]| / 2
  }

  lemma ChainTop(tables: seq<Table>, hash: Hash, live: map<ThreadId, ProducerId>, count: nat)
    requires ChainOk(tables, hash, live, count)
    ensures tables != [] && |tables[0]| > 0
  {
  }

  /** No table has an id of a thread that is not alive. */
  lemma NotInAny(tables: seq<Table>, hash: Hash, live: map<ThreadId, ProducerId>, count: nat, id: ThreadId)
    requires ChainOk(tables, hash, live, count)
    ensures id in live <==> InSome(tables, id)
  {
    if InSome(tables, id) {
      var k :| 0 <= k < |tables| && Holds(tables[k], id);
      assert TableOk(tables[k], hash, live);
    }
  }

  /** What a search of one table of the chain relies on. */
  lemma Searchable(tables: seq<Table>, hash: Hash, live: map<ThreadId, ProducerId>, count: nat, k: nat, id: ThreadId)
    requires ChainOk(tables, hash, live, count) && k < |tables|
    ensures Used(tables[k]) < |tables[k]|
    ensures forall slot :: 0 <= slot < |tables[k]| && tables[k][slot].key == Id(id) ==>
              Reached(tables[k], hash(id), slot) && id in live && tables[k][slot].value == live[id]
  {
    assert TableOk(tables[k], hash, live);
  }

  lemma InSomeMain(tables: seq<Table>, main: Table, id: ThreadId)
    requires tables != [] && InSome(tables, id) && (Holds(tables[0], id) ==> Holds(main, id))
    ensures InSome(tables[0 := main], id)
  {
    var k :| 0 <= k < |tables| && Holds(tables[k], id);
    assert Holds(tables[0 := main][k], id);
  }

  /** A thread found in an older table is entered into the main table as well: there is room, and the count
      stays as it is. */
  lemma MigrateOk(tables: seq<Table>, hash: Hash, live: map<ThreadId, ProducerId>, count: nat, slot: nat, id: ThreadId)
    requires ChainOk(tables, hash, live, count) && id in live && !Holds(tables[0], id)
    requires slot < |tables[0]| && !tables[0][slot].key.Id? && Reached(tables[0], hash(id), slot)
    ensures ChainOk(tables[0 := tables[0][slot := Entry(Id(id), live[id])]], hash, live, count)
  {
    hide TableOk, Holds, Reached, Used;
    var main := tables[0][slot := Entry(Id(id), live[id])];
    PutOk(tables[0], hash, live, live, slot, id);
    forall other
      ensures Holds(main, other) <==> Holds(tables[0], other) || other == id
    {
      HoldsUpdate(tables[0], slot, Entry(Id(id), live[id]), other);
    }
    assert Missing(main, live) == Missing(tables[0], live) - {id};
    forall other | other in live
      ensures InSome(tables[0 := main], other)
    {
      InSomeMain(tables, main, other);
    }
  }

  /** A thread that is in no table is entered into the main table; the count goes up unless the slot was
      counted already. */
  lemma InsertOk(tables: seq<Table>, hash: Hash, live: map<ThreadId, ProducerId>, count: nat, slot: nat, id: ThreadId, p: ProducerId)
    requires ChainOk(tables, hash, live, count) && id !in live && count + 1 < |tables[0]| / 2
    requires slot < |tables[0]| && !tables[0][slot].key.Id? && Reached(tables[0], hash(id), slot)
    ensures ChainOk(tables[0 := tables[0][slot := Entry(Id(id), p)]], hash, live[id := p],
                    if tables[0][slot].key == Tombstone then count else count + 1)
  {
    hide Reached, Used;
    var main, live' := tables[0][slot := Entry(Id(id), p)], live[id := p];
    forall k | 0 <= k < |tables|
      ensures TableOk(tables[k], hash, live') && !Holds(tables[k], id)
    {
      TableOther(tables[k], hash, live, id, p);
    }
    PutOk(tables[0], hash, live, live', slot, id);
    forall other
      ensures Holds(main, other) <==> Holds(tables[0], other) || other == id
    {
      HoldsUpdate(tables[0], slot, Entry(Id(id), p), other);
    }
    assert Missing(main, live') == Missing(tables[0], live);
    forall other | other in live'
      ensures InSome(tables[0 := main], other)
    {
      if other == id {
        assert Holds(tables[0 := main][0], id);
      } else {
        InSomeMain(tables, main, other);
      }
    }
  }

  /** A new main table is empty: it has room for all that are alive. */
  lemma GrowOk(tables: seq<Table>, hash: Hash, live: map<ThreadId, ProducerId>, count: nat, capacity: nat)
    requires ChainOk(tables, hash, live, count) && count < capacity / 2
    ensures ChainOk([NewTable(capacity)] + tables, hash, live, count)
  {
    hide TableOk, Holds, Used;
    var main := NewTable(capacity);
    NewTableOk(capacity, hash, live);
    LiveBound(tables[0], live);
    SubsetSize(Missing(main, live), live.Keys);
    forall id | id in live
      ensures InSome([main] + tables, id)
    {
      var k :| 0 <= k < |tables| && Holds(tables[k], id);
      assert Holds(([main] + tables)[k + 1], id);
    }
  }

  /** The id was replaced by a tombstone in every table. */
  ghost predicate Erased(table: Table, table': Table, hash: Hash, live: map<ThreadId, ProducerId>, id: ThreadId) {
    && |table'| == |table| && Used(table') == Used(table)
    && TableOk(table', hash, live - {id}) && !Holds(table', id)
    && forall other :: other != id ==> (Holds(table', other) <==> Holds(table, other))
  }

  lemma ExitOk(tables: seq<Table>, tables': seq<Table>, hash: Hash, live: map<ThreadId, ProducerId>, count: nat, id: ThreadId)
    requires ChainOk(tables, hash, live, count) && |tables'| == |tables|
    requires forall k :: 0 <= k < |tables| ==> Erased(tables[k], tables'[k], hash, live, id)
    ensures ChainOk(tables', hash, live - {id}, count)
  {
    hide TableOk, Holds, Used;
    forall k | 0 <= k < |tables|
      ensures TableOk(tables'[k], hash, live - {id}) && 2 * Used(tables'[k]) < |tables'[k]|
    {
      assert Erased(tables[k], tables'[k], hash, live, id);
    }
    SubsetSize(Missing(tables'[0], live - {id}), Missing(tables[0], live));
    forall other | other in live - {id}
      ensures InSome(tables', other)
    {
      var k :| 0 <= k < |tables| && Holds(tables[k], other);
      assert Holds(tables'[k], other);
    }
  }

  // ---------------------------------------------------------------- producers

  datatype Producer = Producer(isExplicit: bool, inactive: bool)

  const IN_USE := Producer(false, false)

  /** The implicit producers in use are exactly those of the live threads, each of one thread. */
  ghost predicate ProducersOk(producers: seq<Producer>, live: map<ThreadId, ProducerId>) {
    && (forall id :: id in live ==> live[id] < |producers| && producers[live[id]] == IN_USE)
    && (forall a, b :: a in live && b in live && a != b ==> live[a] != live[b])
    && (forall p :: 0 <= p < |producers| && producers[p] == IN_USE ==> p in live.Values)
  }

  /** The producer that a search for an inactive one comes back with, and what it leaves. */
  ghost predicate Obtained(producers: seq<Producer>, producers': seq<Producer>, isExplicit: bool, p: ProducerId) {
    if p < |producers|
    then producers[p] == Producer(isExplicit, true) && producers' == producers[p := Producer(isExplicit, false)]
    else p == |producers| && producers' == producers + [Producer(isExplicit, false)]
  }

  lemma ObtainedOk(producers: seq<Producer>, producers': seq<Producer>, live: map<ThreadId, ProducerId>, id: ThreadId, p: ProducerId)
    requires ProducersOk(producers, live) && Obtained(producers, producers', false, p) && id !in live
    ensures p !in live.Values && ProducersOk(producers', live[id := p])
  {
    var live' := live[id := p];
    assert live'[id] == p;
    forall q | 0 <= q < |producers'| && producers'[q] == IN_USE
      ensures q in live'.Values
    {
      if q != p {
        var other :| other in live && live[other] == q;
        assert live'[other] == q;
      }
    }
  }

  lemma ExitedOk(producers: seq<Producer>, live: map<ThreadId, ProducerId>, id: ThreadId)
    requires ProducersOk(producers, live) && id in live
    ensures live[id] < |producers| && ProducersOk(producers[live[id] := Producer(false, true)], live - {id})
  {
    var producers' := producers[live[id] := Producer(false, true)];
    forall q | 0 <= q < |producers'| && producers'[q] == IN_USE
      ensures q in (live - {id}).Values
    {
      var other :| other in live && live[other] == q;
      assert (live - {id})[other] == q;
    }
  }

  /** A capacity that was doubled some times. */
  predicate Doubled(from: nat, to: nat)
    decreases to
  {
    to == from || (to > 0 && to % 2 == 0 && Doubled(from, to / 2))
  }

  lemma DoubledAgain(from: nat, to: nat)
    requires to > 0 && (to == from || Doubled(from, to))
    ensures Doubled(from, 2 * to)
  {
    assert 2 * to / 2 == to;
  }

  class Queue {
    const hash: Hash
    /** Newest first. */
    var tables: seq<Table>
    var count: nat
    /** Oldest first. */
    var producers: seq<Producer>

    ghost var live: map<ThreadId, ProducerId>

    ghost predicate Valid()
      reads this
    {
      ChainOk(tables, hash, live, count) && ProducersOk(producers, live)
    }

    constructor (hash: Hash)
      ensures Valid() && this.hash == hash && live == map[] && count == 0 && |tables| == 1
    {
      this.hash := hash;
      tables := [NewTable(32)];
      count := 0;
      producers := [];
      live := map[];
      NewTableOk(32, hash, map[]);
      assert Missing(NewTable(32), map[]) == {};
    }

    /** Takes the newest producer of this kind that is inactive, or else makes a new one. */
    method RecycleOrCreate(isExplicit: bool, canCreate: bool) returns (producer: Option<ProducerId>)
      modifies `producers
      ensures match producer
        case Some(p) => Obtained(old(producers), producers, isExplicit, p)
        case None => producers == old(producers) && !canCreate
      ensures producer.None? <==>
        !canCreate && forall p :: 0 <= p < old(|producers|) ==> old(producers)[p] != Producer(isExplicit, true)
      ensures producer.Some? ==>
        (producer.value == old(|producers|) <==> forall p :: 0 <= p < old(|producers|) ==> old(producers)[p] != Producer(isExplicit, true))
    {
      var p := |producers|;
      while p > 0
        invariant 0 <= p <= |producers| && producers == old(producers)
        invariant forall q :: p <= q < |producers| ==> producers[q] != Producer(isExplicit, true)
      {
        p := p - 1;
        if producers[p].inactive && producers[p].isExplicit == isExplicit {
          producers := producers[p := Producer(isExplicit, false)];
          return Some(p);
        }
      }
      if !canCreate {
        return None;
      }
      producers := producers + [Producer(isExplicit, false)];
      return Some(|producers| - 1);
    }

    /** Looks the thread up in all tables, newest first. */
    method Lookup(id: ThreadId) returns (k: nat, found: Option<nat>)
      requires ChainOk(tables, hash, live, count)
      ensures match found
        case Some(slot) => k < |tables| && slot < |tables[k]| && tables[k][slot].key == Id(id) &&
                           id in live && tables[k][slot].value == live[id] && (k == 0 <==> Holds(tables[0], id))
        case None => id !in live
    {
      hide ChainOk, Reached, Used;
      k := 0;
      while k < |tables|
        invariant k <= |tables| && forall i :: 0 <= i < k ==> !Holds(tables[i], id)
      {
        Searchable(tables, hash, live, count, k, id);
        found := Find(tables[k], hash(id), id);
        if found.Some? {
          return;
        }
        k := k + 1;
      }
      found := None;
      NotInAny(tables, hash, live, count, id);
    }

    /** Enters a thread that was found in an older table into the main table. */
    method Migrate(id: ThreadId, value: ProducerId)
      requires ChainOk(tables, hash, live, count) && id in live && value == live[id] && !Holds(tables[0], id)
      modifies `tables
      ensures ChainOk(tables, hash, live, count) && Holds(tables[0], id)
    {
      hide TableOk, Reached, Used, InSome;
      var main := tables[0];
      assert TableOk(main, hash, live) && 2 * Used(main) < |main|;
      var slot := FindFree(main, hash(id));
      MigrateOk(tables, hash, live, count, slot, id);
      tables := tables[0 := main[slot := Entry(Id(id), value)]];
      assert tables[0][slot].key == Id(id);
    }

    /** Makes a table large enough for one more thread the main one, when the main one is not. */
    method Resize(newCount: nat, canAlloc: bool) returns (ok: bool)
      requires newCount > 0 && ChainOk(tables, hash, live, newCount - 1)
      modifies `tables
      ensures ChainOk(tables, hash, live, newCount - 1)
      ensures tables != [] && (ok ==> newCount < |tables[0]| / 2)
      ensures old(tables) != [] && (ok <==> newCount < |old(tables)[0]| / 2 || canAlloc)
      ensures tables == old(tables) <==> newCount < |old(tables)[0]| / 2 || !canAlloc
      ensures tables == old(tables) ||
        (tables[1..] == old(tables) && |tables[0]| / 4 <= newCount && Doubled(|old(tables)[0]|, |tables[0]|))
    {
      hide ChainOk, Doubled;
      ChainTop(tables, hash, live, newCount - 1);
      if newCount >= |tables[0]| / 2 {
        var newCapacity := |tables[0]| * 2;
        DoubledAgain(|tables[0]|, |tables[0]|);
        while newCount >= newCapacity / 2
          invariant tables == old(tables)
          invariant newCapacity > 0 && newCapacity / 4 <= newCount && Doubled(|tables[0]|, newCapacity)
          decreases newCount - newCapacity / 2
        {
          DoubledAgain(|tables[0]|, newCapacity);
          newCapacity := newCapacity * 2;
        }
        if !canAlloc {
          return false;
        }
        GrowOk(tables, hash, live, newCount - 1, newCapacity);
        tables := [NewTable(newCapacity)] + tables;
      }
      ok := true;
    }

    /** Enters a thread that is in no table into the main table; it gives up its count when it takes the
        place of a thread that exited. */
    method Insert(id: ThreadId, producer: ProducerId) returns (ghost slot: nat)
      requires count > 0 && ChainOk(tables, hash, live, count - 1) && id !in live && count < |tables[0]| / 2
      modifies `tables, `count, `live
      ensures ChainOk(tables, hash, live, count) && live == old(live)[id := producer] && Holds(tables[0], id)
      ensures old(tables) != [] && slot < |old(tables)[0]| && !old(tables)[0][slot].key.Id?
      ensures tables == old(tables)[0 := old(tables)[0][slot := Entry(Id(id), producer)]]
      ensures count == old(count) - if old(tables)[0][slot].key == Tombstone then 1 else 0
    {
      hide TableOk, Reached, Used, InSome;
      var main := tables[0];
      assert TableOk(main, hash, live) && 2 * Used(main) < |main|;
      var at := FindFree(main, hash(id));
      slot := at;
      InsertOk(tables, hash, live, count - 1, at, id, producer);
      if main[at].key == Tombstone {
        count := count - 1;
      }
      tables := tables[0 := main[at := Entry(Id(id), producer)]];
      live := live[id := producer];
      assert tables[0][at].key == Id(id);
    }

    /** The thread's producer.  It is the one that the thread has, or one that no other thread has; none exactly
        when a larger table or a new producer is needed that cannot be allocated. */
    method GetOrAdd(id: ThreadId, canAlloc: bool, canCreate: bool) returns (producer: Option<ProducerId>)
      requires Valid()
      modifies this
      ensures Valid()
      ensures id in old(live) ==> producer == Some(old(live)[id]) && live == old(live) && producers == old(producers)
      ensures id !in old(live) && producer.Some? ==> live == old(live)[id := producer.value] && producer.value !in old(live).Values
      ensures id !in old(live) && producer.Some? ==> Obtained(old(producers), producers, false, producer.value)
      ensures producer.Some? ==> Holds(tables[0], id) && count <= old(count) + 1
      ensures producer.None? <==>
        && id !in old(live)
        && ((old(tables == [] || count + 1 >= |tables[0]| / 2) && !canAlloc)
            || (!canCreate && forall p :: 0 <= p < old(|producers|) ==> old(producers)[p] != Producer(false, true)))
      ensures producer.None? ==> live == old(live) && count == old(count)
    {
      hide ChainOk, Holds, Obtained, ProducersOk;
      var k, found := Lookup(id);
      if found.Some? {
        var value := tables[k][found.value].value;
        if k != 0 {
          Migrate(id, value);
        }
        return Some(value);
      }
      count := count + 1;
      var ok := Resize(count, canAlloc);
      if !ok {
        count := count - 1;
        return None;
      }
      assert count < |tables[0]| / 2 + |tables[0]| / 4;
      producer := RecycleOrCreate(false, canCreate);
      if producer.None? {
        count := count - 1;
        return;
      }
      ObtainedOk(old(producers), producers, live, id, producer.value);
      ghost var slot := Insert(id, producer.value);
    }

    /** The thread exits: tombstones take its place in all tables, and its producer may be used again. */
    method ThreadExited(id: ThreadId, producer: ProducerId)
      requires Valid() && id in live && live[id] == producer
      modifies this
      ensures Valid() && live == old(live) - {id} && count == old(count)
      ensures producers == old(producers)[producer := Producer(false, true)]
    {
      hide TableOk, Reached, Used, InSome, ProducersOk;
      var k := 0;
      ghost var before := tables;
      while k < |tables|
        invariant k <= |tables| == |before|
        invariant forall i :: k <= i < |tables| ==> tables[i] == before[i]
        invariant forall i :: 0 <= i < k ==> Erased(before[i], tables[i], hash, live, id)
        modifies `tables
      {
        assert TableOk(before[k], hash, live) && 2 * Used(before[k]) < |before[k]|;
        var table := EraseFrom(tables[k], id);
        tables := tables[k := table];
        k := k + 1;
      }
      ExitOk(before, tables, hash, live, count, id);
      ExitedOk(producers, live, id);
      producers := producers[producer := Producer(false, true)];
      live := live - {id};
    }

    method EraseFrom(table: Table, id: ThreadId) returns (table': Table)
      requires 2 * Used(table) < |table| && TableOk(table, hash, live)
      ensures Erased(table, table', hash, live, id)
    {
      var found := Find(table, hash(id), id);
      table' := table;
      if found.Some? {
        EraseOk(table, hash, live, found.value, id);
        table' := table[found.value := table[found.value].(key := Tombstone)];
      } else {
        TableOther(table, hash, live, id, 0);
      }
    }
  }
}
