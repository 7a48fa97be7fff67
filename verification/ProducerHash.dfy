/**
  The map from threads to their implicit producers: a chain of open-addressed tables, of which only the
  newest grows. A thread's entry is moved to the newest table when it is next looked up; a thread that
  exits leaves tombstones, which count as used. Calls are taken one at a time.
 */
module ProducerHash {
  import opened Common
  import opened Modular

  type ThreadId(==, !new)
  type Producer = nat

  datatype Slot = Free | Tombstone | Entry(id: ThreadId, producer: Producer)

  type Table = seq<Slot>

  // ---------------------------------------------------------------- probing

  /** The slot at distance `k` from where `hash` points. */
  function Probed(t: Table, hash: nat, k: nat): (j: nat)
    requires t != []
    ensures j < |t|
  {
    (hash + k) % |t|
  }

  /** How far a slot is from where `hash` points. */
  function Distance(t: Table, hash: nat, j: nat): (k: nat)
    requires j < |t|
    ensures k < |t|
  {
    (j - hash) % |t|
  }

  lemma NextProbed(t: Table, hash: nat, k: nat)
    requires t != []
    ensures (Probed(t, hash, k) + 1) % |t| == Probed(t, hash, k + 1)
  {
    AddReduced(hash + k, 1, |t|);
  }

  lemma DistanceIsProbed(t: Table, hash: nat, j: nat)
    requires j < |t|
    ensures Probed(t, hash, Distance(t, hash, j)) == j
  {
    AddReduced(j - hash, hash, |t|);
    RemainderIsUnique(j, |t|, 0, j);
  }

  lemma ProbedOnce(t: Table, hash: nat, k: nat, l: nat)
    requires t != [] && k < |t| && l < |t| && Probed(t, hash, k) == Probed(t, hash, l)
    ensures k == l
  {
    CloseAndCongruent(hash + k, hash + l, |t|);
  }

  predicate IsFor(s: Slot, id: ThreadId) {
    s.Entry? && s.id == id
  }

  predicate InTable(t: Table, id: ThreadId) {
    exists j :: 0 <= j < |t| && IsFor(t[j], id)
  }

  predicate HasFree(t: Table) {
    exists j :: 0 <= j < |t| && t[j].Free?
  }

  /** No free slot lies between where a thread's hash points and its entry. */
  predicate PathIsFull(t: Table, hash: nat, j: nat)
    requires j < |t|
  {
    forall k: nat :: k < Distance(t, hash, j) ==> !t[Probed(t, hash, k)].Free?
  }

  ghost predicate TableValid(t: Table, hash: ThreadId -> nat, live: map<ThreadId, Producer>) {
    && HasFree(t)
    && (forall j :: 0 <= j < |t| && t[j].Entry? ==>
          && PathIsFull(t, hash(t[j].id), j)
          && t[j].id in live && live[t[j].id] == t[j].producer)
    && (forall i, j :: 0 <= i < j < |t| && t[i].Entry? && t[j].Entry? ==> t[i].id != t[j].id)
  }

  ghost function UsedSlots(t: Table): set<nat> {
    set j | 0 <= j < |t| && !t[j].Free?
  }

  ghost function Used(t: Table): nat {
    |UsedSlots(t)|
  }

  /** Live threads without an entry in the newest table. */
  ghost function Missing(t: Table, live: map<ThreadId, Producer>): set<ThreadId> {
    set id | id in live && !InTable(t, id)
  }

  lemma RoomLeft(t: Table)
    requires Used(t) < |t|
    ensures HasFree(t)
  {
    assert !HasFree(t) ==> UsedSlots(t) == Interval(0, |t|);
  }

  /** Filling a slot uses one more slot, or none if it was a tombstone. */
  lemma UsedAfter(t: Table, j: nat, s: Slot)
    requires j < |t| && !s.Free?
    ensures Used(t[j := s]) == Used(t) + if t[j].Free? then 1 else 0
  {
    assert UsedSlots(t[j := s]) == UsedSlots(t) + {j};
  }

  /** None of the first `k` slots probed is the thread's. */
  predicate PassedBy(t: Table, hash: nat, id: ThreadId, k: nat)
    requires t != []
  {
    forall i: nat :: i < k ==> !IsFor(t[Probed(t, hash, i)], id)
  }

  lemma OneMorePassed(t: Table, hash: nat, id: ThreadId, k: nat)
    requires t != [] && PassedBy(t, hash, id, k) && !IsFor(t[Probed(t, hash, k)], id)
    ensures PassedBy(t, hash, id, k + 1)
  {}

  /** A probe that meets a free slot has missed nothing. */
  lemma NotThere(t: Table, hash: ThreadId -> nat, live: map<ThreadId, Producer>, id: ThreadId, k: nat)
    requires TableValid(t, hash, live) && k < |t| && t[Probed(t, hash(id), k)].Free?
    requires PassedBy(t, hash(id), id, k)
    ensures !InTable(t, id)
  {
    forall j | 0 <= j < |t| ensures !IsFor(t[j], id) {
      DistanceIsProbed(t, hash(id), j);
      assert IsFor(t[j], id) ==> PathIsFull(t, hash(id), j);
    }
  }

  /** The loop over the slots of one table. */
  method Probe(t: Table, hash: ThreadId -> nat, ghost live: map<ThreadId, Producer>, id: ThreadId)
    returns (r: Option<nat>)
    requires TableValid(t, hash, live)
    ensures r.Some? ==> r.value < |t| && IsFor(t[r.value], id)
    ensures r.None? ==> !InTable(t, id)
  {
    var index := hash(id);
    ghost var k := 0;
    ghost var end := FirstFree(t, hash(id));
    while true
      invariant 0 <= k <= end && index % |t| == Probed(t, hash(id), k)
      invariant PassedBy(t, hash(id), id, k)
      decreases end - k
    {
      index := index % |t|;
      if IsFor(t[index], id) {
        return Some(index);
      }
      if t[index].Free? {
        NotThere(t, hash, live, id, k);
        return None;
      }
      NextProbed(t, hash(id), k);
      OneMorePassed(t, hash(id), id, k);
      index, k := index + 1, k + 1;
    }
  }

  /** Some distance at which a probe meets a free slot. */
  ghost method FirstFree(t: Table, hash: nat) returns (k: nat)
    requires HasFree(t)
    ensures k < |t| && t[Probed(t, hash, k)].Free?
  {
    var j: nat :| j < |t| && t[j].Free?;
    k := Distance(t, hash, j);
    DistanceIsProbed(t, hash, j);
  }

  /** The slot a new entry goes to: the first one that is free or a tombstone. */
  method FindRoom(t: Table, hash: nat) returns (j: nat)
    requires HasFree(t)
    ensures j < |t| && !t[j].Entry? && PathIsFull(t, hash, j)
  {
    var index := hash;
    ghost var k := 0;
    ghost var end := FirstFree(t, hash);
    while true
      invariant 0 <= k <= end && index % |t| == Probed(t, hash, k)
      invariant forall i: nat :: i < k ==> t[Probed(t, hash, i)].Entry?
      decreases end - k
    {
      index := index % |t|;
      if !t[index].Entry? {
        DistanceOfProbed(t, hash, k);
        return index;
      }
      NextProbed(t, hash, k);
      index, k := index + 1, k + 1;
    }
  }

  lemma DistanceOfProbed(t: Table, hash: nat, k: nat)
    requires k < |t|
    ensures Distance(t, hash, Probed(t, hash, k)) == k
  {
    var j := Probed(t, hash, k);
    DistanceIsProbed(t, hash, j);
    ProbedOnce(t, hash, k, Distance(t, hash, j));
  }

  /** A table with one more entry. */
  lemma EntryAdded(t: Table, hash: ThreadId -> nat, live: map<ThreadId, Producer>, j: nat, id: ThreadId, p: Producer)
    requires TableValid(t, hash, live) && j < |t| && !t[j].Entry? && PathIsFull(t, hash(id), j) && !InTable(t, id)
    requires (id in live ==> live[id] == p) && Used(t) + 1 < |t|
    ensures var t' := t[j := Entry(id, p)];
            TableValid(t', hash, live[id := p]) && Used(t') == Used(t) + if t[j].Free? then 1 else 0
  {
    var t' := t[j := Entry(id, p)];
    UsedAfter(t, j, Entry(id, p));
    RoomLeft(t');
    forall i | 0 <= i < |t'| && t'[i].Entry?
      ensures PathIsFull(t', hash(t'[i].id), i) && t'[i].id in live[id := p]
              && live[id := p][t'[i].id] == t'[i].producer
    {
      if i == j {
        PathStaysFull(t, j, Entry(id, p), hash(id), j);
      } else {
        PathStaysFull(t, j, Entry(id, p), hash(t[i].id), i);
        assert !IsFor(t[i], id);
      }
    }
    forall i, k | 0 <= i < k < |t'| && t'[i].Entry? && t'[k].Entry? ensures t'[i].id != t'[k].id {
      assert !IsFor(t[i], id) && !IsFor(t[k], id);
    }
  }

  lemma PathStaysFull(t: Table, j: nat, s: Slot, hash: nat, i: nat)
    requires j < |t| && i < |t| && !s.Free? && PathIsFull(t, hash, i)
    ensures PathIsFull(t[j := s], hash, i)
  {
    var t' := t[j := s];
    forall k: nat | k < Distance(t', hash, i) ensures !t'[Probed(t', hash, k)].Free? {
      assert Probed(t', hash, k) == Probed(t, hash, k);
    }
  }

  /** A table in which a thread's entry has become a tombstone. */
  lemma EntryRemoved(t: Table, hash: ThreadId -> nat, live: map<ThreadId, Producer>, j: nat, id: ThreadId)
    requires TableValid(t, hash, live) && j < |t| && IsFor(t[j], id)
    ensures var t' := t[j := Tombstone];
            TableValid(t', hash, live - {id}) && !InTable(t', id) && Used(t') == Used(t)
  {
    var t' := t[j := Tombstone];
    UsedAfter(t, j, Tombstone);
    var f :| 0 <= f < |t| && t[f].Free?;
    assert t'[f].Free?;
    forall i | 0 <= i < |t'| && t'[i].Entry?
      ensures PathIsFull(t', hash(t'[i].id), i) && t'[i].id != id && t'[i].id in live
              && live[t'[i].id] == t'[i].producer
    {
      PathStaysFull(t, j, Tombstone, hash(t[i].id), i);
    }
  }

  /** Nothing to remove. */
  lemma EntryAbsent(t: Table, hash: ThreadId -> nat, live: map<ThreadId, Producer>, id: ThreadId)
    requires TableValid(t, hash, live) && !InTable(t, id)
    ensures TableValid(t, hash, live - {id})
  {
    forall j | 0 <= j < |t| && t[j].Entry? ensures t[j].id != id { assert !IsFor(t[j], id); }
  }

  /** More threads do not concern a table they are not in. */
  lemma MoreLive(t: Table, hash: ThreadId -> nat, live: map<ThreadId, Producer>, id: ThreadId, p: Producer)
    requires TableValid(t, hash, live) && id !in live
    ensures TableValid(t, hash, live[id := p])
  {}

  /** Different threads have different entries. */
  lemma {:induction false} EntriesFit(t: Table, ids: set<ThreadId>)
    requires forall id :: id in ids ==> InTable(t, id)
    ensures |ids| <= Used(t)
    decreases |ids|
  {
    if ids != {} {
      var id :| id in ids;
      var j :| 0 <= j < |t| && IsFor(t[j], id);
      var t' := t[j := Free];
      assert UsedSlots(t) == UsedSlots(t') + {j} && j !in UsedSlots(t');
      forall x | x in ids - {id} ensures InTable(t', x) {
        var i :| 0 <= i < |t| && IsFor(t[i], x);
        assert IsFor(t'[i], x);
      }
      EntriesFit(t', ids - {id});
    }
  }

  /** The live threads are those in the newest table and the missing ones. */
  lemma LiveFits(t: Table, live: map<ThreadId, Producer>)
    ensures |live.Keys| <= Used(t) + |Missing(t, live)|
  {
    var here := set id | id in live && InTable(t, id);
    EntriesFit(t, here);
    assert live.Keys == here + Missing(t, live);
  }

  lemma InTableAfter(t: Table, j: nat, id: ThreadId, p: Producer, x: ThreadId)
    requires j < |t| && !t[j].Entry?
    ensures InTable(t[j := Entry(id, p)], x) <==> x == id || InTable(t, x)
  {
    var t' := t[j := Entry(id, p)];
    assert IsFor(t'[j], id);
    if InTable(t, x) {
      var i :| 0 <= i < |t| && IsFor(t[i], x);
      assert IsFor(t'[i], x);
    }
  }

  lemma InTableWithout(t: Table, j: nat, id: ThreadId, x: ThreadId)
    requires j < |t| && IsFor(t[j], id) && x != id
    ensures InTable(t[j := Tombstone], x) <==> InTable(t, x)
  {
    if InTable(t, x) {
      var i :| 0 <= i < |t| && IsFor(t[i], x);
      assert IsFor(t[j := Tombstone][i], x);
    }
  }

  lemma EmptyTable(n: nat, hash: ThreadId -> nat, live: map<ThreadId, Producer>)
    requires n > 0
    ensures var t := seq(n, _ => Free); TableValid(t, hash, live) && Used(t) == 0 && Missing(t, live) == live.Keys
  {
    var t := seq(n, _ => Free);
    assert t[0].Free?;
    assert UsedSlots(t) == {};
  }

  /** Producers in use belong to one thread each, and every other one that exists is inactive. */
  ghost predicate ProducersValid(live: map<ThreadId, Producer>, inactive: set<Producer>, created: nat) {
    && (forall id :: id in live ==> live[id] < created && live[id] !in inactive)
    && (forall x, y :: x in live && y in live && x != y ==> live[x] != live[y])
    && (forall p: Producer :: p in inactive ==> p < created)
  }

  class ImplicitProducers {
    const hash: ThreadId -> nat
    var tables: seq<Table>          // the oldest first
    var count: nat                  // implicitProducerHashCount
    var inactive: set<Producer>
    var created: nat                // producers are numbered as they are created
    ghost var live: map<ThreadId, Producer>   // the threads that have called and not exited

    ghost predicate Core()
      reads this
    {
      && tables != []
      && (forall i :: 0 <= i < |tables| ==> TableValid(tables[i], hash, live))
      && (forall id :: id in live ==> Somewhere(tables, id))
      && ProducersValid(live, inactive, created)
    }

    /** The count covers the used slots of the newest table, the threads to be moved there, and `extra` more. */
    ghost predicate Counted(extra: nat)
      requires tables != []
      reads this
    {
      var t := tables[|tables| - 1];
      count >= Used(t) + |Missing(t, live)| + extra
    }

    ghost predicate Valid()
      reads this
    {
      Core() && Counted(0) && (count == 0 || count < |tables[|tables| - 1]| / 2)
    }

    /** One more entry leaves the newest table less than half full. */
    predicate HasSpace()
      requires tables != []
      reads this
    {
      count + 1 < |tables[|tables| - 1]| / 2
    }

    constructor (hash: ThreadId -> nat, initialSize: nat)
      requires initialSize > 0
      ensures Valid() && live == map[]
    {
      this.hash := hash;
      EmptyTable(initialSize, hash, map[]);
      tables, count, inactive, created, live := [seq(initialSize, _ => Free)], 0, {}, 0, map[];
    }

    /**
      `get_or_add_implicit_producer`: the thread's producer; a thread without one gets one that no other
      live thread has. It fails only when memory does, and then nothing has changed for any thread.
     */
    method GetOrAdd(id: ThreadId, tableMemory: bool, producerMemory: bool) returns (r: Option<Producer>)
      requires Valid()
      modifies this
      ensures Valid()
      ensures id in old(live) ==>
                && r == Some(old(live)[id]) && live == old(live)
                && inactive == old(inactive) && created == old(created)
      ensures id !in old(live) && r.Some? ==> live == old(live)[id := r.value]
      ensures id !in old(live) && r.Some? ==>
                if old(inactive) != {} then
                  r.value in old(inactive) && inactive == old(inactive) - {r.value} && created == old(created)
                else
                  r.value == old(created) && inactive == {} && created == old(created) + 1
      ensures id !in old(live) && r.None? ==> live == old(live) && inactive == old(inactive) && created == old(created)
      ensures id !in old(live) ==>
                (r.Some? <==> (tableMemory || old(HasSpace())) && (producerMemory || old(inactive) != {}))
    {
      r := Lookup(id);
      if r.None? {
        r := AddThread(id, tableMemory, producerMemory);
      }
    }

    /** The part of it for a thread that is not in any table. */
    method AddThread(id: ThreadId, tableMemory: bool, producerMemory: bool) returns (r: Option<Producer>)
      requires Valid() && id !in live
      modifies this
      ensures Valid()
      ensures r.Some? ==> live == old(live)[id := r.value]
      ensures r.Some? ==>
                if old(inactive) != {} then
                  r.value in old(inactive) && inactive == old(inactive) - {r.value} && created == old(created)
                else
                  r.value == old(created) && inactive == {} && created == old(created) + 1
      ensures r.None? ==> live == old(live) && inactive == old(inactive) && created == old(created)
      ensures r.Some? <==> (tableMemory || old(HasSpace())) && (producerMemory || old(inactive) != {})
    {
      count := count + 1;
      if count >= |tables[|tables| - 1]| / 2 {
        if !tableMemory {
          count := count - 1;
          return None;
        }
        Grow();
      }
      r := RecycleOrCreate(producerMemory);
      if r.None? {
        count := count - 1;
        return;
      }
      Insert(id, r.value);
    }

    /** The search through all tables, newest first; an entry found in an older one is moved. */
    method Lookup(id: ThreadId) returns (r: Option<Producer>)
      requires Valid()
      modifies this`tables
      ensures Valid() && (r.Some? <==> id in live) && (r.Some? ==> r.value == live[id])
      ensures id !in live ==> tables == old(tables)
    {
      var i := |tables|;
      while i > 0
        invariant 0 <= i <= |tables| && tables == old(tables)
        invariant forall k :: i <= k < |tables| ==> !InTable(tables[k], id)
        decreases i
      {
        i := i - 1;
        var found := Probe(tables[i], hash, live, id);
        if found.Some? {
          r := Some(tables[i][found.value].producer);
          if i != |tables| - 1 {
            Move(id, r.value);
          }
          return;
        }
      }
      assert Somewhere(tables, id) ==> id !in live;
      return None;
    }

    /** Lazy migration: the entry is added to the newest table. The room is there, and has been counted. */
    method Move(id: ThreadId, value: Producer)
      requires Valid() && id in live && live[id] == value && !InTable(tables[|tables| - 1], id)
      modifies this`tables
      ensures Valid()
    {
      ghost var t := tables[|tables| - 1];
      MissingShrinks(t, live, id);
      assert live == live[id := value];
      var j, reused := Put(id, value, live);
      MissingAfterPut(t, live, j, id, value);
    }

    /** The stores that fill the slot. */
    method Put(id: ThreadId, value: Producer, ghost live': map<ThreadId, Producer>) returns (j: nat, reused: bool)
      requires tables != [] && live' == live[id := value] && (id in live ==> live[id] == value)
      requires forall i :: 0 <= i < |tables| ==> TableValid(tables[i], hash, live)
      requires !InTable(tables[|tables| - 1], id) && Used(tables[|tables| - 1]) + 1 < |tables[|tables| - 1]|
      modifies this`tables
      ensures |tables| == |old(tables)| && j < |old(tables)[|tables| - 1]| && !old(tables)[|tables| - 1][j].Entry?
      ensures reused == old(tables)[|tables| - 1][j].Tombstone?
      ensures tables == old(tables)[|tables| - 1 := old(tables)[|tables| - 1][j := Entry(id, value)]]
      ensures forall i :: 0 <= i < |tables| ==> TableValid(tables[i], hash, live')
      ensures forall x :: Somewhere(old(tables), x) || x == id ==> Somewhere(tables, x)
      ensures var t, t' := old(tables)[|tables| - 1], tables[|tables| - 1];
              Used(t') == Used(t) + if t[j].Free? then 1 else 0
    {
      var last := |tables| - 1;
      var t := tables[last];
      j := FindRoom(t, hash(id));
      reused := t[j].Tombstone?;
      EntryAdded(t, hash, live, j, id, value);
      if id !in live {
        forall i | 0 <= i < |tables| ensures TableValid(tables[i], hash, live') {
          MoreLive(tables[i], hash, live, id, value);
        }
      }
      tables := tables[last := t[j := Entry(id, value)]];
      forall x | Somewhere(old(tables), x) || x == id ensures Somewhere(tables, x) {
        InTableAfter(t, j, id, value, x);
        StillSomewhere(old(tables), tables, last, x);
      }
    }

    /** A table large enough, in front of the others. */
    method Grow()
      requires Core() && Counted(1) && count >= |tables[|tables| - 1]| / 2
      modifies this`tables
      ensures Core() && Counted(1) && count < |tables[|tables| - 1]| / 2
    {
      var newCapacity := 2 * |tables[|tables| - 1]|;
      while count >= newCapacity / 2
        invariant newCapacity > 0
        decreases 2 * count + 2 - newCapacity
      {
        newCapacity := 2 * newCapacity;
      }
      EmptyTable(newCapacity, hash, live);
      LiveFits(tables[|tables| - 1], live);
      tables := tables + [seq(newCapacity, _ => Free)];
      forall x | Somewhere(old(tables), x) ensures Somewhere(tables, x) {
        var i :| 0 <= i < |old(tables)| && InTable(old(tables)[i], x);
        assert InTable(tables[i], x);
      }
    }

    /** `recycle_or_create_producer`. */
    method RecycleOrCreate(memory: bool) returns (p: Option<Producer>)
      requires ProducersValid(live, inactive, created)
      modifies this`inactive, this`created
      ensures p.Some? ==> ProducersValid(live, inactive, created) && p.value < created && p.value !in inactive
      ensures p.Some? ==> (forall id :: id in live ==> live[id] != p.value)
      ensures old(inactive) != {} ==>
                && p.Some? && p.value in old(inactive)
                && inactive == old(inactive) - {p.value} && created == old(created)
      ensures old(inactive) == {} && memory ==>
                p == Some(old(created)) && inactive == {} && created == old(created) + 1
      ensures old(inactive) == {} && !memory ==> p == None && inactive == {} && created == old(created)
    {
      if inactive != {} {
        var q :| q in inactive;
        inactive := inactive - {q};
        p := Some(q);
      } else if memory {
        p := Some(created);
        created := created + 1;
      } else {
        p := None;
      }
    }

    /** The new thread's entry; a tombstone that is used again had been counted already. */
    method Insert(id: ThreadId, p: Producer)
      requires Core() && Counted(1) && count < |tables[|tables| - 1]| / 2 && id !in live
      requires p < created && p !in inactive && forall x :: x in live ==> live[x] != p
      modifies this`tables, this`count, this`live
      ensures Valid() && live == old(live)[id := p]
    {
      ghost var t := tables[|tables| - 1];
      ghost var live' := live[id := p];
      NotLiveNotThere(t, hash, live, id);
      var j, reused := Put(id, p, live');
      if reused {
        count := count - 1;
      }
      MissingAfterInsert(t, live, j, id, p);
      live := live';
    }

    /**
      A thread that exits: its entries become tombstones, in whatever tables they are, and its producer can
      be taken by another thread. It has one, since otherwise nobody would listen to its exit.
     */
    method ThreadExited(id: ThreadId, producer: Producer)
      requires Valid() && id in live && live[id] == producer
      modifies this
      ensures Valid() && live == old(live) - {id} && inactive == old(inactive) + {producer}
      ensures count == old(count) && created == old(created)
    {
      RemoveFromTables(id);
      ProducerReleased(live, inactive, created, id);
      inactive, live := inactive + {producer}, live - {id};
    }

    method RemoveFromTables(id: ThreadId)
      requires Core()
      modifies this`tables
      ensures |tables| == |old(tables)|
      ensures forall i :: 0 <= i < |tables| ==> TableValid(tables[i], hash, live - {id})
      ensures forall x :: x in live - {id} ==> Somewhere(tables, x)
      ensures var t, t' := old(tables)[|tables| - 1], tables[|tables| - 1];
              |t'| == |t| && Used(t') + |Missing(t', live - {id})| <= Used(t) + |Missing(t, live)|
    {
      ClearEntries(id);
      AllCleared(old(tables), tables, hash, live, id);
    }

    method ClearEntries(id: ThreadId)
      requires forall i :: 0 <= i < |tables| ==> TableValid(tables[i], hash, live)
      modifies this`tables
      ensures |tables| == |old(tables)|
      ensures forall k :: 0 <= k < |tables| ==> Cleared(old(tables)[k], tables[k], hash, live, id)
    {
      var i := |tables|;
      while i > 0
        invariant 0 <= i <= |tables| == |old(tables)|
        invariant forall k :: 0 <= k < i ==> tables[k] == old(tables)[k]
        invariant forall k :: i <= k < |tables| ==> Cleared(old(tables)[k], tables[k], hash, live, id)
        decreases i
      {
        i := i - 1;
        var t := tables[i];
        var found := Probe(t, hash, live, id);
        if found.Some? {
          EntryRemoved(t, hash, live, found.value, id);
          forall x | x != id ensures InTable(t[found.value := Tombstone], x) <==> InTable(t, x) {
            InTableWithout(t, found.value, id, x);
          }
          tables := tables[i := t[found.value := Tombstone]];
        } else {
          EntryAbsent(t, hash, live, id);
        }
      }
    }
  }

  lemma ProducerReleased(live: map<ThreadId, Producer>, inactive: set<Producer>, created: nat, id: ThreadId)
    requires ProducersValid(live, inactive, created) && id in live
    ensures ProducersValid(live - {id}, inactive + {live[id]}, created)
  {}

  /** What the exit of a thread does to a table. */
  ghost predicate Cleared(t: Table, t': Table, hash: ThreadId -> nat, live: map<ThreadId, Producer>, id: ThreadId) {
    && TableValid(t', hash, live - {id}) && Used(t') == Used(t) && |t'| == |t|
    && (forall x :: x != id ==> (InTable(t', x) <==> InTable(t, x)))
  }

  lemma AllCleared(tables: seq<Table>, tables': seq<Table>, hash: ThreadId -> nat, live: map<ThreadId, Producer>,
                   id: ThreadId)
    requires tables != [] && |tables'| == |tables|
    requires forall k :: 0 <= k < |tables| ==> Cleared(tables[k], tables'[k], hash, live, id)
    requires forall x :: x in live ==> Somewhere(tables, x)
    ensures forall x :: x in live - {id} ==> Somewhere(tables', x)
    ensures |Missing(tables'[|tables| - 1], live - {id})| <= |Missing(tables[|tables| - 1], live)|
    ensures Used(tables'[|tables| - 1]) == Used(tables[|tables| - 1])
            && |tables'[|tables| - 1]| == |tables[|tables| - 1]|
    ensures forall k :: 0 <= k < |tables| ==> TableValid(tables'[k], hash, live - {id})
  {
    forall x | x in live - {id} ensures Somewhere(tables', x) {
      var i :| 0 <= i < |tables| && InTable(tables[i], x);
      assert InTable(tables'[i], x);
    }
    SubsetCardinality(Missing(tables'[|tables| - 1], live - {id}), Missing(tables[|tables| - 1], live));
  }

  lemma StillSomewhere(tables: seq<Table>, tables': seq<Table>, last: nat, x: ThreadId)
    requires last < |tables| == |tables'| && tables' == tables[last := tables'[last]]
    requires (InTable(tables[last], x) ==> InTable(tables'[last], x))
    requires Somewhere(tables, x) || InTable(tables'[last], x)
    ensures Somewhere(tables', x)
  {
    if Somewhere(tables, x) {
      var i :| 0 <= i < |tables| && InTable(tables[i], x);
      assert InTable(tables'[i], x);
    }
  }

  lemma MissingShrinks(t: Table, live: map<ThreadId, Producer>, id: ThreadId)
    requires id in live && !InTable(t, id)
    ensures |Missing(t, live)| >= 1
  {
    assert id in Missing(t, live);
  }

  lemma MissingAfterPut(t: Table, live: map<ThreadId, Producer>, j: nat, id: ThreadId, p: Producer)
    requires id in live && !InTable(t, id) && j < |t| && !t[j].Entry?
    ensures |Missing(t[j := Entry(id, p)], live)| == |Missing(t, live)| - 1
  {
    forall x ensures InTable(t[j := Entry(id, p)], x) <==> x == id || InTable(t, x) { InTableAfter(t, j, id, p, x); }
    assert Missing(t[j := Entry(id, p)], live) == Missing(t, live) - {id};
  }

  lemma MissingAfterInsert(t: Table, live: map<ThreadId, Producer>, j: nat, id: ThreadId, p: Producer)
    requires id !in live && j < |t| && !t[j].Entry?
    ensures |Missing(t[j := Entry(id, p)], live[id := p])| == |Missing(t, live)|
  {
    var t', live' := t[j := Entry(id, p)], live[id := p];
    forall x ensures x in Missing(t', live') <==> x in Missing(t, live) {
      InTableAfter(t, j, id, p, x);
      assert x in Missing(t', live') <==> x in live' && !InTable(t', x);
      assert x in Missing(t, live) <==> x in live && !InTable(t, x);
    }
    assert Missing(t', live') == Missing(t, live);
  }

  lemma NotLiveNotThere(t: Table, hash: ThreadId -> nat, live: map<ThreadId, Producer>, id: ThreadId)
    requires TableValid(t, hash, live) && id !in live
    ensures !InTable(t, id)
  {}

  ghost predicate Somewhere(tables: seq<Table>, id: ThreadId) {
    exists i :: 0 <= i < |tables| && InTable(tables[i], id)
  }
}
