/**
  The block index of an implicit sub-queue: which block holds the elements from a given base on.

  Entries are cells that live as long as the sub-queue. A header is a circular array of entries with
  the position of the newest one; when the array is full a header of twice the capacity is published
  that starts with the entries of the old one, oldest first, and consumers may go on using any header
  they have loaded. Block number `q` is the block whose elements start at index `32 * q`.
 */
module BlockIndex {
  import opened Common
  import opened Modular

  type Block = nat

  const BLOCK_SIZE: int := 32
  const INVALID_BLOCK_BASE: int := 1
  const INITIAL_INDEX_SIZE: nat := 32

  datatype Header = Header(capacity: nat, tail: nat, slots: seq<nat>)

  /**
    All that consumers and producer can see of the index, with two numbers no operation reads:
    `next`, the number of the block to be inserted next, and for each header the distance, modulo its
    capacity, from a block's number to its slot.
   */
  datatype Table = Table(headers: seq<Header>, shifts: seq<int>, keys: seq<int>, values: seq<Option<Block>>, next: nat)

  function Newest(t: Table): nat
    requires t.headers != []
  {
    |t.headers| - 1
  }

  // ---------------------------------------------------------------- positions

  predicate HeaderShape(x: Header, entries: nat) {
    && 0 < x.capacity == |x.slots| <= entries && x.tail < x.capacity
    && (forall s :: 0 <= s < |x.slots| ==> x.slots[s] < x.capacity)
    && (forall r, s :: 0 <= r < s < |x.slots| ==> x.slots[r] != x.slots[s])
  }

  predicate Shape(t: Table) {
    && |t.shifts| == |t.headers| && |t.values| == |t.keys|
    && (forall h :: 0 <= h < |t.headers| ==> HeaderShape(t.headers[h], |t.keys|))
    && (forall h :: 0 <= h < |t.headers| ==> t.headers[h].capacity <= t.headers[Newest(t)].capacity)
    && (if t.headers == [] then t.keys == [] && t.next == 0 else |t.keys| == t.headers[Newest(t)].capacity)
  }

  /** The slot of block number `q` in header `h`. */
  function Slot(t: Table, h: nat, q: int): nat
    requires Shape(t) && h < |t.headers|
  {
    (q + t.shifts[h]) % t.headers[h].capacity
  }

  function EntryOf(t: Table, h: nat, q: int): (e: nat)
    requires Shape(t) && h < |t.headers|
    ensures e < t.headers[h].capacity <= |t.keys|
  {
    t.headers[h].slots[Slot(t, h, q)]
  }

  // ---------------------------------------------------------------- the invariant

  /** An entry that an older header knows sits where that header would look for its block. */
  ghost predicate Coherent(t: Table, h: nat, q: int)
    requires Shape(t) && h < |t.headers|
  {
    var e := EntryOf(t, Newest(t), q);
    e < t.headers[h].capacity ==> EntryOf(t, h, q) == e
  }

  /** Every key, current or stale, belongs to the slot it is found in, whatever the header. */
  ghost predicate KeyFitsSlot(t: Table, h: nat, s: nat)
    requires Shape(t) && h < |t.headers| && s < |t.headers[h].slots|
  {
    var k := t.keys[t.headers[h].slots[s]];
    k != INVALID_BLOCK_BASE ==> k >= 0 && k % BLOCK_SIZE == 0 && Slot(t, h, k / BLOCK_SIZE) == s
  }

  /** The entry at slot `s` of the newest header. */
  function At(t: Table, s: nat): (e: nat)
    requires Shape(t) && t.headers != [] && s < t.headers[Newest(t)].capacity
    ensures e < |t.keys|
  {
    t.headers[Newest(t)].slots[s]
  }

  ghost predicate KeyIsRecent(t: Table, s: nat)
    requires Shape(t) && t.headers != [] && s < t.headers[Newest(t)].capacity
  {
    var e := At(t, s);
    && (t.keys[e] != INVALID_BLOCK_BASE ==> t.keys[e] / BLOCK_SIZE >= t.next - t.headers[Newest(t)].capacity)
    && (t.values[e].Some? ==> t.keys[e] != INVALID_BLOCK_BASE)
  }

  /** From a live block up to the newest one, every entry holds its own key. */
  ghost predicate KeysAreExact(t: Table, s: nat, q: int)
    requires Shape(t) && t.headers != [] && s < t.headers[Newest(t)].capacity
  {
    var e := At(t, s);
    t.values[e].Some? && t.keys[e] / BLOCK_SIZE <= q < t.next ==>
      t.keys[EntryOf(t, Newest(t), q)] == BLOCK_SIZE * q
  }

  ghost predicate OldHeaderIsFull(t: Table, h: nat, s: nat)
    requires Shape(t) && h < |t.headers| && s < |t.headers[h].slots|
  {
    h != Newest(t) ==> t.keys[t.headers[h].slots[s]] != INVALID_BLOCK_BASE
  }

  ghost predicate Sound(t: Table) {
    && Shape(t)
    && (t.headers != [] ==>
          && t.headers[Newest(t)].tail == Slot(t, Newest(t), t.next - 1)
          && (forall h, q :: 0 <= h < |t.headers| ==> Coherent(t, h, q))
          && (forall h, s :: 0 <= h < |t.headers| && 0 <= s < |t.headers[h].slots| ==> KeyFitsSlot(t, h, s))
          && (forall h, s :: 0 <= h < |t.headers| && 0 <= s < |t.headers[h].slots| ==> OldHeaderIsFull(t, h, s))
          && (forall s :: 0 <= s < t.headers[Newest(t)].capacity ==> KeyIsRecent(t, s))
          && (forall s, q :: 0 <= s < t.headers[Newest(t)].capacity ==> KeysAreExact(t, s, q)))
  }

  /** No live block is newer than the newest one: the producer is not in the middle of a rollback. */
  ghost predicate Settled(t: Table)
    requires Shape(t)
  {
    t.headers != [] ==>
      forall s :: 0 <= s < t.headers[Newest(t)].capacity && t.values[At(t, s)].Some? ==>
        t.keys[At(t, s)] / BLOCK_SIZE < t.next
  }

  /** The block with number `q`, when it is in the index. */
  function BlockAt(t: Table, q: int): Option<Block>
    requires Shape(t)
  {
    if t.headers == [] then None
    else
      var e := EntryOf(t, Newest(t), q);
      if t.keys[e] == BLOCK_SIZE * q then t.values[e] else None
  }

  // ---------------------------------------------------------------- the operations

  /** The entry after the newest one: where the next block would go. */
  function NextEntry(t: Table): (e: nat)
    requires Shape(t) && t.headers != []
    ensures e < |t.keys|
  {
    var x := t.headers[Newest(t)];
    x.slots[(x.tail + 1) % x.capacity]
  }

  function WithTail(t: Table, tail: nat): seq<Header>
    requires t.headers != []
  {
    t.headers[Newest(t) := t.headers[Newest(t)].(tail := tail)]
  }

  predicate HasRoom(t: Table)
    requires Shape(t)
  {
    && t.headers != []
    && (t.keys[NextEntry(t)] == INVALID_BLOCK_BASE || t.values[NextEntry(t)].None?)
  }

  /** The key of the next block is stored, but the tail is not moved yet. */
  function Keyed(t: Table): Table
    requires Shape(t) && HasRoom(t)
  {
    t.(keys := t.keys[NextEntry(t) := BLOCK_SIZE * t.next])
  }

  /** The tail is moved to the entry after the newest one. */
  function Tailed(t: Table): Table
    requires Shape(t) && HasRoom(t)
  {
    var x := t.headers[Newest(t)];
    t.(headers := WithTail(t, (x.tail + 1) % x.capacity), next := t.next + 1)
  }

  /** Both: the next block takes the entry after the newest one; its value is stored separately. */
  function Advance(t: Table): Table
    requires Shape(t) && HasRoom(t)
  {
    var x := t.headers[Newest(t)];
    t.(headers := WithTail(t, (x.tail + 1) % x.capacity),
       keys := t.keys[NextEntry(t) := BLOCK_SIZE * t.next],
       next := t.next + 1)
  }

  function Store(t: Table, e: nat, v: Option<Block>): Table
    requires Shape(t) && e < |t.keys|
  {
    t.(values := t.values[e := v])
  }

  function Rewind(t: Table): Table
    requires Shape(t) && t.headers != [] && t.next > 0
  {
    var x := t.headers[Newest(t)];
    t.(headers := WithTail(t, (x.tail - 1) % x.capacity), next := t.next - 1)
  }

  function Oldest(t: Table, i: nat): nat
    requires Shape(t) && t.headers != []
  {
    var x := t.headers[Newest(t)];
    x.slots[(x.tail + 1 + i) % x.capacity]
  }

  /** A header of twice the capacity, the old entries first, oldest to newest, then fresh ones. */
  function Grow(t: Table): Table
    requires Shape(t)
  {
    if t.headers == [] then
      t.(headers := [Header(INITIAL_INDEX_SIZE, INITIAL_INDEX_SIZE - 1, seq(INITIAL_INDEX_SIZE, i => i))],
         shifts := [0],
         keys := seq(INITIAL_INDEX_SIZE, i => INVALID_BLOCK_BASE), values := seq(INITIAL_INDEX_SIZE, i => None))
    else
      var c := t.headers[Newest(t)].capacity;
      t.(headers := t.headers + [Header(2 * c, c - 1, seq(2 * c, i requires 0 <= i < 2 * c =>
                                                                     if i < c then Oldest(t, i) else i))],
         shifts := t.shifts + [c - t.next],
         keys := t.keys + seq(c, i => INVALID_BLOCK_BASE), values := t.values + seq(c, i => None))
  }

  // ---------------------------------------------------------------- preservation

  lemma NextSlot(t: Table)
    requires Sound(t) && t.headers != []
    ensures t.headers[Newest(t)].capacity > 0
    ensures (t.headers[Newest(t)].tail + 1) % t.headers[Newest(t)].capacity == Slot(t, Newest(t), t.next)
    ensures NextEntry(t) == EntryOf(t, Newest(t), t.next)
  {
    AddReduced(t.next - 1 + t.shifts[Newest(t)], 1, t.headers[Newest(t)].capacity);
  }

  lemma SlotsDiffer(t: Table, h: nat, p: int, q: int)
    requires Shape(t) && h < |t.headers| && p != q && p < q + t.headers[h].capacity && q < p + t.headers[h].capacity
    ensures EntryOf(t, h, p) != EntryOf(t, h, q)
  {
    if Slot(t, h, p) == Slot(t, h, q) {
      CloseAndCongruent(p + t.shifts[h], q + t.shifts[h], t.headers[h].capacity);
    }
  }

  lemma AdvanceShape(t: Table)
    requires Shape(t) && HasRoom(t)
    ensures Shape(Advance(t))
    ensures forall h, q :: 0 <= h < |t.headers| ==>
              EntryOf(Advance(t), h, q) == EntryOf(t, h, q) && Slot(Advance(t), h, q) == Slot(t, h, q)
  {
    var t' := Advance(t);
    forall h | 0 <= h < |t'.headers| ensures HeaderShape(t'.headers[h], |t'.keys|) {}
  }

  lemma AdvanceFits(t: Table, h: nat, s: nat)
    requires Shape(t) && HasRoom(t) && h < |t.headers| && s < |t.headers[h].slots| && Shape(Advance(t))
    requires KeyFitsSlot(t, h, s) && Coherent(t, h, t.next) && NextEntry(t) == EntryOf(t, Newest(t), t.next)
    ensures KeyFitsSlot(Advance(t), h, s)
  {
    if t.headers[h].slots[s] == NextEntry(t) {
      assert Advance(t).keys[NextEntry(t)] / BLOCK_SIZE == t.next;
      assert t.headers[h].slots[Slot(t, h, t.next)] == t.headers[h].slots[s];
      assert Slot(Advance(t), h, t.next) == Slot(t, h, t.next) == s;
    }
  }

  lemma RoomIsFree(t: Table)
    requires Sound(t) && HasRoom(t)
    ensures t.values[NextEntry(t)].None?
  {
    assert KeyIsRecent(t, (t.headers[Newest(t)].tail + 1) % t.headers[Newest(t)].capacity);
  }

  lemma OneRoundBack(t: Table, h: nat, q: int)
    requires Shape(t) && h < |t.headers|
    ensures Slot(t, h, q - t.headers[h].capacity) == Slot(t, h, q)
  {
    MultipleAdded(q - t.headers[h].capacity + t.shifts[h], 1, t.headers[h].capacity);
  }

  lemma AdvanceRecent(t: Table, s: nat)
    requires Sound(t) && HasRoom(t) && s < t.headers[Newest(t)].capacity && Shape(Advance(t))
    ensures KeyIsRecent(Advance(t), s)
  {
    NextSlot(t);
    RoomIsFree(t);
    OneRoundBack(t, Newest(t), t.next);
    assert KeyIsRecent(t, s) && KeyFitsSlot(t, Newest(t), s);
  }

  lemma AdvanceExact(t: Table, s: nat, q: int)
    requires Sound(t) && HasRoom(t) && s < t.headers[Newest(t)].capacity && Shape(Advance(t))
    requires EntryOf(Advance(t), Newest(t), q) == EntryOf(t, Newest(t), q)
    ensures KeysAreExact(Advance(t), s, q)
  {
    NextSlot(t);
    RoomIsFree(t);
    assert KeyIsRecent(t, s) && KeysAreExact(t, s, q) && KeyFitsSlot(t, Newest(t), s);
    var c := t.headers[Newest(t)].capacity;
    if t.values[At(t, s)].Some? && t.keys[At(t, s)] / BLOCK_SIZE <= q < t.next {
      if q == t.next - c {
        OneRoundBack(t, Newest(t), t.next);
      } else {
        SlotsDiffer(t, Newest(t), q, t.next);
      }
    }
  }

  lemma AdvanceSound(t: Table)
    requires Sound(t) && HasRoom(t)
    ensures Sound(Advance(t))
  {
    var t' := Advance(t);
    AdvanceShape(t);
    NextSlot(t);
    forall h, q | 0 <= h < |t'.headers| ensures Coherent(t', h, q) { assert Coherent(t, h, q); }
    forall h, s | 0 <= h < |t'.headers| && 0 <= s < |t'.headers[h].slots| ensures KeyFitsSlot(t', h, s) {
      assert KeyFitsSlot(t, h, s) && Coherent(t, h, t.next);
      AdvanceFits(t, h, s);
    }
    forall h, s | 0 <= h < |t'.headers| && 0 <= s < |t'.headers[h].slots| ensures OldHeaderIsFull(t', h, s) {
      assert OldHeaderIsFull(t, h, s);
    }
    forall s | 0 <= s < t'.headers[Newest(t')].capacity ensures KeyIsRecent(t', s) { AdvanceRecent(t, s); }
    forall s, q | 0 <= s < t'.headers[Newest(t')].capacity ensures KeysAreExact(t', s, q) { AdvanceExact(t, s, q); }
  }

  lemma AdvanceSettled(t: Table)
    requires Sound(t) && Settled(t) && HasRoom(t)
    ensures Sound(Advance(t)) && Settled(Advance(t))
  {
    var t' := Advance(t);
    AdvanceSound(t);
    RoomIsFree(t);
    forall s | 0 <= s < t'.headers[Newest(t')].capacity && t'.values[At(t', s)].Some?
      ensures t'.keys[At(t', s)] / BLOCK_SIZE < t'.next
    {
      assert At(t', s) == At(t, s);
    }
  }

  /** Between the two stores of an insertion the index is as after inserting and rewinding. */
  lemma KeyedIsRewound(t: Table)
    requires Sound(t) && HasRoom(t)
    ensures Sound(Advance(t)) && Keyed(t) == Rewind(Advance(t))
  {
    AdvanceSound(t);
    var x := t.headers[Newest(t)];
    AddReduced(x.tail + 1, -1, x.capacity);
    RemainderIsUnique(x.tail, x.capacity, 0, x.tail);
    assert x.(tail := (x.tail + 1) % x.capacity).(tail := x.tail) == x;
    assert Rewind(Advance(t)).headers == t.headers;
  }

  lemma KeyedShape(t: Table)
    requires Shape(t) && HasRoom(t)
    ensures Shape(Keyed(t)) && NextEntry(Keyed(t)) == NextEntry(t)
    ensures Keyed(t).keys[NextEntry(t)] == BLOCK_SIZE * t.next
  {
    forall h | 0 <= h < |t.headers| ensures HeaderShape(Keyed(t).headers[h], |Keyed(t).keys|) {}
  }

  lemma KeyedSettled(t: Table)
    requires Shape(t) && HasRoom(t) && Shape(Keyed(t)) && t.values[NextEntry(t)].None? && Settled(t)
    ensures Settled(Keyed(t))
  {
    var t' := Keyed(t);
    forall s | 0 <= s < t'.headers[Newest(t')].capacity && t'.values[At(t', s)].Some?
      ensures t'.keys[At(t', s)] / BLOCK_SIZE < t'.next
    {
      assert At(t', s) == At(t, s) != NextEntry(t);
    }
  }

  /** Storing the key keeps all headers coherent, although the tail does not lead to it yet. */
  lemma KeyedSound(t: Table)
    requires Sound(t) && HasRoom(t)
    ensures Sound(Keyed(t)) && HasRoom(Keyed(t)) && (Settled(t) ==> Settled(Keyed(t)))
    ensures NextEntry(Keyed(t)) == NextEntry(t) && Keyed(t).keys[NextEntry(t)] == BLOCK_SIZE * t.next
  {
    KeyedIsRewound(t);
    RewindSound(Advance(t));
    KeyedShape(t);
    RoomIsFree(t);
    if Settled(t) { KeyedSettled(t); }
  }

  /** With the key in place, moving the tail completes the insertion. */
  lemma TailedSound(t: Table)
    requires Sound(t) && HasRoom(t) && t.keys[NextEntry(t)] == BLOCK_SIZE * t.next
    ensures Tailed(t) == Advance(t) && Sound(Tailed(t))
  {
    AdvanceSound(t);
    assert t.keys[NextEntry(t) := BLOCK_SIZE * t.next] == t.keys;
  }

  lemma StoreShape(t: Table, e: nat, v: Option<Block>)
    requires Shape(t) && e < |t.keys|
    ensures Shape(Store(t, e, v))
  {
    var t' := Store(t, e, v);
    forall h | 0 <= h < |t'.headers| ensures HeaderShape(t'.headers[h], |t'.keys|) {}
  }

  lemma StoreAt(t: Table, e: nat, v: Option<Block>, h: nat, q: int, s: nat)
    requires Shape(t) && e < |t.keys| && Shape(Store(t, e, v)) && h < |t.headers| && s < |t.headers[h].slots|
    ensures Coherent(t, h, q) ==> Coherent(Store(t, e, v), h, q)
    ensures KeyFitsSlot(t, h, s) ==> KeyFitsSlot(Store(t, e, v), h, s)
    ensures OldHeaderIsFull(t, h, s) ==> OldHeaderIsFull(Store(t, e, v), h, s)
  {}

  lemma StoreRecent(t: Table, e: nat, v: Option<Block>, s: nat)
    requires Shape(t) && e < |t.keys| && t.headers != [] && Shape(Store(t, e, v)) && s < t.headers[Newest(t)].capacity
    requires v.Some? ==> t.keys[e] == BLOCK_SIZE * (t.next - 1) && t.next > 0
    requires KeyIsRecent(t, s)
    ensures KeyIsRecent(Store(t, e, v), s)
  {}

  lemma StoreExact(t: Table, e: nat, v: Option<Block>, s: nat, q: int)
    requires Shape(t) && e < |t.keys| && t.headers != [] && Shape(Store(t, e, v)) && s < t.headers[Newest(t)].capacity
    requires v.Some? ==> t.keys[e] == BLOCK_SIZE * (t.next - 1) && e == EntryOf(t, Newest(t), t.next - 1)
    requires KeysAreExact(t, s, q)
    ensures KeysAreExact(Store(t, e, v), s, q)
  {
    var t' := Store(t, e, v);
    assert EntryOf(t', Newest(t), q) == EntryOf(t, Newest(t), q) && At(t', s) == At(t, s);
    if v.Some? {
      QuotientOfBase(t.next - 1);
      assert At(t, s) == e && q < t.next && t.keys[e] / BLOCK_SIZE <= q ==> q == t.next - 1;
    }
  }

  lemma QuotientOfBase(n: int)
    ensures BLOCK_SIZE * n / BLOCK_SIZE == n
  {}

  lemma StoreSound(t: Table, e: nat, v: Option<Block>)
    requires Sound(t) && e < |t.keys| && t.headers != []
    requires v.Some? ==> t.next > 0 && e == EntryOf(t, Newest(t), t.next - 1) && t.keys[e] == BLOCK_SIZE * (t.next - 1)
    ensures Sound(Store(t, e, v))
  {
    var t' := Store(t, e, v);
    StoreShape(t, e, v);
    assert Slot(t', Newest(t'), t'.next - 1) == Slot(t, Newest(t), t.next - 1);
    forall h, q | 0 <= h < |t'.headers| ensures Coherent(t', h, q) {
      assert Coherent(t, h, q);
      StoreAt(t, e, v, h, q, 0);
    }
    forall h, s | 0 <= h < |t'.headers| && 0 <= s < |t'.headers[h].slots| ensures KeyFitsSlot(t', h, s) {
      assert KeyFitsSlot(t, h, s);
      StoreAt(t, e, v, h, 0, s);
    }
    forall h, s | 0 <= h < |t'.headers| && 0 <= s < |t'.headers[h].slots| ensures OldHeaderIsFull(t', h, s) {
      assert OldHeaderIsFull(t, h, s);
      StoreAt(t, e, v, h, 0, s);
    }
    forall s | 0 <= s < t'.headers[Newest(t')].capacity ensures KeyIsRecent(t', s) {
      assert KeyIsRecent(t, s);
      StoreRecent(t, e, v, s);
    }
    forall s, q | 0 <= s < t'.headers[Newest(t')].capacity ensures KeysAreExact(t', s, q) {
      assert KeysAreExact(t, s, q);
      StoreExact(t, e, v, s, q);
    }
  }

  lemma RewindShape(t: Table)
    requires Shape(t) && t.headers != [] && t.next > 0
    ensures Shape(Rewind(t))
    ensures forall h, q :: 0 <= h < |t.headers| ==>
              EntryOf(Rewind(t), h, q) == EntryOf(t, h, q) && Slot(Rewind(t), h, q) == Slot(t, h, q)
  {
    var t' := Rewind(t);
    forall h | 0 <= h < |t'.headers| ensures HeaderShape(t'.headers[h], |t'.keys|) {}
  }

  lemma RewindSlot(t: Table)
    requires Sound(t) && t.headers != [] && t.next > 0 && Shape(Rewind(t))
    ensures Rewind(t).headers[Newest(t)].tail == Slot(Rewind(t), Newest(t), t.next - 2)
  {
    AddReduced(t.next - 1 + t.shifts[Newest(t)], -1, t.headers[Newest(t)].capacity);
  }

  lemma RewindSound(t: Table)
    requires Sound(t) && t.headers != [] && t.next > 0
    ensures Sound(Rewind(t))
  {
    var t' := Rewind(t);
    RewindShape(t);
    RewindSlot(t);
    forall h, q | 0 <= h < |t'.headers| ensures Coherent(t', h, q) { assert Coherent(t, h, q); }
    forall h, s | 0 <= h < |t'.headers| && 0 <= s < |t'.headers[h].slots| ensures KeyFitsSlot(t', h, s) {
      assert KeyFitsSlot(t, h, s);
    }
    forall h, s | 0 <= h < |t'.headers| && 0 <= s < |t'.headers[h].slots| ensures OldHeaderIsFull(t', h, s) {
      assert OldHeaderIsFull(t, h, s);
    }
    forall s | 0 <= s < t'.headers[Newest(t')].capacity ensures KeyIsRecent(t', s) { assert KeyIsRecent(t, s); }
    forall s, q | 0 <= s < t'.headers[Newest(t')].capacity ensures KeysAreExact(t', s, q) {
      assert KeysAreExact(t, s, q);
    }
  }

  /** The entries after the tail, in order, are those of the blocks one round back. */
  lemma OldestIs(t: Table, i: nat)
    requires Shape(t) && t.headers != [] && t.headers[Newest(t)].tail == Slot(t, Newest(t), t.next - 1)
    ensures Oldest(t, i) == EntryOf(t, Newest(t), t.next - t.headers[Newest(t)].capacity + i)
  {
    var n := Newest(t);
    var c := t.headers[n].capacity;
    OneRoundOn(t.headers[n].tail, t.next - 1 + t.shifts[n], t.next - c + i + t.shifts[n], 1 + i, c);
  }

  lemma OneRoundOn(tail: int, x: int, y: int, d: int, m: int)
    requires m > 0 && tail == x % m && x + d == y + m
    ensures (tail + d) % m == y % m
  {
    AddReduced(x, d, m);
    MultipleAdded(y, 1, m);
  }

  /** When the index is full, the entry after the tail is in use, for the block one round back. */
  lemma OldestBlock(t: Table)
    requires Sound(t) && Settled(t) && t.headers != [] && !HasRoom(t)
    ensures var c := t.headers[Newest(t)].capacity; var e := EntryOf(t, Newest(t), t.next);
            t.values[e].Some? && t.keys[e] == BLOCK_SIZE * (t.next - c) >= 0
  {
    var n := Newest(t);
    var c := t.headers[n].capacity;
    NextSlot(t);
    OneRoundBack(t, n, t.next);
    var s := Slot(t, n, t.next);
    assert KeyIsRecent(t, s) && KeyFitsSlot(t, n, s);
    var p := t.keys[At(t, s)] / BLOCK_SIZE;
    CloseAndCongruent(p + t.shifts[n], t.next - c + t.shifts[n], c);
  }

  /** A full index: the entries are those of the last `capacity` blocks, each with its own key. */
  lemma FullMeansExact(t: Table, i: nat)
    requires Sound(t) && Settled(t) && t.headers != [] && !HasRoom(t) && i < t.headers[Newest(t)].capacity
    ensures var c := t.headers[Newest(t)].capacity;
            && t.next - c + i >= 0
            && Oldest(t, i) == EntryOf(t, Newest(t), t.next - c + i)
            && t.keys[Oldest(t, i)] == BLOCK_SIZE * (t.next - c + i)
  {
    var n := Newest(t);
    var c, s := t.headers[n].capacity, Slot(t, n, t.next);
    OldestIs(t, i);
    OldestBlock(t);
    NextSlot(t);
    assert At(t, s) == EntryOf(t, n, t.next) == NextEntry(t);
    assert KeysAreExact(t, s, t.next - c + i);
  }

  lemma GrownShape(t: Table)
    requires Sound(t) && t.headers != []
    ensures Shape(Grow(t))
    ensures forall h, q :: 0 <= h < |t.headers| ==>
              Slot(Grow(t), h, q) == Slot(t, h, q) && EntryOf(Grow(t), h, q) == EntryOf(t, h, q)
  {
    var t' := Grow(t);
    var c := t.headers[Newest(t)].capacity;
    var x := t'.headers[Newest(t')];
    forall r, s | 0 <= r < s < |x.slots| ensures x.slots[r] != x.slots[s] {
      if s < c { OldestDiffer(t, r, s); }
    }
    forall h | 0 <= h < |t'.headers| ensures HeaderShape(t'.headers[h], |t'.keys|) {
      if h < |t.headers| { assert t'.headers[h] == t.headers[h]; } else { assert t'.headers[h] == x; }
    }
  }

  lemma OldestDiffer(t: Table, r: nat, s: nat)
    requires Shape(t) && t.headers != [] && r < s < t.headers[Newest(t)].capacity
    ensures Oldest(t, r) != Oldest(t, s)
  {
    var x := t.headers[Newest(t)];
    if (x.tail + 1 + r) % x.capacity == (x.tail + 1 + s) % x.capacity {
      CloseAndCongruent(x.tail + 1 + r, x.tail + 1 + s, x.capacity);
    }
  }

  /** Where the grown header puts the entry of block `q`. */
  lemma GrownSlot(t: Table, q: int)
    requires Sound(t) && t.headers != [] && Shape(Grow(t))
    ensures var c := t.headers[Newest(t)].capacity; var s := Slot(Grow(t), Newest(Grow(t)), q);
            EntryOf(Grow(t), Newest(Grow(t)), q) == if s < c then EntryOf(t, Newest(t), q) else s
  {
    var n, t' := Newest(t), Grow(t);
    var x := t.headers[n];
    var c := x.capacity;
    var s := Slot(t', n + 1, q);
    assert t'.headers[n + 1].capacity == 2 * c && t'.shifts[n + 1] == c - t.next;
    if s < c {
      Halved(q + c - t.next, c);
      MultipleAdded(q - t.next, 1, c);
      assert s % c == (q - t.next) % c;
      AddReduced(t.next - 1 + t.shifts[n], 1 + s, c);
      Congruent(s, q - t.next, t.next + t.shifts[n], c);
      assert (x.tail + 1 + s) % c == (q + t.shifts[n]) % c;
    }
  }

  /** The key found at a slot of the new header. */
  lemma GrownKey(t: Table, s: nat)
    requires Shape(t) && t.headers != [] && s < 2 * t.headers[Newest(t)].capacity
    ensures var c := t.headers[Newest(t)].capacity; var g := Grow(t);
            && g.headers[|t.headers|].slots[s] == (if s < c then Oldest(t, s) else s)
            && Oldest(t, s) < |t.keys|
            && g.keys[if s < c then Oldest(t, s) else s] == if s < c then t.keys[Oldest(t, s)] else INVALID_BLOCK_BASE
  {}

  lemma GrownFits(t: Table, s: nat)
    requires Sound(t) && Settled(t) && t.headers != [] && !HasRoom(t) && Shape(Grow(t))
    requires s < |Grow(t).headers[Newest(Grow(t))].slots|
    ensures KeyFitsSlot(Grow(t), Newest(Grow(t)), s)
  {
    var c := t.headers[Newest(t)].capacity;
    GrownKey(t, s);
    if s < c {
      FullMeansExact(t, s);
      var q := t.next - c + s;
      assert t.keys[Oldest(t, s)] / BLOCK_SIZE == q;
      RemainderIsUnique(q + (c - t.next), 2 * c, 0, s);
    }
  }

  lemma GrownRecent(t: Table, s: nat)
    requires Sound(t) && Settled(t) && t.headers != [] && !HasRoom(t) && Shape(Grow(t))
    requires s < Grow(t).headers[Newest(Grow(t))].capacity
    ensures KeyIsRecent(Grow(t), s)
  {
    var x := t.headers[Newest(t)];
    if s < x.capacity {
      assert KeyIsRecent(t, (x.tail + 1 + s) % x.capacity);
    }
  }

  lemma GrownExact(t: Table, s: nat, q: int)
    requires Sound(t) && Settled(t) && t.headers != [] && !HasRoom(t) && Shape(Grow(t))
    requires s < Grow(t).headers[Newest(Grow(t))].capacity
    ensures KeysAreExact(Grow(t), s, q)
  {
    var x := t.headers[Newest(t)];
    var c := x.capacity;
    GrownSlot(t, q);
    if s < c {
      FullMeansExact(t, s);
      assert KeysAreExact(t, (x.tail + 1 + s) % c, q);
      if t.next - c + s <= q < t.next {
        RemainderIsUnique(q + (c - t.next), 2 * c, 0, q + (c - t.next));
      }
    }
  }

  lemma OldIsFull(t: Table, h: nat, s: nat)
    requires Sound(t) && Settled(t) && t.headers != [] && !HasRoom(t) && Shape(Grow(t))
    requires h < |Grow(t).headers| && s < |Grow(t).headers[h].slots|
    ensures OldHeaderIsFull(Grow(t), h, s)
  {
    if h < Newest(t) {
      assert OldHeaderIsFull(t, h, s);
    } else if h == Newest(t) {
      var x := t.headers[h];
      var i := (s - (x.tail + 1)) % x.capacity;
      AddReduced(s - (x.tail + 1), x.tail + 1, x.capacity);
      RemainderIsUnique(s, x.capacity, 0, s);
      FullMeansExact(t, i);
    }
  }

  lemma GrownSettled(t: Table)
    requires Sound(t) && Settled(t) && t.headers != [] && !HasRoom(t) && Shape(Grow(t))
    ensures Settled(Grow(t)) && HasRoom(Grow(t))
  {
    var t' := Grow(t);
    var c := t.headers[Newest(t)].capacity;
    forall s | 0 <= s < 2 * c && t'.values[At(t', s)].Some? ensures t'.keys[At(t', s)] / BLOCK_SIZE < t'.next {
      if s < c { FullMeansExact(t, s); }
    }
    RemainderIsUnique(c, 2 * c, 0, c);
    assert NextEntry(t') == c;
  }

  lemma FirstHeader(t: Table)
    requires Sound(t) && t.headers == []
    ensures Sound(Grow(t)) && Settled(Grow(t)) && HasRoom(Grow(t))
  {
    var t' := Grow(t);
    assert t'.headers[0].slots[0] == 0;
    forall h | 0 <= h < |t'.headers| ensures HeaderShape(t'.headers[h], |t'.keys|) {}
    assert Shape(t');
    assert NextEntry(t') == 0;
  }

  lemma GrowSound(t: Table)
    requires Sound(t) && Settled(t) && (t.headers == [] || !HasRoom(t))
    ensures Sound(Grow(t)) && Settled(Grow(t)) && HasRoom(Grow(t))
  {
    if t.headers == [] {
      FirstHeader(t);
    } else {
      GrownShape(t);
      GrownSettled(t);
      GrownOverall(t);
      GrownByHeader(t);
      var t' := Grow(t);
      forall s | 0 <= s < t'.headers[Newest(t')].capacity ensures KeyIsRecent(t', s) { GrownRecent(t, s); }
      forall s, q | 0 <= s < t'.headers[Newest(t')].capacity ensures KeysAreExact(t', s, q) { GrownExact(t, s, q); }
    }
  }

  lemma GrownOverall(t: Table)
    requires Sound(t) && t.headers != [] && Shape(Grow(t))
    ensures var t' := Grow(t);
            && t'.headers[Newest(t')].tail == Slot(t', Newest(t'), t'.next - 1)
            && (forall h, q :: 0 <= h < |t'.headers| ==> Coherent(t', h, q))
  {
    var t' := Grow(t);
    var c := t.headers[Newest(t)].capacity;
    GrownShape(t);
    RemainderIsUnique(t.next - 1 + (c - t.next), 2 * c, 0, c - 1);
    forall h, q | 0 <= h < |t'.headers| ensures Coherent(t', h, q) {
      GrownSlot(t, q);
      if h < |t.headers| { assert Coherent(t, h, q); }
    }
  }

  lemma GrownByHeader(t: Table)
    requires Sound(t) && Settled(t) && t.headers != [] && !HasRoom(t) && Shape(Grow(t))
    ensures var t' := Grow(t);
            && (forall h, s :: 0 <= h < |t'.headers| && 0 <= s < |t'.headers[h].slots| ==> KeyFitsSlot(t', h, s))
            && (forall h, s :: 0 <= h < |t'.headers| && 0 <= s < |t'.headers[h].slots| ==> OldHeaderIsFull(t', h, s))
  {
    var t' := Grow(t);
    GrownShape(t);
    forall h, s | 0 <= h < |t'.headers| && 0 <= s < |t'.headers[h].slots| ensures KeyFitsSlot(t', h, s) {
      if h < |t.headers| { assert KeyFitsSlot(t, h, s); } else { GrownFits(t, s); }
    }
    forall h, s | 0 <= h < |t'.headers| && 0 <= s < |t'.headers[h].slots| ensures OldHeaderIsFull(t', h, s) {
      OldIsFull(t, h, s);
    }
  }

  // ---------------------------------------------------------------- what the operations do to the blocks in use

  lemma AdvanceBlocks(t: Table, q: int)
    requires Sound(t) && HasRoom(t)
    ensures Sound(Advance(t)) && BlockAt(Advance(t), q) == BlockAt(t, q)
    ensures EntryOf(Advance(t), Newest(t), q) == EntryOf(t, Newest(t), q)
    ensures var e := EntryOf(t, Newest(t), t.next); e == NextEntry(t) && Advance(t).keys[e] == BLOCK_SIZE * t.next
    ensures BlockAt(t, t.next) == None
  {
    AdvanceSound(t);
    AdvanceShape(t);
    NextSlot(t);
    RoomIsFree(t);
  }

  lemma KeyedBlocks(t: Table, q: int)
    requires Sound(t) && HasRoom(t)
    ensures Sound(Keyed(t)) && BlockAt(Keyed(t), q) == BlockAt(t, q)
    ensures EntryOf(Keyed(t), Newest(t), q) == EntryOf(t, Newest(t), q)
  {
    KeyedSound(t);
    RoomIsFree(t);
    assert EntryOf(Keyed(t), Newest(t), q) == EntryOf(t, Newest(t), q);
  }

  lemma StoreBlocks(t: Table, b: Block, q: int)
    requires Sound(t) && t.headers != [] && t.next > 0
    requires var e := EntryOf(t, Newest(t), t.next - 1); t.keys[e] == BLOCK_SIZE * (t.next - 1)
    ensures var t' := Store(t, EntryOf(t, Newest(t), t.next - 1), Some(b));
            Sound(t') && BlockAt(t', q) == if q == t.next - 1 then Some(b) else BlockAt(t, q)
  {
    StoreSound(t, EntryOf(t, Newest(t), t.next - 1), Some(b));
  }

  lemma ClearBlocks(t: Table, p: int, q: int)
    requires Sound(t) && t.headers != [] && t.keys[EntryOf(t, Newest(t), p)] == BLOCK_SIZE * p
    ensures var t' := Store(t, EntryOf(t, Newest(t), p), None);
            Sound(t') && BlockAt(t', q) == if q == p then None else BlockAt(t, q)
  {
    StoreSound(t, EntryOf(t, Newest(t), p), None);
  }

  lemma RewindBlocks(t: Table, q: int)
    requires Sound(t) && t.headers != [] && t.next > 0
    ensures Sound(Rewind(t)) && BlockAt(Rewind(t), q) == BlockAt(t, q)
    ensures EntryOf(Rewind(t), Newest(t), q) == EntryOf(t, Newest(t), q)
  {
    RewindSound(t);
  }

  lemma StoreSettled(t: Table, e: nat, v: Option<Block>)
    requires Sound(t) && Settled(t) && e < |t.keys| && t.headers != [] && Shape(Store(t, e, v))
    requires v.Some? ==> t.keys[e] / BLOCK_SIZE < t.next
    ensures Settled(Store(t, e, v))
  {
    var t' := Store(t, e, v);
    forall s | 0 <= s < t'.headers[Newest(t')].capacity && t'.values[At(t', s)].Some?
      ensures t'.keys[At(t', s)] / BLOCK_SIZE < t'.next
    {
      assert At(t', s) == At(t, s);
    }
  }

  /** When the newest entry has no block, the rewound index is settled too. */
  lemma RewindSettled(t: Table)
    requires Sound(t) && Settled(t) && t.headers != [] && t.next > 0 && BlockAt(t, t.next - 1) == None
    ensures Sound(Rewind(t)) && Settled(Rewind(t))
  {
    var t' := Rewind(t);
    RewindSound(t);
    RewindShape(t);
    forall s | 0 <= s < t'.headers[Newest(t')].capacity && t'.values[At(t', s)].Some?
      ensures t'.keys[At(t', s)] / BLOCK_SIZE < t'.next
    {
      assert At(t', s) == At(t, s);
      assert KeyIsRecent(t, s) && KeyFitsSlot(t, Newest(t), s);
    }
  }

  /** A block in use is among the newest `capacity` ones. */
  lemma InUseIsRecent(t: Table, q: int)
    requires Sound(t) && BlockAt(t, q).Some?
    ensures q >= t.next - t.headers[Newest(t)].capacity
    ensures Settled(t) ==> q < t.next
  {
    var s := Slot(t, Newest(t), q);
    assert KeyIsRecent(t, s) && At(t, s) == EntryOf(t, Newest(t), q);
  }

  lemma GrowBlocks(t: Table, q: int)
    requires Sound(t) && Settled(t) && (t.headers == [] || !HasRoom(t))
    ensures Sound(Grow(t)) && BlockAt(Grow(t), q) == BlockAt(t, q)
    ensures BlockAt(t, q).Some? ==> EntryOf(Grow(t), Newest(Grow(t)), q) == EntryOf(t, Newest(t), q)
  {
    GrowSound(t);
    if t.headers != [] {
      GrownSlot(t, q);
      if BlockAt(t, q).Some? {
        var c := t.headers[Newest(t)].capacity;
        InUseIsRecent(t, q);
        RemainderIsUnique(q + (c - t.next), 2 * c, 0, q + (c - t.next));
      }
    }
  }

  // ---------------------------------------------------------------- lookups

  /**
    `get_block_index_index_for_index`: the slot computed from a tail slot, the key found there and the
    base looked for. The quotient is exact, so the sign of the offset is kept as the source needs.
   */
  function LookupSlot(capacity: nat, tail: nat, tailBase: int, base: int): nat
    requires capacity > 0
  {
    (tail + (base - tailBase) / BLOCK_SIZE) % capacity
  }

  lemma SlotFromAnother(capacity: nat, shift: int, tail: nat, p: int, q: int)
    requires capacity > 0 && tail == (p + shift) % capacity
    ensures LookupSlot(capacity, tail, BLOCK_SIZE * p, BLOCK_SIZE * q) == (q + shift) % capacity
  {
    assert (BLOCK_SIZE * q - BLOCK_SIZE * p) / BLOCK_SIZE == q - p;
    AddReduced(p + shift, q - p, capacity);
  }

  /** Whatever slot a consumer took for the tail, and however stale, it computes the slot of the block. */
  lemma AnyTailWillDo(t: Table, h: nat, tail: nat, q: int)
    requires Sound(t) && h < |t.headers| && tail < t.headers[h].capacity
    requires t.keys[t.headers[h].slots[tail]] != INVALID_BLOCK_BASE
    ensures var x := t.headers[h];
            LookupSlot(x.capacity, tail, t.keys[x.slots[tail]], BLOCK_SIZE * q) == Slot(t, h, q)
  {
    var x := t.headers[h];
    assert KeyFitsSlot(t, h, tail);
    SlotFromAnother(x.capacity, t.shifts[h], tail, t.keys[x.slots[tail]] / BLOCK_SIZE, q);
  }

  /** With a block in use, the key at the tail of the newest header, and any key of an older one, is valid. */
  lemma TailKeyIsValid(t: Table, q: int, h: nat)
    requires Sound(t) && BlockAt(t, q).Some? && q < t.next && h < |t.headers|
    ensures t.keys[t.headers[h].slots[t.headers[h].tail]] != INVALID_BLOCK_BASE
  {
    var s := Slot(t, Newest(t), q);
    assert At(t, s) == EntryOf(t, Newest(t), q);
    assert KeysAreExact(t, s, t.next - 1);
    assert OldHeaderIsFull(t, h, t.headers[h].tail);
  }

  datatype Op = StoreKey | StoreTail | Expand | StoreValue(b: Block) | ClearValue(q: int) | RewindTail

  /** When the producer, or a consumer for `ClearValue`, performs the operation. */
  ghost predicate CanDo(t: Table, op: Op)
    requires Sound(t)
  {
    match op
    case StoreKey => Settled(t) && HasRoom(t)
    case StoreTail => HasRoom(t) && t.keys[NextEntry(t)] == BLOCK_SIZE * t.next
    case Expand => Settled(t) && (t.headers == [] || !HasRoom(t))
    case StoreValue(_) =>
      t.headers != [] && t.next > 0 && t.keys[EntryOf(t, Newest(t), t.next - 1)] == BLOCK_SIZE * (t.next - 1)
    case ClearValue(q) => BlockAt(t, q).Some?
    case RewindTail => t.headers != [] && t.next > 0
  }

  ghost function Do(t: Table, op: Op): Table
    requires Sound(t) && CanDo(t, op)
  {
    match op
    case StoreKey => Keyed(t)
    case StoreTail => Tailed(t)
    case Expand => Grow(t)
    case StoreValue(b) => Store(t, EntryOf(t, Newest(t), t.next - 1), Some(b))
    case ClearValue(q) => Store(t, EntryOf(t, Newest(t), q), None)
    case RewindTail => Rewind(t)
  }

  /** What a header loaded earlier still offers: the same array, and keys that never become invalid again. */
  ghost predicate StillServes(t: Table, t': Table, q: int) {
    && Shape(t) && Shape(t') && |t.headers| <= |t'.headers| && |t.keys| <= |t'.keys|
    && (forall h :: 0 <= h < |t.headers| ==>
          t'.headers[h].capacity == t.headers[h].capacity && t'.headers[h].slots == t.headers[h].slots)
    && (forall e :: 0 <= e < |t.keys| && t.keys[e] != INVALID_BLOCK_BASE ==> t'.keys[e] != INVALID_BLOCK_BASE)
    && t.headers != [] && EntryOf(t', Newest(t'), q) == EntryOf(t, Newest(t), q)
  }

  lemma OpServes(t: Table, op: Op, q: int)
    requires Sound(t) && CanDo(t, op) && BlockAt(t, q).Some?
    ensures Sound(Do(t, op)) && StillServes(t, Do(t, op), q)
  {
    match op
    case StoreKey => KeyedServes(t, q);
    case StoreTail => TailedServes(t, q);
    case Expand => ExpandServes(t, q);
    case StoreValue(b) => StoreServes(t, b, q);
    case ClearValue(p) => ClearServes(t, p, q);
    case RewindTail => RewindServes(t, q);
  }

  lemma KeyedServes(t: Table, q: int)
    requires Sound(t) && CanDo(t, StoreKey) && BlockAt(t, q).Some?
    ensures Sound(Keyed(t)) && StillServes(t, Keyed(t), q)
  {
    KeyedBlocks(t, q);
  }

  lemma StoreServes(t: Table, b: Block, q: int)
    requires Sound(t) && CanDo(t, StoreValue(b)) && BlockAt(t, q).Some?
    ensures Sound(Do(t, StoreValue(b))) && StillServes(t, Do(t, StoreValue(b)), q)
  {
    StoreBlocks(t, b, q);
    SameArraysServe(t, Do(t, StoreValue(b)), q);
  }

  lemma SameArraysServe(t: Table, t': Table, q: int)
    requires Shape(t) && Shape(t') && t.headers != []
    requires t'.headers == t.headers && t'.shifts == t.shifts && t'.keys == t.keys
    ensures StillServes(t, t', q)
  {}

  lemma ClearServes(t: Table, p: int, q: int)
    requires Sound(t) && CanDo(t, ClearValue(p)) && BlockAt(t, q).Some?
    ensures Sound(Do(t, ClearValue(p))) && StillServes(t, Do(t, ClearValue(p)), q)
  {
    ClearBlocks(t, p, q);
    SameArraysServe(t, Do(t, ClearValue(p)), q);
  }

  lemma RewindServes(t: Table, q: int)
    requires Sound(t) && CanDo(t, RewindTail) && BlockAt(t, q).Some?
    ensures Sound(Rewind(t)) && StillServes(t, Rewind(t), q)
  {
    RewindBlocks(t, q);
  }

  lemma TailedServes(t: Table, q: int)
    requires Sound(t) && CanDo(t, StoreTail) && BlockAt(t, q).Some?
    ensures Sound(Tailed(t)) && StillServes(t, Tailed(t), q)
  {
    TailedSound(t);
    AdvanceBlocks(t, q);
  }

  lemma ExpandServes(t: Table, q: int)
    requires Sound(t) && CanDo(t, Expand) && BlockAt(t, q).Some?
    ensures Sound(Grow(t)) && StillServes(t, Grow(t), q)
  {
    GrowBlocks(t, q);
  }

  /** A run of the index during which block `q` stays in use. */
  ghost predicate InUseThroughout(t: Table, ops: seq<Op>, q: int)
    decreases ops
  {
    && Sound(t) && BlockAt(t, q).Some?
    && (ops != [] ==> CanDo(t, ops[0]) && InUseThroughout(Do(t, ops[0]), ops[1..], q))
  }

  ghost function After(t: Table, ops: seq<Op>, q: int): Table
    requires InUseThroughout(t, ops, q)
    decreases ops
  {
    if ops == [] then t else After(Do(t, ops[0]), ops[1..], q)
  }

  lemma ServesAcross(t: Table, t': Table, t'': Table, q: int)
    requires StillServes(t, t', q) && StillServes(t', t'', q)
    ensures StillServes(t, t'', q)
  {}

  lemma {:induction false} RunServes(t: Table, ops: seq<Op>, q: int)
    requires InUseThroughout(t, ops, q)
    ensures Sound(After(t, ops, q)) && BlockAt(After(t, ops, q), q).Some? && StillServes(t, After(t, ops, q), q)
    decreases ops
  {
    if ops != [] {
      OpServes(t, ops[0], q);
      RunServes(Do(t, ops[0]), ops[1..], q);
      ServesAcross(t, Do(t, ops[0]), After(t, ops, q), q);
    }
  }

  /** The slot that the consumer computes in state `t` from slot `tail` of header `h`. */
  function SlotFrom(t: Table, h: nat, tail: nat, q: int): nat {
    if h < |t.headers| && 0 < t.headers[h].capacity && tail < |t.headers[h].slots|
        && t.headers[h].slots[tail] < |t.keys| then
      LookupSlot(t.headers[h].capacity, tail, t.keys[t.headers[h].slots[tail]], BLOCK_SIZE * q)
    else 0
  }

  /** The entry in that slot of header `h` has the key of block `q` and holds the block. */
  ghost predicate LeadsTo(t: Table, h: nat, slot: nat, q: int) {
    && Shape(t) && h < |t.headers| && slot < t.headers[h].capacity
    && var e := t.headers[h].slots[slot]; t.keys[e] == BLOCK_SIZE * q && t.values[e] == BlockAt(t, q)
  }

  /** From a valid key the consumer's arithmetic leads to the entry of block `q`. */
  ghost predicate Reaches(t: Table, h: nat, tail: nat, q: int) {
    && Shape(t) && h < |t.headers| && tail < t.headers[h].capacity
    && t.keys[t.headers[h].slots[tail]] != INVALID_BLOCK_BASE
    && LeadsTo(t, h, SlotFrom(t, h, tail, q), q)
  }

  function TailOf(t: Table, h: nat): nat {
    if h < |t.headers| then t.headers[h].tail else 0
  }

  lemma LookupAcross(t: Table, t': Table, t'': Table, q: int)
    requires Sound(t) && Sound(t') && Sound(t'') && BlockAt(t', q).Some? && BlockAt(t'', q).Some?
    requires StillServes(t, t', q) && StillServes(t', t'', q) && StillServes(t, t'', q) && q < t'.next
    ensures Reaches(t'', Newest(t), TailOf(t', Newest(t)), q)
    ensures var slot := SlotFrom(t'', Newest(t), TailOf(t', Newest(t)), q);
            t''.headers[Newest(t)].slots[slot] == EntryOf(t'', Newest(t''), q)
  {
    var h := Newest(t);
    var tail := t'.headers[h].tail;
    TailKeyIsValid(t', q, h);
    assert t''.headers[h].slots == t'.headers[h].slots;
    AnyTailWillDo(t'', h, tail, q);
    assert Coherent(t'', h, q);
  }

  lemma StillLeads(t: Table, t': Table, h: nat, slot: nat, q: int)
    requires Sound(t) && Sound(t') && StillServes(t, t', q) && LeadsTo(t, h, slot, q)
    requires t.headers[h].slots[slot] == EntryOf(t, Newest(t), q) && BlockAt(t', q).Some?
    ensures LeadsTo(t', h, slot, q)
  {}

  /**
    A consumer loads the newest header in state `t`, that header's tail after the operations `first`, the
    key found there after the further operations `second`, and the block after `third`, while other threads
    insert, reuse, rewind and grow. As long as the block it wants stays in use, the slot it computes leads,
    in the header it loaded, to the entry of that block, and holds it still when it is loaded.
   */
  lemma LookupSurvivesInterleaving(t: Table, first: seq<Op>, second: seq<Op>, third: seq<Op>, q: int)
    requires InUseThroughout(t, first, q) && InUseThroughout(After(t, first, q), second, q)
    requires InUseThroughout(After(After(t, first, q), second, q), third, q)
    requires t.headers != [] && q < After(t, first, q).next
    ensures var h, tail := Newest(t), TailOf(After(t, first, q), Newest(t));
            var t'' := After(After(t, first, q), second, q);
            && Reaches(t'', h, tail, q)
            && LeadsTo(After(t'', third, q), h, SlotFrom(t'', h, tail, q), q)
  {
    var t' := After(t, first, q);
    var t'' := After(t', second, q);
    RunServes(t, first, q);
    RunServes(t', second, q);
    RunServes(t'', third, q);
    ServesAcross(t, t', t'', q);
    LookupAcross(t, t', t'', q);
    StillLeads(t'', After(t'', third, q), Newest(t), SlotFrom(t'', Newest(t), TailOf(t', Newest(t)), q), q);
  }
}
