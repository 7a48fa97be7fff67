/**
  The producer's side of a sub-queue: the block index kept in place, single enqueue, and bulk enqueue
  with its rollback. Calls are taken one at a time; what consumers may do in between is the subject of
  `SubQueue` and of the lookup lemmas of `BlockIndex`.
 */
module ImplicitProducer {
  import opened Common
  import opened Modular
  import opened BlockIndex

  /** The table once there is room for another block. */
  ghost function Roomy(t: Table): (r: Table)
    requires Sound(t) && Settled(t) && t.headers != []
    ensures Sound(r) && Settled(r) && HasRoom(r) && r.headers != [] && r.next == t.next
  {
    if HasRoom(t) then t else GrowSound(t); Grow(t)
  }

  /** `e` is the entry of block `q`, with its key. */
  ghost predicate EntryIsFor(t: Table, e: nat, q: int)
    requires Shape(t) && t.headers != []
  {
    e == EntryOf(t, Newest(t), q) && t.keys[e] == BLOCK_SIZE * q
  }

  /** Inserting an entry leaves the blocks in use as they are and the index settled. */
  lemma Inserted(t: Table)
    requires Sound(t) && Settled(t) && t.headers != []
    ensures var r := Roomy(t); var t' := Advance(r);
            && Sound(t') && Settled(t') && EntryIsFor(t', NextEntry(r), t.next)
            && (forall q :: BlockAt(t', q) == BlockAt(t, q)) && BlockAt(t, t.next) == None
  {
    if BlockAt(t, t.next).Some? { InUseIsRecent(t, t.next); }
    var r := Roomy(t);
    forall q ensures BlockAt(Advance(r), q) == BlockAt(t, q) {
      AdvanceBlocks(r, q);
      if !HasRoom(t) { GrowBlocks(t, q); }
    }
    AdvanceBlocks(r, t.next);
    AdvanceSettled(r);
  }

  /** `BlockIndexHeader` and its entries, with the producer's `nextBlockIndexCapacity`. */
  class Index {
    var headers: seq<Header>
    var keys: seq<int>
    var values: seq<Option<Block>>
    var nextCapacity: nat
    ghost var shifts: seq<int>
    ghost var next: nat

    ghost function View(): Table
      reads this
    {
      Table(headers, shifts, keys, values, next)
    }

    ghost predicate Valid()
      reads this
    {
      Sound(View()) && CapacityFits()
    }

    ghost predicate CapacityFits()
      reads this
    {
      nextCapacity == if headers == [] then INITIAL_INDEX_SIZE else 2 * headers[|headers| - 1].capacity
    }

    /** The constructor of the sub-queue tries to allocate the first header and may fail. */
    constructor (malloc: bool)
      ensures Valid() && Settled(View()) && next == 0
      ensures forall q :: BlockAt(View(), q) == None
      ensures headers != [] <==> malloc
    {
      headers, keys, values, nextCapacity := [], [], [], INITIAL_INDEX_SIZE;
      shifts, next := [], 0;
      new;
      var ok := NewBlockIndex(malloc);
    }

    /** `new_block_index`: copy the entries oldest first, append fresh ones, publish. */
    method NewBlockIndex(malloc: bool) returns (ok: bool)
      requires Valid() && Settled(View()) && (headers == [] || !HasRoom(View()))
      modifies this
      ensures Valid() && ok == malloc
      ensures View() == if ok then Grow(old(View())) else old(View())
      ensures ok ==> Settled(View()) && HasRoom(View())
    {
      if !malloc {
        return false;
      }
      GrowSound(View());
      var header, newKeys, newValues := BuildHeader();
      Publish(header, newKeys, newValues, header.capacity - |newKeys| - next);
      return true;
    }

    /** `insert_block_index_entry`: the entry for the next block, growing the index when it is full. */
    method InsertEntry(canAlloc: bool, malloc: bool, base: int) returns (ok: bool, e: nat)
      requires Valid() && Settled(View()) && base == BLOCK_SIZE * next
      modifies this
      ensures Valid()
      ensures ok <==> old(headers) != [] && (HasRoom(old(View())) || (canAlloc && malloc))
      ensures !ok ==> View() == old(View())
      ensures ok ==> next == old(next) + 1 && Settled(View()) && headers != [] && EntryIsFor(View(), e, old(next))
      ensures SameBlocks(old(View()), View())
      ensures ok ==> BlockAt(View(), old(next)) == None
      ensures HasRoom(old(View())) ==> CapacityOf(View()) == CapacityOf(old(View()))
    {
      e := 0;
      if headers == [] {
        return false, e;
      }
      Inserted(View());
      var newTail;
      newTail, e := Following();
      if keys[e] == INVALID_BLOCK_BASE || values[e] == None {
        TakeEntry(e, newTail, base);
        return true, e;
      }
      if !canAlloc {
        return false, e;
      }
      ok := GrowAndTake(malloc, base);
      if ok {
        e := headers[|headers| - 1].slots[headers[|headers| - 1].tail];
      }
    }

    /** The slot after the tail, and its entry. */
    method Following() returns (newTail: nat, e: nat)
      requires Valid() && headers != []
      ensures newTail == (headers[|headers| - 1].tail + 1) % headers[|headers| - 1].capacity
      ensures e == NextEntry(View()) && e < |keys| == |values|
      ensures HasRoom(View()) <==> keys[e] == INVALID_BLOCK_BASE || values[e] == None
    {
      var header := headers[|headers| - 1];
      newTail := (header.tail + 1) % header.capacity;
      e := header.slots[newTail];
    }

    /** The index is full: allocate a larger one and take its first fresh entry. */
    method GrowAndTake(malloc: bool, base: int) returns (ok: bool)
      requires Valid() && Settled(View()) && headers != [] && !HasRoom(View()) && base == BLOCK_SIZE * next
      modifies this
      ensures Valid() && ok == malloc
      ensures View() == if ok then Advance(Roomy(old(View()))) else old(View())
      ensures ok ==> headers[|headers| - 1].slots[headers[|headers| - 1].tail] == NextEntry(Roomy(old(View())))
    {
      ok := NewBlockIndex(malloc);
      if ok {
        var newTail, e := Following();
        TakeEntry(e, newTail, base);
      }
    }

    /** The two stores that give the entry its key and make it the newest. */
    method TakeEntry(e: nat, newTail: nat, base: int)
      requires Valid() && HasRoom(View()) && base == BLOCK_SIZE * next
      requires e == NextEntry(View()) && newTail == (headers[|headers| - 1].tail + 1) % headers[|headers| - 1].capacity
      modifies this
      ensures Valid() && View() == Advance(old(View()))
    {
      AdvanceSound(View());
      ghost var t := View();
      keys := keys[e := base];
      headers := headers[|headers| - 1 := headers[|headers| - 1].(tail := newTail)];
      next := next + 1;
      assert headers == WithTail(t, newTail) && View() == Advance(t);
    }

    method RewindTail()
      requires Valid() && headers != [] && next > 0
      modifies this
      ensures Valid() && View() == Rewind(old(View()))
    {
      RewindSound(View());
      var header := headers[|headers| - 1];
      headers := headers[|headers| - 1 := header.(tail := (header.tail - 1) % header.capacity)];
      next := next - 1;
    }

    method StoreValue(e: nat, v: Option<Block>)
      requires Valid() && headers != [] && e < |keys|
      requires v.Some? ==>
                 next > 0 && e == EntryOf(View(), Newest(View()), next - 1) && keys[e] == BLOCK_SIZE * (next - 1)
      modifies this
      ensures Valid() && View() == Store(old(View()), e, v)
    {
      StoreSound(View(), e, v);
      values := values[e := v];
    }

    /** `get_block_index_entry_for_index`, by way of the key at the tail. */
    method EntryFor(base: int) returns (e: nat)
      requires Valid() && headers != [] && base % BLOCK_SIZE == 0
      requires keys[headers[|headers| - 1].slots[headers[|headers| - 1].tail]] != INVALID_BLOCK_BASE
      ensures e == EntryOf(View(), Newest(View()), base / BLOCK_SIZE)
    {
      var header := headers[|headers| - 1];
      var tailBase := keys[header.slots[header.tail]];
      AnyTailWillDo(View(), |headers| - 1, header.tail, base / BLOCK_SIZE);
      e := header.slots[LookupSlot(header.capacity, header.tail, tailBase, base)];
    }

    method BuildHeader() returns (header: Header, newKeys: seq<int>, newValues: seq<Option<Block>>)
      requires Valid()
      ensures header.capacity == nextCapacity
      ensures Grow(View()) == Table(headers + [header], shifts + [header.capacity - |newKeys| - next],
                                    keys + newKeys, values + newValues, next)
      ensures Grow(View()).headers[|headers|] == header
    {
      ghost var t := View();
      var prevCapacity := if headers == [] then 0 else headers[|headers| - 1].capacity;
      var entryCount := if headers == [] then nextCapacity else prevCapacity;
      var copied := CopyEntries(t);
      var slots := AppendFresh(copied, entryCount);
      newKeys, newValues := FreshEntries(entryCount);
      assert nextCapacity == prevCapacity + entryCount;
      header := Header(nextCapacity, (prevCapacity - 1) % nextCapacity, slots);
      GrowIs(t, slots, newKeys, newValues);
    }

    /** The stores that make a new header visible. */
    method Publish(header: Header, newKeys: seq<int>, newValues: seq<Option<Block>>, ghost shift: int)
      requires nextCapacity == header.capacity
      modifies this
      ensures View() == old(Table(headers + [header], shifts + [shift], keys + newKeys, values + newValues, next))
      ensures nextCapacity == 2 * header.capacity
    {
      headers := headers + [header];
      keys, values := keys + newKeys, values + newValues;
      shifts := shifts + [shift];
      nextCapacity := 2 * nextCapacity;
    }

    /** The entries of the newest header, from the oldest to the newest. */
    method CopyEntries(ghost t: Table) returns (slots: seq<nat>)
      requires t == View() && Shape(t)
      ensures headers == [] ==> slots == []
      ensures headers != [] ==> |slots| == headers[|headers| - 1].capacity
      ensures headers != [] ==> forall j :: 0 <= j < |slots| ==> slots[j] == Oldest(t, j)
    {
      slots := [];
      if headers != [] {
        var prev := headers[|headers| - 1];
        var prevPos := prev.tail;
        SmallMod(prev.tail, prev.capacity);
        var started := false;
        while !started || prevPos != prev.tail
          invariant |slots| <= prev.capacity && (started <==> slots != [])
          invariant prevPos == (prev.tail + |slots|) % prev.capacity
          invariant forall j :: 0 <= j < |slots| ==> slots[j] == Oldest(t, j)
          decreases prev.capacity - |slots|
        {
          OneRoundOnly(prev.tail, |slots|, prev.capacity);
          WalkStep(t, prevPos, |slots|);
          prevPos := (prevPos + 1) % prev.capacity;
          slots := slots + [prev.slots[prevPos]];
          started := true;
        }
        FullRound(prev.tail, |slots|, prev.capacity);
      }
    }
  }

  /** Entries are numbered in the order of their allocation. */
  method AppendFresh(copied: seq<nat>, count: nat) returns (slots: seq<nat>)
    ensures |slots| == |copied| + count && slots[..|copied|] == copied
    ensures forall j :: |copied| <= j < |slots| ==> slots[j] == j
  {
    slots := copied;
    for i := 0 to count
      invariant |slots| == |copied| + i && slots[..|copied|] == copied
      invariant forall j :: |copied| <= j < |slots| ==> slots[j] == j
    {
      slots := slots + [|copied| + i];
    }
  }

  method FreshEntries(count: nat) returns (newKeys: seq<int>, newValues: seq<Option<Block>>)
    ensures |newKeys| == |newValues| == count
    ensures forall j :: 0 <= j < count ==> newKeys[j] == INVALID_BLOCK_BASE && newValues[j] == None
  {
    newKeys, newValues := [], [];
    for i := 0 to count
      invariant |newKeys| == |newValues| == i
      invariant forall j :: 0 <= j < i ==> newKeys[j] == INVALID_BLOCK_BASE && newValues[j] == None
    {
      newKeys, newValues := newKeys + [INVALID_BLOCK_BASE], newValues + [None];
    }
  }

  /** The pieces `NewBlockIndex` allocates are those of the grown table. */
  lemma GrowIs(t: Table, slots: seq<nat>, newKeys: seq<int>, newValues: seq<Option<Block>>)
    requires Shape(t)
    requires var c := if t.headers == [] then 0 else t.headers[Newest(t)].capacity;
             var n := if t.headers == [] then INITIAL_INDEX_SIZE else c;
             && |slots| == c + n && |newKeys| == |newValues| == n
             && (forall j :: 0 <= j < c ==> slots[j] == Oldest(t, j))
             && (forall j :: c <= j < c + n ==> slots[j] == j)
             && (forall j :: 0 <= j < n ==> newKeys[j] == INVALID_BLOCK_BASE && newValues[j] == None)
    ensures var c := if t.headers == [] then 0 else t.headers[Newest(t)].capacity;
            var n := if t.headers == [] then INITIAL_INDEX_SIZE else c;
            && Grow(t) == Table(t.headers + [Header(c + n, (c - 1) % (c + n), slots)], t.shifts + [c - t.next],
                                t.keys + newKeys, t.values + newValues, t.next)
            && Grow(t).headers[|t.headers|].capacity == c + n
  {
    var g := Grow(t);
    if t.headers != [] {
      var c := t.headers[Newest(t)].capacity;
      SmallMod(c - 1, 2 * c);
    }
    assert slots == g.headers[|t.headers|].slots;
    assert t.keys + newKeys == g.keys && t.values + newValues == g.values;
  }

  /** A step of the walk around the newest header. */
  lemma WalkStep(t: Table, pos: nat, n: nat)
    requires Shape(t) && t.headers != [] && pos == (t.headers[Newest(t)].tail + n) % t.headers[Newest(t)].capacity
    ensures var x := t.headers[Newest(t)]; var next := (pos + 1) % x.capacity;
            next == (x.tail + (n + 1)) % x.capacity && x.slots[next] == Oldest(t, n)
  {
    AddReduced(t.headers[Newest(t)].tail + n, 1, t.headers[Newest(t)].capacity);
  }

  lemma SmallMod(x: int, m: int)
    requires 0 <= x < m
    ensures x % m == x
  {
    RemainderIsUnique(x, m, 0, x);
  }

  /** A walk that has taken some, but not yet `m`, steps around is not back where it began. */
  lemma OneRoundOnly(from: nat, steps: nat, m: nat)
    requires from < m && steps <= m && (steps == 0 || (from + steps) % m != from)
    ensures steps < m
  {
    if steps == m {
      MultipleAdded(from, 1, m);
      SmallMod(from, m);
    }
  }

  lemma FullRound(from: nat, steps: nat, m: nat)
    requires from < m && 0 < steps <= m && (from + steps) % m == from
    ensures steps == m
  {
    SmallMod(from, m);
    if steps < m { CloseAndCongruent(from + steps, from, m); }
  }

  type Item(==, !new, 0)

  /** The index leads to a block in which the element with index `i` was constructed. */
  ghost predicate HasItem(t: Table, elements: map<(Block, int), Item>, i: nat) {
    && Shape(t) && BlockAt(t, i / BLOCK_SIZE).Some?
    && (BlockAt(t, i / BLOCK_SIZE).value, i % BLOCK_SIZE) in elements
  }

  ghost function ItemOf(t: Table, elements: map<(Block, int), Item>, i: nat): Item
    requires HasItem(t, elements, i)
  {
    elements[(BlockAt(t, i / BLOCK_SIZE).value, i % BLOCK_SIZE)]
  }

  /** The elements with the indices from `lo` up to, not including, `hi`. */
  ghost function ItemsOf(t: Table, elements: map<(Block, int), Item>, lo: nat, hi: nat): (items: seq<Item>)
    requires lo <= hi && forall i: nat :: lo <= i < hi ==> HasItem(t, elements, i)
    ensures |items| == hi - lo && forall i: nat :: lo <= i < hi ==> items[i - lo] == ItemOf(t, elements, i)
    decreases hi - lo
  {
    if lo == hi then [] else [ItemOf(t, elements, lo)] + ItemsOf(t, elements, lo + 1, hi)
  }

  /** A pool block is not issued yet, in the free list or held; a dynamic one is held, gone or unborn. */
  ghost predicate PoolsSound(poolSize: nat, issued: nat, free: set<Block>, born: nat, held: set<Block>) {
    && poolSize <= born
    && (forall b: Block :: b < poolSize ==> (b in held <==> b < issued && b !in free))
    && (forall b: Block :: b in held ==> b < born)
    && (forall b: Block :: b in free ==> b < poolSize && b < issued)
  }

  /** The blocks of the initial pool that nobody holds: not issued yet, or in the free list. */
  ghost function Spare(poolSize: nat, held: set<Block>): set<Block> {
    set b: Block | b < poolSize && b !in held
  }

  lemma SpareOnes(poolSize: nat, issued: nat, free: set<Block>, born: nat, held: set<Block>)
    requires PoolsSound(poolSize, issued, free, born, held)
    ensures |Spare(poolSize, held)| > 0 <==> issued < poolSize || free != {}
  {
    var spare := Spare(poolSize, held);
    if issued < poolSize { assert issued in spare; }
    if free != {} {
      var b :| b in free;
      assert b in spare;
    }
    if spare != {} {
      var b :| b in spare;
      assert b >= issued || b in free;
    }
  }

  lemma SpareAfter(poolSize: nat, held: set<Block>, b: Block)
    requires b !in held
    ensures |Spare(poolSize, held + {b})| == |Spare(poolSize, held)| - if b < poolSize then 1 else 0
  {
    var spare, spare' := Spare(poolSize, held), Spare(poolSize, held + {b});
    if b < poolSize { assert spare == spare' + {b}; } else { assert spare == spare'; }
  }

  ghost function CapacityOf(t: Table): int {
    if t.headers == [] then 0 else t.headers[Newest(t)].capacity
  }

  /** No block from the one whose entry comes next up to block number `hi` is in use. */
  ghost predicate NoneInUse(t: Table, hi: int)
    requires Shape(t)
  {
    forall q :: t.next - CapacityOf(t) <= q <= hi ==> BlockAt(t, q) == None
  }

  /** The oldest blocks whose entries can be taken before the index has to grow: none up to them is in use. */
  ghost function Ahead(t: Table): set<int>
    requires Shape(t)
  {
    set q: int | t.next - CapacityOf(t) <= q < t.next && NoneInUse(t, q)
  }

  lemma HasRoomMeans(t: Table)
    requires Sound(t) && Settled(t) && t.headers != []
    ensures HasRoom(t) <==> t.next - CapacityOf(t) in Ahead(t)
    ensures HasRoom(t) <==> |Ahead(t)| > 0
  {
    var oldest := t.next - CapacityOf(t);
    NextSlot(t);
    OneRoundBack(t, Newest(t), t.next);
    assert NextEntry(t) == EntryOf(t, Newest(t), oldest);
    if HasRoom(t) { RoomIsFree(t); } else { FullMeansExact(t, 0); }
    if Ahead(t) != {} {
      var q :| q in Ahead(t);
      assert BlockAt(t, oldest) == None;
    }
  }

  /** A block added in place uses up one entry. */
  lemma AheadAfter(t: Table, t': Table, b: Block)
    requires OneMoreBlock(t, t', t.next, b) && t'.next == t.next + 1 && CapacityOf(t') == CapacityOf(t)
    requires t.next - CapacityOf(t) in Ahead(t)
    ensures |Ahead(t')| == |Ahead(t)| - 1
  {
    var oldest := t.next - CapacityOf(t);
    assert BlockAt(t, oldest) == None;
    forall q ensures q in Ahead(t') <==> q in Ahead(t) - {oldest} {
      if q in Ahead(t') { assert BlockAt(t', q) == None; }
    }
    assert Ahead(t') == Ahead(t) - {oldest};
  }

  /**
    What a producer can go on with: whether its index has been allocated, how many blocks fit before
    it has to grow, and how many blocks of the initial pool nobody holds.
   */
  datatype Stock = Stock(started: bool, room: nat, spare: nat)

  ghost function StockOf(t: Table, poolSize: nat, held: set<Block>): Stock
    requires Shape(t)
  {
    Stock(t.headers != [], |Ahead(t)|, |Spare(poolSize, held)|)
  }

  /** There are entries and blocks for `need` more, or there is memory for what is missing. */
  predicate Suffices(s: Stock, need: int, memory: bool) {
    need <= 0 || (s.started && (memory || (s.room >= need && s.spare >= need)))
  }

  /** A block has been added: it took an entry and a block of the pool, as long as there were any. */
  predicate Took(s: Stock, s': Stock) {
    && s'.started == s.started
    && (s.room > 0 ==> s'.room == s.room - 1)
    && s'.spare == if s.spare > 0 then s.spare - 1 else 0
  }

  /** After `k` blocks, without the heap or with it. */
  predicate Fares(s0: Stock, s: Stock, k: nat, canAlloc: bool) {
    && s.started == s0.started && Suffices(s0, k, canAlloc)
    && (k <= s0.room ==> s.room == s0.room - k)
    && s.spare == if k <= s0.spare then s0.spare - k else 0
  }

  lemma FaresAtFirst(s0: Stock, canAlloc: bool)
    ensures Fares(s0, s0, 0, canAlloc)
  {}

  lemma FaresOn(s0: Stock, s: Stock, s': Stock, k: nat, canAlloc: bool)
    requires Fares(s0, s, k, canAlloc) && Suffices(s, 1, canAlloc) && Took(s, s')
    ensures Fares(s0, s', k + 1, canAlloc)
  {}

  lemma FaresNoFurther(s0: Stock, s: Stock, k: nat, need: int, canAlloc: bool, memory: bool)
    requires Fares(s0, s, k, canAlloc) && !Suffices(s, 1, canAlloc && memory) && k < need
    ensures !Suffices(s0, need, canAlloc && memory)
  {}

  /** The blocks in the index are among those held, and no block is there twice. */
  ghost predicate Owns(t: Table, held: set<Block>) {
    && Shape(t)
    && (forall q :: BlockAt(t, q).Some? ==> BlockAt(t, q).value in held)
    && (forall p, q :: BlockAt(t, p).Some? && BlockAt(t, p) == BlockAt(t, q) ==> p == q)
  }

  /** An index and the blocks held, between two operations on the index. */
  datatype Snapshot = Snapshot(table: Table, held: set<Block>)

  type Settlement = x: Snapshot | Sound(x.table) && Settled(x.table) && Owns(x.table, x.held)
    witness Snapshot(Table([], [], [], [], 0), {})

  lemma OwnsOneMore(t: Table, t': Table, held: set<Block>, b: Block, n: int)
    requires Owns(t, held) && b !in held && OneMoreBlock(t, t', n, b)
    ensures Owns(t', held + {b})
  {}

  lemma OwnsTheSame(t: Table, t': Table, held: set<Block>)
    requires Owns(t, held) && SameBlocks(t, t')
    ensures Owns(t', held)
  {}

  ghost predicate SameBlocks(t: Table, t': Table) {
    Shape(t) && Shape(t') && forall q :: BlockAt(t', q) == BlockAt(t, q)
  }

  /** Block `b` has become number `n`; nothing else changed. */
  ghost predicate OneMoreBlock(t: Table, t': Table, n: int, b: Block) {
    Shape(t) && Shape(t') && forall q :: BlockAt(t', q) == if q == n then Some(b) else BlockAt(t, q)
  }

  /** Blocks in use stay where they are. */
  ghost predicate Keeps(t: Table, t': Table) {
    Shape(t) && Shape(t') && forall q :: BlockAt(t, q).Some? ==> BlockAt(t', q) == BlockAt(t, q)
  }

  lemma SameKeeps(t: Table, t': Table)
    requires SameBlocks(t, t')
    ensures Keeps(t, t')
  {}

  lemma OneMoreKeeps(t: Table, t': Table, b: Block)
    requires Sound(t) && Settled(t) && OneMoreBlock(t, t', t.next, b)
    ensures Keeps(t, t')
  {
    if BlockAt(t, t.next).Some? { InUseIsRecent(t, t.next); }
  }

  /** `el'` has the items from index `start` on, and still has whatever `el` had before `start`. */
  ghost predicate Written(t: Table, el: map<(Block, int), Item>, el': map<(Block, int), Item>, start: nat,
                          items: seq<Item>) {
    && (forall i: nat :: start <= i < start + |items| ==> HasItem(t, el', i) && ItemOf(t, el', i) == items[i - start])
    && (forall i: nat :: i < start && HasItem(t, el, i) ==> HasItem(t, el', i) && ItemOf(t, el', i) == ItemOf(t, el, i))
  }

  lemma SlotsOfIndices(t: Table, held: set<Block>, i: nat, j: nat)
    requires Owns(t, held) && i < j && BlockAt(t, i / BLOCK_SIZE).Some? && BlockAt(t, j / BLOCK_SIZE).Some?
    ensures (BlockAt(t, i / BLOCK_SIZE).value, i % BLOCK_SIZE) != (BlockAt(t, j / BLOCK_SIZE).value, j % BLOCK_SIZE)
  {
    if BlockAt(t, i / BLOCK_SIZE) == BlockAt(t, j / BLOCK_SIZE) {
      assert i / BLOCK_SIZE == j / BLOCK_SIZE;
    }
  }

  lemma WrittenOne(t: Table, el: map<(Block, int), Item>, el': map<(Block, int), Item>, held: set<Block>, start: nat,
                   items: seq<Item>, item: Item, b: Block)
    requires Written(t, el, el', start, items) && Owns(t, held)
    requires BlockAt(t, (start + |items|) / BLOCK_SIZE) == Some(b)
    ensures Written(t, el, el'[(b, (start + |items|) % BLOCK_SIZE) := item], start, items + [item])
  {
    var j := start + |items|;
    var el'' := el'[(b, j % BLOCK_SIZE) := item];
    forall i: nat | i < j && HasItem(t, el', i)
      ensures HasItem(t, el'', i) && ItemOf(t, el'', i) == ItemOf(t, el', i)
    {
      SlotsOfIndices(t, held, i, j);
    }
  }

  lemma WrittenFirst(t: Table, el: map<(Block, int), Item>, held: set<Block>, start: nat, item: Item, b: Block)
    requires Owns(t, held) && BlockAt(t, start / BLOCK_SIZE) == Some(b)
    ensures Written(t, el, el[(b, start % BLOCK_SIZE) := item], start, [item])
  {
    WrittenOne(t, el, el, held, start, [], item, b);
    assert [] + [item] == [item];
  }

  lemma NextIsSameBlock(n: nat)
    ensures (n + 1) % BLOCK_SIZE != 0 ==> (n + 1) / BLOCK_SIZE == n / BLOCK_SIZE
    ensures BlocksFor(n + 1) == n / BLOCK_SIZE + 1
  {}

  lemma KeptItem(t: Table, el: map<(Block, int), Item>, t': Table, el': map<(Block, int), Item>, tail: nat,
                 items: seq<Item>, i: nat)
    requires Keeps(t, t') && Written(t', el, el', tail, items) && i < tail && HasItem(t, el, i)
    ensures HasItem(t', el', i) && ItemOf(t', el', i) == ItemOf(t, el, i)
  {
    assert HasItem(t', el, i);
  }

  lemma ItemIn(t: Table, el: map<(Block, int), Item>, from: nat, to: nat, i: nat)
    requires from <= i < to && forall j: nat :: from <= j < to ==> HasItem(t, el, j)
    ensures |ItemsOf(t, el, from, to)| == to - from && ItemsOf(t, el, from, to)[i - from] == ItemOf(t, el, i)
  {}

  /** Every item of the new contents: an old one, or one that was written. */
  ghost predicate Joined(t: Table, el: map<(Block, int), Item>, t': Table, el': map<(Block, int), Item>, tail: nat,
                         items: seq<Item>, i: nat)
    requires Shape(t) && Shape(t')
  {
    && i < tail + |items| && HasItem(t', el', i)
    && (i < tail ==> HasItem(t, el, i) && ItemOf(t', el', i) == ItemOf(t, el, i))
    && (i >= tail ==> ItemOf(t', el', i) == items[i - tail])
  }

  lemma JoinedContents(t: Table, el: map<(Block, int), Item>, t': Table, el': map<(Block, int), Item>, head: nat,
                       tail: nat, end: nat, items: seq<Item>)
    requires Shape(t) && Shape(t') && head <= tail && end == tail + |items|
    requires forall i: nat :: head <= i < tail ==> HasItem(t, el, i)
    requires forall i: nat :: head <= i < end ==> HasItem(t', el', i)
    requires forall i: nat :: head <= i < end ==> Joined(t, el, t', el', tail, items, i)
    ensures ItemsOf(t', el', head, end) == ItemsOf(t, el, head, tail) + items
  {
    var before, after := ItemsOf(t, el, head, tail), ItemsOf(t', el', head, end);
    forall k: nat | k < end - head ensures after[k] == (before + items)[k] {
      assert Joined(t, el, t', el', tail, items, head + k);
      ItemIn(t', el', head, end, head + k);
      if head + k < tail { ItemIn(t, el, head, tail, head + k); }
    }
  }

  lemma ContentsGrow(t: Table, el: map<(Block, int), Item>, t': Table, el': map<(Block, int), Item>, head: nat,
                     tail: nat, items: seq<Item>)
    requires Keeps(t, t') && head <= tail && Written(t', el, el', tail, items)
    requires forall i: nat :: head <= i < tail ==> HasItem(t, el, i)
    ensures forall i: nat :: head <= i < tail + |items| ==> HasItem(t', el', i)
    ensures ItemsOf(t', el', head, tail + |items|) == ItemsOf(t, el, head, tail) + items
  {
    var end := tail + |items|;
    forall i: nat | head <= i < end ensures HasItem(t', el', i) && Joined(t, el, t', el', tail, items, i) {
      if i < tail { KeptItem(t, el, t', el', tail, items, i); }
    }
    JoinedContents(t, el, t', el', head, tail, end, items);
  }

  /** The base of the block with element `x`; `x` may be -1, one before the very first element. */
  function FloorBase(x: int): (r: int)
    ensures r <= x < r + BLOCK_SIZE && r % BLOCK_SIZE == 0
  {
    BLOCK_SIZE * (x / BLOCK_SIZE)
  }

  lemma OneBlockLess(left: int)
    ensures BLOCK_SIZE * left == 0 ==> left == 0
    ensures BLOCK_SIZE * left <= 0 ==> left <= 0
    ensures BLOCK_SIZE * left > 0 ==> left > 0 && BLOCK_SIZE * left - BLOCK_SIZE == BLOCK_SIZE * (left - 1)
  {}

  /** The first index past `n` elements is in, or just after, block number `BlocksFor(n) - 1`. */
  function BlocksFor(n: nat): (r: nat)
    ensures FloorBase(n - 1) == BLOCK_SIZE * (r - 1)
    ensures n > 0 ==> (n - 1) / BLOCK_SIZE == r - 1
  {
    (n + 31) / BLOCK_SIZE
  }

  lemma BlocksInBytes(n: nat, count: nat)
    ensures var need := BlocksFor(n + count) - BlocksFor(n);
            need >= 0 && FloorBase(n + count - 1) - FloorBase(n - 1) == BLOCK_SIZE * need
  {}

  lemma BlocksAreEnough(n: nat, m: int)
    requires m >= BlocksFor(n)
    ensures n < BLOCK_SIZE * m + BLOCK_SIZE
  {}

  lemma FullBlocks(n: nat)
    requires n % BLOCK_SIZE == 0
    ensures n == BLOCK_SIZE * BlocksFor(n)
  {}

  /** The blocks `got`, taken from the pools, follow those that `t0` knows. */
  ghost predicate Acquired(t0: Table, t: Table, held0: set<Block>, held: set<Block>, got: seq<Block>) {
    && Shape(t0) && Shape(t) && Distinct(got)
    && (forall j :: 0 <= j < |got| ==> got[j] !in held0)
    && held == held0 + Elements(got)
    && t.next == t0.next + |got|
    && (forall q :: AcquiredAt(t0, t, got, q))
  }

  ghost predicate AcquiredAt(t0: Table, t: Table, got: seq<Block>, q: int)
    requires Shape(t0) && Shape(t)
  {
    BlockAt(t, q) == if t0.next <= q < t0.next + |got| then Some(got[q - t0.next]) else BlockAt(t0, q)
  }

  lemma AcquiredOne(t0: Table, t: Table, t': Table, held0: set<Block>, held: set<Block>, got: seq<Block>, b: Block)
    requires Acquired(t0, t, held0, held, got) && b !in held
    requires OneMoreBlock(t, t', t.next, b) && t'.next == t.next + 1
    ensures Acquired(t0, t', held0, held + {b}, got + [b])
  {
    var got' := got + [b];
    assert Elements(got') == Elements(got) + {b};
    forall j | 0 <= j < |got| ensures got[j] != b { assert got[j] in Elements(got); }
    forall q ensures AcquiredAt(t0, t', got', q) {
      assert AcquiredAt(t0, t, got, q);
    }
  }

  lemma AcquiredSame(t0: Table, t: Table, t': Table, held0: set<Block>, held: set<Block>, got: seq<Block>)
    requires Acquired(t0, t, held0, held, got) && SameBlocks(t, t') && t'.next == t.next
    ensures Acquired(t0, t', held0, held, got)
  {
    forall q ensures AcquiredAt(t0, t', got, q) { assert AcquiredAt(t0, t, got, q); }
  }

  lemma AcquiredKeeps(t0: Table, t: Table, held0: set<Block>, held: set<Block>, got: seq<Block>)
    requires Sound(t0) && Settled(t0) && Acquired(t0, t, held0, held, got)
    ensures Keeps(t0, t)
  {
    forall q | BlockAt(t0, q).Some? ensures BlockAt(t, q) == BlockAt(t0, q) {
      assert AcquiredAt(t0, t, got, q);
      InUseIsRecent(t0, q);
    }
  }

  ghost function FirstOf(got: seq<Block>): Option<Block> {
    if got == [] then None else Some(got[0])
  }

  /** The tail block when `got` has been added after `startBlock`. */
  ghost function LastOf(startBlock: Option<Block>, got: seq<Block>): Option<Block> {
    if got == [] then startBlock else Some(got[|got| - 1])
  }

  /** The links: from the block the call started in, when it is not full, through all of `got`. */
  ghost predicate Chain(links: map<Block, Option<Block>>, startBlock: Option<Block>, fromStart: bool, got: seq<Block>) {
    && (forall j :: 0 <= j < |got| ==> LinkedAt(links, got, j))
    && (fromStart && got != [] ==>
          startBlock.Some? && startBlock.value in links && links[startBlock.value] == Some(got[0]))
  }

  ghost predicate LinkedAt(links: map<Block, Option<Block>>, got: seq<Block>, j: nat)
    requires j < |got|
  {
    got[j] in links && links[got[j]] == if j + 1 < |got| then Some(got[j + 1]) else None
  }

  lemma ChainOne(links: map<Block, Option<Block>>, startBlock: Option<Block>, fromStart: bool, got: seq<Block>,
                 b: Block)
    requires Chain(links, startBlock, fromStart, got) && Distinct(got) && b !in got
    requires fromStart ==> startBlock.Some? && startBlock.value != b && startBlock.value !in got
    ensures var last := LastOf(startBlock, got);
            var l := links[b := None];
            Chain(if (fromStart || got != []) && last.Some? then l[last.value := Some(b)] else l,
                  startBlock, fromStart, got + [b])
  {
    var last := LastOf(startBlock, got);
    var l := links[b := None];
    var links' := if (fromStart || got != []) && last.Some? then l[last.value := Some(b)] else l;
    forall j: nat | j < |got + [b]| ensures LinkedAt(links', got + [b], j) {
      assert j < |got| ==> LinkedAt(links, got, j);
    }
  }

  lemma NextInChain(links: map<Block, Option<Block>>, startBlock: Option<Block>, fromStart: bool, got: seq<Block>,
                    k: nat)
    requires Chain(links, startBlock, fromStart, got) && k < |got|
    ensures got[k] in links && links[got[k]] == if k + 1 < |got| then Some(got[k + 1]) else None
  {
    assert LinkedAt(links, got, k);
  }

  /** Blocks number `lo` to `hi` are in the index, each linked to the next. */
  ghost predicate Run(t: Table, links: map<Block, Option<Block>>, lo: int, hi: int) {
    && Shape(t)
    && (forall q :: lo <= q <= hi ==> BlockAt(t, q).Some?)
    && (forall q :: lo <= q < hi ==> BlockAt(t, q).value in links && links[BlockAt(t, q).value] == BlockAt(t, q + 1))
  }

  lemma ChainIsRun(t0: Table, t: Table, links: map<Block, Option<Block>>, held0: set<Block>, held: set<Block>,
                   got: seq<Block>,
                   start: nat, last: nat, startBlock: Option<Block>)
    requires Acquired(t0, t, held0, held, got) && Chain(links, startBlock, start % BLOCK_SIZE != 0, got)
    requires start <= last && t0.next == BlocksFor(start) && t.next == last / BLOCK_SIZE + 1
    requires start % BLOCK_SIZE != 0 ==> startBlock.Some? && BlockAt(t0, start / BLOCK_SIZE) == startBlock
    ensures Run(t, links, start / BLOCK_SIZE, last / BLOCK_SIZE)
    ensures BlockAt(t, last / BLOCK_SIZE) == LastOf(startBlock, got)
    ensures BlockAt(t, start / BLOCK_SIZE) == if start % BLOCK_SIZE != 0 then startBlock else Some(got[0])
  {
    forall q | start / BLOCK_SIZE <= q <= last / BLOCK_SIZE
      ensures BlockAt(t, q) == if q < t0.next then startBlock else Some(got[q - t0.next])
      ensures BlockAt(t, q).Some?
    {
      assert AcquiredAt(t0, t, got, q);
    }
    forall q | start / BLOCK_SIZE <= q < last / BLOCK_SIZE
      ensures BlockAt(t, q).value in links && links[BlockAt(t, q).value] == BlockAt(t, q + 1)
    {
      if q >= t0.next { assert LinkedAt(links, got, q - t0.next); }
    }
  }

  /** `k` of the blocks in `got` are out of the index again; the rest of them have their keys still. */
  ghost predicate Undone(t0: Table, t: Table, got: seq<Block>, k: nat) {
    && Shape(t0) && Shape(t) && k <= |got| && t.next == t0.next + |got| - k
    && (forall q :: UndoneAt(t0, t, got, k, q))
    && LiveBelow(t, t0.next + |got|)
  }

  ghost predicate UndoneAt(t0: Table, t: Table, got: seq<Block>, k: nat, q: int)
    requires Shape(t0) && Shape(t)
  {
    && BlockAt(t, q) == (if t0.next + k <= q < t0.next + |got| then Some(got[q - t0.next]) else BlockAt(t0, q))
    && (t0.next <= q < t0.next + |got| ==> HasKey(t, q))
  }

  ghost predicate HasKey(t: Table, q: int)
    requires Shape(t)
  {
    t.headers != [] && t.keys[EntryOf(t, Newest(t), q)] == BLOCK_SIZE * q
  }

  ghost predicate LiveBelow(t: Table, bound: int)
    requires Shape(t)
  {
    t.headers != [] ==>
      forall s :: 0 <= s < t.headers[Newest(t)].capacity && t.values[At(t, s)].Some? ==>
                    t.keys[At(t, s)] / BLOCK_SIZE < bound
  }

  lemma KeysOf(t0: Table, t: Table, held0: set<Block>, held: set<Block>, got: seq<Block>)
    requires Sound(t0) && Settled(t0) && Acquired(t0, t, held0, held, got) && Settled(t)
    ensures Undone(t0, t, got, 0)
  {
    forall q ensures UndoneAt(t0, t, got, 0, q) { assert AcquiredAt(t0, t, got, q); }
  }

  /** One step of the rollback: block `n` loses its value, and the tail moves back. */
  function Undo(t: Table, n: int): Table
    requires Shape(t) && t.headers != [] && t.next > 0
  {
    Rewind(Store(t, EntryOf(t, Newest(t), n), None))
  }

  lemma UndoSound(t: Table, n: int)
    requires Sound(t) && t.headers != [] && t.next > 0
    ensures Sound(Store(t, EntryOf(t, Newest(t), n), None)) && Sound(Undo(t, n))
  {
    StoreSound(t, EntryOf(t, Newest(t), n), None);
    RewindSound(Store(t, EntryOf(t, Newest(t), n), None));
  }

  lemma UndoAt(t: Table, n: int, q: int)
    requires Shape(t) && t.headers != [] && t.next > 0 && HasKey(t, n)
    requires Shape(Undo(t, n))
    ensures BlockAt(Undo(t, n), q) == if q == n then None else BlockAt(t, q)
    ensures HasKey(t, q) ==> HasKey(Undo(t, n), q)
  {
    assert EntryOf(Undo(t, n), Newest(t), q) == EntryOf(t, Newest(t), q);
  }

  lemma UndoBelow(t: Table, n: int, bound: int)
    requires Shape(t) && t.headers != [] && t.next > 0 && LiveBelow(t, bound) && Shape(Undo(t, n))
    ensures LiveBelow(Undo(t, n), bound)
  {
    var t' := Undo(t, n);
    forall s | 0 <= s < t'.headers[Newest(t')].capacity && t'.values[At(t', s)].Some?
      ensures t'.keys[At(t', s)] / BLOCK_SIZE < bound
    {
      assert At(t', s) == At(t, s);
    }
  }

  lemma UndoneOneAt(t0: Table, t: Table, got: seq<Block>, k: nat, q: int)
    requires Shape(t0) && Shape(t) && t.headers != [] && t.next > 0 && Shape(Undo(t, t0.next + k))
    requires UndoneAt(t0, t, got, k, q) && HasKey(t, t0.next + k) && BlockAt(t0, t0.next + k) == None
    ensures UndoneAt(t0, Undo(t, t0.next + k), got, k + 1, q)
  {
    UndoAt(t, t0.next + k, q);
  }

  lemma UndoneEverywhere(t0: Table, t: Table, got: seq<Block>, k: nat, k': nat, t': Table)
    requires Shape(t0) && Shape(t) && t.headers != [] && t.next > 0 && t' == Undo(t, t0.next + k) && Shape(t')
             && k' == k + 1
    requires HasKey(t, t0.next + k) && BlockAt(t0, t0.next + k) == None && forall q :: UndoneAt(t0, t, got, k, q)
    ensures forall q :: UndoneAt(t0, t', got, k', q)
  {
    forall q ensures UndoneAt(t0, t', got, k', q) {
      assert UndoneAt(t0, t, got, k, q);
      UndoneOneAt(t0, t, got, k, q);
    }
  }

  lemma UndoneOne(t0: Table, t: Table, got: seq<Block>, k: nat, k': nat, n: nat)
    requires Undone(t0, t, got, k) && k < |got| && k' == k + 1 && n == t0.next + k && BlockAt(t0, n) == None
    requires t.headers != [] && Shape(Undo(t, n))
    ensures Undone(t0, Undo(t, n), got, k')
  {
    var t' := Undo(t, n);
    assert UndoneAt(t0, t, got, k, n);
    UndoneEverywhere(t0, t, got, k, k', t');
    UndoBelow(t, n, t0.next + |got|);
  }

  ghost predicate NothingBeyond(t: Table) {
    Shape(t) && forall n :: n >= t.next ==> BlockAt(t, n) == None
  }

  lemma SettledMeansNothingBeyond(t: Table)
    requires Sound(t) && Settled(t)
    ensures NothingBeyond(t)
  {
    forall n | n >= t.next ensures BlockAt(t, n) == None { NotThereBefore(t, n); }
  }

  lemma NotThereBefore(t0: Table, n: int)
    requires Sound(t0) && Settled(t0) && n >= t0.next
    ensures BlockAt(t0, n) == None
  {
    if BlockAt(t0, n).Some? { InUseIsRecent(t0, n); }
  }

  /** During the rollback the key at the tail is valid, so lookups work. */
  lemma TailKeyInRollback(t0: Table, t: Table, got: seq<Block>, k: nat)
    requires Sound(t) && Undone(t0, t, got, k) && k < |got|
    ensures t.headers != []
    ensures t.keys[t.headers[Newest(t)].slots[t.headers[Newest(t)].tail]] != INVALID_BLOCK_BASE
  {
    assert UndoneAt(t0, t, got, k, t.next - 1);
  }

  lemma UndoneStep(t0: Table, t: Table, got: seq<Block>, k: nat, k': nat, n: nat) returns (t': Table)
    requires NothingBeyond(t0) && Sound(t) && Undone(t0, t, got, k) && k < |got| && k' == k + 1 && n == t0.next + k
    ensures t.headers != [] && t.next > 0
    ensures t.keys[t.headers[Newest(t)].slots[t.headers[Newest(t)].tail]] != INVALID_BLOCK_BASE
    ensures t' == Undo(t, n) && Undone(t0, t', got, k')
  {
    TailKeyInRollback(t0, t, got, k);
    UndoSound(t, n);
    t' := Undo(t, n);
    UndoneOne(t0, t, got, k, k', n);
  }

  /** With all of them undone, no live block is newer than the newest. */
  lemma UndoneSettled(t0: Table, t: Table, got: seq<Block>)
    requires Sound(t0) && Settled(t0) && Sound(t) && Undone(t0, t, got, |got|)
    ensures Settled(t) && SameBlocks(t0, t)
  {
    if t.headers != [] {
      forall s | 0 <= s < t.headers[Newest(t)].capacity && t.values[At(t, s)].Some?
        ensures t.keys[At(t, s)] / BLOCK_SIZE < t.next
      {
        var q := t.keys[At(t, s)] / BLOCK_SIZE;
        assert KeyIsRecent(t, s) && KeyFitsSlot(t, Newest(t), s);
        if q >= t.next {
          assert UndoneAt(t0, t, got, |got|, q);
          KeyDeterminesEntry(t, s, q);
          NotThereBefore(t0, q);
        }
      }
    }
    forall q ensures BlockAt(t, q) == BlockAt(t0, q) { assert UndoneAt(t0, t, got, |got|, q); }
  }

  /** A sub-queue as its producer sees it, with the pools its blocks come from. */
  class Producer {
    const index: Index
    var tailIndex: nat
    var headIndex: nat              // moved by consumers
    var tailBlock: Option<Block>
    var elements: map<(Block, int), Item>       // constructed elements, by block and slot
    var links: map<Block, Option<Block>>        // Block::next
    var dequeued: map<Block, nat>               // elementsCompletelyDequeued

    const poolSize: nat
    var issued: nat
    var free: set<Block>
    var born: nat                   // the next dynamically allocated block
    ghost var held: set<Block>      // blocks requisitioned and not given back

    /** The block that holds the element with index `i`. */
    ghost function BlockOf(i: int): Option<Block>
      requires Sound(index.View())
      reads index
    {
      BlockAt(index.View(), i / BLOCK_SIZE)
    }

    ghost predicate PoolsValid()
      reads `issued, `free, `born, `held
    {
      PoolsSound(poolSize, issued, free, born, held)
    }

    /** What holds between the operations on the index and the pools, whatever the tail. */
    ghost predicate Between()
      reads `issued, `free, `born, `held, index
    {
      index.Valid() && Settled(index.View()) && PoolsValid() && Owns(index.View(), held)
    }

    ghost function Stock(): Stock
      requires Shape(index.View())
      reads `held, index
    {
      StockOf(index.View(), poolSize, held)
    }

    /** The same, with the index and the blocks held as in `x`. */
    ghost predicate At(x: Settlement)
      reads `issued, `free, `born, `held, index
    {
      index.View() == x.table && held == x.held && index.CapacityFits() && PoolsValid()
    }

    ghost predicate Valid()
      reads this, index
    {
      && Between()
      && headIndex <= tailIndex
      && index.next == BlocksFor(tailIndex)
      && (tailIndex % BLOCK_SIZE != 0 ==> tailBlock.Some? && BlockOf(tailIndex) == tailBlock)
      && (forall i: nat :: headIndex <= i < tailIndex ==> HasItem(index.View(), elements, i))
    }

    /** What the consumers will get, in order. */
    ghost function Contents(): seq<Item>
      requires Valid()
      reads this, index
    {
      ItemsOf(index.View(), elements, headIndex, tailIndex)
    }

    /** An empty sub-queue; allocating the first header of its index may fail. */
    constructor (poolSize: nat, malloc: bool)
      ensures Valid() && Contents() == [] && held == {} && fresh(index)
    {
      index := new Index(malloc);
      this.poolSize, issued, free, born, held := poolSize, 0, {}, poolSize, {};
      tailIndex, headIndex, tailBlock := 0, 0, None;
      elements, links, dequeued := map[], map[], map[];
    }

    /** `requisition_block`: the initial pool, then the free list, then the heap. */
    method RequisitionBlock(canAlloc: bool, malloc: bool) returns (b: Option<Block>)
      requires PoolsValid()
      modifies this`issued, this`free, this`born, this`held
      ensures PoolsValid()
      ensures b.Some? ==> b.value !in old(held) && held == old(held) + {b.value}
      ensures b == None <==> old(issued) >= poolSize && old(free) == {} && !(canAlloc && malloc)
      ensures old(issued) < poolSize ==>
                b == Some(old(issued)) && issued == old(issued) + 1 && free == old(free) && born == old(born)
      ensures old(issued) >= poolSize && old(free) != {} ==>
                && b.Some? && b.value in old(free) && free == old(free) - {b.value}
                && issued == old(issued) && born == old(born)
      ensures old(issued) >= poolSize && old(free) == {} ==> issued == old(issued) && free == old(free)
      ensures old(issued) >= poolSize && old(free) == {} && b.Some? ==> b == Some(old(born)) && born == old(born) + 1
      ensures b.None? ==> held == old(held) && born == old(born)
    {
      if issued < poolSize {
        b := Some(issued);
        issued := issued + 1;
      } else if free != {} {
        var f :| f in free;
        free := free - {f};
        b := Some(f);
      } else if canAlloc && malloc {
        b := Some(born);
        born := born + 1;
      } else {
        return None;
      }
      held := held + {b.value};
    }

    /** `add_block_to_free_list`: dynamically allocated blocks go back to the heap. */
    method AddBlockToFreeList(b: Block)
      requires PoolsValid() && b in held
      modifies this`free, this`held
      ensures PoolsValid() && held == old(held) - {b}
      ensures free == if b < poolSize then old(free) + {b} else old(free)
    {
      if b < poolSize {
        free := free + {b};
      }
      held := held - {b};
    }

    /**
      One block more for the queue: its entry, the block itself, its counter and its place in the
      index. When the block cannot be had, the entry is given back.
     */
    method AddBlock(canAlloc: bool, memory: bool, base: int) returns (b: Option<Block>)
      requires Between()
      requires base == BLOCK_SIZE * index.next
      modifies this`issued, this`free, this`born, this`held, this`dequeued, index
      ensures Between()
      ensures b.Some? ==> b.value !in old(held) && held == old(held) + {b.value} && index.next == old(index.next) + 1
      ensures b.Some? ==> dequeued == old(dequeued)[b.value := 0]
      ensures b.Some? ==> OneMoreBlock(old(index.View()), index.View(), old(index.next), b.value)
      ensures b.None? ==> held == old(held) && index.next == old(index.next) && dequeued == old(dequeued)
      ensures b.None? ==> SameBlocks(old(index.View()), index.View())
      ensures Suffices(old(Stock()), 1, canAlloc && memory) ==> b.Some?
      ensures b.Some? ==> Suffices(old(Stock()), 1, canAlloc) && Took(old(Stock()), Stock())
    {
      b := None;
      var malloc: bool := *;
      ghost var t, held0 := index.View(), held;
      if t.headers != [] { HasRoomMeans(t); }
      var ok, e := ReserveEntry(canAlloc, memory, base);
      if ok {
        b := FillEntry(canAlloc, memory || malloc, e);
        if b.Some? {
          SpareAfter(poolSize, held0, b.value);
          if HasRoom(t) { AheadAfter(t, index.View(), b.value); }
        }
      }
    }

    method ReserveEntry(canAlloc: bool, memory: bool, base: int) returns (ok: bool, e: nat)
      requires index.Valid() && Settled(index.View()) && Owns(index.View(), held)
      requires base == BLOCK_SIZE * index.next
      modifies index
      ensures index.Valid() && Settled(index.View()) && Owns(index.View(), held)
      ensures SameBlocks(old(index.View()), index.View())
      ensures index.next == old(index.next) + if ok then 1 else 0
      ensures ok ==> index.headers != [] && EntryIsFor(index.View(), e, index.next - 1)
      ensures ok ==> BlockAt(index.View(), index.next - 1) == None
      ensures old(index.headers) != [] && (old(HasRoom(index.View())) || (canAlloc && memory)) ==> ok
      ensures ok ==> old(index.headers) != [] && (old(HasRoom(index.View())) || canAlloc)
      ensures old(HasRoom(index.View())) ==> CapacityOf(index.View()) == CapacityOf(old(index.View()))
    {
      var malloc: bool := *;
      ghost var t := index.View();
      ok, e := index.InsertEntry(canAlloc, memory || malloc, base);
      OwnsTheSame(t, index.View(), held);
    }

    /** The block for an entry just inserted, or the entry is rewound and cleared. */
    method FillEntry(canAlloc: bool, malloc: bool, e: nat) returns (b: Option<Block>)
      requires Between() && index.next > 0 && index.headers != []
      requires EntryIsFor(index.View(), e, index.next - 1) && BlockAt(index.View(), index.next - 1) == None
      modifies this`issued, this`free, this`born, this`held, this`dequeued, index
      ensures Between()
      ensures b.Some? ==> b.value !in old(held) && held == old(held) + {b.value} && index.next == old(index.next)
      ensures b.Some? ==> dequeued == old(dequeued)[b.value := 0]
      ensures b.Some? ==> OneMoreBlock(old(index.View()), index.View(), old(index.next) - 1, b.value)
      ensures b.None? ==> held == old(held) && index.next == old(index.next) - 1
      ensures b.None? ==> dequeued == old(dequeued)
      ensures b.None? ==> SameBlocks(old(index.View()), index.View())
      ensures b.Some? ==> |Spare(poolSize, old(held))| > 0 || canAlloc
      ensures |Spare(poolSize, old(held))| > 0 || (canAlloc && malloc) ==> b.Some?
      ensures b.Some? ==> (b.value < poolSize <==> |Spare(poolSize, old(held))| > 0)
      ensures b.Some? ==> index.headers == old(index.headers) != []
    {
      ghost var t := index.View();
      SpareOnes(poolSize, issued, free, born, held);
      b := RequisitionBlock(canAlloc, malloc);
      if b.None? {
        GiveBackEntry(e);
        OwnsTheSame(t, index.View(), held);
      } else {
        dequeued := dequeued[b.value := 0];
        UseEntry(e, b.value);
        OwnsOneMore(t, index.View(), old(held), b.value, t.next - 1);
      }
    }

    method GiveBackEntry(e: nat)
      requires index.Valid() && index.next > 0 && index.headers != []
      requires EntryIsFor(index.View(), e, index.next - 1) && BlockAt(index.View(), index.next - 1) == None
      requires Settled(index.View())
      modifies index
      ensures index.Valid() && index.next == old(index.next) - 1 && Settled(index.View())
      ensures SameBlocks(old(index.View()), index.View())
    {
      GivenBack(index.View(), e);
      index.RewindTail();
      index.StoreValue(e, None);
    }

    method UseEntry(e: nat, b: Block)
      requires index.Valid() && index.next > 0 && index.headers != [] && Settled(index.View())
      requires EntryIsFor(index.View(), e, index.next - 1)
      modifies index
      ensures index.Valid() && index.next == old(index.next) && Settled(index.View())
              && index.headers == old(index.headers)
      ensures OneMoreBlock(old(index.View()), index.View(), index.next - 1, b)
    {
      Used(index.View(), e, b);
      index.StoreValue(e, Some(b));
    }

    /** The elements `items` have been published from index `start` on. */
    lemma Published(t: Table, el: map<(Block, int), Item>, start: nat, items: seq<Item>)
      requires headIndex <= start && tailIndex == start + |items|
      requires Keeps(t, index.View()) && Written(index.View(), el, elements, start, items)
      requires forall i: nat :: headIndex <= i < start ==> HasItem(t, el, i)
      requires index.next == BlocksFor(tailIndex)
      requires tailIndex % BLOCK_SIZE != 0 ==>
                 tailBlock.Some? && BlockAt(index.View(), tailIndex / BLOCK_SIZE) == tailBlock
      ensures Between() ==> Valid() && Contents() == ItemsOf(t, el, headIndex, start) + items
    {
      ContentsGrow(t, el, index.View(), elements, headIndex, start, items);
    }

    /**
      `enqueue`: at the start of a block a new one is needed; then the element is constructed and
      published.
     */
    method Enqueue(canAlloc: bool, memory: bool, item: Item) returns (ok: bool)
      requires Valid()
      modifies this, index
      ensures Valid() && headIndex == old(headIndex)
      ensures ok ==> tailIndex == old(tailIndex) + 1 && Contents() == old(Contents()) + [item]
      ensures !ok ==> tailIndex == old(tailIndex) && tailBlock == old(tailBlock) && held == old(held)
      ensures !ok ==> Contents() == old(Contents()) && SameBlocks(old(index.View()), index.View())
      ensures old(tailIndex) % BLOCK_SIZE != 0 ==> ok
      ensures Suffices(old(Stock()), 1, canAlloc && memory) ==> ok
      ensures ok && old(tailIndex) % BLOCK_SIZE == 0 ==> Suffices(old(Stock()), 1, canAlloc)
    {
      ghost var t, el := index.View(), elements;
      ok := true;
      if tailIndex % BLOCK_SIZE == 0 {
        FullBlocks(tailIndex);
        ok := StartBlock(canAlloc, memory);
      }
      if ok {
        Append(item, t);
      } else {
        Published(t, el, tailIndex, []);
      }
    }

    /** The part of `enqueue` that cannot fail; it touches neither the index nor the pools. */
    method Append(item: Item, ghost t: Table)
      requires Owns(index.View(), held) && Keeps(t, index.View()) && headIndex <= tailIndex
      requires tailBlock.Some? && BlockAt(index.View(), tailIndex / BLOCK_SIZE) == tailBlock
      requires index.next == tailIndex / BLOCK_SIZE + 1
      requires forall i: nat :: headIndex <= i < tailIndex ==> HasItem(t, elements, i)
      modifies this`elements, this`tailIndex
      ensures tailIndex == old(tailIndex) + 1
      ensures Between() ==> Valid() && Contents() == ItemsOf(t, old(elements), headIndex, old(tailIndex)) + [item]
    {
      ghost var el, start := elements, tailIndex;
      WrittenFirst(index.View(), el, held, start, item, tailBlock.value);
      Construct(tailIndex, item);
      tailIndex := tailIndex + 1;
      NextIsSameBlock(start);
      Published(t, el, start, [item]);
    }

    method StartBlock(canAlloc: bool, memory: bool) returns (ok: bool)
      requires Between() && headIndex <= tailIndex && tailIndex == BLOCK_SIZE * index.next
      modifies this`issued, this`free, this`born, this`held, this`dequeued, this`tailBlock, index
      ensures Between() && Keeps(old(index.View()), index.View())
      ensures ok ==> tailBlock.Some? && BlockOf(tailIndex) == tailBlock && index.next == old(index.next) + 1
      ensures !ok ==> tailBlock == old(tailBlock) && held == old(held) && index.next == old(index.next)
      ensures !ok ==> SameBlocks(old(index.View()), index.View())
      ensures Suffices(old(Stock()), 1, canAlloc && memory) ==> ok
      ensures ok ==> Suffices(old(Stock()), 1, canAlloc)
    {
      ok := false;
      if headIndex < tailIndex + BLOCK_SIZE {
        ghost var t := index.View();
        var b := AddBlock(canAlloc, memory, tailIndex);
        if b.None? {
          SameKeeps(t, index.View());
        } else {
          OneMoreKeeps(t, index.View(), b.value);
          tailBlock := b;
          ok := true;
        }
      }
    }

    /** Placement `new` in the tail block. */
    method Construct(i: nat, item: Item)
      requires tailBlock.Some?
      modifies this`elements
      ensures elements == old(elements)[(tailBlock.value, i % BLOCK_SIZE) := item]
    {
      elements := elements[(tailBlock.value, i % BLOCK_SIZE) := item];
    }

    // -------------------------------------------------------------- bulk enqueue

    /**
      `enqueue_bulk`: allocate every block that is needed, or none; then construct the elements block
      by block and publish them all at once.
     */
    method EnqueueBulk(canAlloc: bool, memory: bool, items: seq<Item>) returns (ok: bool)
      requires Valid()
      modifies this, index
      ensures Valid() && headIndex == old(headIndex)
      ensures ok ==> tailIndex == old(tailIndex) + |items| && Contents() == old(Contents()) + items
      ensures !ok ==> tailIndex == old(tailIndex) && tailBlock == old(tailBlock) && held == old(held)
      ensures !ok ==> Contents() == old(Contents()) && SameBlocks(old(index.View()), index.View())
      ensures Suffices(old(Stock()), old(NewBlocks(|items|)), canAlloc && memory) ==> ok
      ensures ok ==> Suffices(old(Stock()), old(NewBlocks(|items|)), canAlloc)
    {
      ghost var t, el := index.View(), elements;
      var endBlock;
      ok, endBlock := Prepare(canAlloc, memory, |items|, Stock(), NewBlocks(|items|));
      if ok {
        FillAndPublish(items, endBlock, t);
      } else {
        Published(t, el, tailIndex, []);
      }
    }

    /** How many blocks `count` more elements need. */
    function NewBlocks(count: nat): int
      reads `tailIndex
    {
      BlocksFor(tailIndex + count) - BlocksFor(tailIndex)
    }

    /** Everything before the first element is constructed: the blocks, and where to start. */
    method Prepare(canAlloc: bool, memory: bool, count: nat, ghost s0: Stock, ghost need: int)
      returns (ok: bool, endBlock: Option<Block>)
      requires Between() && headIndex <= tailIndex && index.next == BlocksFor(tailIndex)
      requires tailIndex % BLOCK_SIZE != 0 ==> tailBlock.Some? && BlockOf(tailIndex) == tailBlock
      requires s0 == Stock() && need == NewBlocks(count)
      modifies this`issued, this`free, this`born, this`held, this`dequeued, this`links, this`tailBlock, index
      ensures Between() && Keeps(old(index.View()), index.View())
      ensures !ok ==> tailBlock == old(tailBlock) && held == old(held) && index.next == old(index.next)
      ensures !ok ==> SameBlocks(old(index.View()), index.View())
      ensures ok ==> Ready(count, endBlock)
      ensures Suffices(s0, need, canAlloc && memory) ==> ok
      ensures ok ==> Suffices(s0, need, canAlloc)
    {
      ghost var t, held0 := index.View(), held;
      var startBlock := tailBlock;
      var first;
      ghost var got;
      ok, first, endBlock, got := AllocateBlocks(canAlloc, memory, count, s0, need);
      if ok {
        MakeReady(count, startBlock, first, endBlock, t, held0, got);
      } else {
        SameKeeps(t, index.View());
      }
    }

    /** With the blocks in place, back to where the first element goes. */
    method MakeReady(count: nat, startBlock: Option<Block>, first: Option<Block>, endBlock: Option<Block>,
                     ghost t: Table, ghost held0: set<Block>, ghost got: seq<Block>)
      requires Between()
      requires Sound(t) && Settled(t) && Acquired(t, index.View(), held0, held, got)
      requires Chain(links, startBlock, tailIndex % BLOCK_SIZE != 0, got)
      requires first == FirstOf(got)
      requires endBlock == LastOf(startBlock, got)
      requires t.next == BlocksFor(tailIndex) && index.next == BlocksFor(tailIndex + count)
      requires tailIndex % BLOCK_SIZE != 0 ==> startBlock.Some? && BlockAt(t, tailIndex / BLOCK_SIZE) == startBlock
      modifies this`tailBlock
      ensures Between()
      ensures Keeps(t, index.View()) && Ready(count, endBlock)
    {
      AcquiredKeeps(t, index.View(), held0, held, got);
      BackToStart(count, startBlock, first, t, held0, got);
      if count == 0 && tailIndex % BLOCK_SIZE != 0 {
        assert AcquiredAt(t, index.View(), got, tailIndex / BLOCK_SIZE);
      }
    }

    /** Every block for `count` more elements is in the index and linked, and the tail block is the first to fill. */
    ghost predicate Ready(count: nat, endBlock: Option<Block>)
      reads this, index
    {
      && Shape(index.View()) && index.next == BlocksFor(tailIndex + count)
      && (if count > 0 then
            && tailBlock == BlockAt(index.View(), tailIndex / BLOCK_SIZE)
            && Run(index.View(), links, tailIndex / BLOCK_SIZE, (tailIndex + count - 1) / BLOCK_SIZE)
            && endBlock == BlockAt(index.View(), (tailIndex + count - 1) / BLOCK_SIZE)
          else
            && tailBlock == endBlock
            && (tailIndex % BLOCK_SIZE != 0 ==>
                  endBlock.Some? && BlockAt(index.View(), tailIndex / BLOCK_SIZE) == endBlock))
    }

    /** Constructing starts in the block that was the tail block, unless that one is full. */
    method BackToStart(count: nat, startBlock: Option<Block>, first: Option<Block>, ghost t: Table,
                       ghost held0: set<Block>,
                       ghost got: seq<Block>)
      requires Acquired(t, index.View(), held0, held, got) && Chain(links, startBlock, tailIndex % BLOCK_SIZE != 0, got)
      requires t.next == BlocksFor(tailIndex) && index.next == BlocksFor(tailIndex + count)
      requires tailIndex % BLOCK_SIZE != 0 ==> startBlock.Some? && BlockAt(t, tailIndex / BLOCK_SIZE) == startBlock
      requires first == FirstOf(got)
      modifies this`tailBlock
      ensures Shape(index.View())
      ensures count > 0 ==> tailBlock == BlockAt(index.View(), tailIndex / BLOCK_SIZE)
      ensures count > 0 ==> Run(index.View(), links, tailIndex / BLOCK_SIZE, (tailIndex + count - 1) / BLOCK_SIZE)
      ensures count > 0 ==> BlockAt(index.View(), (tailIndex + count - 1) / BLOCK_SIZE) == LastOf(startBlock, got)
      ensures count == 0 ==> tailBlock == startBlock && got == []
    {
      if count > 0 {
        ChainIsRun(t, index.View(), links, held0, held, got, tailIndex, tailIndex + count - 1, startBlock);
      }
      tailBlock := startBlock;
      if tailIndex % BLOCK_SIZE == 0 && first != None {
        tailBlock := first;
      }
    }

    /** The part of `enqueue_bulk` that cannot fail; it touches neither the index nor the pools. */
    method FillAndPublish(items: seq<Item>, endBlock: Option<Block>, ghost t: Table)
      requires Owns(index.View(), held) && Keeps(t, index.View()) && headIndex <= tailIndex
      requires Ready(|items|, endBlock)
      requires forall i: nat :: headIndex <= i < tailIndex ==> HasItem(t, elements, i)
      modifies this`elements, this`tailBlock, this`tailIndex
      ensures tailIndex == old(tailIndex) + |items|
      ensures Between() ==> Valid() && Contents() == ItemsOf(t, old(elements), headIndex, old(tailIndex)) + items
    {
      ghost var el, start := elements, tailIndex;
      Fill(items, endBlock);
      tailIndex := tailIndex + |items|;
      Published(t, el, start, items);
    }

    /**
      The blocks for `count` more elements, chained in order, or, when one of them cannot be had, none.
     */
    method AllocateBlocks(canAlloc: bool, memory: bool, count: nat, ghost s0: Stock, ghost need: int)
      returns (ok: bool, first: Option<Block>, endBlock: Option<Block>, ghost got: seq<Block>)
      requires Between() && headIndex <= tailIndex && index.next == BlocksFor(tailIndex)
      requires tailIndex % BLOCK_SIZE != 0 ==> tailBlock.Some? && BlockOf(tailIndex) == tailBlock
      requires s0 == Stock() && need == NewBlocks(count)
      modifies this`issued, this`free, this`born, this`held, this`dequeued, this`links, this`tailBlock, index
      ensures Between()
      ensures !ok ==> tailBlock == old(tailBlock) && held == old(held) && index.next == old(index.next)
      ensures !ok ==> SameBlocks(old(index.View()), index.View())
      ensures ok ==> index.next == BlocksFor(tailIndex + count)
      ensures ok ==> Acquired(old(index.View()), index.View(), old(held), held, got)
      ensures ok ==> Chain(links, old(tailBlock), tailIndex % BLOCK_SIZE != 0, got)
      ensures ok ==> first == FirstOf(got)
      ensures ok ==> endBlock == tailBlock == LastOf(old(tailBlock), got)
      ensures Suffices(s0, need, canAlloc && memory) ==> ok
      ensures ok ==> Suffices(s0, need, canAlloc)
    {
      BlocksInBytes(tailIndex, count);
      var cur := FloorBase(tailIndex - 1);
      var diff := FloorBase(tailIndex + count - 1) - cur;
      ghost var x := Snapshot(index.View(), held);
      ok, first, endBlock, got, x := AllocateAll(canAlloc, memory, cur, diff, tailBlock, x, s0, need);
    }

    /** The loop of it, from the base `cur` of the last block there is. */
    method AllocateAll(canAlloc: bool, memory: bool, base: int, size: int, startBlock: Option<Block>,
                       ghost x0: Settlement, ghost s0: Stock, ghost need: nat)
      returns (ok: bool, first: Option<Block>, endBlock: Option<Block>, ghost got: seq<Block>, ghost x: Settlement)
      requires At(x0) && s0 == StockOf(x0.table, poolSize, x0.held)
      requires headIndex <= tailIndex && x0.table.next == BlocksFor(tailIndex)
      requires tailBlock == startBlock
      requires tailIndex % BLOCK_SIZE != 0 ==> startBlock.Some? && startBlock.value in x0.held
      requires base == BLOCK_SIZE * (x0.table.next - 1) && size == BLOCK_SIZE * need
      modifies this`issued, this`free, this`born, this`held, this`dequeued, this`links, this`tailBlock, index
      ensures At(x)
      ensures !ok ==> x.table.next == x0.table.next && SameBlocks(x0.table, x.table)
      ensures !ok ==> x.held == x0.held && tailBlock == startBlock
      ensures ok ==> |got| == need && Acquired(x0.table, x.table, x0.held, x.held, got)
      ensures ok ==> Chain(links, startBlock, tailIndex % BLOCK_SIZE != 0, got)
      ensures ok ==> first == FirstOf(got)
      ensures ok ==> endBlock == tailBlock == LastOf(startBlock, got)
      ensures Suffices(s0, need, canAlloc && memory) ==> ok
      ensures ok ==> Suffices(s0, need, canAlloc)
    {
      FaresAtFirst(s0, canAlloc);
      var cur, diff := base, size;
      x := x0;
      ghost var left, s := need, s0;
      got := [];
      first, endBlock := None, tailBlock;
      while diff > 0
        invariant At(x)
        invariant Acquired(x0.table, x.table, x0.held, x.held, got)
        invariant Chain(links, startBlock, tailIndex % BLOCK_SIZE != 0, got)
        invariant 0 <= left == need - |got|
        invariant cur == BLOCK_SIZE * (x.table.next - 1)
        invariant diff == BLOCK_SIZE * left
        invariant first == FirstOf(got)
        invariant endBlock == tailBlock
        invariant tailBlock == LastOf(startBlock, got)
        invariant s == StockOf(x.table, poolSize, x.held)
        invariant Fares(s0, s, |got|, canAlloc)
        decreases diff
      {
        OneBlockLess(left);
        left := left - 1;
        diff := diff - BLOCK_SIZE;
        cur := cur + BLOCK_SIZE;
        ghost var s1 := s;
        var b;
        b, x, s := ExtendOrRollBack(canAlloc, memory, cur, first, startBlock, x0, x, got, s);
        if b.None? {
          FaresNoFurther(s0, s1, |got|, need, canAlloc, memory);
          return false, first, endBlock, got, x;
        }
        FaresOn(s0, s1, s, |got|, canAlloc);
        got := got + [b.value];
        endBlock := b;
        first := if first == None then b else first;
      }
      ok := true;
    }

    /** One iteration: another block in the chain, or every block given back. */
    method ExtendOrRollBack(canAlloc: bool, memory: bool, base: int, first: Option<Block>, startBlock: Option<Block>,
                            ghost x0: Settlement, ghost x: Settlement, ghost got: seq<Block>, ghost s: Stock)
      returns (b: Option<Block>, ghost x': Settlement, ghost s': Stock)
      requires At(x) && Acquired(x0.table, x.table, x0.held, x.held, got)
      requires s == StockOf(x.table, poolSize, x.held)
      requires Chain(links, startBlock, tailIndex % BLOCK_SIZE != 0, got)
      requires tailIndex % BLOCK_SIZE != 0 ==> startBlock.Some? && startBlock.value in x0.held
      requires base == BLOCK_SIZE * x.table.next && x0.table.next == BlocksFor(tailIndex) && headIndex <= tailIndex
      requires first == FirstOf(got)
      requires tailBlock == LastOf(startBlock, got)
      modifies this`issued, this`free, this`born, this`held, this`dequeued, this`links, this`tailBlock, index
      ensures At(x')
      ensures b.Some? ==> Acquired(x0.table, x'.table, x0.held, x'.held, got + [b.value])
      ensures b.Some? ==> Chain(links, startBlock, tailIndex % BLOCK_SIZE != 0, got + [b.value]) && tailBlock == b
      ensures b.None? ==> x'.table.next == x0.table.next && SameBlocks(x0.table, x'.table)
      ensures b.None? ==> x'.held == x0.held && tailBlock == startBlock
      ensures Suffices(s, 1, canAlloc && memory) ==> b.Some?
      ensures b.Some? ==> Suffices(s, 1, canAlloc) && Took(s, s') && s' == StockOf(x'.table, poolSize, x'.held)
    {
      BlocksAreEnough(tailIndex, x.table.next);
      b := AcquireBlock(canAlloc, memory, base, x0.table, x0.held, got);
      if b.None? {
        RollBack(first, startBlock, x0, got);
      } else {
        assert b.value !in got;
        assert tailIndex % BLOCK_SIZE != 0 ==> startBlock.value != b.value && startBlock.value !in got;
        LinkBlock(b.value, first, startBlock, got);
      }
      x', s' := Snapshot(index.View(), held), Stock();
    }

    method AcquireBlock(canAlloc: bool, memory: bool, base: int, ghost t0: Table, ghost held0: set<Block>,
                        ghost got: seq<Block>)
      returns (b: Option<Block>)
      requires Between() && Acquired(t0, index.View(), held0, held, got) && base == BLOCK_SIZE * index.next
               && headIndex < base + BLOCK_SIZE
      modifies this`issued, this`free, this`born, this`held, this`dequeued, index
      ensures Between()
      ensures b.Some? ==> b.value !in old(held) && Acquired(t0, index.View(), held0, held, got + [b.value])
      ensures b.None? ==> Acquired(t0, index.View(), held0, held, got)
      ensures Suffices(old(Stock()), 1, canAlloc && memory) ==> b.Some?
      ensures b.Some? ==> Suffices(old(Stock()), 1, canAlloc) && Took(old(Stock()), Stock())
    {
      ghost var t := index.View();
      b := None;
      if headIndex < base + BLOCK_SIZE {
        b := AddBlock(canAlloc, memory, base);
      }
      if b.None? {
        AcquiredSame(t0, t, index.View(), held0, held, got);
      } else {
        AcquiredOne(t0, t, index.View(), held0, old(held), got, b.value);
      }
    }

    /** The new block goes to the end of the chain and becomes the tail block. */
    method LinkBlock(b: Block, first: Option<Block>, startBlock: Option<Block>, ghost got: seq<Block>)
      requires Chain(links, startBlock, tailIndex % BLOCK_SIZE != 0, got) && Distinct(got) && b !in got
      requires tailIndex % BLOCK_SIZE != 0 ==> startBlock.Some? && startBlock.value != b && startBlock.value !in got
      requires first == FirstOf(got)
      requires tailBlock == LastOf(startBlock, got)
      requires Between()
      modifies this`links, this`tailBlock
      ensures Chain(links, startBlock, tailIndex % BLOCK_SIZE != 0, got + [b]) && tailBlock == Some(b)
      ensures Between() && index.View() == old(index.View()) && held == old(held) && Stock() == old(Stock())
    {
      ChainOne(links, startBlock, tailIndex % BLOCK_SIZE != 0, got, b);
      links := links[b := None];
      if tailIndex % BLOCK_SIZE != 0 || first != None {
        links := links[tailBlock.value := Some(b)];
      }
      tailBlock := Some(b);
    }

    /** Clear the entries while the tail is rewound, then give the blocks back and restore the tail block. */
    method RollBack(first: Option<Block>, startBlock: Option<Block>, ghost x0: Settlement, ghost got: seq<Block>)
      requires Between() && Acquired(x0.table, index.View(), x0.held, held, got)
      requires first == FirstOf(got)
      requires Chain(links, startBlock, tailIndex % BLOCK_SIZE != 0, got)
      requires x0.table.next == BlocksFor(tailIndex)
      modifies this`free, this`held, this`tailBlock, index
      ensures Between() && index.next == x0.table.next && SameBlocks(x0.table, index.View())
      ensures held == x0.held && tailBlock == startBlock
    {
      KeysOf(x0.table, index.View(), x0.held, held, got);
      SettledMeansNothingBeyond(x0.table);
      ClearEntries(first, startBlock, x0.table, got);
      UndoneSettled(x0.table, index.View(), got);
      AddBlocksToFreeList(first, startBlock, x0.held, got);
      tailBlock := startBlock;
    }

    method ClearEntries(first: Option<Block>, ghost startBlock: Option<Block>, ghost t0: Table, ghost got: seq<Block>)
      requires index.Valid() && NothingBeyond(t0) && Undone(t0, index.View(), got, 0)
      requires first == FirstOf(got)
      requires Chain(links, startBlock, tailIndex % BLOCK_SIZE != 0, got)
      requires FloorBase(tailIndex - 1) == BLOCK_SIZE * (t0.next - 1)
      modifies index
      ensures index.Valid() && Undone(t0, index.View(), got, |got|)
    {
      var cur := FloorBase(tailIndex - 1);
      var block := first;
      ghost var k := 0;
      while block.Some?
        invariant 0 <= k <= |got| && cur == BLOCK_SIZE * (t0.next + k - 1)
        invariant block == if k < |got| then Some(got[k]) else None
        invariant index.Valid() && Undone(t0, index.View(), got, k)
        decreases |got| - k
      {
        cur := cur + BLOCK_SIZE;
        ClearEntry(cur, t0, got, k, k + 1);
        NextInChain(links, startBlock, tailIndex % BLOCK_SIZE != 0, got, k);
        block, k := links[block.value], k + 1;
      }
    }

    method ClearEntry(base: int, ghost t0: Table, ghost got: seq<Block>, ghost k: nat, ghost k': nat)
      requires index.Valid() && NothingBeyond(t0) && Undone(t0, index.View(), got, k) && k < |got| && k' == k + 1
      requires base == BLOCK_SIZE * (t0.next + k)
      modifies index
      ensures index.Valid() && Undone(t0, index.View(), got, k')
    {
      ghost var t, n := index.View(), t0.next + k;
      ghost var t' := UndoneStep(t0, t, got, k, k', n);
      UndoOne(base, t, n);
      assert index.View() == t';
    }

    method UndoOne(base: int, ghost t: Table, ghost n: nat)
      requires index.Valid() && t == index.View() && t.headers != [] && t.next > 0 && base == BLOCK_SIZE * n
      requires t.keys[t.headers[Newest(t)].slots[t.headers[Newest(t)].tail]] != INVALID_BLOCK_BASE
      modifies index
      ensures index.Valid() && index.View() == Undo(t, n)
    {
      var e := index.EntryFor(base);
      index.StoreValue(e, None);
      index.RewindTail();
    }

    /** `add_blocks_to_free_list`: every block of the chain. */
    method AddBlocksToFreeList(first: Option<Block>, ghost startBlock: Option<Block>, ghost held0: set<Block>,
                               ghost got: seq<Block>)
      requires PoolsValid() && held == held0 + Elements(got) && Distinct(got)
      requires forall j :: 0 <= j < |got| ==> got[j] !in held0
      requires first == FirstOf(got)
      requires Chain(links, startBlock, tailIndex % BLOCK_SIZE != 0, got)
      modifies this`free, this`held
      ensures PoolsValid() && held == held0
    {
      var block := first;
      ghost var k := 0;
      while block.Some?
        invariant 0 <= k <= |got| && block == if k < |got| then Some(got[k]) else None
        invariant PoolsValid() && held == held0 + Elements(got[k..])
        decreases |got| - k
      {
        NextInChain(links, startBlock, tailIndex % BLOCK_SIZE != 0, got, k);
        var next := links[block.value];
        assert got[k] in Elements(got[k..]);
        AddBlockToFreeList(block.value);
        assert Elements(got[k..]) == {got[k]} + Elements(got[k + 1..]);
        assert got[k] !in Elements(got[k + 1..]);
        block, k := next, k + 1;
      }
      assert Elements(got[k..]) == {};
    }

    /** Construct the elements, one block at a time, following the chain up to `endBlock`. */
    method Fill(items: seq<Item>, endBlock: Option<Block>)
      requires Owns(index.View(), held)
      requires items != [] ==> Run(index.View(), links, tailIndex / BLOCK_SIZE, (tailIndex + |items| - 1) / BLOCK_SIZE)
      requires items != [] ==> tailBlock == BlockAt(index.View(), tailIndex / BLOCK_SIZE)
      requires items != [] ==> endBlock == BlockAt(index.View(), (tailIndex + |items| - 1) / BLOCK_SIZE)
      requires items == [] ==> tailBlock == endBlock
      modifies this`elements, this`tailBlock
      ensures Written(index.View(), old(elements), elements, tailIndex, items) && tailBlock == endBlock
    {
      ghost var el, t := elements, index.View();
      var newTail := tailIndex + |items|;
      var cur, last := tailIndex, false;
      while !last
        invariant tailIndex <= cur <= newTail && t == index.View()
        invariant Written(t, el, elements, tailIndex, items[..cur - tailIndex])
        invariant if last || items == [] then cur == newTail && tailBlock == endBlock
                  else cur < newTail && tailBlock == BlockAt(t, cur / BLOCK_SIZE)
        decreases newTail - cur, !last
      {
        cur, last := FillOne(items, endBlock, cur, newTail, t, el);
      }
      assert items[..|items|] == items;
    }

    /** One block, and on to the next. */
    method FillOne(items: seq<Item>, endBlock: Option<Block>, cur: nat, newTail: nat, ghost t: Table,
                   ghost el: map<(Block, int), Item>)
      returns (stop: nat, last: bool)
      requires t == index.View() && Owns(t, held) && tailIndex <= cur <= newTail == tailIndex + |items|
      requires cur < newTail ==>
                 && Run(t, links, tailIndex / BLOCK_SIZE, (newTail - 1) / BLOCK_SIZE)
                 && tailBlock == BlockAt(t, cur / BLOCK_SIZE)
                 && endBlock == BlockAt(t, (newTail - 1) / BLOCK_SIZE)
      requires cur == newTail ==> tailBlock == endBlock
      requires Written(t, el, elements, tailIndex, items[..cur - tailIndex])
      modifies this`elements, this`tailBlock
      ensures cur <= stop <= newTail && Written(t, el, elements, tailIndex, items[..stop - tailIndex])
      ensures last ==> stop == newTail && tailBlock == endBlock
      ensures !last ==> cur < stop < newTail && tailBlock == BlockAt(t, stop / BLOCK_SIZE)
    {
      stop := StopIndex(cur, newTail);
      FillBlock(cur, stop, items, t, el);
      last := tailBlock == endBlock;
      if !last {
        tailBlock := links[tailBlock.value];
      }
    }

    /** Where the block with element `cur` ends, or the elements do. */
    method StopIndex(cur: nat, newTail: nat) returns (stop: nat)
      requires Owns(index.View(), held) && tailIndex <= cur <= newTail
      requires cur < newTail ==> Run(index.View(), links, tailIndex / BLOCK_SIZE, (newTail - 1) / BLOCK_SIZE)
      ensures stop <= FloorBase(cur) + BLOCK_SIZE && cur <= stop <= newTail
      ensures cur == newTail ==> stop == newTail
      ensures cur < newTail ==>
                var b := BlockAt(index.View(), cur / BLOCK_SIZE);
                && cur < stop && b.Some?
                && (b == BlockAt(index.View(), (newTail - 1) / BLOCK_SIZE) <==> stop == newTail)
                && (stop < newTail ==> b.value in links && links[b.value] == BlockAt(index.View(), stop / BLOCK_SIZE))
    {
      stop := FloorBase(cur) + BLOCK_SIZE;
      if newTail < stop {
        stop := newTail;
      }
      if cur < newTail {
        WhereToStop(index.View(), held, links, tailIndex, cur, newTail, stop);
      }
    }

    /** The elements of one block. */
    method FillBlock(from: nat, stop: nat, items: seq<Item>, ghost t: Table, ghost el: map<(Block, int), Item>)
      requires Owns(t, held) && tailIndex <= from <= stop <= tailIndex + |items|
      requires from < stop ==> tailBlock.Some? && tailBlock == BlockAt(t, from / BLOCK_SIZE)
      requires stop <= FloorBase(from) + BLOCK_SIZE
      requires Written(t, el, elements, tailIndex, items[..from - tailIndex])
      modifies this`elements
      ensures Written(t, el, elements, tailIndex, items[..stop - tailIndex])
    {
      var cur := from;
      ghost var n, done := from - tailIndex, items[..from - tailIndex];
      while cur != stop
        invariant from <= cur <= stop && cur == tailIndex + n && done == items[..n]
        invariant Written(t, el, elements, tailIndex, done)
      {
        SameBlockUntil(from, cur, stop);
        ConstructNext(cur, items[cur - tailIndex], done, t, el);
        done, n := done + [items[n]], n + 1;
        cur := cur + 1;
      }
    }

    method ConstructNext(cur: nat, item: Item, ghost done: seq<Item>, ghost t: Table, ghost el: map<(Block, int), Item>)
      requires Owns(t, held) && cur == tailIndex + |done| && Written(t, el, elements, tailIndex, done)
      requires tailBlock.Some? && tailBlock == BlockAt(t, cur / BLOCK_SIZE)
      modifies this`elements
      ensures Written(t, el, elements, tailIndex, done + [item])
    {
      WrittenOne(t, el, elements, held, tailIndex, done, item, tailBlock.value);
      Construct(cur, item);
    }
  }

  lemma SameBlockUntil(from: nat, cur: nat, stop: nat)
    requires from <= cur < stop <= FloorBase(from) + BLOCK_SIZE
    ensures cur / BLOCK_SIZE == from / BLOCK_SIZE
  {}

  /** The end of the block, or of the elements; only the last block is the end block. */
  lemma WhereToStop(t: Table, held: set<Block>, links: map<Block, Option<Block>>, start: nat, cur: nat, newTail: nat,
                    stop: nat)
    requires Owns(t, held) && start <= cur < newTail && Run(t, links, start / BLOCK_SIZE, (newTail - 1) / BLOCK_SIZE)
    requires stop == if newTail < FloorBase(cur) + BLOCK_SIZE then newTail else FloorBase(cur) + BLOCK_SIZE
    ensures cur < stop <= newTail
    ensures var b := BlockAt(t, cur / BLOCK_SIZE);
            && b.Some?
            && (b == BlockAt(t, (newTail - 1) / BLOCK_SIZE) <==> stop == newTail)
            && (stop < newTail ==> b.value in links && links[b.value] == BlockAt(t, stop / BLOCK_SIZE))
  {
    var q, last := cur / BLOCK_SIZE, (newTail - 1) / BLOCK_SIZE;
    assert start / BLOCK_SIZE <= q <= last;
    assert stop == newTail <==> q == last;
    assert stop < newTail ==> stop / BLOCK_SIZE == q + 1;
  }

  lemma GivenBack(t: Table, e: nat)
    requires Sound(t) && Settled(t) && t.headers != [] && t.next > 0 && EntryIsFor(t, e, t.next - 1)
    requires BlockAt(t, t.next - 1) == None
    ensures var t' := Store(Rewind(t), e, None);
            Sound(Rewind(t)) && Sound(t') && Settled(t') && forall q :: BlockAt(t', q) == BlockAt(t, q)
  {
    RewindSound(t);
    RewindBlocks(t, t.next - 1);
    ClearBlocks(Rewind(t), t.next - 1, 0);
    forall q ensures BlockAt(Store(Rewind(t), e, None), q) == BlockAt(t, q) {
      RewindBlocks(t, q);
      ClearBlocks(Rewind(t), t.next - 1, q);
    }
    GivenBackSettled(t, e);
  }

  lemma GivenBackSettled(t: Table, e: nat)
    requires Sound(t) && Settled(t) && t.headers != [] && t.next > 0 && EntryIsFor(t, e, t.next - 1)
    requires Sound(Rewind(t)) && Sound(Store(Rewind(t), e, None))
    ensures Settled(Store(Rewind(t), e, None))
  {
    var t' := Store(Rewind(t), e, None);
    forall s | 0 <= s < t'.headers[Newest(t')].capacity && t'.values[At(t', s)].Some?
      ensures t'.keys[At(t', s)] / BLOCK_SIZE < t'.next
    {
      assert At(t', s) == At(t, s);
      assert KeyIsRecent(t, s);
      KeyDeterminesEntry(t, s, t.next - 1);
    }
  }

  /** Two slots whose entries carry the same key are one. */
  lemma KeyDeterminesEntry(t: Table, s: nat, q: int)
    requires Sound(t) && t.headers != [] && s < t.headers[Newest(t)].capacity
    requires t.keys[EntryOf(t, Newest(t), q)] == BLOCK_SIZE * q
    ensures t.keys[At(t, s)] != INVALID_BLOCK_BASE && t.keys[At(t, s)] / BLOCK_SIZE == q ==>
              At(t, s) == EntryOf(t, Newest(t), q)
  {
    assert KeyFitsSlot(t, Newest(t), s);
    assert KeyIsRecent(t, s);
  }

  lemma Used(t: Table, e: nat, b: Block)
    requires Sound(t) && Settled(t) && t.headers != [] && t.next > 0 && EntryIsFor(t, e, t.next - 1)
    ensures var t' := Store(t, e, Some(b));
            Sound(t') && Settled(t') && forall q :: BlockAt(t', q) == if q == t.next - 1 then Some(b) else BlockAt(t, q)
  {
    var t' := Store(t, e, Some(b));
    forall q ensures BlockAt(t', q) == if q == t.next - 1 then Some(b) else BlockAt(t, q) { StoreBlocks(t, b, q); }
    StoreBlocks(t, b, 0);
    forall s | 0 <= s < t'.headers[Newest(t')].capacity && t'.values[At(t', s)].Some?
      ensures t'.keys[At(t', s)] / BLOCK_SIZE < t'.next
    {
      assert At(t', s) == At(t, s);
    }
  }
}
