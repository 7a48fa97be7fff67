/**
  One implicit sub-queue: a producer that fills 32-element blocks, any number of consumers that empty
  them, and the pools the blocks come from and go back to.

  The claims on element indices are those of `Tickets`; everything a consumer does once it owns an
  index, and everything the producer and the other users of the block pools do, are further steps
  that interleave freely with them. The block index appears here as the map from block bases to the
  non-null entries; `BlockIndex` shows that a lookup finds just that entry. The free list appears as
  a set, which is what `FreeList` shows of it.
 */
module SubQueue {
  import opened Common
  import Tickets

  type Tid = nat
  type Block = nat
  type Item(==, !new)

  const BLOCK_SIZE: nat := 32

  function Base(i: nat): nat { i - i % BLOCK_SIZE }

  /** Where a block is. No step reads it; it is the ledger the statements are about. */
  datatype Place =
    | Unborn                // to be allocated dynamically
    | Unissued              // in the initial pool
    | Free                  // in the free list
    | InHand                // requisitioned by the producer, not yet in the block index
    | Mine(base: nat)       // in the block index, holding the elements from `base`
    | Releasing(t: Tid)     // emptied, on its way back
    | Elsewhere             // with another sub-queue
    | Destroyed             // dynamically allocated and given back to the heap

  datatype Memory = Memory(cells: map<nat, Item>, dequeued: nat, place: Place)

  /** The producer inside `enqueue`. */
  datatype Prod =
    | Idle
    | InsertEntry(x: Item)
    | CheckPool(x: Item)
    | TakeFromPool(x: Item)
    | TryFreeList(x: Item)
    | Allocate(x: Item)
    | ResetBlock(x: Item, b: Block)
    | LinkBlock(x: Item, b: Block)
    | Construct(x: Item)
    | Publish(x: Item)

  /** A consumer that owns an index. */
  datatype Work =
    | Nothing
    | Located(b: Block)
    | Moved(b: Block)
    | Cleared(b: Block)
    | Emptied(b: Block)
    | Unlinked(b: Block)

  datatype State = State(
    q: Tickets.State,
    poolSize: nat, issued: nat, free: set<Block>,
    prod: Prod, tailBlock: Block,
    index: map<nat, Block>,
    memory: map<Block, Memory>,
    work: map<Tid, Work>,
    items: seq<Item>,        // every element ever published, by index
    out: map<nat, Item>,     // what consumers moved out, by index
    cleared: set<nat>,       // indices whose element was destroyed
    emptied: set<nat>        // indices counted by set_empty
  )

  datatype Action =
    | Enqueue(x: Item)
    | ProducerStep(found: Option<Block>)   // the answer of an allocation or of the free list
    | Ticket(t: Tid)
    | ConsumerStep(t: Tid)
    | OthersTakeFromPool
    | OthersTakeFree(b: Block)
    | OthersReturn(b: Block)

  // ---------------------------------------------------------------- the steps

  function At(s: State, b: Block): Memory {
    if b in s.memory then s.memory[b] else Memory(map[], 0, if b < s.poolSize then Unissued else Unborn)
  }

  function EntryAt(s: State, base: nat): Block {
    if base in s.index then s.index[base] else 0
  }

  function WorkOf(s: State, t: Tid): Work {
    if t in s.work then s.work[t] else Nothing
  }

  function Owned(s: State, t: Tid): nat
    requires t in s.q.pc && s.q.pc[t].Claimed?
  {
    s.q.pc[t].index
  }

  predicate Enabled(s: State, a: Action) {
    match a
    case Enqueue(_) => s.prod.Idle?
    case ProducerStep(found) =>
      && !s.prod.Idle?
      && (s.prod.TryFreeList? && found.Some? ==> found.value in s.free)
      && (s.prod.Allocate? && found.Some? ==> At(s, found.value).place.Unborn?)
    case Ticket(t) =>
      t in s.q.pc && !s.q.pc[t].Claimed?
    case ConsumerStep(t) => t in s.q.pc && s.q.pc[t].Claimed?
    case OthersTakeFromPool => true
    case OthersTakeFree(b) => b in s.free
    case OthersReturn(b) => b < s.poolSize && At(s, b).place.Elsewhere?
  }

  function Apply(s: State, a: Action): State
    requires Enabled(s, a)
  {
    match a
    case Enqueue(x) => s.(prod := if s.q.tail % BLOCK_SIZE == 0 then InsertEntry(x) else Construct(x))
    case ProducerStep(found) => Produce(s, found)
    case Ticket(t) =>
      s.(q := Tickets.Apply(s.q, if s.q.pc[t].Idle? then Tickets.Start(t) else Tickets.Step(t)))
    case ConsumerStep(t) => Consume(s, t)
    case OthersTakeFromPool =>
      (if s.issued < s.poolSize then Placed(s, s.issued, Elsewhere) else s).(issued := s.issued + 1)
    case OthersTakeFree(b) => Placed(s, b, Elsewhere).(free := s.free - {b})
    case OthersReturn(b) => Placed(s, b, Free).(free := s.free + {b})
  }

  function Placed(s: State, b: Block, p: Place): State {
    s.(memory := s.memory[b := At(s, b).(place := p)])
  }

  /** One step of `ImplicitProducer::enqueue`. */
  function Produce(s: State, found: Option<Block>): State {
    match s.prod
    case Idle => s
    case InsertEntry(x) => s.(prod := if found.Some? then CheckPool(x) else Idle)
    case CheckPool(x) => s.(prod := if s.issued >= s.poolSize then TryFreeList(x) else TakeFromPool(x))
    case TakeFromPool(x) =>
      if s.issued < s.poolSize
      then Placed(s, s.issued, InHand).(issued := s.issued + 1, prod := ResetBlock(x, s.issued))
      else s.(issued := s.issued + 1, prod := TryFreeList(x))
    case TryFreeList(x) =>
      if found.Some?
      then Placed(s, found.value, InHand).(free := s.free - {found.value}, prod := ResetBlock(x, found.value))
      else s.(prod := Allocate(x))
    case Allocate(x) =>
      if found.Some?
      then Placed(s, found.value, InHand).(prod := ResetBlock(x, found.value))
      else s.(prod := Idle)
    case ResetBlock(x, b) =>
      s.(memory := s.memory[b := At(s, b).(dequeued := 0)], prod := LinkBlock(x, b))
    case LinkBlock(x, b) =>
      Placed(s, b, Mine(s.q.tail)).(index := s.index[s.q.tail := b], tailBlock := b, prod := Construct(x))
    case Construct(x) =>
      var m := At(s, s.tailBlock);
      s.(memory := s.memory[s.tailBlock := m.(cells := m.cells[s.q.tail % BLOCK_SIZE := x])], prod := Publish(x))
    case Publish(x) =>
      s.(q := Tickets.Apply(s.q, Tickets.Publish(1)), items := s.items + [x], prod := Idle)
  }

  function Done(s: State, t: Tid): State
    requires t in s.q.pc && s.q.pc[t].Claimed?
  {
    s.(q := Tickets.Apply(s.q, Tickets.Finish(t)), work := s.work[t := Nothing])
  }

  /** One step of `ImplicitProducer::dequeue` after the index was claimed. */
  function Consume(s: State, t: Tid): State
    requires t in s.q.pc && s.q.pc[t].Claimed?
  {
    var i := Owned(s, t);
    match WorkOf(s, t)
    case Nothing => s.(work := s.work[t := Located(EntryAt(s, Base(i)))])
    case Located(b) =>
      var cells := At(s, b).cells;
      if i % BLOCK_SIZE in cells
      then s.(work := s.work[t := Moved(b)], out := s.out[i := cells[i % BLOCK_SIZE]])
      else s
    case Moved(b) =>
      var m := At(s, b);
      s.(work := s.work[t := Cleared(b)], cleared := s.cleared + {i},
         memory := s.memory[b := m.(cells := m.cells - {i % BLOCK_SIZE})])
    case Cleared(b) =>
      var m := At(s, b);
      var s' := s.(emptied := s.emptied + {i}, memory := s.memory[b := m.(dequeued := m.dequeued + 1)]);
      if m.dequeued == BLOCK_SIZE - 1
      then Placed(s', b, Releasing(t)).(work := s.work[t := Emptied(b)])
      else Done(s', t)
    case Emptied(b) => s.(work := s.work[t := Unlinked(b)], index := s.index - {Base(i)})
    case Unlinked(b) =>
      Done(if b < s.poolSize then Placed(s, b, Free).(free := s.free + {b}) else Placed(s, b, Destroyed), t)
  }

  // ---------------------------------------------------------------- what every state satisfies

  ghost function EmptiedIn(emptied: set<nat>, base: nat): set<nat> {
    set i | i in emptied && base <= i < base + BLOCK_SIZE
  }

  predicate InPool(s: State, b: Block) { s.issued <= b < s.poolSize }

  ghost predicate BlockInvariant(s: State, b: Block) {
    var m := At(s, b);
    && (m.place.Unissued? <==> InPool(s, b))
    && (m.place.Unborn? ==> b >= s.poolSize)
    && (m.place.Free? <==> b in s.free)
    && (m.place.Free? ==> b < s.poolSize)
    && (m.place.Destroyed? ==> b >= s.poolSize)
    && match m.place
       case InHand => (s.prod.ResetBlock? || s.prod.LinkBlock?) && s.prod.b == b
       case Mine(base) =>
         && base % BLOCK_SIZE == 0 && base in s.index && s.index[base] == b
         && m.dequeued == |EmptiedIn(s.emptied, base)| && m.dequeued < BLOCK_SIZE
       case Releasing(t) =>
         && t in s.q.pc && s.q.pc[t].Claimed?
         && (WorkOf(s, t) == Emptied(b) || WorkOf(s, t) == Unlinked(b))
       case _ => true
  }

  /** The base of the block the producer is filling, if it is filling one. */
  predicate Filling(s: State) {
    s.q.tail % BLOCK_SIZE != 0 || s.prod.Construct? || s.prod.Publish?
  }

  ghost predicate EntryInvariant(s: State, base: nat)
    requires base in s.index
  {
    var p := At(s, s.index[base]).place;
    && base % BLOCK_SIZE == 0
    && (base < s.q.tail || (base == s.q.tail && Filling(s)))
    && (p == Mine(base) || (p.Releasing? && ReleasesEntry(s, p.t, base)))
  }

  predicate ReleasesEntry(s: State, t: Tid, base: nat) {
    && t in s.q.pc && s.q.pc[t].Claimed? && Base(Owned(s, t)) == base
    && base in s.index && WorkOf(s, t) == Emptied(s.index[base])
  }

  /** A block that was started is in the index until its 32 elements are gone. */
  ghost predicate CoverInvariant(s: State, i: nat) {
    && (i in s.q.done ==> i in s.emptied)
    && (i in s.emptied ==> i in s.cleared)
    && (i in s.cleared ==> i < s.q.head && i in s.out)
    && (i in s.out ==> i < s.q.head && i < |s.items| && s.out[i] == s.items[i])
    && (i < s.q.tail && i !in s.emptied ==> Base(i) in s.index)
    && (i < s.q.tail && i < |s.items| && i !in s.cleared && Base(i) in s.index ==>
          var cells := At(s, s.index[Base(i)]).cells;
          i % BLOCK_SIZE in cells && cells[i % BLOCK_SIZE] == s.items[i])
  }

  ghost predicate WorkInvariant(s: State, t: Tid)
    requires t in s.q.pc
  {
    if !s.q.pc[t].Claimed? then WorkOf(s, t) == Nothing
    else
      var i := Owned(s, t);
      var e := if Base(i) in s.index then Some(s.index[Base(i)]) else None;
      match WorkOf(s, t)
      case Nothing => i !in s.out && i !in s.cleared && i !in s.emptied
      case Located(b) => e == Some(b) && i !in s.out && i !in s.cleared && i !in s.emptied
      case Moved(b) => e == Some(b) && i in s.out && i !in s.cleared && i !in s.emptied
      case Cleared(b) => e == Some(b) && i in s.cleared && i !in s.emptied
      case Emptied(b) =>
        && e == Some(b) && i in s.emptied && At(s, b).place == Releasing(t)
        && (forall j :: Base(i) <= j < Base(i) + BLOCK_SIZE ==> j in s.emptied)
      case Unlinked(b) =>
        && i in s.emptied && At(s, b).place == Releasing(t)
        && (forall j :: Base(i) <= j < Base(i) + BLOCK_SIZE ==> j in s.emptied)
  }

  ghost predicate ProducerInvariant(s: State) {
    && |s.items| == s.q.tail && s.q.head <= s.q.tail
    && (Filling(s) ==> Base(s.q.tail) in s.index && s.index[Base(s.q.tail)] == s.tailBlock)
    && match s.prod
       case Idle => true
       case Construct(_) => true
       case Publish(x) =>
         s.q.tail % BLOCK_SIZE in At(s, s.tailBlock).cells
         && At(s, s.tailBlock).cells[s.q.tail % BLOCK_SIZE] == x
       case ResetBlock(_, b) => s.q.tail % BLOCK_SIZE == 0 && At(s, b).place == InHand
       case LinkBlock(_, b) => s.q.tail % BLOCK_SIZE == 0 && At(s, b).place == InHand && At(s, b).dequeued == 0
       case _ => s.q.tail % BLOCK_SIZE == 0
  }

  ghost predicate Invariant(s: State) {
    && Tickets.Invariant(s.q)
    && ProducerInvariant(s)
    && (forall b: Block :: BlockInvariant(s, b))
    && (forall base :: base in s.index ==> EntryInvariant(s, base))
    && (forall i: nat :: CoverInvariant(s, i))
    && (forall t :: t in s.q.pc ==> WorkInvariant(s, t))
  }

  ghost predicate Init(s: State) {
    && Tickets.Init(s.q)
    && s.issued == 0 && s.free == {} && s.prod == Idle
    && s.index == map[] && s.memory == map[] && s.work == map[]
    && s.items == [] && s.out == map[] && s.cleared == {} && s.emptied == {}
  }

  // ---------------------------------------------------------------- preservation

  /** Only the tickets moved, and only those of `t`, which may have claimed the next index. */
  ghost predicate OnlyTickets(s: State, s': State, t: Tid) {
    && s' == s.(q := s'.q)
    && t in s.q.pc && !s.q.pc[t].Claimed? && WorkOf(s, t).Nothing?
    && s'.q.done == s.q.done
    && s'.q.pc.Keys == s.q.pc.Keys && s'.q.pc == s.q.pc[t := s'.q.pc[t]]
    && s'.q.tail == s.q.tail && s.q.head <= s'.q.head
    && (s'.q.pc[t].Claimed? ==> s'.q.pc[t].index == s.q.head < s'.q.head)
  }

  lemma TicketEffect(s: State, t: Tid)
    requires Invariant(s) && Enabled(s, Ticket(t))
    ensures OnlyTickets(s, Apply(s, Ticket(t)), t)
    ensures Tickets.Invariant(Apply(s, Ticket(t)).q)
    ensures Apply(s, Ticket(t)).q.head <= s.q.tail
  {
    assert WorkInvariant(s, t);
    Tickets.Preserved(s.q, if s.q.pc[t].Idle? then Tickets.Start(t) else Tickets.Step(t));
    Tickets.StepEffect(s.q, t);
    Tickets.PassedAtMostTail(Apply(s, Ticket(t)).q);
  }

  lemma TicketWork(s: State, s': State, t: Tid, u: Tid)
    requires OnlyTickets(s, s', t) && u in s.q.pc && WorkInvariant(s, u) && CoverInvariant(s, s.q.head)
    ensures WorkInvariant(s', u)
  {}

  lemma TicketKeepsBlocks(s: State, t: Tid)
    requires Invariant(s) && Enabled(s, Ticket(t))
    ensures forall b: Block :: BlockInvariant(Apply(s, Ticket(t)), b)
    ensures forall base :: base in Apply(s, Ticket(t)).index ==> EntryInvariant(Apply(s, Ticket(t)), base)
  {
    var s' := Apply(s, Ticket(t));
    TicketEffect(s, t);
    forall b: Block ensures BlockInvariant(s', b) {
      assert BlockInvariant(s, b);
      TicketBlock(s, s', t, b);
    }
    forall base | base in s'.index ensures EntryInvariant(s', base) {
      assert EntryInvariant(s, base);
      TicketEntry(s, s', t, base);
    }
  }

  lemma TicketKeepsCovers(s: State, t: Tid)
    requires Invariant(s) && Enabled(s, Ticket(t))
    ensures forall i: nat :: CoverInvariant(Apply(s, Ticket(t)), i)
  {
    var s' := Apply(s, Ticket(t));
    TicketEffect(s, t);
    forall i: nat ensures CoverInvariant(s', i) {
      assert CoverInvariant(s, i);
      TicketCover(s, s', t, i);
    }
  }

  lemma TicketKeepsWork(s: State, t: Tid)
    requires Invariant(s) && Enabled(s, Ticket(t))
    ensures forall u :: u in Apply(s, Ticket(t)).q.pc ==> WorkInvariant(Apply(s, Ticket(t)), u)
  {
    var s' := Apply(s, Ticket(t));
    TicketEffect(s, t);
    forall u | u in s'.q.pc ensures WorkInvariant(s', u) {
      assert WorkInvariant(s, u) && CoverInvariant(s, s.q.head);
      TicketWork(s, s', t, u);
    }
  }

  lemma TicketKeepsProducer(s: State, s': State, t: Tid)
    requires OnlyTickets(s, s', t) && ProducerInvariant(s) && s'.q.head <= s.q.tail
    ensures ProducerInvariant(s')
  {}

  lemma TicketPreserved(s: State, t: Tid)
    requires Invariant(s) && Enabled(s, Ticket(t))
    ensures Invariant(Apply(s, Ticket(t)))
  {
    TicketEffect(s, t);
    TicketKeepsProducer(s, Apply(s, Ticket(t)), t);
    TicketKeepsBlocks(s, t);
    TicketKeepsCovers(s, t);
    TicketKeepsWork(s, t);
  }

  lemma TicketBlock(s: State, s': State, t: Tid, b: Block)
    requires OnlyTickets(s, s', t) && BlockInvariant(s, b)
    ensures BlockInvariant(s', b)
  {}

  lemma TicketEntry(s: State, s': State, t: Tid, base: nat)
    requires OnlyTickets(s, s', t) && base in s.index && EntryInvariant(s, base)
    ensures EntryInvariant(s', base)
  {}

  lemma TicketCover(s: State, s': State, t: Tid, i: nat)
    requires OnlyTickets(s, s', t) && CoverInvariant(s, i)
    ensures CoverInvariant(s', i)
  {}

  // The producer and the other users of the pools. None of them touches a claimed element.

  /** Blocks other than `b` are untouched and the consumers did not move. */
  ghost predicate OnlyBlock(s: State, s': State, b: Block) {
    && s' == s.(memory := s'.memory, issued := s'.issued, free := s'.free,
                prod := s'.prod, tailBlock := s'.tailBlock, index := s'.index)
    && (forall c :: c != b ==> At(s', c) == At(s, c))
    && (forall c :: c != b ==> (c in s'.free <==> c in s.free))
    && (forall c :: c != b ==> (InPool(s', c) <==> InPool(s, c)))
  }

  lemma OnlyBlockBlock(s: State, s': State, b: Block, c: Block)
    requires OnlyBlock(s, s', b) && BlockInvariant(s, c) && c != b
    requires forall base :: base in s.index ==> base in s'.index && s'.index[base] == s.index[base]
    requires At(s, c).place == InHand ==> s'.prod == s.prod
    ensures BlockInvariant(s', c)
  {}

  lemma OnlyBlockEntry(s: State, s': State, b: Block, base: nat)
    requires OnlyBlock(s, s', b) && base in s.index && EntryInvariant(s, base) && s.index[base] != b
    requires base in s'.index && s'.index[base] == s.index[base] && (Filling(s) ==> Filling(s'))
    ensures EntryInvariant(s', base)
  {}

  lemma OnlyBlockCover(s: State, s': State, b: Block, i: nat)
    requires OnlyBlock(s, s', b) && CoverInvariant(s, i)
    requires Base(i) in s.index ==> Base(i) in s'.index && s'.index[Base(i)] == s.index[Base(i)]
    requires Base(i) in s.index && s.index[Base(i)] == b && i < |s.items| ==>
               forall c :: c in At(s, b).cells && c == i % BLOCK_SIZE ==>
                 c in At(s', b).cells && At(s', b).cells[c] == At(s, b).cells[c]
    requires i < s.q.tail && Base(i) !in s.index ==> Base(i) !in s'.index
    ensures CoverInvariant(s', i)
  {}

  lemma OnlyBlockWork(s: State, s': State, b: Block, t: Tid)
    requires OnlyBlock(s, s', b) && t in s.q.pc && WorkInvariant(s, t)
    requires At(s', b).place == At(s, b).place || !At(s, b).place.Releasing?
    requires s.q.pc[t].Claimed? && Base(Owned(s, t)) in s.index ==>
               Base(Owned(s, t)) in s'.index && s'.index[Base(Owned(s, t))] == s.index[Base(Owned(s, t))]
    ensures WorkInvariant(s', t)
  {}

  lemma EntriesAreInjective(s: State, i: nat, j: nat)
    requires i in s.index && j in s.index && s.index[i] == s.index[j]
    requires EntryInvariant(s, i) && EntryInvariant(s, j)
    ensures i == j
  {}

  /** The block a producer step changes. */
  function ChangedBlock(s: State, found: Option<Block>): Block {
    match s.prod
    case TakeFromPool(_) => s.issued
    case TryFreeList(_) => if found.Some? then found.value else 0
    case Allocate(_) => if found.Some? then found.value else 0
    case ResetBlock(_, b) => b
    case LinkBlock(_, b) => b
    case Construct(_) => s.tailBlock
    case _ => 0
  }

  lemma ProducerEffect(s: State, found: Option<Block>)
    requires Enabled(s, ProducerStep(found)) && !s.prod.Publish?
    ensures OnlyBlock(s, Produce(s, found), ChangedBlock(s, found))
    ensures s.prod.LinkBlock? ==> Produce(s, found).index == s.index[s.q.tail := s.prod.b]
    ensures !s.prod.LinkBlock? ==> Produce(s, found).index == s.index
  {
    forall c | c != ChangedBlock(s, found)
      ensures At(Produce(s, found), c) == At(s, c) && (c in Produce(s, found).free <==> c in s.free)
      ensures InPool(Produce(s, found), c) <==> InPool(s, c)
    {
      ProducerEffectAt(s, found, c);
    }
    ProducerEffectElsewhere(s, found);
    ProducerEffectIndex(s, found);
  }

  lemma ProducerEffectAt(s: State, found: Option<Block>, c: Block)
    requires Enabled(s, ProducerStep(found)) && !s.prod.Publish? && c != ChangedBlock(s, found)
    ensures At(Produce(s, found), c) == At(s, c) && (c in Produce(s, found).free <==> c in s.free)
    ensures InPool(Produce(s, found), c) <==> InPool(s, c)
  {}

  lemma ProducerEffectElsewhere(s: State, found: Option<Block>)
    requires !s.prod.Publish?
    ensures var s' := Produce(s, found);
            s' == s.(memory := s'.memory, issued := s'.issued, free := s'.free,
                     prod := s'.prod, tailBlock := s'.tailBlock, index := s'.index)
  {}

  lemma ProducerEffectIndex(s: State, found: Option<Block>)
    requires !s.prod.Publish?
    ensures s.prod.LinkBlock? ==> Produce(s, found).index == s.index[s.q.tail := s.prod.b]
    ensures !s.prod.LinkBlock? ==> Produce(s, found).index == s.index
  {}

  lemma ChangedBlockInvariant(s: State, found: Option<Block>)
    requires Enabled(s, ProducerStep(found)) && !s.prod.Publish? && ProducerInvariant(s)
    requires BlockInvariant(s, ChangedBlock(s, found))
    requires forall i :: i in s.emptied ==> i < s.q.tail
    ensures BlockInvariant(Produce(s, found), ChangedBlock(s, found))
  {
    if s.prod.LinkBlock? {
      assert EmptiedIn(s.emptied, s.q.tail) == {};
    }
  }

  lemma TailIsNotIndexed(s: State)
    requires forall base :: base in s.index ==> EntryInvariant(s, base)
    requires !Filling(s)
    ensures s.q.tail !in s.index
  {
    assert s.q.tail in s.index ==> EntryInvariant(s, s.q.tail);
  }

  lemma NextProducerInvariant(s: State, found: Option<Block>)
    requires Enabled(s, ProducerStep(found)) && !s.prod.Publish? && ProducerInvariant(s)
    requires s.prod.Construct? ==> BlockInvariant(s, s.tailBlock)
    ensures ProducerInvariant(Produce(s, found))
  {}

  lemma ConstructKeepsCells(s: State, i: nat)
    requires s.prod.Construct? && ProducerInvariant(s)
    requires forall base :: base in s.index ==> EntryInvariant(s, base)
    requires Base(i) in s.index && s.index[Base(i)] == s.tailBlock && i < s.q.tail
    ensures i % BLOCK_SIZE != s.q.tail % BLOCK_SIZE
  {
    assert EntryInvariant(s, Base(i)) && EntryInvariant(s, Base(s.q.tail));
    EntriesAreInjective(s, Base(i), Base(s.q.tail));
  }

  lemma ProducerCover(s: State, found: Option<Block>, i: nat)
    requires Invariant(s) && Enabled(s, ProducerStep(found)) && !s.prod.Publish?
    ensures CoverInvariant(Produce(s, found), i)
  {
    assert CoverInvariant(s, i);
    ProducerEffect(s, found);
    if s.prod.Construct? && Base(i) in s.index && s.index[Base(i)] == s.tailBlock && i < s.q.tail {
      ConstructKeepsCells(s, i);
    }
    if s.prod.LinkBlock? { TailIsNotIndexed(s); }
    OnlyBlockCover(s, Produce(s, found), ChangedBlock(s, found), i);
  }

  lemma ProducerEntry(s: State, found: Option<Block>, base: nat)
    requires Invariant(s) && Enabled(s, ProducerStep(found)) && !s.prod.Publish?
    requires base in Produce(s, found).index
    ensures EntryInvariant(Produce(s, found), base)
  {
    var s', b := Produce(s, found), ChangedBlock(s, found);
    ProducerEffect(s, found);
    if s.prod.LinkBlock? { TailIsNotIndexed(s); }
    if base in s.index {
      assert EntryInvariant(s, base) && BlockInvariant(s, b);
      if s.index[base] != b { OnlyBlockEntry(s, s', b, base); } else { ChangedEntry(s, found, base); }
    }
  }

  lemma ChangedEntry(s: State, found: Option<Block>, base: nat)
    requires Enabled(s, ProducerStep(found)) && !s.prod.Publish? && ProducerInvariant(s)
    requires base in s.index && s.index[base] == ChangedBlock(s, found)
    requires EntryInvariant(s, base) && BlockInvariant(s, ChangedBlock(s, found))
    ensures EntryInvariant(Produce(s, found), base)
  {}

  lemma ProducerPreserved(s: State, found: Option<Block>)
    requires Invariant(s) && Enabled(s, ProducerStep(found)) && !s.prod.Publish?
    ensures Invariant(Produce(s, found))
  {
    var s', b := Produce(s, found), ChangedBlock(s, found);
    ProducerEffect(s, found);
    assert BlockInvariant(s, b);
    if s.prod.Construct? { assert BlockInvariant(s, s.tailBlock); }
    NextProducerInvariant(s, found);
    if s.prod.LinkBlock? { TailIsNotIndexed(s); }
    forall i | i in s.emptied ensures i < s.q.tail { assert CoverInvariant(s, i); }
    ChangedBlockInvariant(s, found);
    forall c: Block ensures BlockInvariant(s', c) {
      assert BlockInvariant(s, c);
      if c != b { OnlyBlockBlock(s, s', b, c); }
    }
    forall base | base in s'.index ensures EntryInvariant(s', base) { ProducerEntry(s, found, base); }
    forall i: nat ensures CoverInvariant(s', i) { ProducerCover(s, found, i); }
    forall t | t in s'.q.pc ensures WorkInvariant(s', t) {
      assert WorkInvariant(s, t);
      OnlyBlockWork(s, s', b, t);
    }
  }

  lemma PublishPreserved(s: State)
    requires Invariant(s) && s.prod.Publish?
    ensures Invariant(Produce(s, None))
  {
    var s' := Produce(s, None);
    PublishTickets(s);
    forall c: Block ensures BlockInvariant(s', c) {
      assert BlockInvariant(s, c);
      PublishBlock(s, c);
    }
    forall base | base in s'.index ensures EntryInvariant(s', base) {
      assert EntryInvariant(s, base);
      PublishEntry(s, base);
    }
    forall i: nat ensures CoverInvariant(s', i) {
      assert CoverInvariant(s, i);
      PublishCover(s, i);
    }
    forall t | t in s'.q.pc ensures WorkInvariant(s', t) {
      assert WorkInvariant(s, t);
      PublishWork(s, t);
    }
  }

  lemma PublishTickets(s: State)
    requires Tickets.Invariant(s.q) && ProducerInvariant(s) && s.prod.Publish?
    ensures var s' := Produce(s, None);
            Tickets.Invariant(s'.q) && ProducerInvariant(s') && s'.index == s.index && s'.q.pc == s.q.pc
  {
    Tickets.Preserved(s.q, Tickets.Publish(1));
  }

  lemma PublishBlock(s: State, b: Block)
    requires s.prod.Publish? && BlockInvariant(s, b)
    ensures BlockInvariant(Produce(s, None), b)
  {}

  lemma PublishEntry(s: State, base: nat)
    requires s.prod.Publish? && base in s.index && EntryInvariant(s, base)
    ensures EntryInvariant(Produce(s, None), base)
  {}

  lemma PublishCover(s: State, i: nat)
    requires s.prod.Publish? && ProducerInvariant(s) && CoverInvariant(s, i)
    ensures CoverInvariant(Produce(s, None), i)
  {}

  lemma PublishWork(s: State, t: Tid)
    requires s.prod.Publish? && t in s.q.pc && WorkInvariant(s, t)
    ensures WorkInvariant(Produce(s, None), t)
  {}

  predicate ByOthers(a: Action) { a.OthersTakeFromPool? || a.OthersTakeFree? || a.OthersReturn? }

  function OthersBlock(s: State, a: Action): Block
    requires ByOthers(a)
  {
    if a.OthersTakeFromPool? then s.issued else a.b
  }

  lemma OthersEffect(s: State, a: Action)
    requires Enabled(s, a) && ByOthers(a) && BlockInvariant(s, OthersBlock(s, a))
    requires ProducerInvariant(s) && BlockInvariant(s, s.tailBlock)
    ensures OnlyBlock(s, Apply(s, a), OthersBlock(s, a))
    ensures Apply(s, a).index == s.index && Apply(s, a).prod == s.prod && Apply(s, a).tailBlock == s.tailBlock
    ensures At(Apply(s, a), OthersBlock(s, a)).cells == At(s, OthersBlock(s, a)).cells
    ensures BlockInvariant(Apply(s, a), OthersBlock(s, a))
    ensures At(s, OthersBlock(s, a)).place == InHand ==> At(Apply(s, a), OthersBlock(s, a)) == At(s, OthersBlock(s, a))
  {}

  lemma OthersPreserved(s: State, a: Action)
    requires Invariant(s) && Enabled(s, a) && ByOthers(a)
    ensures Invariant(Apply(s, a))
  {
    var s', b := Apply(s, a), OthersBlock(s, a);
    assert BlockInvariant(s, b) && BlockInvariant(s, s.tailBlock);
    OthersEffect(s, a);
    forall c: Block ensures BlockInvariant(s', c) {
      assert BlockInvariant(s, c);
      if c != b { OnlyBlockBlock(s, s', b, c); }
    }
    forall base | base in s'.index ensures EntryInvariant(s', base) {
      assert EntryInvariant(s, base);
      if s.index[base] != b { OnlyBlockEntry(s, s', b, base); }
    }
    forall i: nat ensures CoverInvariant(s', i) {
      assert CoverInvariant(s, i);
      OnlyBlockCover(s, s', b, i);
    }
    forall t | t in s'.q.pc ensures WorkInvariant(s', t) {
      assert WorkInvariant(s, t);
      OnlyBlockWork(s, s', b, t);
    }
  }

  // A consumer with a claimed index.

  /** The facts about the claimed index `i` and its block that a consumer's step relies on. */
  ghost predicate Context(s: State, t: Tid) {
    && t in s.q.pc && s.q.pc[t].Claimed? && ProducerInvariant(s)
    && WorkInvariant(s, t) && Owned(s, t) < s.q.head
    && CoverInvariant(s, Owned(s, t))
    && (Base(Owned(s, t)) in s.index ==>
          EntryInvariant(s, Base(Owned(s, t))) && BlockInvariant(s, s.index[Base(Owned(s, t))]))
    && (Base(Owned(s, t)) in s.index && Owned(s, t) !in s.emptied ==>
          At(s, s.index[Base(Owned(s, t))]).place == Mine(Base(Owned(s, t))))
  }

  lemma HasContext(s: State, t: Tid)
    requires Invariant(s) && t in s.q.pc && s.q.pc[t].Claimed?
    ensures Context(s, t)
  {
    assert Tickets.ThreadInvariant(s.q, t);
    assert CoverInvariant(s, Owned(s, t)) && WorkInvariant(s, t);
    if Base(Owned(s, t)) in s.index {
      assert EntryInvariant(s, Base(Owned(s, t)));
      assert BlockInvariant(s, s.index[Base(Owned(s, t))]);
      var p := At(s, s.index[Base(Owned(s, t))]).place;
      if p.Releasing? { assert WorkInvariant(s, p.t); }
    }
  }

  lemma OneMoreEmptied(emptied: set<nat>, i: nat, base: nat)
    requires i !in emptied
    ensures |EmptiedIn(emptied + {i}, base)| ==
              |EmptiedIn(emptied, base)| + (if base <= i < base + BLOCK_SIZE then 1 else 0)
  {
    if base <= i < base + BLOCK_SIZE {
      assert EmptiedIn(emptied + {i}, base) == EmptiedIn(emptied, base) + {i};
    } else {
      assert EmptiedIn(emptied + {i}, base) == EmptiedIn(emptied, base);
    }
  }

  /** The count reaches the block size only when every slot was counted. */
  lemma AllEmptied(emptied: set<nat>, base: nat)
    requires |EmptiedIn(emptied, base)| == BLOCK_SIZE
    ensures forall j :: base <= j < base + BLOCK_SIZE ==> j in emptied
  {
    var all := Interval(base, BLOCK_SIZE);
    SubsetCardinality(EmptiedIn(emptied, base), all);
    forall j | base <= j < base + BLOCK_SIZE ensures j in emptied {
      assert j in all;
    }
  }

  lemma ConsumeBlock(s: State, t: Tid, c: Block)
    requires Context(s, t) && BlockInvariant(s, c)
    ensures BlockInvariant(Consume(s, t), c)
  {
    match WorkOf(s, t)
    case Moved(_) => ClearBlock(s, t, c);
    case Cleared(_) => CountBlock(s, t, c);
    case Emptied(_) => UnlinkBlock(s, t, c);
    case Unlinked(_) => FreeBlock(s, t, c);
    case _ => LocateBlock(s, t, c);
  }

  lemma LocateBlock(s: State, t: Tid, c: Block)
    requires Context(s, t) && BlockInvariant(s, c) && (WorkOf(s, t).Nothing? || WorkOf(s, t).Located?)
    ensures BlockInvariant(Consume(s, t), c)
  {}

  lemma ClearBlock(s: State, t: Tid, c: Block)
    requires Context(s, t) && BlockInvariant(s, c) && WorkOf(s, t).Moved?
    ensures BlockInvariant(Consume(s, t), c)
  {}

  lemma CountBlock(s: State, t: Tid, c: Block)
    requires Context(s, t) && BlockInvariant(s, c) && WorkOf(s, t).Cleared?
    ensures BlockInvariant(Consume(s, t), c)
  {
    if At(s, c).place.Mine? {
      OneMoreEmptied(s.emptied, Owned(s, t), At(s, c).place.base);
    }
    if c == WorkOf(s, t).b {
      CountOwnBlock(s, t);
    } else {
      CountOtherBlock(s, t, c);
    }
  }

  lemma CountOwnBlock(s: State, t: Tid)
    requires Context(s, t) && WorkOf(s, t).Cleared? && BlockInvariant(s, WorkOf(s, t).b)
    requires |EmptiedIn(s.emptied + {Owned(s, t)}, Base(Owned(s, t)))| == |EmptiedIn(s.emptied, Base(Owned(s, t)))| + 1
    ensures BlockInvariant(Consume(s, t), WorkOf(s, t).b)
  {}

  lemma CountOtherBlock(s: State, t: Tid, c: Block)
    requires Context(s, t) && BlockInvariant(s, c) && WorkOf(s, t).Cleared? && c != WorkOf(s, t).b
    requires At(s, c).place.Mine? ==>
               |EmptiedIn(s.emptied + {Owned(s, t)}, At(s, c).place.base)| ==
                 |EmptiedIn(s.emptied, At(s, c).place.base)|
                 + (if At(s, c).place.base <= Owned(s, t) < At(s, c).place.base + BLOCK_SIZE then 1 else 0)
    ensures BlockInvariant(Consume(s, t), c)
  {
    var s' := Consume(s, t);
    assert At(s', c) == At(s, c) && s'.emptied == s.emptied + {Owned(s, t)};
    assert s'.index == s.index && s'.free == s.free && s'.issued == s.issued;
  }

  lemma UnlinkBlock(s: State, t: Tid, c: Block)
    requires Context(s, t) && BlockInvariant(s, c) && WorkOf(s, t).Emptied?
    ensures BlockInvariant(Consume(s, t), c)
  {}

  lemma FreeBlock(s: State, t: Tid, c: Block)
    requires Context(s, t) && BlockInvariant(s, c) && WorkOf(s, t).Unlinked?
    ensures BlockInvariant(Consume(s, t), c)
  {}

  lemma ConsumeEntry(s: State, t: Tid, base: nat)
    requires Context(s, t) && base in Consume(s, t).index && EntryInvariant(s, base)
    ensures EntryInvariant(Consume(s, t), base)
  {
    var mine := Base(Owned(s, t));
    if base != mine && mine in s.index && s.index[base] == s.index[mine] {
      EntriesAreInjective(s, base, mine);
    }
    match WorkOf(s, t)
    case Cleared(_) => CountEntry(s, t, base);
    case Unlinked(_) => FreeEntry(s, t, base);
    case _ => OtherEntry(s, t, base);
  }

  lemma CountEntry(s: State, t: Tid, base: nat)
    requires Context(s, t) && base in s.index && EntryInvariant(s, base) && WorkOf(s, t).Cleared?
    requires base != Base(Owned(s, t)) ==> s.index[base] != WorkOf(s, t).b
    ensures EntryInvariant(Consume(s, t), base)
  {}

  lemma FreeEntry(s: State, t: Tid, base: nat)
    requires Context(s, t) && base in s.index && EntryInvariant(s, base) && WorkOf(s, t).Unlinked?
    ensures EntryInvariant(Consume(s, t), base)
  {}

  lemma OtherEntry(s: State, t: Tid, base: nat)
    requires Context(s, t) && base in Consume(s, t).index && EntryInvariant(s, base)
    requires !WorkOf(s, t).Cleared? && !WorkOf(s, t).Unlinked?
    ensures EntryInvariant(Consume(s, t), base)
  {}

  lemma ConsumeCover(s: State, t: Tid, j: nat)
    requires Context(s, t) && CoverInvariant(s, j)
    requires Base(j) in s.index ==> EntryInvariant(s, Base(j))
    ensures CoverInvariant(Consume(s, t), j)
  {
    if Base(j) != Base(Owned(s, t)) && Base(j) in s.index && Base(Owned(s, t)) in s.index
       && s.index[Base(j)] == s.index[Base(Owned(s, t))] {
      EntriesAreInjective(s, Base(j), Base(Owned(s, t)));
    }
  }

  lemma ConsumeWork(s: State, t: Tid, u: Tid)
    requires Context(s, t) && u in s.q.pc && u != t && WorkInvariant(s, u)
    requires s.q.pc[u].Claimed? ==> Owned(s, u) != Owned(s, t)
    ensures WorkInvariant(Consume(s, t), u)
  {
    match WorkOf(s, t)
    case Moved(_) => ClearWork(s, t, u);
    case Cleared(_) => CountWork(s, t, u);
    case Emptied(_) => UnlinkWork(s, t, u);
    case Unlinked(_) => FreeWork(s, t, u);
    case _ => LocateWork(s, t, u);
  }

  lemma LocateWork(s: State, t: Tid, u: Tid)
    requires Context(s, t) && u in s.q.pc && u != t && WorkInvariant(s, u)
    requires s.q.pc[u].Claimed? ==> Owned(s, u) != Owned(s, t)
    requires WorkOf(s, t).Nothing? || WorkOf(s, t).Located?
    ensures WorkInvariant(Consume(s, t), u)
  {}

  lemma ClearWork(s: State, t: Tid, u: Tid)
    requires Context(s, t) && u in s.q.pc && u != t && WorkInvariant(s, u)
    requires s.q.pc[u].Claimed? ==> Owned(s, u) != Owned(s, t)
    requires WorkOf(s, t).Moved?
    ensures WorkInvariant(Consume(s, t), u)
  {}

  lemma CountWork(s: State, t: Tid, u: Tid)
    requires Context(s, t) && u in s.q.pc && u != t && WorkInvariant(s, u)
    requires s.q.pc[u].Claimed? ==> Owned(s, u) != Owned(s, t)
    requires WorkOf(s, t).Cleared?
    ensures WorkInvariant(Consume(s, t), u)
  {}

  lemma UnlinkWork(s: State, t: Tid, u: Tid)
    requires Context(s, t) && u in s.q.pc && u != t && WorkInvariant(s, u)
    requires s.q.pc[u].Claimed? ==> Owned(s, u) != Owned(s, t)
    requires WorkOf(s, t).Emptied?
    ensures WorkInvariant(Consume(s, t), u)
  {
    if s.q.pc[u].Claimed? && Base(Owned(s, u)) == Base(Owned(s, t)) {
      assert Owned(s, u) in s.emptied;
    }
  }

  lemma FreeWork(s: State, t: Tid, u: Tid)
    requires Context(s, t) && u in s.q.pc && u != t && WorkInvariant(s, u)
    requires s.q.pc[u].Claimed? ==> Owned(s, u) != Owned(s, t)
    requires WorkOf(s, t).Unlinked?
    ensures WorkInvariant(Consume(s, t), u)
  {}

  lemma ConsumeOwn(s: State, t: Tid)
    requires Context(s, t)
    ensures WorkInvariant(Consume(s, t), t)
  {
    if WorkOf(s, t).Cleared? {
      OneMoreEmptied(s.emptied, Owned(s, t), Base(Owned(s, t)));
      if At(s, WorkOf(s, t).b).dequeued == BLOCK_SIZE - 1 {
        AllEmptied(s.emptied + {Owned(s, t)}, Base(Owned(s, t)));
      }
    }
  }

  lemma ConsumeProducer(s: State, t: Tid)
    requires Context(s, t)
    requires Filling(s) ==>
               CoverInvariant(s, s.q.tail) && EntryInvariant(s, Base(s.q.tail)) && BlockInvariant(s, s.tailBlock)
    requires s.prod.ResetBlock? || s.prod.LinkBlock? ==> BlockInvariant(s, s.prod.b)
    ensures ProducerInvariant(Consume(s, t))
  {
    match WorkOf(s, t) {
      case Nothing =>
      case Located(_) =>
      case Moved(_) =>
      case Cleared(_) =>
      case Emptied(_) =>
      case Unlinked(_) =>
    }
  }

  lemma ConsumeProtocol(s: State, t: Tid)
    requires Invariant(s) && Context(s, t)
    ensures Tickets.Invariant(Consume(s, t).q) && ProducerInvariant(Consume(s, t))
  {
    if WorkOf(s, t).Cleared? || WorkOf(s, t).Unlinked? { Tickets.Preserved(s.q, Tickets.Finish(t)); }
    if Filling(s) {
      assert CoverInvariant(s, s.q.tail) && EntryInvariant(s, Base(s.q.tail)) && BlockInvariant(s, s.tailBlock);
    }
    if s.prod.ResetBlock? || s.prod.LinkBlock? { assert BlockInvariant(s, s.prod.b); }
    ConsumeProducer(s, t);
  }

  lemma ConsumeLedger(s: State, t: Tid)
    requires Invariant(s) && Context(s, t)
    ensures forall b: Block :: BlockInvariant(Consume(s, t), b)
    ensures forall i: nat :: CoverInvariant(Consume(s, t), i)
  {
    forall b: Block ensures BlockInvariant(Consume(s, t), b) {
      assert BlockInvariant(s, b);
      ConsumeBlock(s, t, b);
    }
    forall i: nat ensures CoverInvariant(Consume(s, t), i) {
      assert CoverInvariant(s, i);
      if Base(i) in s.index { assert EntryInvariant(s, Base(i)); }
      ConsumeCover(s, t, i);
    }
  }

  lemma ConsumePreserved(s: State, t: Tid)
    requires Invariant(s) && Enabled(s, ConsumerStep(t))
    ensures Invariant(Consume(s, t))
  {
    HasContext(s, t);
    ConsumeProtocol(s, t);
    ConsumeLedger(s, t);
    ConsumeKeys(s, t);
    forall base | base in Consume(s, t).index ensures EntryInvariant(Consume(s, t), base) {
      assert EntryInvariant(s, base);
      ConsumeEntry(s, t, base);
    }
    forall u | u in Consume(s, t).q.pc ensures WorkInvariant(Consume(s, t), u) {
      if u == t { ConsumeOwn(s, t); } else {
        assert WorkInvariant(s, u) && Tickets.Apart(s.q.pc[t], s.q.pc[u]);
        ConsumeWork(s, t, u);
      }
    }
  }

  lemma ConsumeKeys(s: State, t: Tid)
    requires t in s.q.pc && s.q.pc[t].Claimed?
    ensures Consume(s, t).index.Keys <= s.index.Keys && Consume(s, t).q.pc.Keys == s.q.pc.Keys
  {}

  lemma Preserved(s: State, a: Action)
    requires Invariant(s) && Enabled(s, a)
    ensures Invariant(Apply(s, a))
  {
    match a
    case Enqueue(_) => EnqueuePreserved(s, a);
    case ProducerStep(found) =>
      if s.prod.Publish? {
        assert Produce(s, found) == Produce(s, None);
        PublishPreserved(s);
      } else {
        ProducerPreserved(s, found);
      }
    case Ticket(t) => TicketPreserved(s, t);
    case ConsumerStep(t) => ConsumePreserved(s, t);
    case _ => OthersPreserved(s, a);
  }

  lemma EnqueuePreserved(s: State, a: Action)
    requires Invariant(s) && Enabled(s, a) && a.Enqueue?
    ensures Invariant(Apply(s, a))
  {
    var s' := Apply(s, a);
    forall c: Block ensures BlockInvariant(s', c) {
      assert BlockInvariant(s, c);
      EnqueueBlock(s, a, c);
    }
    forall base | base in s'.index ensures EntryInvariant(s', base) { assert EntryInvariant(s, base); }
    forall i: nat ensures CoverInvariant(s', i) { assert CoverInvariant(s, i); }
    forall t | t in s'.q.pc ensures WorkInvariant(s', t) {
      assert WorkInvariant(s, t);
      EnqueueWork(s, a, t);
    }
  }

  lemma EnqueueBlock(s: State, a: Action, b: Block)
    requires BlockInvariant(s, b) && Enabled(s, a) && a.Enqueue?
    ensures BlockInvariant(Apply(s, a), b)
  {}

  lemma EnqueueWork(s: State, a: Action, t: Tid)
    requires Enabled(s, a) && a.Enqueue? && t in s.q.pc && WorkInvariant(s, t)
    ensures WorkInvariant(Apply(s, a), t)
  {}

  // ---------------------------------------------------------------- whole runs

  predicate Possible(s: State, run: seq<Action>)
    decreases run
  {
    run == [] || (Enabled(s, run[0]) && Possible(Apply(s, run[0]), run[1..]))
  }

  function Outcome(s: State, run: seq<Action>): State
    requires Possible(s, run)
    decreases run
  {
    if run == [] then s else Outcome(Apply(s, run[0]), run[1..])
  }

  lemma InitiallyInvariant(s: State)
    requires Init(s)
    ensures Invariant(s)
  {
    Tickets.InitiallyInvariant(s.q);
  }

  lemma {:induction false} InvariantOnRuns(s: State, run: seq<Action>)
    requires Invariant(s) && Possible(s, run)
    ensures Invariant(Outcome(s, run))
    decreases run
  {
    if run != [] {
      Preserved(s, run[0]);
      InvariantOnRuns(Apply(s, run[0]), run[1..]);
    }
  }

  // ---------------------------------------------------------------- results

  /**
    A consumer about to move an element out finds, in the block it looked up, the very element that
    was enqueued at the index it claimed; the index was not moved out before, and all that was ever
    moved out is what was enqueued at that index.
   */
  lemma EachElementMovesOnce(s0: State, run: seq<Action>, t: Tid)
    requires Init(s0) && Possible(s0, run)
    requires var s := Outcome(s0, run); t in s.q.pc && s.q.pc[t].Claimed? && WorkOf(s, t).Located?
    ensures var s := Outcome(s0, run); var i := Owned(s, t); var s' := Consume(s, t);
            && i < |s.items| && i !in s.out
            && s'.out == s.out[i := s.items[i]]
            && forall j :: j in s.out ==> j < |s.items| && s.out[j] == s.items[j]
  {
    var s := Outcome(s0, run);
    InitiallyInvariant(s0);
    InvariantOnRuns(s0, run);
    HasContext(s, t);
    forall j | j in s.out ensures j < |s.items| && s.out[j] == s.items[j] {
      assert CoverInvariant(s, j);
    }
  }

  /** A consumer's lookup names the block that holds its element: the entry is never missing. */
  lemma LookupFindsTheBlock(s0: State, run: seq<Action>, t: Tid)
    requires Init(s0) && Possible(s0, run)
    requires var s := Outcome(s0, run);
             t in s.q.pc && s.q.pc[t].Claimed? && (WorkOf(s, t).Nothing? || WorkOf(s, t).Located?)
    ensures var s := Outcome(s0, run); var i := Owned(s, t);
            && Base(i) in s.index
            && (WorkOf(s, t).Located? ==> WorkOf(s, t).b == s.index[Base(i)])
            && At(s, s.index[Base(i)]).place == Mine(Base(i))
            && i < |s.items| && i % BLOCK_SIZE in At(s, s.index[Base(i)]).cells
            && At(s, s.index[Base(i)]).cells[i % BLOCK_SIZE] == s.items[i]
  {
    InitiallyInvariant(s0);
    InvariantOnRuns(s0, run);
    HasContext(Outcome(s0, run), t);
  }

  /** A consumer that still uses block `b` for an element of its own. */
  predicate Uses(s: State, u: Tid, b: Block) {
    var w := WorkOf(s, u);
    (w.Located? || w.Moved? || w.Cleared? || w.Emptied? || w.Unlinked?) && w.b == b
  }

  /**
    A block is given back only by the consumer whose `set_empty` was the 32nd, after all 32 elements
    were moved out and destroyed, once nobody else uses it and it is neither in the index, nor in the
    free list, nor with the producer.
   */
  lemma ReleaseIsSafe(s0: State, run: seq<Action>, t: Tid)
    requires Init(s0) && Possible(s0, run)
    requires var s := Outcome(s0, run); t in s.q.pc && s.q.pc[t].Claimed? && WorkOf(s, t).Unlinked?
    ensures var s := Outcome(s0, run); var b := WorkOf(s, t).b; var base := Base(Owned(s, t));
            && (forall j :: base <= j < base + BLOCK_SIZE ==> j in s.out && j in s.cleared && j in s.emptied)
            && (forall u :: u in s.q.pc && u != t ==> !Uses(s, u, b))
            && (forall k :: k in s.index ==> s.index[k] != b)
            && b !in s.free
            && !((s.prod.ResetBlock? || s.prod.LinkBlock?) && s.prod.b == b)
  {
    var s := Outcome(s0, run);
    InitiallyInvariant(s0);
    InvariantOnRuns(s0, run);
    HasContext(s, t);
    var b, base := WorkOf(s, t).b, Base(Owned(s, t));
    assert BlockInvariant(s, b);
    forall j | base <= j < base + BLOCK_SIZE ensures j in s.out && j in s.cleared && j in s.emptied {
      assert CoverInvariant(s, j);
    }
    forall u | u in s.q.pc && u != t ensures !Uses(s, u, b) {
      assert WorkInvariant(s, u);
      if Uses(s, u, b) { HasContext(s, u); }
    }
    forall k | k in s.index ensures s.index[k] != b { assert EntryInvariant(s, k); }
  }

  /** The emptying count of a block reaches 32 in one step of one consumer only, and never passes it. */
  lemma CountNeverOverflows(s0: State, run: seq<Action>, t: Tid)
    requires Init(s0) && Possible(s0, run)
    requires var s := Outcome(s0, run); t in s.q.pc && s.q.pc[t].Claimed? && WorkOf(s, t).Cleared?
    ensures var s := Outcome(s0, run); var b := WorkOf(s, t).b; var base := Base(Owned(s, t));
            && At(s, b).dequeued < BLOCK_SIZE
            && At(s, b).dequeued == |EmptiedIn(s.emptied, base)|
            && (WorkOf(Consume(s, t), t) == Emptied(b) <==>
                  forall j :: base <= j < base + BLOCK_SIZE && j != Owned(s, t) ==> j in s.emptied)
  {
    var s := Outcome(s0, run);
    InitiallyInvariant(s0);
    InvariantOnRuns(s0, run);
    HasContext(s, t);
    var i, base := Owned(s, t), Base(Owned(s, t));
    OneMoreEmptied(s.emptied, i, base);
    if forall j :: base <= j < base + BLOCK_SIZE && j != i ==> j in s.emptied {
      assert EmptiedIn(s.emptied + {i}, base) == Interval(base, BLOCK_SIZE);
    }
    if |EmptiedIn(s.emptied + {i}, base)| == BLOCK_SIZE {
      AllEmptied(s.emptied + {i}, base);
    }
  }

  ghost predicate InIndex(s: State, b: Block) {
    exists base :: base in s.index && s.index[base] == b
  }

  predicate WithProducer(s: State, b: Block) {
    (s.prod.ResetBlock? || s.prod.LinkBlock?) && s.prod.b == b
  }

  /** A consumer has taken `b` out of the index and not yet given it back. */
  ghost predicate WithConsumer(s: State, b: Block) {
    exists t :: t in s.q.pc && s.q.pc[t].Claimed? && WorkOf(s, t) == Unlinked(b)
  }

  /**
    Every block of the initial pool is in exactly one of: the part of the pool not yet issued, the
    free list, the block index, the producer's hands, the hands of the consumer that emptied it,
    another sub-queue. The index holds it at most once.
   */
  lemma BlocksAreConserved(s0: State, run: seq<Action>, b: Block)
    requires Init(s0) && Possible(s0, run) && b < s0.poolSize
    ensures var s := Outcome(s0, run);
            && (if b >= s.issued then 1 else 0) + (if b in s.free then 1 else 0)
               + (if InIndex(s, b) then 1 else 0) + (if WithProducer(s, b) then 1 else 0)
               + (if WithConsumer(s, b) then 1 else 0) + (if At(s, b).place.Elsewhere? then 1 else 0) == 1
            && (forall i, j :: i in s.index && j in s.index && s.index[i] == b && s.index[j] == b ==> i == j)
  {
    var s := Outcome(s0, run);
    InitiallyInvariant(s0);
    InvariantOnRuns(s0, run);
    PoolSizeIsConstant(s0, run);
    assert BlockInvariant(s, b);
    forall t | t in s.q.pc && s.q.pc[t].Claimed? && WorkOf(s, t) == Unlinked(b)
      ensures At(s, b).place == Releasing(t)
    {
      assert WorkInvariant(s, t);
    }
    forall base | base in s.index && s.index[base] == b
      ensures At(s, b).place == Mine(base) || (At(s, b).place.Releasing? && WorkOf(s, At(s, b).place.t) == Emptied(b))
    {
      assert EntryInvariant(s, base);
    }
    if At(s, b).place.Releasing? && WorkOf(s, At(s, b).place.t) == Emptied(b) {
      var t := At(s, b).place.t;
      assert WorkInvariant(s, t);
      assert s.index[Base(Owned(s, t))] == b;
    }
    forall i, j | i in s.index && j in s.index && s.index[i] == b && s.index[j] == b ensures i == j {
      assert EntryInvariant(s, i) && EntryInvariant(s, j);
      EntriesAreInjective(s, i, j);
    }
  }

  lemma {:induction false} PoolSizeIsConstant(s: State, run: seq<Action>)
    requires Possible(s, run)
    ensures Outcome(s, run).poolSize == s.poolSize
    decreases run
  {
    if run != [] { PoolSizeIsConstant(Apply(s, run[0]), run[1..]); }
  }

  /**
    With no consumer at work, what was moved out is exactly the elements below `headIndex`, each once
    and unchanged, and the index holds a block for exactly the bases from which elements remain.
   */
  lemma QuiescentContents(s0: State, run: seq<Action>, i: nat)
    requires Init(s0) && Possible(s0, run)
    requires var s := Outcome(s0, run); forall t :: t in s.q.pc ==> !s.q.pc[t].Claimed?
    ensures var s := Outcome(s0, run);
            && (i in s.out <==> i < s.q.head)
            && (i in s.out ==> i < |s.items| && s.out[i] == s.items[i])
            && (s.q.head <= i < |s.items| ==>
                  && Base(i) in s.index && i % BLOCK_SIZE in At(s, s.index[Base(i)]).cells
                  && At(s, s.index[Base(i)]).cells[i % BLOCK_SIZE] == s.items[i])
            && (i % BLOCK_SIZE == 0 && i + BLOCK_SIZE <= s.q.head ==> i !in s.index)
  {
    var s := Outcome(s0, run);
    InitiallyInvariant(s0);
    InvariantOnRuns(s0, run);
    assert CoverInvariant(s, i) && Tickets.IndexInvariant(s.q, i);
    if i % BLOCK_SIZE == 0 && i + BLOCK_SIZE <= s.q.head {
      forall j | i <= j < i + BLOCK_SIZE ensures j in s.emptied {
        assert Tickets.IndexInvariant(s.q, j) && CoverInvariant(s, j);
      }
      assert EmptiedIn(s.emptied, i) == Interval(i, BLOCK_SIZE);
      assert i in s.index ==> EntryInvariant(s, i) && BlockInvariant(s, s.index[i]);
    }
  }
}
