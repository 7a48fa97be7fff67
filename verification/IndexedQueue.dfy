/**
  The sub-queue with its circular block index: what `SubQueue` keeps in a map from bases to blocks is what
  the tables of `BlockIndex` hold, step by step, and so a consumer that goes through the headers, tails and
  keys of the index while others work on it finds the block that the map has for its element.
 */
module IndexedQueue {
  import opened Common
  import Q = SubQueue
  import I = BlockIndex
  import Tickets

  // ---------------------------------------------------------------- the relation

  /** The producer has an entry for the next block, but no block in it yet. */
  predicate Unfilled(p: Q.Prod) {
    p.CheckPool? || p.TakeFromPool? || p.TryFreeList? || p.Allocate? || p.ResetBlock? || p.LinkBlock?
  }

  /** How many blocks have an entry. */
  function Inserted(s: Q.State): nat {
    s.q.tail / Q.BLOCK_SIZE
    + if s.q.tail % Q.BLOCK_SIZE != 0 || Unfilled(s.prod) || s.prod.Construct? || s.prod.Publish? then 1 else 0
  }

  function BlockOf(s: Q.State, q: nat): Option<Q.Block> {
    if Q.BLOCK_SIZE * q in s.index then Some(s.index[Q.BLOCK_SIZE * q]) else None
  }

  ghost predicate SameIndex(s: Q.State, t: I.Table)
    requires I.Shape(t)
  {
    forall q: nat :: I.BlockAt(t, q) == BlockOf(s, q)
  }

  ghost predicate Mirrors(s: Q.State, t: I.Table) {
    && I.Sound(t) && I.Settled(t) && t.next == Inserted(s) && SameIndex(s, t)
    && (Unfilled(s.prod) ==> HasNewestKey(t))
  }

  ghost predicate HasNewestKey(t: I.Table)
    requires I.Shape(t)
  {
    t.headers != [] && t.next > 0 && t.keys[I.EntryOf(t, I.Newest(t), t.next - 1)] == I.BLOCK_SIZE * (t.next - 1)
  }

  // ---------------------------------------------------------------- what a step does to the table

  /** The operations on the index that a step of the sub-queue consists of. */
  ghost function Ops(s: Q.State, t: I.Table, a: Q.Action): seq<I.Op>
    requires I.Shape(t) && Q.Enabled(s, a)
  {
    match a
    case ProducerStep(found) =>
      (match s.prod
       case InsertEntry(_) =>
         if found.None? then []
         else if I.HasRoom(t) then [I.StoreKey, I.StoreTail]
         else [I.Expand, I.StoreKey, I.StoreTail]
       case Allocate(_) => if found.None? then [I.RewindTail] else []
       case LinkBlock(_, b) => [I.StoreValue(b)]
       case _ => [])
    case ConsumerStep(u) =>
      if Q.WorkOf(s, u).Emptied? then [I.ClearValue(Q.Owned(s, u) / Q.BLOCK_SIZE)] else []
    case _ => []
  }

  /** One after the other they can be done, and the index is settled all the time. */
  ghost predicate CanDoAll(t: I.Table, ops: seq<I.Op>)
    decreases ops
  {
    && I.Sound(t) && I.Settled(t)
    && (ops != [] ==> I.CanDo(t, ops[0]) && CanDoAll(I.Do(t, ops[0]), ops[1..]))
  }

  ghost function DoAll(t: I.Table, ops: seq<I.Op>): (t': I.Table)
    requires CanDoAll(t, ops)
    ensures I.Sound(t') && I.Settled(t')
    decreases ops
  {
    if ops == [] then t else DoAll(I.Do(t, ops[0]), ops[1..])
  }

  lemma One(t: I.Table, op: I.Op)
    requires I.Sound(t) && I.Settled(t) && I.CanDo(t, op) && I.Sound(I.Do(t, op)) && I.Settled(I.Do(t, op))
    ensures CanDoAll(t, [op]) && DoAll(t, [op]) == I.Do(t, op)
  {
    assert [op][1..] == [];
  }

  lemma DoFirst(t: I.Table, op: I.Op, rest: seq<I.Op>)
    requires I.Sound(t) && I.Settled(t) && I.CanDo(t, op) && CanDoAll(I.Do(t, op), rest)
    ensures CanDoAll(t, [op] + rest) && DoAll(t, [op] + rest) == DoAll(I.Do(t, op), rest)
  {
    assert ([op] + rest)[1..] == rest;
  }

  lemma FirstAndRest<T>(a: seq<T>, b: seq<T>)
    requires a != []
    ensures a + b == [a[0]] + (a[1..] + b) && (a + b)[0] == a[0] && (a + b)[1..] == a[1..] + b
  {}

  lemma {:induction false} DoBoth(t: I.Table, ops: seq<I.Op>, more: seq<I.Op>)
    requires CanDoAll(t, ops) && CanDoAll(DoAll(t, ops), more)
    ensures CanDoAll(t, ops + more) && DoAll(t, ops + more) == DoAll(DoAll(t, ops), more)
    decreases ops
  {
    if ops == [] {
      assert ops + more == more;
    } else {
      DoBoth(I.Do(t, ops[0]), ops[1..], more);
      FirstAndRest(ops, more);
      DoFirst(t, ops[0], ops[1..] + more);
    }
  }

  lemma {:induction false} DoParts(t: I.Table, ops: seq<I.Op>, more: seq<I.Op>)
    requires CanDoAll(t, ops + more)
    ensures CanDoAll(t, ops) && CanDoAll(DoAll(t, ops), more)
    decreases ops
  {
    if ops == [] {
      assert ops + more == more;
    } else {
      FirstAndRest(ops, more);
      DoParts(I.Do(t, ops[0]), ops[1..], more);
    }
  }

  // ---------------------------------------------------------------- the operations keep the relation

  /** An entry is made for the next block, in a larger header if there is no room. */
  lemma Insert(t: I.Table, ops: seq<I.Op>)
    requires I.Sound(t) && I.Settled(t)
    requires ops == if I.HasRoom(t) then [I.StoreKey, I.StoreTail] else [I.Expand, I.StoreKey, I.StoreTail]
    ensures CanDoAll(t, ops)
    ensures var t' := DoAll(t, ops);
            t'.next == t.next + 1 && HasNewestKey(t') && forall q: nat :: I.BlockAt(t', q) == I.BlockAt(t, q)
  {
    if I.HasRoom(t) {
      InsertRoomy(t);
    } else {
      InsertGrown(t);
    }
  }

  lemma InsertGrown(t: I.Table)
    requires I.Sound(t) && I.Settled(t) && !I.HasRoom(t)
    ensures var ops := [I.Expand, I.StoreKey, I.StoreTail];
            && CanDoAll(t, ops)
            && var t' := DoAll(t, ops);
               t'.next == t.next + 1 && HasNewestKey(t') && forall q: nat :: I.BlockAt(t', q) == I.BlockAt(t, q)
  {
    Grown(t);
    InsertRoomy(I.Grow(t));
    DoFirst(t, I.Expand, [I.StoreKey, I.StoreTail]);
    assert [I.Expand] + [I.StoreKey, I.StoreTail] == [I.Expand, I.StoreKey, I.StoreTail];
  }

  lemma Grown(t: I.Table)
    requires I.Sound(t) && I.Settled(t) && !I.HasRoom(t)
    ensures I.CanDo(t, I.Expand) && I.Sound(I.Grow(t)) && I.Settled(I.Grow(t)) && I.HasRoom(I.Grow(t))
    ensures I.Grow(t).next == t.next && forall q: nat :: I.BlockAt(I.Grow(t), q) == I.BlockAt(t, q)
  {
    I.GrowSound(t);
    forall q: nat ensures I.BlockAt(I.Grow(t), q) == I.BlockAt(t, q) { I.GrowBlocks(t, q); }
  }

  lemma InsertRoomy(t: I.Table)
    requires I.Sound(t) && I.Settled(t) && I.HasRoom(t)
    ensures var ops := [I.StoreKey, I.StoreTail];
            && CanDoAll(t, ops)
            && var t' := DoAll(t, ops);
               t'.next == t.next + 1 && HasNewestKey(t') && forall q: nat :: I.BlockAt(t', q) == I.BlockAt(t, q)
  {
    var k := I.Keyed(t);
    I.KeyedSound(t);
    I.TailedSound(k);
    I.AdvanceSettled(k);
    One(t, I.StoreKey);
    One(k, I.StoreTail);
    DoBoth(t, [I.StoreKey], [I.StoreTail]);
    assert [I.StoreKey] + [I.StoreTail] == [I.StoreKey, I.StoreTail];
    I.AdvanceBlocks(k, 0);
    forall q: nat ensures I.BlockAt(I.Advance(k), q) == I.BlockAt(t, q) {
      I.AdvanceBlocks(k, q);
      I.KeyedBlocks(t, q);
    }
  }

  /** The last entry is given back: it has no block. */
  lemma Rewound(t: I.Table)
    requires I.Sound(t) && I.Settled(t) && t.headers != [] && t.next > 0 && I.BlockAt(t, t.next - 1) == None
    ensures CanDoAll(t, [I.RewindTail]) && DoAll(t, [I.RewindTail]) == I.Rewind(t)
    ensures forall q: nat :: I.BlockAt(I.Rewind(t), q) == I.BlockAt(t, q)
  {
    I.RewindSound(t);
    I.RewindSettled(t);
    One(t, I.RewindTail);
    forall q: nat ensures I.BlockAt(I.Rewind(t), q) == I.BlockAt(t, q) { I.RewindBlocks(t, q); }
  }

  lemma Stored(t: I.Table, b: I.Block)
    requires I.Sound(t) && I.Settled(t) && HasNewestKey(t)
    ensures CanDoAll(t, [I.StoreValue(b)])
    ensures var t' := DoAll(t, [I.StoreValue(b)]);
            && t'.next == t.next
            && forall q: nat :: I.BlockAt(t', q) == if q == t.next - 1 then Some(b) else I.BlockAt(t, q)
  {
    var t' := I.Do(t, I.StoreValue(b));
    I.StoreBlocks(t, b, 0);
    I.StoreSettled(t, I.EntryOf(t, I.Newest(t), t.next - 1), Some(b));
    One(t, I.StoreValue(b));
    forall q: nat ensures I.BlockAt(t', q) == if q == t.next - 1 then Some(b) else I.BlockAt(t, q) {
      I.StoreBlocks(t, b, q);
    }
  }

  lemma Cleared(t: I.Table, p: nat)
    requires I.Sound(t) && I.Settled(t) && I.BlockAt(t, p).Some?
    ensures CanDoAll(t, [I.ClearValue(p)])
    ensures var t' := DoAll(t, [I.ClearValue(p)]);
            && t'.next == t.next && t'.headers == t.headers && t'.keys == t.keys && t'.shifts == t.shifts
            && forall q: nat :: I.BlockAt(t', q) == if q == p then None else I.BlockAt(t, q)
  {
    var t' := I.Do(t, I.ClearValue(p));
    I.ClearBlocks(t, p, 0);
    I.StoreSettled(t, I.EntryOf(t, I.Newest(t), p), None);
    One(t, I.ClearValue(p));
    forall q: nat ensures I.BlockAt(t', q) == if q == p then None else I.BlockAt(t, q) { I.ClearBlocks(t, p, q); }
  }

  // ---------------------------------------------------------------- steps of the sub-queue

  /** Neither the blocks in the index nor the number of entries change. */
  predicate IndexUntouched(s: Q.State, s': Q.State) {
    s'.index == s.index && Inserted(s') == Inserted(s) && (Unfilled(s'.prod) ==> Unfilled(s.prod))
  }

  lemma Untouched(s: Q.State, s': Q.State, t: I.Table)
    requires Mirrors(s, t) && IndexUntouched(s, s')
    ensures Mirrors(s', t)
  {
    forall q: nat ensures I.BlockAt(t, q) == BlockOf(s', q) { assert I.BlockAt(t, q) == BlockOf(s, q); }
  }

  lemma QuietSteps(s: Q.State, t: I.Table, a: Q.Action)
    requires Q.ProducerInvariant(s) && Q.Enabled(s, a) && I.Shape(t) && Ops(s, t, a) == []
    ensures IndexUntouched(s, Q.Apply(s, a))
  {
    match a {
      case ProducerStep(found) => QuietProducer(s, t, found);
      case ConsumerStep(u) => QuietConsumer(s, u);
      case _ =>
    }
  }

  lemma QuietProducer(s: Q.State, t: I.Table, found: Option<Q.Block>)
    requires Q.ProducerInvariant(s) && Q.Enabled(s, Q.ProducerStep(found)) && I.Shape(t)
             && Ops(s, t, Q.ProducerStep(found)) == []
    ensures IndexUntouched(s, Q.Apply(s, Q.ProducerStep(found)))
  {}

  lemma QuietConsumer(s: Q.State, u: Q.Tid)
    requires Q.Enabled(s, Q.ConsumerStep(u)) && !Q.WorkOf(s, u).Emptied?
    ensures IndexUntouched(s, Q.Apply(s, Q.ConsumerStep(u)))
  {}

  lemma InsertMirrors(s: Q.State, t: I.Table, found: Option<Q.Block>)
    requires Q.ProducerInvariant(s) && Mirrors(s, t) && s.prod.InsertEntry? && found.Some?
    ensures var a := Q.ProducerStep(found);
            CanDoAll(t, Ops(s, t, a)) && Mirrors(Q.Apply(s, a), DoAll(t, Ops(s, t, a)))
  {
    var a := Q.ProducerStep(found);
    var s' := Q.Apply(s, a);
    Insert(t, Ops(s, t, a));
    assert s'.index == s.index && Inserted(s') == Inserted(s) + 1;
    SameIndexAfter(s, s', t, DoAll(t, Ops(s, t, a)));
  }

  lemma SameIndexAfter(s: Q.State, s': Q.State, t: I.Table, t': I.Table)
    requires I.Shape(t) && I.Shape(t') && SameIndex(s, t) && s'.index == s.index
    requires forall q: nat :: I.BlockAt(t', q) == I.BlockAt(t, q)
    ensures SameIndex(s', t')
  {
    forall q: nat ensures I.BlockAt(t', q) == BlockOf(s', q) { assert I.BlockAt(t, q) == BlockOf(s, q); }
  }

  lemma NextIsNotThere(s: Q.State)
    requires Q.Invariant(s) && !Q.Filling(s)
    ensures s.q.tail !in s.index
  {
    assert s.q.tail in s.index ==> Q.EntryInvariant(s, s.q.tail);
  }

  lemma GiveUpMirrors(s: Q.State, t: I.Table)
    requires Q.ProducerInvariant(s) && Mirrors(s, t) && s.prod.Allocate? && s.q.tail !in s.index
    ensures CanDoAll(t, [I.RewindTail]) && Mirrors(Q.Apply(s, Q.ProducerStep(None)), DoAll(t, [I.RewindTail]))
  {
    assert I.BlockAt(t, t.next - 1) == BlockOf(s, t.next - 1);
    Rewound(t);
    GivenUp(s);
    SameIndexAfter(s, Q.Apply(s, Q.ProducerStep(None)), t, I.Rewind(t));
  }

  lemma GivenUp(s: Q.State)
    requires Q.ProducerInvariant(s) && s.prod.Allocate?
    ensures var s' := Q.Apply(s, Q.ProducerStep(None));
            s'.index == s.index && Inserted(s') == Inserted(s) - 1 && !Unfilled(s'.prod)
  {}

  lemma LinkMirrors(s: Q.State, t: I.Table, found: Option<Q.Block>)
    requires Q.ProducerInvariant(s) && Mirrors(s, t) && s.prod.LinkBlock?
    ensures var a := Q.ProducerStep(found);
            CanDoAll(t, Ops(s, t, a)) && Mirrors(Q.Apply(s, a), DoAll(t, Ops(s, t, a)))
  {
    var a := Q.ProducerStep(found);
    var s' := Q.Apply(s, a);
    var t' := I.Do(t, I.StoreValue(s.prod.b));
    Stored(t, s.prod.b);
    One(t, I.StoreValue(s.prod.b));
    LinkedIndex(s, s', t, t', s.prod.b);
  }

  lemma LinkedIndex(s: Q.State, s': Q.State, t: I.Table, t': I.Table, b: Q.Block)
    requires I.Shape(t) && I.Shape(t') && SameIndex(s, t) && t.next > 0
    requires s.q.tail == Q.BLOCK_SIZE * (t.next - 1) && s'.index == s.index[s.q.tail := b]
    requires forall q: nat :: I.BlockAt(t', q) == if q == t.next - 1 then Some(b) else I.BlockAt(t, q)
    ensures SameIndex(s', t')
  {
    forall q: nat ensures I.BlockAt(t', q) == BlockOf(s', q) { assert I.BlockAt(t, q) == BlockOf(s, q); }
  }

  lemma ClearMirrors(s: Q.State, t: I.Table, u: Q.Tid)
    requires Q.Invariant(s) && Mirrors(s, t) && Q.Enabled(s, Q.ConsumerStep(u)) && Q.WorkOf(s, u).Emptied?
    ensures var a := Q.ConsumerStep(u);
            CanDoAll(t, Ops(s, t, a)) && Mirrors(Q.Apply(s, a), DoAll(t, Ops(s, t, a)))
  {
    var s' := Q.Apply(s, Q.ConsumerStep(u));
    assert Q.WorkInvariant(s, u);
    var p := Q.Owned(s, u) / Q.BLOCK_SIZE;
    assert Q.Base(Q.Owned(s, u)) == Q.BLOCK_SIZE * p;
    assert I.BlockAt(t, p) == BlockOf(s, p);
    Cleared(t, p);
    ClearedIndex(s, s', t, DoAll(t, [I.ClearValue(p)]), p);
    KeyStays(t, DoAll(t, [I.ClearValue(p)]));
  }

  lemma ClearedIndex(s: Q.State, s': Q.State, t: I.Table, t': I.Table, p: nat)
    requires I.Shape(t) && I.Shape(t') && SameIndex(s, t) && s'.index == s.index - {Q.BLOCK_SIZE * p}
    requires forall q: nat :: I.BlockAt(t', q) == if q == p then None else I.BlockAt(t, q)
    ensures SameIndex(s', t')
  {
    forall q: nat ensures I.BlockAt(t', q) == BlockOf(s', q) { assert I.BlockAt(t, q) == BlockOf(s, q); }
  }

  lemma KeyStays(t: I.Table, t': I.Table)
    requires I.Shape(t) && I.Shape(t') && t'.next == t.next
    requires t'.headers == t.headers && t'.keys == t.keys && t'.shifts == t.shifts
    ensures HasNewestKey(t) ==> HasNewestKey(t')
  {}

  /** Whatever the sub-queue does, the table can follow. */
  lemma StepMirrors(s: Q.State, t: I.Table, a: Q.Action)
    requires Q.Invariant(s) && Mirrors(s, t) && Q.Enabled(s, a)
    ensures CanDoAll(t, Ops(s, t, a)) && Mirrors(Q.Apply(s, a), DoAll(t, Ops(s, t, a)))
  {
    if Ops(s, t, a) == [] {
      QuietSteps(s, t, a);
      Untouched(s, Q.Apply(s, a), t);
    } else if a.ConsumerStep? {
      ClearMirrors(s, t, a.t);
    } else if s.prod.InsertEntry? {
      InsertMirrors(s, t, a.found);
    } else if s.prod.Allocate? {
      NextIsNotThere(s);
      GiveUpMirrors(s, t);
    } else {
      LinkMirrors(s, t, a.found);
    }
  }

  // ---------------------------------------------------------------- whole runs

  ghost function OpsOf(s: Q.State, t: I.Table, run: seq<Q.Action>): seq<I.Op>
    requires Q.Invariant(s) && Mirrors(s, t) && Q.Possible(s, run)
    decreases run
  {
    if run == [] then []
    else
      StepMirrors(s, t, run[0]);
      Q.Preserved(s, run[0]);
      Ops(s, t, run[0]) + OpsOf(Q.Apply(s, run[0]), DoAll(t, Ops(s, t, run[0])), run[1..])
  }

  /**
    In every run the operations of its steps can be done one after the other, and the table mirrors what
    comes of it.
   */
  lemma {:induction false} RunMirrors(s: Q.State, t: I.Table, run: seq<Q.Action>)
    requires Q.Invariant(s) && Mirrors(s, t) && Q.Possible(s, run)
    ensures CanDoAll(t, OpsOf(s, t, run)) && Mirrors(Q.Outcome(s, run), DoAll(t, OpsOf(s, t, run)))
    decreases run
  {
    if run != [] {
      var ops := Ops(s, t, run[0]);
      StepMirrors(s, t, run[0]);
      Q.Preserved(s, run[0]);
      var s', t' := Q.Apply(s, run[0]), DoAll(t, ops);
      RunMirrors(s', t', run[1..]);
      DoBoth(t, ops, OpsOf(s', t', run[1..]));
    }
  }

  const NO_INDEX: I.Table := I.Table([], [], [], [], 0)

  /** Every state of the sub-queue that can be reached is mirrored by the table of the operations so far. */
  lemma EveryStateIsMirrored(s0: Q.State, run: seq<Q.Action>)
    requires Q.Init(s0) && Q.Possible(s0, run)
    ensures Q.Invariant(s0) && Mirrors(s0, NO_INDEX)
    ensures CanDoAll(NO_INDEX, OpsOf(s0, NO_INDEX, run))
    ensures Mirrors(Q.Outcome(s0, run), DoAll(NO_INDEX, OpsOf(s0, NO_INDEX, run)))
  {
    Q.InitiallyInvariant(s0);
    RunMirrors(s0, NO_INDEX, run);
  }

  // ---------------------------------------------------------------- lookups

  /** An operation that does not clear block `q` leaves it in use. */
  lemma OpKeeps(t: I.Table, op: I.Op, q: nat)
    requires I.Sound(t) && I.CanDo(t, op) && I.BlockAt(t, q).Some? && op != I.ClearValue(q)
    ensures I.Sound(I.Do(t, op)) && I.BlockAt(I.Do(t, op), q).Some?
  {
    match op
    case StoreKey => I.KeyedBlocks(t, q);
    case StoreTail =>
      I.TailedSound(t);
      I.AdvanceBlocks(t, q);
    case Expand => I.GrowBlocks(t, q);
    case StoreValue(b) => I.StoreBlocks(t, b, q);
    case ClearValue(p) => I.ClearBlocks(t, p, q);
    case RewindTail => I.RewindBlocks(t, q);
  }

  /** As long as nothing clears it, block `q` is in use throughout, and older than the next block. */
  lemma {:induction false} InUse(t: I.Table, ops: seq<I.Op>, q: nat)
    requires CanDoAll(t, ops) && I.BlockAt(t, q).Some? && I.ClearValue(q) !in ops
    ensures I.InUseThroughout(t, ops, q) && I.After(t, ops, q) == DoAll(t, ops)
    ensures I.BlockAt(DoAll(t, ops), q).Some? && q < DoAll(t, ops).next
    decreases ops
  {
    if ops == [] {
      I.InUseIsRecent(t, q);
    } else {
      assert ops[0] in ops;
      OpKeeps(t, ops[0], q);
      InUse(I.Do(t, ops[0]), ops[1..], q);
    }
  }

  /** Only when all elements of a block are emptied is its entry cleared. */
  lemma ClearedWhenEmptied(s: Q.State, t: I.Table, a: Q.Action, i: nat)
    requires Q.Invariant(s) && I.Shape(t) && Q.Enabled(s, a) && I.ClearValue(i / Q.BLOCK_SIZE) in Ops(s, t, a)
    ensures i in s.emptied
  {
    assert a.ConsumerStep?;
    assert Q.WorkInvariant(s, a.t);
    assert Q.Base(i) == Q.Base(Q.Owned(s, a.t)) by { SameBlock(i, Q.Owned(s, a.t)); }
  }

  lemma SameBlock(i: nat, j: nat)
    requires i / Q.BLOCK_SIZE == j / Q.BLOCK_SIZE
    ensures Q.Base(i) == Q.Base(j) && Q.Base(j) <= i < Q.Base(j) + Q.BLOCK_SIZE
  {}

  lemma EmptiedGrows(s: Q.State, a: Q.Action)
    requires Q.Enabled(s, a)
    ensures s.emptied <= Q.Apply(s, a).emptied
  {
    match a {
      case ConsumerStep(u) => ConsumerEmpties(s, u);
      case ProducerStep(found) => ProducerEmpties(s, found);
      case _ =>
    }
  }

  lemma ConsumerEmpties(s: Q.State, u: Q.Tid)
    requires Q.Enabled(s, Q.ConsumerStep(u))
    ensures s.emptied <= Q.Consume(s, u).emptied
  {}

  lemma ProducerEmpties(s: Q.State, found: Option<Q.Block>)
    ensures Q.Produce(s, found).emptied == s.emptied
  {}

  lemma StepEmpties(s: Q.State, t: I.Table, a: Q.Action, i: nat)
    requires Q.Invariant(s) && I.Shape(t) && Q.Enabled(s, a) && i !in Q.Apply(s, a).emptied
    ensures i !in s.emptied && I.ClearValue(i / Q.BLOCK_SIZE) !in Ops(s, t, a)
  {
    EmptiedGrows(s, a);
    if I.ClearValue(i / Q.BLOCK_SIZE) in Ops(s, t, a) { ClearedWhenEmptied(s, t, a, i); }
  }

  lemma {:induction false} NotCleared(s: Q.State, t: I.Table, run: seq<Q.Action>, i: nat)
    requires Q.Invariant(s) && Mirrors(s, t) && Q.Possible(s, run) && i !in Q.Outcome(s, run).emptied
    ensures i !in s.emptied && I.ClearValue(i / Q.BLOCK_SIZE) !in OpsOf(s, t, run)
    decreases run
  {
    if run != [] {
      StepMirrors(s, t, run[0]);
      Q.Preserved(s, run[0]);
      NotCleared(Q.Apply(s, run[0]), DoAll(t, Ops(s, t, run[0])), run[1..], i);
      StepEmpties(s, t, run[0], i);
    }
  }

  /** The slot that a consumer computes from the tail after `first` and the key after `second` besides. */
  ghost function SlotSeen(t: I.Table, first: seq<I.Op>, second: seq<I.Op>, q: nat): nat
    requires t.headers != [] && CanDoAll(t, first) && CanDoAll(DoAll(t, first), second)
  {
    var h := I.Newest(t);
    I.SlotFrom(DoAll(DoAll(t, first), second), h, I.TailOf(DoAll(t, first), h), q)
  }

  lemma InParts(t: I.Table, first: seq<I.Op>, second: seq<I.Op>, third: seq<I.Op>)
    requires CanDoAll(t, first + (second + third))
    ensures CanDoAll(t, first) && CanDoAll(DoAll(t, first), second) && CanDoAll(DoAll(DoAll(t, first), second), third)
    ensures DoAll(t, first + (second + third)) == DoAll(DoAll(DoAll(t, first), second), third)
  {
    DoParts(t, first, second + third);
    DoParts(DoAll(t, first), second, third);
    DoBoth(DoAll(t, first), second, third);
    DoBoth(t, first, second + third);
  }

  lemma LookupAmid(t: I.Table, first: seq<I.Op>, second: seq<I.Op>, third: seq<I.Op>, q: nat)
    requires CanDoAll(t, first) && CanDoAll(DoAll(t, first), second) && CanDoAll(DoAll(DoAll(t, first), second), third)
    requires I.BlockAt(t, q).Some? && I.ClearValue(q) !in first && I.ClearValue(q) !in second
             && I.ClearValue(q) !in third
    ensures t.headers != []
    ensures I.LeadsTo(DoAll(DoAll(DoAll(t, first), second), third), I.Newest(t), SlotSeen(t, first, second, q), q)
  {
    var t' := DoAll(t, first);
    var t'' := DoAll(t', second);
    InUse(t, first, q);
    InUse(t', second, q);
    InUse(t'', third, q);
    I.LookupSurvivesInterleaving(t, first, second, third, q);
  }

  /** Slot `slot` of header `h` leads to the block that the sub-queue has for element `i`. */
  ghost predicate Holds(t: I.Table, h: nat, slot: nat, e: Q.State, i: nat) {
    && I.Shape(t) && h < |t.headers| && slot < |t.headers[h].slots|
    && Q.Base(i) in e.index && t.values[t.headers[h].slots[slot]] == Some(e.index[Q.Base(i)])
  }

  /**
    Index `i` is claimed. While all others go on for the run `during`, a consumer loads a header, that header's
    tail, the key found there and the block of the entry it computes, each later than the one before: between
    any two operations on the index that the steps of the run consist of. It gets the block that the map of
    the sub-queue has for `i` in the end, as long as element `i` is not emptied.
   */
  lemma LookupInTheQueue(s: Q.State, t: I.Table, during: seq<Q.Action>, start: seq<I.Op>, first: seq<I.Op>,
                         second: seq<I.Op>, third: seq<I.Op>, i: nat)
    requires Q.Invariant(s) && Mirrors(s, t) && Q.Possible(s, during)
    requires OpsOf(s, t, during) == start + (first + (second + third))
    requires i < s.q.tail && i !in Q.Outcome(s, during).emptied
    ensures CanDoAll(t, start) && DoAll(t, start).headers != []
    ensures CanDoAll(DoAll(t, start), first) && CanDoAll(DoAll(DoAll(t, start), first), second)
    ensures CanDoAll(t, OpsOf(s, t, during))
    ensures var t' := DoAll(t, start);
            Holds(DoAll(t, OpsOf(s, t, during)), I.Newest(t'), SlotSeen(t', first, second, i / Q.BLOCK_SIZE),
                  Q.Outcome(s, during), i)
  {
    var q, ops, e := i / Q.BLOCK_SIZE, OpsOf(s, t, during), Q.Outcome(s, during);
    NotCleared(s, t, during, i);
    RunMirrors(s, t, during);
    StartsInUse(s, t, i);
    DoParts(t, start, first + (second + third));
    DoBoth(t, start, first + (second + third));
    InUse(t, start, q);
    var t' := DoAll(t, start);
    InParts(t', first, second, third);
    LookupAmid(t', first, second, third, q);
    assert I.BlockAt(DoAll(t, ops), q) == BlockOf(e, q);
    StaysInUse(s, during, i);
  }

  /**
    In any run: a consumer that has claimed its index after `past` and does its lookup during `during`, while
    the producer inserts, reuses, rewinds and grows, and other consumers clear entries, gets from the circular
    index the block with which the sub-queue goes on.
   */
  lemma LookupIsLocated(s0: Q.State, past: seq<Q.Action>, during: seq<Q.Action>, t: I.Table, start: seq<I.Op>,
                        first: seq<I.Op>, second: seq<I.Op>, third: seq<I.Op>, u: Q.Tid)
    requires Q.Init(s0) && Q.Possible(s0, past) && Q.Possible(Q.Outcome(s0, past), during)
    requires var s, e := Q.Outcome(s0, past), Q.Outcome(Q.Outcome(s0, past), during);
             && u in s.q.pc && s.q.pc[u].Claimed? && u in e.q.pc && e.q.pc[u] == s.q.pc[u] && Q.WorkOf(e, u).Nothing?
             && Q.Invariant(s) && Mirrors(s, t) && OpsOf(s, t, during) == start + (first + (second + third))
    ensures CanDoAll(t, start) && DoAll(t, start).headers != []
    ensures CanDoAll(DoAll(t, start), first) && CanDoAll(DoAll(DoAll(t, start), first), second)
    ensures CanDoAll(t, start + (first + (second + third)))
    ensures var e, i := Q.Outcome(Q.Outcome(s0, past), during), Q.Outcome(s0, past).q.pc[u].index;
            var t', t3 := DoAll(t, start), DoAll(t, start + (first + (second + third)));
            var h, slot := I.Newest(t'), SlotSeen(t', first, second, i / Q.BLOCK_SIZE);
            && h < |t3.headers| && slot < |t3.headers[h].slots|
            && var b := t3.values[t3.headers[h].slots[slot]];
               b.Some? && Q.WorkOf(Q.Consume(e, u), u) == Q.Located(b.value)
  {
    var s := Q.Outcome(s0, past);
    var e, i := Q.Outcome(s, during), s.q.pc[u].index;
    Q.InvariantOnRuns(s, during);
    assert Q.WorkInvariant(e, u);
    assert Tickets.ThreadInvariant(s.q, u);
    LookupInTheQueue(s, t, during, start, first, second, third, i);
  }

  lemma StartsInUse(s: Q.State, t: I.Table, i: nat)
    requires Q.Invariant(s) && Mirrors(s, t) && i < s.q.tail && i !in s.emptied
    ensures Q.Base(i) == Q.BLOCK_SIZE * (i / Q.BLOCK_SIZE) && Q.Base(i) in s.index
    ensures I.BlockAt(t, i / Q.BLOCK_SIZE) == Some(s.index[Q.Base(i)])
  {
    assert Q.CoverInvariant(s, i);
    assert I.BlockAt(t, i / Q.BLOCK_SIZE) == BlockOf(s, i / Q.BLOCK_SIZE);
  }

  lemma StaysInUse(s: Q.State, during: seq<Q.Action>, i: nat)
    requires Q.Invariant(s) && Q.Possible(s, during) && i < s.q.tail && i !in Q.Outcome(s, during).emptied
    ensures Q.Base(i) in Q.Outcome(s, during).index && Q.Base(i) == Q.BLOCK_SIZE * (i / Q.BLOCK_SIZE)
  {
    Q.InvariantOnRuns(s, during);
    TailGrows(s, during);
    assert Q.CoverInvariant(Q.Outcome(s, during), i);
  }

  lemma TailStep(s: Q.State, a: Q.Action)
    requires Q.Enabled(s, a)
    ensures s.q.tail <= Q.Apply(s, a).q.tail
  {
    match a {
      case Ticket(u) => TicketTail(s.q, u);
      case ProducerStep(found) => ProducerTail(s, found);
      case ConsumerStep(u) =>
      case _ =>
    }
  }

  lemma TicketTail(q: Tickets.State, u: Q.Tid)
    requires u in q.pc
    ensures Tickets.ThreadStep(q, u).tail == q.tail
  {}

  lemma ProducerTail(s: Q.State, found: Option<Q.Block>)
    requires Q.Enabled(s, Q.ProducerStep(found))
    ensures s.q.tail <= Q.Apply(s, Q.ProducerStep(found)).q.tail
  {
    if s.prod.Publish? {
      assert Q.Produce(s, found).q.tail == s.q.tail + 1;
    } else {
      assert Q.Produce(s, found).q == s.q;
    }
  }

  lemma {:induction false} TailGrows(s: Q.State, run: seq<Q.Action>)
    requires Q.Possible(s, run)
    ensures s.q.tail <= Q.Outcome(s, run).q.tail
    decreases run
  {
    if run != [] {
      TailStep(s, run[0]);
      TailGrows(Q.Apply(s, run[0]), run[1..]);
    }
  }
}
