/**
  Whole calls on a sub-queue, whatever other threads do between their steps: a consumer that owns an
  index gets its element after a bounded number of its own steps, and an enqueue publishes its element
  unless it was refused what it needed.
 */
module SubQueueCalls {
  import opened Common
  import opened SubQueue
  import Tickets

  // ---------------------------------------------------------------- a consumer that owns an index

  predicate Owns(s: State, t: Tid) {
    t in s.q.pc && s.q.pc[t].Claimed?
  }

  /** How many steps consumer `t` still takes, at most. */
  function ToGo(s: State, t: Tid): nat {
    if !Owns(s, t) then 0
    else
      match WorkOf(s, t)
      case Nothing => 6
      case Located(_) => 5
      case Moved(_) => 4
      case Cleared(_) => 3
      case Emptied(_) => 2
      case Unlinked(_) => 1
  }

  lemma OwnStep(s: State, t: Tid)
    requires Invariant(s) && Enabled(s, ConsumerStep(t))
    ensures var s' := Apply(s, ConsumerStep(t));
            && ToGo(s', t) < ToGo(s, t) && s.q.done <= s'.q.done
            && (if Owns(s', t) then Owned(s', t) == Owned(s, t) else Owned(s, t) in s'.q.done)
  {
    HasContext(s, t);
  }

  lemma StepOfOthers(s: State, a: Action, t: Tid)
    requires Enabled(s, a) && Owns(s, t) && a != ConsumerStep(t)
    ensures var s' := Apply(s, a);
            Owns(s', t) && Owned(s', t) == Owned(s, t) && ToGo(s', t) == ToGo(s, t) && s.q.done <= s'.q.done
  {
    match a
    case Ticket(u) => Tickets.StepEffect(s.q, u);
    case ProducerStep(found) => ProducerKeepsWork(s, found);
    case ConsumerStep(u) => ConsumerKeepsOthers(s, u, t);
    case _ =>
  }

  lemma ProducerKeepsWork(s: State, found: Option<Block>)
    ensures var s' := Produce(s, found);
            s'.work == s.work && s'.q.pc == s.q.pc && s'.q.done == s.q.done
  {
    match s.prod {
      case Idle =>
      case InsertEntry(_) =>
      case CheckPool(_) =>
      case TakeFromPool(_) =>
      case TryFreeList(_) =>
      case Allocate(_) =>
      case ResetBlock(_, _) =>
      case LinkBlock(_, _) =>
      case Construct(_) =>
      case Publish(_) =>
    }
  }

  lemma ConsumerKeepsOthers(s: State, u: Tid, t: Tid)
    requires Owns(s, u) && Owns(s, t) && u != t
    ensures var s' := Consume(s, u);
            Owns(s', t) && s'.q.pc[t] == s.q.pc[t] && WorkOf(s', t) == WorkOf(s, t) && s.q.done <= s'.q.done
  {}

  lemma DoneStays(s: State, a: Action)
    requires Enabled(s, a)
    ensures s.q.done <= Apply(s, a).q.done
  {
    match a
    case Ticket(u) => if !s.q.pc[u].Idle? { Tickets.StepEffect(s.q, u); }
    case _ =>
  }

  lemma {:induction false} DoneStaysOnRuns(s: State, run: seq<Action>)
    requires Possible(s, run)
    ensures s.q.done <= Outcome(s, run).q.done
    decreases run
  {
    if run != [] {
      DoneStays(s, run[0]);
      DoneStaysOnRuns(Apply(s, run[0]), run[1..]);
    }
  }

  /** How many steps of consumer `t` there are in a run. */
  function StepsOf(run: seq<Action>, t: Tid): nat {
    if run == [] then 0 else (if run[0] == ConsumerStep(t) then 1 else 0) + StepsOf(run[1..], t)
  }

  lemma {:induction false} EndsInDone(s: State, run: seq<Action>, t: Tid, i: nat)
    requires Invariant(s) && Possible(s, run) && Owns(s, t) && Owned(s, t) == i && StepsOf(run, t) >= ToGo(s, t)
    ensures i in Outcome(s, run).q.done
    decreases run
  {
    if run != [] {
      var s' := Apply(s, run[0]);
      Preserved(s, run[0]);
      if run[0] == ConsumerStep(t) { OwnStep(s, t); } else { StepOfOthers(s, run[0], t); }
      if Owns(s', t) {
        EndsInDone(s', run[1..], t, i);
      } else {
        DoneStaysOnRuns(s', run[1..]);
      }
    }
  }

  /**
    From any reachable state, six steps of a consumer that owns an index are enough, whatever happens in
    between: then the element enqueued at that index has been moved out, destroyed and counted.
   */
  lemma ClaimedElementIsDelivered(s0: State, before: seq<Action>, run: seq<Action>, t: Tid)
    requires Init(s0) && Possible(s0, before) && Possible(Outcome(s0, before), run)
    requires Owns(Outcome(s0, before), t) && StepsOf(run, t) >= 6
    ensures var i, e := Owned(Outcome(s0, before), t), Outcome(Outcome(s0, before), run);
            && i in e.q.done && i in e.emptied && i in e.cleared
            && i < |e.items| && i in e.out && e.out[i] == e.items[i]
  {
    var s := Outcome(s0, before);
    InitiallyInvariant(s0);
    InvariantOnRuns(s0, before);
    InvariantOnRuns(s, run);
    EndsInDone(s, run, t, Owned(s, t));
    assert CoverInvariant(Outcome(s, run), Owned(s, t));
  }

  // ---------------------------------------------------------------- an enqueue

  /** How many steps the producer still takes, at most. */
  function ProducerToGo(p: Prod): nat {
    match p
    case Idle => 0
    case InsertEntry(_) => 9
    case CheckPool(_) => 8
    case TakeFromPool(_) => 7
    case TryFreeList(_) => 6
    case Allocate(_) => 5
    case ResetBlock(_, _) => 4
    case LinkBlock(_, _) => 3
    case Construct(_) => 2
    case Publish(_) => 1
  }

  /** In this run the producer was given no index entry. */
  predicate EntryRefused(s: State, run: seq<Action>)
    requires Possible(s, run)
    decreases run
  {
    run != [] && ((s.prod.InsertEntry? && run[0] == ProducerStep(None)) || EntryRefused(Apply(s, run[0]), run[1..]))
  }

  /** In this run the producer found the free list empty. */
  predicate FreeListEmpty(s: State, run: seq<Action>)
    requires Possible(s, run)
    decreases run
  {
    run != [] && ((s.prod.TryFreeList? && run[0] == ProducerStep(None)) || FreeListEmpty(Apply(s, run[0]), run[1..]))
  }

  /** In this run the producer was given no memory for a block. */
  predicate HeapRefused(s: State, run: seq<Action>)
    requires Possible(s, run)
    decreases run
  {
    run != [] && ((s.prod.Allocate? && run[0] == ProducerStep(None)) || HeapRefused(Apply(s, run[0]), run[1..]))
  }

  /** Why an enqueue that is now at `s.prod` may end without publishing. */
  predicate Refused(s: State, run: seq<Action>)
    requires Possible(s, run)
  {
    || EntryRefused(s, run)
    || (HeapRefused(s, run) && (s.prod.Allocate? || FreeListEmpty(s, run)) && Outcome(s, run).issued >= s.poolSize)
  }

  /** The pool is exhausted once the producer has passed it. */
  predicate PassedPool(s: State) {
    s.prod.TryFreeList? || s.prod.Allocate? ==> s.issued >= s.poolSize
  }

  lemma ItemsOnlyByProducer(s: State, a: Action)
    requires Enabled(s, a) && !a.ProducerStep? && !a.Enqueue?
    ensures Apply(s, a).items == s.items && Apply(s, a).prod == s.prod
    ensures s.issued <= Apply(s, a).issued && Apply(s, a).poolSize == s.poolSize
  {}

  lemma {:induction false} IssuedGrows(s: State, run: seq<Action>)
    requires Possible(s, run)
    ensures s.issued <= Outcome(s, run).issued
    decreases run
  {
    if run != [] { IssuedGrows(Apply(s, run[0]), run[1..]); }
  }

  lemma {:induction false} EnqueueEnds(s: State, run: seq<Action>)
    requires !s.prod.Idle? && PassedPool(s) && Possible(s, run) && forall a :: a in run ==> !a.Enqueue?
    requires Outcome(s, run).prod.Idle?
    ensures Outcome(s, run).items == s.items + [s.prod.x] || (Outcome(s, run).items == s.items && Refused(s, run))
    decreases run
  {
    var a := run[0];
    var s' := Apply(s, a);
    assert a in run;
    if a.ProducerStep? {
      if s'.prod.Idle? {
        NothingMore(s', run[1..]);
        IssuedGrows(s, run);
        EndingStep(s, a.found);
      } else {
        OnwardStep(s, a.found);
        EnqueueEnds(s', run[1..]);
      }
    } else {
      ItemsOnlyByProducer(s, a);
      EnqueueEnds(s', run[1..]);
    }
  }

  lemma OnwardStep(s: State, found: Option<Block>)
    requires !s.prod.Idle? && PassedPool(s) && !Produce(s, found).prod.Idle?
    ensures var s' := Produce(s, found);
            && s'.prod.x == s.prod.x && s'.items == s.items && s'.poolSize == s.poolSize && PassedPool(s')
            && (s'.prod.Allocate? ==> s.prod.TryFreeList? && found == None)
  {
    match s.prod {
      case InsertEntry(_) =>
      case CheckPool(_) =>
      case TakeFromPool(_) =>
      case TryFreeList(_) =>
      case Allocate(_) =>
      case ResetBlock(_, _) =>
      case LinkBlock(_, _) =>
      case Construct(_) =>
    }
  }

  lemma EndingStep(s: State, found: Option<Block>)
    requires !s.prod.Idle? && Produce(s, found).prod.Idle?
    ensures var s' := Produce(s, found);
            || (s.prod.Publish? && s'.items == s.items + [s.prod.x])
            || (s'.items == s.items && found == None && (s.prod.InsertEntry? || s.prod.Allocate?))
  {}

  lemma {:induction false} NothingMore(s: State, run: seq<Action>)
    requires s.prod.Idle? && Possible(s, run) && forall a :: a in run ==> !a.Enqueue?
    ensures Outcome(s, run).items == s.items
    decreases run
  {
    if run != [] {
      assert run[0] in run;
      ItemsOnlyByProducer(s, run[0]);
      NothingMore(Apply(s, run[0]), run[1..]);
    }
  }

  /**
    However others interfere, an enqueue that has ended has published its element, or was given no entry
    in the index, or found the initial pool exhausted and the free list empty and got no memory.
   */
  lemma EnqueuePublishesUnlessRefused(s: State, x: Item, run: seq<Action>)
    requires s.prod.Idle? && Possible(Apply(s, Enqueue(x)), run) && forall a :: a in run ==> !a.Enqueue?
    requires Outcome(Apply(s, Enqueue(x)), run).prod.Idle?
    ensures var b, e := Apply(s, Enqueue(x)), Outcome(Apply(s, Enqueue(x)), run);
            || e.items == s.items + [x]
            || (&& e.items == s.items && s.q.tail % BLOCK_SIZE == 0
                && (|| EntryRefused(b, run)
                    || (HeapRefused(b, run) && FreeListEmpty(b, run) && e.issued >= s.poolSize)))
  {
    var b := Apply(s, Enqueue(x));
    EnqueueEnds(b, run);
    if s.q.tail % BLOCK_SIZE != 0 && Outcome(b, run).items == s.items { NeverRefused(b, run); }
  }

  /** The producer asks for nothing any more. */
  predicate HasBlock(p: Prod) {
    p.Idle? || p.Construct? || p.Publish?
  }

  lemma {:induction false} NeverRefused(s: State, run: seq<Action>)
    requires HasBlock(s.prod) && Possible(s, run) && forall a :: a in run ==> !a.Enqueue?
    ensures !EntryRefused(s, run) && !HeapRefused(s, run)
    decreases run
  {
    if run != [] {
      assert run[0] in run;
      NeverRefused(Apply(s, run[0]), run[1..]);
    }
  }

  function ProducerSteps(run: seq<Action>): nat {
    if run == [] then 0 else (if run[0].ProducerStep? then 1 else 0) + ProducerSteps(run[1..])
  }

  /** Nine steps of the producer are enough to end it. */
  lemma {:induction false} EnqueueTakesNineSteps(s: State, run: seq<Action>)
    requires Possible(s, run) && (forall a :: a in run ==> !a.Enqueue?) && ProducerSteps(run) >= ProducerToGo(s.prod)
    ensures Outcome(s, run).prod.Idle?
    decreases run
  {
    if run != [] {
      assert run[0] in run;
      EnqueueTakesNineSteps(Apply(s, run[0]), run[1..]);
    }
  }
}
