/**
  The end of the server: nothing is ever stuck while it is still to return, and once the manager has left
  its loop, `start` returns after a bounded number of steps.
 */
module ServerProgress {
  import opened Common
  import opened Server

  /** A call that has seen an item does not come back without one: nobody else takes items out. */
  predicate SeenIsThere(s: State) {
    s.manager.Dequeuing? && s.manager.seen ==> !Empty(s, s.manager.ch)
  }

  lemma QueuesOnlyGrow(s: State, a: Action)
    requires Enabled(s, a) && !a.EndDequeue?
    ensures s.newQueue <= Apply(s, a).newQueue && s.returnQueue.Keys <= Apply(s, a).returnQueue.Keys
  {
    if a.Dispatch? {
      DispatchKeepsQueues(s, s.manager.batch, a.complete);
    } else if ByAcceptor(a) || ByWorker(a) {
      OthersOnlyAdd(s, a);
    }
  }

  lemma OthersOnlyAdd(s: State, a: Action)
    requires Enabled(s, a) && (ByAcceptor(a) || ByWorker(a))
    ensures s.newQueue <= Apply(s, a).newQueue && s.returnQueue.Keys <= Apply(s, a).returnQueue.Keys
  {}

  lemma DispatchKeepsQueues(s: State, batch: seq<Event>, complete: bool)
    ensures DispatchOne(s, batch, complete).newQueue == s.newQueue
    ensures DispatchOne(s, batch, complete).returnQueue == s.returnQueue
  {
    if batch != [] && batch[0].ClientEvent? {
      HandleTouches(s.(manager := Dispatching(batch[1..])), batch[0].fd, batch[0].failed, complete);
    } else {
      SkipTouches(s, batch, complete);
    }
  }

  lemma ManagerMoves(s: State, a: Action)
    requires Enabled(s, a)
    ensures Apply(s, a).manager.Dequeuing? ==>
              && !a.EndDequeue?
              && (Apply(s, a).manager == s.manager
                  || Apply(s, a).manager.seen == !Empty(s, Apply(s, a).manager.ch))
  {
    match a {
      case Dispatch(complete) => ManagerDispatches(s, s.manager.batch, complete);
      case EndDequeue(got) => ManagerDequeues(s, got);
      case _ =>
    }
  }

  lemma ManagerDispatches(s: State, batch: seq<Event>, complete: bool)
    ensures !DispatchOne(s, batch, complete).manager.Dequeuing?
  {
    if batch == [] {
      assert DispatchOne(s, batch, complete).manager == Waiting;
    } else {
      match batch[0] {
        case NewPipe => assert DispatchOne(s, batch, complete).manager == Reading(New, batch[1..]);
        case ReturnPipe => assert DispatchOne(s, batch, complete).manager == Reading(Return, batch[1..]);
        case ClientEvent(_, _) => EventDispatched(s, batch, complete);
      }
    }
  }

  lemma EventDispatched(s: State, batch: seq<Event>, complete: bool)
    requires batch != [] && batch[0].ClientEvent?
    ensures DispatchOne(s, batch, complete).manager == Dispatching(batch[1..])
  {
    HandleTouches(s.(manager := Dispatching(batch[1..])), batch[0].fd, batch[0].failed, complete);
  }

  lemma ManagerDequeues(s: State, got: Option<Client>)
    requires Enabled(s, EndDequeue(got))
    ensures !Apply(s, EndDequeue(got)).manager.Dequeuing?
  {
    EndDequeueStays(s, got);
  }

  lemma SeenPreserved(s: State, a: Action)
    requires SeenIsThere(s) && Enabled(s, a)
    ensures SeenIsThere(Apply(s, a))
  {
    ManagerMoves(s, a);
    if !a.EndDequeue? { QueuesOnlyGrow(s, a); }
  }

  lemma {:induction false} SeenOnRuns(s: State, run: seq<Action>)
    requires SeenIsThere(s) && Possible(s, run)
    ensures SeenIsThere(Outcome(s, run))
    decreases run
  {
    if run != [] {
      SeenPreserved(s, run[0]);
      SeenOnRuns(Apply(s, run[0]), run[1..]);
    }
  }

  lemma SomeoneIn(s: State, ch: Channel) returns (c: Client)
    requires !Empty(s, ch)
    ensures InQueue(s, ch, c)
  {
    match ch {
      case New => c :| c in s.newQueue;
      case Return => c :| c in s.returnQueue;
    }
  }

  /** What the manager can do while it is in its loop and its pipe is closed. */
  lemma ManagerCan(s: State) returns (a: Action)
    requires Invariant(s) && SeenIsThere(s) && s.newClosed && !Ended(s.manager)
    ensures Enabled(s, a)
  {
    match s.manager {
      case Waiting =>
        a := Poll([NewPipe]);
      case Dispatching(_) => a := Dispatch(true);
      case Reading(_, _) => a := Read;
      case Draining(_, _) => a := BeginDequeue;
      case Dequeuing(ch, seen, _) =>
        if !seen {
          a := EndDequeue(None);
        } else {
          var c := SomeoneIn(s, ch);
          assert ClientInvariant(s, c);
          a := EndDequeue(Some(c));
        }
    }
  }

  /** What somebody can do while the manager waits for the workers. */
  lemma WorkersCan(s: State) returns (a: Action)
    requires s.manager.Stopping?
    ensures Enabled(s, a)
  {
    if w :| w in s.workers && !s.workers[w].Exited? {
      match s.workers[w] {
        case Idle => a := if s.tasks != [] then TakeTask(w) else ExitWorker(w);
        case Handling(_) => a := Publish(w, false);
        case Notifying => a := Notify(w);
      }
    } else {
      a := FinishManager;
    }
  }

  /** In every reachable state in which `start` has not returned and does not wait for a client, a step can be taken. */
  lemma NeverStuck(s: State, run: seq<Action>) returns (a: Action)
    requires Init(s) && Possible(s, run) && !Outcome(s, run).acceptor.Accepting? && !Outcome(s, run).acceptor.Done?
    ensures Enabled(Outcome(s, run), a)
  {
    Reached(s, run);
    SeenOnRuns(s, run);
    var e := Outcome(s, run);
    match e.acceptor {
      case Holding(_) => a := EnqueueNew;
      case Writing => a := WriteNew;
      case Checking => a := Check(false);
      case Closing => a := CloseNew;
      case ClosingRest => a := CloseRest;
      case Joining =>
        if e.manager.Finished? {
          a := JoinManager;
        } else if e.manager.Stopping? {
          a := WorkersCan(e);
        } else {
          a := ManagerCan(e);
        }
    }
  }

  /** How many steps a worker still takes on what it has. */
  function WorkerToGo(x: Worker): nat {
    match x
    case Handling(_) => 3
    case Notifying => 2
    case Idle => 1
    case Exited => 0
  }

  /** A bound for the steps after the manager has left its loop. */
  ghost function ToStop(s: State): nat {
    4 * |s.tasks| + Sum(s.workers, WorkerToGo)
    + (if s.manager.Stopping? then 1 else 0)
    + (if s.acceptor.Done? then 0 else if s.acceptor.ClosingRest? then 1 else 2)
  }

  lemma StopsSooner(s: State, a: Action)
    requires Invariant(s) && Ended(s.manager) && Enabled(s, a)
    ensures ToStop(Apply(s, a)) < ToStop(s) && Ended(Apply(s, a).manager)
  {
    match a {
      case TakeTask(w) => SumAfter(s.workers, w, Handling(s.tasks[0]), WorkerToGo);
      case Publish(w, _) => SumAfter(s.workers, w, Notifying, WorkerToGo);
      case Notify(w) => SumAfter(s.workers, w, Idle, WorkerToGo);
      case ExitWorker(w) => SumAfter(s.workers, w, Exited, WorkerToGo);
      case _ =>
    }
  }

  lemma {:induction false} EndsFrom(s: State, run: seq<Action>)
    requires Invariant(s) && Ended(s.manager) && Possible(s, run) && |run| >= ToStop(s)
    ensures Outcome(s, run).acceptor.Done?
    decreases run
  {
    if run != [] {
      StopsSooner(s, run[0]);
      Preserved(s, run[0]);
      EndsFrom(Apply(s, run[0]), run[1..]);
    }
  }

  /**
    Once the manager has left its loop, however the steps interleave, `start` has returned after a number
    of them that the tasks and the workers determine.
   */
  lemma StartReturns(s: State, before: seq<Action>, run: seq<Action>)
    requires Init(s) && Possible(s, before) && Outcome(s, before).manager.Stopping?
    requires Possible(Outcome(s, before), run) && |run| >= ToStop(Outcome(s, before))
    ensures Outcome(Outcome(s, before), run).acceptor.Done?
  {
    Reached(s, before);
    EndsFrom(Outcome(s, before), run);
  }
}
