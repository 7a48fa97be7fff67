/**
  The life of a connection: the thread that accepts clients, the manager thread with its event loop, and
  the workers, as one step system.

  Clients pass through two queues, each with a wake-up pipe, the one-shot epoll set, the map of
  connections and the task queue of the worker pool. A pipe is a number of unread bytes, and a byte
  written to a full pipe is dropped. `accept` returns descriptors that are not open, and may return one
  that was closed before. The queues are what the queue modules promise; in particular `try_dequeue`
  takes its time, and may return false only if every item that was there when it began is gone.
 */
module Server {
  import opened Common

  type Client = nat
  type Fd = nat
  type Wid = nat

  const READ_SIZE: nat := 256
  const MAX_EVENTS: nat := 64

  datatype Event = NewPipe | ReturnPipe | ClientEvent(fd: Fd, failed: bool)

  datatype Channel = New | Return

  datatype Acceptor =
    | Accepting
    | Holding(c: Client)
    | Writing
    | Checking
    | Closing
    | Joining
    | ClosingRest
    | Done

  datatype Manager =
    | Waiting
    | Dispatching(batch: seq<Event>)
    | Reading(ch: Channel, batch: seq<Event>)
    | Draining(ch: Channel, batch: seq<Event>)
    | Dequeuing(ch: Channel, seen: bool, batch: seq<Event>)   // seen: the queue was not empty when the call began
    | Stopping
    | Finished

  datatype Worker = Idle | Handling(c: Client) | Notifying | Exited

  /** Where a client is. History: no step reads it. */
  datatype Place = InHand | InNew | Connected | InTasks | WithWorker(w: Wid) | InReturn | Closed

  datatype State = State(
    newQueue: set<Client>, newPipe: nat, newClosed: bool,
    returnQueue: map<Client, bool>, returnPipe: nat, returnClosed: bool,   // with keepAlive
    capacity: nat,                        // of a pipe
    acceptor: Acceptor, manager: Manager, workers: map<Wid, Worker>,
    tasks: seq<Client>,
    connections: map<Fd, Client>,
    registered: set<Fd>, armed: set<Fd>,  // the epoll set
    owner: map<Fd, Client>,               // descriptors open for clients
    fdOf: map<Client, Fd>,
    place: map<Client, Place>)

  datatype Action =
    | Accept(c: Client, fd: Fd)
    | EnqueueNew
    | WriteNew
    | Check(stop: bool)
    | CloseNew
    | JoinManager
    | CloseRest
    | Poll(batch: seq<Event>)
    | Dispatch(complete: bool)      // complete: a whole header has been received
    | Read
    | BeginDequeue
    | EndDequeue(got: Option<Client>)
    | FinishManager
    | TakeTask(w: Wid)
    | Publish(w: Wid, keepAlive: bool)
    | Notify(w: Wid)
    | ExitWorker(w: Wid)

  // ---------------------------------------------------------------- the steps

  /** The events epoll_wait may report: pipes that are ready, and armed descriptors. */
  predicate Ready(s: State, e: Event) {
    match e
    case NewPipe => s.newPipe > 0 || s.newClosed
    case ReturnPipe => s.returnPipe > 0
    case ClientEvent(fd, _) => fd in s.armed
  }

  /** No descriptor is reported twice at once. */
  predicate SameSource(d: Event, e: Event) {
    d == e || (d.ClientEvent? && e.ClientEvent? && d.fd == e.fd)
  }

  predicate Empty(s: State, ch: Channel) {
    match ch
    case New => s.newQueue == {}
    case Return => s.returnQueue == map[]
  }

  predicate InQueue(s: State, ch: Channel, c: Client) {
    match ch
    case New => c in s.newQueue
    case Return => c in s.returnQueue
  }

  predicate Enabled(s: State, a: Action) {
    match a
    case Accept(c, fd) => s.acceptor.Accepting? && c !in s.place && fd !in s.owner
    case EnqueueNew => s.acceptor.Holding?
    case WriteNew => s.acceptor.Writing?
    case Check(_) => s.acceptor.Checking?
    case CloseNew => s.acceptor.Closing?
    case JoinManager => s.acceptor.Joining? && s.manager.Finished?
    case CloseRest => s.acceptor.ClosingRest?
    case Poll(batch) =>
      && s.manager.Waiting? && 0 < |batch| <= MAX_EVENTS
      && (forall i :: 0 <= i < |batch| ==> Ready(s, batch[i]))
      && (forall i, j :: 0 <= i < j < |batch| ==> !SameSource(batch[i], batch[j]))
    case Dispatch(_) => s.manager.Dispatching?
    case Read => s.manager.Reading?
    case BeginDequeue => s.manager.Draining?
    case EndDequeue(got) =>
      && s.manager.Dequeuing?
      && (match got
          case Some(c) => InQueue(s, s.manager.ch, c) && c in s.fdOf
          case None => !s.manager.seen)
    case FinishManager => s.manager.Stopping? && forall w :: w in s.workers ==> s.workers[w].Exited?
    case TakeTask(w) => w in s.workers && s.workers[w].Idle? && s.tasks != []
    case Publish(w, _) => w in s.workers && s.workers[w].Handling?
    case Notify(w) => w in s.workers && s.workers[w].Notifying?
    case ExitWorker(w) => w in s.workers && s.workers[w].Idle? && s.tasks == [] && s.manager.Stopping?
  }

  function Apply(s: State, a: Action): State
    requires Enabled(s, a)
  {
    match a
    case Accept(c, fd) =>
      s.(acceptor := Holding(c), owner := s.owner[fd := c], fdOf := s.fdOf[c := fd], place := s.place[c := InHand])
    case EnqueueNew =>
      var c := s.acceptor.c;
      s.(acceptor := Writing, newQueue := s.newQueue + {c}, place := s.place[c := InNew])
    case WriteNew => s.(acceptor := Checking, newPipe := WriteByte(s, s.newPipe))
    case Check(stop) => s.(acceptor := if stop then Closing else Accepting)
    case CloseNew => s.(acceptor := Joining, newClosed := true)
    case JoinManager => s.(acceptor := ClosingRest)
    case CloseRest => s.(acceptor := Done, returnClosed := true)
    case Poll(batch) =>
      s.(manager := Dispatching(batch), armed := set fd | fd in s.armed && !Reports(batch, fd))
    case Dispatch(complete) => DispatchOne(s, s.manager.batch, complete)
    case Read => ReadPipe(s, s.manager.ch, s.manager.batch)
    case BeginDequeue =>
      s.(manager := Dequeuing(s.manager.ch, !Empty(s, s.manager.ch), s.manager.batch))
    case EndDequeue(got) =>
      (match got
       case Some(c) =>
         var s' := s.(manager := Draining(s.manager.ch, s.manager.batch));
         if s.manager.ch.New? then Adopt(s', c) else TakeBack(s', c)
       case None => s.(manager := Dispatching(s.manager.batch)))
    case FinishManager => s.(manager := Finished)
    case TakeTask(w) =>
      var c := s.tasks[0];
      s.(workers := s.workers[w := Handling(c)], tasks := s.tasks[1..], place := s.place[c := WithWorker(w)])
    case Publish(w, keepAlive) =>
      var c := s.workers[w].c;
      s.(workers := s.workers[w := Notifying], returnQueue := s.returnQueue[c := keepAlive],
         place := s.place[c := InReturn])
    case Notify(w) => s.(workers := s.workers[w := Idle], returnPipe := WriteByte(s, s.returnPipe))
    case ExitWorker(w) => s.(workers := s.workers[w := Exited])
  }

  function WriteByte(s: State, pipe: nat): nat {
    if pipe < s.capacity then pipe + 1 else pipe
  }

  predicate Reports(batch: seq<Event>, fd: Fd) {
    exists i :: 0 <= i < |batch| && batch[i].ClientEvent? && batch[i].fd == fd
  }

  /** The next event of the batch; the read of a pipe and the drain are steps of their own. */
  function DispatchOne(s: State, batch: seq<Event>, complete: bool): State {
    if batch == [] then s.(manager := Waiting)
    else
      var rest := batch[1..];
      match batch[0]
      case NewPipe => s.(manager := Reading(New, rest))
      case ReturnPipe => s.(manager := Reading(Return, rest))
      case ClientEvent(fd, failed) => HandleClient(s.(manager := Dispatching(rest)), fd, failed, complete)
  }

  function ReadPipe(s: State, ch: Channel, batch: seq<Event>): State {
    match ch
    case New =>
      if s.newPipe == 0 && s.newClosed then s.(manager := Stopping)
      else s.(newPipe := if s.newPipe < READ_SIZE then 0 else s.newPipe - READ_SIZE, manager := Draining(New, batch))
    case Return =>
      s.(returnPipe := if s.returnPipe < READ_SIZE then 0 else s.returnPipe - READ_SIZE,
         manager := Draining(Return, batch))
  }

  function HandleClient(s: State, fd: Fd, failed: bool, complete: bool): State {
    if fd !in s.connections then s
    else
      var c := s.connections[fd];
      if failed then Close(s.(connections := s.connections - {fd}), fd, c)
      else if !complete then s.(armed := s.armed + {fd})
      else s.(connections := s.connections - {fd}, tasks := s.tasks + [c], place := s.place[c := InTasks])
  }

  /** Closing a descriptor also takes it out of the epoll set. */
  function Close(s: State, fd: Fd, c: Client): State {
    s.(owner := s.owner - {fd}, registered := s.registered - {fd}, armed := s.armed - {fd},
       place := s.place[c := Closed])
  }

  /** EPOLL_CTL_ADD, then `emplace`, which keeps an entry that is already there. */
  function Adopt(s: State, c: Client): State
    requires c in s.fdOf
  {
    var fd := s.fdOf[c];
    s.(newQueue := s.newQueue - {c},
       registered := s.registered + {fd}, armed := if fd in s.registered then s.armed else s.armed + {fd},
       connections := if fd in s.connections then s.connections else s.connections[fd := c],
       place := s.place[c := Connected])
  }

  /** With keep-alive `emplace` and EPOLL_CTL_MOD, which fails if the descriptor is not registered. */
  function TakeBack(s: State, c: Client): State
    requires c in s.fdOf && c in s.returnQueue
  {
    var fd := s.fdOf[c];
    var s' := s.(returnQueue := s.returnQueue - {c});
    if s.returnQueue[c] then
      s'.(connections := if fd in s.connections then s.connections else s.connections[fd := c],
          armed := if fd in s.registered then s.armed + {fd} else s.armed,
          place := s.place[c := Connected])
    else Close(s', fd, c)
  }

  // ---------------------------------------------------------------- what every state satisfies

  predicate At(s: State, c: Client, p: Place) {
    c in s.place && s.place[c] == p
  }

  /** The containers hold exactly the clients whose place they are. */
  ghost predicate ClientInvariant(s: State, c: Client) {
    && (c in s.place <==> c in s.fdOf)
    && (s.acceptor == Holding(c) <==> At(s, c, InHand))
    && (c in s.newQueue <==> At(s, c, InNew))
    && (c in s.tasks <==> At(s, c, InTasks))
    && (c in s.returnQueue <==> At(s, c, InReturn))
    && (At(s, c, Connected) ==> s.fdOf[c] in s.connections && s.connections[s.fdOf[c]] == c)
    && (c in s.place && s.place[c].WithWorker? ==> s.place[c].w in s.workers && s.workers[s.place[c].w] == Handling(c))
    && (c in s.place && !s.place[c].Closed? ==> s.fdOf[c] in s.owner && s.owner[s.fdOf[c]] == c)
  }

  /** Events reported and not handled yet. */
  function BatchOf(m: Manager): seq<Event> {
    match m
    case Waiting => []
    case Stopping => []
    case Finished => []
    case _ => m.batch
  }

  predicate Pending(m: Manager, fd: Fd) {
    Reports(BatchOf(m), fd)
  }

  predicate Ended(m: Manager) {
    m.Stopping? || m.Finished?
  }

  ghost predicate FdInvariant(s: State, fd: Fd) {
    && (fd in s.owner ==> var c := s.owner[fd]; c in s.place && c in s.fdOf && s.fdOf[c] == fd && !s.place[c].Closed?)
    && (fd in s.connections ==> var c := s.connections[fd]; At(s, c, Connected) && c in s.fdOf && s.fdOf[c] == fd)
    && (fd in s.registered <==>
          && fd in s.owner && s.owner[fd] in s.place
          && !s.place[s.owner[fd]].InHand? && !s.place[s.owner[fd]].InNew?)
    && (fd in s.armed ==> fd in s.connections && !Pending(s.manager, fd))
    && (Pending(s.manager, fd) ==> fd in s.connections)
    && (fd in s.connections && !Ended(s.manager) ==> fd in s.armed || Pending(s.manager, fd))
  }

  predicate DistinctSources(batch: seq<Event>) {
    forall i, j :: 0 <= i < j < |batch| ==> !SameSource(batch[i], batch[j])
  }

  ghost predicate BatchInvariant(m: Manager) {
    m.Dispatching? || m.Reading? || m.Draining? || m.Dequeuing? ==> DistinctSources(m.batch)
  }

  predicate WorkerInvariant(s: State, w: Wid)
    requires w in s.workers
  {
    && (s.workers[w].Handling? ==> At(s, s.workers[w].c, WithWorker(w)))
    && (s.workers[w].Exited? ==> Ended(s.manager) && s.tasks == [])
  }

  /** The manager will look into the channel's queue again without another wake-up. */
  predicate WillLook(m: Manager, ch: Channel) {
    || (m.Draining? && m.ch == ch)
    || (m.Dequeuing? && m.ch == ch && m.seen)
  }

  ghost predicate SomeoneNotifies(s: State) {
    exists w :: w in s.workers && s.workers[w].Notifying?
  }

  ghost predicate WakeUpInvariant(s: State) {
    && s.capacity > 0
    && (s.newQueue != {} ==> s.newPipe > 0 || s.acceptor.Writing? || WillLook(s.manager, New))
    && (s.returnQueue != map[] ==>
          s.returnPipe > 0 || SomeoneNotifies(s) || WillLook(s.manager, Return) || Ended(s.manager))
  }

  ghost predicate ShutdownInvariant(s: State) {
    && (s.newClosed <==> s.acceptor.Joining? || s.acceptor.ClosingRest? || s.acceptor.Done?)
    && (Ended(s.manager) ==> s.newClosed && s.newQueue == {})
    && (s.acceptor.ClosingRest? || s.acceptor.Done? ==> s.manager.Finished?)
    && (s.returnClosed <==> s.acceptor.Done?)
    && (s.manager.Finished? ==> forall w :: w in s.workers ==> s.workers[w].Exited?)
  }

  ghost predicate Invariant(s: State) {
    && (forall c: Client :: ClientInvariant(s, c))
    && (forall fd: Fd :: FdInvariant(s, fd))
    && (forall w: Wid :: w in s.workers ==> WorkerInvariant(s, w))
    && BatchInvariant(s.manager) && Distinct(s.tasks)
    && WakeUpInvariant(s) && ShutdownInvariant(s)
  }

  ghost predicate Init(s: State) {
    && s.newQueue == {} && s.newPipe == 0 && !s.newClosed
    && s.returnQueue == map[] && s.returnPipe == 0 && !s.returnClosed && s.capacity > 0
    && s.acceptor == Accepting && s.manager == Waiting && s.workers != map[]
    && (forall w :: w in s.workers ==> s.workers[w] == Idle)
    && s.tasks == [] && s.connections == map[] && s.registered == {} && s.armed == {}
    && s.owner == map[] && s.fdOf == map[] && s.place == map[]
  }

  lemma InitIsFine(s: State)
    requires Init(s)
    ensures Invariant(s)
  {}

  // ---------------------------------------------------------------- preservation

  lemma ClientAccept(s: State, d: Client, fd: Fd, c: Client)
    requires Enabled(s, Accept(d, fd)) && ClientInvariant(s, c) && ClientInvariant(s, d)
    ensures ClientInvariant(Apply(s, Accept(d, fd)), c)
  {}

  lemma ClientEnqueue(s: State, c: Client)
    requires Enabled(s, EnqueueNew) && ClientInvariant(s, c)
    ensures ClientInvariant(Apply(s, EnqueueNew), c)
  {}

  lemma ClientHandled(s: State, fd: Fd, failed: bool, complete: bool, c: Client)
    requires ClientInvariant(s, c) && FdInvariant(s, fd)
    requires fd in s.connections ==> ClientInvariant(s, s.connections[fd])
    ensures ClientInvariant(HandleClient(s, fd, failed, complete), c)
  {}

  lemma ClientAdopted(s: State, d: Client, c: Client)
    requires ClientInvariant(s, c) && ClientInvariant(s, d) && d in s.newQueue && d in s.fdOf
             && s.fdOf[d] !in s.connections
    ensures ClientInvariant(Adopt(s, d), c)
  {}

  lemma ClientTakenBack(s: State, d: Client, c: Client)
    requires ClientInvariant(s, c) && ClientInvariant(s, d) && d in s.returnQueue && d in s.fdOf
             && s.fdOf[d] !in s.connections
    ensures ClientInvariant(TakeBack(s, d), c)
  {
    if s.returnQueue[d] {} else {}
  }

  lemma ClientTaskTaken(s: State, w: Wid, c: Client)
    requires Enabled(s, TakeTask(w)) && ClientInvariant(s, c) && Distinct(s.tasks)
    ensures ClientInvariant(Apply(s, TakeTask(w)), c)
  {
    assert s.tasks == [s.tasks[0]] + s.tasks[1..];
  }

  lemma ClientPublished(s: State, w: Wid, keepAlive: bool, c: Client)
    requires Enabled(s, Publish(w, keepAlive)) && ClientInvariant(s, c) && WorkerInvariant(s, w)
    ensures ClientInvariant(Apply(s, Publish(w, keepAlive)), c)
  {}

  /** The actions that move no client. */
  predicate MovesNobody(s: State, a: Action) {
    match a
    case Accept(_, _) => false
    case EnqueueNew => false
    case Dispatch(_) => !(s.manager.Dispatching? && s.manager.batch != [] && s.manager.batch[0].ClientEvent?)
    case EndDequeue(got) => got.None?
    case TakeTask(_) => false
    case Publish(_, _) => false
    case _ => true
  }

  /** What they leave alone. */
  ghost predicate SameClients(s: State, s': State) {
    && s'.place == s.place && s'.fdOf == s.fdOf && s'.owner == s.owner && s'.registered == s.registered
    && s'.newQueue == s.newQueue && s'.returnQueue == s.returnQueue && s'.tasks == s.tasks
    && s'.connections == s.connections
    && (s'.acceptor == s.acceptor || (!s.acceptor.Holding? && !s'.acceptor.Holding?))
    && s'.workers.Keys == s.workers.Keys
    && (forall w :: w in s.workers ==>
          s'.workers[w] == s.workers[w] || (!s.workers[w].Handling? && !s'.workers[w].Handling?))
  }

  lemma AcceptorMovesNobody(s: State, a: Action)
    requires Enabled(s, a) && (a.WriteNew? || a.Check? || a.CloseNew? || a.JoinManager? || a.CloseRest?)
    ensures SameClients(s, Apply(s, a))
  {
    match a {
      case WriteNew =>
      case Check(_) =>
      case _ =>
    }
  }

  /** Only the manager's own state, the pipes and the armed set differ. */
  lemma OnlyManager(s: State, s': State)
    requires s' == s.(manager := s'.manager, armed := s'.armed, newPipe := s'.newPipe, returnPipe := s'.returnPipe)
    ensures SameClients(s, s')
  {}

  lemma DispatchMovesNobody(s: State, complete: bool)
    requires Enabled(s, Dispatch(complete)) && MovesNobody(s, Dispatch(complete))
    ensures SameClients(s, Apply(s, Dispatch(complete)))
    ensures Apply(s, Dispatch(complete)) == s.(manager := DispatchOne(s, s.manager.batch, complete).manager)
  {
    SkipTouches(s, s.manager.batch, complete);
    OnlyManager(s, DispatchOne(s, s.manager.batch, complete));
  }

  lemma ReadMovesNobody(s: State)
    requires Enabled(s, Read)
    ensures SameClients(s, Apply(s, Read))
  {
    var s' := ReadPipe(s, s.manager.ch, s.manager.batch);
    match s.manager.ch {
      case New =>
        assert s' == s.(manager := s'.manager, newPipe := s'.newPipe);
      case Return =>
        assert s' == s.(manager := s'.manager, returnPipe := s'.returnPipe);
    }
    OnlyManager(s, s');
  }

  lemma ManagerMovesNobody(s: State, a: Action)
    requires Enabled(s, a) && MovesNobody(s, a)
    requires a.Poll? || a.Read? || a.BeginDequeue? || a.EndDequeue? || a.FinishManager?
    ensures SameClients(s, Apply(s, a))
  {
    if a.Read? {
      ReadMovesNobody(s);
    } else {
      var s' := Apply(s, a);
      assert s' == s.(manager := s'.manager, armed := s'.armed);
      OnlyManager(s, s');
    }
  }

  lemma WorkerMovesNobody(s: State, a: Action)
    requires Enabled(s, a) && (a.Notify? || a.ExitWorker?)
    ensures SameClients(s, Apply(s, a))
  {}

  lemma MovesNobodyIndeed(s: State, a: Action)
    requires Enabled(s, a) && MovesNobody(s, a)
    ensures SameClients(s, Apply(s, a))
  {
    if a.WriteNew? || a.Check? || a.CloseNew? || a.JoinManager? || a.CloseRest? {
      AcceptorMovesNobody(s, a);
    } else if a.Notify? || a.ExitWorker? {
      WorkerMovesNobody(s, a);
    } else if a.Dispatch? {
      DispatchMovesNobody(s, a.complete);
    } else {
      ManagerMovesNobody(s, a);
    }
  }

  lemma ClientUnmoved(s: State, s': State, c: Client)
    requires SameClients(s, s') && ClientInvariant(s, c)
    ensures ClientInvariant(s', c)
  {}

  /** A client that comes out of a queue is not connected yet: `emplace` never finds its key taken. */
  lemma ComesUnconnected(s: State, c: Client)
    requires ClientInvariant(s, c) && c in s.fdOf && (c in s.newQueue || c in s.returnQueue)
             && FdInvariant(s, s.fdOf[c])
    requires s.fdOf[c] in s.connections ==> ClientInvariant(s, s.connections[s.fdOf[c]])
    ensures s.fdOf[c] !in s.connections && (s.fdOf[c] in s.registered <==> c in s.returnQueue)
    ensures s.fdOf[c] !in s.armed && s.fdOf[c] in s.owner && s.owner[s.fdOf[c]] == c
  {}

  lemma ClientPreserved(s: State, a: Action, c: Client)
    requires Invariant(s) && Enabled(s, a)
    ensures ClientInvariant(Apply(s, a), c)
  {
    assert ClientInvariant(s, c);
    if MovesNobody(s, a) {
      MovesNobodyIndeed(s, a);
      ClientUnmoved(s, Apply(s, a), c);
    } else {
      match a {
        case Accept(d, fd) =>
          assert ClientInvariant(s, d);
          ClientAccept(s, d, fd, c);
        case EnqueueNew =>
          ClientEnqueue(s, c);
        case Dispatch(complete) =>
          ClientDispatched(s, complete, c);
        case EndDequeue(got) =>
          ClientDequeued(s, got.value, c);
        case TakeTask(w) =>
          ClientTaskTaken(s, w, c);
        case Publish(w, keepAlive) =>
          ClientPublished(s, w, keepAlive, c);
      }
    }
  }

  lemma ClientDispatched(s: State, complete: bool, c: Client)
    requires Invariant(s) && Enabled(s, Dispatch(complete)) && !MovesNobody(s, Dispatch(complete))
    ensures ClientInvariant(Apply(s, Dispatch(complete)), c)
  {
    var fd := s.manager.batch[0].fd;
    var s0 := s.(manager := Dispatching(s.manager.batch[1..]));
    assert ClientInvariant(s, c) && FdInvariant(s, fd);
    assert fd in s.connections ==> ClientInvariant(s, s.connections[fd]);
    ClientHandled(s, fd, s.manager.batch[0].failed, complete, c);
  }

  lemma ClientDequeued(s: State, d: Client, c: Client)
    requires Invariant(s) && Enabled(s, EndDequeue(Some(d)))
    ensures ClientInvariant(Apply(s, EndDequeue(Some(d))), c)
  {
    assert ClientInvariant(s, c) && ClientInvariant(s, d) && FdInvariant(s, s.fdOf[d]);
    ComesUnconnected(s, d);
    var s0 := s.(manager := Draining(s.manager.ch, s.manager.batch));
    assert ClientInvariant(s0, c) && ClientInvariant(s0, d);
    if s.manager.ch.New? { ClientAdopted(s0, d, c); } else { ClientTakenBack(s0, d, c); }
  }

  // Descriptors.

  lemma FdUnmoved(s: State, s': State, fd: Fd)
    requires SameClients(s, s') && s'.armed == s.armed && FdInvariant(s, fd)
    requires SamePending(s.manager, s'.manager, fd)
    ensures FdInvariant(s', fd)
  {}

  lemma FdPolled(s: State, batch: seq<Event>, fd: Fd)
    requires Enabled(s, Poll(batch)) && FdInvariant(s, fd)
    ensures FdInvariant(Apply(s, Poll(batch)), fd)
  {
    assert forall i :: 0 <= i < |batch| && batch[i].ClientEvent? && batch[i].fd == fd ==> Ready(s, batch[i]);
  }

  lemma ReportsOfRest(batch: seq<Event>, fd: Fd)
    requires batch != [] && DistinctSources(batch)
    ensures Reports(batch, fd) <==> Reports(batch[1..], fd) || (batch[0].ClientEvent? && batch[0].fd == fd)
    ensures batch[0].ClientEvent? ==> !Reports(batch[1..], batch[0].fd)
  {
    if Reports(batch, fd) {
      var i :| 0 <= i < |batch| && batch[i].ClientEvent? && batch[i].fd == fd;
      assert i == 0 || batch[1..][i - 1] == batch[i];
    }
    assert forall i :: 0 <= i < |batch| - 1 ==> batch[1..][i] == batch[i + 1] && !SameSource(batch[0], batch[i + 1]);
  }

  lemma FdHandled(s: State, m: Manager, fd0: Fd, failed: bool, complete: bool, fd: Fd)
    requires FdInvariant(s, fd) && FdInvariant(s, fd0) && Pending(s.manager, fd0)
    requires m.Dispatching? && !Pending(m, fd0) && (fd != fd0 ==> (Pending(m, fd) <==> Pending(s.manager, fd)))
    requires ClientInvariant(s, s.connections[fd0])
    requires fd in s.owner && s.owner[fd] == s.connections[fd0] ==> fd == fd0
    requires fd in s.connections && s.connections[fd] == s.connections[fd0] ==> fd == fd0
    ensures FdInvariant(HandleClient(s.(manager := m), fd0, failed, complete), fd)
  {}

  lemma FdSkipped(s: State, complete: bool, fd: Fd)
    requires Enabled(s, Dispatch(complete)) && MovesNobody(s, Dispatch(complete)) && FdInvariant(s, fd)
    requires DistinctSources(s.manager.batch)
    ensures FdInvariant(Apply(s, Dispatch(complete)), fd)
  {
    SkipKeepsPending(s, complete, fd);
    DispatchMovesNobody(s, complete);
    FdUnmoved(s, s.(manager := DispatchOne(s, s.manager.batch, complete).manager), fd);
  }

  lemma SkippedBatch(s: State, batch: seq<Event>, complete: bool)
    requires batch == [] || !batch[0].ClientEvent?
    ensures BatchOf(DispatchOne(s, batch, complete).manager) == if batch == [] then [] else batch[1..]
    ensures !Ended(DispatchOne(s, batch, complete).manager)
  {
    if batch != [] {
      match batch[0] {
        case NewPipe => assert DispatchOne(s, batch, complete).manager == Reading(New, batch[1..]);
        case ReturnPipe => assert DispatchOne(s, batch, complete).manager == Reading(Return, batch[1..]);
      }
    }
  }

  lemma SkipKeepsPending(s: State, complete: bool, fd: Fd)
    requires Enabled(s, Dispatch(complete)) && MovesNobody(s, Dispatch(complete)) && DistinctSources(s.manager.batch)
    ensures SamePending(s.manager, DispatchOne(s, s.manager.batch, complete).manager, fd)
  {
    SkippedBatch(s, s.manager.batch, complete);
    assert BatchOf(s.manager) == s.manager.batch;
    if s.manager.batch != [] { ReportsOfRest(s.manager.batch, fd); }
  }

  lemma FdDispatched(s: State, complete: bool, fd: Fd)
    requires Invariant(s) && Enabled(s, Dispatch(complete))
    ensures FdInvariant(Apply(s, Dispatch(complete)), fd)
  {
    assert FdInvariant(s, fd);
    if MovesNobody(s, Dispatch(complete)) {
      FdSkipped(s, complete, fd);
    } else {
      var e := s.manager.batch[0];
      ReportsOfRest(s.manager.batch, fd);
      ReportsOfRest(s.manager.batch, e.fd);
      assert FdInvariant(s, e.fd) && ClientInvariant(s, s.connections[e.fd]);
      FdHandled(s, Dispatching(s.manager.batch[1..]), e.fd, e.failed, complete, fd);
    }
  }

  lemma FdAccepted(s: State, d: Client, fd0: Fd, fd: Fd)
    requires Enabled(s, Accept(d, fd0)) && FdInvariant(s, fd) && ClientInvariant(s, d)
    ensures FdInvariant(Apply(s, Accept(d, fd0)), fd)
  {}

  lemma FdEnqueued(s: State, fd: Fd)
    requires Enabled(s, EnqueueNew) && FdInvariant(s, fd) && ClientInvariant(s, s.acceptor.c)
    ensures FdInvariant(Apply(s, EnqueueNew), fd)
  {}

  lemma FdAdopted(s: State, d: Client, fd: Fd)
    requires FdInvariant(s, fd) && ClientInvariant(s, d) && d in s.newQueue && d in s.fdOf && FdInvariant(s, s.fdOf[d])
    requires s.fdOf[d] !in s.connections && !Ended(s.manager)
    ensures FdInvariant(Adopt(s, d), fd)
  {}

  lemma FdTakenBack(s: State, d: Client, fd: Fd)
    requires FdInvariant(s, fd) && ClientInvariant(s, d) && d in s.returnQueue && d in s.fdOf
             && FdInvariant(s, s.fdOf[d])
    requires s.fdOf[d] !in s.connections && !Ended(s.manager)
    ensures FdInvariant(TakeBack(s, d), fd)
  {
    if s.returnQueue[d] {} else {}
  }

  lemma FdTaskTaken(s: State, w: Wid, fd: Fd)
    requires Enabled(s, TakeTask(w)) && FdInvariant(s, fd) && ClientInvariant(s, s.tasks[0])
    ensures FdInvariant(Apply(s, TakeTask(w)), fd)
  {}

  lemma FdPublished(s: State, w: Wid, keepAlive: bool, fd: Fd)
    requires Enabled(s, Publish(w, keepAlive)) && FdInvariant(s, fd) && WorkerInvariant(s, w)
    requires ClientInvariant(s, s.workers[w].c)
    ensures FdInvariant(Apply(s, Publish(w, keepAlive)), fd)
  {}

  lemma FdDequeued(s: State, d: Client, fd: Fd)
    requires Invariant(s) && Enabled(s, EndDequeue(Some(d)))
    ensures FdInvariant(Apply(s, EndDequeue(Some(d))), fd)
  {
    assert FdInvariant(s, fd) && ClientInvariant(s, d) && FdInvariant(s, s.fdOf[d]);
    assert s.fdOf[d] in s.connections ==> ClientInvariant(s, s.connections[s.fdOf[d]]);
    ComesUnconnected(s, d);
    var s0 := s.(manager := Draining(s.manager.ch, s.manager.batch));
    assert FdInvariant(s0, fd) && ClientInvariant(s0, d) && FdInvariant(s0, s0.fdOf[d]);
    if s.manager.ch.New? { FdAdopted(s0, d, fd); } else { FdTakenBack(s0, d, fd); }
  }

  /** Events pending for `fd` stay pending, unless the manager leaves its loop. */
  predicate SamePending(m: Manager, m': Manager, fd: Fd) {
    && (if Pending(m, fd) then Pending(m', fd) || Ended(m') else !Pending(m', fd))
    && (Ended(m) ==> Ended(m'))
  }

  lemma ReadBatch(s: State, ch: Channel, batch: seq<Event>)
    ensures var s' := ReadPipe(s, ch, batch);
            s'.armed == s.armed && (s'.manager.Stopping? || BatchOf(s'.manager) == batch)
  {
    match ch {
      case New =>
        if s.newPipe == 0 && s.newClosed {
          assert ReadPipe(s, ch, batch).manager == Stopping;
        } else {
          assert ReadPipe(s, ch, batch).manager == Draining(New, batch);
        }
      case Return => assert ReadPipe(s, ch, batch).manager == Draining(Return, batch);
    }
  }

  lemma FdRead(s: State, fd: Fd)
    requires Enabled(s, Read) && FdInvariant(s, fd)
    ensures FdInvariant(Apply(s, Read), fd)
  {
    ReadBatch(s, s.manager.ch, s.manager.batch);
    ManagerMovesNobody(s, Read);
    FdUnmoved(s, Apply(s, Read), fd);
  }

  lemma FdOfManager(s: State, a: Action, fd: Fd)
    requires Enabled(s, a) && FdInvariant(s, fd)
    requires a.BeginDequeue? || a == EndDequeue(None) || a.FinishManager?
    ensures FdInvariant(Apply(s, a), fd)
  {
    assert BatchOf(Apply(s, a).manager) == BatchOf(s.manager);
    ManagerMovesNobody(s, a);
    FdUnmoved(s, Apply(s, a), fd);
  }

  lemma FdPreserved(s: State, a: Action, fd: Fd)
    requires Invariant(s) && Enabled(s, a)
    ensures FdInvariant(Apply(s, a), fd)
  {
    assert FdInvariant(s, fd);
    match a {
      case Accept(d, fd0) =>
        assert ClientInvariant(s, d);
        FdAccepted(s, d, fd0, fd);
      case EnqueueNew =>
        assert ClientInvariant(s, s.acceptor.c);
        FdEnqueued(s, fd);
      case Poll(batch) => FdPolled(s, batch, fd);
      case Dispatch(complete) => FdDispatched(s, complete, fd);
      case EndDequeue(got) =>
        if got.Some? { FdDequeued(s, got.value, fd); } else { FdOfManager(s, a, fd); }
      case TakeTask(w) =>
        assert ClientInvariant(s, s.tasks[0]);
        FdTaskTaken(s, w, fd);
      case Publish(w, keepAlive) =>
        assert WorkerInvariant(s, w) && ClientInvariant(s, s.workers[w].c);
        FdPublished(s, w, keepAlive, fd);
      case Read => FdRead(s, fd);
      case BeginDequeue => FdOfManager(s, a, fd);
      case FinishManager => FdOfManager(s, a, fd);
      case _ =>
        MovesNobodyIndeed(s, a);
        FdUnmoved(s, Apply(s, a), fd);
    }
  }

  // The rest.

  /** The actions of the accepting thread. */
  predicate ByAcceptor(a: Action) {
    a.Accept? || a.EnqueueNew? || a.WriteNew? || a.Check? || a.CloseNew? || a.JoinManager? || a.CloseRest?
  }

  predicate ByWorker(a: Action) {
    a.TakeTask? || a.Publish? || a.Notify? || a.ExitWorker?
  }

  lemma ShutdownByAcceptor(s: State, a: Action)
    requires ShutdownInvariant(s) && Enabled(s, a) && ByAcceptor(a)
    ensures ShutdownInvariant(Apply(s, a))
  {
    match a {
      case Accept(_, _) =>
      case EnqueueNew =>
      case WriteNew =>
      case Check(_) =>
      case CloseNew =>
      case JoinManager =>
      case CloseRest =>
    }
  }

  lemma ShutdownByWorker(s: State, a: Action)
    requires ShutdownInvariant(s) && Enabled(s, a) && ByWorker(a)
    ensures ShutdownInvariant(Apply(s, a))
  {
    match a {
      case TakeTask(_) =>
      case Publish(_, _) =>
      case Notify(_) =>
      case ExitWorker(_) =>
    }
  }

  /** What the manager does outside its exit. */
  ghost predicate ManagerStays(s: State, s': State) {
    && s'.acceptor == s.acceptor && s'.newClosed == s.newClosed && s'.returnClosed == s.returnClosed
    && s'.workers == s.workers
    && !Ended(s.manager) && !Ended(s'.manager)
  }

  lemma HandleTouches(s: State, fd: Fd, failed: bool, complete: bool)
    ensures var s' := HandleClient(s, fd, failed, complete);
            s' == s.(owner := s'.owner, registered := s'.registered, armed := s'.armed, place := s'.place,
                     connections := s'.connections, tasks := s'.tasks)
  {}

  lemma DispatchStays(s: State, batch: seq<Event>, complete: bool)
    requires s.manager.Dispatching?
    ensures ManagerStays(s, DispatchOne(s, batch, complete))
  {
    if batch != [] && batch[0].ClientEvent? {
      HandleTouches(s.(manager := Dispatching(batch[1..])), batch[0].fd, batch[0].failed, complete);
    } else {
      SkippedBatch(s, batch, complete);
      SkipTouches(s, batch, complete);
    }
  }

  lemma SkipTouches(s: State, batch: seq<Event>, complete: bool)
    requires batch == [] || !batch[0].ClientEvent?
    ensures DispatchOne(s, batch, complete) == s.(manager := DispatchOne(s, batch, complete).manager)
  {
    if batch == [] {
      assert DispatchOne(s, batch, complete) == s.(manager := Waiting);
    } else {
      match batch[0] {
        case NewPipe => assert DispatchOne(s, batch, complete) == s.(manager := Reading(New, batch[1..]));
        case ReturnPipe => assert DispatchOne(s, batch, complete) == s.(manager := Reading(Return, batch[1..]));
      }
    }
  }

  lemma ReadStays(s: State, ch: Channel, batch: seq<Event>)
    requires s.manager.Reading? && !(ch.New? && s.newPipe == 0 && s.newClosed)
    ensures ReadPipe(s, ch, batch).manager == Draining(ch, batch) && ManagerStays(s, ReadPipe(s, ch, batch))
  {}

  lemma EndDequeueStays(s: State, got: Option<Client>)
    requires Enabled(s, EndDequeue(got))
    ensures ManagerStays(s, Apply(s, EndDequeue(got)))
    ensures Apply(s, EndDequeue(got)).manager ==
              if got.Some? then Draining(s.manager.ch, s.manager.batch) else Dispatching(s.manager.batch)
  {
    match got {
      case None => assert Apply(s, EndDequeue(got)) == s.(manager := Dispatching(s.manager.batch));
      case Some(c) =>
        var s0 := s.(manager := Draining(s.manager.ch, s.manager.batch));
        if s.manager.ch.New? { AdoptTouches(s0, c); } else { TakeBackTouches(s0, c); }
    }
  }

  lemma ManagerStaysUnless(s: State, a: Action)
    requires Enabled(s, a) && !ByAcceptor(a) && !ByWorker(a) && !a.FinishManager? && !Exits(s, a)
    ensures ManagerStays(s, Apply(s, a))
  {
    match a {
      case Poll(batch) => PollStays(s, batch);
      case Dispatch(complete) => DispatchStays(s, s.manager.batch, complete);
      case Read => ReadStays(s, s.manager.ch, s.manager.batch);
      case BeginDequeue => BeginStays(s);
      case EndDequeue(got) => EndDequeueStays(s, got);
    }
  }

  lemma PollStays(s: State, batch: seq<Event>)
    requires Enabled(s, Poll(batch))
    ensures ManagerStays(s, Apply(s, Poll(batch)))
  {}

  lemma BeginStays(s: State)
    requires Enabled(s, BeginDequeue)
    ensures ManagerStays(s, Apply(s, BeginDequeue))
  {}

  /** The read that returns 0. */
  predicate Exits(s: State, a: Action)
    requires Enabled(s, a)
  {
    a.Read? && s.manager.ch.New? && s.newPipe == 0 && s.newClosed
  }

  lemma ShutdownByExit(s: State)
    requires ShutdownInvariant(s) && WakeUpInvariant(s) && Enabled(s, Read) && Exits(s, Read)
    ensures ShutdownInvariant(Apply(s, Read)) && Apply(s, Read) == s.(manager := Stopping)
  {
    assert Apply(s, Read) == s.(manager := Stopping);
  }

  lemma ShutdownPreserved(s: State, a: Action)
    requires ShutdownInvariant(s) && WakeUpInvariant(s) && Enabled(s, a)
    ensures ShutdownInvariant(Apply(s, a))
  {
    if ByAcceptor(a) {
      ShutdownByAcceptor(s, a);
    } else if ByWorker(a) {
      ShutdownByWorker(s, a);
    } else if a.FinishManager? {
      assert Apply(s, FinishManager) == s.(manager := Finished);
    } else if Exits(s, a) {
      ShutdownByExit(s);
    } else {
      ManagerStaysUnless(s, a);
    }
  }

  lemma WakeUpByAcceptor(s: State, a: Action)
    requires WakeUpInvariant(s) && Enabled(s, a) && ByAcceptor(a)
    ensures WakeUpInvariant(Apply(s, a))
  {
    match a {
      case Accept(_, _) =>
      case EnqueueNew =>
      case WriteNew =>
      case Check(_) =>
      case CloseNew =>
      case JoinManager =>
      case CloseRest =>
    }
  }

  lemma WakeUpByWorker(s: State, a: Action)
    requires WakeUpInvariant(s) && Enabled(s, a) && ByWorker(a)
    ensures WakeUpInvariant(Apply(s, a))
  {
    var s' := Apply(s, a);
    match a {
      case TakeTask(w) =>
        assert forall v :: v in s.workers && s.workers[v].Notifying? ==> v in s'.workers && s'.workers[v].Notifying?;
      case Publish(w, _) =>
        assert w in s'.workers && s'.workers[w].Notifying?;
      case Notify(w) =>
      case ExitWorker(w) =>
        assert forall v :: v in s.workers && s.workers[v].Notifying? ==> v in s'.workers && s'.workers[v].Notifying?;
    }
  }

  /** Queues may get emptier, and the manager may turn to them, without anybody being woken. */
  lemma WakeUpUnaffected(s: State, s': State)
    requires WakeUpInvariant(s)
    requires s'.capacity == s.capacity && s'.acceptor == s.acceptor && s'.workers == s.workers
    requires s'.newPipe == s.newPipe || WillLook(s'.manager, New)
    requires s'.returnPipe == s.returnPipe || WillLook(s'.manager, Return)
    requires s.newQueue == {} ==> s'.newQueue == {}
    requires s.returnQueue == map[] ==> s'.returnQueue == map[]
    requires forall ch :: WillLook(s.manager, ch) ==> WillLook(s'.manager, ch)
    requires Ended(s.manager) ==> Ended(s'.manager)
    ensures WakeUpInvariant(s')
  {}

  lemma WakeUpByDispatch(s: State, complete: bool)
    requires WakeUpInvariant(s) && Enabled(s, Dispatch(complete))
    ensures WakeUpInvariant(Apply(s, Dispatch(complete)))
  {
    var s' := DispatchOne(s, s.manager.batch, complete);
    DispatchTouches(s, s.manager.batch, complete);
    DispatchStays(s, s.manager.batch, complete);
    WakeUpUnaffected(s, s');
  }

  lemma DispatchTouches(s: State, batch: seq<Event>, complete: bool)
    ensures var s' := DispatchOne(s, batch, complete);
            && s'.newQueue == s.newQueue && s'.newPipe == s.newPipe && s'.returnQueue == s.returnQueue
            && s'.returnPipe == s.returnPipe && s'.capacity == s.capacity
  {
    if batch != [] && batch[0].ClientEvent? {
      HandleTouches(s.(manager := Dispatching(batch[1..])), batch[0].fd, batch[0].failed, complete);
    } else {
      SkipTouches(s, batch, complete);
    }
  }

  lemma WakeUpByRead(s: State)
    requires WakeUpInvariant(s) && Enabled(s, Read) && ShutdownInvariant(s)
    ensures WakeUpInvariant(Apply(s, Read))
  {
    if Exits(s, Read) {
      WakeUpUnaffected(s, s.(manager := Stopping));
    } else {
      var s' := ReadPipe(s, s.manager.ch, s.manager.batch);
      ReadStays(s, s.manager.ch, s.manager.batch);
      assert s' == s.(manager := s'.manager, newPipe := s'.newPipe, returnPipe := s'.returnPipe);
      WakeUpUnaffected(s, s');
    }
  }

  lemma WakeUpByDequeue(s: State, got: Option<Client>)
    requires WakeUpInvariant(s) && Enabled(s, EndDequeue(got))
    ensures WakeUpInvariant(Apply(s, EndDequeue(got)))
  {
    var s' := Apply(s, EndDequeue(got));
    EndDequeueStays(s, got);
    DequeueTouches(s, got);
    WakeUpUnaffected(s, s');
  }

  lemma DequeueTouches(s: State, got: Option<Client>)
    requires Enabled(s, EndDequeue(got))
    ensures var s' := Apply(s, EndDequeue(got));
            && s'.capacity == s.capacity && s'.newPipe == s.newPipe && s'.returnPipe == s.returnPipe
            && s'.newQueue <= s.newQueue && s'.returnQueue.Keys <= s.returnQueue.Keys && s'.tasks == s.tasks
  {
    match got {
      case None => assert Apply(s, EndDequeue(got)) == s.(manager := Dispatching(s.manager.batch));
      case Some(c) =>
        var s0 := s.(manager := Draining(s.manager.ch, s.manager.batch));
        if s.manager.ch.New? { AdoptTouches(s0, c); } else { TakeBackTouches(s0, c); }
    }
  }

  lemma AdoptTouches(s: State, c: Client)
    requires c in s.fdOf
    ensures var s' := Adopt(s, c);
            s' == s.(newQueue := s.newQueue - {c}, registered := s'.registered, armed := s'.armed,
                     connections := s'.connections, place := s'.place)
  {}

  lemma TakeBackTouches(s: State, c: Client)
    requires c in s.fdOf && c in s.returnQueue
    ensures var s' := TakeBack(s, c);
            s' == s.(returnQueue := s.returnQueue - {c}, registered := s'.registered, armed := s'.armed,
                     connections := s'.connections, place := s'.place, owner := s'.owner)
  {}

  lemma WakeUpPreserved(s: State, a: Action)
    requires WakeUpInvariant(s) && Enabled(s, a) && ShutdownInvariant(s)
    ensures WakeUpInvariant(Apply(s, a))
  {
    if ByAcceptor(a) {
      WakeUpByAcceptor(s, a);
    } else if ByWorker(a) {
      WakeUpByWorker(s, a);
    } else {
      match a {
        case Poll(batch) => WakeUpByPoll(s, batch);
        case Dispatch(complete) => WakeUpByDispatch(s, complete);
        case Read => WakeUpByRead(s);
        case BeginDequeue => WakeUpByBegin(s);
        case EndDequeue(got) => WakeUpByDequeue(s, got);
        case FinishManager => assert Apply(s, FinishManager) == s.(manager := Finished);
      }
    }
  }

  lemma WakeUpByPoll(s: State, batch: seq<Event>)
    requires WakeUpInvariant(s) && Enabled(s, Poll(batch))
    ensures WakeUpInvariant(Apply(s, Poll(batch)))
  {
    var s' := Apply(s, Poll(batch));
    assert s' == s.(manager := Dispatching(batch), armed := s'.armed);
  }

  lemma WakeUpByBegin(s: State)
    requires WakeUpInvariant(s) && Enabled(s, BeginDequeue)
    ensures WakeUpInvariant(Apply(s, BeginDequeue))
  {
    assert Apply(s, BeginDequeue) == s.(manager := Dequeuing(s.manager.ch, !Empty(s, s.manager.ch), s.manager.batch));
  }

  // Workers.

  /** Clients with workers stay there, and the tasks stay empty once a worker has exited. */
  ghost predicate WorkersKept(s: State, s': State) {
    && s'.workers == s.workers
    && (forall c :: c in s.place && s.place[c].WithWorker? ==> At(s', c, s.place[c]))
    && (Ended(s.manager) ==> Ended(s'.manager) && s'.tasks == s.tasks)
  }

  lemma WorkersKeptPointwise(s: State, s': State, w: Wid)
    requires WorkersKept(s, s') && w in s.workers && WorkerInvariant(s, w)
    ensures WorkerInvariant(s', w)
  {}

  lemma KeptByAcceptor(s: State, a: Action)
    requires Enabled(s, a) && ByAcceptor(a)
    requires s.acceptor.Holding? ==> ClientInvariant(s, s.acceptor.c)
    ensures WorkersKept(s, Apply(s, a))
  {
    match a {
      case Accept(_, _) =>
      case EnqueueNew =>
      case _ => AcceptorMovesNobody(s, a); AcceptorLeavesRest(s, a);
    }
  }

  lemma AcceptorLeavesRest(s: State, a: Action)
    requires Enabled(s, a) && ByAcceptor(a)
    ensures Apply(s, a).manager == s.manager && Apply(s, a).workers == s.workers && Apply(s, a).tasks == s.tasks
  {
    match a {
      case WriteNew =>
      case Check(_) =>
      case _ =>
    }
  }

  lemma KeptByHandling(s: State, fd: Fd, failed: bool, complete: bool)
    requires FdInvariant(s, fd) && !Ended(s.manager)
    ensures WorkersKept(s, HandleClient(s, fd, failed, complete))
  {}

  lemma KeptByDispatch(s: State, complete: bool)
    requires Enabled(s, Dispatch(complete)) && Invariant(s)
    ensures WorkersKept(s, Apply(s, Dispatch(complete)))
  {
    var batch := s.manager.batch;
    if batch != [] && batch[0].ClientEvent? {
      assert FdInvariant(s, batch[0].fd);
      KeptByHandling(s, batch[0].fd, batch[0].failed, complete);
    } else {
      SkipTouches(s, batch, complete);
    }
  }

  lemma KeptByDequeue(s: State, got: Option<Client>)
    requires Enabled(s, EndDequeue(got)) && (got.Some? ==> ClientInvariant(s, got.value))
    ensures WorkersKept(s, Apply(s, EndDequeue(got)))
  {
    match got {
      case None => assert Apply(s, EndDequeue(got)) == s.(manager := Dispatching(s.manager.batch));
      case Some(c) =>
        var s0 := s.(manager := Draining(s.manager.ch, s.manager.batch));
        EndDequeueStays(s, got);
        if s.manager.ch.New? {
          assert Adopt(s0, c).place == s.place[c := Connected];
        } else {
          assert TakeBack(s0, c).place == s.place[c := if s.returnQueue[c] then Connected else Closed];
        }
    }
  }

  lemma KeptByManager(s: State, a: Action)
    requires Enabled(s, a) && Invariant(s) && !ByAcceptor(a) && !ByWorker(a)
    ensures WorkersKept(s, Apply(s, a))
  {
    match a {
      case Poll(batch) => PollStays(s, batch);
      case Dispatch(complete) => KeptByDispatch(s, complete);
      case Read => if !Exits(s, a) { ReadStays(s, s.manager.ch, s.manager.batch); }
      case BeginDequeue => BeginStays(s);
      case EndDequeue(got) =>
        if got.Some? { assert ClientInvariant(s, got.value); }
        KeptByDequeue(s, got);
      case FinishManager => assert Apply(s, FinishManager) == s.(manager := Finished);
    }
  }

  lemma WorkerByWorker(s: State, a: Action, w: Wid)
    requires Enabled(s, a) && ByWorker(a) && w in s.workers && WorkerInvariant(s, w) && WorkerInvariant(s, a.w)
    requires s.tasks != [] ==> ClientInvariant(s, s.tasks[0])
    ensures w in Apply(s, a).workers && WorkerInvariant(Apply(s, a), w)
  {
    match a {
      case TakeTask(v) =>
      case Publish(v, _) =>
      case Notify(v) =>
      case ExitWorker(v) =>
    }
  }

  lemma WorkerPreserved(s: State, a: Action, w: Wid)
    requires Invariant(s) && Enabled(s, a) && w in s.workers
    ensures w in Apply(s, a).workers && WorkerInvariant(Apply(s, a), w)
  {
    assert WorkerInvariant(s, w);
    if ByWorker(a) {
      assert WorkerInvariant(s, a.w);
      assert s.tasks != [] ==> ClientInvariant(s, s.tasks[0]);
      WorkerByWorker(s, a, w);
    } else {
      if ByAcceptor(a) {
        assert s.acceptor.Holding? ==> ClientInvariant(s, s.acceptor.c);
        KeptByAcceptor(s, a);
      } else {
        KeptByManager(s, a);
      }
      WorkersKeptPointwise(s, Apply(s, a), w);
    }
  }

  lemma SameWorkers(s: State, a: Action)
    requires Enabled(s, a) && Invariant(s)
    ensures Apply(s, a).workers.Keys == s.workers.Keys
  {
    if ByWorker(a) {
      match a {
        case TakeTask(v) =>
        case Publish(v, _) =>
        case Notify(v) =>
        case ExitWorker(v) =>
      }
    } else if ByAcceptor(a) {
      AcceptorLeavesRest(s, a);
    } else {
      KeptByManager(s, a);
    }
  }

  // Batches and tasks.

  lemma BatchPreserved(s: State, a: Action)
    requires BatchInvariant(s.manager) && Enabled(s, a)
    ensures BatchInvariant(Apply(s, a).manager)
  {
    if ByAcceptor(a) {
      AcceptorLeavesRest(s, a);
    } else if ByWorker(a) {
      WorkerLeavesManager(s, a);
    } else {
      match a {
        case Poll(batch) => assert Apply(s, a).manager == Dispatching(batch);
        case Dispatch(complete) => BatchAfterDispatch(s, s.manager.batch, complete);
        case Read =>
          if Exits(s, a) {
            assert Apply(s, a).manager == Stopping;
          } else {
            ReadStays(s, s.manager.ch, s.manager.batch);
          }
        case BeginDequeue =>
        case EndDequeue(got) => EndDequeueStays(s, got);
        case FinishManager => assert Apply(s, FinishManager) == s.(manager := Finished);
      }
    }
  }

  lemma WorkerLeavesManager(s: State, a: Action)
    requires Enabled(s, a) && ByWorker(a)
    ensures Apply(s, a).manager == s.manager
  {
    match a {
      case TakeTask(_) =>
      case Publish(_, _) =>
      case Notify(_) =>
      case ExitWorker(_) =>
    }
  }

  lemma BatchAfterDispatch(s: State, batch: seq<Event>, complete: bool)
    requires DistinctSources(batch)
    ensures BatchInvariant(DispatchOne(s, batch, complete).manager)
  {
    if batch != [] {
      if batch[0].ClientEvent? {
        var s0 := s.(manager := Dispatching(batch[1..]));
        HandleTouches(s0, batch[0].fd, batch[0].failed, complete);
      } else {
        SkippedBatch(s, batch, complete);
      }
    }
  }

  lemma TasksPreserved(s: State, a: Action)
    requires Invariant(s) && Enabled(s, a)
    ensures Distinct(Apply(s, a).tasks)
  {
    if ByAcceptor(a) {
      AcceptorLeavesRest(s, a);
    } else if ByWorker(a) {
      match a {
        case TakeTask(_) =>
        case Publish(_, _) =>
        case Notify(_) =>
        case ExitWorker(_) =>
      }
    } else {
      match a {
        case Poll(batch) => assert Apply(s, a).tasks == s.tasks;
        case Dispatch(complete) => TasksAfterDispatch(s, s.manager.batch, complete);
        case Read => assert ReadPipe(s, s.manager.ch, s.manager.batch).tasks == s.tasks;
        case BeginDequeue =>
        case EndDequeue(got) => DequeueTouches(s, got);
        case FinishManager => assert Apply(s, FinishManager) == s.(manager := Finished);
      }
    }
  }

  lemma TasksAfterDispatch(s: State, batch: seq<Event>, complete: bool)
    requires Invariant(s)
    ensures Distinct(DispatchOne(s, batch, complete).tasks)
  {
    if batch != [] && batch[0].ClientEvent? {
      var fd := batch[0].fd;
      assert FdInvariant(s, fd);
      if fd in s.connections {
        assert ClientInvariant(s, s.connections[fd]);
      }
    } else {
      SkipTouches(s, batch, complete);
    }
  }

  lemma Preserved(s: State, a: Action)
    requires Invariant(s) && Enabled(s, a)
    ensures Invariant(Apply(s, a))
  {
    var s' := Apply(s, a);
    forall c: Client ensures ClientInvariant(s', c) { ClientPreserved(s, a, c); }
    forall fd: Fd ensures FdInvariant(s', fd) { FdPreserved(s, a, fd); }
    SameWorkers(s, a);
    forall w: Wid | w in s'.workers ensures WorkerInvariant(s', w) { WorkerPreserved(s, a, w); }
    BatchPreserved(s, a);
    TasksPreserved(s, a);
    WakeUpPreserved(s, a);
    ShutdownPreserved(s, a);
  }

  // ---------------------------------------------------------------- runs and promises

  predicate Possible(s: State, run: seq<Action>)
    decreases run
  {
    run == [] || (Enabled(s, run[0]) && Possible(Apply(s, run[0]), run[1..]))
  }

  function Outcome(s: State, run: seq<Action>): State
    requires Possible(s, run)
    decreases run
  {
    if run == [] then s else Outcome(Apply(s, run[0]), run[1..])
  }

  lemma {:induction false} InvariantOnRuns(s: State, run: seq<Action>)
    requires Invariant(s) && Possible(s, run)
    ensures Invariant(Outcome(s, run)) && Outcome(s, run).workers.Keys == s.workers.Keys
    decreases run
  {
    if run != [] {
      Preserved(s, run[0]);
      SameWorkers(s, run[0]);
      InvariantOnRuns(Apply(s, run[0]), run[1..]);
    }
  }

  lemma Reached(s: State, run: seq<Action>)
    requires Init(s) && Possible(s, run)
    ensures Invariant(Outcome(s, run)) && Outcome(s, run).workers.Keys == s.workers.Keys
  {
    InitIsFine(s);
    InvariantOnRuns(s, run);
  }

  /** The client is in a container of the server: one of the six places a live client can be in. */
  ghost function Homes(s: State, c: Client): (n: nat)
    requires c in s.fdOf
  {
    (if s.acceptor == Holding(c) then 1 else 0) + (if c in s.newQueue then 1 else 0)
    + (if s.fdOf[c] in s.connections && s.connections[s.fdOf[c]] == c then 1 else 0)
    + (if c in s.tasks then 1 else 0) + |HandledBy(s, c)| + (if c in s.returnQueue then 1 else 0)
  }

  ghost function HandledBy(s: State, c: Client): set<Wid> {
    set w | w in s.workers && s.workers[w] == Handling(c)
  }

  predicate IsOpen(s: State, c: Client) {
    c in s.fdOf && s.fdOf[c] in s.owner && s.owner[s.fdOf[c]] == c
  }

  /** An accepted client whose descriptor is open is in exactly one place; one that is closed is nowhere. */
  lemma OwnedExactlyOnce(s: State, run: seq<Action>, c: Client)
    requires Init(s) && Possible(s, run) && c in Outcome(s, run).fdOf
    ensures Homes(Outcome(s, run), c) == if IsOpen(Outcome(s, run), c) then 1 else 0
  {
    Reached(s, run);
    var e := Outcome(s, run);
    assert ClientInvariant(e, c) && FdInvariant(e, e.fdOf[c]);
    forall w | w in e.workers && e.workers[w] == Handling(c) ensures At(e, c, WithWorker(w)) {
      assert WorkerInvariant(e, w);
    }
    if e.place[c].WithWorker? {
      assert HandledBy(e, c) == {e.place[c].w};
    } else {
      assert HandledBy(e, c) == {};
    }
  }

  /** An armed descriptor belongs to a connection, whose client is nowhere else, and so with no worker. */
  lemma ArmedMeansConnected(s: State, run: seq<Action>, fd: Fd)
    requires Init(s) && Possible(s, run) && fd in Outcome(s, run).armed
    ensures var e := Outcome(s, run);
            && fd in e.connections
            && var c := e.connections[fd];
               IsOpen(e, c) && Homes(e, c) == 1 && HandledBy(e, c) == {} && c !in e.tasks && c !in e.returnQueue
  {
    Reached(s, run);
    var e := Outcome(s, run);
    assert FdInvariant(e, fd);
    var c := e.connections[fd];
    assert ClientInvariant(e, c);
    OwnedExactlyOnce(s, run, c);
    assert |HandledBy(e, c)| == 0;
  }

  /** The client a drain takes out is not in the map yet, so `emplace` stores it, and its call of epoll_ctl succeeds. */
  lemma DrainsNeverCollide(s: State, run: seq<Action>, c: Client)
    requires Init(s) && Possible(s, run) && Enabled(Outcome(s, run), EndDequeue(Some(c)))
    ensures var e := Outcome(s, run);
            && e.fdOf[c] !in e.connections && IsOpen(e, c)
            && (e.fdOf[c] in e.registered <==> e.manager.ch.Return?)
  {
    Reached(s, run);
    var e := Outcome(s, run);
    assert ClientInvariant(e, c) && FdInvariant(e, e.fdOf[c]);
    assert e.fdOf[c] in e.connections ==> ClientInvariant(e, e.connections[e.fdOf[c]]);
    ComesUnconnected(e, c);
  }

  /** The lookup of a client event always succeeds. */
  lemma EventsFindTheirConnection(s: State, run: seq<Action>)
    requires Init(s) && Possible(s, run) && Outcome(s, run).manager.Dispatching?
    requires Outcome(s, run).manager.batch != [] && Outcome(s, run).manager.batch[0].ClientEvent?
    ensures Outcome(s, run).manager.batch[0].fd in Outcome(s, run).connections
  {
    Reached(s, run);
    var e := Outcome(s, run);
    assert FdInvariant(e, e.manager.batch[0].fd);
    assert Reports(e.manager.batch, e.manager.batch[0].fd);
  }

  /** Nothing of the descriptor is left: it is closed, not watched, and no connection. */
  predicate Gone(s: State, fd: Fd) {
    fd !in s.owner && fd !in s.connections && fd !in s.registered && fd !in s.armed
  }

  /** The client's descriptor is open, its connection is known, and its next event will be reported. */
  predicate Watched(s: State, c: Client, fd: Fd) {
    && fd in s.owner && s.owner[fd] == c && fd in s.connections && s.connections[fd] == c
    && fd in s.registered && fd in s.armed
  }

  /** A client taken out of the new-client queue is watched from then on. */
  lemma NewClientIsWatched(s: State, run: seq<Action>, c: Client)
    requires Init(s) && Possible(s, run) && Enabled(Outcome(s, run), EndDequeue(Some(c)))
    requires Outcome(s, run).manager.ch.New?
    ensures var e := Outcome(s, run); var e' := Apply(e, EndDequeue(Some(c)));
            Watched(e', c, e.fdOf[c]) && c !in e'.newQueue && e'.manager == Draining(New, e.manager.batch)
  {
    DrainsNeverCollide(s, run, c);
    Reached(s, run);
    var e := Outcome(s, run);
    assert ClientInvariant(e, c) && FdInvariant(e, e.fdOf[c]);
  }

  /** A client taken out of the return queue is watched again if it is to be kept alive, and closed if not. */
  lemma ReturnedAsTold(s: State, run: seq<Action>, c: Client)
    requires Init(s) && Possible(s, run) && Enabled(Outcome(s, run), EndDequeue(Some(c)))
    requires Outcome(s, run).manager.ch.Return?
    ensures var e := Outcome(s, run); var e' := Apply(e, EndDequeue(Some(c)));
            && c !in e'.returnQueue && e'.manager == Draining(Return, e.manager.batch)
            && if e.returnQueue[c] then Watched(e', c, e.fdOf[c]) else Gone(e', e.fdOf[c])
  {
    Reached(s, run);
    TakenBackAsTold(Outcome(s, run), c);
  }

  lemma TakenBackAsTold(e: State, c: Client)
    requires Invariant(e) && Enabled(e, EndDequeue(Some(c))) && e.manager.ch.Return?
    ensures var e' := Apply(e, EndDequeue(Some(c)));
            && c !in e'.returnQueue && e'.manager == Draining(Return, e.manager.batch)
            && if e.returnQueue[c] then Watched(e', c, e.fdOf[c]) else Gone(e', e.fdOf[c])
  {
    assert ClientInvariant(e, c) && FdInvariant(e, e.fdOf[c]);
    assert e.fdOf[c] in e.connections ==> ClientInvariant(e, e.connections[e.fdOf[c]]);
    ComesUnconnected(e, c);
  }

  /** What the worker has decided stays with the client until the manager takes it out. */
  lemma {:induction false} DecisionStays(s: State, run: seq<Action>, c: Client, keep: bool)
    requires Invariant(s) && Possible(s, run) && c in s.returnQueue && s.returnQueue[c] == keep
    requires EndDequeue(Some(c)) !in run
    ensures c in Outcome(s, run).returnQueue && Outcome(s, run).returnQueue[c] == keep
    decreases run
  {
    if run != [] {
      var a := run[0];
      assert a in run;
      assert ClientInvariant(s, c);
      if a.Publish? { assert WorkerInvariant(s, a.w); }
      DecisionAfter(s, a, c);
      Preserved(s, a);
      DecisionStays(Apply(s, a), run[1..], c, keep);
    }
  }

  lemma DecisionAfter(s: State, a: Action, c: Client)
    requires Enabled(s, a) && c in s.returnQueue && a != EndDequeue(Some(c))
    requires a.Publish? ==> s.workers[a.w].c != c
    ensures c in Apply(s, a).returnQueue && Apply(s, a).returnQueue[c] == s.returnQueue[c]
  {
    match a {
      case Dispatch(complete) => DispatchLeaves(s, s.manager.batch, complete);
      case Read => ReadLeaves(s, s.manager.ch, s.manager.batch);
      case EndDequeue(got) => DequeueLeaves(s, got, c);
      case Publish(_, _) =>
      case _ =>
    }
  }

  lemma AdoptLeaves(s: State, d: Client)
    requires d in s.fdOf
    ensures Adopt(s, d).returnQueue == s.returnQueue
  {}

  lemma TakeBackTakes(s: State, d: Client)
    requires d in s.fdOf && d in s.returnQueue
    ensures TakeBack(s, d).returnQueue == s.returnQueue - {d}
  {
    if s.returnQueue[d] { assert TakeBack(s, d).returnQueue == s.returnQueue - {d}; }
  }

  lemma DequeueLeaves(s: State, got: Option<Client>, c: Client)
    requires Enabled(s, EndDequeue(got)) && c in s.returnQueue && got != Some(c)
    ensures var s' := Apply(s, EndDequeue(got)); c in s'.returnQueue && s'.returnQueue[c] == s.returnQueue[c]
  {
    if got.Some? {
      var s1 := s.(manager := Draining(s.manager.ch, s.manager.batch));
      if s.manager.ch.New? {
        AdoptLeaves(s1, got.value);
        assert Apply(s, EndDequeue(got)) == Adopt(s1, got.value);
      } else {
        TakeBackTakes(s1, got.value);
        assert Apply(s, EndDequeue(got)) == TakeBack(s1, got.value);
      }
    }
  }

  lemma ReadLeaves(s: State, ch: Channel, batch: seq<Event>)
    ensures ReadPipe(s, ch, batch).returnQueue == s.returnQueue
  {
    match ch {
      case New =>
        if s.newPipe == 0 && s.newClosed {
          assert ReadPipe(s, ch, batch) == s.(manager := Stopping);
        } else {
          assert ReadPipe(s, ch, batch).manager == Draining(New, batch);
        }
      case Return =>
        assert ReadPipe(s, ch, batch).manager == Draining(Return, batch);
    }
  }

  lemma HandleLeaves(s: State, fd: Fd, failed: bool, complete: bool)
    ensures HandleClient(s, fd, failed, complete).returnQueue == s.returnQueue
  {}

  lemma DispatchLeaves(s: State, batch: seq<Event>, complete: bool)
    ensures DispatchOne(s, batch, complete).returnQueue == s.returnQueue
  {
    if batch != [] && batch[0].ClientEvent? {
      HandleLeaves(s.(manager := Dispatching(batch[1..])), batch[0].fd, batch[0].failed, complete);
    }
  }

  /**
    From the worker's decision to its consequence: when a worker has published its client with `keep`, then,
    whatever happens in `more`, the manager that takes the client out goes by it.
   */
  lemma DecisionIsCarriedOut(s: State, run: seq<Action>, w: Wid, keep: bool, more: seq<Action>)
    requires Init(s) && Possible(s, run) && Enabled(Outcome(s, run), Publish(w, keep))
    requires Possible(Apply(Outcome(s, run), Publish(w, keep)), more)
    requires var c := Outcome(s, run).workers[w].c;
             && EndDequeue(Some(c)) !in more
             && var e := Outcome(Apply(Outcome(s, run), Publish(w, keep)), more);
                Enabled(e, EndDequeue(Some(c))) && e.manager.ch.Return?
    ensures var c := Outcome(s, run).workers[w].c;
            var e := Outcome(Apply(Outcome(s, run), Publish(w, keep)), more);
            var e' := Apply(e, EndDequeue(Some(c)));
            if keep then Watched(e', c, e.fdOf[c]) else Gone(e', e.fdOf[c])
  {
    var c := Outcome(s, run).workers[w].c;
    var s1 := Apply(Outcome(s, run), Publish(w, keep));
    Reached(s, run);
    Preserved(Outcome(s, run), Publish(w, keep));
    DecisionStays(s1, more, c, keep);
    InvariantOnRuns(s1, more);
    TakenBackAsTold(Outcome(s1, more), c);
  }

  /** The event of a client: a failure closes it, an incomplete header is waited for, a complete one is handed on. */
  lemma EventIsHandled(s: State, run: seq<Action>, complete: bool)
    requires Init(s) && Possible(s, run) && Outcome(s, run).manager.Dispatching?
    requires Outcome(s, run).manager.batch != [] && Outcome(s, run).manager.batch[0].ClientEvent?
    ensures var e := Outcome(s, run); var fd, failed := e.manager.batch[0].fd, e.manager.batch[0].failed;
            var e' := Apply(e, Dispatch(complete));
            && e'.manager == Dispatching(e.manager.batch[1..]) && fd in e.connections
            && var c := e.connections[fd];
               if failed then Gone(e', fd) && e'.tasks == e.tasks
               else if !complete then Watched(e', c, fd) && e'.tasks == e.tasks
               else
                 && e'.tasks == e.tasks + [c] && fd in e'.owner && e'.owner[fd] == c
                 && fd !in e'.connections && fd !in e'.armed
  {
    EventsFindTheirConnection(s, run);
    Reached(s, run);
    var e := Outcome(s, run);
    var fd := e.manager.batch[0].fd;
    assert FdInvariant(e, fd);
    assert ClientInvariant(e, e.connections[fd]);
    assert Reports(e.manager.batch, fd);
  }

  /** Until the manager leaves its loop, every connection is either armed or about to be handled, not both. */
  lemma ConnectionsAreWatched(s: State, run: seq<Action>, fd: Fd)
    requires Init(s) && Possible(s, run) && fd in Outcome(s, run).connections && !Ended(Outcome(s, run).manager)
    ensures var e := Outcome(s, run); fd in e.armed <==> !Pending(e.manager, fd)
  {
    Reached(s, run);
    assert FdInvariant(Outcome(s, run), fd);
  }

  /**
    No wake-up is lost, even when a full pipe drops the byte: for an item that waits in a queue there is a
    byte in the pipe, a publisher that has not written yet, or a drain that will look again.
   */
  lemma NoWakeUpIsLost(s: State, run: seq<Action>)
    requires Init(s) && Possible(s, run)
    ensures var e := Outcome(s, run);
            && (e.newQueue != {} ==> e.newPipe > 0 || e.acceptor.Writing? || WillLook(e.manager, New))
            && (e.returnQueue != map[] && !Ended(e.manager) ==>
                  e.returnPipe > 0 || SomeoneNotifies(e) || WillLook(e.manager, Return))
  {
    Reached(s, run);
  }

  /** The manager leaves its loop only when every client ever enqueued has been taken out, and none is coming. */
  lemma NewClientsAreDrained(s: State, run: seq<Action>)
    requires Init(s) && Possible(s, run)
    requires Enabled(Outcome(s, run), Read) && Exits(Outcome(s, run), Read)
    ensures var e := Outcome(s, run);
            && e.newQueue == {} && !e.acceptor.Accepting? && !e.acceptor.Holding?
            && !e.acceptor.Writing? && !e.acceptor.Checking?
  {
    Reached(s, run);
  }

  /** Nobody writes to a pipe after it has been closed. */
  lemma NoWriteAfterClose(s: State, run: seq<Action>)
    requires Init(s) && Possible(s, run)
    ensures var e := Outcome(s, run);
            && (Enabled(e, WriteNew) ==> !e.newClosed)
            && (forall w: Wid :: Enabled(e, Notify(w)) ==> !e.returnClosed)
  {
    Reached(s, run);
  }

  /**
    When `start` has returned, no client is on its way any more, and the descriptors still open are those
    of the connections and of the clients nobody took back from the return queue.
   */
  lemma WhatIsLeftAtTheEnd(s: State, run: seq<Action>, fd: Fd)
    requires Init(s) && Possible(s, run) && Outcome(s, run).acceptor.Done?
    ensures var e := Outcome(s, run);
            && e.newQueue == {} && e.tasks == [] && (forall w :: w in e.workers ==> e.workers[w] == Exited)
            && (fd in e.owner <==>
                  fd in e.connections || exists c :: c in e.returnQueue && c in e.fdOf && e.fdOf[c] == fd)
  {
    Reached(s, run);
    var e := Outcome(s, run);
    assert FdInvariant(e, fd);
    var w :| w in e.workers;
    assert WorkerInvariant(e, w);
    if fd in e.owner {
      var c := e.owner[fd];
      assert ClientInvariant(e, c);
      assert e.place[c] == Connected || e.place[c] == InReturn;
    }
    if fd in e.connections { assert ClientInvariant(e, e.connections[fd]); }
    forall c | c in e.returnQueue && c in e.fdOf && e.fdOf[c] == fd ensures fd in e.owner {
      assert ClientInvariant(e, c);
    }
  }

  // ---------------------------------------------------------------- runs that leave descriptors open

  lemma {:induction false} Extend(s: State, run: seq<Action>, a: Action) returns (longer: seq<Action>)
    requires Possible(s, run) && Enabled(Outcome(s, run), a)
    ensures Possible(s, longer) && Outcome(s, longer) == Apply(Outcome(s, run), a)
    decreases run
  {
    if run == [] {
      longer := [a];
      assert longer[1..] == [];
    } else {
      var rest := Extend(Apply(s, run[0]), run[1..], a);
      longer := [run[0]] + rest;
      assert longer[1..] == rest;
    }
  }

  /** The acceptor publishes one client and is told to stop. */
  lemma PublishOne(s: State, c: Client, fd: Fd) returns (run: seq<Action>)
    requires Init(s)
    ensures Possible(s, run)
    ensures Outcome(s, run) == s.(acceptor := Closing, newQueue := {c}, newPipe := 1, owner := map[fd := c],
                                  fdOf := map[c := fd], place := map[c := InNew])
  {
    run := Extend(s, [], Accept(c, fd));
    run := Extend(s, run, EnqueueNew);
    run := Extend(s, run, WriteNew);
    run := Extend(s, run, Check(true));
    assert s.place[c := InHand][c := InNew] == map[c := InNew];
  }

  /** The manager wakes up, reads the pipe and looks into the queue. */
  lemma WakeUp(s: State, run: seq<Action>) returns (longer: seq<Action>)
    requires Possible(s, run)
    requires var e := Outcome(s, run); e.manager.Waiting? && (e.newPipe > 0 || e.newClosed)
    ensures Possible(s, longer)
    ensures var e := Outcome(s, run); Outcome(s, longer) == ReadPipe(e, New, [])
  {
    var e := Outcome(s, run);
    longer := Extend(s, run, Poll([NewPipe]));
    assert Outcome(s, longer) == e.(manager := Dispatching([NewPipe])) by {
      assert forall fd :: !Reports([NewPipe], fd);
      assert (set fd | fd in e.armed && !Reports([NewPipe], fd)) == e.armed;
    }
    longer := Extend(s, longer, Dispatch(true));
    assert [NewPipe][1..] == [];
    longer := Extend(s, longer, Read);
  }

  /** The drain finds nothing more, and the manager goes back to wait. */
  lemma DrainEnds(s: State, run: seq<Action>) returns (longer: seq<Action>)
    requires Possible(s, run)
    requires var e := Outcome(s, run); e.manager == Draining(New, []) && e.newQueue == {}
    ensures Possible(s, longer) && Outcome(s, longer) == Outcome(s, run).(manager := Waiting)
  {
    longer := Extend(s, run, BeginDequeue);
    longer := Extend(s, longer, EndDequeue(None));
    longer := Extend(s, longer, Dispatch(true));
  }

  lemma DrainOne(s: State, run: seq<Action>, c: Client, fd: Fd) returns (longer: seq<Action>)
    requires Possible(s, run)
    requires var e := Outcome(s, run);
             && e.manager == Draining(New, []) && e.newQueue == {c} && e.fdOf == map[c := fd]
             && e.registered == {} && e.armed == {} && e.connections == map[] && e.place == map[c := InNew]
    ensures Possible(s, longer)
    ensures Outcome(s, longer) == Outcome(s, run).(newQueue := {}, registered := {fd}, armed := {fd},
                                                   connections := map[fd := c], place := map[c := Connected])
  {
    longer := Extend(s, run, BeginDequeue);
    longer := Extend(s, longer, EndDequeue(Some(c)));
    assert {c} - {c} == {} && map[c := InNew][c := Connected] == map[c := Connected];
  }

  /** The only client of the queue is adopted, and the manager goes back to wait. */
  lemma AdoptOne(s: State, c: Client, fd: Fd) returns (run: seq<Action>)
    requires Init(s)
    ensures Possible(s, run)
    ensures Outcome(s, run) == s.(acceptor := Closing, owner := map[fd := c], fdOf := map[c := fd],
                                  place := map[c := Connected], registered := {fd}, armed := {fd},
                                      connections := map[fd := c])
  {
    run := PublishOne(s, c, fd);
    run := WakeUp(s, run);
    run := DrainOne(s, run, c, fd);
    run := DrainEnds(s, run);
  }

  /** A request has come in, and the client is handed to the workers. */
  lemma DispatchClient(s: State, run: seq<Action>, c: Client, fd: Fd) returns (longer: seq<Action>)
    requires Possible(s, run)
    requires var e := Outcome(s, run);
             e.manager.Waiting? && e.armed == {fd} && e.connections == map[fd := c] && e.tasks == []
    ensures Possible(s, longer)
    ensures var e := Outcome(s, run);
            Outcome(s, longer) == e.(armed := {}, connections := map[], tasks := [c], place := e.place[c := InTasks])
  {
    var e := Outcome(s, run);
    var event := ClientEvent(fd, false);
    longer := Extend(s, run, Poll([event]));
    assert [event][0] == event && Reports([event], fd);
    assert (set x | x in e.armed && !Reports([event], x)) == {};
    longer := Extend(s, longer, Dispatch(true));
    assert map[fd := c] - {fd} == map[] && [event][1..] == [];
    longer := Extend(s, longer, Dispatch(true));
  }

  /** A worker takes the client, answers and gives it back. */
  lemma WorkOn(s: State, run: seq<Action>, c: Client, w: Wid, keepAlive: bool) returns (longer: seq<Action>)
    requires Possible(s, run)
    requires var e := Outcome(s, run); e.tasks == [c] && w in e.workers && e.workers[w].Idle? && e.returnQueue == map[]
    ensures Possible(s, longer)
    ensures var e, e' := Outcome(s, run), Outcome(s, longer);
            e' == e.(tasks := [], returnQueue := map[c := keepAlive], returnPipe := e'.returnPipe, place := e'.place)
  {
    var e := Outcome(s, run);
    longer := Extend(s, run, TakeTask(w));
    longer := Extend(s, longer, Publish(w, keepAlive));
    longer := Extend(s, longer, Notify(w));
    assert e.workers[w := Handling(c)][w := Notifying][w := Idle] == e.workers;
  }

  /** A request comes in, is handled by worker `w`, and the client is in the return queue. */
  lemma ReturnOne(s: State, c: Client, fd: Fd, w: Wid, keepAlive: bool) returns (run: seq<Action>)
    requires Init(s) && w in s.workers
    ensures Possible(s, run)
    ensures var e := Outcome(s, run);
            && e.acceptor.Closing? && e.manager.Waiting? && e.newPipe == 0 && e.tasks == []
            && e.workers == s.workers && e.owner == map[fd := c] && e.fdOf == map[c := fd]
            && e.connections == map[] && e.returnQueue == map[c := keepAlive]
  {
    run := AdoptOne(s, c, fd);
    run := DispatchClient(s, run, c, fd);
    run := WorkOn(s, run, c, w, keepAlive);
  }

  predicate AllIdle(workers: map<Wid, Worker>, left: set<Wid>) {
    forall w :: w in workers ==> workers[w] == if w in left then Idle else Exited
  }

  lemma {:induction false} AllExit(s: State, run: seq<Action>, left: set<Wid>) returns (longer: seq<Action>)
    requires Possible(s, run)
    requires var e := Outcome(s, run);
             e.manager.Stopping? && e.tasks == [] && left <= e.workers.Keys && AllIdle(e.workers, left)
    ensures Possible(s, longer)
    ensures var e, e' := Outcome(s, run), Outcome(s, longer);
            e' == e.(workers := e'.workers) && e'.workers.Keys == e.workers.Keys && AllIdle(e'.workers, {})
    decreases |left|
  {
    if left == {} {
      longer := run;
    } else {
      var w :| w in left;
      longer := Extend(s, run, ExitWorker(w));
      longer := AllExit(s, longer, left - {w});
    }
  }

  /** From there `start` returns, and takes no descriptor with it. */
  lemma ShutDown(s: State, run: seq<Action>) returns (longer: seq<Action>)
    requires Possible(s, run)
    requires var e := Outcome(s, run);
             && e.acceptor.Closing? && e.manager.Waiting? && e.newPipe == 0 && e.tasks == []
             && AllIdle(e.workers, e.workers.Keys)
    ensures Possible(s, longer)
    ensures var e, e' := Outcome(s, run), Outcome(s, longer);
            && e'.acceptor.Done? && e'.owner == e.owner && e'.fdOf == e.fdOf
            && e'.connections == e.connections && e'.returnQueue == e.returnQueue
  {
    longer := Extend(s, run, CloseNew);
    longer := WakeUp(s, longer);
    longer := AllExit(s, longer, Outcome(s, longer).workers.Keys);
    longer := Extend(s, longer, FinishManager);
    longer := Extend(s, longer, JoinManager);
    longer := Extend(s, longer, CloseRest);
  }

  /** The descriptor of a connection may be open when `start` returns. */
  lemma AConnectionMayBeLeft(s: State, c: Client, fd: Fd) returns (run: seq<Action>)
    requires Init(s)
    ensures Possible(s, run) && Outcome(s, run).acceptor.Done?
    ensures Outcome(s, run).owner == map[fd := c] && Outcome(s, run).connections == map[fd := c]
  {
    run := AdoptOne(s, c, fd);
    run := ShutDown(s, run);
  }

  /** And so may that of a client that nobody took from the return queue, whatever it was to become of it. */
  lemma AReturnedClientMayBeLeft(s: State, c: Client, fd: Fd, w: Wid, keepAlive: bool) returns (run: seq<Action>)
    requires Init(s) && w in s.workers
    ensures Possible(s, run) && Outcome(s, run).acceptor.Done?
    ensures var e := Outcome(s, run);
            && e.owner == map[fd := c] && e.fdOf == map[c := fd]
            && e.returnQueue == map[c := keepAlive] && e.connections == map[]
  {
    run := ReturnOne(s, c, fd, w, keepAlive);
    run := ShutDown(s, run);
  }
}
