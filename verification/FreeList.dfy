/**
  The lock-free free list of the queue, as a step system.

  Any number of threads run `add` and `try_get`. One atomic load, store, compare-and-swap or
  fetch-and-add of the source is one step of one thread, and steps of different threads interleave
  freely in sequentially consistent order. The word `freeListRefs` is kept as a pair of its
  should-be-on-free-list bit and its reference count; `WordOperationsAreExact` shows that the 32-bit
  arithmetic of the source computes that pair.
 */
module FreeList {
  import opened Common

  type Tid = nat
  type Node = nat

  /** What a thread does once `add_knowing_refcount_is_zero` returns. */
  datatype After = Return | Resume(head: Option<Node>)

  /** The next atomic operation of a thread, with the local variables that are still needed. */
  datatype Pc =
    | Idle
    | AddFetchAdd(node: Node)
    | InsLoadHead(node: Node, after: After)
    | InsStoreNext(node: Node, head: Option<Node>, after: After)
    | InsStoreRefs(node: Node, head: Option<Node>, after: After)
    | InsCasHead(node: Node, head: Option<Node>, after: After)
    | InsFetchAdd(node: Node, head: Option<Node>, after: After)
    | GetLoadHead
    | GetLoadRefs(cur: Option<Node>)
    | GetCasRefs(top: Node, refs: Refs)
    | GetLoadNext(top: Node)
    | GetCasHead(top: Node, succ: Option<Node>)
    | GetAssert(top: Node)
    | GetFetchSub2(top: Node)
    | GetFetchSub1(prev: Node, cur: Option<Node>)

  /**
    Where a node is. This and `State.chain` record history for the statements below: no step reads
    them, except that a client may only add a node that is in the clients' hands.
   */
  datatype Place =
    | Outside            // with a client: never added yet, or returned by try_get
    | Adding(t: Tid)     // passed to add, which has not touched the reference word yet
    | Waiting            // should be on the list; the last transient holder will put it there
    | Inserting(t: Tid)  // inside add_knowing_refcount_is_zero
    | Linked             // reachable from freeListHead
    | Popped(t: Tid)     // unlinked, the list's own reference not yet given up

  /** `freeListRefs`: the top bit and the low 31 bits. */
  datatype Refs = Refs(should: bool, count: nat)

  datatype Cell = Cell(refs: Refs, next: Option<Node>, place: Place)

  /** A node that is not in `cells` has never been touched; `At` gives its initial contents. */
  datatype State = State(head: Option<Node>, cells: map<Node, Cell>, pc: map<Tid, Pc>, chain: seq<Node>)

  datatype Action = StartAdd(t: Tid, n: Node) | StartGet(t: Tid) | Step(t: Tid)

  // ---------------------------------------------------------------- the steps

  function At(s: State, n: Node): Cell {
    if n in s.cells then s.cells[n] else Cell(Refs(false, 0), None, Outside)
  }

  predicate Enabled(s: State, a: Action) {
    && a.t in s.pc
    && match a
       case StartAdd(t, n) => s.pc[t].Idle? && At(s, n).place.Outside?
       case StartGet(t) => s.pc[t].Idle?
       case Step(t) => !s.pc[t].Idle?
  }

  function Apply(s: State, a: Action): State
    requires Enabled(s, a)
  {
    match a
    case StartAdd(t, n) => Put(s, t, AddFetchAdd(n), n, At(s, n).(place := Adding(t)))
    case StartGet(t) => Goto(s, t, GetLoadHead)
    case Step(t) => ThreadStep(s, t)
  }

  /** Thread `t` moves to `p`. */
  function Goto(s: State, t: Tid, p: Pc): State {
    s.(pc := s.pc[t := p])
  }

  /** Thread `t` moves to `p` and node `n` becomes `c`. */
  function Put(s: State, t: Tid, p: Pc, n: Node, c: Cell): State {
    s.(pc := s.pc[t := p], cells := s.cells[n := c])
  }

  /** The continuation of `add_knowing_refcount_is_zero`. */
  function Continue(a: After): Pc {
    match a
    case Return => Idle
    case Resume(h) => GetLoadRefs(h)
  }

  function Less(r: Refs, k: nat): Refs {
    Refs(r.should, if r.count < k then 0 else r.count - k)
  }

  function ThreadStep(s: State, t: Tid): State
    requires t in s.pc
  {
    match s.pc[t]
    case Idle => s
    case AddFetchAdd(n) =>
      var c := At(s, n);
      var c' := c.(refs := Refs(true, c.refs.count));
      if c.refs == Refs(false, 0)
      then Put(s, t, InsLoadHead(n, Return), n, c'.(place := Inserting(t)))
      else Put(s, t, Idle, n, c'.(place := Waiting))

    case InsLoadHead(n, k) => Goto(s, t, InsStoreNext(n, s.head, k))
    case InsStoreNext(n, h, k) => Put(s, t, InsStoreRefs(n, h, k), n, At(s, n).(next := h))
    case InsStoreRefs(n, h, k) => Put(s, t, InsCasHead(n, h, k), n, At(s, n).(refs := Refs(false, 1)))
    case InsCasHead(n, h, k) =>
      if s.head == h
      then Put(s, t, Continue(k), n, At(s, n).(place := Linked)).(head := Some(n), chain := [n] + s.chain)
      else Goto(s, t, InsFetchAdd(n, s.head, k))
    case InsFetchAdd(n, h, k) =>
      var c := At(s, n);
      var c' := c.(refs := Refs(true, Less(c.refs, 1).count));
      if c.refs == Refs(false, 1)
      then Put(s, t, InsStoreNext(n, h, k), n, c')
      else Put(s, t, Continue(k), n, c'.(place := Waiting))

    case GetLoadHead => Goto(s, t, GetLoadRefs(s.head))
    case GetLoadRefs(h) =>
      if h.None? then Goto(s, t, Idle) else Goto(s, t, GetCasRefs(h.value, At(s, h.value).refs))
    case GetCasRefs(n, r) =>
      var c := At(s, n);
      if r.count == 0 || c.refs != r
      then Goto(s, t, GetLoadHead)
      else Put(s, t, GetLoadNext(n), n, c.(refs := Refs(r.should, r.count + 1)))
    case GetLoadNext(n) => Goto(s, t, GetCasHead(n, At(s, n).next))
    case GetCasHead(n, x) =>
      if s.head == Some(n)
      then Put(s, t, GetAssert(n), n, At(s, n).(place := Popped(t)))
           .(head := x, chain := if s.chain == [] then [] else s.chain[1..])
      else Goto(s, t, GetFetchSub1(n, s.head))
    case GetAssert(n) => Goto(s, t, GetFetchSub2(n))
    case GetFetchSub2(n) =>
      Put(s, t, Idle, n, At(s, n).(refs := Less(At(s, n).refs, 2), place := Outside))
    case GetFetchSub1(n, h) =>
      var c := At(s, n);
      var c' := c.(refs := Less(c.refs, 1));
      if c.refs == Refs(true, 1)
      then Put(s, t, InsLoadHead(n, Resume(h)), n, c'.(place := Inserting(t)))
      else Put(s, t, GetLoadRefs(h), n, c')
  }

  // ---------------------------------------------------------------- what every state satisfies

  /** A thread that has incremented the count of `n` and not yet decremented it again. */
  predicate Holds(p: Pc, n: Node) {
    match p
    case GetLoadNext(m) => m == n
    case GetCasHead(m, _) => m == n
    case GetAssert(m) => m == n
    case GetFetchSub2(m) => m == n
    case GetFetchSub1(m, _) => m == n
    case _ => false
  }

  ghost function Holders(pc: map<Tid, Pc>, n: Node): set<Tid> {
    set t | t in pc && Holds(pc[t], n)
  }

  /** Inside `add_knowing_refcount_is_zero(n)`, before `freeListRefs` is set to 1. */
  predicate PreparesInsert(p: Pc, n: Node) {
    (p.InsLoadHead? || p.InsStoreNext? || p.InsStoreRefs?) && p.node == n
  }

  /** Inside `add_knowing_refcount_is_zero(n)`, after `freeListRefs` was set to 1. */
  predicate TriesInsert(p: Pc, n: Node) {
    (p.InsCasHead? || p.InsFetchAdd?) && p.node == n
  }

  predicate Pops(p: Pc, n: Node) {
    (p.GetAssert? || p.GetFetchSub2?) && p.top == n
  }

  /** The list holds a reference of its own to `n`. */
  predicate ListReference(s: State, n: Node) {
    match At(s, n).place
    case Linked => true
    case Popped(_) => true
    case Inserting(t) => t in s.pc && TriesInsert(s.pc[t], n)
    case _ => false
  }

  ghost predicate NodeInvariant(s: State, n: Node) {
    var c := At(s, n);
    && c.refs.count == |Holders(s.pc, n)| + (if ListReference(s, n) then 1 else 0)
    && match c.place
       case Outside => !c.refs.should
       case Adding(t) => !c.refs.should && t in s.pc && s.pc[t] == AddFetchAdd(n)
       case Waiting => c.refs.should && c.refs.count >= 1
       case Inserting(t) =>
         && t in s.pc
         && if c.refs.should then PreparesInsert(s.pc[t], n) && c.refs.count == 0 else TriesInsert(s.pc[t], n)
       case Linked => !c.refs.should
       case Popped(t) => !c.refs.should && t in s.pc && Pops(s.pc[t], n)
  }

  predicate ThreadInvariant(s: State, t: Tid)
    requires t in s.pc
  {
    match s.pc[t]
    case AddFetchAdd(n) => At(s, n).place == Adding(t)
    case InsLoadHead(n, _) => At(s, n).place == Inserting(t) && At(s, n).refs.should
    case InsStoreNext(n, _, _) => At(s, n).place == Inserting(t) && At(s, n).refs.should
    case InsStoreRefs(n, h, _) =>
      At(s, n).place == Inserting(t) && At(s, n).refs.should && At(s, n).next == h
    case InsCasHead(n, h, _) =>
      At(s, n).place == Inserting(t) && !At(s, n).refs.should && At(s, n).next == h
    case InsFetchAdd(n, _, _) => At(s, n).place == Inserting(t) && !At(s, n).refs.should
    case GetCasRefs(_, r) => r.count <= |s.pc| + 1
    case GetCasHead(n, x) => At(s, n).next == x
    case GetAssert(n) => At(s, n).place == Popped(t)
    case GetFetchSub2(n) => At(s, n).place == Popped(t)
    case _ => true
  }

  /** `chain` is what one meets following `freeListNext` from `head` up to the null pointer. */
  predicate IsChain(s: State, head: Option<Node>, chain: seq<Node>)
    decreases chain
  {
    if chain == [] then head == None
    else head == Some(chain[0]) && IsChain(s, At(s, chain[0]).next, chain[1..])
  }

  /** The chain from `freeListHead` is finite, meets no node twice, and meets exactly the linked nodes. */
  ghost predicate ChainInvariant(s: State) {
    && IsChain(s, s.head, s.chain)
    && Distinct(s.chain)
    && (forall n: Node :: n in s.chain <==> At(s, n).place.Linked?)
  }

  ghost predicate Invariant(s: State) {
    && ChainInvariant(s)
    && (forall n: Node :: NodeInvariant(s, n))
    && (forall t :: t in s.pc ==> ThreadInvariant(s, t))
  }

  /** All nodes are with clients, untouched, and all threads are outside the list. */
  ghost predicate Init(s: State) {
    && s.head == None && s.chain == [] && s.cells == map[]
    && (forall t :: t in s.pc ==> s.pc[t] == Idle)
  }

  // ---------------------------------------------------------------- preservation

  lemma HoldersAfter(pc: map<Tid, Pc>, t: Tid, p: Pc, n: Node)
    requires t in pc
    ensures |Holders(pc[t := p], n)| == |Holders(pc, n)|
              + (if Holds(p, n) then 1 else 0) - (if Holds(pc[t], n) then 1 else 0)
  {
    var rest := Holders(pc, n) - {t};
    assert Holders(pc, n) == if Holds(pc[t], n) then rest + {t} else rest;
    assert Holders(pc[t := p], n) == if Holds(p, n) then rest + {t} else rest;
  }

  lemma HolderCounts(s: State, t: Tid, n: Node)
    requires t in s.pc && Holds(s.pc[t], n) && NodeInvariant(s, n)
    ensures At(s, n).refs.count >= 1 + (if ListReference(s, n) then 1 else 0)
  {
    assert t in Holders(s.pc, n);
  }

  /** The node a thread is working on. */
  function Subject(p: Pc): Option<Node> {
    match p
    case Idle => None
    case GetLoadHead => None
    case GetLoadRefs(h) => h
    case GetCasRefs(n, _) => Some(n)
    case GetLoadNext(n) => Some(n)
    case GetCasHead(n, _) => Some(n)
    case GetAssert(n) => Some(n)
    case GetFetchSub2(n) => Some(n)
    case GetFetchSub1(n, _) => Some(n)
    case _ => Some(p.node)
  }

  /** What the step of `t` may rely on. */
  ghost predicate StepContext(s: State, t: Tid) {
    && t in s.pc && ThreadInvariant(s, t)
    && (Subject(s.pc[t]).Some? ==> NodeInvariant(s, Subject(s.pc[t]).value))
    && (s.pc[t].GetCasHead? && s.head == Some(s.pc[t].top) ==> At(s, s.pc[t].top).place.Linked?)
  }

  lemma NodeStepElsewhere(s: State, t: Tid, n: Node)
    requires StepContext(s, t) && NodeInvariant(s, n) && Subject(s.pc[t]) != Some(n)
    ensures NodeInvariant(ThreadStep(s, t), n)
  {
    var s' := ThreadStep(s, t);
    CellElsewhere(s, t, n);
    HoldersAfter(s.pc, t, s'.pc[t], n);
    assert At(s, n).place != Adding(t) && At(s, n).place != Inserting(t) && At(s, n).place != Popped(t);
    assert ListReference(s', n) == ListReference(s, n);
  }

  /** A step moves its own thread only. */
  lemma OnlyThreadMoves(s: State, t: Tid)
    requires t in s.pc
    ensures t in ThreadStep(s, t).pc && ThreadStep(s, t).pc == s.pc[t := ThreadStep(s, t).pc[t]]
  {
    match s.pc[t] {
      case AddFetchAdd(_) =>
      case InsCasHead(_, _, _) =>
      case InsFetchAdd(_, _, _) =>
      case GetLoadRefs(_) =>
      case GetCasRefs(_, _) =>
      case GetCasHead(_, _) =>
      case GetFetchSub1(_, _) =>
      case _ =>
    }
  }

  lemma CellElsewhere(s: State, t: Tid, n: Node)
    requires t in s.pc && Subject(s.pc[t]) != Some(n)
    ensures At(ThreadStep(s, t), n) == At(s, n)
    ensures ThreadStep(s, t).pc == s.pc[t := ThreadStep(s, t).pc[t]]
    ensures !Holds(ThreadStep(s, t).pc[t], n) && !Holds(s.pc[t], n)
  {
    OnlyThreadMoves(s, t);
    match s.pc[t] {
      case InsCasHead(_, _, _) =>
      case GetCasHead(_, _) =>
      case GetCasRefs(_, _) =>
      case _ =>
    }
  }

  lemma NodeStepAdd(s: State, t: Tid)
    requires StepContext(s, t) && s.pc[t].AddFetchAdd?
    ensures NodeInvariant(ThreadStep(s, t), s.pc[t].node)
  {
    HoldersAfter(s.pc, t, ThreadStep(s, t).pc[t], s.pc[t].node);
  }

  lemma NodeStepInsert(s: State, t: Tid)
    requires StepContext(s, t) && (s.pc[t].InsLoadHead? || s.pc[t].InsStoreNext? || s.pc[t].InsStoreRefs?)
    ensures NodeInvariant(ThreadStep(s, t), s.pc[t].node)
  {
    HoldersAfter(s.pc, t, ThreadStep(s, t).pc[t], s.pc[t].node);
  }

  lemma NodeStepPublish(s: State, t: Tid)
    requires StepContext(s, t) && (s.pc[t].InsCasHead? || s.pc[t].InsFetchAdd?)
    ensures NodeInvariant(ThreadStep(s, t), s.pc[t].node)
  {
    HoldersAfter(s.pc, t, ThreadStep(s, t).pc[t], s.pc[t].node);
  }

  lemma NodeStepGet(s: State, t: Tid)
    requires StepContext(s, t) && Subject(s.pc[t]).Some?
    requires s.pc[t].GetLoadRefs? || s.pc[t].GetCasRefs? || s.pc[t].GetLoadNext? || s.pc[t].GetCasHead?
    ensures NodeInvariant(ThreadStep(s, t), Subject(s.pc[t]).value)
  {
    HoldersAfter(s.pc, t, ThreadStep(s, t).pc[t], Subject(s.pc[t]).value);
  }

  lemma NodeStepRelease(s: State, t: Tid)
    requires StepContext(s, t) && (s.pc[t].GetAssert? || s.pc[t].GetFetchSub2? || s.pc[t].GetFetchSub1?)
    ensures NodeInvariant(ThreadStep(s, t), Subject(s.pc[t]).value)
  {
    var n := Subject(s.pc[t]).value;
    HoldersAfter(s.pc, t, ThreadStep(s, t).pc[t], n);
    HolderCounts(s, t, n);
  }

  lemma NodeStep(s: State, t: Tid, n: Node)
    requires StepContext(s, t) && NodeInvariant(s, n)
    ensures NodeInvariant(ThreadStep(s, t), n)
  {
    if Subject(s.pc[t]) != Some(n) {
      NodeStepElsewhere(s, t, n);
    } else {
      match s.pc[t]
      case AddFetchAdd(_) => NodeStepAdd(s, t);
      case InsCasHead(_, _, _) => NodeStepPublish(s, t);
      case InsFetchAdd(_, _, _) => NodeStepPublish(s, t);
      case GetLoadRefs(_) => NodeStepGet(s, t);
      case GetCasRefs(_, _) => NodeStepGet(s, t);
      case GetLoadNext(_) => NodeStepGet(s, t);
      case GetCasHead(_, _) => NodeStepGet(s, t);
      case GetAssert(_) => NodeStepRelease(s, t);
      case GetFetchSub2(_) => NodeStepRelease(s, t);
      case GetFetchSub1(_, _) => NodeStepRelease(s, t);
      case _ => NodeStepInsert(s, t);
    }
  }

  /** The step of `t` as seen from another thread `u`. */
  lemma OtherThread(s: State, t: Tid, u: Tid)
    requires StepContext(s, t) && u in s.pc && t != u && ThreadInvariant(s, u)
    requires Subject(s.pc[u]).Some? ==> NodeInvariant(s, Subject(s.pc[u]).value)
    ensures ThreadInvariant(ThreadStep(s, t), u)
  {
    var m := Subject(s.pc[u]);
    ThreadCount(s, t);
    if m.Some? && m == Subject(s.pc[t]) {
      if Holds(s.pc[u], m.value) { HolderCounts(s, u, m.value); }
      if Holds(s.pc[t], m.value) { HolderCounts(s, t, m.value); }
      SameSubject(s, t, u, m.value);
    } else if m.Some? {
      CellElsewhere(s, t, m.value);
    }
  }

  lemma ThreadCount(s: State, t: Tid)
    requires t in s.pc
    ensures ThreadStep(s, t).pc.Keys == s.pc.Keys && |ThreadStep(s, t).pc| == |s.pc|
    ensures forall u :: u in s.pc && u != t ==> ThreadStep(s, t).pc[u] == s.pc[u]
  {
    var pc' := ThreadStep(s, t).pc;
    OnlyThreadMoves(s, t);
    assert pc'.Keys == s.pc.Keys;
    assert |pc'.Keys| == |pc'| && |s.pc.Keys| == |s.pc|;
  }

  lemma SameSubject(s: State, t: Tid, u: Tid, m: Node)
    requires t in s.pc && u in s.pc && t != u && ThreadInvariant(s, t) && ThreadInvariant(s, u)
    requires NodeInvariant(s, m) && Subject(s.pc[t]) == Subject(s.pc[u]) == Some(m)
    requires Holds(s.pc[u], m) ==> At(s, m).refs.count >= 1 + (if ListReference(s, m) then 1 else 0)
    requires Holds(s.pc[t], m) ==> At(s, m).refs.count >= 1 + (if ListReference(s, m) then 1 else 0)
    requires s.pc[t].GetCasHead? && s.head == Some(m) ==> At(s, m).place.Linked?
    requires ThreadStep(s, t).pc.Keys == s.pc.Keys && |ThreadStep(s, t).pc| == |s.pc|
    ensures ThreadInvariant(ThreadStep(s, t), u)
  {
    assert ThreadStep(s, t).pc[u] == s.pc[u];
    if s.pc[u].GetCasHead? { assert !s.pc[t].InsStoreNext?; }
  }

  lemma {:induction false} ChainFrame(s: State, s': State, head: Option<Node>, chain: seq<Node>)
    requires IsChain(s, head, chain)
    requires forall n :: n in chain ==> At(s', n).next == At(s, n).next
    ensures IsChain(s', head, chain)
    decreases chain
  {
    if chain != [] {
      assert chain[0] in chain;
      ChainFrame(s, s', At(s, chain[0]).next, chain[1..]);
    }
  }

  lemma ChainPush(s: State, t: Tid)
    requires ChainInvariant(s) && StepContext(s, t) && s.pc[t].InsCasHead? && s.head == s.pc[t].head
    ensures ChainInvariant(ThreadStep(s, t))
  {
    var n, s' := s.pc[t].node, ThreadStep(s, t);
    ChainFrame(s, s', s.head, s.chain);
    assert s'.chain[1..] == s.chain;
    forall m: Node ensures m in s'.chain <==> At(s', m).place.Linked? {
      assert m in s'.chain <==> m == n || m in s.chain;
    }
  }

  lemma ChainPop(s: State, t: Tid)
    requires ChainInvariant(s) && StepContext(s, t) && s.pc[t].GetCasHead? && s.head == Some(s.pc[t].top)
    ensures ChainInvariant(ThreadStep(s, t))
    ensures s.chain == [s.pc[t].top] + ThreadStep(s, t).chain
  {
    var n, s' := s.pc[t].top, ThreadStep(s, t);
    assert s.chain == [n] + s'.chain;
    ChainFrame(s, s', s'.head, s'.chain);
    forall m: Node ensures m in s'.chain <==> At(s', m).place.Linked? {
      assert m in s.chain <==> m == n || m in s'.chain;
    }
  }

  lemma ChainStep(s: State, t: Tid)
    requires ChainInvariant(s) && StepContext(s, t)
    ensures ChainInvariant(ThreadStep(s, t))
  {
    if s.pc[t].InsCasHead? && s.head == s.pc[t].head {
      ChainPush(s, t);
    } else if s.pc[t].GetCasHead? && s.head == Some(s.pc[t].top) {
      ChainPop(s, t);
    } else {
      var s' := ThreadStep(s, t);
      forall m: Node ensures At(s', m).place.Linked? == At(s, m).place.Linked? {
        ChainPlace(s, t, m);
      }
      ChainFrame(s, s', s.head, s.chain);
    }
  }

  lemma ChainPlace(s: State, t: Tid, m: Node)
    requires StepContext(s, t)
    requires !(s.pc[t].InsCasHead? && s.head == s.pc[t].head)
    requires !(s.pc[t].GetCasHead? && s.head == Some(s.pc[t].top))
    ensures At(ThreadStep(s, t), m).place.Linked? == At(s, m).place.Linked?
    ensures At(s, m).place.Linked? ==> At(ThreadStep(s, t), m).next == At(s, m).next
  {
    var n := Subject(s.pc[t]);
    if n == Some(m) && Holds(s.pc[t], m) { HolderCounts(s, t, m); }
  }

  lemma StartNode(s: State, a: Action, m: Node)
    requires Enabled(s, a) && !a.Step? && NodeInvariant(s, m)
    ensures NodeInvariant(Apply(s, a), m)
  {
    HoldersAfter(s.pc, a.t, Apply(s, a).pc[a.t], m);
  }

  lemma StartPreserved(s: State, a: Action)
    requires Invariant(s) && Enabled(s, a) && !a.Step?
    ensures Invariant(Apply(s, a))
  {
    var t, s' := a.t, Apply(s, a);
    assert s'.pc == s.pc[t := s'.pc[t]];
    assert s'.pc.Keys == s.pc.Keys;
    assert |s'.pc.Keys| == |s'.pc| && |s.pc.Keys| == |s.pc|;
    forall m: Node ensures NodeInvariant(s', m) { StartNode(s, a, m); }
    forall u | u in s'.pc ensures ThreadInvariant(s', u) {
      assert u != t ==> ThreadInvariant(s, u);
    }
    ChainFrame(s, s', s.head, s.chain);
  }

  lemma Preserved(s: State, a: Action)
    requires Invariant(s) && Enabled(s, a)
    ensures Invariant(Apply(s, a))
  {
    if a.Step? {
      var t, s' := a.t, Apply(s, a);
      assert StepContext(s, t);
      ChainStep(s, t);
      forall m: Node ensures NodeInvariant(s', m) { NodeStep(s, t, m); }
      ThreadCount(s, t);
      forall u | u in s'.pc ensures ThreadInvariant(s', u) {
        if u == t { OwnThread(s, t); } else { OtherThread(s, t, u); }
      }
    } else {
      StartPreserved(s, a);
    }
  }

  lemma OwnThread(s: State, t: Tid)
    requires StepContext(s, t)
    ensures ThreadInvariant(ThreadStep(s, t), t)
  {
    if s.pc[t].GetLoadRefs? && s.pc[t].cur.Some? { CountBound(s, s.pc[t].cur.value); }
    if Subject(s.pc[t]).Some? && Holds(s.pc[t], Subject(s.pc[t]).value) {
      HolderCounts(s, t, Subject(s.pc[t]).value);
    }
  }

  // ---------------------------------------------------------------- whole runs

  predicate Possible(s: State, run: seq<Action>)
    decreases run
  {
    run == [] || (Enabled(s, run[0]) && Possible(Apply(s, run[0]), run[1..]))
  }

  function Outcome(s: State, run: seq<Action>): State
    requires Possible(s, run)
    decreases run
  {
    if run == [] then s else Outcome(Apply(s, run[0]), run[1..])
  }

  lemma InitiallyInvariant(s: State)
    requires Init(s)
    ensures Invariant(s)
  {
    forall n: Node ensures NodeInvariant(s, n) {
      assert Holders(s.pc, n) == {};
    }
  }

  lemma {:induction false} InvariantOnRuns(s: State, run: seq<Action>)
    requires Invariant(s) && Possible(s, run)
    ensures Invariant(Outcome(s, run))
    decreases run
  {
    if run != [] {
      Preserved(s, run[0]);
      InvariantOnRuns(Apply(s, run[0]), run[1..]);
    }
  }

  // ---------------------------------------------------------------- results

  predicate Returns(s: State, a: Action, n: Node) {
    a.Step? && a.t in s.pc && s.pc[a.t] == GetFetchSub2(n)
  }

  /**
    The clients' own ledger, from their calls and returns only: after the run, `n` is with a client
    when the last call about it is a `try_get` that returned it, or there is none and `held`.
   */
  predicate Ledger(s: State, run: seq<Action>, n: Node, held: bool)
    requires Possible(s, run)
    decreases run
  {
    if run == [] then held
    else
      var now := if run[0].StartAdd? && run[0].n == n then false else held || Returns(s, run[0], n);
      Ledger(Apply(s, run[0]), run[1..], n, now)
  }

  lemma OutsideAfterStep(s: State, t: Tid, n: Node)
    requires StepContext(s, t) && NodeInvariant(s, n)
    ensures At(ThreadStep(s, t), n).place.Outside? <==> At(s, n).place.Outside? || s.pc[t] == GetFetchSub2(n)
  {
    if Subject(s.pc[t]) != Some(n) {
      CellElsewhere(s, t, n);
    } else if Holds(s.pc[t], n) {
      HolderCounts(s, t, n);
    }
  }

  lemma {:induction false} LedgerIsPlace(s: State, run: seq<Action>, n: Node)
    requires Invariant(s) && Possible(s, run)
    ensures Ledger(s, run, n, At(s, n).place.Outside?) <==> At(Outcome(s, run), n).place.Outside?
    decreases run
  {
    if run != [] {
      Preserved(s, run[0]);
      if run[0].Step? {
        assert StepContext(s, run[0].t);
        assert NodeInvariant(s, n);
        OutsideAfterStep(s, run[0].t, n);
      }
      LedgerIsPlace(Apply(s, run[0]), run[1..], n);
    }
  }

  /**
    No node is given to two clients: when `try_get` is about to return a node, no client holds it, it
    is not reachable from `freeListHead`, and no other thread is about to link, return or add it.
   */
  lemma NoNodeIsGivenTwice(s0: State, run: seq<Action>, t: Tid, n: Node)
    requires Init(s0) && Possible(s0, run)
    requires var s := Outcome(s0, run); t in s.pc && s.pc[t] == GetFetchSub2(n)
    ensures var s := Outcome(s0, run);
            && !Ledger(s0, run, n, true)
            && n !in s.chain
            && forall u :: u in s.pc && u != t ==>
                 && !Pops(s.pc[u], n) && !PreparesInsert(s.pc[u], n) && !TriesInsert(s.pc[u], n)
                 && s.pc[u] != AddFetchAdd(n)
  {
    var s := Outcome(s0, run);
    InitiallyInvariant(s0);
    InvariantOnRuns(s0, run);
    LedgerIsPlace(s0, run, n);
    assert ThreadInvariant(s, t) && NodeInvariant(s, n);
    forall u | u in s.pc && u != t
      ensures && !Pops(s.pc[u], n) && !PreparesInsert(s.pc[u], n) && !TriesInsert(s.pc[u], n)
              && s.pc[u] != AddFetchAdd(n)
    {
      assert ThreadInvariant(s, u);
    }
  }

  /**
    No ABA: whenever the compare-and-swap of `try_get` succeeds, the pointer it installs, which was
    read earlier, is the successor of the node it unlinks; the list loses that node and no other.
   */
  lemma PopInstallsTrueSuccessor(s0: State, run: seq<Action>, t: Tid)
    requires Init(s0) && Possible(s0, run)
    requires var s := Outcome(s0, run);
             t in s.pc && s.pc[t].GetCasHead? && s.head == Some(s.pc[t].top)
    ensures var s := Outcome(s0, run); var s' := ThreadStep(s, t);
            && s.pc[t].succ == At(s, s.pc[t].top).next
            && s.chain == [s.pc[t].top] + s'.chain
            && IsChain(s', s'.head, s'.chain) && Distinct(s'.chain)
  {
    var s := Outcome(s0, run);
    InitiallyInvariant(s0);
    InvariantOnRuns(s0, run);
    assert StepContext(s, t);
    ChainPop(s, t);
  }

  /** A node that is put on the list goes in front of the whole list. */
  lemma PushLosesNothing(s0: State, run: seq<Action>, t: Tid)
    requires Init(s0) && Possible(s0, run)
    requires var s := Outcome(s0, run); t in s.pc && s.pc[t].InsCasHead? && s.head == s.pc[t].head
    ensures var s := Outcome(s0, run); var s' := ThreadStep(s, t);
            && s'.chain == [s.pc[t].node] + s.chain && s.pc[t].node !in s.chain
            && IsChain(s', s'.head, s'.chain)
  {
    var s := Outcome(s0, run);
    InitiallyInvariant(s0);
    InvariantOnRuns(s0, run);
    assert StepContext(s, t);
    ChainPush(s, t);
    assert ThreadInvariant(s, t);
  }

  /**
    In every reachable state the chain from `freeListHead` is acyclic, the low bits of
    `freeListRefs` count the transient holders plus the list's own reference, which lasts from the
    store of 1 until the popper's subtraction, and the popper's assertion holds.
   */
  lemma ReferenceCountsAreExact(s0: State, run: seq<Action>, n: Node)
    requires Init(s0) && Possible(s0, run)
    ensures var s := Outcome(s0, run);
            && IsChain(s, s.head, s.chain) && Distinct(s.chain)
            && At(s, n).refs.count == |Holders(s.pc, n)| + (if ListReference(s, n) then 1 else 0)
            && (n in s.chain ==> ListReference(s, n) && !At(s, n).refs.should)
            && (forall t :: t in s.pc && s.pc[t] == GetAssert(n) ==> !At(s, n).refs.should)
  {
    var s := Outcome(s0, run);
    InitiallyInvariant(s0);
    InvariantOnRuns(s0, run);
    assert NodeInvariant(s, n);
    forall t | t in s.pc && s.pc[t] == GetAssert(n) ensures !At(s, n).refs.should {
      assert ThreadInvariant(s, t);
    }
  }

  /** With no thread inside `add` or `try_get`, the list holds exactly the nodes the clients gave up. */
  lemma QuiescentListIsExact(s0: State, run: seq<Action>, n: Node)
    requires Init(s0) && Possible(s0, run)
    requires forall t :: t in Outcome(s0, run).pc ==> Outcome(s0, run).pc[t] == Idle
    ensures n in Outcome(s0, run).chain <==> !Ledger(s0, run, n, true)
    ensures At(Outcome(s0, run), n).refs == Refs(false, if Ledger(s0, run, n, true) then 0 else 1)
  {
    var s := Outcome(s0, run);
    InitiallyInvariant(s0);
    InvariantOnRuns(s0, run);
    LedgerIsPlace(s0, run, n);
    assert NodeInvariant(s, n);
    assert Holders(s.pc, n) == {};
  }

  // ---------------------------------------------------------------- calls that run alone

  /** No thread is inside `add` or `try_get`. */
  predicate Calm(s: State) {
    forall t :: t in s.pc ==> s.pc[t] == Idle
  }

  function Steps(t: Tid, k: nat): seq<Action> {
    if k == 0 then [] else [Step(t)] + Steps(t, k - 1)
  }

  lemma RunStep(s: State, t: Tid, k: nat)
    requires t in s.pc && !s.pc[t].Idle?
    ensures Possible(s, Steps(t, k + 1)) <==> Possible(ThreadStep(s, t), Steps(t, k))
    ensures Possible(s, Steps(t, k + 1)) ==> Outcome(s, Steps(t, k + 1)) == Outcome(ThreadStep(s, t), Steps(t, k))
  {
    assert Steps(t, k + 1)[0] == Step(t) && Steps(t, k + 1)[1..] == Steps(t, k);
  }

  lemma RunStart(s: State, a: Action, t: Tid, k: nat)
    requires Enabled(s, a)
    ensures Possible(s, [a] + Steps(t, k)) <==> Possible(Apply(s, a), Steps(t, k))
    ensures Possible(s, [a] + Steps(t, k)) ==>
              Outcome(s, [a] + Steps(t, k)) == Outcome(Apply(s, a), Steps(t, k))
  {
    assert ([a] + Steps(t, k))[1..] == Steps(t, k);
  }

  /** In a calm state the head of the list has exactly the list's reference. */
  lemma CalmHead(s: State)
    requires Invariant(s) && Calm(s) && s.chain != []
    ensures s.head == Some(s.chain[0]) && At(s, s.chain[0]).refs == Refs(false, 1)
  {
    var n := s.chain[0];
    assert NodeInvariant(s, n);
    assert Holders(s.pc, n) == {};
  }

  lemma EmptyGet(s: State, t: Tid)
    requires Invariant(s) && t in s.pc && s.pc[t].Idle? && s.chain == []
    ensures Possible(s, [StartGet(t)] + Steps(t, 2)) && Outcome(s, [StartGet(t)] + Steps(t, 2)) == s
  {
    var s1 := Apply(s, StartGet(t));
    var s2 := ThreadStep(s1, t);
    RunStart(s, StartGet(t), t, 2);
    RunStep(s1, t, 1);
    RunStep(s2, t, 0);
    assert ThreadStep(s2, t).pc == s.pc;
  }

  /** Up to the exchange of the head: a reference is taken, and the successor is known. */
  lemma GetsReady(s: State, t: Tid) returns (s': State)
    requires Invariant(s) && Calm(s) && t in s.pc && s.chain != []
    ensures var n := s.chain[0];
            && s' == s.(pc := s.pc[t := GetCasHead(n, At(s, n).next)], cells := s'.cells)
            && s'.cells == s.cells[n := At(s, n).(refs := Refs(false, 2))]
    ensures forall k: nat :: Possible(s', Steps(t, k)) ==>
              && Possible(s, [StartGet(t)] + Steps(t, k + 4))
              && Outcome(s, [StartGet(t)] + Steps(t, k + 4)) == Outcome(s', Steps(t, k))
  {
    CalmHead(s);
    var s1 := Apply(s, StartGet(t));
    var s2 := ThreadStep(s1, t);
    var s3 := ThreadStep(s2, t);
    var s4 := ThreadStep(s3, t);
    s' := ThreadStep(s4, t);
    assert s'.pc == s.pc[t := GetCasHead(s.chain[0], At(s, s.chain[0]).next)];
    forall k: nat | Possible(s', Steps(t, k))
      ensures Possible(s, [StartGet(t)] + Steps(t, k + 4))
      ensures Outcome(s, [StartGet(t)] + Steps(t, k + 4)) == Outcome(s', Steps(t, k))
    {
      RunStart(s, StartGet(t), t, k + 4);
      RunStep(s1, t, k + 3);
      RunStep(s2, t, k + 2);
      RunStep(s3, t, k + 1);
      RunStep(s4, t, k);
    }
  }

  lemma PopsAlone(s: State, t: Tid, n: Node)
    requires t in s.pc && s.head == Some(n) && s.chain != [] && s.pc[t] == GetCasHead(n, At(s, n).next)
    requires At(s, n).refs == Refs(false, 2)
    ensures Possible(s, Steps(t, 3))
    ensures Outcome(s, Steps(t, 3)) ==
              State(At(s, n).next, s.cells[n := At(s, n).(refs := Refs(false, 0), place := Outside)], s.pc[t := Idle],
                    s.chain[1..])
  {
    var s1 := ThreadStep(s, t);
    var s2 := ThreadStep(s1, t);
    RunStep(s, t, 2);
    RunStep(s1, t, 1);
    RunStep(s2, t, 0);
  }

  /**
    A `try_get` that runs alone in a calm state returns null, changing nothing, exactly when the list is
    empty, and otherwise takes its first node.
   */
  lemma LoneGet(s0: State, run: seq<Action>, t: Tid)
    requires Init(s0) && Possible(s0, run) && Calm(Outcome(s0, run)) && t in Outcome(s0, run).pc
    ensures var s := Outcome(s0, run);
            if s.chain == [] then
              Possible(s, [StartGet(t)] + Steps(t, 2)) && Outcome(s, [StartGet(t)] + Steps(t, 2)) == s
            else
              && Possible(s, [StartGet(t)] + Steps(t, 7))
              && var s' := Outcome(s, [StartGet(t)] + Steps(t, 7)); var n := s.chain[0];
                 && s'.pc == s.pc && s'.chain == s.chain[1..] && Ledger(s, [StartGet(t)] + Steps(t, 7), n, false)
                 && At(s', n).refs == Refs(false, 0)
                 && forall m: Node :: m != n ==> At(s', m) == At(s, m)
  {
    var s := Outcome(s0, run);
    InitiallyInvariant(s0);
    InvariantOnRuns(s0, run);
    if s.chain == [] {
      EmptyGet(s, t);
    } else {
      CalmHead(s);
      var s' := GetsReady(s, t);
      PopsAlone(s', t, s.chain[0]);
      LedgerIsPlace(s, [StartGet(t)] + Steps(t, 7), s.chain[0]);
      assert s'.pc[t := Idle] == s.pc;
    }
  }

  /** The reference word is taken over, and the head is loaded. */
  lemma AddsReady(s: State, t: Tid, n: Node) returns (s': State)
    requires t in s.pc && s.pc[t].Idle? && At(s, n) == Cell(Refs(false, 0), At(s, n).next, Outside)
    ensures s' == s.(pc := s.pc[t := InsStoreNext(n, s.head, Return)],
                     cells := s.cells[n := Cell(Refs(true, 0), At(s, n).next, Inserting(t))])
    ensures Enabled(s, StartAdd(t, n))
    ensures forall k: nat :: Possible(s', Steps(t, k)) ==>
              && Possible(s, [StartAdd(t, n)] + Steps(t, k + 2))
              && Outcome(s, [StartAdd(t, n)] + Steps(t, k + 2)) == Outcome(s', Steps(t, k))
  {
    var s1 := Apply(s, StartAdd(t, n));
    var s2 := ThreadStep(s1, t);
    s' := ThreadStep(s2, t);
    assert s'.pc == s.pc[t := InsStoreNext(n, s.head, Return)];
    forall k: nat | Possible(s', Steps(t, k))
      ensures Possible(s, [StartAdd(t, n)] + Steps(t, k + 2))
      ensures Outcome(s, [StartAdd(t, n)] + Steps(t, k + 2)) == Outcome(s', Steps(t, k))
    {
      RunStart(s, StartAdd(t, n), t, k + 2);
      RunStep(s1, t, k + 1);
      RunStep(s2, t, k);
    }
  }

  lemma PushesAlone(s: State, t: Tid, n: Node)
    requires t in s.pc && s.pc[t] == InsStoreNext(n, s.head, Return)
    ensures Possible(s, Steps(t, 3))
    ensures Outcome(s, Steps(t, 3)) ==
              State(Some(n), s.cells[n := Cell(Refs(false, 1), s.head, Linked)], s.pc[t := Idle], [n] + s.chain)
  {
    var s1 := ThreadStep(s, t);
    var s2 := ThreadStep(s1, t);
    RunStep(s, t, 2);
    RunStep(s1, t, 1);
    RunStep(s2, t, 0);
  }

  /** An `add` that runs alone in a calm state puts its node in front of the list. */
  lemma LoneAdd(s0: State, run: seq<Action>, t: Tid, n: Node)
    requires Init(s0) && Possible(s0, run) && Calm(Outcome(s0, run)) && t in Outcome(s0, run).pc
    requires At(Outcome(s0, run), n).place.Outside?
    ensures var s := Outcome(s0, run);
            && Possible(s, [StartAdd(t, n)] + Steps(t, 5))
            && var s' := Outcome(s, [StartAdd(t, n)] + Steps(t, 5));
               && s'.pc == s.pc && s'.chain == [n] + s.chain && !Ledger(s, [StartAdd(t, n)] + Steps(t, 5), n, true)
               && At(s', n).refs == Refs(false, 1)
               && forall m: Node :: m != n ==> At(s', m) == At(s, m)
  {
    var s := Outcome(s0, run);
    InitiallyInvariant(s0);
    InvariantOnRuns(s0, run);
    assert NodeInvariant(s, n);
    assert Holders(s.pc, n) == {};
    var s' := AddsReady(s, t, n);
    PushesAlone(s', t, n);
    LedgerIsPlace(s, [StartAdd(t, n)] + Steps(t, 5), n);
    assert s'.pc[t := Idle] == s.pc;
  }

  // ---------------------------------------------------------------- when a try_get returns null

  /** The list was empty before one of the actions, or after the last. */
  predicate WasEmpty(s: State, run: seq<Action>)
    requires Possible(s, run)
    decreases run
  {
    s.chain == [] || (run != [] && WasEmpty(Apply(s, run[0]), run[1..]))
  }

  /** One of the actions returns a node to `t`. */
  predicate Got(s: State, run: seq<Action>, t: Tid)
    requires Possible(s, run)
    decreases run
  {
    run != [] && ((run[0] == Step(t) && s.pc[t].GetFetchSub2?) || Got(Apply(s, run[0]), run[1..], t))
  }

  /** Thread `t` is inside `try_get`, and when the head it has loaded was null, the list has been `seen` empty. */
  predicate LooksOn(p: Pc, seen: bool) {
    match p
    case Idle => seen
    case AddFetchAdd(_) => false
    case InsLoadHead(_, k) => k.Resume? && (k.head.None? ==> seen)
    case InsStoreNext(_, _, k) => k.Resume? && (k.head.None? ==> seen)
    case InsStoreRefs(_, _, k) => k.Resume? && (k.head.None? ==> seen)
    case InsCasHead(_, _, k) => k.Resume? && (k.head.None? ==> seen)
    case InsFetchAdd(_, _, k) => k.Resume? && (k.head.None? ==> seen)
    case GetLoadRefs(h) => h.None? ==> seen
    case GetFetchSub1(_, h) => h.None? ==> seen
    case _ => true
  }

  lemma LooksOnAfter(s: State, t: Tid, seen: bool)
    requires t in s.pc && LooksOn(s.pc[t], seen) && (s.head == None <==> s.chain == []) && !s.pc[t].GetFetchSub2?
    ensures LooksOn(ThreadStep(s, t).pc[t], seen || s.chain == [])
  {
    match s.pc[t] {
      case InsCasHead(_, _, _) =>
      case InsFetchAdd(_, _, _) =>
      case GetCasRefs(_, _) =>
      case GetCasHead(_, _) =>
      case GetFetchSub1(_, _) =>
      case _ =>
    }
  }

  lemma {:induction false} NothingMeansEmpty(s: State, call: seq<Action>, t: Tid, seen: bool)
    requires Invariant(s) && Possible(s, call) && t in s.pc && LooksOn(s.pc[t], seen)
    requires forall a :: a in call && a.t == t ==> a.Step?
    requires t in Outcome(s, call).pc && Outcome(s, call).pc[t].Idle?
    ensures seen || Got(s, call, t) || WasEmpty(s, call)
    decreases call
  {
    if call != [] {
      var a := call[0];
      assert a in call;
      Preserved(s, a);
      if a == Step(t) {
        if !s.pc[t].GetFetchSub2? {
          LooksOnAfter(s, t, seen);
          NothingMeansEmpty(Apply(s, a), call[1..], t, seen || s.chain == []);
        }
      } else {
        OthersLeave(s, a, t);
        NothingMeansEmpty(Apply(s, a), call[1..], t, seen);
      }
    }
  }

  lemma OthersLeave(s: State, a: Action, t: Tid)
    requires Enabled(s, a) && a.t != t && t in s.pc
    ensures t in Apply(s, a).pc && Apply(s, a).pc[t] == s.pc[t]
  {
    if a.Step? { OnlyThreadMoves(s, a.t); }
  }

  /** Whatever the others do meanwhile, a `try_get` that returns null met an empty list during the call. */
  lemma NullMeansEmpty(s0: State, run: seq<Action>, call: seq<Action>, t: Tid)
    requires Init(s0) && Possible(s0, run) && Possible(Outcome(s0, run), call)
    requires t in Outcome(s0, run).pc && Outcome(s0, run).pc[t].GetLoadHead?
    requires forall a :: a in call && a.t == t ==> a.Step?
    requires var e := Outcome(Outcome(s0, run), call); t in e.pc && e.pc[t].Idle?
    requires !Got(Outcome(s0, run), call, t)
    ensures WasEmpty(Outcome(s0, run), call)
  {
    InitiallyInvariant(s0);
    InvariantOnRuns(s0, run);
    NothingMeansEmpty(Outcome(s0, run), call, t, false);
  }

  // ---------------------------------------------------------------- the 32-bit word

  const SHOULD_BE_ON_FREELIST: nat := 0x8000_0000
  const WORD: nat := 0x1_0000_0000

  function Word(r: Refs): nat {
    r.count + if r.should then SHOULD_BE_ON_FREELIST else 0
  }

  lemma CountBound(s: State, n: Node)
    requires NodeInvariant(s, n)
    ensures At(s, n).refs.count <= |s.pc| + 1
  {
    assert Holders(s.pc, n) <= s.pc.Keys;
    SubsetCardinality(Holders(s.pc, n), s.pc.Keys);
  }

  /** What the source adds to the word in the step of `p`, when that step writes the word at all. */
  function WordDelta(p: Pc): int {
    match p
    case AddFetchAdd(_) => SHOULD_BE_ON_FREELIST
    case InsFetchAdd(_, _, _) => SHOULD_BE_ON_FREELIST - 1
    case GetCasRefs(_, _) => 1
    case GetFetchSub2(_) => -2
    case GetFetchSub1(_, _) => -1
    case _ => 0
  }

  /**
    With fewer than 2^31 - 1 threads every step on the pair is the 32-bit step of the source, and
    every test on the word is the test on the pair.
   */
  lemma WordOperationsAreExact(s0: State, run: seq<Action>, t: Tid)
    requires Init(s0) && Possible(s0, run)
    requires |Outcome(s0, run).pc| < 0x7FFF_FFFF - 1
    requires var s := Outcome(s0, run); t in s.pc && WordDelta(s.pc[t]) != 0
    ensures var s := Outcome(s0, run); var p := s.pc[t]; var n := Subject(p).value;
            var before, after := At(s, n).refs, At(ThreadStep(s, t), n).refs;
            && Word(before) < WORD
            && (after != before ==> Word(after) == (Word(before) + WordDelta(p)) % WORD)
            && (p.AddFetchAdd? ==> (before == Refs(false, 0) <==> Word(before) == 0))
            && (p.InsFetchAdd? ==> (before == Refs(false, 1) <==> Word(before) == 1))
            && (p.GetFetchSub1? ==> (before == Refs(true, 1) <==> Word(before) == SHOULD_BE_ON_FREELIST + 1))
            && (p.GetCasRefs? ==>
                  && (p.refs.count == 0 <==> Word(p.refs) % SHOULD_BE_ON_FREELIST == 0)
                  && (before == p.refs <==> Word(before) == Word(p.refs)))
  {
    var s := Outcome(s0, run);
    InitiallyInvariant(s0);
    InvariantOnRuns(s0, run);
    var n := Subject(s.pc[t]).value;
    assert StepContext(s, t) && NodeInvariant(s, n);
    CountBound(s, n);
    if Holds(s.pc[t], n) { HolderCounts(s, t, n); }
    WordStep(s, t, n);
    TestsOnWords(At(s, n).refs);
    if s.pc[t].GetCasRefs? { TestsOnWords(s.pc[t].refs); }
  }

  lemma WordStep(s: State, t: Tid, n: Node)
    requires t in s.pc && WordDelta(s.pc[t]) != 0 && Subject(s.pc[t]) == Some(n) && At(s, n).refs.count < 0x7FFF_FFFF
    requires NodeInvariant(s, n) && ThreadInvariant(s, t)
    requires Holds(s.pc[t], n) ==> At(s, n).refs.count >= 1 + (if ListReference(s, n) then 1 else 0)
    ensures var before, after := At(s, n).refs, At(ThreadStep(s, t), n).refs;
            after != before ==> Word(after) == (Word(before) + WordDelta(s.pc[t])) % WORD
  {
    match s.pc[t] {
      case AddFetchAdd(_) =>
      case InsFetchAdd(_, _, _) =>
      case GetCasRefs(_, _) =>
      case GetFetchSub2(_) =>
      case GetFetchSub1(_, _) =>
    }
  }

  lemma TestsOnWords(r: Refs)
    requires r.count < 0x7FFF_FFFF
    ensures Word(r) < WORD
    ensures forall q: Refs :: q.count < 0x7FFF_FFFF ==> (r == q <==> Word(r) == Word(q))
    ensures r.count == 0 <==> Word(r) % SHOULD_BE_ON_FREELIST == 0
    ensures r == Refs(false, 0) <==> Word(r) == 0
    ensures r == Refs(false, 1) <==> Word(r) == 1
    ensures r == Refs(true, 1) <==> Word(r) == SHOULD_BE_ON_FREELIST + 1
  {}
}
