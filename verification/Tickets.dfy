/**
  How consumers of one sub-queue claim elements without locks.

  A consumer takes a ticket from `dequeueOptimisticCount`, checks it against `tailIndex` less the
  overcommits it knows of, and either takes an element index from `headIndex` or repays its ticket to
  `dequeueOvercommit`. One producer and any number of consumers interleave freely; each atomic
  access is one step.
 */
module Tickets {
  import opened Common

  type Tid = nat

  datatype Pc =
    | Idle
    | LoadTail
    | LoadOvercommit(tail: nat)
    | LoadOptimistic(tail: nat, over: nat)
    | TakeTicket(over: nat)
    | ReloadTail(ticket: nat, over: nat)
    | Compare(ticket: nat, over: nat, tail: nat)
    | TakeIndex(ticket: nat)
    | Repay(ticket: nat)
    | Claimed(index: nat)

  /**
    `passed` and `repaid` record which tickets passed the second check or were given back, and
    `done` the indices whose consumer has finished; no step reads them.
   */
  datatype State = State(
    tail: nat, head: nat, optimistic: nat, overcommit: nat,
    pc: map<Tid, Pc>,
    passed: set<nat>, repaid: set<nat>, done: set<nat>
  )

  datatype Action = Publish(count: nat) | Start(t: Tid) | Step(t: Tid) | Finish(t: Tid)

  predicate Enabled(s: State, a: Action) {
    match a
    case Publish(_) => true
    case Start(t) => t in s.pc && s.pc[t].Idle?
    case Step(t) => t in s.pc && !s.pc[t].Idle? && !s.pc[t].Claimed?
    case Finish(t) => t in s.pc && s.pc[t].Claimed?
  }

  function Apply(s: State, a: Action): State
    requires Enabled(s, a)
  {
    match a
    case Publish(k) => s.(tail := s.tail + k)
    case Start(t) => s.(pc := s.pc[t := LoadTail])
    case Step(t) => ThreadStep(s, t)
    case Finish(t) => s.(pc := s.pc[t := Idle], done := s.done + {s.pc[t].index})
  }

  function ThreadStep(s: State, t: Tid): State
    requires t in s.pc
  {
    match s.pc[t]
    case Idle => s
    case LoadTail => s.(pc := s.pc[t := LoadOvercommit(s.tail)])
    case LoadOvercommit(l) => s.(pc := s.pc[t := LoadOptimistic(l, s.overcommit)])
    case LoadOptimistic(l, o) => s.(pc := s.pc[t := if s.optimistic - o < l then TakeTicket(o) else Idle])
    case TakeTicket(o) => s.(optimistic := s.optimistic + 1, pc := s.pc[t := ReloadTail(s.optimistic, o)])
    case ReloadTail(k, o) => s.(pc := s.pc[t := Compare(k, o, s.tail)])
    case Compare(k, o, l) =>
      if k - o < l
      then s.(pc := s.pc[t := TakeIndex(k)], passed := s.passed + {k})
      else s.(pc := s.pc[t := Repay(k)])
    case TakeIndex(_) => s.(head := s.head + 1, pc := s.pc[t := Claimed(s.head)])
    case Repay(k) => s.(overcommit := s.overcommit + 1, pc := s.pc[t := Idle], repaid := s.repaid + {k})
    case Claimed(_) => s
  }

  // ---------------------------------------------------------------- invariant

  /** Holds a ticket that has neither passed the check nor been repaid. */
  predicate Pending(p: Pc) { p.ReloadTail? || p.Compare? || p.Repay? }

  predicate InFlight(p: Pc) { Pending(p) || p.TakeIndex? }

  ghost function FlightSet(pc: map<Tid, Pc>): set<Tid> { set t | t in pc && InFlight(pc[t]) }

  ghost function WinnerSet(pc: map<Tid, Pc>): set<Tid> { set t | t in pc && pc[t].TakeIndex? }

  ghost function Below(a: set<nat>, m: nat): set<nat> { set x | x in a && x < m }

  ghost predicate Counters(s: State) {
    && s.optimistic == s.head + s.overcommit + |FlightSet(s.pc)|
    && |s.passed| == s.head + |WinnerSet(s.pc)|
    && |s.repaid| == s.overcommit
  }

  ghost predicate TicketSets(s: State) {
    && (forall k :: k in s.passed ==> k < s.optimistic && k !in s.repaid)
    && (forall k :: k in s.repaid ==> k < s.optimistic)
    && (forall k :: k in s.passed ==> k - |Below(s.repaid, k)| < s.tail)
  }

  ghost predicate ThreadInvariant(s: State, t: Tid)
    requires t in s.pc
  {
    match s.pc[t]
    case LoadOvercommit(l) => l <= s.tail
    case LoadOptimistic(l, o) => l <= s.tail && o <= s.overcommit
    case TakeTicket(o) => o <= s.overcommit
    case ReloadTail(k, o) => k < s.optimistic && k !in s.passed + s.repaid && o <= |Below(s.repaid, k)|
    case Compare(k, o, l) =>
      k < s.optimistic && k !in s.passed + s.repaid && o <= |Below(s.repaid, k)| && l <= s.tail
    case TakeIndex(k) => k in s.passed
    case Repay(k) => k < s.optimistic && k !in s.passed + s.repaid
    case Claimed(i) => i < s.head
    case _ => true
  }

  /** Two consumers never hold the same ticket or the same index. */
  predicate Apart(p: Pc, q: Pc) {
    && (Pending(p) && Pending(q) ==> p.ticket != q.ticket)
    && (p.Claimed? && q.Claimed? ==> p.index != q.index)
  }

  ghost predicate PairInvariant(s: State) {
    forall t, u :: t in s.pc && u in s.pc && t != u ==> Apart(s.pc[t], s.pc[u])
  }

  /** No index is lost: it is unclaimed, with a consumer, or finished. */
  ghost predicate IndexInvariant(s: State, i: nat) {
    i < s.head ==> i in s.done || exists t :: t in s.pc && s.pc[t] == Claimed(i)
  }

  ghost predicate Invariant(s: State) {
    && Counters(s) && TicketSets(s) && PairInvariant(s)
    && (forall i: nat :: IndexInvariant(s, i))
    && forall t :: t in s.pc ==> ThreadInvariant(s, t)
  }

  ghost predicate Init(s: State) {
    && s.tail == s.head == s.optimistic == s.overcommit == 0
    && s.passed == {} && s.repaid == {} && s.done == {}
    && forall t :: t in s.pc ==> s.pc[t] == Idle
  }

  // ---------------------------------------------------------------- counting

  lemma {:induction false} UpTo(a: set<nat>, m: nat)
    requires forall x :: x in a ==> x < m
    ensures |a| <= m
  {
    if m == 0 {
      assert a == {};
    } else {
      UpTo(a - {m - 1}, m - 1);
      assert a <= (a - {m - 1}) + {m - 1};
      SubsetCardinality(a, (a - {m - 1}) + {m - 1});
    }
  }

  lemma {:induction false} Greatest(a: set<nat>) returns (m: nat)
    requires a != {}
    ensures m in a && forall x :: x in a ==> x <= m
    decreases |a|
  {
    var x :| x in a;
    if a == {x} { return x; }
    var y := Greatest(a - {x});
    m := if x < y then y else x;
    assert a == (a - {x}) + {x};
  }

  /** The heart of the protocol: no more tickets pass the check than elements were published. */
  lemma PassedAtMostTail(s: State)
    requires TicketSets(s)
    ensures |s.passed| <= s.tail
  {
    if s.passed != {} {
      var m := Greatest(s.passed);
      var before, repaid := s.passed - {m}, Below(s.repaid, m);
      UpTo(before + repaid, m);
      assert before !! repaid;
      assert |before + repaid| == |before| + |repaid|;
    }
  }

  lemma BelowGrows(a: set<nat>, b: set<nat>, m: nat)
    requires a <= b
    ensures |Below(a, m)| <= |Below(b, m)|
  {
    SubsetCardinality(Below(a, m), Below(b, m));
  }

  lemma FlightAfter(pc: map<Tid, Pc>, t: Tid, p: Pc)
    requires t in pc
    ensures |FlightSet(pc[t := p])|
            == |FlightSet(pc)| + (if InFlight(p) then 1 else 0) - (if InFlight(pc[t]) then 1 else 0)
  {
    var rest := FlightSet(pc) - {t};
    if InFlight(pc[t]) { assert FlightSet(pc) == rest + {t}; } else { assert FlightSet(pc) == rest; }
    if InFlight(p) { assert FlightSet(pc[t := p]) == rest + {t}; } else { assert FlightSet(pc[t := p]) == rest; }
  }

  lemma WinnersAfter(pc: map<Tid, Pc>, t: Tid, p: Pc)
    requires t in pc
    ensures |WinnerSet(pc[t := p])|
            == |WinnerSet(pc)| + (if p.TakeIndex? then 1 else 0) - (if pc[t].TakeIndex? then 1 else 0)
  {
    var rest := WinnerSet(pc) - {t};
    if pc[t].TakeIndex? { assert WinnerSet(pc) == rest + {t}; } else { assert WinnerSet(pc) == rest; }
    if p.TakeIndex? { assert WinnerSet(pc[t := p]) == rest + {t}; } else { assert WinnerSet(pc[t := p]) == rest; }
  }

  // ---------------------------------------------------------------- preservation

  lemma TicketSetsPreserved(s: State, t: Tid)
    requires TicketSets(s) && t in s.pc && ThreadInvariant(s, t)
    ensures TicketSets(ThreadStep(s, t))
  {
    var s' := ThreadStep(s, t);
    forall k | k in s'.passed ensures k - |Below(s'.repaid, k)| < s'.tail {
      BelowGrows(s.repaid, s'.repaid, k);
    }
  }

  lemma OtherThread(s: State, t: Tid, u: Tid)
    requires t in s.pc && u in s.pc && u != t && ThreadInvariant(s, t) && ThreadInvariant(s, u)
    requires Pending(s.pc[t]) && Pending(s.pc[u]) ==> s.pc[t].ticket != s.pc[u].ticket
    ensures ThreadInvariant(ThreadStep(s, t), u)
  {
    if s.pc[u].ReloadTail? || s.pc[u].Compare? {
      BelowGrows(s.repaid, ThreadStep(s, t).repaid, s.pc[u].ticket);
    }
  }

  lemma OwnThread(s: State, t: Tid)
    requires t in s.pc && ThreadInvariant(s, t) && Counters(s) && TicketSets(s)
    ensures ThreadInvariant(ThreadStep(s, t), t)
  {
    if s.pc[t].TakeTicket? {
      assert Below(s.repaid, s.optimistic) == s.repaid;
    }
  }

  lemma CountersPreserved(s: State, t: Tid)
    requires Counters(s) && TicketSets(s) && t in s.pc && ThreadInvariant(s, t)
    ensures Counters(ThreadStep(s, t))
  {
    var p := ThreadStep(s, t).pc[t];
    FlightAfter(s.pc, t, p);
    WinnersAfter(s.pc, t, p);
  }

  lemma StaysApart(s: State, t: Tid, u: Tid)
    requires t in s.pc && u in s.pc && u != t && Apart(s.pc[t], s.pc[u])
    requires ThreadInvariant(s, t) && ThreadInvariant(s, u)
    ensures Apart(ThreadStep(s, t).pc[t], s.pc[u]) && Apart(s.pc[u], ThreadStep(s, t).pc[t])
  {}

  lemma ThreadsPreserved(s: State, t: Tid, u: Tid)
    requires Invariant(s) && t in s.pc && u in s.pc
    ensures ThreadInvariant(ThreadStep(s, t), u)
  {
    assert ThreadInvariant(s, t) && ThreadInvariant(s, u);
    if u == t { OwnThread(s, t); } else {
      assert Apart(s.pc[t], s.pc[u]);
      OtherThread(s, t, u);
    }
  }

  lemma PairsPreserved(s: State, t: Tid, u: Tid, v: Tid)
    requires Invariant(s) && t in s.pc && u in s.pc && v in s.pc && u != v
    requires ThreadStep(s, t).pc.Keys == s.pc.Keys
    ensures Apart(ThreadStep(s, t).pc[u], ThreadStep(s, t).pc[v])
  {
    assert ThreadInvariant(s, t) && ThreadInvariant(s, u) && ThreadInvariant(s, v);
    assert Apart(s.pc[u], s.pc[v]);
    if u == t { StaysApart(s, t, v); }
    if v == t { assert Apart(s.pc[v], s.pc[u]); StaysApart(s, t, u); }
  }

  lemma IndexAfterStep(s: State, t: Tid, i: nat)
    requires t in s.pc && !s.pc[t].Claimed? && IndexInvariant(s, i)
    ensures IndexInvariant(ThreadStep(s, t), i)
  {
    var s' := ThreadStep(s, t);
    if i < s.head && i !in s.done {
      var u :| u in s.pc && s.pc[u] == Claimed(i);
      assert s'.pc[u] == Claimed(i);
    } else if s.head <= i < s'.head {
      assert s'.pc[t] == Claimed(i);
    }
  }

  lemma IndexAfterFinish(s: State, t: Tid, i: nat)
    requires Enabled(s, Finish(t)) && IndexInvariant(s, i)
    ensures IndexInvariant(Apply(s, Finish(t)), i)
  {
    if i < s.head && i !in s.done {
      var u :| u in s.pc && s.pc[u] == Claimed(i);
      if u != t { assert Apply(s, Finish(t)).pc[u] == Claimed(i); }
    }
  }

  lemma IndexAfterStart(s: State, t: Tid, i: nat)
    requires Enabled(s, Start(t)) && IndexInvariant(s, i)
    ensures IndexInvariant(Apply(s, Start(t)), i)
  {
    if i < s.head && i !in s.done {
      var u :| u in s.pc && s.pc[u] == Claimed(i);
      assert Apply(s, Start(t)).pc[u] == Claimed(i);
    }
  }

  lemma StepPreserved(s: State, t: Tid)
    requires Invariant(s) && t in s.pc && !s.pc[t].Claimed?
    ensures Invariant(ThreadStep(s, t))
  {
    var s' := ThreadStep(s, t);
    assert ThreadInvariant(s, t);
    CountersPreserved(s, t);
    TicketSetsPreserved(s, t);
    forall i: nat ensures IndexInvariant(s', i) {
      assert IndexInvariant(s, i);
      IndexAfterStep(s, t, i);
    }
    assert s'.pc.Keys == s.pc.Keys;
    forall u | u in s'.pc ensures ThreadInvariant(s', u) { ThreadsPreserved(s, t, u); }
    forall u, v | u in s'.pc && v in s'.pc && u != v ensures Apart(s'.pc[u], s'.pc[v]) {
      PairsPreserved(s, t, u, v);
    }
  }

  lemma Preserved(s: State, a: Action)
    requires Invariant(s) && Enabled(s, a)
    ensures Invariant(Apply(s, a))
  {
    match a
    case Step(t) => StepPreserved(s, t);
    case Publish(_) =>
      forall t | t in s.pc ensures ThreadInvariant(Apply(s, a), t) { assert ThreadInvariant(s, t); }
      forall i: nat ensures IndexInvariant(Apply(s, a), i) { assert IndexInvariant(s, i); }
    case Start(t) =>
      FlightAfter(s.pc, t, LoadTail); WinnersAfter(s.pc, t, LoadTail);
      forall i: nat ensures IndexInvariant(Apply(s, a), i) {
        assert IndexInvariant(s, i);
        IndexAfterStart(s, t, i);
      }
      forall u | u in s.pc ensures ThreadInvariant(Apply(s, a), u) { assert ThreadInvariant(s, u); }
    case Finish(t) =>
      FlightAfter(s.pc, t, Idle); WinnersAfter(s.pc, t, Idle);
      forall i: nat ensures IndexInvariant(Apply(s, a), i) {
        assert IndexInvariant(s, i);
        IndexAfterFinish(s, t, i);
      }
      forall u | u in s.pc ensures ThreadInvariant(Apply(s, a), u) { assert ThreadInvariant(s, u); }
  }

  /** The part of a consumer's step that the owner of the elements can see. */
  lemma StepEffect(s: State, t: Tid)
    requires t in s.pc && !s.pc[t].Claimed?
    ensures var s' := ThreadStep(s, t);
            && s'.pc.Keys == s.pc.Keys && s'.pc == s.pc[t := s'.pc[t]] && s'.tail == s.tail
            && s'.head == s.head + (if s'.pc[t].Claimed? then 1 else 0)
            && s'.done == s.done && (s'.pc[t].Claimed? ==> s'.pc[t].index == s.head)
  {}

  // ---------------------------------------------------------------- whole runs

  predicate Possible(s: State, run: seq<Action>)
    decreases run
  {
    run == [] || (Enabled(s, run[0]) && Possible(Apply(s, run[0]), run[1..]))
  }

  function Outcome(s: State, run: seq<Action>): State
    requires Possible(s, run)
    decreases run
  {
    if run == [] then s else Outcome(Apply(s, run[0]), run[1..])
  }

  lemma InitiallyInvariant(s: State)
    requires Init(s)
    ensures Invariant(s)
  {
    assert FlightSet(s.pc) == {} && WinnerSet(s.pc) == {};
  }

  lemma {:induction false} InvariantOnRuns(s: State, run: seq<Action>)
    requires Invariant(s) && Possible(s, run)
    ensures Invariant(Outcome(s, run))
    decreases run
  {
    if run != [] {
      Preserved(s, run[0]);
      InvariantOnRuns(Apply(s, run[0]), run[1..]);
    }
  }

  /**
    A consumer past the second check gets an index strictly below `tailIndex` that no other consumer
    has; until then, `headIndex` plus the consumers past the check never exceeds `tailIndex`.
   */
  lemma ClaimsAreSafe(s0: State, run: seq<Action>, t: Tid)
    requires Init(s0) && Possible(s0, run)
    requires var s := Outcome(s0, run); t in s.pc && s.pc[t].TakeIndex?
    ensures var s := Outcome(s0, run);
            && s.head < s.tail
            && s.head + |WinnerSet(s.pc)| <= s.tail
            && ThreadStep(s, t).pc[t] == Claimed(s.head)
            && forall u :: u in s.pc && u != t ==> s.pc[u] != Claimed(s.head)
  {
    var s := Outcome(s0, run);
    InitiallyInvariant(s0);
    InvariantOnRuns(s0, run);
    PassedAtMostTail(s);
    assert t in WinnerSet(s.pc);
    forall u | u in s.pc && u != t ensures s.pc[u] != Claimed(s.head) { assert ThreadInvariant(s, u); }
  }

  /**
    At all times every ticket is an element taken, a ticket repaid or a consumer in flight, `headIndex`
    never passes `tailIndex` (the assertion of the producer), and no two consumers own an index.
   */
  lemma TicketConservation(s0: State, run: seq<Action>)
    requires Init(s0) && Possible(s0, run)
    ensures var s := Outcome(s0, run);
            && s.optimistic == s.head + s.overcommit + |FlightSet(s.pc)|
            && s.head <= s.tail
            && forall t, u :: t in s.pc && u in s.pc && t != u && s.pc[t].Claimed? && s.pc[u].Claimed?
                 ==> s.pc[t].index != s.pc[u].index
  {
    InitiallyInvariant(s0);
    InvariantOnRuns(s0, run);
    PassedAtMostTail(Outcome(s0, run));
  }

  /** A state that some run from a beginning leads to. */
  ghost predicate Reachable(s: State) {
    exists s0: State, run: seq<Action> :: IsOutcome(s0, run, s)
  }

  ghost predicate IsOutcome(s0: State, run: seq<Action>, s: State) {
    Init(s0) && Possible(s0, run) && Outcome(s0, run) == s
  }

  lemma ReachableIsInvariant(s: State)
    requires Reachable(s)
    ensures Invariant(s)
  {
    var s0: State, run: seq<Action> :| IsOutcome(s0, run, s);
    InitiallyInvariant(s0);
    InvariantOnRuns(s0, run);
  }

  lemma ReachableGoesOn(s: State, a: Action)
    requires Reachable(s) && Enabled(s, a)
    ensures Reachable(Apply(s, a))
  {
    var s0: State, run: seq<Action> :| IsOutcome(s0, run, s);
    var longer := Extend(s0, run, a);
    assert IsOutcome(s0, longer, Apply(s, a));
  }

  // ---------------------------------------------------------------- when a dequeue fails

  /** No ticket is in flight. */
  ghost predicate Quiescent(s: State) {
    forall t :: t in s.pc ==> !InFlight(s.pc[t])
  }

  function Steps(t: Tid, k: nat): seq<Action> {
    if k == 0 then [] else [Step(t)] + Steps(t, k - 1)
  }

  /** The first check, made at one moment, refuses exactly when every unclaimed element has a ticket in flight. */
  lemma RefusalIsExact(s: State)
    requires Invariant(s)
    ensures s.head <= s.tail
    ensures s.optimistic - s.overcommit >= s.tail <==> s.tail - s.head <= |FlightSet(s.pc)|
    ensures Quiescent(s) ==> FlightSet(s.pc) == {}
  {
    PassedAtMostTail(s);
  }

  /**
    A consumer running alone returns false exactly when there are no more unclaimed elements than tickets
    in flight, and otherwise claims the oldest element. Without tickets in flight that is: exactly on an
    empty sub-queue.
   */
  lemma LoneDequeue(s0: State, run: seq<Action>, t: Tid)
    requires Init(s0) && Possible(s0, run)
    requires var s := Outcome(s0, run); t in s.pc && s.pc[t].Idle?
    ensures var s := Outcome(s0, run);
            if s.tail - s.head <= |FlightSet(s.pc)| then
              Possible(s, [Start(t)] + Steps(t, 3)) && Outcome(s, [Start(t)] + Steps(t, 3)) == s
            else
              && Possible(s, [Start(t)] + Steps(t, 7))
              && Outcome(s, [Start(t)] + Steps(t, 7)).pc == s.pc[t := Claimed(s.head)]
              && Outcome(s, [Start(t)] + Steps(t, 7)).head == s.head + 1
              && Outcome(s, [Start(t)] + Steps(t, 7)).tail == s.tail
    ensures var s := Outcome(s0, run);
            Quiescent(s) ==> (s.tail - s.head <= |FlightSet(s.pc)| <==> s.head == s.tail)
  {
    var s := Outcome(s0, run);
    InitiallyInvariant(s0);
    InvariantOnRuns(s0, run);
    RefusalIsExact(s);
    if s.tail - s.head <= |FlightSet(s.pc)| {
      LoneFailure(s, t);
    } else {
      LoneSuccess(s, t);
    }
  }

  /** The next step of `t` is to refuse, in the first check or in the second. */
  predicate Refusing(s: State, t: Tid) {
    && t in s.pc
    && match s.pc[t]
       case LoadOptimistic(l, o) => s.optimistic - o >= l
       case Compare(k, o, l) => k - o >= l
       case _ => false
  }

  /** How many tickets had been taken when `t` looked: all, or all before its own. */
  function Looked(s: State, t: Tid): nat
    requires Refusing(s, t)
  {
    if s.pc[t].Compare? then s.pc[t].ticket else s.optimistic
  }

  /** What `t` has loaded since state `s`, in which it was about to load the tail. */
  predicate Since(s: State, s': State, t: Tid) {
    && t in s'.pc && s.tail <= s'.tail && s.overcommit <= s'.overcommit && s.optimistic <= s'.optimistic
    && match s'.pc[t]
       case LoadTail => true
       case LoadOvercommit(l) => s.tail <= l
       case LoadOptimistic(l, o) => s.tail <= l && s.overcommit <= o
       case TakeTicket(o) => s.overcommit <= o
       case ReloadTail(k, o) => s.overcommit <= o && s.optimistic <= k < s'.optimistic
       case Compare(k, o, l) => s.tail <= l && s.overcommit <= o && s.optimistic <= k < s'.optimistic
       case _ => true
  }

  lemma SinceStep(s: State, s': State, t: Tid, a: Action)
    requires Since(s, s', t) && Enabled(s', a) && a != Start(t)
    ensures Since(s, Apply(s', a), t)
  {}

  lemma {:induction false} SinceOnRuns(s: State, s': State, t: Tid, run: seq<Action>)
    requires Since(s, s', t) && Possible(s', run) && Start(t) !in run
    ensures Since(s, Outcome(s', run), t)
    decreases run
  {
    if run != [] {
      assert run[0] in run;
      SinceStep(s, s', t, run[0]);
      SinceOnRuns(s, Apply(s', run[0]), t, run[1..]);
    }
  }

  /**
    Whatever the others do in between, a `dequeue` refuses only when all the elements that were unclaimed
    as it began are matched by tickets that others had in flight then, or took until it looked.
   */
  lemma RefusedMeansMatched(s0: State, run: seq<Action>, call: seq<Action>, t: Tid)
    requires Init(s0) && Possible(s0, run) && Possible(Outcome(s0, run), call) && Start(t) !in call
    requires t in Outcome(s0, run).pc && Outcome(s0, run).pc[t].LoadTail?
    requires Refusing(Outcome(Outcome(s0, run), call), t)
    ensures var s := Outcome(s0, run);
            s.tail - s.head <= |FlightSet(s.pc)| + Looked(Outcome(s, call), t) - s.optimistic
  {
    var s := Outcome(s0, run);
    InitiallyInvariant(s0);
    InvariantOnRuns(s0, run);
    SinceOnRuns(s, s, t, call);
  }

  lemma OnlyOneTakesTickets(s: State, t: Tid, run: seq<Action>)
    requires Possible(s, run) && s.pc.Keys == {t}
    ensures Outcome(s, run).pc.Keys == {t}
    ensures Start(t) !in run && s.pc[t].LoadTail? && Refusing(Outcome(s, run), t) ==>
              Looked(Outcome(s, run), t) == s.optimistic
  {
    if Start(t) !in run { TakesOne(s, s.optimistic, t, run); } else { KeysStay(s, run); }
  }

  lemma {:induction false} KeysStay(s: State, run: seq<Action>)
    requires Possible(s, run)
    ensures Outcome(s, run).pc.Keys == s.pc.Keys
    decreases run
  {
    if run != [] {
      assert Apply(s, run[0]).pc.Keys == s.pc.Keys;
      KeysStay(Apply(s, run[0]), run[1..]);
    }
  }

  /** In one call a consumer takes at most one ticket, and this is the next one when there is no other consumer. */
  predicate NextTicket(s: State, n: nat, t: Tid) {
    && s.pc.Keys == {t}
    && match s.pc[t]
       case LoadTail => s.optimistic == n
       case LoadOvercommit(_) => s.optimistic == n
       case LoadOptimistic(_, _) => s.optimistic == n
       case TakeTicket(_) => s.optimistic == n
       case ReloadTail(k, _) => k == n
       case Compare(k, _, _) => k == n
       case _ => true
  }

  lemma {:induction false} TakesOne(s: State, n: nat, t: Tid, run: seq<Action>)
    requires Possible(s, run) && Start(t) !in run && s.pc.Keys == {t}
    ensures Outcome(s, run).pc.Keys == {t}
    ensures NextTicket(s, n, t) ==> NextTicket(Outcome(s, run), n, t)
    decreases run
  {
    if run != [] {
      var s1 := Apply(s, run[0]);
      assert run[0] in run && s1.pc.Keys == {t};
      TakesOne(s1, n, t, run[1..]);
    }
  }

  /** With one consumer, as the manager is one, a `dequeue` refuses only if the sub-queue was empty as it began. */
  lemma OneConsumerMissesNothing(s0: State, run: seq<Action>, call: seq<Action>, t: Tid)
    requires Init(s0) && s0.pc.Keys == {t} && Possible(s0, run) && Possible(Outcome(s0, run), call) && Start(t) !in call
    requires t in Outcome(s0, run).pc && Outcome(s0, run).pc[t].LoadTail?
    requires Refusing(Outcome(Outcome(s0, run), call), t)
    ensures Outcome(s0, run).head == Outcome(s0, run).tail
  {
    var s := Outcome(s0, run);
    KeysStay(s0, run);
    RefusedMeansMatched(s0, run, call, t);
    OnlyOneTakesTickets(s, t, call);
    TicketConservation(s0, run);
    assert FlightSet(s.pc) == {};
  }

  /** In `call`, which begins after `run`, consumer `t` is about to refuse although there was an unclaimed element. */
  ghost predicate Misses(s0: State, run: seq<Action>, call: seq<Action>, t: Tid) {
    && Possible(s0, run) && Possible(Outcome(s0, run), call) && Start(t) !in call
    && var s := Outcome(s0, run);
       && t in s.pc && s.pc[t].LoadTail? && s.head < s.tail
       && Refusing(Outcome(s, call), t)
  }

  /** A `dequeue` can miss an element in some run exactly when there are two consumers or more. */
  lemma MissesNeedTwo(s0: State)
    requires Init(s0)
    ensures (exists run, call, t :: Misses(s0, run, call, t)) <==> |s0.pc| >= 2
  {
    if |s0.pc| >= 2 {
      var a :| a in s0.pc;
      assert |s0.pc.Keys - {a}| == |s0.pc| - 1;
      var b :| b in s0.pc.Keys - {a};
      var run := AnElementMayBeMissed(s0, a, b);
      var s := Outcome(s0, run);
      var longer := Extend(s0, run, Start(a));
      var s1 := Outcome(s0, longer);
      var call := Extend(s1, [], Step(a));
      call := Extend(s1, call, Step(a));
      assert Misses(s0, longer, call, a);
    } else if exists run, call, t :: Misses(s0, run, call, t) {
      var run, call, t :| Misses(s0, run, call, t);
      KeysStay(s0, run);
      assert s0.pc.Keys == {t} by {
        assert s0.pc.Keys - {t} == {} by { assert |s0.pc.Keys - {t}| == |s0.pc.Keys| - 1; }
      }
      OneConsumerMissesNothing(s0, run, call, t);
      assert false;
    }
  }

  /**
    With two consumers an element may be missed: `a` has taken element 0, `b` holds a ticket that it has not
    repaid yet, and when `a` comes again it is refused, although nobody has claimed element 1.
   */
  lemma AnElementMayBeMissed(s0: State, a: Tid, b: Tid) returns (run: seq<Action>)
    requires Init(s0) && a in s0.pc && b in s0.pc && a != b
    ensures Possible(s0, run)
    ensures var s := Outcome(s0, run);
            && s.head == 1 && s.tail == 2 && s.optimistic == 2 && s.overcommit == 0 && s.pc == s0.pc[b := Repay(1)]
            && Possible(s, [Start(a)] + Steps(a, 3)) && Outcome(s, [Start(a)] + Steps(a, 3)) == s
  {
    run := BothPassFirstCheck(s0, a, b);
    run := Extend(s0, run, Step(a));
    run := Extend(s0, run, Step(b));
    run := SecondTicketFails(s0, run, b);
    run := FirstTicketWins(s0, run, a);
    run := Extend(s0, run, Publish(1));
    var s := Outcome(s0, run);
    assert s.pc == s0.pc[b := Repay(1)];
    LoneFailure(s, a);
  }

  lemma {:induction false} Extend(s0: State, run: seq<Action>, a: Action) returns (longer: seq<Action>)
    requires Possible(s0, run) && Enabled(Outcome(s0, run), a)
    ensures longer == run + [a] && Possible(s0, longer) && Outcome(s0, longer) == Apply(Outcome(s0, run), a)
    decreases run
  {
    longer := run + [a];
    if run == [] {
      assert longer[1..] == [];
    } else {
      var rest := Extend(Apply(s0, run[0]), run[1..], a);
      assert longer[1..] == rest;
    }
  }

  lemma PassFirstCheck(s0: State, run: seq<Action>, t: Tid) returns (longer: seq<Action>)
    requires Possible(s0, run)
    requires var s := Outcome(s0, run); t in s.pc && s.pc[t].Idle? && s.optimistic - s.overcommit < s.tail
    ensures Possible(s0, longer)
    ensures var s := Outcome(s0, run); Outcome(s0, longer) == s.(pc := s.pc[t := TakeTicket(s.overcommit)])
  {
    var s := Outcome(s0, run);
    longer := Extend(s0, run, Start(t));
    longer := Extend(s0, longer, Step(t));
    longer := Extend(s0, longer, Step(t));
    longer := Extend(s0, longer, Step(t));
    assert Outcome(s0, longer).pc == s.pc[t := TakeTicket(s.overcommit)];
  }

  lemma BothPassFirstCheck(s0: State, a: Tid, b: Tid) returns (run: seq<Action>)
    requires Init(s0) && a in s0.pc && b in s0.pc && a != b
    ensures Possible(s0, run)
    ensures Outcome(s0, run) == s0.(tail := 1, pc := s0.pc[a := TakeTicket(0)][b := TakeTicket(0)])
  {
    run := Extend(s0, [], Publish(1));
    run := PassFirstCheck(s0, run, a);
    run := PassFirstCheck(s0, run, b);
  }

  lemma SecondTicketFails(s0: State, run: seq<Action>, b: Tid) returns (longer: seq<Action>)
    requires Possible(s0, run)
    requires var s := Outcome(s0, run); b in s.pc && s.pc[b] == ReloadTail(1, 0) && s.tail == 1
    ensures Possible(s0, longer)
    ensures var s := Outcome(s0, run); Outcome(s0, longer) == s.(pc := s.pc[b := Repay(1)])
  {
    longer := Extend(s0, run, Step(b));
    longer := Extend(s0, longer, Step(b));
    assert Outcome(s0, longer).pc == Outcome(s0, run).pc[b := Repay(1)];
  }

  lemma FirstTicketWins(s0: State, run: seq<Action>, a: Tid) returns (longer: seq<Action>)
    requires Possible(s0, run)
    requires var s := Outcome(s0, run); a in s.pc && s.pc[a] == ReloadTail(0, 0) && s.tail == 1 && s.head == 0
    ensures Possible(s0, longer)
    ensures var s, s' := Outcome(s0, run), Outcome(s0, longer);
            && s'.pc == s.pc[a := Idle] && s'.head == 1 && s'.tail == 1
            && s'.optimistic == s.optimistic && s'.overcommit == s.overcommit
  {
    longer := Extend(s0, run, Step(a));
    longer := Extend(s0, longer, Step(a));
    longer := Extend(s0, longer, Step(a));
    longer := Extend(s0, longer, Finish(a));
    assert Outcome(s0, longer).pc == Outcome(s0, run).pc[a := Idle];
  }

  lemma RunStep(s: State, t: Tid, k: nat)
    requires t in s.pc && !s.pc[t].Idle? && !s.pc[t].Claimed?
    ensures Possible(s, Steps(t, k + 1)) <==> Possible(ThreadStep(s, t), Steps(t, k))
    ensures Possible(s, Steps(t, k + 1)) ==> Outcome(s, Steps(t, k + 1)) == Outcome(ThreadStep(s, t), Steps(t, k))
  {
    assert Steps(t, k + 1)[0] == Step(t) && Steps(t, k + 1)[1..] == Steps(t, k);
  }

  lemma LoneFailure(s: State, t: Tid)
    requires t in s.pc && s.pc[t].Idle? && s.optimistic - s.overcommit >= s.tail
    ensures Possible(s, [Start(t)] + Steps(t, 3)) && Outcome(s, [Start(t)] + Steps(t, 3)) == s
  {
    var s1 := Apply(s, Start(t));
    var s2 := ThreadStep(s1, t);
    var s3 := ThreadStep(s2, t);
    var s4 := ThreadStep(s3, t);
    RunStep(s1, t, 2); RunStep(s2, t, 1); RunStep(s3, t, 0);
    assert s4.pc == s.pc;
    assert ([Start(t)] + Steps(t, 3))[1..] == Steps(t, 3);
  }

  lemma LoneSuccess(s: State, t: Tid)
    requires t in s.pc && s.pc[t].Idle? && s.overcommit <= s.optimistic && s.optimistic - s.overcommit < s.tail
    ensures Possible(s, [Start(t)] + Steps(t, 7))
    ensures var s' := Outcome(s, [Start(t)] + Steps(t, 7));
            s'.pc == s.pc[t := Claimed(s.head)] && s'.head == s.head + 1 && s'.tail == s.tail
  {
    var s1 := Apply(s, Start(t));
    var s2 := ThreadStep(s1, t);
    var s3 := ThreadStep(s2, t);
    var s4 := ThreadStep(s3, t);
    var s5 := ThreadStep(s4, t);
    var s6 := ThreadStep(s5, t);
    var s7 := ThreadStep(s6, t);
    RunStep(s1, t, 6); RunStep(s2, t, 5); RunStep(s3, t, 4); RunStep(s4, t, 3);
    RunStep(s5, t, 2); RunStep(s6, t, 1); RunStep(s7, t, 0);
    assert ([Start(t)] + Steps(t, 7))[1..] == Steps(t, 7);
  }
}
