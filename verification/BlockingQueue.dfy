/**
  The blocking queue: a non-blocking inner queue, and the semaphore that counts what may be taken from
  it. Producers put items in and then signal; consumers acquire permits and then take items, trying
  again as long as the inner queue turns them away.

  Steps of the inner queue are taken as one here, and `wait_dequeue`, which calls `wait` again when it
  fails, is a thread that goes back to `Out` and calls it again.
 */
module BlockingQueue {
  import opened Common
  import S = Semaphore

  type Tid = S.Tid

  datatype Stage =
    | Out
    | Unsignalled(n: nat)    // enqueue has published n items, signal has not been called
    | Signalling
    | Waiting                // inside wait, waitMany, tryWait or tryWaitMany
    | Redeeming(left: nat)   // permits granted, items still to be taken

  /** `enqueued` and `dequeued` record history. */
  datatype State = State(sem: S.State, items: nat, stage: map<Tid, Stage>, enqueued: nat, dequeued: nat)

  datatype Action =
    | Enqueue(t: Tid, n: nat, ok: bool)
    | CallSignal(t: Tid)
    | CallTry(t: Tid, max: nat)
    | CallWait(t: Tid, max: nat, timeout: S.Timeout)
    | SemaphoreStep(t: Tid, luck: bool)
    | Return(t: Tid)
    | Redeem(t: Tid, k: nat)   // the inner queue gives k of the items asked for, possibly none

  predicate Enabled(s: State, a: Action) {
    && a.t in s.stage && a.t in s.sem.pc
    && var stage, p := s.stage[a.t], s.sem.pc[a.t];
       match a
       case Enqueue(_, _, _) => stage.Out?
       case CallSignal(t) => stage.Unsignalled? && S.Enabled(s.sem, S.StartSignal(t, stage.n))
       case CallTry(t, max) => stage.Out? && S.Enabled(s.sem, S.StartTry(t, max))
       case CallWait(t, max, timeout) => stage.Out? && S.Enabled(s.sem, S.StartWait(t, max, timeout))
       case SemaphoreStep(t, luck) => (stage.Signalling? || stage.Waiting?) && S.Enabled(s.sem, S.Step(t, luck))
       case Return(t) => (stage.Signalling? && p.Idle?) || (stage.Waiting? && p.Returned?)
       case Redeem(_, k) => stage.Redeeming? && k <= stage.left && k <= s.items
  }

  function Apply(s: State, a: Action): State
    requires Enabled(s, a)
  {
    match a
    case Enqueue(t, n, ok) =>
      if ok then Goto(s, t, Unsignalled(n)).(items := s.items + n, enqueued := s.enqueued + n) else s
    case CallSignal(t) => Goto(s, t, Signalling).(sem := S.Apply(s.sem, S.StartSignal(t, s.stage[t].n)))
    case CallTry(t, max) => Goto(s, t, Waiting).(sem := S.Apply(s.sem, S.StartTry(t, max)))
    case CallWait(t, max, timeout) => Goto(s, t, Waiting).(sem := S.Apply(s.sem, S.StartWait(t, max, timeout)))
    case SemaphoreStep(t, luck) => s.(sem := S.Apply(s.sem, S.Step(t, luck)))
    case Return(t) =>
      if s.stage[t].Signalling? then Goto(s, t, Out)
      else Goto(s, t, Start(s.sem.pc[t].got)).(sem := S.Apply(s.sem, S.Leave(t)))
    case Redeem(t, k) => Goto(s, t, Start(s.stage[t].left - k)).(items := s.items - k, dequeued := s.dequeued + k)
  }

  function Goto(s: State, t: Tid, stage: Stage): State {
    s.(stage := s.stage[t := stage])
  }

  /** With `n` items to take. */
  function Start(n: nat): Stage {
    if n > 0 then Redeeming(n) else Out
  }

  // ---------------------------------------------------------------- the account

  function ToSignal(stage: Stage): nat {
    if stage.Unsignalled? then stage.n else 0
  }

  function ToTake(stage: Stage): nat {
    if stage.Redeeming? then stage.left else 0
  }

  /** Permits that may still be acquired: in the counter, posted, or about to be posted. */
  ghost function Available(s: State): nat {
    S.Positive(s.sem.count) + s.sem.tokens + S.OwedPosts(s.sem)
  }

  /** Permits that consumers have been granted and have not redeemed yet. */
  ghost function GrantedNotRedeemed(s: State): nat {
    Sum(s.sem.pc, S.Held) + Sum(s.stage, ToTake)
  }

  /** Items in the inner queue for which the counter has not been raised yet. */
  ghost function EnqueuedNotSignalled(s: State): nat {
    Sum(s.stage, ToSignal) + Sum(s.sem.pc, S.ToAdd)
  }

  predicate Fits(stage: Stage, p: S.Pc) {
    match stage
    case Signalling => p.Idle? || p.SignalAdd? || p.SignalPost?
    case Waiting => !p.Idle? && !p.SignalAdd? && !p.SignalPost?
    case _ => p.Idle?
  }

  ghost predicate Invariant(s: State) {
    && S.Invariant(s.sem) && s.sem.initial == 0
    && s.stage.Keys == s.sem.pc.Keys
    && (forall t :: t in s.stage ==> Fits(s.stage[t], s.sem.pc[t]))
    && Accounts(s)
  }

  ghost predicate Accounts(s: State) {
    && s.enqueued == s.items + s.dequeued
    && s.enqueued == s.sem.signalled + EnqueuedNotSignalled(s)
    && s.sem.taken == s.dequeued + Sum(s.stage, ToTake)
  }

  ghost predicate Init(s: State) {
    && S.Init(s.sem) && s.sem.initial == 0 && s.stage.Keys == s.sem.pc.Keys
    && (forall t :: t in s.stage ==> s.stage[t] == Out)
    && s.items == 0 && s.enqueued == 0 && s.dequeued == 0
  }

  lemma InitIsFine(s: State)
    requires Init(s)
    ensures Invariant(s)
  {
    S.InitIsFine(s.sem);
    SumIsZero(s.stage, ToSignal);
    SumIsZero(s.stage, ToTake);
    SumIsZero(s.sem.pc, S.ToAdd);
  }

  lemma StageSums(s: State, t: Tid, stage: Stage)
    requires t in s.stage
    ensures Sum(s.stage[t := stage], ToSignal) == Sum(s.stage, ToSignal) + ToSignal(stage) - ToSignal(s.stage[t])
    ensures Sum(s.stage[t := stage], ToTake) == Sum(s.stage, ToTake) + ToTake(stage) - ToTake(s.stage[t])
  {
    SumAfter(s.stage, t, stage, ToSignal);
    SumAfter(s.stage, t, stage, ToTake);
  }

  /** What the semaphore's steps do to the numbers the queue keeps. */
  lemma SemaphoreAfter(s: S.State, a: S.Action)
    requires S.Enabled(s, a)
    ensures var s' := S.Apply(s, a);
            && s'.initial == s.initial && a.t in s'.pc && s'.pc == s.pc[a.t := s'.pc[a.t]]
            && s'.taken == s.taken + (if a.Leave? then s.pc[a.t].got else 0)
            && s'.signalled + Sum(s'.pc, S.ToAdd)
               == s.signalled + Sum(s.pc, S.ToAdd) + (if a.StartSignal? then a.n else 0)
  {
    var s' := S.Apply(s, a);
    if a.Step? { S.OnlyAddSignals(s, s.pc[a.t], a.luck); }
    assert s'.pc == s.pc[a.t := s'.pc[a.t]];
    SumAfter(s.pc, a.t, s'.pc[a.t], S.ToAdd);
  }

  /** The action on the semaphore, if there is one. */
  function Inner(s: State, a: Action): Option<S.Action>
    requires Enabled(s, a)
  {
    match a
    case CallSignal(t) => Some(S.StartSignal(t, s.stage[t].n))
    case CallTry(t, max) => Some(S.StartTry(t, max))
    case CallWait(t, max, timeout) => Some(S.StartWait(t, max, timeout))
    case SemaphoreStep(t, luck) => Some(S.Step(t, luck))
    case Return(t) => if s.stage[t].Waiting? then Some(S.Leave(t)) else None
    case _ => None
  }

  lemma ThreadsFit(s: State, a: Action)
    requires Enabled(s, a) && Fits(s.stage[a.t], s.sem.pc[a.t])
    ensures var s' := Apply(s, a); a.t in s'.stage && a.t in s'.sem.pc && Fits(s'.stage[a.t], s'.sem.pc[a.t])
  {}

  lemma OneThreadMoves(s: State, a: Action)
    requires Enabled(s, a)
    ensures var s' := Apply(s, a);
            && a.t in s'.stage && s'.stage == s.stage[a.t := s'.stage[a.t]]
            && s'.sem == match Inner(s, a) case Some(b) => S.Apply(s.sem, b) case None => s.sem
  {}

  lemma SemaphorePreserved(s: State, a: Action)
    requires S.Invariant(s.sem) && Enabled(s, a)
    ensures S.Invariant(Apply(s, a).sem) && Apply(s, a).sem.initial == s.sem.initial
    ensures a.t in Apply(s, a).sem.pc && Apply(s, a).sem.pc == s.sem.pc[a.t := Apply(s, a).sem.pc[a.t]]
  {
    OneThreadMoves(s, a);
    match Inner(s, a) {
      case Some(b) =>
        S.Preserved(s.sem, b);
        SemaphoreAfter(s.sem, b);
      case None =>
    }
  }

  lemma AccountsPreserved(s: State, a: Action)
    requires Accounts(s) && Enabled(s, a)
    ensures Accounts(Apply(s, a))
  {
    OneThreadMoves(s, a);
    if Inner(s, a).Some? {
      SemaphoreAfter(s.sem, Inner(s, a).value);
    }
    StageSums(s, a.t, Apply(s, a).stage[a.t]);
  }

  lemma OthersFit(s: State, a: Action)
    requires Enabled(s, a) && s.stage.Keys == s.sem.pc.Keys
    requires forall t :: t in s.stage ==> Fits(s.stage[t], s.sem.pc[t])
    requires a.t in Apply(s, a).sem.pc && Apply(s, a).sem.pc == s.sem.pc[a.t := Apply(s, a).sem.pc[a.t]]
    ensures var s' := Apply(s, a);
            s'.stage.Keys == s'.sem.pc.Keys && forall t :: t in s'.stage ==> Fits(s'.stage[t], s'.sem.pc[t])
  {
    ThreadsFit(s, a);
    OneThreadMoves(s, a);
  }

  lemma Preserved(s: State, a: Action)
    requires Invariant(s) && Enabled(s, a)
    ensures Invariant(Apply(s, a))
  {
    AccountsPreserved(s, a);
    SemaphorePreserved(s, a);
    OthersFit(s, a);
  }

  // ---------------------------------------------------------------- runs and promises

  predicate Possible(s: State, run: seq<Action>)
    decreases run
  {
    run == [] || (Enabled(s, run[0]) && Possible(Apply(s, run[0]), run[1..]))
  }

  function Outcome(s: State, run: seq<Action>): State
    requires Possible(s, run)
    decreases run
  {
    if run == [] then s else Outcome(Apply(s, run[0]), run[1..])
  }

  lemma {:induction false} InvariantOnRuns(s: State, run: seq<Action>)
    requires Invariant(s) && Possible(s, run)
    ensures Invariant(Outcome(s, run))
    decreases run
  {
    if run != [] {
      Preserved(s, run[0]);
      InvariantOnRuns(Apply(s, run[0]), run[1..]);
    }
  }

  /** In every reachable state the items in the inner queue are exactly accounted for. */
  lemma ItemsAreAccountedFor(s: State, run: seq<Action>)
    requires Init(s) && Possible(s, run)
    ensures var e := Outcome(s, run); e.items == Available(e) + GrantedNotRedeemed(e) + EnqueuedNotSignalled(e)
  {
    InitIsFine(s);
    InvariantOnRuns(s, run);
  }

  /** A consumer in the retry loop has items owed to it, whatever the other consumers are owed. */
  lemma RetryLoopHasItems(s: State, run: seq<Action>, t: Tid)
    requires Init(s) && Possible(s, run) && t in Outcome(s, run).stage && Outcome(s, run).stage[t].Redeeming?
    ensures var e := Outcome(s, run); e.items >= Sum(e.stage, ToTake) >= e.stage[t].left
  {
    ItemsAreAccountedFor(s, run);
    SumAtLeast(Outcome(s, run).stage, t, ToTake);
  }

  /** A consumer sleeps with no wake-up under way only while every signalled item is another consumer's. */
  lemma SleepersMissNothing(s: State, run: seq<Action>, t: Tid)
    requires Init(s) && Possible(s, run) && t in Outcome(s, run).sem.pc && S.Slow(Outcome(s, run).sem.pc[t]) == 1
    requires Outcome(s, run).sem.tokens + S.OwedPosts(Outcome(s, run).sem) == 0
    ensures var e := Outcome(s, run); e.items == GrantedNotRedeemed(e) + EnqueuedNotSignalled(e)
  {
    InitIsFine(s);
    InvariantOnRuns(s, run);
    SumAtLeast(Outcome(s, run).sem.pc, t, S.Slow);
  }

  /** With no call in progress the counter is the number of items. */
  lemma CounterIsItemsAtRest(s: State, run: seq<Action>)
    requires Init(s) && Possible(s, run)
    requires forall t :: t in Outcome(s, run).stage ==> Outcome(s, run).stage[t].Out?
    ensures Outcome(s, run).sem.count == Outcome(s, run).items
  {
    InitIsFine(s);
    InvariantOnRuns(s, run);
    var e := Outcome(s, run);
    forall t | t in e.sem.pc ensures e.sem.pc[t].Idle? {
      assert t in e.stage && Fits(e.stage[t], e.sem.pc[t]);
    }
    SumIsZero(e.sem.pc, S.Slow);
    SumIsZero(e.sem.pc, S.Owed);
    SumIsZero(e.sem.pc, S.Held);
    SumIsZero(e.sem.pc, S.ToAdd);
    SumIsZero(e.stage, ToSignal);
    SumIsZero(e.stage, ToTake);
  }

  // ---------------------------------------------------------------- try_dequeue

  /** No permit was available before one of the actions, or after the last. */
  predicate SawNone(s: State, call: seq<Action>)
    requires Possible(s, call)
    decreases call
  {
    s.sem.count <= 0 || (call != [] && SawNone(Apply(s, call[0]), call[1..]))
  }

  lemma {:induction false} RefusalMeansNone(s: State, call: seq<Action>, t: Tid, seen: bool)
    requires Invariant(s) && Possible(s, call) && t in s.stage && s.stage[t].Waiting?
    requires S.RefusesOnly(s.sem.pc[t], seen)
    requires forall a :: a in call && a.t == t ==> a.SemaphoreStep?
    requires var e := Outcome(s, call); t in e.sem.pc && e.sem.pc[t].Returned? && e.sem.pc[t].got == 0
    ensures seen || SawNone(s, call)
    decreases call
  {
    if call != [] {
      var a := call[0];
      assert a in call;
      assert S.ThreadInvariant(s.sem.pc[t]);
      Preserved(s, a);
      OneThreadMoves(s, a);
      if a.t == t {
        S.RefusesOnlyAfter(s.sem, s.sem.pc[t], a.luck, seen);
        RefusalMeansNone(Apply(s, a), call[1..], t, seen || s.sem.count <= 0);
      } else {
        SemaphorePreserved(s, a);
        RefusalMeansNone(Apply(s, a), call[1..], t, seen);
      }
    }
  }

  /**
    Whatever the others do meanwhile, `try_dequeue`, or `wait_dequeue` with a timeout, is refused only if at
    some time during the call the semaphore had no permit to give.
   */
  lemma RefusedMeansNone(s0: State, run: seq<Action>, call: seq<Action>, t: Tid)
    requires Init(s0) && Possible(s0, run) && Possible(Outcome(s0, run), call)
    requires var s := Outcome(s0, run);
             && t in s.stage && t in s.sem.pc && s.stage[t].Waiting? && s.sem.pc[t].TryLoad?
             && !s.sem.pc[t].goal.OneMore? && s.sem.pc[t].max > 0
    requires forall a :: a in call && a.t == t ==> a.SemaphoreStep?
    requires var e := Outcome(Outcome(s0, run), call); t in e.sem.pc && e.sem.pc[t].Returned? && e.sem.pc[t].got == 0
    ensures SawNone(Outcome(s0, run), call)
  {
    InitIsFine(s0);
    InvariantOnRuns(s0, run);
    RefusalMeansNone(Outcome(s0, run), call, t, false);
  }

  /** A `try_dequeue` that runs alone, up to the permits that it gets. */
  function TryAlone(t: Tid, max: nat, count: int): seq<Action> {
    [CallTry(t, max), SemaphoreStep(t, true)] + (if count > 0 then [SemaphoreStep(t, true)] else []) + [Return(t)]
  }

  lemma TryRunsAlone(s: State, t: Tid, max: nat)
    requires t in s.stage && t in s.sem.pc && s.stage[t].Out? && s.sem.pc[t].Idle?
    ensures var run := TryAlone(t, max, s.sem.count); var g := S.Least(s.sem.count, max);
            && Possible(s, run)
            && Outcome(s, run) == s.(stage := s.stage[t := Start(g)],
                                     sem := s.sem.(count := s.sem.count - g, taken := s.sem.taken + g))
  {
    var run := TryAlone(t, max, s.sem.count);
    var g := S.Least(s.sem.count, max);
    var s1 := Apply(s, run[0]);
    var s2 := Apply(s1, run[1]);
    if s.sem.count > 0 {
      assert run == [CallTry(t, max), SemaphoreStep(t, true), SemaphoreStep(t, true), Return(t)];
      var s3 := Apply(s2, run[2]);
      assert s3.sem.pc[t] == S.Returned(max, g);
      Four(s, run, s1, s2, s3);
    } else {
      assert run == [CallTry(t, max), SemaphoreStep(t, true), Return(t)];
      assert s2.sem.pc[t] == S.Returned(max, 0);
      Three(s, run, s1, s2);
    }
    assert s.sem.pc[t := S.Idle] == s.sem.pc;
  }

  lemma Three(s: State, run: seq<Action>, s1: State, s2: State)
    requires |run| == 3 && Enabled(s, run[0]) && s1 == Apply(s, run[0])
    requires Enabled(s1, run[1]) && s2 == Apply(s1, run[1])
    requires Enabled(s2, run[2])
    ensures Possible(s, run) && Outcome(s, run) == Apply(s2, run[2])
  {
    var r1, r2 := run[1..], run[1..][1..];
    assert r2 == [run[2]] && r2[1..] == [] && r1[0] == run[1];
    assert Possible(s2, r2) && Outcome(s2, r2) == Apply(s2, run[2]);
    assert Possible(s1, r1) && Outcome(s1, r1) == Outcome(s2, r2);
  }

  lemma Four(s: State, run: seq<Action>, s1: State, s2: State, s3: State)
    requires |run| == 4 && Enabled(s, run[0]) && s1 == Apply(s, run[0])
    requires Enabled(s1, run[1]) && s2 == Apply(s1, run[1])
    requires Enabled(s2, run[2]) && s3 == Apply(s2, run[2]) && Enabled(s3, run[3])
    ensures Possible(s, run) && Outcome(s, run) == Apply(s3, run[3])
  {
    Three(s1, run[1..], s2, s3);
  }

  /**
    With no other call in progress, a `try_dequeue` for up to `max` items that runs alone gets a permit for as
    many as there are, and may take all of them; it is refused exactly when the queue is empty.
   */
  lemma LoneTryDequeue(s0: State, run: seq<Action>, t: Tid, max: nat)
    requires Init(s0) && Possible(s0, run) && t in Outcome(s0, run).stage
    requires forall u :: u in Outcome(s0, run).stage ==> Outcome(s0, run).stage[u].Out?
    ensures var s := Outcome(s0, run); var g := S.Least(s.items, max);
            var call := TryAlone(t, max, s.sem.count);
            && Possible(s, call) && Outcome(s, call).stage == s.stage[t := Start(g)]
            && Outcome(s, call).items == s.items && g <= s.items
            && (max > 0 ==> (g == 0 <==> s.items == 0))
            && (g > 0 ==> Enabled(Outcome(s, call), Redeem(t, g)))
  {
    InitIsFine(s0);
    InvariantOnRuns(s0, run);
    CounterIsItemsAtRest(s0, run);
    TryRunsAlone(Outcome(s0, run), t, max);
  }
}
