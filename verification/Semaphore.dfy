/**
  The lightweight semaphore, as a step system: an atomic counter in front of a kernel semaphore.

  Any number of threads wait and signal. A negative counter says how many slow waiters nobody has
  signalled yet; a waiter that gives up takes its decrement back, unless it has been signalled in the
  meantime, and then it must take the permit.
 */
module Semaphore {
  import opened Common

  type Tid = nat

  datatype Timeout = Forever | Zero | Bounded

  /** What to do with the result of `tryWaitMany`. */
  datatype Goal =
    | JustTry                  // return it
    | ThenWait(timeout: Timeout)   // wait when it is zero
    | OneMore                  // return it plus the one permit already granted

  /** The next atomic operation of a thread. `tryWait` and `wait` are the case `max == 1`. */
  datatype Pc =
    | Idle
    | TryLoad(max: nat, goal: Goal)
    | TryCas(max: nat, seen: int, goal: Goal)
    | SpinLoad(max: nat, timeout: Timeout, spins: nat)
    | SpinCas(max: nat, timeout: Timeout, spins: nat, seen: int)
    | FetchSub(max: nat, timeout: Timeout)
    | KernelWait(max: nat)
    | UndoLoad(max: nat)
    | UndoTryWait(max: nat)
    | UndoCas(max: nat, seen: int)
    | Returned(asked: nat, got: nat)
    | SignalAdd(n: nat)
    | SignalPost(left: nat)

  /** `taken` and `signalled` record history: permits handed out by finished calls, and signals made. */
  datatype State = State(
    count: int, tokens: nat, maxSpins: nat, pc: map<Tid, Pc>, initial: nat, taken: nat, signalled: nat)

  /** `luck` decides a spurious failure of a weak compare-and-swap, and a time-out or error of a wait. */
  datatype Action =
    | StartTry(t: Tid, max: nat)
    | StartWait(t: Tid, max: nat, timeout: Timeout)
    | StartSignal(t: Tid, n: nat)
    | Step(t: Tid, luck: bool)
    | Leave(t: Tid)

  // ---------------------------------------------------------------- the steps

  predicate Enabled(s: State, a: Action) {
    && a.t in s.pc
    && match a
       case StartTry(t, _) => s.pc[t].Idle?
       case StartWait(t, _, _) => s.pc[t].Idle?
       case StartSignal(t, _) => s.pc[t].Idle?
       case Step(t, luck) => !s.pc[t].Idle? && !s.pc[t].Returned? && (s.pc[t].KernelWait? && luck ==> s.tokens > 0)
       case Leave(t) => s.pc[t].Returned?
  }

  function Apply(s: State, a: Action): State
    requires Enabled(s, a)
  {
    match a
    case StartTry(t, max) => Goto(s, t, TryLoad(max, JustTry))
    case StartWait(t, max, timeout) => Goto(s, t, TryLoad(max, ThenWait(timeout)))
    case StartSignal(t, n) => Goto(s, t, SignalAdd(n))
    case Step(t, luck) => ThreadStep(s, t, luck)
    case Leave(t) => Goto(s, t, Idle).(taken := s.taken + s.pc[t].got)
  }

  function Goto(s: State, t: Tid, p: Pc): State {
    s.(pc := s.pc[t := p])
  }

  /** What a greedy acquisition takes from a positive counter. */
  function Taken(count: int, max: nat): int {
    if count > max then max else count
  }

  /** The end of `tryWaitMany` with result `n`. */
  function Tried(s: State, max: nat, goal: Goal, n: nat): Pc {
    match goal
    case JustTry => Returned(max, n)
    case ThenWait(timeout) => if n == 0 && max > 0 then Spin(max, timeout, s.maxSpins) else Returned(max, n)
    case OneMore => Returned(max + 1, n + 1)
  }

  function Spin(max: nat, timeout: Timeout, spins: nat): Pc {
    if spins > 0 then SpinLoad(max, timeout, spins - 1) else FetchSub(max, timeout)
  }

  /** One permit is granted by the slow path; `waitMany` then tries for the rest. */
  function GotOne(max: nat): Pc {
    if max > 1 then TryLoad(max - 1, OneMore) else Returned(max, 1)
  }

  /** The effect of one step: where the thread goes, the new counter and tokens, and what was signalled. */
  datatype Effect = Effect(p: Pc, count: int, tokens: nat, signalled: nat)

  function ThreadStep(s: State, t: Tid, luck: bool): State
    requires t in s.pc
  {
    var e := EffectOf(s, s.pc[t], luck);
    s.(pc := s.pc[t := e.p], count := e.count, tokens := e.tokens, signalled := s.signalled + e.signalled)
  }

  function EffectOf(s: State, p: Pc, luck: bool): Effect {
    var n, k := s.count, s.tokens;
    match p
    case TryLoad(max, goal) => Effect(if n > 0 then TryCas(max, n, goal) else Tried(s, max, goal, 0), n, k, 0)
    case TryCas(max, seen, goal) =>
      if n == seen && luck && seen > 0 then Effect(Tried(s, max, goal, Taken(seen, max)), seen - Taken(seen, max), k, 0)
      else Effect(if n > 0 then TryCas(max, n, goal) else Tried(s, max, goal, 0), n, k, 0)

    case SpinLoad(max, timeout, spins) =>
      Effect(if n > 0 then SpinCas(max, timeout, spins, n) else Spin(max, timeout, spins), n, k, 0)
    case SpinCas(max, timeout, spins, seen) =>
      if n == seen && seen > 0 then Effect(Returned(max, Taken(seen, max)), seen - Taken(seen, max), k, 0)
      else Effect(Spin(max, timeout, spins), n, k, 0)
    case FetchSub(max, timeout) =>
      Effect(if n > 0 then GotOne(max) else if timeout.Zero? then UndoLoad(max) else KernelWait(max), n - 1, k, 0)
    case KernelWait(max) =>
      if luck && k > 0 then Effect(GotOne(max), n, k - 1, 0) else Effect(UndoLoad(max), n, k, 0)

    case UndoLoad(max) => Effect(if n >= 0 then UndoTryWait(max) else UndoCas(max, n), n, k, 0)
    case UndoTryWait(max) =>
      if k > 0 then Effect(GotOne(max), n, k - 1, 0) else Effect(UndoLoad(max), n, k, 0)
    case UndoCas(max, seen) =>
      if n == seen && seen < 0 then Effect(Returned(max, 0), seen + 1, k, 0) else Effect(UndoLoad(max), n, k, 0)

    case SignalAdd(m) =>
      var toRelease := if -n < m then -n else m;
      Effect(if toRelease > 0 then SignalPost(toRelease) else Idle, n + m, k, m)
    case SignalPost(left) => Effect(if left > 1 then SignalPost(left - 1) else Idle, n, k + 1, 0)
    case _ => Effect(p, n, k, 0)
  }

  // ---------------------------------------------------------------- the accounts

  /** A waiter whose decrement of the counter found no permit, and that is not resolved yet. */
  function Slow(p: Pc): nat {
    if p.KernelWait? || p.UndoLoad? || p.UndoTryWait? || p.UndoCas? then 1 else 0
  }

  /** Posts to the kernel semaphore that a signaller still has to make. */
  function Owed(p: Pc): nat {
    if p.SignalPost? then p.left else 0
  }

  /** Permits granted to the call in progress. */
  function Held(p: Pc): nat {
    match p
    case Returned(_, got) => got
    case TryLoad(_, OneMore) => 1
    case TryCas(_, _, OneMore) => 1
    case _ => 0
  }

  /** Permits a signaller is about to add to the counter. */
  function ToAdd(p: Pc): nat {
    if p.SignalAdd? then p.n else 0
  }

  ghost function SlowWaiters(s: State): nat { Sum(s.pc, Slow) }
  ghost function OwedPosts(s: State): nat { Sum(s.pc, Owed) }

  /** All permits ever granted, to calls that have returned and to those in progress. */
  ghost function Granted(s: State): nat { s.taken + Sum(s.pc, Held) }

  function Positive(x: int): nat { if x > 0 then x else 0 }

  predicate ThreadInvariant(p: Pc) {
    match p
    case TryCas(_, seen, _) => seen > 0
    case SpinCas(max, _, _, seen) => max > 0 && seen > 0
    case UndoCas(max, seen) => max > 0 && seen < 0
    case FetchSub(max, _) => max > 0
    case SpinLoad(max, _, _) => max > 0
    case KernelWait(max) => max > 0
    case UndoLoad(max) => max > 0
    case UndoTryWait(max) => max > 0
    case Returned(asked, got) => got <= asked
    case SignalPost(left) => left > 0
    case _ => true
  }

  /** The two exact accounts: of the waiters, and of the permits. */
  ghost predicate Balanced(s: State) {
    && SlowWaiters(s) == Positive(-s.count) + s.tokens + OwedPosts(s)
    && Granted(s) + Positive(s.count) + s.tokens + OwedPosts(s) == s.initial + s.signalled
  }

  ghost predicate Invariant(s: State) {
    && Balanced(s)
    && (forall t :: t in s.pc ==> ThreadInvariant(s.pc[t]))
  }

  ghost predicate Init(s: State) {
    && s.count == s.initial && s.tokens == 0 && s.taken == 0 && s.signalled == 0
    && forall t :: t in s.pc ==> s.pc[t] == Idle
  }

  lemma InitIsFine(s: State)
    requires Init(s)
    ensures Invariant(s)
  {
    SumIsZero(s.pc, Slow);
    SumIsZero(s.pc, Owed);
    SumIsZero(s.pc, Held);
  }

  /** A step of one thread changes the sums by what it changes for that thread. */
  lemma SumsAfter(s: State, t: Tid, p: Pc)
    requires t in s.pc
    ensures Sum(s.pc[t := p], Slow) == Sum(s.pc, Slow) + Slow(p) - Slow(s.pc[t])
    ensures Sum(s.pc[t := p], Owed) == Sum(s.pc, Owed) + Owed(p) - Owed(s.pc[t])
    ensures Sum(s.pc[t := p], Held) == Sum(s.pc, Held) + Held(p) - Held(s.pc[t])
  {
    SumAfter(s.pc, t, p, Slow);
    SumAfter(s.pc, t, p, Owed);
    SumAfter(s.pc, t, p, Held);
  }

  /** A step keeps both accounts, as far as it changes them. */
  predicate Balances(s: State, p: Pc, e: Effect) {
    && ThreadInvariant(e.p)
    && Slow(e.p) - Slow(p) == Positive(-e.count) - Positive(-s.count) + e.tokens - s.tokens + Owed(e.p) - Owed(p)
    && Held(e.p) - Held(p) + Positive(e.count) - Positive(s.count) + e.tokens - s.tokens + Owed(e.p) - Owed(p)
       == e.signalled
  }

  lemma TryBalances(s: State, p: Pc, luck: bool)
    requires ThreadInvariant(p) && (p.TryLoad? || p.TryCas?)
    ensures Balances(s, p, EffectOf(s, p, luck))
  {
    match p {
      case TryLoad(_, _) =>
      case TryCas(_, _, _) =>
    }
  }

  lemma SpinBalances(s: State, p: Pc, luck: bool)
    requires ThreadInvariant(p) && (p.SpinLoad? || p.SpinCas? || p.FetchSub?)
    ensures Balances(s, p, EffectOf(s, p, luck))
  {
    match p {
      case SpinLoad(_, _, _) =>
      case SpinCas(_, _, _, _) =>
      case FetchSub(_, _) =>
    }
  }

  lemma SlowBalances(s: State, p: Pc, luck: bool)
    requires ThreadInvariant(p) && Slow(p) == 1
    ensures Balances(s, p, EffectOf(s, p, luck))
  {
    match p {
      case KernelWait(_) =>
      case UndoLoad(_) =>
      case UndoTryWait(_) =>
      case UndoCas(_, _) =>
    }
  }

  lemma SignalBalances(s: State, p: Pc, luck: bool)
    requires ThreadInvariant(p) && (p.SignalAdd? || p.SignalPost?)
    ensures Balances(s, p, EffectOf(s, p, luck))
  {
    match p {
      case SignalAdd(_) =>
      case SignalPost(_) =>
    }
  }

  lemma EffectBalances(s: State, p: Pc, luck: bool)
    requires ThreadInvariant(p)
    ensures Balances(s, p, EffectOf(s, p, luck))
  {
    if p.TryLoad? || p.TryCas? {
      TryBalances(s, p, luck);
    } else if p.SpinLoad? || p.SpinCas? || p.FetchSub? {
      SpinBalances(s, p, luck);
    } else if Slow(p) == 1 {
      SlowBalances(s, p, luck);
    } else if p.SignalAdd? || p.SignalPost? {
      SignalBalances(s, p, luck);
    }
  }

  lemma OnlyAddSignals(s: State, p: Pc, luck: bool)
    ensures EffectOf(s, p, luck).signalled == ToAdd(p) - ToAdd(EffectOf(s, p, luck).p)
  {
    match p {
      case SignalAdd(_) =>
      case TryLoad(_, _) =>
      case TryCas(_, _, _) =>
      case _ =>
    }
  }

  lemma StepPreserves(s: State, t: Tid, luck: bool)
    requires t in s.pc && ThreadInvariant(s.pc[t]) && Balanced(s)
    ensures ThreadInvariant(ThreadStep(s, t, luck).pc[t]) && Balanced(ThreadStep(s, t, luck))
  {
    EffectBalances(s, s.pc[t], luck);
    SumsAfter(s, t, EffectOf(s, s.pc[t], luck).p);
  }

  lemma OthersStay(pc: map<Tid, Pc>, pc': map<Tid, Pc>, t: Tid)
    requires t in pc' && pc' == pc[t := pc'[t]] && ThreadInvariant(pc'[t])
    requires forall u :: u in pc ==> ThreadInvariant(pc[u])
    ensures forall u :: u in pc' ==> ThreadInvariant(pc'[u])
  {}

  lemma Preserved(s: State, a: Action)
    requires Invariant(s) && Enabled(s, a)
    ensures Invariant(Apply(s, a))
  {
    var s' := Apply(s, a);
    assert ThreadInvariant(s.pc[a.t]);
    if a.Step? {
      StepPreserves(s, a.t, a.luck);
    } else {
      CallPreserves(s, a);
    }
    OthersStay(s.pc, s'.pc, a.t);
  }

  /** A call begins, or returns to its caller. */
  lemma CallPreserves(s: State, a: Action)
    requires Balanced(s) && Enabled(s, a) && ThreadInvariant(s.pc[a.t]) && !a.Step?
    ensures ThreadInvariant(Apply(s, a).pc[a.t]) && Balanced(Apply(s, a))
  {
    match a {
      case StartTry(t, max) => GoesOver(s, t, TryLoad(max, JustTry), 0);
      case StartWait(t, max, timeout) => GoesOver(s, t, TryLoad(max, ThenWait(timeout)), 0);
      case StartSignal(t, n) => GoesOver(s, t, SignalAdd(n), 0);
      case Leave(t) => GoesOver(s, t, Idle, s.pc[t].got);
    }
  }

  /** `got` permits pass from a thread that keeps its other contributions to the account of what was taken. */
  lemma GoesOver(s: State, t: Tid, p: Pc, got: nat)
    requires Balanced(s) && t in s.pc && Slow(p) == Slow(s.pc[t]) && Owed(p) == Owed(s.pc[t])
    requires Held(p) + got == Held(s.pc[t])
    ensures Balanced(s.(pc := s.pc[t := p], taken := s.taken + got))
  {
    SumsAfter(s, t, p);
  }

  // ---------------------------------------------------------------- runs

  predicate Possible(s: State, run: seq<Action>)
    decreases run
  {
    run == [] || (Enabled(s, run[0]) && Possible(Apply(s, run[0]), run[1..]))
  }

  function Outcome(s: State, run: seq<Action>): State
    requires Possible(s, run)
    decreases run
  {
    if run == [] then s else Outcome(Apply(s, run[0]), run[1..])
  }

  lemma {:induction false} InvariantOnRuns(s: State, run: seq<Action>)
    requires Invariant(s) && Possible(s, run)
    ensures Invariant(Outcome(s, run)) && Outcome(s, run).initial == s.initial
    decreases run
  {
    if run != [] {
      Preserved(s, run[0]);
      InvariantOnRuns(Apply(s, run[0]), run[1..]);
    }
  }

  // ---------------------------------------------------------------- the promises

  /** After any run both accounts are exact. */
  lemma AccountsAreExact(s: State, run: seq<Action>)
    requires Init(s) && Possible(s, run)
    ensures Balanced(Outcome(s, run))
  {
    InitIsFine(s);
    InvariantOnRuns(s, run);
  }

  /** Permits are never over-issued: every one granted was there at first or was signalled. */
  lemma NeverOverIssued(s: State, run: seq<Action>)
    requires Init(s) && Possible(s, run)
    ensures var e := Outcome(s, run);
            Granted(e) <= s.initial + e.signalled && e.tokens + OwedPosts(e) <= SlowWaiters(e)
  {
    InitIsFine(s);
    InvariantOnRuns(s, run);
  }

  /** Nor are they lost: with no call in progress the counter is what was never handed out. */
  lemma NothingIsLost(s: State, run: seq<Action>)
    requires Init(s) && Possible(s, run)
    requires forall t :: t in Outcome(s, run).pc ==> Outcome(s, run).pc[t].Idle?
    ensures var e := Outcome(s, run); e.count == s.initial + e.signalled - e.taken >= 0 && e.tokens == 0
  {
    InitIsFine(s);
    InvariantOnRuns(s, run);
    var e := Outcome(s, run);
    SumIsZero(e.pc, Slow);
    SumIsZero(e.pc, Owed);
    SumIsZero(e.pc, Held);
  }

  /**
    No wake-up is lost. While the counter is not negative, every slow waiter has a kernel token or a
    post on its way; and a waiter for which there is neither waits because every permit is taken.
   */
  lemma NoWakeUpIsLost(s: State, run: seq<Action>, t: Tid)
    requires Init(s) && Possible(s, run) && t in Outcome(s, run).pc && Slow(Outcome(s, run).pc[t]) == 1
    ensures var e := Outcome(s, run);
            && (e.count >= 0 ==> SlowWaiters(e) == e.tokens + OwedPosts(e) > 0)
            && (e.tokens + OwedPosts(e) == 0 ==> e.count < 0 && Granted(e) == s.initial + e.signalled)
  {
    InitIsFine(s);
    InvariantOnRuns(s, run);
    SumAtLeast(Outcome(s, run).pc, t, Slow);
  }

  /** A waiter may give up only while the counter is negative; it then hands back its decrement exactly. */
  lemma GivingUpIsExact(s: State, t: Tid, luck: bool)
    requires Invariant(s) && t in s.pc && Slow(s.pc[t]) == 1
    ensures var s' := ThreadStep(s, t, luck);
            match s'.pc[t]
            case Returned(_, got) =>
              if got == 0 then
                s.count < 0 && s'.count == s.count + 1 && s'.tokens == s.tokens && Granted(s') == Granted(s)
              else got == 1 && s'.count == s.count && s'.tokens + 1 == s.tokens && Granted(s') == Granted(s) + 1
            case _ => s'.count == s.count
  {
    assert ThreadInvariant(s.pc[t]);
    SumsAfter(s, t, EffectOf(s, s.pc[t], luck).p);
  }

  // ---------------------------------------------------------------- calls that run alone

  /** `k` steps of one thread, without a spurious failure. */
  function Steps(t: Tid, k: nat): seq<Action> {
    if k == 0 then [] else [Step(t, true)] + Steps(t, k - 1)
  }

  lemma RunStep(s: State, t: Tid, k: nat)
    requires Enabled(s, Step(t, true))
    ensures Possible(s, Steps(t, k + 1)) <==> Possible(ThreadStep(s, t, true), Steps(t, k))
    ensures Possible(s, Steps(t, k + 1)) ==>
              Outcome(s, Steps(t, k + 1)) == Outcome(ThreadStep(s, t, true), Steps(t, k))
  {
    assert Steps(t, k + 1)[0] == Step(t, true) && Steps(t, k + 1)[1..] == Steps(t, k);
  }

  lemma RunStart(s: State, a: Action, t: Tid, k: nat)
    requires Enabled(s, a)
    ensures Possible(s, [a] + Steps(t, k)) <==> Possible(Apply(s, a), Steps(t, k))
    ensures Possible(s, [a] + Steps(t, k)) ==>
              Outcome(s, [a] + Steps(t, k)) == Outcome(Apply(s, a), Steps(t, k))
  {
    assert ([a] + Steps(t, k))[1..] == Steps(t, k);
  }

  /** What a call gets that asks for up to `max` permits. */
  function Least(count: int, max: nat): nat {
    if count <= 0 then 0 else if count < max then count else max
  }

  /** A `tryWait` or `tryWaitMany` that runs alone takes as many permits as there are, up to `max`. */
  lemma LoneTry(s: State, t: Tid, max: nat)
    requires t in s.pc && s.pc[t].Idle?
    ensures var run := [StartTry(t, max)] + Steps(t, if s.count > 0 then 2 else 1);
            var g := Least(s.count, max);
            Possible(s, run) && Outcome(s, run) == s.(count := s.count - g, pc := s.pc[t := Returned(max, g)])
  {
    var k := if s.count > 0 then 2 else 1;
    var s1 := Apply(s, StartTry(t, max));
    var s2 := ThreadStep(s1, t, true);
    RunStart(s, StartTry(t, max), t, k);
    RunStep(s1, t, k - 1);
    if k == 2 {
      RunStep(s2, t, 0);
      assert ThreadStep(s2, t, true).pc == s.pc[t := Returned(max, Least(s.count, max))];
    } else {
      assert s2.pc == s.pc[t := Returned(max, 0)];
    }
  }

  /** A `wait` or `waitMany` that runs alone and finds a permit returns at once, with as many as there are. */
  lemma LoneWait(s: State, t: Tid, max: nat, timeout: Timeout)
    requires t in s.pc && s.pc[t].Idle? && s.count > 0
    ensures var run := [StartWait(t, max, timeout)] + Steps(t, 2);
            var g := Least(s.count, max);
            Possible(s, run) && Outcome(s, run) == s.(count := s.count - g, pc := s.pc[t := Returned(max, g)])
  {
    var s1 := Apply(s, StartWait(t, max, timeout));
    var s2 := ThreadStep(s1, t, true);
    RunStart(s, StartWait(t, max, timeout), t, 2);
    RunStep(s1, t, 1);
    RunStep(s2, t, 0);
    assert ThreadStep(s2, t, true).pc == s.pc[t := Returned(max, Least(s.count, max))];
  }

  /** Spinning in vain, and then the decrement. */
  lemma {:induction false} LoneSpin(s: State, t: Tid, max: nat, timeout: Timeout, spins: nat)
    requires t in s.pc && s.pc[t] == Spin(max, timeout, spins) && s.count <= 0
    ensures Possible(s, Steps(t, spins + 1))
    ensures Outcome(s, Steps(t, spins + 1)) ==
              s.(count := s.count - 1, pc := s.pc[t := if timeout.Zero? then UndoLoad(max) else KernelWait(max)])
    decreases spins
  {
    var s' := ThreadStep(s, t, true);
    RunStep(s, t, spins);
    if spins > 0 {
      LoneSpin(s', t, max, timeout, spins - 1);
    }
  }

  /** Without a permit it spins as often as it may, and then it has decremented the counter and sleeps, or undoes it. */
  lemma LoneWaitSleeps(s: State, t: Tid, max: nat, timeout: Timeout)
    requires t in s.pc && s.pc[t].Idle? && s.count <= 0 && max > 0
    ensures var run := [StartWait(t, max, timeout)] + Steps(t, s.maxSpins + 2);
            && Possible(s, run)
            && Outcome(s, run) ==
                 s.(count := s.count - 1, pc := s.pc[t := if timeout.Zero? then UndoLoad(max) else KernelWait(max)])
  {
    var s1 := Apply(s, StartWait(t, max, timeout));
    var s2 := ThreadStep(s1, t, true);
    RunStart(s, StartWait(t, max, timeout), t, s.maxSpins + 2);
    RunStep(s1, t, s.maxSpins + 1);
    assert s2.pc == s.pc[t := Spin(max, timeout, s.maxSpins)];
    LoneSpin(s2, t, max, timeout, s.maxSpins);
  }

  lemma {:induction false} LonePosts(s: State, t: Tid, left: nat)
    requires t in s.pc && s.pc[t] == SignalPost(left) && left > 0
    ensures Possible(s, Steps(t, left))
    ensures Outcome(s, Steps(t, left)) == s.(tokens := s.tokens + left, pc := s.pc[t := Idle])
    decreases left
  {
    var s' := ThreadStep(s, t, true);
    RunStep(s, t, left - 1);
    if left > 1 {
      LonePosts(s', t, left - 1);
    }
  }

  /** A sleeper that gets a token, alone, returns with one permit and as many more as there are, up to `max`. */
  lemma LoneWakeUp(s: State, t: Tid, max: nat)
    requires t in s.pc && s.pc[t] == KernelWait(max) && max > 0 && s.tokens > 0
    ensures var k := if max == 1 then 1 else if s.count > 0 then 3 else 2; var g := Least(s.count, max - 1);
            && Possible(s, Steps(t, k))
            && Outcome(s, Steps(t, k)) ==
                 s.(tokens := s.tokens - 1, count := s.count - g, pc := s.pc[t := Returned(max, 1 + g)])
  {
    var k := if max == 1 then 1 else if s.count > 0 then 3 else 2;
    var s1 := ThreadStep(s, t, true);
    RunStep(s, t, k - 1);
    if max > 1 {
      LoneRest(s1, t, max - 1);
      var p := Returned(max, 1 + Least(s.count, max - 1));
      assert s1.pc[t := p] == s.pc[t := p];
    }
  }

  /** The rest of a `waitMany` that has got one permit. */
  lemma LoneRest(s: State, t: Tid, max: nat)
    requires t in s.pc && s.pc[t] == TryLoad(max, OneMore) && max > 0
    ensures var k := if s.count > 0 then 2 else 1; var g := Least(s.count, max);
            && Possible(s, Steps(t, k))
            && Outcome(s, Steps(t, k)) == s.(count := s.count - g, pc := s.pc[t := Returned(max + 1, 1 + g)])
  {
    var k := if s.count > 0 then 2 else 1;
    var s1 := ThreadStep(s, t, true);
    RunStep(s, t, k - 1);
    if k == 2 {
      RunStep(s1, t, 0);
      assert ThreadStep(s1, t, true).pc == s.pc[t := Returned(max + 1, 1 + Least(s.count, max))];
    }
  }

  /**
    A waiter whose time is up, alone: while the counter is negative it takes its decrement back and returns
    with nothing; otherwise it takes the token that was posted for it.
   */
  lemma LoneTimeOut(s: State, t: Tid, max: nat)
    requires t in s.pc && s.pc[t] == UndoLoad(max) && (s.count >= 0 ==> s.tokens > 0)
    ensures Possible(s, Steps(t, 2))
    ensures Outcome(s, Steps(t, 2)) ==
              if s.count < 0 then s.(count := s.count + 1, pc := s.pc[t := Returned(max, 0)])
              else s.(tokens := s.tokens - 1, pc := s.pc[t := GotOne(max)])
  {
    var s1 := ThreadStep(s, t, true);
    RunStep(s, t, 1);
    RunStep(s1, t, 0);
    assert ThreadStep(s1, t, true).pc == s.pc[t := if s.count < 0 then Returned(max, 0) else GotOne(max)];
  }

  /** A `signal` that runs alone raises the counter, and posts a token for each waiter that it reaches. */
  lemma LoneSignal(s: State, t: Tid, n: nat)
    requires t in s.pc && s.pc[t].Idle?
    ensures var posts := Least(-s.count, n);
            var run := [StartSignal(t, n)] + Steps(t, posts + 1);
            && Possible(s, run)
            && Outcome(s, run) == s.(count := s.count + n, tokens := s.tokens + posts, signalled := s.signalled + n)
  {
    var posts := Least(-s.count, n);
    var s1 := Apply(s, StartSignal(t, n));
    var s2 := ThreadStep(s1, t, true);
    RunStart(s, StartSignal(t, n), t, posts + 1);
    RunStep(s1, t, posts);
    if posts > 0 {
      LonePosts(s2, t, posts);
    }
    assert s.pc[t := Idle] == s.pc;
  }

  // ---------------------------------------------------------------- calls that get nothing

  /** The counter was not positive before one of the actions, or after the last. */
  predicate SawNone(s: State, call: seq<Action>)
    requires Possible(s, call)
    decreases call
  {
    s.count <= 0 || (call != [] && SawNone(Apply(s, call[0]), call[1..]))
  }

  /** Thread `t` is inside a call that is refused only when the counter has been `seen` not to be positive. */
  predicate RefusesOnly(p: Pc, seen: bool) {
    match p
    case Idle => false
    case TryLoad(max, _) => max > 0
    case TryCas(max, _, _) => max > 0
    case SpinLoad(max, _, _) => max > 0
    case SpinCas(max, _, _, _) => max > 0
    case FetchSub(max, _) => max > 0
    case Returned(asked, got) => got > 0 || seen
    case SignalAdd(_) => false
    case SignalPost(_) => false
    case _ => seen
  }

  lemma RefusesOnlyAfter(s: State, p: Pc, luck: bool, seen: bool)
    requires RefusesOnly(p, seen) && ThreadInvariant(p)
    ensures RefusesOnly(EffectOf(s, p, luck).p, seen || s.count <= 0)
  {
    match p {
      case TryLoad(_, goal) =>
      case TryCas(_, _, goal) =>
      case SpinLoad(_, _, _) =>
      case SpinCas(_, _, _, _) =>
      case FetchSub(_, _) =>
      case _ =>
    }
  }

  lemma {:induction false} NothingMeansNone(s: State, call: seq<Action>, t: Tid, seen: bool)
    requires Invariant(s) && Possible(s, call) && t in s.pc && RefusesOnly(s.pc[t], seen)
    requires forall a :: a in call && a.t == t ==> a.Step?
    requires t in Outcome(s, call).pc && Outcome(s, call).pc[t].Returned? && Outcome(s, call).pc[t].got == 0
    ensures seen || SawNone(s, call)
    decreases call
  {
    if call != [] {
      var a := call[0];
      assert a in call;
      assert ThreadInvariant(s.pc[t]);
      Preserved(s, a);
      if a.t == t {
        RefusesOnlyAfter(s, s.pc[t], a.luck, seen);
        NothingMeansNone(Apply(s, a), call[1..], t, seen || s.count <= 0);
      } else {
        assert Apply(s, a).pc[t] == s.pc[t];
        NothingMeansNone(Apply(s, a), call[1..], t, seen);
      }
    }
  }

  /**
    Whatever the others do meanwhile, a call for at least one permit, trying or waiting, gets nothing only
    if at some time during the call there was no permit.
   */
  lemma RefusedMeansNone(s0: State, run: seq<Action>, call: seq<Action>, t: Tid)
    requires Init(s0) && Possible(s0, run) && Possible(Outcome(s0, run), call)
    requires var s := Outcome(s0, run); t in s.pc && s.pc[t].TryLoad? && !s.pc[t].goal.OneMore? && s.pc[t].max > 0
    requires forall a :: a in call && a.t == t ==> a.Step?
    requires var e := Outcome(Outcome(s0, run), call); t in e.pc && e.pc[t].Returned? && e.pc[t].got == 0
    ensures SawNone(Outcome(s0, run), call)
  {
    InitIsFine(s0);
    InvariantOnRuns(s0, run);
    NothingMeansNone(Outcome(s0, run), call, t, false);
  }

  /** Thread `t` was let down by the kernel, or had no time to wait. */
  predicate LetDown(s: State, call: seq<Action>, t: Tid)
    requires Possible(s, call)
    decreases call
  {
    call != []
    && (|| (call[0].t == t && call[0].Step? && GivesUpHere(s.pc[t], call[0].luck))
        || LetDown(Apply(s, call[0]), call[1..], t))
  }

  predicate GivesUpHere(p: Pc, luck: bool) {
    (p.KernelWait? && !luck) || (p.FetchSub? && p.timeout.Zero?)
  }

  /** Thread `t` is inside `wait` or `waitMany`, and undoes its decrement only when it has been let `down`. */
  predicate WaitsOn(p: Pc, down: bool) {
    match p
    case TryLoad(max, goal) => max > 0 && !goal.JustTry?
    case TryCas(max, _, goal) => max > 0 && !goal.JustTry?
    case SpinLoad(max, _, _) => max > 0
    case SpinCas(max, _, _, _) => max > 0
    case FetchSub(max, _) => max > 0
    case KernelWait(max) => max > 0
    case UndoLoad(_) => down
    case UndoTryWait(_) => down
    case UndoCas(_, _) => down
    case Returned(_, got) => got > 0 || down
    case _ => false
  }

  lemma WaitsOnAfter(s: State, t: Tid, luck: bool, down: bool)
    requires Enabled(s, Step(t, luck)) && WaitsOn(s.pc[t], down) && ThreadInvariant(s.pc[t])
    ensures WaitsOn(ThreadStep(s, t, luck).pc[t], down || GivesUpHere(s.pc[t], luck))
  {
    match s.pc[t] {
      case TryLoad(_, goal) =>
      case TryCas(_, _, goal) =>
      case SpinLoad(_, _, _) =>
      case SpinCas(_, _, _, _) =>
      case FetchSub(_, _) =>
      case KernelWait(_) =>
      case _ =>
    }
  }

  lemma {:induction false} NothingMeansLetDown(s: State, call: seq<Action>, t: Tid, down: bool)
    requires Invariant(s) && Possible(s, call) && t in s.pc && WaitsOn(s.pc[t], down)
    requires forall a :: a in call && a.t == t ==> a.Step?
    requires t in Outcome(s, call).pc && Outcome(s, call).pc[t].Returned? && Outcome(s, call).pc[t].got == 0
    ensures down || LetDown(s, call, t)
    decreases call
  {
    if call != [] {
      var a := call[0];
      assert a in call;
      assert ThreadInvariant(s.pc[t]);
      Preserved(s, a);
      if a.t == t {
        WaitsOnAfter(s, t, a.luck, down);
        NothingMeansLetDown(Apply(s, a), call[1..], t, down || GivesUpHere(s.pc[t], a.luck));
      } else {
        assert Apply(s, a).pc[t] == s.pc[t];
        NothingMeansLetDown(Apply(s, a), call[1..], t, down);
      }
    }
  }

  /** A waiter comes back with nothing only when the kernel's wait failed or timed out, or its timeout was zero. */
  lemma WaitersWait(s0: State, run: seq<Action>, call: seq<Action>, t: Tid)
    requires Init(s0) && Possible(s0, run) && Possible(Outcome(s0, run), call)
    requires var s := Outcome(s0, run); t in s.pc && s.pc[t].TryLoad? && s.pc[t].goal.ThenWait? && s.pc[t].max > 0
    requires forall a :: a in call && a.t == t ==> a.Step?
    requires var e := Outcome(Outcome(s0, run), call); t in e.pc && e.pc[t].Returned? && e.pc[t].got == 0
    ensures LetDown(Outcome(s0, run), call, t)
  {
    InitIsFine(s0);
    InvariantOnRuns(s0, run);
    NothingMeansLetDown(Outcome(s0, run), call, t, false);
  }
}
