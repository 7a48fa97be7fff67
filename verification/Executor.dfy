/**
  The task executor: workers that take tasks from a blocking queue until they take a null pointer, and
  a shutdown that puts one null pointer into the queue for every worker.

  The queue is what the queue modules promise: one FIFO sub-queue for every enqueuing thread, and a
  waiting worker claims the front of any sub-queue that is not empty. What it does with it comes later:
  it starts the task, or leaves when it got null. Tasks are numbered in the order in which they are added,
  and do not throw.
 */
module Executor {
  import opened Common

  type Client = nat
  type Task = nat

  datatype Worker = Waiting | Holding(got: Option<Task>) | Running(task: Task) | Exited

  /** Where a client is in `stop_all`; `Calm` is outside. */
  datatype Stopper = Calm | Pushing(i: nat) | Joining(i: nat)

  /**
    `workers[w]` is thread number `w`. History: `added` tasks so far, `before` of them before
    `kill_threads` was set; the tasks `claimed` so far, in order; how often each was started and finished;
    whether `stop_all` has returned from a shutdown.
   */
  datatype State = State(
    queues: map<Client, seq<Option<Task>>>, workers: seq<Worker>, stoppers: map<Client, Stopper>, kill: bool,
    added: nat, before: nat, claimed: seq<Task>, started: multiset<Task>, finished: multiset<Task>, stopped: bool)

  datatype Action =
    | AddTask(c: Client)
    | StopAll(c: Client)       // the exchange
    | PushNull(c: Client)
    | Join(c: Client)
    | Claim(w: nat, from: Client)
    | Begin(w: nat)
    | Finish(w: nat)

  // ---------------------------------------------------------------- the steps

  function QueueOf(s: State, c: Client): seq<Option<Task>> {
    if c in s.queues then s.queues[c] else []
  }

  function StopperOf(s: State, c: Client): Stopper {
    if c in s.stoppers then s.stoppers[c] else Calm
  }

  predicate Enabled(s: State, a: Action) {
    match a
    case AddTask(c) => StopperOf(s, c).Calm?
    case StopAll(c) => StopperOf(s, c).Calm?
    case PushNull(c) => StopperOf(s, c).Pushing?
    case Join(c) => StopperOf(s, c).Joining? && StopperOf(s, c).i < |s.workers| && s.workers[StopperOf(s, c).i].Exited?
    case Claim(w, from) => w < |s.workers| && s.workers[w].Waiting? && QueueOf(s, from) != []
    case Begin(w) => w < |s.workers| && s.workers[w].Holding?
    case Finish(w) => w < |s.workers| && s.workers[w].Running?
  }

  function Apply(s: State, a: Action): State
    requires Enabled(s, a)
  {
    match a
    case AddTask(c) =>
      Put(s, c, Some(s.added)).(added := s.added + 1, before := if s.kill then s.before else s.added + 1)
    case StopAll(c) =>
      if s.kill then s else Goto(s, c, Pushing(0)).(kill := true)
    case PushNull(c) =>
      var i := StopperOf(s, c).i;
      Put(Goto(s, c, if i + 1 < |s.workers| then Pushing(i + 1) else Joining(0)), c, None)
    case Join(c) =>
      var i := StopperOf(s, c).i;
      if i + 1 < |s.workers| then Goto(s, c, Joining(i + 1)) else Goto(s, c, Calm).(stopped := true)
    case Claim(w, from) =>
      var q := QueueOf(s, from);
      s.(queues := s.queues[from := q[1..]], workers := s.workers[w := Holding(q[0])],
         claimed := if q[0].Some? then s.claimed + [q[0].value] else s.claimed)
    case Begin(w) =>
      (match s.workers[w].got
       case None => s.(workers := s.workers[w := Exited])
       case Some(i) => s.(workers := s.workers[w := Running(i)], started := s.started + multiset{i}))
    case Finish(w) =>
      s.(workers := s.workers[w := Waiting], finished := s.finished + multiset{s.workers[w].task})
  }

  function Put(s: State, c: Client, x: Option<Task>): State {
    s.(queues := s.queues[c := QueueOf(s, c) + [x]])
  }

  function Goto(s: State, c: Client, p: Stopper): State {
    s.(stoppers := s.stoppers[c := p])
  }

  // ---------------------------------------------------------------- one client

  /** The tasks from number `lo` up to, not including, `hi`. */
  function Tasks(lo: nat, hi: nat): (q: seq<Option<Task>>)
    requires lo <= hi
    ensures |q| == hi - lo && forall k :: 0 <= k < |q| ==> q[k] == Some(lo + k)
  {
    seq(hi - lo, k requires 0 <= k < hi - lo => Some(lo + k))
  }

  function Nulls(n: nat): (q: seq<Option<Task>>)
    ensures |q| == n && forall k :: 0 <= k < n ==> q[k] == None
  {
    seq(n, _ => None)
  }

  /** How many workers satisfy `p`. */
  function Count(workers: seq<Worker>, p: Worker -> bool): (n: nat)
    ensures n <= |workers|
  {
    if workers == [] then 0 else (if p(workers[0]) then 1 else 0) + Count(workers[1..], p)
  }

  lemma {:induction false} CountAfter(workers: seq<Worker>, w: nat, x: Worker, p: Worker -> bool)
    requires w < |workers|
    ensures Count(workers[w := x], p) == Count(workers, p) + (if p(x) then 1 else 0) - (if p(workers[w]) then 1 else 0)
  {
    if w == 0 {
      assert workers[0 := x][1..] == workers[1..];
    } else {
      assert workers[w := x][1..] == workers[1..][w - 1 := x];
      CountAfter(workers[1..], w - 1, x, p);
    }
  }

  lemma {:induction false} CountIsAll(workers: seq<Worker>, p: Worker -> bool)
    ensures Count(workers, p) == |workers| <==> forall w :: 0 <= w < |workers| ==> p(workers[w])
    ensures Count(workers, p) == 0 <==> forall w :: 0 <= w < |workers| ==> !p(workers[w])
  {
    if workers != [] {
      CountIsAll(workers[1..], p);
      assert forall w :: 0 < w < |workers| ==> workers[w] == workers[1..][w - 1];
    }
  }

  /** Has taken a null: it has exited or is about to. */
  function Leaves(): Worker -> bool { (x: Worker) => x.Exited? || x == Holding(None) }
  function Holds(i: Task): Worker -> bool { (x: Worker) => x == Holding(Some(i)) }
  function Runs(i: Task): Worker -> bool { (x: Worker) => x == Running(i) }

  /** Tasks claimed so far: they are claimed in order, so that is also the number of the next one. */
  function Taken(s: State): nat { |s.claimed| }

  function Pushed(s: State, c: Client): nat {
    match StopperOf(s, c)
    case Pushing(i) => i
    case _ => if s.kill then |s.workers| else 0
  }

  /** What is in the client's sub-queue: tasks not taken, then nulls not taken, then tasks added too late. */
  ghost predicate QueueInvariant(s: State, c: Client) {
    var left := Count(s.workers, Leaves());
    && Taken(s) <= s.before <= s.added && left <= Pushed(s, c)
    && (left > 0 ==> Taken(s) == s.before)
    && (forall k :: 0 <= k < Taken(s) ==> s.claimed[k] == k)
    && QueueOf(s, c) == Tasks(Taken(s), s.before) + Nulls(Pushed(s, c) - left) + Tasks(s.before, s.added)
  }

  /** Task `i` has been claimed at most once, in its turn, and is held, running or finished since. */
  ghost predicate TaskInvariant(s: State, i: Task) {
    && s.started[i] + Count(s.workers, Holds(i)) == (if i < Taken(s) then 1 else 0)
    && s.started[i] == s.finished[i] + Count(s.workers, Runs(i))
  }

  ghost predicate StopInvariant(s: State, c: Client) {
    && s.workers != []
    && (!s.kill ==> s.before == s.added)
    && (match StopperOf(s, c)
        case Calm => s.kill == s.stopped
        case Pushing(i) => i < |s.workers| && s.kill && !s.stopped && s.before == s.added
        case Joining(i) => i < |s.workers| && s.kill && !s.stopped && s.before == s.added
                           && forall w :: 0 <= w < i ==> s.workers[w].Exited?)
    && (s.stopped ==> forall w :: 0 <= w < |s.workers| ==> s.workers[w].Exited?)
  }

  ghost predicate Invariant(s: State, c: Client) {
    && (forall d: Client :: d != c ==> QueueOf(s, d) == [] && StopperOf(s, d) == Calm)
    && QueueInvariant(s, c) && StopInvariant(s, c)
    && forall i: Task :: TaskInvariant(s, i)
  }

  /** Every call of the executor's interface comes from client `c`. */
  predicate By(a: Action, c: Client) {
    match a
    case Claim(_, _) => true
    case Begin(_) => true
    case Finish(_) => true
    case _ => a.c == c
  }

  predicate ByWorker(a: Action) {
    a.Claim? || a.Begin? || a.Finish?
  }

  ghost predicate Init(s: State) {
    && s.queues == map[] && s.stoppers == map[]
    && s.workers != [] && (forall w :: 0 <= w < |s.workers| ==> s.workers[w].Waiting?)
    && !s.kill && !s.stopped && s.added == 0 && s.before == 0
    && s.claimed == [] && s.started == multiset{} && s.finished == multiset{}
  }

  lemma InitIsFine(s: State, c: Client)
    requires Init(s)
    ensures Invariant(s, c)
  {
    CountIsAll(s.workers, Leaves());
    forall i: Task ensures TaskInvariant(s, i) {
      CountIsAll(s.workers, Runs(i));
      CountIsAll(s.workers, Holds(i));
    }
  }

  lemma ClaimFromFront(s: State, w: nat, c: Client)
    requires Invariant(s, c) && Enabled(s, Claim(w, c))
    ensures var n := Pushed(s, c) - Count(s.workers, Leaves());
            && (Taken(s) < s.before ==>
                  && QueueOf(s, c)[0] == Some(Taken(s))
                  && QueueOf(s, c)[1..] == Tasks(Taken(s) + 1, s.before) + Nulls(n) + Tasks(s.before, s.added))
            && (Taken(s) == s.before ==>
                  n > 0 && QueueOf(s, c)[0] == None && QueueOf(s, c)[1..] == Nulls(n - 1) + Tasks(s.before, s.added))
  {
  }

  lemma ClaimPreservesQueue(s: State, w: nat, c: Client)
    requires Invariant(s, c) && Enabled(s, Claim(w, c))
    ensures QueueInvariant(Apply(s, Claim(w, c)), c)
  {
    var s' := Apply(s, Claim(w, c));
    CountAfter(s.workers, w, s'.workers[w], Leaves());
    ClaimFromFront(s, w, c);
    assert Pushed(s', c) == Pushed(s, c);
    if Taken(s) == s.before {
      assert Tasks(Taken(s'), s'.before) == [];
    }
  }

  lemma ClientPreservesQueue(s: State, a: Action, c: Client)
    requires Invariant(s, c) && Enabled(s, a) && By(a, c) && !ByWorker(a)
    ensures QueueInvariant(Apply(s, a), c)
  {
    match a {
      case PushNull(_) => PushPreservesQueue(s, c);
      case AddTask(_) => AddPreservesQueue(s, c);
      case StopAll(_) =>
      case Join(_) =>
    }
  }

  lemma PushPreservesQueue(s: State, c: Client)
    requires Invariant(s, c) && Enabled(s, PushNull(c))
    ensures QueueInvariant(Apply(s, PushNull(c)), c)
  {
    var n := Pushed(s, c) - Count(s.workers, Leaves());
    assert Tasks(s.before, s.added) == [];
    assert Nulls(n) + [None] == Nulls(n + 1);
    assert QueueOf(s, c) + [None] == Tasks(Taken(s), s.before) + Nulls(n + 1);
  }

  lemma AddPreservesQueue(s: State, c: Client)
    requires QueueInvariant(s, c) && (!s.kill ==> s.before == s.added) && StopperOf(s, c).Calm?
    ensures QueueInvariant(Apply(s, AddTask(c)), c)
  {
    var n := Pushed(s, c) - Count(s.workers, Leaves());
    var early, late := Tasks(Taken(s), s.before), Tasks(s.before, s.added);
    var s' := Apply(s, AddTask(c));
    assert QueueOf(s', c) == QueueOf(s, c) + [Some(s.added)];
    if s.kill {
      assert late + [Some(s.added)] == Tasks(s.before, s.added + 1);
      assert early + Nulls(n) + late + [Some(s.added)] == early + Nulls(n) + (late + [Some(s.added)]);
    } else {
      assert late == [] && Nulls(n) == [] && Tasks(s'.before, s'.added) == [];
      assert early + [Some(s.added)] == Tasks(Taken(s), s'.before);
      assert early + Nulls(n) + late == early;
    }
  }

  /** Beginning and finishing a task leave the queue alone, and beginning to exit counts as having left. */
  lemma WorkPreservesQueue(s: State, a: Action, w: nat, c: Client)
    requires Invariant(s, c) && Enabled(s, a) && (a == Begin(w) || a == Finish(w))
    ensures QueueInvariant(Apply(s, a), c)
  {
    CountAfter(s.workers, w, Apply(s, a).workers[w], Leaves());
    assert Apply(s, a).workers == s.workers[w := Apply(s, a).workers[w]];
    assert Pushed(Apply(s, a), c) == Pushed(s, c);
  }

  lemma QueuePreserved(s: State, a: Action, c: Client)
    requires Invariant(s, c) && Enabled(s, a) && By(a, c)
    ensures QueueInvariant(Apply(s, a), c)
  {
    match a {
      case Claim(w, from) =>
        assert from == c;
        ClaimPreservesQueue(s, w, c);
      case Begin(w) => WorkPreservesQueue(s, a, w, c);
      case Finish(w) => WorkPreservesQueue(s, a, w, c);
      case _ => ClientPreservesQueue(s, a, c);
    }
  }

  lemma CountsAfter(s: State, w: nat, x: Worker, i: Task)
    requires w < |s.workers|
    ensures var workers := s.workers[w := x];
            && Count(workers, Runs(i)) == Count(s.workers, Runs(i))
                 + (if x == Running(i) then 1 else 0) - (if s.workers[w] == Running(i) then 1 else 0)
            && Count(workers, Holds(i)) == Count(s.workers, Holds(i))
                 + (if x == Holding(Some(i)) then 1 else 0) - (if s.workers[w] == Holding(Some(i)) then 1 else 0)
  {
    CountAfter(s.workers, w, x, Runs(i));
    CountAfter(s.workers, w, x, Holds(i));
  }

  lemma ClaimPreservesTask(s: State, w: nat, c: Client, i: Task)
    requires Invariant(s, c) && Enabled(s, Claim(w, c))
    ensures TaskInvariant(Apply(s, Claim(w, c)), i)
  {
    assert TaskInvariant(s, i);
    CountsAfter(s, w, Apply(s, Claim(w, c)).workers[w], i);
    ClaimFromFront(s, w, c);
  }

  lemma BeginPreservesTask(s: State, w: nat, i: Task)
    requires TaskInvariant(s, i) && Enabled(s, Begin(w))
    ensures TaskInvariant(Apply(s, Begin(w)), i)
  {
    match s.workers[w].got {
      case None => CountsAfter(s, w, Exited, i);
      case Some(j) => StartPreservesTask(s, w, j, i);
    }
  }

  lemma StartPreservesTask(s: State, w: nat, j: Task, i: Task)
    requires TaskInvariant(s, i) && w < |s.workers| && s.workers[w] == Holding(Some(j))
    ensures TaskInvariant(s.(workers := s.workers[w := Running(j)], started := s.started + multiset{j}), i)
  {
    CountsAfter(s, w, Running(j), i);
    assert (s.started + multiset{j})[i] == s.started[i] + if i == j then 1 else 0;
  }

  lemma FinishPreservesTask(s: State, w: nat, i: Task)
    requires TaskInvariant(s, i) && Enabled(s, Finish(w))
    ensures TaskInvariant(Apply(s, Finish(w)), i)
  {
    CountsAfter(s, w, Waiting, i);
  }

  lemma TaskPreserved(s: State, a: Action, c: Client, i: Task)
    requires Invariant(s, c) && Enabled(s, a) && By(a, c)
    ensures TaskInvariant(Apply(s, a), i)
  {
    assert TaskInvariant(s, i);
    match a {
      case Claim(w, from) =>
        assert from == c;
        ClaimPreservesTask(s, w, c, i);
      case Begin(w) => BeginPreservesTask(s, w, i);
      case Finish(w) => FinishPreservesTask(s, w, i);
      case _ =>
        assert Apply(s, a).workers == s.workers && Apply(s, a).claimed == s.claimed;
    }
  }

  lemma StopByWorker(s: State, a: Action, c: Client)
    requires StopInvariant(s, c) && Enabled(s, a) && ByWorker(a)
    ensures StopInvariant(Apply(s, a), c)
  {
    match a {
      case Claim(w, from) =>
      case Begin(w) =>
      case Finish(w) =>
    }
  }

  lemma StopByClient(s: State, a: Action, c: Client)
    requires StopInvariant(s, c) && s.before <= s.added && Enabled(s, a) && By(a, c) && !ByWorker(a)
    ensures StopInvariant(Apply(s, a), c)
  {
    match a {
      case AddTask(_) =>
      case StopAll(_) =>
      case PushNull(_) =>
      case Join(_) =>
    }
  }

  lemma StopPreserved(s: State, a: Action, c: Client)
    requires Invariant(s, c) && Enabled(s, a) && By(a, c)
    ensures StopInvariant(Apply(s, a), c)
  {
    if ByWorker(a) {
      StopByWorker(s, a, c);
    } else {
      StopByClient(s, a, c);
    }
  }

  lemma Preserved(s: State, a: Action, c: Client)
    requires Invariant(s, c) && Enabled(s, a) && By(a, c)
    ensures Invariant(Apply(s, a), c)
  {
    forall d: Client | d != c ensures QueueOf(Apply(s, a), d) == [] && StopperOf(Apply(s, a), d) == Calm {
      assert QueueOf(s, d) == [] && StopperOf(s, d) == Calm;
    }
    QueuePreserved(s, a, c);
    StopPreserved(s, a, c);
    forall i: Task ensures TaskInvariant(Apply(s, a), i) { TaskPreserved(s, a, c, i); }
  }

  // ---------------------------------------------------------------- runs and promises

  predicate Possible(s: State, run: seq<Action>)
    decreases run
  {
    run == [] || (Enabled(s, run[0]) && Possible(Apply(s, run[0]), run[1..]))
  }

  function Outcome(s: State, run: seq<Action>): State
    requires Possible(s, run)
    decreases run
  {
    if run == [] then s else Outcome(Apply(s, run[0]), run[1..])
  }

  lemma {:induction false} InvariantOnRuns(s: State, run: seq<Action>, c: Client)
    requires Invariant(s, c) && Possible(s, run) && forall a :: a in run ==> By(a, c)
    ensures Invariant(Outcome(s, run), c) && |Outcome(s, run).workers| == |s.workers|
    decreases run
  {
    if run != [] {
      assert run[0] in run;
      Preserved(s, run[0], c);
      InvariantOnRuns(Apply(s, run[0]), run[1..], c);
    }
  }

  /**
    Once `stop_all` has returned, every task added before it was called has been run exactly once and
    to its end, and none added later has been started; every worker has taken its null and exited, and
    no null is left.
   */
  lemma StopRunsEverything(s: State, run: seq<Action>, c: Client)
    requires Init(s) && Possible(s, run) && (forall a :: a in run ==> By(a, c)) && Outcome(s, run).stopped
    ensures var e := Outcome(s, run);
            && (forall i: Task :: e.started[i] == e.finished[i] == if i < e.before then 1 else 0)
            && (forall w :: 0 <= w < |e.workers| ==> e.workers[w] == Exited)
            && (forall d: Client :: None !in QueueOf(e, d)) && e.before <= e.added
            && QueueOf(e, c) == Tasks(e.before, e.added)
  {
    InitIsFine(s, c);
    InvariantOnRuns(s, run, c);
    var e := Outcome(s, run);
    assert forall w :: 0 <= w < |e.workers| ==> Leaves()(e.workers[w]);
    CountIsAll(e.workers, Leaves());
    forall i: Task ensures e.started[i] == e.finished[i] == if i < e.before then 1 else 0 {
      assert TaskInvariant(e, i);
      CountIsAll(e.workers, Runs(i));
      CountIsAll(e.workers, Holds(i));
    }
    forall d: Client ensures None !in QueueOf(e, d) {}
  }

  /** No task is ever started twice, and tasks are claimed in the order in which they were added. */
  lemma NoTaskRunsTwice(s: State, run: seq<Action>, c: Client, i: Task)
    requires Init(s) && Possible(s, run) && (forall a :: a in run ==> By(a, c))
    ensures var e := Outcome(s, run);
            && e.finished[i] <= e.started[i] <= 1
            && (forall k :: 0 <= k < |e.claimed| ==> e.claimed[k] == k)
            && (e.started[i] == 1 ==> i < |e.claimed|)
  {
    InitIsFine(s, c);
    InvariantOnRuns(s, run, c);
    assert TaskInvariant(Outcome(s, run), i);
  }

  /** During the shutdown a worker that waits always finds something to take. */
  lemma ShutdownNeverStarves(s: State, run: seq<Action>, c: Client, w: nat)
    requires Init(s) && Possible(s, run) && (forall a :: a in run ==> By(a, c))
    requires var e := Outcome(s, run); StopperOf(e, c).Joining? && w < |e.workers| && e.workers[w].Waiting?
    ensures Enabled(Outcome(s, run), Claim(w, c))
  {
    InitIsFine(s, c);
    InvariantOnRuns(s, run, c);
    CountIsAll(Outcome(s, run).workers, Leaves());
  }

  // ---------------------------------------------------------------- nothing waits for ever

  /** How many more steps a worker can take with what it has. */
  function Effort(workers: seq<Worker>): nat {
    if workers == [] then 0
    else (if workers[0].Holding? then 2 else if workers[0].Running? then 1 else 0) + Effort(workers[1..])
  }

  lemma {:induction false} EffortAfter(workers: seq<Worker>, w: nat, x: Worker)
    requires w < |workers|
    ensures Effort(workers[w := x]) == Effort(workers) + Effort([x]) - Effort([workers[w]])
  {
    assert [x][1..] == [] && [workers[w]][1..] == [];
    if w == 0 {
      assert workers[0 := x][1..] == workers[1..];
    } else {
      assert workers[w := x][1..] == workers[1..][w - 1 := x];
      EffortAfter(workers[1..], w - 1, x);
    }
  }

  /** A bound for the steps that are left of a shutdown. */
  function StepsLeft(s: State, c: Client): nat {
    4 * |QueueOf(s, c)| + Effort(s.workers)
    + match StopperOf(s, c)
      case Calm => 0
      case Pushing(i) => if i < |s.workers| then 6 * |s.workers| - 5 * i else 0
      case Joining(i) => if i < |s.workers| then |s.workers| - i else 0
  }

  lemma WorkUsesUp(s: State, a: Action, c: Client)
    requires Invariant(s, c) && Enabled(s, a) && ByWorker(a)
    ensures StepsLeft(Apply(s, a), c) < StepsLeft(s, c)
  {
    EffortAfter(s.workers, a.w, Apply(s, a).workers[a.w]);
    assert [s.workers[a.w]][1..] == [];
    assert [Apply(s, a).workers[a.w]][1..] == [];
  }

  lemma ShutdownUsesUp(s: State, a: Action, c: Client)
    requires Invariant(s, c) && s.kill && !s.stopped && Enabled(s, a) && By(a, c)
    ensures StepsLeft(Apply(s, a), c) < StepsLeft(s, c) && Apply(s, a).kill
  {
    if ByWorker(a) { WorkUsesUp(s, a, c); }
  }

  /** Until `stop_all` returns, somebody can take a step. */
  lemma ShutdownNeverStuck(s: State, c: Client) returns (a: Action)
    requires Invariant(s, c) && s.kill && !s.stopped
    ensures Enabled(s, a) && By(a, c)
  {
    if StopperOf(s, c).Pushing? {
      return PushNull(c);
    }
    var w := StopperOf(s, c).i;
    match s.workers[w] {
      case Waiting =>
        CountIsAll(s.workers, Leaves());
        a := Claim(w, c);
      case Holding(_) => a := Begin(w);
      case Running(_) => a := Finish(w);
      case Exited => a := Join(c);
    }
  }

  lemma {:induction false} StoppedStays(s: State, run: seq<Action>)
    requires s.stopped && Possible(s, run)
    ensures Outcome(s, run).stopped
    decreases run
  {
    if run != [] { StoppedStays(Apply(s, run[0]), run[1..]); }
  }

  /** However the steps interleave, `stop_all` has returned after a bounded number of them. */
  lemma {:induction false} ShutdownEnds(s: State, run: seq<Action>, c: Client)
    requires Invariant(s, c) && s.kill && Possible(s, run) && forall a :: a in run ==> By(a, c)
    requires |run| >= StepsLeft(s, c)
    ensures Outcome(s, run).stopped
    decreases run
  {
    if s.stopped {
      StoppedStays(s, run);
    } else if run == [] {
      var a := ShutdownNeverStuck(s, c);
      ShutdownUsesUp(s, a, c);
    } else {
      assert run[0] in run;
      Preserved(s, run[0], c);
      ShutdownUsesUp(s, run[0], c);
      ShutdownEnds(Apply(s, run[0]), run[1..], c);
    }
  }

  /** Without a shutdown, when no worker can take a step, every task added so far has been run to its end. */
  lemma IdleMeansDone(s: State, run: seq<Action>, c: Client, i: Task)
    requires Init(s) && Possible(s, run) && (forall a :: a in run ==> By(a, c)) && !Outcome(s, run).kill
    requires forall a :: ByWorker(a) ==> !Enabled(Outcome(s, run), a)
    ensures var e := Outcome(s, run);
            QueueOf(e, c) == [] && e.finished[i] == e.started[i] == if i < e.added then 1 else 0
  {
    InitIsFine(s, c);
    InvariantOnRuns(s, run, c);
    var e := Outcome(s, run);
    assert !Enabled(e, Claim(0, c));
    forall w | 0 <= w < |e.workers| ensures !e.workers[w].Holding? && !e.workers[w].Running? {
      assert !Enabled(e, Begin(w)) && !Enabled(e, Finish(w));
    }
    AllAtRest(e, c, i);
  }

  lemma AllAtRest(e: State, c: Client, i: Task)
    requires Invariant(e, c) && !e.kill && !Enabled(e, Claim(0, c))
    requires forall w :: 0 <= w < |e.workers| ==> !e.workers[w].Holding? && !e.workers[w].Running?
    ensures QueueOf(e, c) == [] && e.finished[i] == e.started[i] == if i < e.added then 1 else 0
  {
    CountIsAll(e.workers, Leaves());
    CountIsAll(e.workers, Holds(i));
    CountIsAll(e.workers, Runs(i));
    assert TaskInvariant(e, i);
  }

  /** Whenever a task has been started, all tasks added before it have been. */
  predicate StartedInOrder(s: State, j: Task) {
    s.started[j] > 0 ==> forall i :: 0 <= i < j ==> s.started[i] > 0
  }

  /** In every run of client `c`, tasks start in the order in which they were added. */
  ghost predicate AlwaysInOrder(s: State, c: Client) {
    forall run, j: Task :: Possible(s, run) && (forall a :: a in run ==> By(a, c)) ==>
                             StartedInOrder(Outcome(s, run), j)
  }

  /** A single worker holds the task that was claimed last. */
  predicate HoldsTheLast(s: State) {
    |s.workers| == 1 && (s.workers[0].Holding? && s.workers[0].got.Some? ==> s.workers[0].got.value + 1 == Taken(s))
  }

  lemma HoldsTheLastAfter(s: State, a: Action, c: Client)
    requires Invariant(s, c) && Enabled(s, a) && By(a, c) && HoldsTheLast(s)
    ensures HoldsTheLast(Apply(s, a))
  {
    if a.Claim? {
      assert a.from == c;
      ClaimFromFront(s, a.w, c);
    }
  }

  lemma {:induction false} HoldsTheLastOnRuns(s: State, run: seq<Action>, c: Client)
    requires Invariant(s, c) && HoldsTheLast(s) && Possible(s, run) && forall a :: a in run ==> By(a, c)
    ensures HoldsTheLast(Outcome(s, run))
    decreases run
  {
    if run != [] {
      assert run[0] in run;
      Preserved(s, run[0], c);
      HoldsTheLastAfter(s, run[0], c);
      HoldsTheLastOnRuns(Apply(s, run[0]), run[1..], c);
    }
  }

  lemma OneWorkerKeepsOrder(s: State, run: seq<Action>, c: Client, j: Task)
    requires Init(s) && |s.workers| == 1 && Possible(s, run) && forall a :: a in run ==> By(a, c)
    ensures StartedInOrder(Outcome(s, run), j)
  {
    InitIsFine(s, c);
    InvariantOnRuns(s, run, c);
    HoldsTheLastOnRuns(s, run, c);
    var e := Outcome(s, run);
    if e.started[j] > 0 {
      assert TaskInvariant(e, j);
      forall i | 0 <= i < j ensures e.started[i] > 0 {
        assert TaskInvariant(e, i);
        assert e.workers == [e.workers[0]];
        assert Count(e.workers, Holds(i)) == if e.workers[0] == Holding(Some(i)) then 1 else 0;
      }
    }
  }

  /** Tasks always start in the order in which they were added exactly when there are fewer than two workers. */
  lemma OrderIsKeptByOneWorker(s: State, c: Client)
    requires Init(s)
    ensures AlwaysInOrder(s, c) <==> |s.workers| < 2
  {
    if |s.workers| < 2 {
      forall run, j: Task | Possible(s, run) && (forall a :: a in run ==> By(a, c))
        ensures StartedInOrder(Outcome(s, run), j)
      {
        OneWorkerKeepsOrder(s, run, c, j);
      }
    } else {
      var run := StartsMayOvertake(s, c, 0, 1);
      assert Outcome(s, run).started[0] == 0;
      assert !StartedInOrder(Outcome(s, run), 1);
    }
  }

  lemma {:induction false} Extend(s: State, run: seq<Action>, a: Action) returns (longer: seq<Action>)
    requires Possible(s, run) && Enabled(Outcome(s, run), a)
    ensures longer == run + [a] && Possible(s, longer) && Outcome(s, longer) == Apply(Outcome(s, run), a)
    decreases run
  {
    longer := run + [a];
    if run == [] {
      assert longer[1..] == [];
    } else {
      var rest := Extend(Apply(s, run[0]), run[1..], a);
      assert longer[1..] == rest;
    }
  }

  /** That is not the order in which they start: with two workers the later task may start first. */
  lemma StartsMayOvertake(s: State, c: Client, v: nat, w: nat) returns (run: seq<Action>)
    requires Init(s) && v < |s.workers| && w < |s.workers| && v != w
    ensures Possible(s, run) && (forall a :: a in run ==> By(a, c))
    ensures var e := Outcome(s, run);
            && |e.workers| == |s.workers| && e.claimed == [0, 1]
            && e.started == multiset{1} && e.workers[v] == Holding(Some(0))
  {
    run := Extend(s, [], AddTask(c));
    run := Extend(s, run, AddTask(c));
    assert QueueOf(Outcome(s, run), c) == [Some(0), Some(1)];
    run := Extend(s, run, Claim(v, c));
    run := Extend(s, run, Claim(w, c));
    run := Extend(s, run, Begin(w));
  }

  /**
    That all calls come from one client is needed: whoever else adds a task and however many workers there
    are, all of them may take nulls first, and the task is never run.
   */
  lemma AnotherClientsTaskMayBeLost(s: State, c: Client, d: Client) returns (run: seq<Action>)
    requires Init(s) && c != d
    ensures Possible(s, run)
    ensures var e := Outcome(s, run);
            e.stopped && e.before == 1 && e.started == multiset{} && QueueOf(e, d) == [Some(0)]
  {
    run := Extend(s, [], AddTask(d));
    run := Extend(s, run, StopAll(c));
    run := PushAll(s, run, c, d, |s.workers|);
    run := AllLeave(s, run, c, d, |s.workers|);
    run := JoinAll(s, run, c, d, |s.workers| - 1);
    run := Extend(s, run, Join(c));
  }

  /** The task of `d` stays where it is, and nothing is started. */
  predicate LeftAlone(e: State, n: nat, d: Client) {
    && e.kill && e.before == 1 && e.started == multiset{} && QueueOf(e, d) == [Some(0)] && |e.workers| == n
  }

  lemma {:induction false} PushAll(s: State, run: seq<Action>, c: Client, d: Client, i: nat)
    returns (longer: seq<Action>)
    requires c != d && i <= |s.workers| && s.workers != []
    requires Possible(s, run)
    requires var e := Outcome(s, run);
             && LeftAlone(e, |s.workers|, d) && StopperOf(e, c) == Pushing(0)
             && QueueOf(e, c) == [] && e.workers == s.workers
    ensures Possible(s, longer)
    ensures var e := Outcome(s, longer);
            && LeftAlone(e, |s.workers|, d) && QueueOf(e, c) == Nulls(i) && e.workers == s.workers
            && StopperOf(e, c) == if i < |s.workers| then Pushing(i) else Joining(0)
  {
    if i == 0 {
      longer := run;
    } else {
      longer := PushAll(s, run, c, d, i - 1);
      longer := Extend(s, longer, PushNull(c));
      assert Nulls(i - 1) + [None] == Nulls(i);
    }
  }

  /** The first `i` workers take a null and leave. */
  lemma {:induction false} AllLeave(s: State, run: seq<Action>, c: Client, d: Client, i: nat)
    returns (longer: seq<Action>)
    requires c != d && i <= |s.workers| && Possible(s, run)
    requires var e := Outcome(s, run);
             && LeftAlone(e, |s.workers|, d) && StopperOf(e, c) == Joining(0) && QueueOf(e, c) == Nulls(|s.workers|)
             && forall w :: 0 <= w < |s.workers| ==> e.workers[w].Waiting?
    ensures Possible(s, longer)
    ensures var e := Outcome(s, longer);
            && LeftAlone(e, |s.workers|, d) && StopperOf(e, c) == Joining(0) && QueueOf(e, c) == Nulls(|s.workers| - i)
            && (forall w :: 0 <= w < i ==> e.workers[w].Exited?)
            && (forall w :: i <= w < |s.workers| ==> e.workers[w].Waiting?)
  {
    if i == 0 {
      longer := run;
    } else {
      longer := AllLeave(s, run, c, d, i - 1);
      longer := Extend(s, longer, Claim(i - 1, c));
      longer := Extend(s, longer, Begin(i - 1));
    }
  }

  lemma {:induction false} JoinAll(s: State, run: seq<Action>, c: Client, d: Client, i: nat)
    returns (longer: seq<Action>)
    requires c != d && i < |s.workers| && Possible(s, run)
    requires var e := Outcome(s, run);
             && LeftAlone(e, |s.workers|, d) && StopperOf(e, c) == Joining(0)
             && forall w :: 0 <= w < |s.workers| ==> e.workers[w].Exited?
    ensures Possible(s, longer)
    ensures var e := Outcome(s, longer);
            && LeftAlone(e, |s.workers|, d) && StopperOf(e, c) == Joining(i)
            && forall w :: 0 <= w < |s.workers| ==> e.workers[w].Exited?
  {
    if i == 0 {
      longer := run;
    } else {
      longer := JoinAll(s, run, c, d, i - 1);
      longer := Extend(s, longer, Join(c));
    }
  }
}
