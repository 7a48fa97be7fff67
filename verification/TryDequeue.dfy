/**
  `try_dequeue` over all sub-queues: which one it takes from, and when it finds nothing.

  A sub-queue is the elements published so far with the state of its ticket protocol. Between any two
  atomic accesses of the call other threads may take any steps of that protocol, on any sub-queue.
 */
module TryDequeue {
  import opened Common
  import Tickets

  type Item(==, !new)

  predicate AllEmpty(subs: seq<seq<Item>>) {
    forall i :: 0 <= i < |subs| ==> subs[i] == []
  }

  /** How many of the first `n` sub-queues are not empty. */
  function NonEmpty(subs: seq<seq<Item>>, n: nat): nat
    requires n <= |subs|
  {
    if n == 0 then 0 else NonEmpty(subs, n - 1) + if subs[n - 1] == [] then 0 else 1
  }

  /** The sub-queues that are scored: up to and including the third that is not empty. */
  predicate IsScored(subs: seq<seq<Item>>, i: nat) {
    i < |subs| && NonEmpty(subs, i) < 3
  }

  /** The one with the most elements among those that are scored, and the first of them. */
  ghost predicate IsBest(subs: seq<seq<Item>>, i: nat) {
    && IsScored(subs, i) && subs[i] != []
    && (forall j: nat :: IsScored(subs, j) ==> |subs[j]| <= |subs[i]|)
    && (forall j: nat :: j < i ==> |subs[j]| < |subs[i]|)
  }

  lemma {:induction false} NonEmptyGrows(subs: seq<seq<Item>>, m: nat, n: nat)
    requires m <= n <= |subs|
    ensures NonEmpty(subs, m) <= NonEmpty(subs, n)
    decreases n
  {
    if m < n { NonEmptyGrows(subs, m, n - 1); }
  }

  lemma {:induction false} NoneAtAll(subs: seq<seq<Item>>, n: nat)
    requires n <= |subs|
    ensures NonEmpty(subs, n) == 0 <==> forall i :: 0 <= i < n ==> subs[i] == []
  {
    if n > 0 { NoneAtAll(subs, n - 1); }
  }

  // ---------------------------------------------------------------- one sub-queue

  /** `items` are all elements ever published; `mine`, which no step reads, counts the caller's tickets. */
  datatype Sub = Sub(items: seq<Item>, tickets: Tickets.State, mine: nat)

  /** The elements that nobody has claimed, the oldest first. */
  function Contents(q: Sub): seq<Item> {
    if q.tickets.head <= q.tickets.tail <= |q.items| then q.items[q.tickets.head..q.tickets.tail] else []
  }

  function View(subs: seq<Sub>): (v: seq<seq<Item>>)
    ensures |v| == |subs| && forall i :: 0 <= i < |v| ==> v[i] == Contents(subs[i])
  {
    seq(|subs|, i requires 0 <= i < |subs| => Contents(subs[i]))
  }

  /** How many tickets are in flight. */
  ghost function Flying(q: Sub): nat {
    |Tickets.FlightSet(q.tickets.pc)|
  }

  /** How many tickets the others have taken. */
  function Theirs(q: Sub): int {
    q.tickets.optimistic - q.mine
  }

  ghost predicate Fine(q: Sub, me: Tickets.Tid, alone: bool) {
    && Tickets.Reachable(q.tickets) && |q.items| == q.tickets.tail && me in q.tickets.pc
    && (alone ==> q.tickets.pc.Keys == {me})
  }

  predicate ByOthers(a: Tickets.Action, me: Tickets.Tid) {
    a.Publish? || a.t != me
  }

  /** One step of a thread, or of the producer with the elements `more`. */
  function Act(q: Sub, a: Tickets.Action, more: seq<Item>, me: Tickets.Tid): Sub
    requires Tickets.Enabled(q.tickets, a)
  {
    var takes := a == Tickets.Step(me) && q.tickets.pc[me].TakeTicket?;
    Sub(q.items + more, Tickets.Apply(q.tickets, a), q.mine + if takes then 1 else 0)
  }

  predicate Possible(q: Sub, a: Tickets.Action, more: seq<Item>) {
    Tickets.Enabled(q.tickets, a) && |more| == if a.Publish? then a.count else 0
  }

  /** Nothing ever goes back; with `alone` nobody else takes tickets. */
  ghost predicate Grown(q: Sub, q': Sub, alone: bool) {
    && q.items <= q'.items && q.tickets.tail <= q'.tickets.tail && q.tickets.head <= q'.tickets.head
    && q.tickets.overcommit <= q'.tickets.overcommit && q.tickets.optimistic <= q'.tickets.optimistic
    && q.mine <= q'.mine && Theirs(q) <= Theirs(q') && (alone ==> Theirs(q) == Theirs(q'))
  }

  /** Only others have done something. */
  ghost predicate Left(q: Sub, q': Sub, me: Tickets.Tid, alone: bool) {
    && Grown(q, q', alone) && q.mine == q'.mine
    && me in q.tickets.pc && me in q'.tickets.pc && q.tickets.pc[me] == q'.tickets.pc[me]
    && (alone ==> q.tickets.head == q'.tickets.head)
  }

  lemma ActIsFine(q: Sub, a: Tickets.Action, more: seq<Item>, me: Tickets.Tid, alone: bool)
    requires Fine(q, me, alone) && Possible(q, a, more)
    ensures Fine(Act(q, a, more, me), me, alone)
  {
    Tickets.ReachableGoesOn(q.tickets, a);
  }

  lemma OthersAct(q: Sub, a: Tickets.Action, more: seq<Item>, me: Tickets.Tid, alone: bool)
    requires Fine(q, me, alone) && Possible(q, a, more) && ByOthers(a, me)
    ensures Left(q, Act(q, a, more, me), me, alone)
  {}

  lemma IAct(q: Sub, a: Tickets.Action, me: Tickets.Tid, alone: bool)
    requires Fine(q, me, alone) && Possible(q, a, []) && !a.Publish? && a.t == me
    ensures Grown(q, Act(q, a, [], me), alone)
    ensures !(a.Step? && q.tickets.pc[me].TakeIndex?) ==> Act(q, a, [], me).tickets.head == q.tickets.head
    ensures !(a.Step? && q.tickets.pc[me].TakeIndex?) ==> Contents(Act(q, a, [], me)) == Contents(q)
  {}

  /** What others may have done is transitive. */
  lemma LeftAgain(q: Sub, q': Sub, q'': Sub, me: Tickets.Tid, alone: bool)
    requires Left(q, q', me, alone) && Left(q', q'', me, alone)
    ensures Left(q, q'', me, alone)
  {}

  lemma ClaimIsThere(q: Sub, me: Tickets.Tid, alone: bool)
    requires Fine(q, me, alone) && q.tickets.pc[me].TakeIndex?
    ensures q.tickets.head < q.tickets.tail == |q.items|
    ensures Contents(q) != [] && Contents(q)[0] == q.items[q.tickets.head]
    ensures Contents(Act(q, Tickets.Step(me), [], me)) == Contents(q)[1..]
  {
    Tickets.ReachableIsInvariant(q.tickets);
    Tickets.PassedAtMostTail(q.tickets);
    assert me in Tickets.WinnerSet(q.tickets.pc);
  }

  // ---------------------------------------------------------------- finding nothing

  type History = seq<seq<Sub>>

  /**
    All elements that were unclaimed in `q` are matched by tickets that others had in flight then, or have
    taken up to `q'`. When nobody else consumes, that is to say that there were none.
   */
  ghost predicate Matched(q: Sub, q': Sub, me: Tickets.Tid) {
    && me in q.tickets.pc && !Tickets.InFlight(q.tickets.pc[me])
    && |Contents(q)| <= Flying(q) + Theirs(q') - Theirs(q)
  }

  /** That is so of sub-queue `i` as it was at some time from state number `from` on. */
  ghost predicate WasMatched(past: History, i: nat, from: nat, me: Tickets.Tid) {
    exists k :: from <= k < |past| && i < |past[k]| && i < |past[|past| - 1]|
                && Matched(past[k][i], past[|past| - 1][i], me)
  }

  lemma StillMatched(past: History, past': History, i: nat, from: nat, me: Tickets.Tid, alone: bool)
    requires past != [] && past <= past' && WasMatched(past, i, from, me)
    requires i < |past'[|past'| - 1]| && Grown(past[|past| - 1][i], past'[|past'| - 1][i], alone)
    ensures WasMatched(past', i, from, me)
  {
    var k :| from <= k < |past| && i < |past[k]| && i < |past[|past| - 1]|
        && Matched(past[k][i], past[|past| - 1][i], me);
    assert past'[k] == past[k];
    assert Matched(past'[k][i], past'[|past'| - 1][i], me);
  }

  lemma SizeOfContents(q: Sub, me: Tickets.Tid, alone: bool)
    requires Fine(q, me, alone)
    ensures q.tickets.head <= q.tickets.tail && |Contents(q)| == q.tickets.tail - q.tickets.head
    ensures q.tickets.optimistic == q.tickets.head + q.tickets.overcommit + Flying(q)
  {
    Tickets.ReachableIsInvariant(q.tickets);
    Tickets.PassedAtMostTail(q.tickets);
  }

  // ---------------------------------------------------------------- the queue

  /** At the sub-queues other than `i` only others have done something. */
  ghost predicate LeftElsewhere(subs: seq<Sub>, subs': seq<Sub>, i: int, me: Tickets.Tid, alone: bool) {
    |subs| == |subs'| && forall j :: 0 <= j < |subs| && j != i ==> Left(subs[j], subs'[j], me, alone)
  }

  /** Others have left `before` of sub-queue `i`, and there the caller has taken step `a`. */
  ghost predicate Stepped(s: seq<Sub>, s': seq<Sub>, before: Sub, i: nat, a: Tickets.Action, me: Tickets.Tid,
                          alone: bool) {
    && i < |s| && LeftElsewhere(s, s', i, me, alone) && Fine(before, me, alone) && Left(s[i], before, me, alone)
    && Possible(before, a, []) && s'[i] == Act(before, a, [], me) && Grown(s[i], s'[i], alone)
  }

  lemma LeftElsewhereAgain(a: seq<Sub>, b: seq<Sub>, c: seq<Sub>, i: int, me: Tickets.Tid, alone: bool)
    requires LeftElsewhere(a, b, i, me, alone) && LeftElsewhere(b, c, i, me, alone)
    ensures LeftElsewhere(a, c, i, me, alone)
  {
    forall j | 0 <= j < |a| && j != i ensures Left(a[j], c[j], me, alone) { LeftAgain(a[j], b[j], c[j], me, alone); }
  }

  lemma SeenStays(past: History, past': History, from: nat, i: nat, q: Sub)
    requires Seen(past, from, i, q) && past <= past'
    ensures Seen(past', from, i, q)
  {
    var k :| from <= k < |past| && i < |past[k]| && past[k][i] == q;
    assert past'[k] == past[k];
  }

  /** `q` is what sub-queue `i` was at some time from state number `from` on. */
  ghost predicate Seen(past: History, from: nat, i: nat, q: Sub) {
    exists k :: from <= k < |past| && i < |past[k]| && past[k][i] == q
  }

  function Held(pc: Tickets.Pc): nat {
    if Tickets.InFlight(pc) then 1 else 0
  }

  /** The call began in `q`, loaded the tail in `first`, and has taken at most one ticket and no element up to `q'`. */
  ghost predicate Begins(q: Sub, first: Sub, q': Sub, me: Tickets.Tid, alone: bool) {
    && Grown(q, first, alone) && Grown(first, q', alone) && q.mine == first.mine
    && me in q.tickets.pc && me in first.tickets.pc && !Tickets.InFlight(first.tickets.pc[me])
    && first.tickets.optimistic == first.tickets.head + first.tickets.overcommit + Flying(first)
    && first.tickets.head <= first.tickets.tail == |first.items|
    && (alone ==> q.tickets.head == first.tickets.head == q'.tickets.head && first.tickets.pc.Keys == {me})
    && Tickets.Since(first.tickets, q'.tickets, me)
    && q'.mine == first.mine + Held(q'.tickets.pc[me])
    && (Tickets.Pending(q'.tickets.pc[me]) ==> q'.tickets.pc[me].ticket - first.mine <= Theirs(q'))
  }

  /** The registers of a caller whom nobody disturbs. */
  predicate Undisturbed(q: Tickets.State, pc: Tickets.Pc) {
    match pc
    case Idle => q.optimistic - q.overcommit >= q.tail
    case LoadOvercommit(l) => l == q.tail
    case LoadOptimistic(l, o) => l == q.tail && o == q.overcommit
    case TakeTicket(o) => o == q.overcommit && q.optimistic - o < q.tail
    case ReloadTail(k, o) => k == q.optimistic && o == q.overcommit && k - o < q.tail
    case Compare(k, o, l) => k == q.optimistic && o == q.overcommit && k - o < l == q.tail
    case TakeIndex(k) => k == q.optimistic && k - q.overcommit < q.tail
    case _ => false
  }

  /** Only the caller has done something, which was to move to `pc`, maybe with a ticket. */
  ghost predicate OnlyMoved(q: Sub, q': Sub, pc: Tickets.Pc, me: Tickets.Tid) {
    && q'.items == q.items && q'.tickets.tail == q.tickets.tail && q'.tickets.head == q.tickets.head
    && q'.tickets.overcommit == q.tickets.overcommit && q'.tickets.optimistic == q.tickets.optimistic + Held(pc)
    && q'.tickets.pc == q.tickets.pc[me := pc] && Undisturbed(q.tickets, pc)
  }

  lemma FirstLoad(q: Sub, first: Sub, me: Tickets.Tid, alone: bool)
    requires Fine(first, me, alone) && me in q.tickets.pc && q.tickets.pc[me].Idle? && first.tickets.pc[me].LoadTail?
    requires Left(Act(q, Tickets.Start(me), [], me), first, me, alone)
    ensures var q' := Act(first, Tickets.Step(me), [], me);
            && Begins(q, first, q', me, alone) && q'.tickets.pc[me].LoadOvercommit?
            && (first == Act(q, Tickets.Start(me), [], me) ==>
                  OnlyMoved(q, q', Tickets.LoadOvercommit(q.tickets.tail), me))
  {
    SizeOfContents(first, me, alone);
  }

  /** The steps between the load of the tail and a claim. */
  predicate Amid(pc: Tickets.Pc) {
    pc.LoadOvercommit? || pc.LoadOptimistic? || pc.TakeTicket? || pc.ReloadTail? || pc.Compare?
  }

  /** The others do something, and then the caller goes on. */
  lemma GoesOn(q: Sub, first: Sub, p: Sub, p': Sub, me: Tickets.Tid, alone: bool)
    requires Begins(q, first, p, me, alone) && Left(p, p', me, alone) && Amid(p.tickets.pc[me])
    ensures var p'' := Act(p', Tickets.Step(me), [], me);
            && Begins(q, first, p'', me, alone) && Follows(p.tickets.pc[me], p''.tickets.pc[me])
            && (p''.tickets.pc[me].Idle? || p''.tickets.pc[me].Repay? ==> Matched(first, p'', me))
  {
    if Tickets.Refusing(p'.tickets, me) { RefusalMatches(first, p', me, alone); }
  }

  lemma GoesOnUndisturbed(q: Sub, p: Sub, me: Tickets.Tid)
    requires me in p.tickets.pc && Amid(p.tickets.pc[me]) && OnlyMoved(q, p, p.tickets.pc[me], me)
    ensures var p' := Act(p, Tickets.Step(me), [], me); OnlyMoved(q, p', p'.tickets.pc[me], me)
  {}

  /** A refusal, in the first check or the second, means that what was there is matched. */
  lemma RefusalMatches(first: Sub, p: Sub, me: Tickets.Tid, alone: bool)
    requires Begins(first, first, p, me, alone) && Tickets.Refusing(p.tickets, me)
    ensures Matched(first, Act(p, Tickets.Step(me), [], me), me)
  {}

  /** The order of the steps of `dequeue`. */
  predicate Follows(pc: Tickets.Pc, pc': Tickets.Pc) {
    match pc
    case LoadOvercommit(_) => pc'.LoadOptimistic?
    case LoadOptimistic(_, _) => pc'.TakeTicket? || pc'.Idle?
    case TakeTicket(_) => pc'.ReloadTail?
    case ReloadTail(_, _) => pc'.Compare?
    case Compare(_, _, _) => pc'.TakeIndex? || pc'.Repay?
    case _ => true
  }

  lemma RepayEnds(q: Sub, first: Sub, p: Sub, p': Sub, me: Tickets.Tid, alone: bool)
    requires Begins(q, first, p, me, alone) && Left(p, p', me, alone) && p.tickets.pc[me].Repay?
             && Matched(first, p, me)
    ensures var p'' := Act(p', Tickets.Step(me), [], me);
            && Grown(q, p'', alone) && p''.tickets.pc[me].Idle? && Matched(first, p'', me)
            && (alone ==> p''.tickets.head == q.tickets.head)
  {}

  lemma FinishEnds(q: Sub, p: Sub, p': Sub, me: Tickets.Tid, alone: bool)
    requires Grown(q, p, alone) && Left(p, p', me, alone) && p.tickets.pc[me].Claimed?
    ensures var p'' := Act(p', Tickets.Finish(me), [], me);
            && Grown(q, p'', alone) && p''.tickets.pc[me].Idle? && Contents(p'') == Contents(p')
            && p''.tickets.pc == p'.tickets.pc[me := Tickets.Idle]
  {}

  lemma SeenMatched(past: History, from: nat, i: nat, first: Sub, me: Tickets.Tid)
    requires past != [] && Seen(past, from, i, first) && i < |past[|past| - 1]|
             && Matched(first, past[|past| - 1][i], me)
    ensures WasMatched(past, i, from, me)
  {
    var k :| from <= k < |past| && i < |past[k]| && past[k][i] == first;
    assert Matched(past[k][i], past[|past| - 1][i], me);
  }

  /** An undisturbed `dequeue` came from `q` to `q'`. */
  ghost predicate QuietResult(q: Sub, q': Sub, r: Option<Item>) {
    && q'.tickets.pc == q.tickets.pc && (r.None? <==> |Contents(q)| <= Flying(q))
    && Contents(q) == match r case None => Contents(q')
                      case Some(x) => [x] + Contents(q')
  }

  lemma QuietRefusal(q: Sub, p: Sub, me: Tickets.Tid, alone: bool)
    requires Fine(q, me, alone) && q.tickets.pc[me].Idle? && OnlyMoved(q, p, Tickets.Idle, me)
    ensures QuietResult(q, p, None)
  {
    SizeOfContents(q, me, alone);
    assert p.tickets.pc == q.tickets.pc;
  }

  lemma QuietSuccess(q: Sub, p: Sub, p': Sub, x: Item, me: Tickets.Tid, alone: bool)
    requires Fine(q, me, alone) && q.tickets.pc[me].Idle? && OnlyTaken(q, p, x, me)
    requires p'.tickets.pc == p.tickets.pc[me := Tickets.Idle] && Contents(p') == Contents(p)
    ensures QuietResult(q, p', Some(x))
  {
    SizeOfContents(q, me, alone);
    assert p'.tickets.pc == q.tickets.pc;
  }

  /** The only consumer is refused by an empty sub-queue. */
  lemma Refused(q: Sub, first: Sub, p: Sub, me: Tickets.Tid, alone: bool)
    requires Fine(q, me, alone) && Begins(q, first, p, me, alone) && Matched(first, p, me)
    ensures alone ==> Contents(q) == []
  {
    SizeOfContents(q, me, alone);
    if alone {
      assert Tickets.FlightSet(first.tickets.pc) == {};
      assert |Contents(first)| == first.tickets.tail - first.tickets.head;
    }
  }

  /** Between states `k` and `k + 1`, `x` was taken from sub-queue `i`, as its oldest element. */
  ghost predicate TookAt(past: History, k: nat, i: nat, x: Item) {
    k + 1 < |past| && TakenFrom(View(past[k]), View(past[k + 1]), i, x)
  }

  ghost predicate Took(past: History, from: nat, i: nat, x: Item) {
    exists k: nat :: from <= k && TookAt(past, k, i, x)
  }

  lemma StillTook(past: History, past': History, from: nat, i: nat, x: Item)
    requires Took(past, from, i, x) && past <= past'
    ensures Took(past', from, i, x)
  {
    var k: nat :| from <= k && TookAt(past, k, i, x);
    assert past'[k] == past[k];
    assert past'[k + 1] == past[k + 1];
    assert TookAt(past', k, i, x);
  }

  /** The last thing that happened is that the caller has claimed `x`, which was the oldest element there. */
  ghost predicate JustTook(past: History, before: Sub, now: Sub, i: nat, x: Item, me: Tickets.Tid) {
    && |past| > 1 && TookAt(past, |past| - 2, i, x) && Contents(before) == [x] + Contents(now)
    && me in now.tickets.pc
    && var pc := now.tickets.pc[me]; pc.Claimed? && pc.index < |now.items| && x == now.items[pc.index]
  }

  lemma ClaimTakes(past: History, s: seq<Sub>, now: seq<Sub>, before: Sub, i: nat, me: Tickets.Tid, alone: bool)
    returns (x: Item)
    requires |past| > 1 && past[|past| - 1] == now && i < |past[|past| - 2]| && past[|past| - 2][i] == before
    requires Stepped(s, now, before, i, Tickets.Step(me), me, alone) && s[i].tickets.pc[me].TakeIndex?
    requires now == past[|past| - 2][i := now[i]]
    ensures JustTook(past, before, now[i], i, x, me)
  {
    ClaimIsThere(before, me, alone);
    x := before.items[before.tickets.head];
    assert View(now) == View(past[|past| - 2])[i := Contents(now[i])];
  }

  /** The oldest element is all that is gone, and no ticket but the caller's has been taken. */
  ghost predicate OnlyTaken(q: Sub, q': Sub, x: Item, me: Tickets.Tid) {
    && Contents(q) == [x] + Contents(q') && me in q.tickets.pc && me in q'.tickets.pc
    && q'.tickets.pc == q.tickets.pc[me := q'.tickets.pc[me]]
    && q.tickets.optimistic - q.tickets.overcommit < q.tickets.tail
  }

  lemma ClaimOnlyTakes(q: Sub, p: Sub, x: Item, me: Tickets.Tid)
    requires me in q.tickets.pc && me in p.tickets.pc && p.tickets.pc[me].TakeIndex?
             && OnlyMoved(q, p, p.tickets.pc[me], me)
    requires var p' := Act(p, Tickets.Step(me), [], me); Contents(p) == [x] + Contents(p')
    ensures OnlyTaken(q, Act(p, Tickets.Step(me), [], me), x, me)
  {}

  // ---------------------------------------------------------------- all of them

  /** An undisturbed `dequeue` would fail. */
  ghost predicate Untakable(q: Sub) {
    |Contents(q)| <= Flying(q)
  }

  /** Nothing has been taken by the caller. */
  ghost predicate SoFar(q: Sub, q': Sub, me: Tickets.Tid, alone: bool, quiet: bool) {
    && Fine(q, me, alone) && Grown(q, q', alone) && me in q'.tickets.pc && q'.tickets.pc[me].Idle?
    && (alone ==> q'.tickets.head == q.tickets.head)
    && (quiet ==> q'.tickets.pc == q.tickets.pc && Contents(q') == Contents(q))
  }

  ghost predicate AllSoFar(was: seq<Sub>, s: seq<Sub>, me: Tickets.Tid, alone: bool, quiet: bool) {
    |was| == |s| && forall j :: 0 <= j < |s| ==> SoFar(was[j], s[j], me, alone, quiet)
  }

  lemma StillLooking(was: seq<Sub>, s: seq<Sub>, s': seq<Sub>, me: Tickets.Tid, alone: bool, quiet: bool)
    requires AllSoFar(was, s, me, alone, quiet) && LeftElsewhere(s, s', |s|, me, alone) && (quiet ==> s' == s)
    ensures AllSoFar(was, s', me, alone, quiet)
  {
    forall j | 0 <= j < |s'| ensures SoFar(was[j], s'[j], me, alone, quiet) {
      assert SoFar(was[j], s[j], me, alone, quiet) && Left(s[j], s'[j], me, alone);
    }
  }

  /** Sub-queue `j` has been tried in vain. */
  ghost predicate Missed(past: History, was: seq<Sub>, from: nat, j: nat, me: Tickets.Tid, alone: bool, quiet: bool) {
    && j < |was| && WasMatched(past, j, from, me)
    && (alone ==> Contents(was[j]) == []) && (quiet ==> Untakable(was[j]))
  }

  ghost predicate MissedUpTo(past: History, was: seq<Sub>, from: nat, n: nat, me: Tickets.Tid, alone: bool,
                             quiet: bool) {
    forall j: nat :: j < n ==> Missed(past, was, from, j, me, alone, quiet)
  }

  lemma OneMoreMissed(past: History, was: seq<Sub>, from: nat, n: nat, me: Tickets.Tid, alone: bool, quiet: bool)
    requires MissedUpTo(past, was, from, n, me, alone, quiet) && Missed(past, was, from, n, me, alone, quiet)
    ensures MissedUpTo(past, was, from, n + 1, me, alone, quiet)
  {}

  ghost predicate AllGrown(s: seq<Sub>, s': seq<Sub>, alone: bool) {
    |s| == |s'| && forall j :: 0 <= j < |s| ==> Grown(s[j], s'[j], alone)
  }

  lemma StillMissed(past: History, past': History, was: seq<Sub>, from: nat, j: nat, me: Tickets.Tid, alone: bool,
                    quiet: bool)
    requires past != [] && past <= past' && AllGrown(past[|past| - 1], past'[|past'| - 1], alone)
             && |was| == |past[|past| - 1]|
    requires Missed(past, was, from, j, me, alone, quiet)
    ensures Missed(past', was, from, j, me, alone, quiet)
  {
    StillMatched(past, past', j, from, me, alone);
  }

  lemma StillMissedUpTo(past: History, past': History, was: seq<Sub>, from: nat, n: nat, me: Tickets.Tid, alone: bool,
                        quiet: bool)
    requires past != [] && past <= past' && AllGrown(past[|past| - 1], past'[|past'| - 1], alone)
             && |was| == |past[|past| - 1]|
    requires MissedUpTo(past, was, from, n, me, alone, quiet)
    ensures MissedUpTo(past', was, from, n, me, alone, quiet)
  {
    forall j: nat | j < n ensures Missed(past', was, from, j, me, alone, quiet) {
      StillMissed(past, past', was, from, j, me, alone, quiet);
    }
  }

  /** The variables of the scoring loop. */
  datatype Scores = Scores(count: nat, best: Option<nat>, size: nat)

  /** Their values when `i` sub-queues have been scored undisturbed. */
  ghost function ScoresOf(was: seq<Sub>, i: nat): Scores
    requires i <= |was|
  {
    if i == 0 then Scores(0, None, 0)
    else WithScore(ScoresOf(was, i - 1), i - 1, |Contents(was[i - 1])|)
  }

  function WithScore(s: Scores, i: nat, n: nat): Scores {
    if n == 0 then s
    else if n > s.size then Scores(s.count + 1, Some(i), n)
    else s.(count := s.count + 1)
  }

  predicate SoundScores(s: Scores, i: nat) {
    && (s.best.None? <==> s.count == 0) && (s.best.None? ==> s.size == 0) && (s.best.Some? ==> s.best.value < i)
  }

  lemma {:induction false} ScoresMean(was: seq<Sub>, i: nat)
    requires i <= |was| && (i > 0 ==> ScoresOf(was, i - 1).count < 3)
    ensures var s := ScoresOf(was, i); Scored(View(was), i, s.count, s.best, s.size)
  {
    if i > 0 {
      ScoresMean(was, i - 1);
      var s := ScoresOf(was, i - 1);
      ScoredNext(View(was), i - 1, s.count, s.best, s.size);
    }
  }

  /** The first of the fullest scored sub-queues, or none when all are empty. */
  ghost predicate ScoresBest(was: seq<Sub>, best: Option<nat>) {
    && (best.None? <==> AllEmpty(View(was)))
    && (best.Some? ==> IsBest(View(was), best.value))
  }

  lemma ScoresChoose(was: seq<Sub>, i: nat)
    requires i <= |was| && (i > 0 ==> ScoresOf(was, i - 1).count < 3) && (ScoresOf(was, i).count >= 3 || i == |was|)
    ensures ScoresBest(was, ScoresOf(was, i).best)
  {
    ScoresMean(was, i);
    var s := ScoresOf(was, i);
    ScoredMeans(View(was), i, s.count, s.best, s.size);
  }

  /** A tail that the head has reached later. */
  lemma LooksEmpty(q: Sub, first: Sub, now: Sub, me: Tickets.Tid, alone: bool)
    requires Fine(q, me, alone) && Fine(first, me, alone) && Fine(now, me, alone) && first.tickets.pc[me].Idle?
    requires Grown(q, first, alone) && Left(first, now, me, alone) && first.tickets.tail <= now.tickets.head
    requires alone ==> q.tickets.head == first.tickets.head
    ensures Matched(first, now, me) && (alone ==> Contents(q) == [])
            && (first == now ==> Untakable(first) && Contents(first) == [])
  {
    SizeOfContents(q, me, alone);
    SizeOfContents(first, me, alone);
    SizeOfContents(now, me, alone);
  }

  /** `x` was the oldest element of sub-queue `i`, which had more elements than tickets, and nothing else is gone. */
  ghost predicate QuietlyTaken(was: seq<Sub>, s: seq<Sub>, i: nat, x: Item) {
    i < |was| && !Untakable(was[i]) && TakenFrom(View(was), View(s), i, x)
  }

  /** The best sub-queue, or if nothing can be taken there, the first where something can. */
  ghost predicate FirstTakable(was: seq<Sub>, i: nat) {
    && i < |was|
    && exists best: nat :: IsBest(View(was), best)
         && (i == best || (Untakable(was[best]) && forall j :: 0 <= j < i ==> Untakable(was[j])))
  }

  lemma AfterDequeue(was: seq<Sub>, s: seq<Sub>, s': seq<Sub>, i: nat, r: Option<Item>, me: Tickets.Tid, alone: bool,
                     quiet: bool)
    requires AllSoFar(was, s, me, alone, quiet) && i < |s| && LeftElsewhere(s, s', i, me, alone)
    requires Grown(s[i], s'[i], alone) && me in s'[i].tickets.pc && s'[i].tickets.pc[me].Idle?
    requires alone && r.None? ==> Contents(s[i]) == [] && s'[i].tickets.head == s[i].tickets.head
    requires forall j :: 0 <= j < |s| ==> Fine(s[j], me, alone)
    requires quiet ==> s' == s[i := s'[i]] && QuietResult(s[i], s'[i], r)
    ensures AllGrown(s, s', alone) && forall j :: 0 <= j < |s'| ==> me in s'[j].tickets.pc && s'[j].tickets.pc[me].Idle?
    ensures r.None? ==> AllSoFar(was, s', me, alone, quiet)
    ensures r.None? ==> (alone ==> Contents(was[i]) == []) && (quiet ==> Untakable(was[i]))
    ensures r.Some? && quiet ==> QuietlyTaken(was, s', i, r.value)
  {
    forall j | 0 <= j < |s'|
      ensures Grown(s[j], s'[j], alone) && me in s'[j].tickets.pc && s'[j].tickets.pc[me].Idle?
      ensures r.None? ==> SoFar(was[j], s'[j], me, alone, quiet)
    {
      assert SoFar(was[j], s[j], me, alone, quiet);
      if j != i { assert Left(s[j], s'[j], me, alone); }
    }
    assert SoFar(was[i], s[i], me, alone, quiet);
    SizeOfContents(was[i], me, alone);
    SizeOfContents(s[i], me, alone);
    if r.Some? && quiet { QuietlyTakes(was, s, s', i, r.value, me, alone); }
  }

  lemma QuietlyTakes(was: seq<Sub>, s: seq<Sub>, s': seq<Sub>, i: nat, x: Item, me: Tickets.Tid, alone: bool)
    requires AllSoFar(was, s, me, alone, true) && i < |s| == |s'| && s' == s[i := s'[i]]
             && QuietResult(s[i], s'[i], Some(x))
    ensures QuietlyTaken(was, s', i, x)
  {
    forall j | 0 <= j < |s| ensures Contents(s[j]) == Contents(was[j]) { assert SoFar(was[j], s[j], me, alone, true); }
    assert SoFar(was[i], s[i], me, alone, true);
    assert View(s') == View(was)[i := Contents(s'[i])];
  }

  lemma FromEarlier(past: History, i: nat, at: nat, from: nat, me: Tickets.Tid)
    requires WasMatched(past, i, at, me) && from <= at
    ensures WasMatched(past, i, from, me)
  {
    var k :| at <= k < |past| && i < |past[k]| && i < |past[|past| - 1]|
        && Matched(past[k][i], past[|past| - 1][i], me);
    assert Matched(past[k][i], past[|past| - 1][i], me);
  }

  lemma MissedAsWell(past: History, past': History, s: seq<Sub>, s': seq<Sub>, was: seq<Sub>, from: nat,
                     n: nat, best: nat, me: Tickets.Tid, alone: bool, quiet: bool)
    requires past != [] && past <= past' && past[|past| - 1] == s && past'[|past'| - 1] == s'
    requires AllGrown(s, s', alone) && |was| == |s|
    requires MissedUpTo(past, was, from, n, me, alone, quiet) && Missed(past', was, from, n, me, alone, quiet)
    requires Missed(past, was, from, best, me, alone, quiet)
    ensures MissedUpTo(past', was, from, n + 1, me, alone, quiet) && Missed(past', was, from, best, me, alone, quiet)
  {
    StillMissedUpTo(past, past', was, from, n, me, alone, quiet);
    StillMissed(past, past', was, from, best, me, alone, quiet);
    OneMoreMissed(past', was, from, n, me, alone, quiet);
  }

  ghost predicate AllMatched(past: History, n: nat, from: nat, me: Tickets.Tid) {
    forall i: nat :: i < n ==> WasMatched(past, i, from, me)
  }

  ghost predicate TookFromSome(past: History, from: nat, x: Item) {
    exists i: nat :: Took(past, from, i, x)
  }

  /** What an undisturbed `try_dequeue` comes to. */
  ghost predicate QuietOutcome(was: seq<Sub>, s: seq<Sub>, item: Option<Item>) {
    && (item.None? <==> forall i :: 0 <= i < |was| ==> Untakable(was[i]))
    && match item
       case None => View(s) == View(was)
       case Some(x) => exists i: nat :: FirstTakable(was, i) && QuietlyTaken(was, s, i, x)
  }

  lemma AllMissed(past: History, was: seq<Sub>, s: seq<Sub>, from: nat, me: Tickets.Tid, alone: bool, quiet: bool)
    requires MissedUpTo(past, was, from, |was|, me, alone, quiet) && AllSoFar(was, s, me, alone, quiet)
    ensures AllMatched(past, |was|, from, me)
    ensures alone ==> AllEmpty(View(was))
    ensures quiet ==> QuietOutcome(was, s, None)
  {
    forall i: nat | i < |was|
      ensures WasMatched(past, i, from, me) && (alone ==> Contents(was[i]) == []) && (quiet ==> Untakable(was[i]))
    {
      assert Missed(past, was, from, i, me, alone, quiet);
    }
    forall i | quiet && 0 <= i < |was| ensures Contents(s[i]) == Contents(was[i]) {
      assert SoFar(was[i], s[i], me, alone, quiet);
    }
  }

  lemma BestIsFirst(was: seq<Sub>, s: seq<Sub>, best: nat, x: Item)
    requires IsBest(View(was), best) && QuietlyTaken(was, s, best, x)
    ensures QuietOutcome(was, s, Some(x))
  {
    assert FirstTakable(was, best);
  }

  lemma NextIsFirst(past: History, was: seq<Sub>, s: seq<Sub>, best: nat, i: nat, x: Item, from: nat, me: Tickets.Tid,
                    alone: bool)
    requires IsBest(View(was), best) && i < |was| && Missed(past, was, from, best, me, alone, true)
    requires MissedUpTo(past, was, from, i, me, alone, true) && QuietlyTaken(was, s, i, x)
    ensures QuietOutcome(was, s, Some(x))
  {
    forall j | 0 <= j < i ensures Untakable(was[j]) { assert Missed(past, was, from, j, me, alone, true); }
    assert FirstTakable(was, i);
  }

  class ConcurrentQueue {
    const me: Tickets.Tid
    const quiet: bool   // nobody else does anything during the call
    const alone: bool   // nobody else consumes
    var subs: seq<Sub>   // as the list of producers is walked, the newest first
    ghost var past: History   // every state so far, the present one last

    ghost predicate Valid()
      reads this
    {
      && past != [] && past[|past| - 1] == subs && (forall k :: 0 <= k < |past| ==> |past[k]| == |subs|)
      && forall i :: 0 <= i < |subs| ==> Fine(subs[i], me, alone)
    }

    /** The caller is inside no `dequeue`. */
    ghost predicate Resting()
      reads this
      requires Valid()
    {
      forall i :: 0 <= i < |subs| ==> subs[i].tickets.pc[me].Idle?
    }

    constructor (subs: seq<Sub>, me: Tickets.Tid, quiet: bool, alone: bool)
      requires forall i :: 0 <= i < |subs| ==> Fine(subs[i], me, alone) && subs[i].tickets.pc[me].Idle?
      ensures Valid() && Resting() && this.subs == subs && this.me == me && this.quiet == quiet && this.alone == alone
    {
      this.subs, this.me, this.quiet, this.alone, past := subs, me, quiet, alone, [subs];
    }

    /** What everybody else does. */
    method Others()
      requires Valid()
      modifies this
      ensures Valid() && |subs| == |old(subs)| && old(past) <= past
              && (quiet ==> subs == old(subs) && past == old(past))
      ensures forall i :: 0 <= i < |subs| ==> Left(old(subs)[i], subs[i], me, alone)
    {
      var steps: nat := *;
      if quiet {
        steps := 0;
      }
      while steps > 0
        invariant Valid() && |subs| == |old(subs)| && old(past) <= past
                  && (quiet ==> steps == 0 && subs == old(subs) && past == old(past))
        invariant forall i :: 0 <= i < |subs| ==> Left(old(subs)[i], subs[i], me, alone)
      {
        var i: nat, a: Tickets.Action, more: seq<Item> := *, *, *;
        if i < |subs| && Possible(subs[i], a, more) && ByOthers(a, me) {
          ghost var before := subs[i];
          Change(i, a, more);
          OthersAct(before, a, more, me, alone);
          LeftAgain(old(subs)[i], before, subs[i], me, alone);
        }
        steps := steps - 1;
      }
    }

    method Change(i: nat, a: Tickets.Action, more: seq<Item>)
      requires Valid() && i < |subs| && Possible(subs[i], a, more)
      modifies this
      ensures Valid() && subs == old(subs)[i := Act(old(subs)[i], a, more, me)] && past == old(past) + [subs]
    {
      ActIsFine(subs[i], a, more, me, alone);
      subs := subs[i := Act(subs[i], a, more, me)];
      past := past + [subs];
    }

    /** The caller's next step at sub-queue `i`, after whatever others do first. */
    method Next(i: nat, a: Tickets.Action) returns (ghost before: Sub)
      requires Valid() && i < |subs| && Possible(subs[i], a, []) && !a.Publish? && a.t == me
      modifies this
      ensures Valid() && old(past) < past && |past| > 1 && i < |subs| == |past[|past| - 2]|
              && past[|past| - 2][i] == before
      ensures Stepped(old(subs), subs, before, i, a, me, alone)
      ensures subs == past[|past| - 2][i := subs[i]]
      ensures quiet ==> before == old(subs)[i] && subs == old(subs)[i := subs[i]]
    {
      Others();
      before := subs[i];
      IAct(before, a, me, alone);
      Change(i, a, []);
    }

    /**
      Since state number `from`, in which the sub-queues were `was`, the caller has been in a `dequeue` from
      `i`, and loaded the tail in `first`.
     */
    ghost predicate Inside(was: seq<Sub>, from: nat, i: nat, first: Sub)
      reads this
    {
      && Valid() && i < |subs| == |was| && LeftElsewhere(was, subs, i, me, alone)
      && Seen(past, from, i, first) && Begins(was[i], first, subs[i], me, alone)
      && (quiet ==> subs == was[i := subs[i]] && OnlyMoved(was[i], subs[i], subs[i].tickets.pc[me], me))
    }

    /** The load of the tail. */
    method LoadTail(i: nat) returns (ghost first: Sub)
      requires Valid() && i < |subs| && subs[i].tickets.pc[me].Idle?
      modifies this
      ensures old(past) <= past && Inside(old(subs), |old(past)| - 1, i, first)
      ensures subs[i].tickets.pc[me].LoadOvercommit?
    {
      Change(i, Tickets.Start(me), []);
      first := Next(i, Tickets.Step(me));
      assert past[|past| - 2][i] == first;
      FirstLoad(old(subs)[i], first, me, alone);
    }

    /** The next step of the caller, which does not claim anything yet. */
    method GoOn(i: nat, ghost was: seq<Sub>, ghost from: nat, ghost first: Sub)
      requires Inside(was, from, i, first) && Amid(subs[i].tickets.pc[me])
      modifies this
      ensures old(past) <= past && Inside(was, from, i, first)
      ensures Follows(old(subs)[i].tickets.pc[me], subs[i].tickets.pc[me])
      ensures var pc := subs[i].tickets.pc[me]; pc.Idle? || pc.Repay? ==> Matched(first, subs[i], me)
    {
      ghost var p := subs[i];
      ghost var before := Next(i, Tickets.Step(me));
      GoesOn(was[i], first, p, before, me, alone);
      if quiet { GoesOnUndisturbed(was[i], p, me); }
      LeftElsewhereAgain(was, old(subs), subs, i, me, alone);
      SeenStays(old(past), past, from, i, first);
    }

    /** The element is taken at the index that the caller gets. */
    method TakeIndex(i: nat) returns (x: Item, ghost before: Sub)
      requires Valid() && i < |subs| && subs[i].tickets.pc[me].TakeIndex?
      modifies this
      ensures Valid() && old(past) < past && Stepped(old(subs), subs, before, i, Tickets.Step(me), me, alone)
      ensures |past| - 2 >= |old(past)| - 1 && JustTook(past, before, subs[i], i, x, me)
      ensures quiet ==> before == old(subs)[i] && subs == old(subs)[i := subs[i]]
    {
      before := Next(i, Tickets.Step(me));
      ghost var y := ClaimTakes(past, old(subs), subs, before, i, me, alone);
      x := subs[i].items[subs[i].tickets.pc[me].index];
    }

    /** What it means for the whole `dequeue`. */
    method Claim(i: nat, ghost was: seq<Sub>, ghost from: nat, ghost first: Sub) returns (x: Item)
      requires Inside(was, from, i, first) && subs[i].tickets.pc[me].TakeIndex? && from < |past|
      modifies this
      ensures old(past) <= past && Claimed(was, i) && Took(past, from, i, x)
      ensures quiet ==> subs == was[i := subs[i]] && OnlyTaken(was[i], subs[i], x, me)
    {
      ghost var p := subs[i];
      ghost var before;
      x, before := TakeIndex(i);
      LeftElsewhereAgain(was, old(subs), subs, i, me, alone);
      if quiet { ClaimOnlyTakes(was[i], p, x, me); }
    }

    /** A ticket that cannot be used is given back. */
    method Repay(i: nat, ghost was: seq<Sub>, ghost from: nat, ghost first: Sub)
      requires Inside(was, from, i, first) && subs[i].tickets.pc[me].Repay? && Matched(first, subs[i], me) && !quiet
      modifies this
      ensures old(past) <= past && Ended(was, i) && WasMatched(past, i, from, me)
      ensures alone ==> subs[i].tickets.head == was[i].tickets.head
    {
      ghost var p := subs[i];
      ghost var before := Next(i, Tickets.Step(me));
      RepayEnds(was[i], first, p, before, me, alone);
      LeftElsewhereAgain(was, old(subs), subs, i, me, alone);
      SeenStays(old(past), past, from, i, first);
      SeenMatched(past, from, i, first, me);
    }

    method Finish(i: nat, ghost was: seq<Sub>)
      requires Claimed(was, i)
      modifies this
      ensures old(past) <= past && Ended(was, i)
      ensures quiet && old(subs) == was[i := old(subs)[i]] ==> subs == was[i := subs[i]]
      ensures quiet ==> Contents(subs[i]) == Contents(old(subs)[i])
                        && subs[i].tickets.pc == old(subs)[i].tickets.pc[me := Tickets.Idle]
    {
      ghost var p := subs[i];
      ghost var before := Next(i, Tickets.Finish(me));
      FinishEnds(was[i], p, before, me, alone);
      LeftElsewhereAgain(was, old(subs), subs, i, me, alone);
    }

    /** The `dequeue` from sub-queue `i` is over. */
    ghost predicate Ended(was: seq<Sub>, i: nat)
      reads this
    {
      && Valid() && i < |subs| == |was| && LeftElsewhere(was, subs, i, me, alone)
      && Grown(was[i], subs[i], alone) && subs[i].tickets.pc[me].Idle?
    }

    /** The caller has an index of sub-queue `i`, and the other sub-queues were left to others. */
    ghost predicate Claimed(was: seq<Sub>, i: nat)
      reads this
    {
      && Valid() && i < |subs| == |was| && LeftElsewhere(was, subs, i, me, alone)
      && Grown(was[i], subs[i], alone) && subs[i].tickets.pc[me].Claimed?
    }

    /** The `dequeue` from sub-queue `i`, begun in state number `from`, has ended with `r`. */
    ghost predicate Dequeued(was: seq<Sub>, from: nat, i: nat, r: Option<Item>)
      reads this
    {
      && Ended(was, i)
      && (match r
          case None => WasMatched(past, i, from, me)
                       && (alone ==> Contents(was[i]) == [] && subs[i].tickets.head == was[i].tickets.head)
          case Some(x) => Took(past, from, i, x))
      && (quiet ==> subs == was[i := subs[i]] && QuietResult(was[i], subs[i], r))
    }

    /**
      `ImplicitProducer::dequeue`. Whatever the others do, it fails only when all that was there is matched
      by tickets of others. Undisturbed it fails exactly when no more elements are unclaimed than tickets are
      in flight, and as the only consumer only if there was nothing as it began.
     */
    method Dequeue(i: nat) returns (r: Option<Item>)
      requires Valid() && i < |subs| && subs[i].tickets.pc[me].Idle?
      modifies this
      ensures old(past) <= past && Dequeued(old(subs), |old(past)| - 1, i, r)
    {
      ghost var was, from := subs, |past| - 1;
      ghost var first := FirstCheck(i);
      if subs[i].tickets.pc[me].Idle? {
        RefusalEnds(i, was, from, first);
        r := None;
      } else {
        SecondCheck(i, was, from, first);
        if subs[i].tickets.pc[me].Repay? {
          Refused(was[i], first, subs[i], me, alone);
          Repay(i, was, from, first);
          r := None;
        } else {
          r := Fetch(i, was, from, first);
        }
      }
    }

    method FirstCheck(i: nat) returns (ghost first: Sub)
      requires Valid() && i < |subs| && subs[i].tickets.pc[me].Idle?
      modifies this
      ensures old(past) <= past && Inside(old(subs), |old(past)| - 1, i, first)
      ensures subs[i].tickets.pc[me].TakeTicket? || subs[i].tickets.pc[me].Idle?
      ensures subs[i].tickets.pc[me].Idle? ==> Matched(first, subs[i], me)
    {
      ghost var was, from := subs, |past| - 1;
      first := LoadTail(i);
      GoOn(i, was, from, first);
      GoOn(i, was, from, first);
    }

    lemma RefusalEnds(i: nat, was: seq<Sub>, from: nat, first: Sub)
      requires Inside(was, from, i, first) && subs[i].tickets.pc[me].Idle? && Matched(first, subs[i], me)
      requires Fine(was[i], me, alone) && was[i].tickets.pc[me].Idle?
      ensures Dequeued(was, from, i, None)
    {
      SeenMatched(past, from, i, first, me);
      Refused(was[i], first, subs[i], me, alone);
      if quiet { QuietRefusal(was[i], subs[i], me, alone); }
    }

    method SecondCheck(i: nat, ghost was: seq<Sub>, ghost from: nat, ghost first: Sub)
      requires Inside(was, from, i, first) && subs[i].tickets.pc[me].TakeTicket?
      modifies this
      ensures old(past) <= past && Inside(was, from, i, first)
      ensures subs[i].tickets.pc[me].TakeIndex? || (subs[i].tickets.pc[me].Repay? && Matched(first, subs[i], me))
    {
      GoOn(i, was, from, first);
      GoOn(i, was, from, first);
      GoOn(i, was, from, first);
    }

    method Fetch(i: nat, ghost was: seq<Sub>, ghost from: nat, ghost first: Sub) returns (r: Option<Item>)
      requires Inside(was, from, i, first) && subs[i].tickets.pc[me].TakeIndex? && from < |past|
      requires Fine(was[i], me, alone) && was[i].tickets.pc[me].Idle?
      modifies this
      ensures old(past) <= past && Dequeued(was, from, i, r) && r.Some?
    {
      var x := Claim(i, was, from, first);
      ghost var p, h := subs[i], past;
      Finish(i, was);
      StillTook(h, past, from, i, x);
      if quiet { QuietSuccess(was[i], p, subs[i], x, me, alone); }
      r := Some(x);
    }

    // -------------------------------------------------------------- all sub-queues

    /** From `was` on, the caller has looked and failed but has not taken anything. */
    ghost predicate Looking(was: seq<Sub>, from: nat)
      reads this
    {
      && Valid() && |subs| == |was| && from < |past|
      && AllSoFar(was, subs, me, alone, quiet)
    }

    lemma StartLooking()
      requires Valid() && Resting()
      ensures Looking(subs, |past| - 1)
    {
      forall j | 0 <= j < |subs| ensures SoFar(subs[j], subs[j], me, alone, quiet) {}
    }

    /** `size_approx`: two loads. */
    method SizeApprox(i: nat, ghost was: seq<Sub>, ghost from: nat) returns (size: nat)
      requires Looking(was, from) && i < |subs|
      modifies this
      ensures old(past) <= past && Looking(was, from) && LeftElsewhere(old(subs), subs, |subs|, me, alone)
      ensures size == 0 ==> Missed(past, was, from, i, me, alone, quiet)
      ensures quiet ==> subs == old(subs) && size == |Contents(was[i])|
    {
      Others();
      ghost var first, at := subs[i], |past| - 1;
      ghost var s1 := subs;
      var tail := subs[i].tickets.tail;
      Others();
      var head := subs[i].tickets.head;
      size := if head < tail then tail - head else 0;
      assert past[at][i] == first;
      LeftElsewhereAgain(old(subs), s1, subs, |subs|, me, alone);
      StillLooking(was, old(subs), subs, me, alone, quiet);
      SizeOfContents(subs[i], me, alone);
      if size == 0 {
        LooksEmpty(was[i], first, subs[i], me, alone);
        assert WasMatched(past, i, from, me);
      }
    }

    /** The scoring loop. */
    method Score() returns (best: Option<nat>)
      requires Valid() && Resting()
      modifies this
      ensures old(past) <= past && Looking(old(subs), |old(past)| - 1)
      ensures best.None? ==> MissedUpTo(past, old(subs), |old(past)| - 1, |subs|, me, alone, quiet)
      ensures best.Some? ==> best.value < |subs|
      ensures quiet ==> subs == old(subs) && ScoresBest(old(subs), best)
    {
      ghost var was, from := subs, |past| - 1;
      StartLooking();
      var s := Scores(0, None, 0);
      var i := 0;
      while s.count < 3 && i < |subs|
        invariant Looking(was, from) && old(past) <= past && (quiet ==> subs == was)
        invariant 0 <= i <= |subs| && SoundScores(s, i)
        invariant s.best.None? ==> MissedUpTo(past, was, from, i, me, alone, quiet)
        invariant quiet ==> s == ScoresOf(was, i) && (i > 0 ==> ScoresOf(was, i - 1).count < 3)
        decreases |subs| - i
      {
        s := ScoreOne(i, s, was, from);
        i := i + 1;
      }
      best := s.best;
      if quiet { ScoresChoose(was, i); }
    }

    /** One turn of it. */
    method ScoreOne(i: nat, s: Scores, ghost was: seq<Sub>, ghost from: nat) returns (s': Scores)
      requires Looking(was, from) && i < |subs| && SoundScores(s, i)
      requires s.best.None? ==> MissedUpTo(past, was, from, i, me, alone, quiet)
      modifies this
      ensures old(past) <= past && Looking(was, from) && SoundScores(s', i + 1)
      ensures s'.best.None? ==> MissedUpTo(past, was, from, i + 1, me, alone, quiet)
      ensures quiet ==> subs == old(subs) && s' == WithScore(s, i, |Contents(was[i])|)
    {
      ghost var before, t := past, subs;
      var size := SizeApprox(i, was, from);
      s' := s;
      if size > 0 {
        if size > s.size {
          s' := s'.(size := size, best := Some(i));
        }
        s' := s'.(count := s'.count + 1);
      }
      assert AllGrown(t, subs, alone) by {
        forall j | 0 <= j < |t| ensures Grown(t[j], subs[j], alone) { assert Left(t[j], subs[j], me, alone); }
      }
      if s'.best.None? {
        StillMissedUpTo(before, past, was, from, i, me, alone, quiet);
        OneMoreMissed(past, was, from, i, me, alone, quiet);
      }
    }

    /** A `dequeue` from one of them. */
    method Attempt(i: nat, ghost was: seq<Sub>, ghost from: nat) returns (r: Option<Item>)
      requires Looking(was, from) && i < |subs|
      modifies this
      ensures old(past) <= past && Valid() && Resting() && AllGrown(old(subs), subs, alone)
      ensures r.None? ==> Looking(was, from) && Missed(past, was, from, i, me, alone, quiet)
      ensures r.Some? ==> Took(past, from, i, r.value)
      ensures r.Some? && quiet ==> QuietlyTaken(was, subs, i, r.value)
    {
      ghost var s := subs;
      ghost var at := |past| - 1;
      assert SoFar(was[i], s[i], me, alone, quiet);
      r := Dequeue(i);
      AfterDequeue(was, s, subs, i, r, me, alone, quiet);
      if r.None? { FromEarlier(past, i, at, from, me); }
    }

    /**
      None is returned only when, of every sub-queue, all that was there at some time during the call was
      matched by tickets of others; as the only consumer, only when all were empty as the call began.
      Undisturbed, none is returned exactly when no sub-queue has more elements than tickets in flight, and
      otherwise the oldest element of the best one, or if that cannot be had, of the first that can.
     */
    method TryDequeue() returns (item: Option<Item>)
      requires Valid() && Resting()
      modifies this
      ensures Valid() && Resting() && |subs| == |old(subs)| && old(past) <= past
      ensures item.None? ==> AllMatched(past, |subs|, |old(past)| - 1, me)
      ensures item.Some? ==> TookFromSome(past, |old(past)| - 1, item.value)
      ensures alone && item.None? ==> AllEmpty(View(old(subs)))
      ensures quiet ==> QuietOutcome(old(subs), subs, item)
    {
      ghost var was, from := subs, |past| - 1;
      item := None;
      var best := Score();
      if best.Some? {
        item := Attempt(best.value, was, from);
        if item.Some? {
          if quiet { BestIsFirst(was, subs, best.value, item.value); }
        } else {
          item := TryOthers(best.value, was, from);
        }
      }
      if item.None? { AllMissed(past, was, subs, from, me, alone, quiet); }
    }

    /** Every other sub-queue in turn. */
    method TryOthers(best: nat, ghost was: seq<Sub>, ghost from: nat) returns (item: Option<Item>)
      requires Looking(was, from) && best < |subs| && Missed(past, was, from, best, me, alone, quiet)
      requires quiet ==> IsBest(View(was), best)
      modifies this
      ensures old(past) <= past && Valid() && Resting() && |subs| == |was|
      ensures item.None? ==> Looking(was, from) && MissedUpTo(past, was, from, |was|, me, alone, quiet)
      ensures item.Some? ==> TookFromSome(past, from, item.value)
      ensures item.Some? && quiet ==> QuietOutcome(was, subs, item)
    {
      item := None;
      var i := 0;
      while i < |subs|
        invariant Looking(was, from) && old(past) <= past && 0 <= i <= |subs| && item.None?
        invariant Missed(past, was, from, best, me, alone, quiet) && MissedUpTo(past, was, from, i, me, alone, quiet)
        decreases |subs| - i
      {
        item := Another(i, best, was, from);
        if item.Some? {
          return;
        }
        i := i + 1;
      }
    }

    method Another(i: nat, best: nat, ghost was: seq<Sub>, ghost from: nat) returns (item: Option<Item>)
      requires Looking(was, from) && i < |subs| && Missed(past, was, from, best, me, alone, quiet)
      requires MissedUpTo(past, was, from, i, me, alone, quiet) && (quiet ==> IsBest(View(was), best))
      modifies this
      ensures old(past) <= past && Valid() && Resting() && |subs| == |was|
      ensures item.None? ==> Looking(was, from) && MissedUpTo(past, was, from, i + 1, me, alone, quiet)
                             && Missed(past, was, from, best, me, alone, quiet)
      ensures item.Some? ==> TookFromSome(past, from, item.value)
      ensures item.Some? && quiet ==> QuietOutcome(was, subs, item)
    {
      if i == best {
        OneMoreMissed(past, was, from, i, me, alone, quiet);
        return None;
      }
      ghost var before, s := past, subs;
      item := Attempt(i, was, from);
      if item.None? {
        MissedAsWell(before, past, s, subs, was, from, i, best, me, alone, quiet);
      } else if quiet {
        NextIsFirst(before, was, subs, best, i, item.value, from, me, alone);
      }
    }
  }

  /** `x` was the oldest element of sub-queue `i`, and taking it is all that happened. */
  predicate TakenFrom(before: seq<seq<Item>>, after: seq<seq<Item>>, i: nat, x: Item) {
    i < |before| && before[i] != [] && x == before[i][0] && after == before[i := before[i][1..]]
  }

  /** What the scoring loop has found when it has looked at `i` sub-queues. */
  ghost predicate Scored(subs: seq<seq<Item>>, i: nat, count: nat, best: Option<nat>, size: nat) {
    && i <= |subs| && count == NonEmpty(subs, i) && (i > 0 ==> NonEmpty(subs, i - 1) < 3)
    && (best.None? ==> count == 0 && size == 0)
    && (best.Some? ==> best.value < i && |subs[best.value]| == size > 0
                       && forall j :: 0 <= j < best.value ==> |subs[j]| < size)
    && (forall j :: 0 <= j < i ==> |subs[j]| <= size)
  }

  lemma ScoredNext(subs: seq<seq<Item>>, i: nat, count: nat, best: Option<nat>, size: nat)
    requires Scored(subs, i, count, best, size) && count < 3 && i < |subs|
    ensures var n := |subs[i]|;
            if n == 0 then Scored(subs, i + 1, count, best, size)
            else if n > size then Scored(subs, i + 1, count + 1, Some(i), n)
            else Scored(subs, i + 1, count + 1, best, size)
  {}

  lemma ScoredMeans(subs: seq<seq<Item>>, i: nat, count: nat, best: Option<nat>, size: nat)
    requires Scored(subs, i, count, best, size) && (count >= 3 || i == |subs|)
    ensures best.None? <==> AllEmpty(subs)
    ensures best.Some? ==> IsBest(subs, best.value)
  {
    NoneAtAll(subs, i);
    forall j: nat | IsScored(subs, j) ensures j < i || i == |subs| {
      if i <= j { NonEmptyGrows(subs, i, j); }
    }
    if best.Some? { NonEmptyGrows(subs, best.value, i - 1); }
  }
}
