/**
  The buffered stream over a socket, and how the manager cuts requests out of it.

  A byte is a `char` here. What the peer sends is one sequence of bytes; `recv` hands it over in pieces
  of any size, and may also have nothing yet. Nothing that is handed to the parser may depend on that.
 */
module PlainStream {
  import opened Common
  import opened Strings

  type Bytes = seq<char>

  const TERMINATOR: Bytes := "\r\n\r\n"
  const MAX_HEADER_BYTES: int := 65536
  const CHUNK: nat := 1024       // what `readUntilToken` asks for at a time

  /**
    What `recv` returns: negative for an error, nothing available among them; 0 at the end of the stream; and
    otherwise a number of bytes. `answers` is what the kernel is going to do: fail when negative, or hand over
    so many bytes if it can; when there are no more, it hands over what is asked for.
   */
  function Received(size: nat, unread: Bytes, answers: seq<int>): (ret: int)
    ensures ret <= size && ret <= |unread|
    ensures ret == 0 ==> size == 0 || unread == []
  {
    if answers != [] && answers[0] < 0 then -1
    else
      var most := if size <= |unread| then size else |unread|;
      if answers == [] || answers[0] > most then most
      else if answers[0] == 0 && most > 0 then 1
      else answers[0]
  }

  function Later(answers: seq<int>): seq<int> {
    if answers == [] then [] else answers[1..]
  }

  /** `later` is what is left of `answers`. */
  predicate IsLater(answers: seq<int>, later: seq<int>) {
    |later| <= |answers| && later == answers[|answers| - |later|..]
  }

  /** The last of the answers that were given was a failure. */
  predicate EndedByFailure(answers: seq<int>, later: seq<int>) {
    |later| < |answers| && answers[|answers| - |later| - 1] < 0
  }

  function Least(x: int, y: int): int {
    if x < y then x else y
  }

  /**
    How many of `most` bytes the kernel hands over, to someone who asks again and again for the rest, before
    it fails.
   */
  function Offered(answers: seq<int>, most: nat): (n: nat)
    ensures n <= most
  {
    if most == 0 || answers == [] then most
    else if answers[0] < 0 then 0
    else if answers[0] >= most then most
    else
      var n := if answers[0] == 0 then 1 else answers[0];
      n + Offered(answers[1..], most - n)
  }

  predicate NoFailure(answers: seq<int>) {
    forall i :: 0 <= i < |answers| ==> answers[i] >= 0
  }

  /** Without a failure it hands over all of them. */
  lemma {:induction false} AllIsOffered(answers: seq<int>, most: nat)
    requires NoFailure(answers)
    ensures Offered(answers, most) == most
  {
    if most > 0 && answers != [] && answers[0] < most {
      AllIsOffered(answers[1..], most - if answers[0] == 0 then 1 else answers[0]);
    }
  }

  /** The kernel's answers added up; an answer is never empty. */
  function Total(answers: seq<int>): int {
    if answers == [] then 0 else (if answers[0] == 0 then 1 else answers[0]) + Total(answers[1..])
  }

  lemma {:induction false} TotalIsNatural(answers: seq<int>)
    requires NoFailure(answers)
    ensures Total(answers) >= 0
  {
    if answers != [] { TotalIsNatural(answers[1..]); }
  }

  /** With a failure, it hands over what the answers before it add up to. */
  lemma {:induction false} OfferedBeforeFailure(before: seq<int>, failure: int, later: seq<int>, most: nat)
    requires NoFailure(before) && failure < 0
    ensures Offered(before + [failure] + later, most) == Least(most, Total(before))
  {
    var answers := before + [failure] + later;
    TotalIsNatural(before);
    if before == [] {
      assert answers[0] == failure;
    } else if most > 0 {
      TotalIsNatural(before[1..]);
      assert answers[0] == before[0] && answers[1..] == before[1..] + [failure] + later;
      if before[0] < most {
        OfferedBeforeFailure(before[1..], failure, later, most - if before[0] == 0 then 1 else before[0]);
      }
    }
  }

  /** The kernel's side: `unread` are all bytes still to come, and `answers` may be anything. */
  class Socket {
    var unread: Bytes
    var answers: seq<int>

    constructor (sent: Bytes, answers: seq<int>)
      ensures unread == sent && this.answers == answers
    {
      unread, this.answers := sent, answers;
    }

    method Recv(size: nat) returns (ret: int, data: Bytes)
      modifies this
      ensures ret == Received(size, old(unread), old(answers)) && answers == Later(old(answers))
      ensures |data| == if ret > 0 then ret else 0
      ensures old(unread) == data + unread
    {
      ret := Received(size, unread, answers);
      answers := Later(answers);
      data := [];
      if ret > 0 {
        data, unread := unread[..ret], unread[ret..];
      }
    }
  }

  class Stream {
    const socket: Socket
    var leftover: Bytes
    ghost var consumed: Bytes    // every byte taken out of the stream so far

    /** All that was or will be in the stream, in order. */
    ghost function Whole(): Bytes
      reads this, socket
    {
      consumed + leftover + socket.unread
    }

    /** How much of what lies ahead is in the buffer after a `peek`. */
    ghost function Reach(amount: nat): nat
      reads this, socket
    {
      if |leftover| >= amount then |leftover|
      else |leftover| + Offered(socket.answers, Least(amount - |leftover|, |socket.unread|))
    }

    constructor (socket: Socket)
      ensures this.socket == socket && leftover == [] && consumed == [] && Whole() == socket.unread
    {
      this.socket, leftover, consumed := socket, [], [];
    }

    method InjectBuffer(data: Bytes)
      modifies this
      ensures consumed == old(consumed) && leftover == data + old(leftover)
    {
      leftover := data + leftover;
    }

    /**
      At least `amount` bytes, or all that the kernel hands over before it fails or the stream ends; nothing
      is taken out.
     */
    method Peek(amount: nat) returns (view: Bytes)
      modifies this`leftover, socket
      ensures view == leftover && Whole() == old(Whole())
      ensures old(leftover) <= leftover && |leftover| == old(Reach(amount))
      ensures leftover == old(leftover + socket.unread)[..old(Reach(amount))]
      ensures old(leftover + socket.unread) == leftover + socket.unread
      ensures old(NoFailure(socket.answers)) && |old(leftover)| < amount ==>
                |leftover| == Least(amount, |old(leftover)| + |old(socket.unread)|)
    {
      ghost var all := leftover + socket.unread;
      if NoFailure(socket.answers) && |leftover| < amount {
        AllIsOffered(socket.answers, Least(amount - |leftover|, |socket.unread|));
      }
      var stop := false;
      while !stop && |leftover| < amount
        invariant leftover + socket.unread == all && old(leftover) <= leftover
        invariant if stop then |leftover| == old(Reach(amount)) else Reach(amount) == old(Reach(amount))
        decreases amount - |leftover|, !stop
      {
        ghost var unread := socket.unread;
        var ret, data := socket.Recv(amount - |leftover|);
        if ret <= 0 {
          stop := true;
        } else {
          Associative(leftover, data, socket.unread);
          leftover := leftover + data;
        }
      }
      view := leftover;
      Associative(consumed, old(leftover), old(socket.unread));
      Associative(consumed, leftover, socket.unread);
    }

    /**
      All that `recv` yields up to the first `token`. What came after it goes to the end of the buffer, from
      which nothing is taken: the bytes keep their order exactly when it makes no difference whether what is
      taken comes before or after what was in the buffer.
     */
    method ReadUntilToken(token: Bytes) returns (ok: bool, buffer: Bytes)
      modifies this, socket
      ensures ok ==> match Find(old(socket.unread), token, 0)
                     case Some(i) =>
                       && buffer == old(socket.unread)[..i] && old(leftover) <= leftover
                       && old(socket.unread) == buffer + token + (leftover[|old(leftover)|..] + socket.unread)
                     case None =>
                       buffer == old(socket.unread) && leftover == old(leftover) && socket.unread == []
      ensures ok ==> consumed == old(consumed) + UpToToken(old(socket.unread), token)
      ensures ok ==> (Whole() == old(Whole()) <==> Commute(old(leftover), UpToToken(old(socket.unread), token)))
      ensures old(leftover) == [] ==> Whole() == old(Whole())
      ensures ok <==> !EndedByFailure(old(socket.answers), socket.answers)
      ensures |leftover| <= |old(leftover)| + CHUNK
      ensures !ok ==> leftover == old(leftover) && old(socket.unread) == buffer + socket.unread
                      && consumed == old(consumed) + buffer && (buffer == [] || !Contains(buffer, token))
    {
      ghost var before, left := consumed, leftover;
      var found;
      ok, buffer, found := ReceiveUntil(token);
      if ok && found.Some? {
        var i := found.value;
        var rest := buffer[i + |token|..];
        SplitAround(buffer, socket.unread, token, i);
        buffer := buffer[..i];
        consumed := consumed + (buffer + token);
        leftover := leftover + rest;
        Appended(left, rest);
        Overtaking(before, left, buffer + token, rest, socket.unread);
      } else {
        consumed := consumed + buffer;
        Overtaking(before, left, buffer, [], socket.unread);
        assert left + [] == left;
      }
    }

    /** The loop of `ReadUntilToken`, with the place of the token in what was received. */
    method ReceiveUntil(token: Bytes) returns (ok: bool, buffer: Bytes, found: Option<nat>)
      modifies socket
      ensures old(socket.unread) == buffer + socket.unread
      ensures ok && found.Some? ==> Find(buffer, token, 0) == found && Find(old(socket.unread), token, 0) == found
      ensures found.Some? ==> |buffer| <= found.value + |token| + CHUNK
      ensures found == None ==> buffer == [] || Find(buffer, token, 0) == None
      ensures ok && found == None ==> socket.unread == []
      ensures ok <==> !EndedByFailure(old(socket.answers), socket.answers)
      ensures !ok ==> found == None
    {
      found := None;
      var stop := false;
      buffer := [];
      while found == None && !stop
        invariant old(socket.unread) == buffer + socket.unread
        invariant found == None ==> buffer == [] || Find(buffer, token, 0) == None
        invariant found.Some? ==> Find(buffer, token, 0) == found && |buffer| <= found.value + |token| + CHUNK
        invariant IsLater(old(socket.answers), socket.answers)
        invariant !EndedByFailure(old(socket.answers), socket.answers)
        invariant stop ==> found == None && socket.unread == []
        decreases |socket.unread|, !stop, found == None
      {
        var ret, data := socket.Recv(CHUNK);
        Associative(buffer, data, socket.unread);
        if ret < 0 {
          return false, buffer, None;
        }
        if ret == 0 {
          stop := true;
        } else {
          ghost var received := buffer;
          buffer := buffer + data;
          found := Find(buffer, token, 0);
          if found.Some? && found.value + |token| <= |received| {
            assert received[found.value..found.value + |token|] == buffer[found.value..found.value + |token|];
            assert OccursAt(received, token, found.value);
          }
        }
      }
      ok := true;
      if found.Some? {
        FirstInPrefix(buffer, socket.unread, token);
      }
    }

    /** Up to `amount` bytes of the buffer, padded with zeros. */
    method ReadFromLeftover(amount: nat) returns (buffer: Bytes, bytesRead: nat)
      modifies this
      ensures bytesRead == if amount > |old(leftover)| then |old(leftover)| else amount
      ensures buffer == old(leftover)[..bytesRead] + Zeros(amount - bytesRead)
      ensures leftover == old(leftover)[bytesRead..] && consumed == old(consumed) + old(leftover)[..bytesRead]
      ensures Whole() == old(Whole())
    {
      bytesRead := if amount > |leftover| then |leftover| else amount;
      buffer := leftover[..bytesRead] + Zeros(amount - bytesRead);
      assert leftover == leftover[..bytesRead] + leftover[bytesRead..];
      consumed := consumed + leftover[..bytesRead];
      leftover := leftover[bytesRead..];
    }

    /**
      `amount` bytes; at the end of the stream the rest of the buffer stays zero. When `recv` fails, all that
      has been taken out is lost. `Reading` says what happens, and `WhenReadCanLose` when that may be.
     */
    method Read(amount: nat) returns (ok: bool, buffer: Bytes)
      modifies this, socket
      ensures Whole() == old(Whole()) && old(consumed) <= consumed && |leftover| <= |old(leftover)|
      ensures var r := Reading(FromBuffer(old(leftover), amount), old(socket.unread), amount, old(socket.answers));
              && ok == r.ok && consumed == old(consumed) + r.taken
              && buffer == if ok then r.taken + Zeros(amount - |r.taken|) else []
      ensures ok && |consumed| < |old(consumed)| + amount ==> leftover == [] && socket.unread == []
      ensures !ok ==> buffer == [] && leftover == [] && |old(leftover)| < amount
                      && old(consumed) + old(leftover) <= consumed && |consumed| < |old(consumed)| + amount
      ensures !ok && consumed != old(consumed) <==>
              Loses(old(leftover), old(socket.unread), amount, old(socket.answers))
      ensures amount <= |old(leftover)| ==>
                && ok && buffer == old(leftover)[..amount] && leftover == old(leftover)[amount..]
                && consumed == old(consumed) + buffer && socket.unread == old(socket.unread)
    {
      ghost var before, first := consumed, FromBuffer(leftover, amount);
      var total;
      buffer, total := ReadFromLeftover(amount);
      if total < amount {
        ok, buffer := ReceiveRest(amount, buffer, total, before, first);
      } else {
        ok := true;
      }
    }

    /** The loop of `Read`, with the buffer used up and `first` read from it. */
    method ReceiveRest(amount: nat, begun: Bytes, begunWith: nat, ghost before: Bytes, ghost first: Bytes)
      returns (ok: bool, buffer: Bytes)
      requires leftover == [] && |first| == begunWith <= amount && begun == first + Zeros(amount - begunWith)
      requires consumed == before + first
      modifies this`consumed, socket
      ensures Whole() == old(Whole())
      ensures var r := Reading(first, old(socket.unread), amount, old(socket.answers));
              && ok == r.ok && consumed == before + r.taken
              && buffer == (if ok then r.taken + Zeros(amount - |r.taken|) else [])
              && (ok && |r.taken| < amount ==> socket.unread == [])
    {
      ghost var taken := first;
      ghost var r := Reading(first, socket.unread, amount, socket.answers);
      var total := begunWith;
      buffer := begun;
      while total < amount
        invariant total == |taken| <= amount && Whole() == old(Whole())
        invariant consumed == before + taken && buffer == taken + Zeros(amount - total)
        invariant r == Reading(taken, socket.unread, amount, socket.answers)
        decreases amount - total
      {
        ghost var unread := socket.unread;
        var ret, data := socket.Recv(amount - total);
        if ret < 0 {
          return false, [];
        }
        if ret == 0 {
          break;
        }
        Receive(before, taken, data, socket.unread, unread);
        Padded(taken, data, amount);
        buffer := buffer[..total] + data + buffer[total + ret..];
        consumed := consumed + data;
        taken := taken + data;
        total := total + ret;
      }
      ok := true;
    }
  }

  /** What `read` takes out of the buffer first. */
  function FromBuffer(leftover: Bytes, amount: nat): (taken: Bytes)
    ensures |taken| <= amount
  {
    if amount > |leftover| then leftover else leftover[..amount]
  }

  /** How a `read` ends, and the bytes that it has taken out of the stream. */
  datatype Ending = Ending(ok: bool, taken: Bytes)

  /** The loop of `read`, with `taken` taken out so far. */
  function Reading(taken: Bytes, unread: Bytes, amount: nat, answers: seq<int>): (r: Ending)
    requires |taken| <= amount
    ensures taken <= r.taken && |r.taken| <= amount && (!r.ok ==> |r.taken| < amount)
    decreases amount - |taken|
  {
    if |taken| == amount then Ending(true, taken)
    else
      var ret := Received(amount - |taken|, unread, answers);
      if ret < 0 then Ending(false, taken)
      else if ret == 0 then Ending(true, taken)
      else Reading(taken + unread[..ret], unread[ret..], amount, Later(answers))
  }

  /** Without a failure a `read` succeeds with all it asks for, or all there is: the end of the stream is none. */
  lemma {:induction false} ReadingWithoutFailure(taken: Bytes, unread: Bytes, amount: nat, answers: seq<int>)
    requires |taken| <= amount && NoFailure(answers)
    ensures Reading(taken, unread, amount, answers)
            == Ending(true, taken + unread[..Least(amount - |taken|, |unread|)])
    decreases amount - |taken|
  {
    var ret := Received(amount - |taken|, unread, answers);
    if |taken| < amount && ret > 0 {
      ReadingWithoutFailure(taken + unread[..ret], unread[ret..], amount, Later(answers));
      var n := Least(amount - |taken|, |unread|);
      assert unread[..n] == unread[..ret] + unread[ret..][..n - ret];
      Associative(taken, unread[..ret], unread[ret..][..n - ret]);
    } else {
      assert taken + unread[..0] == taken;
    }
  }

  /** A failure before enough has come ends it, with what had come until then. */
  lemma {:induction false} ReadingUpToFailure(taken: Bytes, unread: Bytes, amount: nat, before: seq<int>, failure: int,
                                              later: seq<int>)
    requires NoFailure(before) && failure < 0 && |taken| <= amount
    requires Total(before) < amount - |taken| && Total(before) <= |unread|
    ensures 0 <= Total(before)
    ensures Reading(taken, unread, amount, before + [failure] + later)
            == Ending(false, taken + unread[..Total(before)])
    decreases |before|
  {
    var answers := before + [failure] + later;
    TotalIsNatural(before);
    if before == [] {
      assert answers[0] == failure && taken + unread[..0] == taken;
    } else {
      TotalIsNatural(before[1..]);
      assert answers[0] == before[0] && Later(answers) == before[1..] + [failure] + later;
      var ret, n := Received(amount - |taken|, unread, answers), Total(before);
      ReadingUpToFailure(taken + unread[..ret], unread[ret..], amount, before[1..], failure, later);
      assert unread[..n] == unread[..ret] + unread[ret..][..n - ret];
      Associative(taken, unread[..ret], unread[ret..][..n - ret]);
    }
  }

  lemma Padded(taken: Bytes, data: Bytes, amount: nat)
    requires |taken| + |data| <= amount
    ensures var buffer, total := taken + Zeros(amount - |taken|), |taken|;
            buffer[..total] + data + buffer[total + |data|..] == (taken + data) + Zeros(amount - |taken + data|)
  {}

  lemma Receive(before: Bytes, taken: Bytes, data: Bytes, more: Bytes, unread: Bytes)
    requires unread == data + more
    ensures before + (taken + data) == before + taken + data
    ensures before + taken + data + [] + more == before + taken + [] + unread
  {}

  /** Some behaviour of the kernel makes `read` fail and lose bytes. */
  ghost predicate CanLose(leftover: Bytes, unread: Bytes, amount: nat) {
    exists answers :: Loses(leftover, unread, amount, answers)
  }

  /** It fails, and what it has taken out, which nobody gets, is not empty. */
  predicate Loses(leftover: Bytes, unread: Bytes, amount: nat, answers: seq<int>) {
    var r := Reading(FromBuffer(leftover, amount), unread, amount, answers);
    !r.ok && r.taken != []
  }

  /**
    A `read` can lose bytes exactly when the buffer does not suffice and is not empty, or is empty while more
    than one byte is asked for and there is something to come.
   */
  lemma WhenReadCanLose(leftover: Bytes, unread: Bytes, amount: nat)
    ensures CanLose(leftover, unread, amount) <==>
            |leftover| < amount && (leftover != [] || (amount > 1 && unread != []))
  {
    if |leftover| < amount && leftover != [] {
      assert Loses(leftover, unread, amount, [-1]);
    } else if |leftover| < amount && amount > 1 && unread != [] {
      FailsAfterOne(unread, amount);
    } else if |leftover| < amount {
      forall answers ensures !Loses(leftover, unread, amount, answers) {
        var r := Reading([], unread, amount, answers);
      }
    }
  }

  lemma FailsAfterOne(unread: Bytes, amount: nat)
    requires unread != [] && amount > 1
    ensures Loses([], unread, amount, [1, -1])
  {
    assert Received(amount, unread, [1, -1]) == 1 && Later([1, -1]) == [-1];
    assert Reading([] + unread[..1], unread[1..], amount, [-1]) == Ending(false, unread[..1]);
  }

  /** The first failure with something in the buffer loses the buffer. */
  lemma FirstFailureLosesTheBuffer(leftover: Bytes, unread: Bytes, amount: nat)
    requires leftover != [] && |leftover| < amount
    ensures Reading(FromBuffer(leftover, amount), unread, amount, [-1]) == Ending(false, leftover)
  {}

  function Zeros(n: nat): (s: Bytes)
    ensures |s| == n && forall i :: 0 <= i < n ==> s[i] == '\0'
  {
    seq(n, _ => '\0')
  }

  // ---------------------------------------------------------------- framing

  /** `header` is all that precedes the first terminator of `s`. */
  predicate Framed(s: Bytes, header: Bytes) {
    Find(s, TERMINATOR, 0) == Some(|header|) && header == s[..|header|]
  }

  lemma SplitAround(s: Bytes, more: Bytes, token: Bytes, i: nat)
    requires OccursAt(s, token, i)
    ensures (s + more)[..i] == s[..i]
    ensures s + more == s[..i] + token + (s[i + |token|..] + more)
  {
    assert s[i..i + |token|] == token;
    assert s == s[..i] + token + s[i + |token|..];
  }

  /** All up to and including the first token, or all when there is none. */
  function UpToToken(s: Bytes, token: Bytes): Bytes {
    match Find(s, token, 0)
    case Some(i) => s[..i] + token
    case None => s
  }

  predicate Commute(x: Bytes, y: Bytes) {
    x + y == y + x
  }

  /** What is taken from behind the buffer moves in front of it. */
  lemma Overtaking(before: Bytes, left: Bytes, taken: Bytes, rest: Bytes, more: Bytes)
    ensures (before + taken) + (left + rest) + more == before + left + (taken + (rest + more)) <==> Commute(left, taken)
    ensures left == [] ==> Commute(left, taken)
    ensures taken + ([] + more) == taken + more
  {
    var tail := rest + more;
    assert (before + taken) + (left + rest) + more == before + ((taken + left) + tail);
    assert before + left + (taken + tail) == before + ((left + taken) + tail);
    if before + ((taken + left) + tail) == before + ((left + taken) + tail) {
      SameAhead(before, (taken + left) + tail, (left + taken) + tail);
      SameInFront(taken + left, left + taken, tail);
    }
    if left == [] { assert [] + taken == taken + []; }
  }

  lemma SameInFront(x: Bytes, y: Bytes, tail: Bytes)
    requires |x| == |y| && x + tail == y + tail
    ensures x == y
  {
    assert x == (x + tail)[..|x|] && y == (y + tail)[..|y|];
  }

  /** With `x` in the buffer and `y` and the token to come, the bytes change places, whatever the token. */
  lemma OrderCanBeLost(token: Bytes)
    requires token != []
    ensures !Commute("x", UpToToken("y" + token, token))
  {
    var s := "y" + token;
    assert s[1..1 + |token|] == token;
    assert OccursAt(s, token, 1);
    var i := Find(s, token, 0).value;
    var taken := UpToToken(s, token);
    assert s[i..i + |token|] == token;
    assert taken == s[..i + |token|];
    assert ("x" + taken)[0] == 'x' && (taken + "x")[0] == 'y';
  }

  lemma Appended(left: Bytes, rest: Bytes)
    ensures left <= left + rest && (left + rest)[|left|..] == rest
    ensures left == [] ==> left + rest == rest
  {}

  lemma SameAhead(taken: Bytes, x: Bytes, y: Bytes)
    requires taken + x == taken + y
    ensures x == y
  {
    assert x == (taken + x)[|taken|..] && y == (taken + y)[|taken|..];
  }

  lemma CutAt(view: Bytes, pos: nat)
    requires OccursAt(view, TERMINATOR, pos)
    ensures view[..pos + 4] == view[..pos] + TERMINATOR && view[..pos + 4][..pos] == view[..pos]
    ensures forall more: Bytes :: (view + more)[..pos] == view[..pos]
  {}

  /** The first terminator of `s` ends within the first `reach` bytes. */
  predicate EndsWithin(s: Bytes, reach: int) {
    match Find(s, TERMINATOR, 0)
    case Some(i) => i + |TERMINATOR| <= reach
    case None => false
  }

  lemma SeenInPrefix(view: Bytes, more: Bytes)
    ensures Find(view, TERMINATOR, 0).Some? <==> EndsWithin(view + more, |view|)
  {
    if Find(view, TERMINATOR, 0).Some? {
      FirstInPrefix(view, more, TERMINATOR);
    } else if EndsWithin(view + more, |view|) {
      var i := Find(view + more, TERMINATOR, 0).value;
      assert view[i..i + |TERMINATOR|] == (view + more)[i..i + |TERMINATOR|];
      assert OccursAt(view, TERMINATOR, i);
    }
  }

  /** The part of `handleClientEvent` that looks for a request. */
  method NextHeader(stream: Stream) returns (header: Option<Bytes>)
    modifies stream, stream.socket
    ensures stream.Whole() == old(stream.Whole())
    ensures header.Some? ==>
              && Framed(old(stream.leftover + stream.socket.unread), header.value)
              && stream.consumed == old(stream.consumed) + header.value + TERMINATOR
    ensures header.Some? <==>
              EndsWithin(old(stream.leftover + stream.socket.unread), old(stream.Reach(MAX_HEADER_BYTES)))
    ensures old(NoFailure(stream.socket.answers)) && |old(stream.leftover)| <= MAX_HEADER_BYTES ==>
              (header.Some? <==> EndsWithin(old(stream.leftover + stream.socket.unread), MAX_HEADER_BYTES))
    ensures header.None? ==> stream.consumed == old(stream.consumed) && !Contains(stream.leftover, TERMINATOR)
    ensures header.None? ==> old(stream.leftover) <= stream.leftover
    ensures |old(stream.leftover)| <= MAX_HEADER_BYTES ==> |stream.leftover| <= MAX_HEADER_BYTES
    ensures |old(stream.leftover)| <= MAX_HEADER_BYTES && header.Some? ==>
              |header.value| + |TERMINATOR| <= MAX_HEADER_BYTES
    ensures |old(stream.leftover)| >= MAX_HEADER_BYTES && !Contains(old(stream.leftover), TERMINATOR) ==>
              header.None? && stream.leftover == old(stream.leftover)
  {
    ghost var all := stream.leftover + stream.socket.unread;
    ghost var before := stream.consumed;
    var view := stream.Peek(MAX_HEADER_BYTES);
    Associative(before, old(stream.leftover), old(stream.socket.unread));
    Associative(before, view, stream.socket.unread);
    SameAhead(before, all, view + stream.socket.unread);
    SeenInPrefix(view, stream.socket.unread);
    var pos := Find(view, TERMINATOR, 0);
    if pos == None {
      return None;
    }
    FirstInPrefix(view, stream.socket.unread, TERMINATOR);
    CutAt(view, pos.value);
    var ok, consumed := stream.Read(pos.value + 4);
    Associative(before, view[..pos.value], TERMINATOR);
    header := Some(consumed[..pos.value]);
  }

  /** A request as it was taken out of the stream: its header, and what the worker read after it. */
  datatype Request = Request(header: Bytes, body: Bytes)

  function Flat(r: Request): Bytes {
    r.header + TERMINATOR + r.body
  }

  lemma FlatWithoutBody(header: Bytes)
    ensures Flat(Request(header, [])) == header + TERMINATOR
  {}

  function FlatAll(rs: seq<Request>): Bytes {
    if rs == [] then [] else Flat(rs[0]) + FlatAll(rs[1..])
  }

  /** `s` begins with these requests, each header ending at the first terminator after the request before. */
  predicate Follows(s: Bytes, rs: seq<Request>)
    decreases |rs|
  {
    rs == [] || (Framed(s, rs[0].header) && Flat(rs[0]) <= s && Follows(s[|Flat(rs[0])|..], rs[1..]))
  }

  lemma FirstFollows(s: Bytes, rs: seq<Request>, ahead: Bytes) returns (rest: Bytes)
    requires rs != [] && Follows(s, rs) && s == FlatAll(rs) + ahead
    ensures s == Flat(rs[0]) + rest && rest == FlatAll(rs[1..]) + ahead && Follows(rest, rs[1..])
  {
    rest := FlatAll(rs[1..]) + ahead;
    Associative(Flat(rs[0]), FlatAll(rs[1..]), ahead);
    assert s[|Flat(rs[0])|..] == rest;
  }

  lemma AddFirst(s: Bytes, r: Request, rest: Bytes, rs: seq<Request>)
    requires s == Flat(r) + rest && Framed(s, r.header) && Follows(rest, rs)
    ensures Follows(s, [r] + rs)
  {
    assert s[|Flat(r)|..] == rest && ([r] + rs)[1..] == rs;
  }

  lemma {:induction false} OneMoreFollows(s: Bytes, rs: seq<Request>, ahead: Bytes, header: Bytes)
    requires Follows(s, rs) && s == FlatAll(rs) + ahead && Framed(ahead, header)
    ensures Follows(s, rs + [Request(header, [])])
    decreases |rs|
  {
    var r := Request(header, []);
    if rs == [] {
      assert s == ahead;
      HeaderFirst(s, header);
      AddFirst(s, r, s[|Flat(r)|..], []);
      assert rs + [r] == [r] + [];
    } else {
      var rest := FirstFollows(s, rs, ahead);
      OneMoreFollows(rest, rs[1..], ahead, header);
      AddFirst(s, rs[0], rest, rs[1..] + [r]);
      assert rs + [r] == [rs[0]] + (rs[1..] + [r]);
    }
  }

  lemma HeaderFirst(s: Bytes, header: Bytes)
    requires Framed(s, header)
    ensures Flat(Request(header, [])) <= s && s == Flat(Request(header, [])) + s[|Flat(Request(header, []))|..]
  {
    assert s[|header|..|header| + |TERMINATOR|] == TERMINATOR;
    assert s[..|header| + |TERMINATOR|] == header + TERMINATOR;
    assert Flat(Request(header, [])) == header + TERMINATOR;
  }

  lemma {:induction false} FlatOneMore(rs: seq<Request>, r: Request)
    ensures FlatAll(rs + [r]) == FlatAll(rs) + Flat(r)
  {
    if rs == [] {
      assert ([] + [r])[1..] == [];
    } else {
      FlatOneMore(rs[1..], r);
      assert (rs + [r])[1..] == rs[1..] + [r];
    }
  }

  function WithBody(rs: seq<Request>, more: Bytes): seq<Request>
    requires rs != []
  {
    rs[..|rs| - 1] + [Request(rs[|rs| - 1].header, rs[|rs| - 1].body + more)]
  }

  lemma {:induction false} BodyFollows(s: Bytes, rs: seq<Request>, more: Bytes, ahead: Bytes)
    requires rs != [] && Follows(s, rs) && s == FlatAll(rs) + (more + ahead)
    ensures Follows(s, WithBody(rs, more)) && FlatAll(WithBody(rs, more)) == FlatAll(rs) + more
    decreases |rs|
  {
    var longer := WithBody(rs, more);
    var rest := FirstFollows(s, rs, more + ahead);
    if |rs| == 1 {
      OneBodyFollows(s, rs[0], more, ahead);
      assert longer == [longer[0]] && rs == [rs[0]] && rest == more + ahead;
    } else {
      BodyFollows(rest, rs[1..], more, ahead);
      AddFirst(s, rs[0], rest, WithBody(rs[1..], more));
      FlatOfLonger(rs, more);
    }
  }

  lemma FlatCons(r: Request, rs: seq<Request>)
    ensures FlatAll([r] + rs) == Flat(r) + FlatAll(rs)
  {
    assert ([r] + rs)[1..] == rs;
  }

  lemma WithBodyCons(rs: seq<Request>, more: Bytes)
    requires |rs| > 1
    ensures rs == [rs[0]] + rs[1..] && WithBody(rs, more) == [rs[0]] + WithBody(rs[1..], more)
  {}

  lemma FlatOfLonger(rs: seq<Request>, more: Bytes)
    requires |rs| > 1 && FlatAll(WithBody(rs[1..], more)) == FlatAll(rs[1..]) + more
    ensures WithBody(rs, more) == [rs[0]] + WithBody(rs[1..], more)
    ensures FlatAll(WithBody(rs, more)) == FlatAll(rs) + more
  {
    WithBodyCons(rs, more);
    FlatCons(rs[0], rs[1..]);
    FlatCons(rs[0], WithBody(rs[1..], more));
    Associative(Flat(rs[0]), FlatAll(rs[1..]), more);
  }

  lemma OneBodyFollows(s: Bytes, r: Request, more: Bytes, ahead: Bytes)
    requires Framed(s, r.header) && s == Flat(r) + (more + ahead)
    ensures var r' := Request(r.header, r.body + more);
            Follows(s, [r']) && FlatAll([r']) == Flat(r') == Flat(r) + more && FlatAll([r]) == Flat(r)
  {
    var r' := Request(r.header, r.body + more);
    BodyGrows(r, more);
    Associative(Flat(r), more, ahead);
    AddFirst(s, r', ahead, []);
    assert [r'] == [r'] + [] && [r'][1..] == [] && [r][1..] == [];
    assert Flat(r') + [] == Flat(r') && Flat(r) + [] == Flat(r);
  }

  lemma BodyGrows(r: Request, more: Bytes)
    ensures Flat(Request(r.header, r.body + more)) == Flat(r) + more
  {}

  /**
    Framing does not depend on chunking: of two ways in which the same bytes were cut into requests, with
    bodies of the same lengths, one has the same requests as the other as far as it goes.
   */
  lemma {:induction false} FramingIsUnique(s: Bytes, xs: seq<Request>, ys: seq<Request>, i: nat)
    requires Follows(s, xs) && Follows(s, ys) && i < |xs| && i < |ys|
    requires forall k :: 0 <= k <= i ==> |xs[k].body| == |ys[k].body|
    ensures xs[i] == ys[i]
    decreases |xs|
  {
    var n := |xs[0].header| + |TERMINATOR|;
    assert xs[0].header == ys[0].header;
    assert xs[0].body == s[n..n + |xs[0].body|] == ys[0].body;
    if i > 0 {
      FramingIsUnique(s[|Flat(xs[0])|..], xs[1..], ys[1..], i - 1);
    }
  }

  /** A connection from its first byte on: the requests that were dispatched, with what was read of their bodies. */
  class Connection {
    const stream: Stream
    const sent: Bytes            // all that the peer sends
    ghost var dispatched: seq<Request>

    ghost predicate Valid()
      reads this, stream, stream.socket
    {
      && stream.Whole() == sent && |stream.leftover| <= MAX_HEADER_BYTES
      && stream.consumed == FlatAll(dispatched) && Follows(sent, dispatched)
    }

    constructor (sent: Bytes, answers: seq<int>)
      ensures Valid() && this.sent == sent && dispatched == []
    {
      var socket := new Socket(sent, answers);
      var s := new Stream(socket);
      this.sent, stream, dispatched := sent, s, [];
    }

    /** A client event without an error: either the next request is handed out, or the buffer holds none yet. */
    method HandleEvent() returns (header: Option<Bytes>)
      requires Valid()
      modifies this, stream, stream.socket
      ensures Valid()
      ensures header.Some? ==> dispatched == old(dispatched) + [Request(header.value, [])]
      ensures header.Some? <==>
                EndsWithin(old(stream.leftover + stream.socket.unread), old(stream.Reach(MAX_HEADER_BYTES)))
      ensures old(NoFailure(stream.socket.answers)) ==>
                (header.Some? <==> EndsWithin(old(stream.leftover + stream.socket.unread), MAX_HEADER_BYTES))
      ensures header.None? ==> dispatched == old(dispatched) && !Contains(stream.leftover, TERMINATOR)
      ensures header.None? ==> old(stream.leftover) <= stream.leftover
      ensures header.Some? ==> |header.value| + |TERMINATOR| <= MAX_HEADER_BYTES
      ensures |old(stream.leftover)| == MAX_HEADER_BYTES && !Contains(old(stream.leftover), TERMINATOR) ==>
                header.None? && stream.leftover == old(stream.leftover)
    {
      ghost var ahead := stream.leftover + stream.socket.unread;
      Associative(stream.consumed, stream.leftover, stream.socket.unread);
      header := NextHeader(stream);
      if header.Some? {
        OneMoreFollows(sent, dispatched, ahead, header.value);
        FlatOneMore(dispatched, Request(header.value, []));
        FlatWithoutBody(header.value);
        Associative(FlatAll(dispatched), header.value, TERMINATOR);
        dispatched := dispatched + [Request(header.value, [])];
      }
    }

    /** The worker reads from the body of the request it was given. */
    method ReadBody(amount: nat) returns (ok: bool, body: Bytes)
      requires Valid() && dispatched != []
      modifies this, stream, stream.socket
      ensures Valid() && |dispatched| == |old(dispatched)|
      ensures old(stream.consumed) <= stream.consumed
      ensures var more := stream.consumed[|old(stream.consumed)|..];
              && dispatched == WithBody(old(dispatched), more)
              && Ending(ok, more) == old(Reading(FromBuffer(stream.leftover, amount), stream.socket.unread, amount,
                                                 stream.socket.answers))
              && (ok ==> |more| <= amount && body == more + Zeros(amount - |more|))
              && (old(NoFailure(stream.socket.answers)) ==>
                    ok && |more| == Least(amount, |old(stream.leftover)| + |old(stream.socket.unread)|))
    {
      ghost var before := stream.consumed;
      ok, body := stream.Read(amount);
      ghost var more := stream.consumed[|before|..];
      assert stream.consumed == before + more;
      if old(NoFailure(stream.socket.answers)) {
        ReadingWithoutFailure(FromBuffer(old(stream.leftover), amount), old(stream.socket.unread), amount,
                              old(stream.socket.answers));
      }
      ghost var ahead := stream.leftover + stream.socket.unread;
      Associative(before, more, ahead);
      Associative(before + more, stream.leftover, stream.socket.unread);
      BodyFollows(sent, dispatched, more, ahead);
      dispatched := WithBody(dispatched, more);
    }
  }
}
