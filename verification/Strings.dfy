/**
  `formatEx`: replace the occurrences of a separator, round after round, by a list of replacers.

  One round replaces the first occurrences, one for each replacer, and fails when there are too few;
  the result is then formatted again. That need not come to an end: `Settles` says that it does.
 */
module Strings {
  import opened Common
  import opened Modular

  // ---------------------------------------------------------------- finding

  predicate OccursAt(s: string, token: string, i: int) {
    0 <= i <= |s| - |token| && s[i..i + |token|] == token
  }

  /** `std::string::find` from position `from`: the first occurrence. */
  function Find(s: string, token: string, from: nat): (r: Option<nat>)
    ensures r.Some? ==> from <= r.value && OccursAt(s, token, r.value)
    ensures r.Some? ==> forall i :: from <= i < r.value ==> !OccursAt(s, token, i)
    ensures r.None? ==> forall i :: from <= i ==> !OccursAt(s, token, i)
    decreases |s| - from
  {
    if from + |token| > |s| then None
    else if s[from..from + |token|] == token then Some(from)
    else Find(s, token, from + 1)
  }

  predicate Contains(s: string, token: string) {
    Find(s, token, 0).Some?
  }

  lemma OccursMeans(s: string, token: string, i: int, k: int)
    requires OccursAt(s, token, i) && 0 <= k < |token|
    ensures s[i + k] == token[k]
  {
    assert s[i..i + |token|][k] == s[i + k];
  }

  /** The first occurrence is at `i`, or there is none. */
  lemma FindIs(s: string, token: string, r: Option<nat>)
    requires match r
             case Some(i) => OccursAt(s, token, i) && forall j :: 0 <= j < i ==> !OccursAt(s, token, j)
             case None => forall j :: 0 <= j ==> !OccursAt(s, token, j)
    ensures Find(s, token, 0) == r
  {}

  /** Looking for the token from a position on is looking for it in the rest of the string. */
  lemma FindInRest(s: string, token: string, from: nat)
    requires from <= |s| && token != ""
    ensures Find(s, token, from) == match Find(s[from..], token, 0) case None => None case Some(i) => Some(from + i)
  {
    var r := Find(s[from..], token, 0);
    forall i | 0 <= i ensures OccursAt(s, token, from + i) <==> OccursAt(s[from..], token, i) {
      OccursInRest(s, token, from, i);
    }
    match Find(s, token, from) {
      case None =>
      case Some(j) => assert OccursAt(s[from..], token, j - from);
    }
    if r.Some? { assert OccursAt(s, token, from + r.value); }
  }

  lemma OccursInRest(s: string, token: string, from: nat, i: nat)
    requires from <= |s|
    ensures OccursAt(s, token, from + i) <==> OccursAt(s[from..], token, i)
  {
    if from + i + |token| <= |s| {
      assert s[from..][i..i + |token|] == s[from + i..from + i + |token|];
    }
  }

  /** What is in front and begins no occurrence only shifts the first one. */
  lemma FindShifted(a: string, x: string, token: string)
    requires token != "" && forall j :: 0 <= j < |a| ==> !OccursAt(a + x, token, j)
    ensures Find(a + x, token, 0) == match Find(x, token, 0) case None => None case Some(i) => Some(|a| + i)
  {
    assert (a + x)[|a|..] == x;
    FindInRest(a + x, token, |a|);
    FindIs(a + x, token, Find(a + x, token, |a|));
  }

  /** The first occurrence in a part from the left is the first one of the whole. */
  lemma FirstInPrefix(s: string, more: string, token: string)
    requires Find(s, token, 0).Some?
    ensures Find(s + more, token, 0) == Find(s, token, 0)
  {
    var i, t := Find(s, token, 0).value, s + more;
    assert t[0..|s|] == s;
    assert t[i..i + |token|] == s[i..i + |token|];
    forall j | 0 <= j < i ensures !OccursAt(t, token, j) {
      if OccursAt(t, token, j) { OccursInPart(t, token, j, 0, |s|); }
    }
    FindIs(t, token, Some(i));
  }

  // ---------------------------------------------------------------- splitting and joining

  /** The pieces between the occurrences found from left to right without overlap. */
  function Pieces(s: string, sep: string): (pieces: seq<string>)
    requires sep != ""
    ensures pieces != []
    decreases |s|
  {
    match Find(s, sep, 0)
    case None => [s]
    case Some(i) => [s[..i]] + Pieces(s[i + |sep|..], sep)
  }

  function Separators(s: string, sep: string): nat
    requires sep != ""
  {
    |Pieces(s, sep)| - 1
  }

  function Join(pieces: seq<string>, glue: seq<string>): string
    requires |pieces| == |glue| + 1
  {
    if glue == [] then pieces[0] else pieces[0] + glue[0] + Join(pieces[1..], glue[1..])
  }

  // ---------------------------------------------------------------- one round

  /** The loop of `formatEx`, on what is left of the string. */
  function Round(s: string, sep: string, replacers: seq<string>): Option<string>
    requires sep != ""
    decreases |replacers|
  {
    if replacers == [] then Some(s)
    else
      match Find(s, sep, 0)
      case None => None
      case Some(i) => Prefixed(s[..i] + replacers[0], Round(s[i + |sep|..], sep, replacers[1..]))
  }

  /** After at most `rounds` rounds there is nothing more to replace. */
  predicate Settles(s: string, sep: string, replacers: seq<string>, rounds: nat)
    requires sep != ""
    decreases rounds
  {
    match Round(s, sep, replacers)
    case None => true
    case Some(r) => r == "" || (rounds > 0 && Settles(r, sep, replacers, rounds - 1))
  }

  /** What `formatEx` returns. */
  function Formatted(s: string, sep: string, replacers: seq<string>, rounds: nat): Option<string>
    requires sep != "" && Settles(s, sep, replacers, rounds)
    decreases rounds
  {
    match Round(s, sep, replacers)
    case None => None
    case Some(r) =>
      if r == "" then Some(r)
      else
        match Formatted(r, sep, replacers, rounds - 1)
        case None => Some(r)
        case Some(x) => Some(x)
  }

  /** What the loop comes to, with `replaced` made of the first `offset` characters and `i` replacers. */
  function Onward(s: string, sep: string, replacers: seq<string>, replaced: string, offset: nat, i: nat): Option<string>
    requires sep != "" && offset <= |s| && i <= |replacers|
  {
    Prefixed(replaced, Round(s[offset..], sep, replacers[i..]))
  }

  /** One round, in place. */
  method ReplaceFirst(s: string, sep: string, replacers: seq<string>) returns (r: Option<string>)
    requires sep != ""
    ensures r == Round(s, sep, replacers)
  {
    var replaced := "";
    var offset: nat := 0;
    var i := 0;
    ghost var whole := RoundStarts(s, sep, replacers);
    while i < |replacers|
      invariant 0 <= i <= |replacers| && offset <= |s|
      invariant whole == Onward(s, sep, replacers, replaced, offset, i)
    {
      var next := ReplaceOne(s, sep, replacers, replaced, offset, i);
      if next == None {
        return None;
      }
      replaced, offset := next.value.0, next.value.1;
      i := i + 1;
    }
    RoundEnds(s, sep, replacers, replaced, offset);
    return Some(replaced + s[offset..]);
  }

  /** One turn of the loop: one more replacement, and the new offset. */
  method ReplaceOne(s: string, sep: string, replacers: seq<string>, replaced: string, offset: nat, i: nat)
    returns (next: Option<(string, nat)>)
    requires sep != "" && offset <= |s| && i < |replacers|
    ensures next.Some? ==> next.value.1 <= |s|
    ensures next.Some? ==> Onward(s, sep, replacers, replaced, offset, i)
                           == Onward(s, sep, replacers, next.value.0, next.value.1, i + 1)
    ensures next.None? ==> Onward(s, sep, replacers, replaced, offset, i) == None
  {
    var tokenIndex := Find(s, sep, offset);
    if tokenIndex == None {
      RoundFails(s, sep, replacers, replaced, offset, i);
      return None;
    }
    LoopStep(s, sep, replacers, replaced, offset, i, tokenIndex.value);
    next := Some((replaced + (s[offset..tokenIndex.value] + replacers[i]), tokenIndex.value + |sep|));
  }

  lemma RoundStarts(s: string, sep: string, replacers: seq<string>) returns (whole: Option<string>)
    requires sep != ""
    ensures whole == Round(s, sep, replacers) == Onward(s, sep, replacers, "", 0, 0)
  {
    whole := Round(s, sep, replacers);
    assert s[0..] == s && replacers[0..] == replacers;
    PrefixedByNothing(whole);
  }

  lemma RoundEnds(s: string, sep: string, replacers: seq<string>, replaced: string, offset: nat)
    requires sep != "" && offset <= |s|
    ensures Onward(s, sep, replacers, replaced, offset, |replacers|) == Some(replaced + s[offset..])
  {}

  lemma RoundFails(s: string, sep: string, replacers: seq<string>, replaced: string, offset: nat, i: nat)
    requires sep != "" && offset <= |s| && i < |replacers| && Find(s, sep, offset) == None
    ensures Onward(s, sep, replacers, replaced, offset, i) == None
  {
    FindInRest(s, sep, offset);
  }

  lemma RoundAt(t: string, sep: string, replacers: seq<string>, j: nat, a: string, r: string, x: string,
                more: seq<string>)
    requires sep != "" && replacers != [] && Find(t, sep, 0) == Some(j)
    requires t[..j] == a && t[j + |sep|..] == x && replacers[0] == r && replacers[1..] == more
    ensures Round(t, sep, replacers) == Prefixed(a + r, Round(x, sep, more))
  {}

  lemma TailsOf(s: string, sep: string, replacers: seq<string>, offset: nat, i: nat, j: nat)
    requires offset <= j && j + |sep| <= |s| && i < |replacers|
    ensures s[offset..][..j - offset] == s[offset..j] && s[offset..][j - offset + |sep|..] == s[j + |sep|..]
    ensures replacers[i..][1..] == replacers[i + 1..] && replacers[i..][0] == replacers[i]
  {}

  /** One iteration of the loop is one step of `Round`. */
  lemma RoundFrom(s: string, sep: string, replacers: seq<string>, offset: nat, i: nat, j: nat)
    requires sep != "" && offset <= |s| && i < |replacers| && Find(s, sep, offset) == Some(j)
    ensures Round(s[offset..], sep, replacers[i..]) ==
              Prefixed(s[offset..j] + replacers[i], Round(s[j + |sep|..], sep, replacers[i + 1..]))
  {
    FindInRest(s, sep, offset);
    TailsOf(s, sep, replacers, offset, i, j);
    RoundAt(s[offset..], sep, replacers[i..], j - offset,
            s[offset..j], replacers[i], s[j + |sep|..], replacers[i + 1..]);
  }

  lemma LoopStep(s: string, sep: string, replacers: seq<string>, replaced: string, offset: nat, i: nat, j: nat)
    requires sep != "" && offset <= |s| && i < |replacers| && Find(s, sep, offset) == Some(j)
    ensures Onward(s, sep, replacers, replaced, offset, i) ==
              Onward(s, sep, replacers, replaced + (s[offset..j] + replacers[i]), j + |sep|, i + 1)
  {
    RoundFrom(s, sep, replacers, offset, i, j);
    Associate(replaced, s[offset..j] + replacers[i], Round(s[j + |sep|..], sep, replacers[i + 1..]));
  }

  lemma PrefixedByNothing(b: Option<string>)
    ensures Prefixed("", b) == b
  {
    if b.Some? { assert "" + b.value == b.value; }
  }

  function Prefixed(a: string, b: Option<string>): Option<string> {
    match b
    case None => None
    case Some(x) => Some(a + x)
  }

  method FormatEx(s: string, sep: string, replacers: seq<string>, ghost rounds: nat) returns (r: Option<string>)
    requires sep != "" && replacers != [] && Settles(s, sep, replacers, rounds)
    ensures r == Formatted(s, sep, replacers, rounds)
    decreases rounds
  {
    r := ReplaceFirst(s, sep, replacers);
    if r.Some? && r.value != "" {
      var again := FormatEx(r.value, sep, replacers, rounds - 1);
      if again.Some? {
        r := again;
      }
    }
  }

  lemma Associate(a: string, b: string, c: Option<string>)
    ensures Prefixed(a, Prefixed(b, c)) == Prefixed(a + b, c)
  {
    if c.Some? { assert a + (b + c.value) == a + b + c.value; }
  }

  // ---------------------------------------------------------------- what it means

  /** A replacer that cannot take part in a new occurrence of the separator. */
  predicate Inert(r: string, sep: string) {
    r != "" && !Contains(r, sep) && r[0] !in sep && r[|r| - 1] !in sep
  }

  predicate AllInert(replacers: seq<string>, sep: string) {
    forall i :: 0 <= i < |replacers| ==> Inert(replacers[i], sep)
  }

  /** The replacers, over and over while all of them fit into `n` places, and then the separator. */
  function Glue(n: nat, sep: string, replacers: seq<string>): (glue: seq<string>)
    requires replacers != []
    ensures |glue| == n
  {
    if n < |replacers| then seq(n, _ => sep) else replacers + Glue(n - |replacers|, sep, replacers)
  }

  /** An inert replacer after a piece hides neither the next occurrence nor makes one of its own. */
  lemma NothingNew(a: string, r: string, x: string, sep: string, j: int)
    requires sep != "" && Inert(r, sep)
    requires forall i :: 0 <= i ==> !OccursAt(a, sep, i)
    requires j < |a| + |r|
    ensures !OccursAt(a + r + x, sep, j)
  {
    var t, n := a + r + x, |a| + |r|;
    assert t[|a|] == r[0] && t[n - 1] == r[|r| - 1] && t[0..|a|] == a && t[|a|..n] == r;
    if OccursAt(t, sep, j) {
      if j <= |a| < j + |sep| {
        CoveredIsInToken(t, sep, j, |a|);
      } else if j <= n - 1 < j + |sep| {
        CoveredIsInToken(t, sep, j, n - 1);
      } else if j < |a| {
        OccursInPart(t, sep, j, 0, |a|);
      } else {
        OccursInPart(t, sep, j, |a|, n);
      }
    }
  }

  lemma CoveredIsInToken(t: string, token: string, j: int, i: int)
    requires OccursAt(t, token, j) && j <= i < j + |token|
    ensures t[i] in token
  {
    assert t[j..j + |token|][i - j] == t[i];
  }

  lemma OccursInPart(t: string, token: string, j: int, lo: int, hi: int)
    requires OccursAt(t, token, j) && 0 <= lo <= j && j + |token| <= hi <= |t|
    ensures OccursAt(t[lo..hi], token, j - lo)
  {
    var u, i := t[lo..hi], j - lo;
    assert |u[i..i + |token|]| == |token|;
    forall k | 0 <= k < |token| ensures u[i..i + |token|][k] == token[k] {
      assert t[j..j + |token|][k] == t[j + k] == u[i + k];
    }
  }

  lemma FindAfter(a: string, r: string, x: string, sep: string)
    requires sep != "" && Inert(r, sep) && forall i :: 0 <= i ==> !OccursAt(a, sep, i)
    ensures Find(a + r + x, sep, 0) == match Find(x, sep, 0) case None => None case Some(i) => Some(|a| + |r| + i)
  {
    var t, n := a + r + x, |a| + |r|;
    assert t[n..] == x;
    FindInRest(t, sep, n);
    forall j | 0 <= j < n ensures !OccursAt(t, sep, j) { NothingNew(a, r, x, sep, j); }
    FindIs(t, sep, Find(t, sep, n));
  }

  lemma SplitAfter(a: string, r: string, x: string, sep: string)
    requires sep != "" && Inert(r, sep) && forall i :: 0 <= i ==> !OccursAt(a, sep, i)
    ensures Pieces(a + r + x, sep) == [a + r + Pieces(x, sep)[0]] + Pieces(x, sep)[1..]
  {
    FindAfter(a, r, x, sep);
    SplitAt(a + r, x, sep);
  }

  /** When the first occurrence in `b + x` is that of `x`, the first piece grows by `b`. */
  lemma SplitAt(b: string, x: string, sep: string)
    requires sep != ""
    requires Find(b + x, sep, 0) == match Find(x, sep, 0) case None => None case Some(i) => Some(|b| + i)
    ensures Pieces(b + x, sep) == [b + Pieces(x, sep)[0]] + Pieces(x, sep)[1..]
  {
    match Find(x, sep, 0) {
      case None => assert Pieces(x, sep) == [x];
      case Some(i) =>
        var first, rest := x[..i], x[i + |sep|..];
        Regroup(b, x, first, sep, rest);
        PiecesAt(x, sep, first, rest);
        PiecesAt(b + x, sep, b + first, rest);
    }
  }

  lemma Regroup(b: string, x: string, first: string, sep: string, rest: string)
    requires |first| + |sep| <= |x| && first == x[..|first|] && x[|first|..|first| + |sep|] == sep
             && rest == x[|first| + |sep|..]
    ensures x == first + sep + rest && b + x == (b + first) + sep + rest
  {}

  lemma PiecesAt(s: string, sep: string, first: string, rest: string)
    requires sep != "" && s == first + sep + rest && Find(s, sep, 0) == Some(|first|)
    ensures Pieces(s, sep) == [first] + Pieces(rest, sep)
  {
    assert s[..|first|] == first && s[|first| + |sep|..] == rest;
  }

  /** The pieces that a round joins with the replacers. */
  function Merged(pieces: seq<string>, replacers: seq<string>): string
    requires |replacers| < |pieces|
  {
    if replacers == [] then pieces[0] else pieces[0] + replacers[0] + Merged(pieces[1..], replacers[1..])
  }

  /** A round succeeds when there are enough separators, and leaves exactly the remaining ones. */
  lemma {:induction false} RoundSplits(s: string, sep: string, replacers: seq<string>)
    requires sep != "" && AllInert(replacers, sep)
    ensures Round(s, sep, replacers).Some? <==> Separators(s, sep) >= |replacers|
    ensures Separators(s, sep) >= |replacers| ==>
              var p := Pieces(s, sep);
              && Pieces(Round(s, sep, replacers).value, sep) == [Merged(p, replacers)] + p[|replacers| + 1..]
              && (replacers != [] ==> Round(s, sep, replacers).value != "")
    decreases replacers
  {
    if replacers == [] {
      NothingReplaced(s, sep);
    } else {
      match Find(s, sep, 0) {
        case None =>
        case Some(i) =>
          RoundSplits(s[i + |sep|..], sep, replacers[1..]);
          OneMoreSplits(s, sep, replacers, i);
      }
    }
  }

  lemma NothingReplaced(s: string, sep: string)
    requires sep != ""
    ensures Round(s, sep, []) == Some(s) && Pieces(s, sep) == [Merged(Pieces(s, sep), [])] + Pieces(s, sep)[1..]
  {
    var p := Pieces(s, sep);
    assert [p[0]] + p[1..] == p;
  }

  /** The round on a string, from the round on what follows the first occurrence. */
  lemma OneMoreSplits(s: string, sep: string, replacers: seq<string>, i: nat)
    requires sep != "" && AllInert(replacers, sep) && replacers != [] && Find(s, sep, 0) == Some(i)
    requires var x := s[i + |sep|..];
             && (Round(x, sep, replacers[1..]).Some? <==> Separators(x, sep) >= |replacers| - 1)
             && (Separators(x, sep) >= |replacers| - 1 ==>
                   var p := Pieces(x, sep);
                   Pieces(Round(x, sep, replacers[1..]).value, sep) == [Merged(p, replacers[1..])] + p[|replacers|..])
    ensures Round(s, sep, replacers).Some? <==> Separators(s, sep) >= |replacers|
    ensures Separators(s, sep) >= |replacers| ==>
              var p := Pieces(s, sep);
              && Pieces(Round(s, sep, replacers).value, sep) == [Merged(p, replacers)] + p[|replacers| + 1..]
              && Round(s, sep, replacers).value != ""
  {
    var a, x, p := s[..i], s[i + |sep|..], Pieces(s, sep);
    assert p == [a] + Pieces(x, sep);
    assert p[0] == a && p[1..] == Pieces(x, sep);
    if Separators(s, sep) >= |replacers| {
      var rest := Round(x, sep, replacers[1..]).value;
      NoneBefore(s, sep, i);
      SplitAfter(a, replacers[0], rest, sep);
      assert Round(s, sep, replacers) == Some(a + replacers[0] + rest);
      assert Pieces(rest, sep)[1..] == p[1..][|replacers|..] == p[|replacers| + 1..];
    }
  }

  /** No occurrence fits into what precedes the first one. */
  lemma NoneBefore(s: string, sep: string, i: nat)
    requires sep != "" && Find(s, sep, 0) == Some(i)
    ensures forall j :: 0 <= j ==> !OccursAt(s[..i], sep, j)
  {
    forall j | 0 <= j ensures !OccursAt(s[..i], sep, j) {
      if OccursAt(s[..i], sep, j) {
        assert s[..i][j..j + |sep|] == s[j..j + |sep|];
        assert OccursAt(s, sep, j);
      }
    }
  }

  lemma {:induction false} JoinMerged(pieces: seq<string>, replacers: seq<string>, glue: seq<string>)
    requires |pieces| == |replacers| + |glue| + 1
    ensures Join([Merged(pieces, replacers)] + pieces[|replacers| + 1..], glue) == Join(pieces, replacers + glue)
    decreases replacers
  {
    if replacers == [] {
      assert [pieces[0]] + pieces[1..] == pieces && replacers + glue == glue;
    } else {
      var tail := pieces[1..];
      JoinMerged(tail, replacers[1..], glue);
      assert (replacers + glue)[1..] == replacers[1..] + glue;
      assert pieces[|replacers| + 1..] == tail[|replacers[1..]| + 1..];
      JoinPrefix(pieces[0] + replacers[0], Merged(tail, replacers[1..]), pieces[|replacers| + 1..], glue);
    }
  }

  /** A prefix of the first piece is a prefix of the whole. */
  lemma JoinPrefix(a: string, first: string, rest: seq<string>, glue: seq<string>)
    requires |rest| == |glue|
    ensures Join([a + first] + rest, glue) == a + Join([first] + rest, glue)
  {
    assert ([a + first] + rest)[1..] == rest == ([first] + rest)[1..];
    if glue != [] {
      assert a + first + glue[0] + Join(rest, glue[1..]) == a + (first + glue[0] + Join(rest, glue[1..]));
    }
  }

  /** Splitting and joining with the separator gives the string back. */
  lemma {:induction false} SplitJoins(s: string, sep: string)
    requires sep != ""
    ensures Join(Pieces(s, sep), seq(Separators(s, sep), _ => sep)) == s
    decreases |s|
  {
    match Find(s, sep, 0) {
      case None =>
      case Some(i) =>
        var x := s[i + |sep|..];
        SplitJoins(x, sep);
        assert Pieces(s, sep)[1..] == Pieces(x, sep);
        assert seq(Separators(s, sep), _ => sep)[1..] == seq(Separators(x, sep), _ => sep);
        assert s[..i] + sep + x == s;
    }
  }

  /** The number of separators bounds the number of rounds. */
  lemma {:induction false} FormattingSettles(s: string, sep: string, replacers: seq<string>)
    requires sep != "" && replacers != [] && AllInert(replacers, sep)
    ensures Settles(s, sep, replacers, Separators(s, sep))
    decreases Separators(s, sep)
  {
    RoundSplits(s, sep, replacers);
    match Round(s, sep, replacers) {
      case None =>
      case Some(r) =>
        FormattingSettles(r, sep, replacers);
        SettlesLonger(r, sep, replacers, Separators(r, sep), Separators(s, sep) - 1);
    }
  }

  lemma {:induction false} SettlesLonger(s: string, sep: string, replacers: seq<string>, m: nat, n: nat)
    requires sep != "" && m <= n && Settles(s, sep, replacers, m)
    ensures Settles(s, sep, replacers, n) && Formatted(s, sep, replacers, n) == Formatted(s, sep, replacers, m)
    decreases m
  {
    match Round(s, sep, replacers) {
      case None =>
      case Some(r) =>
        if r != "" { SettlesLonger(r, sep, replacers, m - 1, n - 1); }
    }
  }

  /**
    The meaning of `formatEx` for inert replacers: none when there are fewer separators than replacers;
    otherwise the pieces between the separators, glued by the replacers in turn as long as all of them
    fit, and by the separator from there on.
   */
  lemma {:induction false} FormattedMeans(s: string, sep: string, replacers: seq<string>, rounds: nat)
    requires sep != "" && replacers != [] && AllInert(replacers, sep) && Settles(s, sep, replacers, rounds)
    ensures Formatted(s, sep, replacers, rounds) ==
              var n := Separators(s, sep);
              if n < |replacers| then None else Some(Join(Pieces(s, sep), Glue(n, sep, replacers)))
    decreases rounds
  {
    RoundSplits(s, sep, replacers);
    var n, k, p := Separators(s, sep), |replacers|, Pieces(s, sep);
    if n >= k {
      var r := Round(s, sep, replacers).value;
      FormattedMeans(r, sep, replacers, rounds - 1);
      JoinMerged(p, replacers, Glue(n - k, sep, replacers));
      if n - k < k { SplitJoins(r, sep); }
    }
  }

  /** The glue in closed form: the first `k * (n / k)` places are filled cyclically. */
  lemma GlueIsCyclic(n: nat, sep: string, replacers: seq<string>, i: nat)
    requires replacers != [] && i < n
    ensures var k := |replacers|;
            k > 0 && Glue(n, sep, replacers)[i] == if i < k * (n / k) then replacers[i % k] else sep
  {
    var k := |replacers|;
    var q := n / k;
    assert n == q * k + n % k && k * q == q * k;
    Nonnegative(q, n, k);
    GlueOfCycles(n, sep, replacers, i, q, q * k, n % k);
  }

  /** With `q` whole cycles, `m` places altogether, and `r` places left over. */
  lemma {:induction false} GlueOfCycles(n: nat, sep: string, replacers: seq<string>, i: nat, q: nat, m: nat, r: nat)
    requires replacers != [] && i < n && m == q * |replacers| && n == m + r && r < |replacers|
    ensures |replacers| > 0 && Glue(n, sep, replacers)[i] == if i < m then replacers[i % |replacers|] else sep
    decreases q
  {
    var k := |replacers|;
    if q > 0 {
      OneCycleLess(q, k);
      if i >= k {
        GlueOfCycles(n - k, sep, replacers, i - k, q - 1, m - k, r);
        MultipleAdded(i - k, 1, k);
      } else {
        RemainderIsUnique(i, k, 0, i);
      }
    }
  }

  lemma OneCycleLess(q: nat, k: nat)
    requires q > 0
    ensures (q - 1) * k == q * k - k && q * k >= k
  {
    assert q * k == (q - 1) * k + k;
  }

  lemma Nonnegative(q: int, x: nat, k: nat)
    requires k > 0 && q == x / k
    ensures q >= 0
  {}

  // ---------------------------------------------------------------- when it never settles

  /** How many separators the replacers bring. */
  function Brought(replacers: seq<string>, sep: string): nat
    requires sep != ""
  {
    if replacers == [] then 0 else Separators(replacers[0], sep) + Brought(replacers[1..], sep)
  }

  lemma SeparatorsFrom(s: string, sep: string)
    requires sep != ""
    ensures Separators(s, sep) == match Find(s, sep, 0)
                                  case None => 0
                                  case Some(i) => 1 + Separators(s[i + |sep|..], sep)
  {}

  /** Where the search goes on behind the first occurrence in `a + b`, when `b` has one at `j`. */
  lemma BehindFirst(a: string, b: string, sep: string, j: nat) returns (n: nat)
    requires sep != "" && Find(b, sep, 0) == Some(j)
    ensures 0 < n <= |a| + j + |sep| <= |a| + |b| && Separators(a + b, sep) == 1 + Separators((a + b)[n..], sep)
  {
    assert (a + b)[|a|..] == b;
    OccursInRest(a + b, sep, |a|, j);
    SeparatorsFrom(a + b, sep);
    n := Find(a + b, sep, 0).value + |sep|;
  }

  lemma RestOf(a: string, b: string, n: nat, m: nat)
    requires n <= |a| + m && m <= |b|
    ensures (a + b)[n..] == if n <= |a| then a[n..] + b else b[n - |a|..m] + b[m..]
  {}

  /** What is put in front takes no separator away. */
  lemma {:induction false} FrontAdds(a: string, b: string, sep: string)
    requires sep != ""
    ensures Separators(a + b, sep) >= Separators(b, sep)
    decreases |a| + |b|
  {
    SeparatorsFrom(b, sep);
    match Find(b, sep, 0) {
      case None =>
      case Some(j) =>
        var n := BehindFirst(a, b, sep, j);
        RestOf(a, b, n, j + |sep|);
        if n <= |a| {
          FrontAdds(a[n..], b, sep);
        } else {
          FrontAdds(b[n - |a|..j + |sep|], b[j + |sep|..], sep);
        }
    }
  }

  lemma {:induction false} SeparatorsAdd(a: string, b: string, sep: string)
    requires sep != ""
    ensures Separators(a + b, sep) >= Separators(a, sep) + Separators(b, sep)
    decreases |a|
  {
    SeparatorsFrom(a, sep);
    if Separators(a, sep) == 0 {
      FrontAdds(a, b, sep);
    } else {
      FirstInPrefix(a, b, sep);
      var n := Find(a, sep, 0).value + |sep|;
      assert (a + b)[n..] == a[n..] + b;
      SeparatorsFrom(a + b, sep);
      SeparatorsAdd(a[n..], b, sep);
    }
  }

  /** A round succeeds exactly with enough separators, and loses no more than it replaces. */
  lemma {:induction false} RoundBrings(s: string, sep: string, replacers: seq<string>)
    requires sep != ""
    ensures Round(s, sep, replacers).Some? <==> Separators(s, sep) >= |replacers|
    ensures Separators(s, sep) >= |replacers| ==>
              Separators(Round(s, sep, replacers).value, sep) + |replacers|
              >= Separators(s, sep) + Brought(replacers, sep)
    decreases replacers
  {
    SeparatorsFrom(s, sep);
    if replacers != [] && Find(s, sep, 0).Some? {
      var i := Find(s, sep, 0).value;
      var rest := s[i + |sep|..];
      RoundBrings(rest, sep, replacers[1..]);
      if Separators(s, sep) >= |replacers| {
        var r := Round(rest, sep, replacers[1..]).value;
        FrontAdds(s[..i], replacers[0] + r, sep);
        SeparatorsAdd(replacers[0], r, sep);
        assert s[..i] + replacers[0] + r == s[..i] + (replacers[0] + r);
      }
    }
  }

  /**
    When the replacers bring at least as many separators as there are replacers, as when each contains one,
    then no number of rounds is enough, and `formatEx` never returns, exactly when the first round succeeds.
   */
  lemma {:induction false} NeverSettles(s: string, sep: string, replacers: seq<string>, rounds: nat)
    requires sep != "" && replacers != [] && Brought(replacers, sep) >= |replacers|
    ensures Settles(s, sep, replacers, rounds) <==> Separators(s, sep) < |replacers|
    decreases rounds
  {
    RoundBrings(s, sep, replacers);
    if Separators(s, sep) >= |replacers| {
      var r := Round(s, sep, replacers).value;
      assert Separators(r, sep) >= |replacers|;
      SeparatorsFrom(r, sep);
      if rounds > 0 { NeverSettles(r, sep, replacers, rounds - 1); }
    }
  }

  lemma {:induction false} EachBrings(replacers: seq<string>, sep: string)
    requires sep != "" && forall i :: 0 <= i < |replacers| ==> Contains(replacers[i], sep)
    ensures Brought(replacers, sep) >= |replacers|
  {
    if replacers != [] {
      SeparatorsFrom(replacers[0], sep);
      EachBrings(replacers[1..], sep);
    }
  }
}
