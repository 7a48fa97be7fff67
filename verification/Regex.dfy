/**
  Regular expressions, as far as URI patterns use them: their syntax, a parser for the text form, and
  which stretches of an input they match (ECMAScript, no flags).
 */
module Regex {
  import opened Common

  datatype Regex =
    | Empty
    | Lit(c: char)
    | Any                 // "."
    | Begin               // "^"
    | End                 // "$"
    | Cat(first: Regex, second: Regex)
    | Or(left: Regex, right: Regex)
    | Many(body: Regex)   // "*"

  predicate LineTerminator(c: char) {
    c == '\n' || c == '\r'
  }

  predicate OneLine(s: string) {
    forall i :: 0 <= i < |s| ==> !LineTerminator(s[i])
  }

  /** `r` matches the stretch of `s` from `i` to `j`. */
  predicate Matches(r: Regex, s: string, i: nat, j: nat)
    decreases r, j - i
  {
    && i <= j <= |s|
    && match r
       case Empty => i == j
       case Lit(c) => j == i + 1 && s[i] == c
       case Any => j == i + 1 && !LineTerminator(s[i])
       case Begin => i == j == 0
       case End => i == j == |s|
       case Cat(a, b) => exists k: nat :: i <= k <= j && Matches(a, s, i, k) && Matches(b, s, k, j)
       case Or(a, b) => Matches(a, s, i, j) || Matches(b, s, i, j)
       case Many(a) => i == j || exists k: nat :: i < k <= j && Matches(a, s, i, k) && Matches(r, s, k, j)
  }

  lemma CatSplits(a: Regex, b: Regex, s: string, i: nat, j: nat) returns (k: nat)
    requires Matches(Cat(a, b), s, i, j)
    ensures i <= k <= j && Matches(a, s, i, k) && Matches(b, s, k, j)
  {
    k :| i <= k <= j && Matches(a, s, i, k) && Matches(b, s, k, j);
  }

  lemma CatJoins(a: Regex, b: Regex, s: string, i: nat, k: nat, j: nat)
    requires i <= k <= j <= |s| && Matches(a, s, i, k) && Matches(b, s, k, j)
    ensures Matches(Cat(a, b), s, i, j)
  {}

  /** `std::regex_match`: the whole input. */
  predicate FullMatch(r: Regex, s: string) {
    Matches(r, s, 0, |s|)
  }

  /** Anchors around an expression make no difference when the whole input is matched. */
  lemma AnchorsAreImplied(r: Regex, s: string)
    ensures FullMatch(Cat(Begin, Cat(r, Cat(End, Empty))), s) <==> FullMatch(r, s)
  {
    var end := Cat(End, Empty);
    if FullMatch(r, s) {
      CatJoins(End, Empty, s, |s|, |s|, |s|);
      CatJoins(r, end, s, 0, |s|, |s|);
      CatJoins(Begin, Cat(r, end), s, 0, 0, |s|);
    }
    if FullMatch(Cat(Begin, Cat(r, end)), s) {
      var i := CatSplits(Begin, Cat(r, end), s, 0, |s|);
      var j := CatSplits(r, end, s, i, |s|);
      var k := CatSplits(End, Empty, s, j, |s|);
    }
  }

  // ---------------------------------------------------------------- parsing

  datatype Parsed = Bad | Good(r: Regex, rest: string)

  predicate AlphaNumeric(c: char) {
    'a' <= c <= 'z' || 'A' <= c <= 'Z' || '0' <= c <= '9'
  }

  function Parse(text: string): Option<Regex> {
    match ParseOr(text)
    case Good(r, "") => Some(r)
    case _ => None
  }

  function ParseOr(t: string): (p: Parsed)
    ensures p.Good? ==> |p.rest| <= |t|
    decreases |t|, 3
  {
    match ParseCat(t)
    case Bad => Bad
    case Good(a, rest) =>
      if rest == "" || rest[0] != '|' then Good(a, rest)
      else
        match ParseOr(rest[1..])
        case Bad => Bad
        case Good(b, rest') => Good(Or(a, b), rest')
  }

  function ParseCat(t: string): (p: Parsed)
    ensures p.Good? ==> |p.rest| <= |t|
    decreases |t|, 2
  {
    if t == "" || t[0] == '|' || t[0] == ')' then Good(Empty, t)
    else
      match ParseTerm(t)
      case Bad => Bad
      case Good(a, rest) =>
        match ParseCat(rest)
        case Bad => Bad
        case Good(b, rest') => Good(Cat(a, b), rest')
  }

  /** An atom with the quantifiers that follow it. */
  function ParseTerm(t: string): (p: Parsed)
    requires t != ""
    ensures p.Good? ==> |p.rest| < |t|
    decreases |t|, 1
  {
    match ParseAtom(t)
    case Bad => Bad
    case Good(a, rest) => if a.Begin? || a.End? then Good(a, rest) else Quantified(a, rest)
  }

  predicate Quantifier(c: char) {
    c == '*' || c == '+'
  }

  function Quantified(a: Regex, t: string): (p: Parsed)
    ensures p.Good? && |p.rest| <= |t|
    decreases |t|
  {
    if t != "" && t[0] == '*' then Quantified(Many(a), t[1..])
    else if t != "" && t[0] == '+' then Quantified(Cat(a, Many(a)), t[1..])
    else Good(a, t)
  }

  /** Quantifiers in braces, classes and escaped letters are not modelled. */
  function ParseAtom(t: string): (p: Parsed)
    requires t != ""
    ensures p.Good? ==> |p.rest| < |t|
    decreases |t|, 0
  {
    var c := t[0];
    if c == '\\' then
      if |t| < 2 || AlphaNumeric(t[1]) then Bad else Good(Lit(t[1]), t[2..])
    else if c == '(' then
      match ParseOr(t[1..])
      case Bad => Bad
      case Good(r, rest) => if rest != "" && rest[0] == ')' then Good(r, rest[1..]) else Bad
    else if c == '.' then Good(Any, t[1..])
    else if c == '^' then Good(Begin, t[1..])
    else if c == '$' then Good(End, t[1..])
    else if c in "*+?{}[]|)" then Bad
    else Good(Lit(c), t[1..])
  }
}
