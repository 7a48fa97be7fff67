/**
  The map from URI patterns to resolvers. A pattern is compiled to the text of a regular expression: a
  literal, or, when it has a wildcard, one in which each slash and star becomes a group.
 */
module UriMapper {
  import opened Common
  import opened Regex
  import opened Strings

  // ---------------------------------------------------------------- sanitising

  /** `sanitizeForRegex` escapes the special characters, its companion all but the star. */
  predicate Special(c: char, star: bool) {
    c == '[' || c == ']' || c == '/' || c == '?' || (star && c == '*')
  }

  function Escaped(c: char, star: bool): string {
    if Special(c, star) then ['\\', c] else [c]
  }

  function Sanitized(s: string, star: bool): string {
    if s == "" then "" else Escaped(s[0], star) + Sanitized(s[1..], star)
  }

  // ---------------------------------------------------------------- compiling

  const EXACT_TEMPLATE: string := "^{}$"
  const PLACEHOLDER: string := "{}"
  const WILDCARD_REGEX: string := "(\\/.*|$)"
  const SEPARATOR: string := "\\/*"

  /** The index of the first star, when a slash precedes it. */
  function ContainsWildcard(uri: string): Option<nat> {
    match Find(uri, "*", 0)
    case None => None
    case Some(i) => if i > 0 && uri[i - 1] == '/' then Some(i) else None
  }

  predicate HasPlaceholder(s: string) {
    |s| >= 2 && ((s[0] == '{' && s[1] == '}') || HasPlaceholder(s[1..]))
  }

  lemma {:induction false} PlaceholderIsToken(s: string)
    ensures HasPlaceholder(s) <==> Contains(s, PLACEHOLDER)
  {
    if |s| >= 2 {
      PlaceholderIsToken(s[1..]);
      assert s[0..2] == [s[0], s[1]];
      FindInRest(s, PLACEHOLDER, 1);
      assert OccursAt(s, PLACEHOLDER, 0) <==> s[0] == '{' && s[1] == '}';
    }
  }

  lemma {:induction false} SanitizedPlaceholder(s: string)
    ensures HasPlaceholder(Sanitized(s, true)) <==> HasPlaceholder(s)
    ensures Sanitized(s, true) == "" <==> s == ""
    ensures s != "" && Sanitized(s, true)[0] == '}' <==> s != "" && s[0] == '}'
  {
    if s != "" {
      SanitizedPlaceholder(s[1..]);
      var t := Sanitized(s[1..], true);
      assert Sanitized(s, true) == Escaped(s[0], true) + t;
      if Special(s[0], true) {
        assert Sanitized(s, true)[1..] == [s[0]] + t;
        assert ([s[0]] + t)[1..] == t;
      } else {
        assert Sanitized(s, true)[1..] == t;
      }
    }
  }

  /** The template holds one placeholder, so there is one round, unless the literal brings another one. */
  lemma ExactRound(literal: string)
    ensures Round(EXACT_TEMPLATE, PLACEHOLDER, [literal]) == Some("^" + literal + "$")
    ensures Contains(EXACT_TEMPLATE, PLACEHOLDER)
    ensures HasPlaceholder("^" + literal + "$") <==> HasPlaceholder(literal)
  {
    assert EXACT_TEMPLATE[1..3] == PLACEHOLDER;
    assert EXACT_TEMPLATE[0..2][0] == '^';
    FindIs(EXACT_TEMPLATE, PLACEHOLDER, Some(1));
    assert EXACT_TEMPLATE[..1] == "^" && EXACT_TEMPLATE[3..] == "$";
    assert Round("$", PLACEHOLDER, []) == Some("$");
    assert [literal][1..] == [];
    assert ("^" + literal + "$")[1..] == literal + "$";
    PlaceholderBeforeDollar(literal);
  }

  lemma {:induction false} PlaceholderBeforeDollar(s: string)
    ensures HasPlaceholder(s + "$") <==> HasPlaceholder(s)
  {
    if |s| >= 1 {
      PlaceholderBeforeDollar(s[1..]);
      assert (s + "$")[1..] == s[1..] + "$";
    }
  }

  /** `createExactMatch` returns exactly when the URI has no placeholder in it. */
  lemma ExactMatchTerminates(uri: string, rounds: nat)
    requires rounds > 0
    ensures Settles(EXACT_TEMPLATE, PLACEHOLDER, [Sanitized(uri, true)], rounds) <==> !Contains(uri, PLACEHOLDER)
    ensures !Contains(uri, PLACEHOLDER) ==>
              Formatted(EXACT_TEMPLATE, PLACEHOLDER, [Sanitized(uri, true)], rounds)
                  == Some("^" + Sanitized(uri, true) + "$")
  {
    var literal := Sanitized(uri, true);
    var r := "^" + literal + "$";
    SanitizedPlaceholder(uri);
    PlaceholderIsToken(uri);
    PlaceholderIsToken(literal);
    PlaceholderIsToken(r);
    ExactRound(literal);
    if Contains(uri, PLACEHOLDER) {
      EachBrings([literal], PLACEHOLDER);
      SeparatorsFrom(EXACT_TEMPLATE, PLACEHOLDER);
      NeverSettles(EXACT_TEMPLATE, PLACEHOLDER, [literal], rounds);
    } else {
      assert Round(r, PLACEHOLDER, [literal]) == None;
    }
  }

  method CreateExactMatch(uri: string) returns (regex: string)
    requires !Contains(uri, PLACEHOLDER)
    ensures regex == "^" + Sanitized(uri, true) + "$"
  {
    ExactMatchTerminates(uri, 1);
    var r := FormatEx(EXACT_TEMPLATE, PLACEHOLDER, [Sanitized(uri, true)], 1);
    regex := r.value;
  }

  lemma WildcardRegexIsInert()
    ensures AllInert([WILDCARD_REGEX], SEPARATOR)
  {
    forall i | 0 <= i ensures !OccursAt(WILDCARD_REGEX, SEPARATOR, i) {
      if OccursAt(WILDCARD_REGEX, SEPARATOR, i) {
        OccursMeans(WILDCARD_REGEX, SEPARATOR, i, 0);
        OccursMeans(WILDCARD_REGEX, SEPARATOR, i, 2);
      }
    }
  }

  /** When there is nothing to replace, the pattern itself is taken. */
  method CreateWithWildcard(uri: string) returns (regex: string)
    ensures var clean := Sanitized(uri, false);
            regex == if Contains(clean, SEPARATOR) then Compiled(clean) else uri
  {
    var clean := Sanitized(uri, false);
    WildcardRegexIsInert();
    FormattingSettles(clean, SEPARATOR, [WILDCARD_REGEX]);
    FormattedMeans(clean, SEPARATOR, [WILDCARD_REGEX], Separators(clean, SEPARATOR));
    AllReplaced(Separators(clean, SEPARATOR));
    var r := FormatEx(clean, SEPARATOR, [WILDCARD_REGEX], Separators(clean, SEPARATOR));
    regex := match r case Some(x) => x case None => uri;
  }

  /** Every separator replaced. */
  function Compiled(clean: string): string {
    Join(Pieces(clean, SEPARATOR), seq(Separators(clean, SEPARATOR), _ => WILDCARD_REGEX))
  }

  lemma {:induction false} AllReplaced(n: nat)
    ensures Glue(n, SEPARATOR, [WILDCARD_REGEX]) == seq(n, _ => WILDCARD_REGEX)
  {
    if n > 0 {
      AllReplaced(n - 1);
    }
  }

  // ---------------------------------------------------------------- patterns

  datatype Token = Chr(c: char) | Wild   // Wild is a slash and a star

  function Wildcards(uri: string): seq<Token> {
    if uri == "" then []
    else if |uri| >= 2 && uri[0] == '/' && uri[1] == '*' then [Wild] + Wildcards(uri[2..])
    else [Chr(uri[0])] + Wildcards(uri[1..])
  }

  function Literal(uri: string): seq<Token> {
    if uri == "" then [] else [Chr(uri[0])] + Literal(uri[1..])
  }

  /** How a URI is read: with wildcards, or literally. */
  function Pattern(uri: string): seq<Token> {
    if ContainsWildcard(uri).Some? then Wildcards(uri) else Literal(uri)
  }

  /** A character stands for itself, and a dot, which is not sanitised, for any character within a line. */
  predicate Stands(c: char, d: char) {
    c == d || (c == '.' && !LineTerminator(d))
  }

  /** The path is the URI, but for its dots. */
  predicate Resembles(uri: string, path: string) {
    |path| == |uri| && forall i :: 0 <= i < |uri| ==> Stands(uri[i], path[i])
  }

  /**
    What a pattern means: each character stands for what it stands for, and a wildcard for a slash with any text
    within the line after it, or for nothing at the end.
   */
  predicate Accepts(pattern: seq<Token>, path: string)
    decreases |pattern|
  {
    if pattern == [] then path == ""
    else
      match pattern[0]
      case Chr(c) => path != "" && Stands(c, path[0]) && Accepts(pattern[1..], path[1..])
      case Wild =>
        || (path == "" && Accepts(pattern[1..], path))
        || (path != "" && path[0] == '/'
            && exists k: nat :: 1 <= k <= |path| && OneLine(path[1..k]) && Accepts(pattern[1..], path[k..]))
  }

  /** The text a token is compiled to. */
  function Emitted(t: Token, star: bool): string {
    match t
    case Chr(c) => Escaped(c, star)
    case Wild => WILDCARD_REGEX
  }

  function EmittedAll(ts: seq<Token>, star: bool): string {
    if ts == [] then "" else Emitted(ts[0], star) + EmittedAll(ts[1..], star)
  }

  /** But for dots, no character that means something in a regular expression and is not escaped. */
  predicate Clean(uri: string) {
    forall i :: 0 <= i < |uri| ==> uri[i] !in "+()|^$\\{}"
  }

  /** What the parser of this model reads as `std::regex` does. */
  predicate Parseable(uri: string) {
    forall i :: 0 <= i < |uri| ==> uri[i] !in "\\{}"
  }

  predicate StarsFollowSlashes(uri: string) {
    forall i :: 0 <= i < |uri| && uri[i] == '*' ==> i > 0 && uri[i - 1] == '/'
  }

  lemma {:induction false} LiteralEmits(uri: string)
    ensures EmittedAll(Literal(uri), true) == Sanitized(uri, true)
  {
    if uri != "" { LiteralEmits(uri[1..]); }
  }

  /** Where the sanitised URI starts with the separator, the URI starts with a slash and a star. */
  lemma SeparatorInFront(uri: string)
    requires Clean(uri) && uri != ""
    ensures OccursAt(Sanitized(uri, false), SEPARATOR, 0) <==> |uri| >= 2 && uri[0] == '/' && uri[1] == '*'
  {
    FrontOfSanitized(uri);
    SeparatorOf(Sanitized(uri, false), uri);
  }

  /** What the text and the URI have to do with each other at the front. */
  predicate Fronts(t: string, uri: string) {
    && uri != "" && t != ""
    && (t[0] == '\\' <==> Special(uri[0], false) || uri[0] == '\\')
    && (Special(uri[0], false) ==>
          |t| >= 2 && t[1] == uri[0] && (|t| > 2 <==> |uri| > 1)
          && (|uri| > 1 ==> (t[2] == '*' <==> uri[1] == '*')))
  }

  lemma FrontOfSanitized(uri: string)
    requires uri != ""
    ensures Fronts(Sanitized(uri, false), uri)
  {
    var rest := uri[1..];
    assert Sanitized(uri, false) == Escaped(uri[0], false) + Sanitized(rest, false);
    if rest != "" {
      assert Sanitized(rest, false) == Escaped(rest[0], false) + Sanitized(rest[1..], false);
    }
  }

  lemma SeparatorOf(t: string, uri: string)
    requires Fronts(t, uri) && uri[0] != '\\'
    ensures OccursAt(t, SEPARATOR, 0) <==> |uri| >= 2 && uri[0] == '/' && uri[1] == '*'
  {
    if OccursAt(t, SEPARATOR, 0) {
      OccursMeans(t, SEPARATOR, 0, 0);
      OccursMeans(t, SEPARATOR, 0, 1);
      OccursMeans(t, SEPARATOR, 0, 2);
    }
  }

  /** No separator starts at the second character of an escape. */
  lemma NotInsideEscape(uri: string)
    requires Clean(uri) && uri != ""
    ensures Special(uri[0], false) ==> !OccursAt(Sanitized(uri, false), SEPARATOR, 1)
  {
    var t := Sanitized(uri, false);
    if Special(uri[0], false) && OccursAt(t, SEPARATOR, 1) {
      FrontOfSanitized(uri);
      OccursMeans(t, SEPARATOR, 1, 0);
    }
  }

  /** A part `a` in front in which no separator starts stays as it is. */
  lemma CompiledAfter(a: string, x: string)
    requires forall j :: 0 <= j < |a| ==> !OccursAt(a + x, SEPARATOR, j)
    ensures Compiled(a + x) == a + Compiled(x)
  {
    FindShifted(a, x, SEPARATOR);
    SplitAt(a, x, SEPARATOR);
    var p, n := Pieces(x, SEPARATOR), Separators(x, SEPARATOR);
    assert p == [p[0]] + p[1..];
    JoinPrefix(a, p[0], p[1..], seq(n, _ => WILDCARD_REGEX));
  }

  lemma CompiledSeparator(x: string)
    ensures Compiled(SEPARATOR + x) == WILDCARD_REGEX + Compiled(x)
  {
    assert (SEPARATOR + x)[..3] == SEPARATOR;
    FindIs(SEPARATOR + x, SEPARATOR, Some(0));
    PiecesAt(SEPARATOR + x, SEPARATOR, "", x);
    var n := Separators(x, SEPARATOR);
    assert seq(n + 1, _ => WILDCARD_REGEX)[1..] == seq(n, _ => WILDCARD_REGEX);
    assert ([""] + Pieces(x, SEPARATOR))[1..] == Pieces(x, SEPARATOR);
  }

  lemma {:induction false} WildcardsEmit(uri: string)
    requires Clean(uri)
    ensures Compiled(Sanitized(uri, false)) == EmittedAll(Wildcards(uri), false)
    decreases |uri|
  {
    if uri == "" {
      assert Find("", SEPARATOR, 0) == None;
    } else {
      if |uri| >= 2 && uri[0] == '/' && uri[1] == '*' {
        WildcardsEmit(uri[2..]);
        assert uri[1..][1..] == uri[2..];
        assert Sanitized(uri, false) == SEPARATOR + Sanitized(uri[2..], false);
        CompiledSeparator(Sanitized(uri[2..], false));
      } else {
        WildcardsEmit(uri[1..]);
        CharacterEmits(uri);
      }
    }
  }

  lemma CharacterEmits(uri: string)
    requires Clean(uri) && uri != "" && !(|uri| >= 2 && uri[0] == '/' && uri[1] == '*')
    ensures Compiled(Sanitized(uri, false)) == Escaped(uri[0], false) + Compiled(Sanitized(uri[1..], false))
  {
    var a, x := Escaped(uri[0], false), Sanitized(uri[1..], false);
    SeparatorInFront(uri);
    NotInsideEscape(uri);
    assert Sanitized(uri, false) == a + x;
    forall j | 0 <= j < |a| ensures !OccursAt(a + x, SEPARATOR, j) {
      assert j == 0 || (j == 1 && Special(uri[0], false));
    }
    CompiledAfter(a, x);
  }

  // ---------------------------------------------------------------- parsing what was emitted

  const ANY_TEXT: Regex := Cat(Lit('/'), Cat(Many(Any), Empty))
  const WILD: Regex := Or(ANY_TEXT, Cat(End, Empty))

  function RegexOf(t: Token): Regex {
    match t
    case Chr(c) => if c == '.' then Any else Lit(c)
    case Wild => WILD
  }

  /** The tokens one after the other, and then `tail`. */
  function RegexOfAll(ts: seq<Token>, tail: Regex): Regex {
    if ts == [] then tail else Cat(RegexOf(ts[0]), RegexOfAll(ts[1..], tail))
  }

  lemma WildcardParses(rest: string)
    ensures ParseAtom(WILDCARD_REGEX + rest) == Good(WILD, rest)
  {
    var t := WILDCARD_REGEX + rest;
    var u, v := "\\/.*|$)" + rest, "|$)" + rest;
    assert t[1..] == u && t[0] == '(';
    assert u[2..] == ".*|$)" + rest && v[1..] == "$)" + rest;
    assert (")" + rest)[1..] == rest;
    ParseDollar(rest);
    ParseDotStar(rest);
    assert ParseTerm(u) == Good(Lit('/'), ".*|$)" + rest);
    assert ParseCat(u) == Good(ANY_TEXT, v);
    assert ParseOr(u) == Good(WILD, ")" + rest);
  }

  lemma ParseDollar(rest: string)
    ensures ParseOr("$)" + rest) == Good(Cat(End, Empty), ")" + rest)
  {
    assert ("$)" + rest)[1..] == ")" + rest;
    assert ParseTerm("$)" + rest) == Good(End, ")" + rest);
    assert ParseCat(")" + rest) == Good(Empty, ")" + rest);
  }

  lemma ParseDotStar(rest: string)
    ensures ParseCat(".*|$)" + rest) == Good(Cat(Many(Any), Empty), "|$)" + rest)
  {
    var t := ".*|$)" + rest;
    assert t[1..] == "*|$)" + rest;
    assert t[1..][1..] == "|$)" + rest;
    assert Quantified(Many(Any), "|$)" + rest) == Good(Many(Any), "|$)" + rest);
    assert ParseTerm(t) == Good(Many(Any), "|$)" + rest);
    assert ParseCat("|$)" + rest) == Good(Empty, "|$)" + rest);
  }

  /** A character that is emitted as itself or as an escape is parsed back to itself. */
  predicate Faithful(t: Token, star: bool) {
    t.Chr? ==> t.c !in "+()|^$\\{}" && (star || t.c != '*')
  }

  lemma CharacterParses(c: char, star: bool, rest: string)
    requires Faithful(Chr(c), star)
    ensures ParseAtom(Escaped(c, star) + rest) == Good(RegexOf(Chr(c)), rest)
  {
    var t := Escaped(c, star) + rest;
    if Special(c, star) {
      assert t[0] == '\\' && t[1] == c && t[2..] == rest;
    } else {
      assert t[0] == c && t[1..] == rest;
    }
  }

  lemma {:induction false} EmittedParses(ts: seq<Token>, star: bool, rest: string, tail: Regex)
    requires forall i :: 0 <= i < |ts| ==> Faithful(ts[i], star)
    requires ParseCat(rest) == Good(tail, "") && (rest == "" || !Quantifier(rest[0]))
    ensures var t := EmittedAll(ts, star) + rest;
            ParseCat(t) == Good(RegexOfAll(ts, tail), "") && (t == "" || !Quantifier(t[0]))
  {
    if ts == [] {
      assert EmittedAll(ts, star) + rest == rest;
    } else {
      var more := EmittedAll(ts[1..], star) + rest;
      EmittedParses(ts[1..], star, rest, tail);
      assert EmittedAll(ts, star) + rest == Emitted(ts[0], star) + more;
      OneMoreParses(ts[0], star, more, RegexOfAll(ts[1..], tail));
    }
  }

  lemma OneMoreParses(t: Token, star: bool, more: string, tail: Regex)
    requires Faithful(t, star) && ParseCat(more) == Good(tail, "") && (more == "" || !Quantifier(more[0]))
    ensures var s := Emitted(t, star) + more;
            ParseCat(s) == Good(Cat(RegexOf(t), tail), "") && s != "" && !Quantifier(s[0])
  {
    TokenParses(t, star, more);
    FirstCharacter(t, star, more);
  }

  lemma TokenParses(t: Token, star: bool, more: string)
    requires Faithful(t, star) && (more == "" || !Quantifier(more[0]))
    ensures var s := Emitted(t, star) + more; s != "" && ParseTerm(s) == Good(RegexOf(t), more)
  {
    match t {
      case Chr(c) => CharacterParses(c, star, more);
      case Wild => WildcardParses(more);
    }
    assert Quantified(RegexOf(t), more) == Good(RegexOf(t), more);
  }

  lemma FirstCharacter(t: Token, star: bool, more: string)
    requires Faithful(t, star)
    ensures var s := Emitted(t, star) + more; s != "" && !Quantifier(s[0]) && s[0] != '|' && s[0] != ')'
  {
    match t {
      case Chr(c) =>
      case Wild => assert (WILDCARD_REGEX + more)[0] == '(';
    }
  }

  /** The text of an exact pattern parses to the literal between its two anchors. */
  lemma ExactParses(uri: string)
    requires Clean(uri)
    ensures Parse("^" + Sanitized(uri, true) + "$") == Some(Cat(Begin, RegexOfAll(Literal(uri), Cat(End, Empty))))
  {
    LiteralEmits(uri);
    LiteralIsFaithful(uri);
    assert "$"[1..] == "";
    assert ParseTerm("$") == Good(End, "") && ParseCat("") == Good(Empty, "");
    EmittedParses(Literal(uri), true, "$", Cat(End, Empty));
    var rest := Sanitized(uri, true) + "$";
    var t := "^" + Sanitized(uri, true) + "$";
    assert t[1..] == rest && t[0] == '^';
    assert ParseTerm(t) == Good(Begin, rest);
    assert ParseOr(t) == ParseCat(t);
  }

  lemma {:induction false} LiteralIsFaithful(uri: string)
    requires Clean(uri)
    ensures forall i :: 0 <= i < |Literal(uri)| ==> Faithful(Literal(uri)[i], true)
  {
    if uri != "" { LiteralIsFaithful(uri[1..]); }
  }

  /** Every star is part of a wildcard. */
  lemma {:induction false} WildcardsAreFaithful(uri: string)
    requires Clean(uri)
    requires forall i :: 0 <= i < |uri| && uri[i] == '*' ==> i > 0 && uri[i - 1] == '/'
    ensures forall i :: 0 <= i < |Wildcards(uri)| ==> Faithful(Wildcards(uri)[i], false)
    decreases |uri|
  {
    if uri != "" {
      if |uri| >= 2 && uri[0] == '/' && uri[1] == '*' {
        assert forall i :: 0 <= i < |uri| - 2 ==> uri[2..][i] == uri[i + 2];
        WildcardsAreFaithful(uri[2..]);
      } else {
        assert forall i :: 0 <= i < |uri| - 1 ==> uri[1..][i] == uri[i + 1];
        WildcardsAreFaithful(uri[1..]);
      }
    }
  }

  lemma WildcardsParse(uri: string)
    requires Clean(uri) && StarsFollowSlashes(uri)
    ensures Parse(EmittedAll(Wildcards(uri), false)) == Some(RegexOfAll(Wildcards(uri), Empty))
  {
    WildcardsAreFaithful(uri);
    EmittedParses(Wildcards(uri), false, "", Empty);
    assert EmittedAll(Wildcards(uri), false) + "" == EmittedAll(Wildcards(uri), false);
  }

  // ---------------------------------------------------------------- what the regular expression matches

  lemma OneLineSplits(c: char, t: string)
    ensures OneLine([c] + t) <==> !LineTerminator(c) && OneLine(t)
  {
    if OneLine([c] + t) {
      assert !LineTerminator(([c] + t)[0]);
      forall k | 0 <= k < |t| ensures !LineTerminator(t[k]) { assert !LineTerminator(([c] + t)[k + 1]); }
    }
  }

  lemma {:induction false} AnyTextMatches(s: string, i: nat, j: nat)
    requires i <= j <= |s|
    ensures Matches(Many(Any), s, i, j) <==> OneLine(s[i..j])
    decreases j - i
  {
    if i < j {
      AnyTextMatches(s, i + 1, j);
      assert s[i..j] == [s[i]] + s[i + 1..j];
      OneLineSplits(s[i], s[i + 1..j]);
      assert Matches(Any, s, i, i + 1) <==> !LineTerminator(s[i]);
    }
  }

  lemma {:induction false} WildMatches(s: string, i: nat, j: nat)
    requires i <= j <= |s|
    ensures Matches(WILD, s, i, j) <==>
              (i == j == |s|) || (i < j && s[i] == '/' && OneLine(s[i + 1..j]))
  {
    AnyText(s, i, j);
    assert Matches(Cat(End, Empty), s, i, j) <==> i == j == |s| by {
      if i == j == |s| { assert Matches(End, s, i, i) && Matches(Empty, s, i, j); }
    }
  }

  lemma AnyText(s: string, i: nat, j: nat)
    requires i <= j <= |s|
    ensures Matches(ANY_TEXT, s, i, j) <==> i < j && s[i] == '/' && OneLine(s[i + 1..j])
  {
    if i < j {
      AnyTextMatches(s, i + 1, j);
      AnyTextThenEmpty(s, i + 1, j);
      assert Matches(Lit('/'), s, i, i + 1) <==> s[i] == '/';
    }
  }

  lemma AnyTextThenEmpty(s: string, i: nat, j: nat)
    requires i <= j <= |s|
    ensures Matches(Cat(Many(Any), Empty), s, i, j) <==> Matches(Many(Any), s, i, j)
  {
    if Matches(Many(Any), s, i, j) { assert Matches(Empty, s, j, j); }
  }

  /** The regular expression of a pattern matches the rest of the input exactly when the pattern accepts it. */
  lemma {:induction false} PatternMatches(ts: seq<Token>, tail: Regex, s: string, i: nat)
    requires i <= |s| && forall k: nat :: k <= |s| ==> (Matches(tail, s, k, |s|) <==> k == |s|)
    ensures Matches(RegexOfAll(ts, tail), s, i, |s|) <==> Accepts(ts, s[i..])
    decreases |ts|
  {
    if ts != [] {
      match ts[0] {
        case Chr(c) => CharacterMatches(ts, tail, s, i);
        case Wild => WildcardMatches(ts, tail, s, i);
      }
    }
  }

  lemma {:induction false} CharacterMatches(ts: seq<Token>, tail: Regex, s: string, i: nat)
    requires ts != [] && ts[0].Chr?
    requires i <= |s| && forall k: nat :: k <= |s| ==> (Matches(tail, s, k, |s|) <==> k == |s|)
    ensures Matches(RegexOfAll(ts, tail), s, i, |s|) <==> Accepts(ts, s[i..])
    decreases |ts|, 0
  {
    if i < |s| {
      PatternMatches(ts[1..], tail, s, i + 1);
      assert s[i..][1..] == s[i + 1..];
      if Stands(ts[0].c, s[i]) { assert Matches(RegexOf(ts[0]), s, i, i + 1); }
    }
  }

  lemma {:induction false} WildcardMatches(ts: seq<Token>, tail: Regex, s: string, i: nat)
    requires ts != [] && ts[0].Wild?
    requires i <= |s| && forall k: nat :: k <= |s| ==> (Matches(tail, s, k, |s|) <==> k == |s|)
    ensures Matches(RegexOfAll(ts, tail), s, i, |s|) <==> Accepts(ts, s[i..])
    decreases |ts|, 0
  {
    var rest := RegexOfAll(ts[1..], tail);
    forall k: nat | i <= k <= |s| ensures Matches(rest, s, k, |s|) <==> Accepts(ts[1..], s[i..][k - i..]) {
      PatternMatches(ts[1..], tail, s, k);
      assert s[i..][k - i..] == s[k..];
    }
    assert RegexOfAll(ts, tail) == Cat(WILD, rest);
    WildcardThenRest(ts, rest, s, i);
  }

  /** A wildcard and then what `rest` matches. */
  lemma WildcardThenRest(ts: seq<Token>, rest: Regex, s: string, i: nat)
    requires ts != [] && ts[0].Wild? && i <= |s|
    requires forall k: nat :: i <= k <= |s| ==> (Matches(rest, s, k, |s|) <==> Accepts(ts[1..], s[i..][k - i..]))
    ensures Matches(Cat(WILD, rest), s, i, |s|) <==> Accepts(ts, s[i..])
  {
    forall k: nat | i <= k <= |s|
      ensures Matches(WILD, s, i, k) <==> (i == k == |s|) || (i < k && s[i..][0] == '/' && OneLine(s[i..][1..k - i]))
    {
      WildMatches(s, i, k);
      if i < k { assert s[i..][1..k - i] == s[i + 1..k]; }
    }
    if Matches(Cat(WILD, rest), s, i, |s|) {
      var k := CatSplits(WILD, rest, s, i, |s|);
      assert Accepts(ts[1..], s[i..][k - i..]);
    }
    if Accepts(ts, s[i..]) { WildcardTaken(ts, rest, s, i); }
  }

  lemma WildcardTaken(ts: seq<Token>, rest: Regex, s: string, i: nat)
    requires ts != [] && ts[0].Wild? && i <= |s| && Accepts(ts, s[i..])
    requires forall k: nat :: i <= k <= |s| ==> (Matches(rest, s, k, |s|) <==> Accepts(ts[1..], s[i..][k - i..]))
    ensures Matches(Cat(WILD, rest), s, i, |s|)
  {
    if s[i..] == "" {
      WildMatches(s, i, i);
      assert s[i..][i - i..] == s[i..];
      CatJoins(WILD, rest, s, i, i, |s|);
    } else {
      var k: nat :| 1 <= k <= |s[i..]| && OneLine(s[i..][1..k]) && Accepts(ts[1..], s[i..][k..]);
      WildMatches(s, i, i + k);
      assert s[i..][1..k] == s[i + 1..i + k];
      assert s[i..][k..] == s[i..][(i + k) - i..];
      CatJoins(WILD, rest, s, i, i + k, |s|);
    }
  }

  lemma {:induction false} LiteralAccepts(uri: string, path: string)
    ensures Accepts(Literal(uri), path) <==> Resembles(uri, path)
  {
    if uri != "" && path != "" {
      LiteralAccepts(uri[1..], path[1..]);
      ResemblesFirst(uri, path);
    }
  }

  lemma ResemblesFirst(uri: string, path: string)
    requires uri != "" && path != ""
    ensures Resembles(uri, path) <==> Stands(uri[0], path[0]) && Resembles(uri[1..], path[1..])
  {
    if Stands(uri[0], path[0]) && Resembles(uri[1..], path[1..]) {
      forall i | 0 <= i < |uri| ensures Stands(uri[i], path[i]) {
        if i > 0 { assert Stands(uri[1..][i - 1], path[1..][i - 1]); }
      }
    } else if Resembles(uri, path) {
      forall i | 0 <= i < |uri[1..]| ensures Stands(uri[1..][i], path[1..][i]) {
        assert Stands(uri[i + 1], path[i + 1]);
      }
    }
  }

  /** The text a URI is compiled to. */
  function Text(uri: string): string {
    if ContainsWildcard(uri).None? then "^" + Sanitized(uri, true) + "$"
    else
      var clean := Sanitized(uri, false);
      if Contains(clean, SEPARATOR) then Compiled(clean) else uri
  }

  /** URIs over the sanitised alphabet in which every star of a wildcard pattern belongs to a wildcard. */
  predicate Understood(uri: string) {
    Clean(uri) && (ContainsWildcard(uri).Some? ==> StarsFollowSlashes(uri))
  }

  lemma {:induction false} WildcardIsSeparator(uri: string, i: nat)
    requires Clean(uri) && i + 1 < |uri| && uri[i] == '/' && uri[i + 1] == '*'
    ensures Contains(Sanitized(uri, false), SEPARATOR)
  {
    var t := Sanitized(uri, false);
    if i == 0 {
      SeparatorInFront(uri);
    } else {
      WildcardIsSeparator(uri[1..], i - 1);
      var rest := Sanitized(uri[1..], false);
      var n := |Escaped(uri[0], false)|;
      assert t[n..] == rest;
      FindInRest(t, SEPARATOR, n);
      assert OccursAt(t, SEPARATOR, Find(t, SEPARATOR, n).value);
    }
  }

  lemma NoDots(uri: string, path: string)
    requires '.' !in uri
    ensures Resembles(uri, path) <==> path == uri
  {}

  /** The regular expression of an understood URI accepts exactly what the URI means. */
  lemma CompilationPreservesMeaning(uri: string, path: string)
    requires Understood(uri)
    ensures Parse(Text(uri)).Some?
    ensures FullMatch(Parse(Text(uri)).value, path) <==> Accepts(Pattern(uri), path)
    ensures ContainsWildcard(uri).None? ==> (Accepts(Pattern(uri), path) <==> Resembles(uri, path))
    ensures ContainsWildcard(uri).None? && '.' !in uri ==> (Accepts(Pattern(uri), path) <==> path == uri)
  {
    assert path[0..] == path;
    match ContainsWildcard(uri) {
      case None =>
        ExactParses(uri);
        LiteralAccepts(uri, path);
        if '.' !in uri { NoDots(uri, path); }
        ExactMatches(uri, path);
      case Some(i) =>
        WildcardIsSeparator(uri, i - 1);
        WildcardsEmit(uri);
        WildcardsParse(uri);
        PatternMatches(Wildcards(uri), Empty, path, 0);
    }
  }

  lemma ExactMatches(uri: string, path: string)
    ensures FullMatch(Cat(Begin, RegexOfAll(Literal(uri), Cat(End, Empty))), path) <==> Accepts(Literal(uri), path)
  {
    var end := Cat(End, Empty);
    forall k: nat | k <= |path| ensures Matches(end, path, k, |path|) <==> k == |path| {
      if k == |path| { assert Matches(End, path, k, k) && Matches(Empty, path, k, k); }
    }
    PatternMatches(Literal(uri), end, path, 0);
    assert path[0..] == path;
    var r := RegexOfAll(Literal(uri), end);
    if FullMatch(Cat(Begin, r), path) {
      var k := CatSplits(Begin, r, path, 0, |path|);
    }
    if Matches(r, path, 0, |path|) {
      CatJoins(Begin, r, path, 0, 0, |path|);
    }
  }

  // ---------------------------------------------------------------- the map

  type Resolver(==, !new)

  /** What a C string ends at. */
  function UpToNul(s: string): string {
    if s == "" || s[0] == '\0' then "" else [s[0]] + UpToNul(s[1..])
  }

  type Resolvers = map<string, (Regex, Resolver)>

  /** The text is registered, and its regular expression matches the whole path. */
  predicate Hits(m: Resolvers, text: string, path: string) {
    text in m && FullMatch(m[text].0, path)
  }

  /** The map is unordered: an iteration may visit its keys in any order. */
  ghost predicate IsOrder(order: seq<string>, keys: set<string>) {
    Distinct(order) && Elements(order) == keys
  }

  /** The first text of an order that hits. */
  function FirstHit(m: Resolvers, order: seq<string>, path: string): Option<string> {
    if order == [] then None
    else if Hits(m, order[0], path) then Some(order[0])
    else FirstHit(m, order[1..], path)
  }

  lemma {:induction false} FirstHitMeans(m: Resolvers, order: seq<string>, path: string)
    ensures match FirstHit(m, order, path)
            case None => forall text :: text in order ==> !Hits(m, text, path)
            case Some(text) => text in order && Hits(m, text, path)
  {
    if order != [] { FirstHitMeans(m, order[1..], path); }
  }

  lemma {:induction false} MissesFirst(m: Resolvers, order: seq<string>, more: seq<string>, path: string)
    requires forall text :: text in order ==> !Hits(m, text, path)
    ensures FirstHit(m, order + more, path) == FirstHit(m, more, path)
  {
    if order == [] {
      assert order + more == more;
    } else {
      assert order[0] in order;
      assert (order + more)[1..] == order[1..] + more;
      MissesFirst(m, order[1..], more, path);
    }
  }

  lemma {:induction false} SomeOrder(keys: set<string>) returns (order: seq<string>)
    ensures IsOrder(order, keys)
    decreases |keys|
  {
    if keys == {} {
      order := [];
    } else {
      var text :| text in keys;
      var rest := SomeOrder(keys - {text});
      order := [text] + rest;
      JoinedOrder([text], rest);
    }
  }

  lemma JoinedOrder(first: seq<string>, rest: seq<string>)
    requires Distinct(first) && Distinct(rest) && Elements(first) !! Elements(rest)
    ensures IsOrder(first + rest, Elements(first) + Elements(rest))
  {
    var order := first + rest;
    forall i, j | 0 <= i < j < |order| ensures order[i] != order[j] {
      if i < |first| <= j { assert order[i] in Elements(first) && order[j] in Elements(rest); }
    }
  }

  /** A text that hits is the outcome of every order exactly when it is the only one that hits. */
  lemma AlwaysWins(m: Resolvers, text: string, path: string)
    requires Hits(m, text, path)
    ensures (forall order :: IsOrder(order, m.Keys) ==> FirstHit(m, order, path) == Some(text)) <==>
            (forall other :: Hits(m, other, path) ==> other == text)
  {
    if forall other :: Hits(m, other, path) ==> other == text {
      forall order | IsOrder(order, m.Keys) ensures FirstHit(m, order, path) == Some(text) {
        FirstHitMeans(m, order, path);
        assert text in Elements(order);
      }
    } else {
      var other :| Hits(m, other, path) && other != text;
      var order := MayWin(m, other, path);
      assert FirstHit(m, order, path) != Some(text);
    }
  }

  /** Every text that hits is the outcome of some order. */
  lemma MayWin(m: Resolvers, text: string, path: string) returns (order: seq<string>)
    requires Hits(m, text, path)
    ensures IsOrder(order, m.Keys) && FirstHit(m, order, path) == Some(text)
  {
    var rest := SomeOrder(m.Keys - {text});
    order := [text] + rest;
    JoinedOrder([text], rest);
    assert Elements([text]) + Elements(rest) == m.Keys;
  }

  /** The text added last among those that hit. */
  function LastHit(m: Resolvers, log: seq<string>, path: string): Option<string> {
    if log == [] then None
    else if Hits(m, log[|log| - 1], path) then Some(log[|log| - 1])
    else LastHit(m, log[..|log| - 1], path)
  }

  lemma {:induction false} LastHitMeans(m: Resolvers, log: seq<string>, path: string)
    ensures match LastHit(m, log, path)
            case None => forall text :: text in log ==> !Hits(m, text, path)
            case Some(text) => text in log && Hits(m, text, path)
  {
    if log != [] { LastHitMeans(m, log[..|log| - 1], path); }
  }

  /**
    That the later of two matching patterns wins is true in every order of iteration exactly when there are
    no two: no registered text but the one added last among those that hit hits the path.
   */
  lemma LaterWins(m: Resolvers, log: seq<string>, path: string)
    requires Elements(log) == m.Keys
    ensures (forall order :: IsOrder(order, m.Keys) ==> FirstHit(m, order, path) == LastHit(m, log, path)) <==>
            (forall a, b :: Hits(m, a, path) && Hits(m, b, path) ==> a == b)
  {
    LastHitMeans(m, log, path);
    match LastHit(m, log, path) {
      case Some(text) => AlwaysWins(m, text, path);
      case None =>
        forall order | IsOrder(order, m.Keys) ensures FirstHit(m, order, path) == None {
          FirstHitMeans(m, order, path);
          forall a | a in order ensures !Hits(m, a, path) { assert a in Elements(order) && a in Elements(log); }
        }
        forall a ensures !Hits(m, a, path) { assert a in m ==> a in Elements(log); }
    }
  }

  const LITERAL: string := "/a"
  const WILDCARD: string := "/*"

  lemma LiteralAndWildcard()
    ensures Understood(LITERAL) && Understood(WILDCARD)
    ensures Pattern(LITERAL) == [Chr('/'), Chr('a')] && Pattern(WILDCARD) == [Wild]
  {
    forall i | 0 <= i ensures !OccursAt(LITERAL, "*", i) {
      if OccursAt(LITERAL, "*", i) { OccursMeans(LITERAL, "*", i, 0); }
    }
    FindIs(LITERAL, "*", None);
    assert Literal("a") == [Chr('a')] + Literal("");
    assert LITERAL[1..] == "a";
    assert OccursAt(WILDCARD, "*", 1) by { assert WILDCARD[1..2] == "*"; }
    assert !OccursAt(WILDCARD, "*", 0) by { assert WILDCARD[0..1] == "/"; }
    FindIs(WILDCARD, "*", Some(1));
    assert WILDCARD[2..] == "";
  }

  lemma LiteralMatches()
    ensures Parse(Text(LITERAL)).Some? && FullMatch(Parse(Text(LITERAL)).value, LITERAL)
    ensures !FullMatch(Parse(Text(LITERAL)).value, "/")
  {
    LiteralAndWildcard();
    CompilationPreservesMeaning(LITERAL, LITERAL);
    CompilationPreservesMeaning(LITERAL, "/");
  }

  lemma WildcardMatchesBoth()
    ensures Parse(Text(WILDCARD)).Some? && FullMatch(Parse(Text(WILDCARD)).value, LITERAL)
    ensures FullMatch(Parse(Text(WILDCARD)).value, "/")
  {
    LiteralAndWildcard();
    WildcardTakesAll("a");
    WildcardTakesAll("");
    assert "/" + "a" == LITERAL && "/" + "" == "/";
    CompilationPreservesMeaning(WILDCARD, LITERAL);
    CompilationPreservesMeaning(WILDCARD, "/");
  }

  lemma WildcardTakesAll(text: string)
    requires OneLine(text)
    ensures Accepts([Wild], "/" + text)
  {
    var path := "/" + text;
    assert path[1..|path|] == text && path[|path|..] == "" && [Wild][1..] == [];
  }

  /** With the literal added before the wildcard, an iteration may find either of them for the path of the literal. */
  lemma EarlierMayWin(m: Resolvers, log: seq<string>) returns (order: seq<string>)
    requires log == [Text(LITERAL), Text(WILDCARD)] && m.Keys == {Text(LITERAL), Text(WILDCARD)}
    requires Some(m[Text(LITERAL)].0) == Parse(Text(LITERAL)) && Some(m[Text(WILDCARD)].0) == Parse(Text(WILDCARD))
    ensures LastHit(m, log, LITERAL) == Some(Text(WILDCARD)) && Text(WILDCARD) != Text(LITERAL)
    ensures IsOrder(order, m.Keys) && FirstHit(m, order, LITERAL) == Some(Text(LITERAL))
  {
    LiteralMatches();
    WildcardMatchesBoth();
    order := MayWin(m, Text(LITERAL), LITERAL);
  }

  /**
    The resolvers by the text of their regular expressions; `uris` records which URI was added for each,
    `log` in which order.
   */
  class UriMapper {
    var resolvers: Resolvers
    ghost var uris: map<string, string>
    ghost var log: seq<string>

    ghost predicate Valid()
      reads this
    {
      && uris.Keys == resolvers.Keys == Elements(log)
      && forall text :: text in resolvers ==> text == Text(uris[text]) && Parse(text) == Some(resolvers[text].0)
    }

    constructor ()
      ensures Valid() && resolvers == map[] && log == []
    {
      resolvers, uris, log := map[], map[], [];
    }

    /** The last resolver added for a text is kept. A text that is no regular expression is an error. */
    method Add(uri: string, resolver: Resolver) returns (ok: bool)
      requires Valid() && Parseable(uri)
      modifies this
      ensures Valid() && ok == Parse(Text(uri)).Some?
      ensures ok ==> resolvers == old(resolvers)[Text(uri) := (Parse(Text(uri)).value, resolver)]
      ensures ok ==> uris == old(uris)[Text(uri) := uri] && log == old(log) + [Text(uri)]
      ensures !ok ==> resolvers == old(resolvers) && uris == old(uris) && log == old(log)
      ensures Understood(uri) ==> ok
    {
      if Understood(uri) { CompilationPreservesMeaning(uri, ""); }
      NoPlaceholder(uri);
      var wildcard := ContainsWildcard(uri);
      var text;
      if wildcard == None {
        text := CreateExactMatch(uri);
      } else {
        text := CreateWithWildcard(uri);
      }
      var compiled := Parse(text);
      if compiled == None {
        return false;
      }
      resolvers, uris, log := resolvers[text := (compiled.value, resolver)], uris[text := uri], log + [text];
      assert Elements(log) == Elements(old(log)) + {text};
      return true;
    }

    /** For an understood URI a hit is what its pattern accepts. */
    lemma HitsMean(path: string)
      requires Valid()
      ensures forall text :: text in uris && Understood(uris[text]) ==>
                (Hits(resolvers, text, path) <==> Accepts(Pattern(uris[text]), path))
    {
      forall text | text in uris && Understood(uris[text])
        ensures Hits(resolvers, text, path) <==> Accepts(Pattern(uris[text]), path)
      {
        CompilationPreservesMeaning(uris[text], path);
      }
    }

    /** The patterns are tried in any order; the path is taken as a C string. */
    method Match(uri: string) returns (r: Option<(Resolver, string)>)
      requires Valid()
      ensures r.Some? ==> Hits(resolvers, r.value.1, UpToNul(uri)) && resolvers[r.value.1].1 == r.value.0
      ensures r.None? ==> forall text :: text in resolvers ==> !Hits(resolvers, text, UpToNul(uri))
      ensures r.None? ==>
                forall text :: text in uris && Understood(uris[text]) ==> !Accepts(Pattern(uris[text]), UpToNul(uri))
      ensures r.Some? && Understood(uris[r.value.1]) ==> Accepts(Pattern(uris[r.value.1]), UpToNul(uri))
      ensures IsOutcome(resolvers, UpToNul(uri), if r.Some? then Some(r.value.1) else None)
    {
      var path := UpToNul(uri);
      HitsMean(path);
      var text := FindHit(resolvers, path);
      r := if text.Some? then Some((resolvers[text.value].1, text.value)) else None;
    }
  }

  /** What some order of iteration comes to. */
  ghost predicate IsOutcome(m: Resolvers, path: string, r: Option<string>) {
    exists order :: IsOrder(order, m.Keys) && FirstHit(m, order, path) == r
  }

  method FindHit(m: Resolvers, path: string) returns (r: Option<string>)
    ensures r.Some? ==> Hits(m, r.value, path)
    ensures r.None? ==> forall text :: text in m ==> !Hits(m, text, path)
    ensures IsOutcome(m, path, r)
  {
    var left := m.Keys;
    ghost var tried: seq<string> := [];
    while left != {}
      invariant left <= m.Keys && IsOrder(tried, m.Keys - left)
      invariant forall text :: text in m && text !in left ==> !Hits(m, text, path)
      decreases |left|
    {
      var text :| text in left;
      ghost var order := Continued(m, tried, text, left, path);
      if Hits(m, text, path) {
        return Some(text);
      }
      left, tried := left - {text}, tried + [text];
    }
    NoneLeft(m, tried, path);
    return None;
  }

  lemma NoneLeft(m: Resolvers, tried: seq<string>, path: string)
    requires IsOrder(tried, m.Keys) && forall text :: text in m ==> !Hits(m, text, path)
    ensures IsOutcome(m, path, None)
  {
    FirstHitMeans(m, tried, path);
  }

  /** After `tried` in vain, `text` may come next, and then the rest. */
  lemma Continued(m: Resolvers, tried: seq<string>, text: string, left: set<string>, path: string)
    returns (order: seq<string>)
    requires left <= m.Keys && text in left && IsOrder(tried, m.Keys - left)
    requires forall t :: t in m && t !in left ==> !Hits(m, t, path)
    ensures IsOrder(tried + [text], m.Keys - (left - {text}))
    ensures IsOrder(order, m.Keys) && (Hits(m, text, path) ==> FirstHit(m, order, path) == Some(text))
  {
    var rest := SomeOrder(left - {text});
    JoinedOrder(tried, [text]);
    assert Elements(tried) + Elements([text]) == m.Keys - (left - {text});
    JoinedOrder([text], rest);
    assert Elements([text] + rest) == left;
    JoinedOrder(tried, [text] + rest);
    order := tried + ([text] + rest);
    assert Elements(tried) + left == m.Keys;
    forall t | t in tried ensures !Hits(m, t, path) { assert t in Elements(tried); }
    MissesFirst(m, tried, [text] + rest, path);
  }

  lemma NoPlaceholder(uri: string)
    requires Parseable(uri)
    ensures !Contains(uri, PLACEHOLDER)
  {
    if Contains(uri, PLACEHOLDER) {
      OccursMeans(uri, PLACEHOLDER, Find(uri, PLACEHOLDER, 0).value, 0);
    }
  }
}
