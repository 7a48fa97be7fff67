/**
  The request parser: a request line of three tokens, and headers up to the first empty line or the end.
 */
module HttpRequest {
  import opened Common
  import opened Strings
  import PlainStream

  const CRLF: string := "\r\n"

  type Headers = map<string, string>

  datatype Request = Request(method_: string, rawUri: string, protocolVersion: string, headers: Headers)

  // ---------------------------------------------------------------- tokens

  /** The token up to the delimiter, or up to the end, and what follows. */
  function Token(s: string, del: string): (string, string)
    requires del != ""
  {
    match Find(s, del, 0)
    case None => (s, "")
    case Some(i) => (s[..i], s[i + |del|..])
  }

  /** `getNextToken`, with the index of what follows. */
  method GetNextToken(line: string, del: string, offset: nat) returns (token: string, outIndex: nat)
    requires offset <= |line| && del != ""
    ensures offset <= outIndex <= |line| && (token, line[outIndex..]) == Token(line[offset..], del)
    ensures token != "" ==> outIndex > offset
  {
    FindInRest(line, del, offset);
    var index := Find(line, del, offset);
    match index {
      case None =>
        assert line[|line|..] == "";
        return line[offset..], |line|;
      case Some(i) =>
        assert line[offset..][..i - offset] == line[offset..i];
        assert line[offset..][i - offset + |del|..] == line[i + |del|..];
        return line[offset..i], i + |del|;
    }
  }

  method ParseRequestLine(requestLine: string) returns (m: string, uri: string, version: string)
    ensures var t := Token(requestLine, " "); var u := Token(t.1, " ");
            m == t.0 && uri == u.0 && version == Token(u.1, " ").0
  {
    var offset: nat := 0;
    assert requestLine[0..] == requestLine;
    m, offset := GetNextToken(requestLine, " ", offset);
    uri, offset := GetNextToken(requestLine, " ", offset);
    version, offset := GetNextToken(requestLine, " ", offset);
  }

  // ---------------------------------------------------------------- headers

  function KeyAndValue(header: string): (string, string) {
    Token(header, ": ")
  }

  function HeaderLines(raw: string): seq<(string, string)>
    decreases |raw|
  {
    var t := Token(raw, CRLF);
    if t.0 == "" then [] else [KeyAndValue(t.0)] + HeaderLines(t.1)
  }

  /** Of several headers with the same key the first counts. */
  function FirstWins(hs: seq<(string, string)>): Headers {
    if hs == [] then map[] else FirstWins(hs[1..])[hs[0].0 := hs[0].1]
  }

  lemma {:induction false} FirstWinsInsert(hs: seq<(string, string)>, h: (string, string))
    ensures FirstWins(hs + [h]) == if h.0 in FirstWins(hs) then FirstWins(hs) else FirstWins(hs)[h.0 := h.1]
  {
    if hs == [] {
      assert ([] + [h])[1..] == [];
    } else {
      FirstWinsInsert(hs[1..], h);
      assert (hs + [h])[1..] == hs[1..] + [h];
    }
  }

  /** What a lookup finds: the value of the first header with that key. */
  lemma {:induction false} FirstWinsMeans(hs: seq<(string, string)>, key: string)
    ensures key in FirstWins(hs) <==> exists i :: 0 <= i < |hs| && hs[i].0 == key
    ensures forall i :: 0 <= i < |hs| && hs[i].0 == key && (forall j :: 0 <= j < i ==> hs[j].0 != key) ==>
              FirstWins(hs)[key] == hs[i].1
  {
    if hs != [] {
      FirstWinsMeans(hs[1..], key);
      if key in FirstWins(hs) && hs[0].0 != key {
        var i :| 0 <= i < |hs[1..]| && hs[1..][i].0 == key;
        assert hs[i + 1].0 == key;
      }
      forall i | 0 <= i < |hs| && hs[i].0 == key && (forall j :: 0 <= j < i ==> hs[j].0 != key)
        ensures key in FirstWins(hs) && FirstWins(hs)[key] == hs[i].1
      {
        if i > 0 {
          assert hs[1..][i - 1] == hs[i];
          assert forall j :: 0 <= j < i - 1 ==> hs[1..][j] == hs[j + 1];
        }
      }
    }
  }

  method ParseHeaders(rawHeaders: string) returns (headers: Headers)
    ensures headers == FirstWins(HeaderLines(rawHeaders))
  {
    headers := map[];
    var header: string;
    var offset: nat := 0;
    ghost var done: seq<(string, string)> := [];
    assert rawHeaders[0..] == rawHeaders;
    header, offset := GetNextToken(rawHeaders, CRLF, offset);
    while header != ""
      invariant offset <= |rawHeaders|
      invariant header != "" ==>
                  HeaderLines(rawHeaders) == done + [KeyAndValue(header)] + HeaderLines(rawHeaders[offset..])
      invariant header == "" ==> HeaderLines(rawHeaders) == done
      invariant headers == FirstWins(done)
      decreases |rawHeaders| - offset, header != ""
    {
      assert header[0..] == header;
      var key, keySeparatorIndex := GetNextToken(header, ": ", 0);
      var value := header[keySeparatorIndex..];
      FirstWinsInsert(done, (key, value));
      if key !in headers {
        headers := headers[key := value];
      }
      done := done + [(key, value)];
      header, offset := GetNextToken(rawHeaders, CRLF, offset);
      Associative(done, [KeyAndValue(header)], HeaderLines(rawHeaders[offset..]));
    }
  }

  // ---------------------------------------------------------------- requests

  /** What a text is parsed to: none unless it has a line end. */
  function Parsed(text: string): Option<Request> {
    match Find(text, CRLF, 0)
    case None => None
    case Some(i) =>
      var t := Token(text[..i], " ");
      var u := Token(t.1, " ");
      Some(Request(t.0, u.0, Token(u.1, " ").0, FirstWins(HeaderLines(text[i + |CRLF|..]))))
  }

  method CreateRequest(text: string) returns (r: Option<Request>)
    ensures r == Parsed(text) && (r.Some? <==> Contains(text, CRLF))
  {
    var end := Find(text, CRLF, 0);
    if end == None {
      return None;
    }
    var m, uri, version := ParseRequestLine(text[..end.value]);
    var headers := ParseHeaders(text[end.value + |CRLF|..]);
    return Some(Request(m, uri, version, headers));
  }

  // ---------------------------------------------------------------- printing

  /** Lines with a line end between them, and none after the last. */
  function Lines(lines: seq<string>): string
    requires lines != []
  {
    if |lines| == 1 then lines[0] else lines[0] + CRLF + Lines(lines[1..])
  }

  function HeaderLine(h: (string, string)): string {
    h.0 + ": " + h.1
  }

  function RequestLine(m: string, uri: string, version: string): string {
    m + " " + uri + " " + version
  }

  function AllLines(m: string, uri: string, version: string, hs: seq<(string, string)>): (lines: seq<string>)
    ensures |lines| == |hs| + 1
  {
    [RequestLine(m, uri, version)] + Printable(hs)
  }

  function Printable(hs: seq<(string, string)>): (lines: seq<string>)
    ensures |lines| == |hs|
  {
    seq(|hs|, i requires 0 <= i < |hs| => HeaderLine(hs[i]))
  }

  /** A request as it is sent, up to but not including the empty line. */
  function Printed(m: string, uri: string, version: string, hs: seq<(string, string)>): string {
    Lines(AllLines(m, uri, version, hs))
  }

  predicate Word(s: string) {
    !Contains(s, " ") && !Contains(s, CRLF)
  }

  predicate WellFormedHeader(h: (string, string)) {
    !Contains(h.0, ": ") && !Contains(h.0, CRLF) && !Contains(h.1, CRLF)
  }

  predicate WellFormed(m: string, uri: string, version: string, hs: seq<(string, string)>) {
    Word(m) && Word(uri) && Word(version) && forall i :: 0 <= i < |hs| ==> WellFormedHeader(hs[i])
  }

  /**
    A delimiter whose first character is not among its others can only begin inside a text that is free of
    it by being in it entirely.
   */
  predicate Plain(del: string) {
    del != "" && forall i :: 0 < i < |del| ==> del[i] != del[0]
  }

  lemma NoneStartsBefore(a: string, del: string, x: string, j: int)
    requires Plain(del) && !Contains(a, del) && j < |a|
    ensures !OccursAt(a + del + x, del, j)
  {
    var t := a + del + x;
    assert t[0..|a|] == a && t[|a|] == del[0];
    if OccursAt(t, del, j) {
      if j + |del| <= |a| {
        OccursInPart(t, del, j, 0, |a|);
      } else {
        OccursMeans(t, del, j, |a| - j);
      }
    }
  }

  /** The token in front of the delimiter is read back. */
  lemma TokenOfPrinted(a: string, del: string, x: string)
    requires Plain(del) && !Contains(a, del)
    ensures Token(a + del + x, del) == (a, x)
  {
    var t := a + del + x;
    forall j | 0 <= j < |a| ensures !OccursAt(t, del, j) { NoneStartsBefore(a, del, x, j); }
    assert t[|a|..|a| + |del|] == del && t[..|a|] == a && t[|a| + |del|..] == x;
    FindIs(t, del, Some(|a|));
  }

  /** The token is all that precedes the first delimiter, or the whole text when there is none. */
  lemma TokenMeans(s: string, del: string, token: string, rest: string)
    requires Plain(del)
    ensures Token(s, del) == (token, rest) <==>
            !Contains(token, del) && (s == token + del + rest || (s == token && rest == ""))
  {
    if Token(s, del) == (token, rest) {
      match Find(s, del, 0)
      case None =>
      case Some(i) =>
        assert s == s[..i] + s[i..i + |del|] + s[i + |del|..];
        if Contains(token, del) {
          var j := Find(token, del, 0).value;
          assert s[j..j + |del|] == token[j..j + |del|];
          assert OccursAt(s, del, j);
        }
    } else if !Contains(token, del) && s == token + del + rest {
      TokenOfPrinted(token, del, rest);
    }
  }

  /** A header line is cut at its first ": "; one without it is all key, and its value is empty. */
  lemma KeyAndValueMeans(header: string, key: string, value: string)
    ensures KeyAndValue(header) == (key, value) <==>
            !Contains(key, ": ") && (header == key + ": " + value || (header == key && value == ""))
  {
    PlainDelimiters();
    TokenMeans(header, ": ", key, value);
  }

  lemma PlainDelimiters()
    ensures Plain(" ") && Plain(": ") && Plain(CRLF)
  {}

  /** A line made of texts without a line end and a separator without its characters has none. */
  lemma NoLineEndAcross(a: string, sep: string, b: string)
    requires !Contains(a, CRLF) && !Contains(b, CRLF) && sep != ""
             && (forall i :: 0 <= i < |sep| ==> sep[i] != '\r' && sep[i] != '\n')
    ensures !Contains(a + sep + b, CRLF)
  {
    var t, n := a + sep + b, |a| + |sep|;
    assert t[0..|a|] == a && t[n..|t|] == b && t[|a|] == sep[0] && t[n - 1] == sep[|sep| - 1];
    forall j | 0 <= j ensures !OccursAt(t, CRLF, j) {
      if |a| - 1 <= j < n {
        NotInSeparator(a, sep, b, j);
      } else if OccursAt(t, CRLF, j) {
        if j < |a| { OccursInPart(t, CRLF, j, 0, |a|); } else { OccursInPart(t, CRLF, j, n, |t|); }
      }
    }
  }

  lemma NotInSeparator(a: string, sep: string, b: string, j: nat)
    requires sep != "" && |a| - 1 <= j < |a| + |sep| && forall i :: 0 <= i < |sep| ==> sep[i] != '\r' && sep[i] != '\n'
    ensures !OccursAt(a + sep + b, CRLF, j)
  {
    var t := a + sep + b;
    if j < |a| { assert t[j + 1] == sep[0]; } else { assert t[j] == sep[j - |a|]; }
    if OccursAt(t, CRLF, j) {
      OccursMeans(t, CRLF, j, if j < |a| then 1 else 0);
    }
  }

  lemma HeaderLineIsLine(h: (string, string))
    requires WellFormedHeader(h)
    ensures !Contains(HeaderLine(h), CRLF) && HeaderLine(h) != "" && KeyAndValue(HeaderLine(h)) == h
  {
    NoLineEndAcross(h.0, ": ", h.1);
    PlainDelimiters();
    TokenOfPrinted(h.0, ": ", h.1);
  }

  lemma RequestLineIsLine(m: string, uri: string, version: string)
    requires Word(m) && Word(uri) && Word(version)
    ensures !Contains(RequestLine(m, uri, version), CRLF) && RequestLine(m, uri, version) != ""
  {
    NoLineEndAcross(m, " ", uri);
    NoLineEndAcross(m + " " + uri, " ", version);
  }

  lemma RequestLineParses(m: string, uri: string, version: string)
    requires Word(m) && Word(uri) && Word(version)
    ensures var t := Token(RequestLine(m, uri, version), " "); var u := Token(t.1, " ");
            t.0 == m && u.0 == uri && Token(u.1, " ").0 == version
  {
    PlainDelimiters();
    assert RequestLine(m, uri, version) == m + " " + (uri + " " + version);
    TokenOfPrinted(m, " ", uri + " " + version);
    TokenOfPrinted(uri, " ", version);
  }

  lemma {:induction false} HeadersParse(hs: seq<(string, string)>)
    requires hs != [] && forall i :: 0 <= i < |hs| ==> WellFormedHeader(hs[i])
    ensures HeaderLines(Lines(Printable(hs))) == hs
  {
    PrintedOneByOne(hs);
    if |hs| == 1 {
      OneHeaderParses(hs[0]);
    } else {
      HeadersParse(hs[1..]);
      FirstHeaderParses(hs[0], Lines(Printable(hs[1..])));
    }
    assert hs == [hs[0]] + hs[1..];
  }

  lemma PrintedOneByOne(hs: seq<(string, string)>)
    requires hs != []
    ensures var line := HeaderLine(hs[0]);
            Lines(Printable(hs)) == if |hs| == 1 then line else line + CRLF + Lines(Printable(hs[1..]))
  {
    if |hs| > 1 { assert Printable(hs)[1..] == Printable(hs[1..]); }
  }

  lemma FirstHeaderParses(h: (string, string), rest: string)
    requires WellFormedHeader(h)
    ensures HeaderLines(HeaderLine(h) + CRLF + rest) == [h] + HeaderLines(rest)
  {
    HeaderLineIsLine(h);
    PlainDelimiters();
    TokenOfPrinted(HeaderLine(h), CRLF, rest);
  }

  lemma OneHeaderParses(h: (string, string))
    requires WellFormedHeader(h)
    ensures HeaderLines(HeaderLine(h)) == [h]
  {
    HeaderLineIsLine(h);
    assert HeaderLines("") == [];
    assert Token(HeaderLine(h), CRLF) == (HeaderLine(h), "");
  }

  /** Parsing a printed request gives it back, with the first of several headers of the same key. */
  lemma RoundTrip(m: string, uri: string, version: string, hs: seq<(string, string)>)
    requires WellFormed(m, uri, version, hs) && hs != []
    ensures Parsed(Printed(m, uri, version, hs)) == Some(Request(m, uri, version, FirstWins(hs)))
  {
    var line, rest := RequestLine(m, uri, version), Lines(Printable(hs));
    RequestLineIsLine(m, uri, version);
    RequestLineParses(m, uri, version);
    HeadersParse(hs);
    assert AllLines(m, uri, version, hs)[1..] == Printable(hs);
    var text := Printed(m, uri, version, hs);
    assert text == line + CRLF + rest;
    PlainDelimiters();
    TokenOfPrinted(line, CRLF, rest);
    var i := Find(text, CRLF, 0).value;
    assert (text[..i], text[i + |CRLF|..]) == (line, rest);
  }

  /** A printed request without a header has no line end, and is rejected. */
  lemma RequestsWithoutHeadersAreRejected(m: string, uri: string, version: string)
    requires Word(m) && Word(uri) && Word(version)
    ensures Parsed(Printed(m, uri, version, [])) == None
  {
    RequestLineIsLine(m, uri, version);
  }

  // ---------------------------------------------------------------- from the wire

  const EMPTY_LINE: string := CRLF + CRLF

  /** An empty line begins with a line end, and goes on with another. */
  lemma EmptyLineMeans(t: string, j: int)
    requires OccursAt(t, EMPTY_LINE, j)
    ensures OccursAt(t, CRLF, j) && OccursAt(t, CRLF, j + 2)
  {
    OccursMeans(t, EMPTY_LINE, j, 0);
    OccursMeans(t, EMPTY_LINE, j, 1);
    OccursMeans(t, EMPTY_LINE, j, 2);
    OccursMeans(t, EMPTY_LINE, j, 3);
  }

  /** Neither within a line nor in the line end after it, when the next line is not empty, does an empty line begin. */
  lemma NotInTheLine(a: string, b: string, more: string, j: nat)
    requires !Contains(a, CRLF) && !Contains(b, CRLF) && b != "" && j < |a| + |CRLF|
    ensures !OccursAt(a + CRLF + (b + CRLF + more), EMPTY_LINE, j)
  {
    var rest := b + CRLF + more;
    var t := a + CRLF + rest;
    PlainDelimiters();
    assert t[|a| + 2..] == rest;
    OccursInRest(t, CRLF, |a| + 2, 0);
    NoneStartsBefore(b, CRLF, more, 0);
    if OccursAt(t, EMPTY_LINE, j) {
      EmptyLineMeans(t, j);
      if j < |a| {
        NoneStartsBefore(a, CRLF, rest, j);
      } else if j > |a| {
        OccursMeans(t, CRLF, j, 0);
      }
    }
  }

  lemma NotInTheLastLine(a: string, more: string, j: nat)
    requires !Contains(a, CRLF) && j < |a|
    ensures !OccursAt(a + EMPTY_LINE + more, EMPTY_LINE, j)
  {
    var t := a + CRLF + (CRLF + more);
    assert t == a + EMPTY_LINE + more;
    PlainDelimiters();
    if OccursAt(t, EMPTY_LINE, j) {
      EmptyLineMeans(t, j);
      NoneStartsBefore(a, CRLF, CRLF + more, j);
    }
  }

  /** The lines and what follows them, as a first line and a rest. */
  lemma FirstLine(lines: seq<string>, more: string) returns (rest: string)
    requires lines != []
    ensures Lines(lines) + EMPTY_LINE + more == lines[0] + CRLF + rest
    ensures |lines| > 1 ==> rest == Lines(lines[1..]) + EMPTY_LINE + more
  {
    if |lines| == 1 {
      rest := CRLF + more;
    } else {
      rest := Lines(lines[1..]) + EMPTY_LINE + more;
      LinesAfterFirst(lines[0], Lines(lines[1..]), more);
    }
  }

  lemma LinesAfterFirst(a: string, b: string, more: string)
    ensures a + CRLF + b + EMPTY_LINE + more == a + CRLF + (b + EMPTY_LINE + more)
  {}

  /** In lines that are not empty, the empty line that follows them is the first one. */
  lemma {:induction false} EmptyLineIsFirst(lines: seq<string>, more: string)
    requires lines != [] && forall i :: 0 <= i < |lines| ==> lines[i] != "" && !Contains(lines[i], CRLF)
    ensures Find(Lines(lines) + EMPTY_LINE + more, EMPTY_LINE, 0) == Some(|Lines(lines)|)
    decreases |lines|
  {
    var a := lines[0];
    if |lines| == 1 {
      var t := a + EMPTY_LINE + more;
      forall j | 0 <= j < |a| ensures !OccursAt(t, EMPTY_LINE, j) { NotInTheLastLine(a, more, j); }
      assert t[|a|..|a| + |EMPTY_LINE|] == EMPTY_LINE;
      FindIs(t, EMPTY_LINE, Some(|a|));
    } else {
      EmptyLineIsFirst(lines[1..], more);
      var rest := FirstLine(lines, more);
      var rest' := FirstLine(lines[1..], more);
      forall j | 0 <= j < |a + CRLF| ensures !OccursAt((a + CRLF) + rest, EMPTY_LINE, j) {
        NotInTheLine(a, lines[1], rest', j);
      }
      FindShifted(a + CRLF, rest, EMPTY_LINE);
    }
  }

  lemma LinesAreLines(m: string, uri: string, version: string, hs: seq<(string, string)>)
    requires WellFormed(m, uri, version, hs)
    ensures forall line :: line in AllLines(m, uri, version, hs) ==> line != "" && !Contains(line, CRLF)
  {
    RequestLineIsLine(m, uri, version);
    forall i | 0 <= i < |hs| ensures HeaderLine(hs[i]) != "" && !Contains(HeaderLine(hs[i]), CRLF) {
      HeaderLineIsLine(hs[i]);
    }
  }

  /**
    From the wire: whatever a client sends after a printed request and an empty line, what the manager cuts
    out of it is the request, and it is parsed to that request if it has a header, and rejected if it has none.
   */
  lemma WireRoundTrip(m: string, uri: string, version: string, hs: seq<(string, string)>, more: string)
    requires WellFormed(m, uri, version, hs)
    ensures var sent := Printed(m, uri, version, hs) + EMPTY_LINE + more;
            && PlainStream.Framed(sent, Printed(m, uri, version, hs))
            && forall header :: PlainStream.Framed(sent, header) ==>
                 Parsed(header) == if hs == [] then None else Some(Request(m, uri, version, FirstWins(hs)))
  {
    assert PlainStream.TERMINATOR == EMPTY_LINE;
    LinesAreLines(m, uri, version, hs);
    EmptyLineIsFirst(AllLines(m, uri, version, hs), more);
    if hs == [] {
      RequestsWithoutHeadersAreRejected(m, uri, version);
    } else {
      RoundTrip(m, uri, version, hs);
    }
    var text := Printed(m, uri, version, hs);
    assert (text + EMPTY_LINE + more)[..|text|] == text;
  }
}
