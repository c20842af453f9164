/**
 * Parsing undoes printing for requests, exactly on the printable ones. The printed form is the message
 * format of section 2.1 of RFC 9112: request line, header lines, blank line.
 */
module RequestLaws {
  import opened Prelude
  import opened Strings
  import opened Buffers
  import opened Requests

  function MethodName(m: Method): string {
    match m case GET => "GET" case HEAD => "HEAD" case UNSUPPORTED_METHOD => "UNSUPPORTED"
  }

  function PrintedLine(m: Method, url: string): string {
    MethodName(m) + SPACE + url + SPACE + "HTTP/1.1"
  }

  function Printed(m: Method, url: string, hs: seq<Header>): string {
    PrintedLine(m, url) + CRLF + HeaderTexts(hs) + CRLF
  }

  /** The request as the server should see it. */
  function Meaning(m: Method, url: string, hs: seq<Header>): Parsed {
    Valid(m, Routed(url), hs, Closes(hs))
  }

  ghost predicate PlainUrl(url: string) {
    Free(url, SPACE) && Free(url, CRLF)
  }

  ghost predicate Printable(url: string, hs: seq<Header>) {
    PlainUrl(url) && forall h :: h in hs ==> PlainHeader(h) && Free(HeaderLine(h), CRLF)
  }

  // ---- printing as terminated lines ----

  lemma PrintedTerminated(m: Method, url: string, hs: seq<Header>)
    ensures Printed(m, url, hs) == Terminated([PrintedLine(m, url)] + HeaderLines(hs), CRLF) + CRLF
    ensures Printed(m, url, hs) == Terminated([PrintedLine(m, url)] + HeaderLines(hs) + [""], CRLF)
  {
    HeaderTextsTerminated(hs);
    var ts := [PrintedLine(m, url)] + HeaderLines(hs);
    assert ts[1..] == HeaderLines(hs);
    TerminatedAppend(ts, [""], CRLF);
    assert Terminated([""], CRLF) == CRLF;
  }

  // ---- the request line ----

  lemma NoSpaceInNames(m: Method)
    requires !m.UNSUPPORTED_METHOD?
    ensures Free(MethodName(m), SPACE) && Free("HTTP/1.1", SPACE)
    ensures ToMethod(MethodName(m)) == m && ToVersion("HTTP/1.1") == HTTP_1_1
  {
    OneCharFree(MethodName(m), SPACE);
    OneCharFree("HTTP/1.1", SPACE);
    FormatIs(MethodName(m), MethodName(m));
    FormatIs("HTTP/1.1", "HTTP/1.1");
  }

  lemma {:induction false} PrintedLineRead(m: Method, url: string)
    requires !m.UNSUPPORTED_METHOD? && Free(url, SPACE)
    ensures ReadRequestLine(PrintedLine(m, url)) == Some(RequestLine(m, Routed(url)))
  {
    NoSpaceInNames(m);
    PrintedLineTokens(m, url);
  }

  lemma {:induction false} PrintedLineTokens(m: Method, url: string)
    requires !m.UNSUPPORTED_METHOD? && Free(url, SPACE)
    ensures Tokens(PrintedLine(m, url), SPACE) == [MethodName(m), url, "HTTP/1.1"]
  {
    NoSpaceInNames(m);
    SingleIsBorderFree(SPACE);
    var ts := [MethodName(m), url];
    assert ts[1..] == [url];
    assert Terminated([url], SPACE) == url + SPACE;
    Regroup(MethodName(m) + SPACE, url, SPACE);
    assert Terminated(ts, SPACE) + "HTTP/1.1" == PrintedLine(m, url);
    SplitTerminated(ts, "HTTP/1.1", SPACE);
  }

  /** Line breaks have two characters, so none forms across a seam whose right side starts with no line feed. */
  lemma CrlfFreeConcat(a: string, b: string)
    requires Free(a, CRLF) && Free(b, CRLF) && (b != "" ==> b[0] != '\n')
    ensures Free(a + b, CRLF)
  {
    forall i ensures !OccursAt(a + b, CRLF, i) {
      if OccursAt(a + b, CRLF, i) {
        OccursChar(a + b, CRLF, i, 1);
        if i + 2 <= |a| {
          OccursInPrefix(a, b, CRLF, i);
        } else if |a| <= i {
          OccursInSuffix(a, b, CRLF, i - |a|);
        }
      }
    }
  }

  lemma NoCrAtSeam(pre: string, s: string)
    requires '\r' !in pre && Free(s, CRLF)
    ensures Free(pre + s, CRLF)
  {
    forall i ensures !OccursAt(pre + s, CRLF, i) {
      if OccursAt(pre + s, CRLF, i) {
        OccursChar(pre + s, CRLF, i, 0);
        if |pre| <= i {
          OccursInSuffix(pre, s, CRLF, i - |pre|);
        }
      }
    }
  }

  lemma PrintedLineCrlfFree(m: Method, url: string)
    requires Free(url, CRLF)
    ensures Free(PrintedLine(m, url), CRLF)
  {
    var pre, post := MethodName(m) + SPACE, SPACE + "HTTP/1.1";
    NoCrlf(pre);
    NoCrlf(post);
    CrlfFreeConcat(url, post);
    assert PrintedLine(m, url) == pre + (url + post);
    NoCrAtSeam(pre, url + post);
  }

  // ---- printable requests come back ----

  lemma PrintedLines(m: Method, url: string, hs: seq<Header>)
    requires Free(url, CRLF) && forall h :: h in hs ==> Free(HeaderLine(h), CRLF)
    ensures Tokens(Printed(m, url, hs), CRLF) == [PrintedLine(m, url)] + HeaderLines(hs) + [""]
  {
    PrintedTerminated(m, url, hs);
    PrintedLineCrlfFree(m, url);
    HeaderTextsTerminated(hs);
    CrlfBorderFree();
    NoCrlf("");
    var ts := [PrintedLine(m, url)] + HeaderLines(hs) + [""];
    SplitTerminated(ts, "", CRLF);
    assert Terminated(ts, CRLF) + "" == Terminated(ts, CRLF);
  }

  lemma ParsePrintedLines(m: Method, url: string, hs: seq<Header>)
    requires !m.UNSUPPORTED_METHOD? && Free(url, SPACE)
    ensures ParseLines([PrintedLine(m, url)] + HeaderLines(hs) + [""]) == Meaning(m, url, hs)
            <==> ReadHeaders(HeaderLines(hs)) == Some(hs)
  {
    PrintedLineRead(m, url);
    var ts := [PrintedLine(m, url)] + HeaderLines(hs) + [""];
    assert ts[1..|ts| - 1] == HeaderLines(hs);
  }

  lemma PrintableRoundTrip(m: Method, url: string, hs: seq<Header>)
    requires !m.UNSUPPORTED_METHOD? && Printable(url, hs)
    ensures ParseRequest(Printed(m, url, hs)) == Meaning(m, url, hs)
  {
    PrintedLines(m, url, hs);
    ReadPrintedHeaders(hs);
    ParsePrintedLines(m, url, hs);
  }

  // ---- only printable requests come back ----

  lemma {:induction false} TokensOfCrlfFree(s: string, d: string)
    requires d != "" && Free(s, CRLF)
    ensures forall t :: t in Tokens(s, d) ==> Free(t, CRLF)
    decreases |s|
  {
    match Find(s, d, 0)
    case None => TokensLast(s, d);
    case Some(i) =>
      var rest := s[i + |d|..];
      TokensCut(s, d, i, s[..i], rest);
      FreePart(s, CRLF, 0, i);
      FreePart(s, CRLF, i + |d|, |s|);
      assert s[0..i] == s[..i] && s[i + |d|..|s|] == rest;
      TokensOfCrlfFree(rest, d);
  }

  lemma PrefixOfRouted(url: string, t: string)
    requires Routed(url) == Routed(t) && Free(t, SPACE) && Free(t, CRLF)
    ensures PlainUrl(url)
  {
    NoCrlf(DEFAULT_ROUTE);
    CrlfFreeConcat(t, DEFAULT_ROUTE);
    OneCharFree(t, SPACE);
    OneCharFree(Routed(t), SPACE);
    FreePart(Routed(t), SPACE, 0, |url|);
    FreePart(Routed(t), CRLF, 0, |url|);
    assert Routed(url)[0..|url|] == url;
  }

  lemma UrlOfParsedLine(line: string, rl: RequestLine, url: string)
    requires Free(line, CRLF) && ReadRequestLine(line) == Some(rl) && rl.url == Routed(url)
    ensures PlainUrl(url)
  {
    TokensFree(line, SPACE);
    TokensOfCrlfFree(line, SPACE);
    PrefixOfRouted(url, Tokens(line, SPACE)[1]);
  }

  lemma HeadersOfParsedLines(lines: seq<string>, hs: seq<Header>)
    requires ReadHeaders(lines) == Some(hs) && forall l :: l in lines ==> Free(l, CRLF)
    ensures forall h :: h in hs ==> Free(HeaderLine(h), CRLF)
  {
    forall i | 0 <= i < |hs| ensures Free(HeaderLine(hs[i]), CRLF) {
      ParsedHeaderIsPart(lines[i], hs[i]);
      FreePart(lines[i], CRLF, 0, |HeaderLine(hs[i])|);
      assert lines[i][0..|HeaderLine(hs[i])|] == lines[i][..|HeaderLine(hs[i])|];
    }
  }

  lemma OnlyPrintableComeBack(m: Method, url: string, hs: seq<Header>)
    requires !m.UNSUPPORTED_METHOD? && ParseRequest(Printed(m, url, hs)) == Meaning(m, url, hs)
    ensures Printable(url, hs)
  {
    var lines := Tokens(Printed(m, url, hs), CRLF);
    TokensFree(Printed(m, url, hs), CRLF);
    UrlOfParsedLine(lines[0], ReadRequestLine(lines[0]).value, url);
    HeadersOfParsedLines(lines[1..|lines| - 1], hs);
    PrintedLines(m, url, hs);
    ParsePrintedLines(m, url, hs);
    ReadPrintedHeaders(hs);
  }

  /**
   * The round trip of requests, on all requests: a printed GET or HEAD is read back as what it means exactly
   * when its URL has no space and no line break and its headers are plain and have no line break.
   */
  lemma RequestRoundTripExactly(m: Method, url: string, hs: seq<Header>)
    requires !m.UNSUPPORTED_METHOD?
    ensures ParseRequest(Printed(m, url, hs)) == Meaning(m, url, hs) <==> Printable(url, hs)
  {
    if Printable(url, hs) {
      PrintableRoundTrip(m, url, hs);
    } else if ParseRequest(Printed(m, url, hs)) == Meaning(m, url, hs) {
      OnlyPrintableComeBack(m, url, hs);
    }
  }

  /** A printable request is popped from the read buffer as one message, whatever follows it. */
  lemma PrintedIsFramed(m: Method, url: string, hs: seq<Header>)
    requires !m.UNSUPPORTED_METHOD? && Printable(url, hs)
    ensures Framed(Printed(m, url, hs), BLANK_LINE)
  {
    PrintedTerminated(m, url, hs);
    PrintedLineCrlfFree(m, url);
    HeaderTextsTerminated(hs);
    CrlfBorderFree();
    FirstBlankLine([PrintedLine(m, url)] + HeaderLines(hs), CRLF);
  }

  // ---- whatever is printed, its method is read ----

  /** The first line of a text that starts with a word and a space does so too. */
  lemma {:induction false} FirstLineStarts(word: string, tail: string)
    requires '\r' !in word && 2 <= |Tokens(word + SPACE + tail, CRLF)|
    ensures exists rest :: Tokens(word + SPACE + tail, CRLF)[0] == word + SPACE + rest
  {
    var s := word + SPACE + tail;
    if Find(s, CRLF, 0).None? {
      TokensLast(s, CRLF);
      assert false;
    }
    var i := Find(s, CRLF, 0).value;
    OccursChar(s, CRLF, i, 0);
    assert |word| < i;
    TokensCut(s, CRLF, i, s[..i], s[i + |CRLF|..]);
    assert s[..i] == word + SPACE + s[|word| + 1..i];
  }

  lemma {:induction false} FirstWord(word: string, rest: string)
    requires Free(word, SPACE)
    ensures var ts := Tokens(word + SPACE + rest, SPACE); ts != [] && ts[0] == word
  {
    var s := word + SPACE + rest;
    SingleIsBorderFree(SPACE);
    FindAfterToken(word, SPACE, rest);
    assert s[..|word|] == word;
    TokensCut(s, SPACE, |word|, word, s[|word| + 1..]);
  }

  /** Whatever URL and headers go with it, if a printed request is read at all, it is read with the method printed. */
  lemma {:induction false} PrintedMethodRead(m: Method, url: string, hs: seq<Header>)
    requires !m.UNSUPPORTED_METHOD?
    ensures ParseRequest(Printed(m, url, hs)).Valid? ==> ParseRequest(Printed(m, url, hs)).verb == m
  {
    var word := MethodName(m);
    var tail := AfterMethod(url, hs);
    NoSpaceInNames(m);
    PrintedStarts(m, url, hs);
    if ParseRequest(Printed(m, url, hs)).Valid? {
      FirstLineStarts(word, tail);
      var rest :| Tokens(word + SPACE + tail, CRLF)[0] == word + SPACE + rest;
      FirstWord(word, rest);
    }
  }

  function AfterMethod(url: string, hs: seq<Header>): string {
    url + (SPACE + "HTTP/1.1" + CRLF + HeaderTexts(hs) + CRLF)
  }

  lemma {:induction false} PrintedStarts(m: Method, url: string, hs: seq<Header>)
    ensures Printed(m, url, hs) == MethodName(m) + SPACE + AfterMethod(url, hs) && '\r' !in MethodName(m)
  {
    SevenParts(MethodName(m) + SPACE, url, SPACE, "HTTP/1.1", CRLF, HeaderTexts(hs), CRLF);
  }

  lemma SevenParts(a: string, b: string, c: string, d: string, e: string, f: string, g: string)
    ensures a + b + c + d + e + f + g == a + (b + (c + d + e + f + g))
  {
  }
}
