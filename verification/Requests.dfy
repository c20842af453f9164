/**
 * Header lines (src/http/header.cpp) and requests (src/http/request.cpp): the parsers as the source runs
 * them, proved against functions, and the exact conditions under which parsing undoes printing.
 */
module Requests {
  import opened Prelude
  import opened Strings
  import opened Buffers

  const SPACE := " "
  const COLON := ":"
  const DEFAULT_ROUTE := "index.html"
  const HEADER_CONNECTION := "Connection"
  const CONNECTION_KEEP_ALIVE := "Keep-Alive"

  datatype Method = GET | HEAD | UNSUPPORTED_METHOD
  datatype Version = HTTP_1_1 | UNSUPPORTED_VERSION
  datatype Header = Header(key: string, value: string)

  // ---- headers ----

  function HeaderLine(h: Header): string {
    h.key + COLON + h.value
  }

  /** Header::Serialize */
  function HeaderText(h: Header): string {
    HeaderLine(h) + CRLF
  }

  function ParseHeader(line: string): Option<Header> {
    var ts := Tokens(line, COLON);
    if |ts| < 2 then None else Some(Header(ts[0], Joined(ts[1..], COLON)))
  }

  /** The line constructor: split at the colons, take the key, join the rest again. */
  method ScanHeaderLine(line: string) returns (h: Option<Header>)
    ensures h == ParseHeader(line)
  {
    var tokens := Split(line, COLON);
    if |tokens| < 2 {
      return None;
    }
    var key := tokens[0];
    tokens := tokens[1..];
    var value;
    if |tokens| == 1 {
      JoinedOne(tokens[0], COLON);
      assert tokens == [tokens[0]];
      value := tokens[0];
    } else {
      value := Join(tokens, COLON);
    }
    h := Some(Header(key, value));
  }

  lemma SingleIsBorderFree(d: string)
    requires |d| == 1
    ensures BorderFree(d)
  {
  }

  /** Without its last colon, if that is how it ends. */
  function DropFinalColon(s: string): string {
    if EndsWith(s, COLON) then s[..|s| - 1] else s
  }

  /**
   * What the token shuffling amounts to: the line is cut at its first colon, and one colon at the very
   * end of the value is lost. A line with no colon, or with its first colon last, is refused.
   */
  lemma HeaderMeaning(line: string)
    ensures ParseHeader(line) ==
            match Find(line, COLON, 0)
            case None => None
            case Some(i) =>
              if i + 1 == |line| then None
              else Some(Header(line[..i], DropFinalColon(line[i + 1..])))
  {
    match Find(line, COLON, 0)
    case None => TokensLast(line, COLON);
    case Some(i) =>
      var rest := line[i + 1..];
      TokensCut(line, COLON, i, line[..i], rest);
      TokensShape(rest, COLON);
      assert Tokens(line, COLON)[1..] == Tokens(rest, COLON);
      if rest != "" {
        SingleIsBorderFree(COLON);
        JoinOfSplit(rest, COLON);
        JoinOfSplitDropsFinalDelimiter(rest, COLON);
        if EndsWith(rest, COLON) {
          assert (Joined(Tokens(rest, COLON), COLON) + COLON)[..|rest| - 1] == rest[..|rest| - 1];
        }
      }
  }

  ghost predicate PlainHeader(h: Header) {
    Free(h.key, COLON) && h.value != "" && !EndsWith(h.value, COLON)
  }

  lemma {:induction false} ColonAfterKey(h: Header)
    requires Free(h.key, COLON)
    ensures var line := HeaderLine(h);
            Find(line, COLON, 0) == Some(|h.key|) && line[..|h.key|] == h.key && line[|h.key| + 1..] == h.value
  {
    SingleIsBorderFree(COLON);
    FindAfterToken(h.key, COLON, h.value);
  }

  lemma {:induction false} ColonInKey(h: Header)
    requires !Free(h.key, COLON)
    ensures Find(HeaderLine(h), COLON, 0).Some? && Find(HeaderLine(h), COLON, 0).value < |h.key|
  {
    var j :| OccursAt(h.key, COLON, j);
    Regroup(h.key, COLON, h.value);
    OccursInPrefix(h.key, COLON + h.value, COLON, j);
  }

  /** A printed header is read back exactly when its key has no colon and its value is non-empty and ends in none. */
  lemma {:induction false} HeaderRoundTripExactly(h: Header)
    ensures ParseHeader(HeaderLine(h)) == Some(h) <==> PlainHeader(h)
  {
    HeaderMeaning(HeaderLine(h));
    if Free(h.key, COLON) {
      ColonAfterKey(h);
    } else {
      ColonInKey(h);
    }
  }

  /** Whatever header is read from a line, printing it gives back a prefix of that line. */
  lemma ParsedHeaderIsPart(line: string, h: Header)
    requires ParseHeader(line) == Some(h)
    ensures |HeaderLine(h)| <= |line| && HeaderLine(h) == line[..|HeaderLine(h)|]
  {
    HeaderMeaning(line);
    var i := Find(line, COLON, 0).value;
    var rest := line[i + 1..];
    assert line[i..i + 1] == COLON;
    assert line == line[..i] + COLON + rest;
    assert DropFinalColon(rest) == rest[..|DropFinalColon(rest)|];
  }

  // ---- lists of headers ----

  function HeaderTexts(hs: seq<Header>): string {
    if hs == [] then "" else HeaderText(hs[0]) + HeaderTexts(hs[1..])
  }

  function HeaderLines(hs: seq<Header>): seq<string> {
    if hs == [] then [] else [HeaderLine(hs[0])] + HeaderLines(hs[1..])
  }

  lemma {:induction false} HeaderTextsTerminated(hs: seq<Header>)
    ensures HeaderTexts(hs) == Terminated(HeaderLines(hs), CRLF)
    ensures |HeaderLines(hs)| == |hs|
    ensures forall i :: 0 <= i < |hs| ==> HeaderLines(hs)[i] == HeaderLine(hs[i])
  {
    if hs != [] {
      HeaderTextsTerminated(hs[1..]);
      assert HeaderLines(hs)[1..] == HeaderLines(hs[1..]);
    }
  }

  // ---- the request line ----

  function ToMethod(s: string): Method {
    if Format(s) == "GET" then GET else if Format(s) == "HEAD" then HEAD else UNSUPPORTED_METHOD
  }

  function ToVersion(s: string): Version {
    if Format(s) == "HTTP/1.1" then HTTP_1_1 else UNSUPPORTED_VERSION
  }

  /** An empty resource, or one that names a directory, is routed to the index page. */
  function Routed(url: string): string {
    if url == "" || url[|url| - 1] == '/' then url + DEFAULT_ROUTE else url
  }

  datatype RequestLine = RequestLine(verb: Method, url: string)

  function ReadRequestLine(line: string): Option<RequestLine> {
    var ts := Tokens(line, SPACE);
    if |ts| != 3 || ToMethod(ts[0]).UNSUPPORTED_METHOD? || ToVersion(ts[2]).UNSUPPORTED_VERSION? then None
    else Some(RequestLine(ToMethod(ts[0]), Routed(ts[1])))
  }

  /** Methods and versions are recognised up to case and outer spaces. */
  lemma {:induction false} MethodExactly(s: string)
    ensures ToMethod(s).GET? <==> Alike(s, "GET")
    ensures ToMethod(s).HEAD? <==> Alike(s, "HEAD")
  {
    FormatAlike(s, "GET", "GET");
    FormatAlike(s, "HEAD", "HEAD");
  }

  lemma {:induction false} VersionExactly(s: string)
    ensures ToVersion(s).HTTP_1_1? <==> Alike(s, "HTTP/1.1")
  {
    FormatAlike(s, "HTTP/1.1", "HTTP/1.1");
  }

  /** The index page stands in for the empty URL and for every folder, and for nothing else. */
  lemma {:induction false} RoutedExactly(url: string)
    ensures Routed("") == "index.html" && Routed(url + "/") == url + "/index.html"
    ensures url != "" && url[|url| - 1] != '/' ==> Routed(url) == url
  {
    assert (url + "/")[|url + "/"| - 1] == '/';
    Regroup(url, "/", "index.html");
    assert "/" + "index.html" == "/index.html";
  }

  /** A request line is read exactly when it is three words, a known method first and the version last. */
  lemma {:induction false} RequestLineExactly(line: string)
    ensures var ts := Tokens(line, " ");
            && (ReadRequestLine(line).Some? <==>
                |ts| == 3 && (Alike(ts[0], "GET") || Alike(ts[0], "HEAD")) && Alike(ts[2], "HTTP/1.1"))
            && (ReadRequestLine(line).Some? ==>
                && (ReadRequestLine(line).value.verb == if Alike(ts[0], "GET") then GET else HEAD)
                && ReadRequestLine(line).value.url == Routed(ts[1]))
  {
    var ts := Tokens(line, " ");
    if |ts| == 3 {
      MethodExactly(ts[0]);
      VersionExactly(ts[2]);
    }
  }

  // ---- the whole request ----

  predicate AsksKeepAlive(h: Header) {
    Format(h.key) == "CONNECTION" && Format(h.value) == "KEEP-ALIVE"
  }

  /** Connection: Keep-Alive, up to case and outer spaces. */
  ghost predicate KeepAlive(h: Header) {
    Alike(h.key, "Connection") && Alike(h.value, "Keep-Alive")
  }

  lemma {:induction false} KeepAliveExactly(h: Header)
    ensures AsksKeepAlive(h) <==> KeepAlive(h)
  {
    FormatAlike(h.key, "Connection", "CONNECTION");
    FormatAlike(h.value, "Keep-Alive", "KEEP-ALIVE");
  }

  lemma FormattedNames()
    ensures Format(HEADER_CONNECTION) == "CONNECTION" && Format(CONNECTION_KEEP_ALIVE) == "KEEP-ALIVE"
  {
    FormatIs(HEADER_CONNECTION, "CONNECTION");
    FormattedKeepAlive();
  }

  lemma FormattedKeepAlive()
    ensures Format(CONNECTION_KEEP_ALIVE) == "KEEP-ALIVE"
  {
    FormatIs(CONNECTION_KEEP_ALIVE, "KEEP-ALIVE");
  }

  function ReadHeaders(lines: seq<string>): (r: Option<seq<Header>>)
    ensures r.Some? ==> |r.value| == |lines| && forall i :: 0 <= i < |lines| ==> ParseHeader(lines[i]) == Some(r.value[i])
    ensures r.None? <==> exists i :: 0 <= i < |lines| && ParseHeader(lines[i]).None?
  {
    if lines == [] then Some([])
    else
      match ParseHeader(lines[0])
      case None => None
      case Some(h) =>
        match ReadHeaders(lines[1..])
        case None =>
          assert exists i :: 0 <= i < |lines| && ParseHeader(lines[i]).None? by {
            var i :| 0 <= i < |lines[1..]| && ParseHeader(lines[1..][i]).None?;
            assert ParseHeader(lines[i + 1]).None?;
          }
          None
        case Some(hs) => Some([h] + hs)
  }

  lemma ReadHeadersIs(lines: seq<string>, hs: seq<Header>)
    requires |lines| == |hs|
    ensures ReadHeaders(lines) == Some(hs) <==> forall i :: 0 <= i < |hs| ==> ParseHeader(lines[i]) == Some(hs[i])
  {
    if ReadHeaders(lines).Some? && forall i :: 0 <= i < |hs| ==> ParseHeader(lines[i]) == Some(hs[i]) {
      assert ReadHeaders(lines).value == hs;
    }
  }

  /** Printed headers are all read back exactly when they are all plain. */
  lemma ReadPrintedHeaders(hs: seq<Header>)
    ensures ReadHeaders(HeaderLines(hs)) == Some(hs) <==> forall i :: 0 <= i < |hs| ==> PlainHeader(hs[i])
  {
    HeaderTextsTerminated(hs);
    ReadHeadersIs(HeaderLines(hs), hs);
    forall i | 0 <= i < |hs| ensures ParseHeader(HeaderLines(hs)[i]) == Some(hs[i]) <==> PlainHeader(hs[i]) {
      HeaderRoundTripExactly(hs[i]);
    }
  }

  datatype Parsed = Invalid | Valid(verb: Method, url: string, headers: seq<Header>, shouldClose: bool)

  /** Close by default; stay open exactly when some header asks for it. */
  predicate Closes(hs: seq<Header>) {
    hs == [] || (Closes(hs[..|hs| - 1]) && !AsksKeepAlive(hs[|hs| - 1]))
  }

  lemma {:induction false} ClosesUnlessAsked(hs: seq<Header>)
    ensures Closes(hs) <==> forall h :: h in hs ==> !KeepAlive(h)
  {
    if hs != [] {
      KeepAliveExactly(hs[|hs| - 1]);
      ClosesUnlessAsked(hs[..|hs| - 1]);
      assert hs == hs[..|hs| - 1] + [hs[|hs| - 1]];
    }
  }

  function ParseLines(lines: seq<string>): Parsed {
    if |lines| < 2 || lines[|lines| - 1] != "" then Invalid
    else
      match ReadRequestLine(lines[0])
      case None => Invalid
      case Some(rl) =>
        match ReadHeaders(lines[1..|lines| - 1])
        case None => Invalid
        case Some(hs) => Valid(rl.verb, rl.url, hs, Closes(hs))
  }

  function ParseRequest(s: string): Parsed {
    ParseLines(Tokens(s, CRLF))
  }

  /** A colon that is not the end of the line. */
  predicate InnerColon(line: string) {
    exists i :: 0 <= i < |line| - 1 && line[i] == ':'
  }

  lemma {:induction false} HeaderLineExactly(line: string)
    ensures ParseHeader(line).Some? <==> InnerColon(line)
  {
    HeaderMeaning(line);
    OneCharFree(line, COLON);
    match Find(line, COLON, 0)
    case None =>
    case Some(i) =>
      OccursChar(line, COLON, i, 0);
      forall j | 0 <= j < i ensures line[j] != ':' {
        assert !OccursAt(line, COLON, j);
        assert line[j..j + 1] == [line[j]];
      }
  }

  lemma {:induction false} HeadersReadExactly(lines: seq<string>)
    ensures ReadHeaders(lines).Some? <==> forall l :: l in lines ==> InnerColon(l)
  {
    forall i | 0 <= i < |lines| ensures ParseHeader(lines[i]).Some? <==> InnerColon(lines[i]) {
      HeaderLineExactly(lines[i]);
    }
    if ReadHeaders(lines).None? {
      var i :| 0 <= i < |lines| && ParseHeader(lines[i]).None?;
      assert lines[i] in lines && !InnerColon(lines[i]);
    }
  }

  /**
   * A text is read as a request exactly when it has at least two lines, the last of them empty, the first is a request
   * line that can be read, and every other one has a colon that is not its end.
   */
  lemma {:induction false} RequestReadExactly(s: string)
    ensures var lines := Tokens(s, "\r\n");
            ParseRequest(s).Valid? <==>
              && 2 <= |lines| && lines[|lines| - 1] == "" && ReadRequestLine(lines[0]).Some?
              && forall l :: l in lines[1..|lines| - 1] ==> InnerColon(l)
  {
    var lines := Tokens(s, "\r\n");
    if 2 <= |lines| {
      HeadersReadExactly(lines[1..|lines| - 1]);
    }
  }

  class Request {
    var verb: Method
    var version: Version
    var resourceUrl: string
    var headers: seq<Header>
    var shouldClose: bool
    var isValid: bool

    ghost function Value(): Parsed
      reads this
    {
      if isValid then Valid(verb, resourceUrl, headers, shouldClose) else Invalid
    }

    constructor (requestStr: string)
      ensures Value() == ParseRequest(requestStr)
    {
      verb, version, resourceUrl := UNSUPPORTED_METHOD, UNSUPPORTED_VERSION, "";
      headers, shouldClose, isValid := [], true, false;
      new;
      var lines := Split(requestStr, CRLF);
      if |lines| < 2 || lines[|lines| - 1] != "" {
        return;
      }
      ghost var all := lines;
      lines := lines[..|lines| - 1];
      var success := ParseRequestLine(lines[0]);
      if !success {
        return;
      }
      lines := lines[1..];
      assert lines == all[1..|all| - 1];
      isValid := ParseHeaderLines(lines);
    }

    /** The header loop of the constructor. */
    method ParseHeaderLines(lines: seq<string>) returns (ok: bool)
      requires headers == [] && shouldClose
      modifies this`headers, this`shouldClose
      ensures ok == ReadHeaders(lines).Some?
      ensures ok ==> ReadHeaders(lines) == Some(headers) && shouldClose == Closes(headers)
    {
      for i := 0 to |lines|
        invariant |headers| == i && shouldClose == Closes(headers)
        invariant forall k :: 0 <= k < i ==> ParseHeader(lines[k]) == Some(headers[k])
      {
        var header := ScanHeaderLine(lines[i]);
        if header.None? {
          return false;
        }
        KeepAliveExactly(header.value);
        ScanHeader(header.value);
        headers := headers + [header.value];
      }
      assert ReadHeaders(lines).value == headers;
      return true;
    }

    method ParseRequestLine(requestLine: string) returns (ok: bool)
      modifies this`verb, this`version, this`resourceUrl
      ensures ok == ReadRequestLine(requestLine).Some?
      ensures ok ==> ReadRequestLine(requestLine) == Some(RequestLine(verb, resourceUrl))
    {
      var tokens := Split(requestLine, SPACE);
      if |tokens| != 3 {
        return false;
      }
      verb := ToMethod(tokens[0]);
      if verb.UNSUPPORTED_METHOD? {
        return false;
      }
      version := ToVersion(tokens[2]);
      if version.UNSUPPORTED_VERSION? {
        return false;
      }
      resourceUrl := if tokens[1] == "" || tokens[1][|tokens[1]| - 1] == '/' then tokens[1] + DEFAULT_ROUTE else tokens[1];
      return true;
    }

    method ScanHeader(header: Header)
      modifies this`shouldClose
      ensures shouldClose == (old(shouldClose) && !KeepAlive(header))
    {
      FormattedNames();
      KeepAliveExactly(header);
      var key := Format(header.key);
      if key == Format(HEADER_CONNECTION) {
        var value := Format(header.value);
        if value == Format(CONNECTION_KEEP_ALIVE) {
          shouldClose := false;
        }
      }
    }
  }
}
