/**
 * What the answers of the server are, told by what a client reads from the bytes: the status line, the headers and the
 * body, for every text that is popped as a request.
 */
module Answers {
  import opened Prelude
  import opened Strings
  import opened Buffers
  import opened Requests
  import opened RequestLaws
  import opened Responses
  import opened Delivery
  import opened Server
  import opened ServerLaws

  // ---- content types ----

  lemma {:induction false} LastDotIs(pre: string, ext: string)
    requires '.' !in ext
    ensures LastDot(pre + "." + ext) == |pre|
  {
    var s := pre + "." + ext;
    if ext == "" {
      assert s[|s| - 1] == '.';
    } else {
      var n := |ext| - 1;
      assert s[|s| - 1] == ext[n] && ext[n] in ext;
      assert s[..|s| - 1] == pre + "." + ext[..n];
      LastDotIs(pre, ext[..n]);
    }
  }

  lemma {:induction false} NoDot(path: string)
    requires '.' !in path
    ensures LastDot(path) == -1
  {
    if path != "" {
      assert path[|path| - 1] in path;
      NoDot(path[..|path| - 1]);
    }
  }

  /** The content type of an extension, which counts up to case and outer spaces. */
  ghost function ContentType(ext: string): string {
    if Alike(ext, "html") then "text/html"
    else if Alike(ext, "css") then "text/css"
    else if Alike(ext, "png") then "image/png"
    else if Alike(ext, "jpg") then "image/jpg"
    else if Alike(ext, "jpeg") then "image/jpeg"
    else if Alike(ext, "gif") then "image/gif"
    else "application/octet-stream"
  }

  lemma {:induction false} ExtensionExactly(ext: string)
    ensures ExtensionToMime(ToExtension(ext)) == ContentType(ext)
  {
    FormatAlike(ext, "html", "HTML");
    FormatAlike(ext, "css", "CSS");
    FormatAlike(ext, "png", "PNG");
    FormatAlike(ext, "jpg", "JPG");
    FormatAlike(ext, "jpeg", "JPEG");
    FormatAlike(ext, "gif", "GIF");
  }

  /** A path has a content type exactly when it has a dot, and then it is that of the text after the last one. */
  lemma {:induction false} MimeExactly(path: string, pre: string, ext: string)
    ensures '.' !in path ==> MimeOf(path) == None
    ensures path == pre + "." + ext && '.' !in ext ==> MimeOf(path) == Some(ContentType(ext))
  {
    if '.' !in path {
      NoDot(path);
    }
    if path == pre + "." + ext && '.' !in ext {
      LastDotIs(pre, ext);
      assert path[|pre| + 1..] == ext;
      ExtensionExactly(ext);
    }
  }

  // ---- CGI programs ----

  /** A request is for CGI exactly when its path mentions the CGI folder; the program is the path up to the first & after that. */
  lemma {:induction false} CgiExactly(path: string)
    ensures IsCgiRequest(path) <==> !Free(path, "cgi-bin")
    ensures IsCgiRequest(path) ==>
              && CgiProgram(path).Some?
              && var program := CgiProgram(path).value;
              && |program| <= |path| && path[..|program|] == program
              && (program != path ==> path[|program|] == '&')
              && exists i :: OccursAt(path, "cgi-bin", i) && i <= |program| && '&' !in program[i..]
  {
    FreeIsNone(path, "cgi-bin");
    if IsCgiRequest(path) {
      var i := Find(path, "cgi-bin", 0).value;
      var k := match Find(path, "&", i) case None => |path| case Some(k) => k;
      assert path[..|path|] == path;
      if Find(path, "&", i).Some? {
        OccursChar(path, "&", k, 0);
      }
      forall j | i <= j < k ensures path[j] != '&' {
        assert !OccursAt(path, "&", j);
        assert path[j..j + 1] == [path[j]];
      }
    }
  }

  // ---- heads as the client reads them ----

  /** Everything a client can read from the head of a reply. */
  ghost predicate Reads(head: string, status: string, close: bool, length: nat, mime: Option<string>) {
    var lines := Tokens(head, "\r\n");
    && lines != [] && lines[0] == status
    && FindHeader(lines, "Server") == Some("Turtle/1.0")
    && FindHeader(lines, "Connection") == Some(if close then "Close" else "Keep-Alive")
    && FindHeader(lines, "Content-Length") == Some(Decimal(length))
    && FindHeader(lines, "Content-Type") == mime
  }

  lemma {:induction false} ReplyHeadersLookedUp(close: bool, length: string, mime: Option<string>)
    ensures var hs := ReplyHeaders(close, length, mime);
            && LookUp(hs, "Server") == Some("Turtle/1.0")
            && LookUp(hs, "Connection") == Some(if close then "Close" else "Keep-Alive")
            && LookUp(hs, "Content-Length") == Some(length)
            && LookUp(hs, "Content-Type") == mime
  {
    var server := Header(HEADER_SERVER, SERVER_TURTLE);
    var connection := Header(HEADER_CONNECTION, if close then CONNECTION_CLOSE else CONNECTION_KEEP_ALIVE);
    var size := Header(HEADER_CONTENT_LENGTH, length);
    var last := if mime.Some? then [Header(HEADER_CONTENT_TYPE, mime.value)] else [];
    assert ReplyHeaders(close, length, mime) == [server] + ([connection] + ([size] + last));
    LookUpSkip(server, [connection] + ([size] + last), "Connection");
    LookUpSkip(server, [connection] + ([size] + last), "Content-Length");
    LookUpSkip(server, [connection] + ([size] + last), "Content-Type");
    LookUpSkip(connection, [size] + last, "Content-Length");
    LookUpSkip(connection, [size] + last, "Content-Type");
    LookUpSkip(size, last, "Content-Type");
    assert mime.Some? ==> last[1..] == [];
  }

  lemma {:induction false} PlainHeadRead(h: Head)
    requires PlainHead(h)
    ensures Reads(Text(h), "HTTP/1.1 " + h.status, h.close, h.length, h.mime)
  {
    var hs, status := ReplyHeaders(h.close, Decimal(h.length), h.mime), StatusLine(h.status);
    ReplyHeadersSimple(h.close, h.length, h.mime);
    ReplyHeadersLookedUp(h.close, Decimal(h.length), h.mime);
    HeadRead(status, hs, "Server");
    HeadRead(status, hs, "Connection");
    HeadRead(status, hs, "Content-Length");
    HeadRead(status, hs, "Content-Type");
    assert "HTTP/1.1" + " " == "HTTP/1.1 ";
  }

  // ---- every answer ----

  /** The file that must be there: the program of a CGI request, and otherwise what the path names. */
  function Wanted(path: string): string {
    if IsCgiRequest(path) && CgiProgram(path).Some? then CgiProgram(path).value else path
  }

  ghost predicate Answered(r: Reply, status: string, close: bool, length: nat, mime: Option<string>, body: string) {
    Reads(Text(r.head), status, close, length, mime) && r.head.close == close && r.body == body
  }

  lemma {:induction false} RefusalRead(status: string, asked: Method)
    requires PlainStatus(status)
    ensures Answered(Refusal(status, asked), "HTTP/1.1 " + status, true, 0, None, "")
  {
    PlainHeadRead(Refusal(status, asked).head);
  }

  lemma {:induction false} StatusLines()
    ensures "HTTP/1.1 " + RESPONSE_OK == "HTTP/1.1 200 OK"
    ensures "HTTP/1.1 " + RESPONSE_BAD_REQUEST == "HTTP/1.1 400 Bad Request"
    ensures "HTTP/1.1 " + RESPONSE_NOT_FOUND == "HTTP/1.1 404 Not Found"
  {
  }

  lemma {:induction false} CgiAnswerExactly(w: World, path: string, verb: Method, close: bool)
    requires IsCgiRequest(path)
    ensures var r := RespondCgi(w, path, verb, close);
            if Wanted(path) !in w.files then Answered(r, "HTTP/1.1 404 Not Found", true, 0, None, "")
            else Answered(r, "HTTP/1.1 200 OK", close, |w.cgi(path)|, None, w.cgi(path))
  {
    CgiExactly(path);
    StatusesPlain();
    StatusLines();
    RefusalRead(RESPONSE_NOT_FOUND, verb);
    PlainHeadRead(Head(RESPONSE_OK, close, |w.cgi(path)|, None));
  }

  lemma {:induction false} FileAnswerExactly(w: World, path: string, verb: Method, close: bool)
    requires !IsCgiRequest(path)
    ensures var r := RespondFile(w, path, verb, close);
            if Wanted(path) !in w.files then Answered(r, "HTTP/1.1 404 Not Found", true, 0, None, "")
            else Answered(r, "HTTP/1.1 200 OK", close, |w.files[path]|, MimeOf(path), if verb.GET? then w.files[path] else "")
  {
    StatusesPlain();
    StatusLines();
    RefusalRead(RESPONSE_NOT_FOUND, verb);
    if path in w.files {
      PlainHeadRead(Head(RESPONSE_OK, close, |w.files[path]|, MimeOf(path)));
    }
  }

  /**
   * What cannot be read is refused with 400 and what is not there with 404, both without a body and as the last answer;
   * everything else is answered with 200, kept open exactly as asked, with the length and type of what the file holds or
   * the length of what the program prints, and with that as its body, except that HEAD gets no file.
   */
  ghost predicate AnswersTo(w: World, p: Parsed, r: Reply) {
    match p
    case Invalid => Answered(r, "HTTP/1.1 400 Bad Request", true, 0, None, "")
    case Valid(verb, url, headers, close) =>
      var path := w.dir + url;
      && r.asked == verb
      && if Wanted(path) !in w.files then Answered(r, "HTTP/1.1 404 Not Found", true, 0, None, "")
         else if IsCgiRequest(path) then Answered(r, "HTTP/1.1 200 OK", close, |w.cgi(path)|, None, w.cgi(path))
         else Answered(r, "HTTP/1.1 200 OK", close, |w.files[path]|, MimeOf(path), if verb.GET? then w.files[path] else "")
  }

  lemma {:induction false} RespondExactly(w: World, p: Parsed)
    ensures AnswersTo(w, p, RespondTo(w, p))
  {
    match p
    case Invalid =>
      StatusesPlain();
      StatusLines();
      RefusalRead(RESPONSE_BAD_REQUEST, GET);
    case Valid(verb, url, headers, close) =>
      var path := w.dir + url;
      if IsCgiRequest(path) {
        CgiAnswerExactly(w, path, verb, close);
      } else {
        FileAnswerExactly(w, path, verb, close);
      }
  }

  /** Every text is answered so. */
  lemma {:induction false} AnswerExactly(w: World, text: string, p: Parsed)
    requires ParseRequest(text) == p
    ensures AnswersTo(w, p, Respond(w, text))
  {
    RespondExactly(w, p);
  }

  function FirstLine(head: string): string {
    var lines := Tokens(head, "\r\n");
    if lines == [] then "" else lines[0]
  }

  lemma {:induction false} FirstLineRead(w: World, p: Parsed, r: Reply)
    requires AnswersTo(w, p, r)
    ensures FirstLine(Text(r.head)) ==
            if p.Invalid? then "HTTP/1.1 400 Bad Request"
            else if Wanted(w.dir + p.url) !in w.files then "HTTP/1.1 404 Not Found"
            else "HTTP/1.1 200 OK"
  {
  }

  lemma {:induction false} StatusLinesDiffer()
    ensures "HTTP/1.1 400 Bad Request" != "HTTP/1.1 404 Not Found"
    ensures "HTTP/1.1 400 Bad Request" != "HTTP/1.1 200 OK" && "HTTP/1.1 404 Not Found" != "HTTP/1.1 200 OK"
  {
    assert |"HTTP/1.1 400 Bad Request"| == 24 && |"HTTP/1.1 404 Not Found"| == 22 && |"HTTP/1.1 200 OK"| == 15;
  }

  /** For every text, the first line of the reply tells which of the three it was. */
  lemma {:induction false} StatusExactly(w: World, text: string)
    ensures var line, p := FirstLine(Text(Respond(w, text).head)), ParseRequest(text);
            && (line == "HTTP/1.1 400 Bad Request" <==> p.Invalid?)
            && (line == "HTTP/1.1 404 Not Found" <==> p.Valid? && Wanted(w.dir + p.url) !in w.files)
            && (line == "HTTP/1.1 200 OK" <==> p.Valid? && Wanted(w.dir + p.url) in w.files)
  {
    AnswerExactly(w, text, ParseRequest(text));
    FirstLineRead(w, ParseRequest(text), Respond(w, text));
    StatusLinesDiffer();
  }

  /** What a printed request is read as. */
  ghost function AsSent(m: Method, url: string, hs: seq<Header>): Parsed {
    Valid(m, Routed(url), hs, forall h :: h in hs ==> !KeepAlive(h))
  }

  lemma {:induction false} PrintedRequestRead(m: Method, url: string, hs: seq<Header>)
    requires !m.UNSUPPORTED_METHOD? && Printable(url, hs)
    ensures ParseRequest(Printed(m, url, hs)) == AsSent(m, url, hs)
  {
    PrintableRoundTrip(m, url, hs);
    ClosesUnlessAsked(hs);
  }

  /** A printed request is read back, kept open exactly when a header asks for it, and answered so. */
  lemma {:induction false} PrintedRequestAnswered(w: World, m: Method, url: string, hs: seq<Header>)
    requires !m.UNSUPPORTED_METHOD? && Printable(url, hs)
    ensures AnswersTo(w, AsSent(m, url, hs), Respond(w, Printed(m, url, hs)))
  {
    PrintedRequestRead(m, url, hs);
    AnswerExactly(w, Printed(m, url, hs), AsSent(m, url, hs));
  }
}
