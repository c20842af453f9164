/**
 * Responses (src/http/response.cpp): building, changing and printing them, and the client side of the
 * contract: the printed head frames itself and states the body length (section 6.3 of RFC 9112).
 */
module Responses {
  import opened Prelude
  import opened Strings
  import opened Buffers
  import opened Requests

  const HTTP_VERSION_TURTLE := "HTTP/1.1"
  const HEADER_SERVER := "Server"
  const SERVER_TURTLE := "Turtle/1.0"
  const HEADER_CONTENT_LENGTH := "Content-Length"
  const HEADER_CONTENT_TYPE := "Content-Type"
  const CONTENT_LENGTH_ZERO := "0"
  const CONNECTION_CLOSE := "Close"
  const RESPONSE_OK := "200 OK"
  const RESPONSE_BAD_REQUEST := "400 Bad Request"
  const RESPONSE_NOT_FOUND := "404 Not Found"

  // ---- decimal numbers ----

  predicate IsDigit(c: char) { '0' <= c <= '9' }

  /** std::to_string of a size */
  function Decimal(n: nat): (s: string)
    ensures s != "" && forall i :: 0 <= i < |s| ==> IsDigit(s[i])
  {
    var last := [('0' as int + n % 10) as char];
    if n < 10 then last else Decimal(n / 10) + last
  }

  /** The number a client reads from a run of digits. */
  function Number(s: string): Option<nat> {
    if s == "" then None
    else
      var c := s[|s| - 1];
      if !IsDigit(c) then None
      else
        var digit := c as int - '0' as int;
        if |s| == 1 then Some(digit)
        else match Number(s[..|s| - 1]) case None => None case Some(n) => Some(10 * n + digit)
  }

  lemma {:induction false} NumberOfDecimal(n: nat)
    ensures Number(Decimal(n)) == Some(n)
  {
    if 10 <= n {
      NumberOfDecimal(n / 10);
      var s := Decimal(n);
      assert s[..|s| - 1] == Decimal(n / 10);
    }
  }

  // ---- heads ----

  function LastDot(s: string): int {
    if s == "" then -1 else if s[|s| - 1] == '.' then |s| - 1 else LastDot(s[..|s| - 1])
  }

  lemma LastDotInRange(s: string)
    ensures -1 <= LastDot(s) < |s|
  {
  }

  datatype Extension = HTML | CSS | PNG | JPG | JPEG | GIF | OCTET

  function ToExtension(s: string): Extension {
    var e := Format(s);
    if e == "HTML" then HTML
    else if e == "CSS" then CSS
    else if e == "PNG" then PNG
    else if e == "JPG" then JPG
    else if e == "JPEG" then JPEG
    else if e == "GIF" then GIF
    else OCTET
  }

  function ExtensionToMime(e: Extension): string {
    match e
    case HTML => "text/html"
    case CSS => "text/css"
    case PNG => "image/png"
    case JPG => "image/jpg"
    case JPEG => "image/jpeg"
    case GIF => "image/gif"
    case OCTET => "application/octet-stream"
  }

  /** The content type of a path with an extension. */
  function MimeOf(path: string): (mime: Option<string>)
    ensures mime.Some? ==> exists e :: mime.value == ExtensionToMime(e)
  {
    var dot := LastDot(path);
    LastDotInRange(path);
    if dot == -1 then None else Some(ExtensionToMime(ToExtension(path[dot + 1..])))
  }

  function ReplyHeaders(close: bool, length: string, mime: Option<string>): seq<Header> {
    [Header(HEADER_SERVER, SERVER_TURTLE),
     Header(HEADER_CONNECTION, if close then CONNECTION_CLOSE else CONNECTION_KEEP_ALIVE),
     Header(HEADER_CONTENT_LENGTH, length)]
    + if mime.Some? then [Header(HEADER_CONTENT_TYPE, mime.value)] else []
  }

  function StatusLine(status: string): string {
    HTTP_VERSION_TURTLE + SPACE + status
  }

  function HeadText(statusLine: string, hs: seq<Header>): string {
    statusLine + CRLF + HeaderTexts(hs) + CRLF
  }

  /** The first header with this key gets the new value. */
  function Changed(hs: seq<Header>, key: string, value: string): seq<Header> {
    if hs == [] then []
    else if hs[0].key == key then [Header(key, value)] + hs[1..]
    else [hs[0]] + Changed(hs[1..], key, value)
  }

  /** The first header with this key is the one at `i`. */
  predicate FirstWith(hs: seq<Header>, key: string, i: nat)
    requires i < |hs|
  {
    hs[i].key == key && forall j :: 0 <= j < i ==> hs[j].key != key
  }

  /** One turn of the search: the header at `i` is the one to change, or is passed over. */
  lemma {:induction false} ChangedNext(hs: seq<Header>, i: nat, key: string, value: string)
    requires i < |hs|
    ensures hs[..i] + Changed(hs[i..], key, value)
            == if hs[i].key == key then hs[i := Header(key, value)] else hs[..i + 1] + Changed(hs[i + 1..], key, value)
  {
    assert hs[i..][1..] == hs[i + 1..];
    if hs[i].key == key {
      assert hs[i := Header(key, value)] == hs[..i] + ([Header(key, value)] + hs[i + 1..]);
    } else {
      Regroup(hs[..i], [hs[i]], Changed(hs[i + 1..], key, value));
      assert hs[..i + 1] == hs[..i] + [hs[i]];
    }
  }

  class Response {
    var statusLine: string
    var headers: seq<Header>

    constructor (status: string, shouldClose: bool, resourceUrl: Option<string>, files: map<string, string>)
      ensures statusLine == StatusLine(status)
      ensures headers ==
              if resourceUrl.Some? && resourceUrl.value in files
              then ReplyHeaders(shouldClose, Decimal(|files[resourceUrl.value]|), MimeOf(resourceUrl.value))
              else ReplyHeaders(shouldClose, CONTENT_LENGTH_ZERO, None)
    {
      statusLine := HTTP_VERSION_TURTLE + SPACE + status;
      var hs := [Header(HEADER_SERVER, SERVER_TURTLE)];
      hs := hs + [Header(HEADER_CONNECTION, if shouldClose then CONNECTION_CLOSE else CONNECTION_KEEP_ALIVE)];
      if resourceUrl.Some? && resourceUrl.value in files {
        var contentLength := |files[resourceUrl.value]|;
        hs := hs + [Header(HEADER_CONTENT_LENGTH, Decimal(contentLength))];
        var mime := MimeOf(resourceUrl.value);
        if mime.Some? {
          hs := hs + [Header(HEADER_CONTENT_TYPE, mime.value)];
        }
      } else {
        hs := hs + [Header(HEADER_CONTENT_LENGTH, CONTENT_LENGTH_ZERO)];
      }
      headers := hs;
    }

    /** Appends everything before the body to the buffer. */
    method Serialize(buffer: string) returns (r: string)
      ensures r == buffer + HeadText(statusLine, headers)
    {
      var head := statusLine + CRLF;
      for i := 0 to |headers|
        invariant head == statusLine + CRLF + HeaderTexts(headers[..i])
      {
        HeaderTextsAppend(headers[..i], headers[i]);
        assert headers[..i + 1] == headers[..i] + [headers[i]];
        head := head + HeaderText(headers[i]);
      }
      assert headers[..|headers|] == headers;
      head := head + CRLF;
      r := buffer + head;
    }

    method ChangeHeader(key: string, newValue: string) returns (found: bool)
      modifies this`headers
      ensures found <==> exists h :: h in old(headers) && h.key == key
      ensures headers == Changed(old(headers), key, newValue) && (!found ==> headers == old(headers))
      ensures found ==> exists i :: 0 <= i < |old(headers)| && FirstWith(old(headers), key, i)
                                    && headers == old(headers)[i := Header(key, newValue)]
    {
      for i := 0 to |headers|
        invariant headers == old(headers)
        invariant forall k :: 0 <= k < i ==> headers[k].key != key
        invariant Changed(headers, key, newValue) == headers[..i] + Changed(headers[i..], key, newValue)
      {
        ChangedNext(headers, i, key, newValue);
        if headers[i].key == key {
          assert FirstWith(old(headers), key, i);
          headers := headers[i := Header(key, newValue)];
          return true;
        }
      }
      return false;
    }
  }

  lemma {:induction false} HeaderTextsAppend(hs: seq<Header>, h: Header)
    ensures HeaderTexts(hs + [h]) == HeaderTexts(hs) + HeaderText(h)
  {
    if hs == [] {
      assert hs + [h] == [h];
      assert HeaderTexts([h][1..]) == "";
    } else {
      HeaderTextsAppend(hs[1..], h);
      assert (hs + [h])[1..] == hs[1..] + [h];
      Regroup(HeaderText(hs[0]), HeaderTexts(hs[1..]), HeaderText(h));
    }
  }
}
