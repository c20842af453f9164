/**
 * The byte buffer of src/core/buffer.cpp, and the framing it gives: a message is what is popped
 * up to and including the first blank line.
 */
module Buffers {
  import opened Prelude
  import opened Strings

  const CRLF := "\r\n"
  const BLANK_LINE := "\r\n\r\n"

  datatype Pop = Pop(found: Option<string>, rest: string)

  /** The bytes up to and including the first `target`, and the bytes that stay behind. */
  function PopTill(buf: string, target: string): (p: Pop)
    ensures p.found.None? ==> p.rest == buf && Free(buf, target)
    ensures p.found.Some? ==> p.found.value + p.rest == buf && Framed(p.found.value, target)
  {
    match Find(buf, target, 0)
    case None => FreeIsNone(buf, target); Pop(None, buf)
    case Some(i) => PopFramed(buf, target, i); Pop(Some(buf[..i + |target|]), buf[i + |target|..])
  }

  /** `s` ends with `target`, which occurs nowhere before. */
  ghost predicate Framed(s: string, target: string) {
    |target| <= |s| && Find(s, target, 0) == Some(|s| - |target|)
  }

  class Buffer {
    var buf: string

    constructor ()
      ensures buf == ""
    {
      buf := "";
    }

    method Append(data: string)
      modifies this
      ensures buf == old(buf) + data
    {
      buf := buf + data;
    }

    method FindAndPopTill(target: string) returns (res: Option<string>)
      modifies this
      ensures Pop(res, buf) == PopTill(old(buf), target)
    {
      res := None;
      var pos := Find(buf, target, 0);
      if pos.Some? {
        res := Some(buf[..pos.value + |target|]);
        buf := buf[pos.value + |target|..];
      }
    }

    method Clear()
      modifies this
      ensures buf == ""
    {
      buf := "";
    }
  }

  lemma FreeIsNone(s: string, t: string)
    ensures Find(s, t, 0).None? <==> Free(s, t)
  {
  }

  lemma {:induction false} PopFramed(buf: string, t: string, i: nat)
    requires Find(buf, t, 0) == Some(i)
    ensures buf[..i + |t|] + buf[i + |t|..] == buf && Framed(buf[..i + |t|], t)
  {
    assert buf[..i + |t|] + buf[i + |t|..] == buf;
    PrefixFramed(buf[..i + |t|], buf[i + |t|..], t);
  }

  lemma {:induction false} PrefixFramed(s: string, rest: string, t: string)
    requires |t| <= |s| && Find(s + rest, t, 0) == Some(|s| - |t|)
    ensures Framed(s, t)
  {
    var i := |s| - |t|;
    OccursInPrefix(s, rest, t, i);
    forall j | 0 <= j < i ensures !OccursAt(s, t, j) {
      OccursInPrefix(s, rest, t, j);
    }
    FindIs(s, t, 0, i);
  }

  /** A framed message is popped whole, whatever bytes follow it. */
  lemma PopOfFramed(s: string, rest: string, target: string)
    requires Framed(s, target)
    ensures PopTill(s + rest, target) == Pop(Some(s), rest)
  {
    FindPrefix(s, rest, target);
    assert (s + rest)[..|s|] == s && (s + rest)[|s|..] == rest;
  }

  lemma CrlfBorderFree()
    ensures CRLF != "" && BorderFree(CRLF)
    ensures BLANK_LINE == CRLF + CRLF
  {
    assert CRLF[..1] != CRLF[1..] by {
      assert CRLF[..1][0] == '\r' && CRLF[1..][0] == '\n';
    }
  }

  lemma NoCrlf(s: string)
    requires '\n' !in s
    ensures Free(s, CRLF)
  {
    forall i ensures !OccursAt(s, CRLF, i) {
      if OccursAt(s, CRLF, i) {
        OccursChar(s, CRLF, i, 1);
      }
    }
  }

  // ---- blank lines and empty tokens ----

  lemma SingleDelimiter(d: string)
    requires d != ""
    ensures Tokens(d, d) == [""]
  {
    assert d[0..|d|] == d;
    FindIs(d, d, 0, 0);
    TokensCut(d, d, 0, "", "");
  }

  ghost predicate DoubleEnd(s: string, d: string) {
    OccursAt(s, d, |s| - |d|) && OccursAt(s, d, |s| - |d| - |d|)
  }

  /** After the first delimiter of a text with a doubled one at its end, one delimiter is left or such a text. */
  lemma {:induction false} DoubleEndRest(s: string, d: string, i: nat, rest: string)
    requires d != "" && BorderFree(d) && DoubleEnd(s, d)
    requires i <= |s| - |d| - |d| && OccursAt(s, d, i) && rest == s[i + |d|..]
    ensures rest == d || DoubleEnd(rest, d)
  {
    var pre := s[..i + |d|];
    assert s == pre + rest;
    var last := |s| - |d|;
    if i == last - |d| {
      assert rest == s[last..last + |d|];
    } else {
      if last - |d| < i + |d| {
        OverlapIsBorder(s, d, i, last - |d|);
        assert false;
      }
      OccursInSuffix(pre, rest, d, |rest| - |d|);
      OccursInSuffix(pre, rest, d, |rest| - |d| - |d|);
    }
  }

  /** A doubled delimiter at the end shows as a final empty token. */
  lemma {:induction false} DoubleEndTokens(s: string, d: string)
    requires d != "" && BorderFree(d) && DoubleEnd(s, d)
    ensures 2 <= |Tokens(s, d)| && Tokens(s, d)[|Tokens(s, d)| - 1] == ""
    decreases |s|
  {
    var i := Find(s, d, 0).value;
    var rest := s[i + |d|..];
    TokensCut(s, d, i, s[..i], rest);
    DoubleEndRest(s, d, i, rest);
    SingleDelimiter(d);
    if rest != d {
      DoubleEndTokens(rest, d);
    }
  }

  /** An empty token after the first shows a doubled delimiter in the text. */
  lemma EmptyTokenIsDoubleDelimiter(ts: seq<string>, k: nat, d: string)
    requires 0 < k < |ts| && ts[k] == "" && d != ""
    ensures var at := |Terminated(ts[..k], d)| - |d|;
            OccursAt(Terminated(ts, d), d + d, at)
            && (k < |ts| - 1 ==> at + 2 * |d| < |Terminated(ts, d)|)
  {
    var pre, post := Terminated(ts[..k], d), Terminated(ts[k + 1..], d);
    TerminatedIsJoined(ts[..k], d);
    var body := Joined(ts[..k], d);
    assert ts == ts[..k] + ([ts[k]] + ts[k + 1..]);
    TerminatedAppend(ts[..k], [ts[k]] + ts[k + 1..], d);
    assert ([ts[k]] + ts[k + 1..])[1..] == ts[k + 1..];
    assert Terminated(ts, d) == body + (d + d) + post;
    assert (body + (d + d) + post)[|body|..|body| + |d + d|] == d + d;
  }

  /**
   * Every popped message passes the format check of the request parser: at least two lines, the last
   * one empty, and no other line empty except possibly the first.
   */
  lemma {:induction false} PoppedPassesFormatCheck(p: string)
    requires Framed(p, BLANK_LINE)
    ensures var ts := Tokens(p, CRLF);
            2 <= |ts| && ts[|ts| - 1] == "" && Terminated(ts, CRLF) == p
            && forall k :: 0 < k < |ts| - 1 ==> ts[k] != ""
  {
    CrlfBorderFree();
    OccursTwice(p, CRLF, |p| - 4);
    DoubleEndTokens(p, CRLF);
    assert p[|p| - 2..] == p[|p| - 2..|p|];
    TrailingDelimiterSeen(p, CRLF);
    var ts := Tokens(p, CRLF);
    forall k | 0 < k < |ts| - 1 ensures ts[k] != "" {
      if ts[k] == "" {
        EmptyTokenIsDoubleDelimiter(ts, k, CRLF);
      }
    }
  }

  /** A token, its delimiter and more text that does not start with a delimiter hold no doubled one before that text. */
  lemma {:induction false} DoubleAfterToken(t: string, d: string, tail: string, j: nat)
    requires d != "" && BorderFree(d) && Free(t, d)
    requires !OccursAt(tail, d, 0)
    requires OccursAt(t + d + tail, d + d, j)
    ensures |t + d| <= j && OccursAt(tail, d + d, j - |t + d|)
  {
    var s := t + d + tail;
    OccursTwice(s, d, j);
    FindAfterToken(t, d, tail);
    OccursInSuffix(t + d, tail, d, 0);
    assert j != |t|;
    if |t| < j < |t| + |d| {
      OverlapIsBorder(s, d, |t|, j);
      assert false;
    }
    OccursInSuffix(t + d, tail, d + d, j - |t + d|);
  }

  lemma {:induction false} BlankAfterLine(t: string, d: string)
    requires d != "" && BorderFree(d) && Free(t, d)
    ensures Framed(t + d + d, d + d)
  {
    var p := t + d + d;
    FindAfterToken(t, d, d);
    assert p == t + (d + d);
    OccursInSuffix(t, d + d, d + d, 0);
    forall j: nat | j < |t| ensures !OccursAt(p, d + d, j) {
      OccursTwice(p, d, j);
    }
    FindIs(p, d + d, 0, |t|);
  }

  lemma {:induction false} BlankAfterMore(t: string, d: string, tail: string)
    requires d != "" && BorderFree(d) && Free(t, d)
    requires !OccursAt(tail, d, 0) && Framed(tail, d + d)
    ensures Framed(t + d + tail, d + d)
  {
    var p := t + d + tail;
    OccursInSuffix(t + d, tail, d + d, |tail| - |d + d|);
    forall j: nat | j < |p| - |d + d| ensures !OccursAt(p, d + d, j) {
      if OccursAt(p, d + d, j) {
        DoubleAfterToken(t, d, tail, j);
      }
    }
    FindIs(p, d + d, 0, |p| - |d + d|);
  }

  /** Non-empty lines and then a blank one: the first doubled delimiter is the blank line. */
  lemma {:induction false} FirstBlankLine(ts: seq<string>, d: string)
    requires d != "" && BorderFree(d) && ts != []
    requires forall t :: t in ts ==> Free(t, d)
    requires forall k :: 0 < k < |ts| ==> ts[k] != ""
    ensures Framed(Terminated(ts, d) + d, d + d)
  {
    var rest := ts[1..];
    Regroup(ts[0] + d, Terminated(rest, d), d);
    if rest == [] {
      assert Terminated(rest, d) + d == d;
      BlankAfterLine(ts[0], d);
    } else {
      FirstBlankLine(rest, d);
      Regroup(rest[0] + d, Terminated(rest[1..], d), d);
      FindAfterToken(rest[0], d, Terminated(rest[1..], d) + d);
      BlankAfterMore(ts[0], d, Terminated(rest, d) + d);
    }
  }
}
