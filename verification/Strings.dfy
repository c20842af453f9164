/**
 * The text helpers of src/http/http_utils.cpp. Text and raw bytes are both `seq<char>`.
 *
 * `Split` and `Join` are loops, proved against the recursive functions `Tokens` and `Joined`;
 * the laws that relate the two are proved about those functions.
 */
module Strings {
  import opened Prelude

  predicate OccursAt(s: string, t: string, i: int) {
    0 <= i && i + |t| <= |s| && s[i..i + |t|] == t
  }

  /** `t` occurs nowhere in `s`. */
  ghost predicate Free(s: string, t: string) {
    forall i :: !OccursAt(s, t, i)
  }

  /** std::string::find: the least occurrence of `t` at or after `from`. */
  function Find(s: string, t: string, from: nat): (r: Option<nat>)
    ensures r.Some? ==> from <= r.value && OccursAt(s, t, r.value)
                        && forall j :: from <= j < r.value ==> !OccursAt(s, t, j)
    ensures r.None? ==> forall j :: from <= j ==> !OccursAt(s, t, j)
    decreases |s| - from
  {
    if |s| < from + |t| then None
    else if OccursAt(s, t, from) then Some(from)
    else Find(s, t, from + 1)
  }

  /** The tokens of `s`: a trailing delimiter ends the last token and starts no new one. */
  function Tokens(s: string, d: string): seq<string>
    requires d != ""
    decreases |s|
  {
    match Find(s, d, 0)
    case None => if s == "" then [] else [s]
    case Some(i) => [s[..i]] + Tokens(s[i + |d|..], d)
  }

  /** Every token followed by the delimiter. */
  function Terminated(ts: seq<string>, d: string): string {
    if ts == [] then "" else ts[0] + d + Terminated(ts[1..], d)
  }

  function Joined(ts: seq<string>, d: string): string {
    if ts == [] then "" else Terminated(ts[..|ts| - 1], d) + ts[|ts| - 1]
  }

  /** No proper non-empty prefix of `d` is also a suffix of `d`. */
  ghost predicate BorderFree(d: string) {
    forall k :: 0 < k < |d| ==> d[..k] != d[|d| - k..]
  }

  // ---- the loops of the source ----

  /** On a non-empty string, an empty delimiter is found where the search starts, for ever. */
  method Split(str: string, delim: string) returns (tokens: seq<string>)
    requires str == "" || delim != ""
    ensures str == "" ==> tokens == []
    ensures delim != "" ==> tokens == Tokens(str, delim)
  {
    tokens := [];
    if str == "" {
      return;
    }
    var curr := 0;
    var next := Find(str, delim, curr);
    assert str[curr..] == str;
    ghost var all := Tokens(str, delim);
    while next.Some?
      invariant 0 <= curr <= |str|
      invariant next == Find(str, delim, curr)
      invariant tokens + Unread(str, delim, curr) == all
      decreases |str| - curr
    {
      SplitTurn(str, delim, curr, next.value, tokens);
      tokens := tokens + [str[curr..next.value]];
      curr := next.value + |delim|;
      next := Find(str, delim, curr);
    }
    TokensEnd(str, delim, curr);
    if curr != |str| {
      tokens := tokens + [str[curr..]];
    }
  }

  /** Why the loop never ends on an empty delimiter: each turn starts where the one before did. */
  lemma EmptyDelimiterStays(s: string, curr: nat)
    requires curr <= |s|
    ensures Find(s, "", curr) == Some(curr) && curr + |""| == curr
  {
  }

  /** The tokens still to be read. */
  ghost function Unread(s: string, d: string, curr: nat): seq<string>
    requires d != "" && curr <= |s|
  {
    Tokens(s[curr..], d)
  }

  lemma SplitTurn(s: string, d: string, curr: nat, next: nat, tokens: seq<string>)
    requires d != "" && curr <= |s| && Find(s, d, curr) == Some(next)
    ensures tokens + [s[curr..next]] + Unread(s, d, next + |d|) == tokens + Unread(s, d, curr)
  {
    TokensStep(s, d, curr, next);
    Regroup(tokens, [s[curr..next]], Unread(s, d, next + |d|));
  }

  method Join(tokens: seq<string>, delim: string) returns (r: string)
    ensures r == Joined(tokens, delim)
  {
    if |tokens| == 0 {
      return "";
    }
    if |tokens| == 1 {
      return tokens[0];
    }
    r := "";
    for i := 0 to |tokens| - 1
      invariant r == Terminated(tokens[..i], delim)
    {
      TerminatedAppend(tokens[..i], [tokens[i]], delim);
      assert tokens[..i + 1] == tokens[..i] + [tokens[i]];
      r := r + tokens[i] + delim;
    }
    r := r + tokens[|tokens| - 1];
  }

  // ---- searching ----

  lemma OccursChar(s: string, t: string, i: int, k: nat)
    requires OccursAt(s, t, i) && k < |t|
    ensures s[i + k] == t[k]
  {
    assert s[i..i + |t|][k] == t[k];
  }

  lemma FindIs(s: string, t: string, from: nat, i: nat)
    requires from <= i && OccursAt(s, t, i)
    requires forall j :: from <= j < i ==> !OccursAt(s, t, j)
    ensures Find(s, t, from) == Some(i)
  {
  }

  lemma SliceShift(s: string, from: nat, lo: nat, hi: nat)
    requires lo <= hi && from + hi <= |s|
    ensures s[from..][lo..hi] == s[from + lo..from + hi]
  {
  }

  lemma OccursInTail(s: string, t: string, from: nat, j: nat)
    requires from <= |s|
    ensures OccursAt(s[from..], t, j) <==> OccursAt(s, t, from + j)
  {
    if from + j + |t| <= |s| {
      SliceShift(s, from, j, j + |t|);
    }
  }

  lemma FindShift(s: string, t: string, from: nat)
    requires from <= |s|
    ensures match Find(s[from..], t, 0)
            case None => Find(s, t, from) == None
            case Some(i) => Find(s, t, from) == Some(from + i)
  {
    match Find(s[from..], t, 0)
    case None =>
      forall j | from <= j ensures !OccursAt(s, t, j) {
        OccursInTail(s, t, from, j - from);
      }
    case Some(i) =>
      forall j | from <= j < from + i ensures !OccursAt(s, t, j) {
        OccursInTail(s, t, from, j - from);
      }
      OccursInTail(s, t, from, i);
      FindIs(s, t, from, from + i);
  }

  lemma TokensLast(s: string, d: string)
    requires d != "" && Find(s, d, 0).None?
    ensures Tokens(s, d) == if s == "" then [] else [s]
  {
  }

  lemma TokensEnd(s: string, d: string, curr: nat)
    requires d != "" && curr <= |s| && Find(s, d, curr).None?
    ensures Tokens(s[curr..], d) == if curr == |s| then [] else [s[curr..]]
  {
    FindShift(s, d, curr);
    TokensLast(s[curr..], d);
  }

  lemma TokensCut(s: string, d: string, i: nat, head: string, tail: string)
    requires d != "" && Find(s, d, 0) == Some(i) && head == s[..i] && tail == s[i + |d|..]
    ensures Tokens(s, d) == [head] + Tokens(tail, d)
  {
  }

  /** One turn of the splitting loop: the token up to the next delimiter, then the unread rest. */
  lemma {:induction false} TokensStep(s: string, d: string, curr: nat, next: nat)
    requires d != "" && curr <= |s| && Find(s, d, curr) == Some(next)
    ensures Tokens(s[curr..], d) == [s[curr..next]] + Tokens(s[next + |d|..], d)
  {
    FindShift(s, d, curr);
    assert s[curr..][..next - curr] == s[curr..next];
    assert s[curr..][next - curr + |d|..] == s[next + |d|..];
    TokensCut(s[curr..], d, next - curr, s[curr..next], s[next + |d|..]);
  }

  /** What is found in a prefix is found at the same place in the whole. */
  lemma FindPrefix(s: string, rest: string, t: string)
    requires Find(s, t, 0).Some?
    ensures Find(s + rest, t, 0) == Find(s, t, 0)
  {
    var i := Find(s, t, 0).value;
    assert (s + rest)[i..i + |t|] == s[i..i + |t|];
    forall j | 0 <= j < i ensures !OccursAt(s + rest, t, j) {
      OccursInPrefix(s, rest, t, j);
    }
    FindIs(s + rest, t, 0, i);
  }

  lemma FreePart(s: string, d: string, lo: nat, hi: nat)
    requires lo <= hi <= |s| && Free(s, d)
    ensures Free(s[lo..hi], d)
  {
    forall i ensures !OccursAt(s[lo..hi], d, i) {
      assert !OccursAt(s, d, lo + i);
      if 0 <= i && i + |d| <= hi - lo {
        assert s[lo..hi][i..i + |d|] == s[lo + i..lo + i + |d|];
      }
    }
  }

  lemma OccursInPrefix(s: string, rest: string, d: string, j: nat)
    requires j + |d| <= |s|
    ensures OccursAt(s + rest, d, j) <==> OccursAt(s, d, j)
  {
    assert (s + rest)[j..j + |d|] == s[j..j + |d|];
  }

  lemma OccursInSuffix(pre: string, s: string, d: string, j: nat)
    ensures OccursAt(pre + s, d, |pre| + j) <==> OccursAt(s, d, j)
  {
    if j + |d| <= |s| {
      assert (pre + s)[|pre| + j..|pre| + j + |d|] == s[j..j + |d|];
    }
  }

  lemma OccursTwice(s: string, d: string, j: nat)
    ensures OccursAt(s, d + d, j) <==> OccursAt(s, d, j) && OccursAt(s, d, j + |d|)
  {
    if j + |d| + |d| <= |s| {
      var w := s[j..j + |d + d|];
      assert w[..|d|] == s[j..j + |d|] && w[|d|..] == s[j + |d|..j + |d| + |d|];
      assert w == w[..|d|] + w[|d|..];
    }
  }

  /** Two overlapping occurrences of a delimiter show a border of it. */
  lemma OverlapIsBorder(s: string, d: string, i: nat, j: nat)
    requires OccursAt(s, d, i) && OccursAt(s, d, j) && i < j < i + |d|
    ensures var k := i + |d| - j; 0 < k < |d| && d[..k] == d[|d| - k..]
  {
    var k := i + |d| - j;
    assert d[..k] == s[j..j + |d|][..k] == s[j..j + k];
    assert d[|d| - k..] == s[i..i + |d|][|d| - k..] == s[j..j + k];
  }

  /** With a border-free delimiter, the first one after a delimiter-free token is the one written there. */
  lemma FindAfterToken(t: string, d: string, rest: string)
    requires d != "" && BorderFree(d) && Free(t, d)
    ensures Find(t + d + rest, d, 0) == Some(|t|)
  {
    var s := t + d + rest;
    assert s[|t|..|t| + |d|] == d;
    forall j: nat | j < |t| ensures !OccursAt(s, d, j) {
      if j + |d| <= |t| {
        assert s == t + (d + rest);
        OccursInPrefix(t, d + rest, d, j);
      } else if OccursAt(s, d, j) {
        OverlapIsBorder(s, d, j, |t|);
      }
    }
    FindIs(s, d, 0, |t|);
  }

  // ---- splitting what was joined ----

  lemma {:induction false} TerminatedAppend(a: seq<string>, b: seq<string>, d: string)
    ensures Terminated(a + b, d) == Terminated(a, d) + Terminated(b, d)
  {
    if a == [] {
      assert a + b == b;
    } else {
      TerminatedAppend(a[1..], b, d);
      assert (a + b)[1..] == a[1..] + b;
      Regroup(a[0] + d, Terminated(a[1..], d), Terminated(b, d));
    }
  }

  /** Terminated tokens, then an unterminated last word, split back into exactly those. */
  lemma {:induction false} SplitTerminated(ts: seq<string>, last: string, d: string)
    requires d != "" && BorderFree(d) && Free(last, d)
    requires forall t :: t in ts ==> Free(t, d)
    ensures Tokens(Terminated(ts, d) + last, d) == ts + if last == "" then [] else [last]
  {
    if ts == [] {
      assert Terminated(ts, d) + last == last;
    } else {
      var rest := Terminated(ts[1..], d) + last;
      Regroup(ts[0] + d, Terminated(ts[1..], d), last);
      FindAfterToken(ts[0], d, rest);
      TokensCut(ts[0] + d + rest, d, |ts[0]|, ts[0], rest);
      SplitTerminated(ts[1..], last, d);
      var end := if last == "" then [] else [last];
      Regroup([ts[0]], ts[1..], end);
      assert [ts[0]] + ts[1..] == ts;
    }
  }

  /** Tokens free of the delimiter, the last not empty. */
  ghost predicate Splittable(ts: seq<string>, d: string) {
    (forall t :: t in ts ==> Free(t, d)) && (ts != [] ==> ts[|ts| - 1] != "")
  }

  ghost predicate JoinUndoneBySplit(d: string)
    requires d != ""
  {
    forall ts: seq<string> ::
      Splittable(ts, d) ==> Tokens(Joined(ts, d), d) == ts
  }

  lemma {:induction false} SplitOfJoin(ts: seq<string>, d: string)
    requires d != "" && BorderFree(d)
    requires Splittable(ts, d)
    ensures Tokens(Joined(ts, d), d) == ts
  {
    if ts != [] {
      var n := |ts| - 1;
      var most := ts[..n];
      assert forall t :: t in most ==> t in ts;
      SplitTerminated(most, ts[n], d);
      assert ts == most + [ts[n]];
    }
  }

  lemma JoinedOne(a: string, d: string)
    ensures Joined([a], d) == a
  {
    assert Terminated([a][..0], d) == "";
  }

  lemma JoinedPair(a: string, b: string, d: string)
    ensures Joined([a, b], d) == a + d + b
  {
    assert [a, b][..1] == [a] && [a][1..] == [];
    assert Terminated([a], d) == a + d;
  }

  lemma EmptyFirstToken(s: string, d: string)
    requires d != "" && |d| <= |s| && s[..|d|] == d
    ensures Tokens(s, d) != [] && Tokens(s, d)[0] == ""
  {
    assert s[0..|d|] == d;
    FindIs(s, d, 0, 0);
    TokensCut(s, d, 0, "", s[|d|..]);
  }

  /** A bordered delimiter always has tokens that do not survive: two copies of its overhang. */
  lemma {:induction false} BorderedDelimiterLosesTokens(d: string, k: nat)
    requires 0 < k < |d| && d[..k] == d[|d| - k..]
    ensures var t := d[..|d| - k]; Splittable([t, t], d) && Tokens(Joined([t, t], d), d) != [t, t]
  {
    var t := d[..|d| - k];
    JoinedPair(t, t, d);
    assert |t| < |d|;
    assert (t + d + t)[..|d|] == t + d[..k];
    assert t + d[..k] == t + d[|d| - k..] == d;
    EmptyFirstToken(t + d + t, d);
  }

  /** Splitting undoes joining exactly for the delimiters without a border. */
  lemma SplitJoinExactly(d: string)
    requires d != ""
    ensures BorderFree(d) <==> JoinUndoneBySplit(d)
  {
    if BorderFree(d) {
      forall ts: seq<string> | Splittable(ts, d)
        ensures Tokens(Joined(ts, d), d) == ts
      {
        SplitOfJoin(ts, d);
      }
    } else {
      var k :| 0 < k < |d| && d[..k] == d[|d| - k..];
      BorderedDelimiterLosesTokens(d, k);
    }
  }

  // ---- joining what was split ----

  lemma FirstTokenFree(s: string, d: string, i: nat)
    requires d != "" && Find(s, d, 0) == Some(i)
    ensures Free(s[..i], d)
  {
    assert s == s[..i] + s[i..];
    forall j ensures !OccursAt(s[..i], d, j) {
      if 0 <= j && j + |d| <= i {
        OccursInPrefix(s[..i], s[i..], d, j);
      }
    }
  }

  lemma {:induction false} TokensFree(s: string, d: string)
    requires d != ""
    ensures forall t :: t in Tokens(s, d) ==> Free(t, d)
    decreases |s|
  {
    match Find(s, d, 0)
    case None =>
    case Some(i) =>
      TokensFree(s[i + |d|..], d);
      FirstTokenFree(s, d, i);
      TokensCut(s, d, i, s[..i], s[i + |d|..]);
  }

  /** Terminating the tokens again gives `s` back, with one delimiter added if it had no final one. */
  lemma {:induction false} TokensShape(s: string, d: string)
    requires d != ""
    ensures s == "" <==> Tokens(s, d) == []
    ensures var p := Terminated(Tokens(s, d), d); p == s || p == s + d
    decreases |s|
  {
    match Find(s, d, 0)
    case None =>
    case Some(i) =>
      var rest := s[i + |d|..];
      assert s == s[..i] + d + rest;
      TokensShape(rest, d);
      assert Tokens(s, d)[1..] == Tokens(rest, d);
  }

  lemma TerminatedIsJoined(ts: seq<string>, d: string)
    requires ts != []
    ensures Terminated(ts, d) == Joined(ts, d) + d
  {
    var n := |ts| - 1;
    assert ts == ts[..n] + [ts[n]];
    TerminatedAppend(ts[..n], [ts[n]], d);
    assert Terminated([ts[n]], d) == ts[n] + d;
  }

  predicate EndsWith(s: string, d: string) {
    |d| <= |s| && s[|s| - |d|..] == d
  }

  /** With a border-free delimiter at its end, a string is exactly its terminated tokens. */
  lemma {:induction false} TrailingDelimiterSeen(s: string, d: string)
    requires d != "" && BorderFree(d) && EndsWith(s, d)
    ensures Terminated(Tokens(s, d), d) == s
    decreases |s|
  {
    var last := |s| - |d|;
    assert s[last..last + |d|] == d;
    assert OccursAt(s, d, last);
    var i := Find(s, d, 0).value;
    if i < last && last < i + |d| {
      OverlapIsBorder(s, d, i, last);
      assert false;
    }
    var rest := s[i + |d|..];
    TokensCut(s, d, i, s[..i], rest);
    assert s == s[..i] + d + rest;
    if i < last {
      assert rest[|rest| - |d|..] == s[last..];
      TrailingDelimiterSeen(rest, d);
    }
    assert Tokens(s, d)[1..] == Tokens(rest, d);
  }

  lemma SameEnd(a: string, b: string, d: string)
    requires a + d == b + d
    ensures a == b
  {
    assert (a + d)[..|a|] == (b + d)[..|b|];
  }

  /** Joining the tokens of a non-empty string gives it back, short of at most one trailing delimiter. */
  lemma JoinOfSplit(s: string, d: string)
    requires d != "" && s != ""
    ensures Joined(Tokens(s, d), d) == s || Joined(Tokens(s, d), d) + d == s
  {
    TokensShape(s, d);
    TerminatedIsJoined(Tokens(s, d), d);
    if Joined(Tokens(s, d), d) + d == s + d {
      SameEnd(Joined(Tokens(s, d), d), s, d);
    }
  }

  /** For a border-free delimiter the one case is told from the other by how the string ends. */
  lemma JoinOfSplitDropsFinalDelimiter(s: string, d: string)
    requires d != "" && s != "" && BorderFree(d)
    ensures EndsWith(s, d) <==> Joined(Tokens(s, d), d) + d == s
  {
    TokensShape(s, d);
    TerminatedIsJoined(Tokens(s, d), d);
    if EndsWith(s, d) {
      TrailingDelimiterSeen(s, d);
    }
  }

  lemma OneCharFree(s: string, d: string)
    requires |d| == 1
    ensures Free(s, d) <==> d[0] !in s
  {
    if d[0] in s {
      var i :| 0 <= i < |s| && s[i] == d[0];
      assert s[i..i + 1] == d;
      assert OccursAt(s, d, i);
    } else {
      forall i ensures !OccursAt(s, d, i) {
        if OccursAt(s, d, i) {
          OccursChar(s, d, i, 0);
        }
      }
    }
  }

  // ---- trimming and case ----

  function TrimRight(s: string): string {
    if s != "" && s[|s| - 1] == ' ' then TrimRight(s[..|s| - 1]) else s
  }

  function TrimLeft(s: string): string {
    if s != "" && s[0] == ' ' then TrimLeft(s[1..]) else s
  }

  /** Trim with the default delimiter. */
  function Trim(s: string): string {
    TrimLeft(TrimRight(s))
  }

  function Upper(c: char): char {
    if 'a' <= c <= 'z' then c - 'a' + 'A' else c
  }

  function ToUpper(s: string): string {
    if s == "" then "" else [Upper(s[0])] + ToUpper(s[1..])
  }

  function Format(s: string): string {
    ToUpper(Trim(s))
  }

  lemma {:induction false} ToUpperIs(s: string, u: string)
    requires |u| == |s| && forall i :: 0 <= i < |s| ==> u[i] == Upper(s[i])
    ensures ToUpper(s) == u
  {
    if s != "" {
      ToUpperIs(s[1..], u[1..]);
      assert u == [u[0]] + u[1..];
    }
  }

  /** Formatting text without outer spaces only changes its case. */
  lemma FormatIs(s: string, u: string)
    requires s != "" && s[0] != ' ' && s[|s| - 1] != ' '
    requires |u| == |s| && forall i :: 0 <= i < |s| ==> u[i] == Upper(s[i])
    ensures Format(s) == u
  {
    ToUpperIs(s, u);
  }

  // ---- what formatting means ----

  predicate Spaces(s: string) {
    forall i :: 0 <= i < |s| ==> s[i] == ' '
  }

  /** Empty, or with no space at either end. */
  predicate Bare(t: string) {
    t != "" ==> t[0] != ' ' && t[|t| - 1] != ' '
  }

  lemma {:induction false} TrimLeftIs(a: string, t: string)
    requires Spaces(a) && Bare(t)
    ensures TrimLeft(a + t) == t
  {
    if a == "" {
      assert a + t == t;
    } else {
      assert (a + t)[1..] == a[1..] + t;
      TrimLeftIs(a[1..], t);
    }
  }

  lemma {:induction false} TrimRightIs(s: string, b: string)
    requires Spaces(b) && (s != "" ==> s[|s| - 1] != ' ')
    ensures TrimRight(s + b) == s
  {
    if b == "" {
      assert s + b == s;
    } else {
      var n := |b| - 1;
      assert (s + b)[..|s + b| - 1] == s + b[..n];
      TrimRightIs(s, b[..n]);
    }
  }

  /** Whatever spaces stand around bare text, trimming leaves that text. */
  lemma {:induction false} TrimIs(a: string, t: string, b: string)
    requires Spaces(a) && Bare(t) && Spaces(b)
    ensures Trim(a + t + b) == t
  {
    if t == "" {
      assert a + t + b == "" + (a + b);
      TrimRightIs("", a + b);
    } else {
      TrimRightIs(a + t, b);
      TrimLeftIs(a, t);
    }
  }

  lemma {:induction false} CutRight(s: string) returns (r: string, b: string)
    ensures s == r + b && Spaces(b) && (r != "" ==> r[|r| - 1] != ' ')
  {
    if s != "" && s[|s| - 1] == ' ' {
      r, b := CutRight(s[..|s| - 1]);
      b := b + " ";
      assert s == s[..|s| - 1] + " ";
    } else {
      r, b := s, "";
    }
  }

  lemma {:induction false} CutLeft(s: string) returns (a: string, t: string)
    ensures s == a + t && Spaces(a) && (t != "" ==> t[0] != ' ' && t[|t| - 1] == s[|s| - 1])
  {
    if s != "" && s[0] == ' ' {
      a, t := CutLeft(s[1..]);
      a := " " + a;
      assert s == " " + s[1..];
    } else {
      a, t := "", s;
    }
  }

  /** Any text is bare text with spaces around it, and formatted it is that bare text, letter by letter in upper case. */
  lemma {:induction false} FormatMeaning(s: string) returns (a: string, t: string, b: string)
    ensures s == a + t + b && Spaces(a) && Bare(t) && Spaces(b)
    ensures |Format(s)| == |t| && forall i :: 0 <= i < |t| ==> Format(s)[i] == Upper(t[i])
  {
    var r;
    r, b := CutRight(s);
    a, t := CutLeft(r);
    TrimIs(a, t, b);
    ToUpperIs(t, seq(|t|, i requires 0 <= i < |t| => Upper(t[i])));
  }

  /** The same character, or the two cases of one letter. */
  predicate SameLetter(c: char, d: char) {
    c == d || ('a' <= c <= 'z' && d as int == c as int - 32) || ('a' <= d <= 'z' && c as int == d as int - 32)
  }

  predicate SameWord(t: string, word: string) {
    |t| == |word| && forall i :: 0 <= i < |t| ==> SameLetter(t[i], word[i])
  }

  /** The word, up to case and outer spaces. */
  ghost predicate Alike(s: string, word: string) {
    exists a, t, b :: Spaces(a) && SameWord(t, word) && Spaces(b) && s == a + t + b
  }

  /** Comparing formatted text with a word in upper case is comparing up to case and outer spaces. */
  lemma {:induction false} FormatAlike(s: string, word: string, upper: string)
    requires word != "" && Bare(word) && |upper| == |word| && forall i :: 0 <= i < |word| ==> upper[i] == Upper(word[i])
    ensures Format(s) == upper <==> Alike(s, word)
  {
    if Format(s) == upper {
      var a, t, b := FormatMeaning(s);
      assert SameWord(t, word);
    }
    if Alike(s, word) {
      var a, t, b :| Spaces(a) && SameWord(t, word) && Spaces(b) && s == a + t + b;
      assert SameLetter(t[0], word[0]) && SameLetter(t[|t| - 1], word[|t| - 1]);
      TrimIs(a, t, b);
      ToUpperIs(t, upper);
    }
  }
}
