/**
 * The bracket matchers of build_support/cpplint.py: forward and backward over any number of lines, and the one-line
 * matcher of _GetTextInside. The loops are proved against functions; on text without angle brackets those functions
 * are shown to find exactly the blocks of the grammar in `Balanced`.
 */
module Brackets {
  import opened Prelude
  import opened Balanced

  /** What scanning one line comes to: the end found, a mismatch, or the line's end with this stack. */
  datatype Outcome = Found(pos: nat) | Broken | Open(stack: seq<char>)

  /** A line number and a position on that line. */
  datatype Place = Place(line: nat, pos: nat)

  datatype Step = Go(stack: seq<char>) | Stop(outcome: Outcome)

  /** A space, or one of the characters from tab to carriage return. */
  predicate IsSpace(c: char) { c == ' ' || 9 <= c as int <= 13 }

  predicate IsWord(c: char) { 'a' <= c <= 'z' || 'A' <= c <= 'Z' || '0' <= c <= '9' || c == '_' }

  /** The regular expression \boperator\s*$ */
  predicate EndsWithOperator(s: string) {
    if s != "" && IsSpace(s[|s| - 1]) then EndsWithOperator(s[..|s| - 1])
    else 8 <= |s| && s[|s| - 8..] == "operator" && (|s| == 8 || !IsWord(s[|s| - 9]))
  }

  /** Pending angle brackets that turn out to be operators are taken off the stack. */
  function DropAngles(stack: seq<char>, angle: char): seq<char> {
    if stack != [] && Top(stack) == angle then DropAngles(Popped(stack), angle) else stack
  }

  method PopAngles(stack: seq<char>, angle: char) returns (st: seq<char>)
    ensures st == DropAngles(stack, angle)
  {
    st := stack;
    while st != [] && Top(st) == angle
      invariant DropAngles(st, angle) == DropAngles(stack, angle)
      decreases |st|
    {
      st := Popped(st);
    }
  }

  // ---- forward ----

  function EndStep(line: string, i: nat, stack: seq<char>): Step
    requires i < |line|
  {
    var c := line[i];
    if Opener(c) then Go(stack + [c])
    else if c == '<' then
      if 0 < i && line[i - 1] == '<' then
        if stack != [] && Top(stack) == '<' then
          if |stack| == 1 then Stop(Broken) else Go(Popped(stack))
        else Go(stack)
      else if 0 < i && EndsWithOperator(line[..i]) then Go(stack)
      else Go(stack + ['<'])
    else if Closer(c) then
      var st := DropAngles(stack, '<');
      if st == [] || !Pairs(Top(st), c) then Stop(Broken)
      else if |st| == 1 then Stop(Found(i + 1))
      else Go(Popped(st))
    else if c == '>' then
      if 0 < i && (line[i - 1] == '-' || EndsWithOperator(line[..i - 1])) then Go(stack)
      else if stack != [] && Top(stack) == '<' then
        if |stack| == 1 then Stop(Found(i + 1)) else Go(Popped(stack))
      else Go(stack)
    else if c == ';' then
      var st := DropAngles(stack, '<');
      if st == [] then Stop(Broken) else Go(st)
    else Go(stack)
  }

  function ScanEnd(line: string, i: nat, stack: seq<char>): Outcome
    decreases |line| - i
  {
    if |line| <= i then Open(stack)
    else
      match EndStep(line, i, stack)
      case Stop(o) => o
      case Go(st) => ScanEnd(line, i + 1, st)
  }

  method FindEndOfExpressionInLine(line: string, startpos: nat, stack: seq<char>) returns (endPos: int, out: Option<seq<char>>)
    ensures match ScanEnd(line, startpos, stack)
            case Found(p) => endPos == p && out == None
            case Broken => endPos == -1 && out == None
            case Open(st) => endPos == -1 && out == Some(st)
  {
    var i, st := startpos, stack;
    while i < |line|
      invariant ScanEnd(line, startpos, stack) == ScanEnd(line, i, st)
    {
      var c := line[i];
      if c == '(' || c == '[' || c == '{' {
        st := st + [c];
      } else if c == '<' {
        if i > 0 && line[i - 1] == '<' {
          if st != [] && Top(st) == '<' {
            st := Popped(st);
            if st == [] {
              return -1, None;
            }
          }
        } else if i > 0 && EndsWithOperator(line[..i]) {
          // operator<, not an opener
        } else {
          st := st + ['<'];
        }
      } else if c == ')' || c == ']' || c == '}' {
        st := PopAngles(st, '<');
        if st == [] {
          return -1, None;
        }
        if Pairs(Top(st), c) {
          st := Popped(st);
          if st == [] {
            return i + 1, None;
          }
        } else {
          return -1, None;
        }
      } else if c == '>' {
        if i > 0 && (line[i - 1] == '-' || EndsWithOperator(line[..i - 1])) {
          // an arrow or operator>
        } else if st != [] && Top(st) == '<' {
          st := Popped(st);
          if st == [] {
            return i + 1, None;
          }
        }
      } else if c == ';' {
        st := PopAngles(st, '<');
        if st == [] {
          return -1, None;
        }
      }
      i := i + 1;
    }
    return -1, Some(st);
  }

  /** The lines from `n` on, with this stack: where it is emptied. */
  function ClosedFrom(lines: seq<string>, n: nat, stack: seq<char>): Option<Place>
    decreases |lines| - n
  {
    if stack == [] || |lines| <= n then None
    else
      match ScanEnd(lines[n], 0, stack)
      case Found(e) => Some(Place(n, e))
      case Broken => None
      case Open(st) => ClosedFrom(lines, n + 1, st)
  }

  predicate Shift(s: string) {
    2 <= |s| && s[0] == '<' && (s[1] == '<' || s[1] == '=')
  }

  /** Where the expression that opens at line `n`, position `p` is closed: a position past the closer. */
  function Closed(lines: seq<string>, n: nat, p: nat): Option<Place>
    requires n < |lines| && p < |lines[n]|
  {
    if !(Opener(lines[n][p]) || lines[n][p] == '<') || Shift(lines[n][p..]) then None
    else
      match ScanEnd(lines[n], p, [])
      case Found(e) => Some(Place(n, e))
      case Broken => None
      case Open(st) => ClosedFrom(lines, n + 1, st)
  }

  /** The last line that is looked at, from line `n` on, with this stack. */
  function LastRead(lines: seq<string>, n: nat, stack: seq<char>): (last: nat)
    requires 0 < n <= |lines|
    ensures n - 1 <= last < |lines|
    ensures ClosedFrom(lines, n, stack).Some? ==> last == ClosedFrom(lines, n, stack).value.line
    decreases |lines| - n
  {
    if stack == [] || |lines| <= n then n - 1
    else
      match ScanEnd(lines[n], 0, stack)
      case Open(st) => LastRead(lines, n + 1, st)
      case _ => n
  }

  /** The line that is returned beside the place: that of the place, or the last one looked at in vain. */
  function ReadUpTo(lines: seq<string>, n: nat, p: nat): (last: nat)
    requires n < |lines| && p < |lines[n]|
    ensures n <= last < |lines|
    ensures Closed(lines, n, p).Some? ==> last == Closed(lines, n, p).value.line
  {
    if !(Opener(lines[n][p]) || lines[n][p] == '<') || Shift(lines[n][p..]) then n
    else
      match ScanEnd(lines[n], p, [])
      case Open(st) => LastRead(lines, n + 1, st)
      case _ => n
  }

  method CloseExpression(lines: seq<string>, linenum: nat, pos: nat) returns (line: string, endLine: nat, endPos: int)
    requires linenum < |lines| && pos < |lines[linenum]|
    ensures line == lines[ReadUpTo(lines, linenum, pos)]
    ensures match Closed(lines, linenum, pos)
            case Some(at) => endLine == at.line && endPos == at.pos
            case None => endLine == |lines| && endPos == -1
  {
    line := lines[linenum];
    if !(Opener(line[pos]) || line[pos] == '<') || Shift(line[pos..]) {
      return line, |lines|, -1;
    }
    var stack;
    endPos, stack := FindEndOfExpressionInLine(line, pos, []);
    if endPos > -1 {
      return line, linenum, endPos;
    }
    endLine := linenum;
    while stack.Some? && stack.value != [] && endLine < |lines| - 1
      invariant linenum <= endLine < |lines| && line == lines[endLine]
      invariant Closed(lines, linenum, pos) == if stack.Some? then ClosedFrom(lines, endLine + 1, stack.value) else None
      invariant ReadUpTo(lines, linenum, pos) == if stack.Some? then LastRead(lines, endLine + 1, stack.value) else endLine
      decreases |lines| - endLine
    {
      endLine := endLine + 1;
      line := lines[endLine];
      endPos, stack := FindEndOfExpressionInLine(line, 0, stack.value);
      if endPos > -1 {
        return line, endLine, endPos;
      }
    }
    return line, |lines|, -1;
  }

  // ---- backward ----

  /** The step at `i`, and how far it moves: operators of two characters are skipped whole. */
  function StartStep(line: string, i: nat, stack: seq<char>): (Step, nat)
    requires i < |line|
  {
    var c := line[i];
    if Closer(c) then (Go(stack + [c]), 1)
    else if c == '>' then
      if 0 < i && (line[i - 1] == '-'
                   || (IsSpace(line[i - 1]) && i + 2 < |line| && line[i + 1] == '=' && IsSpace(line[i + 2]))
                   || EndsWithOperator(line[..i])) then (Go(stack), 2)
      else (Go(stack + ['>']), 1)
    else if c == '<' then
      if 0 < i && line[i - 1] == '<' then (Go(stack), 2)
      else if stack != [] && Top(stack) == '>' then
        (if |stack| == 1 then Stop(Found(i)) else Go(Popped(stack)), 1)
      else (Go(stack), 1)
    else if Opener(c) then
      var st := DropAngles(stack, '>');
      (if st == [] || !Pairs(c, Top(st)) then Stop(Broken)
       else if |st| == 1 then Stop(Found(i))
       else Go(Popped(st)), 1)
    else if c == ';' then
      var st := DropAngles(stack, '>');
      (if st == [] then Stop(Broken) else Go(st), 1)
    else (Go(stack), 1)
  }

  function ScanStart(line: string, i: int, stack: seq<char>): Outcome
    requires i < |line|
    decreases i + 1
  {
    if i < 0 then Open(stack)
    else
      var (step, move) := StartStep(line, i, stack);
      match step
      case Stop(o) => o
      case Go(st) => if move == 2 then ScanStart(line, i - 2, st) else ScanStart(line, i - 1, st)
  }

  lemma {:induction false} ScanStartNext(line: string, i: nat, stack: seq<char>)
    requires i < |line|
    ensures ScanStart(line, i, stack) ==
            match StartStep(line, i, stack).0
            case Stop(o) => o
            case Go(st) => ScanStart(line, if StartStep(line, i, stack).1 == 2 then i - 2 else i - 1, st)
  {
  }

  method FindStartOfExpressionInLine(line: string, endpos: int, stack: seq<char>) returns (startPos: int, out: Option<seq<char>>)
    requires endpos < |line|
    ensures match ScanStart(line, endpos, stack)
            case Found(p) => startPos == p && out == None
            case Broken => startPos == -1 && out == None
            case Open(st) => startPos == -1 && out == Some(st)
  {
    var i, st := endpos, stack;
    while i >= 0
      invariant i < |line| && ScanStart(line, endpos, stack) == ScanStart(line, i, st)
      decreases i + 1
    {
      ScanStartNext(line, i, st);
      var c := line[i];
      if c == ')' || c == ']' || c == '}' {
        st := st + [c];
      } else if c == '>' {
        if i > 0 && (line[i - 1] == '-'
                     || (IsSpace(line[i - 1]) && i + 2 < |line| && line[i + 1] == '=' && IsSpace(line[i + 2]))
                     || EndsWithOperator(line[..i])) {
          i := i - 1;
        } else {
          st := st + ['>'];
        }
      } else if c == '<' {
        if i > 0 && line[i - 1] == '<' {
          i := i - 1;
        } else if st != [] && Top(st) == '>' {
          st := Popped(st);
          if st == [] {
            return i, None;
          }
        }
      } else if c == '(' || c == '[' || c == '{' {
        st := PopAngles(st, '>');
        if st == [] {
          return -1, None;
        }
        if Pairs(c, Top(st)) {
          st := Popped(st);
          if st == [] {
            return i, None;
          }
        } else {
          return -1, None;
        }
      } else if c == ';' {
        st := PopAngles(st, '>');
        if st == [] {
          return -1, None;
        }
      }
      i := i - 1;
    }
    return -1, Some(st);
  }

  /** The lines below `n`, from the end, with this stack: where it is emptied. */
  function OpenedFrom(lines: seq<string>, n: nat, stack: seq<char>): Option<Place>
    requires n <= |lines|
  {
    if stack == [] || n == 0 then None
    else
      match ScanStart(lines[n - 1], |lines[n - 1]| - 1, stack)
      case Found(p) => Some(Place(n - 1, p))
      case Broken => None
      case Open(st) => OpenedFrom(lines, n - 1, st)
  }

  /** Where the expression that is closed at line `n`, position `p` opens. */
  function Opened(lines: seq<string>, n: nat, p: nat): Option<Place>
    requires n < |lines| && p < |lines[n]|
  {
    if !(Closer(lines[n][p]) || lines[n][p] == '>') then None
    else
      match ScanStart(lines[n], p, [])
      case Found(i) => Some(Place(n, i))
      case Broken => None
      case Open(st) => OpenedFrom(lines, n, st)
  }

  /** The last line that is looked at, going up from below line `n`, with this stack. */
  function LastReadBack(lines: seq<string>, n: nat, stack: seq<char>): (last: nat)
    requires n < |lines|
    ensures last <= n
    ensures OpenedFrom(lines, n, stack).Some? ==> last == OpenedFrom(lines, n, stack).value.line
  {
    if stack == [] || n == 0 then n
    else
      match ScanStart(lines[n - 1], |lines[n - 1]| - 1, stack)
      case Open(st) => LastReadBack(lines, n - 1, st)
      case _ => n - 1
  }

  function ReadBackTo(lines: seq<string>, n: nat, p: nat): (last: nat)
    requires n < |lines| && p < |lines[n]|
    ensures last <= n
    ensures Opened(lines, n, p).Some? ==> last == Opened(lines, n, p).value.line
  {
    if !(Closer(lines[n][p]) || lines[n][p] == '>') then n
    else
      match ScanStart(lines[n], p, [])
      case Open(st) => LastReadBack(lines, n, st)
      case _ => n
  }

  method ReverseCloseExpression(lines: seq<string>, linenum: nat, pos: nat)
    returns (line: string, startLine: nat, startPos: int)
    requires linenum < |lines| && pos < |lines[linenum]|
    ensures line == lines[ReadBackTo(lines, linenum, pos)]
    ensures match Opened(lines, linenum, pos)
            case Some(at) => startLine == at.line && startPos == at.pos
            case None => startLine == 0 && startPos == -1
  {
    line := lines[linenum];
    if !(Closer(line[pos]) || line[pos] == '>') {
      return line, 0, -1;
    }
    var stack;
    startPos, stack := FindStartOfExpressionInLine(line, pos, []);
    if startPos > -1 {
      return line, linenum, startPos;
    }
    startLine := linenum;
    while stack.Some? && stack.value != [] && startLine > 0
      invariant startLine < |lines| && line == lines[startLine]
      invariant Opened(lines, linenum, pos) == if stack.Some? then OpenedFrom(lines, startLine, stack.value) else None
      invariant ReadBackTo(lines, linenum, pos) == if stack.Some? then LastReadBack(lines, startLine, stack.value) else startLine
      decreases startLine
    {
      startLine := startLine - 1;
      line := lines[startLine];
      startPos, stack := FindStartOfExpressionInLine(line, |line| - 1, stack.value);
      if startPos > -1 {
        return line, startLine, startPos;
      }
    }
    return line, 0, -1;
  }

  // ---- the matcher of _GetTextInside ----

  function Partner(c: char): char {
    match c case '(' => ')' case '[' => ']' case _ => '}'
  }

  /** How many characters up to and including the one that empties the stack of expected closers. */
  function Inside(s: string, expected: seq<char>): Option<nat>
    requires expected != []
    decreases |s|
  {
    if s == "" then None
    else if s[0] == Top(expected) then
      if |expected| == 1 then Some(1) else Plus(1, Inside(s[1..], Popped(expected)))
    else if Closer(s[0]) then None
    else if Opener(s[0]) then Plus(1, Inside(s[1..], expected + [Partner(s[0])]))
    else Plus(1, Inside(s[1..], expected))
  }

  /** `start` is just past an opener, where the start pattern was found to end. */
  method GetTextInside(text: string, start: nat) returns (inside: Option<string>)
    requires 0 < start <= |text| && Opener(text[start - 1])
    ensures match Inside(text[start..], [Partner(text[start - 1])])
            case None => inside == None
            case Some(k) => start + k <= |text| && inside == Some(text[start..start + k - 1])
  {
    var punctuationStack := [Partner(text[start - 1])];
    var position := start;
    ghost var whole := Inside(text[start..], [Partner(text[start - 1])]);
    while punctuationStack != [] && position < |text|
      invariant start <= position <= |text|
      invariant punctuationStack != [] ==> whole == Plus(position - start, Inside(text[position..], punctuationStack))
      invariant punctuationStack == [] ==> start < position && whole == Some(position - start)
      decreases |text| - position
    {
      assert text[position..][1..] == text[position + 1..];
      if text[position] == Top(punctuationStack) {
        punctuationStack := Popped(punctuationStack);
      } else if Closer(text[position]) {
        return None;
      } else if Opener(text[position]) {
        punctuationStack := punctuationStack + [Partner(text[position])];
      }
      position := position + 1;
    }
    if punctuationStack != [] {
      return None;
    }
    return Some(text[start..position - 1]);
  }
}
