/**
 * On any text, across any number of lines: the forward matcher finds the block that starts at an opener, the backward
 * matcher takes its closer back to that opener, and the one-line matcher agrees with both. Angle brackets, whatever
 * they stand for, do not show in what becomes of the other brackets.
 */
module BracketLaws {
  import opened Prelude
  import opened Balanced
  import opened Brackets

  /** Where position `p` of line `n` is in the text of all lines. */
  function Offset(lines: seq<string>, n: nat, p: nat): nat
    requires n <= |lines|
  {
    |Concat(lines[..n])| + p
  }

  lemma {:induction false} ConcatUpTo(lines: seq<string>, n: nat)
    requires n < |lines|
    ensures Concat(lines[..n + 1]) == Concat(lines[..n]) + lines[n]
  {
    assert lines[..n + 1] == lines[..n] + [lines[n]];
    ConcatAppend(lines[..n], [lines[n]]);
    ConcatOne(lines[n]);
  }

  /** The text around line `n`. */
  lemma {:induction false} ConcatAt(lines: seq<string>, n: nat)
    requires n < |lines|
    ensures Concat(lines[..n + 1]) == Concat(lines[..n]) + lines[n]
    ensures Concat(lines) == Concat(lines[..n]) + (lines[n] + Concat(lines[n + 1..]))
  {
    ConcatUpTo(lines, n);
    assert lines == lines[..n] + lines[n..];
    ConcatAppend(lines[..n], lines[n..]);
    assert lines[n..][1..] == lines[n + 1..];
  }

  lemma {:induction false} ConcatFrom(lines: seq<string>, n: nat, m: nat)
    requires n < m <= |lines|
    ensures Concat(lines[n..m]) == lines[n] + Concat(lines[n + 1..m])
    ensures m == |lines| ==> Concat(lines[n..]) == lines[n] + Concat(lines[n + 1..])
  {
    assert lines[n..m][1..] == lines[n + 1..m];
    assert m == |lines| ==> lines[n..] == lines[n..m] && lines[n + 1..] == lines[n + 1..m];
  }

  lemma SuffixAt(a: string, line: string, b: string, p: nat)
    requires p <= |line|
    ensures (a + (line + b))[|a| + p..] == line[p..] + b
    ensures (a + (line + b))[..|a| + p] == a + line[..p]
  {
  }

  /** Positions and offsets correspond one to one. */
  lemma {:induction false} SamePlace(lines: seq<string>, n: nat, p: nat, m: nat, q: nat)
    requires n < |lines| && p < |lines[n]| && m < |lines| && q < |lines[m]| && Offset(lines, n, p) == Offset(lines, m, q)
    ensures n == m && p == q
  {
    LaterLine(lines, n, m);
    LaterLine(lines, m, n);
  }

  lemma {:induction false} LaterLine(lines: seq<string>, n: nat, m: nat)
    requires n < m < |lines| || m <= n < |lines|
    ensures n < m ==> |Concat(lines[..n])| + |lines[n]| <= |Concat(lines[..m])|
    decreases m
  {
    if n < m {
      ConcatUpTo(lines, m - 1);
      if n < m - 1 {
        LaterLine(lines, n, m - 1);
      }
    }
  }

  // ---- stacks with pending angle brackets ----

  /** The stack without its angle brackets. */
  function WithoutAngles(stack: seq<char>, angle: char): seq<char> {
    if stack == [] then []
    else if Top(stack) == angle then WithoutAngles(Popped(stack), angle)
    else WithoutAngles(Popped(stack), angle) + [Top(stack)]
  }

  /** The stack is not empty, and what it started with is no angle bracket. */
  predicate Founded(stack: seq<char>, angle: char) {
    stack != [] && stack[0] != angle
  }

  lemma {:induction false} PushAngle(stack: seq<char>, c: char, angle: char)
    ensures WithoutAngles(stack + [c], angle) == if c == angle then WithoutAngles(stack, angle) else WithoutAngles(stack, angle) + [c]
  {
    assert Popped(stack + [c]) == stack;
  }

  lemma {:induction false} FoundedStays(stack: seq<char>, angle: char)
    requires Founded(stack, angle)
    ensures WithoutAngles(stack, angle) != []
    ensures 1 < |stack| ==> Founded(Popped(stack), angle)
  {
    if 1 < |stack| {
      FoundedStays(Popped(stack), angle);
    }
  }

  /** Dropping pending angle brackets uncovers the last other bracket. */
  lemma {:induction false} DropUncovers(stack: seq<char>, angle: char)
    requires Founded(stack, angle)
    ensures var st, w := DropAngles(stack, angle), WithoutAngles(stack, angle);
            && Founded(st, angle) && WithoutAngles(st, angle) == w && w != [] && Top(st) == Top(w)
            && (|st| == 1 <==> |w| == 1) && Popped(w) == WithoutAngles(Popped(st), angle)
            && (1 < |st| ==> Founded(Popped(st), angle))
  {
    if Top(stack) == angle {
      FoundedStays(stack, angle);
      DropUncovers(Popped(stack), angle);
    } else {
      FoundedStays(stack, angle);
      var below := WithoutAngles(Popped(stack), angle);
      assert Popped(below + [Top(stack)]) == below;
      if 1 < |stack| {
        FoundedStays(Popped(stack), angle);
      }
    }
  }

  // ---- forward ----

  /** An angle bracket or a semicolon changes nothing but pending angle brackets. */
  lemma {:induction false} EndStepAngle(line: string, i: nat, stack: seq<char>)
    requires i < |line| && Founded(stack, '<') && Plain(line[i])
    ensures EndStep(line, i, stack).Go?
    ensures var st := EndStep(line, i, stack).stack; Founded(st, '<') && WithoutAngles(st, '<') == WithoutAngles(stack, '<')
  {
    PushAngle(stack, '<', '<');
    FoundedStays(stack, '<');
    DropUncovers(stack, '<');
    assert |stack| == 1 ==> Top(stack) == stack[0];
  }

  lemma {:induction false} EndStepCloser(line: string, i: nat, stack: seq<char>)
    requires i < |line| && Founded(stack, '<') && Closer(line[i])
    ensures var c, w, st := line[i], WithoutAngles(stack, '<'), DropAngles(stack, '<');
            && w != [] && st != [] && (1 < |w| ==> Founded(Popped(st), '<') && WithoutAngles(Popped(st), '<') == Popped(w))
            && EndStep(line, i, stack) ==
               if !Pairs(Top(w), c) then Stop(Broken) else if |w| == 1 then Stop(Found(i + 1)) else Go(Popped(st))
  {
    DropUncovers(stack, '<');
  }

  /** A character of the forward matcher, on the stack without its angle brackets. */
  ghost predicate ForwardStep(c: char, i: nat, w: seq<char>, step: Step) {
    match step
    case Go(st) =>
      && Founded(st, '<')
      && (if Opener(c) then WithoutAngles(st, '<') == w + [c]
          else if Closer(c) then w != [] && Pairs(Top(w), c) && |w| != 1 && WithoutAngles(st, '<') == Popped(w)
          else WithoutAngles(st, '<') == w)
    case Stop(o) => Closer(c) && w != [] && if Pairs(Top(w), c) then |w| == 1 && o == Found(i + 1) else o == Broken
  }

  lemma {:induction false} ForwardStepMeans(c: char, s: string, i: nat, w: seq<char>, step: Step)
    requires ForwardStep(c, i, w, step)
    ensures Forward([c] + s, w) ==
            match step
            case Go(st) => Plus(1, Forward(s, WithoutAngles(st, '<')))
            case Stop(o) => if o.Found? then Some(1) else None
    ensures step.Stop? ==> step.outcome == Found(i + 1) || step.outcome == Broken
  {
    ForwardOne(c, s, w);
  }

  lemma {:induction false} EndStepPlain(line: string, i: nat, stack: seq<char>)
    requires i < |line| && (Founded(stack, '<') || (stack == [] && Opener(line[i])))
    ensures ForwardStep(line[i], i, WithoutAngles(stack, '<'), EndStep(line, i, stack))
  {
    if Opener(line[i]) {
      PushAngle(stack, line[i], '<');
    } else if Closer(line[i]) {
      EndStepCloser(line, i, stack);
    } else {
      EndStepAngle(line, i, stack);
    }
  }

  /** What a line comes to, against the forward scan from `i` on: `w` before and `rest` after. */
  ghost predicate ForwardLine(line: string, i: nat, w: seq<char>, rest: string, outcome: Outcome)
    requires i <= |line|
  {
    match outcome
    case Found(e) => i < e <= |line| && Forward(line[i..] + rest, w) == Some(e - i)
    case Broken => Forward(line[i..] + rest, w) == None
    case Open(st) =>
      Founded(st, '<') && Forward(line[i..] + rest, w) == Plus(|line| - i, Forward(rest, WithoutAngles(st, '<')))
  }

  lemma {:induction false} ForwardLineNext(line: string, i: nat, w: seq<char>, rest: string, step: Step, outcome: Outcome)
    requires i < |line| && ForwardStep(line[i], i, w, step)
    requires match step
             case Stop(o) => outcome == o
             case Go(st) => ForwardLine(line, i + 1, WithoutAngles(st, '<'), rest, outcome)
    ensures ForwardLine(line, i, w, rest, outcome)
  {
    assert line[i..] + rest == [line[i]] + (line[i + 1..] + rest);
    ForwardStepMeans(line[i], line[i + 1..] + rest, i, w, step);
  }

  /** One line of the forward matcher is that much of the forward scan. */
  lemma {:induction false} ScanIsForward(line: string, i: nat, stack: seq<char>, rest: string)
    requires i <= |line| && (Founded(stack, '<') || (stack == [] && i < |line| && Opener(line[i])))
    ensures ForwardLine(line, i, WithoutAngles(stack, '<'), rest, ScanEnd(line, i, stack))
    decreases |line| - i
  {
    if i == |line| {
      assert line[i..] + rest == rest;
    } else {
      EndStepPlain(line, i, stack);
      match EndStep(line, i, stack) {
        case Stop(_) =>
        case Go(st) => ScanIsForward(line, i + 1, st, rest);
      }
      ForwardLineNext(line, i, WithoutAngles(stack, '<'), rest, EndStep(line, i, stack), ScanEnd(line, i, stack));
    }
  }

  lemma {:induction false} ClosedFromIsForward(lines: seq<string>, n: nat, stack: seq<char>)
    requires n <= |lines| && Founded(stack, '<')
    ensures var w := WithoutAngles(stack, '<');
            match ClosedFrom(lines, n, stack)
            case Some(at) =>
              && n <= at.line < |lines| && 0 < at.pos <= |lines[at.line]|
              && Forward(Concat(lines[n..]), w) == Some(|Concat(lines[n..at.line])| + at.pos)
            case None => Forward(Concat(lines[n..]), w) == None
    decreases |lines| - n
  {
    if n < |lines| {
      assert lines[n] in lines;
      var rest := Concat(lines[n + 1..]);
      ConcatFrom(lines, n, |lines|);
      ScanIsForward(lines[n], 0, stack, rest);
      assert lines[n][0..] == lines[n];
      match ScanEnd(lines[n], 0, stack)
      case Found(_) => assert lines[n..n] == [];
      case Broken =>
      case Open(st) =>
        ClosedFromIsForward(lines, n + 1, st);
        match ClosedFrom(lines, n + 1, st) {
          case None =>
          case Some(at) => ConcatFrom(lines, n, at.line);
        }
    }
  }

  lemma {:induction false} OffsetBelow(lines: seq<string>, n: nat, m: nat, e: nat)
    requires n < m < |lines|
    ensures Offset(lines, m, e) == |Concat(lines[..n])| + |lines[n]| + |Concat(lines[n + 1..m])| + e
  {
    assert lines[..m] == lines[..n + 1] + lines[n + 1..m];
    ConcatAppend(lines[..n + 1], lines[n + 1..m]);
    ConcatAt(lines, n);
  }

  /** How far a position past `p` of line `n` is from it. */
  function Distance(lines: seq<string>, n: nat, p: nat, at: Place): int
    requires n < |lines| && n <= at.line < |lines|
  {
    if at.line == n then at.pos - p else |lines[n]| - p + |Concat(lines[n + 1..at.line])| + at.pos
  }

  lemma {:induction false} ClosedIsForwardTail(lines: seq<string>, n: nat, p: nat)
    requires n < |lines| && p < |lines[n]| && Opener(lines[n][p])
    ensures var tail := lines[n][p..] + Concat(lines[n + 1..]);
            match Closed(lines, n, p)
            case Some(at) =>
              && n <= at.line < |lines| && 0 < at.pos <= |lines[at.line]| && 0 < Distance(lines, n, p, at)
              && Forward(tail, []) == Some(Distance(lines, n, p, at))
            case None => Forward(tail, []) == None
  {
    assert lines[n] in lines;
    ScanIsForward(lines[n], p, [], Concat(lines[n + 1..]));
    match ScanEnd(lines[n], p, [])
    case Found(_) =>
    case Broken =>
    case Open(st) => ClosedFromIsForward(lines, n + 1, st);
  }

  lemma {:induction false} DistanceIsOffset(lines: seq<string>, n: nat, p: nat, at: Place)
    requires n < |lines| && p < |lines[n]| && n <= at.line < |lines|
    ensures Offset(lines, at.line, at.pos) == Offset(lines, n, p) + Distance(lines, n, p, at)
  {
    if n < at.line {
      OffsetBelow(lines, n, at.line, at.pos);
    }
  }

  lemma {:induction false} TailAt(lines: seq<string>, n: nat, p: nat)
    requires n < |lines| && p < |lines[n]|
    ensures Offset(lines, n, p) < |Concat(lines)|
    ensures Concat(lines)[Offset(lines, n, p)..] == lines[n][p..] + Concat(lines[n + 1..])
  {
    ConcatAt(lines, n);
    SuffixAt(Concat(lines[..n]), lines[n], Concat(lines[n + 1..]), p);
  }

  /** Over all lines, the forward matcher is the forward scan of the whole text from that opener. */
  lemma {:induction false} ClosedIsForward(lines: seq<string>, n: nat, p: nat)
    requires n < |lines| && p < |lines[n]| && Opener(lines[n][p])
    ensures Offset(lines, n, p) < |Concat(lines)|
    ensures match Closed(lines, n, p)
            case Some(at) =>
              && at.line < |lines| && 0 < at.pos <= |lines[at.line]| && Offset(lines, n, p) < Offset(lines, at.line, at.pos)
              && Forward(Concat(lines)[Offset(lines, n, p)..], []) == Some(Offset(lines, at.line, at.pos) - Offset(lines, n, p))
            case None => Forward(Concat(lines)[Offset(lines, n, p)..], []) == None
  {
    TailAt(lines, n, p);
    ClosedIsForwardTail(lines, n, p);
    if Closed(lines, n, p).Some? {
      DistanceIsOffset(lines, n, p, Closed(lines, n, p).value);
    }
  }

  lemma {:induction false} OffsetInText(lines: seq<string>, m: nat, e: nat)
    requires m < |lines| && e <= |lines[m]|
    ensures Offset(lines, m, e) <= |Concat(lines)|
  {
    ConcatAt(lines, m);
  }

  /**
   * Across any number of lines, the forward matcher returns a position exactly when
   * the text from the opener to there is a block of the grammar; there is at most one.
   */
  lemma {:induction false} CloseFindsBlock(lines: seq<string>, n: nat, p: nat, m: nat, e: nat)
    requires n < |lines| && p < |lines[n]| && Opener(lines[n][p])
    requires m < |lines| && 0 < e <= |lines[m]|
    ensures Closed(lines, n, p) == Some(Place(m, e)) <==>
            && Offset(lines, n, p) < Offset(lines, m, e) <= |Concat(lines)|
            && Block(Concat(lines)[Offset(lines, n, p)..Offset(lines, m, e)])
  {
    var s, o, k := Concat(lines), Offset(lines, n, p), Offset(lines, m, e);
    ClosedIsForward(lines, n, p);
    OffsetInText(lines, m, e);
    CharAt(lines, n, p);
    if o < k {
      ForwardFindsBlock(s[o..], k - o);
      assert s[o..][..k - o] == s[o..k];
    }
    if Closed(lines, n, p).Some? {
      var at := Closed(lines, n, p).value;
      if Offset(lines, at.line, at.pos) == k {
        SamePlace(lines, m, e - 1, at.line, at.pos - 1);
      }
    }
  }

  // ---- backward ----

  lemma {:induction false} SpaceIsPlain(c: char)
    ensures IsSpace(c) ==> Plain(c)
  {
    assert '(' as int == 40 && ')' as int == 41 && '[' as int == 91 && ']' as int == 93 && '{' as int == 123 && '}' as int == 125;
  }

  /** A character that is passed over because an operator ends with it is no bracket. */
  lemma {:induction false} OperatorEnd(s: string)
    requires s != "" && EndsWithOperator(s)
    ensures Plain(s[|s| - 1])
  {
    SpaceIsPlain(s[|s| - 1]);
    if !IsSpace(s[|s| - 1]) {
      assert s[|s| - 8..][7] == 'r';
    }
  }

  lemma {:induction false} StartStepAngle(line: string, i: nat, stack: seq<char>)
    requires i < |line| && Founded(stack, '>') && Plain(line[i])
    ensures var (step, move) := StartStep(line, i, stack);
            && (move == 1 || (move == 2 && 0 < i && Plain(line[i - 1])))
            && step.Go? && Founded(step.stack, '>') && WithoutAngles(step.stack, '>') == WithoutAngles(stack, '>')
  {
    PushAngle(stack, '>', '>');
    FoundedStays(stack, '>');
    DropUncovers(stack, '>');
    assert |stack| == 1 ==> Top(stack) == stack[0];
    if 0 < i {
      assert line[..i][i - 1] == line[i - 1];
      if EndsWithOperator(line[..i]) {
        OperatorEnd(line[..i]);
      }
      SpaceIsPlain(line[i - 1]);
    }
  }

  lemma {:induction false} StartStepOpener(line: string, i: nat, stack: seq<char>)
    requires i < |line| && Founded(stack, '>') && Opener(line[i])
    ensures var c, w, st := line[i], WithoutAngles(stack, '>'), DropAngles(stack, '>');
            && w != [] && st != [] && (1 < |w| ==> Founded(Popped(st), '>') && WithoutAngles(Popped(st), '>') == Popped(w))
            && StartStep(line, i, stack) ==
               (if !Pairs(c, Top(w)) then Stop(Broken) else if |w| == 1 then Stop(Found(i)) else Go(Popped(st)), 1)
  {
    DropUncovers(stack, '>');
  }

  /** A step of the backward matcher, which is one or two characters, on the stack without its angle brackets. */
  ghost predicate BackwardStep(c: char, i: nat, w: seq<char>, step: Step) {
    match step
    case Go(st) =>
      && Founded(st, '>')
      && (if Closer(c) then WithoutAngles(st, '>') == w + [c]
          else if Opener(c) then w != [] && Pairs(c, Top(w)) && |w| != 1 && WithoutAngles(st, '>') == Popped(w)
          else WithoutAngles(st, '>') == w)
    case Stop(o) => Opener(c) && w != [] && if Pairs(c, Top(w)) then |w| == 1 && o == Found(i) else o == Broken
  }

  lemma {:induction false} StartStepPlain(line: string, i: nat, stack: seq<char>)
    requires i < |line| && (Founded(stack, '>') || (stack == [] && Closer(line[i])))
    ensures var (step, move) := StartStep(line, i, stack);
            && BackwardStep(line[i], i, WithoutAngles(stack, '>'), step)
            && (move == 1 || (move == 2 && 0 < i && Plain(line[i]) && Plain(line[i - 1])))
  {
    if Closer(line[i]) {
      PushAngle(stack, line[i], '>');
    } else if Opener(line[i]) {
      StartStepOpener(line, i, stack);
    } else {
      StartStepAngle(line, i, stack);
    }
  }

  lemma {:induction false} ScanIsBackward(line: string, i: int, stack: seq<char>, pre: string)
    requires -1 <= i < |line| && (Founded(stack, '>') || (stack == [] && 0 <= i && Closer(line[i])))
    ensures var w := WithoutAngles(stack, '>');
            match ScanStart(line, i, stack)
            case Found(p) => p <= i && Backward(pre + line[..i + 1], w) == Some(|pre| + p)
            case Broken => Backward(pre + line[..i + 1], w) == None
            case Open(st) =>
              Founded(st, '>') && Backward(pre + line[..i + 1], w) == Backward(pre, WithoutAngles(st, '>'))
    decreases i + 1
  {
    if i == -1 {
      assert pre + line[..0] == pre;
    } else {
      var c, w := line[i], WithoutAngles(stack, '>');
      assert pre + line[..i + 1] == pre + line[..i] + [c];
      BackwardOne(pre + line[..i], c, w);
      StartStepPlain(line, i, stack);
      var (step, move) := StartStep(line, i, stack);
      if move == 2 {
        assert pre + line[..i] == pre + line[..i - 1] + [line[i - 1]];
        BackwardOne(pre + line[..i - 1], line[i - 1], w);
      }
      match step
      case Stop(_) =>
      case Go(st) => ScanIsBackward(line, if move == 2 then i - 2 else i - 1, st, pre);
    }
  }

  lemma {:induction false} OpenedFromIsBackward(lines: seq<string>, n: nat, stack: seq<char>)
    requires n <= |lines| && Founded(stack, '>')
    ensures var w := WithoutAngles(stack, '>');
            match OpenedFrom(lines, n, stack)
            case Some(at) =>
              at.line < n && at.pos < |lines[at.line]| && Backward(Concat(lines[..n]), w) == Some(Offset(lines, at.line, at.pos))
            case None => Backward(Concat(lines[..n]), w) == None
    decreases n
  {
    if 0 < n {
      var line := lines[n - 1];
      ConcatUpTo(lines, n - 1);
      assert line[..|line|] == line;
      ScanIsBackward(line, |line| - 1, stack, Concat(lines[..n - 1]));
      match ScanStart(line, |line| - 1, stack)
      case Found(_) =>
      case Broken =>
      case Open(st) => OpenedFromIsBackward(lines, n - 1, st);
    }
  }

  lemma {:induction false} OpenedIsBackward(lines: seq<string>, n: nat, p: nat)
    requires n < |lines| && p < |lines[n]| && Closer(lines[n][p])
    ensures Offset(lines, n, p) < |Concat(lines)|
    ensures match Opened(lines, n, p)
            case Some(at) =>
              && at.line < |lines| && at.pos < |lines[at.line]|
              && Backward(Concat(lines)[..Offset(lines, n, p) + 1], []) == Some(Offset(lines, at.line, at.pos))
            case None => Backward(Concat(lines)[..Offset(lines, n, p) + 1], []) == None
  {
    assert lines[n] in lines;
    ConcatAt(lines, n);
    SuffixAt(Concat(lines[..n]), lines[n], Concat(lines[n + 1..]), p + 1);
    ScanIsBackward(lines[n], p, [], Concat(lines[..n]));
    match ScanStart(lines[n], p, [])
    case Found(_) =>
    case Broken =>
    case Open(st) => OpenedFromIsBackward(lines, n, st);
  }

  // ---- the two are inverse ----

  lemma {:induction false} CharAt(lines: seq<string>, n: nat, p: nat)
    requires n < |lines| && p < |lines[n]|
    ensures Offset(lines, n, p) < |Concat(lines)| && Concat(lines)[Offset(lines, n, p)] == lines[n][p]
  {
    ConcatAt(lines, n);
  }

  /**
   * Across any number of lines, an opener is closed by a closer exactly when that
   * closer is opened by that opener.
   */
  lemma {:induction false} MatchersAreInverse(lines: seq<string>, n: nat, p: nat, m: nat, q: nat)
    requires n < |lines| && p < |lines[n]| && m < |lines| && q < |lines[m]|
    requires Opener(lines[n][p]) && Closer(lines[m][q])
    ensures Closed(lines, n, p) == Some(Place(m, q + 1)) <==> Opened(lines, m, q) == Some(Place(n, p))
  {
    var s, i, k := Concat(lines), Offset(lines, n, p), Offset(lines, m, q);
    CharAt(lines, n, p);
    CharAt(lines, m, q);
    ClosedAt(lines, n, p, m, q);
    OpenedAt(lines, n, p, m, q);
    ScansAreInverse(s, i, k);
  }

  lemma {:induction false} ClosedAt(lines: seq<string>, n: nat, p: nat, m: nat, q: nat)
    requires n < |lines| && p < |lines[n]| && m < |lines| && q < |lines[m]| && Opener(lines[n][p])
    ensures var i, k := Offset(lines, n, p), Offset(lines, m, q);
            && i < |Concat(lines)|
            && (Closed(lines, n, p) == Some(Place(m, q + 1)) <==> i <= k && Forward(Concat(lines)[i..], []) == Some(k + 1 - i))
  {
    ClosedIsForward(lines, n, p);
    if Closed(lines, n, p).Some? {
      var at := Closed(lines, n, p).value;
      if Offset(lines, at.line, at.pos) == Offset(lines, m, q) + 1 {
        SamePlace(lines, m, q, at.line, at.pos - 1);
      }
    }
  }

  lemma {:induction false} OpenedAt(lines: seq<string>, n: nat, p: nat, m: nat, q: nat)
    requires n < |lines| && p < |lines[n]| && m < |lines| && q < |lines[m]| && Closer(lines[m][q])
    ensures var i, k := Offset(lines, n, p), Offset(lines, m, q);
            && k < |Concat(lines)|
            && (Opened(lines, m, q) == Some(Place(n, p)) <==> Backward(Concat(lines)[..k + 1], []) == Some(i))
  {
    OpenedIsBackward(lines, m, q);
    if Opened(lines, m, q).Some? {
      var at := Opened(lines, m, q).value;
      if Offset(lines, at.line, at.pos) == Offset(lines, n, p) {
        SamePlace(lines, n, p, at.line, at.pos);
      }
    }
  }

  /** Back from wherever an expression is closed is where it was opened. */
  lemma {:induction false} ClosedThenOpened(lines: seq<string>, n: nat, p: nat, m: nat, e: nat)
    requires n < |lines| && p < |lines[n]| && Opener(lines[n][p])
    requires Closed(lines, n, p) == Some(Place(m, e))
    ensures m < |lines| && 0 < e <= |lines[m]| && Closer(lines[m][e - 1])
    ensures Opened(lines, m, e - 1) == Some(Place(n, p))
  {
    ClosedIsForward(lines, n, p);
    CloseFindsBlock(lines, n, p, m, e);
    var b := Concat(lines)[Offset(lines, n, p)..Offset(lines, m, e)];
    var o, inner, c := BlockParts(b);
    assert b[|b| - 1] == c;
    CharAt(lines, m, e - 1);
    MatchersAreInverse(lines, n, p, m, e - 1);
  }

  // ---- one line ----

  function Partners(stack: seq<char>): seq<char> {
    if stack == [] then [] else Partners(Popped(stack)) + [Partner(Top(stack))]
  }

  lemma PartnersAppend(stack: seq<char>, c: char)
    ensures Partners(stack + [c]) == Partners(stack) + [Partner(c)]
  {
    assert Popped(stack + [c]) == stack;
  }

  lemma {:induction false} PartnersLength(stack: seq<char>)
    ensures |Partners(stack)| == |stack|
  {
    if stack != [] {
      PartnersLength(Popped(stack));
    }
  }

  /** Expecting closers is the same as remembering openers. */
  lemma {:induction false} InsideIsForward(s: string, stack: seq<char>)
    requires stack != [] && forall c :: c in stack ==> Opener(c)
    ensures Partners(stack) != [] && Inside(s, Partners(stack)) == Forward(s, stack)
    decreases |s|
  {
    PartnersLength(stack);
    if s != "" {
      var c, s' := s[0], s[1..];
      var st := Popped(stack);
      assert Partners(stack) == Partners(st) + [Partner(Top(stack))];
      assert Popped(Partners(stack)) == Partners(st);
      assert Top(stack) in stack;
      assert Pairs(Top(stack), c) <==> c == Partner(Top(stack));
      if Opener(c) {
        PartnersAppend(stack, c);
        InsideIsForward(s', stack + [c]);
      } else if Plain(c) {
        InsideIsForward(s', stack);
      } else if Pairs(Top(stack), c) && |stack| > 1 {
        InsideIsForward(s', st);
      }
    }
  }

  /** From its opener, the forward scan goes on as the one-line matcher does from behind it. */
  lemma {:induction false} ForwardIsInside(text: string, start: nat)
    requires 0 < start <= |text| && Opener(text[start - 1])
    ensures Forward(text[start - 1..], []) == Plus(1, Inside(text[start..], [Partner(text[start - 1])]))
  {
    var o, s := text[start - 1], text[start..];
    assert text[start - 1..] == [o] + s;
    ForwardOne(o, s, []);
    assert [] + [o] == [o] && Popped([o]) == [];
    assert Partners([o]) == [Partner(o)];
    InsideIsForward(s, [o]);
  }

  /**
   * The one-line matcher returns what stands between the opener and the end of its block, whatever angle brackets
   * there are, and nothing exactly when the forward scan fails.
   */
  lemma {:induction false} InsideIsBlock(text: string, start: nat, k: nat)
    requires 0 < start <= |text| && Opener(text[start - 1])
    ensures Inside(text[start..], [Partner(text[start - 1])]) == Some(k)
            <==> start + k <= |text| && Block(text[start - 1..start + k])
  {
    ForwardIsInside(text, start);
    ForwardFindsBlock(text[start - 1..], k + 1);
    assert start + k <= |text| ==> text[start - 1..][..k + 1] == text[start - 1..start + k];
  }

  /** On one line, the two independent matchers agree. */
  lemma {:induction false} OneLineMatchersAgree(text: string, start: nat)
    requires 0 < start <= |text| && Opener(text[start - 1])
    ensures match Inside(text[start..], [Partner(text[start - 1])])
            case Some(k) => Closed([text], 0, start - 1) == Some(Place(0, start + k))
            case None => Closed([text], 0, start - 1) == None
  {
    var lines := [text];
    assert lines[..0] == [] && lines[1..] == [];
    ConcatOne(text);
    assert Offset(lines, 0, start - 1) == |Concat([])| + (start - 1) == start - 1;
    ClosedIsForward(lines, 0, start - 1);
    ForwardIsInside(text, start);
  }
}
