/**
 * The backward matcher of build_support/cpplint.py from a closing angle bracket is the forward count of `AngleLaws` on
 * the text read backwards, with every bracket turned round.
 */
module MirrorLaws {
  import opened Prelude
  import opened Balanced
  import opened Brackets
  import opened BracketLaws
  import opened AngleLaws

  function Mirror(c: char): char {
    match c
    case '(' => ')' case ')' => '('
    case '[' => ']' case ']' => '['
    case '{' => '}' case '}' => '{'
    case '<' => '>' case '>' => '<'
    case _ => c
  }

  function MirrorAll(s: seq<char>): seq<char> {
    if s == [] then [] else MirrorAll(Popped(s)) + [Mirror(Top(s))]
  }

  lemma {:induction false} MirrorTwice(c: char)
    ensures Mirror(Mirror(c)) == c
  {
  }

  lemma {:induction false} MirrorPairs(o: char, c: char)
    ensures Pairs(o, c) <==> Pairs(Mirror(c), Mirror(o))
    ensures Opener(Mirror(o)) <==> Closer(o)
    ensures Closer(Mirror(o)) <==> Opener(o)
  {
  }

  lemma {:induction false} MirrorStack(s: seq<char>, c: char)
    ensures MirrorAll(s + [c]) == MirrorAll(s) + [Mirror(c)]
    ensures |MirrorAll(s)| == |s|
    ensures s != [] ==> Popped(MirrorAll(s)) == MirrorAll(Popped(s)) && Top(MirrorAll(s)) == Mirror(Top(s))
    decreases |s|
  {
    assert Popped(s + [c]) == s;
    if s != [] {
      MirrorStack(Popped(s), c);
      assert Popped(MirrorAll(s)) == MirrorAll(Popped(s));
    }
  }

  lemma {:induction false} MirrorDrop(s: seq<char>)
    ensures DropAngles(MirrorAll(s), '<') == MirrorAll(DropAngles(s, '>'))
  {
    MirrorStack(s, ' ');
    if s != [] {
      MirrorTwice(Top(s));
      if Top(s) == '>' {
        MirrorDrop(Popped(s));
      }
    }
  }

  // ---- what a character stands for, read backwards ----

  /** Whether an operator is passed over here, together with the character before it. */
  predicate Operator(line: string, i: nat)
    requires i < |line|
  {
    0 < i &&
    match line[i]
    case '>' =>
      || line[i - 1] == '-'
      || (IsSpace(line[i - 1]) && i + 2 < |line| && line[i + 1] == '=' && IsSpace(line[i + 2]))
      || EndsWithOperator(line[..i])
    case '<' => line[i - 1] == '<'
    case _ => false
  }

  function BackRole(line: string, i: nat): Role
    requires i < |line|
  {
    if Operator(line, i) then Other
    else match line[i] case '>' => Opening case '<' => Closing case ';' => Ending case _ => Other
  }

  /** The line from `i` back to its beginning, mirrored. */
  function BackMarks(line: string, i: int): seq<Mark>
    requires i < |line|
    decreases i + 1
  {
    if i < 0 then []
    else if Operator(line, i) then [Mark(Mirror(line[i]), Other), Mark(Mirror(line[i - 1]), Other)] + BackMarks(line, i - 2)
    else [Mark(Mirror(line[i]), BackRole(line, i))] + BackMarks(line, i - 1)
  }

  /** The lines below `n`, from the end of the last to the beginning of the first, mirrored. */
  function AllBackMarks(lines: seq<string>, n: nat): seq<Mark>
    requires n <= |lines|
  {
    if n == 0 then [] else BackMarks(lines[n - 1], |lines[n - 1]| - 1) + AllBackMarks(lines, n - 1)
  }

  /** An operator is passed over with a character that is no bracket and no semicolon. */
  lemma {:induction false} OperatorIsPlain(line: string, i: nat)
    requires i < |line| && Operator(line, i)
    ensures Plain(line[i]) && line[i] != ';' && Plain(line[i - 1]) && line[i - 1] != ';'
  {
    assert line[..i][i - 1] == line[i - 1];
    SpaceIsPlain(line[i - 1]);
    assert ';' as int == 59;
    if line[i] == '>' && EndsWithOperator(line[..i]) {
      OperatorEnd(line[..i]);
      if !IsSpace(line[i - 1]) {
        assert line[..i][i - 8..][7] == 'r';
      }
    }
  }

  /** The same step of the machine, which counts where the matcher says where it is. */
  predicate Mirrored(step: Step, machine: Step, i: nat) {
    match step
    case Go(st) => machine == Go(MirrorAll(st))
    case Stop(Found(p)) => p == i && machine == Stop(Found(1))
    case Stop(Broken) => machine == Stop(Broken)
    case Stop(Open(_)) => false
  }

  lemma {:induction false} CloserByRole(line: string, i: nat, stack: seq<char>)
    requires i < |line| && Closer(line[i])
    ensures StartStep(line, i, stack).1 == 1 && MarkOk(Mark(Mirror(line[i]), Other)) && BackRole(line, i).Other? && !Operator(line, i)
    ensures Mirrored(StartStep(line, i, stack).0, MarkStep(Mark(Mirror(line[i]), Other), MirrorAll(stack)), i)
  {
    MirrorStack(stack, line[i]);
    MirrorPairs(line[i], line[i]);
  }

  /** What a bracket does that should match the top of the stack, `ok` if it does. */
  function Matched(st: seq<char>, ok: bool, found: Outcome): Step {
    if st == [] || !ok then Stop(Broken) else if |st| == 1 then Stop(found) else Go(Popped(st))
  }

  lemma {:induction false} StartOnOpener(line: string, i: nat, stack: seq<char>)
    requires i < |line| && Opener(line[i])
    ensures var st := DropAngles(stack, '>');
            StartStep(line, i, stack) == (Matched(st, st != [] && Pairs(line[i], Top(st)), Found(i)), 1)
    ensures !Operator(line, i) && BackRole(line, i).Other?
  {
  }

  lemma {:induction false} MarkOnCloser(m: Mark, stack: seq<char>)
    requires Closer(m.c)
    ensures var st := DropAngles(stack, '<'); MarkStep(m, stack) == Matched(st, st != [] && Pairs(Top(st), m.c), Found(1))
  {
  }

  lemma {:induction false} MatchedMirrored(st: seq<char>, c: char, i: nat)
    ensures Mirrored(Matched(st, st != [] && Pairs(c, Top(st)), Found(i)),
                     Matched(MirrorAll(st), MirrorAll(st) != [] && Pairs(Top(MirrorAll(st)), Mirror(c)), Found(1)), i)
  {
    MirrorStack(st, c);
    if st != [] {
      MirrorPairs(c, Top(st));
    }
  }

  lemma {:induction false} OpenerByRole(line: string, i: nat, stack: seq<char>)
    requires i < |line| && Opener(line[i])
    ensures StartStep(line, i, stack).1 == 1 && MarkOk(Mark(Mirror(line[i]), Other)) && BackRole(line, i).Other? && !Operator(line, i)
    ensures Mirrored(StartStep(line, i, stack).0, MarkStep(Mark(Mirror(line[i]), Other), MirrorAll(stack)), i)
  {
    MirrorPairs(line[i], line[i]);
    StartOnOpener(line, i, stack);
    MarkOnCloser(Mark(Mirror(line[i]), Other), MirrorAll(stack));
    MirrorDrop(stack);
    MatchedMirrored(DropAngles(stack, '>'), line[i], i);
  }

  lemma {:induction false} PlainByRole(line: string, i: nat, stack: seq<char>)
    requires i < |line| && Plain(line[i])
    ensures StartStep(line, i, stack).1 == (if Operator(line, i) then 2 else 1) && MarkOk(Mark(Mirror(line[i]), BackRole(line, i)))
    ensures Mirrored(StartStep(line, i, stack).0, MarkStep(Mark(Mirror(line[i]), BackRole(line, i)), MirrorAll(stack)), i)
  {
    MirrorPairs(line[i], line[i]);
    MirrorStack(stack, '>');
    MirrorDrop(stack);
    MirrorStack(DropAngles(stack, '>'), ' ');
    if stack != [] {
      MirrorTwice(Top(stack));
    }
  }

  /** One step of the backward matcher is one or two of the machine, mirrored. */
  lemma {:induction false} StartStepByRole(line: string, i: nat, stack: seq<char>)
    requires i < |line|
    ensures StartStep(line, i, stack).1 == (if Operator(line, i) then 2 else 1) && MarkOk(Mark(Mirror(line[i]), BackRole(line, i)))
    ensures Mirrored(StartStep(line, i, stack).0, MarkStep(Mark(Mirror(line[i]), BackRole(line, i)), MirrorAll(stack)), i)
  {
    if Closer(line[i]) {
      CloserByRole(line, i, stack);
    } else if Opener(line[i]) {
      OpenerByRole(line, i, stack);
    } else {
      PlainByRole(line, i, stack);
    }
  }

  lemma {:induction false} PassedOver(c: char, stack: seq<char>)
    requires Plain(c) && c != ';'
    ensures MarkOk(Mark(Mirror(c), Other)) && MarkStep(Mark(Mirror(c), Other), stack) == Go(stack)
  {
    MirrorPairs(c, c);
  }

  lemma {:induction false} BackMarksAreOk(line: string, i: int)
    requires -1 <= i < |line|
    ensures |BackMarks(line, i)| == i + 1 && MarksOk(BackMarks(line, i))
    decreases i + 1
  {
    if 0 <= i {
      StartStepByRole(line, i, []);
      if Operator(line, i) {
        OperatorIsPlain(line, i);
        PassedOver(line[i], []);
        PassedOver(line[i - 1], []);
        BackMarksAreOk(line, i - 2);
      } else {
        BackMarksAreOk(line, i - 1);
      }
    }
  }

  lemma {:induction false} AllBackMarksAreOk(lines: seq<string>, n: nat)
    requires n <= |lines|
    ensures MarksOk(AllBackMarks(lines, n))
  {
    if 0 < n {
      BackMarksAreOk(lines[n - 1], |lines[n - 1]| - 1);
      AllBackMarksAreOk(lines, n - 1);
    }
  }

  /** A result of the machine from `i` back, against what the line comes to: `ms` before it. */
  ghost predicate BackResult(i: int, r: Option<nat>, ms: seq<Mark>, outcome: Outcome)
    requires -1 <= i
  {
    match outcome
    case Found(p) => p <= i && r == Some(i - p + 1)
    case Broken => r == None
    case Open(st) => st != [] && r == Plus(i + 1, Machine(ms, MirrorAll(st)))
  }

  lemma {:induction false} BackResultFrom(i: int, k: nat, r: Option<nat>, ms: seq<Mark>, outcome: Outcome)
    requires -1 <= i - k && BackResult(i - k, r, ms, outcome)
    ensures BackResult(i, Plus(k, r), ms, outcome)
  {
  }

  ghost predicate BackLine(line: string, i: int, stack: seq<char>, ms: seq<Mark>, outcome: Outcome)
    requires -1 <= i < |line|
  {
    BackResult(i, Machine(BackMarks(line, i) + ms, MirrorAll(stack)), ms, outcome)
  }

  lemma {:induction false} BackMarksNext(line: string, i: nat, ms: seq<Mark>)
    requires i < |line|
    ensures BackMarks(line, i) + ms ==
            if Operator(line, i) then
              [Mark(Mirror(line[i]), Other)] + ([Mark(Mirror(line[i - 1]), Other)] + (BackMarks(line, i - 2) + ms))
            else [Mark(Mirror(line[i]), BackRole(line, i))] + (BackMarks(line, i - 1) + ms)
  {
  }

  lemma {:induction false} BackLineOperator(line: string, i: nat, stack: seq<char>, ms: seq<Mark>, outcome: Outcome)
    requires i < |line| && Operator(line, i) && BackLine(line, i - 2, stack, ms, outcome)
    ensures BackLine(line, i, stack, ms, outcome)
  {
    var rest, w := BackMarks(line, i - 2) + ms, MirrorAll(stack);
    BackMarksNext(line, i, ms);
    OperatorIsPlain(line, i);
    TwoPassedOver(line[i], line[i - 1], rest, w);
    BackResultFrom(i, 2, Machine(rest, w), ms, outcome);
  }

  lemma {:induction false} TwoPassedOver(c: char, d: char, rest: seq<Mark>, w: seq<char>)
    requires Plain(c) && c != ';' && Plain(d) && d != ';'
    ensures Machine([Mark(Mirror(c), Other)] + ([Mark(Mirror(d), Other)] + rest), w) == Plus(2, Machine(rest, w))
  {
    PassedOver(c, w);
    PassedOver(d, w);
    MachineOne(Mark(Mirror(c), Other), [Mark(Mirror(d), Other)] + rest, w);
    MachineOne(Mark(Mirror(d), Other), rest, w);
  }

  lemma {:induction false} BackLinePlain(line: string, i: nat, stack: seq<char>, ms: seq<Mark>, step: Step, outcome: Outcome)
    requires i < |line| && !Operator(line, i)
    requires Mirrored(step, MarkStep(Mark(Mirror(line[i]), BackRole(line, i)), MirrorAll(stack)), i)
    requires match step
             case Stop(o) => outcome == o
             case Go(st) => BackLine(line, i - 1, st, ms, outcome)
    ensures BackLine(line, i, stack, ms, outcome)
  {
    var m, rest := Mark(Mirror(line[i]), BackRole(line, i)), BackMarks(line, i - 1) + ms;
    BackMarksNext(line, i, ms);
    MachineOne(m, rest, MirrorAll(stack));
    if step.Go? {
      BackResultFrom(i, 1, Machine(rest, MirrorAll(step.stack)), ms, outcome);
    }
  }

  lemma {:induction false} OperatorStep(line: string, i: nat, stack: seq<char>)
    requires i < |line| && Operator(line, i)
    ensures StartStep(line, i, stack) == (Go(stack), 2)
  {
  }

  lemma {:induction false} StaysOpen(line: string, i: nat, stack: seq<char>)
    requires i < |line| && stack != [] && StartStep(line, i, stack).0.Go?
    ensures StartStep(line, i, stack).0.stack != []
  {
    StartStepByRole(line, i, stack);
    MirrorStack(stack, ' ');
    NeverEmptied(Mark(Mirror(line[i]), BackRole(line, i)), MirrorAll(stack));
  }

  lemma {:induction false} ScanIsMachineBack(line: string, i: int, stack: seq<char>, ms: seq<Mark>)
    requires -1 <= i < |line| && stack != []
    ensures BackLine(line, i, stack, ms, ScanStart(line, i, stack))
    decreases i + 1
  {
    if i == -1 {
      assert BackMarks(line, i) + ms == ms;
    } else {
      ScanStartNext(line, i, stack);
      if Operator(line, i) {
        OperatorStep(line, i, stack);
        ScanIsMachineBack(line, i - 2, stack, ms);
        BackLineOperator(line, i, stack, ms, ScanStart(line, i, stack));
      } else {
        StartStepByRole(line, i, stack);
        var step := StartStep(line, i, stack).0;
        if step.Go? {
          StaysOpen(line, i, stack);
          ScanIsMachineBack(line, i - 1, step.stack, ms);
        }
        BackLinePlain(line, i, stack, ms, step, ScanStart(line, i, stack));
      }
    }
  }

  /** The place found, told by how far it is before the position `end` of the whole text. */
  ghost predicate FoundBefore(lines: seq<string>, end: nat, at: Option<Place>, r: Option<nat>) {
    match at
    case None => r == None
    case Some(a) =>
      && a.line < |lines| && a.pos < |lines[a.line]| && Offset(lines, a.line, a.pos) < end
      && r == Some(end - Offset(lines, a.line, a.pos))
  }

  lemma {:induction false} FoundBeforeLine(lines: seq<string>, n: nat, i: int, stack: seq<char>, ms: seq<Mark>, outcome: Outcome,
                                           at: Option<Place>, end: nat, all: seq<Mark>)
    requires n < |lines| && -1 <= i < |lines[n]| && BackLine(lines[n], i, stack, ms, outcome)
    requires match outcome
             case Found(p) => at == Some(Place(n, p))
             case Broken => at == None
             case Open(st) => FoundBefore(lines, |Concat(lines[..n])|, at, Machine(ms, MirrorAll(st)))
    requires end == |Concat(lines[..n])| + (i + 1) && all == BackMarks(lines[n], i) + ms
    ensures FoundBefore(lines, end, at, Machine(all, MirrorAll(stack)))
  {
  }

  lemma {:induction false} OpenedFromNext(lines: seq<string>, n: nat, stack: seq<char>)
    requires 0 < n <= |lines| && stack != []
    ensures var line := lines[n - 1];
            OpenedFrom(lines, n, stack) ==
            match ScanStart(line, |line| - 1, stack)
            case Found(p) => Some(Place(n - 1, p))
            case Broken => None
            case Open(st) => OpenedFrom(lines, n - 1, st)
  {
  }

  /** One line more, upwards. */
  lemma {:induction false} FoundAbove(lines: seq<string>, n: nat, stack: seq<char>, outcome: Outcome)
    requires 0 < n <= |lines| && stack != [] && outcome == ScanStart(lines[n - 1], |lines[n - 1]| - 1, stack)
    requires outcome.Open? ==>
               FoundBefore(lines, |Concat(lines[..n - 1])|, OpenedFrom(lines, n - 1, outcome.stack),
                           Machine(AllBackMarks(lines, n - 1), MirrorAll(outcome.stack)))
    ensures FoundBefore(lines, |Concat(lines[..n])|, OpenedFrom(lines, n, stack), Machine(AllBackMarks(lines, n), MirrorAll(stack)))
  {
    var line, ms := lines[n - 1], AllBackMarks(lines, n - 1);
    ConcatUpTo(lines, n - 1);
    ScanIsMachineBack(line, |line| - 1, stack, ms);
    OpenedFromNext(lines, n, stack);
    FoundBeforeLine(lines, n - 1, |line| - 1, stack, ms, outcome, OpenedFrom(lines, n, stack), |Concat(lines[..n])|,
                    AllBackMarks(lines, n));
  }

  lemma {:induction false} OpenedFromIsMachine(lines: seq<string>, n: nat, stack: seq<char>)
    requires n <= |lines| && stack != []
    ensures FoundBefore(lines, |Concat(lines[..n])|, OpenedFrom(lines, n, stack), Machine(AllBackMarks(lines, n), MirrorAll(stack)))
    decreases n
  {
    if 0 < n {
      var outcome := ScanStart(lines[n - 1], |lines[n - 1]| - 1, stack);
      if outcome.Open? {
        ScanIsMachineBack(lines[n - 1], |lines[n - 1]| - 1, stack, []);
        OpenedFromIsMachine(lines, n - 1, outcome.stack);
      }
      FoundAbove(lines, n, stack, outcome);
    }
  }

  lemma {:induction false} OpenedBeforeAngle(lines: seq<string>, n: nat, p: nat)
    requires n < |lines| && p < |lines[n]| && lines[n][p] == '>' && !Operator(lines[n], p)
    ensures Opened(lines, n, p) ==
            match ScanStart(lines[n], p - 1, ['>'])
            case Found(i) => Some(Place(n, i))
            case Broken => None
            case Open(st) => OpenedFrom(lines, n, st)
  {
    StartStepByRole(lines[n], p, []);
    assert [] + ['>'] == ['>'];
    ScanStartNext(lines[n], p, []);
  }

  /**
   * From an angle bracket that closes a template, across any number of lines: the backward matcher returns the place where
   * the count of the mirrored text comes to nothing, and nothing exactly when it never does.
   */
  lemma {:induction false} AngleOpenedExactly(lines: seq<string>, n: nat, p: nat)
    requires n < |lines| && p < |lines[n]| && lines[n][p] == '>' && !Operator(lines[n], p)
    ensures FoundBefore(lines, Offset(lines, n, p), Opened(lines, n, p), Count(BackMarks(lines[n], p - 1) + AllBackMarks(lines, n), 1))
  {
    var line, rest := lines[n], AllBackMarks(lines, n);
    OpenedBeforeAngle(lines, n, p);
    ScanIsMachineBack(line, p - 1, ['>'], rest);
    var outcome := ScanStart(line, p - 1, ['>']);
    if outcome.Open? {
      OpenedFromIsMachine(lines, n, outcome.stack);
    }
    FoundBeforeLine(lines, n, p - 1, ['>'], rest, outcome, Opened(lines, n, p), Offset(lines, n, p), BackMarks(line, p - 1) + rest);
    BackMarksCount(lines, n, p);
  }

  lemma {:induction false} BackMarksCount(lines: seq<string>, n: nat, p: nat)
    requires n < |lines| && p < |lines[n]|
    ensures var ms := BackMarks(lines[n], p - 1) + AllBackMarks(lines, n); Machine(ms, MirrorAll(['>'])) == Count(ms, 1)
  {
    BackMarksAreOk(lines[n], p - 1);
    AllBackMarksAreOk(lines, n);
    assert MirrorAll(['>']) == Angles(1) by {
      assert Popped(['>']) == [] && Angles(0) == [];
    }
    MachineCounts(BackMarks(lines[n], p - 1) + AllBackMarks(lines, n), 1);
  }
}
