/**
 * The forward matcher of build_support/cpplint.py from an opening angle bracket. What the stack machine does with
 * templates, comparisons and operators comes to this: pass over whole bracket blocks, count the angle brackets outside
 * them, and give up at a semicolon or a closing bracket.
 */
module AngleLaws {
  import opened Prelude
  import opened Balanced
  import opened Brackets
  import opened BracketLaws

  // ---- what a character stands for ----

  /** By its line: opening or closing a template, the second half of a shift, the end of a statement, or none of these. */
  datatype Role = Opening | Closing | Shifting | Ending | Other

  function RoleOf(line: string, i: nat): Role
    requires i < |line|
  {
    match line[i]
    case '<' =>
      if 0 < i && line[i - 1] == '<' then Shifting
      else if 0 < i && EndsWithOperator(line[..i]) then Other
      else Opening
    case '>' => if 0 < i && (line[i - 1] == '-' || EndsWithOperator(line[..i - 1])) then Other else Closing
    case ';' => Ending
    case _ => Other
  }

  predicate Blanks(s: string) {
    forall i :: 0 <= i < |s| ==> IsSpace(s[i])
  }

  predicate NoWordEnd(s: string) {
    s != "" ==> !IsWord(s[|s| - 1])
  }

  /** A text ends with the operator keyword exactly when it is something, the keyword as a whole word, and blanks. */
  lemma {:induction false} OperatorExactly(s: string)
    ensures EndsWithOperator(s) <==> exists pre, sp :: NoWordEnd(pre) && Blanks(sp) && s == pre + "operator" + sp
  {
    if EndsWithOperator(s) {
      var pre, sp := OperatorParts(s);
    }
    if pre, sp :| NoWordEnd(pre) && Blanks(sp) && s == pre + "operator" + sp {
      OperatorSeen(pre, sp);
    }
  }

  lemma {:induction false} OperatorParts(s: string) returns (pre: string, sp: string)
    requires EndsWithOperator(s)
    ensures NoWordEnd(pre) && Blanks(sp) && s == pre + "operator" + sp
  {
    if s != "" && IsSpace(s[|s| - 1]) {
      pre, sp := OperatorParts(s[..|s| - 1]);
      assert s == s[..|s| - 1] + [s[|s| - 1]];
      Regroup(pre + "operator", sp, [s[|s| - 1]]);
      sp := sp + [s[|s| - 1]];
    } else {
      pre, sp := s[..|s| - 8], "";
      assert s == pre + s[|s| - 8..] && s == pre + "operator" + sp;
    }
  }

  lemma {:induction false} OperatorSeen(pre: string, sp: string)
    requires NoWordEnd(pre) && Blanks(sp)
    ensures EndsWithOperator(pre + "operator" + sp)
    decreases |sp|
  {
    var s := pre + "operator" + sp;
    if sp == "" {
      assert s == pre + "operator" && s[|s| - 8..] == "operator" && s[|s| - 1] == 'r' && 'r' as int == 114;
    } else {
      assert s[..|s| - 1] == pre + "operator" + sp[..|sp| - 1] && s[|s| - 1] == sp[|sp| - 1];
      OperatorSeen(pre, sp[..|sp| - 1]);
    }
  }

  datatype Mark = Mark(c: char, role: Role)

  predicate MarkOk(m: Mark) {
    (m.role.Opening? || m.role.Shifting? ==> m.c == '<') && (m.role.Closing? ==> m.c == '>') && (m.role.Ending? <==> m.c == ';')
  }

  predicate MarksOk(ms: seq<Mark>) {
    forall i :: 0 <= i < |ms| ==> MarkOk(ms[i])
  }

  /** The line from `i` on. */
  function Marks(line: string, i: nat): seq<Mark>
    requires i <= |line|
    decreases |line| - i
  {
    if i == |line| then [] else [Mark(line[i], RoleOf(line, i))] + Marks(line, i + 1)
  }

  /** The lines from `n` on. */
  function AllMarks(lines: seq<string>, n: nat): seq<Mark>
    requires n <= |lines|
    decreases |lines| - n
  {
    if n == |lines| then [] else Marks(lines[n], 0) + AllMarks(lines, n + 1)
  }

  function Chars(ms: seq<Mark>): string {
    if ms == [] then "" else [ms[0].c] + Chars(ms[1..])
  }

  // ---- counting ----

  /** How many characters until the pending angle brackets are closed; bracket blocks are passed over whole. */
  function Count(ms: seq<Mark>, pending: nat): Option<nat>
    requires 0 < pending
    decreases |ms|
  {
    if ms == [] then None
    else
      var m := ms[0];
      if Opener(m.c) then
        match Forward(Chars(ms), [])
        case None => None
        case Some(k) => if k == 0 || |ms| < k then None else Plus(k, Count(ms[k..], pending))
      else if Closer(m.c) || m.role.Ending? then None
      else if m.role.Opening? then Plus(1, Count(ms[1..], pending + 1))
      else if m.role.Closing? then if pending == 1 then Some(1) else Plus(1, Count(ms[1..], pending - 1))
      else if m.role.Shifting? then if pending == 1 then None else Plus(1, Count(ms[1..], pending - 1))
      else Plus(1, Count(ms[1..], pending))
  }

  // ---- the stack machine, by roles ----

  function MarkStep(m: Mark, stack: seq<char>): Step {
    if Opener(m.c) then Go(stack + [m.c])
    else if Closer(m.c) then
      var st := DropAngles(stack, '<');
      if st == [] || !Pairs(Top(st), m.c) then Stop(Broken) else if |st| == 1 then Stop(Found(1)) else Go(Popped(st))
    else
      match m.role
      case Opening => Go(stack + ['<'])
      case Shifting =>
        if stack != [] && Top(stack) == '<' then if |stack| == 1 then Stop(Broken) else Go(Popped(stack)) else Go(stack)
      case Closing =>
        if stack != [] && Top(stack) == '<' then if |stack| == 1 then Stop(Found(1)) else Go(Popped(stack)) else Go(stack)
      case Ending =>
        var st := DropAngles(stack, '<');
        if st == [] then Stop(Broken) else Go(st)
      case Other => Go(stack)
  }

  /** One character of the matcher is one mark of the machine. */
  lemma {:induction false} EndStepByRole(line: string, i: nat, stack: seq<char>)
    requires i < |line|
    ensures var m := Mark(line[i], RoleOf(line, i));
            MarkOk(m) && EndStep(line, i, stack) ==
                         match MarkStep(m, stack)
                         case Go(st) => Go(st)
                         case Stop(o) => Stop(if o.Found? then Found(i + 1) else o)
  {
  }

  function Machine(ms: seq<Mark>, stack: seq<char>): Option<nat> {
    if ms == [] then None
    else
      match MarkStep(ms[0], stack)
      case Go(st) => Plus(1, Machine(ms[1..], st))
      case Stop(o) => if o.Found? then Some(1) else None
  }

  lemma {:induction false} MachineOne(m: Mark, ms: seq<Mark>, stack: seq<char>)
    ensures Machine([m] + ms, stack) ==
            match MarkStep(m, stack)
            case Go(st) => Plus(1, Machine(ms, st))
            case Stop(o) => if o.Found? then Some(1) else None
  {
    assert ([m] + ms)[1..] == ms;
  }

  // ---- passing over a block ----

  /** Above a base, the machine is the forward scan until what it started with is closed. */
  ghost predicate OverBlock(ms: seq<Mark>, base: seq<char>, st: seq<char>) {
    match Forward(Chars(ms), WithoutAngles(st, '<'))
    case None => Machine(ms, base + st) == None
    case Some(k) => 0 < k <= |ms| && Machine(ms, base + st) == Plus(k, Machine(ms[k..], base))
  }

  lemma {:induction false} OverBlockNext(m: Mark, rest: seq<Mark>, base: seq<char>, st: seq<char>, st': seq<char>)
    requires OverBlock(rest, base, st') && MarkStep(m, base + st) == Go(base + st')
    requires Forward([m.c] + Chars(rest), WithoutAngles(st, '<')) == Plus(1, Forward(Chars(rest), WithoutAngles(st', '<')))
    ensures OverBlock([m] + rest, base, st)
  {
    var ms := [m] + rest;
    assert ms[1..] == rest;
    MachineOne(m, rest, base + st);
    ShiftBy(ms, Forward(Chars(rest), WithoutAngles(st', '<')));
  }

  lemma {:induction false} OverBlockCloser(m: Mark, rest: seq<Mark>, base: seq<char>, st: seq<char>)
    requires base != [] && Founded(st, '<') && Closer(m.c)
    requires var d := DropAngles(st, '<');
             d != [] && Pairs(Top(d), m.c) && 1 < |d| ==> Founded(Popped(d), '<') && OverBlock(rest, base, Popped(d))
    ensures OverBlock([m] + rest, base, st)
  {
    var d, w := DropAngles(st, '<'), WithoutAngles(st, '<');
    assert ([m] + rest)[1..] == rest;
    ForwardOne(m.c, Chars(rest), w);
    DropUncovers(st, '<');
    DropAbove(base, st);
    PoppedAbove(base, d);
    if Pairs(Top(d), m.c) && 1 < |d| {
      OverBlockNext(m, rest, base, st, Popped(d));
    } else {
      MachineOne(m, rest, base + st);
      assert |d| == 1 ==> base + Popped(d) == base;
    }
  }

  lemma {:induction false} MachineOverBlock(ms: seq<Mark>, base: seq<char>, st: seq<char>)
    requires base != [] && Founded(st, '<') && MarksOk(ms)
    ensures OverBlock(ms, base, st)
    decreases |ms|
  {
    if ms != [] {
      var m, rest := ms[0], ms[1..];
      assert ms == [m] + rest;
      if Opener(m.c) {
        PushAngle(st, m.c, '<');
        Regroup(base, st, [m.c]);
        MachineOverBlock(rest, base, st + [m.c]);
        ForwardOne(m.c, Chars(rest), WithoutAngles(st, '<'));
        OverBlockNext(m, rest, base, st, st + [m.c]);
      } else if Closer(m.c) {
        DropUncovers(st, '<');
        if 1 < |DropAngles(st, '<')| {
          MachineOverBlock(rest, base, Popped(DropAngles(st, '<')));
        }
        OverBlockCloser(m, rest, base, st);
      } else {
        var st' := AboveBase(m, base, st);
        MachineOverBlock(rest, base, st');
        ForwardOne(m.c, Chars(rest), WithoutAngles(st, '<'));
        OverBlockNext(m, rest, base, st, st');
      }
    }
  }

  lemma ShiftBy(ms: seq<Mark>, r: Option<nat>)
    requires ms != []
    ensures r.Some? && r.value <= |ms| - 1 ==> ms[1..][r.value..] == ms[r.value + 1..]
  {
  }

  lemma {:induction false} PoppedAbove(base: seq<char>, st: seq<char>)
    requires st != []
    ensures Popped(base + st) == base + Popped(st) && Top(base + st) == Top(st)
  {
  }

  lemma {:induction false} DropAbove(base: seq<char>, st: seq<char>)
    requires Founded(st, '<')
    ensures DropAngles(base + st, '<') == base + DropAngles(st, '<')
    decreases |st|
  {
    PoppedAbove(base, st);
    if Top(st) == '<' {
      FoundedStays(st, '<');
      assert 1 < |st|;
      DropAbove(base, Popped(st));
    }
  }

  /** A mark that is no bracket works on the pending angle brackets above the base only. */
  lemma {:induction false} AboveBase(m: Mark, base: seq<char>, st: seq<char>) returns (st': seq<char>)
    requires base != [] && Founded(st, '<') && Plain(m.c) && MarkOk(m)
    ensures MarkStep(m, base + st) == Go(base + st')
    ensures Founded(st', '<') && WithoutAngles(st', '<') == WithoutAngles(st, '<')
  {
    PoppedAbove(base, st);
    FoundedStays(st, '<');
    assert |st| == 1 ==> Top(st) == st[0];
    match m.role
    case Opening =>
      st' := st + ['<'];
      PushAngle(st, '<', '<');
      Regroup(base, st, ['<']);
    case Shifting => st' := if Top(st) == '<' then Popped(st) else st;
    case Closing => st' := if Top(st) == '<' then Popped(st) else st;
    case Ending =>
      DropAbove(base, st);
      DropUncovers(st, '<');
      st' := DropAngles(st, '<');
    case Other => st' := st;
  }

  // ---- the machine counts ----

  function Angles(k: nat): seq<char> {
    if k == 0 then [] else Angles(k - 1) + ['<']
  }

  lemma {:induction false} AnglesAre(k: nat)
    ensures |Angles(k)| == k && DropAngles(Angles(k), '<') == []
    ensures 0 < k ==> Top(Angles(k)) == '<' && Popped(Angles(k)) == Angles(k - 1)
  {
    if 0 < k {
      AnglesAre(k - 1);
      assert Popped(Angles(k)) == Angles(k - 1);
    }
  }

  /** What a mark that opens no block does to pending angle brackets. */
  lemma {:induction false} MarkOnAngles(m: Mark, pending: nat)
    requires 0 < pending && !Opener(m.c) && MarkOk(m)
    ensures MarkStep(m, Angles(pending)) ==
            if Closer(m.c) || m.role.Ending? then Stop(Broken)
            else if m.role.Opening? then Go(Angles(pending + 1))
            else if m.role.Closing? then if pending == 1 then Stop(Found(1)) else Go(Angles(pending - 1))
            else if m.role.Shifting? then if pending == 1 then Stop(Broken) else Go(Angles(pending - 1))
            else Go(Angles(pending))
  {
    AnglesAre(pending);
  }

  lemma {:induction false} CountOne(m: Mark, rest: seq<Mark>, pending: nat)
    requires 0 < pending && !Opener(m.c)
    ensures Count([m] + rest, pending) ==
            if Closer(m.c) || m.role.Ending? then None
            else if m.role.Opening? then Plus(1, Count(rest, pending + 1))
            else if m.role.Closing? then if pending == 1 then Some(1) else Plus(1, Count(rest, pending - 1))
            else if m.role.Shifting? then if pending == 1 then None else Plus(1, Count(rest, pending - 1))
            else Plus(1, Count(rest, pending))
  {
    assert ([m] + rest)[1..] == rest;
  }

  lemma {:induction false} CountBlock(ms: seq<Mark>, pending: nat)
    requires 0 < pending && ms != [] && Opener(ms[0].c)
    ensures Count(ms, pending) ==
            match Forward(Chars(ms), [])
            case None => None
            case Some(k) => if k == 0 || |ms| < k then None else Plus(k, Count(ms[k..], pending))
  {
  }

  lemma {:induction false} MarkCounted(m: Mark, rest: seq<Mark>, pending: nat)
    requires 0 < pending && !Opener(m.c) && MarkOk(m)
    requires Machine(rest, Angles(pending + 1)) == Count(rest, pending + 1) && Machine(rest, Angles(pending)) == Count(rest, pending)
    requires 1 < pending ==> Machine(rest, Angles(pending - 1)) == Count(rest, pending - 1)
    ensures Machine([m] + rest, Angles(pending)) == Count([m] + rest, pending)
  {
    MarkOnAngles(m, pending);
    MachineOne(m, rest, Angles(pending));
    CountOne(m, rest, pending);
  }

  /** The stack machine counts. */
  lemma {:induction false} MachineCounts(ms: seq<Mark>, pending: nat)
    requires 0 < pending && MarksOk(ms)
    ensures Machine(ms, Angles(pending)) == Count(ms, pending)
    decreases |ms|
  {
    if ms != [] {
      var m, rest := ms[0], ms[1..];
      assert ms == [m] + rest;
      if Opener(m.c) {
        BlockCounted(m, rest, pending);
        CountBlock(ms, pending);
        if Forward(Chars(ms), []).Some? {
          MachineCounts(ms[Forward(Chars(ms), []).value..], pending);
        }
      } else {
        MachineCounts(rest, pending + 1);
        MachineCounts(rest, pending);
        if 1 < pending {
          MachineCounts(rest, pending - 1);
        }
        MarkCounted(m, rest, pending);
      }
    }
  }

  lemma {:induction false} BlockCounted(m: Mark, rest: seq<Mark>, pending: nat)
    requires 0 < pending && Opener(m.c) && MarksOk(rest)
    ensures var ms := [m] + rest;
            match Forward(Chars(ms), [])
            case None => Machine(ms, Angles(pending)) == None
            case Some(k) => 0 < k <= |ms| && Machine(ms, Angles(pending)) == Plus(k, Machine(ms[k..], Angles(pending)))
  {
    var ms := [m] + rest;
    AnglesAre(pending);
    assert ms[1..] == rest;
    ForwardOne(m.c, Chars(rest), []);
    assert [] + [m.c] == [m.c] && Popped([m.c]) == [];
    assert WithoutAngles([m.c], '<') == [m.c];
    MachineOverBlock(rest, Angles(pending), [m.c]);
    ShiftBy(ms, Forward(Chars(rest), [m.c]));
  }

  // ---- the matcher is the machine ----

  lemma {:induction false} NeverEmptied(m: Mark, stack: seq<char>)
    requires stack != [] && MarkStep(m, stack).Go?
    ensures MarkStep(m, stack).stack != []
  {
  }

  lemma {:induction false} MarksAreOk(line: string, i: nat)
    requires i <= |line|
    ensures |Marks(line, i)| == |line| - i && MarksOk(Marks(line, i))
    decreases |line| - i
  {
    if i < |line| {
      MarksAreOk(line, i + 1);
      EndStepByRole(line, i, []);
    }
  }

  lemma {:induction false} AllMarksAreOk(lines: seq<string>, n: nat)
    requires n <= |lines|
    ensures MarksOk(AllMarks(lines, n))
    decreases |lines| - n
  {
    if n < |lines| {
      MarksAreOk(lines[n], 0);
      AllMarksAreOk(lines, n + 1);
    }
  }

  /** What a line comes to, against the machine from `i` on: `ms` after it. */
  ghost predicate MachineLine(line: string, i: nat, stack: seq<char>, ms: seq<Mark>, outcome: Outcome)
    requires i <= |line|
  {
    match outcome
    case Found(e) => i < e <= |line| && Machine(Marks(line, i) + ms, stack) == Some(e - i)
    case Broken => Machine(Marks(line, i) + ms, stack) == None
    case Open(st) => st != [] && Machine(Marks(line, i) + ms, stack) == Plus(|line| - i, Machine(ms, st))
  }

  lemma {:induction false} ScanIsMachine(line: string, i: nat, stack: seq<char>, ms: seq<Mark>)
    requires i <= |line| && stack != []
    ensures MachineLine(line, i, stack, ms, ScanEnd(line, i, stack))
    decreases |line| - i
  {
    if i == |line| {
      assert Marks(line, i) + ms == ms;
    } else {
      var m := Mark(line[i], RoleOf(line, i));
      EndStepByRole(line, i, stack);
      assert Marks(line, i) + ms == [m] + (Marks(line, i + 1) + ms);
      MachineOne(m, Marks(line, i + 1) + ms, stack);
      match MarkStep(m, stack)
      case Stop(_) =>
      case Go(st) =>
        NeverEmptied(m, stack);
        ScanIsMachine(line, i + 1, st, ms);
    }
  }

  lemma {:induction false} ClosedFromIsMachine(lines: seq<string>, n: nat, stack: seq<char>)
    requires n <= |lines| && stack != []
    ensures match ClosedFrom(lines, n, stack)
            case Some(at) =>
              && n <= at.line < |lines| && 0 < at.pos <= |lines[at.line]|
              && Machine(AllMarks(lines, n), stack) == Some(|Concat(lines[n..at.line])| + at.pos)
            case None => Machine(AllMarks(lines, n), stack) == None
    decreases |lines| - n
  {
    if n < |lines| {
      ScanIsMachine(lines[n], 0, stack, AllMarks(lines, n + 1));
      match ScanEnd(lines[n], 0, stack)
      case Found(_) => assert lines[n..n] == [];
      case Broken =>
      case Open(st) =>
        ClosedFromIsMachine(lines, n + 1, st);
        match ClosedFrom(lines, n + 1, st) {
          case None =>
          case Some(at) => ConcatFrom(lines, n, at.line);
        }
    }
  }

  lemma {:induction false} ClosedAfterAngle(lines: seq<string>, n: nat, p: nat)
    requires n < |lines| && p < |lines[n]| && RoleOf(lines[n], p).Opening? && !Shift(lines[n][p..])
    ensures Closed(lines, n, p) ==
            match ScanEnd(lines[n], p + 1, ['<'])
            case Found(e) => Some(Place(n, e))
            case Broken => None
            case Open(st) => ClosedFrom(lines, n + 1, st)
  {
    assert lines[n][p] == '<';
    assert [] + ['<'] == ['<'];
  }

  /**
   * From an angle bracket that opens a template, across any number of lines: the matcher returns the place where the
   * count of pending angle brackets comes to nothing, and nothing exactly when it never does.
   */
  lemma {:induction false} AngleClosedExactly(lines: seq<string>, n: nat, p: nat)
    requires n < |lines| && p < |lines[n]| && RoleOf(lines[n], p).Opening? && !Shift(lines[n][p..])
    ensures var count := Count(Marks(lines[n], p + 1) + AllMarks(lines, n + 1), 1);
            match Closed(lines, n, p)
            case Some(at) =>
              && n <= at.line < |lines| && 0 < at.pos <= |lines[at.line]|
              && count == Some(Offset(lines, at.line, at.pos) - Offset(lines, n, p) - 1)
            case None => count == None
  {
    var line, rest := lines[n], AllMarks(lines, n + 1);
    ClosedAfterAngle(lines, n, p);
    ScanIsMachine(line, p + 1, ['<'], rest);
    MarksAreOk(line, p + 1);
    AllMarksAreOk(lines, n + 1);
    assert Angles(1) == ['<'] by { assert Angles(0) + ['<'] == ['<']; }
    MachineCounts(Marks(line, p + 1) + rest, 1);
    match ScanEnd(line, p + 1, ['<'])
    case Found(_) =>
    case Broken =>
    case Open(st) =>
      ClosedFromIsMachine(lines, n + 1, st);
      if ClosedFrom(lines, n + 1, st).Some? {
        DistanceIsOffset(lines, n, p, ClosedFrom(lines, n + 1, st).value);
      }
  }
}
