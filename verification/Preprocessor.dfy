/**
 * The nesting state of build_support/cpplint.py over preprocessor conditionals: the nesting stack is saved at #if,
 * put back at every #else and #elif, and after #endif is what it was before the first of those. The nesting stack
 * itself is any type; what a line does to it after the preprocessor part is any function.
 */
module Preprocessor {
  import opened Prelude
  import Brackets

  datatype Directive = If | Else | Endif | Other

  function SkipSpaces(s: string): string {
    if s != "" && Brackets.IsSpace(s[0]) then SkipSpaces(s[1..]) else s
  }

  /** The longest word at the start. */
  function FirstWord(s: string): string {
    if s != "" && Brackets.IsWord(s[0]) then [s[0]] + FirstWord(s[1..]) else ""
  }

  /** The three regular expressions: spaces, a hash, spaces, and one of the words as a whole. */
  function DirectiveOf(line: string): Directive {
    var s := SkipSpaces(line);
    if s == "" || s[0] != '#' then Other
    else
      var word := FirstWord(SkipSpaces(s[1..]));
      if word == "if" || word == "ifdef" || word == "ifndef" then If
      else if word == "else" || word == "elif" then Else
      else if word == "endif" then Endif
      else Other
  }

  predicate Spaces(s: string) {
    forall i :: 0 <= i < |s| ==> Brackets.IsSpace(s[i])
  }

  predicate Word(s: string) {
    forall i :: 0 <= i < |s| ==> Brackets.IsWord(s[i])
  }

  /** Spaces, a hash, spaces, the word as a whole, and anything. */
  ghost predicate Directs(line: string, word: string) {
    exists a, b, rest :: Spaces(a) && Spaces(b) && EndsWord(rest) && line == a + "#" + (b + (word + rest))
  }

  predicate EndsWord(rest: string) {
    rest != "" ==> !Brackets.IsWord(rest[0])
  }

  lemma {:induction false} SkipSpacesIs(a: string, t: string)
    requires Spaces(a) && (t != "" ==> !Brackets.IsSpace(t[0]))
    ensures SkipSpaces(a + t) == t
  {
    if a == "" {
      assert a + t == t;
    } else {
      assert (a + t)[1..] == a[1..] + t;
      SkipSpacesIs(a[1..], t);
    }
  }

  lemma {:induction false} Skipped(s: string) returns (a: string)
    ensures Spaces(a) && s == a + SkipSpaces(s) && (SkipSpaces(s) != "" ==> !Brackets.IsSpace(SkipSpaces(s)[0]))
  {
    if s != "" && Brackets.IsSpace(s[0]) {
      var first := [s[0]];
      var b := Skipped(s[1..]);
      assert s == first + s[1..];
      Regroup(first, b, SkipSpaces(s[1..]));
      a := first + b;
    } else {
      a := "";
    }
  }

  lemma {:induction false} FirstWordIs(word: string, rest: string)
    requires Word(word) && EndsWord(rest)
    ensures FirstWord(word + rest) == word
  {
    if word == "" {
      assert word + rest == rest;
    } else {
      assert (word + rest)[1..] == word[1..] + rest;
      FirstWordIs(word[1..], rest);
      assert word == [word[0]] + word[1..];
    }
  }

  lemma {:induction false} AfterFirstWord(s: string) returns (rest: string)
    ensures s == FirstWord(s) + rest && EndsWord(rest)
  {
    if s != "" && Brackets.IsWord(s[0]) {
      rest := AfterFirstWord(s[1..]);
      assert s == [s[0]] + s[1..];
      Regroup([s[0]], FirstWord(s[1..]), rest);
    } else {
      rest := s;
    }
  }

  /** The word after the hash, if there is a hash first. */
  function HashWord(line: string): Option<string> {
    var s := SkipSpaces(line);
    if s == "" || s[0] != '#' then None else Some(FirstWord(SkipSpaces(s[1..])))
  }

  lemma {:induction false} HashWordFound(line: string, word: string)
    requires HashWord(line) == Some(word)
    ensures Directs(line, word)
  {
    var s := SkipSpaces(line);
    var a := Skipped(line);
    var b := Skipped(s[1..]);
    var rest := AfterFirstWord(SkipSpaces(s[1..]));
    assert s == "#" + s[1..];
    Regroup(a, "#", s[1..]);
    assert line == a + "#" + (b + (word + rest));
  }

  lemma {:induction false} HashWordOf(a: string, b: string, word: string, rest: string)
    requires Spaces(a) && Spaces(b) && word != "" && Word(word) && EndsWord(rest)
    ensures HashWord(a + "#" + (b + (word + rest))) == Some(word)
  {
    var t := "#" + (b + (word + rest));
    Regroup(a, "#", b + (word + rest));
    assert t[1..] == b + (word + rest);
    SkipSpacesIs(a, t);
    SkipSpacesIs(b, word + rest);
    FirstWordIs(word, rest);
  }

  lemma {:induction false} HashWordExactly(line: string, word: string)
    requires word != "" && Word(word)
    ensures HashWord(line) == Some(word) <==> Directs(line, word)
  {
    if HashWord(line) == Some(word) {
      HashWordFound(line, word);
    }
    if Directs(line, word) {
      var a, b, rest :| Spaces(a) && Spaces(b) && EndsWord(rest) && line == a + "#" + (b + (word + rest));
      HashWordOf(a, b, word, rest);
    }
  }

  /** Which lines are directives. */
  lemma {:induction false} DirectiveExactly(line: string)
    ensures DirectiveOf(line).If? <==> Directs(line, "if") || Directs(line, "ifdef") || Directs(line, "ifndef")
    ensures DirectiveOf(line).Else? <==> Directs(line, "else") || Directs(line, "elif")
    ensures DirectiveOf(line).Endif? <==> Directs(line, "endif")
  {
    HashWordExactly(line, "if");
    HashWordExactly(line, "ifdef");
    HashWordExactly(line, "ifndef");
    HashWordExactly(line, "else");
    HashWordExactly(line, "elif");
    HashWordExactly(line, "endif");
  }

  /** What is kept for an open #if; `stackBeforeElse` is set once an #else or #elif has been seen. */
  datatype Info<S> = Info(stackBeforeIf: S, stackBeforeElse: Option<S>)

  datatype Nesting<S> = Nesting(stack: S, ppStack: seq<Info<S>>)

  function Preprocessed<S>(n: Nesting<S>, d: Directive): Nesting<S> {
    match d
    case Other => n
    case If => n.(ppStack := n.ppStack + [Info(n.stack, None)])
    case Else =>
      if n.ppStack == [] then n
      else
        var top := n.ppStack[|n.ppStack| - 1];
        var info := if top.stackBeforeElse.None? then top.(stackBeforeElse := Some(n.stack)) else top;
        Nesting(top.stackBeforeIf, n.ppStack[..|n.ppStack| - 1] + [info])
    case Endif =>
      if n.ppStack == [] then n
      else
        var top := n.ppStack[|n.ppStack| - 1];
        Nesting(if top.stackBeforeElse.Some? then top.stackBeforeElse.value else n.stack, n.ppStack[..|n.ppStack| - 1])
  }

  class NestingState<S> {
    var stack: S
    var ppStack: seq<Info<S>>

    ghost function Value(): Nesting<S>
      reads this
    {
      Nesting(stack, ppStack)
    }

    constructor (empty: S)
      ensures Value() == Nesting(empty, [])
    {
      stack, ppStack := empty, [];
    }

    method UpdatePreprocessor(line: string)
      modifies this
      ensures Value() == Preprocessed(old(Value()), DirectiveOf(line))
    {
      var d := DirectiveOf(line);
      if d.If? {
        ppStack := ppStack + [Info(stack, None)];
      } else if d.Else? {
        if ppStack != [] {
          var last := |ppStack| - 1;
          if ppStack[last].stackBeforeElse.None? {
            ppStack := ppStack[last := ppStack[last].(stackBeforeElse := Some(stack))];
          }
          stack := ppStack[last].stackBeforeIf;
        }
      } else if d.Endif? {
        if ppStack != [] {
          var last := |ppStack| - 1;
          if ppStack[last].stackBeforeElse.Some? {
            stack := ppStack[last].stackBeforeElse.value;
          }
          ppStack := ppStack[..last];
        }
      }
    }

    /** A whole line: the preprocessor part, then whatever else the line does to the stack. */
    method Update(line: Line<S>)
      modifies this
      ensures Value() == Updated(old(Value()), line)
    {
      UpdatePreprocessor(line.text);
      stack := line.effect(stack);
    }
  }

  datatype Line<!S> = Line(text: string, effect: S -> S)

  function Updated<S>(n: Nesting<S>, line: Line<S>): Nesting<S> {
    var p := Preprocessed(n, DirectiveOf(line.text));
    p.(stack := line.effect(p.stack))
  }

  function UpdatedAll<S>(n: Nesting<S>, lines: seq<Line<S>>): Nesting<S>
    decreases |lines|
  {
    if lines == [] then n else UpdatedAll(Updated(n, lines[0]), lines[1..])
  }

  // ---- well-nested files ----

  datatype Code<!S> =
    | End
    | Plain(line: Line<S>, more: Code<S>)
    | Conditional(ifLine: Line<S>, body: Code<S>, elses: Elses<S>, endLine: Line<S>, more: Code<S>)

  datatype Elses<!S> = NoElse | ElseBranch(elseLine: Line<S>, body: Code<S>, others: Elses<S>)

  predicate Proper<S>(c: Code<S>) {
    match c
    case End => true
    case Plain(line, more) => DirectiveOf(line.text).Other? && Proper(more)
    case Conditional(ifLine, body, elses, endLine, more) =>
      DirectiveOf(ifLine.text).If? && Proper(body) && ProperElses(elses) && DirectiveOf(endLine.text).Endif? && Proper(more)
  }

  predicate ProperElses<S>(e: Elses<S>) {
    match e
    case NoElse => true
    case ElseBranch(elseLine, body, others) => DirectiveOf(elseLine.text).Else? && Proper(body) && ProperElses(others)
  }

  function Lines<S>(c: Code<S>): seq<Line<S>> {
    match c
    case End => []
    case Plain(line, more) => [line] + Lines(more)
    case Conditional(ifLine, body, elses, endLine, more) => [ifLine] + Lines(body) + ElseLines(elses) + [endLine] + Lines(more)
  }

  function ElseLines<S>(e: Elses<S>): seq<Line<S>> {
    match e
    case NoElse => []
    case ElseBranch(elseLine, body, others) => [elseLine] + Lines(body) + ElseLines(others)
  }

  /** The same file with every #else and #elif branch taken out. */
  function WithoutElses<S>(c: Code<S>): Code<S> {
    match c
    case End => End
    case Plain(line, more) => Plain(line, WithoutElses(more))
    case Conditional(ifLine, body, elses, endLine, more) =>
      Conditional(ifLine, WithoutElses(body), NoElse, endLine, WithoutElses(more))
  }

  /** What the lines outside all #else and #elif branches make of the stack, one after the other. */
  function Effect<S>(c: Code<S>, stack: S): S {
    match c
    case End => stack
    case Plain(line, more) => Effect(more, line.effect(stack))
    case Conditional(ifLine, body, elses, endLine, more) =>
      Effect(more, endLine.effect(Effect(body, ifLine.effect(stack))))
  }

  lemma {:induction false} UpdatedAppend<S>(n: Nesting<S>, a: seq<Line<S>>, b: seq<Line<S>>)
    ensures UpdatedAll(n, a + b) == UpdatedAll(UpdatedAll(n, a), b)
    decreases |a|
  {
    if a == [] {
      assert a + b == b;
    } else {
      assert (a + b)[1..] == a[1..] + b;
      UpdatedAppend(Updated(n, a[0]), a[1..], b);
    }
  }

  lemma UpdatedOne<S>(n: Nesting<S>, line: Line<S>)
    ensures UpdatedAll(n, [line]) == Updated(n, line)
  {
    assert [line][1..] == [];
  }

  lemma UpdatedParts<S>(n: Nesting<S>, first: Line<S>, a: seq<Line<S>>, b: seq<Line<S>>, last: Line<S>, c: seq<Line<S>>)
    ensures UpdatedAll(n, [first] + a + b + [last] + c)
            == UpdatedAll(Updated(UpdatedAll(UpdatedAll(Updated(n, first), a), b), last), c)
  {
    UpdatedAppend(n, [first] + a + b + [last], c);
    UpdatedAppend(n, [first] + a + b, [last]);
    UpdatedAppend(n, [first] + a, b);
    UpdatedAppend(n, [first], a);
    UpdatedOne(n, first);
    UpdatedOne(UpdatedAll(n, [first] + a + b), last);
  }

  lemma EndifEffect<S>(pp: seq<Info<S>>, before: S, stack: S, branched: bool, n: Nesting<S>, endLine: Line<S>)
    requires DirectiveOf(endLine.text).Endif?
    requires n.ppStack == pp + [Info(before, if branched then Some(stack) else None)]
    requires branched || n.stack == stack
    ensures Updated(n, endLine) == Nesting(endLine.effect(stack), pp)
  {
    assert n.ppStack[..|pp|] == pp;
  }

  /** A well-nested file has the effect of its lines outside the branches, and leaves the preprocessor stack as it was. */
  lemma {:induction false} FileEffect<S>(c: Code<S>, n: Nesting<S>)
    requires Proper(c)
    ensures UpdatedAll(n, Lines(c)) == Nesting(Effect(c, n.stack), n.ppStack)
    decreases c
  {
    match c
    case End =>
    case Plain(line, more) =>
      UpdatedAppend(n, [line], Lines(more));
      UpdatedOne(n, line);
      FileEffect(more, Updated(n, line));
    case Conditional(ifLine, body, elses, endLine, more) =>
      var info := Info(n.stack, None);
      var n1 := Updated(n, ifLine);
      FileEffect(body, n1);
      var inside := UpdatedAll(n1, Lines(body));
      ElsesEffect(elses, n.ppStack, info, inside.stack);
      var after := UpdatedAll(inside, ElseLines(elses));
      EndifEffect(n.ppStack, n.stack, inside.stack, elses.ElseBranch?, after, endLine);
      FileEffect(more, Updated(after, endLine));
      UpdatedParts(n, ifLine, Lines(body), ElseLines(elses), endLine, Lines(more));
  }

  /** What the last branch makes of the stack from before the #if: its #else or #elif line and then its lines. */
  function LastBranchEffect<S>(e: Elses<S>, beforeIf: S): S {
    match e
    case NoElse => beforeIf
    case ElseBranch(elseLine, body, others) =>
      if others.NoElse? then Effect(body, elseLine.effect(beforeIf)) else LastBranchEffect(others, beforeIf)
  }

  /**
   * Every branch starts from the stack before the #if. Branches remember the stack before the first of them, and change
   * nothing else that outlasts the #endif.
   */
  lemma {:induction false} ElsesEffect<S>(e: Elses<S>, pp: seq<Info<S>>, info: Info<S>, stack: S)
    requires ProperElses(e)
    ensures var n := UpdatedAll(Nesting(stack, pp + [info]), ElseLines(e));
            if e.NoElse? then n == Nesting(stack, pp + [info])
            else && n.ppStack == pp + [if info.stackBeforeElse.None? then info.(stackBeforeElse := Some(stack)) else info]
                 && n.stack == LastBranchEffect(e, info.stackBeforeIf)
    decreases e
  {
    match e
    case NoElse =>
    case ElseBranch(elseLine, body, others) =>
      var n := Nesting(stack, pp + [info]);
      var info' := if info.stackBeforeElse.None? then info.(stackBeforeElse := Some(stack)) else info;
      assert (pp + [info])[..|pp|] == pp;
      var n1 := Updated(n, elseLine);
      assert n1 == Nesting(elseLine.effect(info.stackBeforeIf), pp + [info']);
      UpdatedOne(n, elseLine);
      FileEffect(body, n1);
      ElsesEffect(others, pp, info', Effect(body, n1.stack));
      UpdatedAppend(n, [elseLine] + Lines(body), ElseLines(others));
      UpdatedAppend(n, [elseLine], Lines(body));
  }

  lemma {:induction false} ErasureKeepsEffect<S>(c: Code<S>, stack: S)
    requires Proper(c)
    ensures Proper(WithoutElses(c)) && Effect(WithoutElses(c), stack) == Effect(c, stack)
    decreases c
  {
    match c
    case End =>
    case Plain(line, more) => ErasureKeepsEffect(more, line.effect(stack));
    case Conditional(ifLine, body, elses, endLine, more) =>
      ErasureKeepsEffect(body, ifLine.effect(stack));
      ErasureKeepsEffect(more, endLine.effect(Effect(body, ifLine.effect(stack))));
  }

  /**
   * For every well-nested file and every effect of its lines, the final nesting stack is that of the file with all
   * #else and #elif branches erased, and the preprocessor stack ends as it began.
   */
  lemma BranchesDoNotShow<S>(c: Code<S>, n: Nesting<S>)
    requires Proper(c)
    ensures UpdatedAll(n, Lines(c)) == UpdatedAll(n, Lines(WithoutElses(c)))
    ensures UpdatedAll(n, Lines(c)).ppStack == n.ppStack
  {
    FileEffect(c, n);
    ErasureKeepsEffect(c, n.stack);
    FileEffect(WithoutElses(c), n);
  }

  // ---- inside conditionals ----

  /** A well-nested file up to some line: outside all conditionals, in the first part of one, or in a branch of one. */
  datatype Part<!S> =
    | Outside(code: Code<S>)
    | InBody(around: Part<S>, ifLine: Line<S>, code: Code<S>)
    | InBranch(around: Part<S>, ifLine: Line<S>, body: Code<S>, before: Elses<S>, elseLine: Line<S>, code: Code<S>)

  predicate ProperPart<S>(p: Part<S>) {
    match p
    case Outside(code) => Proper(code)
    case InBody(around, ifLine, code) => ProperPart(around) && DirectiveOf(ifLine.text).If? && Proper(code)
    case InBranch(around, ifLine, body, before, elseLine, code) =>
      && ProperPart(around) && DirectiveOf(ifLine.text).If? && Proper(body) && ProperElses(before)
      && DirectiveOf(elseLine.text).Else? && Proper(code)
  }

  function PartLines<S>(p: Part<S>): seq<Line<S>> {
    match p
    case Outside(code) => Lines(code)
    case InBody(around, ifLine, code) => PartLines(around) + ([ifLine] + Lines(code))
    case InBranch(around, ifLine, body, before, elseLine, code) =>
      PartLines(around) + ([ifLine] + Lines(body) + ElseLines(before) + [elseLine] + Lines(code))
  }

  /** The effect of the lines that count here: in every open conditional, its current part on the stack from before it. */
  function PartEffect<S>(p: Part<S>, stack: S): S {
    match p
    case Outside(code) => Effect(code, stack)
    case InBody(around, ifLine, code) => Effect(code, ifLine.effect(PartEffect(around, stack)))
    case InBranch(around, ifLine, body, before, elseLine, code) => Effect(code, elseLine.effect(PartEffect(around, stack)))
  }

  function Depth<S>(p: Part<S>): nat {
    match p
    case Outside(code) => 0
    case InBody(around, ifLine, code) => 1 + Depth(around)
    case InBranch(around, ifLine, body, before, elseLine, code) => 1 + Depth(around)
  }

  /**
   * Wherever a well-nested file is broken off, the stack is that of the lines before each open conditional and of its
   * current part: an #else or #elif puts back the stack from before its #if, however many branches there were. One
   * entry is kept for each open conditional.
   */
  lemma {:induction false} PartHasItsEffect<S>(p: Part<S>, n: Nesting<S>)
    requires ProperPart(p)
    ensures Leaves(n, UpdatedAll(n, PartLines(p)), PartEffect(p, n.stack), Depth(p))
    decreases p
  {
    match p
    case Outside(code) => FileEffect(code, n);
    case InBody(around, ifLine, code) =>
      PartHasItsEffect(around, n);
      var s := UpdatedAll(n, PartLines(around));
      UpdatedAppend(n, PartLines(around), [ifLine] + Lines(code));
      BodyStarts(s, ifLine, code);
      LeavesThen(n, s, UpdatedAll(s, [ifLine] + Lines(code)), PartEffect(around, n.stack), PartEffect(p, n.stack), Depth(around), 1);
    case InBranch(around, ifLine, body, before, elseLine, code) =>
      PartHasItsEffect(around, n);
      var s, more := UpdatedAll(n, PartLines(around)), [ifLine] + Lines(body) + ElseLines(before) + [elseLine] + Lines(code);
      UpdatedAppend(n, PartLines(around), more);
      BranchStarts(s, ifLine, body, before, elseLine, code);
      LeavesThen(n, s, UpdatedAll(s, more), PartEffect(around, n.stack), PartEffect(p, n.stack), Depth(around), 1);
  }

  /** From `n` to `s`: this stack, and so many more conditionals open above those that were. */
  ghost predicate Leaves<S>(n: Nesting<S>, s: Nesting<S>, stack: S, deeper: nat) {
    s.stack == stack && |s.ppStack| == |n.ppStack| + deeper && s.ppStack[..|n.ppStack|] == n.ppStack
  }

  lemma {:induction false} LeavesThen<S>(n: Nesting<S>, m: Nesting<S>, s: Nesting<S>, between: S, stack: S, d: nat, d': nat)
    requires Leaves(n, m, between, d) && Leaves(m, s, stack, d')
    ensures Leaves(n, s, stack, d + d')
  {
    assert s.ppStack[..|n.ppStack|] == s.ppStack[..|m.ppStack|][..|n.ppStack|];
  }

  lemma {:induction false} BodyStarts<S>(n: Nesting<S>, ifLine: Line<S>, code: Code<S>)
    requires DirectiveOf(ifLine.text).If? && Proper(code)
    ensures var s := UpdatedAll(n, [ifLine] + Lines(code));
            Leaves(n, s, Effect(code, ifLine.effect(n.stack)), 1)
  {
    UpdatedAppend(n, [ifLine], Lines(code));
    UpdatedOne(n, ifLine);
    FileEffect(code, Updated(n, ifLine));
  }

  lemma {:induction false} BranchStarts<S>(n: Nesting<S>, ifLine: Line<S>, body: Code<S>, before: Elses<S>, elseLine: Line<S>,
                                           code: Code<S>)
    requires DirectiveOf(ifLine.text).If? && Proper(body) && ProperElses(before) && DirectiveOf(elseLine.text).Else? && Proper(code)
    ensures var s := UpdatedAll(n, [ifLine] + Lines(body) + ElseLines(before) + [elseLine] + Lines(code));
            Leaves(n, s, Effect(code, elseLine.effect(n.stack)), 1)
  {
    var info := Info(n.stack, None);
    var n1 := Updated(n, ifLine);
    FileEffect(body, n1);
    var inside := UpdatedAll(n1, Lines(body));
    ElsesEffect(before, n.ppStack, info, inside.stack);
    var last := UpdatedAll(inside, ElseLines(before));
    ElseStep(last, n.ppStack, n.stack, elseLine);
    FileEffect(code, Updated(last, elseLine));
    UpdatedParts(n, ifLine, Lines(body), ElseLines(before), elseLine, Lines(code));
  }

  lemma {:induction false} ElseStep<S>(n: Nesting<S>, pp: seq<Info<S>>, beforeIf: S, elseLine: Line<S>)
    requires DirectiveOf(elseLine.text).Else?
    requires |n.ppStack| == |pp| + 1 && n.ppStack[..|pp|] == pp && n.ppStack[|pp|].stackBeforeIf == beforeIf
    ensures var s := Updated(n, elseLine);
            s.stack == elseLine.effect(beforeIf) && |s.ppStack| == |pp| + 1 && s.ppStack[..|pp|] == pp
  {
  }

  // ---- every beginning of a well-nested file is such a part ----

  /** The part with its outermost code put into other surroundings. */
  function Put<S>(p: Part<S>, f: Code<S> -> Part<S>): Part<S> {
    match p
    case Outside(code) => f(code)
    case InBody(around, ifLine, code) => InBody(Put(around, f), ifLine, code)
    case InBranch(around, ifLine, body, before, elseLine, code) => InBranch(Put(around, f), ifLine, body, before, elseLine, code)
  }

  lemma {:induction false} PutLines<S>(p: Part<S>, f: Code<S> -> Part<S>, pre: seq<Line<S>>)
    requires ProperPart(p)
    requires forall code {:trigger f(code)} :: Proper(code) ==> ProperPart(f(code)) && PartLines(f(code)) == pre + Lines(code)
    ensures ProperPart(Put(p, f)) && PartLines(Put(p, f)) == pre + PartLines(p)
    decreases p
  {
    match p
    case Outside(code) =>
    case InBody(around, ifLine, code) =>
      PutLines(around, f, pre);
      Regroup(pre, PartLines(around), [ifLine] + Lines(code));
    case InBranch(around, ifLine, body, before, elseLine, code) =>
      PutLines(around, f, pre);
      Regroup(pre, PartLines(around), [ifLine] + Lines(body) + ElseLines(before) + [elseLine] + Lines(code));
  }

  function WithBranch<S>(e: Elses<S>, elseLine: Line<S>, body: Code<S>): Elses<S> {
    match e
    case NoElse => ElseBranch(elseLine, body, NoElse)
    case ElseBranch(l, b, others) => ElseBranch(l, b, WithBranch(others, elseLine, body))
  }

  lemma {:induction false} WithBranchLines<S>(e: Elses<S>, elseLine: Line<S>, body: Code<S>)
    requires ProperElses(e) && DirectiveOf(elseLine.text).Else? && Proper(body)
    ensures ProperElses(WithBranch(e, elseLine, body))
    ensures ElseLines(WithBranch(e, elseLine, body)) == ElseLines(e) + ([elseLine] + Lines(body))
    decreases e
  {
    match e
    case NoElse => assert [elseLine] + Lines(body) + [] == [] + ([elseLine] + Lines(body));
    case ElseBranch(l, b, others) =>
      WithBranchLines(others, elseLine, body);
      Regroup([l] + Lines(b), ElseLines(others), [elseLine] + Lines(body));
  }

  lemma {:induction false} TakeBeyond<T>(a: seq<T>, b: seq<T>, k: nat)
    requires |a| <= k <= |a + b|
    ensures (a + b)[..k] == a + b[..k - |a|]
  {
  }

  lemma {:induction false} TakeWithin<T>(a: seq<T>, b: seq<T>, k: nat)
    requires k <= |a|
    ensures (a + b)[..k] == a[..k]
  {
  }

  /** However many lines of a well-nested file are taken, they are a part of the kind above. */
  lemma {:induction false} PrefixIsPart<S>(c: Code<S>, k: nat) returns (p: Part<S>)
    requires Proper(c) && k <= |Lines(c)|
    ensures ProperPart(p) && PartLines(p) == Lines(c)[..k]
    decreases c
  {
    if k == 0 {
      p := Outside(End);
    } else {
      match c
      case Plain(line, more) =>
        var q := PrefixIsPart(more, k - 1);
        var f := (code: Code<S>) => Outside(Plain(line, code));
        PutLines(q, f, [line]);
        TakeBeyond([line], Lines(more), k);
        p := Put(q, f);
      case Conditional(ifLine, body, elses, endLine, more) =>
        p := PrefixOfConditional(ifLine, body, elses, endLine, more, k);
    }
  }

  lemma {:induction false} PrefixOfConditional<S>(ifLine: Line<S>, body: Code<S>, elses: Elses<S>, endLine: Line<S>, more: Code<S>,
                                                  k: nat) returns (p: Part<S>)
    requires var c := Conditional(ifLine, body, elses, endLine, more); Proper(c) && 0 < k <= |Lines(c)|
    ensures ProperPart(p) && PartLines(p) == Lines(Conditional(ifLine, body, elses, endLine, more))[..k]
    decreases Conditional(ifLine, body, elses, endLine, more), 0
  {
    var first := [ifLine] + Lines(body);
    var second := first + ElseLines(elses);
    var third := second + [endLine];
    if k <= |first| {
      var q := PrefixIsPart(body, k - 1);
      p := PutInBody(q, ifLine);
      TakeBeyond([ifLine], Lines(body), k);
      TakeWithin(first, ElseLines(elses), k);
      TakeWithin(second, [endLine], k);
      TakeWithin(third, Lines(more), k);
    } else if k <= |second| {
      p := PrefixInElses(ifLine, body, NoElse, elses, k - |first|);
      assert first + [] == first;
      TakeBeyond(first, ElseLines(elses), k);
      TakeWithin(second, [endLine], k);
      TakeWithin(third, Lines(more), k);
    } else {
      var q := PrefixIsPart(more, k - |third|);
      var f := (code: Code<S>) => Outside(Conditional(ifLine, body, elses, endLine, code));
      PutLines(q, f, third);
      TakeBeyond(third, Lines(more), k);
      p := Put(q, f);
    }
  }

  lemma {:induction false} PutInBody<S>(q: Part<S>, ifLine: Line<S>) returns (p: Part<S>)
    requires ProperPart(q) && DirectiveOf(ifLine.text).If?
    ensures ProperPart(p) && PartLines(p) == [ifLine] + PartLines(q)
  {
    var f := (code: Code<S>) => InBody(Outside(End), ifLine, code);
    forall code ensures PartLines(f(code)) == [ifLine] + Lines(code) {
      assert [] + ([ifLine] + Lines(code)) == [ifLine] + Lines(code);
    }
    PutLines(q, f, [ifLine]);
    p := Put(q, f);
  }

  lemma {:induction false} PutInBranch<S>(q: Part<S>, ifLine: Line<S>, body: Code<S>, before: Elses<S>, elseLine: Line<S>)
    returns (p: Part<S>)
    requires ProperPart(q) && DirectiveOf(ifLine.text).If? && Proper(body) && ProperElses(before) && DirectiveOf(elseLine.text).Else?
    ensures ProperPart(p) && PartLines(p) == [ifLine] + Lines(body) + ElseLines(before) + [elseLine] + PartLines(q)
  {
    var pre := [ifLine] + Lines(body) + ElseLines(before) + [elseLine];
    var f := (code: Code<S>) => InBranch(Outside(End), ifLine, body, before, elseLine, code);
    forall code ensures PartLines(f(code)) == pre + Lines(code) {
      assert [] + (pre + Lines(code)) == pre + Lines(code);
    }
    PutLines(q, f, pre);
    p := Put(q, f);
  }

  lemma {:induction false} PrefixInElses<S>(ifLine: Line<S>, body: Code<S>, before: Elses<S>, e: Elses<S>, k: nat) returns (p: Part<S>)
    requires DirectiveOf(ifLine.text).If? && Proper(body) && ProperElses(before) && ProperElses(e) && 0 < k <= |ElseLines(e)|
    ensures ProperPart(p) && PartLines(p) == [ifLine] + Lines(body) + ElseLines(before) + ElseLines(e)[..k]
    decreases e
  {
    match e
    case ElseBranch(elseLine, code, others) =>
      if k <= 1 + |Lines(code)| {
        var q := PrefixIsPart(code, k - 1);
        p := PutInBranch(q, ifLine, body, before, elseLine);
        CutWithin([ifLine] + Lines(body) + ElseLines(before), [elseLine], Lines(code), ElseLines(others), k);
      } else {
        WithBranchLines(before, elseLine, code);
        p := PrefixInElses(ifLine, body, WithBranch(before, elseLine, code), others, k - 1 - |Lines(code)|);
        CutBeyond([ifLine] + Lines(body), ElseLines(before), [elseLine] + Lines(code), ElseLines(others), k);
      }
  }

  lemma {:induction false} CutWithin<T>(pre: seq<T>, a: seq<T>, b: seq<T>, c: seq<T>, k: nat)
    requires |a| <= k <= |a| + |b|
    ensures pre + a + b[..k - |a|] == pre + (a + b + c)[..k]
  {
    TakeBeyond(a, b, k);
    TakeWithin(a + b, c, k);
    Regroup(pre, a, b[..k - |a|]);
  }

  lemma {:induction false} CutBeyond<T>(pre: seq<T>, a: seq<T>, b: seq<T>, c: seq<T>, k: nat)
    requires |b| <= k <= |b| + |c|
    ensures pre + (a + b) + c[..k - |b|] == pre + a + (b + c)[..k]
  {
    TakeBeyond(b, c, k);
    Regroup(pre, a, b);
    Regroup(pre + a, b, c[..k - |b|]);
  }
}
