/**
 * Bracket blocks, defined by a grammar, and two scanners with a stack, one from each end. The matchers of
 * build_support/cpplint.py are shown in `Brackets` to be these scanners wherever no angle bracket is in sight.
 */
module Balanced {
  import opened Prelude

  predicate Opener(c: char) { c == '(' || c == '[' || c == '{' }

  predicate Closer(c: char) { c == ')' || c == ']' || c == '}' }

  predicate Pairs(o: char, c: char) {
    (o == '(' && c == ')') || (o == '[' && c == ']') || (o == '{' && c == '}')
  }

  predicate Plain(c: char) { !Opener(c) && !Closer(c) }

  /** The grammar of balanced text: nothing, a plain character and more, or a pair of brackets around balanced text and more. */
  datatype Tree = Nothing | Char(c: char, more: Tree) | Pair(open: char, inner: Tree, close: char, more: Tree)

  predicate Proper(t: Tree) {
    match t
    case Nothing => true
    case Char(c, more) => Plain(c) && Proper(more)
    case Pair(o, inner, c, more) => Pairs(o, c) && Proper(inner) && Proper(more)
  }

  function Text(t: Tree): string {
    match t
    case Nothing => ""
    case Char(c, more) => [c] + Text(more)
    case Pair(o, inner, c, more) => [o] + Text(inner) + [c] + Text(more)
  }

  /** A pair of brackets around balanced text. */
  ghost predicate Block(s: string) {
    exists t :: Proper(t) && t.Pair? && t.more.Nothing? && Text(t) == s
  }

  function Plus(n: nat, r: Option<nat>): Option<nat> {
    match r case None => None case Some(k) => Some(n + k)
  }

  function Top(stack: seq<char>): char
    requires stack != []
  {
    stack[|stack| - 1]
  }

  function Popped(stack: seq<char>): seq<char>
    requires stack != []
  {
    stack[..|stack| - 1]
  }

  /** Scans forward; the number of characters up to and including the one that empties the stack. */
  function Forward(s: string, stack: seq<char>): Option<nat>
    decreases |s|
  {
    if s == "" then None
    else if Opener(s[0]) then Plus(1, Forward(s[1..], stack + [s[0]]))
    else if !Closer(s[0]) then Plus(1, Forward(s[1..], stack))
    else if stack == [] || !Pairs(Top(stack), s[0]) then None
    else if |stack| == 1 then Some(1)
    else Plus(1, Forward(s[1..], Popped(stack)))
  }

  /** Scans backward from the end; the index of the character that empties the stack. */
  function Backward(s: string, stack: seq<char>): Option<nat>
    decreases |s|
  {
    if s == "" then None
    else
      var n := |s| - 1;
      if Closer(s[n]) then Backward(s[..n], stack + [s[n]])
      else if !Opener(s[n]) then Backward(s[..n], stack)
      else if stack == [] || !Pairs(s[n], Top(stack)) then None
      else if |stack| == 1 then Some(n)
      else Backward(s[..n], Popped(stack))
  }

  // ---- associativity ----

  lemma AroundMore(o: char, inner: string, c: char, more: string, d: char, rest: string)
    ensures [o] + (inner + [c] + (more + [d] + rest)) == [o] + inner + [c] + more + [d] + rest
  {
  }

  lemma CharMore(c: char, more: string, d: char, rest: string)
    ensures [c] + (more + [d] + rest) == [c] + more + [d] + rest
  {
  }

  lemma BeforePair(pre: string, o: char, before: string, open: char, inner: string, close: char)
    ensures pre + [o] + before + [open] + inner + [close] == pre + [o] + (before + ([open] + inner + [close] + ""))
  {
  }

  lemma TakeBlock(o: char, inner: string, c: char, rest: string)
    ensures ([o] + (inner + [c] + rest))[..|inner| + 2] == [o] + inner + [c]
  {
    var b := [o] + inner + [c];
    assert [o] + (inner + [c] + rest) == b + rest;
    assert (b + rest)[..|b|] == b;
  }

  lemma PrefixBlock(pre: string, o: char, inner: string, c: char)
    ensures pre + ([o] + inner + [c]) == pre + [o] + inner + [c]
  {
  }

  lemma DropToBlock(pre: string, o: char, inner: string, c: char)
    ensures (pre + [o] + inner + [c])[|pre|..] == [o] + inner + [c]
  {
    var b := [o] + inner + [c];
    assert pre + [o] + inner + [c] == pre + b;
    assert (pre + b)[|pre|..] == b;
  }

  // ---- one character ----

  lemma ForwardOne(c: char, s: string, stack: seq<char>)
    ensures Forward([c] + s, stack) ==
            if Opener(c) then Plus(1, Forward(s, stack + [c]))
            else if !Closer(c) then Plus(1, Forward(s, stack))
            else if stack == [] || !Pairs(Top(stack), c) then None
            else if |stack| == 1 then Some(1)
            else Plus(1, Forward(s, Popped(stack)))
  {
    assert ([c] + s)[1..] == s;
  }

  lemma BackwardOne(s: string, c: char, stack: seq<char>)
    ensures Backward(s + [c], stack) ==
            if Closer(c) then Backward(s, stack + [c])
            else if !Opener(c) then Backward(s, stack)
            else if stack == [] || !Pairs(c, Top(stack)) then None
            else if |stack| == 1 then Some(|s|)
            else Backward(s, Popped(stack))
  {
    assert (s + [c])[..|s|] == s;
  }

  // ---- forward ----

  /** Balanced text is scanned through with the stack unchanged. */
  lemma {:induction false} ForwardThrough(t: Tree, rest: string, stack: seq<char>)
    requires Proper(t) && stack != []
    ensures Forward(Text(t) + rest, stack) == Plus(|Text(t)|, Forward(rest, stack))
    decreases t
  {
    match t
    case Nothing => assert Text(t) + rest == rest;
    case Char(c, more) =>
      assert Text(t) + rest == [c] + (Text(more) + rest);
      ForwardOne(c, Text(more) + rest, stack);
      ForwardThrough(more, rest, stack);
    case Pair(o, inner, c, more) =>
      var tail := [c] + (Text(more) + rest);
      assert Text(t) + rest == [o] + (Text(inner) + tail);
      ForwardOne(o, Text(inner) + tail, stack);
      ForwardThrough(inner, tail, stack + [o]);
      ForwardOne(c, Text(more) + rest, stack + [o]);
      assert Popped(stack + [o]) == stack;
      ForwardThrough(more, rest, stack);
  }

  /** What a successful scan has read: balanced text, the closer of the stack's top, and what the rest of the stack makes of the rest. */
  ghost predicate Reads(s: string, stack: seq<char>, t: Tree, c: char, rest: string)
    requires stack != []
  {
    && s == Text(t) + [c] + rest && Proper(t) && Pairs(Top(stack), c)
    && Forward(s, stack) == if |stack| == 1 then Some(|Text(t)| + 1) else Plus(|Text(t)| + 1, Forward(rest, Popped(stack)))
  }

  lemma {:induction false} PairReads(o: char, s: string, stack: seq<char>, inner: Tree, close: char, mid: string,
                                     more: Tree, c: char, rest: string)
    requires Opener(o) && stack != [] && Reads(s, stack + [o], inner, close, mid) && Reads(mid, stack, more, c, rest)
    ensures Reads([o] + s, stack, Pair(o, inner, close, more), c, rest)
  {
    assert Top(stack + [o]) == o && Popped(stack + [o]) == stack;
    ForwardOne(o, s, stack);
    AroundMore(o, Text(inner), close, Text(more), c, rest);
  }

  lemma {:induction false} CharReads(first: char, s: string, stack: seq<char>, more: Tree, c: char, rest: string)
    requires Plain(first) && stack != [] && Reads(s, stack, more, c, rest)
    ensures Reads([first] + s, stack, Char(first, more), c, rest)
  {
    ForwardOne(first, s, stack);
    CharMore(first, Text(more), c, rest);
  }

  lemma {:induction false} CloserReads(c: char, s: string, stack: seq<char>)
    requires Closer(c) && stack != [] && Forward([c] + s, stack).Some?
    ensures Reads([c] + s, stack, Nothing, c, s)
  {
    ForwardOne(c, s, stack);
    assert "" + [c] + s == [c] + s;
  }

  lemma {:induction false} ForwardReads(s: string, stack: seq<char>) returns (t: Tree, c: char, rest: string)
    requires stack != [] && Forward(s, stack).Some?
    ensures Reads(s, stack, t, c, rest)
    decreases |s|
  {
    var first, s' := s[0], s[1..];
    assert s == [first] + s';
    ForwardOne(first, s', stack);
    if Opener(first) {
      var inner, close, mid := ForwardReads(s', stack + [first]);
      assert Popped(stack + [first]) == stack;
      var more;
      more, c, rest := ForwardReads(mid, stack);
      t := Pair(first, inner, close, more);
      PairReads(first, s', stack, inner, close, mid, more, c, rest);
    } else if Plain(first) {
      var more;
      more, c, rest := ForwardReads(s', stack);
      t := Char(first, more);
      CharReads(first, s', stack, more, c, rest);
    } else {
      t, c, rest := Nothing, first, s';
      CloserReads(first, s', stack);
    }
  }

  lemma ForwardOverBlock(o: char, inner: Tree, c: char, rest: string)
    requires Pairs(o, c) && Proper(inner)
    ensures Forward([o] + Text(inner) + [c] + rest, []) == Some(|Text(inner)| + 2)
  {
    var tail := [c] + rest;
    assert [o] + Text(inner) + [c] + rest == [o] + (Text(inner) + tail);
    ForwardOne(o, Text(inner) + tail, []);
    assert [] + [o] == [o];
    ForwardThrough(inner, tail, [o]);
    ForwardOne(c, rest, [o]);
  }

  lemma PairText(o: char, inner: Tree, c: char)
    ensures Text(Pair(o, inner, c, Nothing)) == [o] + Text(inner) + [c]
  {
    assert [o] + Text(inner) + [c] + "" == [o] + Text(inner) + [c];
  }

  lemma BlockOf(o: char, inner: Tree, c: char)
    requires Pairs(o, c) && Proper(inner)
    ensures Block([o] + Text(inner) + [c])
  {
    PairText(o, inner, c);
    assert Proper(Pair(o, inner, c, Nothing));
  }

  lemma BlockParts(s: string) returns (o: char, inner: Tree, c: char)
    requires Block(s)
    ensures Pairs(o, c) && Proper(inner) && s == [o] + Text(inner) + [c]
  {
    var t :| Proper(t) && t.Pair? && t.more.Nothing? && Text(t) == s;
    o, inner, c := t.open, t.inner, t.close;
    PairText(o, inner, c);
  }

  lemma ForwardFoundIsBlock(o: char, s: string)
    requires Opener(o) && Forward([o] + s, []).Some?
    ensures var k := Forward([o] + s, []).value; k <= |s| + 1 && Block(([o] + s)[..k])
  {
    ForwardOne(o, s, []);
    assert [] + [o] == [o];
    var inner, c, rest := ForwardReads(s, [o]);
    BlockOf(o, inner, c);
    TakeBlock(o, Text(inner), c, rest);
  }

  lemma ForwardFromBlock(b: string, rest: string)
    requires Block(b)
    ensures Forward(b + rest, []) == Some(|b|)
  {
    var o, inner, c := BlockParts(b);
    ForwardOverBlock(o, inner, c, rest);
  }

  /** From an opener, the forward scan finds exactly the end of the block that starts there. */
  lemma {:induction false} ForwardFindsBlock(s: string, k: nat)
    requires s != "" && Opener(s[0])
    ensures Forward(s, []) == Some(k) <==> k <= |s| && Block(s[..k])
  {
    assert s == [s[0]] + s[1..];
    if Forward(s, []) == Some(k) {
      ForwardFoundIsBlock(s[0], s[1..]);
    }
    if k <= |s| && Block(s[..k]) {
      ForwardFromBlock(s[..k], s[k..]);
      assert s == s[..k] + s[k..];
    }
  }

  // ---- backward ----

  lemma {:induction false} BackwardThrough(pre: string, t: Tree, stack: seq<char>)
    requires Proper(t) && stack != []
    ensures Backward(pre + Text(t), stack) == Backward(pre, stack)
    decreases t
  {
    match t
    case Nothing => assert pre + Text(t) == pre;
    case Char(c, more) =>
      assert pre + Text(t) == pre + [c] + Text(more);
      BackwardThrough(pre + [c], more, stack);
      BackwardOne(pre, c, stack);
    case Pair(o, inner, c, more) =>
      var pre' := pre + [o] + Text(inner) + [c];
      assert pre + Text(t) == pre' + Text(more);
      BackwardThrough(pre', more, stack);
      BackwardOne(pre + [o] + Text(inner), c, stack);
      BackwardThrough(pre + [o], inner, stack + [c]);
      BackwardOne(pre, o, stack + [c]);
      assert Popped(stack + [c]) == stack;
  }

  function Joined(a: Tree, b: Tree): Tree {
    match a
    case Nothing => b
    case Char(c, more) => Char(c, Joined(more, b))
    case Pair(o, inner, c, more) => Pair(o, inner, c, Joined(more, b))
  }

  lemma {:induction false} JoinedText(a: Tree, b: Tree)
    requires Proper(a) && Proper(b)
    ensures Proper(Joined(a, b)) && Text(Joined(a, b)) == Text(a) + Text(b)
    decreases a
  {
    match a
    case Nothing =>
    case Char(c, more) =>
      JoinedText(more, b);
      assert [c] + (Text(more) + Text(b)) == Text(a) + Text(b);
    case Pair(o, inner, c, more) =>
      JoinedText(more, b);
      assert [o] + Text(inner) + [c] + (Text(more) + Text(b)) == Text(a) + Text(b);
  }

  lemma {:induction false} BackwardReads(s: string, stack: seq<char>) returns (pre: string, o: char, t: Tree)
    requires stack != [] && Backward(s, stack).Some?
    ensures s == pre + [o] + Text(t) && Proper(t) && Pairs(o, Top(stack))
    ensures Backward(s, stack) == if |stack| == 1 then Some(|pre|) else Backward(pre, Popped(stack))
    decreases |s|
  {
    var s', last := s[..|s| - 1], s[|s| - 1];
    assert s == s' + [last];
    BackwardOne(s', last, stack);
    if Closer(last) {
      var mid, open, inner := BackwardReads(s', stack + [last]);
      assert Popped(stack + [last]) == stack;
      var before;
      pre, o, before := BackwardReads(mid, stack);
      var pair := Pair(open, inner, last, Nothing);
      JoinedText(before, pair);
      t := Joined(before, pair);
      BeforePair(pre, o, Text(before), open, Text(inner), last);
    } else if Plain(last) {
      var before;
      pre, o, before := BackwardReads(s', stack);
      JoinedText(before, Char(last, Nothing));
      t := Joined(before, Char(last, Nothing));
      assert s == pre + [o] + Text(t);
    } else {
      pre, o, t := s', last, Nothing;
      assert s == pre + [o] + Text(t);
    }
  }

  lemma {:induction false} BackwardOverBlock(pre: string, o: char, inner: Tree, c: char)
    requires Pairs(o, c) && Proper(inner)
    ensures Backward(pre + [o] + Text(inner) + [c], []) == Some(|pre|)
  {
    BackwardOne(pre + [o] + Text(inner), c, []);
    assert [] + [c] == [c];
    BackwardThrough(pre + [o], inner, [c]);
    BackwardOne(pre, o, [c]);
  }

  lemma {:induction false} BackwardFoundIsBlock(s: string, c: char)
    requires Closer(c) && Backward(s + [c], []).Some?
    ensures var i := Backward(s + [c], []).value; i <= |s| && Block((s + [c])[i..])
  {
    BackwardOne(s, c, []);
    assert [] + [c] == [c];
    var pre, o, inner := BackwardReads(s, [c]);
    BlockOf(o, inner, c);
    DropToBlock(pre, o, Text(inner), c);
  }

  lemma {:induction false} BackwardFromBlock(pre: string, b: string)
    requires Block(b)
    ensures Backward(pre + b, []) == Some(|pre|)
  {
    var o, inner, c := BlockParts(b);
    BackwardOverBlock(pre, o, inner, c);
    PrefixBlock(pre, o, Text(inner), c);
  }

  /** From a closer, the backward scan finds exactly the start of the block that ends there. */
  lemma {:induction false} BackwardFindsBlock(s: string, i: nat)
    requires s != "" && Closer(s[|s| - 1])
    ensures Backward(s, []) == Some(i) <==> i < |s| && Block(s[i..])
  {
    if Backward(s, []) == Some(i) {
      var n := |s| - 1;
      assert s == s[..n] + [s[n]];
      BackwardFoundIsBlock(s[..n], s[n]);
    } else if i < |s| && Block(s[i..]) {
      assert s == s[..i] + s[i..];
      BackwardFromBlock(s[..i], s[i..]);
    }
  }

  /**
   * The two scans are each other's inverse: from the opener at `i` the forward scan ends with the closer at `k` exactly
   * when from that closer the backward scan ends at that opener.
   */
  lemma ScansAreInverse(s: string, i: nat, k: nat)
    requires i < |s| && k < |s| && Opener(s[i]) && Closer(s[k])
    ensures (i <= k && Forward(s[i..], []) == Some(k + 1 - i)) <==> Backward(s[..k + 1], []) == Some(i)
  {
    BackwardFindsBlock(s[..k + 1], i);
    if i <= k {
      ForwardFindsBlock(s[i..], k + 1 - i);
      assert s[i..][..k + 1 - i] == s[..k + 1][i..];
    }
  }
}
