/** The converter against the priorities themselves. `PrintPrec` writes a
    tree with only the parentheses the priorities and left grouping demand:
    a left operand whose root has lower priority than the operator, and a
    right operand whose root has at most its priority. Every such text
    converts to the tree's postfix order, so `1-2*3+4` is `(1-(2*3))+4` and
    `2^3^2` is `(2^3)^2`. */
module Precedence {
  import opened Outcome
  import opened Classifier
  import opened ShuntingYard
  import opened ScanConcat
  import opened PostfixMachine
  import opened PostfixMachineProperties
  import opened CalculatorModel
  import opened Reference

  predicate WrapLeft(op: char, l: Expr) {
    l.Bin? && Priority(l.op) < Priority(op)
  }

  predicate WrapRight(op: char, r: Expr) {
    r.Bin? && Priority(r.op) <= Priority(op)
  }

  function Paren(s: string, wrap: bool): string {
    if wrap then "(" + s + ")" else s
  }

  /** The fewest parentheses that keep the tree's grouping. */
  function PrintPrec(e: Expr): string {
    match e
    case Num(n) => Numeral(n)
    case Var(x) => x
    case Bin(op, l, r) => Paren(PrintPrec(l), WrapLeft(op, l)) + [op] + Paren(PrintPrec(r), WrapRight(op, r))
  }

  /** The operators still on the stack once the text of `e` is scanned: the
      root and the unparenthesised right spine below it. */
  function Pending(e: Expr): seq<char> {
    match e
    case Bin(op, l, r) => [op] + (if WrapRight(op, r) then [] else Pending(r))
    case _ => []
  }

  /** The tokens emitted by then: the postfix order without the pending operators. */
  function Partial(e: Expr): seq<string> {
    match e
    case Bin(op, l, r) => Post(l) + (if WrapRight(op, r) then Post(r) else Partial(r))
    case _ => Post(e)
  }

  /** The pending operators bind at least as tightly as the root, and popping
      them completes the postfix order. */
  lemma {:induction false} PendingShape(e: Expr)
    requires WellFormed(e)
    ensures !e.Bin? ==> Pending(e) == [] && Partial(e) == Post(e)
    ensures e.Bin? ==> forall k :: 0 <= k < |Pending(e)| ==>
      IsOperator(Pending(e)[k]) && Priority(Pending(e)[k]) >= Priority(e.op)
    ensures Partial(e) + Emitted(Pending(e)) == Post(e)
  {
    if e.Bin? {
      var op, l, r := e.op, e.left, e.right;
      PendingShape(r);
      var rest := if WrapRight(op, r) then [] else Pending(r);
      var done := if WrapRight(op, r) then Post(r) else Partial(r);
      PendingCompletes(Post(l), done, rest, op, Post(r));
      assert forall k :: 0 <= k < |rest| ==> IsOperator(rest[k]) && Priority(rest[k]) > Priority(op);
      assert Pending(e) == [op] + rest;
    }
  }

  /** Popping the root after the right operand's pending operators completes
      the postfix order. */
  lemma PendingCompletes(postl: seq<string>, done: seq<string>, rest: seq<char>, op: char, postr: seq<string>)
    requires done + Emitted(rest) == postr
    ensures postl + done + Emitted([op] + rest) == postl + postr + [[op]]
  {
    EmittedConcat([op], rest);
    assert Emitted([op]) == [[op]];
    AppendFour(postl, done, Emitted(rest), [[op]]);
  }

  lemma AppendFour<T>(a: seq<T>, b: seq<T>, c: seq<T>, d: seq<T>)
    ensures a + b + (c + d) == a + (b + c) + d
  {
  }

  lemma {:induction false} EmittedConcat(a: seq<char>, b: seq<char>)
    ensures Emitted(a + b) == Emitted(b) + Emitted(a)
    decreases |b|
  {
    if b == [] {
      assert a + b == a;
    } else {
      var b' := b[..|b| - 1];
      assert (a + b)[..|a + b| - 1] == a + b';
      EmittedConcat(a, b');
    }
  }

  /** A stack has one place where everything above binds at least as
      tightly as `p` and the entry below binds less tightly. */
  lemma CutPoint(s: seq<char>, n: nat, m: nat, p: int)
    requires n <= |s| && m <= |s|
    requires forall k :: n <= k < |s| ==> Priority(s[k]) >= p
    requires forall k :: m <= k < |s| ==> Priority(s[k]) >= p
    requires n == 0 || Priority(s[n - 1]) < p
    requires m == 0 || Priority(s[m - 1]) < p
    ensures n == m
  {
  }

  /** The prefix an operator's loop leaves is the stack below the segment. */
  lemma PrefixLands(stack: seq<char>, segment: seq<char>, kept: seq<char>, p: int)
    requires stack == [] || Priority(Top(stack)) < p
    requires forall k :: 0 <= k < |segment| ==> Priority(segment[k]) >= p
    requires kept <= stack + segment
    requires forall k :: |kept| <= k < |stack + segment| ==> Priority((stack + segment)[k]) >= p
    requires kept == [] || Priority(Top(kept)) < p
    ensures kept == stack
  {
    var s := stack + segment;
    assert kept != [] ==> Top(kept) == s[|kept| - 1];
    assert stack != [] ==> s[|stack| - 1] == Top(stack);
    assert forall k :: |stack| <= k < |s| ==> s[k] == segment[k - |stack|];
    CutPoint(s, |kept|, |stack|, p);
  }

  /** An operator of priority `p` pops a segment binding at least as tightly
      and stops at a stack whose top binds less tightly. */
  lemma PopWhileLands(stack: seq<char>, segment: seq<char>, out: seq<string>, p: int)
    requires stack == [] || Priority(Top(stack)) < p
    requires forall k :: 0 <= k < |segment| ==> Priority(segment[k]) >= p
    ensures PopWhile(stack + segment, out, p) == (stack, out + Emitted(segment))
  {
    var r := PopWhile(stack + segment, out, p);
    PrefixLands(stack, segment, r.0, p);
    assert (stack + segment)[|stack|..] == segment;
  }

  /** A ')' pops a segment of operators down to the '(' below it. */
  lemma PopUntilParenLands(stack: seq<char>, segment: seq<char>, out: seq<string>)
    requires forall k :: 0 <= k < |segment| ==> IsOperator(segment[k])
    ensures PopUntilParen(stack + ['('] + segment, out) == (stack + ['('], out + Emitted(segment))
  {
    var s := stack + ['('] + segment;
    var r := PopUntilParen(s, out);
    assert s[|stack|] == '(';
    assert forall k :: |stack| + 1 <= k < |s| ==> s[k] == segment[k - |stack| - 1];
    assert r.0 != [] ==> Top(r.0) == s[|r.0| - 1];
    assert r.0 == s[..|r.0|];
    assert |r.0| == |stack| + 1;
    assert r.0 == stack + ['('];
    assert s[|stack| + 1..] == segment;
  }

  /** The stack below an unparenthesised operator binds less tightly. */
  predicate Below(stack: seq<char>, e: Expr) {
    e.Bin? ==> stack == [] || Priority(Top(stack)) < Priority(e.op)
  }

  /** Scanning `a` and then `b`, when no run crosses the seam. */
  lemma ConsumeThen(a: string, b: string, stack: seq<char>, out: seq<string>, stack': seq<char>, out': seq<string>)
    requires Seam(a, b) && Consume(Scan(a, stack, out)) == Ok(Scan([], stack', out'))
    ensures Consume(Scan(a + b, stack, out)) == Consume(Scan(b, stack', out'))
  {
    ConsumeConcat(a, b, stack, out);
  }

  lemma ParenText(s: string)
    ensures "(" + s + ")" == "(" + (s + ")")
  {
  }

  /** Scanning the text of `e` over a stack that binds less tightly leaves the
      stack with the pending operators on top and emits the partial order. */
  lemma {:induction false} ConsumePrec(e: Expr, stack: seq<char>, out: seq<string>)
    requires WellFormed(e) && Below(stack, e)
    ensures Consume(Scan(PrintPrec(e), stack, out)) == Ok(Scan([], stack + Pending(e), out + Partial(e)))
    decreases e, 0
  {
    match e
    case Num(n) =>
      ConsumeLeaf(e, stack, out);
      assert stack + [] == stack;
    case Var(x) =>
      ConsumeLeaf(e, stack, out);
      assert stack + [] == stack;
    case Bin(op, l, r) =>
      var left := Paren(PrintPrec(l), WrapLeft(op, l)) + [op];
      var right := Paren(PrintPrec(r), WrapRight(op, r));
      ClassesDisjoint(op);
      assert Seam(left, right) by {
        assert left[|left| - 1] == op;
      }
      ConsumeLeftOperator(op, l, stack, out);
      ConsumeThen(left, right, stack, out, stack + [op], out + Post(l));
      ConsumeSide(r, WrapRight(op, r), stack + [op], out + Post(l));
      AppendAssoc(stack, [op], if WrapRight(op, r) then [] else Pending(r));
      AppendAssoc(out, Post(l), if WrapRight(op, r) then Post(r) else Partial(r));
  }

  /** The left operand's pending operators bind at least as tightly as `op`,
      and popping them completes its postfix order. */
  lemma LeftSegment(op: char, l: Expr)
    requires IsOperator(op) && WellFormed(l)
    ensures var segment := if WrapLeft(op, l) then [] else Pending(l);
      forall k :: 0 <= k < |segment| ==> Priority(segment[k]) >= Priority(op)
    ensures (if WrapLeft(op, l) then Post(l) else Partial(l)) + Emitted(if WrapLeft(op, l) then [] else Pending(l)) == Post(l)
  {
    PendingShape(l);
  }

  /** The operator pops the segment and waits on the stack. */
  lemma ConsumeOperatorOver(op: char, stack: seq<char>, segment: seq<char>, out: seq<string>)
    requires IsOperator(op)
    requires stack == [] || Priority(Top(stack)) < Priority(op)
    requires forall k :: 0 <= k < |segment| ==> Priority(segment[k]) >= Priority(op)
    ensures Consume(Scan([op], stack + segment, out)) == Ok(Scan([], stack + [op], out + Emitted(segment)))
  {
    PopWhileLands(stack, segment, out, Priority(op));
    ConsumeOperator(op, stack + segment, out);
  }

  /** An operand whose scan leaves `segment` pending, then an operator that
      binds no more tightly than the segment and more than the stack below. */
  lemma OperandThenOperator(text: string, op: char, stack: seq<char>, segment: seq<char>,
                            done: seq<string>, whole: seq<string>, out: seq<string>)
    requires IsOperator(op) && (stack == [] || Priority(Top(stack)) < Priority(op))
    requires forall k :: 0 <= k < |segment| ==> Priority(segment[k]) >= Priority(op)
    requires Consume(Scan(text, stack, out)) == Ok(Scan([], stack + segment, out + done))
    requires done + Emitted(segment) == whole
    ensures Consume(Scan(text + [op], stack, out)) == Ok(Scan([], stack + [op], out + whole))
  {
    ClassesDisjoint(op);
    ConsumeThen(text, [op], stack, out, stack + segment, out + done);
    ConsumeOperatorOver(op, stack, segment, out + done);
    AppendAssoc(out, done, Emitted(segment));
  }

  /** The left operand and the operator after it: the operator pops the
      left operand's pending operators and waits on the stack. */
  lemma {:induction false} ConsumeLeftOperator(op: char, l: Expr, stack: seq<char>, out: seq<string>)
    requires IsOperator(op) && WellFormed(l)
    requires stack == [] || Priority(Top(stack)) < Priority(op)
    ensures Consume(Scan(Paren(PrintPrec(l), WrapLeft(op, l)) + [op], stack, out)) == Ok(Scan([], stack + [op], out + Post(l)))
    decreases l, 4
  {
    var wrap := WrapLeft(op, l);
    ConsumeSide(l, wrap, stack, out);
    LeftSegment(op, l);
    OperandThenOperator(Paren(PrintPrec(l), wrap), op, stack, if wrap then [] else Pending(l),
                        if wrap then Post(l) else Partial(l), Post(l), out);
  }

  /** An operand as it is written: parenthesised or not. */
  lemma {:induction false} ConsumeSide(c: Expr, wrap: bool, stack: seq<char>, out: seq<string>)
    requires WellFormed(c) && (!wrap ==> Below(stack, c))
    ensures Consume(Scan(Paren(PrintPrec(c), wrap), stack, out)) ==
      Ok(Scan([], stack + (if wrap then [] else Pending(c)), out + (if wrap then Post(c) else Partial(c))))
    decreases c, 3
  {
    if wrap {
      ConsumeWrapped(c, stack, out);
      assert stack + [] == stack;
    } else {
      ConsumePrec(c, stack, out);
    }
  }

  /** A ')' over a segment of operators above a '(' pops the segment and the '('. */
  lemma CloseOverSegment(stack: seq<char>, segment: seq<char>, out: seq<string>)
    requires forall k :: 0 <= k < |segment| ==> IsOperator(segment[k])
    ensures Consume(Scan(")", stack + ['('] + segment, out)) == Ok(Scan([], stack, out + Emitted(segment)))
  {
    PopUntilParenLands(stack, segment, out);
    ConsumeClose(stack + ['('] + segment, out);
    assert (stack + ['('])[..|stack|] == stack;
  }

  /** The inside of a parenthesis and the ')' that closes it. */
  lemma InsideThenClose(text: string, stack: seq<char>, segment: seq<char>, done: seq<string>, out: seq<string>)
    requires forall k :: 0 <= k < |segment| ==> IsOperator(segment[k])
    requires Consume(Scan(text, stack + ['('], out)) == Ok(Scan([], stack + ['('] + segment, out + done))
    ensures Consume(Scan(text + ")", stack + ['('], out)) == Ok(Scan([], stack, out + done + Emitted(segment)))
  {
    ConsumeThen(text, ")", stack + ['('], out, stack + ['('] + segment, out + done);
    CloseOverSegment(stack, segment, out + done);
  }

  /** A parenthesised text whose scan leaves a segment of operators above the '('. */
  lemma WrappedText(text: string, stack: seq<char>, segment: seq<char>, done: seq<string>, whole: seq<string>, out: seq<string>)
    requires forall k :: 0 <= k < |segment| ==> IsOperator(segment[k])
    requires Consume(Scan(text, stack + ['('], out)) == Ok(Scan([], stack + ['('] + segment, out + done))
    requires done + Emitted(segment) == whole
    ensures Consume(Scan("(" + text + ")", stack, out)) == Ok(Scan([], stack, out + whole))
  {
    ParenText(text);
    ConsumeOpenThen(text + ")", stack, out);
    InsideThenClose(text, stack, segment, done, out);
    AppendAssoc(out, done, Emitted(segment));
  }

  /** A parenthesised operand restores the stack and emits its postfix order. */
  lemma {:induction false} ConsumeWrapped(c: Expr, stack: seq<char>, out: seq<string>)
    requires WellFormed(c)
    ensures Consume(Scan("(" + PrintPrec(c) + ")", stack, out)) == Ok(Scan([], stack, out + Post(c)))
    decreases c, 2
  {
    ConsumePrecInParen(c, stack, out);
    PendingIsOperators(c);
    WrappedText(PrintPrec(c), stack, Pending(c), Partial(c), Post(c), out);
  }

  lemma PendingIsOperators(c: Expr)
    requires WellFormed(c)
    ensures forall k :: 0 <= k < |Pending(c)| ==> IsOperator(Pending(c)[k])
    ensures Partial(c) + Emitted(Pending(c)) == Post(c)
  {
    PendingShape(c);
  }

  lemma {:induction false} ConsumePrecInParen(c: Expr, stack: seq<char>, out: seq<string>)
    requires WellFormed(c)
    ensures Consume(Scan(PrintPrec(c), stack + ['('], out)) == Ok(Scan([], stack + ['('] + Pending(c), out + Partial(c)))
    decreases c, 1
  {
    ConsumePrec(c, stack + ['('], out);
  }

  /** The converter follows the priorities: every tree written with the
      fewest parentheses converts to its postfix order. */
  lemma PostfixOfPrintPrec(e: Expr)
    requires WellFormed(e)
    ensures PostfixTokens(PrintPrec(e)) == Ok(Post(e))
  {
    ConsumePrec(e, [], []);
    EmptyThen(Pending(e));
    EmptyThen(Partial(e));
    PendingIsOperators(e);
    ConvertFromConsume(PrintPrec(e), Pending(e), Partial(e), Post(e));
  }

  /** A scan from the start that leaves only operators on the stack: the drain
      pops them all. */
  lemma ConvertFromConsume(text: string, segment: seq<char>, done: seq<string>, whole: seq<string>)
    requires forall k :: 0 <= k < |segment| ==> IsOperator(segment[k])
    requires Consume(Scan(text, [], [])) == Ok(Scan([], segment, done))
    requires done + Emitted(segment) == whole
    ensures PostfixTokens(text) == Ok(whole)
  {
    ConvertIsConsumeThenDrain(Scan(text, [], []));
    assert '(' !in segment by {
      assert forall k :: 0 <= k < |segment| ==> segment[k] != '(';
    }
  }

  /** The calculator on a tree written with the fewest parentheses computes
      the tree's value, errors included. */
  lemma CalculatePrintPrec(e: Expr, input: seq<real>, lib: MathLib)
    requires WellFormed(e)
    requires |NewNames([], Post(e))| <= |input| && |NewNames([], Post(e))| <= Capacity
    ensures Calculation(PrintPrec(e), input, lib) == EvalAst(e, InputEnv(NewNames([], Post(e)), input), lib)
  {
    PostfixOfPrintPrec(e);
    CalculateTree(PrintPrec(e), e, input, lib);
  }

  /** The tree of `1-2*3+4`. */
  function MixedTree(): Expr {
    Bin('+', Bin('-', Num(1), Bin('*', Num(2), Num(3))), Num(4))
  }

  lemma MixedTreeText()
    ensures PrintPrec(MixedTree()) == "1-2*3+4"
  {
    Digits();
    assert PrintPrec(Bin('*', Num(2), Num(3))) == "2*3";
    assert PrintPrec(Bin('-', Num(1), Bin('*', Num(2), Num(3)))) == "1-2*3";
  }

  lemma MixedTreePost()
    ensures Post(MixedTree()) == ["1", "2", "3", "*", "-", "4", "+"]
  {
    Digits();
  }

  /** `1-2*3+4` is `(1-(2*3))+4`. */
  lemma MixedPriorities()
    ensures PostfixTokens("1-2*3+4") == Ok(["1", "2", "3", "*", "-", "4", "+"])
  {
    MixedTreeText();
    MixedTreePost();
    PostfixOfPrintPrec(MixedTree());
  }

  /** The tree of `(1+2)*3^2-4`. */
  function LeftParenTree(): Expr {
    Bin('-', Bin('*', Bin('+', Num(1), Num(2)), Bin('^', Num(3), Num(2))), Num(4))
  }

  lemma Digits()
    ensures Numeral(1) == "1" && Numeral(2) == "2" && Numeral(3) == "3" && Numeral(4) == "4"
  {
  }

  lemma ProductText()
    ensures PrintPrec(Bin('*', Bin('+', Num(1), Num(2)), Bin('^', Num(3), Num(2)))) == "(1+2)*3^2"
  {
    Digits();
    assert PrintPrec(Bin('+', Num(1), Num(2))) == "1+2";
    assert PrintPrec(Bin('^', Num(3), Num(2))) == "3^2";
    assert Paren("1+2", true) + "*" + Paren("3^2", false) == "(1+2)*3^2";
  }

  lemma NoNames(es: seq<string>)
    requires forall k :: 0 <= k < |es| ==> es[k] != [] && !IsLetter(es[k][0])
    ensures NewNames([], es) == []
    decreases |es|
  {
    if es != [] {
      NoNames(es[1..]);
    }
  }

  lemma LeftParenTreeText()
    ensures PrintPrec(LeftParenTree()) == "(1+2)*3^2-4"
  {
    ProductText();
    Digits();
    assert PrintPrec(LeftParenTree()) == "(1+2)*3^2" + "-" + "4";
  }

  lemma LeftParenTreePost()
    ensures Post(LeftParenTree()) == ["1", "2", "+", "3", "2", "^", "*", "4", "-"]
  {
    Digits();
  }

  lemma LeftParenTreeNames()
    ensures NewNames([], Post(LeftParenTree())) == []
  {
    LeftParenTreePost();
    NoNames(Post(LeftParenTree()));
  }

  /** The value of the tree, with the library's `pow`. */
  lemma LeftParenTreeValue(env: string -> real, lib: MathLib)
    ensures EvalAst(LeftParenTree(), env, lib) == Ok(3.0 * lib.pow(3.0, 2.0) - 4.0)
  {
    var sum := Bin('+', Num(1), Num(2));
    var power := Bin('^', Num(3), Num(2));
    assert EvalAst(sum, env, lib) == Ok(3.0);
    assert EvalAst(power, env, lib) == Ok(lib.pow(3.0, 2.0));
    assert EvalAst(Bin('*', sum, power), env, lib) == Ok(3.0 * lib.pow(3.0, 2.0));
  }

  lemma LeftParenTreeCalculation(text: string, lib: MathLib)
    requires PostfixTokens(text) == Ok(Post(LeftParenTree()))
    ensures Calculation(text, [], lib) == Ok(3.0 * lib.pow(3.0, 2.0) - 4.0)
  {
    LeftParenTreeNames();
    CalculateTree(text, LeftParenTree(), [], lib);
    LeftParenTreeValue(InputEnv([], []), lib);
  }

  /** `(1+2)*3^2-4` is `((1+2)*(3^2))-4`, evaluated with the library's `pow`. */
  lemma ParenthesisedOperand(lib: MathLib)
    ensures PostfixTokens("(1+2)*3^2-4") == Ok(["1", "2", "+", "3", "2", "^", "*", "4", "-"])
    ensures Calculation("(1+2)*3^2-4", [], lib) == Ok(3.0 * lib.pow(3.0, 2.0) - 4.0)
  {
    LeftParenTreeText();
    LeftParenTreePost();
    PostfixOfPrintPrec(LeftParenTree());
    LeftParenTreeCalculation("(1+2)*3^2-4", lib);
  }
}
