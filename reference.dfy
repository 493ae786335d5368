/** An independent reference for the whole calculator: expression trees, a
    fully parenthesised printer, the postfix order of a tree, and its value.
    The converter turns every printed tree into the tree's postfix order, and
    the evaluator computes the tree's value. */
module Reference {
  import opened Outcome
  import opened Classifier
  import opened JavaStrings
  import opened ShuntingYard
  import opened ScanConcat
  import opened PostfixMachine
  import opened PostfixMachineProperties
  import opened CalculatorModel

  datatype Expr = Num(n: nat) | Var(name: string) | Bin(op: char, left: Expr, right: Expr)

  /** Variable names are all letters and every operator is one of the five. */
  predicate WellFormed(e: Expr) {
    match e
    case Num(_) => true
    case Var(x) => AllLetters(x)
    case Bin(op, l, r) => IsOperator(op) && WellFormed(l) && WellFormed(r)
  }

  /** Every operation in parentheses, no spaces. */
  function Print(e: Expr): string {
    match e
    case Num(n) => Numeral(n)
    case Var(x) => x
    case Bin(op, l, r) => "(" + Print(l) + [op] + Print(r) + ")"
  }

  /** The postfix order: both operands, then the operator. */
  function Post(e: Expr): (ts: seq<string>)
    ensures ts != []
  {
    match e
    case Num(n) => [Numeral(n)]
    case Var(x) => [x]
    case Bin(op, l, r) => Post(l) + Post(r) + [[op]]
  }

  /** The value of a tree when every variable has the value `env` gives it:
      left operand first, then right, then the operator as `doAct` applies it. */
  function EvalAst(e: Expr, env: string -> real, lib: MathLib): Result<real> {
    match e
    case Num(n) => Ok(n as real)
    case Var(x) => Ok(env(x))
    case Bin(op, l, r) =>
      match EvalAst(l, env, lib)
      case Err(err) => Err(err)
      case Ok(a) =>
        match EvalAst(r, env, lib)
        case Err(err) => Err(err)
        case Ok(b) => DoAct(a, b, op, lib)
  }

  lemma PopWhileAtParen(stack: seq<char>, out: seq<string>, op: char)
    requires IsOperator(op)
    ensures PopWhile(stack + ['('], out, Priority(op)) == (stack + ['('], out)
  {
  }

  lemma PopUntilParenOverOperator(stack: seq<char>, out: seq<string>, op: char)
    requires IsOperator(op)
    ensures PopUntilParen(stack + ['(', op], out) == (stack + ['('], out + [[op]])
  {
    assert (stack + ['(', op])[..|stack| + 1] == stack + ['('];
  }

  /** The closing parenthesis of `( l op r )` emits `op` and removes the '('. */
  lemma ConsumeCloseOver(op: char, stack: seq<char>, out: seq<string>)
    requires IsOperator(op)
    ensures Consume(Scan(")", stack + ['(', op], out)) == Ok(Scan([], stack, out + [[op]]))
  {
    ConsumeClose(stack + ['(', op], out);
    PopUntilParenOverOperator(stack, out, op);
    assert (stack + ['('])[..|stack|] == stack;
  }

  /** An operator right after a '(' pops nothing. */
  lemma ConsumeOperatorThen(op: char, rest: string, stack: seq<char>, out: seq<string>)
    requires IsOperator(op)
    ensures Consume(Scan([op] + rest, stack + ['('], out)) == Consume(Scan(rest, stack + ['(', op], out))
  {
    ClassesDisjoint(op);
    ConsumeConcat([op], rest, stack + ['('], out);
    ConsumeOperator(op, stack + ['('], out);
    PopWhileAtParen(stack, out, op);
    assert stack + ['('] + [op] == stack + ['(', op];
  }

  lemma ConsumeOpenThen(rest: string, stack: seq<char>, out: seq<string>)
    ensures Consume(Scan("(" + rest, stack, out)) == Consume(Scan(rest, stack + ['('], out))
  {
    ConsumeConcat("(", rest, stack, out);
    ConsumeOpen(stack, out);
  }

  lemma AppendThree<T>(a: seq<T>, b: seq<T>, c: seq<T>, d: seq<T>)
    ensures a + b + c + d == a + (b + c + d)
  {
  }

  /** After `l`: the operator, `r` and the closing parenthesis. */
  lemma ConsumeOperatorRightClose(op: char, pr: string, postr: seq<string>, stack: seq<char>, out: seq<string>)
    requires IsOperator(op)
    requires Consume(Scan(pr, stack + ['(', op], out)) == Ok(Scan([], stack + ['(', op], out + postr))
    ensures Consume(Scan([op] + (pr + ")"), stack + ['('], out)) == Ok(Scan([], stack, out + postr + [[op]]))
  {
    ConsumeOperatorThen(op, pr + ")", stack, out);
    ConsumeConcat(pr, ")", stack + ['(', op], out);
    ConsumeCloseOver(op, stack, out + postr);
  }

  /** Scanning `( l op r )` from the scans of `l` and `r` inside the parenthesis. */
  lemma ConsumeParenthesised(op: char, pl: string, pr: string, postl: seq<string>, postr: seq<string>,
                             stack: seq<char>, out: seq<string>)
    requires IsOperator(op)
    requires Consume(Scan(pl, stack + ['('], out)) == Ok(Scan([], stack + ['('], out + postl))
    requires Consume(Scan(pr, stack + ['(', op], out + postl)) == Ok(Scan([], stack + ['(', op], out + postl + postr))
    ensures Consume(Scan("(" + pl + [op] + pr + ")", stack, out)) == Ok(Scan([], stack, out + (postl + postr + [[op]])))
  {
    var tail := [op] + (pr + ")");
    assert "(" + pl + [op] + pr + ")" == "(" + (pl + tail);
    ConsumeOpenThen(pl + tail, stack, out);
    ClassesDisjoint(op);
    ConsumeConcat(pl, tail, stack + ['('], out);
    ConsumeOperatorRightClose(op, pr, postr, stack, out + postl);
    AppendThree(out, postl, postr, [[op]]);
  }

  lemma ConsumeLeaf(e: Expr, stack: seq<char>, out: seq<string>)
    requires WellFormed(e) && !e.Bin?
    ensures Consume(Scan(Print(e), stack, out)) == Ok(Scan([], stack, out + Post(e)))
  {
    if e.Num? {
      ParseNumeral(e.n);
      ConsumeRun(Numeral(e.n), stack, out);
    } else {
      assert forall i :: 0 <= i < |e.name| ==> IsAlnum(e.name[i]);
      ConsumeRun(e.name, stack, out);
    }
  }

  /** Scanning a printed tree leaves the stack as it was and emits the tree's
      postfix order. */
  lemma {:induction false} ConsumePrint(e: Expr, stack: seq<char>, out: seq<string>)
    requires WellFormed(e)
    ensures Consume(Scan(Print(e), stack, out)) == Ok(Scan([], stack, out + Post(e)))
  {
    if e.Bin? {
      var op, l, r := e.op, e.left, e.right;
      ConsumePrint(l, stack + ['('], out);
      ConsumePrint(r, stack + ['(', op], out + Post(l));
      var pl, pr, postl, postr := Print(l), Print(r), Post(l), Post(r);
      ConsumeParenthesised(op, pl, pr, postl, postr, stack, out);
    } else {
      ConsumeLeaf(e, stack, out);
    }
  }

  /** The converter is right on fully parenthesised expressions. */
  lemma PostfixOfPrint(e: Expr)
    requires WellFormed(e)
    ensures PostfixTokens(Print(e)) == Ok(Post(e))
  {
    ConsumePrint(e, [], []);
    assert [] + Post(e) == Post(e);
    ConvertIsConsumeThenDrain(Scan(Print(e), [], []));
  }

  /** Running the postfix order of a tree pushes the tree's value. */
  lemma {:induction false} ExecEnvPost(e: Expr, stack: seq<real>, more: seq<string>, env: string -> real, lib: MathLib)
    requires WellFormed(e)
    ensures ExecEnv(stack, Post(e) + more, env, lib) == match EvalAst(e, env, lib)
      case Err(err) => Err(err)
      case Ok(v) => ExecEnv(stack + [v], more, env, lib)
  {
    match e
    case Num(n) =>
      ParseNumeral(n);
      assert ([Numeral(n)] + more)[1..] == more;
    case Var(x) =>
      assert !AllDigits(x) by { assert IsLetter(x[0]); }
      assert ([x] + more)[1..] == more;
    case Bin(op, l, r) =>
      assert Post(e) + more == Post(l) + (Post(r) + ([[op]] + more));
      ExecEnvPost(l, stack, Post(r) + ([[op]] + more), env, lib);
      if EvalAst(l, env, lib).Ok? {
        var a := EvalAst(l, env, lib).value;
        ExecEnvPost(r, stack + [a], [[op]] + more, env, lib);
        if EvalAst(r, env, lib).Ok? {
          var b := EvalAst(r, env, lib).value;
          var s := stack + [a] + [b];
          var t := [op];
          ClassesDisjoint(op);
          assert !AllDigits(t) && !AllLetters(t) by { assert !IsAlnum(t[0]); }
          assert ([t] + more)[1..] == more;
          assert s[..|s| - 2] == stack && s[|s| - 2] == a && s[|s| - 1] == b;
        }
      }
  }

  /** End to end for any text the converter turns into a tree's postfix
      order: when the input holds a value for every distinct variable and
      there are at most `Capacity` of them, the calculator returns the
      tree's value or its first error, with the k-th distinct variable in
      postfix order given the k-th input value. */
  lemma CalculateTree(text: string, e: Expr, input: seq<real>, lib: MathLib)
    requires WellFormed(e) && PostfixTokens(text) == Ok(Post(e))
    requires |NewNames([], Post(e))| <= |input| && |NewNames([], Post(e))| <= Capacity
    ensures Calculation(text, input, lib) == EvalAst(e, InputEnv(NewNames([], Post(e)), input), lib)
  {
    var env := InputEnv(NewNames([], Post(e)), input);
    CalculationRunsTokens(text, input, lib);
    RunInInputEnv(Post(e), input, lib);
    assert Post(e) + [] == Post(e);
    ExecEnvPost(e, [], [], env, lib);
  }

  /** The calculator on a fully parenthesised tree computes the tree's value,
      division by zero included. */
  lemma CalculatePrint(e: Expr, input: seq<real>, lib: MathLib)
    requires WellFormed(e)
    requires |NewNames([], Post(e))| <= |input| && |NewNames([], Post(e))| <= Capacity
    ensures Calculation(Print(e), input, lib) == EvalAst(e, InputEnv(NewNames([], Post(e)), input), lib)
  {
    PostfixOfPrint(e);
    CalculateTree(Print(e), e, input, lib);
  }
}
