/** The cases of the repository's test class, worked through the model one
    step at a time. Each conversion example cuts its expression into pieces
    that no run of digits and letters crosses, and scans them in turn; each
    evaluation example runs the machine one element at a time. */
module Examples {
  import opened Outcome
  import opened Classifier
  import opened JavaStrings
  import opened ShuntingYard
  import opened ScanConcat
  import opened PostfixMachine
  import opened PostfixMachineProperties
  import opened CalculatorModel
  import Evaluator

  /** An operator between two spaces scans like the operator alone. */
  lemma SpacedOperator(op: char, stack: seq<char>, out: seq<string>)
    requires IsOperator(op)
    ensures var p := PopWhile(stack, out, Priority(op));
      Consume(Scan([' ', op, ' '], stack, out)) == Ok(Scan([], p.0 + [op], p.1))
  {
    var p := PopWhile(stack, out, Priority(op));
    assert [' ', op, ' '] == " " + ([op] + " ");
    ConsumeConcat(" ", [op] + " ", stack, out);
    ConsumeSpace(stack, out);
    ClassesDisjoint(op);
    ConsumeConcat([op], " ", stack, out);
    ConsumeOperator(op, stack, out);
    ConsumeSpace(p.0 + [op], p.1);
  }

  // testToPostfix: "3 + 2 * (5 - x)", cut after every run and operator.

  const ToPostfixPieces: seq<string> := ["3", " + ", "2", " * (", "5", " - ", "x", ")"]

  lemma ToPostfixGlue()
    ensures Glue(ToPostfixPieces) == "3 + 2 * (5 - x)"
  {
    var ps := ToPostfixPieces;
    assert Glue(ps[8..]) == "";
    assert Glue(ps[7..]) == ")";
    assert Glue(ps[6..]) == "x)";
    assert Glue(ps[5..]) == " - x)";
    assert Glue(ps[4..]) == "5 - x)";
    assert Glue(ps[3..]) == " * (5 - x)";
    assert Glue(ps[2..]) == "2 * (5 - x)";
    assert Glue(ps[1..]) == " + 2 * (5 - x)";
  }

  lemma ToPostfixSeparated()
    ensures Separated(ToPostfixPieces)
  {
    var ps := ToPostfixPieces;
    assert forall i :: 0 <= i < |ps| - 1 ==> !IsAlnum(ps[i][|ps[i]| - 1]) || !IsAlnum(ps[i + 1][0]) by {
      assert !IsAlnum(' ') && !IsAlnum('(') && !IsAlnum(')');
    }
  }

  lemma ToPostfix0() ensures Consume(Scan(ToPostfixPieces[0], [], [])) == Ok(Scan([], [], ["3"])) {
    assert ToPostfixPieces[0] == "3";
    ConsumeRun("3", [], []);
    assert [] + ["3"] == ["3"];
  }

  lemma ToPostfix1() ensures Consume(Scan(ToPostfixPieces[1], [], ["3"])) == Ok(Scan([], ['+'], ["3"])) {
    assert ToPostfixPieces[1] == [' ', '+', ' '];
    SpacedOperator('+', [], ["3"]);
    assert [] + ['+'] == ['+'];
  }

  lemma ToPostfix2() ensures Consume(Scan(ToPostfixPieces[2], ['+'], ["3"])) == Ok(Scan([], ['+'], ["3", "2"])) {
    assert ToPostfixPieces[2] == "2";
    ConsumeRun("2", ['+'], ["3"]);
    assert ["3"] + ["2"] == ["3", "2"];
  }

  lemma ToPostfix3()
    ensures Consume(Scan(ToPostfixPieces[3], ['+'], ["3", "2"])) == Ok(Scan([], ['+', '*', '('], ["3", "2"]))
  {
    assert ToPostfixPieces[3] == [' ', '*', ' '] + "(";
    assert !IsAlnum(' ');
    ConsumeConcat([' ', '*', ' '], "(", ['+'], ["3", "2"]);
    SpacedOperator('*', ['+'], ["3", "2"]);
    assert PopWhile(['+'], ["3", "2"], 2) == (['+'], ["3", "2"]);
    ConsumeOpen(['+', '*'], ["3", "2"]);
    assert ['+'] + ['*'] == ['+', '*'] && ['+', '*'] + ['('] == ['+', '*', '('];
  }

  lemma ToPostfix4()
    ensures Consume(Scan(ToPostfixPieces[4], ['+', '*', '('], ["3", "2"])) == Ok(Scan([], ['+', '*', '('], ["3", "2", "5"]))
  {
    assert ToPostfixPieces[4] == "5";
    ConsumeRun("5", ['+', '*', '('], ["3", "2"]);
    assert ["3", "2"] + ["5"] == ["3", "2", "5"];
  }

  lemma ToPostfix5()
    ensures Consume(Scan(ToPostfixPieces[5], ['+', '*', '('], ["3", "2", "5"])) ==
      Ok(Scan([], ['+', '*', '(', '-'], ["3", "2", "5"]))
  {
    assert ToPostfixPieces[5] == [' ', '-', ' '];
    SpacedOperator('-', ['+', '*', '('], ["3", "2", "5"]);
    assert PopWhile(['+', '*', '('], ["3", "2", "5"], 1) == (['+', '*', '('], ["3", "2", "5"]);
    assert ['+', '*', '('] + ['-'] == ['+', '*', '(', '-'];
  }

  lemma ToPostfix6()
    ensures Consume(Scan(ToPostfixPieces[6], ['+', '*', '(', '-'], ["3", "2", "5"])) ==
      Ok(Scan([], ['+', '*', '(', '-'], ["3", "2", "5", "x"]))
  {
    assert ToPostfixPieces[6] == "x";
    ConsumeRun("x", ['+', '*', '(', '-'], ["3", "2", "5"]);
    assert ["3", "2", "5"] + ["x"] == ["3", "2", "5", "x"];
  }

  lemma ToPostfix7()
    ensures Consume(Scan(ToPostfixPieces[7], ['+', '*', '(', '-'], ["3", "2", "5", "x"])) ==
      Ok(Scan([], ['+', '*'], ["3", "2", "5", "x", "-"]))
  {
    assert ToPostfixPieces[7] == ")";
    ConsumeClose(['+', '*', '(', '-'], ["3", "2", "5", "x"]);
    assert PopUntilParen(['+', '*', '(', '-'], ["3", "2", "5", "x"]) == (['+', '*', '('], ["3", "2", "5", "x", "-"]) by {
      assert ['+', '*', '(', '-'][..3] == ['+', '*', '('];
      assert ["3", "2", "5", "x"] + [['-']] == ["3", "2", "5", "x", "-"];
    }
    assert ['+', '*', '('][..2] == ['+', '*'];
  }

  lemma ToPostfixDrain()
    ensures Drain(['+', '*'], ["3", "2", "5", "x", "-"]) == Ok(["3", "2", "5", "x", "-", "*", "+"])
  {
    assert ['+', '*'][..1] == ['+'] && ['+'][..0] == [];
    assert ["3", "2", "5", "x", "-"] + [['*']] == ["3", "2", "5", "x", "-", "*"];
    assert ["3", "2", "5", "x", "-", "*"] + [['+']] == ["3", "2", "5", "x", "-", "*", "+"];
    assert Drain(['+'], ["3", "2", "5", "x", "-", "*"]) == Ok(["3", "2", "5", "x", "-", "*", "+"]);
  }

  /** testToPostfix. */
  lemma TestToPostfix()
    ensures PostfixTokens("3 + 2 * (5 - x)") == Ok(["3", "2", "5", "x", "-", "*", "+"])
  {
    var ps := ToPostfixPieces;
    ToPostfixGlue();
    ToPostfixSeparated();
    ConsumeGlue(ps, [], []);
    ConvertIsConsumeThenDrain(Scan("3 + 2 * (5 - x)", [], []));
    ToPostfix0();
    ScanPiecesAt(ps, 0, [], [], [], ["3"]);
    ToPostfix1();
    ScanPiecesAt(ps, 1, [], ["3"], ['+'], ["3"]);
    ToPostfix2();
    ScanPiecesAt(ps, 2, ['+'], ["3"], ['+'], ["3", "2"]);
    ToPostfix3();
    ScanPiecesAt(ps, 3, ['+'], ["3", "2"], ['+', '*', '('], ["3", "2"]);
    ToPostfix4();
    ScanPiecesAt(ps, 4, ['+', '*', '('], ["3", "2"], ['+', '*', '('], ["3", "2", "5"]);
    ToPostfix5();
    ScanPiecesAt(ps, 5, ['+', '*', '('], ["3", "2", "5"], ['+', '*', '(', '-'], ["3", "2", "5"]);
    ToPostfix6();
    ScanPiecesAt(ps, 6, ['+', '*', '(', '-'], ["3", "2", "5"], ['+', '*', '(', '-'], ["3", "2", "5", "x"]);
    ToPostfix7();
    ScanPiecesAt(ps, 7, ['+', '*', '(', '-'], ["3", "2", "5", "x"], ['+', '*'], ["3", "2", "5", "x", "-"]);
    assert ps[8..] == [];
    ToPostfixDrain();
  }

  /** testToPostfix compares the trimmed string. */
  lemma TestToPostfixText()
    ensures PostfixText("3 + 2 * (5 - x)") == Ok("3 2 5 x - * +")
  {
    TestToPostfix();
    ToPostfixJoin();
  }

  lemma ToPostfixJoin()
    ensures Join(["3", "2", "5", "x", "-", "*", "+"]) == "3 2 5 x - * +"
  {
    ToPostfixJoinFrom2();
    assert ["3", "2", "5", "x", "-", "*", "+"][1..] == ["2", "5", "x", "-", "*", "+"];
  }

  lemma ToPostfixJoinFrom2()
    ensures Join(["2", "5", "x", "-", "*", "+"]) == "2 5 x - * +"
  {
    ToPostfixJoinFrom5();
    assert ["2", "5", "x", "-", "*", "+"][1..] == ["5", "x", "-", "*", "+"];
  }

  lemma ToPostfixJoinFrom5()
    ensures Join(["5", "x", "-", "*", "+"]) == "5 x - * +"
  {
    ToPostfixJoinFromX();
    assert ["5", "x", "-", "*", "+"][1..] == ["x", "-", "*", "+"];
  }

  lemma ToPostfixJoinFromX()
    ensures Join(["x", "-", "*", "+"]) == "x - * +"
  {
    OperatorTailJoin();
    assert ["x", "-", "*", "+"][1..] == ["-", "*", "+"];
  }

  /** The operators that end both postfix strings. */
  lemma OperatorTailJoin()
    ensures Join(["-", "*", "+"]) == "- * +"
  {
    assert Join(["+"]) == "+";
    assert Join(["*", "+"]) == "* +" by { assert ["*", "+"][1..] == ["+"]; }
    assert ["-", "*", "+"][1..] == ["*", "+"];
  }

  /** The run of the elements from the `k`-th on, one element at a time. */
  lemma ExecAt(es: seq<string>, k: nat, e: string, m: Machine, m': Machine, lib: MathLib)
    requires k < |es| && es[k] == e && TableShape(m) && PostfixMachine.Step(m, e, lib) == Ok(m')
    ensures Exec(m, es[k..], lib) == Exec(m', es[k + 1..], lib)
  {
    assert es[k..][0] == es[k] && es[k..][1..] == es[k + 1..];
  }

  /** A one-digit number is pushed, whatever the table holds. */
  lemma StepDigit(stack: seq<real>, names: seq<string>, values: seq<real>, pending: seq<real>, d: char, lib: MathLib)
    requires |names| == |values| <= Capacity && IsDigit(d)
    ensures PostfixMachine.Step(Machine(stack, names, values, pending), [d], lib) ==
      Ok(Machine(stack + [DigitValue(d) as real], names, values, pending))
  {
    assert AllDigits([d]);
    assert [d][..0] == [] && [d][0] == d;
    assert ParseNumber([d]) == DigitValue(d);
  }

  /** An operator replaces the two top values, whatever the table holds. */
  lemma StepOperatorOn(below: seq<real>, a: real, b: real, names: seq<string>, values: seq<real>, pending: seq<real>,
                       op: char, v: real, lib: MathLib)
    requires |names| == |values| <= Capacity && IsOperator(op) && DoAct(a, b, op, lib) == Ok(v)
    ensures PostfixMachine.Step(Machine(below + [a, b], names, values, pending), [op], lib) ==
      Ok(Machine(below + [v], names, values, pending))
  {
    ClassesDisjoint(op);
    assert !AllDigits([op]) && !AllLetters([op]) by { assert !IsDigit([op][0]) && !IsLetter([op][0]); }
    var s := below + [a, b];
    assert s[..|s| - 2] == below && s[|s| - 2] == a && s[|s| - 1] == b;
  }

  // testDoPostfix: "3 2 5 2 - * +", no variable, so the input "2" stays unread.

  const DoPostfixTokens: seq<string> := ["3", "2", "5", "2", "-", "*", "+"]

  lemma DoPostfixSplit()
    ensures SplitWhitespace("3 2 5 2 - * +") == DoPostfixTokens
  {
    var ts := DoPostfixTokens;
    assert Join(ts) == "3 2 5 2 - * +";
    assert AllSolid(ts) by {
      forall k | 0 <= k < |ts| ensures Solid(ts[k]) {
        assert |ts[k]| == 1 && ts[k][0] > ' ';
      }
    }
    SplitJoin(ts);
  }

  /** The shared tail of both runs: `- * +` on 3, 2, 5, 2 leaves 9. */
  lemma ArithmeticTail(es: seq<string>, names: seq<string>, values: seq<real>, pending: seq<real>, lib: MathLib)
    requires |es| == 7 && es[4] == "-" && es[5] == "*" && es[6] == "+"
    requires |names| == |values| <= Capacity
    ensures Exec(Machine([3.0, 2.0, 5.0, 2.0], names, values, pending), es[4..], lib) ==
      Ok(Machine([9.0], names, values, pending))
  {
    StepOperatorOn([3.0, 2.0], 5.0, 2.0, names, values, pending, '-', 3.0, lib);
    assert [3.0, 2.0] + [5.0, 2.0] == [3.0, 2.0, 5.0, 2.0];
    ExecAt(es, 4, "-", Machine([3.0, 2.0, 5.0, 2.0], names, values, pending), Machine([3.0, 2.0] + [3.0], names, values, pending), lib);
    StepOperatorOn([3.0], 2.0, 3.0, names, values, pending, '*', 6.0, lib);
    assert [3.0] + [2.0, 3.0] == [3.0, 2.0] + [3.0];
    ExecAt(es, 5, "*", Machine([3.0, 2.0] + [3.0], names, values, pending), Machine([3.0] + [6.0], names, values, pending), lib);
    StepOperatorOn([], 3.0, 6.0, names, values, pending, '+', 9.0, lib);
    assert [] + [3.0, 6.0] == [3.0] + [6.0] && [] + [9.0] == [9.0];
    ExecAt(es, 6, "+", Machine([3.0] + [6.0], names, values, pending), Machine([9.0], names, values, pending), lib);
    assert es[7..] == [];
  }

  /** The shared head of both runs: 3, 2 and 5 are pushed. */
  lemma NumbersHead(es: seq<string>, names: seq<string>, values: seq<real>, pending: seq<real>, lib: MathLib)
    requires |es| == 7 && es[0] == "3" && es[1] == "2" && es[2] == "5"
    requires |names| == |values| <= Capacity
    ensures Exec(Machine([], names, values, pending), es, lib) ==
      Exec(Machine([3.0, 2.0, 5.0], names, values, pending), es[3..], lib)
  {
    StepDigit([], names, values, pending, '3', lib);
    assert es[0..] == es;
    ExecAt(es, 0, "3", Machine([], names, values, pending), Machine([] + [3.0], names, values, pending), lib);
    StepDigit([] + [3.0], names, values, pending, '2', lib);
    ExecAt(es, 1, "2", Machine([] + [3.0], names, values, pending), Machine([] + [3.0] + [2.0], names, values, pending), lib);
    StepDigit([] + [3.0] + [2.0], names, values, pending, '5', lib);
    assert [] + [3.0] + [2.0] + [5.0] == [3.0, 2.0, 5.0];
    ExecAt(es, 2, "5", Machine([] + [3.0] + [2.0], names, values, pending), Machine([3.0, 2.0, 5.0], names, values, pending), lib);
  }

  lemma NumbersOfDoPostfix(es: seq<string>, names: seq<string>, values: seq<real>, pending: seq<real>, lib: MathLib)
    requires |es| == 7 && es[0] == "3" && es[1] == "2" && es[2] == "5" && es[3] == "2"
    requires |names| == |values| <= Capacity
    ensures Exec(Machine([], names, values, pending), es, lib) ==
      Exec(Machine([3.0, 2.0, 5.0, 2.0], names, values, pending), es[4..], lib)
  {
    NumbersHead(es, names, values, pending, lib);
    StepDigit([3.0, 2.0, 5.0], names, values, pending, '2', lib);
    assert [3.0, 2.0, 5.0] + [2.0] == [3.0, 2.0, 5.0, 2.0];
    ExecAt(es, 3, "2", Machine([3.0, 2.0, 5.0], names, values, pending), Machine([3.0, 2.0, 5.0, 2.0], names, values, pending), lib);
  }

  lemma DoPostfixRun(lib: MathLib)
    ensures Exec(Start([2.0]), DoPostfixTokens, lib) == Ok(Machine([9.0], [], [], [2.0]))
  {
    var es := DoPostfixTokens;
    assert Start([2.0]) == Machine([], [], [], [2.0]);
    NumbersOfDoPostfix(es, [], [], [2.0], lib);
    ArithmeticTail(es, [], [], [2.0], lib);
  }

  /** testDoPostfix. */
  lemma TestDoPostfix(lib: MathLib)
    ensures Evaluate("3 2 5 2 - * +", [2.0], lib) == Ok(9.0)
  {
    DoPostfixSplit();
    DoPostfixRun(lib);
  }

  // testCalculate: "3 + 2 * (5 - x)" with the input "2" read for `x`.

  const CalculateTokens: seq<string> := ["3", "2", "5", "x", "-", "*", "+"]

  /** A new name reads the next input value, pushes it and records it. */
  lemma StepNewName(stack: seq<real>, v: real, lib: MathLib)
    ensures PostfixMachine.Step(Machine(stack, [], [], [v]), "x", lib) ==
      Ok(Machine(stack + [v], ["x"], [v], []))
  {
    assert !IsDigit("x"[0]);
    assert AllLetters("x");
    assert IndexOf([], "x") == 0;
    assert [] + ["x"] == ["x"] && [] + [v] == [v];
    assert [v][1..] == [];
  }

  lemma CalculateRun(lib: MathLib)
    ensures Exec(Start([2.0]), CalculateTokens, lib) == Ok(Machine([9.0], ["x"], [2.0], []))
  {
    var es := CalculateTokens;
    NumbersHead(es, [], [], [2.0], lib);
    StepNewName([3.0, 2.0, 5.0], 2.0, lib);
    assert [3.0, 2.0, 5.0] + [2.0] == [3.0, 2.0, 5.0, 2.0];
    ExecAt(es, 3, "x", Machine([3.0, 2.0, 5.0], [], [], [2.0]), Machine([3.0, 2.0, 5.0, 2.0], ["x"], [2.0], []), lib);
    ArithmeticTail(es, ["x"], [2.0], [], lib);
  }

  /** testCalculate. */
  lemma TestCalculate(lib: MathLib)
    ensures Calculation("3 + 2 * (5 - x)", [2.0], lib) == Ok(9.0)
  {
    TestToPostfix();
    CalculationRunsTokens("3 + 2 * (5 - x)", [2.0], lib);
    CalculateRun(lib);
  }

  /** A run of digits and letters is one token, even when it mixes both. */
  lemma MixedRunIsOneToken()
    ensures PostfixTokens("2x") == Ok(["2x"])
  {
    assert IsAlnum("2x"[0]) && IsAlnum("2x"[1]);
    ConsumeRun("2x", [], []);
    ConvertIsConsumeThenDrain(Scan("2x", [], []));
    assert [] + ["2x"] == ["2x"];
  }

  /** The evaluator rejects such a token: `2x` is neither all digits nor all
      letters and starts with neither an operator nor a function marker. */
  lemma MixedRunIsRejected(input: seq<real>, lib: MathLib)
    ensures Calculation("2x", input, lib) == Err(InvalidPostfixToken("2x"))
  {
    MixedRunIsOneToken();
    CalculationRunsTokens("2x", input, lib);
    MixedElementIsInvalid(Start(input), lib);
    Evaluator.ExecFails(Start(input), ["2x"], lib, InvalidPostfixToken("2x"));
  }

  lemma MixedElementIsInvalid(m: Machine, lib: MathLib)
    requires TableShape(m)
    ensures PostfixMachine.Step(m, "2x", lib) == Err(InvalidPostfixToken("2x"))
  {
    assert !AllDigits("2x") by { assert !IsDigit("2x"[1]); }
    assert !AllLetters("2x") by { assert !IsLetter("2x"[0]); }
  }

  /** Only the space is skipped; a tab is an invalid character. */
  lemma TabIsInvalid()
    ensures PostfixTokens("1\t2") == Err(InvalidCharacter('\t'))
  {
    var s := "1\t2";
    assert s == "1" + "\t2";
    ConsumeConcat("1", "\t2", [], []);
    ConsumeRun("1", [], []);
    assert [] + ["1"] == ["1"];
    TabStops();
    ConvertIsConsumeThenDrain(Scan(s, [], []));
  }

  lemma TabStops()
    ensures Consume(Scan("\t2", [], ["1"])) == Err(InvalidCharacter('\t'))
  {
    StepOther(Scan("\t2", [], ["1"]));
  }

  /** An element that starts with a marker and is not all letters applies
      the function: `s2` replaces the top value by its sine. */
  lemma MixedElementIsFunction(v: real, lib: MathLib)
    ensures PostfixMachine.Step(Machine([v], [], [], []), "s2", lib) == Ok(Machine([lib.sin(v)], [], [], []))
  {
    assert !IsLetter("s2"[1]);
    FunctionStep(Machine([v], [], [], []), "s2", lib);
    assert [v][..0] + [lib.sin(v)] == [lib.sin(v)];
  }

  /** testIsOperator, testPriority, testDoAct and testApplyFunction; `^`,
      sine and cosine are whatever the library computes. */
  lemma TestClassifierAndDoAct(lib: MathLib)
    ensures IsOperator('+') && IsOperator('-') && IsOperator('*') && IsOperator('/') && IsOperator('^')
    ensures !IsOperator('a') && !IsOperator('1')
    ensures Priority('+') == 1 && Priority('-') == 1 && Priority('*') == 2 && Priority('/') == 2
    ensures Priority('^') == 3 && Priority('a') == 0
    ensures DoAct(2.0, 3.0, '+', lib) == Ok(5.0)
    ensures DoAct(2.0, 3.0, '-', lib) == Ok(-1.0)
    ensures DoAct(2.0, 3.0, '*', lib) == Ok(6.0)
    ensures DoAct(2.0, 3.0, '/', lib) == Ok(2.0 / 3.0)
    ensures DoAct(2.0, 3.0, '^', lib) == Ok(lib.pow(2.0, 3.0))
    ensures DoAct(2.0, 0.0, '/', lib) == Err(DivisionByZero)
    ensures ApplyFunction('s', 1.5, lib) == Ok(lib.sin(1.5))
    ensures ApplyFunction('c', 0.0, lib) == Ok(lib.cos(0.0))
  {
  }
}
