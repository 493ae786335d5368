/** The `Calculator` class: an expression fixed at construction, and
    `calculate`, which converts it to postfix and evaluates the postfix
    string. */
module CalculatorModel {
  import opened Outcome
  import opened Classifier
  import opened JavaStrings
  import opened ShuntingYard
  import opened ShuntingYardProperties
  import opened PostfixMachine
  import opened PostfixMachineProperties
  import Converter
  import Evaluator

  /** What `calculate` computes: the first error of the conversion, or the
      evaluation of the postfix string. */
  function Calculation(expression: string, input: seq<real>, lib: MathLib): Result<real> {
    match PostfixText(expression)
    case Err(err) => Err(err)
    case Ok(postfix) => Evaluate(postfix, input, lib)
  }

  /** The outcome of running the evaluator directly on a token list. */
  function RunTokens(ts: seq<string>, input: seq<real>, lib: MathLib): Result<real> {
    match Exec(Start(input), ts, lib)
    case Err(err) => Err(err)
    case Ok(m) => if |m.stack| != 1 then Err(TooManyOperands) else Ok(m.stack[0])
  }

  /** The postfix string loses nothing: the evaluator splits it back into
      exactly the tokens the converter produced. An expression with no
      token at all (empty, or only spaces) yields the empty postfix string,
      whose single empty element crashes the evaluator. */
  lemma CalculationRunsTokens(expression: string, input: seq<real>, lib: MathLib)
    ensures PostfixTokens(expression).Err? ==> Calculation(expression, input, lib) == Err(PostfixTokens(expression).error)
    ensures PostfixTokens(expression).Ok? && PostfixTokens(expression).value != [] ==>
      Calculation(expression, input, lib) == RunTokens(PostfixTokens(expression).value, input, lib)
    ensures PostfixTokens(expression) == Ok([]) ==> Calculation(expression, input, lib) == Err(EmptyToken)
  {
    PostfixTokensShape(expression);
    if PostfixTokens(expression).Ok? {
      var ts := PostfixTokens(expression).value;
      if ts != [] {
        SplitJoin(ts);
      } else {
        assert Join(ts) == "";
        assert SplitWhitespace("") == [""];
        assert PostfixMachine.Step(Start(input), "", lib) == Err(EmptyToken);
      }
    }
  }

  /** The evaluator sees the operands of the expression in the order they
      are written, reads one value per distinct all-letter operand in order
      of first occurrence, and a success has exactly one more all-digit or
      all-letter element than operator elements (a function element such as
      `s2` counts as neither). */
  lemma CalculationReadsVariablesInOrder(expression: string, input: seq<real>, lib: MathLib)
    requires PostfixTokens(expression).Ok? && PostfixTokens(expression).value != []
    ensures var ts := PostfixTokens(expression).value;
      Operands(ts) == Runs(expression) &&
      (Exec(Start(input), ts, lib).Ok? ==>
        Exec(Start(input), ts, lib).value.names == NewNames([], ts) &&
        |NewNames([], ts)| <= |input| &&
        Exec(Start(input), ts, lib).value.values == input[..|NewNames([], ts)|])
    ensures Calculation(expression, input, lib).Ok? ==> TotalEffect(PostfixTokens(expression).value) == 1
  {
    var ts := PostfixTokens(expression).value;
    PostfixKeepsOperandsAndOperators(expression);
    CalculationRunsTokens(expression, input, lib);
    PostfixTokensShape(expression);
    SplitJoin(ts);
    StartMemo(Join(ts), input, lib);
    EvaluateEffect(Join(ts), input, lib);
  }

  class Calculator {
    const expression: string

    constructor(expression: string)
      ensures this.expression == expression
    {
      this.expression := expression;
    }

    /** `calculate`: convert, then evaluate; input values are read for the
        variables from `input`, in order. */
    method Calculate(input: seq<real>, lib: MathLib) returns (r: Result<real>)
      ensures r == Calculation(expression, input, lib)
    {
      var postfix := Converter.ToPostfix(expression);
      if postfix.Err? {
        r := Err(postfix.error);
        return;
      }
      r := Evaluator.DoPostfix(postfix.value, input, lib);
    }
  }
}
