/** The evaluation of `doPostfix`, `doAct` and `applyFunction` as functions
    over a machine state: the value stack (top at the end), the variable
    table as two parallel sequences (the filled slots of the source's two
    100-slot arrays) and the values not yet read from the input. One `Step`
    is one iteration of the source's loop over the elements. */
module PostfixMachine {
  import opened Outcome
  import opened Classifier
  import opened JavaStrings

  /** The floating-point library calls, left uninterpreted: `Math.pow`,
      `Math.sin` and `Math.cos`. */
  datatype MathLib = MathLib(pow: (real, real) -> real, sin: real -> real, cos: real -> real)

  /** `doAct`: the operator applied to `a` (the deeper value) and `b` (the
      top). It fails exactly for a zero divisor and for a character that is
      no operator. */
  function DoAct(a: real, b: real, op: char, lib: MathLib): (r: Result<real>)
    ensures r.Err? <==> !IsOperator(op) || (op == '/' && b == 0.0)
    ensures r.Err? ==> r.error == if IsOperator(op) then DivisionByZero else UnknownOperator(op)
    ensures op == '^' ==> r == Ok(lib.pow(a, b))
  {
    match op
    case '+' => Ok(a + b)
    case '-' => Ok(a - b)
    case '*' => Ok(a * b)
    case '/' => if b == 0.0 then Err(DivisionByZero) else Ok(a / b)
    case '^' => Ok(lib.pow(a, b))
    case _ => Err(UnknownOperator(op))
  }

  /** `applyFunction`: 's' is the sine, 'c' the cosine; any other character fails. */
  function ApplyFunction(f: char, a: real, lib: MathLib): (r: Result<real>)
    ensures r.Ok? <==> IsFunction(f)
    ensures r.Err? ==> r.error == UnknownFunction(f)
    ensures f == 's' ==> r == Ok(lib.sin(a))
    ensures f == 'c' ==> r == Ok(lib.cos(a))
  {
    match f
    case 's' => Ok(lib.sin(a))
    case 'c' => Ok(lib.cos(a))
    case _ => Err(UnknownFunction(f))
  }

  /** `element.matches("\\d+")`. */
  predicate AllDigits(t: string) {
    |t| > 0 && forall i :: 0 <= i < |t| ==> IsDigit(t[i])
  }

  /** `element.matches("[a-zA-Z]+")`. */
  predicate AllLetters(t: string) {
    |t| > 0 && forall i :: 0 <= i < |t| ==> IsLetter(t[i])
  }

  function DigitValue(d: char): (v: nat)
    requires IsDigit(d)
    ensures v < 10
  {
    (d as int - '0' as int) as nat
  }

  /** `Double.parseDouble` on a string of decimal digits, exactly. */
  function ParseNumber(t: string): (v: nat)
    requires forall i :: 0 <= i < |t| ==> IsDigit(t[i])
  {
    if t == [] then 0 else 10 * ParseNumber(t[..|t| - 1]) + DigitValue(t[|t| - 1])
  }

  /** The capacity of the variable table: `new String[100]`, `new double[100]`. */
  const Capacity := 100

  datatype Machine = Machine(stack: seq<real>, names: seq<string>, values: seq<real>, pending: seq<real>)

  /** The table is well formed: one value per name, within capacity. */
  predicate TableShape(m: Machine) {
    |m.names| == |m.values| <= Capacity
  }

  /** The linear search of the table: the first slot holding `t`, or
      `|names|` when none does. */
  function IndexOf(names: seq<string>, t: string): (k: nat)
    ensures k <= |names|
    ensures k < |names| ==> names[k] == t
    ensures forall j :: 0 <= j < k ==> names[j] != t
  {
    if names == [] then 0
    else if names[0] == t then 0
    else 1 + IndexOf(names[1..], t)
  }

  /** The three facts of `IndexOf` determine it. */
  lemma IndexOfIs(names: seq<string>, t: string, k: nat)
    requires k <= |names| && (k < |names| ==> names[k] == t)
    requires forall j :: 0 <= j < k ==> names[j] != t
    ensures IndexOf(names, t) == k
  {
  }

  /** The machine after pushing `v`. */
  function Push(m: Machine, v: real): Machine {
    m.(stack := m.stack + [v])
  }

  /** One element. The tests are tried in the source's order: all digits,
      all letters, then the first character (which crashes on an empty
      element) as operator or function marker. A new name reads the next
      input value first and only then overflows the table. */
  function Step(m: Machine, e: string, lib: MathLib): (r: Result<Machine>)
    requires TableShape(m)
    ensures r.Ok? ==> TableShape(r.value)
  {
    if AllDigits(e) then
      Ok(Push(m, ParseNumber(e) as real))
    else if AllLetters(e) then
      var k := IndexOf(m.names, e);
      if k < |m.names| then Ok(Push(m, m.values[k]))
      else if m.pending == [] then Err(InputExhausted)
      else if |m.names| == Capacity then Err(TooManyVariables)
      else
        var v := m.pending[0];
        Ok(Machine(m.stack + [v], m.names + [e], m.values + [v], m.pending[1..]))
    else if e == "" then
      Err(EmptyToken)
    else if IsOperator(e[0]) then
      if |m.stack| < 2 then Err(NotEnoughOperands)
      else
        var n := |m.stack|;
        match DoAct(m.stack[n - 2], m.stack[n - 1], e[0], lib)
        case Err(err) => Err(err)
        case Ok(v) => Ok(m.(stack := m.stack[..n - 2] + [v]))
    else if IsFunction(e[0]) then
      if |m.stack| < 1 then Err(NotEnoughOperandsForFunction)
      else
        var n := |m.stack|;
        match ApplyFunction(e[0], m.stack[n - 1], lib)
        case Err(err) => Err(err)
        case Ok(v) => Ok(m.(stack := m.stack[..n - 1] + [v]))
    else
      Err(InvalidPostfixToken(e))
  }

  /** All elements in order; the first error wins. */
  function Exec(m: Machine, es: seq<string>, lib: MathLib): (r: Result<Machine>)
    requires TableShape(m)
    ensures r.Ok? ==> TableShape(r.value)
    decreases |es|
  {
    if es == [] then Ok(m)
    else
      match Step(m, es[0], lib)
      case Err(err) => Err(err)
      case Ok(next) => Exec(next, es[1..], lib)
  }

  /** The machine `doPostfix` starts from: everything empty, all input unread. */
  function Start(input: seq<real>): Machine {
    Machine([], [], [], input)
  }

  /** `doPostfix`: split the postfix string, run every element, and demand
      exactly one value on the stack at the end. */
  function Evaluate(postfix: string, input: seq<real>, lib: MathLib): Result<real> {
    match Exec(Start(input), SplitWhitespace(postfix), lib)
    case Err(err) => Err(err)
    case Ok(m) => if |m.stack| != 1 then Err(TooManyOperands) else Ok(m.stack[0])
  }
}
