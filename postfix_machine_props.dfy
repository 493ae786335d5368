/** Properties of the evaluator: the arithmetic of `doAct`, the numerals
    `parseDouble` reads, the effect of each element on the value stack, the
    variable memo, and an evaluator without memo or input that the real one
    agrees with. */
module PostfixMachineProperties {
  import opened Outcome
  import opened Classifier
  import opened JavaStrings
  import opened PostfixMachine

  // ------------------------------------------------------------- doAct

  /** Subtraction undoes addition, and division by a nonzero value undoes
      multiplication; addition and multiplication commute. */
  lemma DoActInverses(a: real, b: real, lib: MathLib)
    ensures DoAct(a, b, '+', lib) == DoAct(b, a, '+', lib)
    ensures DoAct(a, b, '*', lib) == DoAct(b, a, '*', lib)
    ensures DoAct(DoAct(a, b, '+', lib).value, b, '-', lib) == Ok(a)
    ensures b != 0.0 ==> DoAct(DoAct(a, b, '*', lib).value, b, '/', lib) == Ok(a)
  {
    assert DoAct(a, b, '+', lib) == Ok(a + b) && DoAct(b, a, '+', lib) == Ok(b + a);
    assert DoAct(a, b, '*', lib) == Ok(a * b) && DoAct(b, a, '*', lib) == Ok(b * a);
    assert a * b == b * a;
    if b != 0.0 {
      var p := a * b;
      assert DoAct(a, b, '*', lib) == Ok(p);
      assert DoAct(p, b, '/', lib) == Ok(p / b);
      assert p / b == a by {
        assert p == a * b;
        assert (p / b) * b == p;
      }
    }
  }

  // ----------------------------------------------------------- numerals

  /** The decimal digits of `n`, most significant first, without leading zeros
      (zero itself is "0"). */
  function Numeral(n: nat): (t: string)
    ensures |t| > 0 && forall i :: 0 <= i < |t| ==> IsDigit(t[i])
  {
    var last := ['0' + (n % 10) as char];
    if n < 10 then last else Numeral(n / 10) + last
  }

  /** Reading a printed numeral gives the number back. */
  lemma {:induction false} ParseNumeral(n: nat)
    ensures AllDigits(Numeral(n))
    ensures ParseNumber(Numeral(n)) == n
  {
    var t := Numeral(n);
    assert DigitValue(t[|t| - 1]) == n % 10;
    if n >= 10 {
      ParseNumeral(n / 10);
      assert t[..|t| - 1] == Numeral(n / 10);
    }
  }

  // -------------------------------------------------------- stack effect

  /** The net change of the stack height an element makes when it succeeds:
      an operand pushes one value, an operator replaces two by one, a
      function replaces one by one. */
  function Effect(e: string): int {
    if AllDigits(e) || AllLetters(e) then 1
    else if e != "" && IsOperator(e[0]) then -1
    else 0
  }

  function TotalEffect(es: seq<string>): int {
    if es == [] then 0 else Effect(es[0]) + TotalEffect(es[1..])
  }

  /** An operator element: it fails for want of two values, fails as `doAct`
      does, or pops `b` then `a` and pushes `doAct(a, b)`, leaving the table
      and the input alone. */
  lemma OperatorStep(m: Machine, e: string, lib: MathLib)
    requires TableShape(m) && e != "" && IsOperator(e[0])
    ensures |m.stack| < 2 ==> Step(m, e, lib) == Err(NotEnoughOperands)
    ensures |m.stack| >= 2 ==>
      var n := |m.stack|;
      var act := DoAct(m.stack[n - 2], m.stack[n - 1], e[0], lib);
      (act.Err? ==> Step(m, e, lib) == Err(act.error)) &&
      (act.Ok? ==> Step(m, e, lib) == Ok(m.(stack := m.stack[..n - 2] + [act.value])))
  {
    ClassesDisjoint(e[0]);
    assert !AllDigits(e) && !AllLetters(e) by { assert !IsAlnum(e[0]); }
  }

  /** A function element: one that starts with `s` or `c` but is neither all
      digits nor all letters, such as `s2`. It fails for want of a value, or
      replaces the top value by its sine or cosine; the table and the input
      are left alone. */
  lemma FunctionStep(m: Machine, e: string, lib: MathLib)
    requires TableShape(m) && e != "" && IsFunction(e[0]) && !AllLetters(e)
    ensures |m.stack| < 1 ==> Step(m, e, lib) == Err(NotEnoughOperandsForFunction)
    ensures |m.stack| >= 1 ==>
      var top := m.stack[|m.stack| - 1];
      var v := if e[0] == 's' then lib.sin(top) else lib.cos(top);
      Step(m, e, lib) == Ok(m.(stack := m.stack[..|m.stack| - 1] + [v]))
  {
    FunctionMarkersAreLetters(e[0]);
    assert !AllDigits(e) by { assert !IsDigit(e[0]); }
  }

  /** A successful element changes the stack height by its `Effect`. */
  lemma StepEffect(m: Machine, e: string, lib: MathLib)
    requires TableShape(m)
    ensures Step(m, e, lib).Ok? ==> |Step(m, e, lib).value.stack| == |m.stack| + Effect(e)
  {
    if e != "" && IsOperator(e[0]) {
      OperatorStep(m, e, lib);
    }
  }

  lemma {:induction false} ExecEffect(m: Machine, es: seq<string>, lib: MathLib)
    requires TableShape(m)
    ensures Exec(m, es, lib).Ok? ==> |Exec(m, es, lib).value.stack| == |m.stack| + TotalEffect(es)
    decreases |es|
  {
    if es != [] {
      StepEffect(m, es[0], lib);
      if Step(m, es[0], lib).Ok? {
        ExecEffect(Step(m, es[0], lib).value, es[1..], lib);
      }
    }
  }

  /** A successful evaluation had elements whose effects add up to exactly one value. */
  lemma EvaluateEffect(postfix: string, input: seq<real>, lib: MathLib)
    ensures Evaluate(postfix, input, lib).Ok? ==> TotalEffect(SplitWhitespace(postfix)) == 1
  {
    ExecEffect(Start(input), SplitWhitespace(postfix), lib);
  }

  // --------------------------------------------------------- invalid tokens

  /** A lone function marker is an all-letter element, so the evaluator reads
      it as a variable: it looks the name up or reads the next input value,
      and never applies the sine or the cosine. */
  lemma MarkersAreVariables(m: Machine, f: char, lib: MathLib)
    requires TableShape(m) && IsFunction(f)
    ensures var k := IndexOf(m.names, [f]);
      PostfixMachine.Step(m, [f], lib) ==
        if k < |m.names| then Ok(Push(m, m.values[k]))
        else if m.pending == [] then Err(InputExhausted)
        else if |m.names| == Capacity then Err(TooManyVariables)
        else Ok(Machine(m.stack + [m.pending[0]], m.names + [[f]], m.values + [m.pending[0]], m.pending[1..]))
  {
    FunctionMarkersAreLetters(f);
    assert AllLetters([f]);
    NameStep(m, [f], lib);
  }

  /** An element is rejected as invalid exactly when it is nonempty, neither
      all digits nor all letters, and starts with neither an operator nor a
      function marker. */
  lemma InvalidElement(m: Machine, e: string, lib: MathLib)
    requires TableShape(m)
    ensures Step(m, e, lib).Err? && Step(m, e, lib).error.InvalidPostfixToken? <==>
      e != "" && !AllDigits(e) && !AllLetters(e) && !IsOperator(e[0]) && !IsFunction(e[0])
    ensures Step(m, e, lib).Err? && Step(m, e, lib).error.InvalidPostfixToken? ==>
      Step(m, e, lib).error.token == e
  {
  }

  // ------------------------------------------------------------ the memo

  predicate Distinct(names: seq<string>) {
    forall i, j :: 0 <= i < j < |names| ==> names[i] != names[j]
  }

  /** The all-letter elements not in `seen`, in order of first occurrence,
      each taken once. */
  function NewNames(seen: seq<string>, es: seq<string>): seq<string>
    decreases |es|
  {
    if es == [] then []
    else if AllLetters(es[0]) && es[0] !in seen then [es[0]] + NewNames(seen + [es[0]], es[1..])
    else NewNames(seen, es[1..])
  }

  /** One element: a known name or a number reads nothing; a new name reads
      exactly one value, stores it as its own and pushes it. */
  lemma StepMemo(m: Machine, e: string, lib: MathLib)
    requires TableShape(m) && Distinct(m.names)
    ensures Step(m, e, lib).Ok? ==>
      var n := Step(m, e, lib).value;
      var isNew := AllLetters(e) && e !in m.names;
      n.names == m.names + (if isNew then [e] else []) &&
      n.values + n.pending == m.values + m.pending &&
      Distinct(n.names) &&
      (AllLetters(e) ==> IndexOf(n.names, e) < |n.names| && n.stack == m.stack + [n.values[IndexOf(n.names, e)]])
  {
    if AllLetters(e) {
      NameStep(m, e, lib);
      var k := IndexOf(m.names, e);
      if k < |m.names| {
        assert e in m.names;
      } else if Step(m, e, lib).Ok? {
        NewNameMemo(m, e);
      }
    } else {
      OtherStepKeepsTable(m, e, lib);
    }
  }

  /** An all-letter element is a name: looked up, or read and stored. */
  lemma NameStep(m: Machine, e: string, lib: MathLib)
    requires TableShape(m) && AllLetters(e)
    ensures var k := IndexOf(m.names, e);
      Step(m, e, lib) ==
        if k < |m.names| then Ok(Push(m, m.values[k]))
        else if m.pending == [] then Err(InputExhausted)
        else if |m.names| == Capacity then Err(TooManyVariables)
        else Ok(Machine(m.stack + [m.pending[0]], m.names + [e], m.values + [m.pending[0]], m.pending[1..]))
  {
    assert !AllDigits(e) by { assert IsLetter(e[0]); }
  }

  /** Storing a name not yet in the table keeps the names distinct and moves
      one value from the input to the table. */
  lemma NewNameMemo(m: Machine, e: string)
    requires Distinct(m.names) && e !in m.names && m.pending != []
    ensures var n := m.names + [e];
      Distinct(n) && IndexOf(n, e) == |m.names| &&
      m.values + [m.pending[0]] + m.pending[1..] == m.values + m.pending
  {
    IndexOfIs(m.names + [e], e, |m.names|);
    assert m.pending == [m.pending[0]] + m.pending[1..];
  }

  /** Numbers, operators and functions leave the table and the input alone. */
  lemma OtherStepKeepsTable(m: Machine, e: string, lib: MathLib)
    requires TableShape(m) && !AllLetters(e)
    ensures Step(m, e, lib).Ok? ==>
      var n := Step(m, e, lib).value;
      n.names == m.names && n.values == m.values && n.pending == m.pending
  {
  }

  /** The memo over a whole run: the table ends as the old names followed by
      the new names in order of first occurrence, every value read is stored
      in order, so the number of values read is the number of new names, and
      the table never holds a name twice. */
  lemma {:induction false} ExecMemo(m: Machine, es: seq<string>, lib: MathLib)
    requires TableShape(m) && Distinct(m.names)
    ensures Exec(m, es, lib).Ok? ==>
      var f := Exec(m, es, lib).value;
      f.names == m.names + NewNames(m.names, es) &&
      f.values + f.pending == m.values + m.pending &&
      |m.pending| - |f.pending| == |NewNames(m.names, es)| &&
      Distinct(f.names)
    decreases |es|
  {
    if es != [] && Exec(m, es, lib).Ok? {
      var e := es[0];
      StepMemo(m, e, lib);
      var n := Step(m, e, lib).value;
      ExecMemo(n, es[1..], lib);
      var f := Exec(m, es, lib).value;
      assert f == Exec(n, es[1..], lib).value;
      if AllLetters(e) && e !in m.names {
        assert NewNames(m.names, es) == [e] + NewNames(m.names + [e], es[1..]);
        AppendAssoc(m.names, [e], NewNames(m.names + [e], es[1..]));
      } else {
        assert NewNames(m.names, es) == NewNames(m.names, es[1..]);
        assert e in m.names ==> n.names == m.names;
      }
    }
  }

  /** For `doPostfix`: the names read are the distinct all-letter elements in
      order of first occurrence, and their values are the first values of
      the input, in that order. */
  lemma StartMemo(postfix: string, input: seq<real>, lib: MathLib)
    ensures var es := SplitWhitespace(postfix);
      Exec(Start(input), es, lib).Ok? ==>
      var f := Exec(Start(input), es, lib).value;
      f.names == NewNames([], es) &&
      |f.names| <= |input| &&
      f.values == input[..|f.names|] &&
      f.pending == input[|f.names|..]
  {
    var es := SplitWhitespace(postfix);
    ExecMemo(Start(input), es, lib);
    if Exec(Start(input), es, lib).Ok? {
      var f := Exec(Start(input), es, lib).value;
      EmptyThen(NewNames([], es));
      EmptyThen(input);
      SplitAt(f.values, f.pending, input);
    }
  }

  lemma AppendAssoc<T>(a: seq<T>, b: seq<T>, c: seq<T>)
    ensures a + b + c == a + (b + c)
  {
  }

  lemma EmptyThen<T>(s: seq<T>)
    ensures [] + s == s
  {
  }

  lemma SplitAt(a: seq<real>, b: seq<real>, s: seq<real>)
    requires a + b == s
    ensures |a| <= |s| && a == s[..|a|] && b == s[|a|..]
  {
  }

  // ---------------------------------------------- evaluation in an environment

  /** One element of the reference evaluator without memo and without
      input: every variable has the value `env` gives it. */
  function EnvStep(stack: seq<real>, e: string, env: string -> real, lib: MathLib): Result<seq<real>> {
    if AllDigits(e) then Ok(stack + [ParseNumber(e) as real])
    else if AllLetters(e) then Ok(stack + [env(e)])
    else if e == "" then Err(EmptyToken)
    else if IsOperator(e[0]) then
      if |stack| < 2 then Err(NotEnoughOperands)
      else
        var n := |stack|;
        match DoAct(stack[n - 2], stack[n - 1], e[0], lib)
        case Err(err) => Err(err)
        case Ok(v) => Ok(stack[..n - 2] + [v])
    else if IsFunction(e[0]) then
      if |stack| < 1 then Err(NotEnoughOperandsForFunction)
      else
        var n := |stack|;
        match ApplyFunction(e[0], stack[n - 1], lib)
        case Err(err) => Err(err)
        case Ok(v) => Ok(stack[..n - 1] + [v])
    else Err(InvalidPostfixToken(e))
  }

  /** The reference evaluator: all elements in order, the first error wins. */
  function ExecEnv(stack: seq<real>, es: seq<string>, env: string -> real, lib: MathLib): Result<seq<real>>
    decreases |es|
  {
    if es == [] then Ok(stack)
    else
      match EnvStep(stack, es[0], env, lib)
      case Err(err) => Err(err)
      case Ok(next) => ExecEnv(next, es[1..], env, lib)
  }

  /** The value a table gives a name: the value in the name's first slot. */
  function TableEnv(m: Machine): string -> real
    requires TableShape(m)
  {
    x => if IndexOf(m.names, x) < |m.names| then m.values[IndexOf(m.names, x)] else 0.0
  }

  lemma IndexOfPrefix(a: seq<string>, b: seq<string>, t: string)
    requires a <= b && IndexOf(a, t) < |a|
    ensures IndexOf(b, t) == IndexOf(a, t)
  {
    IndexOfIs(b, t, IndexOf(a, t));
  }

  /** A run only ever appends to the table. */
  lemma {:induction false} ExecExtends(m: Machine, es: seq<string>, lib: MathLib)
    requires TableShape(m)
    ensures Exec(m, es, lib).Ok? ==>
      m.names <= Exec(m, es, lib).value.names && m.values <= Exec(m, es, lib).value.values
    decreases |es|
  {
    if es != [] && Step(m, es[0], lib).Ok? {
      ExecExtends(Step(m, es[0], lib).value, es[1..], lib);
    }
  }

  lemma StepLetters(m: Machine, e: string, lib: MathLib)
    requires TableShape(m) && AllLetters(e) && Step(m, e, lib).Ok?
    ensures var n := Step(m, e, lib).value;
      IndexOf(n.names, e) < |n.names| && n.stack == m.stack + [n.values[IndexOf(n.names, e)]]
  {
    assert !AllDigits(e) by { assert IsLetter(e[0]); }
    var n := Step(m, e, lib).value;
    var k := IndexOf(m.names, e);
    if k == |m.names| {
      IndexOfIs(n.names, e, k);
    } else {
      IndexOfPrefix(m.names, n.names, e);
    }
  }

  /** The memo is invisible: a successful run computes the stack that the
      memo-free evaluator computes when every variable has the value the
      final table gives it. */
  lemma {:induction false} ExecAsEnv(m: Machine, es: seq<string>, lib: MathLib)
    requires TableShape(m)
    ensures Exec(m, es, lib).Ok? ==>
      var f := Exec(m, es, lib).value;
      ExecEnv(m.stack, es, TableEnv(f), lib) == Ok(f.stack)
    decreases |es|
  {
    if es != [] && Exec(m, es, lib).Ok? {
      var e := es[0];
      var n := Step(m, e, lib).value;
      var f := Exec(m, es, lib).value;
      assert f == Exec(n, es[1..], lib).value;
      ExecAsEnv(n, es[1..], lib);
      if AllLetters(e) && !AllDigits(e) {
        StepLetters(m, e, lib);
        ExecExtends(n, es[1..], lib);
        IndexOfPrefix(n.names, f.names, e);
        assert TableEnv(f)(e) == n.values[IndexOf(n.names, e)];
      } else if !AllDigits(e) && e != "" && IsOperator(e[0]) {
        OperatorStep(m, e, lib);
      }
    }
  }

  /** `doPostfix` as an evaluation in the environment its input defines. */
  lemma EvaluateAsEnv(postfix: string, input: seq<real>, lib: MathLib)
    ensures var es := SplitWhitespace(postfix);
      Exec(Start(input), es, lib).Ok? ==>
      var f := Exec(Start(input), es, lib).value;
      ExecEnv([], es, TableEnv(f), lib) == Ok(f.stack) &&
      Evaluate(postfix, input, lib) == (if |f.stack| == 1 then Ok(f.stack[0]) else Err(TooManyOperands))
  {
    ExecAsEnv(Start(input), SplitWhitespace(postfix), lib);
  }

  // ------------------------------------- the environment the input defines

  /** The value the input gives a name: the input value at the name's
      position in `names`, the names in the order they are first read. */
  function InputEnv(names: seq<string>, input: seq<real>): string -> real {
    x => var k := IndexOf(names, x); if k < |names| && k < |input| then input[k] else 0.0
  }

  /** `env` is the environment the machine is building: every stored name
      has its stored value, and each name still to be read in `es` has the
      input value waiting for it, with enough input and table space left. */
  predicate Agrees(m: Machine, es: seq<string>, env: string -> real) {
    var toRead := NewNames(m.names, es);
    (forall i :: 0 <= i < |m.names| && i < |m.values| ==> env(m.names[i]) == m.values[i]) &&
    |toRead| <= |m.pending| && |m.names| + |toRead| <= Capacity &&
    (forall j :: 0 <= j < |toRead| ==> env(toRead[j]) == m.pending[j])
  }

  lemma NewNameAgrees(m: Machine, e: string, rest: seq<string>, env: string -> real, lib: MathLib)
    requires TableShape(m) && AllLetters(e) && IndexOf(m.names, e) == |m.names| && Agrees(m, [e] + rest, env)
    ensures Step(m, e, lib) == Ok(Machine(m.stack + [env(e)], m.names + [e], m.values + [env(e)], m.pending[1..]))
    ensures Agrees(Step(m, e, lib).value, rest, env)
  {
    var es := [e] + rest;
    assert es[0] == e && es[1..] == rest;
    NameStep(m, e, lib);
    assert e !in m.names;
    var toRead := NewNames(m.names, es);
    var later := NewNames(m.names + [e], rest);
    assert toRead == [e] + later;
    assert toRead[0] == e;
    assert forall j :: 0 <= j < |later| ==> later[j] == toRead[j + 1];
  }

  /** One element in an agreeing environment: the machine fails exactly as
      the reference does, and otherwise computes the same stack and still
      agrees with the environment. */
  lemma StepInEnv(m: Machine, e: string, rest: seq<string>, env: string -> real, lib: MathLib)
    requires TableShape(m) && Agrees(m, [e] + rest, env)
    ensures match Step(m, e, lib)
      case Err(err) => EnvStep(m.stack, e, env, lib) == Err(err)
      case Ok(n) => EnvStep(m.stack, e, env, lib) == Ok(n.stack) && Agrees(n, rest, env)
  {
    var es := [e] + rest;
    assert es[0] == e && es[1..] == rest;
    if AllLetters(e) {
      NameStep(m, e, lib);
      if IndexOf(m.names, e) < |m.names| {
        assert e in m.names;
      } else {
        NewNameAgrees(m, e, rest, env, lib);
      }
    } else {
      assert NewNames(m.names, es) == NewNames(m.names, rest);
      if !AllDigits(e) && e != "" && IsOperator(e[0]) {
        OperatorStep(m, e, lib);
      } else if !AllDigits(e) && e != "" && IsFunction(e[0]) {
        FunctionStep(m, e, lib);
      }
    }
  }

  /** A whole run in an agreeing environment computes what the reference
      evaluator computes, errors included. */
  lemma {:induction false} ExecInEnv(m: Machine, es: seq<string>, env: string -> real, lib: MathLib)
    requires TableShape(m) && Agrees(m, es, env)
    ensures ExecEnv(m.stack, es, env, lib) == match Exec(m, es, lib)
      case Err(err) => Err(err)
      case Ok(f) => Ok(f.stack)
    decreases |es|
  {
    if es != [] {
      assert es == [es[0]] + es[1..];
      StepInEnv(m, es[0], es[1..], env, lib);
      if Step(m, es[0], lib).Ok? {
        ExecInEnv(Step(m, es[0], lib).value, es[1..], env, lib);
      }
    }
  }

  /** The new names are new: none is seen already and none comes twice. */
  lemma {:induction false} NewNamesDistinct(seen: seq<string>, es: seq<string>)
    requires Distinct(seen)
    ensures Distinct(seen + NewNames(seen, es))
    decreases |es|
  {
    if es != [] {
      if AllLetters(es[0]) && es[0] !in seen {
        var seen' := seen + [es[0]];
        NewNamesDistinct(seen', es[1..]);
        AppendAssoc(seen, [es[0]], NewNames(seen', es[1..]));
      } else {
        NewNamesDistinct(seen, es[1..]);
      }
    }
  }

  lemma StartAgrees(es: seq<string>, input: seq<real>)
    requires |NewNames([], es)| <= |input| && |NewNames([], es)| <= Capacity
    ensures Agrees(Start(input), es, InputEnv(NewNames([], es), input))
  {
    var toRead := NewNames([], es);
    NewNamesDistinct([], es);
    EmptyThen(toRead);
    forall j | 0 <= j < |toRead|
      ensures InputEnv(toRead, input)(toRead[j]) == input[j]
    {
      IndexOfIs(toRead, toRead[j], j);
    }
  }

  /** Whenever the input holds a value for every distinct name and there are
      at most `Capacity` names, the machine computes, errors included, what
      the memo-free evaluator computes when the k-th name read has the k-th
      input value. */
  lemma RunInInputEnv(es: seq<string>, input: seq<real>, lib: MathLib)
    requires |NewNames([], es)| <= |input| && |NewNames([], es)| <= Capacity
    ensures ExecEnv([], es, InputEnv(NewNames([], es), input), lib) == match Exec(Start(input), es, lib)
      case Err(err) => Err(err)
      case Ok(f) => Ok(f.stack)
  {
    StartAgrees(es, input);
    ExecInEnv(Start(input), es, InputEnv(NewNames([], es), input), lib);
  }
}
