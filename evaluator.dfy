/** `doPostfix` as the source writes it: a loop over the split elements with
    a value stack, two fixed 100-slot arrays for variable names and values
    filled in place with a counter, a linear search for a name, and a read
    position in the input. The method is proved to return exactly
    `PostfixMachine.Evaluate`. */
module Evaluator {
  import opened Outcome
  import opened Classifier
  import opened JavaStrings
  import opened PostfixMachine

  /** A successful step leaves the outcome of the whole run unchanged. */
  lemma ExecAfter(m: Machine, es: seq<string>, lib: MathLib, next: Machine)
    requires TableShape(m) && es != [] && Step(m, es[0], lib) == Ok(next)
    ensures Exec(m, es, lib) == Exec(next, es[1..], lib)
  {
  }

  /** The failing step decides the whole run. */
  lemma ExecFails(m: Machine, es: seq<string>, lib: MathLib, err: Error)
    requires TableShape(m) && es != [] && Step(m, es[0], lib) == Err(err)
    ensures Exec(m, es, lib) == Err(err)
  {
  }

  /** The search loop: the first filled slot holding `element`, or -1. */
  method FindVariable(names: array<string>, count: nat, element: string) returns (index: int)
    requires count <= names.Length
    ensures index == -1 <==> IndexOf(names[..count], element) == count
    ensures index != -1 ==> index == IndexOf(names[..count], element)
  {
    index := -1;
    var i := 0;
    while i < count
      invariant 0 <= i <= count
      invariant forall k :: 0 <= k < i ==> names[k] != element
    {
      if names[i] == element {
        index := i;
        break;
      }
      i := i + 1;
    }
    if index == -1 {
      IndexOfIs(names[..count], element, count);
    } else {
      IndexOfIs(names[..count], element, index);
    }
  }

  /** One iteration of the loop over the elements, on the stack, the two
      arrays with their filled count, and the read position: it fails
      exactly when `Step` fails, with the same error, and otherwise leaves
      the state `Step` computes. */
  method ApplyElement(element: string, stack: seq<real>, names: array<string>, values: array<real>,
                      count: nat, input: seq<real>, next: nat, lib: MathLib)
    returns (failure: Option<Error>, stack': seq<real>, count': nat, next': nat)
    requires names.Length == Capacity && values.Length == Capacity
    requires count <= Capacity && next <= |input|
    modifies names, values
    ensures count' <= Capacity && next' <= |input|
    ensures var step := Step(Machine(stack, old(names[..count]), old(values[..count]), input[next..]), element, lib);
      (failure.Some? <==> step.Err?) &&
      (failure.Some? ==> failure.value == step.error) &&
      (failure.None? ==> step.value == Machine(stack', names[..count'], values[..count'], input[next'..]))
  {
    ghost var m := Machine(stack, names[..count], values[..count], input[next..]);
    failure, stack', count', next' := None, stack, count, next;
    if AllDigits(element) {
      stack' := stack + [ParseNumber(element) as real];
    } else if AllLetters(element) {
      var index := FindVariable(names, count, element);
      if index == -1 {
        if next == |input| {
          failure := Some(InputExhausted);
          return;
        }
        var value := input[next];
        next' := next + 1;
        if count == Capacity {
          failure := Some(TooManyVariables);
          return;
        }
        names[count] := element;
        values[count] := value;
        count' := count + 1;
        stack' := stack + [value];
        assert names[..count'] == m.names + [element];
        assert values[..count'] == m.values + [value];
        assert input[next'..] == m.pending[1..];
      } else {
        stack' := stack + [values[index]];
      }
    } else if element == "" {
      failure := Some(EmptyToken);
    } else if IsOperator(element[0]) {
      if |stack'| < 2 {
        failure := Some(NotEnoughOperands);
        return;
      }
      var b := stack'[|stack'| - 1];
      stack' := stack'[..|stack'| - 1];
      var a := stack'[|stack'| - 1];
      stack' := stack'[..|stack'| - 1];
      var result := DoAct(a, b, element[0], lib);
      if result.Err? {
        failure := Some(result.error);
        return;
      }
      stack' := stack' + [result.value];
      assert stack[..|stack| - 2] == stack'[..|stack'| - 1];
    } else if IsFunction(element[0]) {
      if |stack'| < 1 {
        failure := Some(NotEnoughOperandsForFunction);
        return;
      }
      var a := stack'[|stack'| - 1];
      stack' := stack'[..|stack'| - 1];
      var result := ApplyFunction(element[0], a, lib);
      if result.Err? {
        failure := Some(result.error);
        return;
      }
      stack' := stack' + [result.value];
    } else {
      failure := Some(InvalidPostfixToken(element));
    }
  }

  /** Evaluate a postfix string, reading the value of each new variable from
      `input` in order. */
  method DoPostfix(postfix: string, input: seq<real>, lib: MathLib) returns (r: Result<real>)
    ensures r == Evaluate(postfix, input, lib)
  {
    var stack: seq<real> := [];
    var elements := SplitWhitespace(postfix);
    var variableNames := new string[Capacity];
    var variableValues := new real[Capacity];
    var variableCount := 0;
    var next := 0;
    var j := 0;
    assert elements[j..] == elements && input[next..] == input;
    while j < |elements|
      invariant 0 <= j <= |elements| && 0 <= next <= |input|
      invariant 0 <= variableCount <= Capacity
      invariant Exec(Machine(stack, variableNames[..variableCount], variableValues[..variableCount], input[next..]), elements[j..], lib)
        == Exec(Start(input), elements, lib)
      decreases |elements| - j
    {
      ghost var m := Machine(stack, variableNames[..variableCount], variableValues[..variableCount], input[next..]);
      var failure;
      failure, stack, variableCount, next :=
        ApplyElement(elements[j], stack, variableNames, variableValues, variableCount, input, next, lib);
      if failure.Some? {
        ExecFails(m, elements[j..], lib, failure.value);
        r := Err(failure.value);
        return;
      }
      ExecAfter(m, elements[j..], lib,
        Machine(stack, variableNames[..variableCount], variableValues[..variableCount], input[next..]));
      assert elements[j..][1..] == elements[j + 1..];
      j := j + 1;
    }
    if |stack| != 1 {
      r := Err(TooManyOperands);
      return;
    }
    r := Ok(stack[0]);
  }
}
