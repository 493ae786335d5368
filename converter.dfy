/** `toPostfix` as the source writes it: one pass over the expression with an
    operator stack and a string builder, inner loops that merge a run of
    digits and letters and that pop the stack, and a final drain. The method
    is proved to return exactly `ShuntingYard.PostfixText`, about which the
    properties of `ShuntingYardProperties` are proved. */
module Converter {
  import opened Outcome
  import opened Classifier
  import opened JavaStrings
  import opened ShuntingYard
  import opened ShuntingYardProperties

  /** The inner run loop stops where `RunLength` does. */
  lemma RunLengthIs(s: string, n: nat)
    requires n <= |s| && (forall k :: 0 <= k < n ==> IsAlnum(s[k]))
    requires n == |s| || !IsAlnum(s[n])
    ensures RunLength(s) == n
    decreases n
  {
    if n > 0 {
      RunLengthIs(s[1..], n - 1);
    }
  }

  /** A successful step leaves the outcome of the whole conversion unchanged. */
  lemma ConvertAfter(sc: Scan, next: Scan)
    requires sc.rest != [] && Step(sc) == Ok(next)
    ensures Convert(sc) == Convert(next)
  {
  }

  /** The inner run loop: starting at a digit or letter, append characters
      to the builder while the next one is a digit or letter too. It stops
      on the last character of the run. */
  method AppendRun(expression: string, start: nat, postfix: string) returns (last: nat, built: string)
    requires start < |expression| && IsAlnum(expression[start])
    ensures start <= last < |expression|
    ensures RunLength(expression[start..]) == last + 1 - start
    ensures built == postfix + expression[start..last + 1]
  {
    last := start;
    built := postfix + [expression[start]];
    while last + 1 < |expression| && (IsDigit(expression[last + 1]) || IsLetter(expression[last + 1]))
      invariant start <= last < |expression|
      invariant forall k :: start <= k <= last ==> IsAlnum(expression[k])
      invariant built == postfix + expression[start..last + 1]
      decreases |expression| - last
    {
      built := built + [expression[last + 1]];
      last := last + 1;
    }
    RunLengthIs(expression[start..], last + 1 - start);
  }

  /** The loop of ')': pop and append each entry with a space until a '('
      is on top or the stack is empty. */
  method PopToParen(stack: seq<char>, ghost tokens: seq<string>, postfix: string)
    returns (remaining: seq<char>, ghost emitted: seq<string>, built: string)
    requires postfix == Builder(tokens)
    ensures remaining == PopUntilParen(stack, tokens).0
    ensures built == Builder(PopUntilParen(stack, tokens).1)
    ensures emitted == PopUntilParen(stack, tokens).1
  {
    remaining, emitted, built := stack, tokens, postfix;
    while remaining != [] && remaining[|remaining| - 1] != '('
      invariant PopUntilParen(remaining, emitted) == PopUntilParen(stack, tokens)
      invariant built == Builder(emitted)
      decreases |remaining|
    {
      var top := remaining[|remaining| - 1];
      built := built + [top] + " ";
      assert (emitted + [[top]])[..|emitted|] == emitted;
      emitted := emitted + [[top]];
      remaining := remaining[..|remaining| - 1];
    }
  }

  /** The loop of an operator: pop and append each entry with a space while
      the top's priority is at least `p`. */
  method PopAtLeast(stack: seq<char>, ghost tokens: seq<string>, postfix: string, p: int)
    returns (remaining: seq<char>, ghost emitted: seq<string>, built: string)
    requires postfix == Builder(tokens)
    ensures remaining == PopWhile(stack, tokens, p).0
    ensures built == Builder(PopWhile(stack, tokens, p).1)
    ensures emitted == PopWhile(stack, tokens, p).1
  {
    remaining, emitted, built := stack, tokens, postfix;
    while remaining != [] && Priority(remaining[|remaining| - 1]) >= p
      invariant PopWhile(remaining, emitted, p) == PopWhile(stack, tokens, p)
      invariant built == Builder(emitted)
      decreases |remaining|
    {
      var top := remaining[|remaining| - 1];
      built := built + [top] + " ";
      assert (emitted + [[top]])[..|emitted|] == emitted;
      emitted := emitted + [[top]];
      remaining := remaining[..|remaining| - 1];
    }
  }

  lemma BuilderSnoc(ts: seq<string>, t: string)
    ensures Builder(ts + [t]) == Builder(ts) + t + " "
  {
    assert (ts + [t])[..|ts|] == ts;
  }

  /** The run that starts at index `i` and ends at `last` is one step. */
  lemma StepRunAt(expression: string, i: nat, last: nat, stack: seq<char>, tokens: seq<string>)
    requires i <= last < |expression| && IsAlnum(expression[i])
    requires RunLength(expression[i..]) == last + 1 - i
    ensures Step(Scan(expression[i..], stack, tokens)) ==
      Ok(Scan(expression[last + 1..], stack, tokens + [expression[i..last + 1]]))
  {
    var sc := Scan(expression[i..], stack, tokens);
    StepAlnum(sc);
    assert sc.rest[last + 1 - i..] == expression[last + 1..];
    assert sc.rest[..last + 1 - i] == expression[i..last + 1];
  }

  /** One iteration of the outer `for` loop at index `i`, including the
      loop's own increment: it fails exactly when `Step` fails, with the same
      error, and otherwise moves to `Step`'s next state, with the builder
      holding the tokens emitted so far. */
  method ScanStep(expression: string, i: nat, stack: seq<char>, ghost tokens: seq<string>, postfix: string)
    returns (failure: Option<Error>, next: nat, stack': seq<char>, ghost tokens': seq<string>, postfix': string)
    requires i < |expression| && postfix == Builder(tokens)
    ensures failure.Some? <==> Step(Scan(expression[i..], stack, tokens)).Err?
    ensures failure.Some? ==> failure.value == Step(Scan(expression[i..], stack, tokens)).error
    ensures failure.None? ==>
      var next' := Step(Scan(expression[i..], stack, tokens)).value;
      i < next <= |expression| && next'.rest == expression[next..] && next'.stack == stack' &&
      postfix' == Builder(next'.out)
    ensures failure.None? ==> tokens' == Step(Scan(expression[i..], stack, tokens)).value.out
  {
    ghost var sc := Scan(expression[i..], stack, tokens);
    failure, next, stack', tokens', postfix' := None, i + 1, stack, tokens, postfix;
    var c := expression[i];
    FunctionMarkersAreLetters(c);
    if IsDigit(c) || IsLetter(c) {
      var last;
      last, postfix' := AppendRun(expression, i, postfix);
      postfix' := postfix' + " ";
      BuilderSnoc(tokens, expression[i..last + 1]);
      tokens' := tokens + [expression[i..last + 1]];
      next := last + 1;
      StepRunAt(expression, i, last, stack, tokens);
    } else if c == '(' {
      stack' := stack + ['('];
      StepOpen(sc);
    } else if c == ')' {
      stack', tokens', postfix' := PopToParen(stack, tokens, postfix);
      StepClose(sc);
      if stack' == [] {
        failure := Some(UnmatchedClose);
        return;
      }
      stack' := stack'[..|stack'| - 1];
    } else if IsOperator(c) {
      stack', tokens', postfix' := PopAtLeast(stack, tokens, postfix, Priority(c));
      StepOperator(sc);
      stack' := stack' + [c];
    } else if IsFunction(c) {
      // Both markers are letters, so the first branch has taken them.
      assert false;
    } else if c != ' ' {
      StepOther(sc);
      failure := Some(InvalidCharacter(c));
    } else {
      StepOther(sc);
    }
  }

  /** Convert an infix expression to postfix: the result is the postfix
      tokens joined by single spaces, or the first error. */
  method ToPostfix(expression: string) returns (r: Result<string>)
    ensures r == PostfixText(expression)
  {
    var stack: seq<char> := [];
    var postfix: string := "";
    ghost var tokens: seq<string> := [];
    var i := 0;
    assert expression[i..] == expression;
    while i < |expression|
      invariant 0 <= i <= |expression|
      invariant postfix == Builder(tokens)
      invariant Convert(Scan(expression[i..], stack, tokens)) == PostfixTokens(expression)
      decreases |expression| - i
    {
      ghost var sc := Scan(expression[i..], stack, tokens);
      var failure;
      failure, i, stack, tokens, postfix := ScanStep(expression, i, stack, tokens, postfix);
      if failure.Some? {
        r := Err(failure.value);
        return;
      }
      ConvertAfter(sc, Scan(expression[i..], stack, tokens));
    }
    while stack != []
      invariant postfix == Builder(tokens)
      invariant Drain(stack, tokens) == PostfixTokens(expression)
      decreases |stack|
    {
      var top := stack[|stack| - 1];
      if top == '(' {
        r := Err(UnclosedParen);
        return;
      }
      postfix := postfix + [top] + " ";
      assert (tokens + [[top]])[..|tokens|] == tokens;
      tokens := tokens + [[top]];
      stack := stack[..|stack| - 1];
    }
    PostfixTokensShape(expression);
    TrimBuilder(tokens);
    r := Ok(Trim(postfix));
  }
}
