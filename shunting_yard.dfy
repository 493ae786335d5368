/** The infix-to-postfix conversion of `toPostfix` as functions over the
    scanner's state: the unread rest of the expression, the operator stack
    (top at the end; every entry a one-character string in the source, a
    `char` here) and the tokens emitted so far. One `Step` is one iteration
    of the source's outer `for` loop. */
module ShuntingYard {
  import opened Outcome
  import opened Classifier
  import opened JavaStrings

  datatype Scan = Scan(rest: string, stack: seq<char>, out: seq<string>)

  function Top(stack: seq<char>): char
    requires stack != []
  {
    stack[|stack| - 1]
  }

  /** The length of the maximal run of digits and letters at the front of `s`:
      the inner `while` that merges a run into one operand token. */
  function RunLength(s: string): (n: nat)
    ensures n <= |s|
    ensures forall i :: 0 <= i < n ==> IsAlnum(s[i])
    ensures n == |s| || !IsAlnum(s[n])
  {
    if s != [] && IsAlnum(s[0]) then 1 + RunLength(s[1..]) else 0
  }

  /** The tokens a stack segment produces when popped entry by entry, top first. */
  function Emitted(segment: seq<char>): (ts: seq<string>)
    ensures |ts| == |segment|
    ensures forall k :: 0 <= k < |ts| ==> ts[k] == [segment[|segment| - 1 - k]]
  {
    if segment == [] then []
    else [[segment[|segment| - 1]]] + Emitted(segment[..|segment| - 1])
  }

  lemma EmittedStep(stack: seq<char>, keep: nat)
    requires keep < |stack|
    ensures Emitted(stack[keep..]) == [[Top(stack)]] + Emitted(stack[..|stack| - 1][keep..])
  {
    assert stack[keep..][..|stack[keep..]| - 1] == stack[..|stack| - 1][keep..];
  }

  /** The loop of an operator: pop and emit while the top's priority is at
      least `p`. The stack is cut back to a prefix, what was popped is emitted
      top first, everything popped has priority at least `p`, and the new
      top (if any) has priority below `p`. */
  function PopWhile(stack: seq<char>, out: seq<string>, p: int): (r: (seq<char>, seq<string>))
    ensures r.0 <= stack
    ensures r.1 == out + Emitted(stack[|r.0|..])
    ensures forall k :: |r.0| <= k < |stack| ==> Priority(stack[k]) >= p
    ensures r.0 == [] || Priority(Top(r.0)) < p
    decreases |stack|
  {
    if stack != [] && Priority(Top(stack)) >= p then
      var r := PopWhile(stack[..|stack| - 1], out + [[Top(stack)]], p);
      EmittedStep(stack, |r.0|);
      r
    else
      (stack, out)
  }

  /** The loop of ')': pop and emit until a '(' is on top or the stack is
      empty. Nothing popped is a '('. */
  function PopUntilParen(stack: seq<char>, out: seq<string>): (r: (seq<char>, seq<string>))
    ensures r.0 <= stack
    ensures r.1 == out + Emitted(stack[|r.0|..])
    ensures forall k :: |r.0| <= k < |stack| ==> stack[k] != '('
    ensures r.0 == [] || Top(r.0) == '('
    decreases |stack|
  {
    if stack != [] && Top(stack) != '(' then
      var r := PopUntilParen(stack[..|stack| - 1], out + [[Top(stack)]]);
      EmittedStep(stack, |r.0|);
      r
    else
      (stack, out)
  }

  /** The final loop: empty the stack onto the output, failing at a '('.
      It succeeds exactly when no '(' is left, and then emits the whole stack. */
  function Drain(stack: seq<char>, out: seq<string>): (r: Result<seq<string>>)
    ensures r.Ok? <==> '(' !in stack
    ensures r.Ok? ==> r.value == out + Emitted(stack)
    ensures r.Err? ==> r.error == UnclosedParen
    decreases |stack|
  {
    if stack == [] then Ok(out)
    else if Top(stack) == '(' then Err(UnclosedParen)
    else
      var r := Drain(stack[..|stack| - 1], out + [[Top(stack)]]);
      assert stack == stack[..|stack| - 1] + [Top(stack)];
      EmittedStep(stack, 0);
      r
  }

  /** One iteration of the scan. The branches are tried in the source's
      order: digit or letter, '(', ')', operator, function marker, space. The
      function-marker branch is absent because both markers are letters and
      the first branch always takes them (Classifier.FunctionMarkersAreLetters). */
  function Step(sc: Scan): (r: Result<Scan>)
    requires sc.rest != []
    ensures r.Ok? ==> |r.value.rest| < |sc.rest| && r.value.rest == sc.rest[|sc.rest| - |r.value.rest|..]
  {
    var c := sc.rest[0];
    if IsDigit(c) || IsLetter(c) then
      var n := RunLength(sc.rest);
      Ok(Scan(sc.rest[n..], sc.stack, sc.out + [sc.rest[..n]]))
    else if c == '(' then
      Ok(Scan(sc.rest[1..], sc.stack + ['('], sc.out))
    else if c == ')' then
      var popped := PopUntilParen(sc.stack, sc.out);
      if popped.0 == [] then Err(UnmatchedClose)
      else Ok(Scan(sc.rest[1..], popped.0[..|popped.0| - 1], popped.1))
    else if IsOperator(c) then
      var popped := PopWhile(sc.stack, sc.out, Priority(c));
      Ok(Scan(sc.rest[1..], popped.0 + [c], popped.1))
    else if c != ' ' then
      Err(InvalidCharacter(c))
    else
      Ok(Scan(sc.rest[1..], sc.stack, sc.out))
  }

  lemma StepAlnum(sc: Scan)
    requires sc.rest != [] && IsAlnum(sc.rest[0])
    ensures var n := RunLength(sc.rest);
      n > 0 && Step(sc) == Ok(Scan(sc.rest[n..], sc.stack, sc.out + [sc.rest[..n]]))
  {
  }

  lemma StepOpen(sc: Scan)
    requires sc.rest != [] && sc.rest[0] == '('
    ensures Step(sc) == Ok(Scan(sc.rest[1..], sc.stack + ['('], sc.out))
  {
  }

  lemma StepClose(sc: Scan)
    requires sc.rest != [] && sc.rest[0] == ')'
    ensures var r := PopUntilParen(sc.stack, sc.out);
      Step(sc) == if r.0 == [] then Err(UnmatchedClose) else Ok(Scan(sc.rest[1..], r.0[..|r.0| - 1], r.1))
  {
  }

  lemma StepOperator(sc: Scan)
    requires sc.rest != [] && IsOperator(sc.rest[0])
    ensures var r := PopWhile(sc.stack, sc.out, Priority(sc.rest[0]));
      Step(sc) == Ok(Scan(sc.rest[1..], r.0 + [sc.rest[0]], r.1))
  {
    var r := PopWhile(sc.stack, sc.out, Priority(sc.rest[0]));
    assert Step(sc).Ok? && Step(sc).value.rest == sc.rest[1..];
    assert Step(sc).value.stack == r.0 + [sc.rest[0]] && Step(sc).value.out == r.1;
  }

  lemma StepOther(sc: Scan)
    requires sc.rest != [] && !IsAlnum(sc.rest[0]) && !IsOperator(sc.rest[0])
    requires sc.rest[0] != '(' && sc.rest[0] != ')'
    ensures Step(sc) == if sc.rest[0] == ' ' then Ok(Scan(sc.rest[1..], sc.stack, sc.out))
                        else Err(InvalidCharacter(sc.rest[0]))
  {
  }

  /** The whole scan followed by the final drain; the first error wins. */
  function Convert(sc: Scan): Result<seq<string>>
    decreases |sc.rest|
  {
    if sc.rest == [] then Drain(sc.stack, sc.out)
    else
      match Step(sc)
      case Err(e) => Err(e)
      case Ok(next) => Convert(next)
  }

  /** The postfix tokens of an expression. */
  function PostfixTokens(expression: string): Result<seq<string>> {
    Convert(Scan(expression, [], []))
  }

  /** The string `toPostfix` returns: the tokens joined by single spaces. */
  function PostfixText(expression: string): Result<string> {
    match PostfixTokens(expression)
    case Err(e) => Err(e)
    case Ok(ts) => Ok(Join(ts))
  }
}
