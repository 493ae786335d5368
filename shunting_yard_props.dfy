/** What `toPostfix` guarantees, proved about the functions of ShuntingYard:
    when it fails and with which error, what the emitted tokens look like,
    that operands keep their order and operators are only rearranged, and the
    priority discipline of the operator stack. */
module ShuntingYardProperties {
  import opened Outcome
  import opened Classifier
  import opened JavaStrings
  import opened ShuntingYard

  // ------------------------------------------------------------ shapes

  /** The function markers `s` and `c` are letters, so the scan always takes
      them into an operand run: the function branch of the conversion is
      never reached. */
  lemma MarkersStartOperands(sc: Scan)
    requires sc.rest != [] && IsFunction(sc.rest[0])
    ensures var n := RunLength(sc.rest);
      n > 0 && Step(sc) == Ok(Scan(sc.rest[n..], sc.stack, sc.out + [sc.rest[..n]]))
  {
    FunctionMarkersAreLetters(sc.rest[0]);
    StepAlnum(sc);
  }


  predicate IsOperandToken(t: string) {
    |t| > 0 && forall i :: 0 <= i < |t| ==> IsAlnum(t[i])
  }

  predicate IsOperatorToken(t: string) {
    |t| == 1 && IsOperator(t[0])
  }

  /** What may appear in the output: a run of digits and letters, or one operator. */
  predicate IsToken(t: string) {
    IsOperandToken(t) || IsOperatorToken(t)
  }

  predicate AllTokens(ts: seq<string>) {
    forall k :: 0 <= k < |ts| ==> IsToken(ts[k])
  }

  /** Only '(' and operators ever reside on the operator stack. */
  predicate StackShape(stack: seq<char>) {
    forall k :: 0 <= k < |stack| ==> stack[k] == '(' || IsOperator(stack[k])
  }

  /** Every entry that sits directly on an operator and is itself an
      operator has a strictly higher priority: within each segment above a
      '(' priorities strictly increase from bottom to top. */
  predicate Ordered(stack: seq<char>)
    decreases |stack|
  {
    |stack| < 2 ||
    (Ordered(stack[..|stack| - 1]) &&
     var below, top := stack[|stack| - 2], stack[|stack| - 1];
     below == '(' || top == '(' || Priority(below) < Priority(top))
  }

  lemma TokenIsSolid(t: string)
    requires IsToken(t)
    ensures Solid(t) && t != "(" && t != ")"
  {
    assert "("[0] == '(' && ")"[0] == ')';
  }

  lemma EmittedOperators(segment: seq<char>)
    requires '(' !in segment && StackShape(segment)
    ensures AllTokens(Emitted(segment))
  {
    var ts := Emitted(segment);
    forall k | 0 <= k < |ts| ensures IsToken(ts[k]) {
      assert segment[|segment| - 1 - k] in segment;
    }
  }

  lemma PushKeepsOrder(stack: seq<char>, c: char)
    requires Ordered(stack) && IsOperator(c)
    requires stack == [] || Priority(Top(stack)) < Priority(c)
    ensures Ordered(stack + [c])
  {
    assert (stack + [c])[..|stack|] == stack;
  }

  lemma {:induction false} PrefixKeepsShape(stack: seq<char>, k: nat)
    requires StackShape(stack) && Ordered(stack) && k <= |stack|
    ensures StackShape(stack[..k]) && Ordered(stack[..k])
    decreases |stack|
  {
    if k < |stack| {
      PrefixKeepsShape(stack[..|stack| - 1], k);
      assert stack[..|stack| - 1][..k] == stack[..k];
    } else {
      assert stack[..k] == stack;
    }
  }

  predicate Invariants(sc: Scan) {
    StackShape(sc.stack) && Ordered(sc.stack) && AllTokens(sc.out)
  }

  lemma AllTokensAppend(a: seq<string>, b: seq<string>)
    requires AllTokens(a) && AllTokens(b)
    ensures AllTokens(a + b)
  {
  }

  /** What an operator's popping loop emits are operator tokens: since its
      priority is at least 1, it never pops a '('. */
  lemma PopWhileEmitsTokens(stack: seq<char>, out: seq<string>, p: int)
    requires p >= 1 && StackShape(stack) && AllTokens(out)
    ensures AllTokens(PopWhile(stack, out, p).1)
  {
    var r := PopWhile(stack, out, p);
    assert forall k :: |r.0| <= k < |stack| ==> stack[k] != '(';
    assert '(' !in stack[|r.0|..];
    EmittedOperators(stack[|r.0|..]);
    AllTokensAppend(out, Emitted(stack[|r.0|..]));
  }

  lemma PrefixThenPush(stack: seq<char>, pre: seq<char>, c: char)
    requires IsOperator(c) && StackShape(stack) && Ordered(stack) && pre <= stack
    requires pre == [] || Priority(Top(pre)) < Priority(c)
    ensures StackShape(pre + [c]) && Ordered(pre + [c])
  {
    assert pre == stack[..|pre|];
    PrefixKeepsShape(stack, |pre|);
    PushKeepsOrder(pre, c);
  }

  lemma PopWhileThenPush(stack: seq<char>, out: seq<string>, c: char)
    requires IsOperator(c) && StackShape(stack) && Ordered(stack)
    ensures var r := PopWhile(stack, out, Priority(c));
      StackShape(r.0 + [c]) && Ordered(r.0 + [c])
  {
    var r := PopWhile(stack, out, Priority(c));
    PrefixThenPush(stack, r.0, c);
  }

  lemma PopUntilParenEmitsTokens(stack: seq<char>, out: seq<string>)
    requires StackShape(stack) && AllTokens(out)
    ensures AllTokens(PopUntilParen(stack, out).1)
  {
    var r := PopUntilParen(stack, out);
    assert '(' !in stack[|r.0|..];
    EmittedOperators(stack[|r.0|..]);
    AllTokensAppend(out, Emitted(stack[|r.0|..]));
  }

  lemma PopUntilParenThenDrop(stack: seq<char>, out: seq<string>)
    requires StackShape(stack) && Ordered(stack)
    ensures var r := PopUntilParen(stack, out);
      r.0 != [] ==> StackShape(r.0[..|r.0| - 1]) && Ordered(r.0[..|r.0| - 1])
  {
    var r := PopUntilParen(stack, out);
    assert r.0 == stack[..|r.0|];
    PrefixKeepsShape(stack, |r.0|);
    if r.0 != [] { PrefixKeepsShape(r.0, |r.0| - 1); }
  }

  lemma CloseKeepsInvariants(sc: Scan)
    requires sc.rest != [] && sc.rest[0] == ')' && Invariants(sc)
    ensures Step(sc).Ok? ==> Invariants(Step(sc).value)
  {
    StepClose(sc);
    PopUntilParenEmitsTokens(sc.stack, sc.out);
    PopUntilParenThenDrop(sc.stack, sc.out);
  }

  lemma OperatorKeepsInvariants(sc: Scan)
    requires sc.rest != [] && IsOperator(sc.rest[0]) && Invariants(sc)
    ensures Step(sc).Ok? && Invariants(Step(sc).value)
  {
    StepOperator(sc);
    PopWhileEmitsTokens(sc.stack, sc.out, Priority(sc.rest[0]));
    PopWhileThenPush(sc.stack, sc.out, sc.rest[0]);
  }

  /** A scan step keeps the stack's shape and its priority order and emits
      only tokens. */
  lemma StepKeepsInvariants(sc: Scan)
    requires sc.rest != [] && Invariants(sc)
    ensures Step(sc).Ok? ==> Invariants(Step(sc).value)
  {
    var c := sc.rest[0];
    if IsAlnum(c) {
      StepAlnum(sc);
    } else if c == '(' {
      StepOpen(sc);
    } else if c == ')' {
      CloseKeepsInvariants(sc);
    } else if IsOperator(c) {
      OperatorKeepsInvariants(sc);
    } else {
      StepOther(sc);
    }
  }

  lemma {:induction false} ConvertTokens(sc: Scan)
    requires Invariants(sc)
    ensures Convert(sc).Ok? ==> AllTokens(Convert(sc).value)
    decreases |sc.rest|
  {
    if sc.rest == [] {
      if '(' !in sc.stack { EmittedOperators(sc.stack); }
    } else {
      StepKeepsInvariants(sc);
      if Step(sc).Ok? { ConvertTokens(Step(sc).value); }
    }
  }

  /** On success every output token is an operand run or a single operator:
      in particular no '(' or ')' is emitted and every token is solid. */
  lemma PostfixTokensShape(expression: string)
    ensures PostfixTokens(expression).Ok? ==>
      var ts := PostfixTokens(expression).value;
      AllTokens(ts) && AllSolid(ts) &&
      forall k :: 0 <= k < |ts| ==> ts[k] != "(" && ts[k] != ")"
  {
    ConvertTokens(Scan(expression, [], []));
    if PostfixTokens(expression).Ok? {
      var ts := PostfixTokens(expression).value;
      forall k | 0 <= k < |ts| ensures Solid(ts[k]) && ts[k] != "(" && ts[k] != ")" {
        TokenIsSolid(ts[k]);
      }
    }
  }

  // ------------------------------------------------------ failure modes

  /** The characters `toPostfix` accepts. */
  predicate Recognised(c: char) {
    IsAlnum(c) || IsOperator(c) || c == '(' || c == ')' || c == ' '
  }

  /** A reference validator, independent of the stack: scan the characters
      keeping only the parenthesis depth, and report the first problem. */
  function Check(s: string, depth: nat): Option<Error> {
    if s == [] then (if depth > 0 then Some(UnclosedParen) else None)
    else if IsAlnum(s[0]) || IsOperator(s[0]) || s[0] == ' ' then Check(s[1..], depth)
    else if s[0] == '(' then Check(s[1..], depth + 1)
    else if s[0] == ')' then (if depth == 0 then Some(UnmatchedClose) else Check(s[1..], depth - 1))
    else Some(InvalidCharacter(s[0]))
  }

  /** The number of '(' on a stack. */
  function Depth(stack: seq<char>): nat {
    multiset(stack)['(']
  }

  lemma DepthSplit(stack: seq<char>, k: nat)
    requires k <= |stack|
    ensures Depth(stack) == Depth(stack[..k]) + Depth(stack[k..])
  {
    assert stack == stack[..k] + stack[k..];
  }

  lemma {:induction false} CheckSkipsRun(s: string, n: nat, depth: nat)
    requires n <= |s| && forall i :: 0 <= i < n ==> IsAlnum(s[i])
    ensures Check(s, depth) == Check(s[n..], depth)
  {
    if n > 0 {
      CheckSkipsRun(s[1..], n - 1, depth);
      assert s[1..][n - 1..] == s[n..];
    }
  }

  /** A prefix of a stack with no '(' above it has the stack's '(' count. */
  lemma PrefixDepth(stack: seq<char>, pre: seq<char>)
    requires pre <= stack && forall k :: |pre| <= k < |stack| ==> stack[k] != '('
    ensures Depth(pre) == Depth(stack)
  {
    DepthSplit(stack, |pre|);
    assert pre == stack[..|pre|];
    assert '(' !in multiset(stack[|pre|..]);
  }

  lemma PushDepth(stack: seq<char>, c: char)
    requires c != '('
    ensures Depth(stack + [c]) == Depth(stack)
  {
  }

  /** An operator's popping loop never removes a '(' (its priority is 0,
      below every operator's), so the '(' count is unchanged. */
  lemma PopWhileKeepsDepth(stack: seq<char>, out: seq<string>, c: char)
    requires IsOperator(c)
    ensures Depth(PopWhile(stack, out, Priority(c)).0 + [c]) == Depth(stack)
  {
    var r := PopWhile(stack, out, Priority(c));
    assert forall k :: |r.0| <= k < |stack| ==> stack[k] != '(' by {
      forall k | |r.0| <= k < |stack| ensures stack[k] != '(' {
        assert Priority(stack[k]) >= Priority(c);
      }
    }
    PrefixDepth(stack, r.0);
    PushDepth(r.0, c);
  }

  lemma DropParenDepth(pre: seq<char>)
    requires pre != [] && Top(pre) == '('
    ensures Depth(pre[..|pre| - 1]) + 1 == Depth(pre)
  {
    DepthSplit(pre, |pre| - 1);
    assert pre[|pre| - 1..] == ['('];
  }

  /** The loop of ')' empties the stack exactly when no '(' is pending, and
      otherwise removing the '(' it stops at lowers the count by one. */
  lemma PopUntilParenDepth(stack: seq<char>, out: seq<string>)
    ensures var r := PopUntilParen(stack, out);
      (r.0 == [] <==> Depth(stack) == 0) &&
      (r.0 != [] ==> Depth(r.0[..|r.0| - 1]) + 1 == Depth(stack))
  {
    var r := PopUntilParen(stack, out);
    PrefixDepth(stack, r.0);
    if r.0 != [] {
      DropParenDepth(r.0);
    }
  }

  /** A step keeps the validator's verdict: it succeeds, and the validator
      says the same of what is left as of what there was. */
  predicate StepAgrees(sc: Scan)
    requires sc.rest != []
  {
    Step(sc).Ok? &&
    Check(Step(sc).value.rest, Depth(Step(sc).value.stack)) == Check(sc.rest, Depth(sc.stack))
  }

  lemma AlnumMatchesCheck(sc: Scan)
    requires sc.rest != [] && IsAlnum(sc.rest[0])
    ensures StepAgrees(sc)
  {
    StepAlnum(sc);
    CheckSkipsRun(sc.rest, RunLength(sc.rest), Depth(sc.stack));
  }

  lemma OpenMatchesCheck(sc: Scan)
    requires sc.rest != [] && sc.rest[0] == '('
    ensures StepAgrees(sc)
  {
    StepOpen(sc);
    assert Depth(sc.stack + ['(']) == Depth(sc.stack) + 1;
  }

  lemma CloseMatchesCheck(sc: Scan)
    requires sc.rest != [] && sc.rest[0] == ')'
    ensures Depth(sc.stack) == 0 ==> Step(sc) == Err(UnmatchedClose) && Check(sc.rest, 0) == Some(UnmatchedClose)
    ensures Depth(sc.stack) > 0 ==> StepAgrees(sc)
  {
    StepClose(sc);
    PopUntilParenDepth(sc.stack, sc.out);
  }

  lemma OperatorMatchesCheck(sc: Scan)
    requires sc.rest != [] && IsOperator(sc.rest[0])
    ensures StepAgrees(sc)
  {
    StepOperator(sc);
    PopWhileKeepsDepth(sc.stack, sc.out, sc.rest[0]);
  }

  lemma OtherMatchesCheck(sc: Scan)
    requires sc.rest != [] && !IsAlnum(sc.rest[0]) && !IsOperator(sc.rest[0])
    requires sc.rest[0] != '(' && sc.rest[0] != ')'
    ensures sc.rest[0] == ' ' ==> StepAgrees(sc)
    ensures sc.rest[0] != ' ' ==>
      Step(sc) == Err(InvalidCharacter(sc.rest[0])) &&
      Check(sc.rest, Depth(sc.stack)) == Some(InvalidCharacter(sc.rest[0]))
  {
    StepOther(sc);
  }

  /** A step fails exactly when the validator stops at the first character,
      with the same error; otherwise it preserves the validator's verdict,
      the '(' count of the stack standing for the depth. */
  lemma StepMatchesCheck(sc: Scan)
    requires sc.rest != []
    ensures Step(sc).Err? <==>
      (sc.rest[0] == ')' && Depth(sc.stack) == 0) || !Recognised(sc.rest[0])
    ensures Step(sc).Err? ==> Some(Step(sc).error) == Check(sc.rest, Depth(sc.stack))
    ensures Step(sc).Ok? ==>
      Check(Step(sc).value.rest, Depth(Step(sc).value.stack)) == Check(sc.rest, Depth(sc.stack))
  {
    var c := sc.rest[0];
    if IsAlnum(c) {
      AlnumMatchesCheck(sc);
    } else if c == '(' {
      OpenMatchesCheck(sc);
    } else if c == ')' {
      CloseMatchesCheck(sc);
    } else if IsOperator(c) {
      OperatorMatchesCheck(sc);
    } else {
      OtherMatchesCheck(sc);
    }
  }

  lemma {:induction false} ConvertMatchesCheck(sc: Scan)
    ensures Convert(sc).Err? <==> Check(sc.rest, Depth(sc.stack)).Some?
    ensures Convert(sc).Err? ==> Some(Convert(sc).error) == Check(sc.rest, Depth(sc.stack))
    decreases |sc.rest|
  {
    if sc.rest == [] {
      assert '(' in sc.stack <==> '(' in multiset(sc.stack);
    } else {
      StepMatchesCheck(sc);
      if Step(sc).Ok? { ConvertMatchesCheck(Step(sc).value); }
    }
  }

  /** `toPostfix` fails exactly where the validator does, with the same error:
      the first unrecognised character, the first ')' without a pending '(',
      or a '(' still pending at the end, whichever comes first. */
  lemma PostfixFailsExactlyAsCheck(expression: string)
    ensures PostfixTokens(expression).Ok? <==> Check(expression, 0) == None
    ensures PostfixTokens(expression).Err? ==> Check(expression, 0) == Some(PostfixTokens(expression).error)
  {
    ConvertMatchesCheck(Scan(expression, [], []));
  }

  /** Net parenthesis depth: '(' counts +1, ')' counts -1. */
  function Net(s: string): int {
    if s == [] then 0
    else (if s[0] == '(' then 1 else if s[0] == ')' then -1 else 0) + Net(s[1..])
  }

  /** Every prefix has at least as many '(' as ')', and the whole has as many. */
  predicate Balanced(s: string) {
    Net(s) == 0 && forall k :: 0 <= k <= |s| ==> Net(s[..k]) >= 0
  }

  lemma {:induction false} CheckIsBalance(s: string, depth: nat)
    ensures Check(s, depth) == None <==>
      (forall i :: 0 <= i < |s| ==> Recognised(s[i])) &&
      depth + Net(s) == 0 && forall k :: 0 <= k <= |s| ==> depth + Net(s[..k]) >= 0
  {
    if s != [] {
      var delta := if s[0] == '(' then 1 else if s[0] == ')' then -1 else 0;
      assert forall k :: 1 <= k <= |s| ==> Net(s[..k]) == delta + Net(s[1..][..k - 1]) by {
        forall k | 1 <= k <= |s| ensures Net(s[..k]) == delta + Net(s[1..][..k - 1]) {
          assert s[..k][1..] == s[1..][..k - 1];
        }
      }
      assert Net(s[..0]) == 0 by { assert s[..0] == []; }
      if Recognised(s[0]) && !(s[0] == ')' && depth == 0) {
        var d' := depth + delta;
        CheckIsBalance(s[1..], d');
        assert (forall k :: 0 <= k <= |s[1..]| ==> d' + Net(s[1..][..k]) >= 0) <==>
               (forall k :: 1 <= k <= |s| ==> depth + Net(s[..k]) >= 0) by {
          if forall k :: 1 <= k <= |s| ==> depth + Net(s[..k]) >= 0 {
            forall k | 0 <= k <= |s[1..]| ensures d' + Net(s[1..][..k]) >= 0 {
              assert depth + Net(s[..k + 1]) >= 0;
            }
          }
        }
      } else if s[0] == ')' {
        assert depth + Net(s[..1]) < 0 by { assert s[..1][1..] == []; }
      } else {
        assert !Recognised(s[0]);
      }
    }
  }

  /** The headline: `toPostfix` succeeds exactly when every character is a
      digit, letter, operator, parenthesis or space and the parentheses balance. */
  lemma PostfixSucceedsIffBalanced(expression: string)
    ensures PostfixTokens(expression).Ok? <==>
      (forall i :: 0 <= i < |expression| ==> Recognised(expression[i])) && Balanced(expression)
  {
    PostfixFailsExactlyAsCheck(expression);
    CheckIsBalance(expression, 0);
  }

  /** An invalid-character error names a character of the expression that is
      not recognised; tab and every other character but ' ' count as invalid. */
  lemma {:induction false} CheckNamesInvalidCharacter(s: string, depth: nat, c: char)
    requires Check(s, depth) == Some(InvalidCharacter(c))
    ensures c in s && !Recognised(c)
  {
    if IsAlnum(s[0]) || IsOperator(s[0]) || s[0] == ' ' {
      CheckNamesInvalidCharacter(s[1..], depth, c);
    } else if s[0] == '(' {
      CheckNamesInvalidCharacter(s[1..], depth + 1, c);
    } else if s[0] == ')' {
      CheckNamesInvalidCharacter(s[1..], depth - 1, c);
    }
  }

  lemma InvalidCharacterIsInExpression(expression: string, c: char)
    requires PostfixTokens(expression) == Err(InvalidCharacter(c))
    ensures c in expression && !Recognised(c)
  {
    PostfixFailsExactlyAsCheck(expression);
    CheckNamesInvalidCharacter(expression, 0, c);
  }

  // ------------------------------------------- operands and operators

  /** The operand tokens of a token sequence, in order. */
  function Operands(ts: seq<string>): seq<string> {
    if ts == [] then []
    else (if IsOperandToken(ts[0]) then [ts[0]] else []) + Operands(ts[1..])
  }

  /** The operators among a token sequence, as a multiset of characters. */
  function OperatorsOf(ts: seq<string>): multiset<char> {
    if ts == [] then multiset{}
    else (if IsOperatorToken(ts[0]) then multiset{ts[0][0]} else multiset{}) + OperatorsOf(ts[1..])
  }

  /** The operator characters of a character sequence. */
  function OperatorChars(s: seq<char>): multiset<char> {
    if s == [] then multiset{}
    else (if IsOperator(s[0]) then multiset{s[0]} else multiset{}) + OperatorChars(s[1..])
  }

  /** A reference lexer: the maximal runs of digits and letters of `s`, in order,
      ignoring every other character. */
  function Runs(s: string): seq<string>
    decreases |s|
  {
    if s == [] then []
    else if IsAlnum(s[0]) then [s[..RunLength(s)]] + Runs(s[RunLength(s)..])
    else Runs(s[1..])
  }

  lemma {:induction false} OperandsAppend(a: seq<string>, b: seq<string>)
    ensures Operands(a + b) == Operands(a) + Operands(b)
  {
    if a != [] {
      assert (a + b)[0] == a[0] && (a + b)[1..] == a[1..] + b;
      OperandsAppend(a[1..], b);
      var h := if IsOperandToken(a[0]) then [a[0]] else [];
      assert Operands(a + b) == h + Operands(a[1..] + b);
      assert Operands(a) == h + Operands(a[1..]);
    } else {
      assert a + b == b;
    }
  }

  lemma {:induction false} OperatorsOfAppend(a: seq<string>, b: seq<string>)
    ensures OperatorsOf(a + b) == OperatorsOf(a) + OperatorsOf(b)
  {
    if a != [] {
      assert (a + b)[0] == a[0] && (a + b)[1..] == a[1..] + b;
      OperatorsOfAppend(a[1..], b);
      var h := if IsOperatorToken(a[0]) then multiset{a[0][0]} else multiset{};
      assert OperatorsOf(a + b) == h + OperatorsOf(a[1..] + b);
      assert OperatorsOf(a) == h + OperatorsOf(a[1..]);
    } else {
      assert a + b == b;
    }
  }

  lemma {:induction false} OperatorCharsAppend(a: seq<char>, b: seq<char>)
    ensures OperatorChars(a + b) == OperatorChars(a) + OperatorChars(b)
  {
    if a != [] {
      assert (a + b)[0] == a[0] && (a + b)[1..] == a[1..] + b;
      OperatorCharsAppend(a[1..], b);
      var h := if IsOperator(a[0]) then multiset{a[0]} else multiset{};
      assert OperatorChars(a + b) == h + OperatorChars(a[1..] + b);
      assert OperatorChars(a) == h + OperatorChars(a[1..]);
    } else {
      assert a + b == b;
    }
  }

  lemma {:induction false} OperatorCharsOfRun(s: seq<char>)
    requires forall i :: 0 <= i < |s| ==> IsAlnum(s[i])
    ensures OperatorChars(s) == multiset{}
  {
    if s != [] { OperatorCharsOfRun(s[1..]); }
  }

  /** The operator characters of a nonempty sequence, head first. */
  lemma HeadChars(s: seq<char>)
    requires s != []
    ensures OperatorChars(s) == OperatorChars([s[0]]) + OperatorChars(s[1..])
    ensures OperatorChars([s[0]]) == if IsOperator(s[0]) then multiset{s[0]} else multiset{}
  {
    assert [s[0]][1..] == [];
    assert s == [s[0]] + s[1..];
  }

  lemma {:induction false} EmittedHasNoOperands(segment: seq<char>)
    requires StackShape(segment)
    ensures Operands(Emitted(segment)) == []
    decreases |segment|
  {
    if segment != [] {
      var init, last := segment[..|segment| - 1], segment[|segment| - 1];
      var head: seq<string> := [[last]];
      EmittedHasNoOperands(init);
      assert Emitted(segment) == head + Emitted(init);
      OperandsAppend(head, Emitted(init));
      assert head[1..] == [];
      assert head[0][0] == last && !IsAlnum(last);
      assert !IsOperandToken(head[0]);
      assert Operands(head) == [];
    }
  }

  lemma {:induction false} EmittedOperatorChars(segment: seq<char>)
    ensures OperatorsOf(Emitted(segment)) == OperatorChars(segment)
    decreases |segment|
  {
    if segment != [] {
      var init, last := segment[..|segment| - 1], segment[|segment| - 1];
      var head: seq<string> := [[last]];
      EmittedOperatorChars(init);
      assert Emitted(segment) == head + Emitted(init);
      OperatorsOfAppend(head, Emitted(init));
      assert OperatorsOf(head) == OperatorChars([last]) by { HeadChars([last]); }
      assert segment == init + [last];
      OperatorCharsAppend(init, [last]);
    }
  }

  /** Popping a stack segment emits no operand and exactly its operators. */
  lemma EmittedCounts(segment: seq<char>)
    requires StackShape(segment)
    ensures Operands(Emitted(segment)) == []
    ensures OperatorsOf(Emitted(segment)) == OperatorChars(segment)
  {
    EmittedHasNoOperands(segment);
    EmittedOperatorChars(segment);
  }

  /** The bookkeeping a step keeps: the operands of the output followed by
      the runs still to read, and the operators of output, stack and rest
      taken together. */
  predicate SameOperands(a: Scan, b: Scan) {
    Operands(a.out) + Runs(a.rest) == Operands(b.out) + Runs(b.rest)
  }

  predicate SameOperators(a: Scan, b: Scan) {
    OperatorsOf(a.out) + OperatorChars(a.stack) + OperatorChars(a.rest) ==
      OperatorsOf(b.out) + OperatorChars(b.stack) + OperatorChars(b.rest)
  }

  lemma SingleToken(t: string)
    ensures Operands([t]) == if IsOperandToken(t) then [t] else []
    ensures OperatorsOf([t]) == if IsOperatorToken(t) then multiset{t[0]} else multiset{}
  {
    assert [t][1..] == [];
  }

  lemma AlnumStepOperands(sc: Scan)
    requires sc.rest != [] && IsAlnum(sc.rest[0])
    ensures Step(sc).Ok? && SameOperands(Step(sc).value, sc)
  {
    StepAlnum(sc);
    var n := RunLength(sc.rest);
    var tok := sc.rest[..n];
    assert IsOperandToken(tok);
    assert Runs(sc.rest) == [tok] + Runs(sc.rest[n..]);
    OperandThenRuns(sc.out, tok, Runs(sc.rest[n..]));
  }

  lemma OperandThenRuns(out: seq<string>, tok: string, runs: seq<string>)
    requires IsOperandToken(tok)
    ensures Operands(out + [tok]) + runs == Operands(out) + ([tok] + runs)
  {
    OperandsAppend(out, [tok]);
    SingleToken(tok);
  }

  lemma RunHasNoOperators(s: string)
    requires s != [] && IsAlnum(s[0])
    ensures OperatorChars(s) == OperatorChars(s[RunLength(s)..])
  {
    var n := RunLength(s);
    assert s == s[..n] + s[n..];
    OperatorCharsAppend(s[..n], s[n..]);
    OperatorCharsOfRun(s[..n]);
  }

  lemma AlnumStepOperators(sc: Scan)
    requires sc.rest != [] && IsAlnum(sc.rest[0])
    ensures Step(sc).Ok? && SameOperators(Step(sc).value, sc)
  {
    StepAlnum(sc);
    var tok := sc.rest[..RunLength(sc.rest)];
    OperatorsOfAppend(sc.out, [tok]);
    SingleToken(tok);
    assert !IsOperatorToken(tok) by { assert IsAlnum(tok[0]); }
    RunHasNoOperators(sc.rest);
  }

  lemma OpenStepCounts(sc: Scan)
    requires sc.rest != [] && sc.rest[0] == '('
    ensures Step(sc).Ok? && SameOperands(Step(sc).value, sc) && SameOperators(Step(sc).value, sc)
  {
    StepOpen(sc);
    HeadChars(sc.rest);
    OperatorCharsAppend(sc.stack, ['(']);
    assert OperatorChars(['(']) == multiset{} by { HeadChars(['(']); }
  }

  lemma CloseStepOperands(sc: Scan)
    requires sc.rest != [] && sc.rest[0] == ')' && StackShape(sc.stack)
    ensures Step(sc).Ok? ==> SameOperands(Step(sc).value, sc)
  {
    StepClose(sc);
    var r := PopUntilParen(sc.stack, sc.out);
    var seg := sc.stack[|r.0|..];
    assert StackShape(seg);
    EmittedHasNoOperands(seg);
    OperandsAppend(sc.out, Emitted(seg));
  }

  /** Emitting what lies above a '(' and removing the '(' keeps the operators. */
  lemma ParenSplitOperators(stack: seq<char>, pre: seq<char>, out: seq<string>)
    requires pre <= stack && pre != [] && Top(pre) == '('
    ensures OperatorsOf(out + Emitted(stack[|pre|..])) + OperatorChars(pre[..|pre| - 1]) ==
      OperatorsOf(out) + OperatorChars(stack)
  {
    var k := |pre|;
    var seg := stack[k..];
    var below := pre[..k - 1];
    EmittedOperatorChars(seg);
    OperatorsOfAppend(out, Emitted(seg));
    ParenSplit(stack, pre);
    ParenOperators(below, seg);
  }

  lemma ParenSplit(stack: seq<char>, pre: seq<char>)
    requires pre <= stack && pre != [] && Top(pre) == '('
    ensures stack == pre[..|pre| - 1] + ['('] + stack[|pre|..]
  {
    assert pre == stack[..|pre|];
    assert pre == pre[..|pre| - 1] + ['('];
  }

  lemma ParenOperators(below: seq<char>, seg: seq<char>)
    ensures OperatorChars(below + ['('] + seg) == OperatorChars(below) + OperatorChars(seg)
  {
    OperatorCharsAppend(below + ['('], seg);
    OperatorCharsAppend(below, ['(']);
    assert OperatorChars(['(']) == multiset{} by { HeadChars(['(']); }
  }

  lemma PopUntilParenOperators(stack: seq<char>, out: seq<string>)
    requires PopUntilParen(stack, out).0 != []
    ensures var r := PopUntilParen(stack, out);
      OperatorsOf(r.1) + OperatorChars(r.0[..|r.0| - 1]) == OperatorsOf(out) + OperatorChars(stack)
  {
    var r := PopUntilParen(stack, out);
    ParenSplitOperators(stack, r.0, out);
  }

  lemma CloseStepOperators(sc: Scan)
    requires sc.rest != [] && sc.rest[0] == ')'
    ensures Step(sc).Ok? ==> SameOperators(Step(sc).value, sc)
  {
    StepClose(sc);
    if PopUntilParen(sc.stack, sc.out).0 != [] {
      PopUntilParenOperators(sc.stack, sc.out);
      HeadChars(sc.rest);
    }
  }

  lemma RunsSkip(s: string)
    requires s != [] && !IsAlnum(s[0])
    ensures Runs(s) == Runs(s[1..])
  {
  }

  lemma PopWhileOperands(stack: seq<char>, out: seq<string>, p: int)
    requires StackShape(stack)
    ensures Operands(PopWhile(stack, out, p).1) == Operands(out)
  {
    var r := PopWhile(stack, out, p);
    var seg := stack[|r.0|..];
    assert StackShape(seg);
    EmittedHasNoOperands(seg);
    OperandsAppend(out, Emitted(seg));
  }

  lemma OperatorStepOperands(sc: Scan)
    requires sc.rest != [] && IsOperator(sc.rest[0]) && StackShape(sc.stack)
    ensures Step(sc).Ok? && SameOperands(Step(sc).value, sc)
  {
    StepOperator(sc);
    PopWhileOperands(sc.stack, sc.out, Priority(sc.rest[0]));
    RunsSkip(sc.rest);
  }

  lemma OperatorStepOperators(sc: Scan)
    requires sc.rest != [] && IsOperator(sc.rest[0])
    ensures Step(sc).Ok? && SameOperators(Step(sc).value, sc)
  {
    var c := sc.rest[0];
    StepOperator(sc);
    var r := PopWhile(sc.stack, sc.out, Priority(c));
    var seg := sc.stack[|r.0|..];
    EmittedOperatorChars(seg);
    OperatorsOfAppend(sc.out, Emitted(seg));
    assert sc.stack == r.0 + seg;
    OperatorCharsAppend(r.0, seg);
    OperatorCharsAppend(r.0, [c]);
    assert OperatorChars([c]) == multiset{c} by { HeadChars([c]); }
    HeadChars(sc.rest);
  }

  lemma StepCounts(sc: Scan)
    requires sc.rest != [] && StackShape(sc.stack)
    ensures Step(sc).Ok? ==> SameOperands(Step(sc).value, sc) && SameOperators(Step(sc).value, sc)
  {
    var c := sc.rest[0];
    if IsAlnum(c) {
      AlnumStepOperands(sc);
      AlnumStepOperators(sc);
    } else if c == '(' {
      OpenStepCounts(sc);
    } else if c == ')' {
      CloseStepOperands(sc);
      CloseStepOperators(sc);
    } else if IsOperator(c) {
      OperatorStepOperands(sc);
      OperatorStepOperators(sc);
    } else {
      StepOther(sc);
      HeadChars(sc.rest);
    }
  }

  lemma {:induction false} ConvertCounts(sc: Scan)
    requires Invariants(sc)
    ensures Convert(sc).Ok? ==>
      Operands(Convert(sc).value) == Operands(sc.out) + Runs(sc.rest) &&
      OperatorsOf(Convert(sc).value) == OperatorsOf(sc.out) + OperatorChars(sc.stack) + OperatorChars(sc.rest)
    decreases |sc.rest|
  {
    if sc.rest == [] {
      if '(' !in sc.stack {
        EmittedCounts(sc.stack);
        OperandsAppend(sc.out, Emitted(sc.stack));
        OperatorsOfAppend(sc.out, Emitted(sc.stack));
      }
    } else if Step(sc).Ok? {
      StepKeepsInvariants(sc);
      StepCounts(sc);
      ConvertCounts(Step(sc).value);
    }
  }

  /** On success the output holds the operand runs of the expression in
      their original order, and its operators are exactly the expression's
      operators, only reordered; nothing else is emitted. */
  lemma PostfixKeepsOperandsAndOperators(expression: string)
    ensures PostfixTokens(expression).Ok? ==>
      var ts := PostfixTokens(expression).value;
      Operands(ts) == Runs(expression) &&
      OperatorsOf(ts) == OperatorChars(expression) &&
      AllTokens(ts)
  {
    var sc := Scan(expression, [], []);
    ConvertCounts(sc);
    ConvertTokens(sc);
    assert Operands(sc.out) + Runs(sc.rest) == Runs(expression);
    assert OperatorsOf(sc.out) + OperatorChars(sc.stack) + OperatorChars(sc.rest) == OperatorChars(expression);
  }
}
