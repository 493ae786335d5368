# Calculator: infix to postfix, and a postfix evaluator with a variable memo

A Dafny model of the `Calculator` class of the SK1349/2 repository. The class
evaluates arithmetic expressions in two stages.

- **Converter.** `toPostfix` is a shunting-yard conversion. It makes one
  left-to-right scan with an operator stack and a string builder. Each run of
  digits and letters becomes one operand token. Operators pop every stacked
  entry whose priority is at least their own, so all operators are
  left-associative.
- **Evaluator.** `doPostfix` splits the postfix string on whitespace and runs a
  value-stack machine. It has a memo of up to 100 variables, kept in two
  parallel arrays. The first occurrence of a name reads one value from the
  value source; later occurrences reuse the stored value.
- **Composition.** `calculate` runs the converter, then the evaluator.

The files follow that structure.

| file | module | what it holds |
|---|---|---|
| outcome.dfy | `Outcome` | `Result`/`Option`; one `Error` variant per `throw` site, plus the three unguarded crashes |
| classifier.dfy | `Classifier` | `isOperator`, `isFunction`, `priority`, and the ASCII `Character.isDigit`/`isLetter` |
| java_strings.dfy | `JavaStrings` | `trim`, `split("\\s+")`, the builder's `token + ' '` appends, and the join by single spaces |
| shunting_yard.dfy | `ShuntingYard` | the conversion as a function: one `Step` per iteration of the outer `for` loop, then the final drain |
| converter.dfy | `Converter` | `toPostfix` as the source writes it: loops over a `seq<char>` stack and a `string` builder, proved equal to the function |
| shunting_yard_props.dfy | `ShuntingYardProperties` | error cases, token shapes, the stack's priority order, operand order, the operator multiset |
| scan_concat.dfy | `ScanConcat` | scanning a concatenation piece by piece |
| associativity.dfy | `Associativity` | how two operators between three operands are ordered |
| postfix_machine.dfy | `PostfixMachine` | `doAct`, `applyFunction`, and the evaluator as a function over a `Machine` state |
| evaluator.dfy | `Evaluator` | `doPostfix` as the source writes it: two 100-slot arrays, a counter and a linear search, proved equal to the function |
| postfix_machine_props.dfy | `PostfixMachineProperties` | operator arithmetic, the stack height, the memo, and an evaluator over an environment |
| reference.dfy | `Reference` | expression trees: the converter and the evaluator agree with tree printing, tree postfix order and tree evaluation |
| precedence.dfy | `Precedence` | trees written with the fewest parentheses the priorities allow: the converter still yields the tree's postfix order |
| calculator.dfy | `CalculatorModel` | the `Calculator` class and `calculate` |
| examples.dfy | `Examples` | the repository's test cases, and the concrete cases above, as lemmas |

How the source's behaviour maps to the model:

- **Value source.** The `Scanner` becomes a sequence `input: seq<real>`. Each new
  name takes its next element. Running out yields `InputExhausted`, where Java
  throws `NoSuchElementException`.
- **Numbers.** Values are `real`. `Math.pow`, `Math.sin` and `Math.cos` are
  fields of a `MathLib` parameter and are otherwise unconstrained. The
  divisor test at line 218 compares with exactly `0.0`.
- **Single letters.** Both function markers are letters. The digit/letter test
  at line 57 comes before `isFunction` at line 79, and the `[a-zA-Z]+` test at
  line 114 comes before `isFunction` at line 140. So `s` and `c` are always
  operands or variables. `ShuntingYardProperties.MarkersStartOperands`
  and `PostfixMachineProperties.MarkersAreVariables` prove this. `isFunction`
  names `s` and `c` as function markers, but the digit/letter tests run first,
  so only an element such as `s2` (a marker followed by a digit) reaches the
  evaluator's function branch.

## Model

| member | source | states |
|---|---|---|
| Classifier.Priority | src/main/java/org/example/Calculator.java:185-198 | total: 1 exactly for `+ -`, 2 exactly for `* /`, 3 exactly for `^`, and 0 exactly for every non-operator, including `(` |
| Classifier.FunctionMarkersAreLetters | src/main/java/org/example/Calculator.java:175-177 | `s` and `c` are letters and no operator, so the digit/letter tests claim them first |
| Classifier.ClassesDisjoint | src/main/java/org/example/Calculator.java:165-167 | an operator is no digit, letter, parenthesis or space, so the branches of the scan are exclusive |
| Examples.TestClassifierAndDoAct | src/test/java/org/example/TestCalculator.java:40-75 | testIsOperator, testPriority, testDoAct and testApplyFunction. Division by 0.0 fails; `^`, sine and cosine give the library's values |
| PostfixMachine.DoAct | src/main/java/org/example/Calculator.java:209-227 | fails exactly for a non-operator (unknown operator) or for `/` with divisor 0.0 (division by zero); `^` is `pow(a, b)` |
| PostfixMachineProperties.DoActInverses | src/main/java/org/example/Calculator.java:211-221 | `+` and `*` commute; `-` undoes `+`; `/` by a nonzero value undoes `*` |
| PostfixMachine.ApplyFunction | src/main/java/org/example/Calculator.java:237-246 | succeeds exactly for `s` (sine) and `c` (cosine); any other character is an unknown function |
| ShuntingYard.RunLength | src/main/java/org/example/Calculator.java:57-62 | the length of the maximal run of digits and letters at the front |
| ShuntingYard.PopWhile | src/main/java/org/example/Calculator.java:75-77 | leaves a prefix of the stack whose top, if any, has priority below `p`; everything popped has priority at least `p` and is emitted top first |
| ShuntingYard.PopUntilParen | src/main/java/org/example/Calculator.java:67-69 | leaves a prefix of the stack that is empty or has `(` on top; nothing popped is a `(`, and it is emitted top first |
| ShuntingYard.Drain | src/main/java/org/example/Calculator.java:86-91 | succeeds exactly when no `(` is on the stack, and then emits the whole stack top first; otherwise fails with an unclosed parenthesis |
| ShuntingYard.Step | src/main/java/org/example/Calculator.java:55-84 | every successful iteration consumes at least one character and leaves a suffix of the input |
| Converter.AppendRun | src/main/java/org/example/Calculator.java:57-62 | the inner `while` stops on the last character of the maximal run and appends exactly that run |
| Converter.PopToParen | src/main/java/org/example/Calculator.java:67-69 | the loop of `)` computes `PopUntilParen` and appends each popped entry and a space to the builder |
| Converter.PopAtLeast | src/main/java/org/example/Calculator.java:75-77 | the loop of an operator computes `PopWhile` and appends each popped entry and a space to the builder |
| Converter.ScanStep | src/main/java/org/example/Calculator.java:56-83 | one iteration of the `for` loop fails exactly when `Step` fails, with its error; otherwise it reaches `Step`'s next state, with the builder in step |
| Converter.ToPostfix | src/main/java/org/example/Calculator.java:51-94 | `toPostfix` returns exactly the first error, or the postfix tokens joined by single spaces |
| JavaStrings.TrimBuilder | src/main/java/org/example/Calculator.java:93 | trimming the builder's `token + ' '` appends gives the tokens joined by single spaces |
| JavaStrings.SplitJoin | src/main/java/org/example/Calculator.java:106 | `split("\\s+")` of tokens joined by single spaces gives back exactly those tokens |
| JavaStrings.Trim | src/main/java/org/example/Calculator.java:93 | the result is a slice of `s` that starts and ends above U+0020, and everything of `s` before and after it is at or below U+0020 |
| JavaStrings.SplitWhitespace | src/main/java/org/example/Calculator.java:106 | no element holds whitespace; only the first may be empty, and the last is not empty unless it is the only element of the split of `""`, which is `[""]` |
| JavaStrings.PiecesWeave | src/main/java/org/example/Calculator.java:106 | the pieces between the whitespace runs, woven back with those runs, give the string back |
| JavaStrings.SplitWhitespaceRebuilds | src/main/java/org/example/Calculator.java:106 | the elements of `split("\\s+")`, followed by the empty pieces it drops at the end and separated by the string's whitespace runs, give the string back |
| ShuntingYardProperties.MarkersStartOperands | src/main/java/org/example/Calculator.java:57-63 | a function marker starts an operand run, so the `isFunction` branch at lines 79-80 is never taken |
| ShuntingYardProperties.PostfixTokensShape | src/main/java/org/example/Calculator.java:51-94 | on success every token is an operand run or one operator character; none is `(` or `)`, and none holds whitespace |
| ShuntingYardProperties.StepKeepsInvariants | src/main/java/org/example/Calculator.java:74-78 | each step keeps only `(` and operators on the stack, with priorities strictly increasing within each segment above a `(`, and emits only tokens |
| ShuntingYardProperties.PopWhileKeepsDepth | src/main/java/org/example/Calculator.java:75 | an operator's loop never pops a `(`, since `(` has priority 0 |
| ShuntingYardProperties.PopUntilParenDepth | src/main/java/org/example/Calculator.java:67-73 | the `)` loop empties the stack exactly when no `(` is stacked, and otherwise removes exactly one `(` |
| ShuntingYardProperties.StepMatchesCheck | src/main/java/org/example/Calculator.java:55-84 | a step fails exactly on an unrecognised character or a `)` at depth 0, with the validator's error; otherwise it preserves the validator's verdict |
| ShuntingYardProperties.ConvertMatchesCheck | src/main/java/org/example/Calculator.java:55-91 | the conversion from any state fails exactly when the depth-only validator does, with the same error |
| ShuntingYardProperties.PostfixFailsExactlyAsCheck | src/main/java/org/example/Calculator.java:51-94 | `toPostfix` fails exactly when the validator does, with the same error: the first unrecognised character, the first unmatched `)`, or a `(` unclosed at the end |
| ShuntingYardProperties.PostfixSucceedsIffBalanced | src/main/java/org/example/Calculator.java:51-94 | `toPostfix` succeeds exactly when every character is a digit, letter, operator, parenthesis or space, and the parentheses balance |
| ShuntingYardProperties.CheckIsBalance | src/main/java/org/example/Calculator.java:66-91 | from any starting depth, the validator accepts exactly strings of recognised characters whose running depth never goes negative and ends at zero |
| ShuntingYardProperties.InvalidCharacterIsInExpression | src/main/java/org/example/Calculator.java:81-82 | an invalid-character error names a character of the expression that no branch accepts |
| ShuntingYardProperties.PostfixKeepsOperandsAndOperators | src/main/java/org/example/Calculator.java:51-94 | on success the operand tokens are the expression's runs in their original order, and the operators are exactly the expression's, only reordered |
| ShuntingYardProperties.StepCounts | src/main/java/org/example/Calculator.java:55-84 | a step keeps operands emitted followed by runs unread, and the multiset of operators across output, stack and input |
| Associativity.TwoOperators | src/main/java/org/example/Calculator.java:74-78 | `a op1 b op2 c` becomes `a b op1 c op2` when `op1` has at least the priority of `op2`, and `a b c op2 op1` otherwise |
| Associativity.LeftAssociativeMinus | src/main/java/org/example/Calculator.java:75 | `a-b-c` becomes `a b - c -` |
| Associativity.LeftAssociativePower | src/main/java/org/example/Calculator.java:75 | `2^3^2` becomes `2 3 ^ 2 ^`: `^` groups to the left |
| Associativity.HigherPriorityWaits | src/main/java/org/example/Calculator.java:74-78 | `1+2*3` becomes `1 2 3 * +` |
| Associativity.HigherPriorityLeaves | src/main/java/org/example/Calculator.java:74-78 | `1*2+3` becomes `1 2 * 3 +` |
| ScanConcat.ConsumeConcat | src/main/java/org/example/Calculator.java:55-84 | when no run crosses the seam, scanning `a + rest` is scanning `a` and then `rest` from where `a` left off |
| Reference.PostfixOfPrint | src/main/java/org/example/Calculator.java:51-94 | every fully parenthesised expression tree converts to the tree's postfix order |
| Reference.ExecEnvPost | src/main/java/org/example/Calculator.java:132-139 | running a tree's postfix order pushes the tree's value (left operand, right operand, then `doAct`), or fails as the tree's evaluation does |
| Reference.CalculateTree | src/main/java/org/example/Calculator.java:39-42 | when the converter turns a text into a tree's postfix order, the input holds a value for each distinct variable and there are at most 100 of them, `calculate` returns the tree's value or its first error (such as division by zero), the k-th distinct variable in postfix order taking the k-th input value |
| Reference.CalculatePrint | src/main/java/org/example/Calculator.java:39-42 | the same for a fully parenthesised tree |
| Precedence.PendingShape | src/main/java/org/example/Calculator.java:74-78 | after a tree's text is scanned, the operators left on the stack bind at least as tightly as the root, and popping them completes the tree's postfix order |
| Precedence.PopWhileLands | src/main/java/org/example/Calculator.java:75-77 | an operator pops exactly the stacked segment that binds at least as tightly, and stops at a top that binds less tightly |
| Precedence.PopUntilParenLands | src/main/java/org/example/Calculator.java:67-69 | `)` pops exactly the operators above the nearest `(` |
| Precedence.ConsumePrec | src/main/java/org/example/Calculator.java:55-84 | scanning a tree written with the fewest parentheses, over a stack whose top binds less tightly than the root, leaves that stack plus the pending operators and emits the rest of the postfix order |
| Precedence.PostfixOfPrintPrec | src/main/java/org/example/Calculator.java:51-94 | every tree written with parentheses only where the priorities and left grouping need them converts to the tree's postfix order |
| Precedence.CalculatePrintPrec | src/main/java/org/example/Calculator.java:39-42 | `calculate` on such a text returns the tree's value or its first error, under the same conditions on the input as `Reference.CalculateTree` |
| Precedence.MixedPriorities | src/main/java/org/example/Calculator.java:74-78 | `1-2*3+4` becomes `1 2 3 * - 4 +` |
| Precedence.ParenthesisedOperand | src/main/java/org/example/Calculator.java:39-94 | `(1+2)*3^2-4` becomes `1 2 + 3 2 ^ * 4 -` and evaluates to `3 * pow(3, 2) - 4` |
| PostfixMachine.IndexOf | src/main/java/org/example/Calculator.java:115-121 | the first slot holding the name, or the count when none does |
| PostfixMachine.Step | src/main/java/org/example/Calculator.java:111-149 | one element keeps the table within its 100 slots |
| PostfixMachineProperties.OperatorStep | src/main/java/org/example/Calculator.java:132-139 | an operator fails with fewer than 2 values, fails as `doAct` does, or pops `b` then `a` and pushes `doAct(a, b)` |
| PostfixMachineProperties.FunctionStep | src/main/java/org/example/Calculator.java:140-146 | an element that starts with `s`/`c` and is not all letters fails with no value stacked, or replaces the top value by its sine or cosine |
| PostfixMachineProperties.MarkersAreVariables | src/main/java/org/example/Calculator.java:114-131 | a lone `s` or `c` is looked up or read as a variable, never applied as a function |
| PostfixMachineProperties.InvalidElement | src/main/java/org/example/Calculator.java:147-148 | an element is invalid exactly when it is nonempty, not all digits, not all letters, and starts with neither an operator nor a marker; the error names the element |
| PostfixMachineProperties.ParseNumeral | src/main/java/org/example/Calculator.java:112-113 | a printed natural number is all digits and parses back to itself |
| PostfixMachineProperties.StepEffect | src/main/java/org/example/Calculator.java:111-149 | a successful element changes the stack height by +1 (operand), -1 (operator) or 0 (function) |
| PostfixMachineProperties.ExecEffect | src/main/java/org/example/Calculator.java:111-150 | a successful run changes the stack height by the sum of the elements' effects |
| PostfixMachineProperties.EvaluateEffect | src/main/java/org/example/Calculator.java:152-156 | a successful evaluation has total effect exactly 1 |
| PostfixMachineProperties.StepMemo | src/main/java/org/example/Calculator.java:114-131 | a new name reads exactly one value, stores it and pushes it; a known name or a number reads nothing; the names stay distinct |
| PostfixMachineProperties.ExecMemo | src/main/java/org/example/Calculator.java:111-150 | over a run, the table grows by the new names in order of first occurrence, each value read is stored in order, and one value is read per new name |
| PostfixMachineProperties.StartMemo | src/main/java/org/example/Calculator.java:104-131 | from an empty table, the names are the distinct names in first-occurrence order, and their values are exactly that many first inputs |
| PostfixMachineProperties.ExecAsEnv | src/main/java/org/example/Calculator.java:111-150 | the memo machine computes what a machine without memo computes when every name has its stored value |
| PostfixMachineProperties.ExecInEnv | src/main/java/org/example/Calculator.java:111-150 | when the environment agrees with the table and with the values still waiting for the names to come, the memo machine fails exactly as the memo-free evaluator does, and otherwise computes the same stack |
| PostfixMachineProperties.RunInInputEnv | src/main/java/org/example/Calculator.java:104-150 | with a value for every distinct name and at most 100 names, the run from an empty table is, errors included, the memo-free evaluation that gives the k-th new name the k-th input value |
| PostfixMachineProperties.EvaluateAsEnv | src/main/java/org/example/Calculator.java:104-157 | `doPostfix` returns the single value that evaluation in that environment leaves, or fails with too many operands |
| Evaluator.FindVariable | src/main/java/org/example/Calculator.java:115-121 | the search loop returns -1 exactly when the name is absent, and otherwise its first slot |
| Evaluator.ApplyElement | src/main/java/org/example/Calculator.java:112-149 | one iteration over the arrays fails exactly when `Step` fails, with its error, and otherwise reaches `Step`'s next state in the arrays' first `count'` slots |
| Evaluator.DoPostfix | src/main/java/org/example/Calculator.java:104-157 | `doPostfix` returns exactly the outcome of the machine on the split postfix string |
| CalculatorModel.CalculationRunsTokens | src/main/java/org/example/Calculator.java:39-42 | the evaluator sees exactly the converter's tokens; a conversion error is returned as is; an expression with no token fails on the empty element |
| CalculatorModel.CalculationReadsVariablesInOrder | src/main/java/org/example/Calculator.java:39-42 | operands reach the evaluator in written order; one value is read per distinct name, in first-occurrence order in the postfix; a success has exactly one more all-digit or all-letter element than operator elements, a function element such as `s2` counting as neither |
| CalculatorModel.Calculator.constructor | src/main/java/org/example/Calculator.java:19-21 | stores the expression |
| CalculatorModel.Calculator.Calculate | src/main/java/org/example/Calculator.java:39-42 | `calculate` returns exactly the conversion's error, or the evaluation of its postfix string |
| Examples.TestToPostfixText | src/test/java/org/example/TestCalculator.java:15-20 | testToPostfix: `3 + 2 * (5 - x)` becomes `3 2 5 x - * +` |
| Examples.TestDoPostfix | src/test/java/org/example/TestCalculator.java:23-29 | testDoPostfix: `3 2 5 2 - * +` with input 2 evaluates to 9 |
| Examples.TestCalculate | src/test/java/org/example/TestCalculator.java:32-38 | testCalculate: `3 + 2 * (5 - x)` with 2 read for `x` gives 9 |
| Examples.MixedRunIsOneToken | src/main/java/org/example/Calculator.java:57-63 | `2x` is one token |
| Examples.MixedRunIsRejected | src/main/java/org/example/Calculator.java:147-148 | `calculate` on `2x` fails: the evaluator rejects the mixed token |
| Examples.TabIsInvalid | src/main/java/org/example/Calculator.java:81-82 | only the space is skipped: `1\t2` fails on the tab |
| Examples.MixedElementIsFunction | src/main/java/org/example/Calculator.java:140-146 | the element `s2` replaces the top value by its sine |

## Left out

- Prompts and the `Scanner` (lines 123-124): the printing is dropped, and the value source is the `input` sequence.
- Floating point: values are mathematical reals, and `Double.parseDouble` reads a digit string as the natural number it denotes. `Math.pow`, `Math.sin` and `Math.cos` are uninterpreted parameters. Rounding, infinities and NaN are not modelled.
- Unicode: `Character.isDigit` and `Character.isLetter` are modelled on ASCII letters and digits only.
- `split("\\s+")` is modelled for the six ASCII whitespace characters that Java's `\s` matches. `trim` strips every character up to U+0020, as Java's does.
- `getExpression` (lines 28-30) is a plain accessor; the model reads the `expression` field directly.
- `Stack<String>` holds only one-character strings in `toPostfix`, so it is modelled as a `seq<char>`. `Stack<Double>` is a `seq<real>`.
- The builder: `Converter.ToPostfix` keeps the emitted tokens as ghost state beside the builder string, to state what the builder holds.
- The `isFunction` branch of `toPostfix` (lines 79-80) is kept in the method with a proof that it is unreachable. The conversion function `ShuntingYard.Step` leaves it out for the same reason.
- Incidental crashes are explicit errors, not preconditions. An empty element (`charAt(0)` at line 132) gives `EmptyToken`. An exhausted value source gives `InputExhausted`. A 101st distinct name gives `TooManyVariables`; Java reads the value before the array store overflows, so an exhausted source is reported first.
- Exception messages are not modelled; each `throw` is an `Error` variant.
- Reference.CalculateTree, Reference.CalculatePrint and Precedence.CalculatePrintPrec: say nothing about trees with more distinct variables than input values or more than 100 of them. Those runs fail with `InputExhausted` or `TooManyVariables` at the name that overflows. `PostfixMachineProperties.NameStep` states this one element at a time.
