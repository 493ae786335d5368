/** How the converter orders two operators between three operands: the
    first operator leaves the stack before the second is pushed exactly when
    its priority is at least the second's. Equal priorities therefore group
    to the left, `^` included. */
module Associativity {
  import opened Outcome
  import opened Classifier
  import opened ShuntingYard
  import opened ScanConcat

  /** A maximal run of digits and letters, as the scan takes it. */
  predicate Operand(t: string) {
    t != [] && forall i :: 0 <= i < |t| ==> IsAlnum(t[i])
  }

  lemma ThreeGlue(a: string, op1: char, b: string, op2: char, c: string)
    ensures Glue([a, [op1], b, [op2], c]) == a + [op1] + b + [op2] + c
  {
    var ps := [a, [op1], b, [op2], c];
    assert ps[1..] == [[op1], b, [op2], c] && ps[2..] == [b, [op2], c];
    assert ps[3..] == [[op2], c] && ps[4..] == [c] && ps[5..] == [];
    assert Glue(ps[4..]) == c + [] == c;
    assert Glue(ps[3..]) == [op2] + c;
    assert Glue(ps[2..]) == b + ([op2] + c);
    assert Glue(ps[1..]) == [op1] + (b + ([op2] + c));
    assert Glue(ps) == a + ([op1] + (b + ([op2] + c)));
  }

  lemma ThreeSeparated(a: string, op1: char, b: string, op2: char, c: string)
    requires Operand(a) && Operand(b) && Operand(c) && IsOperator(op1) && IsOperator(op2)
    ensures Separated([a, [op1], b, [op2], c])
  {
    ClassesDisjoint(op1);
    ClassesDisjoint(op2);
  }

  /** The operator stack and the output once both operators have been read. */
  function AfterSecond(a: string, op1: char, b: string, op2: char): (seq<char>, seq<string>) {
    if Priority(op1) >= Priority(op2) then ([op2], [a, b, [op1]]) else ([op1, op2], [a, b])
  }

  lemma SecondOperator(a: string, op1: char, b: string, op2: char)
    requires IsOperator(op1) && IsOperator(op2)
    ensures Consume(Scan([op2], [op1], [a, b])) == Ok(Scan([], AfterSecond(a, op1, b, op2).0, AfterSecond(a, op1, b, op2).1))
  {
    ConsumeOperator(op2, [op1], [a, b]);
    assert [op1][..0] == [];
    assert [a, b] + [[op1]] == [a, b, [op1]];
    assert [] + [op2] == [op2] && [op1] + [op2] == [op1, op2];
  }

  lemma ThreeScan(a: string, op1: char, b: string, op2: char, c: string)
    requires Operand(a) && Operand(b) && Operand(c) && IsOperator(op1) && IsOperator(op2)
    ensures var s := AfterSecond(a, op1, b, op2);
      ScanPieces([a, [op1], b, [op2], c], [], []) == Ok(Scan([], s.0, s.1 + [c]))
  {
    var ps := [a, [op1], b, [op2], c];
    var s := AfterSecond(a, op1, b, op2);
    ConsumeRun(a, [], []);
    assert [] + [a] == [a];
    ScanPiecesAt(ps, 0, [], [], [], [a]);
    ConsumeOperator(op1, [], [a]);
    assert [] + [op1] == [op1];
    ScanPiecesAt(ps, 1, [], [a], [op1], [a]);
    ConsumeRun(b, [op1], [a]);
    assert [a] + [b] == [a, b];
    ScanPiecesAt(ps, 2, [op1], [a], [op1], [a, b]);
    SecondOperator(a, op1, b, op2);
    ScanPiecesAt(ps, 3, [op1], [a, b], s.0, s.1);
    ConsumeRun(c, s.0, s.1);
    ScanPiecesAt(ps, 4, s.0, s.1, s.0, s.1 + [c]);
    assert ps[0..] == ps && ps[5..] == [];
  }

  /** The postfix order of the two operators. */
  function TwoOperatorOrder(a: string, op1: char, b: string, op2: char, c: string): seq<string> {
    if Priority(op1) >= Priority(op2) then [a, b, [op1], c, [op2]] else [a, b, c, [op2], [op1]]
  }

  lemma ThreeDrain(a: string, op1: char, b: string, op2: char, c: string)
    requires IsOperator(op1) && IsOperator(op2)
    ensures var s := AfterSecond(a, op1, b, op2);
      Drain(s.0, s.1 + [c]) == Ok(TwoOperatorOrder(a, op1, b, op2, c))
  {
    if Priority(op1) >= Priority(op2) {
      assert [op2][..0] == [];
      assert [a, b, [op1]] + [c] + [[op2]] == [a, b, [op1], c, [op2]];
    } else {
      assert [op1, op2][..1] == [op1] && [op1][..0] == [];
      assert [a, b] + [c] + [[op2]] + [[op1]] == [a, b, c, [op2], [op1]];
      assert Drain([op1], [a, b] + [c] + [[op2]]) == Ok([a, b, c, [op2], [op1]]);
    }
  }

  /** `a op1 b op2 c` becomes `a b op1 c op2` when `op1` has at least the
      priority of `op2`, and `a b c op2 op1` otherwise. */
  lemma TwoOperators(a: string, op1: char, b: string, op2: char, c: string)
    requires Operand(a) && Operand(b) && Operand(c) && IsOperator(op1) && IsOperator(op2)
    ensures PostfixTokens(a + [op1] + b + [op2] + c) == Ok(TwoOperatorOrder(a, op1, b, op2, c))
  {
    var ps := [a, [op1], b, [op2], c];
    ThreeGlue(a, op1, b, op2, c);
    ThreeSeparated(a, op1, b, op2, c);
    ConsumeGlue(ps, [], []);
    ConvertIsConsumeThenDrain(Scan(a + [op1] + b + [op2] + c, [], []));
    ThreeScan(a, op1, b, op2, c);
    ThreeDrain(a, op1, b, op2, c);
  }

  /** Equal priority groups to the left. */
  lemma LeftAssociativeMinus()
    ensures PostfixTokens("a-b-c") == Ok(["a", "b", "-", "c", "-"])
  {
    assert "a-b-c" == "a" + ['-'] + "b" + ['-'] + "c";
    OperandsOfLiterals();
    TwoOperators("a", '-', "b", '-', "c");
  }

  /** `^` too groups to the left: `2^3^2` is `(2^3)^2`. */
  lemma LeftAssociativePower()
    ensures PostfixTokens("2^3^2") == Ok(["2", "3", "^", "2", "^"])
  {
    assert "2^3^2" == "2" + ['^'] + "3" + ['^'] + "2";
    OperandsOfLiterals();
    TwoOperators("2", '^', "3", '^', "2");
  }

  /** A higher priority waits on the stack for its second operand. */
  lemma HigherPriorityWaits()
    ensures PostfixTokens("1+2*3") == Ok(["1", "2", "3", "*", "+"])
  {
    assert "1+2*3" == "1" + ['+'] + "2" + ['*'] + "3";
    OperandsOfLiterals();
    TwoOperators("1", '+', "2", '*', "3");
  }

  /** A higher priority on the stack leaves before a lower one is pushed. */
  lemma HigherPriorityLeaves()
    ensures PostfixTokens("1*2+3") == Ok(["1", "2", "*", "3", "+"])
  {
    assert "1*2+3" == "1" + ['*'] + "2" + ['+'] + "3";
    OperandsOfLiterals();
    TwoOperators("1", '*', "2", '+', "3");
  }

  lemma OperandsOfLiterals()
    ensures Operand("a") && Operand("b") && Operand("c")
    ensures Operand("1") && Operand("2") && Operand("3")
  {
  }
}
