/** The character classification shared by the converter and the evaluator:
    `isOperator`, `isFunction`, `priority`, and ASCII stand-ins for
    `Character.isDigit` and `Character.isLetter`. */
module Classifier {

  predicate IsOperator(c: char) {
    c == '+' || c == '-' || c == '*' || c == '/' || c == '^'
  }

  predicate IsFunction(c: char) {
    c == 's' || c == 'c'
  }

  /** The precedence table: a total function, 0 for everything that is not an operator. */
  function Priority(op: char): (p: int)
    ensures 0 <= p <= 3
    ensures p == 0 <==> !IsOperator(op)
    ensures p == 1 <==> op == '+' || op == '-'
    ensures p == 2 <==> op == '*' || op == '/'
    ensures p == 3 <==> op == '^'
  {
    if op == '+' || op == '-' then 1
    else if op == '*' || op == '/' then 2
    else if op == '^' then 3
    else 0
  }

  predicate IsDigit(c: char) {
    '0' <= c <= '9'
  }

  predicate IsLetter(c: char) {
    'a' <= c <= 'z' || 'A' <= c <= 'Z'
  }

  /** The test `Character.isDigit(c) || Character.isLetter(c)` of the scanner. */
  predicate IsAlnum(c: char) {
    IsDigit(c) || IsLetter(c)
  }

  /** Both function markers are letters (and no operator), so every test that
      looks for a digit or a letter first claims them. */
  lemma FunctionMarkersAreLetters(c: char)
    ensures IsFunction(c) ==> IsLetter(c) && IsAlnum(c) && !IsOperator(c)
  {
  }

  /** The classes the converter distinguishes do not overlap, so the order of
      its tests matters only for the function markers. */
  lemma ClassesDisjoint(c: char)
    ensures IsOperator(c) ==> !IsAlnum(c) && c != '(' && c != ')' && c != ' '
    ensures IsAlnum(c) ==> c != '(' && c != ')' && c != ' '
  {
  }
}
