/** Outcomes of the calculator: every `throw` site of Calculator.java becomes one
    error variant, and so do the three runtime crashes the Java code does not
    guard against. */
module Outcome {

  datatype Error =
    | UnmatchedClose                      // toPostfix: ')' with no '(' on the stack
    | InvalidCharacter(c: char)           // toPostfix: a character no branch accepts
    | UnclosedParen                       // toPostfix: '(' left on the stack at the end
    | NotEnoughOperands                   // doPostfix: operator with fewer than 2 values
    | NotEnoughOperandsForFunction        // doPostfix: function with no value
    | InvalidPostfixToken(token: string)  // doPostfix: element matching no branch
    | TooManyOperands                     // doPostfix: stack size is not 1 at the end
    | DivisionByZero                      // doAct: '/' with a zero divisor
    | UnknownOperator(op: char)           // doAct: default case
    | UnknownFunction(f: char)            // applyFunction: default case
    | EmptyToken                          // doPostfix: charAt(0) on an empty element
    | InputExhausted                      // doPostfix: the value source has no next value
    | TooManyVariables                    // doPostfix: a 101st name overflows the 100 slots

  datatype Result<T> = Ok(value: T) | Err(error: Error)

  datatype Option<T> = None | Some(value: T)
}
