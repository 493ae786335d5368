/** Scanning a concatenation in pieces. `Consume` is the scan of
    `ShuntingYard.Convert` without the final drain; as long as no run of
    digits and letters straddles the seam, scanning `a + rest` is scanning
    `a` and then `rest` from where `a` left the stack and the output. */
module ScanConcat {
  import opened Outcome
  import opened Classifier
  import opened ShuntingYard

  /** Every step of the scan, stopping when the input is used up. */
  function Consume(sc: Scan): (r: Result<Scan>)
    ensures r.Ok? ==> r.value.rest == []
    decreases |sc.rest|
  {
    if sc.rest == [] then Ok(sc)
    else
      match Step(sc)
      case Err(e) => Err(e)
      case Ok(next) => Consume(next)
  }

  /** The conversion is the scan followed by the drain. */
  lemma {:induction false} ConvertIsConsumeThenDrain(sc: Scan)
    ensures Convert(sc) == match Consume(sc)
      case Err(e) => Err(e)
      case Ok(f) => Drain(f.stack, f.out)
    decreases |sc.rest|
  {
    if sc.rest != [] && Step(sc).Ok? {
      ConvertIsConsumeThenDrain(Step(sc).value);
    }
  }

  /** No run of digits and letters crosses from `a` into `rest`. */
  predicate Seam(a: string, rest: string) {
    a == [] || rest == [] || !IsAlnum(a[|a| - 1]) || !IsAlnum(rest[0])
  }

  lemma {:induction false} RunLengthConcat(a: string, rest: string)
    requires a != [] && Seam(a, rest)
    ensures RunLength(a + rest) == RunLength(a)
    decreases |a|
  {
    if IsAlnum(a[0]) {
      assert (a + rest)[0] == a[0] && (a + rest)[1..] == a[1..] + rest;
      if |a| == 1 {
        assert a[1..] + rest == rest;
      } else {
        assert a[1..][|a| - 2] == a[|a| - 1];
        RunLengthConcat(a[1..], rest);
      }
    } else {
      assert (a + rest)[0] == a[0];
    }
  }

  /** One step on `a + rest` is the step on `a` with `rest` still to come. */
  lemma StepConcat(a: string, rest: string, stack: seq<char>, out: seq<string>)
    requires a != [] && Seam(a, rest)
    ensures Step(Scan(a + rest, stack, out)) == match Step(Scan(a, stack, out))
      case Err(e) => Err(e)
      case Ok(next) => Ok(Scan(next.rest + rest, next.stack, next.out))
  {
    var c := a[0];
    assert (a + rest)[0] == c;
    if IsAlnum(c) {
      RunLengthConcat(a, rest);
      var n := RunLength(a);
      StepAlnum(Scan(a, stack, out));
      StepAlnum(Scan(a + rest, stack, out));
      assert (a + rest)[n..] == a[n..] + rest;
      assert (a + rest)[..n] == a[..n];
    } else {
      assert (a + rest)[1..] == a[1..] + rest;
      if c == '(' {
        StepOpen(Scan(a, stack, out));
        StepOpen(Scan(a + rest, stack, out));
      } else if c == ')' {
        StepClose(Scan(a, stack, out));
        StepClose(Scan(a + rest, stack, out));
      } else if IsOperator(c) {
        StepOperator(Scan(a, stack, out));
        StepOperator(Scan(a + rest, stack, out));
      } else {
        StepOther(Scan(a, stack, out));
        StepOther(Scan(a + rest, stack, out));
      }
    }
  }

  /** Scanning a concatenation is scanning its two parts one after the other. */
  lemma {:induction false} ConsumeConcat(a: string, rest: string, stack: seq<char>, out: seq<string>)
    requires Seam(a, rest)
    ensures Consume(Scan(a + rest, stack, out)) == match Consume(Scan(a, stack, out))
      case Err(e) => Err(e)
      case Ok(f) => Consume(Scan(rest, f.stack, f.out))
    decreases |a|
  {
    if a == [] {
      assert a + rest == rest;
    } else {
      StepConcat(a, rest, stack, out);
      var step := Step(Scan(a, stack, out));
      if step.Ok? {
        var next := step.value;
        assert Seam(next.rest, rest) by {
          if next.rest != [] {
            assert next.rest[|next.rest| - 1] == a[|a| - 1];
          }
        }
        ConsumeConcat(next.rest, rest, next.stack, next.out);
        if next.rest == [] {
          assert next.rest + rest == rest;
        }
      }
    }
  }

  /** The pieces the scan is made of: a run of digits and letters is one token. */
  lemma ConsumeRun(t: string, stack: seq<char>, out: seq<string>)
    requires t != [] && forall i :: 0 <= i < |t| ==> IsAlnum(t[i])
    ensures Consume(Scan(t, stack, out)) == Ok(Scan([], stack, out + [t]))
  {
    StepAlnum(Scan(t, stack, out));
    assert t[|t|..] == [] && t[..|t|] == t;
  }

  /** An operator pops what has at least its priority and is then pushed. */
  lemma ConsumeOperator(op: char, stack: seq<char>, out: seq<string>)
    requires IsOperator(op)
    ensures var p := PopWhile(stack, out, Priority(op));
      Consume(Scan([op], stack, out)) == Ok(Scan([], p.0 + [op], p.1))
  {
    StepOperator(Scan([op], stack, out));
  }

  lemma ConsumeOpen(stack: seq<char>, out: seq<string>)
    ensures Consume(Scan("(", stack, out)) == Ok(Scan([], stack + ['('], out))
  {
    StepOpen(Scan("(", stack, out));
  }

  /** A ')' pops to the nearest '(' and removes it, or fails without one. */
  lemma ConsumeClose(stack: seq<char>, out: seq<string>)
    ensures var p := PopUntilParen(stack, out);
      Consume(Scan(")", stack, out)) ==
        if p.0 == [] then Err(UnmatchedClose) else Ok(Scan([], p.0[..|p.0| - 1], p.1))
  {
    StepClose(Scan(")", stack, out));
  }

  lemma ConsumeSpace(stack: seq<char>, out: seq<string>)
    ensures Consume(Scan(" ", stack, out)) == Ok(Scan([], stack, out))
  {
    StepOther(Scan(" ", stack, out));
  }

  /** The concatenation of a list of pieces. */
  function Glue(ps: seq<string>): string {
    if ps == [] then [] else ps[0] + Glue(ps[1..])
  }

  /** Scanning the pieces one after the other. */
  function ScanPieces(ps: seq<string>, stack: seq<char>, out: seq<string>): (r: Result<Scan>)
    ensures r.Ok? ==> r.value.rest == []
  {
    if ps == [] then Ok(Scan([], stack, out))
    else
      match Consume(Scan(ps[0], stack, out))
      case Err(e) => Err(e)
      case Ok(f) => ScanPieces(ps[1..], f.stack, f.out)
  }

  /** No two neighbouring pieces join into one run of digits and letters. */
  predicate Separated(ps: seq<string>) {
    (forall i :: 0 <= i < |ps| ==> ps[i] != []) &&
    forall i :: 0 <= i < |ps| - 1 ==> !IsAlnum(ps[i][|ps[i]| - 1]) || !IsAlnum(ps[i + 1][0])
  }

  lemma {:induction false} GlueHead(ps: seq<string>)
    requires |ps| >= 2 && ps[1] != []
    ensures Glue(ps[1..]) != [] && Glue(ps[1..])[0] == ps[1][0]
  {
    assert ps[1..][0] == ps[1];
  }

  lemma SeparatedTail(ps: seq<string>)
    requires ps != [] && Separated(ps)
    ensures Separated(ps[1..])
  {
    assert forall i :: 0 <= i < |ps| - 1 ==> ps[1..][i] == ps[i + 1];
  }

  /** A scan of separated pieces is the scan of their concatenation. */
  lemma {:induction false} ConsumeGlue(ps: seq<string>, stack: seq<char>, out: seq<string>)
    requires Separated(ps)
    ensures Consume(Scan(Glue(ps), stack, out)) == ScanPieces(ps, stack, out)
    decreases |ps|
  {
    if ps != [] {
      assert Seam(ps[0], Glue(ps[1..])) by {
        if |ps| >= 2 {
          GlueHead(ps);
        } else {
          assert ps[1..] == [];
        }
      }
      ConsumeConcat(ps[0], Glue(ps[1..]), stack, out);
      var head := Consume(Scan(ps[0], stack, out));
      if head.Ok? {
        SeparatedTail(ps);
        ConsumeGlue(ps[1..], head.value.stack, head.value.out);
      }
    }
  }

  /** The scan of the pieces from the `k`-th on, one piece at a time. */
  lemma ScanPiecesAt(ps: seq<string>, k: nat, stack: seq<char>, out: seq<string>, stack': seq<char>, out': seq<string>)
    requires k < |ps| && Consume(Scan(ps[k], stack, out)) == Ok(Scan([], stack', out'))
    ensures ScanPieces(ps[k..], stack, out) == ScanPieces(ps[k + 1..], stack', out')
  {
    assert ps[k..][0] == ps[k] && ps[k..][1..] == ps[k + 1..];
  }
}
