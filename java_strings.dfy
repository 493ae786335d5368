/** The three pieces of the Java string library the calculator relies on:
    `StringBuilder` appends (each token followed by a space), `String.trim()`
    and `String.split("\\s+")`, together with the single-space join that
    describes the converter's output. */
module JavaStrings {

  /** The class `\s` of Java regular expressions: space, tab, newline,
      vertical tab, form feed and carriage return. */
  predicate IsWhitespace(c: char) {
    c == ' ' || c == '\t' || c == '\n' || c == '\r' || c as int == 11 || c as int == 12
  }

  predicate NoWhitespace(s: string) {
    forall i :: 0 <= i < |s| ==> !IsWhitespace(s[i])
  }

  /** A token that survives both `trim` and `split`: non-empty, every
      character above U+0020. */
  predicate Solid(t: string) {
    |t| > 0 && forall i :: 0 <= i < |t| ==> t[i] > ' '
  }

  predicate AllSolid(ts: seq<string>) {
    forall k :: 0 <= k < |ts| ==> Solid(ts[k])
  }

  lemma SolidHasNoWhitespace(t: string)
    requires Solid(t)
    ensures NoWhitespace(t)
  {
  }

  // ---------------------------------------------------------------- trim

  /** Drops the leading characters at or below U+0020. */
  function TrimStart(s: string): (r: string)
    ensures |r| <= |s| && r == s[|s| - |r|..]
    ensures forall i :: 0 <= i < |s| - |r| ==> s[i] <= ' '
    ensures r != [] ==> r[0] > ' '
  {
    if s != [] && s[0] <= ' ' then TrimStart(s[1..]) else s
  }

  /** Drops the trailing characters at or below U+0020. */
  function TrimEnd(s: string): (r: string)
    ensures |r| <= |s| && r == s[..|r|]
    ensures forall i :: |r| <= i < |s| ==> s[i] <= ' '
    ensures r != [] ==> r[|r| - 1] > ' '
  {
    if s != [] && s[|s| - 1] <= ' ' then TrimEnd(s[..|s| - 1]) else s
  }

  /** `r` is `s` from index `k` on, with only characters at or below U+0020
      left out before and after it. */
  predicate TrimmedAt(s: string, r: string, k: int) {
    0 <= k && k + |r| <= |s| && r == s[k..k + |r|] &&
    (forall i :: 0 <= i < k ==> s[i] <= ' ') &&
    (forall i :: k + |r| <= i < |s| ==> s[i] <= ' ')
  }

  /** Trimming the front and then the back trims both ends of the original. */
  lemma TrimmedFrom(s: string, t: string, r: string)
    requires |t| <= |s| && t == s[|s| - |t|..] && forall i :: 0 <= i < |s| - |t| ==> s[i] <= ' '
    requires |r| <= |t| && r == t[..|r|] && forall i :: |r| <= i < |t| ==> t[i] <= ' '
    ensures TrimmedAt(s, r, |s| - |t|)
  {
    var k := |s| - |t|;
    assert forall i :: k <= i < |s| ==> s[i] == t[i - k];
  }

  /** `String.trim()`. */
  function Trim(s: string): (r: string)
    ensures r != [] ==> r[0] > ' ' && r[|r| - 1] > ' '
    ensures exists k :: TrimmedAt(s, r, k)
  {
    TrimmedFrom(s, TrimStart(s), TrimEnd(TrimStart(s)));
    TrimEnd(TrimStart(s))
  }

  // ------------------------------------------------------ builder and join

  /** The contents of a `StringBuilder` to which every token was appended
      followed by one space, in order. */
  function Builder(ts: seq<string>): string {
    if ts == [] then "" else Builder(ts[..|ts| - 1]) + ts[|ts| - 1] + " "
  }

  /** The tokens separated by single spaces. */
  function Join(ts: seq<string>): string {
    if ts == [] then ""
    else if |ts| == 1 then ts[0]
    else ts[0] + " " + Join(ts[1..])
  }

  lemma {:induction false} JoinSnoc(ts: seq<string>, t: string)
    requires ts != []
    ensures Join(ts + [t]) == Join(ts) + " " + t
  {
    if |ts| == 1 {
      assert (ts + [t])[1..] == [t];
    } else {
      assert (ts + [t])[1..] == ts[1..] + [t];
      JoinSnoc(ts[1..], t);
    }
  }

  lemma {:induction false} BuilderIsJoinAndSpace(ts: seq<string>)
    requires ts != []
    ensures Builder(ts) == Join(ts) + " "
  {
    var init := ts[..|ts| - 1];
    if init == [] {
      assert ts == [ts[0]];
    } else {
      BuilderIsJoinAndSpace(init);
      JoinSnoc(init, ts[|ts| - 1]);
      assert init + [ts[|ts| - 1]] == ts;
    }
  }

  /** The first character of a join is the first token's, the last is the last token's. */
  lemma {:induction false} JoinEnds(ts: seq<string>)
    requires ts != [] && AllSolid(ts)
    ensures |Join(ts)| >= |ts[0]|
    ensures Join(ts)[0] == ts[0][0]
    ensures Join(ts)[|Join(ts)| - 1] == ts[|ts| - 1][|ts[|ts| - 1]| - 1]
  {
    if |ts| > 1 {
      JoinEnds(ts[1..]);
    }
  }

  /** A builder of solid tokens, trimmed, is their single-space join: the
      trailing space is the only character `trim` removes. */
  lemma TrimBuilder(ts: seq<string>)
    requires AllSolid(ts)
    ensures Trim(Builder(ts)) == Join(ts)
  {
    if ts != [] {
      BuilderIsJoinAndSpace(ts);
      JoinEnds(ts);
      var j := Join(ts);
      assert TrimStart(j + " ") == j + " ";
      assert (j + " ")[..|j|] == j;
      assert TrimEnd(j + " ") == TrimEnd(j);
    }
  }

  // --------------------------------------------------------------- split

  /** Index of the first whitespace character, or |s| when there is none. */
  function FirstWhitespace(s: string): (k: nat)
    ensures k <= |s|
    ensures forall i :: 0 <= i < k ==> !IsWhitespace(s[i])
    ensures k < |s| ==> IsWhitespace(s[k])
  {
    if s == [] || IsWhitespace(s[0]) then 0 else 1 + FirstWhitespace(s[1..])
  }

  /** The length of the maximal whitespace prefix. */
  function LeadingWhitespace(s: string): (n: nat)
    ensures n <= |s|
    ensures forall i :: 0 <= i < n ==> IsWhitespace(s[i])
    ensures n < |s| ==> !IsWhitespace(s[n])
  {
    if s != [] && IsWhitespace(s[0]) then 1 + LeadingWhitespace(s[1..]) else 0
  }

  /** The pieces between maximal whitespace runs, empty pieces included. */
  function Pieces(s: string): (ps: seq<string>)
    ensures |ps| > 0
    ensures forall k :: 0 <= k < |ps| ==> NoWhitespace(ps[k])
    ensures forall k :: 0 < k < |ps| - 1 ==> ps[k] != ""
    decreases |s|
  {
    var k := FirstWhitespace(s);
    if k == |s| then [s]
    else
      var n := LeadingWhitespace(s[k..]);
      [s[..k]] + Pieces(s[k..][n..])
  }

  function DropTrailingEmpty(ps: seq<string>): (r: seq<string>)
    ensures r <= ps
    ensures r != [] ==> r[|r| - 1] != ""
    ensures forall k :: |r| <= k < |ps| ==> ps[k] == ""
  {
    if ps != [] && ps[|ps| - 1] == "" then DropTrailingEmpty(ps[..|ps| - 1]) else ps
  }

  /** `String.split("\\s+")`: a leading empty string is kept, trailing empty
      strings are removed, and an input without a match is returned whole
      (so the empty string splits into one empty element). */
  function SplitWhitespace(s: string): (r: seq<string>)
    ensures forall k :: 0 <= k < |r| ==> NoWhitespace(r[k])
    ensures forall k :: 0 < k < |r| ==> r[k] != ""
    ensures s == "" ==> r == [""]
    ensures s != "" && r != [] ==> r[|r| - 1] != ""
  {
    if s == "" then [""] else DropTrailingEmpty(Pieces(s))
  }

  /** A maximal run of whitespace. */
  predicate Gap(w: string) {
    w != [] && forall i :: 0 <= i < |w| ==> IsWhitespace(w[i])
  }

  /** The whitespace runs between the pieces, in order. */
  function Gaps(s: string): (ws: seq<string>)
    ensures forall k :: 0 <= k < |ws| ==> Gap(ws[k])
    decreases |s|
  {
    var k := FirstWhitespace(s);
    if k == |s| then []
    else
      var n := LeadingWhitespace(s[k..]);
      [s[k..][..n]] + Gaps(s[k..][n..])
  }

  /** Pieces and gaps, alternately, starting and ending with a piece. */
  function Weave(ps: seq<string>, ws: seq<string>): string
    requires |ps| == |ws| + 1
  {
    if ws == [] then ps[0] else ps[0] + ws[0] + Weave(ps[1..], ws[1..])
  }

  /** `n` empty strings. */
  function Blanks(n: nat): (bs: seq<string>)
    ensures |bs| == n && forall k :: 0 <= k < n ==> bs[k] == ""
  {
    seq(n, _ => "")
  }

  lemma WeaveCons(p: string, w: string, ps: seq<string>, ws: seq<string>)
    requires |ps| == |ws| + 1
    ensures Weave([p] + ps, [w] + ws) == p + w + Weave(ps, ws)
  {
    assert ([p] + ps)[1..] == ps && ([w] + ws)[1..] == ws;
  }

  lemma CutTwice(s: string, k: nat, n: nat)
    requires k <= |s| && n <= |s| - k
    ensures s == s[..k] + s[k..][..n] + s[k..][n..]
  {
  }

  /** The pieces woven with the gaps give the string back. */
  lemma {:induction false} PiecesWeave(s: string)
    ensures |Pieces(s)| == |Gaps(s)| + 1
    ensures Weave(Pieces(s), Gaps(s)) == s
    decreases |s|
  {
    var k := FirstWhitespace(s);
    if k < |s| {
      var n := LeadingWhitespace(s[k..]);
      var tail := s[k..][n..];
      PiecesWeave(tail);
      WeaveCons(s[..k], s[k..][..n], Pieces(tail), Gaps(tail));
      CutTwice(s, k, n);
    }
  }

  /** `split` loses nothing but whitespace: its elements, followed by the
      empty pieces it drops at the end and separated by the whitespace runs
      of `s`, give `s` back. */
  lemma SplitWhitespaceRebuilds(s: string)
    requires s != ""
    ensures |SplitWhitespace(s)| <= |Gaps(s)| + 1
    ensures Weave(SplitWhitespace(s) + Blanks(|Gaps(s)| + 1 - |SplitWhitespace(s)|), Gaps(s)) == s
  {
    var ps := Pieces(s);
    var r := SplitWhitespace(s);
    assert r == DropTrailingEmpty(ps);
    PiecesWeave(s);
    RestoreTrailingEmpty(ps);
    assert r + Blanks(|Gaps(s)| + 1 - |r|) == ps;
  }

  lemma RestoreTrailingEmpty(ps: seq<string>)
    ensures DropTrailingEmpty(ps) + Blanks(|ps| - |DropTrailingEmpty(ps)|) == ps
  {
    var r := DropTrailingEmpty(ps);
    var bs := Blanks(|ps| - |r|);
    assert forall k :: |r| <= k < |ps| ==> (r + bs)[k] == bs[k - |r|] == ps[k];
  }

  lemma {:induction false} PiecesOfJoin(ts: seq<string>)
    requires ts != [] && AllSolid(ts)
    ensures Pieces(Join(ts)) == ts
  {
    var s := Join(ts);
    if |ts| == 1 {
      SolidHasNoWhitespace(ts[0]);
    } else {
      var t := ts[0];
      var j := Join(ts[1..]);
      assert s == t + " " + j;
      SolidHasNoWhitespace(t);
      JoinEnds(ts[1..]);
      assert s[|t|] == ' ';
      var k := FirstWhitespace(s);
      assert k == |t|;
      assert s[..k] == t;
      assert s[k..] == " " + j;
      var n := LeadingWhitespace(s[k..]);
      assert n == 1 by {
        assert (" " + j)[1] == j[0];
      }
      assert s[k..][n..] == j;
      PiecesOfJoin(ts[1..]);
    }
  }

  /** Splitting a non-empty single-space join of solid tokens gives the tokens back. */
  lemma SplitJoin(ts: seq<string>)
    requires ts != [] && AllSolid(ts)
    ensures SplitWhitespace(Join(ts)) == ts
  {
    PiecesOfJoin(ts);
    JoinEnds(ts);
  }
}
