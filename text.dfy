/**
 * The string operations of Rust's standard library that the command front end
 * relies on: `split_whitespace`, `trim`, `split(",")` (first item only) and
 * `replace(",", " , ")`. Whitespace is the fixed set space, tab, line feed and
 * carriage return.
 */
module Text {

  /** The whitespace characters recognised by `split_whitespace` and `trim`. */
  predicate IsSpace(c: char) {
    c == ' ' || c == '\t' || c == '\n' || c == '\r'
  }

  /** A token as `split_whitespace` yields it: non-empty, free of whitespace. */
  predicate IsToken(w: string) {
    w != [] && forall i :: 0 <= i < |w| ==> !IsSpace(w[i])
  }

  /** A string holding nothing but whitespace (possibly empty). */
  predicate AllSpace(s: string) {
    forall i :: 0 <= i < |s| ==> IsSpace(s[i])
  }

  /** Length of the longest whitespace-free prefix of `s`. */
  function TokenLength(s: string): (n: nat)
    ensures n <= |s|
    ensures forall i :: 0 <= i < n ==> !IsSpace(s[i])
    ensures n < |s| ==> IsSpace(s[n])
  {
    if s == [] || IsSpace(s[0]) then 0 else 1 + TokenLength(s[1..])
  }

  /** `s.split_whitespace().collect()`: the maximal whitespace-free runs of `s`, in order. */
  function SplitWhitespace(s: string): (r: seq<string>)
    ensures forall k :: 0 <= k < |r| ==> IsToken(r[k])
    decreases |s|
  {
    if s == [] then []
    else if IsSpace(s[0]) then SplitWhitespace(s[1..])
    else
      var n := TokenLength(s);
      [s[..n]] + SplitWhitespace(s[n..])
  }

  /** The tokens joined by single spaces: the inverse of `SplitWhitespace` on tokens. */
  function Join(ts: seq<string>): string {
    if |ts| == 0 then ""
    else if |ts| == 1 then ts[0]
    else ts[0] + " " + Join(ts[1..])
  }

  /** `s.trim_start()`. */
  function TrimStart(s: string): (r: string)
    ensures |r| <= |s| && r == s[|s| - |r|..]
    ensures AllSpace(s[..|s| - |r|])
    ensures r == [] || !IsSpace(r[0])
  {
    if s != [] && IsSpace(s[0]) then
      var r := TrimStart(s[1..]);
      TrimStartStep(s, r);
      r
    else s
  }

  /** A leading whitespace character joins the margin that `TrimStart` drops. */
  lemma TrimStartStep(s: string, r: string)
    requires s != [] && IsSpace(s[0])
    requires |r| <= |s| - 1 && r == s[1..][|s| - 1 - |r|..]
    requires AllSpace(s[1..][..|s| - 1 - |r|])
    ensures r == s[|s| - |r|..]
    ensures AllSpace(s[..|s| - |r|])
  {
    var k := |s| - |r|;
    forall j | 0 < j < k
      ensures IsSpace(s[..k][j])
    {
      assert s[..k][j] == s[1..][..k - 1][j - 1];
    }
  }

  /** `s.trim_end()`. */
  function TrimEnd(s: string): (r: string)
    ensures |r| <= |s| && r == s[..|r|]
    ensures AllSpace(s[|r|..])
    ensures r == [] || !IsSpace(r[|r| - 1])
  {
    if s != [] && IsSpace(s[|s| - 1]) then TrimEnd(s[..|s| - 1]) else s
  }

  /**
   * `s.trim()`: a piece of `s` that neither starts nor ends with whitespace
   * and that holds exactly the tokens of `s`.
   */
  function Trim(s: string): (r: string)
    ensures |r| <= |s|
    ensures r == [] || (!IsSpace(r[0]) && !IsSpace(r[|r| - 1]))
    ensures SplitWhitespace(r) == SplitWhitespace(s)
  {
    var t := TrimStart(s);
    SplitTrimStart(s);
    SplitTrimEnd(t);
    TrimEnd(t)
  }

  /** `s.split(",").collect()[0]`: everything before the first ASCII comma. */
  function BeforeFirstComma(s: string): (r: string)
    ensures |r| <= |s| && r == s[..|r|]
    ensures ',' !in r
    ensures |r| < |s| ==> s[|r|] == ','
  {
    if s == [] || s[0] == ',' then [] else [s[0]] + BeforeFirstComma(s[1..])
  }

  /**
   * `s.replace(",", " , ")`: every ASCII comma surrounded by one space on each
   * side. It lengthens exactly the strings that hold a comma, and leaves a
   * string without a comma unchanged.
   */
  function ReplaceComma(s: string): (r: string)
    ensures |r| >= |s|
    ensures |r| == |s| <==> ',' !in s
    ensures ',' !in s ==> r == s
  {
    if s == [] then []
    else
      var head := if s[0] == ',' then " , " else [s[0]];
      var tail := ReplaceComma(s[1..]);
      assert forall c :: c in s[1..] ==> c in s;
      assert s[0] in s;
      assert ',' !in s ==> s == [s[0]] + s[1..];
      head + tail
  }

  // ---------------------------------------------------------------------------
  // Lemmas about SplitWhitespace
  // ---------------------------------------------------------------------------

  /** The three properties in TokenLength's contract determine it. */
  lemma TokenLengthIs(s: string, m: nat)
    requires m <= |s|
    requires forall i :: 0 <= i < m ==> !IsSpace(s[i])
    requires m < |s| ==> IsSpace(s[m])
    ensures TokenLength(s) == m
  {
  }

  /** A leading whitespace character produces no token. */
  lemma SplitSkipsSpace(c: char, y: string)
    requires IsSpace(c)
    ensures SplitWhitespace([c] + y) == SplitWhitespace(y)
  {
    assert ([c] + y)[1..] == y;
  }

  /** A token of `x` ends no later than a whitespace character appended to `x`. */
  lemma TokenLengthBeforeSpace(x: string, c: char, y: string)
    requires IsSpace(c)
    ensures TokenLength(x + [c] + y) == TokenLength(x)
  {
    var s, n := x + [c] + y, TokenLength(x);
    assert forall i :: 0 <= i < n ==> s[i] == x[i];
    assert s[n] == if n < |x| then x[n] else c;
    TokenLengthIs(s, n);
  }

  /** Splitting at a whitespace character is splitting each side. */
  lemma {:induction false} SplitAtSpace(x: string, c: char, y: string)
    requires IsSpace(c)
    ensures SplitWhitespace(x + [c] + y) == SplitWhitespace(x) + SplitWhitespace(y)
    decreases |x|
  {
    var s := x + [c] + y;
    if x == [] {
      assert s == [c] + y;
      SplitSkipsSpace(c, y);
    } else if IsSpace(x[0]) {
      assert s[1..] == x[1..] + [c] + y;
      SplitAtSpace(x[1..], c, y);
    } else {
      var n := TokenLength(x);
      TokenLengthBeforeSpace(x, c, y);
      assert s[..n] == x[..n];
      assert s[n..] == x[n..] + [c] + y;
      SplitAtSpace(x[n..], c, y);
    }
  }

  /** A trailing whitespace character produces no token. */
  lemma SplitSnocSpace(x: string, c: char)
    requires IsSpace(c)
    ensures SplitWhitespace(x + [c]) == SplitWhitespace(x)
  {
    assert x + [c] == x + [c] + [];
    SplitAtSpace(x, c, []);
    assert x + [] == x;
  }

  /** A whitespace-only string has no tokens, and a string without tokens is whitespace only. */
  lemma {:induction false} SplitEmptyIffAllSpace(s: string)
    ensures SplitWhitespace(s) == [] <==> AllSpace(s)
    decreases |s|
  {
    if s != [] {
      if IsSpace(s[0]) {
        SplitEmptyIffAllSpace(s[1..]);
        if AllSpace(s[1..]) {
          forall i | 0 <= i < |s| ensures IsSpace(s[i]) {
            if i > 0 { assert s[i] == s[1..][i - 1]; }
          }
        } else {
          var i :| 0 <= i < |s[1..]| && !IsSpace(s[1..][i]);
          assert !IsSpace(s[i + 1]);
        }
      } else {
        assert !IsSpace(s[0]);
      }
    }
  }

  /**
   * A token followed by anything: the first token is the token extended by
   * the whitespace-free start of what follows, and the other tokens are those
   * of the rest.
   */
  lemma SplitAfterToken(w: string, rest: string)
    requires IsToken(w)
    ensures var m := TokenLength(rest);
            SplitWhitespace(w + rest) == [w + rest[..m]] + SplitWhitespace(rest[m..])
  {
    var s, m := w + rest, TokenLength(rest);
    assert forall i :: 0 <= i < |w| + m ==> s[i] == if i < |w| then w[i] else rest[i - |w|];
    TokenLengthIs(s, |w| + m);
    assert s[..|w| + m] == w + rest[..m];
    assert s[|w| + m..] == rest[m..];
  }

  /** Whatever token starts the line, the count and the later tokens are the same. */
  lemma SplitTailIgnoresToken(w1: string, w2: string, rest: string)
    requires IsToken(w1) && IsToken(w2)
    ensures |SplitWhitespace(w1 + rest)| == |SplitWhitespace(w2 + rest)| > 0
    ensures SplitWhitespace(w1 + rest)[1..] == SplitWhitespace(w2 + rest)[1..]
  {
    SplitAfterToken(w1, rest);
    SplitAfterToken(w2, rest);
  }

  /** A single token splits to itself. */
  lemma SplitToken(w: string)
    requires IsToken(w)
    ensures SplitWhitespace(w) == [w]
  {
    TokenLengthIs(w, |w|);
    assert w[..|w|] == w;
    assert w[|w|..] == [];
  }

  /** A token followed by whitespace (or by nothing) is the first token. */
  lemma SplitTokenThen(w: string, rest: string)
    requires IsToken(w)
    requires rest == [] || IsSpace(rest[0])
    ensures SplitWhitespace(w + rest) == [w] + SplitWhitespace(rest)
  {
    SplitToken(w);
    if rest == [] {
      assert w + rest == w;
    } else {
      assert rest == [rest[0]] + rest[1..];
      assert w + rest == w + [rest[0]] + rest[1..];
      SplitAtSpace(w, rest[0], rest[1..]);
      SplitSkipsSpace(rest[0], rest[1..]);
    }
  }

  /** Round trip: splitting the single-space join of tokens gives the tokens back. */
  lemma {:induction false} SplitJoin(ts: seq<string>)
    requires forall k :: 0 <= k < |ts| ==> IsToken(ts[k])
    ensures SplitWhitespace(Join(ts)) == ts
  {
    if |ts| == 1 {
      SplitToken(ts[0]);
    } else if |ts| > 1 {
      SplitJoin(ts[1..]);
      SplitToken(ts[0]);
      SplitAtSpace(ts[0], ' ', Join(ts[1..]));
    }
  }

  /** A run of leading whitespace produces no token. */
  lemma {:induction false} SplitSkipsSpaces(w: string, y: string)
    requires AllSpace(w)
    ensures SplitWhitespace(w + y) == SplitWhitespace(y)
    decreases |w|
  {
    if w != [] {
      assert w + y == [w[0]] + (w[1..] + y);
      SplitSkipsSpace(w[0], w[1..] + y);
      SplitSkipsSpaces(w[1..], y);
    } else {
      assert w + y == y;
    }
  }

  /** Splitting at a run of whitespace that ends in a space is splitting each side. */
  lemma SplitAtSpaces(x: string, w: string, y: string)
    requires AllSpace(w)
    ensures SplitWhitespace(x + w + " " + y) == SplitWhitespace(x) + SplitWhitespace(y)
  {
    if w == [] {
      assert x + w + " " + y == x + [' '] + y;
      SplitAtSpace(x, ' ', y);
    } else {
      assert x + w + " " + y == x + [w[0]] + (w[1..] + " " + y);
      SplitAtSpace(x, w[0], w[1..] + " " + y);
      assert w[1..] + " " + y == w[1..] + ([' '] + y);
      SplitSkipsSpaces(w[1..], [' '] + y);
      SplitSkipsSpace(' ', y);
    }
  }

  /** A comma standing between whitespace runs, one space on each side at least, is a token of its own. */
  lemma SplitSpacedCommaRuns(x: string, w1: string, w2: string, y: string)
    requires AllSpace(w1) && AllSpace(w2)
    ensures SplitWhitespace(x + w1 + " , " + w2 + y) == SplitWhitespace(x) + [","] + SplitWhitespace(y)
  {
    var z := [','] + [' '] + (w2 + y);
    assert " , " + w2 + y == " " + z;
    assert x + w1 + " , " + w2 + y == x + w1 + " " + z by {
      assert x + w1 + " , " + w2 + y == (x + w1) + (" , " + w2 + y);
      assert x + w1 + " " + z == (x + w1) + (" " + z);
    }
    SplitAtSpaces(x, w1, z);
    SplitAtSpace([','], ' ', w2 + y);
    SplitToken([',']);
    SplitSkipsSpaces(w2, y);
  }

  /** A character that does not occur in `s` occurs in none of its tokens. */
  lemma {:induction false} SplitAvoids(s: string, ch: char)
    requires ch !in s
    ensures forall k :: 0 <= k < |SplitWhitespace(s)| ==> ch !in SplitWhitespace(s)[k]
    decreases |s|
  {
    if s != [] {
      assert forall c :: c in s[1..] ==> c in s;
      if IsSpace(s[0]) {
        SplitAvoids(s[1..], ch);
      } else {
        var n := TokenLength(s);
        assert forall c :: c in s[..n] ==> c in s;
        assert forall c :: c in s[n..] ==> c in s;
        SplitAvoids(s[n..], ch);
      }
    }
  }

  /** A character that occurs in none of the tokens does not occur in their join. */
  lemma {:induction false} JoinAvoids(ts: seq<string>, ch: char)
    requires ch != ' '
    requires forall k :: 0 <= k < |ts| ==> ch !in ts[k]
    ensures ch !in Join(ts)
  {
    if |ts| > 1 {
      JoinAvoids(ts[1..], ch);
    }
  }

  /** Trimming never changes the tokens. */
  lemma {:induction false} SplitTrimStart(s: string)
    ensures SplitWhitespace(TrimStart(s)) == SplitWhitespace(s)
    decreases |s|
  {
    if s != [] && IsSpace(s[0]) {
      SplitTrimStart(s[1..]);
    }
  }

  lemma {:induction false} SplitTrimEnd(s: string)
    ensures SplitWhitespace(TrimEnd(s)) == SplitWhitespace(s)
    decreases |s|
  {
    if s != [] && IsSpace(s[|s| - 1]) {
      var x := s[..|s| - 1];
      SplitTrimEnd(x);
      assert s == x + [s[|s| - 1]] + [];
      SplitAtSpace(x, s[|s| - 1], []);
    }
  }

  /**
   * `Trim` is the input with exactly its leading and trailing whitespace
   * dropped: the slice of `s` from `i` on, with all-space margins on both sides.
   */
  lemma TrimDropsEdges(s: string, i: nat, r: string)
    requires i == |s| - |TrimStart(s)| && r == Trim(s)
    ensures i + |r| <= |s| && r == s[i..i + |r|]
    ensures AllSpace(s[..i]) && AllSpace(s[i + |r|..])
  {
    var t := TrimStart(s);
    assert r == TrimEnd(t);
    SliceBetweenMargins(s, i, t, r);
  }

  /** A prefix `r` of the suffix `t == s[i..]` is the slice `s[i..i + |r|]`, and what follows it in `t` follows it in `s`. */
  lemma SliceBetweenMargins(s: string, i: nat, t: string, r: string)
    requires i <= |s| && t == s[i..]
    requires |r| <= |t| && r == t[..|r|]
    requires AllSpace(s[..i]) && AllSpace(t[|r|..])
    ensures i + |r| <= |s| && r == s[i..i + |r|]
    ensures AllSpace(s[..i]) && AllSpace(s[i + |r|..])
  {
    assert s[i + |r|..] == t[|r|..];
  }


  // ---------------------------------------------------------------------------
  // Lemmas about BeforeFirstComma
  // ---------------------------------------------------------------------------

  /** Text without a comma is kept in front of the first comma of what follows it. */
  lemma {:induction false} BeforeFirstCommaAppend(x: string, y: string)
    requires ',' !in x
    ensures BeforeFirstComma(x + y) == x + BeforeFirstComma(y)
    decreases |x|
  {
    if x == [] {
      assert x + y == y;
    } else {
      assert x[0] in x;
      assert forall c :: c in x[1..] ==> c in x;
      assert (x + y)[1..] == x[1..] + y;
      BeforeFirstCommaAppend(x[1..], y);
    }
  }

  /** A string without a comma lies wholly before its first comma. */
  lemma BeforeFirstCommaNoComma(s: string)
    requires ',' !in s
    ensures BeforeFirstComma(s) == s
  {
  }

  /** Appending a character other than a comma extends the segment only when the line had no comma. */
  lemma {:induction false} BeforeFirstCommaSnoc(s: string, c: char)
    requires c != ','
    ensures BeforeFirstComma(s + [c]) == if ',' in s then BeforeFirstComma(s) else s + [c]
    decreases |s|
  {
    if s == [] {
      assert s + [c] == [c];
    } else {
      assert (s + [c])[1..] == s[1..] + [c];
      BeforeFirstCommaSnoc(s[1..], c);
      assert forall d :: d in s <==> d == s[0] || d in s[1..];
    }
  }

  // ---------------------------------------------------------------------------
  // Lemmas about ReplaceComma
  // ---------------------------------------------------------------------------

  /** Comma replacement works character by character, so it distributes over concatenation. */
  lemma {:induction false} ReplaceCommaAppend(x: string, y: string)
    ensures ReplaceComma(x + y) == ReplaceComma(x) + ReplaceComma(y)
    decreases |x|
  {
    if x != [] {
      assert (x + y)[1..] == x[1..] + y;
      ReplaceCommaAppend(x[1..], y);
    } else {
      assert x + y == y;
    }
  }


  /** Appending a whitespace character appends it to the replacement. */
  lemma ReplaceCommaSnoc(s: string, c: char)
    requires IsSpace(c)
    ensures ReplaceComma(s + [c]) == ReplaceComma(s) + [c]
  {
    ReplaceCommaAppend(s, [c]);
    assert ReplaceComma([c]) == [c] + ReplaceComma([]);
  }

  /** A string that starts with whitespace or a comma still starts with whitespace after the replacement. */
  lemma ReplaceCommaHead(x: string)
    requires x != [] && (IsSpace(x[0]) || x[0] == ',')
    ensures ReplaceComma(x) != [] && IsSpace(ReplaceComma(x)[0])
  {
  }
}
