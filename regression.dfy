/**
 * The pattern check of the regression command (src/command/compute/regression.rs):
 * `reg y, x1 x2 ...` with the dependent variable before the first comma and the
 * explaining variables after it.
 */
module Regression {
  import opened Wrappers
  import opened Text
  import opened Commands

  /**
   * The input with every ASCII comma surrounded by spaces, split on
   * whitespace: whitespace-split tokens, the plain split when the line has no
   * ASCII comma.
   */
  function Tokens(stdin: string): (t: seq<string>)
    ensures forall k :: 0 <= k < |t| ==> IsToken(t[k])
    ensures ',' !in stdin ==> t == SplitWhitespace(stdin)
  {
    SplitWhitespace(ReplaceComma(stdin))
  }

  /**
   * `RegressionCommand::check_pattern`. The pattern and token 0 (the command
   * word) are not looked at. Success needs at least four tokens, the comma as
   * token 2 and every other token after the command word a valid variable name;
   * then token 1 is explained and tokens 3.. are explaining, in order. Every
   * failure, and only a failure, is reported.
   */
  function CheckPattern(pattern: string, stdin: string): (r: Checked)
    ensures r.variables.None? <==> r.diagnostic.Some?
    ensures var t := Tokens(stdin);
            r.variables.Some? <==>
              (|t| >= 4 && t[2] == "," && forall i :: 1 <= i < |t| && i != 2 ==> ValidVariableName(t[i]))
    ensures r.variables.Some? ==>
              var t := Tokens(stdin);
              r.variables.value == Variables(t[1], t[3..], [""])
    ensures r.variables.Some? ==>
              var v := r.variables.value;
              && ValidVariableName(v.explained)
              && v.explaining != []
              && forall k :: 0 <= k < |v.explaining| ==> ValidVariableName(v.explaining[k])
  {
    var t := Tokens(stdin);
    if |t| < 3 then
      Checked(None, Some(TooFewTokens))
    else if t[2] == "," then
      var explained := t[1];
      if !ValidVariableName(explained) then
        Checked(None, Some(SpecialInExplained))
      else
        var explaining := t[3..];
        if explaining == [] then
          Checked(None, Some(NoExplaining))
        else if exists k :: 0 <= k < |explaining| && !ValidVariableName(explaining[k]) then
          Checked(None, Some(SpecialInExplaining))
        else
          Checked(Some(Variables(explained, explaining, [""])), None)
    else
      Checked(None, Some(CommaNotThird))
  }

  /** No character of an all-whitespace string is a comma. */
  lemma SpacesHaveNoComma(w: string)
    requires AllSpace(w)
    ensures ',' !in w
  {
  }

  /** Comma replacement around a comma that stands between two whitespace runs. */
  lemma ReplaceAroundComma(a: string, w1: string, w2: string, b: string)
    requires AllSpace(w1) && AllSpace(w2)
    ensures ReplaceComma(a + w1 + "," + w2 + b) == ReplaceComma(a) + w1 + " , " + w2 + ReplaceComma(b)
  {
    SpacesHaveNoComma(w1);
    SpacesHaveNoComma(w2);
    var x := a + w1 + "," + w2;
    ReplaceCommaAppend(x, b);
    ReplaceCommaAppend(a + w1 + ",", w2);
    ReplaceCommaAppend(a + w1, ",");
    ReplaceCommaAppend(a, w1);
    assert ReplaceComma(",") == " , ";
  }

  /**
   * The first ASCII comma is a token of its own, whatever whitespace stands
   * around it: the tokens are those before it, the comma, those after it.
   */
  lemma TokensAroundComma(a: string, w1: string, w2: string, b: string)
    requires AllSpace(w1) && AllSpace(w2)
    ensures Tokens(a + w1 + "," + w2 + b) == Tokens(a) + [","] + Tokens(b)
  {
    ReplaceAroundComma(a, w1, w2, b);
    SplitSpacedCommaRuns(ReplaceComma(a), w1, w2, ReplaceComma(b));
  }

  /** The same with no whitespace around the comma. */
  lemma TokensAtComma(a: string, b: string)
    ensures Tokens(a + "," + b) == Tokens(a) + [","] + Tokens(b)
  {
    TokensAroundComma(a, "", "", b);
    assert a + "" + "," + "" + b == a + "," + b;
  }

  /** Only the tokens after the command word decide the check. */
  lemma CheckDependsOnArguments(p1: string, p2: string, s1: string, s2: string)
    requires |Tokens(s1)| == |Tokens(s2)| > 0
    requires Tokens(s1)[1..] == Tokens(s2)[1..]
    ensures CheckPattern(p1, s1) == CheckPattern(p2, s2)
  {
    var t1, t2 := Tokens(s1), Tokens(s2);
    assert forall i :: 1 <= i < |t1| ==> t1[i] == t1[1..][i - 1];
    assert forall i :: 1 <= i < |t2| ==> t2[i] == t2[1..][i - 1];
    if |t1| >= 3 {
      assert t1[3..] == t1[1..][2..];
      assert t2[3..] == t2[1..][2..];
    }
  }

  /** Spacing around the ASCII comma does not matter: `reg y,x1` and `reg y , x1` are read alike. */
  lemma SpacingAroundCommaIrrelevant(pattern: string, a: string, w1: string, w2: string, b: string)
    requires AllSpace(w1) && AllSpace(w2)
    ensures CheckPattern(pattern, a + w1 + "," + w2 + b) == CheckPattern(pattern, a + "," + b)
  {
    TokensAroundComma(a, w1, w2, b);
    TokensAtComma(a, b);
  }

  /**
   * A second ASCII comma after the first always fails the check: it becomes a
   * token `","` that lands either in the explained position or among the
   * explaining variables, and the validator refuses it there. There must be a
   * command word before the first comma, as there is on every line the
   * dispatcher hands over.
   */
  lemma SecondCommaRejected(pattern: string, a: string, b: string, c: string)
    requires ',' !in a
    requires SplitWhitespace(a) != []
    ensures CheckPattern(pattern, a + "," + b + "," + c).variables == None
  {
    var s := a + "," + b + "," + c;
    var i := SecondCommaToken(a, b, c);
    if i == 2 {
      CommaNotThirdRejected(pattern, s);
    } else {
      assert !ValidVariableName(",") by { assert (",")[0] == ','; }
      InvalidTokenRejected(pattern, s, i);
    }
  }

  /**
   * On a line with two ASCII commas and a token before the first, either
   * token 2 is not the comma, or a comma token stands at another position
   * after the command word.
   */
  lemma SecondCommaToken(a: string, b: string, c: string) returns (i: nat)
    requires ',' !in a
    requires SplitWhitespace(a) != []
    ensures var t := Tokens(a + "," + b + "," + c);
            && 1 <= i < |t|
            && (i == 2 ==> t[2] != ",")
            && (i != 2 ==> t[i] == ",")
  {
    var s := a + "," + b + "," + c;
    assert s == a + "," + (b + "," + c);
    TokensAtComma(a, b + "," + c);
    TokensAtComma(b, c);
    var ta, tb := SplitWhitespace(a), Tokens(b);
    var t := Tokens(s);
    assert t == ta + [","] + (tb + [","] + Tokens(c));
    if |ta| == 1 {
      i := 1;
      assert t[1] == ",";
    } else if |ta| == 2 {
      i := 3 + |tb|;
      assert t[3 + |tb|] == ",";
    } else {
      i := 2;
      SplitAvoids(a, ',');
      assert t[2] == ta[2];
      assert ',' !in t[2];
      assert t[2] != "," by { assert (",")[0] == ','; }
    }
  }

  /** An invalid token anywhere after the command word, other than token 2, fails the check. */
  lemma InvalidTokenRejected(pattern: string, stdin: string, i: nat)
    requires 1 <= i < |Tokens(stdin)| && i != 2
    requires !ValidVariableName(Tokens(stdin)[i])
    ensures CheckPattern(pattern, stdin).variables == None
  {
  }

  /** A token 2 other than the comma fails the check. */
  lemma CommaNotThirdRejected(pattern: string, stdin: string)
    requires |Tokens(stdin)| > 2 && Tokens(stdin)[2] != ","
    ensures CheckPattern(pattern, stdin).variables == None
  {
  }

  /**
   * A line without an ASCII comma fails: with fewer than three tokens for
   * want of tokens, otherwise because token 2 is not the comma. A full-width
   * comma is no separator.
   */
  lemma NoCommaRejected(pattern: string, stdin: string)
    requires ',' !in stdin
    ensures Tokens(stdin) == SplitWhitespace(stdin)
    ensures |SplitWhitespace(stdin)| < 3 ==> CheckPattern(pattern, stdin) == Checked(None, Some(TooFewTokens))
    ensures |SplitWhitespace(stdin)| >= 3 ==> CheckPattern(pattern, stdin) == Checked(None, Some(CommaNotThird))
  {
    var t := SplitWhitespace(stdin);
    if |t| >= 3 {
      SplitAvoids(stdin, ',');
      assert ',' !in t[2];
      assert t[2] != "," by { assert (",")[0] == ','; }
    }
  }

  /**
   * A line whose first comma follows exactly the command word and one more
   * token: that token decides first, then what follows the comma.
   */
  lemma ExplainedDecidesFirst(pattern: string, a: string, b: string)
    requires ',' !in a
    requires |SplitWhitespace(a)| == 2
    ensures var y := SplitWhitespace(a)[1];
            && (!ValidVariableName(y) ==>
                  CheckPattern(pattern, a + "," + b) == Checked(None, Some(SpecialInExplained)))
            && (ValidVariableName(y) && Tokens(b) == [] ==>
                  CheckPattern(pattern, a + "," + b) == Checked(None, Some(NoExplaining)))
            && (ValidVariableName(y) && Tokens(b) != [] ==>
                  CheckPattern(pattern, a + "," + b).variables == Some(Variables(y, Tokens(b), [""]))
                  || CheckPattern(pattern, a + "," + b) == Checked(None, Some(SpecialInExplaining)))
  {
    TokensAtComma(a, b);
    var t := Tokens(a + "," + b);
    assert t[3..] == Tokens(b);
  }

  /** A command word (a token without a comma) followed by whitespace, a comma or nothing is token 0. */
  lemma TokensAfterWord(w: string, rest: string)
    requires IsToken(w) && ',' !in w
    requires rest == [] || IsSpace(rest[0]) || rest[0] == ','
    ensures Tokens(w + rest) == [w] + Tokens(rest)
  {
    ReplaceCommaAppend(w, rest);
    if rest != [] {
      ReplaceCommaHead(rest);
    }
    SplitTokenThen(w, ReplaceComma(rest));
  }

  /**
   * Neither the pattern nor the command word matters: `reg ...` and
   * `regression ...` are checked alike.
   */
  lemma CommandWordIrrelevant(p1: string, p2: string, w1: string, w2: string, rest: string)
    requires IsToken(w1) && ',' !in w1
    requires IsToken(w2) && ',' !in w2
    requires rest == [] || IsSpace(rest[0]) || rest[0] == ','
    ensures CheckPattern(p1, w1 + rest) == CheckPattern(p2, w2 + rest)
  {
    TokensAfterWord(w1, rest);
    TokensAfterWord(w2, rest);
    CheckDependsOnArguments(p1, p2, w1 + rest, w2 + rest);
  }


  /** Comma-free tokens joined by spaces are read back unchanged. */
  lemma TokensOfJoin(xs: seq<string>)
    requires forall k :: 0 <= k < |xs| ==> IsToken(xs[k]) && ',' !in xs[k]
    ensures Tokens(Join(xs)) == xs
  {
    JoinAvoids(xs, ',');
    SplitJoin(xs);
  }

  /** Two comma-free tokens separated by a space. */
  lemma TokensOfPair(w: string, y: string)
    requires IsToken(w) && ',' !in w
    requires IsToken(y) && ',' !in y
    ensures Tokens(w + " " + y) == [w, y]
  {
    assert Join([w, y]) == w + " " + y;
    TokensOfJoin([w, y]);
  }

  /** A comma followed by a space, as the pattern writes it, is a token of its own. */
  lemma TokensAtCommaSpace(a: string, b: string)
    ensures Tokens(a + ", " + b) == Tokens(a) + [","] + Tokens(b)
  {
    assert a + ", " + b == a + "" + "," + " " + b;
    TokensAroundComma(a, "", " ", b);
  }

  /** The tokens of a well-formed regression line. */
  lemma TokensOfWellFormedLine(w: string, y: string, xs: seq<string>)
    requires IsToken(w) && ',' !in w
    requires IsToken(y) && ',' !in y
    requires forall k :: 0 <= k < |xs| ==> IsToken(xs[k]) && ',' !in xs[k]
    ensures Tokens(w + " " + y + ", " + Join(xs)) == [w, y] + [","] + xs
  {
    TokensOfPair(w, y);
    TokensOfJoin(xs);
    TokensAtCommaSpace(w + " " + y, Join(xs));
  }

  /** The token list of a well-formed line has the shape the check accepts. */
  lemma AcceptedShape(w: string, y: string, xs: seq<string>)
    requires ValidVariableName(y)
    requires xs != []
    requires forall k :: 0 <= k < |xs| ==> ValidVariableName(xs[k])
    ensures var t := [w, y] + [","] + xs;
            && |t| >= 4 && t[1] == y && t[2] == "," && t[3..] == xs
            && forall i :: 1 <= i < |t| && i != 2 ==> ValidVariableName(t[i])
  {
    var t := [w, y] + [","] + xs;
    assert t[3..] == xs;
    forall i | 1 <= i < |t| && i != 2 ensures ValidVariableName(t[i]) {
      if i >= 3 {
        assert t[i] == xs[i - 3];
      }
    }
  }

  /**
   * Completeness: a command word, a valid dependent variable, a comma and a
   * non-empty list of valid explaining variables separated by spaces always
   * yield exactly those variables, with `other` the one-element list `[""]`.
   */
  lemma WellFormedLineAccepted(pattern: string, w: string, y: string, xs: seq<string>)
    requires IsToken(w) && ',' !in w
    requires IsToken(y) && ValidVariableName(y)
    requires xs != []
    requires forall k :: 0 <= k < |xs| ==> IsToken(xs[k]) && ValidVariableName(xs[k])
    ensures CheckPattern(pattern, w + " " + y + ", " + Join(xs)).variables == Some(Variables(y, xs, [""]))
  {
    forall k | 0 <= k < |xs| ensures ',' !in xs[k] {
      assert ValidVariableName(xs[k]);
    }
    TokensOfWellFormedLine(w, y, xs);
    AcceptedShape(w, y, xs);
  }
}
