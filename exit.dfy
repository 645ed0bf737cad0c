/**
 * The exit command (src/command/basic/exit.rs). Its `execute` ends the process
 * and is not part of this model; its pattern check is.
 */
module Exit {
  import opened Wrappers
  import opened Text
  import opened Commands

  /**
   * `ExitCommand::check_pattern`: never any variables. A warning is printed
   * exactly when the line has more than one whitespace token; the pattern is
   * not looked at.
   */
  function CheckPattern(pattern: string, stdin: string): (r: Checked)
    ensures r.variables == None
    ensures r.diagnostic.Some? <==> |SplitWhitespace(stdin)| > 1
    ensures r.diagnostic.Some? ==> r.diagnostic.value == ExitHasParameters
  {
    var stdinVec := SplitWhitespace(stdin);
    if |stdinVec| > 1 then Checked(None, Some(ExitHasParameters)) else Checked(None, None)
  }

  /**
   * Parameters never block exit: `exit` followed by anything that holds a
   * token is warned about, and still yields no variables, like `exit` alone.
   */
  lemma ParametersOnlyWarn(pattern: string, w: string, rest: string)
    requires IsToken(w)
    requires rest != [] && IsSpace(rest[0]) && !AllSpace(rest)
    ensures CheckPattern(pattern, w + rest) == Checked(None, Some(ExitHasParameters))
    ensures CheckPattern(pattern, w).variables == CheckPattern(pattern, w + rest).variables
  {
    SplitTokenThen(w, rest);
    SplitEmptyIffAllSpace(rest);
  }

  /**
   * Neither the pattern nor the first token matters, whatever follows it
   * (a comma included): only the number of tokens does.
   */
  lemma CommandWordIrrelevant(p1: string, p2: string, w1: string, w2: string, rest: string)
    requires IsToken(w1) && IsToken(w2)
    ensures CheckPattern(p1, w1 + rest) == CheckPattern(p2, w2 + rest)
  {
    SplitTailIgnoresToken(w1, w2, rest);
  }
}
