/**
 * The help command (src/command/basic/help.rs): `help` prints its own
 * document, `help x` prints the document of command `x`.
 */
module Help {
  import opened Wrappers
  import opened Text
  import opened Commands

  /**
   * `HelpCommand::check_pattern`. The line is split on whitespace only (a comma
   * is no separator here) and the pattern is not looked at. More than two
   * tokens is a syntax error; one token is no variables, silently; two tokens
   * make token 1 the explained variable, unvalidated. The source reads token 1
   * when the line has no token at all, so a token is required.
   */
  function CheckPattern(pattern: string, stdin: string): (r: Checked)
    requires SplitWhitespace(stdin) != []
    ensures var t := SplitWhitespace(stdin);
            && (r.variables.Some? <==> |t| == 2)
            && (r.variables.Some? ==> r.variables.value == Variables(t[1], [], []))
            && (r.diagnostic.Some? <==> |t| > 2)
            && (r.diagnostic.Some? ==> r.diagnostic.value == HelpTooManyParameters)
  {
    var t := SplitWhitespace(stdin);
    if |t| > 2 then
      Checked(None, Some(HelpTooManyParameters))
    else if |t| == 1 then
      Checked(None, None)
    else
      var parameterName := t[1];
      Checked(Some(Variables(parameterName, [], [])), None)
  }

  /**
   * `help x` with a single token `x` yields exactly `x` as the explained
   * variable, whatever characters it holds (`help a;b` gives `a;b`).
   */
  lemma ArgumentTaken(pattern: string, w: string, x: string)
    requires IsToken(w) && IsToken(x)
    ensures CheckPattern(pattern, w + " " + x) == Checked(Some(Variables(x, [], [])), None)
  {
    assert Join([w, x]) == w + " " + x;
    SplitJoin([w, x]);
  }

  /** The command word alone, whatever whitespace follows it, selects no variables and reports nothing. */
  lemma AloneIsSilent(pattern: string, w: string, trailing: string)
    requires IsToken(w) && AllSpace(trailing)
    ensures CheckPattern(pattern, w + trailing) == Checked(None, None)
  {
    SplitSkipsSpaces(trailing, []);
    assert trailing + [] == trailing;
    SplitEmptyIffAllSpace(trailing);
    if trailing != [] {
      SplitTokenThen(w, trailing);
    } else {
      assert w + trailing == w;
      SplitToken(w);
    }
  }

  /** Any third token is a syntax error, whatever the rest of the line. */
  lemma ExtraArgumentRejected(pattern: string, w: string, x: string, z: string, rest: string)
    requires IsToken(w) && IsToken(x) && IsToken(z)
    ensures CheckPattern(pattern, w + " " + x + " " + z + rest) == Checked(None, Some(HelpTooManyParameters))
  {
    var line := w + " " + x + " " + z + rest;
    assert line == w + [' '] + (x + [' '] + (z + rest));
    SplitAtSpace(w, ' ', x + [' '] + (z + rest));
    SplitAtSpace(x, ' ', z + rest);
    SplitToken(w);
    SplitToken(x);
    assert (z + rest)[0] == z[0];
  }

  /**
   * Neither the pattern nor the first token matters, whatever follows it
   * (a comma included): only the tokens after the first do.
   */
  lemma CommandWordIrrelevant(p1: string, p2: string, w1: string, w2: string, rest: string)
    requires IsToken(w1) && IsToken(w2)
    ensures SplitWhitespace(w1 + rest) != [] && SplitWhitespace(w2 + rest) != []
    ensures CheckPattern(p1, w1 + rest) == CheckPattern(p2, w2 + rest)
  {
    SplitTailIgnoresToken(w1, w2, rest);
    var t1, t2 := SplitWhitespace(w1 + rest), SplitWhitespace(w2 + rest);
    if |t1| >= 2 {
      assert t1[1] == t1[1..][0] == t2[1..][0] == t2[1];
    }
  }

  /** The text around the parameter in the "does not exist" message. */
  const NotExistPrefix := "help command's parameter  `"
  const NotExistSuffix := "` that should be a command does not exist"

  /**
   * The message printed for a parameter that names no command. The parameter
   * stands between a fixed prefix and a fixed suffix, so it can be read back
   * from the message.
   */
  function NotExistMessage(parameterName: string): (m: string)
    ensures |m| == |NotExistPrefix| + |parameterName| + |NotExistSuffix|
    ensures m[..|NotExistPrefix|] == NotExistPrefix
    ensures m[|NotExistPrefix|..|m| - |NotExistSuffix|] == parameterName
    ensures m[|m| - |NotExistSuffix|..] == NotExistSuffix
  {
    NotExistPrefix + parameterName + NotExistSuffix
  }

  /** Different parameters give different messages. */
  lemma NotExistMessageInjective(p: string, q: string)
    requires NotExistMessage(p) == NotExistMessage(q)
    ensures p == q
  {
    var m := NotExistMessage(p);
    assert p == m[|NotExistPrefix|..|m| - |NotExistSuffix|] == q;
  }

  /**
   * `HelpCommand::execute`, as the line it prints (if any). `self` is the help
   * command's own descriptor. Without variables it prints its own document;
   * with a parameter that exists in the index it prints that command's
   * document, and with one that does not it prints the "does not exist"
   * message. A name whose descriptor cannot be found prints nothing. The
   * requires are the unwraps of `deserialize_command` on the names it looks up.
   */
  function Execute(store: Store, self: Command, variables: Option<Variables>): (printed: Option<string>)
    requires variables.None? ==> CanDeserialize(store, self.name)
    requires variables.Some? && DoesExist(store, Some(variables.value.explained)) ==>
               CanDeserialize(store, variables.value.explained)
    ensures variables.None? ==>
              var own := DeserializeCommand(store, self.name);
              (printed.Some? <==> own.Some?) && (printed.Some? ==> printed.value == own.value.document)
    ensures variables.Some? && !DoesExist(store, Some(variables.value.explained)) ==>
              printed == Some(NotExistMessage(variables.value.explained))
    ensures variables.Some? && DoesExist(store, Some(variables.value.explained)) ==>
              var target := DeserializeCommand(store, variables.value.explained);
              (printed.Some? <==> target.Some?) && (printed.Some? ==> printed.value == target.value.document)
  {
    match variables
    case None =>
      (match DeserializeCommand(store, self.name)
       case Some(help) => Some(help.document)
       case None => None)
    case Some(v) =>
      var parameterName := v.explained;
      if DoesExist(store, Some(parameterName)) then
        match DeserializeCommand(store, parameterName)
        case Some(explainedCmd) => Some(explainedCmd.document)
        case None => None
      else
        Some(NotExistMessage(parameterName))
  }

  /**
   * `help <alias>` prints the same document as `help <formal name>`: the
   * document of the formal name's descriptor.
   */
  lemma AliasDocumented(store: Store, self: Command, alias: string, formal: string)
    requires alias !in store.descriptors
    requires alias in store.index && store.index[alias] == Name(formal)
    requires formal in store.descriptors && DoesExist(store, Some(formal))
    ensures Execute(store, self, Some(Variables(alias, [], [])))
         == Execute(store, self, Some(Variables(formal, [], [])))
         == Some(store.descriptors[formal].document)
  {
  }
}
