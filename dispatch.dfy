/**
 * Resolution and dispatch of one input line (`Command::explain_from` and
 * `Command::explain_by_pattern` in src/command.rs): extract the command word,
 * check that the index knows it, resolve it to a descriptor (directly or via
 * the alias index), find its behaviour in the registry and run that
 * behaviour's pattern check.
 */
module Dispatch {
  import opened Wrappers
  import opened Text
  import opened Commands
  import Help
  import Exit
  import Regression

  /** The behaviours a descriptor can be bound to: the implementations of `CommandBehavior`. */
  datatype BehaviorKind = HelpBehavior | ExitBehavior | RegressionBehavior

  /** The descriptor-to-behaviour map that the host fills at startup. */
  type Registry = map<Command, BehaviorKind>

  /** What `explain_from` hands over for execution: the behaviour and the variables its check produced. */
  datatype CommandParser = CommandParser(behavior: BehaviorKind, variables: Option<Variables>)

  /** `check_pattern` called through the behaviour. */
  function CheckPattern(kind: BehaviorKind, pattern: string, stdin: string): (r: Checked)
    requires kind.HelpBehavior? ==> SplitWhitespace(stdin) != []
    ensures kind.ExitBehavior? ==> r.variables.None?
    ensures kind.HelpBehavior? && r.variables.Some? ==>
              r.variables.value.explaining == [] && r.variables.value.other == []
    ensures kind.RegressionBehavior? && r.variables.Some? ==>
              var v := r.variables.value;
              && ValidVariableName(v.explained)
              && v.explaining != []
              && (forall k :: 0 <= k < |v.explaining| ==> ValidVariableName(v.explaining[k]))
              && v.other == [""]
  {
    match kind
    case HelpBehavior => Help.CheckPattern(pattern, stdin)
    case ExitBehavior => Exit.CheckPattern(pattern, stdin)
    case RegressionBehavior => Regression.CheckPattern(pattern, stdin)
  }

  /**
   * The command word: the first whitespace token of the trimmed text before
   * the first comma, if there is one. It is a token without a comma, and a
   * line that has one has at least one whitespace token itself.
   */
  function CommandToken(stdin: string): (r: Option<string>)
    ensures r.None? <==> AllSpace(BeforeFirstComma(stdin))
    ensures r.Some? ==> IsToken(r.value) && ',' !in r.value
    ensures r.Some? ==> SplitWhitespace(stdin) != []
  {
    var items := BeforeFirstComma(stdin);
    var patternPrefix := Trim(items);
    var prefixTokens := SplitWhitespace(patternPrefix);
    SplitEmptyIffAllSpace(items);
    SplitEmptyIffAllSpace(stdin);
    SplitAvoids(items, ',');
    assert AllSpace(stdin) ==> AllSpace(items) by {
      if AllSpace(stdin) {
        assert forall i :: 0 <= i < |items| ==> items[i] == stdin[i];
      }
    }
    if prefixTokens == [] then None else Some(prefixTokens[0])
  }

  /**
   * What the unwraps on the way need: once the command word exists in the
   * index, it can be deserialized, and the descriptor it resolves to is
   * registered.
   */
  predicate ExplainSafe(store: Store, registry: Registry, stdin: string) {
    match CommandToken(stdin)
    case None => true
    case Some(name) =>
      DoesExist(store, Some(name)) ==>
        && CanDeserialize(store, name)
        && (DeserializeCommand(store, name).Some? ==> DeserializeCommand(store, name).value in registry)
  }

  /**
   * `explain_by_pattern`: nothing when the name resolves to no descriptor;
   * otherwise always a parser, holding the registered behaviour and whatever
   * that behaviour's check gave, so a failed check still yields a parser.
   */
  function ExplainByPattern(store: Store, registry: Registry, name: string, stdin: string): (r: Option<CommandParser>)
    requires CanDeserialize(store, name)
    requires var c := DeserializeCommand(store, name);
             c.Some? ==> c.value in registry && (registry[c.value].HelpBehavior? ==> SplitWhitespace(stdin) != [])
    ensures r.Some? <==> DeserializeCommand(store, name).Some?
    ensures r.Some? ==>
              var c := DeserializeCommand(store, name).value;
              && r.value.behavior == registry[c]
              && r.value.variables == CheckPattern(registry[c], c.pattern, stdin).variables
  {
    match DeserializeCommand(store, name)
    case Some(command) =>
      var specificCommand := registry[command];
      var checked := CheckPattern(specificCommand, command.pattern, stdin);
      Some(CommandParser(specificCommand, checked.variables))
    case None => None
  }

  /**
   * `explain_from`. Nothing when the line has no command word, when the
   * index has no non-null entry for it, or when it resolves to no
   * descriptor; otherwise the parser of the resolved descriptor.
   */
  function ExplainFrom(store: Store, registry: Registry, stdin: string): (r: Option<CommandParser>)
    requires ExplainSafe(store, registry, stdin)
    ensures r.Some? <==>
              && CommandToken(stdin).Some?
              && DoesExist(store, CommandToken(stdin))
              && DeserializeCommand(store, CommandToken(stdin).value).Some?
    ensures r.Some? ==>
              var c := DeserializeCommand(store, CommandToken(stdin).value).value;
              && c in registry
              && r.value.behavior == registry[c]
              && r.value.variables == CheckPattern(registry[c], c.pattern, stdin).variables
    ensures r.Some? ==> r.value.behavior in registry.Values
    ensures r.Some? && r.value.behavior.ExitBehavior? ==> r.value.variables.None?
  {
    var commandOption := CommandToken(stdin);
    match commandOption
    case Some(commandName) =>
      if DoesExist(store, commandOption) then
        ExplainByPattern(store, registry, commandName, stdin)
      else
        None
    case None => None
  }

  // ---------------------------------------------------------------------------
  // Properties of resolution and dispatch
  // ---------------------------------------------------------------------------

  /**
   * A store whose non-null index entries are all strings and whose
   * descriptors are all registered makes every line safe to explain.
   */
  lemma WellFormedStoreIsSafe(store: Store, registry: Registry, stdin: string)
    requires IndexWellFormed(store)
    requires forall k :: k in store.descriptors ==> store.descriptors[k] in registry
    ensures ExplainSafe(store, registry, stdin)
  {
    match CommandToken(stdin)
    case None =>
    case Some(name) =>
      if DoesExist(store, Some(name)) {
        ExistingCanDeserialize(store, name);
        var c := DeserializeCommand(store, name);
        if c.Some? {
          var k :| k in store.descriptors && store.descriptors[k] == c.value;
        }
      }
  }

  /** A line with nothing but whitespace before its first comma names no command. */
  lemma NoCommandWord(store: Store, registry: Registry, stdin: string)
    requires AllSpace(BeforeFirstComma(stdin))
    ensures ExplainSafe(store, registry, stdin)
    ensures ExplainFrom(store, registry, stdin) == None
  {
  }

  /** A command word the index does not know gives no parser, whatever the store holds. */
  lemma UnknownCommandWord(store: Store, registry: Registry, stdin: string, name: string)
    requires CommandToken(stdin) == Some(name)
    requires name !in store.index
    ensures ExplainSafe(store, registry, stdin)
    ensures ExplainFrom(store, registry, stdin) == None
  {
  }

  /** A word followed by whitespace, a comma or nothing is the command word of the line. */
  lemma CommandTokenOfWord(w: string, rest: string)
    requires IsToken(w) && ',' !in w
    requires rest == [] || IsSpace(rest[0]) || rest[0] == ','
    ensures CommandToken(w + rest) == Some(w)
  {
    BeforeFirstCommaAppend(w, rest);
    var b := BeforeFirstComma(rest);
    if rest != [] && rest[0] != ',' {
      assert b == [rest[0]] + BeforeFirstComma(rest[1..]);
    }
    SplitTokenThen(w, b);
  }

  /**
   * A line that starts with a formal name that has a descriptor file and an
   * index entry dispatches to that descriptor's behaviour.
   */
  lemma FormalNameResolves(store: Store, registry: Registry, n: string, rest: string)
    requires IsToken(n) && ',' !in n
    requires rest == [] || IsSpace(rest[0]) || rest[0] == ','
    requires n in store.descriptors && DoesExist(store, Some(n))
    requires store.descriptors[n] in registry
    ensures ExplainSafe(store, registry, n + rest)
    ensures SplitWhitespace(n + rest) != []
    ensures var c := store.descriptors[n];
            ExplainFrom(store, registry, n + rest)
              == Some(CommandParser(registry[c], CheckPattern(registry[c], c.pattern, n + rest).variables))
  {
    CommandTokenOfWord(n, rest);
  }

  /**
   * The pattern checks look at neither the pattern nor the command word,
   * whether the word is followed by whitespace, by the first comma or by
   * nothing.
   */
  lemma CommandWordIrrelevant(kind: BehaviorKind, p1: string, p2: string, w1: string, w2: string, rest: string)
    requires IsToken(w1) && ',' !in w1
    requires IsToken(w2) && ',' !in w2
    requires rest == [] || IsSpace(rest[0]) || rest[0] == ','
    ensures SplitWhitespace(w1 + rest) != [] && SplitWhitespace(w2 + rest) != []
    ensures CheckPattern(kind, p1, w1 + rest) == CheckPattern(kind, p2, w2 + rest)
  {
    SplitTailIgnoresToken(w1, w2, rest);
    match kind
    case HelpBehavior => Help.CommandWordIrrelevant(p1, p2, w1, w2, rest);
    case ExitBehavior => Exit.CommandWordIrrelevant(p1, p2, w1, w2, rest);
    case RegressionBehavior => Regression.CommandWordIrrelevant(p1, p2, w1, w2, rest);
  }

  /**
   * An alias that has no descriptor file of its own and that the index maps
   * to a formal name is dispatched exactly as the formal name is, whether it
   * is followed by whitespace, by the first comma or by nothing.
   */
  lemma AliasResolvesLikeFormal(store: Store, registry: Registry, a: string, n: string, rest: string)
    requires IsToken(a) && ',' !in a && IsToken(n) && ',' !in n
    requires rest == [] || IsSpace(rest[0]) || rest[0] == ','
    requires a !in store.descriptors && a in store.index && store.index[a] == Name(n)
    requires n in store.descriptors && DoesExist(store, Some(n))
    requires store.descriptors[n] in registry
    ensures ExplainSafe(store, registry, a + rest) && ExplainSafe(store, registry, n + rest)
    ensures ExplainFrom(store, registry, a + rest) == ExplainFrom(store, registry, n + rest)
  {
    var c := store.descriptors[n];
    Commands.AliasResolvesLikeFormal(store, a, n);
    assert DoesExist(store, Some(a));
    CommandTokenOfWord(a, rest);
    FormalNameResolves(store, registry, n, rest);
    CommandWordIrrelevant(registry[c], c.pattern, c.pattern, a, n, rest);
  }

  /** A trailing whitespace character (the newline `read_line` keeps) changes no pattern check. */
  lemma CheckIgnoresTrailingSpace(kind: BehaviorKind, pattern: string, line: string, c: char)
    requires IsSpace(c)
    ensures SplitWhitespace(line + [c]) == SplitWhitespace(line)
    ensures kind.HelpBehavior? && SplitWhitespace(line) != [] ==>
              CheckPattern(kind, pattern, line + [c]) == CheckPattern(kind, pattern, line)
    ensures !kind.HelpBehavior? ==> CheckPattern(kind, pattern, line + [c]) == CheckPattern(kind, pattern, line)
  {
    SplitSnocSpace(line, c);
    if kind.RegressionBehavior? {
      ReplaceCommaSnoc(line, c);
      SplitSnocSpace(ReplaceComma(line), c);
      assert Regression.Tokens(line + [c]) == Regression.Tokens(line);
    }
  }

  /** The command word is the first token before the first comma: trimming changes nothing. */
  lemma CommandTokenOfSegment(stdin: string)
    ensures var t := SplitWhitespace(BeforeFirstComma(stdin));
            CommandToken(stdin) == if t == [] then None else Some(t[0])
  {
  }

  /** ... and no command word. */
  lemma CommandTokenIgnoresTrailingSpace(line: string, c: char)
    requires IsSpace(c)
    ensures CommandToken(line + [c]) == CommandToken(line)
  {
    BeforeFirstCommaSnoc(line, c);
    CommandTokenOfSegment(line);
    CommandTokenOfSegment(line + [c]);
    if ',' !in line {
      BeforeFirstCommaNoComma(line);
      SplitSnocSpace(line, c);
    }
  }

  /** So the whole of `explain_from` gives the same result with or without it. */
  lemma ExplainIgnoresTrailingSpace(store: Store, registry: Registry, line: string, c: char)
    requires IsSpace(c)
    requires ExplainSafe(store, registry, line)
    ensures ExplainSafe(store, registry, line + [c])
    ensures ExplainFrom(store, registry, line + [c]) == ExplainFrom(store, registry, line)
  {
    CommandTokenIgnoresTrailingSpace(line, c);
    match CommandToken(line)
    case None =>
    case Some(name) =>
      if DoesExist(store, Some(name)) {
        match DeserializeCommand(store, name)
        case None =>
        case Some(cmd) =>
          CheckIgnoresTrailingSpace(registry[cmd], cmd.pattern, line, c);
      }
  }
}
