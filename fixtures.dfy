/**
 * The three commands the host registers at startup (src/main.rs), a store
 * holding their descriptors, and what the front end makes of sample lines.
 * The content of `name.json` is not part of the sources; the index here lists
 * every formal name under itself and the alias `reg` under `regression`.
 */
module Fixtures {
  import opened Wrappers
  import opened Text
  import opened Commands
  import opened Dispatch
  import Regression
  import Help
  import Exit

  const HelpDescriptor: Command :=
    CommandBuilder.New("help").AddPattern("help x").AddDocument("help command document").Build()

  const ExitDescriptor: Command :=
    CommandBuilder.New("exit").AddPattern("exit").AddDocument("exit command document").Build()

  const RegressionDescriptor: Command :=
    CommandBuilder.New("regression").AddAlias(Some("reg")).AddPattern("reg y, x1 x2 ...")
      .AddDocument("regression command document").Build()

  const SampleStore: Store := Store(
    map["help" := HelpDescriptor, "exit" := ExitDescriptor, "regression" := RegressionDescriptor],
    map["help" := Name("help"), "exit" := Name("exit"), "regression" := Name("regression"), "reg" := Name("regression")])

  const SampleRegistry: Registry :=
    map[HelpDescriptor := HelpBehavior, ExitDescriptor := ExitBehavior, RegressionDescriptor := RegressionBehavior]

  /** The builder chains produce the descriptors spelled out, and they are pairwise distinct registry keys. */
  lemma DescriptorsAsBuilt()
    ensures HelpDescriptor == Command("help", None, "help x", "help command document")
    ensures ExitDescriptor == Command("exit", None, "exit", "exit command document")
    ensures RegressionDescriptor == Command("regression", Some("reg"), "reg y, x1 x2 ...", "regression command document")
    ensures |SampleRegistry| == 3
  {
    assert HelpDescriptor.name != ExitDescriptor.name;
    assert HelpDescriptor.name[0] != RegressionDescriptor.name[0];
    assert ExitDescriptor.name[0] != RegressionDescriptor.name[0];
  }

  /** Every line is safe to explain against the sample store and registry. */
  lemma SampleIsSafe(stdin: string)
    ensures ExplainSafe(SampleStore, SampleRegistry, stdin)
  {
    DescriptorsAsBuilt();
    WellFormedStoreIsSafe(SampleStore, SampleRegistry, stdin);
  }

  /** The alias `reg` resolves, through the index, to the regression descriptor, registered as regression. */
  lemma RegResolves()
    ensures DoesExist(SampleStore, Some("reg"))
    ensures CanDeserialize(SampleStore, "reg")
    ensures DeserializeCommand(SampleStore, "reg") == Some(RegressionDescriptor)
    ensures RegressionDescriptor in SampleRegistry && SampleRegistry[RegressionDescriptor] == RegressionBehavior
  {
    DescriptorsAsBuilt();
    assert "reg" != "regression";
    assert "reg" !in SampleStore.descriptors;
  }

  /** The command word of `reg y, x1 x2` is `reg`. */
  lemma RegLineToken()
    ensures CommandToken("reg y, x1 x2") == Some("reg")
  {
    assert "reg y, x1 x2" == "reg" + " y, x1 x2";
    CommandTokenOfWord("reg", " y, x1 x2");
  }

  /** `reg` and `regression` give the same parser, also directly before a comma (`reg,y, x1`). */
  lemma AliasLikeFormal(rest: string)
    requires rest == [] || IsSpace(rest[0]) || rest[0] == ','
    ensures ExplainSafe(SampleStore, SampleRegistry, "reg" + rest)
    ensures ExplainSafe(SampleStore, SampleRegistry, "regression" + rest)
    ensures ExplainFrom(SampleStore, SampleRegistry, "reg" + rest)
         == ExplainFrom(SampleStore, SampleRegistry, "regression" + rest)
  {
    DescriptorsAsBuilt();
    assert "reg" != "regression";
    Dispatch.AliasResolvesLikeFormal(SampleStore, SampleRegistry, "reg", "regression", rest);
  }

  /** The command word stops at the first comma: the command word of `help,x` is `help`. */
  lemma HelpCommaToken()
    ensures CommandToken("help,x") == Some("help")
  {
    assert "help,x" == "help" + ",x";
    CommandTokenOfWord("help", ",x");
  }

  /** The regression check on `reg y, x1 x2`. */
  lemma RegressionLineChecked(pattern: string)
    ensures Regression.CheckPattern(pattern, "reg y, x1 x2").variables == Some(Variables("y", ["x1", "x2"], [""]))
  {
    assert Join(["x1", "x2"]) == "x1 x2";
    assert "reg y, x1 x2" == "reg" + " " + "y" + ", " + Join(["x1", "x2"]);
    assert ValidVariableName("y");
    assert ValidVariableName("x1") && ValidVariableName("x2");
    Regression.WellFormedLineAccepted(pattern, "reg", "y", ["x1", "x2"]);
  }

  /** `reg y, x1 x2` reaches the regression behaviour through the alias. */
  lemma RegressionLine()
    ensures ExplainSafe(SampleStore, SampleRegistry, "reg y, x1 x2")
    ensures ExplainFrom(SampleStore, SampleRegistry, "reg y, x1 x2")
         == Some(CommandParser(RegressionBehavior, Some(Variables("y", ["x1", "x2"], [""]))))
  {
    SampleIsSafe("reg y, x1 x2");
    RegLineToken();
    RegResolves();
    RegressionLineChecked(RegressionDescriptor.pattern);
  }


  // ---------------------------------------------------------------------------
  // The regression check on sample lines
  // ---------------------------------------------------------------------------

  /** `reg` and `reg y` have too few tokens. */
  lemma RegressionTooFewTokens(pattern: string)
    ensures Regression.CheckPattern(pattern, "reg") == Checked(None, Some(TooFewTokens))
    ensures Regression.CheckPattern(pattern, "reg y") == Checked(None, Some(TooFewTokens))
  {
    var one, two := "reg", "reg y";
    SplitToken(one);
    Regression.NoCommaRejected(pattern, one);
    assert Join(["reg", "y"]) == two;
    SplitJoin(["reg", "y"]);
    Regression.NoCommaRejected(pattern, two);
  }

  /** `reg y x1 x2` has no comma in third place. */
  lemma RegressionCommaNotThird(pattern: string, line: string)
    requires line == "reg y x1 x2"
    ensures Regression.CheckPattern(pattern, line) == Checked(None, Some(CommaNotThird))
  {
    assert Join(["reg", "y", "x1", "x2"]) == line;
    SplitJoin(["reg", "y", "x1", "x2"]);
    Regression.NoCommaRejected(pattern, line);
  }

  /** Neither has `reg y ， x1`: the full-width comma is no separator. */
  lemma RegressionFullWidthComma(pattern: string, line: string)
    requires line == "reg y \U{FF0C} x1"
    ensures Regression.CheckPattern(pattern, line) == Checked(None, Some(CommaNotThird))
  {
    assert Join(["reg", "y", "\U{FF0C}", "x1"]) == line;
    SplitJoin(["reg", "y", "\U{FF0C}", "x1"]);
    Regression.NoCommaRejected(pattern, line);
  }

  /** `reg y,` names no explaining variable. */
  lemma RegressionNoExplaining(pattern: string)
    ensures Regression.CheckPattern(pattern, "reg y,") == Checked(None, Some(NoExplaining))
  {
    var a := "reg y";
    assert Join(["reg", "y"]) == a;
    SplitJoin(["reg", "y"]);
    assert ValidVariableName("y");
    assert Regression.Tokens("") == [];
    Regression.ExplainedDecidesFirst(pattern, a, "");
    assert a + "," + "" == "reg y,";
  }

  lemma SemicolonWords(a: string)
    requires a == "reg y;bad"
    ensures ',' !in a && SplitWhitespace(a) == ["reg", "y;bad"]
    ensures !ValidVariableName(SplitWhitespace(a)[1])
  {
    assert Join(["reg", "y;bad"]) == a;
    SplitJoin(["reg", "y;bad"]);
    assert "y;bad"[1] == ';';
  }

  /** `reg y;bad, x1` has a semicolon in the explained variable. */
  lemma RegressionSpecialInExplained(pattern: string, line: string)
    requires line == "reg y;bad, x1"
    ensures Regression.CheckPattern(pattern, line) == Checked(None, Some(SpecialInExplained))
  {
    var a, b := line[..9], line[10..];
    assert line == a + "," + b;
    SemicolonWords(a);
    Regression.ExplainedDecidesFirst(pattern, a, b);
  }

  /** `reg y, x1, x2` has a second comma. */
  lemma RegressionSecondComma(pattern: string)
    ensures Regression.CheckPattern(pattern, "reg y, x1, x2").variables == None
  {
    assert Join(["reg", "y"]) == "reg y";
    SplitJoin(["reg", "y"]);
    assert "reg y, x1, x2" == "reg y" + "," + " x1" + "," + " x2";
    Regression.SecondCommaRejected(pattern, "reg y", " x1", " x2");
  }

  /** `reg y,x1` and `reg y , x1` are read alike. */
  lemma RegressionSpacing(pattern: string)
    ensures Regression.CheckPattern(pattern, "reg y,x1") == Regression.CheckPattern(pattern, "reg y , x1")
  {
    assert "reg y , x1" == "reg y" + " " + "," + " " + "x1";
    assert "reg y,x1" == "reg y" + "," + "x1";
    Regression.SpacingAroundCommaIrrelevant(pattern, "reg y", " ", " ", "x1");
  }

  // ---------------------------------------------------------------------------
  // The help and exit checks on sample lines
  // ---------------------------------------------------------------------------

  /** `help reg` names `reg`; `help a;b` names `a;b`, unvalidated. */
  lemma HelpWithArgument(pattern: string)
    ensures Help.CheckPattern(pattern, "help reg") == Checked(Some(Variables("reg", [], [])), None)
    ensures Help.CheckPattern(pattern, "help a;b") == Checked(Some(Variables("a;b", [], [])), None)
  {
    assert "help reg" == "help" + " " + "reg";
    Help.ArgumentTaken(pattern, "help", "reg");
    assert "help a;b" == "help" + " " + "a;b";
    Help.ArgumentTaken(pattern, "help", "a;b");
  }

  /** `help`, `help` with its newline and `help,reg` (one token) select the self-document branch silently. */
  lemma HelpAlone(pattern: string)
    ensures Help.CheckPattern(pattern, "help") == Checked(None, None)
    ensures Help.CheckPattern(pattern, "help\n") == Checked(None, None)
    ensures Help.CheckPattern(pattern, "help,reg") == Checked(None, None)
  {
    assert "help" == "help" + "";
    Help.AloneIsSilent(pattern, "help", "");
    assert "help\n" == "help" + "\n";
    Help.AloneIsSilent(pattern, "help", "\n");
    assert "help,reg" == "help,reg" + "";
    Help.AloneIsSilent(pattern, "help,reg", "");
  }

  /** `help reg extra` has one parameter too many. */
  lemma HelpTooMany(pattern: string)
    ensures Help.CheckPattern(pattern, "help reg extra") == Checked(None, Some(HelpTooManyParameters))
  {
    assert "help reg extra" == "help" + " " + "reg" + " " + "extra" + "";
    Help.ExtraArgumentRejected(pattern, "help", "reg", "extra", "");
  }

  /** `exit now` is warned about and still gives no variables. */
  lemma ExitWithParameter(pattern: string)
    ensures Exit.CheckPattern(pattern, "exit now") == Checked(None, Some(ExitHasParameters))
  {
    assert "exit now" == "exit" + " now";
    assert !AllSpace(" now") by { assert !IsSpace(" now"[1]); }
    Exit.ParametersOnlyWarn(pattern, "exit", " now");
  }

  // ---------------------------------------------------------------------------
  // Whole lines against the sample store
  // ---------------------------------------------------------------------------

  /** An empty or blank line names no command. */
  lemma BlankLine(line: string)
    requires AllSpace(line)
    ensures ExplainFrom(SampleStore, SampleRegistry, line) == None
  {
    Regression.SpacesHaveNoComma(line);
    assert line + "" == line;
    BeforeFirstCommaAppend(line, "");
    NoCommandWord(SampleStore, SampleRegistry, line);
  }

  /** The names the sample index knows. */
  lemma SampleIndexNames()
    ensures SampleStore.index.Keys == {"help", "exit", "regression", "reg"}
  {
  }

  /** A line whose command word is none of `help`, `exit`, `regression` and `reg` gives no parser. */
  lemma UnknownCommand(w: string, rest: string)
    requires IsToken(w) && ',' !in w
    requires rest == [] || IsSpace(rest[0]) || rest[0] == ','
    requires w != "help" && w != "exit" && w != "regression" && w != "reg"
    ensures ExplainSafe(SampleStore, SampleRegistry, w + rest)
    ensures ExplainFrom(SampleStore, SampleRegistry, w + rest) == None
  {
    SampleIndexNames();
    assert w !in SampleStore.index;
    CommandTokenOfWord(w, rest);
    UnknownCommandWord(SampleStore, SampleRegistry, w + rest, w);
  }

  /** `help reg` reaches the help behaviour with `reg` as the parameter. */
  lemma HelpLine()
    ensures ExplainSafe(SampleStore, SampleRegistry, "help reg")
    ensures ExplainFrom(SampleStore, SampleRegistry, "help reg")
         == Some(CommandParser(HelpBehavior, Some(Variables("reg", [], []))))
  {
    DescriptorsAsBuilt();
    assert "help reg" == "help" + " reg";
    FormalNameResolves(SampleStore, SampleRegistry, "help", " reg");
    HelpWithArgument(HelpDescriptor.pattern);
  }


  /** `exit now` reaches the exit behaviour with no variables. */
  lemma ExitLine()
    ensures ExplainSafe(SampleStore, SampleRegistry, "exit now")
    ensures ExplainFrom(SampleStore, SampleRegistry, "exit now") == Some(CommandParser(ExitBehavior, None))
  {
    DescriptorsAsBuilt();
    assert "exit now" == "exit" + " now";
    FormalNameResolves(SampleStore, SampleRegistry, "exit", " now");
  }


  /** What `help` prints: its own document, the formal document for an alias, the message for an unknown name. */
  lemma HelpPrints()
    ensures Help.Execute(SampleStore, HelpDescriptor, None) == Some("help command document")
    ensures Help.Execute(SampleStore, HelpDescriptor, Some(Variables("reg", [], [])))
         == Some("regression command document")
    ensures Help.Execute(SampleStore, HelpDescriptor, Some(Variables("bogus", [], [])))
         == Some(Help.NotExistMessage("bogus"))
  {
    DescriptorsAsBuilt();
    RegResolves();
    assert "bogus" !in SampleStore.index;
  }
}
