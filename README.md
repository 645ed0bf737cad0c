# NeoEcoAnalysis command front end, in Dafny

NeoEcoAnalysis is an interactive interpreter. It reads one line at a time and
turns it into a command to run. This project models the front end that makes
the choice: the command descriptor with its builder, command-word extraction,
resolution through the `./command` descriptor files and the `name.json`
alias index, the variable-name validator, and the `check_pattern` tokenisers
of the three commands `help`, `exit` and `regression`. It also models what
`help` prints.

Modules, one concept each:

- `Wrappers`: `Option`.
- `Text`: the Rust string operations the front end uses, as recursive
  functions over `seq<char>`, with the lemmas that relate them:
  - `split_whitespace`;
  - `trim`;
  - the first item of `split(",")`;
  - `replace(",", " , ")`.
- `Commands` (src/command.rs):
  - the `Command` datatype and `CommandBuilder` as a datatype whose member
    functions are the builder steps;
  - the descriptor store (`descriptors`: file name to descriptor; `index`:
    the `name.json` values);
  - `does_exist`, `deserialize_command_by_name` and `deserialize_command`;
  - `Variables`;
  - `check_variable_name` as a method with its loop, proved equal to the
    predicate `ValidVariableName` that the regression check uses.
- `Regression`, `Help`, `Exit`: each command's `check_pattern`, plus
  `HelpCommand::execute` as the line it prints.
- `Dispatch` (src/command.rs):
  - `explain_from` and `explain_by_pattern`;
  - `CommandParser`;
  - the registry, a map from descriptors to a behaviour tag.

  These functions live in command.rs, but they need the three behaviours, so
  they form their own module to keep the imports acyclic.
- `Fixtures` (src/main.rs): the three descriptors the host builds at startup,
  a sample store and registry holding them, and what the front end makes of
  sample lines.

A failing pattern check writes a message and returns `None`. The model keeps
both parts, as `Checked(variables, diagnostic)`. This tells apart the
`help`-alone case (no variables, no message) from a syntax error (no
variables, a message). Only the `variables` part reaches `CommandParser`, as
in the source.

## Model

| member | source | states |
|---|---|---|
| Commands.CommandBuilder.New | src/command.rs:23-32 | the builder holds the given name, no alias, and an empty pattern and document |
| Commands.CommandBuilder.AddAlias | src/command.rs:34-44 | refuses `None`; sets the alias and leaves name, pattern and document unchanged |
| Commands.CommandBuilder.AddPattern | src/command.rs:46-53 | refuses an empty pattern; sets the pattern and leaves name, alias and document unchanged |
| Commands.CommandBuilder.AddDocument | src/command.rs:55-62 | refuses an empty document; sets the document and leaves name, alias and pattern unchanged |
| Commands.CommandBuilder.Build | src/command.rs:64-78 | needs name, pattern and document non-empty; returns the accumulated descriptor unchanged |
| Commands.NewIsIncomplete | src/command.rs:70-76 | `build` right after `new` is refused |
| Commands.BuildAfterPatternAndDocument | src/command.rs:23-78 | after `add_pattern` and `add_document` (with or without an alias), `build` succeeds exactly when the name is non-empty, and gives the descriptor of the given fields |
| Commands.DoesExist | src/command.rs:182-202 | true exactly when a name is given and `name.json` has a non-null entry for it |
| Commands.DeserializeCommandByName | src/command.rs:161-174 | the descriptor file of the name if there is one, nothing otherwise |
| Commands.DeserializeCommand | src/command.rs:133-156 | the direct descriptor when its file exists, without consulting the index; otherwise the descriptor of the formal name the index gives, or nothing; needs the index entry to be a string when there is no file |
| Commands.AliasResolvesLikeFormal | src/command.rs:134-145 | an alias without a file of its own resolves to exactly the formal name's descriptor |
| Commands.ExistingCanDeserialize | src/command.rs:139-142 | if every non-null index entry is a string, every existing name can be deserialized without a panic |
| Commands.ValidVariableName | src/command.rs:204-214 | the validator as the regression check calls it (regression.rs:43, 57): a name is valid exactly when it holds none of `,` `，` `;` `；` |
| Commands.CheckVariableName | src/command.rs:204-214 | the loop returns false exactly when the name contains one of the four special characters |
| Text.BeforeFirstComma | src/command.rs:87-88 | the result is the longest comma-free prefix of the line |
| Text.SplitWhitespace | src/command/compute/regression.rs:30 | every token is non-empty and free of whitespace |
| Text.SplitJoin | src/command/compute/regression.rs:30 | splitting tokens joined by single spaces gives back the tokens |
| Text.SplitAtSpace | src/command/compute/regression.rs:30 | splitting at a whitespace character splits each side separately |
| Text.TrimStart | src/command.rs:88 | drops exactly the leading whitespace: a suffix of the input, starting with a non-space if non-empty, preceded by whitespace only |
| Text.TrimEnd | src/command.rs:88 | drops exactly the trailing whitespace: a prefix of the input, ending with a non-space if non-empty, followed by whitespace only |
| Text.Trim | src/command.rs:88-89 | the trimmed text neither starts nor ends with whitespace and has exactly the tokens of the input |
| Text.TrimDropsEdges | src/command.rs:88 | the trimmed text is the slice of the input between its leading and its trailing whitespace, both of which are all whitespace |
| Text.ReplaceComma | src/command/compute/regression.rs:26 | the replacement lengthens exactly the strings that hold an ASCII comma, and leaves a comma-free string unchanged; its value on every string is fixed by `Text.ReplaceCommaAppend` and `Regression.ReplaceAroundComma` |
| Text.ReplaceCommaAppend | src/command/compute/regression.rs:26 | the replacement works character by character: it distributes over concatenation |
| Regression.ReplaceAroundComma | src/command/compute/regression.rs:26 | an ASCII comma between two whitespace runs becomes ` , ` between them, and the text on either side is replaced on its own |
| Regression.Tokens | src/command/compute/regression.rs:26-30 | the check's token list: whitespace-free tokens, and the plain whitespace split when the line has no ASCII comma |
| Regression.CheckPattern | src/command/compute/regression.rs:20-74 | after comma spacing and the split: success exactly when there are at least 4 tokens, token 2 is `,` and every other token after the command word is a valid name; then explained is token 1, explaining is tokens 3.. in order, other is `[""]`; a message exactly on failure |
| Regression.NoCommaRejected | src/command/compute/regression.rs:26-73 | with no ASCII comma: under 3 tokens is "too few", otherwise "comma not third" |
| Regression.ExplainedDecidesFirst | src/command/compute/regression.rs:40-61 | when the first comma follows the command word and one token, an invalid token is reported first, then a missing explaining list |
| Regression.TokensAroundComma | src/command/compute/regression.rs:26-30 | the first ASCII comma becomes a token of its own, whatever whitespace surrounds it |
| Regression.SpacingAroundCommaIrrelevant | src/command/compute/regression.rs:26-30 | whitespace around the ASCII comma does not change the result |
| Regression.SecondCommaRejected | src/command/compute/regression.rs:26-61 | after a command word, a second ASCII comma always gives no variables (every line `explain_from` passes has a command word before its first comma; with none, `,x,y` is accepted) |
| Regression.CommandWordIrrelevant | src/command/compute/regression.rs:20-41 | neither the pattern nor the command word changes the result |
| Regression.TokensOfWellFormedLine | src/command/compute/regression.rs:26-30 | `w y, x1 .. xn` splits into `w`, `y`, `,`, `x1` .. `xn` |
| Regression.WellFormedLineAccepted | src/command/compute/regression.rs:40-69 | a command word, a valid name, a comma and a non-empty list of valid names always give exactly those variables |
| Help.CheckPattern | src/command/basic/help.rs:36-59 | on a line with a token: variables exactly when there are 2 tokens, with token 1 as explained and empty lists; a message exactly when there are more than 2 |
| Help.ArgumentTaken | src/command/basic/help.rs:52-58 | `help x` gives explained `x`, whatever characters `x` holds |
| Help.AloneIsSilent | src/command/basic/help.rs:48-50 | the command word alone gives no variables and no message |
| Help.ExtraArgumentRejected | src/command/basic/help.rs:43-46 | a third token is a syntax error |
| Help.CommandWordIrrelevant | src/command/basic/help.rs:36-40 | neither the pattern nor the first token changes the result, whatever follows that token |
| Help.Execute | src/command/basic/help.rs:9-34 | without variables: its own document; with an existing parameter: that command's document; with an unknown parameter: the "does not exist" line; and nothing when the name resolves to no descriptor |
| Help.NotExistMessage | src/command/basic/help.rs:27-30 | the message is a fixed prefix, the parameter, and a fixed suffix |
| Help.NotExistMessageInjective | src/command/basic/help.rs:27-30 | different parameters give different messages |
| Help.AliasDocumented | src/command/basic/help.rs:17-25 | `help <alias>` prints the same document as `help <formal name>` |
| Exit.CheckPattern | src/command/basic/exit.rs:14-22 | never any variables; a message exactly when there is more than one token |
| Exit.ParametersOnlyWarn | src/command/basic/exit.rs:17-21 | extra tokens warn, and the variables are still the same as for `exit` alone |
| Exit.CommandWordIrrelevant | src/command/basic/exit.rs:14-21 | neither the pattern nor the first token changes the result, whatever follows that token |
| Dispatch.CheckPattern | src/command.rs:117 | dispatch on the behaviour tag: an exit check has no variables; help variables have empty lists; regression variables are valid and non-empty |
| Dispatch.CommandToken | src/command.rs:86-90 | no command word exactly when the part before the first comma is all whitespace; otherwise a comma-free token, from a line that has tokens |
| Dispatch.CommandTokenOfSegment | src/command.rs:87-90 | the command word is the first token of the text before the first comma |
| Dispatch.CommandTokenOfWord | src/command.rs:87-90 | a word followed by whitespace, a comma or nothing is the command word |
| Dispatch.ExplainByPattern | src/command.rs:109-130 | a parser exactly when the name resolves, holding the registered behaviour and that behaviour's check result, whether the check succeeded or not |
| Dispatch.ExplainFrom | src/command.rs:82-107 | a parser exactly when there is a command word, it exists in the index and it resolves; then its behaviour and variables are those of the resolved descriptor; an exit parser has no variables |
| Dispatch.WellFormedStoreIsSafe | src/command.rs:114-115 | with string-only index entries and every descriptor registered, no unwrap on the way panics |
| Dispatch.NoCommandWord | src/command.rs:102-105 | a line that is blank before its first comma gives no parser |
| Dispatch.UnknownCommandWord | src/command.rs:95-100 | a command word the index does not know gives no parser |
| Dispatch.FormalNameResolves | src/command.rs:93-126 | a line starting with a formal name that has a file and an index entry gives that descriptor's parser |
| Dispatch.AliasResolvesLikeFormal | src/command.rs:93-156 | a line starting with an alias, followed by whitespace, the first comma or nothing, is explained exactly as the same line starting with its formal name |
| Dispatch.CommandWordIrrelevant | src/command.rs:117 | no behaviour's check depends on the pattern or on the command word, whether the word is followed by whitespace, the first comma or nothing |
| Dispatch.CheckIgnoresTrailingSpace | src/command.rs:117 | a trailing whitespace character changes no pattern check |
| Dispatch.CommandTokenIgnoresTrailingSpace | src/command.rs:86-90 | a trailing whitespace character does not change the command word |
| Dispatch.ExplainIgnoresTrailingSpace | src/main.rs:62-63 | the newline that `read_line` keeps does not change what `explain_from` returns |
| Fixtures.DescriptorsAsBuilt | src/main.rs:14-38 | the three builder chains give the spelled-out descriptors, three distinct registry keys |
| Fixtures.SampleIsSafe | src/main.rs:13-43 | every line is safe to explain against the startup registry |
| Fixtures.RegResolves | src/command.rs:133-156 | the alias `reg` exists and resolves to the regression descriptor |
| Fixtures.RegLineToken | src/command.rs:86-90 | the command word of `reg y, x1 x2` is `reg` |
| Fixtures.AliasLikeFormal | src/command.rs:133-156 | a line starting with `reg` gives the same parser as the line starting with `regression`, `reg,y, x1` included |
| Fixtures.HelpCommaToken | src/command.rs:86-90 | the command word of `help,x` is `help` |
| Fixtures.RegressionLineChecked | src/command/compute/regression.rs:40-69 | `reg y, x1 x2` gives explained `y`, explaining `x1 x2`, other `[""]` |
| Fixtures.RegressionLine | src/command.rs:82-130 | `reg y, x1 x2` reaches the regression behaviour through the alias, with those variables |
| Fixtures.RegressionTooFewTokens | src/command/compute/regression.rs:33-37 | `reg` and `reg y` have too few tokens |
| Fixtures.RegressionCommaNotThird | src/command/compute/regression.rs:70-73 | `reg y x1 x2` fails the position check |
| Fixtures.RegressionFullWidthComma | src/command/compute/regression.rs:26-40 | `reg y ， x1` fails the position check: the full-width comma is no separator |
| Fixtures.RegressionNoExplaining | src/command/compute/regression.rs:50-54 | `reg y,` has no explaining variable |
| Fixtures.RegressionSpecialInExplained | src/command/compute/regression.rs:43-48 | `reg y;bad, x1` fails the validator on the explained variable |
| Fixtures.RegressionSecondComma | src/command/compute/regression.rs:26-61 | `reg y, x1, x2` gives no variables |
| Fixtures.RegressionSpacing | src/command/compute/regression.rs:26-30 | `reg y,x1` and `reg y , x1` give equal results |
| Fixtures.HelpWithArgument | src/command/basic/help.rs:52-58 | `help reg` gives `reg`; `help a;b` gives `a;b` |
| Fixtures.HelpAlone | src/command/basic/help.rs:48-50 | `help`, `help` with a newline, and `help,reg` (one token) give nothing, silently |
| Fixtures.HelpTooMany | src/command/basic/help.rs:43-46 | `help reg extra` is a syntax error |
| Fixtures.ExitWithParameter | src/command/basic/exit.rs:17-21 | `exit now` is warned about and gives no variables |
| Fixtures.BlankLine | src/command.rs:102-105 | a blank line gives no parser |
| Fixtures.UnknownCommand | src/command.rs:95-100 | a line whose command word is none of the registered names or the alias gives no parser |
| Fixtures.HelpLine | src/command.rs:82-130 | `help reg` gives the help behaviour with parameter `reg` |
| Fixtures.ExitLine | src/command.rs:82-130 | `exit now` gives the exit behaviour with no variables |
| Fixtures.HelpPrints | src/command/basic/help.rs:9-34 | `help` prints its own document; `help reg` prints the regression document; `help bogus` prints the "does not exist" line |

## Left out

- File access and JSON parsing. The `./command/<name>.json` files are the
  map `descriptors`, and `name.json` is the map `index`. A missing key reads
  as null, as `serde_json` indexing does.
- The branch of `does_exist` taken when `name.json` cannot be read
  (src/command.rs:197-200). The model always has an index, so that branch
  is never reached.
- The panics on an unreadable `name.json` or on malformed JSON
  (src/command.rs:139-141, 165, and 194 in `does_exist`). Both maps hold
  only well-formed content.
- The coupling between the index and the file `./command/name.json`, which
  `deserialize_command_by_name("name")` would read as a descriptor
  (src/command.rs:162-165). The two maps are independent, so a store with a
  non-null `"name"` entry and no `"name"` descriptor has no file-system
  counterpart.
- The `as_str().unwrap()` at src/command.rs:142. It is a precondition
  (`CanDeserialize`): the index entry must be a string when the name has no
  file of its own.
- The `unwrap` at src/command.rs:115. It is a precondition (`ExplainSafe`):
  the resolved descriptor must be in the registry.
- The messages written while resolving a name (src/command.rs:98, 103, 148,
  186, 198). They are output only. The pattern-check messages are kept as a
  `Diagnostic` value, without their text.
- The host loop, the banner and `execute_command` (src/main.rs:46-72). They
  are I/O.
- `RegressionCommand::execute`, a `dbg!` stub (regression.rs:9-18), and
  `ExitCommand::execute`, a process exit (exit.rs:10-12). Neither has
  logic.
- The content of `name.json`. It is not part of the sources. The sample
  index lists each formal name under itself and `reg` under `regression`.
- Unicode whitespace. Whitespace is space, tab, line feed and carriage
  return only.
- `Rc<dyn CommandBehavior>` sharing and `HashMap` hashing. The registry is a
  `map` from the `Command` value to a behaviour tag. The tag does not carry
  the behaviour's own `command` field, which `HelpCommand::execute` reads
  (src/command/basic/help.rs:4-6, 12). `Help.Execute` takes that descriptor
  as its `self` parameter instead.
- The `CommandParser` accessors `command()` and `variables()`
  (src/command.rs:234-242). They are the datatype's fields.
- Help.CheckPattern requires a line with at least one token. The source
  reads token 1 of an empty token list and panics
  (src/command/basic/help.rs:52).
- This never happens through `explain_from`: `Dispatch.CommandToken`
  ensures that a line with a command word has tokens.
- On success the regression check yields `other == [""]`, a one-element
  list holding an empty string (src/command/compute/regression.rs:66). The
  model follows the code, not an empty list.
