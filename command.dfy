/**
 * The command descriptor, its consuming builder, the descriptor store that the
 * `.json` files of the `./command` directory make up, the extracted `Variables` and the check on
 * variable names (src/command.rs).
 */
module Commands {
  import opened Wrappers

  /** A command descriptor; equality is on the whole value, as in the derived `Eq`/`Hash`. */
  datatype Command = Command(name: string, alias: Option<string>, pattern: string, document: string)

  /** A descriptor that `build` accepts. */
  predicate Complete(c: Command) {
    c.name != [] && c.pattern != [] && c.document != []
  }

  /**
   * The consuming builder. Every step returns the updated builder; the panics of
   * the source are the preconditions.
   */
  datatype CommandBuilder = CommandBuilder(command: Command) {

    /** `CommandBuilder::new`: the name, no alias, empty pattern and document. */
    static function New(name: string): (b: CommandBuilder)
      ensures b.command.name == name
      ensures b.command.alias == None
      ensures b.command.pattern == [] && b.command.document == []
    {
      CommandBuilder(Command(name, None, "", ""))
    }

    /** `add_alias`: a `Some` alias replaces the alias and nothing else. */
    function AddAlias(alias: Option<string>): (b: CommandBuilder)
      requires alias.Some?
      ensures b.command.alias == alias
      ensures b.command.name == command.name
      ensures b.command.pattern == command.pattern && b.command.document == command.document
    {
      CommandBuilder(command.(alias := alias))
    }

    /** `add_pattern`: a non-empty pattern replaces the pattern and nothing else. */
    function AddPattern(pattern: string): (b: CommandBuilder)
      requires pattern != []
      ensures b.command.pattern == pattern
      ensures b.command.name == command.name && b.command.alias == command.alias
      ensures b.command.document == command.document
    {
      CommandBuilder(command.(pattern := pattern))
    }

    /** `add_document`: a non-empty document replaces the document and nothing else. */
    function AddDocument(document: string): (b: CommandBuilder)
      requires document != []
      ensures b.command.document == document
      ensures b.command.name == command.name && b.command.alias == command.alias
      ensures b.command.pattern == command.pattern
    {
      CommandBuilder(command.(document := document))
    }

    /** `build`: refuses (panics) unless name, pattern and document are non-empty; else the accumulated descriptor. */
    function Build(): (c: Command)
      requires Complete(command)
      ensures c == command
      ensures c.name != [] && c.pattern != [] && c.document != []
    {
      command
    }
  }

  /** `build` right after `new` is refused: the pattern and the document are still empty. */
  lemma NewIsIncomplete(name: string)
    ensures !Complete(CommandBuilder.New(name).command)
  {
  }

  /**
   * Whatever the alias, a builder that went through `add_pattern` and
   * `add_document` can be built exactly when its name is non-empty, and the
   * result holds the name, pattern and document given.
   */
  lemma BuildAfterPatternAndDocument(name: string, alias: Option<string>, pattern: string, document: string)
    requires pattern != [] && document != []
    ensures var b := (if alias.Some? then CommandBuilder.New(name).AddAlias(alias) else CommandBuilder.New(name))
                      .AddPattern(pattern).AddDocument(document);
            && (Complete(b.command) <==> name != [])
            && (name != [] ==> b.Build() == Command(name, alias, pattern, document))
  {
  }

  // ---------------------------------------------------------------------------
  // The descriptor store
  // ---------------------------------------------------------------------------

  /**
   * One value of the `name.json` index as `serde_json` sees it: `null`
   * (also what indexing yields for a missing key), a string holding a formal
   * name, or any other JSON value.
   */
  datatype IndexEntry = Null | Name(formal: string) | OtherValue

  /**
   * The `./command` directory: `descriptors` maps the file name `n` of
   * `./command/n.json` to the descriptor it holds, `index` is `name.json`.
   */
  datatype Store = Store(descriptors: map<string, Command>, index: map<string, IndexEntry>)

  /** `values[name]`, which is `null` for a key that is not there. */
  function IndexLookup(store: Store, name: string): IndexEntry {
    if name in store.index then store.index[name] else Null
  }

  /** `does_exist`: the index has a non-null entry for the name. */
  function DoesExist(store: Store, name: Option<string>): (b: bool)
    ensures b <==> name.Some? && name.value in store.index && !store.index[name.value].Null?
  {
    match name
    case None => false
    case Some(n) => !IndexLookup(store, n).Null?
  }

  /** `deserialize_command_by_name`: the descriptor in `./command/name.json`, if that file exists. */
  function DeserializeCommandByName(store: Store, name: string): (r: Option<Command>)
    ensures r.Some? <==> name in store.descriptors
    ensures r.Some? ==> r.value == store.descriptors[name]
  {
    if name in store.descriptors then Some(store.descriptors[name]) else None
  }

  /**
   * What `deserialize_command` needs to not panic: either a descriptor file for
   * the name, or a string entry for the name in the index.
   */
  predicate CanDeserialize(store: Store, name: string) {
    name in store.descriptors || IndexLookup(store, name).Name?
  }

  /**
   * `deserialize_command`: the direct descriptor when there is one (the index
   * is not consulted); otherwise the descriptor of the formal name the index
   * gives for it, or nothing.
   */
  function DeserializeCommand(store: Store, name: string): (r: Option<Command>)
    requires CanDeserialize(store, name)
    ensures name in store.descriptors ==> r == Some(store.descriptors[name])
    ensures name !in store.descriptors ==>
              var formal := store.index[name].formal;
              (r.Some? <==> formal in store.descriptors) && (r.Some? ==> r.value == store.descriptors[formal])
    ensures r.Some? ==> r.value in store.descriptors.Values
  {
    match DeserializeCommandByName(store, name)
    case Some(cmd) => Some(cmd)
    case None =>
      var notAlias := IndexLookup(store, name).formal;
      DeserializeCommandByName(store, notAlias)
  }

  /** An alias without a file of its own resolves to exactly what its formal name resolves to. */
  lemma AliasResolvesLikeFormal(store: Store, alias: string, formal: string)
    requires alias !in store.descriptors
    requires alias in store.index && store.index[alias] == Name(formal)
    requires formal in store.descriptors
    ensures DeserializeCommand(store, alias) == DeserializeCommand(store, formal) == Some(store.descriptors[formal])
  {
  }

  /**
   * A store in which every non-null index entry is a string: then every name
   * that exists can be deserialized without a panic.
   */
  predicate IndexWellFormed(store: Store) {
    forall k :: k in store.index ==> !store.index[k].OtherValue?
  }

  lemma ExistingCanDeserialize(store: Store, name: string)
    requires IndexWellFormed(store)
    requires DoesExist(store, Some(name))
    ensures CanDeserialize(store, name)
  {
  }

  // ---------------------------------------------------------------------------
  // Variables and the variable-name check
  // ---------------------------------------------------------------------------

  /** The variables a pattern check extracts from an input line. */
  datatype Variables = Variables(explained: string, explaining: seq<string>, other: seq<string>)

  /** The characters that may not occur in a variable name: ASCII and full-width comma and semicolon. */
  const SpecialCharacters: seq<char> := [',', '\U{FF0C}', ';', '\U{FF1B}']

  /**
   * A name none of whose characters is a special character: false exactly
   * when the name contains `,`, `，`, `;` or `；`.
   */
  predicate ValidVariableName(v: string): (ok: bool)
    ensures ok <==> (',' !in v && '\U{FF0C}' !in v && ';' !in v && '\U{FF1B}' !in v)
  {
    forall i :: 0 <= i < |v| ==> v[i] !in SpecialCharacters
  }

  /** `check_variable_name`: tries each special character in turn and stops at the first one found. */
  method CheckVariableName(variableName: string) returns (ok: bool)
    ensures ok <==> ValidVariableName(variableName)
    ensures ok <==> (',' !in variableName && '\U{FF0C}' !in variableName
                     && ';' !in variableName && '\U{FF1B}' !in variableName)
  {
    for k := 0 to |SpecialCharacters|
      invariant forall j :: 0 <= j < k ==> SpecialCharacters[j] !in variableName
    {
      if SpecialCharacters[k] in variableName {
        return false;
      }
    }
    return true;
  }

  // ---------------------------------------------------------------------------
  // The outcome of a pattern check
  // ---------------------------------------------------------------------------

  /** The messages the pattern checks write to the error stream. */
  datatype Diagnostic =
    | TooFewTokens          // regression.rs: "Sytex error"
    | SpecialInExplained    // regression.rs: special characters in the explained variable
    | NoExplaining          // regression.rs: no explaining variables
    | SpecialInExplaining   // regression.rs: special characters in an explaining variable
    | CommaNotThird         // regression.rs: the comma is not the third token
    | HelpTooManyParameters // help.rs: more than one parameter
    | ExitHasParameters     // exit.rs: parameters given to exit

  /** What `check_pattern` returns, with the diagnostic it printed on the way (if any). */
  datatype Checked = Checked(variables: Option<Variables>, diagnostic: Option<Diagnostic>)
}
