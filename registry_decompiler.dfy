/** The registry provider: the history in the image's configuration file, fetched from
    its registry, ordered by creation time and turned into instructions, followed by the
    configured user. */
module RegistryDecompiler {
  import opened Text
  import opened Constants
  import opened Nodes
  import opened History
  import opened DecompilerUtils
  import opened Providers

  /** What the registry client gives: a reference that does not parse, no image, a
      configuration file that cannot be read, or the configuration's history and user. */
  datatype RegistryBackend =
    | BadReference(message: string)
    | FetchFailed
    | ConfigFailed(message: string)
    | RegistryImage(history: seq<LayerEntry>, user: string)

  /** The line for the configured user, if there is one. */
  function UserLines(user: string): (r: seq<string>)
    ensures user == "" <==> r == []
  {
    if user != "" then [UserInstruction + user] else []
  }

  /** The user line never goes to parseLabel. */
  lemma UserLinesReady(user: string)
    ensures LabelsMatch(UserLines(user))
  {
    if user != "" {
      var line := UserInstruction + user;
      assert line[0] == 'U';
      assert LabelReady(UserLines(user)[0]);
    }
  }

  /** The outcome of a history taken in the order `ordered`, with the configured user. */
  function RegistryOutcome(ordered: seq<LayerEntry>, user: string, parse: Parser): ProviderOutcome
    requires AllReady(ordered, LayerCommand)
  {
    LayersReady(ordered);
    UserLinesReady(user);
    LabelsMatchJoin(ConcatMap(LayerEntryLines, ordered), UserLines(user));
    Outcome(LinesNodes(ConcatMap(LayerEntryLines, ordered) + UserLines(user), parse))
  }

  /** RegistryProvider.Decompile.  `ordered` is the history as the sort left it. */
  method Decompile(backend: RegistryBackend, parse: Parser) returns (r: ProviderOutcome, ghost ordered: seq<LayerEntry>)
    requires backend.RegistryImage? ==> AllReady(backend.history, LayerCommand)
    ensures backend.BadReference? ==> r == Failed(backend.message)
    ensures backend.FetchFailed? ==> r == NoImage
    ensures backend.ConfigFailed? ==> r == Failed(backend.message)
    ensures backend.RegistryImage? ==>
      SortedBy(ordered, LayerCreated) && multiset(ordered) == multiset(backend.history)
      && AllReady(ordered, LayerCommand) && r == RegistryOutcome(ordered, backend.user, parse)
  {
    match backend
    case BadReference(message) =>
      return Failed(message), [];
    case FetchFailed =>
      return NoImage, [];
    case ConfigFailed(message) =>
      return Failed(message), [];
    case RegistryImage(items, user) =>
      var root := new Root();
      var history := OrderedCopy(items, LayerCreated);
      ordered := history[..];
      AllReadyPermutation(ordered, items, LayerCommand);
      LayersReady(ordered);
      UserLinesReady(user);
      ghost var historyResult := LinesNodes(ConcatMap(LayerEntryLines, ordered), parse);
      ghost var userResult := LinesNodes(UserLines(user), parse);
      LinesNodesAppend(ConcatMap(LayerEntryLines, ordered), UserLines(user), parse);
      var err := AppendLayers(history, root, parse);
      if err.Some? {
        assert historyResult == ParseFailed(err.value);
        return Failed(err.value), ordered;
      }
      ghost var middle := root.children;
      assert historyResult == Parsed(middle) by {
        assert [] + historyResult.children == historyResult.children;
      }
      if user != "" {
        LinesNodesSingle(UserInstruction + user, parse);
        err := Line2Node(UserInstruction + user, root, parse);
        if err.Some? {
          return Failed(err.value), ordered;
        }
      } else {
        assert userResult == Parsed([]);
        assert root.children == middle + [];
      }
      return Found(root.children), ordered;
  }

  // ---------------------------------------------------------------------------
  // Properties

  /** The configured user comes after every history line, even when the history already
      set a user. */
  lemma UserAppendedLast(ordered: seq<LayerEntry>, user: string, parse: Parser, nodes: seq<Instruction>, userNodes: seq<Instruction>)
    requires AllReady(ordered, LayerCommand)
    requires user != ""
    requires LayersOutcome(ordered, parse) == Found(nodes)
    requires parse(UserInstruction + user) == Parsed(userNodes)
    ensures RegistryOutcome(ordered, user, parse) == Found(nodes + Relined(userNodes, -1, -1))
  {
    LayersReady(ordered);
    UserLinesReady(user);
    LinesNodesAppend(ConcatMap(LayerEntryLines, ordered), UserLines(user), parse);
    LinesNodesSingle(UserInstruction + user, parse);
    var line := UserInstruction + user;
    assert line[0] == 'U';
    assert !HasPrefix(line, LabelInstruction);
  }

  /** Without a configured user the outcome is that of the history alone. */
  lemma NoUserAddsNothing(ordered: seq<LayerEntry>, parse: Parser)
    requires AllReady(ordered, LayerCommand)
    ensures RegistryOutcome(ordered, "", parse) == LayersOutcome(ordered, parse)
  {
    assert ConcatMap(LayerEntryLines, ordered) + UserLines("") == ConcatMap(LayerEntryLines, ordered);
  }
}
