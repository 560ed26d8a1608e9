/** The podman provider: the history of the image the active podman service reports,
    ordered by creation time and turned into instructions. */
module PodmanDecompiler {
  import opened Text
  import opened Nodes
  import opened History
  import opened DecompilerUtils
  import opened Providers

  /** A service destination of the containers configuration. */
  datatype ServiceDestination = ServiceDestination(uri: string, identity: string)

  /** The engine section of the containers configuration. */
  datatype EngineConfig = EngineConfig(activeService: string, serviceDestinations: map<string, ServiceDestination>)

  /** getPodmanConnection: the URI and identity of the active service.  No configuration
      or no active service gives empty strings, and so does an active service missing from
      the destinations, whose lookup yields the empty destination. */
  function Connection(conf: Option<EngineConfig>): (r: (string, string))
    ensures conf.None? || conf.value.activeService == "" ==> r == ("", "")
    ensures conf.Some? && conf.value.activeService != "" ==>
      if conf.value.activeService in conf.value.serviceDestinations
      then r == (conf.value.serviceDestinations[conf.value.activeService].uri,
                 conf.value.serviceDestinations[conf.value.activeService].identity)
      else r == ("", "")
  {
    match conf
    case None => ("", "")
    case Some(engine) =>
      if engine.activeService == "" then ("", "")
      else
        var destination :=
          if engine.activeService in engine.serviceDestinations then engine.serviceDestinations[engine.activeService]
          else ServiceDestination("", "");
        (destination.uri, destination.identity)
  }

  /** PodmanProvider.Decompile.  `image` is what connecting to the service and asking for
      the image gave: None when either failed.  `ordered` is the history as the sort left
      it. */
  method Decompile(conf: Option<EngineConfig>, image: Option<seq<LayerEntry>>, parse: Parser)
    returns (r: ProviderOutcome, ghost ordered: seq<LayerEntry>)
    requires image.Some? ==> AllReady(image.value, LayerCommand)
    ensures Connection(conf).0 == "" || image.None? ==> r == NoImage
    ensures Connection(conf).0 != "" && image.Some? ==>
      SortedBy(ordered, LayerCreated) && multiset(ordered) == multiset(image.value)
      && AllReady(ordered, LayerCommand) && r == LayersOutcome(ordered, parse)
  {
    var connection := Connection(conf);
    var uri := connection.0;
    if uri != "" {
      if image.None? {
        return NoImage, [];
      }
      var root := new Root();
      var history := OrderedCopy(image.value, LayerCreated);
      ordered := history[..];
      AllReadyPermutation(ordered, image.value, LayerCommand);
      var err := AppendLayers(history, root, parse);
      ghost var result := LinesNodes(ConcatMap(LayerEntryLines, ordered), parse);
      if err.Some? {
        assert result == ParseFailed(err.value);
        return Failed(err.value), ordered;
      }
      assert result == Parsed(root.children) by {
        assert [] + result.children == result.children;
      }
      return Found(root.children), ordered;
    }
    return NoImage, [];
  }
}
