/** decompiler.Decompile: the providers are tried in turn (podman, docker, then the
    registry); the first error or the first image found ends the search. */
module Decompiler {
  import opened Text
  import opened Nodes
  import opened History
  import opened Providers
  import PodmanDecompiler
  import DockerDecompiler
  import RegistryDecompiler

  /** The error when no provider knows the image. */
  function UnresolvedMessage(imageName: string): string {
    "Can't resolve image " + imageName
  }

  /** The result of trying the providers' outcomes in order. */
  function FirstResolved(outcomes: seq<ProviderOutcome>, imageName: string): (r: DecompileResult)
    decreases |outcomes|
  {
    if outcomes == [] then DecompileFailed(UnresolvedMessage(imageName))
    else
      match outcomes[0]
      case Failed(message) => DecompileFailed(message)
      case Found(children) => Decompiled(children)
      case NoImage => FirstResolved(outcomes[1..], imageName)
  }

  /** What the podman provider may report. */
  ghost predicate PodmanMayGive(conf: Option<PodmanDecompiler.EngineConfig>, image: Option<seq<LayerEntry>>,
                                parse: Parser, outcome: ProviderOutcome)
  {
    if PodmanDecompiler.Connection(conf).0 == "" || image.None? then outcome == NoImage
    else exists o :: IsOrdering(o, image.value, LayerCreated) && AllReady(o, LayerCommand) && outcome == LayersOutcome(o, parse)
  }

  /** What the docker provider may report. */
  ghost predicate DockerMayGive(backend: DockerDecompiler.DockerBackend, parse: Parser, outcome: ProviderOutcome) {
    match backend
    case DockerUnavailable => outcome == NoImage
    case DockerHistory(items) =>
      exists o :: IsOrdering(o, items, DockerCreated) && AllReady(o, DockerDecompiler.DockerCommand)
        && outcome == DockerDecompiler.DockerOutcome(o, parse)
  }

  /** What the registry provider may report. */
  ghost predicate RegistryMayGive(backend: RegistryDecompiler.RegistryBackend, parse: Parser, outcome: ProviderOutcome) {
    match backend
    case BadReference(message) => outcome == Failed(message)
    case FetchFailed => outcome == NoImage
    case ConfigFailed(message) => outcome == Failed(message)
    case RegistryImage(history, user) =>
      exists o :: IsOrdering(o, history, LayerCreated) && AllReady(o, LayerCommand)
        && outcome == RegistryDecompiler.RegistryOutcome(o, user, parse)
  }

  /** Decompile.  The backends stand for what each provider's client reports about
      `imageName`; `tried` holds the outcomes of the providers that were asked. */
  method Decompile(imageName: string, conf: Option<PodmanDecompiler.EngineConfig>, podman: Option<seq<LayerEntry>>,
                   docker: DockerDecompiler.DockerBackend, registry: RegistryDecompiler.RegistryBackend, parse: Parser)
    returns (r: DecompileResult, tried: seq<ProviderOutcome>)
    requires podman.Some? ==> AllReady(podman.value, LayerCommand)
    requires docker.DockerHistory? ==> AllReady(docker.items, DockerDecompiler.DockerCommand)
    requires registry.RegistryImage? ==> AllReady(registry.history, LayerCommand)
    ensures 1 <= |tried| <= 3
    ensures r == FirstResolved(tried, imageName)
    ensures forall k :: 0 <= k < |tried| - 1 ==> tried[k].NoImage?
    ensures |tried| < 3 ==> !tried[|tried| - 1].NoImage?
    ensures PodmanMayGive(conf, podman, parse, tried[0])
    ensures |tried| >= 2 ==> DockerMayGive(docker, parse, tried[1])
    ensures |tried| == 3 ==> RegistryMayGive(registry, parse, tried[2])
  {
    tried := [];
    for i := 0 to 3
      invariant |tried| == i
      invariant forall k :: 0 <= k < i ==> tried[k].NoImage?
      invariant i >= 1 ==> PodmanMayGive(conf, podman, parse, tried[0])
      invariant i >= 2 ==> DockerMayGive(docker, parse, tried[1])
      invariant i == 3 ==> RegistryMayGive(registry, parse, tried[2])
    {
      var outcome: ProviderOutcome;
      ghost var before := tried;
      if i == 0 {
        outcome := AskPodman(conf, podman, parse);
      } else if i == 1 {
        outcome := AskDocker(docker, parse);
      } else {
        outcome := AskRegistry(registry, parse);
      }
      tried := tried + [outcome];
      assert tried[..i] == before;
      if !outcome.NoImage? {
        SkipUnresolved(before, [outcome], imageName);
        match outcome
        case Failed(message) =>
          return DecompileFailed(message), tried;
        case Found(children) =>
          return Decompiled(children), tried;
      }
    }
    SkipUnresolved(tried, [], imageName);
    assert tried + [] == tried;
    r := DecompileFailed(UnresolvedMessage(imageName));
  }

  /** One turn of the loop for each provider. */
  method AskPodman(conf: Option<PodmanDecompiler.EngineConfig>, podman: Option<seq<LayerEntry>>, parse: Parser)
    returns (outcome: ProviderOutcome)
    requires podman.Some? ==> AllReady(podman.value, LayerCommand)
    ensures PodmanMayGive(conf, podman, parse, outcome)
  {
    ghost var o;
    outcome, o := PodmanDecompiler.Decompile(conf, podman, parse);
    if PodmanDecompiler.Connection(conf).0 != "" && podman.Some? {
      assert IsOrdering(o, podman.value, LayerCreated);
    }
  }

  method AskDocker(docker: DockerDecompiler.DockerBackend, parse: Parser) returns (outcome: ProviderOutcome)
    requires docker.DockerHistory? ==> AllReady(docker.items, DockerDecompiler.DockerCommand)
    ensures DockerMayGive(docker, parse, outcome)
  {
    ghost var o;
    outcome, o := DockerDecompiler.Decompile(docker, parse);
    if docker.DockerHistory? {
      assert IsOrdering(o, docker.items, DockerCreated);
    }
  }

  method AskRegistry(registry: RegistryDecompiler.RegistryBackend, parse: Parser) returns (outcome: ProviderOutcome)
    requires registry.RegistryImage? ==> AllReady(registry.history, LayerCommand)
    ensures RegistryMayGive(registry, parse, outcome)
  {
    ghost var o;
    outcome, o := RegistryDecompiler.Decompile(registry, parse);
    if registry.RegistryImage? {
      assert IsOrdering(o, registry.history, LayerCreated);
    }
  }

  // ---------------------------------------------------------------------------
  // Properties

  /** Providers that do not know the image are passed over. */
  lemma {:induction false} SkipUnresolved(unresolved: seq<ProviderOutcome>, rest: seq<ProviderOutcome>, imageName: string)
    requires forall k :: 0 <= k < |unresolved| ==> unresolved[k].NoImage?
    ensures FirstResolved(unresolved + rest, imageName) == FirstResolved(rest, imageName)
    decreases |unresolved|
  {
    if unresolved == [] {
      assert unresolved + rest == rest;
    } else {
      assert (unresolved + rest)[0] == unresolved[0];
      assert (unresolved + rest)[1..] == unresolved[1..] + rest;
      SkipUnresolved(unresolved[1..], rest, imageName);
    }
  }

  /** The first error is the result, whatever the later providers would report. */
  lemma FirstErrorWins(outcomes: seq<ProviderOutcome>, j: nat, message: string, imageName: string)
    requires j < |outcomes| && outcomes[j] == Failed(message)
    requires forall k :: 0 <= k < j ==> outcomes[k].NoImage?
    ensures FirstResolved(outcomes, imageName) == DecompileFailed(message)
  {
    assert outcomes == outcomes[..j] + outcomes[j..];
    SkipUnresolved(outcomes[..j], outcomes[j..], imageName);
  }

  /** The first image found is the result, even one without instructions. */
  lemma FirstFoundWins(outcomes: seq<ProviderOutcome>, j: nat, children: seq<Instruction>, imageName: string)
    requires j < |outcomes| && outcomes[j] == Found(children)
    requires forall k :: 0 <= k < j ==> outcomes[k].NoImage?
    ensures FirstResolved(outcomes, imageName) == Decompiled(children)
  {
    assert outcomes == outcomes[..j] + outcomes[j..];
    SkipUnresolved(outcomes[..j], outcomes[j..], imageName);
  }

  /** When no provider knows the image, the result is the unresolved-image error. */
  lemma AllUnresolvedIsError(outcomes: seq<ProviderOutcome>, imageName: string)
    requires forall k :: 0 <= k < |outcomes| ==> outcomes[k].NoImage?
    ensures FirstResolved(outcomes, imageName) == DecompileFailed("Can't resolve image " + imageName)
  {
    SkipUnresolved(outcomes, [], imageName);
    assert outcomes + [] == outcomes;
  }

  /** An error result is an error of a provider or the unresolved-image error, and a
      decompiled image is what a provider found. */
  lemma {:induction false} ResultComesFromOutcomes(outcomes: seq<ProviderOutcome>, imageName: string)
    ensures FirstResolved(outcomes, imageName).Decompiled? ==>
      Found(FirstResolved(outcomes, imageName).nodes) in outcomes
    ensures FirstResolved(outcomes, imageName).DecompileFailed? ==>
      Failed(FirstResolved(outcomes, imageName).message) in outcomes
      || FirstResolved(outcomes, imageName).message == UnresolvedMessage(imageName)
    decreases |outcomes|
  {
    if outcomes != [] && outcomes[0].NoImage? {
      ResultComesFromOutcomes(outcomes[1..], imageName);
      assert forall x :: x in outcomes[1..] ==> x in outcomes;
    }
  }
}
