/** The rule engine: walks the instructions of an image or a Containerfile, dispatches
    each argument of a watched instruction to its rule, reports empty arguments directly,
    and finally collects what every rule has accumulated.  A FROM rule analyses the base
    image's instructions with the same state, so the rules see the whole lineage.

    The decompiler and the RUN rule are inputs (`Env`).  The walk is specified by the pure
    functions Walk / Visit / VisitArgs / Dispatch / FromAnalyze; `fuel` bounds how many base
    images deep FROM recurses, a device of the model only. */
module Engine {
  import opened Text
  import opened Constants
  import opened Nodes
  import opened Results
  import opened RuleState
  import UserRule
  import ExposeRule

  /** The parts of the world the engine calls into: the decompiler, and the RUN rule's
      per-argument check. */
  datatype Env = Env(decompile: string -> DecompileResult, runCheck: string -> seq<Finding>)

  const ScratchImageName: string := "scratch"

  /** commandHandlers[strings.ToUpper(value + " ")] */
  function HandlerFor(value: string): Option<Handler> {
    var key := ToUpper(value + " ");
    if key == ExposeInstruction then Some(ExposeHandler)
    else if key == FromInstruction then Some(FromHandler)
    else if key == RunInstruction then Some(RunHandler)
    else if key == UserInstruction then Some(UserHandler)
    else None
  }

  function LineOf(inst: Instruction): Line {
    Line(inst.startLine, inst.endLine)
  }

  function WrongValueFinding(inst: Instruction, source: Source): Finding {
    Finding("Wrong value", Failed, Medium,
      inst.value + " " + GenerateErrorLocation(source, LineOf(inst)) + " has an empty value")
  }

  function FromFailureFinding(image: string): Finding {
    Finding("Analyze error", Failed, Low, FromFailurePrefix + image)
  }

  const FromFailurePrefix: string := "unable to analyze the base image "

  // ---------------------------------------------------------------------------
  // The walk

  /** The state after a walk, and the findings the engine reported itself. */
  datatype Walked = Walked(state: State, direct: seq<Finding>)

  /** Walks the instructions in order. */
  function Walk(env: Env, st: State, nodes: seq<Instruction>, source: Source, fuel: nat): Walked
    decreases fuel, 3, |nodes|
  {
    if nodes == [] then Walked(st, [])
    else
      var before := Walk(env, st, nodes[..|nodes| - 1], source, fuel);
      var last := Visit(env, before.state, nodes[|nodes| - 1], source, fuel);
      Walked(last.state, before.direct + last.direct)
  }

  /** One instruction: ignored unless its keyword has a rule. */
  function Visit(env: Env, st: State, inst: Instruction, source: Source, fuel: nat): Walked
    decreases fuel, 2, 0
  {
    match HandlerFor(inst.value)
    case None => Walked(st, [])
    case Some(h) => VisitArgs(env, st, h, inst, |inst.args|, source, fuel)
  }

  /** The first `k` arguments of a watched instruction, in order. */
  function VisitArgs(env: Env, st: State, h: Handler, inst: Instruction, k: nat, source: Source, fuel: nat): Walked
    requires k <= |inst.args|
    decreases fuel, 1, k
  {
    if k == 0 then Walked(st, [])
    else
      var before := VisitArgs(env, st, h, inst, k - 1, source, fuel);
      var value := inst.args[k - 1];
      if value == "" then Walked(before.state, before.direct + [WrongValueFinding(inst, source)])
      else Walked(Dispatch(env, before.state, h, value, source, LineOf(inst), fuel), before.direct)
  }

  /** handler.Analyze for one non-empty argument. */
  function Dispatch(env: Env, st: State, h: Handler, value: string, source: Source, line: Line, fuel: nat): State
    decreases fuel, 1, 0
  {
    match h
    case ExposeHandler => ExposeRule.Analyze(st, value, source, line)
    case FromHandler => FromAnalyze(env, st, value, fuel)
    case RunHandler => RunAnalyze(env, st, value)
    case UserHandler => UserRule.Analyze(st, value, source, line)
  }

  /** From.Analyze: `scratch` changes nothing; a base image that cannot be decompiled
      replaces the stored failure; otherwise the base image's instructions are walked with
      the same state, as a parent source, and their direct findings are dropped. */
  function FromAnalyze(env: Env, st: State, image: string, fuel: nat): (r: State)
    ensures image == ScratchImageName ==> r == st
    ensures image != ScratchImageName && env.decompile(image).DecompileFailed? ==>
      r.Keys == st.Keys + {FromResult} && Stored(r, FromResult) == [FromFailureFinding(image)]
      && forall k :: k in st && k != FromResult ==> r[k] == st[k]
    decreases fuel, 0, 0
  {
    if image == ScratchImageName then st
    else match env.decompile(image)
      case DecompileFailed(_) => st[FromResult := Findings([FromFailureFinding(image)])]
      case Decompiled(parent) =>
        if fuel == 0 then st
        else Walk(env, st, parent, Source(image, Parent), fuel - 1).state
  }

  /** The RUN rule: the check of the latest argument is stored. */
  function RunAnalyze(env: Env, st: State, value: string): (r: State)
    ensures r.Keys == st.Keys + {RunResult}
    ensures Stored(r, RunResult) == env.runCheck(value)
    ensures forall k :: k in st && k != RunResult ==> r[k] == st[k]
  {
    st[RunResult := Findings(env.runCheck(value))]
  }

  function FromPostProcess(st: State): (r: seq<Finding>)
    ensures FromResult !in st ==> r == []
  {
    Stored(st, FromResult)
  }

  function RunPostProcess(st: State): (r: seq<Finding>)
    ensures RunResult !in st ==> r == []
  {
    Stored(st, RunResult)
  }

  function PostProcessOf(h: Handler, st: State): seq<Finding> {
    match h
    case ExposeHandler => ExposeRule.PostProcess(st)
    case FromHandler => FromPostProcess(st)
    case RunHandler => RunPostProcess(st)
    case UserHandler => UserRule.PostProcess(st)
  }

  /** The findings of the given rules, in the given order. */
  function CollectAll(hs: seq<Handler>, st: State): seq<Finding> {
    if hs == [] then [] else CollectAll(hs[..|hs| - 1], st) + PostProcessOf(hs[|hs| - 1], st)
  }

  /** The rules' findings, in the fixed rule order. */
  lemma CollectAllInOrder(st: State)
    ensures CollectAll(HandlerOrder, st)
         == ExposeRule.PostProcess(st) + FromPostProcess(st) + RunPostProcess(st) + UserRule.PostProcess(st)
  {
    var hs := HandlerOrder;
    assert hs[..4][..3] == hs[..3] && hs[..3][..2] == hs[..2] && hs[..2][..1] == hs[..1] && hs[..1][..0] == [];
    assert CollectAll(hs[..1], st) == ExposeRule.PostProcess(st);
    assert CollectAll(hs[..2], st) == ExposeRule.PostProcess(st) + FromPostProcess(st);
    assert CollectAll(hs[..3], st) == ExposeRule.PostProcess(st) + FromPostProcess(st) + RunPostProcess(st);
    assert hs[..4] == hs;
  }

  datatype Analysis = Analysis(findings: seq<Finding>, state: State)

  /** What AnalyzeNodeFromSource returns: the direct findings followed by every rule's. */
  function AnalyzeNodes(env: Env, st: State, nodes: seq<Instruction>, source: Source, fuel: nat): Analysis {
    var w := Walk(env, st, nodes, source, fuel);
    Analysis(w.direct + CollectAll(HandlerOrder, w.state), w.state)
  }

  // ---------------------------------------------------------------------------
  // The engine's entry points

  /** AnalyzeNodeFromSource: nested loops over the instructions and their arguments, then
      a loop over the rules. */
  method AnalyzeNodeFromSource(env: Env, st: State, nodes: seq<Instruction>, source: Source, fuel: nat)
    returns (suggestions: seq<Finding>, ctx: State)
    ensures Analysis(suggestions, ctx) == AnalyzeNodes(env, st, nodes, source, fuel)
  {
    suggestions := [];
    ctx := st;
    for i := 0 to |nodes|
      invariant Walked(ctx, suggestions) == Walk(env, st, nodes[..i], source, fuel)
    {
      var child := nodes[i];
      var handler := HandlerFor(child.value);
      assert nodes[..i + 1][..i] == nodes[..i];
      if handler.Some? {
        suggestions, ctx := AnalyzeArguments(env, ctx, suggestions, handler.value, child, source, fuel);
      }
    }
    assert nodes[..|nodes|] == nodes;
    suggestions := CollectFindings(ctx, suggestions);
  }

  /** The final loop of AnalyzeNodeFromSource: every rule's findings, in rule order. */
  method CollectFindings(ctx: State, found: seq<Finding>) returns (suggestions: seq<Finding>)
    ensures suggestions == found + CollectAll(HandlerOrder, ctx)
  {
    suggestions := found;
    for j := 0 to |HandlerOrder|
      invariant suggestions == found + CollectAll(HandlerOrder[..j], ctx)
    {
      suggestions := suggestions + PostProcessOf(HandlerOrder[j], ctx);
      assert HandlerOrder[..j + 1][..j] == HandlerOrder[..j];
    }
    assert HandlerOrder[..|HandlerOrder|] == HandlerOrder;
  }

  /** The inner loop of AnalyzeNodeFromSource: the arguments of one watched instruction. */
  method AnalyzeArguments(env: Env, st: State, found: seq<Finding>, h: Handler, child: Instruction, source: Source, fuel: nat)
    returns (suggestions: seq<Finding>, ctx: State)
    ensures ctx == VisitArgs(env, st, h, child, |child.args|, source, fuel).state
    ensures suggestions == found + VisitArgs(env, st, h, child, |child.args|, source, fuel).direct
  {
    suggestions, ctx := found, st;
    var line := Line(child.startLine, child.endLine);
    for n := 0 to |child.args|
      invariant ctx == VisitArgs(env, st, h, child, n, source, fuel).state
      invariant suggestions == found + VisitArgs(env, st, h, child, n, source, fuel).direct
    {
      VisitArgsStep(env, st, h, child, n, source, fuel);
      if child.args[n] == "" {
        suggestions := suggestions + [WrongValueFinding(child, source)];
      } else {
        ctx := Dispatch(env, ctx, h, child.args[n], source, line, fuel);
      }
    }
  }

  /** One more argument: an empty one adds a finding, any other is dispatched. */
  lemma VisitArgsStep(env: Env, st: State, h: Handler, inst: Instruction, k: nat, source: Source, fuel: nat)
    requires k < |inst.args|
    ensures var before := VisitArgs(env, st, h, inst, k, source, fuel);
      VisitArgs(env, st, h, inst, k + 1, source, fuel)
      == if inst.args[k] == "" then Walked(before.state, before.direct + [WrongValueFinding(inst, source)])
         else Walked(Dispatch(env, before.state, h, inst.args[k], source, LineOf(inst), fuel), before.direct)
  {
  }

  function ImageFailureFinding(image: string, message: string): Finding {
    Finding("Analyze error", Failed, Critical, "unable to analyze " + image + " - error " + message)
  }

  function ParseFailureFinding(fileName: string, message: string): Finding {
    Finding("Parse error", Failed, Critical, ParseFailurePrefix + fileName + " : " + message)
  }

  const ParseFailurePrefix: string := "unable to analyze the Containerfile. Error when parsing "

  /** AnalyzeImage: a decompile error is the only finding; otherwise the image's
      instructions are analysed from an empty state. */
  method AnalyzeImage(env: Env, image: string, fuel: nat) returns (r: seq<Finding>)
    ensures env.decompile(image).DecompileFailed? ==>
      r == [ImageFailureFinding(image, env.decompile(image).message)]
    ensures env.decompile(image).Decompiled? ==>
      r == AnalyzeNodes(env, map[], env.decompile(image).nodes, Source("", Image), fuel).findings
  {
    match env.decompile(image)
    case DecompileFailed(message) =>
      r := [ImageFailureFinding(image, message)];
    case Decompiled(nodes) =>
      var ctx;
      r, ctx := AnalyzeNodeFromSource(env, map[], nodes, Source("", Image), fuel);
  }

  /** AnalyzeFile, given what the parser made of the file: a parse error is the only
      finding; otherwise the file's instructions are analysed from an empty state. */
  method AnalyzeFile(env: Env, fileName: string, parsed: ParseResult, fuel: nat) returns (r: seq<Finding>)
    ensures parsed.ParseFailed? ==> r == [ParseFailureFinding(fileName, parsed.message)]
    ensures parsed.Parsed? ==>
      r == AnalyzeNodes(env, map[], parsed.children, Source("", Image), fuel).findings
  {
    match parsed
    case ParseFailed(message) =>
      r := [ParseFailureFinding(fileName, message)];
    case Parsed(children) =>
      var ctx;
      r, ctx := AnalyzeNodeFromSource(env, map[], children, Source("", Image), fuel);
  }

  // ---------------------------------------------------------------------------
  // Dispatch

  /** Dispatch ignores case: an instruction is watched exactly when its upper-cased
      keyword is EXPOSE, FROM, RUN or USER. */
  lemma HandlerForIgnoresCase(value: string)
    ensures HandlerFor(value).Some? <==> ToUpper(value) in ["EXPOSE", "FROM", "RUN", "USER"]
    ensures HandlerFor(value) == Some(UserHandler) <==> ToUpper(value) == "USER"
    ensures HandlerFor(value) == Some(FromHandler) <==> ToUpper(value) == "FROM"
  {
    var u := ToUpper(value);
    assert ToUpper(value + " ") == u + " ";
    AppendSpaceInjective(u, "EXPOSE");
    AppendSpaceInjective(u, "FROM");
    AppendSpaceInjective(u, "RUN");
    AppendSpaceInjective(u, "USER");
  }

  lemma AppendSpaceInjective(a: string, b: string)
    ensures a + " " == b + " " <==> a == b
  {
    if a + " " == b + " " {
      assert a == (a + " ")[..|a|] == (b + " ")[..|b|] == b;
    }
  }

  /** The direct findings: one "Wrong value" per empty argument of a watched instruction,
      in instruction order. */
  function EmptyValueFindings(nodes: seq<Instruction>, source: Source): seq<Finding> {
    if nodes == [] then []
    else EmptyValueFindings(nodes[..|nodes| - 1], source) + InstructionEmptyValues(nodes[|nodes| - 1], source)
  }

  function InstructionEmptyValues(inst: Instruction, source: Source): seq<Finding> {
    if HandlerFor(inst.value).None? then []
    else seq(CountEmpty(inst.args), _ => WrongValueFinding(inst, source))
  }

  lemma {:induction false} VisitArgsDirect(env: Env, st: State, h: Handler, inst: Instruction, k: nat, source: Source, fuel: nat)
    requires k <= |inst.args|
    ensures VisitArgs(env, st, h, inst, k, source, fuel).direct
         == seq(CountEmpty(inst.args[..k]), _ => WrongValueFinding(inst, source))
    decreases k
  {
    if k > 0 {
      VisitArgsDirect(env, st, h, inst, k - 1, source, fuel);
      assert inst.args[..k][..k - 1] == inst.args[..k - 1];
    }
  }

  /** The engine's own findings depend only on the instructions, not on the state, the
      base images or the rules. */
  lemma {:induction false} DirectFindingsAreEmptyValues(env: Env, st: State, nodes: seq<Instruction>, source: Source, fuel: nat)
    ensures Walk(env, st, nodes, source, fuel).direct == EmptyValueFindings(nodes, source)
    decreases |nodes|
  {
    if nodes != [] {
      var init := nodes[..|nodes| - 1];
      var last := nodes[|nodes| - 1];
      DirectFindingsAreEmptyValues(env, st, init, source, fuel);
      var mid := Walk(env, st, init, source, fuel).state;
      if HandlerFor(last.value).Some? {
        VisitArgsDirect(env, mid, HandlerFor(last.value).value, last, |last.args|, source, fuel);
        assert last.args[..|last.args|] == last.args;
      }
    }
  }

  /** The instructions that have a rule. */
  function Dispatched(nodes: seq<Instruction>): (r: seq<Instruction>)
    ensures forall i :: 0 <= i < |r| ==> HandlerFor(r[i].value).Some?
  {
    if nodes == [] then []
    else if HandlerFor(nodes[|nodes| - 1].value).Some? then Dispatched(nodes[..|nodes| - 1]) + [nodes[|nodes| - 1]]
    else Dispatched(nodes[..|nodes| - 1])
  }

  /** Instructions without a rule contribute nothing. */
  lemma {:induction false} OnlyDispatchedInstructionsCount(env: Env, st: State, nodes: seq<Instruction>, source: Source, fuel: nat)
    ensures Walk(env, st, nodes, source, fuel) == Walk(env, st, Dispatched(nodes), source, fuel)
    decreases |nodes|
  {
    if nodes != [] {
      var init := nodes[..|nodes| - 1];
      var last := nodes[|nodes| - 1];
      OnlyDispatchedInstructionsCount(env, st, init, source, fuel);
      if HandlerFor(last.value).Some? {
        var d := Dispatched(init) + [last];
        assert d[..|d| - 1] == Dispatched(init);
      }
    }
  }

  // ---------------------------------------------------------------------------
  // FROM

  /** A later failing FROM replaces the stored failure. */
  lemma FromFailureLastWins(env: Env, st: State, first: string, second: string, fuel: nat)
    requires first != ScratchImageName && env.decompile(first).DecompileFailed?
    requires second != ScratchImageName && env.decompile(second).DecompileFailed?
    ensures FromPostProcess(FromAnalyze(env, FromAnalyze(env, st, first, fuel), second, fuel))
         == [FromFailureFinding(second)]
  {
  }

  /** A Containerfile that only says `FROM scratch` reports exactly the implicit root. */
  lemma FromScratchOnly(env: Env, line: int, fuel: nat)
    ensures AnalyzeNodes(env, map[], [Instruction("from", [ScratchImageName], line, line)], Source("", Image), fuel).findings
         == [UserRule.ImplicitRootFinding]
  {
    var inst := Instruction("from", [ScratchImageName], line, line);
    var source := Source("", Image);
    assert ToUpper("from ") == FromInstruction;
    assert HandlerFor(inst.value) == Some(FromHandler);
    assert VisitArgs(env, map[], FromHandler, inst, 0, source, fuel) == Walked(map[], []);
    assert Dispatch(env, map[], FromHandler, ScratchImageName, source, LineOf(inst), fuel) == map[];
    assert Visit(env, map[], inst, source, fuel) == Walked(map[], []);
    assert [inst][..0] == [];
    assert Walk(env, map[], [inst], source, fuel) == Walked(map[], []);
    CollectAllInOrder(map[]);
  }

  // ---------------------------------------------------------------------------
  // The USER verdict spans the lineage

  /** The lineage sets a user: some USER instruction has a non-empty argument, or some
      FROM names a base image whose lineage does. */
  predicate SetsUser(env: Env, nodes: seq<Instruction>, fuel: nat)
    decreases fuel, 3, |nodes|
  {
    exists i :: 0 <= i < |nodes| && InstructionSetsUser(env, nodes[i], fuel)
  }

  predicate InstructionSetsUser(env: Env, inst: Instruction, fuel: nat)
    decreases fuel, 2, 0
  {
    HandlerFor(inst.value).Some? && ArgsSetUser(env, HandlerFor(inst.value).value, inst.args, fuel)
  }

  /** Some non-empty argument sets a user under rule `h`. */
  predicate ArgsSetUser(env: Env, h: Handler, args: seq<string>, fuel: nat)
    decreases fuel, 1, 1
  {
    exists k :: 0 <= k < |args| && args[k] != "" && ArgSetsUser(env, h, args[k], fuel)
  }

  predicate ArgSetsUser(env: Env, h: Handler, value: string, fuel: nat)
    decreases fuel, 1, 0
  {
    match h
    case UserHandler => true
    case FromHandler => ParentSetsUser(env, value, fuel)
    case _ => false
  }

  predicate ParentSetsUser(env: Env, image: string, fuel: nat)
    decreases fuel, 0, 0
  {
    image != ScratchImageName && fuel > 0 && env.decompile(image).Decompiled?
    && SetsUser(env, env.decompile(image).nodes, fuel - 1)
  }

  lemma SetsUserSnoc(env: Env, nodes: seq<Instruction>, fuel: nat)
    requires nodes != []
    ensures SetsUser(env, nodes, fuel)
       <==> SetsUser(env, nodes[..|nodes| - 1], fuel) || InstructionSetsUser(env, nodes[|nodes| - 1], fuel)
  {
    var init := nodes[..|nodes| - 1];
    if SetsUser(env, nodes, fuel) {
      var i :| 0 <= i < |nodes| && InstructionSetsUser(env, nodes[i], fuel);
      if i < |init| {
        assert init[i] == nodes[i];
      }
    }
    if SetsUser(env, init, fuel) {
      var i :| 0 <= i < |init| && InstructionSetsUser(env, init[i], fuel);
      assert nodes[i] == init[i];
    }
  }

  lemma ArgsSetUserSnoc(env: Env, h: Handler, args: seq<string>, fuel: nat)
    requires args != []
    ensures ArgsSetUser(env, h, args, fuel)
       <==> ArgsSetUser(env, h, args[..|args| - 1], fuel)
            || (args[|args| - 1] != "" && ArgSetsUser(env, h, args[|args| - 1], fuel))
  {
    var init := args[..|args| - 1];
    if ArgsSetUser(env, h, args, fuel) {
      var k :| 0 <= k < |args| && args[k] != "" && ArgSetsUser(env, h, args[k], fuel);
      if k < |init| {
        assert init[k] == args[k];
      }
    }
    if ArgsSetUser(env, h, init, fuel) {
      var k :| 0 <= k < |init| && init[k] != "" && ArgSetsUser(env, h, init[k], fuel);
      assert args[k] == init[k];
    }
  }

  /** Writing a key other than the USER rule's keeps the USER rule's invariant. */
  lemma OtherKeyKeepsUserConsistent(st: State, k: Key, v: Value)
    requires k != UserResult && k != UserProcessed
    ensures (UserProcessed in st[k := v] <==> UserProcessed in st)
    ensures UserRule.Consistent(st) ==> UserRule.Consistent(st[k := v])
  {
    assert Stored(st[k := v], UserResult) == Stored(st, UserResult);
  }

  /** The USER rule has been applied after a walk exactly when it had been before or the
      walked lineage sets a user; the walk keeps the USER rule's invariant. */
  lemma {:induction false} WalkSetsUser(env: Env, st: State, nodes: seq<Instruction>, source: Source, fuel: nat)
    ensures UserProcessed in Walk(env, st, nodes, source, fuel).state
        <==> UserProcessed in st || SetsUser(env, nodes, fuel)
    ensures UserRule.Consistent(st) ==> UserRule.Consistent(Walk(env, st, nodes, source, fuel).state)
    decreases fuel, 3, |nodes|
  {
    if nodes != [] {
      var init := nodes[..|nodes| - 1];
      WalkSetsUser(env, st, init, source, fuel);
      var mid := Walk(env, st, init, source, fuel).state;
      VisitSetsUser(env, mid, nodes[|nodes| - 1], source, fuel);
      SetsUserSnoc(env, nodes, fuel);
    }
  }

  lemma {:induction false} VisitSetsUser(env: Env, st: State, inst: Instruction, source: Source, fuel: nat)
    ensures UserProcessed in Visit(env, st, inst, source, fuel).state
        <==> UserProcessed in st || InstructionSetsUser(env, inst, fuel)
    ensures UserRule.Consistent(st) ==> UserRule.Consistent(Visit(env, st, inst, source, fuel).state)
    decreases fuel, 2, 0
  {
    if HandlerFor(inst.value).Some? {
      VisitArgsSetsUser(env, st, HandlerFor(inst.value).value, inst, |inst.args|, source, fuel);
      assert inst.args[..|inst.args|] == inst.args;
    }
  }

  lemma {:induction false} VisitArgsSetsUser(env: Env, st: State, h: Handler, inst: Instruction, k: nat, source: Source, fuel: nat)
    requires k <= |inst.args|
    ensures UserProcessed in VisitArgs(env, st, h, inst, k, source, fuel).state
        <==> UserProcessed in st || ArgsSetUser(env, h, inst.args[..k], fuel)
    ensures UserRule.Consistent(st) ==> UserRule.Consistent(VisitArgs(env, st, h, inst, k, source, fuel).state)
    decreases fuel, 1, k
  {
    if k > 0 {
      VisitArgsSetsUser(env, st, h, inst, k - 1, source, fuel);
      var before := VisitArgs(env, st, h, inst, k - 1, source, fuel).state;
      var after := VisitArgs(env, st, h, inst, k, source, fuel).state;
      var value := inst.args[k - 1];
      var earlier := ArgsSetUser(env, h, inst.args[..k - 1], fuel);
      var current := value != "" && ArgSetsUser(env, h, value, fuel);
      ArgsSetUserSnoc(env, h, inst.args[..k], fuel);
      assert inst.args[..k][..k - 1] == inst.args[..k - 1];
      assert inst.args[..k][k - 1] == value;
      assert ArgsSetUser(env, h, inst.args[..k], fuel) == (earlier || current);
      if value != "" {
        assert after == Dispatch(env, before, h, value, source, LineOf(inst), fuel);
        DispatchSetsUser(env, before, h, value, source, LineOf(inst), fuel);
      } else {
        assert after == before;
      }
      assert (UserProcessed in after) == (UserProcessed in before || current);
      assert (UserProcessed in before) == (UserProcessed in st || earlier);
      assert (UserProcessed in after) == (UserProcessed in st || ArgsSetUser(env, h, inst.args[..k], fuel));
      assert UserRule.Consistent(before) ==> UserRule.Consistent(after);
    } else {
      assert VisitArgs(env, st, h, inst, 0, source, fuel).state == st;
      assert !ArgsSetUser(env, h, inst.args[..0], fuel);
    }
  }

  lemma {:induction false} DispatchSetsUser(env: Env, st: State, h: Handler, value: string, source: Source, line: Line, fuel: nat)
    ensures UserProcessed in Dispatch(env, st, h, value, source, line, fuel)
        <==> UserProcessed in st || ArgSetsUser(env, h, value, fuel)
    ensures UserRule.Consistent(st) ==> UserRule.Consistent(Dispatch(env, st, h, value, source, line, fuel))
    decreases fuel, 1, 0
  {
    match h
    case ExposeHandler =>
      OtherKeyKeepsUserConsistent(st, ExposeResult, Findings(ExposeRule.PortFindings(value, source, line)));
    case FromHandler =>
      FromSetsUser(env, st, value, fuel);
    case RunHandler =>
      OtherKeyKeepsUserConsistent(st, RunResult, Findings(env.runCheck(value)));
    case UserHandler =>
      UserRule.AnalyzeKeepsConsistent(st, value, source, line);
  }

  lemma {:induction false} FromSetsUser(env: Env, st: State, image: string, fuel: nat)
    ensures UserProcessed in FromAnalyze(env, st, image, fuel)
        <==> UserProcessed in st || ParentSetsUser(env, image, fuel)
    ensures UserRule.Consistent(st) ==> UserRule.Consistent(FromAnalyze(env, st, image, fuel))
    decreases fuel, 0, 0
  {
    if image != ScratchImageName {
      match env.decompile(image)
      case DecompileFailed(_) =>
        OtherKeyKeepsUserConsistent(st, FromResult, Findings([FromFailureFinding(image)]));
      case Decompiled(parent) =>
        if fuel > 0 {
          WalkSetsUser(env, st, parent, Source(image, Parent), fuel - 1);
        }
    }
  }

  /** The findings of an analysis: the empty-value findings, then each rule's in the
      fixed rule order. */
  lemma AnalysisComposition(env: Env, st: State, nodes: seq<Instruction>, source: Source, fuel: nat)
    ensures var a := AnalyzeNodes(env, st, nodes, source, fuel);
      a.findings == EmptyValueFindings(nodes, source) + ExposeRule.PostProcess(a.state)
        + FromPostProcess(a.state) + RunPostProcess(a.state) + UserRule.PostProcess(a.state)
  {
    DirectFindingsAreEmptyValues(env, st, nodes, source, fuel);
    WalkedInOrder(Walk(env, st, nodes, source, fuel));
  }

  lemma WalkedInOrder(w: Walked)
    ensures w.direct + CollectAll(HandlerOrder, w.state)
         == w.direct + ExposeRule.PostProcess(w.state) + FromPostProcess(w.state)
            + RunPostProcess(w.state) + UserRule.PostProcess(w.state)
  {
    CollectAllInOrder(w.state);
  }

  /** An analysis reports the implicit root exactly when no instruction of the lineage sets
      a user, and the USER rule reports at most one finding. */
  lemma ImplicitRootIffNoUserInLineage(env: Env, nodes: seq<Instruction>, source: Source, fuel: nat)
    ensures var a := AnalyzeNodes(env, map[], nodes, source, fuel);
      |UserRule.PostProcess(a.state)| <= 1
      && (UserRule.PostProcess(a.state) == [UserRule.ImplicitRootFinding] <==> !SetsUser(env, nodes, fuel))
  {
    WalkSetsUser(env, map[], nodes, source, fuel);
    UserRule.EmptyStateIsConsistent();
    UserRule.AtMostOneFinding(Walk(env, map[], nodes, source, fuel).state);
  }
}
