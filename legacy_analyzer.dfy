/** The older analyzer: a parsed Containerfile is walked instruction by instruction; an
    EXPOSE or RUN instruction (in any case) has each of its values checked, an empty value
    being reported instead of checked.  Each value is handed to the rule as a node, so the
    RUN rule reads that value while the EXPOSE rule reads the values after it. */
module LegacyAnalyzer {
  import opened Text
  import opened Nodes
  import opened LegacyErrors
  import LegacyRun
  import LegacyExpose

  datatype LegacyHandler = ExposeHandler | RunHandler

  /** The handler registered for an instruction keyword, after lower-casing. */
  function HandlerFor(value: string): (r: Option<LegacyHandler>)
    ensures r.Some? <==> ToLower(value) == "expose" || ToLower(value) == "run"
    ensures r == Some(ExposeHandler) <==> ToLower(value) == "expose"
  {
    var command := ToLower(value);
    if command == "expose" then Some(ExposeHandler)
    else if command == "run" then Some(RunHandler)
    else None
  }

  /** What the handler reports for the value node at `k`. */
  function HandlerErrors(h: LegacyHandler, args: seq<string>, k: nat): seq<LegacyError>
    requires k < |args|
  {
    match h
    case ExposeHandler => LegacyExpose.ValuesErrors(args[k + 1..])
    case RunHandler => LegacyRun.RunErrors(Split(args[k], "&&"))
  }

  /** What the value at `k` contributes. */
  function ArgErrors(inst: Instruction, h: LegacyHandler, k: nat): seq<LegacyError>
    requires k < |inst.args|
  {
    if inst.args[k] == "" then [EmptyValue(inst.value)] else HandlerErrors(h, inst.args, k)
  }

  /** What the first `k` values contribute, in order. */
  function ArgsErrors(inst: Instruction, h: LegacyHandler, k: nat): seq<LegacyError>
    requires k <= |inst.args|
  {
    if k == 0 then [] else ArgsErrors(inst, h, k - 1) + ArgErrors(inst, h, k - 1)
  }

  /** What one instruction contributes. */
  function InstructionErrors(inst: Instruction): seq<LegacyError> {
    match HandlerFor(inst.value)
    case None => []
    case Some(h) => ArgsErrors(inst, h, |inst.args|)
  }

  /** The errors of a parsed file, or the parse error. */
  function FileErrors(fileName: string, parsed: ParseResult): seq<LegacyError> {
    match parsed
    case ParseFailed(message) => [ParseError(fileName, message)]
    case Parsed(children) => ConcatMap(InstructionErrors, children)
  }

  /** Analyze: `parsed` is what the parser made of the file called `fileName`. */
  method Analyze(fileName: string, parsed: ParseResult) returns (suggestions: seq<LegacyError>)
    ensures suggestions == FileErrors(fileName, parsed)
    ensures parsed.ParseFailed? ==> suggestions == [ParseError(fileName, parsed.message)]
  {
    if parsed.ParseFailed? {
      return [ParseError(fileName, parsed.message)];
    }
    var children := parsed.children;
    suggestions := [];
    for i := 0 to |children|
      invariant suggestions == ConcatMap(InstructionErrors, children[..i])
    {
      var child := children[i];
      var handler := HandlerFor(child.value);
      ConcatMapSnoc(InstructionErrors, children, i);
      if handler.Some? {
        var found := AnalyzeValues(child, handler.value);
        suggestions := suggestions + found;
      } else {
        assert InstructionErrors(child) == [];
      }
    }
    assert children[..|children|] == children;
  }

  /** The loop over the value nodes of one instruction. */
  method AnalyzeValues(inst: Instruction, h: LegacyHandler) returns (found: seq<LegacyError>)
    ensures found == ArgsErrors(inst, h, |inst.args|)
  {
    found := [];
    var args := inst.args;
    for k := 0 to |args|
      invariant found == ArgsErrors(inst, h, k)
    {
      if args[k] == "" {
        found := found + [EmptyValue(inst.value)];
      } else if h == ExposeHandler {
        var errs := LegacyExpose.Analyze(args[k + 1..]);
        found := found + errs;
      } else {
        var errs := LegacyRun.Analyze(args[k]);
        found := found + errs;
      }
    }
  }

  // ---------------------------------------------------------------------------
  // Properties

  /** Instructions other than EXPOSE and RUN are never reported. */
  lemma OnlyExposeAndRunReported(inst: Instruction)
    requires ToLower(inst.value) != "expose" && ToLower(inst.value) != "run"
    ensures InstructionErrors(inst) == []
  {
  }

  /** An EXPOSE of a single port never checks it: the rule reads the values after the one
      it is given. */
  lemma SingleExposeValueUnchecked(value: string, port: string, startLine: int, endLine: int)
    requires ToLower(value) == "expose" && port != ""
    ensures InstructionErrors(Instruction(value, [port], startLine, endLine)) == []
  {
    var inst := Instruction(value, [port], startLine, endLine);
    assert inst.args[1..] == [];
    assert ArgsErrors(inst, ExposeHandler, 1) == [] + ArgErrors(inst, ExposeHandler, 0);
  }

  /** An EXPOSE of two ports checks only the second. */
  lemma TwoExposeValuesCheckSecond(value: string, p1: string, p2: string, startLine: int, endLine: int)
    requires ToLower(value) == "expose" && p1 != "" && p2 != ""
    ensures InstructionErrors(Instruction(value, [p1, p2], startLine, endLine)) == LegacyExpose.PortErrors(p2)
  {
    var inst := Instruction(value, [p1, p2], startLine, endLine);
    assert inst.args[1..] == [p2] && inst.args[2..] == [];
    LegacyExpose.ValuesErrorsSingle(p2);
    assert ArgsErrors(inst, ExposeHandler, 1) == [] + ArgErrors(inst, ExposeHandler, 0);
  }

  /** A RUN instruction is checked part by part. */
  lemma RunValueChecked(value: string, command: string, startLine: int, endLine: int)
    requires ToLower(value) == "run" && command != ""
    ensures InstructionErrors(Instruction(value, [command], startLine, endLine))
         == LegacyRun.RunErrors(Split(command, "&&"))
  {
    var inst := Instruction(value, [command], startLine, endLine);
    assert ArgsErrors(inst, RunHandler, 1) == [] + ArgErrors(inst, RunHandler, 0);
  }

  /** The number of empty-value errors. */
  function CountEmptyValue(errs: seq<LegacyError>): nat {
    if errs == [] then 0
    else CountEmptyValue(errs[..|errs| - 1]) + (if errs[|errs| - 1].EmptyValue? then 1 else 0)
  }

  lemma {:induction false} CountEmptyValueAppend(a: seq<LegacyError>, b: seq<LegacyError>)
    ensures CountEmptyValue(a + b) == CountEmptyValue(a) + CountEmptyValue(b)
    decreases |b|
  {
    if b == [] {
      assert a + b == a;
    } else {
      CountEmptyValueAppend(a, b[..|b| - 1]);
      assert (a + b)[..|a + b| - 1] == a + b[..|b| - 1];
    }
  }

  lemma {:induction false} NoEmptyValueCountsZero(errs: seq<LegacyError>)
    requires forall e :: e in errs ==> !e.EmptyValue?
    ensures CountEmptyValue(errs) == 0
    decreases |errs|
  {
    if errs != [] {
      assert errs[|errs| - 1] in errs;
      NoEmptyValueCountsZero(errs[..|errs| - 1]);
    }
  }

  /** The rules themselves never report an empty value. */
  lemma HandlerErrorsAreNotEmptyValues(h: LegacyHandler, args: seq<string>, k: nat)
    requires k < |args|
    ensures CountEmptyValue(HandlerErrors(h, args, k)) == 0
  {
    match h
    case ExposeHandler =>
      ExposeErrorKinds(args[k + 1..]);
      NoEmptyValueCountsZero(HandlerErrors(h, args, k));
    case RunHandler =>
      RunErrorKinds(Split(args[k], "&&"));
      NoEmptyValueCountsZero(HandlerErrors(h, args, k));
  }

  /** The EXPOSE rule reports only parse errors and privileged ports. */
  lemma {:induction false} ExposeErrorKinds(values: seq<string>)
    ensures forall e :: e in LegacyExpose.ValuesErrors(values) ==> e.PortSyntax? || e.PrivilegedPort?
    decreases |values|
  {
    if values != [] {
      var n := |values| - 1;
      ExposeErrorKinds(values[..n]);
      ConcatMapSnoc(LegacyExpose.PortErrors, values, n);
      assert values[..n + 1] == values;
    }
  }

  /** The RUN rule reports only chmod and chown errors. */
  lemma {:induction false} RunErrorKinds(segments: seq<string>)
    ensures forall e :: e in LegacyRun.RunErrors(segments) ==> e.ChmodArgs? || e.ChmodPermission? || e.ChownGroup?
    decreases |segments|
  {
    if segments != [] {
      var n := |segments| - 1;
      RunErrorKinds(segments[..n]);
      FilterMapSnoc(LegacyRun.SegmentError, segments, n);
      assert segments[..n + 1] == segments;
      var e := LegacyRun.SegmentError(segments[n]);
      if e.Some? {
        assert e == LegacyRun.ChmodError(segments[n]) || e == LegacyRun.ChownError(segments[n]);
      }
    }
  }

  /** Each empty value of an EXPOSE or RUN instruction is reported exactly once. */
  lemma {:induction false} EmptyValuesReported(inst: Instruction, h: LegacyHandler, k: nat)
    requires k <= |inst.args|
    ensures CountEmptyValue(ArgsErrors(inst, h, k)) == CountEmpty(inst.args[..k])
    decreases k
  {
    if k > 0 {
      EmptyValuesReported(inst, h, k - 1);
      assert inst.args[..k][..k - 1] == inst.args[..k - 1];
      CountEmptyValueAppend(ArgsErrors(inst, h, k - 1), ArgErrors(inst, h, k - 1));
      if inst.args[k - 1] != "" {
        HandlerErrorsAreNotEmptyValues(h, inst.args, k - 1);
      } else {
        assert CountEmptyValue([EmptyValue(inst.value)]) == 1 by {
          assert [EmptyValue(inst.value)][..0] == [];
        }
      }
    }
  }

  /** The instructions are checked independently of each other. */
  lemma FileErrorsAppend(fileName: string, a: seq<Instruction>, b: seq<Instruction>)
    ensures FileErrors(fileName, Parsed(a + b)) == FileErrors(fileName, Parsed(a)) + FileErrors(fileName, Parsed(b))
  {
    ConcatMapAppend(InstructionErrors, a, b);
  }
}
