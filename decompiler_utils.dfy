/** What the decompiler providers share: turning one history command into a Containerfile
    line (ExtractCmd), recognising instruction lines, and turning a line into instruction
    nodes appended to the root node (Line2Node, with LABEL lines split by a pattern
    instead of being parsed). */
module DecompilerUtils {
  import opened Text
  import opened Constants
  import opened Nodes

  /** CONTAINERFILE_INSTRUCTIONS: the prefixes of a history command kept as it is.  FROM is
      not among them. */
  const ContainerfileInstructions: seq<string> := [
    RunInstruction, CmdInstruction, LabelInstruction, MaintainerInstruction,
    ExposeInstruction, EnvInstruction, AddInstruction, CopyInstruction,
    EntrypointInstruction, VolumeInstruction, UserInstruction, WorkdirInstruction,
    ArgInstruction, OnbuildInstruction, StopsignalInstruction, HealthcheckInstruction,
    ShellInstruction
  ]

  /** isContainerFileInstruction: the upper-cased text starts with a listed prefix. */
  function IsContainerfileInstruction(str: string): (r: bool)
    ensures r <==> exists k :: 0 <= k < |ContainerfileInstructions| && HasPrefix(ToUpper(str), ContainerfileInstructions[k])
  {
    HasListedPrefix(ToUpper(str), 0)
  }

  /** The search over the list from position `i`, stopping at the first prefix found. */
  function HasListedPrefix(upper: string, i: nat): (r: bool)
    requires i <= |ContainerfileInstructions|
    ensures r <==> exists k :: i <= k < |ContainerfileInstructions| && HasPrefix(upper, ContainerfileInstructions[k])
    decreases |ContainerfileInstructions| - i
  {
    if i == |ContainerfileInstructions| then false
    else if HasPrefix(upper, ContainerfileInstructions[i]) then true
    else HasListedPrefix(upper, i + 1)
  }

  /** ExtractCmd: the text after a `#(nop) ` marker that is not at the very start, trimmed;
      otherwise RUN followed by the text after the first `/bin/sh -c `; otherwise the
      command itself when it is an instruction line; otherwise nothing. */
  function ExtractCmd(str: string): (r: string)
    ensures r != "" && Index(str, Nop) <= 0 ==> HasPrefix(r, RunInstruction) || IsContainerfileInstruction(r)
  {
    var index := Index(str, Nop);
    if index > 0 then TrimSpace(str[index + |Nop|..])
    else
      var shell := Index(str, RunPrefix);
      if shell >= 0 then
        var r := RunInstruction + str[shell + |RunPrefix|..];
        assert r[..|RunInstruction|] == RunInstruction;
        r
      else if IsContainerfileInstruction(str) then str
      else ""
  }

  /** The first letters of the listed prefixes. */
  lemma ListedInitials()
    ensures forall k :: 0 <= k < |ContainerfileInstructions| ==>
      ContainerfileInstructions[k][0] in {'R', 'C', 'L', 'M', 'E', 'A', 'V', 'U', 'W', 'O', 'S', 'H'}
    ensures forall k :: 0 <= k < |ContainerfileInstructions| && ContainerfileInstructions[k][0] == 'M' ==>
      ContainerfileInstructions[k] == MaintainerInstruction
  {
  }

  /** No listed prefix starts like `u`: its first letter is not the first letter of any
      of them, or it is an M whose fifth letter differs from the maintainer prefix's. */
  lemma UnlistedStart(u: string)
    requires u != []
    requires u[0] !in {'R', 'C', 'L', 'E', 'A', 'V', 'U', 'W', 'O', 'S', 'H'}
    requires u[0] == 'M' ==> |u| > 4 && u[4] != MaintainerInstruction[4]
    ensures forall k :: 0 <= k < |ContainerfileInstructions| ==> !HasPrefix(u, ContainerfileInstructions[k])
  {
    ListedInitials();
  }

  /** A FROM line is never kept as an instruction line. */
  lemma FromNotListed(str: string)
    requires HasPrefix(ToUpper(str), FromInstruction)
    ensures !IsContainerfileInstruction(str)
  {
    var u := ToUpper(str);
    assert u[0] == 'F' by {
      assert u[..5] == FromInstruction;
    }
    UnlistedStart(u);
  }

  /** The maintainer prefix is misspelt, so a real MAINTAINER line is not kept either. */
  lemma MaintainerNotListed(str: string)
    requires HasPrefix(ToUpper(str), "MAINTAINER ")
    ensures !IsContainerfileInstruction(str)
  {
    var u := ToUpper(str);
    assert u[0] == 'M' && u[4] == 'T' by {
      assert u[..11] == "MAINTAINER ";
    }
    UnlistedStart(u);
  }

  /** A `#(nop) ` marker after the start gives the trimmed text after it. */
  lemma NopMarkerTaken(pre: string, rest: string)
    requires pre != [] && '#' !in pre
    ensures ExtractCmd(pre + Nop + rest) == TrimSpace(rest)
  {
    var s := pre + Nop + rest;
    assert OccursAt(s, Nop, |pre|) by {
      assert s[|pre|..|pre| + |Nop|] == Nop;
    }
    forall j | 0 <= j < |pre|
      ensures !OccursAt(s, Nop, j)
    {
      assert s[j] == pre[j];
    }
    assert s[|pre| + |Nop|..] == rest;
  }

  /** A marker at the very start is not taken; with no shell prefix either, the command is
      dropped, since it starts with `#`. */
  lemma NopMarkerAtStartDropped(rest: string)
    requires !Contains(Nop + rest, RunPrefix)
    ensures ExtractCmd(Nop + rest) == ""
  {
    var s := Nop + rest;
    assert OccursAt(s, Nop, 0) by {
      assert s[..|Nop|] == Nop;
    }
    var u := ToUpper(s);
    assert u[0] == '#';
    UnlistedStart(u);
  }

  /** Without a marker, the first `/bin/sh -c ` is rewritten to RUN. */
  lemma ShellPrefixRewritten(pre: string, rest: string)
    requires !Contains(pre + RunPrefix + rest, Nop)
    requires '/' !in pre
    ensures ExtractCmd(pre + RunPrefix + rest) == RunInstruction + rest
  {
    var s := pre + RunPrefix + rest;
    assert OccursAt(s, RunPrefix, |pre|) by {
      assert s[|pre|..|pre| + |RunPrefix|] == RunPrefix;
    }
    forall j | 0 <= j < |pre|
      ensures !OccursAt(s, RunPrefix, j)
    {
      assert s[j] == pre[j];
    }
    assert s[|pre| + |RunPrefix|..] == rest;
  }

  /** Without a marker or a shell prefix, the command is kept exactly when it is an
      instruction line. */
  lemma PlainCommandKeptIffInstruction(str: string)
    requires !Contains(str, Nop) && !Contains(str, RunPrefix)
    ensures ExtractCmd(str) == (if IsContainerfileInstruction(str) then str else "")
  {
  }

  // ---------------------------------------------------------------------------
  // LABEL lines: the pattern `^LABEL\s+(.*)=(.*)$`

  /** The two groups of the pattern.  White space after LABEL is taken greedily; `.` does
      not match a newline, so the rest must have none; the first group is greedy, so the
      split is at the last `=`. */
  function LabelGroups(line: string): (r: Option<(string, string)>)
    ensures r.Some? ==> '=' !in r.value.1 && '\n' !in r.value.0 && '\n' !in r.value.1
  {
    if !HasPrefix(line, "LABEL") then None
    else
      var afterKeyword := line[5..];
      var rest := afterKeyword[SpaceRun(afterKeyword)..];
      if SpaceRun(afterKeyword) == 0 || '\n' in rest then None
      else
        var e := LastIndexOf(rest, '=');
        if e < 0 then None
        else
          var value := rest[e + 1..];
          assert forall j :: 0 <= j < |value| ==> value[j] == rest[e + 1 + j];
          Some((rest[..e], value))
  }

  /** The node parseLabel builds: LABEL followed by the key and the value. */
  function LabelNode(groups: (string, string)): Instruction {
    Instruction("LABEL", [groups.0, groups.1], 0, 0)
  }

  /** The line set on each node that AddChild appends. */
  function Relined(nodes: seq<Instruction>, startLine: int, endLine: int): (r: seq<Instruction>)
    ensures |r| == |nodes|
    ensures forall i :: 0 <= i < |nodes| ==>
      r[i] == Instruction(nodes[i].value, nodes[i].args, startLine, endLine)
  {
    seq(|nodes|, i requires 0 <= i < |nodes| => nodes[i].(startLine := startLine, endLine := endLine))
  }

  /** A line that goes to parseLabel matches the pattern: parseLabel slices the match
      without checking it. */
  predicate LabelReady(line: string) {
    HasPrefix(line, LabelInstruction) ==> LabelGroups(line).Some?
  }

  predicate LabelsMatch(lines: seq<string>) {
    forall i :: 0 <= i < |lines| ==> LabelReady(lines[i])
  }

  /** What Line2Node appends for one line, or the parser's error. */
  function LineNodes(line: string, parse: Parser): ParseResult
    requires LabelReady(line)
  {
    if HasPrefix(line, LabelInstruction) then Parsed([LabelNode(LabelGroups(line).value)])
    else match parse(line)
      case ParseFailed(message) => ParseFailed(message)
      case Parsed(children) => Parsed(Relined(children, -1, -1))
  }

  /** What a sequence of Line2Node calls appends, or the first error. */
  function LinesNodes(lines: seq<string>, parse: Parser): ParseResult
    requires LabelsMatch(lines)
  {
    if lines == [] then Parsed([])
    else
      assert LabelsMatch(lines[..|lines| - 1]) by {
        forall i | 0 <= i < |lines| - 1 ensures lines[..|lines| - 1][i] == lines[i] { }
      }
      Then(LinesNodes(lines[..|lines| - 1], parse), LineNodes(lines[|lines| - 1], parse))
  }

  /** Two conversions one after the other: the nodes of both, or the first error. */
  function Then(first: ParseResult, second: ParseResult): (r: ParseResult)
    ensures r.Parsed? <==> first.Parsed? && second.Parsed?
    ensures first.ParseFailed? ==> r == first
  {
    match first
    case ParseFailed(_) => first
    case Parsed(x) =>
      match second
      case ParseFailed(_) => second
      case Parsed(y) => Parsed(x + y)
  }

  /** What a conversion did to the root: on success its nodes were appended and no error
      is reported; on failure the error is reported. */
  predicate Appended(err: Option<string>, before: seq<Instruction>, after: seq<Instruction>, r: ParseResult) {
    match r
    case ParseFailed(message) => err == Some(message)
    case Parsed(nodes) => err == None && after == before + nodes
  }

  /** A conversion followed, when it succeeded, by a second one did what `Then` of the
      two says. */
  lemma AppendedThen(e1: Option<string>, e2: Option<string>, before: seq<Instruction>,
                     middle: seq<Instruction>, after: seq<Instruction>, r1: ParseResult, r2: ParseResult)
    requires Appended(e1, before, middle, r1)
    requires e1.None? ==> Appended(e2, middle, after, r2)
    ensures e1.Some? ==> Appended(e1, before, middle, Then(r1, r2))
    ensures e1.None? ==> Appended(e2, before, after, Then(r1, r2))
  {
  }

  lemma ThenAssociative(a: ParseResult, b: ParseResult, c: ParseResult)
    ensures Then(Then(a, b), c) == Then(a, Then(b, c))
  {
    if a.Parsed? && b.Parsed? && c.Parsed? {
      assert a.children + b.children + c.children == a.children + (b.children + c.children);
    }
  }

  /** The root node the instructions are appended to. */
  class Root {
    var children: seq<Instruction>

    constructor ()
      ensures children == []
    {
      children := [];
    }

    /** parser.Node.AddChild: appends the child with its line range set to the given one. */
    method AddChild(child: Instruction, startLine: int, endLine: int)
      modifies this
      ensures children == old(children) + [Instruction(child.value, child.args, startLine, endLine)]
    {
      children := children + [child.(startLine := startLine, endLine := endLine)];
    }
  }

  /** parseLabel: the LABEL node with its key and value chained after it. */
  method ParseLabel(line: string, root: Root)
    requires LabelGroups(line).Some?
    modifies root
    ensures root.children == old(root.children) + [LabelNode(LabelGroups(line).value)]
  {
    var groups := LabelGroups(line).value;
    var elements := [groups.0, groups.1];
    var chain: seq<string> := [];
    for i := 0 to |elements|
      invariant chain == elements[..i]
    {
      chain := chain + [elements[i]];
    }
    assert chain == elements;
    root.AddChild(Instruction("LABEL", chain, 0, 0), 0, 0);
  }

  /** Line2Node: appends the nodes of `line` to `root`, or returns the parser's error and
      leaves `root` as it was. */
  method Line2Node(line: string, root: Root, parse: Parser) returns (err: Option<string>)
    requires LabelReady(line)
    modifies root
    ensures Appended(err, old(root.children), root.children, LineNodes(line, parse))
    ensures LineNodes(line, parse).ParseFailed? ==> root.children == old(root.children)
  {
    if HasPrefix(line, LabelInstruction) {
      ParseLabel(line, root);
      return None;
    }
    match parse(line)
    case ParseFailed(message) =>
      return Some(message);
    case Parsed(children) =>
      ghost var before := root.children;
      for i := 0 to |children|
        invariant root.children == before + Relined(children[..i], -1, -1)
      {
        root.AddChild(children[i], -1, -1);
        assert Relined(children[..i + 1], -1, -1) == Relined(children[..i], -1, -1) + Relined([children[i]], -1, -1);
      }
      assert children[..|children|] == children;
      return None;
  }

  // ---------------------------------------------------------------------------
  // Properties of the line conversions

  /** `LABEL key=value` with no `=` in the value splits into that key and value, even when
      the key itself holds an `=`. */
  lemma LabelSplitAtLastEquals(key: string, value: string)
    requires '=' !in value && '\n' !in key && '\n' !in value
    requires key == [] || !IsRegexSpace(key[0])
    ensures LabelGroups(LabelInstruction + key + "=" + value) == Some((key, value))
  {
    var rest := key + "=" + value;
    var line := LabelInstruction + rest;
    assert line == LabelInstruction + key + "=" + value;
    assert line[..5] == "LABEL" && line[5..] == " " + rest;
    SingleSpace(rest);
    assert (" " + rest)[1..] == rest;
    SplitAtLastEquals(key, value);
  }

  /** One space before text that does not start with white space is a run of one. */
  lemma SingleSpace(rest: string)
    requires rest == [] || !IsRegexSpace(rest[0])
    ensures SpaceRun(" " + rest) == 1
  {
    assert (" " + rest)[1..] == rest;
  }

  /** The last `=` of `key=value`, with no `=` in the value, is the one after the key, and
      there is no newline when neither part has one. */
  lemma SplitAtLastEquals(key: string, value: string)
    requires '=' !in value && '\n' !in key && '\n' !in value
    ensures LastIndexOf(key + "=" + value, '=') == |key|
    ensures (key + "=" + value)[..|key|] == key && (key + "=" + value)[|key| + 1..] == value
    ensures '\n' !in key + "=" + value
  {
    var rest := key + "=" + value;
    forall j | |key| < j < |rest|
      ensures rest[j] != '='
    {
      assert rest[j] == value[j - |key| - 1];
    }
    LastOccurrence(rest, '=', |key|);
    assert rest[..|key|] == key;
    assert rest[|key| + 1..] == value;
    assert '\n' !in "=";
  }

  /** The last occurrence of `c` is found where it is. */
  lemma LastOccurrence(s: string, c: char, k: nat)
    requires k < |s| && s[k] == c
    requires forall j :: k < j < |s| ==> s[j] != c
    ensures LastIndexOf(s, c) == k
  {
  }

  /** A LABEL line never reaches the parser. */
  lemma LabelLineBypassesParser(line: string, p1: Parser, p2: Parser)
    requires HasPrefix(line, LabelInstruction) && LabelGroups(line).Some?
    ensures LineNodes(line, p1) == LineNodes(line, p2) == Parsed([LabelNode(LabelGroups(line).value)])
  {
  }

  /** The lines are converted one after the other: the nodes of a concatenation of lines
      are those of each part, and the first error wins. */
  lemma {:induction false} LinesNodesAppend(a: seq<string>, b: seq<string>, parse: Parser)
    requires LabelsMatch(a + b)
    ensures LabelsMatch(a) && LabelsMatch(b)
    ensures LinesNodes(a + b, parse) == Then(LinesNodes(a, parse), LinesNodes(b, parse))
    decreases |b|
  {
    LabelsMatchParts(a, b);
    if b == [] {
      assert a + b == a;
    } else {
      var init := b[..|b| - 1];
      var last := b[|b| - 1];
      assert init + [last] == b;
      assert a + b == (a + init) + [last];
      LabelsMatchParts(a + init, [last]);
      LabelsMatchParts(init, [last]);
      assert LabelReady([last][0]);
      LinesNodesAppend(a, init, parse);
      LinesNodesSnoc(a + init, last, parse);
      LinesNodesSnoc(init, last, parse);
      ThenAssociative(LinesNodes(a, parse), LinesNodes(init, parse), LineNodes(last, parse));
    }
  }

  /** One more line: its nodes follow, or the first error wins. */
  lemma LinesNodesSnoc(lines: seq<string>, line: string, parse: Parser)
    requires LabelsMatch(lines) && LabelReady(line)
    ensures LabelsMatch(lines + [line])
    ensures LinesNodes(lines + [line], parse) == Then(LinesNodes(lines, parse), LineNodes(line, parse))
  {
    var all := lines + [line];
    assert all[..|all| - 1] == lines;
    assert all[|all| - 1] == line;
  }

  /** The nodes of a single line. */
  lemma LinesNodesSingle(line: string, parse: Parser)
    requires LabelReady(line)
    ensures LabelsMatch([line])
    ensures LinesNodes([line], parse) == LineNodes(line, parse)
  {
    LinesNodesSnoc([], line, parse);
    assert [] + [line] == [line];
  }

  lemma LabelsMatchParts(a: seq<string>, b: seq<string>)
    requires LabelsMatch(a + b)
    ensures LabelsMatch(a) && LabelsMatch(b)
  {
    forall i | 0 <= i < |a| ensures a[i] == (a + b)[i] { }
    forall i | 0 <= i < |b| ensures b[i] == (a + b)[|a| + i] { }
  }
}
