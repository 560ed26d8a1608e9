/** The docker provider: the image history the daemon reports, ordered by creation time,
    turned into instructions; EXPOSE values the daemon renders as `map[80/tcp:{}]` are
    then reduced to the port itself. */
module DockerDecompiler {
  import opened Text
  import opened Constants
  import opened Nodes
  import opened History
  import opened DecompilerUtils
  import opened Providers

  /** What the daemon client gives: no client or no history for the image, or the
      history. */
  datatype DockerBackend = DockerUnavailable | DockerHistory(items: seq<DockerEntry>)

  /** An entry made a layer when its size is not zero. */
  function DockerEntryLines(e: DockerEntry): seq<string> {
    EntryLines(e.comment, e.size != 0, e.createdBy)
  }

  function DockerCommand(e: DockerEntry): string { e.createdBy }

  // ---------------------------------------------------------------------------
  // The port pattern `(?:map\[)?(\d+/(?:tcp|udp)):{}\]?`

  /** The captured port when the digits start at `p`: the whole run of digits, a slash,
      the protocol, then `:{}`. */
  function PortAt(s: string, p: nat): (r: Option<string>)
    requires p <= |s|
    ensures r.Some? ==> |r.value| >= 5 && ':' !in r.value
  {
    var k := DigitPrefixLength(s[p..]);
    var q := p + k;
    if k == 0 || q + 7 > |s| || s[q] != '/' then None
    else if (s[q + 1..q + 4] == "tcp" || s[q + 1..q + 4] == "udp") && s[q + 4..q + 7] == ":{}" then
      PortHasNoColon(s, p, k);
      Some(s[p..q + 4])
    else None
  }

  lemma PortHasNoColon(s: string, p: nat, k: nat)
    requires p + k + 4 <= |s| && k <= |s[p..]| && AllDigits(s[p..][..k])
    requires s[p + k] == '/' && (s[p + k + 1..p + k + 4] == "tcp" || s[p + k + 1..p + k + 4] == "udp")
    ensures ':' !in s[p..p + k + 4]
  {
    var c := s[p..p + k + 4];
    forall i | 0 <= i < |c|
      ensures c[i] != ':'
    {
      if i < k {
        assert c[i] == s[p..][..k][i];
      } else if i > k {
        assert c[i] == s[p + k + 1..p + k + 4][i - k - 1];
      }
    }
  }

  /** The match starting at `p`: the optional `map[` is taken when the rest then matches,
      as the greedy `?` prefers. */
  function PortMatchAt(s: string, p: nat): Option<string> {
    if p > |s| then None
    else if HasPrefix(s[p..], "map[") && PortAt(s, p + 4).Some? then PortAt(s, p + 4)
    else PortAt(s, p)
  }

  /** FindStringSubmatch: the capture of the leftmost match. */
  function PortCapture(s: string): (r: Option<string>)
    ensures r.Some? ==> ':' !in r.value
  {
    FirstMatch((p: nat) => PortMatchAt(s, p), 0, |s| + 1)
  }

  /** A value after EXPOSE: replaced by the capture when the pattern matches. */
  function RewritePort(value: string): string {
    match PortCapture(value)
    case None => value
    case Some(port) => port
  }

  /** parseTree's test for an EXPOSE node. */
  predicate IsExposeNode(node: Instruction) {
    node.value + " " == ExposeInstruction
  }

  function RewriteNode(node: Instruction): Instruction {
    if IsExposeNode(node) then node.(args := seq(|node.args|, j requires 0 <= j < |node.args| => RewritePort(node.args[j])))
    else node
  }

  /** What parseTree makes of the root's children. */
  function RewriteTree(children: seq<Instruction>): (r: seq<Instruction>)
    ensures |r| == |children|
    ensures forall i :: 0 <= i < |children| ==> r[i] == RewriteNode(children[i])
  {
    seq(|children|, i requires 0 <= i < |children| => RewriteNode(children[i]))
  }

  /** The outcome of a history taken in the order `ordered`. */
  function DockerOutcome(ordered: seq<DockerEntry>, parse: Parser): ProviderOutcome
    requires AllReady(ordered, DockerCommand)
  {
    DockerReady(ordered);
    match LinesNodes(ConcatMap(DockerEntryLines, ordered), parse)
    case ParseFailed(message) => Failed(message)
    case Parsed(children) => Found(RewriteTree(children))
  }

  lemma DockerReady(ordered: seq<DockerEntry>)
    requires AllReady(ordered, DockerCommand)
    ensures LabelsMatch(ConcatMap(DockerEntryLines, ordered))
  {
    forall i | 0 <= i < |ordered|
      ensures LabelsMatch(DockerEntryLines(ordered[i]))
    {
      EntryLinesReady(ordered[i].comment, ordered[i].size != 0, ordered[i].createdBy);
    }
    HistoryLabelsMatch(DockerEntryLines, ordered);
  }

  // ---------------------------------------------------------------------------
  // The provider

  /** parseTree: rewrites, in place, the values of every EXPOSE child. */
  method ParseTree(root: Root)
    modifies root
    ensures root.children == RewriteTree(old(root.children))
  {
    ghost var original := root.children;
    for i := 0 to |root.children|
      invariant |root.children| == |original|
      invariant forall j :: 0 <= j < i ==> root.children[j] == RewriteNode(original[j])
      invariant forall j :: i <= j < |original| ==> root.children[j] == original[j]
    {
      var child := root.children[i];
      if child.value + " " == ExposeInstruction {
        var values := child.args;
        for k := 0 to |values|
          invariant |values| == |child.args|
          invariant forall j :: 0 <= j < k ==> values[j] == RewritePort(child.args[j])
          invariant forall j :: k <= j < |values| ==> values[j] == child.args[j]
        {
          var ports := PortCapture(values[k]);
          if ports.Some? {
            values := values[k := ports.value];
          }
        }
        assert values == RewriteNode(child).args;
        root.children := root.children[i := child.(args := values)];
      }
    }
  }

  /** The history loop over the ordered entries `a`. */
  method AppendHistory(a: array<DockerEntry>, root: Root, parse: Parser) returns (err: Option<string>)
    requires AllReady(a[..], DockerCommand)
    modifies root
    ensures LabelsMatch(ConcatMap(DockerEntryLines, a[..]))
    ensures Appended(err, old(root.children), root.children, LinesNodes(ConcatMap(DockerEntryLines, a[..]), parse))
  {
    ghost var ordered := a[..];
    ghost var before := root.children;
    ghost var built: seq<Instruction> := [];
    DockerReady(ordered);
    assert ordered[..0] == [];
    for i := 0 to a.Length
      invariant LabelsMatch(ConcatMap(DockerEntryLines, ordered[..i]))
      invariant LinesNodes(ConcatMap(DockerEntryLines, ordered[..i]), parse) == Parsed(built)
      invariant root.children == before + built
    {
      var hist := a[i];
      assert hist == ordered[i];
      EntryLinesReady(hist.comment, hist.size != 0, hist.createdBy);
      HistoryStep(DockerEntryLines, ordered, i, parse);
      assert DockerEntryLines(hist) == EntryLines(hist.comment, hist.size != 0, hist.createdBy);
      ghost var middle := root.children;
      var e := AppendEntry(hist.comment, hist.size != 0, hist.createdBy, root, parse);
      if e.Some? {
        HistoryFailed(DockerEntryLines, ordered, i + 1, parse);
        return e;
      }
      ghost var nodes := LinesNodes(DockerEntryLines(hist), parse).children;
      assert root.children == middle + nodes;
      AppendAssociative(before, built, nodes);
      built := built + nodes;
    }
    assert ordered[..a.Length] == ordered;
    err := None;
  }

  /** DockerProvider.Decompile.  `ordered` is the history as the sort left it. */
  method Decompile(backend: DockerBackend, parse: Parser) returns (r: ProviderOutcome, ghost ordered: seq<DockerEntry>)
    requires backend.DockerHistory? ==> AllReady(backend.items, DockerCommand)
    ensures backend.DockerUnavailable? ==> r == NoImage
    ensures backend.DockerHistory? ==>
      SortedBy(ordered, DockerCreated) && multiset(ordered) == multiset(backend.items)
      && AllReady(ordered, DockerCommand) && r == DockerOutcome(ordered, parse)
  {
    if backend.DockerUnavailable? {
      return NoImage, [];
    }
    var root := new Root();
    var history := OrderedCopy(backend.items, DockerCreated);
    ordered := history[..];
    AllReadyPermutation(ordered, backend.items, DockerCommand);
    var err := AppendHistory(history, root, parse);
    ghost var result := LinesNodes(ConcatMap(DockerEntryLines, ordered), parse);
    if err.Some? {
      assert result == ParseFailed(err.value);
      return Failed(err.value), ordered;
    }
    assert result == Parsed(root.children) by {
      assert [] + result.children == result.children;
    }
    ParseTree(root);
    r := Found(root.children);
  }

  // ---------------------------------------------------------------------------
  // Properties

  /** Nothing but the values of EXPOSE children changes. */
  lemma RewriteKeepsShape(children: seq<Instruction>, i: nat)
    requires i < |children|
    ensures RewriteTree(children)[i].value == children[i].value
    ensures RewriteTree(children)[i].startLine == children[i].startLine
    ensures RewriteTree(children)[i].endLine == children[i].endLine
    ensures |RewriteTree(children)[i].args| == |children[i].args|
    ensures !IsExposeNode(children[i]) ==> RewriteTree(children)[i] == children[i]
  {
  }

  /** A value without a colon is never rewritten. */
  lemma NoColonUnchanged(value: string)
    requires ':' !in value
    ensures PortCapture(value) == None && RewritePort(value) == value
  {
    forall p: nat | p < |value| + 1
      ensures PortMatchAt(value, p).None?
    {
      assert PortAt(value, p).None? by { NoColonNoPortAt(value, p); }
      if p + 4 <= |value| {
        NoColonNoPortAt(value, p + 4);
      }
    }
  }

  lemma NoColonNoPortAt(s: string, p: nat)
    requires ':' !in s && p <= |s|
    ensures PortAt(s, p).None?
  {
    var k := DigitPrefixLength(s[p..]);
    var q := p + k;
    if k != 0 && q + 7 <= |s| && s[q] == '/' {
      assert s[q + 4] in s;
      assert s[q + 4..q + 7][0] == s[q + 4] != ':';
    }
  }

  /** The rewriting is idempotent: a rewritten value has no colon left to match. */
  lemma RewriteTreeIdempotent(children: seq<Instruction>)
    ensures RewriteTree(RewriteTree(children)) == RewriteTree(children)
  {
    forall i | 0 <= i < |children|
      ensures RewriteNode(RewriteNode(children[i])) == RewriteNode(children[i])
    {
      var node := RewriteNode(children[i]);
      if IsExposeNode(children[i]) {
        forall j | 0 <= j < |node.args|
          ensures RewritePort(node.args[j]) == node.args[j]
        {
          var v := children[i].args[j];
          match PortCapture(v)
          case None =>
          case Some(port) => NoColonUnchanged(port);
        }
      }
    }
  }

  /** The plain form `80/tcp:{}` at the start of a value is reduced to `80/tcp`. */
  lemma PlainFormRewritten(digits: string, protocol: string, rest: string)
    requires digits != [] && AllDigits(digits)
    requires protocol == "tcp" || protocol == "udp"
    ensures RewritePort(digits + "/" + protocol + ":{}" + rest) == digits + "/" + protocol
  {
    var s := digits + "/" + protocol + ":{}" + rest;
    PortAtDigits(s, 0, digits, protocol, ":{}" + rest);
    assert !HasPrefix(s[0..], "map[") by {
      assert s[0] == digits[0];
    }
  }

  /** The daemon's form `map[80/tcp:{}]` is reduced to `80/tcp`. */
  lemma MapFormRewritten(digits: string, protocol: string, rest: string)
    requires digits != [] && AllDigits(digits)
    requires protocol == "tcp" || protocol == "udp"
    ensures RewritePort("map[" + digits + "/" + protocol + ":{}" + rest) == digits + "/" + protocol
  {
    var s := "map[" + digits + "/" + protocol + ":{}" + rest;
    assert s[4..] == digits + "/" + protocol + ":{}" + rest;
    PortAtDigits(s, 4, digits, protocol, ":{}" + rest);
    assert HasPrefix(s[0..], "map[") by {
      assert s[0..][..4] == "map[";
    }
  }

  /** The digits, slash and protocol at `p` are captured. */
  lemma PortAtDigits(s: string, p: nat, digits: string, protocol: string, tail: string)
    requires digits != [] && AllDigits(digits)
    requires protocol == "tcp" || protocol == "udp"
    requires HasPrefix(tail, ":{}")
    requires p <= |s| && s[p..] == digits + "/" + protocol + tail
    ensures PortAt(s, p) == Some(digits + "/" + protocol)
  {
    var t := s[p..];
    assert t == digits + ("/" + protocol + tail);
    DigitPrefixLengthOfConcat(digits, "/" + protocol + tail);
    var k := |digits|;
    assert s[p + k] == t[k] == '/';
    assert s[p + k + 1..p + k + 4] == t[k + 1..k + 4] == protocol;
    assert s[p + k + 4..p + k + 7] == t[k + 4..k + 7] == tail[..3];
    assert s[p..p + k + 4] == t[..k + 4] == digits + "/" + protocol;
    PortAtMatch(s, p, k);
  }

  lemma PortAtMatch(s: string, p: nat, k: nat)
    requires p + k + 7 <= |s| && k > 0 && DigitPrefixLength(s[p..]) == k && s[p + k] == '/'
    requires s[p + k + 1..p + k + 4] == "tcp" || s[p + k + 1..p + k + 4] == "udp"
    requires s[p + k + 4..p + k + 7] == ":{}"
    ensures PortAt(s, p) == Some(s[p..p + k + 4])
  {
  }

  /** An image without history is still found, with no instructions. */
  lemma EmptyHistoryFoundEmpty(parse: Parser)
    ensures DockerOutcome([], parse) == Found([])
  {
    assert ConcatMap(DockerEntryLines, []) == [];
  }

  /** When no two history entries share a creation time, every ordering the sort may
      produce gives the same outcome. */
  lemma DockerOutcomeDetermined(o1: seq<DockerEntry>, o2: seq<DockerEntry>, items: seq<DockerEntry>, parse: Parser)
    requires IsOrdering(o1, items, DockerCreated) && IsOrdering(o2, items, DockerCreated)
    requires forall i, j :: 0 <= i < j < |o1| ==> o1[i].created != o1[j].created
    requires AllReady(items, DockerCommand)
    ensures AllReady(o1, DockerCommand) && AllReady(o2, DockerCommand)
    ensures DockerOutcome(o1, parse) == DockerOutcome(o2, parse)
  {
    AllReadyPermutation(o1, items, DockerCommand);
    AllReadyPermutation(o2, items, DockerCommand);
    SortedPermutationsEqual(o1, o2, DockerCreated);
  }
}
