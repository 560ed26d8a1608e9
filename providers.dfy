/** What the three history providers share: the outcome a provider reports, which lines a
    history entry contributes, and the loop that turns an ordered history into nodes of a
    new root, stopping at the first line the parser rejects. */
module Providers {
  import opened Text
  import opened Constants
  import opened Nodes
  import opened History
  import opened DecompilerUtils

  /** What Provider.Decompile returns: (nil, nil), an error, or the new root's children. */
  datatype ProviderOutcome = NoImage | Failed(message: string) | Found(children: seq<Instruction>)

  /** The outcome when the lines have been handed to Line2Node one after the other. */
  function Outcome(parsed: ParseResult): (r: ProviderOutcome)
    ensures r.NoImage? == false
    ensures r.Failed? <==> parsed.ParseFailed?
  {
    match parsed
    case ParseFailed(message) => Failed(message)
    case Parsed(children) => Found(children)
  }

  /** An entry's comment is used when it is a non-empty FROM line and the entry made a
      layer (a non-zero size for docker, not an empty layer for the others). */
  predicate UsesComment(comment: string, layered: bool) {
    comment != "" && HasPrefix(ToUpper(comment), FromInstruction) && layered
  }

  /** The lines one history entry contributes: its comment if used, then the
      Containerfile line its command yields, if any. */
  function EntryLines(comment: string, layered: bool, createdBy: string): (r: seq<string>)
    ensures |r| <= 2
    ensures "" !in r
  {
    CommentLines(comment, layered) + CommandLines(createdBy)
  }

  function CommentLines(comment: string, layered: bool): (r: seq<string>)
    ensures r == [] || r == [comment]
    ensures "" !in r
  {
    if UsesComment(comment, layered) then [comment] else []
  }

  function CommandLines(createdBy: string): (r: seq<string>)
    ensures r == [] || r == [ExtractCmd(createdBy)]
    ensures "" !in r
  {
    if createdBy != "" && ExtractCmd(createdBy) != "" then [ExtractCmd(createdBy)] else []
  }

  /** The lines of a podman or registry history entry. */
  function LayerEntryLines(e: LayerEntry): seq<string> {
    EntryLines(e.comment, !e.emptyLayer, e.createdBy)
  }

  function LayerCommand(e: LayerEntry): string { e.createdBy }

  /** Every command of the history yields a line parseLabel can take. */
  predicate AllReady<E>(entries: seq<E>, command: E -> string) {
    forall i :: 0 <= i < |entries| ==> LabelReady(ExtractCmd(command(entries[i])))
  }

  /** The outcome of a podman or registry history taken in the order `ordered`. */
  function LayersOutcome(ordered: seq<LayerEntry>, parse: Parser): ProviderOutcome
    requires AllReady(ordered, LayerCommand)
  {
    LayersReady(ordered);
    Outcome(LinesNodes(ConcatMap(LayerEntryLines, ordered), parse))
  }

  // ---------------------------------------------------------------------------
  // Readiness of the lines for parseLabel

  /** A FROM comment does not start with LABEL, so it never goes to parseLabel. */
  lemma FromCommentNotLabel(comment: string)
    requires HasPrefix(ToUpper(comment), FromInstruction)
    ensures !HasPrefix(comment, LabelInstruction)
  {
    assert ToUpper(comment)[0] == 'F' by {
      assert ToUpper(comment)[..5] == FromInstruction;
    }
  }

  lemma EntryLinesReady(comment: string, layered: bool, createdBy: string)
    requires LabelReady(ExtractCmd(createdBy))
    ensures LabelsMatch(CommentLines(comment, layered)) && LabelsMatch(CommandLines(createdBy))
    ensures LabelsMatch(EntryLines(comment, layered, createdBy))
  {
    if UsesComment(comment, layered) {
      FromCommentNotLabel(comment);
    }
    LabelsMatchJoin(CommentLines(comment, layered), CommandLines(createdBy));
  }

  lemma LabelsMatchJoin(a: seq<string>, b: seq<string>)
    requires LabelsMatch(a) && LabelsMatch(b)
    ensures LabelsMatch(a + b)
  {
    forall i | 0 <= i < |a + b|
      ensures LabelReady((a + b)[i])
    {
      if i < |a| {
        assert (a + b)[i] == a[i];
      } else {
        assert (a + b)[i] == b[i - |a|];
      }
    }
  }

  /** The lines of a history whose entries' lines are ready are ready. */
  lemma {:induction false} HistoryLabelsMatch<E>(f: E -> seq<string>, s: seq<E>)
    requires forall i :: 0 <= i < |s| ==> LabelsMatch(f(s[i]))
    ensures LabelsMatch(ConcatMap(f, s))
    decreases |s|
  {
    if s != [] {
      var n := |s| - 1;
      assert forall i :: 0 <= i < n ==> s[..n][i] == s[i];
      HistoryLabelsMatch(f, s[..n]);
      LabelsMatchJoin(ConcatMap(f, s[..n]), f(s[n]));
    }
  }

  lemma LayersReady(ordered: seq<LayerEntry>)
    requires AllReady(ordered, LayerCommand)
    ensures LabelsMatch(ConcatMap(LayerEntryLines, ordered))
  {
    forall i | 0 <= i < |ordered|
      ensures LabelsMatch(LayerEntryLines(ordered[i]))
    {
      EntryLinesReady(ordered[i].comment, !ordered[i].emptyLayer, ordered[i].createdBy);
    }
    HistoryLabelsMatch(LayerEntryLines, ordered);
  }

  /** Reordering the history keeps it ready. */
  lemma AllReadyPermutation<E>(s: seq<E>, t: seq<E>, command: E -> string)
    requires multiset(s) == multiset(t) && AllReady(t, command)
    ensures AllReady(s, command)
  {
    forall i | 0 <= i < |s|
      ensures LabelReady(ExtractCmd(command(s[i])))
    {
      assert s[i] in multiset(t);
      var j :| 0 <= j < |t| && t[j] == s[i];
    }
  }

  // ---------------------------------------------------------------------------
  // The history loop

  /** One more entry: its lines' nodes follow those of the entries before it, or the
      first error wins. */
  lemma HistoryStep<E>(f: E -> seq<string>, s: seq<E>, i: nat, parse: Parser)
    requires i < |s| && LabelsMatch(ConcatMap(f, s[..i])) && LabelsMatch(f(s[i]))
    ensures LabelsMatch(ConcatMap(f, s[..i + 1]))
    ensures LinesNodes(ConcatMap(f, s[..i + 1]), parse) ==
      Then(LinesNodes(ConcatMap(f, s[..i]), parse), LinesNodes(f(s[i]), parse))
  {
    ConcatMapSnoc(f, s, i);
    LabelsMatchJoin(ConcatMap(f, s[..i]), f(s[i]));
    LinesNodesAppend(ConcatMap(f, s[..i]), f(s[i]), parse);
  }

  /** An error in the first entries is the error of the whole history. */
  lemma HistoryFailed<E>(f: E -> seq<string>, s: seq<E>, i: nat, parse: Parser)
    requires i <= |s| && LabelsMatch(ConcatMap(f, s))
    ensures LabelsMatch(ConcatMap(f, s[..i]))
    ensures LinesNodes(ConcatMap(f, s[..i]), parse).ParseFailed? ==>
      LinesNodes(ConcatMap(f, s), parse) == LinesNodes(ConcatMap(f, s[..i]), parse)
  {
    var head, tail := ConcatMap(f, s[..i]), ConcatMap(f, s[i..]);
    assert s == s[..i] + s[i..];
    ConcatMapAppend(f, s[..i], s[i..]);
    assert ConcatMap(f, s) == head + tail;
    LinesNodesAppend(head, tail, parse);
  }

  /** The body of the history loop: the comment, then the command, each through
      Line2Node; an error stops the entry. */
  method AppendEntry(comment: string, layered: bool, createdBy: string, root: Root, parse: Parser)
    returns (err: Option<string>)
    requires LabelReady(ExtractCmd(createdBy))
    modifies root
    ensures LabelsMatch(EntryLines(comment, layered, createdBy))
    ensures Appended(err, old(root.children), root.children, LinesNodes(EntryLines(comment, layered, createdBy), parse))
  {
    EntryLinesReady(comment, layered, createdBy);
    LinesNodesAppend(CommentLines(comment, layered), CommandLines(createdBy), parse);
    ghost var before := root.children;
    err := AppendComment(comment, layered, root, parse);
    if err.Some? {
      AppendedThen(err, None, before, root.children, root.children,
        LinesNodes(CommentLines(comment, layered), parse), LinesNodes(CommandLines(createdBy), parse));
      return;
    }
    ghost var middle := root.children;
    var e := AppendCommand(createdBy, root, parse);
    AppendedThen(err, e, before, middle, root.children,
      LinesNodes(CommentLines(comment, layered), parse), LinesNodes(CommandLines(createdBy), parse));
    err := e;
  }

  /** The comment of an entry, through Line2Node when it is used. */
  method AppendComment(comment: string, layered: bool, root: Root, parse: Parser) returns (err: Option<string>)
    modifies root
    ensures LabelsMatch(CommentLines(comment, layered))
    ensures Appended(err, old(root.children), root.children, LinesNodes(CommentLines(comment, layered), parse))
  {
    if comment != "" && HasPrefix(ToUpper(comment), FromInstruction) && layered {
      FromCommentNotLabel(comment);
      LinesNodesSingle(comment, parse);
      err := Line2Node(comment, root, parse);
    } else {
      err := None;
    }
  }

  /** The line the command of an entry yields, through Line2Node when there is one. */
  method AppendCommand(createdBy: string, root: Root, parse: Parser) returns (err: Option<string>)
    requires LabelReady(ExtractCmd(createdBy))
    modifies root
    ensures LabelsMatch(CommandLines(createdBy))
    ensures Appended(err, old(root.children), root.children, LinesNodes(CommandLines(createdBy), parse))
  {
    err := None;
    if createdBy != "" {
      var cmd := ExtractCmd(createdBy);
      if cmd != "" {
        LinesNodesSingle(cmd, parse);
        err := Line2Node(cmd, root, parse);
      }
    }
  }

  /** The history loop of podman and registry over the ordered entries `a`. */
  method AppendLayers(a: array<LayerEntry>, root: Root, parse: Parser) returns (err: Option<string>)
    requires AllReady(a[..], LayerCommand)
    modifies root
    ensures LabelsMatch(ConcatMap(LayerEntryLines, a[..]))
    ensures Appended(err, old(root.children), root.children, LinesNodes(ConcatMap(LayerEntryLines, a[..]), parse))
  {
    ghost var ordered := a[..];
    ghost var before := root.children;
    ghost var built: seq<Instruction> := [];
    LayersReady(ordered);
    assert ordered[..0] == [];
    for i := 0 to a.Length
      invariant LabelsMatch(ConcatMap(LayerEntryLines, ordered[..i]))
      invariant LinesNodes(ConcatMap(LayerEntryLines, ordered[..i]), parse) == Parsed(built)
      invariant root.children == before + built
    {
      var hist := a[i];
      assert hist == ordered[i];
      EntryLinesReady(hist.comment, !hist.emptyLayer, hist.createdBy);
      HistoryStep(LayerEntryLines, ordered, i, parse);
      assert LayerEntryLines(hist) == EntryLines(hist.comment, !hist.emptyLayer, hist.createdBy);
      ghost var middle := root.children;
      var e := AppendEntry(hist.comment, !hist.emptyLayer, hist.createdBy, root, parse);
      if e.Some? {
        HistoryFailed(LayerEntryLines, ordered, i + 1, parse);
        return e;
      }
      ghost var nodes := LinesNodes(LayerEntryLines(hist), parse).children;
      assert root.children == middle + nodes;
      AppendAssociative(before, built, nodes);
      built := built + nodes;
    }
    assert ordered[..a.Length] == ordered;
    err := None;
  }

  /** A history copied into a new array and ordered by `key`. */
  method OrderedCopy<E>(items: seq<E>, key: E -> int) returns (a: array<E>)
    ensures fresh(a)
    ensures SortedBy(a[..], key) && multiset(a[..]) == multiset(items)
  {
    a := new E[|items|](i requires 0 <= i < |items| => items[i]);
    assert a[..] == items;
    SortBy(a, key);
  }

  // ---------------------------------------------------------------------------
  // Properties

  /** An entry's comment comes before its command, and each is used exactly when its
      condition holds. */
  lemma CommentBeforeCommand(comment: string, layered: bool, createdBy: string)
    requires UsesComment(comment, layered) && ExtractCmd(createdBy) != ""
    ensures EntryLines(comment, layered, createdBy) == [comment, ExtractCmd(createdBy)]
  {
  }

  /** A FROM comment of an entry without a layer is not used. */
  lemma UnlayeredCommentIgnored(comment: string, createdBy: string)
    ensures EntryLines(comment, false, createdBy) == EntryLines("", true, createdBy)
  {
  }

  /** Entries that contribute no line leave an empty root, which is still a found image. */
  lemma NoUsableHistoryFoundEmpty(ordered: seq<LayerEntry>, parse: Parser)
    requires AllReady(ordered, LayerCommand)
    requires forall i :: 0 <= i < |ordered| ==> LayerEntryLines(ordered[i]) == []
    ensures LayersOutcome(ordered, parse) == Found([])
  {
    ConcatMapOfNothing(LayerEntryLines, ordered);
  }

  lemma {:induction false} ConcatMapOfNothing<T, U>(f: T -> seq<U>, xs: seq<T>)
    requires forall i :: 0 <= i < |xs| ==> f(xs[i]) == []
    ensures ConcatMap(f, xs) == []
    decreases |xs|
  {
    if xs != [] {
      var n := |xs| - 1;
      assert forall i :: 0 <= i < n ==> xs[..n][i] == xs[i];
      ConcatMapOfNothing(f, xs[..n]);
    }
  }

  /** When no two history entries share a creation time, every ordering the sort may
      produce gives the same outcome. */
  lemma LayersOutcomeDetermined(o1: seq<LayerEntry>, o2: seq<LayerEntry>, items: seq<LayerEntry>, parse: Parser)
    requires IsOrdering(o1, items, LayerCreated) && IsOrdering(o2, items, LayerCreated)
    requires forall i, j :: 0 <= i < j < |o1| ==> o1[i].created != o1[j].created
    requires AllReady(items, LayerCommand)
    ensures AllReady(o1, LayerCommand) && AllReady(o2, LayerCommand)
    ensures LayersOutcome(o1, parse) == LayersOutcome(o2, parse)
  {
    AllReadyPermutation(o1, items, LayerCommand);
    AllReadyPermutation(o2, items, LayerCommand);
    SortedPermutationsEqual(o1, o2, LayerCreated);
  }
}
