/** The per-rule accumulators of an analysis: a table from a rule's identifier to the
    context the rule collects into, filled in on first use. */
module CommandContexts {
  import opened Results

  /** A rule's identifier; only its identity matters. */
  type RuleId = nat

  /** One rule's accumulator: free-form information and the findings collected so far. */
  class CommandContext {
    var infos: map<string, string>
    var results: seq<Finding>

    /** newCommandContext: no information and no findings. */
    constructor ()
      ensures infos == map[] && results == []
    {
      infos := map[];
      results := [];
    }
  }

  class AnalyzeContext {
    var commandContexts: map<RuleId, CommandContext>

    constructor ()
      ensures commandContexts == map[]
    {
      commandContexts := map[];
    }

    /** The accumulator of rule `id`: the stored one, or a new empty one that is stored
        under `id`.  No other entry changes. */
    method CommandContext(id: RuleId) returns (c: CommandContext)
      modifies this
      ensures id in old(commandContexts) ==> c == old(commandContexts)[id] && commandContexts == old(commandContexts)
      ensures id !in old(commandContexts) ==>
        fresh(c) && c.infos == map[] && c.results == [] && commandContexts == old(commandContexts)[id := c]
      ensures id in commandContexts && commandContexts[id] == c
    {
      if id in commandContexts {
        c := commandContexts[id];
      } else {
        c := new CommandContext();
        commandContexts := commandContexts[id := c];
      }
    }
  }

  /** A second lookup of the same rule returns the accumulator of the first and changes
      nothing more. */
  method RepeatedLookup(a: AnalyzeContext, id: RuleId) returns (first: CommandContext, second: CommandContext)
    modifies a
    ensures first == second
    ensures a.commandContexts == old(a.commandContexts)[id := first]
    ensures id in old(a.commandContexts) ==> first == old(a.commandContexts)[id]
  {
    first := a.CommandContext(id);
    ghost var between := a.commandContexts;
    second := a.CommandContext(id);
    assert a.commandContexts == between;
  }
}
