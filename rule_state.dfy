/** The state the rule handlers thread through an analysis: an immutable map from a rule's
    key to the value it stored (the keys of `context.WithValue`), and the handler
    identities of the dispatch table. */
module RuleState {
  import opened Results

  datatype Key = UserResult | UserProcessed | ExposeResult | FromResult | RunResult

  datatype Value = Findings(findings: seq<Finding>) | Flag(flag: bool)

  type State = map<Key, Value>

  /** `ctx.Value(key).([]Result)`, where an absent key reads as no findings. */
  function Stored(st: State, k: Key): (r: seq<Finding>)
    ensures k !in st ==> r == []
  {
    if k in st && st[k].Findings? then st[k].findings else []
  }

  /** The rule handlers, one per watched instruction keyword. */
  datatype Handler = ExposeHandler | FromHandler | RunHandler | UserHandler

  /** The order in which the engine finalises the handlers.  The source iterates over a
      Go map, whose order is unspecified; the model fixes the declaration order. */
  const HandlerOrder: seq<Handler> := [ExposeHandler, FromHandler, RunHandler, UserHandler]
}
