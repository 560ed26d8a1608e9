/** The older analyzer's USER rule: a USER value equal to `root`, ignoring case, is
    reported.  The older analyzer does not register this rule (only EXPOSE and RUN are
    dispatched), so it is checked here on its own. */
module LegacyUser {
  import opened Text
  import opened Results
  import opened LegacyErrors
  import Constants
  import UserRule

  /** User.Analyze; `location` is the text the line printer produces for the instruction. */
  function Analyze(value: string, location: string): (r: seq<LegacyError>)
    ensures |r| <= 1
    ensures r != [] <==> EqualFold(value, "root")
    ensures forall e :: e in r ==> e == UserRoot(location)
  {
    if EqualFold(value, "root") then [UserRoot(location)] else []
  }

  /** The older and the newer USER rules report the same values. */
  lemma AgreesWithNewerRule(value: string, location: string, source: Constants.Source, line: Line)
    ensures Analyze(value, location) != [] <==> UserRule.Verdict(value, source, line) != []
    ensures |Analyze(value, location)| == |UserRule.Verdict(value, source, line)|
  {
  }
}
