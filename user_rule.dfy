/** The USER rule: a USER argument equal to `root` (ignoring case) is reported, and an
    analysis in which no USER instruction was seen reports that the container implicitly
    runs as root.  Analyze stores the verdict of the latest USER argument and a processed
    flag; PostProcess reads them back. */
module UserRule {
  import opened Text
  import opened Constants
  import opened Results
  import opened RuleState

  const UserFindingName: string := "User set to root"

  /** The finding for an explicit `USER root`. */
  function RootFinding(source: Source, line: Line): Finding {
    Finding(UserFindingName, Failed, Medium,
      "USER directive set to root " + GenerateErrorLocation(source, line)
      + Consequence)
  }

  /** The finding for an analysis that saw no USER instruction. */
  const ImplicitRootFinding: Finding := Finding(UserFindingName, Failed, Medium, ImplicitRootDescription)

  const ImplicitRootDescription: string := "USER directive implicitely set to root" + Consequence

  /** The common tail of both descriptions. */
  const Consequence: string :=
    " could cause an unexpected behavior. In OpenShift, containers are run using arbitrarily assigned user ID"


  /** What one USER argument contributes: one finding for root, none otherwise. */
  function Verdict(value: string, source: Source, line: Line): (r: seq<Finding>)
    ensures |r| <= 1
    ensures r != [] <==> EqualFold(value, "root")
    ensures forall f :: f in r ==> f.name == UserFindingName && f.status == Failed && f.severity == Medium
    ensures ImplicitRootFinding !in r
  {
    if EqualFold(value, "root") then
      var d := RootFinding(source, line).description;
      var prefix := "USER directive set to root ";
      assert d[..|prefix|] == prefix;
      assert d[15] == prefix[15] == 's';
      assert ImplicitRootDescription[15] == 'i';
      [RootFinding(source, line)]
    else []
  }

  /** User.Analyze: overwrites the stored verdict and sets the processed flag; no other
      key changes. */
  function Analyze(st: State, value: string, source: Source, line: Line): (r: State)
    ensures r.Keys == st.Keys + {UserResult, UserProcessed}
    ensures Stored(r, UserResult) == Verdict(value, source, line)
    ensures r[UserProcessed] == Flag(true)
    ensures forall k :: k in st && k != UserResult && k != UserProcessed ==> r[k] == st[k]
  {
    st[UserResult := Findings(Verdict(value, source, line))][UserProcessed := Flag(true)]
  }

  /** User.PostProcess: the stored verdict, followed by the implicit-root finding when no
      USER argument was ever analysed. */
  function PostProcess(st: State): (r: seq<Finding>)
    ensures UserProcessed in st ==> r == Stored(st, UserResult)
    ensures UserProcessed !in st ==> r == Stored(st, UserResult) + [ImplicitRootFinding]
  {
    var results := Stored(st, UserResult);
    if UserProcessed in st then results else results + [ImplicitRootFinding]
  }

  /** The invariant Analyze keeps: the verdict and the flag are written together, and a
      stored verdict is the verdict of one argument. */
  predicate Consistent(st: State) {
    (UserResult in st <==> UserProcessed in st)
    && |Stored(st, UserResult)| <= 1
    && ImplicitRootFinding !in Stored(st, UserResult)
  }

  lemma EmptyStateIsConsistent()
    ensures Consistent(map[])
  {
  }

  lemma AnalyzeKeepsConsistent(st: State, value: string, source: Source, line: Line)
    ensures Consistent(Analyze(st, value, source, line))
  {
  }

  /** An analysis without USER reports exactly the implicit-root finding. */
  lemma NeverAnalyzedIsImplicitRoot()
    ensures PostProcess(map[]) == [ImplicitRootFinding]
  {
  }

  /** After an Analyze, PostProcess reports that argument's verdict and never the
      implicit-root finding. */
  lemma PostProcessAfterAnalyze(st: State, value: string, source: Source, line: Line)
    ensures PostProcess(Analyze(st, value, source, line)) == Verdict(value, source, line)
    ensures ImplicitRootFinding !in PostProcess(Analyze(st, value, source, line))
  {
  }

  /** Only the latest USER argument's verdict survives. */
  lemma LastWriteWins(st: State, v1: string, s1: Source, l1: Line, v2: string, s2: Source, l2: Line)
    ensures PostProcess(Analyze(Analyze(st, v1, s1, l1), v2, s2, l2)) == PostProcess(Analyze(st, v2, s2, l2))
  {
  }

  /** On a consistent state, PostProcess reports at most one finding, and it is the
      implicit-root finding exactly when no USER argument was analysed. */
  lemma AtMostOneFinding(st: State)
    requires Consistent(st)
    ensures |PostProcess(st)| <= 1
    ensures PostProcess(st) == [ImplicitRootFinding] <==> UserProcessed !in st
  {
  }
}
