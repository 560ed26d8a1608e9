# OpenShift image checker, modelled in Dafny

The image checker reads a Containerfile, or reconstructs one from a container image's history. It then reports what in it is likely to break on OpenShift:

- a privileged port exposed;
- a container left running as root;
- a RUN that gives files a group other than root, or group permissions other than 7.

This project models four parts of the image checker and proves properties of that model:

- **The rule engine** (`pkg/command`). It walks the instructions of a Containerfile or an image. Every value of an `EXPOSE`, `FROM`, `RUN` or `USER` instruction goes to that keyword's rule. An empty value is reported "Wrong value". Afterwards every rule hands in what it collected.
  - The rules thread an immutable state through the walk, a map from a rule's key to its stored value. This follows `context.WithValue` in the rule files and in `pkg/command/run_test.go`.
  - A `FROM` rule decompiles the base image. It walks the base image's instructions with the same state, so the `USER` verdict covers the whole lineage.
- **The older analyzer** (`command/`). Only `EXPOSE` and `RUN` are registered there. Each value goes to its rule, which returns errors.
  - The `RUN` rule splits a command at `&&` and checks each `chmod` and `chown` part. The two regular expressions are written out as the leftmost match they find.
- **The decompiler** (`pkg/decompiler`). Three providers are tried in order: podman, docker, then the registry. The first error or the first image found wins.
  - Each provider sorts the image's history by creation time, in place. It turns each entry into Containerfile lines with `ExtractCmd` and appends their nodes to a new root with `Line2Node`. The first parser error stops it.
  - Docker then rewrites `EXPOSE` values such as `map[80/tcp:{}]` to `80/tcp`. The registry appends a `USER` line for the image's configured user.
- **The shared constants** (`pkg/utils/constants.go`).

Form of the model:

- Pure logic is written as functions. The proofs about it are lemmas.
- Loops are methods with loop invariants, proved equal to a specification function. This covers the engine's three loops, the older analyzer's loops, the providers' history loops and `parseTree`.
- The in-place history sort is an insertion sort over an `array`. `Root`, the node the decompiler appends to, is a class with a `children` field.
- The buildkit parser, the docker, podman and registry clients, and the containers configuration are inputs:
  - the parser is a function from a text to its nodes or an error;
  - each client is the data it would return.

Where a rule file and `pkg/command/analyzer.go` disagree, the model follows the rule files. The `Command` interface there says `Analyze` returns nothing and `PostProcess` takes an `AnalyzeContext`. The rules instead take and return a `context.Context`, and `From.Analyze` uses `AnalyzeNodeFromSource` as returning `(results, ctx)`. The engine is therefore modelled as threading the state and returning it.

## Model

| member | source | states |
|---|---|---|
| Constants.InstructionConstantsAreKeywords | pkg/utils/constants.go:24-41 | every instruction constant is an upper-case keyword followed by exactly one space, and the MAINTAINER constant is misspelled, so it differs from `MAINTAINER ` |
| Constants.MarkersEndInOneSpace | pkg/utils/constants.go:20-22 | the nop marker and the shell prefix each end in exactly one space |
| Constants.SourceTypeNamesDistinct | pkg/utils/constants.go:45-48 | the two source kinds are named IMAGE and PARENT_IMAGE, which differ |
| Results.GenerateErrorLocation | pkg/command/analyzer.go:210-218 | a parent source is located as `in parent image NAME`; any other location starts with `at line ` |
| Results.LocationDeterminesLines | pkg/command/analyzer.go:214-217 | in the analysed target, two instructions with the same location text have the same line range: `N` and `S-E` are never confused |
| Results.RangeTextInjective | pkg/command/analyzer.go:217 | the text `S-E` determines both S and E, negative numbers included |
| Results.IsCommandIsContainment | pkg/command/analyzer.go:206-208 | a command is recognised exactly when its name occurs at some position of the text |
| RuleState.Stored | pkg/command/from.go:61-65 | a key the state does not hold reads as no findings |
| CommandContexts.CommandContext.constructor | pkg/command/analyzer.go:63-67 | a new accumulator has no information and no findings |
| CommandContexts.AnalyzeContext.constructor | pkg/command/analyzer.go:140-142 | an analysis starts with no accumulators |
| CommandContexts.AnalyzeContext.CommandContext | pkg/command/analyzer.go:69-77 | returns the stored accumulator and changes nothing; otherwise it stores a fresh empty one under that id and changes no other entry |
| CommandContexts.RepeatedLookup | pkg/command/analyzer.go:69-77 | two lookups of one id return the same accumulator, and the table gains at most that one entry |
| UserRule.Verdict | pkg/command/user.go:39-46 | a USER value gives one Medium "User set to root" finding exactly when it equals root ignoring case, else none; that finding differs from the implicit-root finding |
| UserRule.Analyze | pkg/command/user.go:37-49 | stores the value's verdict and sets the processed flag; no other key changes |
| UserRule.PostProcess | pkg/command/user.go:51-68 | reports the stored verdict, followed by the implicit-root finding exactly when no USER value was analysed |
| UserRule.AnalyzeKeepsConsistent | pkg/command/user.go:47-48 | after Analyze the verdict and the flag are both present and there is at most one stored finding, which is not the implicit-root one |
| UserRule.NeverAnalyzedIsImplicitRoot | pkg/command/user.go:58-65 | an analysis that saw no USER reports exactly the implicit-root finding |
| UserRule.PostProcessAfterAnalyze | pkg/command/user.go:51-66 | after an Analyze, PostProcess reports that value's verdict and never the implicit-root finding |
| UserRule.LastWriteWins | pkg/command/user.go:47 | only the latest USER value's verdict survives |
| UserRule.AtMostOneFinding | pkg/command/user.go:51-66 | on a consistent state the rule reports at most one finding, and it is the implicit-root one exactly when no USER value was analysed |
| Text.Atoi | pkg/command/expose.go:47 | strconv.Atoi in base 10: the value is within the int64 range; a syntax error reads as 0 and a range error as the nearest int64 bound; without error the text is an optional sign and digits |
| Text.AtoiIntToString | pkg/command/expose.go:47 | Atoi reads back every int64 that %d prints |
| Text.AtoiDigits | pkg/command/expose.go:47 | any digit run within range, with leading zeros and with or without `+`, reads as its value |
| Text.AtoiWithoutDigits | pkg/command/expose.go:47 | a text without digits is a syntax error read as 0 |
| Text.AtoiTrailingText | command/expose.go:26 | digits followed by a non-digit are a syntax error read as 0, unless the digits already overflow |
| Text.AtoiErrorMessageCarriesText | pkg/command/expose.go:53 | err.Error() of an Atoi error starts with `strconv.Atoi: parsing `, ends with the reason, and the quoted text between reads back, by Unquote, as the text that failed |
| Text.QuoteRoundTrip | pkg/command/expose.go:53 | Unquote reads back whatever strconv.Quote writes, so the quoting loses nothing |
| Text.QuotePlain | pkg/command/expose.go:53 | a text of printable code points without `"` or `\` is quoted as it is, between two quote marks |
| Text.HexValueOfHex | pkg/command/expose.go:53 | the hex digits of a `\x` or `\u` escape read back as the escaped code point |
| Text.EscapedAppend | pkg/command/expose.go:53 | Quote escapes code point by code point |
| ExposeRule.Unwrapped | pkg/command/expose.go:39-41 | a value wrapped as `map[...]` loses both halves of the wrapper; any other value is kept |
| ExposeRule.PortText | pkg/command/expose.go:38-45 | the port text is the longest prefix of the unwrapped value that holds no `/`, so it ends before the first `/` |
| ExposeRule.Analyze | pkg/command/expose.go:37-65 | stores this value's findings under the EXPOSE key and changes no other key. The findings are the Critical Atoi error, whose text quotes the port text as strconv.Quote does, then the High privileged-port finding; the lemmas below pin them down for every port text |
| ExposeRule.PostProcess | pkg/command/expose.go:67-73 | without an analysed EXPOSE value the rule reports nothing |
| ExposeRule.NumberIsItsOwnPortText | pkg/command/expose.go:38-45 | a decimal number, printed, passes through unwrapping and cutting unchanged |
| ExposeRule.UnprivilegedPortAccepted | pkg/command/expose.go:47-63 | a port from 1024 to the largest int64 gives no finding |
| ExposeRule.PrivilegedPortReported | pkg/command/expose.go:56-63 | a port below 1024, negative ones included, gives exactly one High "Privileged port exposed" finding that names it |
| ExposeRule.NonNumericPortReportedTwice | pkg/command/expose.go:47-63 | a port text without digits gives a Critical syntax-error finding and then a privileged-port finding for port 0 |
| ExposeRule.SyntaxErrorReportedTwice | pkg/command/expose.go:47-63 | every port text Atoi rejects as a syntax error, with digits in it or not (`80a`, ` 80`, `1_024`), gives the Critical finding and then the privileged-port finding for port 0 |
| ExposeRule.OutOfRangePortReported | pkg/command/expose.go:47-63 | a port text beyond the int64 range gives the Critical range error, followed by a privileged-port finding exactly when it lies below the range |
| ExposeRule.ParsedPortJudgedByValue | pkg/command/expose.go:47-63 | every port text Atoi parses to n, however it is spelled, gives the one privileged-port finding for n when n is below 1024 and nothing otherwise |
| ExposeRule.SlashFreeIsPortText | pkg/command/expose.go:38-45 | an unwrapped value without `/` is its own port text |
| ExposeRule.SpelledPortJudgedByValue | pkg/command/expose.go:38-63 | leading zeros and a `+` sign do not change the verdict: `08080` and `+8080` are judged as port 8080 |
| ExposeRule.QuotedPortEscaped | pkg/command/expose.go:47-55 | the argument `"8080"` gives a syntax error whose text is `strconv.Atoi: parsing "\"8080\"": invalid syntax`, then the port-0 finding |
| ExposeRule.FirstSlashEndsPort | pkg/command/expose.go:42-45 | the first `/` of a slash-free port followed by a protocol is at the port's end |
| ExposeRule.WrapperAndProtocolIgnored | pkg/command/expose.go:38-45 | `map[PORT/PROTO]` has port text PORT |
| ExposeRule.ProtocolIgnored | pkg/command/expose.go:42-45 | `PORT/PROTO` has port text PORT |
| ExposeRule.HalfWrapperKept | pkg/command/expose.go:39-41 | `map[` without a closing `]` stays part of the port text |
| ExposeRule.LastWriteWins | pkg/command/expose.go:64 | only the last EXPOSE value analysed is reported |
| Engine.FromAnalyze | pkg/command/from.go:37-58 | `scratch` leaves the state unchanged; a base image that cannot be decompiled replaces the FROM key with one Low "Analyze error" finding naming it and changes no other key |
| Engine.RunAnalyze | pkg/command/analyzer.go:88 | the RUN key holds what the RUN rule found for the latest value; no other key changes |
| Engine.FromPostProcess | pkg/command/from.go:60-66 | without a stored FROM failure the rule reports nothing |
| Engine.RunPostProcess | pkg/command/analyzer.go:198-201 | without an analysed RUN value the rule reports nothing |
| Engine.CollectAllInOrder | pkg/command/analyzer.go:198-202 | the final loop reports the EXPOSE, FROM, RUN and USER rules' findings in that order |
| Engine.CollectFindings | pkg/command/analyzer.go:198-202 | the findings so far are followed by every rule's findings in rule order |
| Engine.AnalyzeArguments | pkg/command/analyzer.go:183-195 | the inner loop reaches the state and findings of the argument-by-argument specification |
| Engine.VisitArgsStep | pkg/command/analyzer.go:184-194 | one more argument adds a "Wrong value" finding when empty, and is otherwise dispatched to the rule with the state so far |
| Engine.AnalyzeNodeFromSource | pkg/command/analyzer.go:172-204 | the nested loops return exactly the walk's direct findings followed by the rules' findings, and the walk's final state |
| Engine.AnalyzeImage | pkg/command/analyzer.go:128-147 | a decompile error is the only finding, a Critical "Analyze error" naming the image; otherwise the image's instructions are analysed from an empty state |
| Engine.AnalyzeFile | pkg/command/analyzer.go:149-170 | a parse error is the only finding, a Critical "Parse error" naming the file; otherwise the file's instructions are analysed from an empty state |
| Engine.HandlerForIgnoresCase | pkg/command/analyzer.go:181 | an instruction is dispatched exactly when its upper-cased keyword is EXPOSE, FROM, RUN or USER, and to USER or FROM exactly for those keywords |
| Engine.VisitArgsDirect | pkg/command/analyzer.go:183-191 | the engine's own findings for one instruction are one "Wrong value" per empty argument |
| Engine.DirectFindingsAreEmptyValues | pkg/command/analyzer.go:175-197 | the engine's own findings depend only on the instructions, not on the state, the base images or the rules |
| Engine.Dispatched | pkg/command/analyzer.go:181-182 | the instructions kept all have a rule |
| Engine.OnlyDispatchedInstructionsCount | pkg/command/analyzer.go:181-182 | a walk over the instructions gives the same result as a walk over only those that have a rule |
| Engine.FromFailureLastWins | pkg/command/from.go:41-51 | of two undecompilable base images, only the later one's failure is reported |
| Engine.FromScratchOnly | pkg/command/from.go:38-40 | a target that only says `FROM scratch` reports exactly the implicit-root finding |
| Engine.WalkSetsUser | pkg/command/from.go:53-56 | after a walk the USER rule has run exactly when it had run before or some USER value of the lineage (base images included) is non-empty; the USER rule's invariant is kept |
| Engine.FromSetsUser | pkg/command/from.go:37-58 | a FROM sets the USER flag exactly when the decompiled base image's lineage has a USER |
| Engine.AnalysisComposition | pkg/command/analyzer.go:172-204 | an analysis reports the empty-value findings, then the EXPOSE, FROM, RUN and USER rules' findings |
| Engine.ImplicitRootIffNoUserInLineage | pkg/command/user.go:51-68 | a fresh analysis reports at most one USER finding, and reports the implicit root exactly when no instruction of the lineage sets a user |
| LegacyRun.ChmodCaptureAt | command/run.go:80-81 | a capture is a non-empty run of digits |
| LegacyRun.ChmodCapture | command/run.go:80-81 | the leftmost `chmod\s+(\d+)\s+(.*)` match captures a non-empty run of digits |
| LegacyRun.ChmodError | command/run.go:79-97 | no error exactly when the captured mode has three digits with 7 in the middle; no match is the "unable to fetch args" error |
| LegacyRun.ChownCaptureAt | command/run.go:61-63 | a captured group is non-empty and ends in a word character |
| LegacyRun.ChownCapture | command/run.go:61-63 | the leftmost match's group is non-empty and ends in a word character |
| LegacyRun.ChownError | command/run.go:60-73 | an error exactly when a group is captured that is neither root (after lower-casing) nor 0; the error names the command |
| LegacyRun.RunErrors | command/run.go:28-44 | there are at most as many errors as parts |
| LegacyRun.Analyze | command/run.go:24-45 | the loop returns the parts' errors, in order, for the value split at `&&` |
| LegacyRun.RunErrorsAppend | command/run.go:29-42 | the parts are checked independently: the errors of two runs of parts are those of each, in order |
| LegacyRun.RunErrorsSingle | command/run.go:29-42 | a single part gives at most its own error |
| LegacyRun.ChmodTakesPrecedence | command/run.go:30-40 | a part naming both chmod and chown is only chmod-checked |
| LegacyRun.ChmodModeCaptured | command/run.go:80-85 | `chmod MODE PATH` captures the whole of MODE |
| LegacyRun.ChmodModeChecked | command/run.go:82-96 | for `chmod MODE PATH`, a MODE of other than three digits cannot be read, and a three-digit MODE is reported unless its group digit is 7 |
| LegacyRun.ChownGroupCaptured | command/run.go:61-67 | `OWNER:GROUP REST`, with no colon in OWNER, captures GROUP |
| LegacyRun.ChownGroupChecked | command/run.go:67-72 | for `OWNER:GROUP REST`, the group root in any case and the group 0 are accepted, and any other group is reported |
| LegacyRun.LowerIsRootIffFold | command/run.go:68 | on word characters, lower-casing gives root exactly when the text equals root ignoring case |
| LegacyRun.OwnerOnlyAccepted | command/run.go:63-66 | a chown without a colon is never reported |
| LegacyExpose.Analyze | command/expose.go:23-36 | the loop returns, for each value in order, its syntax error if any and then a privileged-port error for a port below 1024 |
| LegacyExpose.UnprivilegedPortAccepted | command/expose.go:26-33 | a port from 1024 to the largest int64 gives no error |
| LegacyExpose.PrivilegedPortReported | command/expose.go:30-33 | a port below 1024 gives exactly the privileged-port error |
| LegacyExpose.NonNumericReportedTwice | command/expose.go:26-33 | a value without digits is reported as a syntax error and as port 0 |
| LegacyExpose.SyntaxErrorReportedTwice | command/expose.go:26-33 | every value Atoi rejects as a syntax error, with digits in it or not, gives the syntax error and then the privileged-port error for port 0 |
| LegacyExpose.OutOfRangeReported | command/expose.go:26-33 | a value beyond the int64 range gives the range error, followed by a privileged-port error exactly when it lies below the range |
| LegacyExpose.ParsedPortJudgedByValue | command/expose.go:26-33 | every value Atoi parses to n gives the privileged-port error for n when n is below 1024 and nothing otherwise |
| LegacyExpose.SpelledPortJudgedByValue | command/expose.go:26-33 | `08080` and `+8080` are judged as port 8080 |
| LegacyExpose.ProtocolSuffixRejected | command/expose.go:26-33 | a port with a protocol suffix, such as `8080/tcp`, is a syntax error and reads as the privileged port 0 |
| LegacyExpose.ValuesErrorsAppend | command/expose.go:25-34 | each value is checked on its own |
| LegacyExpose.ValuesErrorsSingle | command/expose.go:25-34 | one value gives that value's errors |
| LegacyUser.Analyze | command/user.go:12-18 | one "USER directive set to root" error exactly when the value equals root ignoring case |
| LegacyUser.AgreesWithNewerRule | command/user.go:14 | the older and the newer USER rules report exactly the same values, and as many findings |
| LegacyAnalyzer.HandlerFor | command/analyzer.go:25-28 | a rule is found exactly for the lower-cased keywords expose and run |
| LegacyAnalyzer.Analyze | command/analyzer.go:30-54 | the loop returns every instruction's errors in order; a parse error is the only error |
| LegacyAnalyzer.AnalyzeValues | command/analyzer.go:44-50 | the inner loop reports each empty value and hands the others to the rule |
| LegacyAnalyzer.OnlyExposeAndRunReported | command/analyzer.go:42-43 | instructions other than EXPOSE and RUN are never reported |
| LegacyAnalyzer.SingleExposeValueUnchecked | command/analyzer.go:44-49 | an EXPOSE of one port never checks it, because the rule reads the values after the node it is given |
| LegacyAnalyzer.TwoExposeValuesCheckSecond | command/analyzer.go:44-49 | an EXPOSE of two ports checks only the second |
| LegacyAnalyzer.RunValueChecked | command/analyzer.go:48 | a RUN value is checked part by part |
| LegacyAnalyzer.ExposeErrorKinds | command/expose.go:23-36 | the EXPOSE rule reports only syntax errors and privileged ports |
| LegacyAnalyzer.RunErrorKinds | command/run.go:24-45 | the RUN rule reports only chmod and chown errors |
| LegacyAnalyzer.HandlerErrorsAreNotEmptyValues | command/analyzer.go:48 | the rules themselves never report an empty value |
| LegacyAnalyzer.EmptyValuesReported | command/analyzer.go:44-47 | each empty value of an EXPOSE or RUN instruction is reported exactly once |
| LegacyAnalyzer.FileErrorsAppend | command/analyzer.go:40-52 | instructions are checked independently of each other |
| DecompilerUtils.IsContainerfileInstruction | pkg/decompiler/utils/utils.go:77-84 | true exactly when the upper-cased text starts with one of the listed instructions |
| DecompilerUtils.ExtractCmd | pkg/decompiler/utils/utils.go:62-75 | without a nop marker after the start, a non-empty result is a RUN line or starts with a listed instruction |
| DecompilerUtils.ListedInitials | pkg/decompiler/utils/utils.go:10-28 | the listed instructions start with one of twelve letters, and the only one starting with M is the misspelled MAINTAINER |
| DecompilerUtils.FromNotListed | pkg/decompiler/utils/utils.go:10-28 | FROM is not in the list, so a FROM line never counts as an instruction |
| DecompilerUtils.MaintainerNotListed | pkg/decompiler/utils/utils.go:14 | a correctly spelled MAINTAINER line never counts as an instruction |
| DecompilerUtils.NopMarkerTaken | pkg/decompiler/utils/utils.go:63-66 | after a nop marker that is not at the start, the command is the trimmed rest |
| DecompilerUtils.NopMarkerAtStartDropped | pkg/decompiler/utils/utils.go:63-70 | a nop marker at the very start is not taken, and without a shell prefix the entry gives no line |
| DecompilerUtils.ShellPrefixRewritten | pkg/decompiler/utils/utils.go:67-70 | a `/bin/sh -c ` prefix is replaced by `RUN ` and the rest is kept |
| DecompilerUtils.PlainCommandKeptIffInstruction | pkg/decompiler/utils/utils.go:71-74 | without either marker the text is kept exactly when it starts with a listed instruction, and otherwise dropped |
| DecompilerUtils.LabelGroups | pkg/decompiler/utils/utils.go:30 | a matched value holds no `=`, and neither group holds a newline |
| DecompilerUtils.LabelSplitAtLastEquals | pkg/decompiler/utils/utils.go:30 | `LABEL KEY=VALUE`, with no `=` in VALUE, is split into exactly KEY and VALUE |
| DecompilerUtils.Relined | pkg/decompiler/utils/utils.go:40-42 | the nodes keep their contents and get the given line range |
| DecompilerUtils.Root.constructor | pkg/decompiler/docker/decompiler.go:58 | a new root has no children |
| DecompilerUtils.Root.AddChild | pkg/decompiler/utils/utils.go:41 | appends the child with the given line range and nothing else |
| DecompilerUtils.ParseLabel | pkg/decompiler/utils/utils.go:46-60 | appends one LABEL node holding the two groups as its values, on line 0 |
| DecompilerUtils.Line2Node | pkg/decompiler/utils/utils.go:32-44 | on a parser error returns it and leaves the root unchanged; otherwise appends the line's nodes, and a LABEL line goes through parseLabel instead of the parser |
| DecompilerUtils.LabelLineBypassesParser | pkg/decompiler/utils/utils.go:33-35 | a LABEL line gives the same single node whatever the parser does |
| DecompilerUtils.LinesNodesAppend | pkg/decompiler/podman/decompiler.go:78-95 | handing two runs of lines to Line2Node gives the first run's error, or else both runs' nodes in order, or the second run's error |
| History.SortBy | pkg/decompiler/docker/decompiler.go:59 | the array ends sorted by creation time and holds the same entries |
| History.SwapBack | pkg/decompiler/docker/decompiler.go:42-44 | exchanges two neighbours and keeps every other entry |
| History.SortedPermutationsEqual | pkg/decompiler/docker/decompiler.go:38-40 | two sorted orderings of the same entries are equal when no two entries share a creation time |
| Providers.EntryLines | pkg/decompiler/podman/decompiler.go:79-94 | an entry gives at most two lines, none of them empty |
| Providers.CommentLines | pkg/decompiler/podman/decompiler.go:79-85 | the comment is used whole or not at all |
| Providers.CommandLines | pkg/decompiler/podman/decompiler.go:86-94 | the command gives its extracted line or nothing |
| Providers.FromCommentNotLabel | pkg/decompiler/podman/decompiler.go:79-81 | a FROM comment never reaches parseLabel |
| Providers.AllReadyPermutation | pkg/decompiler/podman/decompiler.go:77 | reordering the history keeps every command acceptable to parseLabel |
| Providers.HistoryStep | pkg/decompiler/podman/decompiler.go:78-95 | one more entry's nodes follow the earlier entries' nodes, or the first error wins |
| Providers.HistoryFailed | pkg/decompiler/podman/decompiler.go:81-92 | an error in the first entries is the error of the whole history |
| Providers.AppendComment | pkg/decompiler/podman/decompiler.go:79-85 | appends the comment line's nodes or returns its error |
| Providers.AppendCommand | pkg/decompiler/podman/decompiler.go:86-94 | appends the command line's nodes or returns its error |
| Providers.AppendEntry | pkg/decompiler/podman/decompiler.go:79-94 | appends the entry's lines' nodes, comment first, or returns the first error |
| Providers.AppendLayers | pkg/decompiler/podman/decompiler.go:78-95 | the loop appends the nodes of every entry's lines in history order, or returns the first error |
| Providers.OrderedCopy | pkg/decompiler/podman/decompiler.go:77 | a new array holding the history's entries, sorted by creation time |
| Providers.CommentBeforeCommand | pkg/decompiler/podman/decompiler.go:79-94 | a usable FROM comment comes before the entry's command |
| Providers.UnlayeredCommentIgnored | pkg/decompiler/podman/decompiler.go:79-80 | an entry without a layer contributes only its command |
| Providers.NoUsableHistoryFoundEmpty | pkg/decompiler/podman/decompiler.go:76-96 | a history whose entries give no lines is still an image found, with no instructions |
| Providers.LayersOutcomeDetermined | pkg/decompiler/podman/decompiler.go:40-42 | when no two entries share a creation time, every ordering the sort may leave gives the same outcome |
| DockerDecompiler.PortAt | pkg/decompiler/docker/decompiler.go:82 | a capture is at least five characters long and holds no `:` |
| DockerDecompiler.PortCapture | pkg/decompiler/docker/decompiler.go:82 | the leftmost match's capture holds no `:` |
| DockerDecompiler.RewriteTree | pkg/decompiler/docker/decompiler.go:84-97 | the rewrite keeps the number of children and rewrites each child on its own |
| DockerDecompiler.ParseTree | pkg/decompiler/docker/decompiler.go:84-97 | the nested loops leave the root's children equal to their rewrite |
| DockerDecompiler.AppendHistory | pkg/decompiler/docker/decompiler.go:60-77 | the loop appends the nodes of every entry's lines in history order, using the comment only for an entry with a non-zero size, or returns the first error |
| DockerDecompiler.Decompile | pkg/decompiler/docker/decompiler.go:48-80 | no client or no history means no image; otherwise the history is sorted (a permutation), and the result is the first error or the rewritten nodes of its lines |
| DockerDecompiler.RewriteKeepsShape | pkg/decompiler/docker/decompiler.go:84-97 | only the values of EXPOSE children change; keywords, line ranges and value counts are kept |
| DockerDecompiler.NoColonUnchanged | pkg/decompiler/docker/decompiler.go:89-92 | a value without `:` does not match and is kept |
| DockerDecompiler.RewriteTreeIdempotent | pkg/decompiler/docker/decompiler.go:84-97 | rewriting twice is rewriting once |
| DockerDecompiler.PlainFormRewritten | pkg/decompiler/docker/decompiler.go:82 | `PORT/PROTO:{}...` is rewritten to `PORT/PROTO` for PROTO tcp or udp |
| DockerDecompiler.MapFormRewritten | pkg/decompiler/docker/decompiler.go:82 | `map[PORT/PROTO:{}...` is rewritten to `PORT/PROTO` |
| DockerDecompiler.PortAtDigits | pkg/decompiler/docker/decompiler.go:82 | digits, a slash, tcp or udp, then `:{}` is captured as digits, slash and protocol |
| DockerDecompiler.EmptyHistoryFoundEmpty | pkg/decompiler/docker/decompiler.go:58-79 | an image without history is found, with no instructions |
| DockerDecompiler.DockerOutcomeDetermined | pkg/decompiler/docker/decompiler.go:38-40 | when no two entries share a creation time, every ordering the sort may leave gives the same outcome |
| PodmanDecompiler.Connection | pkg/decompiler/podman/decompiler.go:50-62 | no configuration or no active service gives empty strings; an active service gives its destination's URI and identity, or empty strings when it has no destination |
| PodmanDecompiler.Decompile | pkg/decompiler/podman/decompiler.go:64-99 | no URI or no image means no image; otherwise the history is sorted (a permutation) and the result is the first error or the nodes of its lines |
| RegistryDecompiler.UserLines | pkg/decompiler/registry/decompiler.go:88-93 | a USER line is added exactly when the image has a configured user |
| RegistryDecompiler.Decompile | pkg/decompiler/registry/decompiler.go:49-96 | a bad reference and a config failure are errors, a failed fetch is no image; otherwise the sorted history's lines, then the USER line, give the first error or the nodes |
| RegistryDecompiler.UserAppendedLast | pkg/decompiler/registry/decompiler.go:88-95 | the configured user's nodes come after all the history's nodes |
| RegistryDecompiler.NoUserAddsNothing | pkg/decompiler/registry/decompiler.go:88 | without a configured user the registry result is the history's |
| Decompiler.Decompile | pkg/decompiler/decompiler.go:32-48 | providers are asked in order while they find no image, at most three; the result is the first outcome that is an error or an image, else "Can't resolve image"; each outcome is one that provider can give |
| Decompiler.SkipUnresolved | pkg/decompiler/decompiler.go:43-45 | providers that find no image do not affect the result |
| Decompiler.FirstErrorWins | pkg/decompiler/decompiler.go:40-42 | the first provider error after providers that found nothing is the result |
| Decompiler.FirstFoundWins | pkg/decompiler/decompiler.go:43-45 | the first image found after providers that found nothing is the result |
| Decompiler.AllUnresolvedIsError | pkg/decompiler/decompiler.go:47 | when no provider finds the image, the result is the "Can't resolve image" error naming it |
| Decompiler.ResultComesFromOutcomes | pkg/decompiler/decompiler.go:38-47 | an image returned is some provider's image, and an error returned is some provider's error or the unresolved error |

## Left out

- `AnalyzePath` and the opening of files are not modelled (file-system I/O). `AnalyzeFile` takes the parser's result for the file instead. This leaves out `AnalyzePath`'s fall-back to `Containerfile` at pkg/command/analyzer.go:108. It joins `filepath.Base(path)`, the name `Dockerfile`, rather than the directory.
- The command-line interface, `main.go` and the desktop extension are not part of this model.
- The buildkit parser is an input: a function from a text to nodes or an error. The model relies on `parser.Node.AddChild` setting the given line range and appending, and on nothing else.
  - Whether an instruction's `Value` is upper- or lower-case is the parser's business. The rule engine upper-cases it. Docker's `parseTree` compares it to `EXPOSE ` as written.
- The docker, podman and registry clients, and the containers configuration file, are inputs. Each is the data it would return, or its failure. Network access, authentication and timeouts are not modelled.
- The podman identity is passed on only to the connection, which the model does not open.
- pkg/command/run.go is not part of this model. The newer engine's RUN rule is an input: a function from a RUN value to its findings. The model assumes, like the other rules, that the rule stores them under its own key and the latest value wins.
- The order of `commandHandlers` in the final loop of `AnalyzeNodeFromSource` is a Go map's order, which is unspecified. The model fixes it to EXPOSE, FROM, RUN, USER.
- `Engine.FromAnalyze`: `fuel` bounds how many base images deep a FROM recurses. This is a device of the model, needed for termination. With no fuel left a base image contributes nothing.
- A rule's `uuid` is a natural number. `Infos` is a map from strings to strings and is never read.
- The legacy `Line` type and `PrintLineInfo` are not part of this model. The older USER rule takes the printed location as a string.
- `History.SortBy`: `sort.Sort` is not stable. The model proves only that the result is sorted and a permutation, returned as the ordering the providers use. When there are ties the exact order is left open. `Providers.LayersOutcomeDetermined` and `DockerDecompiler.DockerOutcomeDetermined` show that the outcome does not depend on it when creation times differ.
- Creation times are integers. Podman's `Created` is never nil in the model, although Go panics when it dereferences a nil one.
- `DecompilerUtils.ParseLabel`: a LABEL line that does not match `^LABEL\s+(.*)=(.*)$` makes Go panic on `elements[1:]`. The callers must rule this out (`LabelReady`, lifted to whole histories as `AllReady`), so the model does not describe the panic.
- `strconv.Atoi` is modelled for base-10 text only, which is all the rules use. A syntax error reads as 0. A value outside the int64 range is clamped to the nearest bound and reported as a range error.
- Text.Quote: `strconv.IsPrint` is followed exactly up to U+00FF. Every code point above U+00FF is taken as printable and kept as it is, so the `\U` escape never arises. Go consults its Unicode tables there and escapes the unprintable ones, such as U+2028, as `\u` or `\U`.
- Text.Unquote is a reference reading of a double-quoted literal, the partner of Quote. It does not accept octal escapes or a `\x` escape above 0x7F, which Quote never writes.
- Strings are sequences of Unicode code points; Go's byte indexing is the same on the ASCII text the patterns look for. `ToUpper` and `ToLower` cover ASCII and the two non-ASCII letters that upper-case into ASCII.
