/** The older analyzer's RUN rule: a RUN command is split at `&&`, and each part that
    runs chmod or chown is checked for the group permissions OpenShift needs.

    The two regular expressions of the rule are written out as the leftmost match they
    find.  For `chmod\s+(\d+)\s+(.*)`, a match starts at an occurrence of `chmod` followed
    by white space, digits and white space; the group is the whole digit run, because
    giving back a digit cannot make the next character white space.  For
    `(\$*\w+)*:(\$*\w+)`, the prefix before the colon may be empty and the colon cannot
    occur inside it, so the leftmost match uses the first colon followed by `$`s and a
    word character; the group is that run of `$`s and the whole word after it. */
module LegacyRun {
  import opened Text
  import opened Results
  import opened LegacyErrors

  /** The length of the leading run of `$` of `s`. */
  function DollarRun(s: string): (k: nat)
    ensures k <= |s|
    ensures forall i :: 0 <= i < k ==> s[i] == '$'
    ensures k < |s| ==> s[k] != '$'
  {
    if s != [] && s[0] == '$' then 1 + DollarRun(s[1..]) else 0
  }

  predicate IsChmodCommand(s: string) {
    IsCommand(s, "chmod")
  }

  predicate IsChownCommand(s: string) {
    IsCommand(s, "chown")
  }

  // ---------------------------------------------------------------------------
  // chmod

  /** The mode captured by a match of `chmod\s+(\d+)\s+(.*)` starting at `i`, if one does. */
  function ChmodCaptureAt(s: string, i: nat): (r: Option<string>)
    ensures r.Some? ==> r.value != [] && AllDigits(r.value)
  {
    if !OccursAt(s, "chmod", i) then None
    else
      var rest := s[i + 5..];
      var spaces := SpaceRun(rest);
      var tail := rest[spaces..];
      var digits := DigitPrefixLength(tail);
      if spaces >= 1 && digits >= 1 && digits < |tail| && IsRegexSpace(tail[digits]) then Some(tail[..digits])
      else None
  }

  /** `re.FindStringSubmatch(s)[1]` for the chmod pattern: the leftmost match. */
  function ChmodCapture(s: string): (r: Option<string>)
    ensures r.Some? ==> r.value != [] && AllDigits(r.value)
  {
    FirstMatch(j => ChmodCaptureAt(s, j), 0, |s| + 1)
  }

  /** analyzeChmodCommand: the mode must be three digits whose middle (group) digit is 7. */
  function ChmodError(s: string): (r: Option<LegacyError>)
    ensures r.None? <==> ChmodCapture(s).Some? && |ChmodCapture(s).value| == 3 && ChmodCapture(s).value[1] == '7'
    ensures r.Some? ==> r.value == ChmodArgs || r.value == ChmodPermission(s)
    ensures ChmodCapture(s).None? ==> r == Some(ChmodArgs)
  {
    match ChmodCapture(s)
    case None => Some(ChmodArgs)
    case Some(permission) =>
      if |permission| != 3 then Some(ChmodArgs)
      else if permission[1] != '7' then Some(ChmodPermission(s))
      else None
  }

  // ---------------------------------------------------------------------------
  // chown

  /** The group captured by a match of `(\$*\w+)*:(\$*\w+)` using the colon at `c`. */
  function ChownCaptureAt(s: string, c: nat): (r: Option<string>)
    ensures r.Some? ==> r.value != [] && IsWordChar(r.value[|r.value| - 1])
  {
    if c >= |s| || s[c] != ':' then None
    else
      var rest := s[c + 1..];
      var dollars := DollarRun(rest);
      var word := WordRun(rest[dollars..]);
      if word >= 1 then
        assert rest[..dollars + word][dollars + word - 1] == rest[dollars..][word - 1];
        Some(rest[..dollars + word])
      else None
  }

  /** The last group of `re.FindStringSubmatch(s)` for the chown pattern: the leftmost
      match. */
  function ChownCapture(s: string): (r: Option<string>)
    ensures r.Some? ==> r.value != [] && IsWordChar(r.value[|r.value| - 1])
  {
    FirstMatch(j => ChownCaptureAt(s, j), 0, |s|)
  }

  /** analyzeChownCommand: a group, when one is given, must be root or 0. */
  function ChownError(s: string): (r: Option<LegacyError>)
    ensures r.Some? <==> ChownCapture(s).Some? && ToLower(ChownCapture(s).value) != "root" && ChownCapture(s).value != "0"
    ensures r.Some? ==> r.value == ChownGroup(s)
  {
    match ChownCapture(s)
    case None => None
    case Some(group) =>
      if ToLower(group) != "root" && group != "0" then Some(ChownGroup(s)) else None
  }

  // ---------------------------------------------------------------------------
  // The rule

  /** One `&&` part: chmod is checked first, and a chmod part is not chown-checked. */
  function SegmentError(command: string): Option<LegacyError> {
    if IsChmodCommand(command) then ChmodError(command)
    else if IsChownCommand(command) then ChownError(command)
    else None
  }

  /** The errors of the parts, in order. */
  function RunErrors(segments: seq<string>): (r: seq<LegacyError>)
    ensures |r| <= |segments|
  {
    FilterMap(SegmentError, segments)
  }

  /** Run.Analyze */
  method Analyze(value: string) returns (errs: seq<LegacyError>)
    ensures errs == RunErrors(Split(value, "&&"))
    ensures |errs| <= |Split(value, "&&")|
  {
    errs := [];
    var splittedCommands := Split(value, "&&");
    for i := 0 to |splittedCommands|
      invariant errs == RunErrors(splittedCommands[..i])
    {
      var command := splittedCommands[i];
      var err: Option<LegacyError> := None;
      if IsChmodCommand(command) {
        err := ChmodError(command);
      } else if IsChownCommand(command) {
        err := ChownError(command);
      }
      assert err == SegmentError(command);
      FilterMapSnoc(SegmentError, splittedCommands, i);
      errs := errs + OptionList(err);
    }
    assert splittedCommands[..|splittedCommands|] == splittedCommands;
  }

  /** The parts are checked independently: the errors of a concatenation of parts are the
      errors of each, in order. */
  lemma RunErrorsAppend(a: seq<string>, b: seq<string>)
    ensures RunErrors(a + b) == RunErrors(a) + RunErrors(b)
  {
    FilterMapAppend(SegmentError, a, b);
  }

  /** A single part gives at most its own error. */
  lemma RunErrorsSingle(command: string)
    ensures RunErrors([command]) == OptionList(SegmentError(command))
  {
    assert [command][..0] == [];
  }

  /** A part that mentions both commands is only chmod-checked. */
  lemma ChmodTakesPrecedence(command: string)
    requires IsChmodCommand(command) && IsChownCommand(command)
    ensures SegmentError(command) == ChmodError(command)
    ensures SegmentError(command).Some? ==> !SegmentError(command).value.ChownGroup?
  {
  }

  // ---------------------------------------------------------------------------
  // The matchers on the command shapes of the rule's tests

  /** `chmod MODE PATH` captures the whole of MODE. */
  lemma ChmodModeCaptured(mode: string, path: string)
    requires mode != [] && AllDigits(mode)
    ensures ChmodCapture("chmod " + mode + " " + path) == Some(mode)
  {
    var s := "chmod " + mode + " " + path;
    assert s[..5] == "chmod";
    var rest := s[5..];
    assert rest == " " + (mode + " " + path);
    assert SpaceRun(rest) == 1 by {
      assert rest[1..] == mode + " " + path;
      assert !IsRegexSpace(rest[1]);
    }
    var tail := rest[1..];
    DigitPrefixLengthOfConcat(mode, " " + path);
    assert tail == mode + (" " + path);
    assert tail[..|mode|] == mode;
  }

  /** The word run of word characters followed by another character is those characters. */
  lemma {:induction false} WordRunOfPrefix(a: string, b: string)
    requires forall i :: 0 <= i < |a| ==> IsWordChar(a[i])
    requires b != [] && !IsWordChar(b[0])
    ensures WordRun(a + b) == |a|
    decreases |a|
  {
    if a != [] {
      assert (a + b)[1..] == a[1..] + b;
      WordRunOfPrefix(a[1..], b);
    } else {
      assert a + b == b;
    }
  }

  /** For `chmod MODE PATH`: a mode of other than three digits is not understood, and a
      three-digit mode is reported unless its group digit is 7 (as in 070, against 000 and
      700). */
  lemma ChmodModeChecked(mode: string, path: string)
    requires mode != [] && AllDigits(mode)
    ensures var s := "chmod " + mode + " " + path;
      ChmodError(s) == if |mode| != 3 then Some(ChmodArgs)
                       else if mode[1] != '7' then Some(ChmodPermission(s))
                       else None
  {
    ChmodModeCaptured(mode, path);
  }

  /** `OWNER:GROUP REST`, with no colon in OWNER, captures GROUP. */
  lemma ChownGroupCaptured(owner: string, group: string, rest: string)
    requires ':' !in owner
    requires group != [] && forall i :: 0 <= i < |group| ==> IsWordChar(group[i])
    requires rest != [] && !IsWordChar(rest[0])
    ensures ChownCapture(owner + ":" + group + rest) == Some(group)
  {
    var s := owner + ":" + group + rest;
    var c := |owner|;
    forall j | 0 <= j < c
      ensures ChownCaptureAt(s, j).None?
    {
      assert s[j] == owner[j];
    }
    assert s[c] == ':';
    assert s[c + 1..] == group + rest;
    ColonCapturesGroup(s, c, group, rest);
    FirstMatchSkips(j => ChownCaptureAt(s, j), 0, c, |s|);
  }

  /** A colon followed by word characters and then another character captures those word
      characters. */
  lemma ColonCapturesGroup(s: string, c: nat, group: string, rest: string)
    requires c < |s| && s[c] == ':' && s[c + 1..] == group + rest
    requires group != [] && forall i :: 0 <= i < |group| ==> IsWordChar(group[i])
    requires rest != [] && !IsWordChar(rest[0])
    ensures ChownCaptureAt(s, c) == Some(group)
  {
    var after := s[c + 1..];
    assert DollarRun(after) == 0 by {
      assert after[0] == group[0];
    }
    WordRunOfPrefix(group, rest);
    assert after[0..] == after;
    assert after[..|group|] == group;
  }

  /** For `OWNER:GROUP REST`: the group root, in any case, and the group 0 are accepted
      (as in node:root and 1000:0), and any other group is reported (as in node:node and
      1000:1000). */
  lemma ChownGroupChecked(owner: string, group: string, rest: string)
    requires ':' !in owner
    requires group != [] && forall i :: 0 <= i < |group| ==> IsWordChar(group[i])
    requires rest != [] && !IsWordChar(rest[0])
    ensures var s := owner + ":" + group + rest;
      ChownError(s) == if EqualFold(group, "root") || group == "0" then None else Some(ChownGroup(s))
  {
    ChownGroupCaptured(owner, group, rest);
    LowerIsRootIffFold(group);
  }

  /** On word characters, lower-casing gives root exactly when the text equals root
      ignoring case. */
  lemma LowerIsRootIffFold(w: string)
    requires forall i :: 0 <= i < |w| ==> IsWordChar(w[i])
    ensures ToLower(w) == "root" <==> EqualFold(w, "root")
  {
    if |w| == 4 {
      forall i | 0 <= i < 4
        ensures LowerChar(w[i]) == AsciiFold(w[i])
      {
        assert IsWordChar(w[i]);
      }
      if EqualFold(w, "root") {
        assert ToLower(w) == "root" by {
          forall i | 0 <= i < 4 ensures ToLower(w)[i] == "root"[i] {
            assert AsciiFold(w[i]) == AsciiFold("root"[i]);
          }
        }
      }
      if ToLower(w) == "root" {
        forall i | 0 <= i < 4 ensures AsciiFold(w[i]) == AsciiFold("root"[i]) {
          assert ToLower(w)[i] == LowerChar(w[i]);
        }
      }
    } else {
      assert |ToLower(w)| != |"root"|;
    }
  }

  /** An owner without a group is never reported. */
  lemma OwnerOnlyAccepted(s: string)
    requires ':' !in s
    ensures ChownError(s) == None
  {
    forall j | 0 <= j < |s|
      ensures ChownCaptureAt(s, j).None?
    {
      assert s[j] != ':';
    }
  }
}
