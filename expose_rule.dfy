/** The EXPOSE rule: each exposed port must be a number of at least 1024.  The argument is
    taken out of a `map[...]` wrapper and cut before its protocol suffix before it is read
    as an integer. */
module ExposeRule {
  import opened Text
  import opened Constants
  import opened Results
  import opened RuleState

  const PrivilegedLimit: int := 1024

  /** The value starts with `map[` and ends with `]`. */
  predicate Wrapped(value: string) {
    HasPrefix(value, "map[") && HasSuffix(value, "]")
  }

  /** The text between the wrapper, when both halves of it are present. */
  function Unwrapped(value: string): (r: string)
    ensures Wrapped(value) ==> |r| + 5 <= |value| && value == "map[" + r + "]"
    ensures !Wrapped(value) ==> r == value
  {
    if Wrapped(value) then
      // "map[" ends in '[', so the closing ']' comes after it
      assert value[3] == "map["[3] && value[|value| - 1] == "]"[0];
      value[4..|value| - 1]
    else value
  }

  /** The port text: the unwrapped value up to its first `/`. */
  function PortText(value: string): (r: string)
    ensures HasPrefix(Unwrapped(value), r)
    ensures '/' !in r
    ensures |r| < |Unwrapped(value)| ==> Unwrapped(value)[|r|] == '/'
  {
    var str := Unwrapped(value);
    var index := Index(str, "/");
    if index >= 0 then
      assert forall j :: 0 <= j < index ==> str[j] != '/' by {
        forall j | 0 <= j < index ensures str[j] != '/' {
          assert !OccursAt(str, "/", j);
        }
      }
      assert str[index..index + 1] == "/";
      str[..index]
    else
      assert forall j :: 0 <= j < |str| ==> str[j] != '/' by {
        forall j | 0 <= j < |str| ensures str[j] != '/' {
          assert !OccursAt(str, "/", j);
        }
      }
      str
  }

  function WrongPortFinding(text: string, e: NumError): Finding {
    Finding("Wrong port value", Failed, Critical, AtoiErrorMessage(text, e))
  }

  function PrivilegedPortFinding(port: int, source: Source, line: Line): Finding {
    Finding("Privileged port exposed", Failed, High,
      "port " + IntToString(port) + " exposed " + GenerateErrorLocation(source, line) + PrivilegedTail)
  }

  const PrivilegedTail: string := " could be wrong. TCP/IP port numbers below 1024 are privileged port numbers"

  /** What one EXPOSE argument contributes: the parse error, if any, then the privileged
      port finding for a port (0 after a syntax error) below 1024. */
  function PortFindings(value: string, source: Source, line: Line): seq<Finding> {
    var text := PortText(value);
    var parsed := Atoi(text);
    var wrong := if parsed.err.Some? then [WrongPortFinding(text, parsed.err.value)] else [];
    var privileged := if parsed.value < PrivilegedLimit then [PrivilegedPortFinding(parsed.value, source, line)] else [];
    wrong + privileged
  }

  /** Expose.Analyze: overwrites the stored findings with this argument's; no other key
      changes. */
  function Analyze(st: State, value: string, source: Source, line: Line): (r: State)
    ensures r.Keys == st.Keys + {ExposeResult}
    ensures Stored(r, ExposeResult) == PortFindings(value, source, line)
    ensures forall k :: k in st && k != ExposeResult ==> r[k] == st[k]
  {
    st[ExposeResult := Findings(PortFindings(value, source, line))]
  }

  /** Expose.PostProcess: the stored findings, or none. */
  function PostProcess(st: State): (r: seq<Finding>)
    ensures ExposeResult !in st ==> r == []
  {
    Stored(st, ExposeResult)
  }

  /** A number printed in decimal is its own port text. */
  lemma NumberIsItsOwnPortText(n: int)
    ensures PortText(IntToString(n)) == IntToString(n)
  {
    Results.IntToStringShape(n);
    var s := IntToString(n);
    assert s[0] != 'm';
    assert !Wrapped(s);
    assert '/' !in s by {
      forall i | 0 <= i < |s| ensures s[i] != '/' {
        if i > 0 { assert IsDigit(s[i]); }
      }
    }
  }

  /** A port of at least 1024 is accepted. */
  lemma UnprivilegedPortAccepted(n: int, source: Source, line: Line)
    requires PrivilegedLimit <= n <= MaxInt64
    ensures PortFindings(IntToString(n), source, line) == []
  {
    NumberIsItsOwnPortText(n);
    AtoiIntToString(n);
  }

  /** A port below 1024, negative ones included, is reported once, as a High finding. */
  lemma PrivilegedPortReported(n: int, source: Source, line: Line)
    requires MinInt64 <= n < PrivilegedLimit
    ensures PortFindings(IntToString(n), source, line) == [PrivilegedPortFinding(n, source, line)]
    ensures PrivilegedPortFinding(n, source, line).severity == High
  {
    NumberIsItsOwnPortText(n);
    AtoiIntToString(n);
  }

  /** A port text without any digit is reported twice: as a Critical parse error and, since
      it reads as port 0, as a privileged port. */
  lemma NonNumericPortReportedTwice(value: string, source: Source, line: Line)
    requires forall i :: 0 <= i < |PortText(value)| ==> !IsDigit(PortText(value)[i])
    ensures PortFindings(value, source, line)
         == [WrongPortFinding(PortText(value), ErrSyntax), PrivilegedPortFinding(0, source, line)]
    ensures PortFindings(value, source, line)[0].severity == Critical
  {
    AtoiWithoutDigits(PortText(value));
  }

  /** Every port text Atoi rejects as not a number, with digits in it or not, is reported
      twice: as a Critical parse error and as the privileged port 0. */
  lemma SyntaxErrorReportedTwice(value: string, source: Source, line: Line)
    requires Atoi(PortText(value)).err == Some(ErrSyntax)
    ensures PortFindings(value, source, line)
         == [WrongPortFinding(PortText(value), ErrSyntax), PrivilegedPortFinding(0, source, line)]
  {
  }

  /** A port text beyond the int64 range gives a Critical range error, and one below it
      also a privileged-port finding for the smallest int64. */
  lemma OutOfRangePortReported(value: string, source: Source, line: Line)
    requires Atoi(PortText(value)).err == Some(ErrRange)
    ensures PortFindings(value, source, line)
         == [WrongPortFinding(PortText(value), ErrRange)]
            + (if Atoi(PortText(value)).value == MinInt64 then [PrivilegedPortFinding(MinInt64, source, line)] else [])
  {
  }

  /** A port text Atoi reads as `n`, however it is spelled, is judged by `n` alone. */
  lemma ParsedPortJudgedByValue(value: string, source: Source, line: Line, n: int)
    requires Atoi(PortText(value)) == AtoiResult(n, None)
    ensures PortFindings(value, source, line)
         == if n < PrivilegedLimit then [PrivilegedPortFinding(n, source, line)] else []
  {
  }

  /** A value that is not wrapped and holds no `/` is its own port text. */
  lemma SlashFreeIsPortText(value: string)
    requires !Wrapped(value) && '/' !in value
    ensures PortText(value) == value
  {
    assert value[..|PortText(value)|] == PortText(value);
  }

  /** A run of digits, signed with `+` or not, is its own port text. */
  lemma SignedDigitsArePortText(sign: string, digits: string)
    requires sign == "" || sign == "+"
    requires digits != [] && AllDigits(digits)
    ensures PortText(sign + digits) == sign + digits
  {
    var v := sign + digits;
    assert v[0] != 'm';
    assert '/' !in v by {
      forall i | 0 <= i < |v| ensures v[i] != '/' {
        if i >= |sign| { assert v[i] == digits[i - |sign|]; }
      }
    }
    SlashFreeIsPortText(v);
  }

  /** Leading zeros and a `+` sign do not change the port: `08080` and `+8080` are port
      8080. */
  lemma SpelledPortJudgedByValue(sign: string, digits: string, source: Source, line: Line)
    requires sign == "" || sign == "+"
    requires digits != [] && AllDigits(digits) && DecimalValue(digits) <= MaxInt64
    ensures PortFindings(sign + digits, source, line)
         == if DecimalValue(digits) < PrivilegedLimit then [PrivilegedPortFinding(DecimalValue(digits), source, line)] else []
  {
    SignedDigitsArePortText(sign, digits);
    AtoiDigits(digits);
    if sign == "" {
      assert sign + digits == digits;
    }
    ParsedPortJudgedByValue(sign + digits, source, line, DecimalValue(digits));
  }

  /** `"8080"`, quote marks included, is its own port text and not a number. */
  lemma QuotedPortIsSyntaxError()
    ensures PortText("\"8080\"") == "\"8080\""
    ensures Atoi("\"8080\"").err == Some(ErrSyntax)
  {
    var v := "\"8080\"";
    assert v[0] != 'm';
    assert '/' !in v;
    SlashFreeIsPortText(v);
    assert DigitPrefixLength(v) == 0;
  }

  /** Quote escapes the quote marks around `8080`. */
  lemma QuotedPortQuoted()
    ensures Quote("\"8080\"") == "\"\\\"8080\\\"\""
  {
    var v := "\"8080\"";
    EscapedPlain("8080");
    EscapedAppend("8080", "\"");
    assert v[1..] == "8080" + "\"";
    assert Escaped(v) == EscapeRune('"') + Escaped(v[1..]);
  }

  /** Quote marks the parser keeps in an EXPOSE argument are escaped in the Critical
      finding: `"8080"` is reported as `strconv.Atoi: parsing "\"8080\"": invalid syntax`. */
  lemma QuotedPortEscaped(source: Source, line: Line)
    ensures PortFindings("\"8080\"", source, line)
         == [WrongPortFinding("\"8080\"", ErrSyntax), PrivilegedPortFinding(0, source, line)]
    ensures WrongPortFinding("\"8080\"", ErrSyntax).description
         == "strconv.Atoi: parsing \"\\\"8080\\\"\": invalid syntax"
  {
    QuotedPortIsSyntaxError();
    SyntaxErrorReportedTwice("\"8080\"", source, line);
    QuotedPortDescription();
  }

  lemma QuotedPortDescription()
    ensures AtoiErrorMessage("\"8080\"", ErrSyntax) == "strconv.Atoi: parsing \"\\\"8080\\\"\": invalid syntax"
  {
    QuotedPortQuoted();
    var q := Quote("\"8080\"");
    assert AtoiErrorMessage("\"8080\"", ErrSyntax) == AtoiParsing + q + ": " + "invalid syntax";
  }

  /** The first `/` of a slash-free port followed by a protocol suffix ends the port. */
  lemma FirstSlashEndsPort(port: string, proto: string)
    requires '/' !in port
    requires proto != [] && proto[0] == '/'
    ensures Index(port + proto, "/") == |port|
  {
    var u := port + proto;
    assert OccursAt(u, "/", |port|) by {
      assert u[|port|..|port| + 1] == [proto[0]];
    }
    forall j | 0 <= j < |port|
      ensures !OccursAt(u, "/", j)
    {
      assert u[j..j + 1] == [port[j]];
    }
  }

  /** The `map[...]` wrapper and the protocol suffix do not change the port text. */
  lemma WrapperAndProtocolIgnored(port: string, proto: string)
    requires '/' !in port
    requires proto != [] && proto[0] == '/'
    ensures PortText("map[" + port + proto + "]") == port
  {
    var v := "map[" + port + proto + "]";
    assert HasPrefix(v, "map[") && HasSuffix(v, "]");
    assert Unwrapped(v) == port + proto;
    FirstSlashEndsPort(port, proto);
    assert (port + proto)[..|port|] == port;
  }

  /** The protocol suffix alone does not change the port text either. */
  lemma ProtocolIgnored(port: string, proto: string)
    requires '/' !in port && !HasPrefix(port, "map[")
    requires proto != [] && proto[0] == '/'
    ensures PortText(port + proto) == port
  {
    var v := port + proto;
    assert !HasPrefix(v, "map[") by {
      if |port| >= 4 {
        assert v[..4] == port[..4];
      } else {
        assert v[|port|] == '/' != "map["[|port|];
      }
    }
    assert Unwrapped(v) == v;
    FirstSlashEndsPort(port, proto);
    assert v[..|port|] == port;
  }

  /** A wrapper missing its closing half is kept as part of the port text. */
  lemma HalfWrapperKept(port: string)
    requires '/' !in port && !HasSuffix(port, "]")
    ensures PortText("map[" + port) == "map[" + port
  {
    var v := "map[" + port;
    assert !HasSuffix(v, "]") by {
      if |port| > 0 {
        assert v[|v| - 1..] == port[|port| - 1..];
      } else {
        assert v == "map[";
      }
    }
    assert '/' !in v;
  }

  /** Only the last EXPOSE argument analysed is reported. */
  lemma LastWriteWins(st: State, v1: string, s1: Source, l1: Line, v2: string, s2: Source, l2: Line)
    ensures PostProcess(Analyze(Analyze(st, v1, s1, l1), v2, s2, l2)) == PortFindings(v2, s2, l2)
  {
  }
}
