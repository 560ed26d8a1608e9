/** The older analyzer's EXPOSE rule: every value from the given argument on is read as an
    integer; a value that is not one is reported, and so is a port below 1024 (a value
    that is not a number reads as port 0).  Unlike the newer rule, no `map[...]` wrapper and
    no protocol suffix is removed first. */
module LegacyExpose {
  import opened Text
  import opened LegacyErrors

  const PrivilegedLimit: int := 1024

  /** What one value contributes: the parse error, if any, then the privileged port error
      for a port below 1024. */
  function PortErrors(value: string): seq<LegacyError> {
    var parsed := Atoi(value);
    var syntax := if parsed.err.Some? then [PortSyntax(value, parsed.err.value)] else [];
    var privileged := if parsed.value < PrivilegedLimit then [PrivilegedPort(parsed.value)] else [];
    syntax + privileged
  }

  /** The errors of the values, in order. */
  function ValuesErrors(values: seq<string>): seq<LegacyError> {
    ConcatMap(PortErrors, values)
  }

  /** Expose.Analyze: `values` are the values of the nodes after the one it is given. */
  method Analyze(values: seq<string>) returns (errs: seq<LegacyError>)
    ensures errs == ValuesErrors(values)
  {
    errs := [];
    for n := 0 to |values|
      invariant errs == ValuesErrors(values[..n])
    {
      var parsed := Atoi(values[n]);
      ghost var before := errs;
      if parsed.err.Some? {
        errs := errs + [PortSyntax(values[n], parsed.err.value)];
      }
      if parsed.value < PrivilegedLimit {
        errs := errs + [PrivilegedPort(parsed.value)];
      }
      assert errs == before + PortErrors(values[n]);
      ConcatMapSnoc(PortErrors, values, n);
    }
    assert values[..|values|] == values;
  }

  /** A port of at least 1024 is accepted. */
  lemma UnprivilegedPortAccepted(n: int)
    requires PrivilegedLimit <= n <= MaxInt64
    ensures PortErrors(IntToString(n)) == []
  {
    AtoiIntToString(n);
  }

  /** A port below 1024, negative ones included, is reported once. */
  lemma PrivilegedPortReported(n: int)
    requires MinInt64 <= n < PrivilegedLimit
    ensures PortErrors(IntToString(n)) == [PrivilegedPort(n)]
  {
    AtoiIntToString(n);
  }

  /** A value without any digit is reported twice: as a syntax error and as port 0. */
  lemma NonNumericReportedTwice(value: string)
    requires forall i :: 0 <= i < |value| ==> !IsDigit(value[i])
    ensures PortErrors(value) == [PortSyntax(value, ErrSyntax), PrivilegedPort(0)]
  {
    AtoiWithoutDigits(value);
  }

  /** Every value Atoi rejects as not a number, with digits in it or not, is reported
      twice: as a syntax error and as port 0. */
  lemma SyntaxErrorReportedTwice(value: string)
    requires Atoi(value).err == Some(ErrSyntax)
    ensures PortErrors(value) == [PortSyntax(value, ErrSyntax), PrivilegedPort(0)]
  {
  }

  /** A value beyond the int64 range gives the range error, and one below it also the
      privileged-port error for the smallest int64. */
  lemma OutOfRangeReported(value: string)
    requires Atoi(value).err == Some(ErrRange)
    ensures PortErrors(value)
         == [PortSyntax(value, ErrRange)] + (if Atoi(value).value == MinInt64 then [PrivilegedPort(MinInt64)] else [])
  {
  }

  /** A value Atoi reads as `n`, however it is spelled, is judged by `n` alone. */
  lemma ParsedPortJudgedByValue(value: string, n: int)
    requires Atoi(value) == AtoiResult(n, None)
    ensures PortErrors(value) == if n < PrivilegedLimit then [PrivilegedPort(n)] else []
  {
  }

  /** Leading zeros and a `+` sign do not change the port: `08080` and `+8080` are port
      8080. */
  lemma SpelledPortJudgedByValue(sign: string, digits: string)
    requires sign == "" || sign == "+"
    requires digits != [] && AllDigits(digits) && DecimalValue(digits) <= MaxInt64
    ensures PortErrors(sign + digits)
         == if DecimalValue(digits) < PrivilegedLimit then [PrivilegedPort(DecimalValue(digits))] else []
  {
    AtoiDigits(digits);
    if sign == "" {
      assert sign + digits == digits;
    }
    ParsedPortJudgedByValue(sign + digits, DecimalValue(digits));
  }

  /** A port followed by a protocol, such as `8080/tcp`, is not understood: it is a syntax
      error and reads as the privileged port 0. */
  lemma ProtocolSuffixRejected(port: string, proto: string)
    requires port != [] && AllDigits(port) && DecimalValue(port) <= MaxUint64
    requires proto != [] && proto[0] == '/'
    ensures PortErrors(port + proto) == [PortSyntax(port + proto, ErrSyntax), PrivilegedPort(0)]
  {
    AtoiTrailingText(port, proto);
  }

  /** Each value is checked on its own. */
  lemma ValuesErrorsAppend(a: seq<string>, b: seq<string>)
    ensures ValuesErrors(a + b) == ValuesErrors(a) + ValuesErrors(b)
  {
    ConcatMapAppend(PortErrors, a, b);
  }

  lemma ValuesErrorsSingle(value: string)
    ensures ValuesErrors([value]) == PortErrors(value)
  {
    ConcatMapSnoc(PortErrors, [value], 0);
    assert [value][..1] == [value] && [value][..0] == [];
  }
}
