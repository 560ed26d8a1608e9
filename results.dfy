/** The findings the rule engine reports, line ranges, and the location text that every
    finding about a particular instruction carries. */
module Results {
  import opened Text
  import opened Constants

  datatype Status = Failed | Pass {
    function Name(): string {
      match this
      case Failed => "failed"
      case Pass => "success"
    }
  }

  datatype Severity = Critical | High | Medium | Low {
    function Name(): string {
      match this
      case Critical => "critical"
      case High => "high"
      case Medium => "medium"
      case Low => "low"
    }
  }

  /** One reported observation (`Result` in the source). */
  datatype Finding = Finding(name: string, status: Status, severity: Severity, description: string)

  datatype Line = Line(start: int, end: int)

  /** The location of an instruction as it appears in a message: the base image it
      comes from, or its line or line range in the analysed target. */
  function GenerateErrorLocation(source: Source, line: Line): (r: string)
    ensures source.kind == Parent ==> r == "in parent image " + source.name
    ensures source.kind == Image ==> HasPrefix(r, "at line ")
  {
    if source.kind == Parent then "in parent image " + source.name
    else "at line " + LineText(line)
  }

  /** `N` for a single line, `S-E` for a range. */
  function LineText(line: Line): string {
    if line.start == line.end then IntToString(line.start)
    else IntToString(line.start) + "-" + IntToString(line.end)
  }

  /** Plain substring containment: a command is recognised wherever its name occurs. */
  predicate IsCommand(text: string, command: string) {
    Contains(text, command)
  }

  lemma IsCommandIsContainment(text: string, command: string)
    ensures IsCommand(text, command) <==> exists j :: OccursAt(text, command, j)
  {
    ContainsIffOccurs(text, command);
  }

  /** The decimal text of an integer: an optional leading minus, then digits only. */
  lemma IntToStringShape(n: int)
    ensures |IntToString(n)| >= 1
    ensures IntToString(n)[0] == '-' <==> n < 0
    ensures n >= 0 ==> IsDigit(IntToString(n)[0])
    ensures forall i :: 1 <= i < |IntToString(n)| ==> IsDigit(IntToString(n)[i])
  {
    var m: nat := if n < 0 then -n else n;
    NatToStringDigits(m);
    if n < 0 {
      assert forall i :: 1 <= i < |IntToString(n)| ==> IntToString(n)[i] == NatToString(m)[i - 1];
    } else {
      assert IsDigit(NatToString(m)[0]);
    }
  }

  lemma IntToStringInjective(x: int, y: int)
    requires IntToString(x) == IntToString(y)
    ensures x == y
  {
    IntToStringShape(x);
    IntToStringShape(y);
    var mx: nat := if x < 0 then -x else x;
    var my: nat := if y < 0 then -y else y;
    NatToStringDigits(mx);
    NatToStringDigits(my);
    if x < 0 {
      assert NatToString(mx) == IntToString(x)[1..] == IntToString(y)[1..] == NatToString(my);
    }
  }

  /** Two line ranges printed the same way are the same range. */
  lemma RangeTextInjective(s1: int, e1: int, s2: int, e2: int)
    requires IntToString(s1) + "-" + IntToString(e1) == IntToString(s2) + "-" + IntToString(e2)
    ensures s1 == s2 && e1 == e2
  {
    var a1, a2 := IntToString(s1), IntToString(s2);
    var t := a1 + "-" + IntToString(e1);
    IntToStringShape(s1);
    IntToStringShape(s2);
    DashAfterNumber(a1, IntToString(e1));
    DashAfterNumber(a2, IntToString(e2));
    assert a1 == t[..|a1|] == a2;
    IntToStringInjective(s1, s2);
    assert IntToString(e1) == t[|a1| + 1..] == IntToString(e2);
    IntToStringInjective(e1, e2);
  }

  /** In `A-B`, where A has only digits after its first character, the first dash after
      the first character is the one after A. */
  lemma DashAfterNumber(a: string, b: string)
    requires |a| >= 1 && forall i :: 1 <= i < |a| ==> IsDigit(a[i])
    ensures Index((a + "-" + b)[1..], "-") == |a| - 1
  {
    var x := (a + "-" + b)[1..];
    assert OccursAt(x, "-", |a| - 1);
    forall j | 0 <= j < |a| - 1
      ensures !OccursAt(x, "-", j)
    {
      assert x[j] == a[j + 1];
    }
  }

  /** In the analysed target, the location text determines the line range. */
  lemma LocationDeterminesLines(source: Source, a: Line, b: Line)
    requires source.kind == Image
    requires GenerateErrorLocation(source, a) == GenerateErrorLocation(source, b)
    ensures a == b
  {
    var la := GenerateErrorLocation(source, a);
    assert LineText(a) == la[8..] == LineText(b);
    if a.start == a.end && b.start == b.end {
      IntToStringInjective(a.start, b.start);
    } else if a.start != a.end && b.start != b.end {
      RangeTextInjective(a.start, a.end, b.start, b.end);
    } else if a.start == a.end {
      SingleIsNotRange(a.start, b.start, b.end);
    } else {
      SingleIsNotRange(b.start, a.start, a.end);
    }
  }

  lemma SingleIsNotRange(x: int, s: int, e: int)
    ensures IntToString(x) != IntToString(s) + "-" + IntToString(e)
  {
    IntToStringShape(x);
    IntToStringShape(s);
    var t := IntToString(s) + "-" + IntToString(e);
    assert t[|IntToString(s)|] == '-';
  }
}
