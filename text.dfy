/** The pieces of Go's `strings` and `strconv` packages that the image checker uses, over strings
    of Unicode code points.  Each function follows the Go library function it is named
    after; where Go works on UTF-8 bytes the difference does not matter for the ASCII
    patterns the image checker looks for. */
module Text {

  datatype Option<+T> = None | Some(value: T)

  /** The present values of `f` on `xs`, in order. */
  function FilterMap<T, U>(f: T -> Option<U>, xs: seq<T>): (r: seq<U>)
    ensures |r| <= |xs|
  {
    if xs == [] then []
    else FilterMap(f, xs[..|xs| - 1]) + OptionList(f(xs[|xs| - 1]))
  }

  function OptionList<U>(o: Option<U>): (r: seq<U>)
    ensures o.None? <==> r == []
    ensures o.Some? ==> r == [o.value]
  {
    match o
    case None => []
    case Some(x) => [x]
  }

  /** FilterMap over one more element. */
  lemma FilterMapSnoc<T, U>(f: T -> Option<U>, xs: seq<T>, i: nat)
    requires i < |xs|
    ensures FilterMap(f, xs[..i + 1]) == FilterMap(f, xs[..i]) + OptionList(f(xs[i]))
  {
    assert xs[..i + 1][..i] == xs[..i];
  }

  /** Regrouping a concatenation, stated once so that large contexts need not search for it. */
  lemma AppendAssociative<T>(a: seq<T>, b: seq<T>, c: seq<T>)
    ensures a + b + c == a + (b + c)
  {
  }

  /** FilterMap over a concatenation. */
  lemma {:induction false} FilterMapAppend<T, U>(f: T -> Option<U>, a: seq<T>, b: seq<T>)
    ensures FilterMap(f, a + b) == FilterMap(f, a) + FilterMap(f, b)
    decreases |b|
  {
    if b == [] {
      assert a + b == a;
    } else {
      var init := b[..|b| - 1];
      var last := OptionList(f(b[|b| - 1]));
      FilterMapAppend(f, a, init);
      assert (a + b)[..|a + b| - 1] == a + init;
      assert (a + b)[|a + b| - 1] == b[|b| - 1];
      AppendAssociative(FilterMap(f, a), FilterMap(f, init), last);
    }
  }

  /** The first present value of `f` on the positions `i` up to `n`, which is how a
      leftmost match is found. */
  function FirstMatch<T>(f: nat -> Option<T>, i: nat, n: nat): (r: Option<T>)
    ensures r.None? <==> forall j :: i <= j < n ==> f(j).None?
    ensures r.Some? ==> exists j :: i <= j < n && f(j) == r
    decreases n - i
  {
    if i >= n then None
    else if f(i).Some? then f(i)
    else FirstMatch(f, i + 1, n)
  }

  /** The positions before the first present value are passed over. */
  lemma {:induction false} FirstMatchSkips<T>(f: nat -> Option<T>, i: nat, c: nat, n: nat)
    requires i <= c < n
    requires forall j :: i <= j < c ==> f(j).None?
    requires f(c).Some?
    ensures FirstMatch(f, i, n) == f(c)
    decreases c - i
  {
    if i < c {
      FirstMatchSkips(f, i + 1, c, n);
    }
  }

  /** The concatenation of `f` over `xs`, in order. */
  function ConcatMap<T, U>(f: T -> seq<U>, xs: seq<T>): (r: seq<U>)
  {
    if xs == [] then []
    else ConcatMap(f, xs[..|xs| - 1]) + f(xs[|xs| - 1])
  }

  lemma ConcatMapSnoc<T, U>(f: T -> seq<U>, xs: seq<T>, i: nat)
    requires i < |xs|
    ensures ConcatMap(f, xs[..i + 1]) == ConcatMap(f, xs[..i]) + f(xs[i])
  {
    assert xs[..i + 1][..i] == xs[..i];
  }

  lemma {:induction false} ConcatMapAppend<T, U>(f: T -> seq<U>, a: seq<T>, b: seq<T>)
    ensures ConcatMap(f, a + b) == ConcatMap(f, a) + ConcatMap(f, b)
    decreases |b|
  {
    if b == [] {
      assert a + b == a;
    } else {
      var init := b[..|b| - 1];
      ConcatMapAppend(f, a, init);
      assert (a + b)[..|a + b| - 1] == a + init;
      assert (a + b)[|a + b| - 1] == b[|b| - 1];
      AppendAssociative(ConcatMap(f, a), ConcatMap(f, init), f(b[|b| - 1]));
    }
  }

  // ---------------------------------------------------------------------------
  // Prefixes, suffixes, searching

  /** strings.HasPrefix */
  predicate HasPrefix(s: string, prefix: string) {
    |prefix| <= |s| && s[..|prefix|] == prefix
  }

  /** strings.HasSuffix */
  predicate HasSuffix(s: string, suffix: string) {
    |suffix| <= |s| && s[|s| - |suffix|..] == suffix
  }

  /** `sub` occurs in `s` starting at index `i`. */
  predicate OccursAt(s: string, sub: string, i: int) {
    0 <= i && i + |sub| <= |s| && s[i..i + |sub|] == sub
  }

  /** strings.Index: the first index at which `sub` occurs in `s`, or -1. */
  function Index(s: string, sub: string): (r: int)
    ensures -1 <= r
    ensures r >= 0 ==> OccursAt(s, sub, r)
    ensures forall j :: 0 <= j && (r < 0 || j < r) ==> !OccursAt(s, sub, j)
  {
    IndexFrom(s, sub, 0)
  }

  function IndexFrom(s: string, sub: string, i: nat): (r: int)
    ensures r == -1 || i <= r
    ensures r >= 0 ==> OccursAt(s, sub, r)
    ensures forall j :: i <= j && (r < 0 || j < r) ==> !OccursAt(s, sub, j)
    decreases |s| - i
  {
    if i + |sub| > |s| then -1
    else if s[i..i + |sub|] == sub then i
    else IndexFrom(s, sub, i + 1)
  }

  /** strings.Contains */
  predicate Contains(s: string, sub: string) {
    Index(s, sub) >= 0
  }

  lemma ContainsIffOccurs(s: string, sub: string)
    ensures Contains(s, sub) <==> exists j :: OccursAt(s, sub, j)
  {
  }

  /** An occurrence inside a prefix of `s` is an occurrence in `s`. */
  lemma OccursInPrefix(s: string, sub: string, n: nat, j: int)
    requires n <= |s|
    requires OccursAt(s[..n], sub, j)
    ensures OccursAt(s, sub, j)
  {
    assert s[..n][j..j + |sub|] == s[j..j + |sub|];
  }

  /** strings.LastIndexByte for a single character: the last index of `c`, or -1. */
  function LastIndexOf(s: string, c: char): (r: int)
    ensures -1 <= r < |s|
    ensures r >= 0 ==> s[r] == c
    ensures forall j :: r < j < |s| ==> s[j] != c
  {
    if s == [] then -1
    else if s[|s| - 1] == c then |s| - 1
    else
      var r := LastIndexOf(s[..|s| - 1], c);
      assert forall j :: r < j < |s| - 1 ==> s[..|s| - 1][j] == s[j];
      r
  }

  // ---------------------------------------------------------------------------
  // strings.Split and its inverse

  /** strings.Split with a non-empty separator: the pieces between the leftmost
      non-overlapping occurrences of `sep`. */
  function Split(s: string, sep: string): (r: seq<string>)
    requires sep != []
    ensures |r| >= 1
    decreases |s|
  {
    var i := Index(s, sep);
    if i < 0 then [s] else [s[..i]] + Split(s[i + |sep|..], sep)
  }

  /** strings.Join */
  function Join(parts: seq<string>, sep: string): string {
    if parts == [] then ""
    else if |parts| == 1 then parts[0]
    else parts[0] + sep + Join(parts[1..], sep)
  }

  /** Joining the pieces of a split gives back the original string. */
  lemma {:induction false} SplitJoin(s: string, sep: string)
    requires sep != []
    ensures Join(Split(s, sep), sep) == s
    decreases |s|
  {
    var i := Index(s, sep);
    if i >= 0 {
      var rest := Split(s[i + |sep|..], sep);
      SplitJoin(s[i + |sep|..], sep);
      assert ([s[..i]] + rest)[1..] == rest;
      assert s == s[..i] + sep + s[i + |sep|..];
    }
  }

  /** No piece of a split contains the separator. */
  lemma {:induction false} SplitPiecesAvoidSeparator(s: string, sep: string)
    requires sep != []
    ensures forall p :: p in Split(s, sep) ==> !Contains(p, sep)
    decreases |s|
  {
    var i := Index(s, sep);
    if i >= 0 {
      SplitPiecesAvoidSeparator(s[i + |sep|..], sep);
      var head := s[..i];
      if Contains(head, sep) {
        var j := Index(head, sep);
        OccursInPrefix(s, sep, i, j);
        assert false;
      }
    }
  }

  // ---------------------------------------------------------------------------
  // Whitespace

  /** unicode.IsSpace */
  predicate IsSpace(c: char) {
    c == ' ' || c == '\t' || c == '\n' || c == '\U{000B}' || c == '\U{000C}' || c == '\r'
    || c == '\U{0085}' || c == '\U{00A0}' || c == '\U{1680}'
    || ('\U{2000}' <= c <= '\U{200A}')
    || c == '\U{2028}' || c == '\U{2029}' || c == '\U{202F}' || c == '\U{205F}' || c == '\U{3000}'
  }

  function TrimLeftSpace(s: string): (r: string)
    ensures |r| <= |s| && r == s[|s| - |r|..]
    ensures r != [] ==> !IsSpace(r[0])
    ensures forall k :: 0 <= k < |s| - |r| ==> IsSpace(s[k])
  {
    if s != [] && IsSpace(s[0]) then TrimLeftSpace(s[1..]) else s
  }

  function TrimRightSpace(s: string): (r: string)
    ensures |r| <= |s| && r == s[..|r|]
    ensures r != [] ==> !IsSpace(r[|r| - 1])
    ensures forall k :: |r| <= k < |s| ==> IsSpace(s[k])
  {
    if s != [] && IsSpace(s[|s| - 1]) then TrimRightSpace(s[..|s| - 1]) else s
  }

  /** strings.TrimSpace: drops leading and trailing white space. */
  function TrimSpace(s: string): string {
    TrimRightSpace(TrimLeftSpace(s))
  }

  // ---------------------------------------------------------------------------
  // Case mapping.  Only the case mappings that can produce an ASCII character are
  // written out: ASCII letters, and the four non-ASCII letters whose Unicode simple
  // case mapping is an ASCII letter.  The image checker only ever compares mapped strings
  // with ASCII keywords.

  function UpperChar(c: char): (u: char)
    ensures 'a' <= c <= 'z' ==> u as int == c as int - 32
  {
    if 'a' <= c <= 'z' then (c as int - 32) as char
    else if c == '\U{0131}' then 'I'   // dotless i
    else if c == '\U{017F}' then 'S'   // long s
    else c
  }

  function LowerChar(c: char): (l: char)
    ensures 'A' <= c <= 'Z' ==> l as int == c as int + 32
  {
    if 'A' <= c <= 'Z' then (c as int + 32) as char
    else if c == '\U{0130}' then 'i'   // capital I with dot above
    else if c == '\U{212A}' then 'k'   // Kelvin sign
    else c
  }

  /** strings.ToUpper */
  function ToUpper(s: string): (r: string)
    ensures |r| == |s|
    ensures forall i :: 0 <= i < |s| ==> r[i] == UpperChar(s[i])
  {
    seq(|s|, i requires 0 <= i < |s| => UpperChar(s[i]))
  }

  /** strings.ToLower */
  function ToLower(s: string): (r: string)
    ensures |r| == |s|
    ensures forall i :: 0 <= i < |s| ==> r[i] == LowerChar(s[i])
  {
    seq(|s|, i requires 0 <= i < |s| => LowerChar(s[i]))
  }

  /** strings.EqualFold, with ASCII case folding (no non-ASCII letter folds to an
      ASCII letter other than k and s, so this is exact when comparing with "root"). */
  predicate EqualFold(a: string, b: string) {
    |a| == |b| && forall i :: 0 <= i < |a| ==> AsciiFold(a[i]) == AsciiFold(b[i])
  }

  function AsciiFold(c: char): char {
    if 'A' <= c <= 'Z' then (c as int + 32) as char else c
  }

  // ---------------------------------------------------------------------------
  // Decimal integers: fmt's %d and strconv.Atoi on a 64-bit platform

  const MaxInt64: int := 0x7FFF_FFFF_FFFF_FFFF
  const MinInt64: int := -0x8000_0000_0000_0000
  const MaxUint64: int := 0xFFFF_FFFF_FFFF_FFFF

  predicate IsDigit(c: char) {
    '0' <= c <= '9'
  }

  predicate AllDigits(s: string) {
    forall i :: 0 <= i < |s| ==> IsDigit(s[i])
  }

  function DigitValue(c: char): (d: nat)
    ensures d < 10
  {
    if IsDigit(c) then c as int - '0' as int else 0
  }

  function DigitChar(d: nat): (c: char)
    requires d < 10
    ensures IsDigit(c) && DigitValue(c) == d
  {
    ('0' as int + d) as char
  }

  /** The value of a string of decimal digits. */
  function DecimalValue(s: string): nat {
    if s == [] then 0 else 10 * DecimalValue(s[..|s| - 1]) + DigitValue(s[|s| - 1])
  }

  /** The decimal digits of `n`, without leading zeros. */
  function NatToString(n: nat): string
    decreases n
  {
    if n < 10 then [DigitChar(n)] else NatToString(n / 10) + [DigitChar(n % 10)]
  }

  /** fmt.Sprintf("%d", n) */
  function IntToString(n: int): string {
    if n < 0 then "-" + NatToString(-n) else NatToString(n)
  }

  lemma {:induction false} NatToStringDigits(n: nat)
    ensures NatToString(n) != [] && AllDigits(NatToString(n))
    ensures DecimalValue(NatToString(n)) == n
    decreases n
  {
    if n >= 10 {
      NatToStringDigits(n / 10);
      var s := NatToString(n);
      assert s[..|s| - 1] == NatToString(n / 10);
    }
  }

  /** The length of the leading run of decimal digits of `s`. */
  function DigitPrefixLength(s: string): (k: nat)
    ensures k <= |s| && AllDigits(s[..k])
    ensures k < |s| ==> !IsDigit(s[k])
  {
    if s != [] && IsDigit(s[0]) then
      var k := 1 + DigitPrefixLength(s[1..]);
      assert forall i :: 1 <= i < k ==> s[..k][i] == s[1..][..k - 1][i - 1];
      k
    else 0
  }

  /** The leading digit run of digits followed by a non-digit is those digits. */
  lemma {:induction false} DigitPrefixLengthOfConcat(a: string, b: string)
    requires AllDigits(a)
    requires b != [] && !IsDigit(b[0])
    ensures DigitPrefixLength(a + b) == |a|
    decreases |a|
  {
    if a != [] {
      assert (a + b)[1..] == a[1..] + b;
      DigitPrefixLengthOfConcat(a[1..], b);
    } else {
      assert a + b == b;
    }
  }

  // ---------------------------------------------------------------------------
  // Character classes of Go's regular expressions

  /** `\s` in Go's regular expressions. */
  predicate IsRegexSpace(c: char) {
    c == '\t' || c == '\n' || c == '\U{000C}' || c == '\r' || c == ' '
  }

  /** `\w` in Go's regular expressions. */
  predicate IsWordChar(c: char) {
    'a' <= c <= 'z' || 'A' <= c <= 'Z' || '0' <= c <= '9' || c == '_'
  }

  /** The length of the leading run of white space of `s`. */
  function SpaceRun(s: string): (k: nat)
    ensures k <= |s|
    ensures forall i :: 0 <= i < k ==> IsRegexSpace(s[i])
    ensures k < |s| ==> !IsRegexSpace(s[k])
  {
    if s != [] && IsRegexSpace(s[0]) then 1 + SpaceRun(s[1..]) else 0
  }

  /** The length of the leading run of word characters of `s`. */
  function WordRun(s: string): (k: nat)
    ensures k <= |s|
    ensures forall i :: 0 <= i < k ==> IsWordChar(s[i])
    ensures k < |s| ==> !IsWordChar(s[k])
  {
    if s != [] && IsWordChar(s[0]) then 1 + WordRun(s[1..]) else 0
  }

  datatype NumError = ErrSyntax | ErrRange

  /** The (value, error) pair strconv.Atoi returns. */
  datatype AtoiResult = AtoiResult(value: int, err: Option<NumError>)

  /** strconv.Atoi: an optional sign followed by at least one decimal digit.  A syntax
      error gives 0; a value outside the 64-bit range is clamped to the nearest bound and
      reported as a range error, which ParseUint detects as soon as the digits read so far
      overflow, before it looks at a later non-digit. */
  function Atoi(s: string): (r: AtoiResult)
    ensures MinInt64 <= r.value <= MaxInt64
    ensures r.err == Some(ErrSyntax) ==> r.value == 0
    ensures r.err == Some(ErrRange) ==> r.value == MinInt64 || r.value == MaxInt64
    ensures r.err == None ==> s != [] && AllDigits(if s[0] == '-' || s[0] == '+' then s[1..] else s)
  {
    var neg := |s| > 0 && s[0] == '-';
    var body := if |s| > 0 && (s[0] == '-' || s[0] == '+') then s[1..] else s;
    if body == [] then AtoiResult(0, Some(ErrSyntax))
    else
      var k := DigitPrefixLength(body);
      var v: int := DecimalValue(body[..k]);
      if v > MaxUint64 then AtoiResult(if neg then MinInt64 else MaxInt64, Some(ErrRange))
      else if k < |body| then AtoiResult(0, Some(ErrSyntax))
      else if !neg && v > MaxInt64 then AtoiResult(MaxInt64, Some(ErrRange))
      else if neg && v > -MinInt64 then AtoiResult(MinInt64, Some(ErrRange))
      else
        assert body[..k] == body;
        AtoiResult(if neg then -v else v, None)
  }

  /** The text of a NumError's Err. */
  function NumErrorText(e: NumError): string {
    match e
    case ErrSyntax => "invalid syntax"
    case ErrRange => "value out of range"
  }

  const AtoiParsing: string := "strconv.Atoi: parsing "

  /** The text of the *strconv.NumError that Atoi returns: the function, the quoted text
      that failed to parse, and the reason. */
  function AtoiErrorMessage(s: string, e: NumError): string {
    AtoiParsing + Quote(s) + ": " + NumErrorText(e)
  }

  /** The message names the reason last, and the quoted text in it reads back as `s`. */
  lemma AtoiErrorMessageCarriesText(s: string, e: NumError)
    ensures var m := AtoiErrorMessage(s, e);
      HasPrefix(m, AtoiParsing) && HasSuffix(m, ": " + NumErrorText(e))
      && |AtoiParsing| <= |m| - |NumErrorText(e)| - 2
      && Unquote(m[|AtoiParsing|..|m| - |NumErrorText(e)| - 2]) == Some(s)
  {
    var m := AtoiErrorMessage(s, e);
    QuoteRoundTrip(s);
    assert m[..|AtoiParsing|] == AtoiParsing;
    assert m[|m| - |NumErrorText(e)| - 2..] == ": " + NumErrorText(e);
    assert m[|AtoiParsing|..|m| - |NumErrorText(e)| - 2] == Quote(s);
  }

  /** Atoi reads back what %d prints, over the whole 64-bit range. */
  lemma AtoiIntToString(n: int)
    requires MinInt64 <= n <= MaxInt64
    ensures Atoi(IntToString(n)) == AtoiResult(n, None)
  {
    var m: nat := if n < 0 then -n else n;
    NatToStringDigits(m);
    var digits := NatToString(m);
    var s := IntToString(n);
    var body := if s[0] == '-' || s[0] == '+' then s[1..] else s;
    assert body == digits;
    var k := DigitPrefixLength(body);
    assert k == |body|;
    assert body[..k] == digits;
  }

  /** A string without any decimal digit is a syntax error, read as 0. */
  lemma AtoiWithoutDigits(s: string)
    requires forall i :: 0 <= i < |s| ==> !IsDigit(s[i])
    ensures Atoi(s) == AtoiResult(0, Some(ErrSyntax))
  {
    var body := if |s| > 0 && (s[0] == '-' || s[0] == '+') then s[1..] else s;
    if body != [] {
      assert !IsDigit(body[0]);
      assert DigitPrefixLength(body) == 0;
    }
  }

  /** Digits followed by other text are a syntax error, unless the digits alone already
      overflow. */
  lemma AtoiTrailingText(digits: string, suffix: string)
    requires digits != [] && AllDigits(digits) && DecimalValue(digits) <= MaxUint64
    requires suffix != [] && !IsDigit(suffix[0])
    ensures Atoi(digits + suffix) == AtoiResult(0, Some(ErrSyntax))
  {
    var s := digits + suffix;
    assert s[0] == digits[0];
    DigitPrefixLengthOfConcat(digits, suffix);
    assert s[..|digits|] == digits;
  }

  /** Any run of decimal digits within range, leading zeros allowed and with or without a
      `+`, reads as its value. */
  lemma AtoiDigits(digits: string)
    requires digits != [] && AllDigits(digits) && DecimalValue(digits) <= MaxInt64
    ensures Atoi(digits) == AtoiResult(DecimalValue(digits), None)
    ensures Atoi("+" + digits) == AtoiResult(DecimalValue(digits), None)
  {
    assert DigitPrefixLength(digits) == |digits|;
    assert digits[..|digits|] == digits;
    assert ("+" + digits)[1..] == digits;
  }

  // ---------------------------------------------------------------------------
  // strconv.Quote, which a NumError applies to the text that failed to parse

  /** strconv.IsPrint on Latin-1, where Go decides it without its Unicode tables: the
      printable ASCII characters, and U+00A1 to U+00FF except the soft hyphen U+00AD.  Every
      code point above U+00FF is taken as printable. */
  predicate IsPrintable(c: char) {
    var n := c as int;
    if n <= 0xFF then 0x20 <= n <= 0x7E || (0xA1 <= n && n != 0xAD) else true
  }

  /** A lower-case hexadecimal digit. */
  function HexDigit(d: nat): (c: char)
    requires d < 16
    ensures HexDigitValue(c) == Some(d)
  {
    if d < 10 then ('0' as int + d) as char else ('a' as int + d - 10) as char
  }

  /** The value of a hexadecimal digit, either case, as strconv's unhex reads it. */
  function HexDigitValue(c: char): Option<nat> {
    if '0' <= c <= '9' then Some(c as int - '0' as int)
    else if 'a' <= c <= 'f' then Some(c as int - 'a' as int + 10)
    else if 'A' <= c <= 'F' then Some(c as int - 'A' as int + 10)
    else None
  }

  function Pow16(k: nat): (p: nat)
    ensures p >= 1
  {
    if k == 0 then 1 else 16 * Pow16(k - 1)
  }

  /** The last `width` hexadecimal digits of `n`, most significant first. */
  function Hex(n: nat, width: nat): (h: string)
    ensures |h| == width
  {
    if width == 0 then [] else Hex(n / 16, width - 1) + [HexDigit(n % 16)]
  }

  /** The value of a string of hexadecimal digits, or None when one is not a digit. */
  function HexValue(h: string): Option<nat> {
    if h == [] then Some(0)
    else match (HexValue(h[..|h| - 1]), HexDigitValue(h[|h| - 1]))
      case (Some(high), Some(low)) => Some(16 * high + low)
      case _ => None
  }

  /** `width` hexadecimal digits read back as the number they print. */
  lemma {:induction false} HexValueOfHex(n: nat, width: nat)
    requires n < Pow16(width)
    ensures HexValue(Hex(n, width)) == Some(n)
    decreases width
  {
    if width > 0 {
      var h := Hex(n, width);
      assert h[..width - 1] == Hex(n / 16, width - 1);
      assert n / 16 < Pow16(width - 1);
      HexValueOfHex(n / 16, width - 1);
      assert HexDigitValue(h[width - 1]) == Some(n % 16);
    }
  }

  /** The escape of one code point, as strconv's appendEscapedRune writes it with `"` as the
      quote.  `\U` escapes do not arise, as every code point above U+00FF is printable. */
  function EscapeRune(c: char): string {
    if c == '"' || c == '\\' then ['\\', c]
    else if IsPrintable(c) then [c]
    else if c == '\U{0007}' then "\\a"
    else if c == '\U{0008}' then "\\b"
    else if c == '\U{000C}' then "\\f"
    else if c == '\n' then "\\n"
    else if c == '\r' then "\\r"
    else if c == '\t' then "\\t"
    else if c == '\U{000B}' then "\\v"
    else if c < ' ' || c == '\U{007F}' then "\\x" + Hex(c as int, 2)
    else "\\u" + Hex(c as int, 4)
  }

  /** The escapes of all code points, in order. */
  function Escaped(s: string): string
    decreases |s|
  {
    if s == [] then [] else EscapeRune(s[0]) + Escaped(s[1..])
  }

  /** Escaping works code point by code point. */
  lemma {:induction false} EscapedAppend(a: string, b: string)
    ensures Escaped(a + b) == Escaped(a) + Escaped(b)
    decreases |a|
  {
    if a != [] {
      assert (a + b)[0] == a[0] && (a + b)[1..] == a[1..] + b;
      EscapedAppend(a[1..], b);
      AppendAssociative(EscapeRune(a[0]), Escaped(a[1..]), Escaped(b));
    } else {
      assert a + b == b;
    }
  }

  /** strconv.Quote: a double-quoted Go string literal for `s`. */
  function Quote(s: string): string {
    "\"" + Escaped(s) + "\""
  }

  // Reading a quoted literal back, after strconv.Unquote, as the partner of Quote.

  /** The code point a one-letter escape stands for. */
  function SimpleEscape(e: char): Option<char> {
    if e == 'a' then Some('\U{0007}')
    else if e == 'b' then Some('\U{0008}')
    else if e == 'f' then Some('\U{000C}')
    else if e == 'n' then Some('\n')
    else if e == 'r' then Some('\r')
    else if e == 't' then Some('\t')
    else if e == 'v' then Some('\U{000B}')
    else if e == '\\' || e == '"' then Some(e)
    else None
  }

  /** The number of hexadecimal digits after `\x`, `\u` and `\U`; 0 for any other letter. */
  function HexEscapeWidth(e: char): (w: nat)
    ensures w <= 8
  {
    if e == 'x' then 2 else if e == 'u' then 4 else if e == 'U' then 8 else 0
  }

  predicate IsScalarValue(v: int) {
    0 <= v < 0xD800 || 0xE000 <= v < 0x11_0000
  }

  function Prepend(c: char, rest: Option<string>): (r: Option<string>)
    ensures r.Some? <==> rest.Some?
    ensures rest.Some? ==> r.value == [c] + rest.value
  {
    match rest
    case None => None
    case Some(t) => Some([c] + t)
  }

  /** The code points the body of a double-quoted literal stands for, or None when it holds
      a bare `"` or an escape that is not one.  A `\x` escape must give an ASCII code point,
      since higher ones stand for a single byte. */
  function Unescape(t: string): (r: Option<string>)
    decreases |t|
  {
    if t == [] then Some([])
    else if t[0] == '"' then None
    else if t[0] != '\\' then Prepend(t[0], Unescape(t[1..]))
    else if |t| < 2 then None
    else if SimpleEscape(t[1]).Some? then Prepend(SimpleEscape(t[1]).value, Unescape(t[2..]))
    else
      var w := HexEscapeWidth(t[1]);
      if w == 0 || |t| < 2 + w then None
      else match HexValue(t[2..2 + w])
        case None => None
        case Some(v) =>
          if IsScalarValue(v) && (t[1] != 'x' || v < 0x80) then Prepend(v as char, Unescape(t[2 + w..]))
          else None
  }

  /** strconv.Unquote on a double-quoted literal. */
  function Unquote(q: string): Option<string> {
    if |q| >= 2 && q[0] == '"' && q[|q| - 1] == '"' then Unescape(q[1..|q| - 1]) else None
  }

  /** Reading past the escape of one code point gives that code point. */
  lemma UnescapeRune(c: char, rest: string)
    ensures Unescape(EscapeRune(c) + rest) == Prepend(c, Unescape(rest))
  {
    var e := EscapeRune(c);
    var t := e + rest;
    var n := c as int;
    if c == '"' || c == '\\' || IsPrintable(c) {
      assert t[|e|..] == rest;
    } else if c < ' ' || c == '\U{007F}' {
      if SimpleEscape(t[1]).None? {
        assert e == "\\x" + Hex(n, 2);
        assert t[2..4] == Hex(n, 2) && t[4..] == rest;
        HexValueOfHex(n, 2);
      } else {
        assert t[2..] == rest;
      }
    } else {
      assert n <= 0xFF;
      assert e == "\\u" + Hex(n, 4);
      assert t[2..6] == Hex(n, 4) && t[6..] == rest;
      HexValueOfHex(n, 4);
    }
  }

  lemma {:induction false} UnescapeEscaped(s: string)
    ensures Unescape(Escaped(s)) == Some(s)
    decreases |s|
  {
    if s != [] {
      UnescapeRune(s[0], Escaped(s[1..]));
      UnescapeEscaped(s[1..]);
      assert [s[0]] + s[1..] == s;
    }
  }

  /** Unquote reads back what Quote writes. */
  lemma QuoteRoundTrip(s: string)
    ensures Unquote(Quote(s)) == Some(s)
  {
    var q := Quote(s);
    assert q[1..|q| - 1] == Escaped(s);
    UnescapeEscaped(s);
  }

  /** A text of printable code points with neither `"` nor `\\` is quoted as it is. */
  lemma QuotePlain(s: string)
    requires forall i :: 0 <= i < |s| ==> IsPrintable(s[i]) && s[i] != '"' && s[i] != '\\'
    ensures Quote(s) == "\"" + s + "\""
  {
    EscapedPlain(s);
  }

  lemma {:induction false} EscapedPlain(s: string)
    requires forall i :: 0 <= i < |s| ==> IsPrintable(s[i]) && s[i] != '"' && s[i] != '\\'
    ensures Escaped(s) == s
    decreases |s|
  {
    if s != [] {
      assert EscapeRune(s[0]) == [s[0]];
      EscapedPlain(s[1..]);
      assert [s[0]] + s[1..] == s;
    }
  }
}
