/**
 * The two pieces of Go's standard library that the core relies on for
 * numbers and quoting:
 *  - `fmt.Sprintf("%d", n)` on an int64 (FormatInt), used by `Integer.Inspect`;
 *  - `strconv.ParseInt(s, 0, 64)` (ParseInt), used by the parser's integer
 *    literal rule: an optional sign, a base chosen by the prefix (`0b`, `0o`,
 *    `0x`, a leading `0` for octal, otherwise decimal), `_` separators, and the
 *    syntax and range errors with the value Go returns alongside them;
 *  - `strconv.Quote` on ASCII text, which `%q` applies to each string field.
 */
module Strconv {
  import opened Int64

  const MAX_UINT64: int := 0xffff_ffff_ffff_ffff
  /** 2^63: the magnitude of the most negative int64. */
  const CUTOFF: int := 0x8000_0000_0000_0000

  predicate IsDecimalDigit(c: char) { '0' <= c <= '9' }

  predicate AllDecimal(s: string) { forall i :: 0 <= i < |s| ==> IsDecimalDigit(s[i]) }

  function DigitChar(d: nat): (c: char)
    requires d < 10
    ensures IsDecimalDigit(c) && c as int - '0' as int == d
  {
    (d + '0' as int) as char
  }

  /** The decimal digits of a natural number, most significant first. */
  function Digits(n: nat): (s: string)
    ensures |s| > 0 && AllDecimal(s)
    ensures n > 0 ==> s[0] != '0'
    ensures n == 0 ==> s == "0"
  {
    if n < 10 then [DigitChar(n)] else Digits(n / 10) + [DigitChar(n % 10)]
  }

  /** `fmt.Sprintf("%d", n)`: signed decimal text. */
  function FormatInt(n: int): (s: string)
    ensures |s| > 0
    ensures (s[0] == '-') <==> n < 0
  {
    if n < 0 then "-" + Digits(-n) else Digits(n)
  }

  /** The value of a string of decimal digits: the reference reading of decimal text. */
  function DecimalValue(s: string): (v: nat)
    requires AllDecimal(s)
  {
    if s == [] then 0
    else DecimalValue(s[..|s| - 1]) * 10 + (s[|s| - 1] as int - '0' as int)
  }

  /** Go's `lower(c)`, which only matters for ASCII letters. */
  function Lower(c: char): char {
    if 'A' <= c <= 'Z' then (c as int + 32) as char else c
  }

  /** The digit value strconv gives a character: 0-9, then letters as 10-35; 36 stands for "not a digit". */
  function DigitValue(c: char): nat {
    if '0' <= c <= '9' then c as int - '0' as int
    else if 'a' <= Lower(c) <= 'z' then Lower(c) as int - 'a' as int + 10
    else 36
  }

  datatype NumError = NoError | ErrSyntax | ErrRange

  /** The state after scanning the digits: the accumulated value and whether an `_` was skipped. */
  datatype Scan = Scanned(value: nat, underscores: bool) | SyntaxFailure | RangeFailure

  /**
   * The digit loop of `strconv.ParseUint`: left to right, `_` is skipped and
   * remembered, a character that is not a digit of `base` is a syntax error,
   * and a value past the uint64 range is a range error; the first error wins.
   */
  function ScanDigits(s: string, base: nat, n: nat, underscores: bool): (r: Scan)
    requires 2 <= base <= 16 && n <= MAX_UINT64
    ensures r.Scanned? ==> r.value <= MAX_UINT64
  {
    if s == [] then Scanned(n, underscores)
    else if s[0] == '_' then ScanDigits(s[1..], base, n, true)
    else
      var d := DigitValue(s[0]);
      if d >= base then SyntaxFailure
      else if n * base + d > MAX_UINT64 then RangeFailure
      else ScanDigits(s[1..], base, n * base + d, underscores)
  }

  /** What `underscoreOK` has last seen. */
  datatype Seen = Start | Digit | Underscore | Other

  function UnderscoresFrom(s: string, hex: bool, seen: Seen): bool {
    if s == [] then seen != Underscore
    else
      var c := s[0];
      if IsDecimalDigit(c) || (hex && 'a' <= Lower(c) <= 'f') then UnderscoresFrom(s[1..], hex, Digit)
      else if c == '_' then seen == Digit && UnderscoresFrom(s[1..], hex, Underscore)
      else if seen == Underscore then false
      else UnderscoresFrom(s[1..], hex, Other)
  }

  /** `underscoreOK`: every `_` sits between digits, or between a base prefix and a digit. */
  function UnderscoreOK(s: string): bool {
    var t := if |s| >= 1 && (s[0] == '-' || s[0] == '+') then s[1..] else s;
    if |t| >= 2 && t[0] == '0' && Lower(t[1]) in {'b', 'o', 'x'} then
      UnderscoresFrom(t[2..], Lower(t[1]) == 'x', Digit)
    else
      UnderscoresFrom(t, false, Start)
  }

  datatype UintResult = UintResult(value: nat, err: NumError)

  /** `strconv.ParseUint(s, 0, 64)`. */
  function ParseUint(s: string): (r: UintResult)
    ensures r.value <= MAX_UINT64
    ensures r.err == ErrSyntax ==> r.value == 0
    ensures r.err == ErrRange ==> r.value == MAX_UINT64
  {
    if s == [] then UintResult(0, ErrSyntax)
    else
      var base, digits :=
        if s[0] != '0' then 10
        else if |s| >= 3 && Lower(s[1]) == 'b' then 2
        else if |s| >= 3 && Lower(s[1]) == 'o' then 8
        else if |s| >= 3 && Lower(s[1]) == 'x' then 16
        else 8,
        if s[0] != '0' then s
        else if |s| >= 3 && Lower(s[1]) in {'b', 'o', 'x'} then s[2..]
        else s[1..];
      match ScanDigits(digits, base, 0, false)
      case SyntaxFailure => UintResult(0, ErrSyntax)
      case RangeFailure => UintResult(MAX_UINT64, ErrRange)
      case Scanned(n, underscores) =>
        if underscores && !UnderscoreOK(s) then UintResult(0, ErrSyntax) else UintResult(n, NoError)
  }

  datatype ParseResult = ParseResult(value: Int64, err: NumError)

  /**
   * `strconv.ParseInt(s, 0, 64)`: on a syntax error the value is 0, on a range
   * error it is the int64 bound on the side of the sign.
   */
  function ParseInt(s: string): (r: ParseResult)
    ensures r.err == ErrSyntax ==> r.value == 0
    ensures r.err == ErrRange ==> s != [] && ((r.value == MAX && s[0] != '-') || (r.value == MIN && s[0] == '-'))
  {
    if s == [] then ParseResult(0, ErrSyntax)
    else
      var neg := s[0] == '-';
      var u := ParseUint(if s[0] == '+' || s[0] == '-' then s[1..] else s);
      if u.err == ErrSyntax then ParseResult(0, ErrSyntax)
      else if !neg && u.value >= CUTOFF then ParseResult(MAX, ErrRange)
      else if neg && u.value > CUTOFF then ParseResult(MIN, ErrRange)
      else ParseResult(if neg then -(u.value as int) else u.value, NoError)
  }

  /** Appending a digit multiplies the value by ten and adds the digit. */
  lemma DecimalValueAppend(p: string, c: char)
    requires AllDecimal(p) && IsDecimalDigit(c)
    ensures AllDecimal(p + [c])
    ensures DecimalValue(p + [c]) == DecimalValue(p) * 10 + (c as int - '0' as int)
  {
    assert (p + [c])[..|p|] == p;
  }

  /** `Digits` is read back by `DecimalValue`. */
  lemma {:induction false} DigitsValue(n: nat)
    ensures DecimalValue(Digits(n)) == n
  {
    if n >= 10 {
      DigitsValue(n / 10);
      DecimalValueAppend(Digits(n / 10), DigitChar(n % 10));
    } else {
      assert DecimalValue([DigitChar(n)]) == DecimalValue([]) * 10 + n;
    }
  }

  /** A prefix of a digit string never has a larger value than the whole. */
  lemma {:induction false} DecimalPrefixValue(s: string, i: nat)
    requires AllDecimal(s) && i <= |s|
    ensures AllDecimal(s[..i]) && DecimalValue(s[..i]) <= DecimalValue(s)
    decreases |s| - i
  {
    if i < |s| {
      var p := s[..|s| - 1];
      assert p[..i] == s[..i];
      DecimalPrefixValue(p, i);
    } else {
      assert s[..i] == s;
    }
  }

  /** Scanning decimal digits without overflow accumulates exactly their value. */
  lemma {:induction false} ScanDecimal(p: string, s: string, underscores: bool)
    requires AllDecimal(p) && AllDecimal(s) && AllDecimal(p + s)
    requires DecimalValue(p) <= DecimalValue(p + s) <= MAX_UINT64
    ensures ScanDigits(s, 10, DecimalValue(p), underscores) == Scanned(DecimalValue(p + s), underscores)
    decreases |s|
  {
    if s == [] {
      assert p + s == p;
    } else {
      var p' := p + [s[0]];
      DecimalValueAppend(p, s[0]);
      assert p' + s[1..] == p + s;
      assert (p + s)[..|p'|] == p';
      DecimalPrefixValue(p + s, |p'|);
      assert DigitValue(s[0]) == s[0] as int - '0' as int;
      ScanDecimal(p', s[1..], underscores);
    }
  }

  /** A positive number's digits are parsed in base 10 as that number. */
  lemma ParseUintDigits(m: nat)
    requires m <= MAX_UINT64
    ensures ParseUint(Digits(m)) == UintResult(m, NoError)
  {
    var s := Digits(m);
    DigitsValue(m);
    assert [] + s == s;
    ScanDecimal([], s, false);
    if m == 0 {
      assert s == "0";
    }
  }

  /** `strconv.ParseInt(s, 0, 64)` reads back what `%d` prints, for every int64. */
  lemma FormatParseRoundTrip(n: Int64)
    ensures ParseInt(FormatInt(n)) == ParseResult(n, NoError)
  {
    var s := FormatInt(n);
    if n < 0 {
      assert s[1..] == Digits(-(n as int));
      ParseUintDigits(-(n as int));
    } else {
      ParseUintDigits(n);
      assert s[0] != '-' && s[0] != '+';
    }
  }

  /** Decimal literals convert to their value. */
  lemma SmallLiterals()
    ensures ParseInt("0") == ParseResult(0, NoError) && ParseInt("5") == ParseResult(5, NoError)
    ensures ParseInt("10") == ParseResult(10, NoError) && ParseInt("-5") == ParseResult(-5, NoError)
  {
    FormatParseRoundTrip(0);
    FormatParseRoundTrip(5);
    FormatParseRoundTrip(10);
    FormatParseRoundTrip(-5);
    assert FormatInt(0) == "0" && FormatInt(5) == "5" && FormatInt(10) == "10" && FormatInt(-5) == "-5";
  }

  /** A stray letter is a syntax error, reported with value 0. */
  lemma BadLiteral()
    ensures ParseInt("12a") == ParseResult(0, ErrSyntax)
  {
    assert DigitValue('a') == 10;
    assert ScanDigits("a", 10, 12, false) == SyntaxFailure;
    assert ScanDigits("12a", 10, 0, false) == ScanDigits("2a", 10, 1, false) == ScanDigits("a", 10, 12, false);
  }

  /** Base prefixes select the base: `0x` hexadecimal, a bare leading `0` octal, `0b` binary. */
  lemma PrefixedLiterals()
    ensures ParseInt("0x1f") == ParseResult(31, NoError) && ParseInt("017") == ParseResult(15, NoError)
    ensures ParseInt("0b101") == ParseResult(5, NoError)
  {
    HexLiteral();
    OctalLiteral();
    BinaryLiteral();
  }

  lemma HexLiteral()
    ensures ParseInt("0x1f") == ParseResult(31, NoError)
  {
    assert DigitValue('f') == 15;
    assert "0x1f"[2..] == "1f" && "1f"[1..] == "f";
    assert ScanDigits("1f", 16, 0, false) == Scanned(31, false);
  }

  lemma OctalLiteral()
    ensures ParseInt("017") == ParseResult(15, NoError)
  {
    assert "017"[1..] == "17" && "17"[1..] == "7";
    assert ScanDigits("17", 8, 0, false) == Scanned(15, false);
  }

  lemma BinaryLiteral()
    ensures ParseInt("0b101") == ParseResult(5, NoError)
  {
    assert "0b101"[2..] == "101" && "101"[1..] == "01" && "01"[1..] == "1";
    assert ScanDigits("101", 2, 0, false) == Scanned(5, false);
  }

  /** A digit that the legacy octal base does not have is a syntax error. */
  lemma BadOctalLiteral()
    ensures ParseInt("08") == ParseResult(0, ErrSyntax)
  {
    assert "08"[1..] == "8";
    assert ScanDigits("8", 8, 0, false) == SyntaxFailure;
  }

  /** Underscores may separate digits once a base prefix or digit precedes them, but never twice in a row. */
  lemma UnderscoreLiterals()
    ensures ParseInt("1_000") == ParseResult(1000, NoError)
    ensures ParseInt("1__0") == ParseResult(0, ErrSyntax)
  {
    SeparatedLiteral();
    DoubleUnderscoreLiteral();
  }

  lemma SeparatedLiteral()
    ensures ParseInt("1_000") == ParseResult(1000, NoError)
  {
    assert "1_000"[1..] == "_000" && "_000"[1..] == "000";
    assert ScanDigits("1_000", 10, 0, false) == Scanned(1000, true);
    assert UnderscoresFrom("1_000", false, Start);
  }

  lemma DoubleUnderscoreLiteral()
    ensures ParseInt("1__0") == ParseResult(0, ErrSyntax)
  {
    assert "1__0"[1..] == "__0" && "__0"[1..] == "_0" && "_0"[1..] == "0";
    assert ScanDigits("1__0", 10, 0, false) == Scanned(10, true);
    assert !UnderscoresFrom("__0", false, Digit);
    assert !UnderscoreOK("1__0");
  }

  /** Magnitudes past the int64 range are range errors that saturate towards the sign. */
  lemma RangeLimits()
    ensures ParseInt("9223372036854775807") == ParseResult(MAX, NoError)
    ensures ParseInt("9223372036854775808") == ParseResult(MAX, ErrRange)
    ensures ParseInt("-9223372036854775808") == ParseResult(MIN, NoError)
    ensures ParseInt("-9223372036854775809") == ParseResult(MIN, ErrRange)
  {
    MaxLiteral();
    PastMaxLiteral();
    MinLiteral();
    PastMinLiteral();
  }

  lemma MaxLiteral()
    ensures ParseInt("9223372036854775807") == ParseResult(MAX, NoError)
  {
    BoundDigits();
    ParseUintDigits(9223372036854775807);
  }

  lemma PastMaxLiteral()
    ensures ParseInt("9223372036854775808") == ParseResult(MAX, ErrRange)
  {
    BoundDigits();
    ParseUintDigits(9223372036854775808);
  }

  lemma MinLiteral()
    ensures ParseInt("-9223372036854775808") == ParseResult(MIN, NoError)
  {
    BoundDigits();
    ParseUintDigits(9223372036854775808);
    assert "-9223372036854775808"[1..] == "9223372036854775808";
  }

  lemma PastMinLiteral()
    ensures ParseInt("-9223372036854775809") == ParseResult(MIN, ErrRange)
  {
    BoundDigits();
    ParseUintDigits(9223372036854775809);
    assert "-9223372036854775809"[1..] == "9223372036854775809";
  }

  /** The digits of 2^63 - 1, 2^63 and 2^63 + 1. */
  lemma BoundDigits()
    ensures Digits(9223372036854775807) == "9223372036854775807"
    ensures Digits(9223372036854775808) == "9223372036854775808"
    ensures Digits(9223372036854775809) == "9223372036854775809"
  {
    LeadingDigits();
  }

  /** The first eighteen digits the three bounds share. */
  lemma LeadingDigits()
    ensures Digits(922337203685477580) == "922337203685477580"
  {
    assert Digits(92) == Digits(9) + "2";
    assert Digits(922) == Digits(92) + "2";
    assert Digits(9223) == Digits(922) + "3";
    assert Digits(92233) == Digits(9223) + "3";
    assert Digits(922337) == Digits(92233) + "7";
    assert Digits(9223372) == Digits(922337) + "2";
    assert Digits(92233720) == Digits(9223372) + "0";
    assert Digits(922337203) == Digits(92233720) + "3";
    assert Digits(9223372036) == Digits(922337203) + "6";
    assert Digits(92233720368) == Digits(9223372036) + "8";
    assert Digits(922337203685) == Digits(92233720368) + "5";
    assert Digits(9223372036854) == Digits(922337203685) + "4";
    assert Digits(92233720368547) == Digits(9223372036854) + "7";
    assert Digits(922337203685477) == Digits(92233720368547) + "7";
    assert Digits(9223372036854775) == Digits(922337203685477) + "5";
    assert Digits(92233720368547758) == Digits(9223372036854775) + "8";
    assert Digits(922337203685477580) == Digits(92233720368547758) + "0";
    assert Digits(922337203685477580) == "922337203685477580";
  }

  /** The escape `strconv.Quote` writes for one ASCII character. */
  function QuoteChar(c: char): string {
    if c == '"' then "\\\""
    else if c == '\\' then "\\\\"
    else if c == '\U{7}' then "\\a"
    else if c == '\U{8}' then "\\b"
    else if c == '\U{c}' then "\\f"
    else if c == '\n' then "\\n"
    else if c == '\r' then "\\r"
    else if c == '\t' then "\\t"
    else if c == '\U{b}' then "\\v"
    else if c < ' ' || c == '\U{7f}' then
      var hex := "0123456789abcdef";
      "\\x" + [hex[c as int / 16], hex[c as int % 16]]
    else [c]
  }

  function QuoteBody(s: string): string {
    if s == [] then "" else QuoteChar(s[0]) + QuoteBody(s[1..])
  }

  /** `strconv.Quote`: the text in double quotes, with quotes, backslashes and control characters escaped. */
  function Quote(s: string): string {
    "\"" + QuoteBody(s) + "\""
  }

  /** Printable ASCII other than a double quote or a backslash: the characters `strconv.Quote` leaves as they are. */
  predicate PlainText(s: string) {
    forall k :: 0 <= k < |s| ==> ' ' <= s[k] < '\U{7f}' && s[k] != '"' && s[k] != '\\'
  }

  /** Plain text is quoted by wrapping it in double quotes, unchanged. */
  lemma QuotePlain(s: string)
    requires PlainText(s)
    ensures Quote(s) == "\"" + s + "\""
  {
    QuoteBodyPlain(s);
  }

  lemma {:induction false} QuoteBodyPlain(s: string)
    requires PlainText(s)
    ensures QuoteBody(s) == s
  {
    if s != [] {
      QuoteBodyPlain(s[1..]);
      assert s == [s[0]] + s[1..];
    }
  }
}
