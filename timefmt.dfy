/**
 * `format_time` (seconds to "M:SS") and `get_seconds` ("M:SS" to seconds), with the decimal
 * rendering and parsing of Python's `str(int)` and `int(str)` they rely on.
 */
module TimeFormat {
  import opened Wrappers
  import opened Text

  predicate IsDigit(c: char) {
    '0' <= c <= '9'
  }

  predicate AllDigits(s: string) {
    forall i :: 0 <= i < |s| ==> IsDigit(s[i])
  }

  function DigitChar(d: nat): (c: char)
    requires d < 10
    ensures IsDigit(c) && c as int - '0' as int == d
  {
    ('0' as int + d) as char
  }

  /** Value of a string of decimal digits (the empty string has value 0). */
  function DigitsValue(s: string): nat
    requires AllDigits(s)
  {
    if s == [] then 0 else DigitsValue(s[..|s| - 1]) * 10 + (s[|s| - 1] as int - '0' as int)
  }

  /** `str(n)` for a natural number. */
  function NatToString(n: nat): (r: string)
    ensures |r| >= 1 && AllDigits(r)
  {
    if n < 10 then [DigitChar(n)] else NatToString(n / 10) + [DigitChar(n % 10)]
  }

  /** `str(i)` for any integer: a minus sign for a negative number, then the digits. */
  function IntToString(i: int): (r: string)
    ensures |r| >= 1 && (r[0] == '-' <==> i < 0)
    ensures i < 0 ==> |r| >= 2 && AllDigits(r[1..])
    ensures i >= 0 ==> AllDigits(r)
  {
    if i < 0 then "-" + NatToString(-i) else NatToString(i)
  }

  /** The value of a base-10 numeral as `int` accepts it: digits, where a single underscore
      may stand between two digits; `None` for anything else. */
  function NumeralOf(s: string): (r: Option<nat>)
    ensures AllDigits(s) && s != [] ==> r == Some(DigitsValue(s))
    decreases |s|
  {
    if s == [] || !IsDigit(s[|s| - 1]) then None
    else
      var d := s[|s| - 1] as int - '0' as int;
      var p := s[..|s| - 1];
      if p == [] then Some(d)
      else
        var q := if p[|p| - 1] == '_' then p[..|p| - 1] else p;
        match NumeralOf(q)
        case None => None
        case Some(v) => Some(v * 10 + d)
  }

  /** An optional sign and a numeral. */
  function ParseSigned(t: string): Option<int> {
    if |t| >= 1 && (t[0] == '-' || t[0] == '+') then
      match NumeralOf(t[1..])
      case None => None
      case Some(v) => Some(if t[0] == '-' then 0 - v else v)
    else NumeralOf(t)
  }

  /** Python's `int(s)` for a string: surrounding whitespace is stripped, then an optional
      sign and a numeral must follow; anything else is the `ValueError` path, `None`. A string
      of decimal digits parses to its value, and so does one with a leading minus sign, negated. */
  function ParseInt(s: string): (r: Option<int>)
    ensures AllDigits(s) && s != [] ==> r == Some(DigitsValue(s))
    ensures |s| >= 2 && s[0] == '-' && AllDigits(s[1..]) ==> r == Some(0 - DigitsValue(s[1..]) as int)
  {
    DigitsUnstripped(s);
    NegativeUnstripped(s);
    ParseSigned(Strip(s))
  }

  lemma DigitsUnstripped(s: string)
    ensures AllDigits(s) && s != [] ==> Strip(s) == s
  {
  }

  lemma {:induction false} NatToStringValue(n: nat)
    ensures DigitsValue(NatToString(n)) == n
  {
    if n >= 10 {
      NatToStringValue(n / 10);
      var r := NatToString(n);
      assert r[..|r| - 1] == NatToString(n / 10);
    }
  }

  /** Parsing what `str` printed gives the number back, for every integer. */
  lemma ParseIntToString(i: int)
    ensures ParseInt(IntToString(i)) == Some(i)
  {
    if i < 0 {
      ParseNegativeToString(i);
    } else {
      NatToStringValue(i);
    }
  }

  lemma ParseNegativeToString(i: int)
    requires i < 0
    ensures ParseInt(IntToString(i)) == Some(i)
  {
    NegativeDigits(i);
  }

  /** The digits after the minus sign of `str(i)` are those of `str(-i)`. */
  lemma NegativeDigits(i: int)
    requires i < 0
    ensures var t := IntToString(i); t[1..] == NatToString(-i) && DigitsValue(t[1..]) == -i
  {
    NatToStringValue(-i);
  }

  lemma NegativeUnstripped(s: string)
    ensures |s| >= 2 && s[0] == '-' && AllDigits(s[1..]) ==>
              Strip(s) == s
  {
    if |s| >= 2 && s[0] == '-' && AllDigits(s[1..]) {
      assert s[|s| - 1] == s[1..][|s| - 2];
    }
  }

  /** `f"{r:02d}"` for a non-negative number. */
  function Pad2(r: nat): string {
    if r < 10 then ['0', DigitChar(r)] else NatToString(r)
  }

  lemma Pad2TwoDigits(r: nat)
    requires r < 100
    ensures |Pad2(r)| == 2 && AllDigits(Pad2(r)) && DigitsValue(Pad2(r)) == r
  {
    var p := Pad2(r);
    if r < 10 {
      assert p[..1] == ['0'];
      assert p[..1][..0] == [];
      assert DigitsValue(p[..1]) == 0;
      assert p[1] == DigitChar(r);
      assert DigitsValue(p) == 0 * 10 + r;
    } else {
      assert NatToString(r) == NatToString(r / 10) + [DigitChar(r % 10)];
      assert p[..1] == [DigitChar(r / 10)];
      assert p[..1][..0] == [];
      assert DigitsValue(p[..1]) == r / 10;
      assert p[1] == DigitChar(r % 10);
      assert DigitsValue(p) == (r / 10) * 10 + r % 10;
    }
  }

  /** `format_time`: Python's `//` and `%` by 60 floor the quotient and keep the remainder in
      0..59 even for negative input, as Dafny's do. The result ends in ':' and the seconds part:
      exactly two digits whose value is the remainder. */
  function FormatTime(seconds: int): (r: string)
    ensures |r| >= 4 && r[|r| - 3] == ':'
    ensures AllDigits(r[|r| - 2..]) && DigitsValue(r[|r| - 2..]) == seconds % 60 <= 59
  {
    Pad2TwoDigits(seconds % 60);
    var r := IntToString(seconds / 60) + ":" + Pad2(seconds % 60);
    assert r[|r| - 2..] == Pad2(seconds % 60);
    r
  }

  /** The position of the first `c` in `s`. */
  function IndexOfChar(s: string, c: char): (i: nat)
    requires c in s
    ensures i < |s| && s[i] == c && c !in s[..i]
  {
    if s[0] == c then 0 else assert s == [s[0]] + s[1..]; 1 + IndexOfChar(s[1..], c)
  }

  /** Python's `s.split(sep)`: the pieces between separators, always at least one. */
  function Split(s: string, sep: char): (parts: seq<string>)
    ensures |parts| >= 1
    ensures sep !in s ==> parts == [s]
    decreases |s|
  {
    if sep !in s then [s]
    else
      var i := IndexOfChar(s, sep);
      [s[..i]] + Split(s[i + 1..], sep)
  }

  /** Splitting at the first separator yields the part before it, then the pieces of the rest. */
  lemma SplitAtSep(a: string, b: string, sep: char)
    requires sep !in a
    ensures Split(a + [sep] + b, sep) == [a] + Split(b, sep)
  {
    var s := a + [sep] + b;
    assert s[|a|] == sep;
    var i := IndexOfChar(s, sep);
    assert s[..i] == a;
    assert s[i + 1..] == b;
  }

  /** `get_seconds`: "M:SS" to M * 60 + SS. Fewer than two pieces is the `IndexError` path and a
      piece `int` refuses is the `ValueError` path; both are `None`. Pieces after the second are
      ignored, as in the source. */
  function GetSeconds(text: string): (r: Option<int>)
    ensures ':' !in text ==> r.None?
  {
    var parts := Split(text, ':');
    if |parts| < 2 then None
    else
      match (ParseInt(parts[0]), ParseInt(parts[1]))
      case (Some(m), Some(s)) => Some(m * 60 + s)
      case _ => None
  }

  lemma DigitsHaveNoColon(s: string)
    requires AllDigits(s)
    ensures ':' !in s
  {
  }

  lemma IntStringHasNoColon(i: int)
    ensures ':' !in IntToString(i)
  {
    if i < 0 {
      DigitsHaveNoColon(NatToString(-i));
      assert IntToString(i) == ['-'] + NatToString(-i);
    } else {
      DigitsHaveNoColon(NatToString(i));
    }
  }

  /** `format_time(n)` splits at its one ':' into `str(n // 60)` and the padded seconds. */
  lemma SplitFormatTime(n: int)
    ensures Split(FormatTime(n), ':') == [IntToString(n / 60), Pad2(n % 60)]
  {
    var left, right := IntToString(n / 60), Pad2(n % 60);
    assert FormatTime(n) == left + [':'] + right;
    IntStringHasNoColon(n / 60);
    Pad2TwoDigits(n % 60);
    DigitsHaveNoColon(right);
    SplitAtSep(left, right, ':');
  }

  /** `get_seconds(format_time(n)) == n` for every integer, negative ones included. */
  lemma GetSecondsFormatTime(n: int)
    ensures GetSeconds(FormatTime(n)) == Some(n)
  {
    SplitFormatTime(n);
    GetSecondsOfPieces(FormatTime(n), n);
  }

  /** A string that splits into `str(n // 60)` and the padded `n % 60` reads as `n`. */
  lemma GetSecondsOfPieces(text: string, n: int)
    requires Split(text, ':') == [IntToString(n / 60), Pad2(n % 60)]
    ensures GetSeconds(text) == Some(n)
  {
    ParseIntToString(n / 60);
    ParsePad2(n % 60);
    GetSecondsOfParsed(text, n / 60, n % 60);
    assert (n / 60) * 60 + n % 60 == n;
  }

  lemma GetSecondsOfParsed(text: string, m: int, sec: int)
    requires var parts := Split(text, ':');
      |parts| >= 2 && ParseInt(parts[0]) == Some(m) && ParseInt(parts[1]) == Some(sec)
    ensures GetSeconds(text) == Some(m * 60 + sec)
  {
  }

  lemma ParsePad2(r: nat)
    requires r < 100
    ensures ParseInt(Pad2(r)) == Some(r)
  {
    Pad2TwoDigits(r);
  }
}
