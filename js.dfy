/** The JavaScript built-ins the handlers lean on: truthiness of request
    fields, `parseInt`, `String.prototype.split` with a one-character
    separator, `startsWith` and substring containment. */
module Js {
  import opened Base

  // ---------------------------------------------------------------------------
  // Truthiness of optional request fields (`None` stands for undefined/null)
  // ---------------------------------------------------------------------------

  /** A string field is truthy when present and non-empty. */
  predicate TruthyStr(s: Option<string>) {
    s.Some? && s.value != ""
  }

  /** An integer field is truthy when present and not 0. */
  predicate TruthyInt(x: Option<int>) {
    x.Some? && x.value != 0
  }

  /** A JSON number is truthy when present and not 0 (JSON has no NaN). */
  predicate TruthyNum(x: Option<real>) {
    x.Some? && x.value != 0.0
  }

  /** `field || fallback` for a string field. */
  function OrStr(field: Option<string>, fallback: string): string {
    if TruthyStr(field) then field.value else fallback
  }

  // ---------------------------------------------------------------------------
  // parseInt(s) with the default radix, on decimal input
  // ---------------------------------------------------------------------------

  predicate IsDigit(c: char) {
    '0' <= c <= '9'
  }

  predicate AllDigits(d: string) {
    forall i :: 0 <= i < |d| ==> IsDigit(d[i])
  }

  /** The white space parseInt skips before the number. */
  predicate IsSpace(c: char) {
    c == ' ' || c == '\t' || c == '\n' || c == '\r' || c == '\U{000B}' || c == '\U{000C}'
    || c == '\U{00A0}' || c == '\U{FEFF}'
  }

  function TrimStart(s: string): (r: string)
    ensures |r| <= |s| && r == s[|s| - |r|..]
    ensures r == [] || !IsSpace(r[0])
  {
    if s != [] && IsSpace(s[0]) then TrimStart(s[1..]) else s
  }

  /** Length of the longest prefix of `s` made of digits. */
  function LeadingDigits(s: string): (n: nat)
    ensures n <= |s| && AllDigits(s[..n])
    ensures n < |s| ==> !IsDigit(s[n])
  {
    if s == [] || !IsDigit(s[0]) then 0 else 1 + LeadingDigits(s[1..])
  }

  function DigitValue(c: char): (v: nat)
    requires IsDigit(c)
    ensures v < 10
  {
    (c as int) - ('0' as int)
  }

  /** The value of a string of decimal digits, most significant first. */
  function DecimalValue(d: string): nat
    requires AllDigits(d)
  {
    if d == [] then 0 else DecimalValue(d[..|d| - 1]) * 10 + DigitValue(d[|d| - 1])
  }

  /** The longest run of digits at the start of `u`, read in decimal; none
      at all is NaN (`None`). */
  function LeadingNumber(u: string): Option<nat> {
    var n := LeadingDigits(u);
    if n == 0 then None else Some(DecimalValue(u[..n]))
  }

  function Negate(x: Option<nat>): Option<int> {
    match x
    case None => None
    case Some(v) => Some(-(v as int))
  }

  /** parseInt: skip leading white space, take an optional sign, then the
      longest run of digits; no digit at all gives NaN (`None`). */
  function ParseInt(s: string): (r: Option<int>)
  {
    var t := TrimStart(s);
    if t != [] && t[0] == '-' then Negate(LeadingNumber(t[1..]))
    else if t != [] && t[0] == '+' then
      (match LeadingNumber(t[1..]) case None => None case Some(v) => Some(v))
    else
      (match LeadingNumber(t) case None => None case Some(v) => Some(v))
  }

  // ---------------------------------------------------------------------------
  // Number(s) on a string, for integer text
  // ---------------------------------------------------------------------------

  function TrimEnd(s: string): (r: string)
    ensures |r| <= |s| && r == s[..|r|]
    ensures r == [] || !IsSpace(r[|r| - 1])
  {
    if s != [] && IsSpace(s[|s| - 1]) then TrimEnd(s[..|s| - 1]) else s
  }

  /** Number(s): white space around the text is ignored, empty text is 0,
      and anything but an optional sign followed by digits is NaN. */
  function NumberOf(s: string): Option<int> {
    var t := TrimEnd(TrimStart(s));
    if t == [] then Some(0)
    else if t[0] == '-' then (if |t| > 1 && AllDigits(t[1..]) then Some(-(DecimalValue(t[1..]) as int)) else None)
    else if t[0] == '+' then (if |t| > 1 && AllDigits(t[1..]) then Some(DecimalValue(t[1..]) as int) else None)
    else if AllDigits(t) then Some(DecimalValue(t) as int)
    else None
  }

  // ---------------------------------------------------------------------------
  // Decimal rendering of an integer (the partner of ParseInt)
  // ---------------------------------------------------------------------------

  function DigitChar(d: nat): (c: char)
    requires d < 10
    ensures IsDigit(c) && DigitValue(c) == d
  {
    ('0' as int + d) as char
  }

  function NatDigits(n: nat): (d: string)
    ensures |d| >= 1 && AllDigits(d)
  {
    if n < 10 then [DigitChar(n)] else NatDigits(n / 10) + [DigitChar(n % 10)]
  }

  function Decimal(n: int): string {
    if n < 0 then "-" + NatDigits(-n) else NatDigits(n)
  }

  lemma {:induction false} NatDigitsValue(n: nat)
    ensures DecimalValue(NatDigits(n)) == n
  {
    var d := NatDigits(n);
    if n >= 10 {
      NatDigitsValue(n / 10);
      assert d[..|d| - 1] == NatDigits(n / 10);
    }
  }

  lemma {:induction false} LeadingDigitsOfDigits(d: string, rest: string)
    requires AllDigits(d)
    requires rest == [] || !IsDigit(rest[0])
    ensures LeadingDigits(d + rest) == |d|
  {
    if d != [] {
      assert (d + rest)[1..] == d[1..] + rest;
      LeadingDigitsOfDigits(d[1..], rest);
    }
  }

  /** A run of digits followed by a non-digit reads as the run. */
  lemma LeadingNumberOfDigits(d: string, rest: string)
    requires |d| >= 1 && AllDigits(d)
    requires rest == [] || !IsDigit(rest[0])
    ensures LeadingNumber(d + rest) == Some(DecimalValue(d))
  {
    LeadingDigitsOfDigits(d, rest);
    assert (d + rest)[..|d|] == d;
  }

  lemma ParseIntOfDigits(d: string, rest: string)
    requires |d| >= 1 && AllDigits(d)
    requires rest == [] || !IsDigit(rest[0])
    ensures ParseInt(d + rest) == Some(DecimalValue(d) as int)
  {
    var s := d + rest;
    assert !IsSpace(s[0]) && s[0] != '-' && s[0] != '+';
    assert TrimStart(s) == s;
    LeadingNumberOfDigits(d, rest);
  }

  /** A minus sign in front negates what follows. */
  lemma ParseIntAfterMinus(u: string, x: nat)
    requires LeadingNumber(u) == Some(x)
    ensures ParseInt(['-'] + u) == Some(-(x as int))
  {
    var s := ['-'] + u;
    assert s[0] == '-' && s[1..] == u;
    assert TrimStart(s) == s;
  }

  /** parseInt reads back any integer written in decimal, whatever non-digit
      text follows it ("42abc" gives 42). */
  lemma ParseIntOfDecimal(n: int, rest: string)
    requires rest == [] || !IsDigit(rest[0])
    ensures ParseInt(Decimal(n) + rest) == Some(n)
  {
    if n < 0 {
      var d := NatDigits(-n);
      assert Decimal(n) + rest == ['-'] + (d + rest) by {
        assert Decimal(n) == "-" + d;
      }
      NatDigitsValue(-n);
      LeadingNumberOfDigits(d, rest);
      ParseIntAfterMinus(d + rest, -n);
    } else {
      NatDigitsValue(n);
      ParseIntOfDigits(NatDigits(n), rest);
    }
  }

  lemma TrimmedAlready(s: string)
    requires s != [] && !IsSpace(s[0]) && !IsSpace(s[|s| - 1])
    ensures TrimEnd(TrimStart(s)) == s
  {
  }

  /** Number reads back any integer written in decimal. */
  lemma NumberOfDecimal(n: int)
    ensures NumberOf(Decimal(n)) == Some(n)
  {
    var d := Decimal(n);
    if n < 0 {
      var e := NatDigits(-n);
      assert d == ['-'] + e;
      assert d[1..] == e;
      TrimmedAlready(d);
      NatDigitsValue(-n);
    } else {
      TrimmedAlready(d);
      NatDigitsValue(n);
    }
  }

  /** TrimEnd keeps every character up to the last one that is not white
      space. */
  lemma {:induction false} TrimEndKeeps(s: string, i: int)
    requires 0 <= i < |s| && !IsSpace(s[i])
    ensures i < |TrimEnd(s)|
  {
    if IsSpace(s[|s| - 1]) {
      TrimEndKeeps(s[..|s| - 1], i);
    }
  }

  /** A non-digit after the first character of the trimmed text makes it
      NaN for Number. */
  lemma NumberOfNonDigit(s: string, p: int)
    requires 1 <= p < |TrimEnd(TrimStart(s))| && !IsDigit(TrimEnd(TrimStart(s))[p])
    ensures NumberOf(s) == None
  {
    var t := TrimEnd(TrimStart(s));
    if t[0] == '-' || t[0] == '+' {
      assert !AllDigits(t[1..]) by {
        assert t[1..][p - 1] == t[p];
      }
    } else {
      assert !AllDigits(t);
    }
  }

  /** Unlike parseInt, Number refuses text that trails after the digits of
      an integer ("12ab", "7 px", "-3/4"). The trailing text starts with a
      character that cannot continue a JavaScript numeric literal, and is
      not all white space, which Number would ignore. */
  lemma NumberOfTrailingText(n: int, rest: string)
    requires rest != [] && !IsDigit(rest[0]) && rest[0] !in ".eE"
    requires n == 0 ==> rest[0] !in "xXbBoO"
    requires exists i :: 0 <= i < |rest| && !IsSpace(rest[i])
    ensures ParseInt(Decimal(n) + rest) == Some(n)
    ensures NumberOf(Decimal(n) + rest) == None
  {
    ParseIntOfDecimal(n, rest);
    var d := Decimal(n);
    var s := d + rest;
    assert !IsSpace(s[0]) by {
      assert s[0] == d[0];
      assert d[0] == '-' || IsDigit(d[0]);
    }
    assert TrimStart(s) == s;
    var j :| 0 <= j < |rest| && !IsSpace(rest[j]);
    assert s[|d| + j] == rest[j];
    TrimEndKeeps(s, |d| + j);
    assert TrimEnd(TrimStart(s))[|d|] == rest[0];
    NumberOfNonDigit(s, |d|);
  }

  /** Text with no digit after the white space and the sign is NaN. */
  lemma ParseIntNaN(s: string)
    requires var t := TrimStart(s);
      var u := if t != [] && (t[0] == '-' || t[0] == '+') then t[1..] else t;
      u == [] || !IsDigit(u[0])
    ensures ParseInt(s) == None
  {
  }

  // ---------------------------------------------------------------------------
  // split(c) on a one-character separator, and its inverse join(c)
  // ---------------------------------------------------------------------------

  /** `s.split(c)`: the pieces between occurrences of `c`, empty pieces kept. */
  function Split(s: string, c: char): (parts: seq<string>)
    ensures |parts| >= 1
    ensures forall i :: 0 <= i < |parts| ==> c !in parts[i]
  {
    if s == [] then [""]
    else
      var rest := Split(s[1..], c);
      if s[0] == c then [""] + rest else [[s[0]] + rest[0]] + rest[1..]
  }

  function Join(parts: seq<string>, c: char): string
    requires |parts| >= 1
  {
    if |parts| == 1 then parts[0] else parts[0] + [c] + Join(parts[1..], c)
  }

  /** Splitting loses nothing: joining the pieces back gives the input. */
  lemma {:induction false} JoinSplit(s: string, c: char)
    ensures Join(Split(s, c), c) == s
  {
    if s != [] {
      var rest := Split(s[1..], c);
      JoinSplit(s[1..], c);
      if s[0] == c {
        assert Split(s, c)[1..] == rest;
      } else {
        var parts := Split(s, c);
        if |rest| == 1 {
          assert parts == [[s[0]] + rest[0]];
        } else {
          assert parts[1..] == rest[1..];
          assert Join(rest, c) == rest[0] + [c] + Join(rest[1..], c);
        }
      }
    }
  }

  /** A piece free of the separator, followed by the separator, is the first
      piece, and the remaining text is split on its own. */
  lemma {:induction false} SplitAfterPiece(a: string, b: string, c: char)
    requires c !in a
    ensures Split(a + [c] + b, c) == [a] + Split(b, c)
  {
    if a != [] {
      assert (a + [c] + b)[1..] == a[1..] + [c] + b;
      SplitAfterPiece(a[1..], b, c);
      assert [a[0]] + a[1..] == a;
    } else {
      assert (a + [c] + b)[1..] == b;
    }
  }

  /** There is more than one piece exactly when the separator occurs. */
  lemma {:induction false} SplitSinglePiece(s: string, c: char)
    ensures |Split(s, c)| == 1 <==> c !in s
  {
    if s != [] {
      SplitSinglePiece(s[1..], c);
      assert s == [s[0]] + s[1..];
    }
  }

  /** Text free of the separator is one piece. */
  lemma {:induction false} SplitNoSeparator(a: string, c: char)
    requires c !in a
    ensures Split(a, c) == [a]
  {
    if a != [] {
      SplitNoSeparator(a[1..], c);
      assert [a[0]] + a[1..] == a;
    }
  }

  // ---------------------------------------------------------------------------
  // startsWith and substring containment
  // ---------------------------------------------------------------------------

  predicate StartsWith(s: string, prefix: string) {
    |prefix| <= |s| && s[..|prefix|] == prefix
  }

  /** `q` occurs in `s` at position `i`. */
  predicate OccursAt(s: string, q: string, i: int) {
    0 <= i && i + |q| <= |s| && s[i..i + |q|] == q
  }

  /** SQL `LIKE '%q%'` as Prisma's `contains` filter issues it. */
  predicate Contains(s: string, q: string) {
    exists i | 0 <= i <= |s| - |q| :: OccursAt(s, q, i)
  }
}
