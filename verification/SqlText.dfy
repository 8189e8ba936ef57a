/**
 The SQL text the store writes, and a reader for it.  Character literals follow
 subclause 5.3 of ISO/IEC 9075-2: a quote inside a literal is written twice.
 */
module SqlText {
  import opened Strings
  import opened Wrappers

  /** The kinds of column value the store tells apart; `Other` stands for every further kind. */
  datatype SqlValue = Int64(value: i64) | Text(text: string) | Other

  // Writing

  function Digit(n: int): char
    requires 0 <= n < 10
  {
    '0' + n as char
  }

  function NatText(n: nat): string {
    if n < 10 then [Digit(n)] else NatText(n / 10) + [Digit(n % 10)]
  }

  /** Rust's `Display` for an integer. */
  function IntText(n: int): string {
    if n < 0 then "-" + NatText(-n) else NatText(n)
  }

  /** `value.replace('\'', "''")` */
  function DoubleQuotes(value: string): string {
    if value == "" then ""
    else (if value[0] == '\'' then "''" else [value[0]]) + DoubleQuotes(value[1..])
  }

  function SqlTextLiteral(value: string): string {
    "'" + DoubleQuotes(value) + "'"
  }

  function Literal(v: SqlValue): string
    requires !v.Other?
  {
    match v
    case Int64(n) => IntText(n)
    case Text(t) => SqlTextLiteral(t)
  }

  // Reading

  predicate IsDigit(c: char) {
    '0' <= c <= '9'
  }

  /** How many digits `s` starts with. */
  function DigitRun(s: string): (n: nat)
    ensures n <= |s|
  {
    if s == "" || !IsDigit(s[0]) then 0 else 1 + DigitRun(s[1..])
  }

  function DigitsValue(ds: string): nat
    requires forall i :: 0 <= i < |ds| ==> IsDigit(ds[i])
  {
    if ds == "" then
      0
    else
      assert IsDigit(ds[|ds| - 1]);
      DigitsValue(ds[..|ds| - 1]) * 10 + (ds[|ds| - 1] as int - '0' as int)
  }

  lemma {:induction false} DigitRunIsDigits(s: string)
    ensures forall i :: 0 <= i < DigitRun(s) ==> IsDigit(s[i])
  {
    if s != "" && IsDigit(s[0]) {
      DigitRunIsDigits(s[1..]);
    }
  }

  /** A signed integer literal and the text after it. */
  function ReadInt(s: string): Option<(i64, string)> {
    var negative := s != "" && s[0] == '-';
    var digits := if negative then s[1..] else s;
    var n := DigitRun(digits);
    DigitRunIsDigits(digits);
    if n == 0 then
      None
    else
      var magnitude: int := DigitsValue(digits[..n]);
      var value := if negative then -magnitude else magnitude;
      if I64_MIN <= value <= I64_MAX then Some((value, digits[n..])) else None
  }

  /** The value of a character literal whose opening quote was read, and the text after it. */
  function ReadQuoted(s: string): Option<(string, string)> {
    if s == "" then
      None
    else if s[0] == '\'' && !(|s| >= 2 && s[1] == '\'') then
      Some(("", s[1..]))
    else
      match ReadQuoted(s[if s[0] == '\'' then 2 else 1..])
      case None => None
      case Some((value, rest)) => Some(([s[0]] + value, rest))
  }

  function ReadValue(s: string): Option<(SqlValue, string)> {
    if s != "" && s[0] == '\'' then
      match ReadQuoted(s[1..])
      case None => None
      case Some((value, rest)) => Some((Text(value), rest))
    else
      match ReadInt(s)
      case None => None
      case Some((value, rest)) => Some((Int64(value), rest))
  }

  lemma {:induction false} ReadQuotedShortens(s: string)
    requires ReadQuoted(s).Some?
    ensures |ReadQuoted(s).value.1| < |s|
  {
    if !(s[0] == '\'' && !(|s| >= 2 && s[1] == '\'')) {
      ReadQuotedShortens(s[if s[0] == '\'' then 2 else 1..]);
    }
  }

  lemma ReadValueShortens(s: string)
    requires ReadValue(s).Some?
    ensures |ReadValue(s).value.1| < |s|
  {
    if s != "" && s[0] == '\'' {
      ReadQuotedShortens(s[1..]);
    }
  }

  // Reading what was written

  lemma {:induction false} NatTextIsDigits(n: nat)
    ensures |NatText(n)| > 0
    ensures forall i :: 0 <= i < |NatText(n)| ==> IsDigit(NatText(n)[i])
  {
    if n >= 10 {
      NatTextIsDigits(n / 10);
    }
  }

  lemma {:induction false} NatTextValue(n: nat)
    requires forall i :: 0 <= i < |NatText(n)| ==> IsDigit(NatText(n)[i])
    ensures DigitsValue(NatText(n)) == n
  {
    if n >= 10 {
      var front := NatText(n / 10);
      assert NatText(n)[..|NatText(n)| - 1] == front;
      NatTextIsDigits(n / 10);
      NatTextValue(n / 10);
    } else {
      assert NatText(n)[..0] == "";
    }
  }

  lemma {:induction false} DigitRunOf(ds: string, rest: string)
    requires forall i :: 0 <= i < |ds| ==> IsDigit(ds[i])
    requires rest == "" || !IsDigit(rest[0])
    ensures DigitRun(ds + rest) == |ds|
  {
    if ds == "" {
      assert ds + rest == rest;
    } else {
      assert (ds + rest)[1..] == ds[1..] + rest;
      DigitRunOf(ds[1..], rest);
    }
  }

  lemma DigitsAfterText(n: nat, rest: string)
    requires rest == "" || !IsDigit(rest[0])
    ensures var s, m := NatText(n) + rest, |NatText(n)|;
            && m > 0 && IsDigit(s[0])
            && DigitRun(s) == m && s[..m] == NatText(n) && s[m..] == rest
            && (forall i :: 0 <= i < m ==> IsDigit(NatText(n)[i]))
            && DigitsValue(NatText(n)) == n
  {
    NatTextIsDigits(n);
    NatTextValue(n);
    DigitRunOf(NatText(n), rest);
  }

  /** Reading the digits of `n` when no sign precedes them. */
  lemma ReadNatOfText(n: nat, rest: string)
    requires n <= I64_MAX
    requires rest == "" || !IsDigit(rest[0])
    ensures ReadInt(NatText(n) + rest) == Some((n, rest))
    ensures IsDigit((NatText(n) + rest)[0])
  {
    hide DigitRun, DigitsValue, NatText;
    DigitsAfterText(n, rest);
  }

  /** Reading the digits of `n` after a minus sign. */
  lemma ReadNegativeOfText(n: nat, rest: string)
    requires n <= -I64_MIN
    requires rest == "" || !IsDigit(rest[0])
    ensures ReadInt("-" + NatText(n) + rest) == Some((-(n as int), rest))
  {
    hide DigitRun, DigitsValue, NatText;
    var s := "-" + NatText(n) + rest;
    DigitsAfterText(n, rest);
    assert s[0] == '-';
    assert s[1..] == NatText(n) + rest;
  }

  lemma ReadIntOfText(n: i64, rest: string)
    requires rest == "" || !IsDigit(rest[0])
    ensures ReadInt(IntText(n) + rest) == Some((n, rest))
    ensures (IntText(n) + rest)[0] != '\''
  {
    hide ReadInt, NatText;
    if n < 0 {
      ReadNegativeOfText(-(n as int), rest);
    } else {
      ReadNatOfText(n, rest);
    }
  }

  lemma {:induction false} ReadQuotedOfDoubled(value: string, rest: string)
    requires rest == "" || rest[0] != '\''
    ensures ReadQuoted(DoubleQuotes(value) + "'" + rest) == Some((value, rest))
    decreases |value|
  {
    var s := DoubleQuotes(value) + "'" + rest;
    if value == "" {
      assert s[1..] == rest;
    } else {
      var tail := DoubleQuotes(value[1..]) + "'" + rest;
      ReadQuotedOfDoubled(value[1..], rest);
      assert s[if value[0] == '\'' then 2 else 1..] == tail;
      assert [value[0]] + value[1..] == value;
    }
  }

  lemma ReadValueOfLiteral(v: SqlValue, rest: string)
    requires !v.Other?
    requires rest == "" || (rest[0] != '\'' && !IsDigit(rest[0]))
    ensures ReadValue(Literal(v) + rest) == Some((v, rest))
  {
    match v
    case Int64(n) =>
      ReadIntOfText(n, rest);
    case Text(t) =>
      ReadQuotedOfDoubled(t, rest);
      assert (Literal(v) + rest)[1..] == DoubleQuotes(t) + "'" + rest;
  }

  function Literals(vs: seq<SqlValue>): seq<string>
    requires forall v :: v in vs ==> !v.Other?
  {
    seq(|vs|, i requires 0 <= i < |vs| => assert vs[i] in vs; Literal(vs[i]))
  }
}
