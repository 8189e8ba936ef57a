/**
 The padded base64 of section 4 of RFC 4648, read as strictly as the `STANDARD`
 engine reads it: padding is required and the unused bits must be zero.
 */
module Base64 {
  import opened Wrappers

  function Symbol(n: sextet): char {
    if n < 26 then 'A' + n as char
    else if n < 52 then 'a' + (n - 26) as char
    else if n < 62 then '0' + (n - 52) as char
    else if n == 62 then '+'
    else '/'
  }

  function Sextet(c: char): Option<sextet> {
    if 'A' <= c <= 'Z' then Some(c as int - 'A' as int)
    else if 'a' <= c <= 'z' then Some(c as int - 'a' as int + 26)
    else if '0' <= c <= '9' then Some(c as int - '0' as int + 52)
    else if c == '+' then Some(62)
    else if c == '/' then Some(63)
    else None
  }

  /** Table 1 of the RFC: the letters, upper case first, the digits, `+` and `/`, each run in order. */
  lemma AlphabetOfTheRfc(n: sextet)
    ensures Symbol(0) == 'A' && Symbol(25) == 'Z' && Symbol(26) == 'a' && Symbol(51) == 'z'
    ensures Symbol(52) == '0' && Symbol(61) == '9' && Symbol(62) == '+' && Symbol(63) == '/'
    ensures 0 < n < 62 && n != 26 && n != 52 ==> Symbol(n) as int == Symbol(n - 1) as int + 1
    ensures forall c :: Sextet(c) == Some(n) <==> c == Symbol(n)
  {
  }

  type sextet = n: int | 0 <= n < 64

  /** The sextets of one to three bytes, the unused low bits of the last one zero. */
  function Split(bs: seq<byte>): seq<sextet>
    requires 1 <= |bs| <= 3
  {
    var x: int := bs[0];
    if |bs| == 1 then
      [x / 4, x % 4 * 16]
    else
      var y: int := bs[1];
      if |bs| == 2 then
        [x / 4, x % 4 * 16 + y / 16, y % 16 * 4]
      else
        var z: int := bs[2];
        [x / 4, x % 4 * 16 + y / 16, y % 16 * 4 + z / 64, z % 64]
  }

  /** The bytes that two to four sextets hold; unused bits that are set are refused. */
  function Glue(ns: seq<sextet>): Option<seq<byte>>
    requires 2 <= |ns| <= 4
  {
    var a: int, b: int := ns[0], ns[1];
    var x := a * 4 + b / 16;
    if |ns| == 2 then
      if b % 16 == 0 then Some([x]) else None
    else
      var c: int := ns[2];
      var y := b % 16 * 16 + c / 4;
      if |ns| == 3 then
        if c % 4 == 0 then Some([x, y]) else None
      else
        var d: int := ns[3];
        Some([x, y, c % 4 * 64 + d])
  }

  /** The four symbols of one to three bytes, padded. */
  function EncodeGroup(bs: seq<byte>): string
    requires 1 <= |bs| <= 3
  {
    var ns := Split(bs);
    Symbols(ns) + if |ns| == 2 then "==" else if |ns| == 3 then "=" else ""
  }

  function Symbols(ns: seq<sextet>): string {
    if ns == [] then "" else [Symbol(ns[0])] + Symbols(ns[1..])
  }

  function Sextets(t: string): Option<seq<sextet>> {
    if t == "" then
      Some([])
    else
      match (Sextet(t[0]), Sextets(t[1..]))
      case (Some(n), Some(ns)) => Some([n] + ns)
      case _ => None
  }

  function Encode(bs: seq<byte>): string {
    if bs == [] then ""
    else if |bs| <= 3 then EncodeGroup(bs)
    else EncodeGroup(bs[..3]) + Encode(bs[3..])
  }

  /** The bytes of one four-symbol group; only the last group may be padded. */
  function DecodeGroup(t: string, last: bool): Option<seq<byte>>
    requires |t| == 4
  {
    var used := if last && t[3] == '=' then if t[2] == '=' then 2 else 3 else 4;
    match Sextets(t[..used])
    case None => None
    case Some(ns) => SextetsLength(t[..used]); Glue(ns)
  }

  function Decode(t: string): Option<seq<byte>> {
    if t == "" then
      Some([])
    else if |t| < 4 then
      None
    else
      match (DecodeGroup(t[..4], |t| == 4), Decode(t[4..]))
      case (Some(group), Some(rest)) => Some(group + rest)
      case _ => None
  }

  lemma {:induction false} SextetsLength(t: string)
    requires Sextets(t).Some?
    ensures |Sextets(t).value| == |t|
  {
    if t != "" {
      SextetsLength(t[1..]);
    }
  }

  lemma SextetOfSymbol(n: sextet)
    ensures Sextet(Symbol(n)) == Some(n) && Symbol(n) != '='
  {
  }

  lemma SymbolOfSextet(c: char)
    requires Sextet(c).Some?
    ensures Symbol(Sextet(c).value) == c
  {
  }

  lemma {:induction false} SextetsOfSymbols(ns: seq<sextet>)
    ensures Sextets(Symbols(ns)) == Some(ns)
    ensures |Symbols(ns)| == |ns| && '=' !in Symbols(ns)
  {
    if ns != [] {
      SextetOfSymbol(ns[0]);
      SextetsOfSymbols(ns[1..]);
      assert Symbols(ns)[1..] == Symbols(ns[1..]);
      assert [ns[0]] + ns[1..] == ns;
    }
  }

  lemma {:induction false} SymbolsOfSextets(t: string)
    requires Sextets(t).Some?
    ensures Symbols(Sextets(t).value) == t
  {
    if t != "" {
      SymbolOfSextet(t[0]);
      SymbolsOfSextets(t[1..]);
    }
  }

  lemma By4(q: int, r: int)
    requires 0 <= r < 4
    ensures (q * 4 + r) / 4 == q && (q * 4 + r) % 4 == r
  {
  }

  lemma By16(q: int, r: int)
    requires 0 <= r < 16
    ensures (q * 16 + r) / 16 == q && (q * 16 + r) % 16 == r
  {
  }

  lemma By64(q: int, r: int)
    requires 0 <= r < 64
    ensures (q * 64 + r) / 64 == q && (q * 64 + r) % 64 == r
  {
  }

  /** Joining the sextets of three bytes, and splitting the bytes of four sextets, lose nothing. */
  lemma Rejoin(x: byte, y: byte, z: byte)
    ensures x / 4 * 4 + (x % 4 * 16 + y / 16) / 16 == x
    ensures (x % 4 * 16 + y / 16) % 16 * 16 + (y % 16 * 4 + z / 64) / 4 == y
    ensures (y % 16 * 4 + z / 64) % 4 * 64 + z % 64 == z
    ensures x % 4 * 16 % 16 == 0 && y % 16 * 4 % 4 == 0
    ensures x % 4 * 16 / 16 == x % 4 && y % 16 * 4 / 4 == y % 16
  {
    By16(x % 4, y / 16);
    By4(y % 16, z / 64);
    By16(x % 4, 0);
    By4(y % 16, 0);
  }

  lemma Resplit(a: sextet, b: sextet, c: sextet, d: sextet)
    ensures var x: int, y: int, z: int := (a as int) * 4 + b / 16, (b as int) % 16 * 16 + c / 4, (c as int) % 4 * 64 + d;
            && x / 4 == a && x % 4 * 16 + y / 16 == b
            && y % 16 * 4 + z / 64 == c && z % 64 == d
            && (b % 16 == 0 ==> x % 4 * 16 == b) && (c % 4 == 0 ==> y % 16 * 4 == c)
  {
    By4(a, b / 16);
    By16(b % 16, c / 4);
    By64(c % 4, d);
  }

  lemma GlueOfSplit(bs: seq<byte>)
    requires 1 <= |bs| <= 3
    ensures Glue(Split(bs)) == Some(bs)
  {
    var x: int, y: int, z: int := bs[0], if |bs| > 1 then bs[1] else 0, if |bs| > 2 then bs[2] else 0;
    Rejoin(x, y, z);
    var ns := Split(bs);
    if |bs| == 1 {
      assert ns == [x / 4, x % 4 * 16];
      assert bs == [x];
    } else if |bs| == 2 {
      assert ns == [x / 4, x % 4 * 16 + y / 16, y % 16 * 4];
      assert bs == [x, y];
    } else {
      assert ns == [x / 4, x % 4 * 16 + y / 16, y % 16 * 4 + z / 64, z % 64];
      assert bs == [x, y, z];
    }
  }

  lemma SplitOfGlue(ns: seq<sextet>)
    requires 2 <= |ns| <= 4 && Glue(ns).Some?
    ensures |Glue(ns).value| == |ns| - 1 && Split(Glue(ns).value) == ns
  {
    var a: int, b: int := ns[0], ns[1];
    var c: int, d: int := if |ns| > 2 then ns[2] else 0, if |ns| > 3 then ns[3] else 0;
    Resplit(a, b, c, d);
    var bs := Glue(ns).value;
    var x: int, y: int := bs[0], if |ns| > 2 then bs[1] else 0;
    if |ns| == 2 {
      assert Split(bs) == [x / 4, x % 4 * 16] == ns;
    } else if |ns| == 3 {
      assert Split(bs) == [x / 4, x % 4 * 16 + y / 16, y % 16 * 4] == ns;
    } else {
      var z: int := bs[2];
      assert Split(bs) == [x / 4, x % 4 * 16 + y / 16, y % 16 * 4 + z / 64, z % 64] == ns;
    }
  }

  lemma GroupOfEncoded(bs: seq<byte>, last: bool)
    requires 1 <= |bs| <= 3 && (|bs| < 3 ==> last)
    ensures |EncodeGroup(bs)| == 4 && DecodeGroup(EncodeGroup(bs), last) == Some(bs)
  {
    var ns, t := Split(bs), EncodeGroup(bs);
    GlueOfSplit(bs);
    SextetsOfSymbols(ns);
    assert t[..|ns|] == Symbols(ns);
    assert t[|ns| - 1] in Symbols(ns);
    assert |ns| == 4 ==> t == Symbols(ns);
  }

  lemma {:induction false} DecodeOfEncode(bs: seq<byte>)
    ensures Decode(Encode(bs)) == Some(bs)
  {
    if bs != [] {
      var n := if |bs| < 3 then |bs| else 3;
      var group, rest := EncodeGroup(bs[..n]), Encode(bs[n..]);
      assert bs[..n] + bs[n..] == bs;
      assert |bs| <= 3 ==> bs[..n] == bs && bs[n..] == [];
      assert Encode(bs) == group + rest;
      GroupOfEncoded(bs[..n], rest == "");
      assert (group + rest)[..4] == group && (group + rest)[4..] == rest;
      DecodeOfEncode(bs[n..]);
    }
  }

  lemma GroupIsCanonical(t: string, last: bool)
    requires |t| == 4 && DecodeGroup(t, last).Some?
    ensures 1 <= |DecodeGroup(t, last).value| <= 3
    ensures |DecodeGroup(t, last).value| < 3 ==> last
    ensures EncodeGroup(DecodeGroup(t, last).value) == t
  {
    var used := if last && t[3] == '=' then if t[2] == '=' then 2 else 3 else 4;
    SextetsLength(t[..used]);
    SplitOfGlue(Sextets(t[..used]).value);
    SymbolsOfSextets(t[..used]);
  }

  lemma {:induction false} EncodeOfDecode(t: string)
    requires Decode(t).Some?
    ensures Encode(Decode(t).value) == t
  {
    if t != "" {
      var group := DecodeGroup(t[..4], |t| == 4).value;
      var rest := Decode(t[4..]).value;
      GroupIsCanonical(t[..4], |t| == 4);
      EncodeOfDecode(t[4..]);
      assert t == t[..4] + t[4..];
      assert (group + rest)[..|group|] == group && (group + rest)[|group|..] == rest;
      assert rest == [] ==> group + rest == group;
    }
  }

  /** Every byte string has exactly one accepted text. */
  lemma DecodesExactlyItsEncoding(t: string, bs: seq<byte>)
    ensures Decode(t) == Some(bs) <==> t == Encode(bs)
  {
    DecodeOfEncode(bs);
    if Decode(t) == Some(bs) {
      EncodeOfDecode(t);
    }
  }
}
