/** The string operations of the Rust standard library that the archive uses. */
module Strings {

  function Join(words: seq<string>, separator: string): string {
    if |words| == 0 then ""
    else if |words| == 1 then words[0]
    else words[0] + separator + Join(words[1..], separator)
  }

  /** The White_Space property. */
  predicate IsWhitespace(c: char) {
    var v := c as int;
    || 0x9 <= v <= 0xD
    || v in {0x20, 0x85, 0xA0, 0x1680, 0x2028, 0x2029, 0x202F, 0x205F, 0x3000}
    || 0x2000 <= v <= 0x200A
  }

  /** The general category Cc. */
  predicate IsControl(c: char) {
    c as int <= 0x1F || 0x7F <= c as int <= 0x9F
  }

  predicate HasControl(s: string) {
    exists i :: 0 <= i < |s| && IsControl(s[i])
  }

  predicate IsLowerAlphanumeric(c: char) {
    'a' <= c <= 'z' || '0' <= c <= '9'
  }

  predicate IsAlphanumeric(c: char) {
    IsLowerAlphanumeric(c) || 'A' <= c <= 'Z'
  }

  function LowerChar(c: char): char {
    if 'A' <= c <= 'Z' then (c as int + 32) as char else c
  }

  function Lower(s: string): (r: string)
    ensures |r| == |s| && forall i :: 0 <= i < |s| ==> r[i] == LowerChar(s[i])
  {
    seq(|s|, i requires 0 <= i < |s| => LowerChar(s[i]))
  }

  /** Upper-case letters become the lower-case ones in their order, and nothing else changes. */
  lemma LowersInOrder(c: char, d: char)
    ensures !('A' <= c <= 'Z') ==> LowerChar(c) == c
    ensures 'A' <= c <= 'Z' ==> 'a' <= LowerChar(c) <= 'z'
    ensures 'A' <= c < d <= 'Z' ==> LowerChar(c) < LowerChar(d)
  {
  }

  function TrimStart(s: string): string {
    if s != "" && IsWhitespace(s[0]) then TrimStart(s[1..]) else s
  }

  function TrimEnd(s: string): string {
    if s != "" && IsWhitespace(s[|s| - 1]) then TrimEnd(s[..|s| - 1]) else s
  }

  function Trim(s: string): string {
    TrimEnd(TrimStart(s))
  }

  predicate Trimmed(s: string) {
    s == "" || (!IsWhitespace(s[0]) && !IsWhitespace(s[|s| - 1]))
  }

  lemma {:induction false} TrimEndTrims(s: string)
    ensures TrimEnd(s) <= s
    ensures TrimEnd(s) == "" || !IsWhitespace(TrimEnd(s)[|TrimEnd(s)| - 1])
  {
    if s != "" && IsWhitespace(s[|s| - 1]) {
      TrimEndTrims(s[..|s| - 1]);
    }
  }

  lemma {:induction false} TrimStartTrims(s: string)
    ensures TrimStart(s) == "" || !IsWhitespace(TrimStart(s)[0])
  {
    if s != "" && IsWhitespace(s[0]) {
      TrimStartTrims(s[1..]);
    }
  }

  /** Trimming leaves exactly the trimmed strings alone, and always yields one. */
  lemma TrimTrims(s: string)
    ensures Trimmed(Trim(s))
    ensures Trim(s) == s <==> Trimmed(s)
  {
    TrimStartTrims(s);
    TrimEndTrims(TrimStart(s));
  }

  predicate Blank(s: string) {
    forall i :: 0 <= i < |s| ==> IsWhitespace(s[i])
  }

  lemma {:induction false} TrimStartTakes(s: string) returns (before: string)
    ensures Blank(before) && s == before + TrimStart(s)
  {
    if s != "" && IsWhitespace(s[0]) {
      before := TrimStartTakes(s[1..]);
      before := [s[0]] + before;
    } else {
      before := "";
    }
  }

  lemma {:induction false} TrimEndTakes(s: string) returns (after: string)
    ensures Blank(after) && s == TrimEnd(s) + after
  {
    if s != "" && IsWhitespace(s[|s| - 1]) {
      after := TrimEndTakes(s[..|s| - 1]);
      after := after + [s[|s| - 1]];
      assert s == s[..|s| - 1] + [s[|s| - 1]];
    } else {
      after := "";
    }
  }

  lemma {:induction false} TrimStartSkips(before: string, s: string)
    requires Blank(before)
    ensures TrimStart(before + s) == TrimStart(s)
  {
    if before == "" {
      assert before + s == s;
    } else {
      assert (before + s)[1..] == before[1..] + s;
      TrimStartSkips(before[1..], s);
    }
  }

  lemma {:induction false} TrimEndSkips(s: string, after: string)
    requires Blank(after)
    ensures TrimEnd(s + after) == TrimEnd(s)
  {
    if after == "" {
      assert s + after == s;
    } else {
      assert (s + after)[..|s + after| - 1] == s + after[..|after| - 1];
      TrimEndSkips(s, after[..|after| - 1]);
    }
  }

  /** `s` is `t` between white space. */
  ghost predicate Surrounds(s: string, t: string) {
    exists before, after :: Blank(before) && Blank(after) && s == before + t + after
  }

  /** Trimming takes away the outer white space, all of it and nothing else. */
  lemma TrimIs(s: string, t: string)
    ensures Trim(s) == t <==> Trimmed(t) && Surrounds(s, t)
  {
    hide IsWhitespace;
    if Trim(s) == t {
      TrimTrims(s);
      var before := TrimStartTakes(s);
      var after := TrimEndTakes(TrimStart(s));
      assert s == before + t + after;
    }
    if Trimmed(t) && Surrounds(s, t) {
      var before, after :| Blank(before) && Blank(after) && s == before + t + after;
      assert s == before + (t + after);
      TrimStartSkips(before, t + after);
      if t == "" {
        TrimStartSkips(after, "");
        assert after + "" == after == t + after;
      } else {
        assert TrimStart(t + after) == t + after;
        TrimEndSkips(t, after);
        TrimTrims(t);
      }
    }
  }

  /** `rsplit_once('.')`: the part before the last full stop, or everything. */
  function Stem(s: string): string {
    if LastIndex(s, '.') < 0 then s else s[..LastIndex(s, '.')]
  }

  /** The position of the last `c`, or -1. */
  function LastIndex(s: string, c: char): (i: int)
    ensures -1 <= i < |s|
  {
    if s == "" then -1
    else if s[|s| - 1] == c then |s| - 1
    else LastIndex(s[..|s| - 1], c)
  }

  lemma {:induction false} LastIndexIsLast(s: string, c: char)
    ensures LastIndex(s, c) < 0 <==> c !in s
    ensures LastIndex(s, c) >= 0 ==> s[LastIndex(s, c)] == c && c !in s[LastIndex(s, c) + 1..]
  {
    if s != "" {
      var front, i := s[..|s| - 1], LastIndex(s, c);
      LastIndexIsLast(front, c);
      assert s == front + [s[|s| - 1]];
      if 0 <= i < |front| {
        assert s[i + 1..] == front[i + 1..] + [s[|s| - 1]];
      }
    }
  }

  /** The stem and one full stop before an extension without any, or the whole text. */
  lemma StemSplits(s: string)
    ensures if '.' in s then
              var n := |Stem(s)|;
              n < |s| && s == Stem(s) + "." + s[n + 1..] && '.' !in s[n + 1..]
            else
              Stem(s) == s
  {
    LastIndexIsLast(s, '.');
  }

  /** What precedes the last full stop of a name, or all of a name without one. */
  ghost predicate IsStem(name: string, stem: string) {
    if '.' in name then exists extension :: '.' !in extension && name == stem + "." + extension
    else stem == name
  }

  lemma LastIsUnique(s: string, c: char, i: nat, j: nat)
    requires i < |s| && j < |s| && s[i] == c == s[j] && c !in s[i + 1..] && c !in s[j + 1..]
    ensures i >= j
  {
  }

  lemma StemIs(name: string, stem: string)
    ensures Stem(name) == stem <==> IsStem(name, stem)
  {
    StemSplits(name);
    if '.' in name {
      var n := |Stem(name)|;
      assert name[n] == '.' && IsStem(name, Stem(name));
      if extension :| '.' !in extension && name == stem + "." + extension {
        assert name[|stem|] == '.' && name[|stem| + 1..] == extension;
        LastIsUnique(name, '.', n, |stem|);
        LastIsUnique(name, '.', |stem|, n);
        assert name[..n] == stem;
      }
    }
  }

  predicate ContainsPair(s: string, c: char) {
    exists i :: 0 < i < |s| && s[i - 1] == c && s[i] == c
  }
}
