/** The order of the license list and the one sequence that has it (`StoreCore::list`). */
module Listing {
  import opened Domain
  import opened Wrappers
  import Utf8

  /** The order of strings by scalar values; `LessByBytes` shows that it is Rust's, which goes by UTF-8 bytes. */
  predicate Less(a: string, b: string) {
    b != "" && (a == "" || a[0] < b[0] || (a[0] == b[0] && Less(a[1..], b[1..])))
  }

  lemma {:induction false} LessIsTransitive(a: string, b: string, c: string)
    requires Less(a, b) && Less(b, c)
    ensures Less(a, c)
  {
    if a != "" && a[0] == b[0] == c[0] {
      LessIsTransitive(a[1..], b[1..], c[1..]);
    }
  }

  lemma {:induction false} LessIsTotal(a: string, b: string)
    ensures Less(a, b) || a == b || Less(b, a)
    ensures !(Less(a, b) && Less(b, a))
  {
    if a != "" && b != "" {
      LessIsTotal(a[1..], b[1..]);
      assert a == [a[0]] + a[1..] && b == [b[0]] + b[1..];
    }
  }

  predicate BytesLess(a: seq<byte>, b: seq<byte>) {
    b != [] && (a == [] || a[0] < b[0] || (a[0] == b[0] && BytesLess(a[1..], b[1..])))
  }

  lemma {:induction false} AfterCommonPart(part: seq<byte>, x: seq<byte>, y: seq<byte>)
    ensures BytesLess(part + x, part + y) <==> BytesLess(x, y)
  {
    if part == [] {
      assert part + x == x && part + y == y;
    } else {
      assert (part + x)[1..] == part[1..] + x && (part + y)[1..] == part[1..] + y;
      AfterCommonPart(part[1..], x, y);
    }
  }

  /** The first difference decides. */
  lemma FirstDifference(a: seq<byte>, b: seq<byte>, k: nat)
    requires k < |a| && k < |b| && a[..k] == b[..k] && a[k] < b[k]
    ensures BytesLess(a, b) && !BytesLess(b, a)
  {
    assert a == a[..k] + a[k..] && b == a[..k] + b[k..];
    AfterCommonPart(a[..k], a[k..], b[k..]);
    AfterCommonPart(a[..k], b[k..], a[k..]);
  }

  lemma DifferInTwo(v: int, w: int) returns (k: nat)
    requires 0x80 <= v < w < 0x800
    ensures k <= 1 && (k == 0 ==> v / 64 < w / 64) && (k == 1 ==> v / 64 == w / 64 && v % 64 < w % 64)
  {
    k := if v / 64 < w / 64 then 0 else 1;
  }

  lemma DifferInThree(v: int, w: int) returns (k: nat)
    requires 0x800 <= v < w < 0x1_0000
    ensures k <= 2
    ensures k == 0 ==> v / 4096 < w / 4096
    ensures k >= 1 ==> v / 4096 == w / 4096
    ensures k == 1 ==> v / 64 % 64 < w / 64 % 64
    ensures k == 2 ==> v / 64 % 64 == w / 64 % 64 && v % 64 < w % 64
  {
    Utf8.Digits(v);
    Utf8.Digits(w);
    k := if v / 4096 < w / 4096 then 0 else if v / 64 < w / 64 then 1 else 2;
  }

  lemma DifferInFour(v: int, w: int) returns (k: nat)
    requires 0x1_0000 <= v < w < 0x11_0000
    ensures k <= 3
    ensures k == 0 ==> v / 262144 < w / 262144
    ensures k >= 1 ==> v / 262144 == w / 262144
    ensures k == 1 ==> v / 4096 % 64 < w / 4096 % 64
    ensures k >= 2 ==> v / 4096 % 64 == w / 4096 % 64
    ensures k == 2 ==> v / 64 % 64 < w / 64 % 64
    ensures k == 3 ==> v / 64 % 64 == w / 64 % 64 && v % 64 < w % 64
  {
    Utf8.Digits(v);
    Utf8.Digits(w);
    k := if v / 262144 < w / 262144 then 0 else if v / 4096 < w / 4096 then 1 else if v / 64 < w / 64 then 2 else 3;
  }

  /** Two characters differ at some byte of both their encodings, and the smaller has the smaller byte there. */
  lemma EncodedCharsDiffer(c: char, d: char) returns (k: nat)
    requires c < d
    ensures var x, y := Utf8.EncodeChar(c), Utf8.EncodeChar(d);
            k < |x| && k < |y| && x[..k] == y[..k] && x[k] < y[k]
  {
    var v: int, w: int := c as int, d as int;
    assert w < 0x11_0000;
    k := 0;
    if 0x80 <= v && w < 0x800 {
      k := DifferInTwo(v, w);
    } else if 0x800 <= v && w < 0x1_0000 {
      k := DifferInThree(v, w);
    } else if 0x1_0000 <= v {
      k := DifferInFour(v, w);
    }
  }

  lemma EncodedCharsInOrder(c: char, d: char, x: seq<byte>, y: seq<byte>)
    requires c < d
    ensures BytesLess(Utf8.EncodeChar(c) + x, Utf8.EncodeChar(d) + y)
    ensures !BytesLess(Utf8.EncodeChar(d) + y, Utf8.EncodeChar(c) + x)
  {
    hide Utf8.EncodeChar, BytesLess;
    var k := EncodedCharsDiffer(c, d);
    var a, b := Utf8.EncodeChar(c), Utf8.EncodeChar(d);
    assert (a + x)[..k] == a[..k] && (b + y)[..k] == b[..k];
    FirstDifference(a + x, b + y, k);
  }

  /** Comparing scalar values and comparing UTF-8 bytes agree. */
  lemma {:induction false} LessByBytes(a: string, b: string)
    ensures Less(a, b) <==> BytesLess(Utf8.Encode(a), Utf8.Encode(b))
  {
    if a != "" && b != "" {
      hide Utf8.EncodeChar, BytesLess;
      if a[0] < b[0] {
        EncodedCharsInOrder(a[0], b[0], Utf8.Encode(a[1..]), Utf8.Encode(b[1..]));
      } else if b[0] < a[0] {
        EncodedCharsInOrder(b[0], a[0], Utf8.Encode(b[1..]), Utf8.Encode(a[1..]));
      } else {
        LessByBytes(a[1..], b[1..]);
        AfterCommonPart(Utf8.EncodeChar(a[0]), Utf8.Encode(a[1..]), Utf8.Encode(b[1..]));
      }
    } else {
      EncodedIsNotEmpty(a);
      EncodedIsNotEmpty(b);
    }
  }

  lemma EncodedIsNotEmpty(s: string)
    ensures Utf8.Encode(s) == [] <==> s == ""
  {
  }

  /** By title, and by slug where titles are equal. */
  predicate Before(a: LicenseMetadata, b: LicenseMetadata) {
    Less(a.title, b.title) || (a.title == b.title && Less(a.slug, b.slug))
  }

  lemma BeforeIsTransitive(a: LicenseMetadata, b: LicenseMetadata, c: LicenseMetadata)
    requires Before(a, b) && Before(b, c)
    ensures Before(a, c)
  {
    if Less(a.title, b.title) && Less(b.title, c.title) {
      LessIsTransitive(a.title, b.title, c.title);
    }
    if Less(a.slug, b.slug) && Less(b.slug, c.slug) {
      LessIsTransitive(a.slug, b.slug, c.slug);
    }
  }

  lemma BeforeIsTotal(a: LicenseMetadata, b: LicenseMetadata)
    requires a.slug != b.slug
    ensures Before(a, b) != Before(b, a)
  {
    LessIsTotal(a.title, b.title);
    LessIsTotal(a.slug, b.slug);
  }

  lemma BeforeIsIrreflexive(a: LicenseMetadata)
    ensures !Before(a, a)
  {
    LessIsTotal(a.title, a.title);
    LessIsTotal(a.slug, a.slug);
  }

  predicate Sorted(r: seq<LicenseMetadata>) {
    forall i, j :: 0 <= i < j < |r| ==> Before(r[i], r[j])
  }

  /** The metadata of a document: its fields but for the body. */
  predicate Describes(x: LicenseMetadata, d: LicenseDocument) {
    && x.id == d.id && x.slug == d.slug && x.title == d.title
    && x.sourceFilename == d.sourceFilename && x.sha256 == d.sha256 && x.uploadedAtMs == d.uploadedAtMs
  }

  /** `r` lists every document of `m` once, strictly ordered. */
  ghost predicate IsListing(m: map<string, LicenseDocument>, r: seq<LicenseMetadata>) {
    && Sorted(r)
    && (forall slug :: slug in m ==> exists i :: 0 <= i < |r| && Describes(r[i], m[slug]))
    && (forall x :: x in r ==> x.slug in m && Describes(x, m[x.slug]))
  }

  lemma MetadataDescribes(x: LicenseMetadata, d: LicenseDocument)
    ensures Describes(x, d) <==> x == MetadataOf(d)
  {
  }

  predicate KeyedBySlug(m: map<string, LicenseDocument>) {
    forall slug :: slug in m ==> m[slug].slug == slug
  }

  lemma HasMember(s: seq<LicenseMetadata>)
    ensures s != [] ==> exists x :: x in s
  {
    if s != [] {
      assert s[0] in s;
    }
  }

  lemma {:induction false} SortedIsUnique(r: seq<LicenseMetadata>, s: seq<LicenseMetadata>)
    requires Sorted(r) && Sorted(s)
    requires forall x :: x in r <==> x in s
    ensures r == s
  {
    HasMember(s);
    if r != [] {
      assert r[0] in s && s != [];
      assert s[0] in r;
      var i :| 0 <= i < |s| && s[i] == r[0];
      var j :| 0 <= j < |r| && r[j] == s[0];
      if i > 0 && j > 0 {
        BeforeIsTransitive(r[0], s[0], r[0]);
        BeforeIsIrreflexive(r[0]);
      }
      assert r[0] == s[0];
      forall x ensures x in r[1..] <==> x in s[1..] {
        BeforeIsIrreflexive(x);
        TailMembers(r, x);
        TailMembers(s, x);
      }
      SortedIsUnique(r[1..], s[1..]);
      assert r == [r[0]] + r[1..] && s == [s[0]] + s[1..];
    }
  }

  lemma TailMembers(r: seq<LicenseMetadata>, x: LicenseMetadata)
    requires r != [] && Sorted(r)
    ensures x in r[1..] <==> x in r && x != r[0]
  {
    assert r == [r[0]] + r[1..];
    BeforeIsIrreflexive(r[0]);
  }

  /** An index has one listing only. */
  lemma ListingIsUnique(m: map<string, LicenseDocument>, r: seq<LicenseMetadata>, s: seq<LicenseMetadata>)
    requires IsListing(m, r) && IsListing(m, s)
    ensures r == s
  {
    SortedIsUnique(r, s);
  }

  function Insert(x: LicenseMetadata, r: seq<LicenseMetadata>): seq<LicenseMetadata> {
    if r == [] then [x]
    else if Before(x, r[0]) then [x] + r
    else [r[0]] + Insert(x, r[1..])
  }

  lemma {:induction false} InsertSorts(x: LicenseMetadata, r: seq<LicenseMetadata>)
    requires Sorted(r) && forall y :: y in r ==> y.slug != x.slug
    ensures Sorted(Insert(x, r))
    ensures forall y :: y in Insert(x, r) <==> y == x || y in r
  {
    if r != [] {
      BeforeIsTotal(x, r[0]);
      if Before(x, r[0]) {
        forall j | 0 < j < |r| ensures Before(x, r[j]) {
          BeforeIsTransitive(x, r[0], r[j]);
        }
      } else {
        InsertSorts(x, r[1..]);
        var rest := Insert(x, r[1..]);
        forall j | 0 <= j < |rest| ensures Before(r[0], rest[j]) {
          assert rest[j] in rest;
        }
        assert r == [r[0]] + r[1..];
      }
    }
  }

  lemma ListingOfOneMore(m: map<string, LicenseDocument>, slug: string, rest: seq<LicenseMetadata>)
    requires KeyedBySlug(m) && slug in m && IsListing(m - {slug}, rest)
    ensures IsListing(m, Insert(MetadataOf(m[slug]), rest))
  {
    var x := MetadataOf(m[slug]);
    InsertSorts(x, rest);
    var r := Insert(x, rest);
    forall other | other in m ensures exists i :: 0 <= i < |r| && Describes(r[i], m[other]) {
      var d := if other == slug then x else MetadataOf(m[other]);
      if other != slug {
        assert m[other] == (m - {slug})[other];
        var i :| 0 <= i < |rest| && Describes(rest[i], m[other]);
        MetadataDescribes(rest[i], m[other]);
        assert rest[i] in rest;
      }
      assert d in r && Describes(d, m[other]);
    }
  }

  /** Every index has a listing. */
  lemma {:induction false} ListingExists(m: map<string, LicenseDocument>) returns (r: seq<LicenseMetadata>)
    requires KeyedBySlug(m)
    ensures IsListing(m, r)
    decreases m.Keys
  {
    if m == map[] {
      r := [];
    } else {
      var slug :| slug in m;
      var rest := ListingExists(m - {slug});
      r := Insert(MetadataOf(m[slug]), rest);
      ListingOfOneMore(m, slug, rest);
    }
  }

  /** The metadata of every document, sorted. */
  method SortedListing(licenses: map<string, LicenseDocument>) returns (r: seq<LicenseMetadata>)
    requires KeyedBySlug(licenses)
    ensures IsListing(licenses, r)
  {
    r := [];
    var rest := licenses.Keys;
    while rest != {}
      invariant rest <= licenses.Keys
      invariant Sorted(r)
      invariant forall slug :: slug in licenses && slug !in rest ==> MetadataOf(licenses[slug]) in r
      invariant forall x :: x in r ==> x.slug in licenses && x.slug !in rest && x == MetadataOf(licenses[x.slug])
      decreases rest
    {
      var slug :| slug in rest;
      InsertSorts(MetadataOf(licenses[slug]), r);
      r := Insert(MetadataOf(licenses[slug]), r);
      rest := rest - {slug};
    }
  }
}
