/** Validation of uploads and the identity the archive derives for them (`src/domain.rs`). */
module Domain {
  import opened Strings
  import opened Wrappers
  import Utf8

  const MAX_LICENSE_BYTES := 1024 * 1024
  const MAX_FILENAME_BYTES := 255
  const MAX_TITLE_CHARS := 160
  const MAX_SLUG_BYTES := 96
  const DIGEST_SLUG_LENGTH := 12

  datatype LicenseDraft = LicenseDraft(
    slug: string, title: string, body: string, sourceFilename: string, sha256: string, uploadedAtMs: i64)

  datatype LicenseDocument = LicenseDocument(
    id: i64, slug: string, title: string, body: string, sourceFilename: string, sha256: string, uploadedAtMs: i64)

  datatype LicenseMetadata = LicenseMetadata(
    id: i64, slug: string, title: string, sourceFilename: string, sha256: string, uploadedAtMs: i64)

  datatype LicenseValidationError =
    InvalidFilename | InvalidTitle | InvalidSlug | EmptyBody | InvalidUtf8 | BodyTooLarge

  type Digest = bs: seq<byte> | |bs| == 32 witness seq(32, i => 0)

  /** The digest function; every statement holds for any function to 32 bytes. */
  type Sha256 = seq<byte> -> Digest

  function IntoDocument(draft: LicenseDraft, id: i64): LicenseDocument {
    LicenseDocument(id, draft.slug, draft.title, draft.body, draft.sourceFilename, draft.sha256, draft.uploadedAtMs)
  }

  function MetadataOf(document: LicenseDocument): LicenseMetadata {
    LicenseMetadata(document.id, document.slug, document.title, document.sourceFilename, document.sha256,
                    document.uploadedAtMs)
  }

  function FromUpload(sha: Sha256, filename: string, title: Option<string>, slug: Option<string>, bytes: seq<byte>,
                      uploadedAtMs: i64): Result<LicenseDraft, LicenseValidationError>
  {
    if !ValidFilename(filename) then
      Err(InvalidFilename)
    else if |bytes| > MAX_LICENSE_BYTES then
      Err(BodyTooLarge)
    else
      match Utf8.Decode(bytes)
      case None => Err(InvalidUtf8)
      case Some(body) =>
        if Trim(body) == "" then
          Err(EmptyBody)
        else
          match DeriveTitle(filename, title)
          case Err(error) => Err(error)
          case Ok(derivedTitle) =>
            var digest := Hex(sha(bytes));
            match DeriveSlug(filename, slug, digest)
            case Err(error) => Err(error)
            case Ok(derivedSlug) =>
              Ok(LicenseDraft(derivedSlug, derivedTitle, body, filename, digest, uploadedAtMs))
  }

  function Rehydrate(sha: Sha256, id: i64, slug: string, title: string, body: string, sourceFilename: string,
                     sha256: string, uploadedAtMs: i64): Option<LicenseDocument>
  {
    if id < 1 then
      None
    else
      match FromUpload(sha, sourceFilename, Some(title), Some(slug), Utf8.Encode(body), uploadedAtMs)
      case Err(_) => None
      case Ok(draft) =>
        if draft.slug != slug || draft.sha256 != sha256 then None else Some(IntoDocument(draft, id))
  }

  predicate ValidFilename(filename: string) {
    && filename != ""
    && Utf8.Length(filename) <= MAX_FILENAME_BYTES
    && filename != "."
    && filename != ".."
    && '/' !in filename
    && '\\' !in filename
    && !HasControl(filename)
  }

  function DeriveTitle(filename: string, requested: Option<string>): Result<string, LicenseValidationError> {
    var value := Trim(if requested.Some? then requested.value else Stem(filename));
    if value == "" || |value| > MAX_TITLE_CHARS || HasControl(value) then
      Err(InvalidTitle)
    else
      Ok(value)
  }

  predicate AllowedInSlug(c: char) {
    IsAlphanumeric(c) || c in " ._-"
  }

  function DeriveSlug(filename: string, requested: Option<string>, digest: string)
    : Result<string, LicenseValidationError>
    requires |digest| >= DIGEST_SLUG_LENGTH
  {
    if requested.Some? then
      var trimmed := Trim(requested.value);
      if trimmed == "" || ContainsPair(trimmed, '.') || exists i :: 0 <= i < |trimmed| && !AllowedInSlug(trimmed[i]) then
        Err(InvalidSlug)
      else
        ValidSlug(SlugOf(trimmed))
    else
      var normalized := SlugOf(Stem(filename));
      if normalized == "" then Ok("license-" + digest[..DIGEST_SLUG_LENGTH]) else ValidSlug(normalized)
  }

  function ValidSlug(slug: string): Result<string, LicenseValidationError> {
    if slug == "" || Utf8.Length(slug) > MAX_SLUG_BYTES then Err(InvalidSlug) else Ok(slug)
  }

  function HexDigit(n: int): char
    requires 0 <= n < 16
  {
    if n < 10 then '0' + n as char else 'a' + (n - 10) as char
  }

  function Hex(bs: seq<byte>): (r: string)
    ensures |r| == 2 * |bs|
    ensures forall i :: 0 <= i < |r| ==> IsLowerAlphanumeric(r[i])
  {
    if bs == [] then "" else [HexDigit(bs[0] / 16), HexDigit(bs[0] % 16)] + Hex(bs[1..])
  }

  // The slug of a text: its ASCII-alphanumeric runs in lower case, joined by single hyphens.

  /** The length of the alphanumeric run that `s` starts with. */
  function RunLength(s: string): (n: nat)
    ensures n <= |s|
    ensures forall i :: 0 <= i < n ==> IsAlphanumeric(s[i])
    ensures n < |s| ==> !IsAlphanumeric(s[n])
  {
    if s == "" || !IsAlphanumeric(s[0]) then 0 else 1 + RunLength(s[1..])
  }

  lemma RunLengthIs(s: string, n: nat)
    requires n <= |s| && forall i :: 0 <= i < n ==> IsAlphanumeric(s[i])
    requires n < |s| ==> !IsAlphanumeric(s[n])
    ensures RunLength(s) == n
  {
  }

  /** The maximal alphanumeric runs of `s`, in lower case. */
  function Words(s: string): seq<string> {
    if s == "" then []
    else if !IsAlphanumeric(s[0]) then Words(s[1..])
    else [Lower(s[..RunLength(s)])] + Words(s[RunLength(s)..])
  }

  function SlugOf(s: string): string {
    Join(Words(s), "-")
  }

  /** Lower-case words of letters and digits separated by single hyphens. */
  predicate WellFormedSlug(s: string) {
    && s != ""
    && s[0] != '-'
    && s[|s| - 1] != '-'
    && !ContainsPair(s, '-')
    && forall i :: 0 <= i < |s| ==> IsLowerAlphanumeric(s[i]) || s[i] == '-'
  }

  predicate EndsAlphanumeric(s: string) {
    s != "" && IsAlphanumeric(s[|s| - 1])
  }

  lemma {:induction false} JoinOfMoreWords(words: seq<string>, word: string)
    ensures Join(words + [word], "-") == if words == [] then word else Join(words, "-") + "-" + word
  {
    if words == [] {
      assert words + [word] == [word];
    } else {
      JoinOfMoreWords(words[1..], word);
      assert (words + [word])[1..] == words[1..] + [word];
    }
  }

  lemma {:induction false} JoinOfLongerLastWord(words: seq<string>, word: string, c: char)
    ensures Join(words + [word + [c]], "-") == Join(words + [word], "-") + [c]
  {
    JoinOfMoreWords(words, word);
    JoinOfMoreWords(words, word + [c]);
  }

  lemma SingleRun(s: string)
    requires s != "" && RunLength(s) == |s|
    ensures Words(s) == [Lower(s)] && EndsAlphanumeric(s)
  {
    assert s[|s|..] == "" && s[..|s|] == s;
    assert Words(s) == [Lower(s)] + Words("");
  }

  lemma RunThenSeparator(s: string, c: char)
    requires s == "" || RunLength(s) == |s|
    requires !IsAlphanumeric(c)
    ensures Words(s + [c]) == Words(s)
  {
    hide IsAlphanumeric, Lower, LowerChar;
    assert [c][1..] == "" && Words([c]) == Words("");
    if s == "" {
      assert s + [c] == [c];
    } else {
      SingleRun(s);
      RunLengthIs(s + [c], |s|);
      assert (s + [c])[|s|..] == [c] && (s + [c])[..|s|] == s;
    }
  }

  lemma LongerRun(s: string, c: char)
    requires s == "" || RunLength(s) == |s|
    requires IsAlphanumeric(c)
    ensures Words(s + [c]) == [Lower(s) + [LowerChar(c)]]
  {
    hide IsAlphanumeric, LowerChar, Words, RunLength;
    var t := s + [c];
    forall i | 0 <= i < |t| ensures IsAlphanumeric(t[i]) {
      assert i < |s| ==> t[i] == s[i];
    }
    RunLengthIs(t, |t|);
    SingleRun(t);
    LowerOfOneMore(s, c);
  }

  lemma LowerOfOneMore(s: string, c: char)
    ensures Lower(s + [c]) == Lower(s) + [LowerChar(c)]
  {
    hide Lower, LowerChar;
  }

  /** One more character at the end starts a word, lengthens the last one, or changes nothing. */
  lemma {:induction false} WordsOfOneMore(s: string, c: char)
    ensures !IsAlphanumeric(c) ==> Words(s + [c]) == Words(s)
    ensures IsAlphanumeric(c) && !EndsAlphanumeric(s) ==> Words(s + [c]) == Words(s) + [[LowerChar(c)]]
    ensures IsAlphanumeric(c) && EndsAlphanumeric(s) ==>
              && Words(s) != []
              && var last := |Words(s)| - 1;
                 Words(s + [c]) == Words(s)[..last] + [Words(s)[last] + [LowerChar(c)]]
    decreases |s|
  {
    hide IsAlphanumeric, LowerChar, Lower, RunLength;
    var t := s + [c];
    if s == "" || RunLength(s) == |s| {
      if IsAlphanumeric(c) {
        LongerRun(s, c);
      } else {
        RunThenSeparator(s, c);
      }
      if s != "" {
        SingleRun(s);
      }
      assert s == "" ==> Lower(s) + [LowerChar(c)] == [LowerChar(c)];
    } else if !IsAlphanumeric(s[0]) {
      WordsOfOneMore(s[1..], c);
      assert t[1..] == s[1..] + [c];
    } else {
      var n := RunLength(s);
      RunLengthIs(t, n);
      assert t[..n] == s[..n] && t[n..] == s[n..] + [c];
      WordsOfOneMore(s[n..], c);
    }
  }

  lemma {:induction false} WordsAreWords(s: string)
    ensures forall i :: 0 <= i < |Words(s)| ==> Words(s)[i] != ""
    ensures forall i, j :: 0 <= i < |Words(s)| && 0 <= j < |Words(s)[i]| ==> IsLowerAlphanumeric(Words(s)[i][j])
    ensures Words(s) != [] <==> exists i :: 0 <= i < |s| && IsAlphanumeric(s[i])
    decreases |s|
  {
    if s != "" {
      if IsAlphanumeric(s[0]) {
        WordsAreWords(s[RunLength(s)..]);
      } else {
        WordsAreWords(s[1..]);
        assert s == [s[0]] + s[1..];
      }
    }
  }

  /** The loop of `slugify`, one pass with a pending separator. */
  method Slugify(value: string) returns (slug: string)
    ensures slug == SlugOf(value)
  {
    slug := "";
    var separatorPending := false;
    for i := 0 to |value|
      invariant slug == SlugOf(value[..i])
      invariant separatorPending <==> slug != "" && !EndsAlphanumeric(value[..i])
    {
      var character := value[i];
      ghost var words := Words(value[..i]);
      WordsOfOneMore(value[..i], character);
      WordsAreWords(value[..i]);
      assert value[..i + 1] == value[..i] + [character];
      EmptyOnlyWithoutWords(value[..i]);
      if IsAlphanumeric(character) {
        JoinOfMoreWords(words, [LowerChar(character)]);
        if words != [] {
          var last := |words| - 1;
          assert words[..last] + [words[last]] == words;
          JoinOfLongerLastWord(words[..last], words[last], LowerChar(character));
        }
        if separatorPending && slug != "" {
          slug := slug + "-";
        }
        slug := slug + [LowerChar(character)];
        separatorPending := false;
      } else if slug != "" {
        separatorPending := true;
      }
    }
    assert value[..|value|] == value;
  }

  lemma EmptyOnlyWithoutWords(s: string)
    ensures SlugOf(s) == "" <==> Words(s) == []
  {
    WordsAreWords(s);
  }

  lemma {:induction false} WordsIgnoreLeadingSeparator(s: string)
    requires s != "" && !IsAlphanumeric(s[0])
    ensures Words(s) == Words(s[1..])
  {
  }

  lemma {:induction false} SlugIsNoLonger(s: string)
    ensures |SlugOf(s)| <= |s|
    decreases |s|
  {
    if s != "" {
      if IsAlphanumeric(s[0]) {
        var n := RunLength(s);
        var rest := s[n..];
        if rest != "" {
          WordsIgnoreLeadingSeparator(rest);
          SlugIsNoLonger(rest[1..]);
        }
        assert Words(s)[1..] == Words(rest);
      } else {
        SlugIsNoLonger(s[1..]);
      }
    }
  }

  lemma {:induction false} JoinedWordsAreWellFormed(words: seq<string>)
    requires words != []
    requires forall i :: 0 <= i < |words| ==> words[i] != ""
    requires forall i, j :: 0 <= i < |words| && 0 <= j < |words[i]| ==> IsLowerAlphanumeric(words[i][j])
    ensures WellFormedSlug(Join(words, "-"))
  {
    if |words| > 1 {
      JoinedWordsAreWellFormed(words[1..]);
      var w, rest := words[0], Join(words[1..], "-");
      var s := Join(words, "-");
      assert s == w + "-" + rest;
      assert s[|w|] == '-' && s[|w| + 1..] == rest;
      forall i | 0 < i < |s| ensures !(s[i - 1] == '-' && s[i] == '-') {
        if i > |w| + 1 {
          assert s[i] == rest[i - |w| - 1] && s[i - 1] == rest[i - |w| - 2];
        }
      }
    }
  }

  lemma AfterHyphenIsWellFormed(s: string, n: nat)
    requires WellFormedSlug(s) && n < |s| && s[n] == '-'
    ensures n + 1 < |s| && WellFormedSlug(s[n + 1..]) && IsAlphanumeric(s[n + 1])
  {
    hide IsLowerAlphanumeric;
    var rest := s[n + 1..];
    assert forall i :: 0 <= i < |rest| ==> rest[i] == s[n + 1 + i];
    LowerIsAlphanumeric(s[n + 1]);
  }

  lemma LowerIsAlphanumeric(c: char)
    ensures IsLowerAlphanumeric(c) ==> IsAlphanumeric(c) && LowerChar(c) == c
    ensures IsAlphanumeric(c) ==> c != '-'
  {
  }

  lemma {:induction false} LowerOfLower(s: string)
    requires forall i :: 0 <= i < |s| ==> LowerChar(s[i]) == s[i]
    ensures Lower(s) == s
  {
  }

  /** A well-formed slug is a lower-case run, alone or before a hyphen and another well-formed slug. */
  lemma WellFormedSlugSplits(s: string)
    requires WellFormedSlug(s)
    ensures var n := RunLength(s);
            && n > 0 && IsAlphanumeric(s[0])
            && Lower(s[..n]) == s[..n]
            && (n < |s| ==> s[n] == '-' && n + 1 < |s| && WellFormedSlug(s[n + 1..]) && IsAlphanumeric(s[n + 1]))
  {
    var n := RunLength(s);
    forall i | 0 <= i < |s|
      ensures IsAlphanumeric(s[i]) <==> s[i] != '-'
      ensures s[i] != '-' ==> LowerChar(s[i]) == s[i]
    {
      LowerIsAlphanumeric(s[i]);
    }
    hide WellFormedSlug, LowerChar, IsAlphanumeric;
    RunIsNotEmpty(s);
    LowerOfLower(s[..n]);
    if n < |s| {
      AfterHyphenIsWellFormed(s, n);
    }
  }

  lemma RunIsNotEmpty(s: string)
    requires s != "" && IsAlphanumeric(s[0])
    ensures RunLength(s) > 0
  {
  }

  lemma {:induction false} WellFormedSlugIsItsOwn(s: string)
    requires WellFormedSlug(s)
    ensures SlugOf(s) == s
    decreases |s|
  {
    WellFormedSlugSplits(s);
    hide WellFormedSlug, IsAlphanumeric, IsLowerAlphanumeric;
    var n := RunLength(s);
    if n == |s| {
      assert s[n..] == "" && s[..n] == s;
      assert Words(s) == [s] + Words("");
    } else {
      var rest := s[n + 1..];
      assert s == s[..n] + "-" + rest;
      WellFormedSlugIsItsOwn(rest);
      WordsIgnoreLeadingSeparator(s[n..]);
      assert s[n..][1..] == rest;
      assert Words(s)[1..] == Words(rest);
    }
  }

  /** The slug is empty exactly for a text without letters and digits, and otherwise well formed. */
  lemma SlugIsWellFormed(s: string)
    ensures SlugOf(s) == "" <==> forall i :: 0 <= i < |s| ==> !IsAlphanumeric(s[i])
    ensures SlugOf(s) == "" || WellFormedSlug(SlugOf(s))
  {
    WordsAreWords(s);
    if Words(s) != [] {
      JoinedWordsAreWellFormed(Words(s));
    }
  }

  /** The texts that are their own slug are the empty one and the well-formed slugs. */
  lemma SlugFixedPoints(s: string)
    ensures SlugOf(s) == s <==> s == "" || WellFormedSlug(s)
  {
    SlugIsWellFormed(s);
    if WellFormedSlug(s) {
      WellFormedSlugIsItsOwn(s);
    }
  }

  lemma SlugifyIsIdempotent(s: string)
    ensures SlugOf(SlugOf(s)) == SlugOf(s)
  {
    SlugIsWellFormed(s);
    SlugFixedPoints(SlugOf(s));
  }

  lemma WellFormedSlugIsAscii(s: string)
    requires WellFormedSlug(s)
    ensures Utf8.Length(s) == |s| && Trimmed(s)
  {
    Utf8.AsciiLength(s);
  }

  lemma DigestSlugIsWellFormed(digest: string)
    requires |digest| >= DIGEST_SLUG_LENGTH && forall i :: 0 <= i < |digest| ==> IsLowerAlphanumeric(digest[i])
    ensures WellFormedSlug("license-" + digest[..DIGEST_SLUG_LENGTH])
  {
    var s := "license-" + digest[..DIGEST_SLUG_LENGTH];
    assert s[7] == '-' && forall i :: 0 <= i < 7 || 8 <= i < |s| ==> IsLowerAlphanumeric(s[i]);
    assert s[|s| - 1] == digest[DIGEST_SLUG_LENGTH - 1];
  }

  /** An explicit slug is accepted unchanged exactly when it is well formed and at most 96 bytes long. */
  lemma ExplicitSlugUnchanged(filename: string, slug: string, digest: string)
    requires |digest| >= DIGEST_SLUG_LENGTH
    ensures DeriveSlug(filename, Some(slug), digest) == Ok(slug) <==> WellFormedSlug(slug) && |slug| <= MAX_SLUG_BYTES
  {
    SlugFixedPoints(slug);
    TrimTrims(slug);
    if WellFormedSlug(slug) {
      WellFormedSlugIsAscii(slug);
    }
    if DeriveSlug(filename, Some(slug), digest) == Ok(slug) {
      SlugIsWellFormed(Trim(slug));
    }
  }

  /** Every slug the archive derives would be accepted unchanged as an explicit slug. */
  lemma DerivedSlugIsStable(filename: string, requested: Option<string>, digest: string)
    requires |digest| >= DIGEST_SLUG_LENGTH && forall i :: 0 <= i < |digest| ==> IsLowerAlphanumeric(digest[i])
    requires DeriveSlug(filename, requested, digest).Ok?
    ensures var slug := DeriveSlug(filename, requested, digest).value;
            && WellFormedSlug(slug) && |slug| <= MAX_SLUG_BYTES
            && DeriveSlug(filename, Some(slug), digest) == Ok(slug)
  {
    var slug := DeriveSlug(filename, requested, digest).value;
    SlugIsWellFormed(if requested.Some? then Trim(requested.value) else Stem(filename));
    DigestSlugIsWellFormed(digest);
    WellFormedSlugIsAscii(slug);
    ExplicitSlugUnchanged(filename, slug, digest);
  }

  lemma DerivedTitleIsStable(filename: string, requested: Option<string>)
    requires DeriveTitle(filename, requested).Ok?
    ensures var title := DeriveTitle(filename, requested).value;
            DeriveTitle(filename, Some(title)) == Ok(title)
  {
    var source, title := if requested.Some? then requested.value else Stem(filename), DeriveTitle(filename, requested).value;
    assert title == Trim(source);
    TrimTrims(source);
    TrimTrims(title);
    assert Trim(title) == title;
  }

  // Reading a stored document back

  /** Rehydrating the stored fields of `d`. */
  function RehydrateFields(sha: Sha256, d: LicenseDocument): Option<LicenseDocument> {
    Rehydrate(sha, d.id, d.slug, d.title, d.body, d.sourceFilename, d.sha256, d.uploadedAtMs)
  }

  /** The documents that an accepted upload and an id of at least 1 give. */
  ghost predicate Producible(sha: Sha256, d: LicenseDocument) {
    d.id >= 1 &&
    exists filename, title, slug, bytes, uploadedAtMs ::
      FromUpload(sha, filename, title, slug, bytes, uploadedAtMs) ==
      Ok(LicenseDraft(d.slug, d.title, d.body, d.sourceFilename, d.sha256, d.uploadedAtMs))
  }

  /** `rehydrate` undoes `from_upload`, whatever the upload gave or left out. */
  lemma RehydrateInvertsUpload(sha: Sha256, filename: string, title: Option<string>, slug: Option<string>,
                               bytes: seq<byte>, uploadedAtMs: i64, id: i64)
    requires id >= 1
    requires FromUpload(sha, filename, title, slug, bytes, uploadedAtMs).Ok?
    ensures var document := IntoDocument(FromUpload(sha, filename, title, slug, bytes, uploadedAtMs).value, id);
            RehydrateFields(sha, document) == Some(document)
  {
    var draft := FromUpload(sha, filename, title, slug, bytes, uploadedAtMs).value;
    Utf8.EncodeOfDecode(bytes);
    DerivedTitleIsStable(filename, title);
    DerivedSlugIsStable(filename, slug, Hex(sha(bytes)));
  }

  /** A stored row that is accepted keeps its fields, its title trimmed. */
  lemma RehydratedFields(sha: Sha256, id: i64, slug: string, title: string, body: string, sourceFilename: string,
                         sha256: string, uploadedAtMs: i64)
    requires Rehydrate(sha, id, slug, title, body, sourceFilename, sha256, uploadedAtMs).Some?
    ensures Rehydrate(sha, id, slug, title, body, sourceFilename, sha256, uploadedAtMs).value ==
            LicenseDocument(id, slug, Trim(title), body, sourceFilename, sha256, uploadedAtMs)
    ensures id >= 1 && sha256 == Hex(sha(Utf8.Encode(body)))
    ensures WellFormedSlug(slug) && |slug| <= MAX_SLUG_BYTES
  {
    Utf8.DecodeOfEncode(body);
    ExplicitSlugUnchanged(sourceFilename, slug, Hex(sha(Utf8.Encode(body))));
  }

  /** The stored fields that read back unchanged are exactly those of documents an upload can produce. */
  lemma ReadsBackIffProducible(sha: Sha256, d: LicenseDocument)
    ensures RehydrateFields(sha, d) == Some(d) <==> Producible(sha, d)
  {
    if Producible(sha, d) {
      var filename, title, slug, bytes, uploadedAtMs :|
        FromUpload(sha, filename, title, slug, bytes, uploadedAtMs) ==
        Ok(LicenseDraft(d.slug, d.title, d.body, d.sourceFilename, d.sha256, d.uploadedAtMs));
      RehydrateInvertsUpload(sha, filename, title, slug, bytes, uploadedAtMs, d.id);
    }
    if RehydrateFields(sha, d) == Some(d) {
      assert FromUpload(sha, d.sourceFilename, Some(d.title), Some(d.slug), Utf8.Encode(d.body), d.uploadedAtMs).Ok?;
    }
  }

  /** The documents that can exist, field by field. */
  lemma ProducibleFields(sha: Sha256, d: LicenseDocument)
    ensures Producible(sha, d) <==>
            && d.id >= 1
            && ValidFilename(d.sourceFilename)
            && Utf8.Length(d.body) <= MAX_LICENSE_BYTES && Trim(d.body) != ""
            && Trimmed(d.title) && 0 < |d.title| <= MAX_TITLE_CHARS && !HasControl(d.title)
            && d.sha256 == Hex(sha(Utf8.Encode(d.body)))
            && WellFormedSlug(d.slug) && |d.slug| <= MAX_SLUG_BYTES
  {
    var bytes := Utf8.Encode(d.body);
    var digest := Hex(sha(bytes));
    Utf8.DecodeOfEncode(d.body);
    TrimTrims(d.title);
    ExplicitSlugUnchanged(d.sourceFilename, d.slug, digest);
    ReadsBackIffProducible(sha, d);
    hide Producible, DeriveSlug, WellFormedSlug, ValidFilename, HasControl, Trim, Trimmed, Hex, Utf8.Encode, Utf8.Decode;
  }

  // What an upload comes to

  /** The text a title or slug is derived from: the one requested, or the filename's stem. */
  ghost predicate Source(filename: string, requested: Option<string>, source: string) {
    if requested.Some? then source == requested.value else IsStem(filename, source)
  }

  /** The title is its source without outer white space, of 1 to 160 characters, none of them a control. */
  lemma TitleIs(filename: string, requested: Option<string>, source: string, title: string)
    requires Source(filename, requested, source)
    ensures DeriveTitle(filename, requested) == Ok(title) <==>
            Trimmed(title) && Surrounds(source, title) && 0 < |title| <= 160 && !HasControl(title)
    ensures DeriveTitle(filename, requested).Err? ==> DeriveTitle(filename, requested).error == InvalidTitle
  {
    hide HasControl, Trim, Stem;
    StemIs(filename, source);
    TrimIs(source, title);
  }

  predicate HasWord(s: string) {
    exists i :: 0 <= i < |s| && IsAlphanumeric(s[i])
  }

  /** What may stand in a requested slug once it is trimmed. */
  predicate SlugText(s: string) {
    && s != "" && !ContainsPair(s, '.')
    && forall i :: 0 <= i < |s| ==> IsAlphanumeric(s[i]) || s[i] == ' ' || s[i] == '.' || s[i] == '_' || s[i] == '-'
  }

  lemma SlugTextIs(s: string)
    ensures SlugText(s) <==>
            !(s == "" || ContainsPair(s, '.') || exists i :: 0 <= i < |s| && !AllowedInSlug(s[i]))
  {
    hide ContainsPair, IsAlphanumeric;
    assert forall c :: c in " ._-" <==> c == ' ' || c == '.' || c == '_' || c == '-';
  }

  /** A requested slug is that of the trimmed request, if its characters are allowed and one of them is a letter or digit. */
  lemma RequestedSlugIs(filename: string, requested: string, trimmed: string, digest: string, slug: string)
    requires |digest| >= DIGEST_SLUG_LENGTH && Trimmed(trimmed) && Surrounds(requested, trimmed)
    ensures DeriveSlug(filename, Some(requested), digest) == Ok(slug) <==>
            SlugText(trimmed) && HasWord(trimmed) && slug == SlugOf(trimmed) && |slug| <= 96
    ensures DeriveSlug(filename, Some(requested), digest).Err? ==>
              DeriveSlug(filename, Some(requested), digest).error == InvalidSlug
  {
    TrimIs(requested, trimmed);
    SlugTextIs(trimmed);
    SlugIsWellFormed(trimmed);
    hide SlugOf, SlugText, Trim, Trimmed, IsAlphanumeric;
    if SlugOf(trimmed) != "" {
      WellFormedSlugIsAscii(SlugOf(trimmed));
    }
  }

  /** Without a request the slug is that of the stem, or is made of the digest exactly if the stem has no letter or digit. */
  lemma StemSlugIs(filename: string, stem: string, digest: string, slug: string)
    requires |digest| >= DIGEST_SLUG_LENGTH && IsStem(filename, stem)
    ensures DeriveSlug(filename, None, digest) == Ok(slug) <==>
            if HasWord(stem) then slug == SlugOf(stem) && |slug| <= 96 else slug == "license-" + digest[..12]
    ensures DeriveSlug(filename, None, digest).Err? ==> DeriveSlug(filename, None, digest).error == InvalidSlug
  {
    StemIs(filename, stem);
    SlugIsWellFormed(stem);
    hide SlugOf, Stem, IsAlphanumeric;
    if SlugOf(stem) != "" {
      WellFormedSlugIsAscii(SlugOf(stem));
    }
  }

  /** The draft of an upload, field by field; it exists exactly under these conditions. */
  lemma UploadIs(sha: Sha256, filename: string, title: Option<string>, slug: Option<string>, bytes: seq<byte>,
                 uploadedAtMs: i64, d: LicenseDraft)
    ensures FromUpload(sha, filename, title, slug, bytes, uploadedAtMs) == Ok(d) <==>
            && ValidFilename(filename) && |bytes| <= 1024 * 1024
            && bytes == Utf8.Encode(d.body) && Trim(d.body) != ""
            && d.sha256 == Hex(sha(bytes))
            && DeriveTitle(filename, title) == Ok(d.title)
            && DeriveSlug(filename, slug, Hex(sha(bytes))) == Ok(d.slug)
            && d.sourceFilename == filename && d.uploadedAtMs == uploadedAtMs
  {
    hide ValidFilename, DeriveTitle, DeriveSlug, Trim, Utf8.Encode, Utf8.Decode;
    Utf8.DecodesExactlyItsEncoding(bytes, d.body);
  }

  /** The two hexadecimal digits of each byte, the higher first. */
  lemma {:induction false} HexDigits(bs: seq<byte>, i: nat)
    requires i < |bs|
    ensures HexValue(Hex(bs)[2 * i]) * 16 + HexValue(Hex(bs)[2 * i + 1]) == bs[i]
  {
    if i > 0 {
      HexDigits(bs[1..], i - 1);
    }
  }

  function HexValue(c: char): int {
    if '0' <= c <= '9' then c as int - '0' as int else c as int - 'a' as int + 10
  }
}
