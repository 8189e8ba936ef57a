/** The row and the SQL text that stand for a document in the `licenses` table (`src/store.rs`). */
module Codec {
  import opened Domain
  import opened LicenseTable
  import opened SqlText
  import opened Strings
  import opened Wrappers
  import Base64
  import Sql
  import Utf8

  datatype CorruptReason = NoRows | UnexpectedShape | InvalidBody | InvalidFields | DuplicatePersistedSlug | IdOverflow

  // The texts are put together from their words, as `Sql` reads them.

  const INSERTED: seq<string> := ["id", "slug", "title", "body_base64", "source_filename", "sha256", "uploaded_at_ms"]

  function InsertStatement(document: LicenseDocument): string {
    var values := [
      IntText(document.id),
      SqlTextLiteral(document.slug),
      SqlTextLiteral(document.title),
      SqlTextLiteral(Base64.Encode(Utf8.Encode(document.body))),
      SqlTextLiteral(document.sourceFilename),
      SqlTextLiteral(document.sha256),
      IntText(document.uploadedAtMs)
    ];
    Join(["INSERT", "INTO", "licenses"], " ") +
      (" (" + (Join(INSERTED, ", ") + (") VALUES (" + (Join(values, ", ") + ");"))))
  }

  function DeleteStatement(slug: string): string {
    Join(["DELETE", "FROM", "licenses", "WHERE", "slug"], " ") + (" = " + (SqlTextLiteral(slug) + ";"))
  }

  const DEFINED: seq<Sql.Column> := [
    Sql.Column("id", "INT64"), Sql.Column("slug", "TEXT"), Sql.Column("title", "TEXT"), Sql.Column("body_base64", "TEXT"),
    Sql.Column("source_filename", "TEXT"), Sql.Column("sha256", "TEXT"), Sql.Column("uploaded_at_ms", "INT64")]

  const CREATE_TABLE :=
    Join(["CREATE", "TABLE", "IF", "NOT", "EXISTS", "licenses"], " ") + (" (" + (Sql.Definitions(DEFINED) + ");"))
  const CREATE_ID_INDEX :=
    Join(["CREATE", "UNIQUE", "INDEX", "IF", "NOT", "EXISTS", "licenses_id_uq", "ON", "licenses"], " ") +
    (" (" + ("id" + ");"))
  const CREATE_SLUG_INDEX :=
    Join(["CREATE", "UNIQUE", "INDEX", "IF", "NOT", "EXISTS", "licenses_slug_uq", "ON", "licenses"], " ") +
    (" (" + ("slug" + ");"))
  const SCHEMA_STATEMENTS: seq<string> := [CREATE_TABLE, CREATE_ID_INDEX, CREATE_SLUG_INDEX]

  const SELECTED: seq<string> := ["id", "slug", "title", "body_base64", "source_filename", "sha256", "uploaded_at_ms"]
  const LOAD_LICENSES_SQL :=
    "SELECT" + (" " + (Join(SELECTED, ", ") + (" " + (Join(["FROM", "licenses", "ORDER", "BY", "id"], " ") + ";"))))

  function DecodeDocument(sha: Sha256, values: Row): Result<LicenseDocument, CorruptReason> {
    if !LicenseShape(values) then
      Err(UnexpectedShape)
    else
      match Base64.Decode(values[3].text)
      case None => Err(InvalidBody)
      case Some(bytes) =>
        match Utf8.Decode(bytes)
        case None => Err(InvalidBody)
        case Some(body) =>
          match Rehydrate(sha, values[0].value, values[1].text, values[2].text, body, values[4].text, values[5].text,
                          values[6].value)
          case None => Err(InvalidFields)
          case Some(document) => Ok(document)
  }

  /** The values that the inserted text denotes. */
  function RowOf(d: LicenseDocument): Row {
    [Int64(d.id), Text(d.slug), Text(d.title), Text(Base64.Encode(Utf8.Encode(d.body))), Text(d.sourceFilename),
     Text(d.sha256), Int64(d.uploadedAtMs)]
  }

  lemma ShortWords()
    ensures Sql.IsWord("id") && Sql.IsWord("slug") && Sql.IsWord("title") && Sql.IsWord("sha256")
    ensures Sql.IsWord("INT64") && Sql.IsWord("TEXT")
  {
  }

  lemma LongWords()
    ensures Sql.IsWord("body_base64") && Sql.IsWord("source_filename") && Sql.IsWord("uploaded_at_ms")
  {
  }

  lemma ColumnNames()
    ensures INSERTED == SELECTED == NamesOf(COLUMNS) && DEFINED == COLUMNS
    ensures forall name :: name in INSERTED ==> Sql.IsWord(name)
    ensures forall c :: c in DEFINED ==> Sql.IsWord(c.name) && Sql.IsWord(c.kind)
  {
    hide Sql.IsWord;
    ShortWords();
    LongWords();
    var names := NamesOf(COLUMNS);
    assert INSERTED[0] == names[0] && INSERTED[1] == names[1] && INSERTED[2] == names[2] && INSERTED[3] == names[3];
    assert INSERTED[4] == names[4] && INSERTED[5] == names[5] && INSERTED[6] == names[6];
  }

  /** The values written are the literals of the document's row. */
  lemma WrittenValues(d: LicenseDocument)
    ensures (forall v :: v in RowOf(d) ==> !v.Other?) && |RowOf(d)| == 7
    ensures Literals(RowOf(d)) == [
              IntText(d.id), SqlTextLiteral(d.slug), SqlTextLiteral(d.title),
              SqlTextLiteral(Base64.Encode(Utf8.Encode(d.body))), SqlTextLiteral(d.sourceFilename),
              SqlTextLiteral(d.sha256), IntText(d.uploadedAtMs)]
  {
    hide Utf8.Encode, Base64.Encode, Literals, IntText, SqlTextLiteral;
    LiteralsOfSeven(RowOf(d));
  }

  /** The statement written for any document is read as an insertion of its row. */
  lemma ReadsInsertStatement(d: LicenseDocument)
    ensures Sql.Read(InsertStatement(d)) == Some(Sql.InsertInto("licenses", INSERTED, RowOf(d)))
    ensures ReadStatement(InsertStatement(d)) == Some(Insert(RowOf(d)))
  {
    hide Sql.Read, Join, RowOf, Literals, Arranged, Sql.IsWord, IntText, SqlTextLiteral;
    WrittenValues(d);
    ColumnNames();
    TableIsWord();
    Sql.ReadsInsert("licenses", INSERTED, RowOf(d));
    hide InsertStatement;
    InColumnOrder(RowOf(d));
  }

  lemma TableIsWord()
    ensures Sql.IsWord("licenses") && Sql.IsWord("licenses_id_uq") && Sql.IsWord("licenses_slug_uq")
  {
  }

  lemma LiteralsOfSeven(vs: seq<SqlValue>)
    requires |vs| == 7 && forall v :: v in vs ==> !v.Other?
    ensures Literals(vs) == [Literal(vs[0]), Literal(vs[1]), Literal(vs[2]), Literal(vs[3]), Literal(vs[4]),
                             Literal(vs[5]), Literal(vs[6])]
  {
    hide Literal;
  }

  /** The statement written for any slug is read as a deletion from `licenses` by equality of column `slug`. */
  lemma ReadsDeleteStatement(slug: string)
    ensures Sql.Read(DeleteStatement(slug)) == Some(Sql.DeleteFrom("licenses", "slug", Text(slug)))
    ensures ReadStatement(DeleteStatement(slug)) == Some(Delete(slug))
  {
    Sql.ReadsDelete("licenses", "slug", Text(slug));
  }

  /** The fixed statements create the table and its two unique indexes, and scan all its columns by identifier. */
  lemma ReadsSchema()
    ensures Sql.Read(CREATE_TABLE) == Some(Sql.CreateTable("licenses", COLUMNS))
    ensures Sql.Read(CREATE_ID_INDEX) == Some(Sql.CreateUniqueIndex("licenses_id_uq", "licenses", "id"))
    ensures Sql.Read(CREATE_SLUG_INDEX) == Some(Sql.CreateUniqueIndex("licenses_slug_uq", "licenses", "slug"))
    ensures Sql.Read(LOAD_LICENSES_SQL) == Some(Sql.SelectFrom(NamesOf(COLUMNS), "licenses", "id"))
  {
    hide Sql.Read, Join, Sql.Definitions, Sql.IsWord;
    ColumnNames();
    ShortWords();
    TableIsWord();
    Sql.ReadsCreateTable("licenses", DEFINED);
    Sql.ReadsCreateIndex("licenses_id_uq", "licenses", "id");
    Sql.ReadsCreateIndex("licenses_slug_uq", "licenses", "slug");
    Sql.ReadsSelect(SELECTED, "licenses", "id");
  }

  /** Decoding a document's row is rehydrating its fields. */
  lemma DecodesRow(sha: Sha256, d: LicenseDocument)
    ensures DecodeDocument(sha, RowOf(d)) ==
            if RehydrateFields(sha, d).Some? then Ok(RehydrateFields(sha, d).value) else Err(InvalidFields)
  {
    Base64.DecodeOfEncode(Utf8.Encode(d.body));
    Utf8.DecodeOfEncode(d.body);
  }

  /** What the written text says decodes to the document itself exactly when an upload can produce the document. */
  lemma TextRoundTrip(sha: Sha256, d: LicenseDocument)
    ensures ReadStatement(InsertStatement(d)).Some? && ReadStatement(InsertStatement(d)).value.Insert?
    ensures DecodeDocument(sha, ReadStatement(InsertStatement(d)).value.values) == Ok(d) <==> Producible(sha, d)
  {
    ReadsInsertStatement(d);
    DecodesRow(sha, d);
    ReadsBackIffProducible(sha, d);
  }

  /** The body of an accepted row is stored in its only encoding. */
  lemma DecodedBody(text: string, bytes: seq<byte>, body: string)
    requires Base64.Decode(text) == Some(bytes) && Utf8.Decode(bytes) == Some(body)
    ensures text == Base64.Encode(Utf8.Encode(body))
  {
    Base64.EncodeOfDecode(text);
    Utf8.EncodeOfDecode(bytes);
  }

  /** An accepted row holds the document it decodes to, except that the stored title may be untrimmed. */
  lemma DecodedRow(sha: Sha256, row: Row)
    requires DecodeDocument(sha, row).Ok?
    ensures var d := DecodeDocument(sha, row).value;
            && LicenseShape(row)
            && RowOf(d) == row[2 := Text(Trim(row[2].text))]
            && d.id >= 1
  {
    hide Rehydrate, Base64.Decode, Utf8.Decode, Base64.Encode, Utf8.Encode, Trim;
    var bytes := Base64.Decode(row[3].text).value;
    var body := Utf8.Decode(bytes).value;
    DecodedBody(row[3].text, bytes, body);
    RehydratedFields(sha, row[0].value, row[1].text, row[2].text, body, row[4].text, row[5].text, row[6].value);
    var d := DecodeDocument(sha, row).value;
    assert d == LicenseDocument(row[0].value, row[1].text, Trim(row[2].text), body, row[4].text, row[5].text, row[6].value);
  }
}
