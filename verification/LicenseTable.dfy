/** The table `licenses` as the database has it, and how it reads the statements that change its rows. */
module LicenseTable {
  import opened SqlText
  import opened Wrappers
  import Sql

  type Row = seq<SqlValue>

  const TABLE := "licenses"
  const ID := "id"
  const SLUG := "slug"

  /** The columns in the order of a row's values. */
  const COLUMNS: seq<Sql.Column> := [
    Sql.Column(ID, "INT64"), Sql.Column(SLUG, "TEXT"), Sql.Column("title", "TEXT"), Sql.Column("body_base64", "TEXT"),
    Sql.Column("source_filename", "TEXT"), Sql.Column("sha256", "TEXT"), Sql.Column("uploaded_at_ms", "INT64")]

  function NamesOf(columns: seq<Sql.Column>): seq<string> {
    seq(|columns|, i requires 0 <= i < |columns| => columns[i].name)
  }

  predicate HasKind(v: SqlValue, kind: string) {
    (kind == "INT64" && v.Int64?) || (kind == "TEXT" && v.Text?)
  }

  /** One value for each column, of its kind; `ShapeFitsColumns` says so. */
  predicate LicenseShape(values: Row) {
    && |values| == 7
    && values[0].Int64?
    && values[1].Text?
    && values[2].Text?
    && values[3].Text?
    && values[4].Text?
    && values[5].Text?
    && values[6].Int64?
  }

  lemma ShapeFitsColumns(row: Row)
    ensures LicenseShape(row) <==> |row| == |COLUMNS| && forall i :: 0 <= i < |row| ==> HasKind(row[i], COLUMNS[i].kind)
  {
    assert |"INT64"| == 5 && |"TEXT"| == 4;
    if |row| == |COLUMNS| {
      assert COLUMNS[0].kind == COLUMNS[6].kind == "INT64";
      assert forall i :: 1 <= i <= 5 ==> COLUMNS[i].kind == "TEXT";
      assert HasKind(row[0], COLUMNS[0].kind) <==> row[0].Int64?;
      assert HasKind(row[6], COLUMNS[6].kind) <==> row[6].Int64?;
      assert forall i :: 1 <= i <= 5 ==> (HasKind(row[i], COLUMNS[i].kind) <==> row[i].Text?);
    }
  }

  /** The first place of a name; the length if there is none. */
  function Find(names: seq<string>, name: string): (i: nat)
    ensures i <= |names| && (i < |names| ==> names[i] == name)
    ensures i == |names| <==> name !in names
  {
    if names == [] then 0 else if names[0] == name then 0 else 1 + Find(names[1..], name)
  }

  /** The row that values under the given names make: every column named once, in any order. */
  function Arranged(names: seq<string>, values: seq<SqlValue>): Option<Row> {
    if |names| == |values| == |COLUMNS| && forall i :: 0 <= i < |COLUMNS| ==> COLUMNS[i].name in names then
      Some(seq(|COLUMNS|, i requires 0 <= i < |COLUMNS| => values[Find(names, COLUMNS[i].name)]))
    else
      None
  }

  /** What a scan of the named columns shows of a row. */
  function Projected(names: seq<string>, row: Row): Row
    requires |row| == |COLUMNS| && forall name :: name in names ==> name in NamesOf(COLUMNS)
  {
    seq(|names|, k requires 0 <= k < |names| => row[Find(NamesOf(COLUMNS), names[k])])
  }

  datatype Statement = Insert(values: Row) | Delete(slug: string)

  /** The statements that change rows of the table, by what they say. */
  function StatementOf(syntax: Sql.Syntax): Option<Statement> {
    match syntax
    case InsertInto(table, names, values) =>
      if table == TABLE && Arranged(names, values).Some? then Some(Insert(Arranged(names, values).value)) else None
    case DeleteFrom(table, column, value) =>
      if table == TABLE && column == SLUG && value.Text? then Some(Delete(value.text)) else None
    case _ => None
  }

  function ReadStatement(sql: string): Option<Statement> {
    match Sql.Read(sql)
    case None => None
    case Some(syntax) => StatementOf(syntax)
  }

  lemma {:induction false} FindsItsPlace(names: seq<string>, i: nat)
    requires i < |names| && forall j, k :: 0 <= j < k < |names| ==> names[j] != names[k]
    ensures Find(names, names[i]) == i
  {
    if i > 0 {
      assert names[1..][i - 1] == names[i];
      FindsItsPlace(names[1..], i - 1);
    }
  }

  /** No two columns share a name: their names differ in length. */
  lemma NamesDiffer()
    ensures var names := NamesOf(COLUMNS);
            |names| == 7 && forall j, k :: 0 <= j < k < |names| ==> names[j] != names[k]
  {
    var names := NamesOf(COLUMNS);
    assert |names[0]| == 2 && |names[1]| == 4 && |names[2]| == 5 && |names[3]| == 11;
    assert |names[4]| == 15 && |names[5]| == 6 && |names[6]| == 14;
    forall j, k | 0 <= j < k < |names| ensures |names[j]| != |names[k]| {
    }
  }

  /** Values given in the order of the columns are a row, and a scan of all columns in their order shows it. */
  lemma InColumnOrder(row: Row)
    requires |row| == |COLUMNS|
    ensures Arranged(NamesOf(COLUMNS), row) == Some(row)
    ensures Projected(NamesOf(COLUMNS), row) == row
  {
    var names := NamesOf(COLUMNS);
    NamesDiffer();
    forall i | 0 <= i < |names| ensures Find(names, names[i]) == i && COLUMNS[i].name in names {
      assert names[i] == COLUMNS[i].name;
      FindsItsPlace(names, i);
    }
    var arranged := Arranged(names, row).value;
    assert forall i :: 0 <= i < |row| ==> arranged[i] == row[i];
    assert arranged == row;
  }
}
