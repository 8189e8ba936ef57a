/**
 The database as the store sees it: durable rows, one session with at most one
 open transaction, and a fault that any call may take.

 A table is its rows in the order of the unique index on `id`, which is what
 `SELECT ... ORDER BY id` lists.
 */
module Rnmdb {
  import opened LicenseTable
  import opened SqlText
  import opened Wrappers
  import Sql

  type Table = seq<Row>

  datatype StorageError = OpenFailed | ExecuteFailed | CheckpointFailed

  datatype CommandOutput = Rows(rows: Table) | Complete

  function RowId(row: Row): int {
    if LicenseShape(row) then row[0].value else 0
  }

  function RowSlug(row: Row): string {
    if LicenseShape(row) then row[1].text else ""
  }

  predicate Ordered(t: Table) {
    forall i, j :: 0 <= i < j < |t| ==> RowId(t[i]) < RowId(t[j])
  }

  function InsertRow(t: Table, row: Row): Table {
    if t == [] then [row]
    else if RowId(row) < RowId(t[0]) then [row] + t
    else [t[0]] + InsertRow(t[1..], row)
  }

  function WithoutSlug(t: Table, slug: string): Table {
    if t == [] then []
    else if RowSlug(t[|t| - 1]) == slug then WithoutSlug(t[..|t| - 1], slug)
    else WithoutSlug(t[..|t| - 1], slug) + [t[|t| - 1]]
  }

  /** The rows after a statement; nothing when a column type or a unique index refuses it. */
  function Apply(t: Table, statement: Statement): Option<Table> {
    match statement
    case Insert(values) =>
      if !LicenseShape(values) || exists i :: 0 <= i < |t| && (RowId(t[i]) == RowId(values) || RowSlug(t[i]) == RowSlug(values))
      then None
      else Some(InsertRow(t, values))
    case Delete(slug) => Some(WithoutSlug(t, slug))
  }

  lemma {:induction false} InsertRowKeepsOrder(t: Table, row: Row)
    requires Ordered(t) && forall i :: 0 <= i < |t| ==> RowId(t[i]) != RowId(row)
    ensures Ordered(InsertRow(t, row))
    ensures forall r :: r in InsertRow(t, row) <==> r == row || r in t
  {
    if t != [] && RowId(row) > RowId(t[0]) {
      InsertRowKeepsOrder(t[1..], row);
      var rest := InsertRow(t[1..], row);
      forall j | 0 <= j < |rest| ensures RowId(t[0]) < RowId(rest[j]) {
        assert rest[j] in rest;
      }
      assert t == [t[0]] + t[1..];
    }
  }

  lemma {:induction false} WithoutSlugRows(t: Table, slug: string)
    ensures forall r :: r in WithoutSlug(t, slug) <==> r in t && RowSlug(r) != slug
    ensures Ordered(t) ==> Ordered(WithoutSlug(t, slug))
  {
    if t != [] {
      var front, last := t[..|t| - 1], t[|t| - 1];
      WithoutSlugRows(front, slug);
      assert t == front + [last];
      var kept := WithoutSlug(front, slug);
      if Ordered(t) {
        forall i | 0 <= i < |kept| ensures RowId(kept[i]) < RowId(last) {
          assert kept[i] in front;
        }
      }
    }
  }

  lemma ApplyKeepsOrder(t: Table, statement: Statement)
    requires Ordered(t) && Apply(t, statement).Some?
    ensures Ordered(Apply(t, statement).value)
  {
    match statement
    case Insert(values) => InsertRowKeepsOrder(t, values);
    case Delete(slug) => WithoutSlugRows(t, slug);
  }

  /** A row with a larger id than every other one comes last. */
  lemma {:induction false} InsertRowAtEnd(t: Table, row: Row)
    requires forall i :: 0 <= i < |t| ==> RowId(t[i]) < RowId(row)
    ensures InsertRow(t, row) == t + [row]
  {
    if t != [] {
      InsertRowAtEnd(t[1..], row);
    }
  }

  /** A row whose identifier is the largest and whose slug is new is accepted and comes last. */
  lemma ApplyAppends(t: Table, row: Row)
    requires Ordered(t) && LicenseShape(row)
    requires forall i :: 0 <= i < |t| ==> RowId(t[i]) < RowId(row) && RowSlug(t[i]) != RowSlug(row)
    ensures Apply(t, Insert(row)) == Some(t + [row])
    ensures Ordered(t + [row])
  {
    hide RowId, RowSlug, LicenseShape;
    InsertRowAtEnd(t, row);
  }

  /** Rows as wide as the table, in the order of their identifiers. */
  predicate Tabular(t: Table) {
    Ordered(t) && forall row :: row in t ==> |row| == |COLUMNS|
  }

  lemma ApplyKeepsTabular(t: Table, statement: Statement)
    requires Tabular(t) && Apply(t, statement).Some?
    ensures Tabular(Apply(t, statement).value)
  {
    ApplyKeepsOrder(t, statement);
    match statement
    case Insert(values) => InsertRowKeepsOrder(t, values);
    case Delete(slug) => WithoutSlugRows(t, slug);
  }

  /** The keys of a row stand in the columns `id` and `slug`. */
  lemma KeysByName(row: Row)
    requires LicenseShape(row)
    ensures Find(NamesOf(COLUMNS), ID) == 0 && Find(NamesOf(COLUMNS), SLUG) == 1
    ensures row[Find(NamesOf(COLUMNS), ID)] == Int64(RowId(row))
    ensures row[Find(NamesOf(COLUMNS), SLUG)] == Text(RowSlug(row))
  {
    var names := NamesOf(COLUMNS);
    NamesDiffer();
    assert names[0] == ID && names[1] == SLUG;
    FindsItsPlace(names, 0);
    FindsItsPlace(names, 1);
  }

  /** The database file, and how many calls on it have failed so far. */
  class Database {
    var created: bool          // the table `licenses` exists
    var unique: set<string>    // its columns with a unique index
    var checkpointed: bool     // the schema is durable
    var rows: Table
    ghost var faults: nat

    ghost predicate Valid()
      reads this
    {
      Tabular(rows)
    }

    /** The schema the store creates is there. */
    predicate Ready()
      reads this
    {
      created && ID in unique && SLUG in unique
    }

    constructor ()
      ensures Valid() && rows == [] && !created && unique == {} && faults == 0
    {
      created, unique, checkpointed, rows, faults := false, {}, false, [], 0;
    }
  }

  /** A schema statement for the table as the store knows it. */
  predicate Creates(syntax: Sql.Syntax) {
    match syntax
    case CreateTable(table, columns) => table == TABLE && columns == COLUMNS
    case CreateUniqueIndex(_, table, column) => table == TABLE && column in NamesOf(COLUMNS)
    case _ => false
  }

  /** A scan of known columns of the table. */
  predicate Scans(syntax: Sql.Syntax) {
    syntax.SelectFrom? && syntax.table == TABLE && syntax.order in NamesOf(COLUMNS) &&
    forall name :: name in syntax.names ==> name in NamesOf(COLUMNS)
  }

  function ProjectedRows(names: seq<string>, t: Table): Table
    requires Tabular(t) && forall name :: name in names ==> name in NamesOf(COLUMNS)
  {
    seq(|t|, i requires 0 <= i < |t| => Projected(names, t[i]))
  }

  lemma AllColumnsShow(t: Table)
    requires Tabular(t)
    ensures ProjectedRows(NamesOf(COLUMNS), t) == t
  {
    hide Projected, NamesOf;
    forall i | 0 <= i < |t| ensures Projected(NamesOf(COLUMNS), t[i]) == t[i] {
      assert t[i] in t;
      InColumnOrder(t[i]);
    }
  }

  /** `RnmdbSession`.  A session that is dropped takes its open transaction with it. */
  class Session {
    const database: Database
    var transaction: Option<Table>

    ghost predicate Valid()
      reads this, database
    {
      database.Valid() && (transaction.Some? ==> Tabular(transaction.value))
    }

    constructor (database: Database)
      requires database.Valid()
      ensures Valid() && this.database == database && transaction == None
    {
      this.database := database;
      transaction := None;
    }

    static method Open(database: Database) returns (r: Result<Session, StorageError>)
      requires database.Valid()
      modifies database`faults
      ensures r.Ok? ==> fresh(r.value) && r.value.Valid() && r.value.database == database && r.value.transaction == None
      ensures database.faults == old(database.faults) + if r.Ok? then 0 else 1
    {
      var fault: bool := *;
      if fault {
        database.faults := database.faults + 1;
        return Err(OpenFailed);
      }
      var session := new Session(database);
      r := Ok(session);
    }

    method Checkpoint() returns (r: Result<(), StorageError>)
      modifies database`faults, database`checkpointed
      ensures database.faults == old(database.faults) + if r.Ok? then 0 else 1
      ensures r.Ok? ==> database.checkpointed
    {
      var fault: bool := *;
      if fault {
        database.faults := database.faults + 1;
        return Err(CheckpointFailed);
      }
      database.checkpointed := true;
      r := Ok(());
    }

    /** The call fails.  Any transaction may be left behind, and a COMMIT may have reached the durable rows. */
    method Fail(syntax: Option<Sql.Syntax>)
      requires Valid()
      modifies this, database`rows, database`faults
      ensures Valid() && database.faults == old(database.faults) + 1
      ensures database.rows == old(database.rows) ||
              (syntax == Some(Sql.Commit) && old(transaction) == Some(database.rows))
    {
      var landed: bool := *;
      if landed && syntax == Some(Sql.Commit) && transaction.Some? {
        database.rows := transaction.value;
      }
      database.faults := database.faults + 1;
      Refuse();
    }

    /** The database refuses a statement. */
    method Refuse()
      requires Valid()
      modifies this
      ensures Valid()
    {
      transaction := *;
      if transaction.Some? && !Tabular(transaction.value) {
        transaction := None;
      }
    }

    method Create(syntax: Sql.Syntax)
      requires Valid() && Creates(syntax) && (syntax.CreateTable? || database.created)
      modifies database`created, database`unique, database`checkpointed
      ensures Valid() && old(database.unique) <= database.unique && (old(database.created) ==> database.created)
      ensures syntax.CreateTable? ==> database.created
      ensures syntax.CreateUniqueIndex? ==> syntax.column in database.unique
    {
      if syntax.CreateTable? {
        database.checkpointed := database.checkpointed && database.created;
        database.created := true;
      } else {
        database.checkpointed := database.checkpointed && syntax.column in database.unique;
        database.unique := database.unique + {syntax.column};
      }
    }

    /** The rows of a scan, in the order of their identifiers if it asks for that. */
    method Scan(syntax: Sql.Syntax) returns (rows: Table)
      requires Valid() && Scans(syntax)
      ensures syntax.order == ID ==>
                rows == ProjectedRows(syntax.names, if transaction.Some? then transaction.value else database.rows)
    {
      rows := ProjectedRows(syntax.names, if transaction.Some? then transaction.value else database.rows);
      if syntax.order != ID {
        rows := *;
      }
    }

    /** Runs one statement: it may fail, and what the database does not know it refuses. */
    method Execute(sql: string) returns (r: Result<CommandOutput, StorageError>)
      requires Valid()
      modifies this, database
      ensures Valid() && old(database.faults) <= database.faults
      ensures r.Ok? ==> database.faults == old(database.faults)
      ensures old(database.unique) <= database.unique && (old(database.created) ==> database.created)
      ensures Sql.Read(sql) == Some(Sql.Begin) ==>
                && database.rows == old(database.rows)
                && (r.Ok? ==> transaction == Some(old(database.rows)))
                && (old(transaction) == None && r.Err? ==> database.faults > old(database.faults))
      ensures Sql.Read(sql) == Some(Sql.Commit) ==>
                && (r.Ok? ==> old(transaction) == Some(database.rows) && transaction == None)
                && (r.Err? ==> database.rows == old(database.rows) || old(transaction) == Some(database.rows))
                && (old(transaction).Some? && r.Err? ==> database.faults > old(database.faults))
      ensures Sql.Read(sql) == Some(Sql.Rollback) ==>
                && database.rows == old(database.rows)
                && (r.Ok? ==> transaction == None)
                && (old(transaction).Some? && r.Err? ==> database.faults > old(database.faults))
      ensures Sql.Read(sql).Some? && Creates(Sql.Read(sql).value) ==>
                var syntax := Sql.Read(sql).value;
                && database.rows == old(database.rows)
                && (r.Ok? ==> transaction == old(transaction) && (if syntax.CreateTable? then database.created else syntax.column in database.unique))
                && ((syntax.CreateTable? || old(database.created)) && r.Err? ==> database.faults > old(database.faults))
      ensures Sql.Read(sql).Some? && Scans(Sql.Read(sql).value) ==>
                var syntax := Sql.Read(sql).value;
                && database.rows == old(database.rows) && database.checkpointed == old(database.checkpointed)
                && (r.Ok? ==> transaction == old(transaction) && r.value.Rows?)
                && (r.Ok? && old(transaction) == None && syntax.order == ID ==>
                      r.value == Rows(ProjectedRows(syntax.names, database.rows)))
                && (old(database.created) && r.Err? ==> database.faults > old(database.faults))
      ensures ReadStatement(sql).Some? && old(transaction).Some? ==>
                var applied := Apply(old(transaction).value, ReadStatement(sql).value);
                && database.rows == old(database.rows)
                && (r.Ok? ==> transaction == applied != None)
                && (old(database.Ready()) && applied.Some? && r.Err? ==> database.faults > old(database.faults))
    {
      var syntax := Sql.Read(sql);
      hide Sql.Read, Apply, Tabular, NamesOf;
      r := Err(ExecuteFailed);
      var fault: bool := *;
      if fault {
        Fail(syntax);
      } else if syntax == Some(Sql.Begin) && transaction.None? {
        transaction := Some(database.rows);
        r := Ok(Complete);
      } else if syntax == Some(Sql.Commit) && transaction.Some? {
        database.rows := transaction.value;
        transaction := None;
        r := Ok(Complete);
      } else if syntax == Some(Sql.Rollback) && transaction.Some? {
        transaction := None;
        r := Ok(Complete);
      } else if syntax.Some? && Creates(syntax.value) && (syntax.value.CreateTable? || database.created) {
        Create(syntax.value);
        r := Ok(Complete);
      } else if syntax.Some? && Scans(syntax.value) && database.created {
        var rows := Scan(syntax.value);
        r := Ok(Rows(rows));
      } else if syntax.Some? && StatementOf(syntax.value).Some? && database.Ready() {
        r := Change(StatementOf(syntax.value).value);
      } else {
        Refuse();
      }
    }

    /** Changes the rows, in the open transaction if there is one. */
    method Change(statement: Statement) returns (r: Result<CommandOutput, StorageError>)
      requires Valid()
      modifies this, database`rows
      ensures Valid()
      ensures old(transaction).Some? ==>
                var applied := Apply(old(transaction).value, statement);
                && database.rows == old(database.rows)
                && (r.Ok? <==> applied.Some?)
                && (r.Ok? ==> transaction == applied)
    {
      hide Apply;
      var applied := Apply(if transaction.Some? then transaction.value else database.rows, statement);
      if applied.None? {
        Refuse();
        return Err(ExecuteFailed);
      }
      ApplyKeepsTabular(if transaction.Some? then transaction.value else database.rows, statement);
      if transaction.Some? {
        transaction := applied;
      } else {
        database.rows := applied.value;
      }
      r := Ok(Complete);
    }
  }
}
