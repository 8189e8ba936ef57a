/** The store's own code over the database: opening, commands, transactions, recovery (`src/store.rs`). */
module StoreCore {
  import opened Codec
  import opened Domain
  import opened LicenseTable
  import opened Listing
  import opened Rnmdb
  import opened StoreSpec
  import opened Wrappers
  import Sql

  datatype StoreStartError = Storage(error: StorageError) | Corrupt(reason: CorruptReason)

  datatype DatabaseState = DatabaseState(session: Session, licenses: map<string, LicenseDocument>, nextId: i64)

  class SharedState {
    var ready: bool
    var alive: bool

    constructor ()
      ensures ready && alive
    {
      ready, alive := true, true;
    }
  }

  lemma NextIdOfPrefix(sha: Sha256, t: Table, i: nat)
    requires Decodes(sha, t) && i < |t|
    ensures Decodes(sha, t[..i]) && Decodes(sha, t[..i + 1])
    ensures Documents(sha, t[..i + 1]) == Documents(sha, t[..i]) + [DecodeDocument(sha, t[i]).value]
  {
    hide DecodeDocument;
    assert t[..i + 1] == t[..i] + [t[i]];
    DocumentsOfOneMore(sha, t[..i], t[i]);
  }

  lemma {:induction false} NextIdGrows(sha: Sha256, t: Table, i: nat)
    requires Decodes(sha, t) && i <= |t|
    ensures Decodes(sha, t[..i])
    ensures NextIdOf(Documents(sha, t[..i])) <= NextIdOf(Documents(sha, t))
    ensures DistinctSlugs(Documents(sha, t)) ==> DistinctSlugs(Documents(sha, t[..i]))
    decreases |t| - i
  {
    hide DecodeDocument, NextIdOf, Documents;
    if i < |t| {
      NextIdGrows(sha, t, i + 1);
      NextIdOfPrefix(sha, t, i);
      var front, d := Documents(sha, t[..i]), DecodeDocument(sha, t[i]).value;
      IndexOfOneMore(front, d);
      assert (front + [d])[..|front|] == front;
    } else {
      assert t[..i] == t;
    }
  }

  /** A repeated slug, or an identifier that leaves no room for the next, rules the whole table out. */
  lemma RejectedRow(sha: Sha256, t: Table, i: nat)
    requires i < |t| && Decodes(sha, t[..i + 1])
    requires Decodes(sha, t[..i]) && DecodeDocument(sha, t[i]).Ok?
    requires var d := DecodeDocument(sha, t[i]).value;
             d.slug in IndexOf(sha, t[..i]) || d.id == I64_MAX
    ensures !Accepted(sha, t)
  {
    hide DecodeDocument, NextIdOf, Documents, Index;
    var front, d := Documents(sha, t[..i]), DecodeDocument(sha, t[i]).value;
    assert t[..i + 1] == t[..i] + [t[i]];
    DocumentsOfOneMore(sha, t[..i], t[i]);
    IndexOfOneMore(front, d);
    if d.slug in Index(front) {
      RepeatedSlug(front, d);
    }
    if Decodes(sha, t) {
      NextIdGrows(sha, t, i + 1);
    }
  }

  lemma RepeatedSlug(docs: seq<LicenseDocument>, d: LicenseDocument)
    requires d.slug in Index(docs)
    ensures !DistinctSlugs(docs + [d])
  {
    hide Index;
    IndexMembers(docs);
    var other := Index(docs)[d.slug];
    var j :| 0 <= j < |docs| && docs[j] == other;
    assert (docs + [d])[j].slug == (docs + [d])[|docs|].slug;
  }

  /** One row more of a loading table. */
  lemma LoadedRow(sha: Sha256, t: Table, i: nat)
    requires i < |t| && Decodes(sha, t[..i]) && DecodeDocument(sha, t[i]).Ok?
    requires DistinctSlugs(Documents(sha, t[..i]))
    requires DecodeDocument(sha, t[i]).value.slug !in IndexOf(sha, t[..i])
    ensures var d := DecodeDocument(sha, t[i]).value;
            && Decodes(sha, t[..i + 1])
            && DistinctSlugs(Documents(sha, t[..i + 1]))
            && IndexOf(sha, t[..i + 1]) == IndexOf(sha, t[..i])[d.slug := d]
            && NextIdOf(Documents(sha, t[..i + 1])) ==
               (if NextIdOf(Documents(sha, t[..i])) < d.id + 1 then d.id + 1 else NextIdOf(Documents(sha, t[..i])))
  {
    hide DecodeDocument, NextIdOf, Documents, Index;
    assert t[..i + 1] == t[..i] + [t[i]];
    DocumentsOfOneMore(sha, t[..i], t[i]);
    IndexOfOneMore(Documents(sha, t[..i]), DecodeDocument(sha, t[i]).value);
    OneMoreIsDistinct(Documents(sha, t[..i]), DecodeDocument(sha, t[i]).value);
  }

  /** The loading loop of `open_database`: all rows, or the reason why the table is refused. */
  method LoadRows(sha: Sha256, rows: Table) returns (r: Result<Memory, CorruptReason>)
    ensures r.Ok? <==> Accepted(sha, rows)
    ensures r.Ok? ==> r.value == Loaded(sha, rows)
  {
    hide DecodeDocument, NextIdOf, Documents, Index;
    var licenses: map<string, LicenseDocument> := map[];
    var nextId: i64 := 1;
    NothingLoaded(sha, rows);
    for i := 0 to |rows|
      invariant Decodes(sha, rows[..i])
      invariant DistinctSlugs(Documents(sha, rows[..i]))
      invariant licenses == IndexOf(sha, rows[..i])
      invariant nextId == NextIdOf(Documents(sha, rows[..i]))
    {
      var decoded := DecodeDocument(sha, rows[i]);
      if decoded.Err? {
        assert rows[i] in rows;
        return Err(decoded.error);
      }
      var document := decoded.value;
      if document.slug in licenses {
        RejectedRow(sha, rows, i);
        return Err(DuplicatePersistedSlug);
      }
      LoadedRow(sha, rows, i);
      licenses := licenses[document.slug := document];
      if document.id == I64_MAX {
        RejectedRow(sha, rows, i);
        return Err(IdOverflow);
      }
      nextId := if nextId < document.id + 1 then document.id + 1 else nextId;
    }
    assert rows[..|rows|] == rows;
    r := Ok(Memory(licenses, nextId));
  }

  lemma NothingLoaded(sha: Sha256, rows: Table)
    ensures Decodes(sha, rows[..0]) && Documents(sha, rows[..0]) == []
    ensures Index([]) == map[] && NextIdOf([]) == 1
  {
  }

  /** Only a failed call, or a table that is not acceptable, keeps the database from opening. */
  method OpenDatabase(sha: Sha256, database: Database) returns (r: Result<DatabaseState, StoreStartError>)
    requires database.Valid()
    modifies database
    ensures database.Valid() && database.rows == old(database.rows) && old(database.faults) <= database.faults
    ensures r.Ok? ==>
              && Accepted(sha, database.rows)
              && Memory(r.value.licenses, r.value.nextId) == Loaded(sha, database.rows)
              && fresh(r.value.session)
              && r.value.session.database == database
              && r.value.session.Valid()
              && r.value.session.transaction == None
              && database.Ready() && database.checkpointed
    ensures r.Ok? ==> database.faults == old(database.faults)
    ensures r.Err? ==> database.faults > old(database.faults) || !Accepted(sha, database.rows)
    ensures r.Err? && r.error.Corrupt? ==> !Accepted(sha, database.rows)
  {
    hide Accepted, Loaded, Sql.Read, SCHEMA_STATEMENTS, CREATE_TABLE, CREATE_ID_INDEX, CREATE_SLUG_INDEX,
      LOAD_LICENSES_SQL, NamesOf, COLUMNS, Tabular, ReadStatement;
    var reopened := Session.Open(database);
    if reopened.Err? {
      return Err(Storage(reopened.error));
    }
    var session := reopened.value;
    for i := 0 to |SCHEMA_STATEMENTS|
      invariant fresh(session) && session.database == database && session.Valid() && session.transaction == None
      invariant database.rows == old(database.rows) && database.faults == old(database.faults)
      invariant (i >= 1 ==> database.created) && (i >= 2 ==> ID in database.unique) && (i >= 3 ==> SLUG in database.unique)
    {
      SchemaStatement(i);
      var created := session.Execute(SCHEMA_STATEMENTS[i]);
      if created.Err? {
        return Err(Storage(created.error));
      }
    }
    ThreeStatements();
    var checkpointed := session.Checkpoint();
    if checkpointed.Err? {
      return Err(Storage(checkpointed.error));
    }
    LoadingScan(database.rows);
    var output := session.Execute(LOAD_LICENSES_SQL);
    if output.Err? {
      return Err(Storage(output.error));
    }
    if !output.value.Rows? {
      return Err(Corrupt(NoRows));
    }
    var loaded := LoadRows(sha, output.value.rows);
    if loaded.Err? {
      return Err(Corrupt(loaded.error));
    }
    r := Ok(DatabaseState(session, loaded.value.licenses, loaded.value.nextId));
  }

  lemma ThreeStatements()
    ensures SCHEMA_STATEMENTS == [CREATE_TABLE, CREATE_ID_INDEX, CREATE_SLUG_INDEX]
  {
  }

  lemma SchemaStatement(i: nat)
    requires i < |SCHEMA_STATEMENTS|
    ensures Sql.Read(SCHEMA_STATEMENTS[i]).Some? && Creates(Sql.Read(SCHEMA_STATEMENTS[i]).value)
    ensures var syntax := Sql.Read(SCHEMA_STATEMENTS[i]).value;
            (i == 0 <==> syntax.CreateTable?) && (i == 1 ==> syntax.column == ID) && (i == 2 ==> syntax.column == SLUG)
  {
    hide Sql.Read, CREATE_TABLE, CREATE_ID_INDEX, CREATE_SLUG_INDEX, SCHEMA_STATEMENTS;
    ReadsSchema();
    ThreeStatements();
    assert NamesOf(COLUMNS)[0] == ID && NamesOf(COLUMNS)[1] == SLUG;
    hide NamesOf, COLUMNS;
  }

  lemma LoadingScan(t: Table)
    requires Tabular(t)
    ensures Sql.Read(LOAD_LICENSES_SQL) == Some(Sql.SelectFrom(NamesOf(COLUMNS), TABLE, ID))
    ensures Scans(Sql.Read(LOAD_LICENSES_SQL).value) && ProjectedRows(NamesOf(COLUMNS), t) == t
  {
    hide Sql.Read;
    ReadsSchema();
    AllColumnsShow(t);
    assert NamesOf(COLUMNS)[0] == ID;
  }

  /** A command that needs no transaction is answered without one. */
  lemma AnsweredAtOnce(sha: Sha256, pre: Core, command: Command, answer: Answer)
    requires if pre.memory.Some? then !NeedsTransaction(pre.memory.value, command) && AnswersAtOnce(pre.memory.value, command, answer)
             else AnswersClosed(command, answer)
    ensures Direct(pre, command, answer, pre) && Executes(sha, pre, command, answer, pre)
  {
  }

  /** A transaction that works is the direct outcome of its command, and is never refused. */
  lemma CommandCommits(sha: Sha256, pre: Core, command: Command)
    requires Inv(sha, pre) && Proper(sha, command) && pre.memory.Some? && NeedsTransaction(pre.memory.value, command)
    ensures var m := pre.memory.value;
            && Committed(pre.table, m, command).Some?
            && var post := Core(Committed(pre.table, m, command).value, Some(Updated(m, command)));
               && Inv(sha, post)
               && Direct(pre, command, Document(Ok(Subject(m, command))), post)
               && Executes(sha, pre, command, Document(Ok(Subject(m, command))), post)
  {
    hide DecodeDocument, Documents, Index, NextIdOf, Inv, Committed, Updated, Subject;
    CommittedTable(sha, pre, command);
  }

  lemma CreateCommits(sha: Sha256, pre: Core, draft: LicenseDraft)
    requires Inv(sha, pre) && Uploaded(sha, draft)
    requires pre.memory.Some? && NeedsTransaction(pre.memory.value, Create(draft))
    ensures Committed(pre.table, pre.memory.value, Create(draft)) ==
            Some(pre.table + [RowOf(IntoDocument(draft, pre.memory.value.nextId))])
    ensures Committed(pre.table, pre.memory.value, Create(draft)) ==
            Apply(pre.table, Statement.Insert(RowOf(IntoDocument(draft, pre.memory.value.nextId))))
    ensures Subject(pre.memory.value, Create(draft)) == IntoDocument(draft, pre.memory.value.nextId)
  {
    hide DecodeDocument, Documents, Index, NextIdOf, Ordered, Uploaded, RowOf, Apply;
    CommittedCreate(sha, pre.table, pre.memory.value, draft);
  }

  lemma DeleteCommits(sha: Sha256, pre: Core, slug: string)
    requires Inv(sha, pre) && pre.memory.Some? && NeedsTransaction(pre.memory.value, Command.Delete(slug))
    ensures Committed(pre.table, pre.memory.value, Command.Delete(slug)) == Some(WithoutSlug(pre.table, slug))
    ensures Committed(pre.table, pre.memory.value, Command.Delete(slug)) == Apply(pre.table, Statement.Delete(slug))
    ensures Subject(pre.memory.value, Command.Delete(slug)) == pre.memory.value.licenses[slug]
  {
    hide DecodeDocument, Documents, Index, NextIdOf, Ordered;
    CommittedDelete(sha, pre.table, pre.memory.value, slug);
  }

  /** A recovery after a failed transaction, or the loss of the database. */
  lemma Recovers(sha: Sha256, pre: Core, command: Command, post: Core)
    requires Interrupted(pre, command, post.table) && Accepted(sha, post.table)
    requires post.memory.Some? ==> post.memory == Some(Loaded(sha, post.table))
    ensures Executes(sha, pre, command,
                     if post.memory.Some? then Settled(pre, command, post.memory.value) else Document(Err(StorageUnavailable)),
                     post)
  {
    hide Accepted, Loaded, Committed, Settled, Direct;
  }

  class StoreCore {
    const sha: Sha256
    const database: Database
    const shared: SharedState
    var state: Option<DatabaseState>

    ghost function Repr(): set<object>
      reads this
    {
      {this, database, shared} + if state.Some? then {state.value.session} else {}
    }

    /** What the specification sees. */
    ghost function View(): Core
      reads this, database
    {
      Core(database.rows, if state.Some? then Some(Memory(state.value.licenses, state.value.nextId)) else None)
    }

    ghost predicate SessionValid()
      reads this, Repr()
    {
      && database.Valid()
      && (state.Some? ==> state.value.session.database == database && state.value.session.Valid())
    }

    ghost predicate Valid()
      reads this, Repr()
    {
      && SessionValid()
      && (state.Some? ==> state.value.session.transaction == None && database.Ready())
      && Inv(sha, View())
      && (shared.ready ==> state.Some?)
      && (shared.alive ==> state.Some?)
    }

    constructor (sha: Sha256, database: Database, shared: SharedState, state: DatabaseState)
      ensures this.sha == sha && this.database == database && this.shared == shared && this.state == Some(state)
    {
      this.sha, this.database, this.shared, this.state := sha, database, shared, Some(state);
    }

    /** `spawn_store` up to the actor thread. */
    static method Spawn(sha: Sha256, database: Database) returns (r: Result<StoreCore, StoreStartError>)
      requires database.Valid()
      modifies database
      ensures database.rows == old(database.rows)
      ensures r.Err? ==> database.faults > old(database.faults) || !Accepted(sha, database.rows)
      ensures r.Ok? ==>
                && fresh(r.value) && fresh(r.value.Repr() - {database})
                && r.value.sha == sha && r.value.database == database
                && r.value.Valid() && r.value.shared.ready && r.value.shared.alive
                && Accepted(sha, database.rows)
                && r.value.View() == Core(database.rows, Some(Loaded(sha, database.rows)))
      ensures r.Err? && r.error.Corrupt? ==> !Accepted(sha, database.rows)
    {
      hide DecodeDocument, Documents, Index, NextIdOf, Ordered;
      var state := OpenDatabase(sha, database);
      if state.Err? {
        return Err(state.error);
      }
      LoadedAgrees(sha, database.rows);
      var shared := new SharedState();
      var core := new StoreCore(sha, database, shared, state.value);
      r := Ok(core);
    }

    /**
     One transaction around one statement.  The database state must be open; whatever
     fails, the durable rows are the old ones or those of the whole transaction, and
     if no call fails a statement that the table accepts is durable.
     */
    method Transaction(statement: string) returns (r: Result<(), StorageError>)
      requires SessionValid() && state.Some? && state.value.session.transaction == None
      requires ReadStatement(statement).Some?
      modifies database, state.value.session
      ensures SessionValid() && old(database.faults) <= database.faults && (old(database.Ready()) ==> database.Ready())
      ensures r.Ok? ==>
                && Apply(old(database.rows), ReadStatement(statement).value) == Some(database.rows)
                && state.value.session.transaction == None
                && database.faults == old(database.faults)
      ensures r.Err? ==>
                || database.rows == old(database.rows)
                || Apply(old(database.rows), ReadStatement(statement).value) == Some(database.rows)
      ensures r.Err? && old(database.Ready()) && Apply(old(database.rows), ReadStatement(statement).value).Some? ==>
                database.faults > old(database.faults)
    {
      Sql.ReadsControl();
      hide ReadStatement, Apply, Sql.Read, Creates, Scans, Tabular;
      var session := state.value.session;
      var begun := session.Execute("BEGIN;");
      if begun.Err? {
        return Err(begun.error);
      }
      var changed := session.Execute(statement);
      if changed.Err? {
        var _ := session.Execute("ROLLBACK;");
        return Err(changed.error);
      }
      var committed := session.Execute("COMMIT;");
      if committed.Err? {
        var _ := session.Execute("ROLLBACK;");
        return Err(committed.error);
      }
      r := Ok(());
    }

    /** Drops the session with its transaction and loads the table again, which works unless a call fails. */
    method Recover() returns (r: Result<(), StoreError>)
      requires database.Valid() && Accepted(sha, database.rows)
      modifies this, database, shared
      ensures database.rows == old(database.rows)
      ensures if r.Ok? then database.faults == old(database.faults) else database.faults > old(database.faults)
      ensures r.Ok? ==>
                && Valid() && fresh(Repr() - old(Repr()))
                && state.Some? && View().memory == Some(Loaded(sha, database.rows))
                && shared.ready && shared.alive == old(shared.alive)
      ensures r.Err? ==>
                && r.error == StorageUnavailable && Valid()
                && state.None? && !shared.ready && !shared.alive
    {
      hide DecodeDocument, Documents, Index, NextIdOf, Accepted;
      shared.ready := false;
      state := None;
      var reopened := OpenDatabase(sha, database);
      if reopened.Ok? {
        state := Some(reopened.value);
        shared.ready := true;
        LoadedAgrees(sha, database.rows);
        r := Ok(());
      } else {
        shared.alive := false;
        r := Err(StorageUnavailable);
      }
    }

    method RecoverAfterCreateError(document: LicenseDocument) returns (r: Result<(), StoreError>)
      requires database.Valid() && Accepted(sha, database.rows)
      modifies this, database, shared
      ensures database.rows == old(database.rows) && Valid() && fresh(Repr() - old(Repr()))
      ensures state.Some? ==>
                && View().memory == Some(Loaded(sha, database.rows))
                && r == (if document.slug in state.value.licenses && state.value.licenses[document.slug] == document
                         then Ok(()) else Err(StorageUnavailable))
      ensures state.None? ==> r == Err(StorageUnavailable)
      ensures if state.Some? then database.faults == old(database.faults) else database.faults > old(database.faults)
      ensures Settles(old(shared.alive))
    {
      var recovered := Recover();
      if recovered.Err? {
        return recovered;
      }
      var licenses := state.value.licenses;
      var durable := document.slug in licenses && licenses[document.slug] == document;
      r := if durable then Ok(()) else Err(StorageUnavailable);
    }

    method RecoverAfterDeleteError(slug: string) returns (r: Result<(), StoreError>)
      requires database.Valid() && Accepted(sha, database.rows)
      modifies this, database, shared
      ensures database.rows == old(database.rows) && Valid() && fresh(Repr() - old(Repr()))
      ensures state.Some? ==>
                && View().memory == Some(Loaded(sha, database.rows))
                && r == (if slug !in state.value.licenses then Ok(()) else Err(StorageUnavailable))
      ensures state.None? ==> r == Err(StorageUnavailable)
      ensures if state.Some? then database.faults == old(database.faults) else database.faults > old(database.faults)
      ensures Settles(old(shared.alive))
    {
      var recovered := Recover();
      if recovered.Err? {
        return recovered;
      }
      var durable := slug !in state.value.licenses;
      r := if durable then Ok(()) else Err(StorageUnavailable);
    }

    /** The flags after a recovery: ready again, or closed for good. */
    ghost predicate Settles(wasAlive: bool)
      reads this, shared
    {
      if state.Some? then shared.ready && shared.alive == wasAlive else !shared.ready && !shared.alive
    }

    /** The flags after a command: unchanged, or those of a recovery. */
    twostate predicate FlagsFollow()
      reads this, shared
    {
      (shared.ready == old(shared.ready) && shared.alive == old(shared.alive)) || Settles(old(shared.alive))
    }

    /** How many calls fail decides: none, and the answer is direct; one, and the database stays open. */
    twostate predicate FaultsTell(sha: Sha256, command: Command, answer: Answer)
      reads Repr()
    {
      && old(database.faults) <= database.faults
      && (database.faults == old(database.faults) ==>
            && Direct(old(View()), command, answer, View())
            && shared.ready == old(shared.ready) && shared.alive == old(shared.alive))
      && (database.faults <= old(database.faults) + 1 ==> (state.Some? <==> old(state).Some?))
    }

    /** If no call fails, a new slug is answered with the next identifier, and its row is durable. */
    method Create(draft: LicenseDraft) returns (r: Result<LicenseDocument, StoreError>)
      requires Valid() && Uploaded(sha, draft)
      modifies Repr()
      ensures Valid() && fresh(Repr() - old(Repr()))
      ensures Executes(sha, old(View()), Command.Create(draft), Document(r), View())
      ensures FlagsFollow()
      ensures FaultsTell(sha, Command.Create(draft), Document(r))
      ensures database.faults == old(database.faults) && old(state).Some? && draft.slug !in old(state).value.licenses &&
              old(state).value.nextId < I64_MAX ==>
                && r == Ok(IntoDocument(draft, old(state).value.nextId))
                && database.rows == old(database.rows) + [RowOf(r.value)]
    {
      hide DecodeDocument, Documents, Index, NextIdOf, Ordered, Uploaded, InsertStatement, ReadStatement, Apply, RowOf,
        Tabular, Executes, Direct, Inv;
      ghost var pre, command := View(), Command.Create(draft);
      if state.None? {
        AnsweredAtOnce(sha, pre, command, Document(Err(StorageUnavailable)));
        return Err(StorageUnavailable);
      }
      if draft.slug in state.value.licenses {
        AnsweredAtOnce(sha, pre, command, Document(Err(DuplicateSlug)));
        return Err(DuplicateSlug);
      }
      var id := state.value.nextId;
      if id == I64_MAX {
        AnsweredAtOnce(sha, pre, command, Document(Err(StorageUnavailable)));
        return Err(StorageUnavailable);
      }
      var document := IntoDocument(draft, id);
      CommandCommits(sha, pre, command);
      CreateCommits(sha, pre, draft);
      ReadsInsertStatement(document);
      var persisted := Transaction(InsertStatement(document));
      if persisted.Err? {
        DoubtIsSettled(sha, pre, command, database.rows);
        var recovered := RecoverAfterCreateError(document);
        Recovers(sha, pre, command, View());
        if recovered.Err? {
          return Err(recovered.error);
        }
        return Ok(document);
      }
      state := Some(state.value.(nextId := id + 1, licenses := state.value.licenses[document.slug := document]));
      r := Ok(document);
    }

    method List() returns (r: Result<seq<LicenseMetadata>, StoreError>)
      requires Valid()
      ensures Executes(sha, View(), Command.List, Licenses(r), View())
      ensures Direct(View(), Command.List, Licenses(r), View())
    {
      if state.None? {
        return Err(StorageUnavailable);
      }
      hide DecodeDocument, Documents, Index, NextIdOf, Ordered, IsListing, Inv;
      IndexIsKeyed();
      var listed := SortedListing(state.value.licenses);
      r := Ok(listed);
    }

    lemma IndexIsKeyed()
      requires Valid()
      ensures state.Some? ==> KeyedBySlug(state.value.licenses)
    {
      hide DecodeDocument, Documents, Index, NextIdOf, Ordered;
      IndexMembers(Documents(sha, database.rows));
    }

    function Get(slug: string): Result<LicenseDocument, StoreError>
      reads this
    {
      if state.Some? && slug in state.value.licenses then Ok(state.value.licenses[slug]) else Err(NotFound)
    }

    /** If no call fails, a present slug is answered with its document, and it is durably gone. */
    method Delete(slug: string) returns (r: Result<LicenseDocument, StoreError>)
      requires Valid()
      modifies Repr()
      ensures Valid() && fresh(Repr() - old(Repr()))
      ensures Executes(sha, old(View()), Command.Delete(slug), Document(r), View())
      ensures FlagsFollow()
      ensures FaultsTell(sha, Command.Delete(slug), Document(r))
      ensures database.faults == old(database.faults) && old(state).Some? && slug in old(state).value.licenses ==>
                && r == Ok(old(state).value.licenses[slug])
                && database.rows == WithoutSlug(old(database.rows), slug)
    {
      hide DecodeDocument, Documents, Index, NextIdOf, Ordered, DeleteStatement, ReadStatement, Apply, Tabular, Executes,
        Direct, Inv, WithoutSlug;
      ghost var pre, command := View(), Command.Delete(slug);
      var found := Get(slug);
      if found.Err? {
        AnsweredAtOnce(sha, pre, command, Document(found));
        return found;
      }
      var document := found.value;
      CommandCommits(sha, pre, command);
      DeleteCommits(sha, pre, slug);
      ReadsDeleteStatement(slug);
      var persisted := Transaction(DeleteStatement(slug));
      if persisted.Err? {
        DoubtIsSettled(sha, pre, command, database.rows);
        var recovered := RecoverAfterDeleteError(slug);
        Recovers(sha, pre, command, View());
        if recovered.Err? {
          return Err(recovered.error);
        }
        return Ok(document);
      }
      var removed := state.value.licenses[slug];
      state := Some(state.value.(licenses := state.value.licenses - {slug}));
      assert removed == document;
      r := Ok(removed);
    }

    /**
     One command of the actor.  While the database is open the command answers as the
     plain map would, refuses and changes nothing, or refuses and closes the store;
     if no call fails it answers as that map, and only a second failure closes it.
     */
    method Execute(command: Command) returns (answer: Answer)
      requires Valid() && Proper(sha, command)
      modifies Repr()
      ensures Valid() && fresh(Repr() - old(Repr()))
      ensures Executes(sha, old(View()), command, answer, View())
      ensures old(state).Some? ==> Outcome(sha, old(View()), command, answer, View())
      ensures FlagsFollow()
      ensures FaultsTell(sha, command, answer)
    {
      hide DecodeDocument, Documents, Index, NextIdOf, Ordered, Uploaded, Executes, Direct, Inv, Outcome;
      ghost var pre := View();
      match command {
        case Create(draft) =>
          var r := Create(draft);
          answer := Document(r);
        case List =>
          var r := List();
          answer := Licenses(r);
        case Get(slug) =>
          answer := Document(Get(slug));
          GetExecutes(slug);
        case Delete(slug) =>
          var r := Delete(slug);
          answer := Document(r);
        case Ping =>
          answer := Pong;
          PingExecutes();
      }
      if pre.memory.Some? {
        ExecutesAtomically(sha, pre, command, answer, View());
      }
    }

    lemma GetExecutes(slug: string)
      requires Valid()
      ensures Executes(sha, View(), Command.Get(slug), Document(Get(slug)), View())
      ensures Direct(View(), Command.Get(slug), Document(Get(slug)), View())
    {
    }

    lemma PingExecutes()
      requires Valid()
      ensures Executes(sha, View(), Ping, Pong, View())
      ensures Direct(View(), Ping, Pong, View())
    {
    }
  }
}
