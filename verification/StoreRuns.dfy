/** Whole runs of the store: any commands, any storage faults, any restarts. */
module StoreRuns {
  import opened Codec
  import opened Domain
  import opened LicenseTable
  import opened Rnmdb
  import opened StoreSpec
  import opened Wrappers

  /** A command with its answer, or a restart that loads the table again. */
  datatype Event = Executed(command: Command, answer: Answer, post: Core) | Reopened(post: Core)

  ghost predicate Happens(sha: Sha256, pre: Core, e: Event) {
    match e
    case Executed(command, answer, post) =>
      pre.memory.Some? && Proper(sha, command) && Executes(sha, pre, command, answer, post)
    case Reopened(post) =>
      post.table == pre.table && Accepted(sha, post.table) && post.memory == Some(Loaded(sha, post.table))
  }

  ghost predicate Run(sha: Sha256, start: Core, events: seq<Event>)
    decreases |events|
  {
    events != [] ==> Happens(sha, start, events[0]) && Run(sha, events[0].post, events[1..])
  }

  function Final(start: Core, events: seq<Event>): Core {
    if events == [] then start else events[|events| - 1].post
  }

  /** The plain map's own account of a run: only answers count. */
  function Replay(m: map<string, LicenseDocument>, events: seq<Event>): map<string, LicenseDocument>
    decreases |events|
  {
    if events == [] then m else Replay(Effect(m, events[0]), events[1..])
  }

  function Effect(m: map<string, LicenseDocument>, e: Event): map<string, LicenseDocument> {
    match e
    case Executed(Create(_), Document(Ok(d)), _) => m[d.slug := d]
    case Executed(Delete(slug), Document(Ok(_)), _) => m - {slug}
    case _ => m
  }

  /** A new database file. */
  const EMPTY := Core([], Some(Memory(map[], 1)))

  lemma EmptyIsSound(sha: Sha256)
    ensures Inv(sha, EMPTY) && EMPTY.memory.value == Loaded(sha, [])
  {
  }

  lemma StepKeepsInv(sha: Sha256, pre: Core, e: Event)
    requires Inv(sha, pre) && Happens(sha, pre, e)
    ensures Inv(sha, e.post)
    ensures e.post.memory.Some? ==> IndexOf(sha, e.post.table) == Effect(IndexOf(sha, pre.table), e)
  {
    hide DecodeDocument, Documents, Index, NextIdOf, Ordered, Executes;
    match e
    case Executed(command, answer, post) =>
      ExecutesAtomically(sha, pre, command, answer, post);
    case Reopened(post) =>
      LoadedAgrees(sha, post.table);
  }

  /** Whatever happens, the table keeps opening and an open index keeps agreeing with it. */
  lemma {:induction false} RunKeepsInv(sha: Sha256, start: Core, events: seq<Event>)
    requires Inv(sha, start) && Run(sha, start, events)
    ensures Inv(sha, Final(start, events))
    decreases |events|
  {
    hide Inv, Happens;
    if events != [] {
      StepKeepsInv(sha, start, events[0]);
      RunKeepsInv(sha, events[0].post, events[1..]);
      assert Final(start, events) == Final(events[0].post, events[1..]);
    }
  }

  /** Every table a new database file can come to is one that `open_database` accepts. */
  lemma ReachableTablesOpen(sha: Sha256, events: seq<Event>)
    requires Run(sha, EMPTY, events)
    ensures Accepted(sha, Final(EMPTY, events).table)
  {
    hide Run;
    EmptyIsSound(sha);
    RunKeepsInv(sha, EMPTY, events);
  }

  /**
   A run that never loses its database, however often a commit was in doubt and
   however often it restarted, leaves exactly the documents its answers tell of.
   */
  lemma {:induction false} AnswersTellTheTable(sha: Sha256, start: Core, events: seq<Event>)
    requires Inv(sha, start) && Run(sha, start, events)
    requires forall i :: 0 <= i < |events| ==> events[i].post.memory.Some?
    ensures Inv(sha, Final(start, events))
    ensures IndexOf(sha, Final(start, events).table) == Replay(IndexOf(sha, start.table), events)
    decreases |events|
  {
    hide DecodeDocument, Documents, Index, NextIdOf, Ordered, Happens, Effect, Accepted, Agrees;
    RunKeepsInv(sha, start, events);
    if events != [] {
      StepKeepsInv(sha, start, events[0]);
      assert events[0].post.memory.Some?;
      AnswersTellTheTable(sha, events[0].post, events[1..]);
      assert Final(start, events) == Final(events[0].post, events[1..]);
    }
  }

  /** The event took the database away: its command's transaction is in doubt until the table is loaded again. */
  predicate Loses(e: Event) {
    e.Executed? && e.post.memory.None?
  }

  /** The map once the transaction of the command is durable. */
  function WithTransaction(pre: Core, command: Command, m: map<string, LicenseDocument>): map<string, LicenseDocument> {
    match command
    case Create(draft) =>
      if pre.memory.Some? then m[draft.slug := IntoDocument(draft, pre.memory.value.nextId)] else m
    case Delete(slug) => m - {slug}
    case _ => m
  }

  /**
   `final` is what is left of `m` after the answers of a run: each event has the effect its
   answer tells of, and one that lost the database that, or the effect of its own transaction.
   */
  predicate Explains(pre: Core, m: map<string, LicenseDocument>, events: seq<Event>, final: map<string, LicenseDocument>)
    decreases |events|
  {
    if events == [] then final == m
    else
      || Explains(events[0].post, Effect(m, events[0]), events[1..], final)
      || (Loses(events[0]) &&
          Explains(events[0].post, WithTransaction(pre, events[0].command, m), events[1..], final))
  }

  /** A transaction that failed left the table as it was, or with all its effect; either way it opens. */
  lemma InterruptedTable(sha: Sha256, pre: Core, command: Command, table: Table)
    requires Inv(sha, pre) && Proper(sha, command) && Interrupted(pre, command, table)
    ensures Accepted(sha, table)
    ensures IndexOf(sha, table) == IndexOf(sha, pre.table) ||
            IndexOf(sha, table) == WithTransaction(pre, command, IndexOf(sha, pre.table))
  {
    hide DecodeDocument, Documents, Index, NextIdOf, Ordered, Committed;
    CommittedTable(sha, pre, command);
  }

  lemma LostStep(sha: Sha256, pre: Core, e: Event)
    requires Inv(sha, pre) && Happens(sha, pre, e) && Loses(e)
    ensures Inv(sha, e.post)
    ensures Effect(IndexOf(sha, pre.table), e) == IndexOf(sha, pre.table)
    ensures IndexOf(sha, e.post.table) == IndexOf(sha, pre.table) ||
            IndexOf(sha, e.post.table) == WithTransaction(pre, e.command, IndexOf(sha, pre.table))
  {
    hide DecodeDocument, Documents, Index, NextIdOf, Ordered, Committed, WithTransaction, Apply, Proper;
    StepKeepsInv(sha, pre, e);
    InterruptedTable(sha, pre, e.command, e.post.table);
  }

  lemma RunSplits(sha: Sha256, start: Core, events: seq<Event>)
    requires Run(sha, start, events) && events != []
    ensures Happens(sha, start, events[0]) && Run(sha, events[0].post, events[1..])
    ensures events[0].post.memory.Some? || Loses(events[0])
    ensures Final(start, events) == Final(events[0].post, events[1..])
  {
    hide Executes, Proper, Accepted, Loaded;
  }

  /** One event is explained: by its answer, or, if it lost the database, by its own transaction. */
  lemma StepIsExplained(sha: Sha256, pre: Core, e: Event)
    requires Inv(sha, pre) && Happens(sha, pre, e) && (e.post.memory.Some? || Loses(e))
    ensures Inv(sha, e.post)
    ensures var before, after := IndexOf(sha, pre.table), IndexOf(sha, e.post.table);
            after == Effect(before, e) || (Loses(e) && after == WithTransaction(pre, e.command, before))
  {
    hide Happens, Effect, WithTransaction, IndexOf;
    StepKeepsInv(sha, pre, e);
    if Loses(e) {
      LostStep(sha, pre, e);
    }
  }

  /**
   In every run, with databases lost and opened again, the final table is explained by the
   answers: nothing is in doubt but the one transaction of each event that lost the database.
   */
  lemma {:induction false} AnswersExplainTheTable(sha: Sha256, start: Core, events: seq<Event>)
    requires Inv(sha, start) && Run(sha, start, events)
    ensures Inv(sha, Final(start, events))
    ensures Explains(start, IndexOf(sha, start.table), events, IndexOf(sha, Final(start, events).table))
    decreases |events|
  {
    if events != [] {
      RunSplits(sha, start, events);
      hide Happens, Run, Effect, WithTransaction, Loses, Final, Documents, Index, NextIdOf, DecodeDocument, Ordered;
      StepIsExplained(sha, start, events[0]);
      AnswersExplainTheTable(sha, events[0].post, events[1..]);
    }
  }

  /** Where only commands happen, only the last one can have lost the database. */
  lemma {:induction false} OnlyTheLastIsInDoubt(
    sha: Sha256, start: Core, m: map<string, LicenseDocument>, events: seq<Event>, final: map<string, LicenseDocument>)
    requires Run(sha, start, events) && Explains(start, m, events, final)
    requires forall i :: 0 <= i < |events| ==> events[i].Executed?
    ensures final == Replay(m, events) || (events != [] && Loses(events[|events| - 1]))
    ensures final != Replay(m, events) ==>
              var front, last := events[..|events| - 1], events[|events| - 1];
              final == WithTransaction(Final(start, front), last.command, Replay(m, front))
    decreases |events|
  {
    hide Effect, WithTransaction, Executes, Proper;
    if |events| == 1 {
      assert events[1..] == [] && events[..0] == [];
      assert Explains(events[0].post, Effect(m, events[0]), [], final) ==> final == Replay(m, events);
    } else if events != [] {
      var e, rest := events[0], events[1..];
      assert Happens(sha, e.post, rest[0]);
      assert !Loses(e);
      OnlyTheLastIsInDoubt(sha, e.post, Effect(m, e), rest, final);
      assert events[..|events| - 1] == [e] + rest[..|rest| - 1];
      assert ([e] + rest[..|rest| - 1])[1..] == rest[..|rest| - 1];
    }
  }

  /** Stored identifiers are distinct, at least 1 and below the largest `i64`; the next one is above them all. */
  lemma StoredIds(sha: Sha256, c: Core)
    requires Inv(sha, c)
    ensures forall i, j :: 0 <= i < j < |c.table| ==> RowId(c.table[i]) < RowId(c.table[j])
    ensures forall i :: 0 <= i < |c.table| ==>
              1 <= RowId(c.table[i]) < I64_MAX && (c.memory.Some? ==> RowId(c.table[i]) < c.memory.value.nextId)
    ensures c.memory.Some? ==> c.memory.value.nextId >= 1
  {
    hide DecodeDocument, Documents, Index, NextIdOf, RowId;
    NextIdAtLeastOne(Documents(sha, c.table));
    forall i | 0 <= i < |c.table| ensures 1 <= RowId(c.table[i]) < NextIdOf(Documents(sha, c.table)) {
      RowsHaveTheirDocument(sha, c.table, i);
      RowIdIsPositive(sha, c.table[i]);
    }
  }

  lemma RowIdIsPositive(sha: Sha256, row: Row)
    requires DecodeDocument(sha, row).Ok?
    ensures RowId(row) >= 1
  {
    hide DecodeDocument;
    DecodedRow(sha, row);
    var d := DecodeDocument(sha, row).value;
    assert RowOf(d)[0] == row[0];
  }
}
