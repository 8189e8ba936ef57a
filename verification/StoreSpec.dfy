/**
 What one command may do to the store: the durable table, the state kept in memory
 beside it, and the answer.  The class `StoreCore` is proved against these
 relations and the actor protocol takes its steps by them.
 */
module StoreSpec {
  import opened Codec
  import opened Domain
  import opened LicenseTable
  import opened Listing
  import opened Rnmdb
  import opened SqlText
  import opened Wrappers

  datatype StoreError = QueueFull | Unavailable | DuplicateSlug | NotFound | StorageUnavailable

  datatype Command = Create(draft: LicenseDraft) | List | Get(slug: string) | Delete(slug: string) | Ping

  datatype Answer =
    | Document(document: Result<LicenseDocument, StoreError>)
    | Licenses(licenses: Result<seq<LicenseMetadata>, StoreError>)
    | Pong

  predicate Refused(answer: Answer) {
    answer == Document(Err(StorageUnavailable)) || answer == Licenses(Err(StorageUnavailable))
  }

  /** The state in memory: the index and the next identifier. */
  datatype Memory = Memory(licenses: map<string, LicenseDocument>, nextId: i64)

  /** The durable rows and, while the database is open, the memory beside them. */
  datatype Core = Core(table: Table, memory: Option<Memory>)

  // Documents of a table

  predicate Decodes(sha: Sha256, t: Table) {
    forall row :: row in t ==> DecodeDocument(sha, row).Ok?
  }

  function Documents(sha: Sha256, t: Table): seq<LicenseDocument>
    requires Decodes(sha, t)
  {
    if t == [] then [] else Documents(sha, t[..|t| - 1]) + [DecodeDocument(sha, t[|t| - 1]).value]
  }

  function Index(docs: seq<LicenseDocument>): map<string, LicenseDocument> {
    if docs == [] then map[] else Index(docs[..|docs| - 1])[docs[|docs| - 1].slug := docs[|docs| - 1]]
  }

  /** One more than the largest identifier, and at least 1. */
  function NextIdOf(docs: seq<LicenseDocument>): int {
    if docs == [] then 1
    else
      var rest, next := NextIdOf(docs[..|docs| - 1]), docs[|docs| - 1].id + 1;
      if rest < next then next else rest
  }

  predicate DistinctSlugs(docs: seq<LicenseDocument>) {
    forall i, j :: 0 <= i < j < |docs| ==> docs[i].slug != docs[j].slug
  }

  /** The tables that `open_database` accepts. */
  predicate Accepted(sha: Sha256, t: Table) {
    && Decodes(sha, t)
    && DistinctSlugs(Documents(sha, t))
    && NextIdOf(Documents(sha, t)) <= I64_MAX
  }

  function IndexOf(sha: Sha256, t: Table): map<string, LicenseDocument>
    requires Decodes(sha, t)
  {
    Index(Documents(sha, t))
  }

  /** The memory that opening an accepted table builds. */
  function Loaded(sha: Sha256, t: Table): Memory
    requires Accepted(sha, t)
  {
    NextIdAtLeastOne(Documents(sha, t));
    Memory(IndexOf(sha, t), NextIdOf(Documents(sha, t)))
  }

  /** The index is the decoded table, and the next identifier is above every stored one. */
  ghost predicate Agrees(sha: Sha256, t: Table, m: Memory) {
    && Decodes(sha, t)
    && m.licenses == IndexOf(sha, t)
    && NextIdOf(Documents(sha, t)) <= m.nextId
  }

  ghost predicate Inv(sha: Sha256, c: Core) {
    && Ordered(c.table)
    && Accepted(sha, c.table)
    && (c.memory.Some? ==> Agrees(sha, c.table, c.memory.value))
  }

  // One command

  /** A draft has private fields: only an accepted upload makes one. */
  ghost predicate Uploaded(sha: Sha256, draft: LicenseDraft) {
    exists filename, title, slug, bytes, uploadedAtMs ::
      FromUpload(sha, filename, title, slug, bytes, uploadedAtMs) == Ok(draft)
  }

  ghost predicate Proper(sha: Sha256, command: Command) {
    command.Create? ==> Uploaded(sha, command.draft)
  }

  /** Whether the command has to change the table. */
  predicate NeedsTransaction(m: Memory, command: Command) {
    match command
    case Create(draft) => draft.slug !in m.licenses && m.nextId < I64_MAX
    case Delete(slug) => slug in m.licenses
    case _ => false
  }

  /** The document the command is about. */
  function Subject(m: Memory, command: Command): LicenseDocument
    requires NeedsTransaction(m, command)
  {
    match command
    case Create(draft) => IntoDocument(draft, m.nextId)
    case Delete(slug) => m.licenses[slug]
  }

  /** The rows once the command's transaction is durable; nothing when a unique index refuses it. */
  function Committed(t: Table, m: Memory, command: Command): Option<Table>
    requires NeedsTransaction(m, command)
  {
    match command
    case Create(_) => Apply(t, Statement.Insert(RowOf(Subject(m, command))))
    case Delete(slug) => Apply(t, Statement.Delete(slug))
  }

  /** The answer to a command that changes nothing. */
  ghost predicate AnswersAtOnce(m: Memory, command: Command, answer: Answer)
    requires !NeedsTransaction(m, command)
  {
    match command
    case Create(draft) =>
      answer == Document(Err(if draft.slug in m.licenses then DuplicateSlug else StorageUnavailable))
    case List => answer.Licenses? && answer.licenses.Ok? && IsListing(m.licenses, answer.licenses.value)
    case Get(slug) => answer == Document(if slug in m.licenses then Ok(m.licenses[slug]) else Err(NotFound))
    case Delete(_) => answer == Document(Err(NotFound))
    case Ping => answer == Pong
  }

  /** The answers of a store whose database is closed. */
  predicate AnswersClosed(command: Command, answer: Answer) {
    match command
    case Create(_) => answer == Document(Err(StorageUnavailable))
    case List => answer == Licenses(Err(StorageUnavailable))
    case Get(_) => answer == Document(Err(NotFound))
    case Delete(_) => answer == Document(Err(NotFound))
    case Ping => answer == Pong
  }

  function Updated(m: Memory, command: Command): Memory
    requires NeedsTransaction(m, command)
  {
    var document := Subject(m, command);
    match command
    case Create(_) => Memory(m.licenses[document.slug := document], m.nextId + 1)
    case Delete(slug) => Memory(m.licenses - {slug}, m.nextId)
  }

  /** The command is answered without a storage fault. */
  ghost predicate Direct(pre: Core, command: Command, answer: Answer, post: Core) {
    match pre.memory
    case None => AnswersClosed(command, answer) && post == pre
    case Some(m) =>
      if !NeedsTransaction(m, command) then
        AnswersAtOnce(m, command, answer) && post == pre
      else
        && Committed(pre.table, m, command).Some?
        && answer == Document(Ok(Subject(m, command)))
        && post == Core(Committed(pre.table, m, command).value, Some(Updated(m, command)))
  }

  /** The command's transaction failed and left `table` durable: nobody yet knows which of the two. */
  predicate Interrupted(pre: Core, command: Command, table: Table) {
    && pre.memory.Some?
    && NeedsTransaction(pre.memory.value, command)
    && (table == pre.table || Committed(pre.table, pre.memory.value, command) == Some(table))
  }

  /** The answer once the table has been loaded again. */
  function Settled(pre: Core, command: Command, reloaded: Memory): Answer
    requires pre.memory.Some? && NeedsTransaction(pre.memory.value, command)
  {
    var document := Subject(pre.memory.value, command);
    var durable :=
      match command
      case Create(_) => document.slug in reloaded.licenses && reloaded.licenses[document.slug] == document
      case Delete(slug) => slug !in reloaded.licenses;
    Document(if durable then Ok(document) else Err(StorageUnavailable))
  }

  ghost predicate Recovered(sha: Sha256, pre: Core, command: Command, answer: Answer, post: Core) {
    && Interrupted(pre, command, post.table)
    && Accepted(sha, post.table)
    && post.memory == Some(Loaded(sha, post.table))
    && answer == Settled(pre, command, post.memory.value)
  }

  predicate Lost(pre: Core, command: Command, answer: Answer, post: Core) {
    && Interrupted(pre, command, post.table)
    && post.memory == None
    && answer == Document(Err(StorageUnavailable))
  }

  /** Everything one call of `execute` may do. */
  ghost predicate Executes(sha: Sha256, pre: Core, command: Command, answer: Answer, post: Core) {
    || Direct(pre, command, answer, post)
    || Recovered(sha, pre, command, answer, post)
    || Lost(pre, command, answer, post)
  }

  // The plain map the store is meant to be

  /** The answer and effect of a map that creates and deletes in one indivisible step. */
  ghost predicate AtomicStep(m: map<string, LicenseDocument>, id: i64, command: Command, answer: Answer,
                             m': map<string, LicenseDocument>)
  {
    match command
    case Create(draft) =>
      if draft.slug in m then
        answer == Document(Err(DuplicateSlug)) && m' == m
      else
        answer == Document(Ok(IntoDocument(draft, id))) && m' == m[draft.slug := IntoDocument(draft, id)]
    case List =>
      m' == m && answer.Licenses? && answer.licenses.Ok? && IsListing(m, answer.licenses.value)
    case Get(slug) =>
      m' == m && answer == Document(if slug in m then Ok(m[slug]) else Err(NotFound))
    case Delete(slug) =>
      if slug in m then
        answer == Document(Ok(m[slug])) && m' == m - {slug}
      else
        answer == Document(Err(NotFound)) && m' == m
    case Ping =>
      m' == m && answer == Pong
  }

  // Facts about documents and tables

  lemma {:induction false} NextIdAtLeastOne(docs: seq<LicenseDocument>)
    ensures NextIdOf(docs) >= 1
  {
    if docs != [] {
      NextIdAtLeastOne(docs[..|docs| - 1]);
    }
  }

  lemma {:induction false} NextIdAboveAll(docs: seq<LicenseDocument>, i: nat)
    requires i < |docs|
    ensures docs[i].id < NextIdOf(docs)
  {
    if i < |docs| - 1 {
      NextIdAboveAll(docs[..|docs| - 1], i);
    }
  }

  lemma {:induction false} DocumentAt(sha: Sha256, t: Table, i: nat)
    requires Decodes(sha, t) && i < |t|
    ensures |Documents(sha, t)| == |t| && Documents(sha, t)[i] == DecodeDocument(sha, t[i]).value
    decreases |t|
  {
    hide DecodeDocument;
    var front := t[..|t| - 1];
    DocumentsLength(sha, front);
    if i < |front| {
      DocumentAt(sha, front, i);
    }
  }

  lemma {:induction false} DocumentsLength(sha: Sha256, t: Table)
    requires Decodes(sha, t)
    ensures |Documents(sha, t)| == |t|
  {
    if t != [] {
      DocumentsLength(sha, t[..|t| - 1]);
    }
  }

  /** The index maps each slug to a document that has it, and has every slug. */
  lemma {:induction false} IndexMembers(docs: seq<LicenseDocument>)
    ensures KeyedBySlug(Index(docs))
    ensures forall slug :: slug in Index(docs) ==> Index(docs)[slug] in docs
    ensures forall d :: d in docs ==> d.slug in Index(docs)
  {
    if docs != [] {
      var front, last := docs[..|docs| - 1], docs[|docs| - 1];
      IndexMembers(front);
      assert docs == front + [last];
    }
  }

  function WithoutDocument(docs: seq<LicenseDocument>, slug: string): seq<LicenseDocument> {
    if docs == [] then []
    else
      var rest, last := WithoutDocument(docs[..|docs| - 1], slug), docs[|docs| - 1];
      if last.slug == slug then rest else rest + [last]
  }

  lemma {:induction false} WithoutDocumentIndex(docs: seq<LicenseDocument>, slug: string)
    ensures Index(WithoutDocument(docs, slug)) == Index(docs) - {slug}
    ensures NextIdOf(WithoutDocument(docs, slug)) <= NextIdOf(docs)
  {
    if docs != [] {
      var front, last := docs[..|docs| - 1], docs[|docs| - 1];
      var rest := WithoutDocument(front, slug);
      WithoutDocumentIndex(front, slug);
      assert Index(docs) == Index(front)[last.slug := last];
      if last.slug == slug {
        assert Index(front)[slug := last] - {slug} == Index(front) - {slug};
      } else {
        IndexOfOneMore(rest, last);
        assert Index(front)[last.slug := last] - {slug} == (Index(front) - {slug})[last.slug := last];
      }
    }
  }

  lemma IndexOfOneMore(docs: seq<LicenseDocument>, d: LicenseDocument)
    ensures Index(docs + [d]) == Index(docs)[d.slug := d]
    ensures NextIdOf(docs + [d]) == if NextIdOf(docs) < d.id + 1 then d.id + 1 else NextIdOf(docs)
  {
    assert (docs + [d])[..|docs|] == docs;
  }

  lemma {:induction false} WithoutDocumentIsDistinct(docs: seq<LicenseDocument>, slug: string)
    requires DistinctSlugs(docs)
    ensures DistinctSlugs(WithoutDocument(docs, slug))
    ensures forall d :: d in WithoutDocument(docs, slug) ==> d in docs
  {
    if docs != [] {
      var front, last := docs[..|docs| - 1], docs[|docs| - 1];
      var rest := WithoutDocument(front, slug);
      WithoutDocumentIsDistinct(front, slug);
      forall i | 0 <= i < |rest| ensures rest[i].slug != last.slug {
        assert rest[i] in front;
      }
    }
  }

  lemma RowHasItsSlug(sha: Sha256, row: Row)
    requires DecodeDocument(sha, row).Ok?
    ensures RowSlug(row) == DecodeDocument(sha, row).value.slug
  {
    hide DecodeDocument;
    DecodedRow(sha, row);
    var d := DecodeDocument(sha, row).value;
    assert RowOf(d)[1] == row[1];
  }

  lemma DocumentsOfFront(sha: Sha256, t: Table)
    requires Decodes(sha, t) && t != []
    ensures var front, d := t[..|t| - 1], DecodeDocument(sha, t[|t| - 1]).value;
            && Decodes(sha, front)
            && Documents(sha, t) == Documents(sha, front) + [d]
            && Documents(sha, t)[..|Documents(sha, t)| - 1] == Documents(sha, front)
  {
    hide DecodeDocument;
  }

  lemma {:induction false} DocumentsWithoutSlug(sha: Sha256, t: Table, slug: string)
    requires Decodes(sha, t)
    ensures Decodes(sha, WithoutSlug(t, slug))
    ensures Documents(sha, WithoutSlug(t, slug)) == WithoutDocument(Documents(sha, t), slug)
  {
    hide DecodeDocument, Documents, RowSlug, LicenseShape;
    if t == [] {
      assert Documents(sha, t) == [] by { NoDocuments(sha); }
    } else {
      var front, last := t[..|t| - 1], t[|t| - 1];
      DocumentsWithoutSlug(sha, front, slug);
      RowHasItsSlug(sha, last);
      DocumentsOfFront(sha, t);
      if RowSlug(last) != slug {
        DocumentsOfOneMore(sha, WithoutSlug(front, slug), last);
      }
    }
  }

  lemma NoDocuments(sha: Sha256)
    ensures Documents(sha, []) == []
  {
  }

  lemma DocumentsOfOneMore(sha: Sha256, t: Table, row: Row)
    requires Decodes(sha, t) && DecodeDocument(sha, row).Ok?
    ensures Decodes(sha, t + [row])
    ensures Documents(sha, t + [row]) == Documents(sha, t) + [DecodeDocument(sha, row).value]
  {
    assert (t + [row])[..|t|] == t;
  }

  lemma OneMoreIsDistinct(docs: seq<LicenseDocument>, d: LicenseDocument)
    requires DistinctSlugs(docs) && d.slug !in Index(docs)
    ensures DistinctSlugs(docs + [d])
  {
    IndexMembers(docs);
  }

  // What a transaction does to the table

  lemma UploadedIsProducible(sha: Sha256, draft: LicenseDraft, id: i64)
    requires Uploaded(sha, draft) && id >= 1
    ensures DecodeDocument(sha, RowOf(IntoDocument(draft, id))) == Ok(IntoDocument(draft, id))
    ensures LicenseShape(RowOf(IntoDocument(draft, id)))
  {
    var d := IntoDocument(draft, id);
    DecodesRow(sha, d);
    ReadsBackIffProducible(sha, d);
  }

  lemma RowsHaveTheirDocument(sha: Sha256, t: Table, i: nat)
    requires Decodes(sha, t) && i < |t|
    ensures RowId(t[i]) < NextIdOf(Documents(sha, t))
    ensures RowSlug(t[i]) in IndexOf(sha, t)
  {
    hide DecodeDocument, Documents, Index, NextIdOf;
    DocumentAt(sha, t, i);
    DecodedRow(sha, t[i]);
    var d := Documents(sha, t)[i];
    assert RowOf(d)[0] == t[i][0] && RowOf(d)[1] == t[i][1];
    NextIdAboveAll(Documents(sha, t), i);
    IndexMembers(Documents(sha, t));
    assert d in Documents(sha, t);
  }

  /** The row of a new document: its identifier is the largest and its slug is new. */
  lemma NewRow(sha: Sha256, t: Table, m: Memory, d: LicenseDocument)
    requires Agrees(sha, t, m) && d.id >= m.nextId && d.slug !in m.licenses
    ensures forall i :: 0 <= i < |t| ==> RowId(t[i]) < RowId(RowOf(d)) && RowSlug(t[i]) != RowSlug(RowOf(d))
  {
    hide DecodeDocument, Documents, Index, NextIdOf;
    forall i | 0 <= i < |t| ensures RowId(t[i]) < RowId(RowOf(d)) && RowSlug(t[i]) != RowSlug(RowOf(d)) {
      RowsHaveTheirDocument(sha, t, i);
    }
  }

  /** The table with the row of a new document still opens, with the document in its index. */
  lemma OneMoreRow(sha: Sha256, t: Table, d: LicenseDocument)
    requires Accepted(sha, t) && d.slug !in IndexOf(sha, t)
    requires NextIdOf(Documents(sha, t)) <= d.id < I64_MAX
    requires DecodeDocument(sha, RowOf(d)) == Ok(d)
    ensures Accepted(sha, t + [RowOf(d)])
    ensures IndexOf(sha, t + [RowOf(d)]) == IndexOf(sha, t)[d.slug := d]
    ensures NextIdOf(Documents(sha, t + [RowOf(d)])) == d.id + 1
  {
    hide DecodeDocument, Documents, Index, NextIdOf, RowOf;
    DocumentsOfOneMore(sha, t, RowOf(d));
    IndexOfOneMore(Documents(sha, t), d);
    OneMoreIsDistinct(Documents(sha, t), d);
  }

  /** No unique index ever refuses the statement, and the new row comes last. */
  lemma CommittedCreate(sha: Sha256, t: Table, m: Memory, draft: LicenseDraft)
    requires Ordered(t) && Accepted(sha, t) && Agrees(sha, t, m)
    requires Uploaded(sha, draft) && NeedsTransaction(m, Create(draft))
    ensures Committed(t, m, Create(draft)) == Some(t + [RowOf(IntoDocument(draft, m.nextId))])
    ensures var t' := t + [RowOf(IntoDocument(draft, m.nextId))];
            && Ordered(t') && Accepted(sha, t')
            && IndexOf(sha, t') == m.licenses[draft.slug := IntoDocument(draft, m.nextId)]
            && NextIdOf(Documents(sha, t')) == m.nextId + 1
  {
    hide DecodeDocument, Documents, Index, NextIdOf, Apply, Ordered, RowId, RowSlug, DistinctSlugs, RowOf, LicenseShape, Uploaded;
    var d := IntoDocument(draft, m.nextId);
    NextIdAtLeastOne(Documents(sha, t));
    UploadedIsProducible(sha, draft, m.nextId);
    NewRow(sha, t, m, d);
    ApplyAppends(t, RowOf(d));
    OneMoreRow(sha, t, d);
  }

  lemma CommittedDelete(sha: Sha256, t: Table, m: Memory, slug: string)
    requires Ordered(t) && Accepted(sha, t) && Agrees(sha, t, m)
    requires NeedsTransaction(m, Command.Delete(slug))
    ensures Committed(t, m, Command.Delete(slug)) == Some(WithoutSlug(t, slug))
    ensures var t' := WithoutSlug(t, slug);
            && Ordered(t') && Accepted(sha, t')
            && IndexOf(sha, t') == m.licenses - {slug}
            && NextIdOf(Documents(sha, t')) <= NextIdOf(Documents(sha, t))
  {
    WithoutSlugRows(t, slug);
    DocumentsWithoutSlug(sha, t, slug);
    WithoutDocumentIndex(Documents(sha, t), slug);
    WithoutDocumentIsDistinct(Documents(sha, t), slug);
  }

  /** A transaction that commits keeps every row but its own, and leaves a table that opens. */
  lemma CommittedTable(sha: Sha256, pre: Core, command: Command)
    requires Inv(sha, pre) && Proper(sha, command)
    requires pre.memory.Some? && NeedsTransaction(pre.memory.value, command)
    ensures var m, committed := pre.memory.value, Committed(pre.table, pre.memory.value, command);
            && committed.Some?
            && Inv(sha, Core(committed.value, Some(Updated(m, command))))
            && AtomicStep(m.licenses, m.nextId, command, Document(Ok(Subject(m, command))), IndexOf(sha, committed.value))
            && NextIdOf(Documents(sha, committed.value)) <= m.nextId + (if command.Create? then 1 else 0)
  {
    var m := pre.memory.value;
    match command
    case Create(draft) => CommittedCreate(sha, pre.table, m, draft);
    case Delete(slug) => CommittedDelete(sha, pre.table, m, slug);
  }

  lemma LoadedAgrees(sha: Sha256, t: Table)
    requires Ordered(t) && Accepted(sha, t)
    ensures Inv(sha, Core(t, Some(Loaded(sha, t))))
  {
  }

  /** A reloaded table that is the old one refuses, and one that is the committed one does not. */
  lemma SettledByTable(sha: Sha256, pre: Core, command: Command)
    requires Inv(sha, pre) && Proper(sha, command)
    requires pre.memory.Some? && NeedsTransaction(pre.memory.value, command)
    requires Committed(pre.table, pre.memory.value, command).Some?
    requires Accepted(sha, Committed(pre.table, pre.memory.value, command).value)
    ensures Settled(pre, command, Loaded(sha, pre.table)) == Document(Err(StorageUnavailable))
    ensures Settled(pre, command, Loaded(sha, Committed(pre.table, pre.memory.value, command).value)) ==
            Document(Ok(Subject(pre.memory.value, command)))
  {
    hide DecodeDocument, Documents, Index, NextIdOf, Apply, Ordered;
    CommittedTable(sha, pre, command);
    IndexMembers(Documents(sha, pre.table));
  }

  /**
   The doubt a failed transaction leaves is settled exactly: once the table has been
   loaded again, the answer is Ok if and only if the transaction is durable.
   */
  lemma DoubtIsSettled(sha: Sha256, pre: Core, command: Command, table: Table)
    requires Inv(sha, pre) && Proper(sha, command) && Interrupted(pre, command, table)
    ensures Accepted(sha, table) && Inv(sha, Core(table, Some(Loaded(sha, table))))
    ensures var m := pre.memory.value;
            var answer := Settled(pre, command, Loaded(sha, table));
            && (answer == Document(Ok(Subject(m, command))) <==> Committed(pre.table, m, command) == Some(table))
            && (Refused(answer) <==> table == pre.table)
            && Loaded(sha, table).nextId <= m.nextId + (if Refused(answer) || command.Delete? then 0 else 1)
  {
    hide DecodeDocument, Documents, Index, NextIdOf, Ordered, Settled, Committed, Subject, Updated, AtomicStep;
    CommittedTable(sha, pre, command);
    SettledByTable(sha, pre, command);
    LoadedAgrees(sha, table);
  }

  /** The three things a command can come to. */
  ghost predicate Outcome(sha: Sha256, pre: Core, command: Command, answer: Answer, post: Core)
    requires Decodes(sha, pre.table) && Decodes(sha, post.table) && pre.memory.Some?
  {
    var m, before, after := pre.memory.value, IndexOf(sha, pre.table), IndexOf(sha, post.table);
    if post.memory.Some? then
      && (if Refused(answer) then post.table == pre.table else AtomicStep(before, m.nextId, command, answer, after))
      && post.memory.value.nextId <= m.nextId + (if command.Create? && answer.Document? && answer.document.Ok? then 1 else 0)
    else
      && Refused(answer)
      && (post.table == pre.table || exists a :: AtomicStep(before, m.nextId, command, a, after))
  }

  /**
   With the database open, every command keeps the index equal to the decoded table
   and answers as the plain map would, or it refuses and leaves the table alone, or
   it refuses and closes the store with the one transaction in doubt.
   */
  lemma ExecutesAtomically(sha: Sha256, pre: Core, command: Command, answer: Answer, post: Core)
    requires Inv(sha, pre) && Proper(sha, command) && pre.memory.Some?
    requires Executes(sha, pre, command, answer, post)
    ensures Inv(sha, post)
    ensures Outcome(sha, pre, command, answer, post)
  {
    hide DecodeDocument, Documents, Index, NextIdOf, Ordered, Settled, Committed, Apply;
    var m := pre.memory.value;
    if NeedsTransaction(m, command) {
      CommittedTable(sha, pre, command);
      if Recovered(sha, pre, command, answer, post) || Lost(pre, command, answer, post) {
        DoubtIsSettled(sha, pre, command, post.table);
      }
    }
  }

  /** Without a fault an open store is the plain map, except that the identifiers may be used up. */
  lemma DirectIsAtomic(sha: Sha256, pre: Core, command: Command, answer: Answer, post: Core)
    requires Inv(sha, pre) && Proper(sha, command) && pre.memory.Some?
    requires Direct(pre, command, answer, post)
    ensures Inv(sha, post) && post.memory.Some?
    ensures var before, id := IndexOf(sha, pre.table), pre.memory.value.nextId;
            if command.Create? && command.draft.slug !in before && id == 0x7fff_ffff_ffff_ffff then
              Refused(answer) && post == pre
            else
              !Refused(answer) && AtomicStep(before, id, command, answer, IndexOf(sha, post.table))
  {
    hide DecodeDocument, Documents, Index, NextIdOf, Ordered, Committed, Apply, IsListing;
    if NeedsTransaction(pre.memory.value, command) {
      CommittedTable(sha, pre, command);
    }
  }

  /** Every command has a direct answer. */
  lemma DirectExists(sha: Sha256, pre: Core, command: Command) returns (answer: Answer, post: Core)
    requires Inv(sha, pre) && Proper(sha, command) && pre.memory.Some?
    ensures Direct(pre, command, answer, post)
  {
    hide DecodeDocument, Documents, Index, NextIdOf, Ordered, Committed, IsListing;
    var m := pre.memory.value;
    post := pre;
    if NeedsTransaction(m, command) {
      CommittedTable(sha, pre, command);
      answer := Document(Ok(Subject(m, command)));
      post := Core(Committed(pre.table, m, command).value, Some(Updated(m, command)));
    } else {
      match command
      case Create(draft) =>
        answer := Document(Err(if draft.slug in m.licenses then DuplicateSlug else StorageUnavailable));
      case List =>
        IndexMembers(Documents(sha, pre.table));
        var listing := ListingExists(m.licenses);
        answer := Licenses(Ok(listing));
      case Get(slug) =>
        answer := Document(if slug in m.licenses then Ok(m.licenses[slug]) else Err(NotFound));
      case Delete(_) =>
        answer := Document(Err(NotFound));
      case Ping =>
        answer := Pong;
    }
  }
}
