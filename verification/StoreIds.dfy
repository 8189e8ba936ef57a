/**
 Which identifiers a store gives out over whole runs.  Loading the table computes the next
 one anew, so identifiers grow only as long as no reload forgets the latest.
 */
module StoreIds {
  import opened Codec
  import opened Domain
  import opened LicenseTable
  import opened Rnmdb
  import opened StoreRuns
  import opened StoreSpec
  import opened Wrappers

  // One reload

  lemma {:induction false} NextIdAbove(docs: seq<LicenseDocument>, n: int)
    requires n >= 1
    ensures NextIdOf(docs) > n <==> exists i :: 0 <= i < |docs| && docs[i].id >= n
  {
    if docs != [] {
      var front, last := docs[..|docs| - 1], docs[|docs| - 1];
      NextIdAbove(front, n);
      if i :| 0 <= i < |front| && front[i].id >= n {
        assert docs[i].id >= n;
      }
      if last.id >= n {
        assert docs[|docs| - 1].id >= n;
      }
    }
  }

  /** The table still holds the identifier, or a later one; 0 stands for none. */
  predicate StillStored(t: Table, id: int) {
    id == 0 || exists i :: 0 <= i < |t| && RowId(t[i]) >= id
  }

  lemma RowIdOf(sha: Sha256, t: Table, i: nat)
    requires Decodes(sha, t) && i < |t|
    ensures |Documents(sha, t)| == |t| && RowId(t[i]) == Documents(sha, t)[i].id
  {
    hide DecodeDocument;
    DocumentAt(sha, t, i);
    DecodedRow(sha, t[i]);
    var d := Documents(sha, t)[i];
    assert RowOf(d)[0] == t[i][0];
  }

  /** A reload gives out identifiers above `id` exactly if that is still stored. */
  lemma ReloadedAbove(sha: Sha256, t: Table, id: int)
    requires Decodes(sha, t) && id >= 0
    ensures NextIdOf(Documents(sha, t)) > id <==> StillStored(t, id)
  {
    hide DecodeDocument, Documents, NextIdOf, RowId;
    var docs := Documents(sha, t);
    NextIdAtLeastOne(docs);
    DocumentsLength(sha, t);
    forall i | 0 <= i < |t| ensures RowId(t[i]) == docs[i].id {
      RowIdOf(sha, t, i);
    }
    if id >= 1 {
      NextIdAbove(docs, id);
    }
  }

  /** A reload keeps the next identifier exactly if none was given out, or the row before it is there. */
  lemma ReloadKeepsNextId(sha: Sha256, t: Table, m: Memory)
    requires Agrees(sha, t, m)
    ensures NextIdOf(Documents(sha, t)) == m.nextId <==>
            m.nextId == 1 || exists i :: 0 <= i < |t| && RowId(t[i]) == m.nextId - 1
  {
    hide DecodeDocument, Documents, NextIdOf, RowId;
    NextIdAtLeastOne(Documents(sha, t));
    ReloadedAbove(sha, t, m.nextId - 1);
    forall i | 0 <= i < |t| ensures RowId(t[i]) < m.nextId {
      RowsHaveTheirDocument(sha, t, i);
    }
  }

  // Runs

  /** The identifier that a create answers with. */
  function Issued(e: Event): Option<int> {
    match e
    case Executed(Create(_), Document(Ok(d)), _) => Some(d.id)
    case _ => None
  }

  function IssuedIds(events: seq<Event>): seq<int> {
    if events == [] then []
    else (if Issued(events[0]).Some? then [Issued(events[0]).value] else []) + IssuedIds(events[1..])
  }

  function Latest(id: int, e: Event): int {
    if Issued(e).Some? then Issued(e).value else id
  }

  predicate Increasing(ids: seq<int>) {
    forall i, j :: 0 <= i < j < |ids| ==> ids[i] < ids[j]
  }

  /** The table was loaded again, by a restart or by a recovery. */
  ghost predicate Reloads(pre: Core, e: Event) {
    e.Reopened? || (e.post.memory.Some? && !Direct(pre, e.command, e.answer, e.post))
  }

  /** Whenever the table is loaded again, the latest identifier given out is still stored. */
  ghost predicate KeepsLatest(pre: Core, events: seq<Event>, id: int)
    decreases |events|
  {
    events != [] ==>
      && (Reloads(pre, events[0]) ==> StillStored(events[0].post.table, Latest(id, events[0])))
      && KeepsLatest(events[0].post, events[1..], Latest(id, events[0]))
  }

  predicate NextIsAbove(c: Core, id: int) {
    c.memory.Some? ==> c.memory.value.nextId > id
  }

  /** All along, the next identifier is above all that were given out. */
  predicate NextStaysAbove(pre: Core, events: seq<Event>, id: int)
    decreases |events|
  {
    && NextIsAbove(pre, id)
    && (events != [] ==> NextStaysAbove(events[0].post, events[1..], Latest(id, events[0])))
  }

  lemma IssuesNext(sha: Sha256, pre: Core, e: Event)
    requires Happens(sha, pre, e) && Issued(e).Some?
    ensures pre.memory.Some? && Issued(e).value == pre.memory.value.nextId
  {
    hide DecodeDocument, Accepted, Loaded, Committed, Proper;
  }

  lemma DirectStaysAbove(sha: Sha256, pre: Core, e: Event, id: int)
    requires Happens(sha, pre, e) && NextIsAbove(pre, id) && !Reloads(pre, e)
    ensures NextIsAbove(e.post, Latest(id, e))
  {
    hide DecodeDocument, Accepted, Loaded, Committed, Proper;
  }

  lemma ReloadLoads(sha: Sha256, pre: Core, e: Event)
    requires Happens(sha, pre, e) && Reloads(pre, e)
    ensures Accepted(sha, e.post.table) && e.post.memory == Some(Loaded(sha, e.post.table))
  {
    hide DecodeDocument, Accepted, Loaded, Committed, Proper, Direct, Settled;
  }

  lemma StepStaysAbove(sha: Sha256, pre: Core, e: Event, id: int)
    requires Inv(sha, pre) && Happens(sha, pre, e) && NextIsAbove(pre, id) && id >= 0
    ensures Latest(id, e) >= 0
    ensures NextIsAbove(e.post, Latest(id, e)) <==>
            (Reloads(pre, e) ==> StillStored(e.post.table, Latest(id, e)))
  {
    hide DecodeDocument, Documents, NextIdOf, Happens, Inv, Reloads, StillStored, Issued;
    if Issued(e).Some? {
      IssuesNext(sha, pre, e);
    }
    if Reloads(pre, e) {
      ReloadLoads(sha, pre, e);
      ReloadedAbove(sha, e.post.table, Latest(id, e));
    } else {
      DirectStaysAbove(sha, pre, e, id);
    }
  }

  /** The next identifier stays above all given out exactly if no reload forgets the latest of them. */
  lemma {:induction false} NextStaysAboveIffKept(sha: Sha256, pre: Core, events: seq<Event>, id: int)
    requires Inv(sha, pre) && Run(sha, pre, events) && NextIsAbove(pre, id) && id >= 0
    ensures NextStaysAbove(pre, events, id) <==> KeepsLatest(pre, events, id)
    decreases |events|
  {
    hide Inv, Happens, Reloads, StillStored, NextIsAbove, Latest;
    if events != [] {
      var e := events[0];
      StepKeepsInv(sha, pre, e);
      StepStaysAbove(sha, pre, e, id);
      if NextIsAbove(e.post, Latest(id, e)) {
        NextStaysAboveIffKept(sha, e.post, events[1..], Latest(id, e));
      }
    }
  }

  lemma {:induction false} IssuedAbove(sha: Sha256, pre: Core, events: seq<Event>, id: int)
    requires Run(sha, pre, events) && NextStaysAbove(pre, events, id)
    ensures Increasing(IssuedIds(events)) && forall i :: 0 <= i < |IssuedIds(events)| ==> id < IssuedIds(events)[i]
    decreases |events|
  {
    hide Happens, Issued;
    if events != [] {
      IssuedAbove(sha, events[0].post, events[1..], Latest(id, events[0]));
      if Issued(events[0]).Some? {
        IssuesNext(sha, pre, events[0]);
      }
    }
  }

  /** Identifiers increase from create to create as long as no reload forgets the latest. */
  lemma IdentifiersIncrease(sha: Sha256, start: Core, events: seq<Event>)
    requires Inv(sha, start) && Run(sha, start, events) && KeepsLatest(start, events, 0)
    ensures Increasing(IssuedIds(events))
  {
    hide DecodeDocument, Documents, Index, NextIdOf, Ordered, Run, KeepsLatest;
    NextIdAtLeastOne(Documents(sha, start.table));
    NextStaysAboveIffKept(sha, start, events, 0);
    IssuedAbove(sha, start, events, 0);
  }

  /** A create of a new slug, answered without a fault. */
  lemma CreateIssuesNext(sha: Sha256, c: Core, draft: LicenseDraft) returns (e: Event)
    requires Inv(sha, c) && c.memory.Some? && Uploaded(sha, draft) && NeedsTransaction(c.memory.value, Create(draft))
    ensures var d := IntoDocument(draft, c.memory.value.nextId);
            e == Executed(Create(draft), Document(Ok(d)),
                          Core(c.table + [RowOf(d)], Some(Updated(c.memory.value, Create(draft)))))
    ensures Happens(sha, c, e) && Issued(e) == Some(c.memory.value.nextId)
  {
    hide DecodeDocument, Documents, Index, NextIdOf, Ordered, Uploaded, Apply, RowOf, Committed;
    var m := c.memory.value;
    CommittedCreate(sha, c.table, m, draft);
    var d := IntoDocument(draft, m.nextId);
    e := Executed(Create(draft), Document(Ok(d)), Core(c.table + [RowOf(d)], Some(Updated(m, Create(draft)))));
    assert Direct(c, Create(draft), Document(Ok(d)), e.post);
  }

  lemma {:induction false} RunOfOneMore(sha: Sha256, start: Core, events: seq<Event>, e: Event)
    requires Run(sha, start, events) && Happens(sha, Final(start, events), e)
    ensures Run(sha, start, events + [e]) && Final(start, events + [e]) == e.post
    ensures IssuedIds(events + [e]) == IssuedIds(events) + IssuedIds([e])
    decreases |events|
  {
    hide Happens;
    if events == [] {
      assert events + [e] == [e] && [e][1..] == [];
    } else {
      assert (events + [e])[1..] == events[1..] + [e];
      assert Final(events[0].post, events[1..]) == Final(start, events);
      RunOfOneMore(sha, events[0].post, events[1..], e);
    }
  }

  /** Where the next identifier is not above one given out before, a create is all it takes to go back. */
  lemma ForgottenIdsComeBack(sha: Sha256, start: Core, events: seq<Event>, draft: LicenseDraft, k: nat) returns (e: Event)
    requires Inv(sha, start) && Run(sha, start, events) && k < |IssuedIds(events)|
    requires var c := Final(start, events);
             && c.memory.Some? && c.memory.value.nextId <= IssuedIds(events)[k]
             && Uploaded(sha, draft) && NeedsTransaction(c.memory.value, Create(draft))
    ensures Run(sha, start, events + [e]) && !Increasing(IssuedIds(events + [e]))
  {
    hide Inv, Run, Happens, Issued, Uploaded, NeedsTransaction;
    RunKeepsInv(sha, start, events);
    e := CreateIssuesNext(sha, Final(start, events), draft);
    RunOfOneMore(sha, start, events, e);
    assert [e][1..] == [];
    var ids := IssuedIds(events + [e]);
    assert ids[|ids| - 1] <= ids[k];
  }

  function FirstCreated(draft: LicenseDraft): Event {
    var d := IntoDocument(draft, 1);
    Executed(Create(draft), Document(Ok(d)), Core([RowOf(d)], Some(Memory(map[draft.slug := d], 2))))
  }

  function DeletedAgain(draft: LicenseDraft): Event {
    Executed(Command.Delete(draft.slug), Document(Ok(IntoDocument(draft, 1))), Core([], Some(Memory(map[], 2))))
  }

  /** Create, delete, restart, create. */
  function Forgetful(first: LicenseDraft, second: LicenseDraft): seq<Event> {
    [FirstCreated(first)] + ([DeletedAgain(first)] + ([Reopened(EMPTY)] + ([FirstCreated(second)] + [])))
  }

  lemma RunStarts(sha: Sha256, pre: Core, e: Event, rest: seq<Event>)
    requires Happens(sha, pre, e) && Run(sha, e.post, rest)
    ensures Run(sha, pre, [e] + rest)
    ensures IssuedIds([e] + rest) == (if Issued(e).Some? then [Issued(e).value] else []) + IssuedIds(rest)
  {
    hide Happens;
    assert ([e] + rest)[1..] == rest;
  }

  lemma FirstCreate(sha: Sha256, draft: LicenseDraft)
    requires Uploaded(sha, draft)
    ensures Happens(sha, EMPTY, FirstCreated(draft))
  {
    hide Uploaded, RowOf;
    EmptyIsSound(sha);
    hide Inv, Happens;
    var e := CreateIssuesNext(sha, EMPTY, draft);
    assert [] + [RowOf(IntoDocument(draft, 1))] == [RowOf(IntoDocument(draft, 1))];
  }

  lemma DeletesTheOnlyOne(sha: Sha256, draft: LicenseDraft)
    ensures Happens(sha, FirstCreated(draft).post, DeletedAgain(draft))
  {
    var d := IntoDocument(draft, 1);
    var m := Memory(map[d.slug := d], 2);
    assert RowSlug(RowOf(d)) == d.slug;
    assert WithoutSlug([RowOf(d)], d.slug) == [];
    assert Updated(m, Command.Delete(d.slug)) == Memory(map[], 2);
  }

  /** Identifiers are not globally increasing: whatever is uploaded, this run answers two creates with 1. */
  lemma IdentifiersAreReused(sha: Sha256, first: LicenseDraft, second: LicenseDraft)
    requires Uploaded(sha, first) && Uploaded(sha, second)
    ensures Run(sha, EMPTY, Forgetful(first, second))
    ensures IssuedIds(Forgetful(first, second)) == [1, 1]
  {
    FirstCreate(sha, first);
    DeletesTheOnlyOne(sha, first);
    assert Happens(sha, DeletedAgain(first).post, Reopened(EMPTY)) by { EmptyIsSound(sha); }
    FirstCreate(sha, second);
    assert Issued(DeletedAgain(first)) == Issued(Reopened(EMPTY)) == None;
    assert Issued(FirstCreated(first)) == Issued(FirstCreated(second)) == Some(1);
    assert Reopened(EMPTY).post == EMPTY;
    hide Happens, Uploaded, FirstCreated, DeletedAgain, Issued, Run, IssuedIds;
    assert Run(sha, FirstCreated(second).post, []) && IssuedIds([]) == [] by { NoEvents(sha, FirstCreated(second).post); }
    RunStarts(sha, EMPTY, FirstCreated(second), []);
    RunStarts(sha, DeletedAgain(first).post, Reopened(EMPTY), [FirstCreated(second)] + []);
    RunStarts(sha, FirstCreated(first).post, DeletedAgain(first), [Reopened(EMPTY)] + ([FirstCreated(second)] + []));
    RunStarts(sha, EMPTY, FirstCreated(first), [DeletedAgain(first)] + ([Reopened(EMPTY)] + ([FirstCreated(second)] + [])));
  }

  lemma NoEvents(sha: Sha256, c: Core)
    ensures Run(sha, c, []) && IssuedIds([]) == []
  {
  }
}
