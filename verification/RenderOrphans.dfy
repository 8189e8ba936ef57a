/**
 When two renders of one digest can be in progress (`src/markdown.rs`): a job goes on
 alone once its request was cancelled, and whoever comes next starts another.
 */
module RenderOrphans {
  import opened RenderCache
  import opened RenderFlight
  import opened RenderRuns
  import opened Wrappers
  import Utf8

  /** A job that has not ended, and whose request was cancelled. */
  predicate Orphan(s: State, j: nat, d: string) {
    && j in s.jobs && Unfinished(s.jobs[j]) && s.jobs[j].digest == d
    && s.jobs[j].requester in s.requests && s.requests[s.jobs[j].requester].pc.Cancelled?
  }

  predicate Pair(s: State, j: nat, k: nat, d: string) {
    && j != k && j in s.jobs && k in s.jobs
    && Unfinished(s.jobs[j]) && Unfinished(s.jobs[k]) && s.jobs[j].digest == d && s.jobs[k].digest == d
  }

  /** Two jobs for the digest hold a permit together. */
  ghost predicate Doubled(s: State, d: string) {
    exists j, k :: Pair(s, j, k, d)
  }

  /** Some way on, without a further cancellation, doubles the digest. */
  ghost predicate CanDouble(render: string -> string, s: State, d: string) {
    exists steps :: Legal(render, s, steps) && Uncancelled(steps) && Doubled(Reached(render, s, steps), d)
  }

  // Only an orphan makes it possible

  lemma Acts(s: State, step: Step)
    requires Enabled(s, step) && !JobStep(step) && !step.Begin?
    ensures step.request in s.requests && Active(s.requests[step.request].pc)
  {
    hide Sound;
  }

  /** An orphan after a step that cancels nothing was one before. */
  lemma WasOrphan(render: string -> string, s: State, step: Step, j: nat, d: string)
    requires RequesterInv(s) && Enabled(s, step) && !step.Cancel? && Orphan(After(render, s, step), j, d)
    ensures Orphan(s, j, d)
  {
    var t := After(render, s, step);
    JobsFrame(render, s, step);
    if JobStep(step) {
      JobFrame(render, s, step);
    } else {
      RequestFrame(render, s, step);
      if !step.Begin? {
        Acts(s, step);
      }
    }
    hide Enabled, After;
  }

  lemma {:induction false} OrphansWereThere(render: string -> string, s: State, steps: seq<Step>, j: nat, d: string)
    requires RunInv(s) && Legal(render, s, steps) && Uncancelled(steps) && Orphan(Reached(render, s, steps), j, d)
    ensures Orphan(s, j, d)
    decreases |steps|
  {
    hide CellsInv, JobsInv, PermitsInv, Sound, CreatorInv, RequesterInv, Enabled, After, Orphan;
    if steps != [] {
      assert steps[0] in steps;
      RunStep(render, s, steps[0]);
      OrphansWereThere(render, After(render, s, steps[0]), steps[1..], j, d);
      WasOrphan(render, s, steps[0], j, d);
    }
  }

  lemma PairHasOrphan(s: State, j: nat, k: nat, d: string)
    requires RunInv(s) && Pair(s, j, k, d)
    ensures Orphan(s, j, d) || Orphan(s, k, d)
  {
    hide CellsInv, JobsInv, PermitsInv, Sound, CreatorInv;
    if !At(s, s.jobs[j].requester).Cancelled? && !At(s, s.jobs[k].requester).Cancelled? {
      OneAwaitedJob(s, j, k);
      assert false;
    }
  }

  lemma DoublingNeedsOrphan(render: string -> string, s: State, d: string)
    requires RunInv(s) && CanDouble(render, s, d)
    ensures exists j :: Orphan(s, j, d)
  {
    hide RunInv, Legal, Reached, Orphan, Pair;
    var steps :| Legal(render, s, steps) && Uncancelled(steps) && Doubled(Reached(render, s, steps), d);
    RunKeepsInv(render, s, steps);
    var t := Reached(render, s, steps);
    var j, k :| Pair(t, j, k, d);
    PairHasOrphan(t, j, k, d);
    var i := if Orphan(t, j, d) then j else k;
    OrphansWereThere(render, s, steps, i, d);
  }

  // Every orphan makes it possible

  lemma DoubledNow(render: string -> string, s: State, j: nat, k: nat, d: string)
    requires Pair(s, j, k, d)
    ensures CanDouble(render, s, d)
  {
    assert Legal(render, s, []) && Uncancelled([]) && Reached(render, s, []) == s;
  }

  lemma OneStepOn(render: string -> string, s: State, step: Step, d: string)
    requires Enabled(s, step) && !step.Cancel? && CanDouble(render, After(render, s, step), d)
    ensures CanDouble(render, s, d)
  {
    hide Enabled, After, Doubled, Legal, Reached;
    var t := After(render, s, step);
    var rest :| Legal(render, t, rest) && Uncancelled(rest) && Doubled(Reached(render, t, rest), d);
    FirstStep(render, s, step, rest, t);
    assert Uncancelled([step] + rest);
  }

  lemma FirstStep(render: string -> string, s: State, step: Step, rest: seq<Step>, t: State)
    requires Enabled(s, step) && After(render, s, step) == t && Legal(render, t, rest)
    ensures Legal(render, s, [step] + rest) && Reached(render, s, [step] + rest) == Reached(render, t, rest)
  {
    hide Enabled, After;
    assert ([step] + rest)[1..] == rest;
  }

  /** A reachable state with an orphan for a digest that is not in the cache. */
  ghost predicate Deserted(s: State, d: string, j: nat) {
    RunInv(s) && d !in s.cache.entries && Orphan(s, j, d)
  }

  lemma OrphanStays(render: string -> string, s: State, step: Step, d: string, j: nat)
    requires Orphan(s, j, d) && Enabled(s, step) && (JobStep(step) ==> step.job != j)
    ensures Orphan(After(render, s, step), j, d)
  {
    if JobStep(step) {
      JobFrame(render, s, step);
    } else {
      JobsFrame(render, s, step);
      RequestFrame(render, s, step);
      if !step.Begin? {
        Acts(s, step);
      }
    }
    hide Enabled, After;
  }

  /** It stays one as long as the orphan does not move and the digest is not cached. */
  lemma StaysDeserted(render: string -> string, s: State, step: Step, d: string, j: nat)
    requires Deserted(s, d, j) && Enabled(s, step) && !step.Cancel?
    requires JobStep(step) ==> step.job != j && step.job in s.jobs && (step.StoreJob? ==> s.jobs[step.job].digest != d)
    ensures Deserted(After(render, s, step), d, j)
  {
    hide Enabled, After, RunInv, Orphan;
    RunStep(render, s, step);
    OrphanStays(render, s, step, d, j);
    if step.StoreJob? {
      StoreKeepsOut(render, s, step.job, d);
    } else if JobStep(step) {
      JobFrame(render, s, step);
    } else {
      RequestFrame(render, s, step);
    }
  }

  lemma StoreKeepsOut(render: string -> string, s: State, j: nat, d: string)
    requires Enabled(s, StoreJob(j)) && d !in s.cache.entries && s.jobs[j].digest != d
    ensures d !in After(render, s, StoreJob(j)).cache.entries
  {
    hide Sound, Inserted, Utf8.Length;
    InsertedEntries(s.cache, s.jobs[j].digest, render(s.jobs[j].markdown));
  }

  lemma {:induction false} Above(used: set<nat>) returns (n: nat)
    ensures forall x :: x in used ==> x < n
  {
    if used == {} {
      n := 0;
    } else {
      var x :| x in used;
      var m := Above(used - {x});
      n := if m <= x then x + 1 else m;
      assert used == (used - {x}) + {x};
    }
  }

  predicate On(s: State, r: nat, d: string) {
    r in s.requests && s.requests[r].digest == d
  }

  lemma FromAbsent(render: string -> string, s: State, d: string, j: nat, q: nat)
    requires Deserted(s, d, j) && On(s, q, d) && s.requests[q].pc.Absent?
    ensures CanDouble(render, s, d)
  {
    hide RunInv, CanDouble;
    var k := Above(s.jobs.Keys);
    assert k !in s.jobs;
    assert Pair(After(render, s, Spawn(q, k)), j, k, d);
    DoubledNow(render, After(render, s, Spawn(q, k)), j, k, d);
    OneStepOn(render, s, Spawn(q, k), d);
  }

  lemma FromPermitted(render: string -> string, s: State, d: string, j: nat, q: nat)
    requires Deserted(s, d, j) && On(s, q, d) && s.requests[q].pc.Permitted?
    ensures CanDouble(render, s, d)
  {
    hide RunInv, CanDouble;
    StaysDeserted(render, s, Recheck(q), d, j);
    FromAbsent(render, After(render, s, Recheck(q)), d, j, q);
    OneStepOn(render, s, Recheck(q), d);
  }

  lemma FromFreePermit(render: string -> string, s: State, d: string, j: nat, q: nat)
    requires Deserted(s, d, j) && On(s, q, d) && s.requests[q].pc.Initialising? && s.available > 0
    ensures CanDouble(render, s, d)
  {
    hide RunInv, CanDouble;
    StaysDeserted(render, s, Acquire(q), d, j);
    FromPermitted(render, After(render, s, Acquire(q)), d, j, q);
    OneStepOn(render, s, Acquire(q), d);
  }

  // The other permit may be elsewhere: its holder goes on until it gives it back.

  predicate Initialises(s: State, q: nat, d: string) {
    On(s, q, d) && s.requests[q].pc.Initialising?
  }

  lemma FromStoredJob(render: string -> string, s: State, d: string, j: nat, q: nat, k: nat)
    requires Deserted(s, d, j) && Initialises(s, q, d)
    requires k in s.jobs && k != j && s.jobs[k].digest != d && s.jobs[k].pc.Stored?
    ensures CanDouble(render, s, d)
  {
    hide RunInv, CanDouble;
    StaysDeserted(render, s, FinishJob(k), d, j);
    FromFreePermit(render, After(render, s, FinishJob(k)), d, j, q);
    OneStepOn(render, s, FinishJob(k), d);
  }

  lemma FromRenderingJob(render: string -> string, s: State, d: string, j: nat, q: nat, k: nat)
    requires Deserted(s, d, j) && Initialises(s, q, d)
    requires k in s.jobs && k != j && s.jobs[k].digest != d && s.jobs[k].pc.Rendering?
    ensures CanDouble(render, s, d)
  {
    assert Sound(s.cache);
    hide RunInv, CanDouble, Sound, Inserted, Utf8.Length;
    StaysDeserted(render, s, StoreJob(k), d, j);
    FromStoredJob(render, After(render, s, StoreJob(k)), d, j, q, k);
    OneStepOn(render, s, StoreJob(k), d);
  }

  lemma FromQueuedJob(render: string -> string, s: State, d: string, j: nat, q: nat, k: nat)
    requires Deserted(s, d, j) && Initialises(s, q, d)
    requires k in s.jobs && k != j && s.jobs[k].digest != d && s.jobs[k].pc.Queued?
    ensures CanDouble(render, s, d)
  {
    hide RunInv, CanDouble;
    StaysDeserted(render, s, StartJob(k), d, j);
    FromRenderingJob(render, After(render, s, StartJob(k)), d, j, q, k);
    OneStepOn(render, s, StartJob(k), d);
  }

  lemma FromOtherJob(render: string -> string, s: State, d: string, j: nat, q: nat, k: nat)
    requires Deserted(s, d, j) && Initialises(s, q, d)
    requires k in s.jobs && k != j && Unfinished(s.jobs[k])
    ensures CanDouble(render, s, d)
  {
    hide RunInv, CanDouble;
    if s.jobs[k].digest == d {
      DoubledNow(render, s, j, k, d);
    } else {
      match s.jobs[k].pc
      case Queued => FromQueuedJob(render, s, d, j, q, k);
      case Rendering => FromRenderingJob(render, s, d, j, q, k);
      case Stored(_) => FromStoredJob(render, s, d, j, q, k);
    }
  }

  lemma FromAbsentHolder(render: string -> string, s: State, d: string, j: nat, q: nat, h: nat)
    requires Deserted(s, d, j) && Initialises(s, q, d)
    requires h in s.requests && h != q && s.requests[h].pc.Absent?
    ensures CanDouble(render, s, d)
  {
    hide RunInv, CanDouble;
    var k := Above(s.jobs.Keys);
    assert k !in s.jobs && k != j;
    StaysDeserted(render, s, Spawn(h, k), d, j);
    FromOtherJob(render, After(render, s, Spawn(h, k)), d, j, q, k);
    OneStepOn(render, s, Spawn(h, k), d);
  }

  lemma FromPermitHolder(render: string -> string, s: State, d: string, j: nat, q: nat, h: nat)
    requires Deserted(s, d, j) && Initialises(s, q, d)
    requires h in s.requests && h != q && s.requests[h].pc.Permitted?
    ensures CanDouble(render, s, d)
  {
    hide RunInv, CanDouble;
    StaysDeserted(render, s, Recheck(h), d, j);
    if s.requests[h].digest in s.cache.entries {
      FromFreePermit(render, After(render, s, Recheck(h)), d, j, q);
    } else {
      FromAbsentHolder(render, After(render, s, Recheck(h)), d, j, q, h);
    }
    OneStepOn(render, s, Recheck(h), d);
  }

  lemma SecondPermit(s: State, j: nat) returns (h: Option<nat>, k: nat)
    requires PermitsInv(s) && s.available == 0 && j in s.jobs && Unfinished(s.jobs[j])
    ensures if h.Some? then h.value in s.requests && HoldsPermit(s.requests[h.value].pc)
            else k in s.jobs && k != j && Unfinished(s.jobs[k])
  {
    h, k := None, 0;
    if holder :| holder in Holders(s.requests) {
      h := Some(holder);
    } else {
      assert Holders(s.requests) == {};
      var rest := Running(s.jobs) - {j};
      assert Running(s.jobs) == rest + {j};
      assert |rest| == 1;
      k :| k in rest;
    }
  }

  lemma FromInitialising(render: string -> string, s: State, d: string, j: nat, q: nat)
    requires Deserted(s, d, j) && Initialises(s, q, d)
    ensures CanDouble(render, s, d)
  {
    assert PermitsInv(s);
    hide RunInv, CanDouble, PermitsInv;
    if s.available > 0 {
      FromFreePermit(render, s, d, j, q);
    } else {
      var h, k := SecondPermit(s, j);
      if h.None? {
        FromOtherJob(render, s, d, j, q, k);
      } else if s.requests[h.value].pc.Permitted? {
        FromPermitHolder(render, s, d, j, q, h.value);
      } else {
        FromAbsentHolder(render, s, d, j, q, h.value);
      }
    }
  }

  // A request comes, or goes on, until it initialises a cell for the digest.

  predicate Unset(s: State, c: nat) {
    c in s.cells && s.cells[c].value.None? && s.cells[c].owner.None?
  }

  lemma FromHolding(render: string -> string, s: State, d: string, j: nat, r: nat)
    requires Deserted(s, d, j) && On(s, r, d) && s.requests[r].pc.Holding? && Unset(s, s.requests[r].pc.cell)
    ensures CanDouble(render, s, d)
  {
    hide RunInv, CanDouble;
    StaysDeserted(render, s, Enter(r), d, j);
    FromInitialising(render, After(render, s, Enter(r)), d, j, r);
    OneStepOn(render, s, Enter(r), d);
  }

  lemma FromMissed(render: string -> string, s: State, d: string, j: nat, r: nat)
    requires Deserted(s, d, j) && On(s, r, d) && s.requests[r].pc.Missed?
    requires d in s.flights ==> Unset(s, s.flights[d])
    ensures CanDouble(render, s, d)
  {
    hide RunInv, CanDouble;
    var c := Above(s.cells.Keys);
    assert c !in s.cells;
    StaysDeserted(render, s, TakeCell(r, c), d, j);
    FromHolding(render, After(render, s, TakeCell(r, c)), d, j, r);
    OneStepOn(render, s, TakeCell(r, c), d);
  }

  lemma FromNewcomer(render: string -> string, s: State, d: string, j: nat)
    requires Deserted(s, d, j) && (d in s.flights ==> Unset(s, s.flights[d]))
    ensures CanDouble(render, s, d)
  {
    hide RunInv, CanDouble;
    var r := Above(s.requests.Keys);
    assert r !in s.requests;
    StaysDeserted(render, s, Begin(r, d, ""), d, j);
    FromMissed(render, After(render, s, Begin(r, d, "")), d, j, r);
    OneStepOn(render, s, Begin(r, d, ""), d);
  }

  lemma FromReturned(render: string -> string, s: State, d: string, j: nat, r: nat)
    requires Deserted(s, d, j) && On(s, r, d) && s.requests[r].pc.Returned?
    requires d in s.flights ==> s.flights[d] == s.requests[r].pc.cell
    ensures CanDouble(render, s, d)
  {
    hide RunInv, CanDouble;
    StaysDeserted(render, s, CleanUp(r), d, j);
    FromNewcomer(render, After(render, s, CleanUp(r)), d, j);
    OneStepOn(render, s, CleanUp(r), d);
  }

  lemma FromHoldingSet(render: string -> string, s: State, d: string, j: nat, r: nat)
    requires Deserted(s, d, j) && On(s, r, d) && s.requests[r].pc.Holding?
    requires d in s.flights && s.flights[d] == s.requests[r].pc.cell
    requires s.flights[d] in s.cells && s.cells[s.flights[d]].value.Some?
    ensures CanDouble(render, s, d)
  {
    hide RunInv, CanDouble;
    StaysDeserted(render, s, Enter(r), d, j);
    FromReturned(render, After(render, s, Enter(r)), d, j, r);
    OneStepOn(render, s, Enter(r), d);
  }

  lemma FromMissedSet(render: string -> string, s: State, d: string, j: nat, r: nat)
    requires Deserted(s, d, j) && On(s, r, d) && s.requests[r].pc.Missed?
    requires d in s.flights && s.flights[d] in s.cells && s.cells[s.flights[d]].value.Some?
    ensures CanDouble(render, s, d)
  {
    hide RunInv, CanDouble;
    var c := Above(s.cells.Keys);
    assert c !in s.cells;
    StaysDeserted(render, s, TakeCell(r, c), d, j);
    FromHoldingSet(render, After(render, s, TakeCell(r, c)), d, j, r);
    OneStepOn(render, s, TakeCell(r, c), d);
  }

  lemma FromSetCell(render: string -> string, s: State, d: string, j: nat)
    requires Deserted(s, d, j)
    requires d in s.flights && s.flights[d] in s.cells && s.cells[s.flights[d]].value.Some?
    ensures CanDouble(render, s, d)
  {
    hide RunInv, CanDouble;
    var r := Above(s.requests.Keys);
    assert r !in s.requests;
    StaysDeserted(render, s, Begin(r, d, ""), d, j);
    FromMissedSet(render, After(render, s, Begin(r, d, "")), d, j, r);
    OneStepOn(render, s, Begin(r, d, ""), d);
  }

  predicate Owned(s: State, d: string, q: nat) {
    On(s, q, d) && Owns(s.requests[q].pc) && d in s.flights && s.flights[d] == s.requests[q].pc.cell
    && s.flights[d] in s.cells
  }

  lemma FromResolved(render: string -> string, s: State, d: string, j: nat, q: nat)
    requires Deserted(s, d, j) && Owned(s, d, q) && s.requests[q].pc.Resolved?
    ensures CanDouble(render, s, d)
  {
    hide RunInv, CanDouble;
    StaysDeserted(render, s, Publish(q), d, j);
    FromReturned(render, After(render, s, Publish(q)), d, j, q);
    OneStepOn(render, s, Publish(q), d);
  }

  lemma FromCollected(render: string -> string, s: State, d: string, j: nat, q: nat)
    requires Deserted(s, d, j) && Owned(s, d, q) && s.requests[q].pc.Awaiting?
    requires s.requests[q].pc.job in s.jobs && s.jobs[s.requests[q].pc.job].pc.Finished?
    ensures CanDouble(render, s, d)
  {
    hide RunInv, CanDouble;
    StaysDeserted(render, s, Collect(q), d, j);
    FromResolved(render, After(render, s, Collect(q)), d, j, q);
    OneStepOn(render, s, Collect(q), d);
  }

  lemma FromOwner(render: string -> string, s: State, d: string, j: nat, q: nat)
    requires Deserted(s, d, j) && Owned(s, d, q)
    ensures CanDouble(render, s, d)
  {
    assert JobsInv(s);
    hide RunInv, CanDouble;
    match s.requests[q].pc
    case Initialising(_) => FromInitialising(render, s, d, j, q);
    case Permitted(_) => FromPermitted(render, s, d, j, q);
    case Absent(_) => FromAbsent(render, s, d, j, q);
    case Awaiting(_, k) =>
      if Unfinished(s.jobs[k]) {
        DoubledNow(render, s, j, k, d);
      } else {
        FromCollected(render, s, d, j, q);
      }
    case Resolved(_, _) => FromResolved(render, s, d, j, q);
  }

  lemma OwnerOfFlight(s: State, d: string)
    requires CellsInv(s) && d in s.flights
    ensures s.flights[d] in s.cells && s.cells[s.flights[d]].digest == d
    ensures var cell := s.cells[s.flights[d]]; cell.owner.Some? ==> Owned(s, d, cell.owner.value)
  {
  }

  lemma OrphanIsEnough(render: string -> string, s: State, d: string, j: nat)
    requires Deserted(s, d, j)
    ensures CanDouble(render, s, d)
  {
    assert CellsInv(s);
    hide RunInv, CanDouble, CellsInv, Owned;
    if d in s.flights {
      OwnerOfFlight(s, d);
      var cell := s.cells[s.flights[d]];
      if cell.value.Some? {
        FromSetCell(render, s, d, j);
      } else if cell.owner.Some? {
        FromOwner(render, s, d, j, cell.owner.value);
      } else {
        FromNewcomer(render, s, d, j);
      }
    } else {
      FromNewcomer(render, s, d, j);
    }
  }

  /**
   From any reachable state, for any digest that is not in the cache: two renders of it can
   come to be in progress without a further cancellation if and only if a cancelled request
   has left one unfinished.
   */
  lemma DoublesIffOrphaned(render: string -> string, before: seq<Step>, d: string)
    requires Legal(render, START, before) && d !in Reached(render, START, before).cache.entries
    ensures var s := Reached(render, START, before);
            CanDouble(render, s, d) <==> exists j :: Orphan(s, j, d)
  {
    hide Legal, Reached, RunInv, CanDouble, Orphan;
    StartInv();
    RunKeepsInv(render, START, before);
    var s := Reached(render, START, before);
    if CanDouble(render, s, d) {
      DoublingNeedsOrphan(render, s, d);
    }
    if j :| Orphan(s, j, d) {
      OrphanIsEnough(render, s, d, j);
    }
  }

  // A run in which it happens

  /** The way of a request from its cell to its job. */
  function Way(r: nat): seq<Step> {
    [Enter(r), Acquire(r), Recheck(r), Spawn(r, r)]
  }

  predicate MayGo(s: State, r: nat) {
    && r in s.requests && s.requests[r].pc.Holding? && r !in s.jobs && s.available > 0
    && s.requests[r].digest !in s.cache.entries
    && s.requests[r].pc.cell in s.cells
    && s.cells[s.requests[r].pc.cell].owner.None? && s.cells[s.requests[r].pc.cell].value.None?
  }

  function Gone(s: State, r: nat): State
    requires MayGo(s, r)
  {
    var request := s.requests[r];
    WithOwner(Moved(s, r, Awaiting(request.pc.cell, r)), request.pc.cell, Some(r)).(
      jobs := s.jobs[r := Job(request.digest, request.markdown, r, Queued)], available := s.available - 1)
  }

  lemma Goes(render: string -> string, s: State, r: nat)
    requires MayGo(s, r)
    ensures Enabled(s, Enter(r))
    ensures var s1 := After(render, s, Enter(r));
            && Enabled(s1, Acquire(r))
            && var s2 := After(render, s1, Acquire(r));
               && Enabled(s2, Recheck(r))
               && var s3 := After(render, s2, Recheck(r));
                  && Enabled(s3, Spawn(r, r))
                  && After(render, s3, Spawn(r, r)) == Gone(s, r)
  {
    hide Sound;
    var c := s.requests[r].pc.cell;
    var s1 := After(render, s, Enter(r));
    assert s1 == WithOwner(Moved(s, r, Initialising(c)), c, Some(r));
    var s2 := After(render, s1, Acquire(r));
    assert s2 == Moved(s1, r, Permitted(c)).(available := s.available - 1);
    var s3 := After(render, s2, Recheck(r));
    assert s3 == Moved(s2, r, Absent(c));
  }

  lemma WayIsLegal(render: string -> string, s: State, r: nat, rest: seq<Step>)
    requires MayGo(s, r) && Legal(render, Gone(s, r), rest)
    ensures Legal(render, s, Way(r) + rest)
    ensures Reached(render, s, Way(r) + rest) == Reached(render, Gone(s, r), rest)
  {
    hide Legal, Reached, Enabled, After, MayGo, Gone;
    Goes(render, s, r);
    var s1 := After(render, s, Enter(r));
    var s2 := After(render, s1, Acquire(r));
    var s3 := After(render, s2, Recheck(r));
    FirstStep(render, s3, Spawn(r, r), rest, Gone(s, r));
    FirstStep(render, s2, Recheck(r), [Spawn(r, r)] + rest, s3);
    FirstStep(render, s1, Acquire(r), [Recheck(r)] + ([Spawn(r, r)] + rest), s2);
    FirstStep(render, s, Enter(r), [Acquire(r)] + ([Recheck(r)] + ([Spawn(r, r)] + rest)), s1);
    assert Way(r) + rest == [Enter(r)] + ([Acquire(r)] + ([Recheck(r)] + ([Spawn(r, r)] + rest)));
  }

  /** Request 0 is cancelled while its job is queued. */
  function Forgetting(d: string, m: string, rest: seq<Step>): seq<Step> {
    [Begin(0, d, m)] + ([TakeCell(0, 0)] + (Way(0) + ([Cancel(0)] + rest)))
  }

  function Forgotten(d: string, m: string): State {
    State(
      EMPTY, map[d := 0], map[0 := Cell(d, 0, None, None)], map[0 := Job(d, m, 0, Queued)],
      map[0 := Request(d, m, Cancelled)], 1)
  }

  lemma Forgets(render: string -> string, d: string, m: string, rest: seq<Step>)
    requires Legal(render, Forgotten(d, m), rest)
    ensures Legal(render, START, Forgetting(d, m, rest))
    ensures Reached(render, START, Forgetting(d, m, rest)) == Reached(render, Forgotten(d, m), rest)
  {
    hide Sound, Legal, Reached, Way;
    var s1 := After(render, START, Begin(0, d, m));
    assert s1 == START.(requests := map[0 := Request(d, m, Missed)]);
    var s2 := After(render, s1, TakeCell(0, 0));
    var cells := map[0 := Cell(d, 0, None, None)];
    assert s2 == State(EMPTY, map[d := 0], cells, map[], map[0 := Request(d, m, Holding(0))], 2);
    var s3 := Gone(s2, 0);
    assert After(render, s3, Cancel(0)) == Forgotten(d, m);
    hide Enabled, After, Gone;
    FirstStep(render, s3, Cancel(0), rest, Forgotten(d, m));
    WayIsLegal(render, s2, 0, [Cancel(0)] + rest);
    FirstStep(render, s1, TakeCell(0, 0), Way(0) + ([Cancel(0)] + rest), s2);
    FirstStep(render, START, Begin(0, d, m), [TakeCell(0, 0)] + (Way(0) + ([Cancel(0)] + rest)), s1);
  }

  /** Request 1 comes for the same text, and both jobs start. */
  function Following(d: string, m: string): seq<Step> {
    [Begin(1, d, m)] + ([TakeCell(1, 1)] + (Way(1) + BothStart()))
  }

  function BothStart(): seq<Step> {
    [StartJob(0)] + ([StartJob(1)] + [])
  }

  lemma BothStarted(render: string -> string, s: State)
    requires 0 in s.jobs && 1 in s.jobs && s.jobs[0].pc.Queued? && s.jobs[1].pc.Queued?
    ensures Legal(render, s, BothStart())
    ensures var t := Reached(render, s, BothStart());
            t.jobs == s.jobs[0 := s.jobs[0].(pc := Rendering)][1 := s.jobs[1].(pc := Rendering)]
  {
    var s1 := After(render, s, StartJob(0));
    var s2 := After(render, s1, StartJob(1));
    assert Legal(render, s2, []) && Reached(render, s2, []) == s2;
    hide Legal, Reached;
    FirstStep(render, s1, StartJob(1), [], s2);
    FirstStep(render, s, StartJob(0), [StartJob(1)] + [], s1);
  }

  /** For every digest and text, a run with one cancellation in which two jobs render it at once. */
  lemma CancellationEndsSingleFlight(render: string -> string, d: string, m: string)
    ensures Legal(render, START, Forgetting(d, m, Following(d, m)))
    ensures var s := Reached(render, START, Forgetting(d, m, Following(d, m)));
            && 0 in s.jobs && 1 in s.jobs && s.jobs[0].pc.Rendering? && s.jobs[1].pc.Rendering?
            && s.jobs[0].digest == s.jobs[1].digest == d && s.jobs[0].markdown == s.jobs[1].markdown == m
  {
    hide Sound, Legal, Reached, Way, Forgetting, BothStart;
    var s4 := Forgotten(d, m);
    var s5 := After(render, s4, Begin(1, d, m));
    var both := map[0 := Request(d, m, Cancelled), 1 := Request(d, m, Missed)];
    assert s5 == s4.(requests := both);
    var s6 := After(render, s5, TakeCell(1, 1));
    assert s6 == s4.(requests := both[1 := Request(d, m, Holding(0))]);
    var s7 := Gone(s6, 1);
    assert s7.jobs == map[0 := Job(d, m, 0, Queued), 1 := Job(d, m, 1, Queued)];
    hide Enabled, After, Gone;
    BothStarted(render, s7);
    WayIsLegal(render, s6, 1, BothStart());
    FirstStep(render, s5, TakeCell(1, 1), Way(1) + BothStart(), s6);
    FirstStep(render, s4, Begin(1, d, m), [TakeCell(1, 1)] + (Way(1) + BothStart()), s5);
    Forgets(render, d, m, Following(d, m));
  }
}
