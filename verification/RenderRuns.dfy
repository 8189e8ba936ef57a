/** What every run of the single-flight protocol of `src/markdown.rs` keeps. */
module RenderRuns {
  import opened RenderCache
  import opened RenderFlight
  import opened Wrappers
  import Utf8

  type Jobs = map<nat, Job>

  // What a step touches

  /** A step of a request changes that request. */
  lemma RequestMoves(render: string -> string, s: State, step: Step)
    requires Enabled(s, step) && !JobStep(step)
    ensures var t, r := After(render, s, step), step.request;
            && r in t.requests && t.requests == s.requests[r := t.requests[r]]
            && (r in s.requests ==> t.requests[r] == s.requests[r].(pc := t.requests[r].pc))
            && (t.requests[r].pc.Cancelled? <==> step.Cancel?)
  {
    hide Sound;
  }

  /** It adds a job if it spawns one, and leaves the cache alone. */
  lemma RequestLeaves(render: string -> string, s: State, step: Step)
    requires Enabled(s, step) && !JobStep(step)
    ensures var t := After(render, s, step);
            && (step.request in s.requests <==> !step.Begin?)
            && (!step.Spawn? ==> t.jobs == s.jobs)
            && t.cache == s.cache
  {
    hide Sound;
  }

  lemma RequestFrame(render: string -> string, s: State, step: Step)
    requires Enabled(s, step) && !JobStep(step)
    ensures var t, r := After(render, s, step), step.request;
            && r in t.requests && t.requests == s.requests[r := t.requests[r]]
            && (r in s.requests ==> t.requests[r] == s.requests[r].(pc := t.requests[r].pc))
            && (r in s.requests <==> !step.Begin?)
            && (t.requests[r].pc.Cancelled? <==> step.Cancel?)
            && (!step.Spawn? ==> t.jobs == s.jobs)
            && t.cache == s.cache
  {
    hide Enabled, After;
    RequestMoves(render, s, step);
    RequestLeaves(render, s, step);
  }

  // Permits

  ghost function Holders(requests: Requests): set<nat> {
    set r | r in requests && HoldsPermit(requests[r].pc)
  }

  ghost function Running(jobs: Jobs): set<nat> {
    set j | j in jobs && Unfinished(jobs[j])
  }

  ghost function Rendering(jobs: Jobs): set<nat> {
    set j | j in jobs && jobs[j].pc.Rendering?
  }

  /** Permits that are free, held by a request, or moved into a job that has not ended. */
  ghost predicate PermitsInv(s: State) {
    s.available + |Holders(s.requests)| + |Running(s.jobs)| == RENDER_LIMIT
  }

  lemma HoldersMove(requests: Requests, r: nat, request: Request)
    ensures var was := r in requests && HoldsPermit(requests[r].pc);
            |Holders(requests[r := request])| ==
            |Holders(requests)| - (if was then 1 else 0) + (if HoldsPermit(request.pc) then 1 else 0)
  {
    var rest := Holders(requests) - {r};
    assert Holders(requests[r := request]) == if HoldsPermit(request.pc) then rest + {r} else rest;
    assert Holders(requests) == if r in Holders(requests) then rest + {r} else rest;
  }

  lemma RunningMove(jobs: Jobs, j: nat, job: Job)
    ensures var was := j in jobs && Unfinished(jobs[j]);
            |Running(jobs[j := job])| ==
            |Running(jobs)| - (if was then 1 else 0) + (if Unfinished(job) then 1 else 0)
  {
    var rest := Running(jobs) - {j};
    assert Running(jobs[j := job]) == if Unfinished(job) then rest + {j} else rest;
    assert Running(jobs) == if j in Running(jobs) then rest + {j} else rest;
  }

  lemma JobStepPermits(render: string -> string, s: State, step: Step)
    requires PermitsInv(s) && Enabled(s, step) && JobStep(step)
    ensures PermitsInv(After(render, s, step))
  {
    hide Sound, Inserted, Utf8.Length, Holders, Running;
    RunningMove(s.jobs, step.job, After(render, s, step).jobs[step.job]);
  }

  lemma RequestStepPermits(render: string -> string, s: State, step: Step)
    requires PermitsInv(s) && Enabled(s, step) && !JobStep(step)
    ensures PermitsInv(After(render, s, step))
  {
    hide Sound, Holders, Running;
    HoldersMove(s.requests, step.request, After(render, s, step).requests[step.request]);
    if step.Spawn? {
      RunningMove(s.jobs, step.job, After(render, s, step).jobs[step.job]);
    }
  }

  /** No step makes or loses a permit, whoever is cancelled. */
  lemma PermitsStep(render: string -> string, s: State, step: Step)
    requires PermitsInv(s) && Enabled(s, step)
    ensures PermitsInv(After(render, s, step))
  {
    hide Enabled, After, PermitsInv;
    if JobStep(step) {
      JobStepPermits(render, s, step);
    } else {
      RequestStepPermits(render, s, step);
    }
  }

  // The cache

  lemma CacheStep(render: string -> string, s: State, step: Step)
    requires Sound(s.cache) && Enabled(s, step)
    ensures Sound(After(render, s, step).cache)
    ensures !step.StoreJob? ==> After(render, s, step).cache == s.cache
  {
    hide Sound, Inserted, Utf8.Length;
    if step.StoreJob? {
      InsertedIsSound(s.cache, s.jobs[step.job].digest, render(s.jobs[step.job].markdown));
    }
  }

  // Who stands behind a job or a registered cell

  /** A job that has not ended is awaited by its requester, unless that was cancelled. */
  ghost predicate RequesterInv(s: State) {
    forall j :: j in s.jobs && Unfinished(s.jobs[j]) ==>
      var r := s.jobs[j].requester;
      r in s.requests &&
      (s.requests[r].pc.Cancelled? || (s.requests[r].pc.Awaiting? && s.requests[r].pc.job == j))
  }

  /** A registered cell is held by its creator, unless that was cancelled. */
  ghost predicate CreatorInv(s: State) {
    forall d :: d in s.flights ==>
      s.flights[d] in s.cells &&
      var r := s.cells[s.flights[d]].creator;
      r in s.requests &&
      (s.requests[r].pc.Cancelled? || (HasCell(s.requests[r].pc) && s.requests[r].pc.cell == s.flights[d]))
  }

  lemma RequesterJobStep(render: string -> string, s: State, step: Step)
    requires RequesterInv(s) && Enabled(s, step) && JobStep(step)
    ensures RequesterInv(After(render, s, step))
  {
    JobFrame(render, s, step);
    hide After, Enabled;
  }

  lemma RequesterRequestStep(render: string -> string, s: State, step: Step)
    requires RequesterInv(s) && Enabled(s, step) && !JobStep(step) && !step.Spawn?
    ensures RequesterInv(After(render, s, step))
  {
    RequestFrame(render, s, step);
    var t, r := After(render, s, step), step.request;
    assert r in s.requests && s.requests[r].pc.Awaiting? ==>
             t.requests[r].pc.Cancelled? || !Unfinished(s.jobs[s.requests[r].pc.job]);
    hide After, Enabled;
  }

  lemma RequesterSpawn(render: string -> string, s: State, step: Step)
    requires RequesterInv(s) && Enabled(s, step) && step.Spawn?
    ensures RequesterInv(After(render, s, step))
  {
    hide Sound;
  }

  lemma RequesterStep(render: string -> string, s: State, step: Step)
    requires RequesterInv(s) && Enabled(s, step)
    ensures RequesterInv(After(render, s, step))
  {
    hide RequesterInv, After, Enabled;
    if JobStep(step) {
      RequesterJobStep(render, s, step);
    } else if step.Spawn? {
      RequesterSpawn(render, s, step);
    } else {
      RequesterRequestStep(render, s, step);
    }
  }

  lemma CreatorTake(render: string -> string, s: State, step: Step)
    requires CreatorInv(s) && Enabled(s, step) && step.TakeCell?
    ensures CreatorInv(After(render, s, step))
  {
  }

  lemma CreatorCleanUp(render: string -> string, s: State, step: Step)
    requires CreatorInv(s) && CellsInv(s) && Enabled(s, step) && step.CleanUp?
    ensures CreatorInv(After(render, s, step))
  {
    hide OwnerInv;
    CleanUpIsOwn(render, s, step.request);
  }

  /** Any other step of a request leaves the map as it is, and the request with its cell unless it is cancelled. */
  lemma KeepsCell(render: string -> string, s: State, step: Step)
    requires Enabled(s, step) && !JobStep(step) && !step.TakeCell? && !step.CleanUp?
    ensures var t, r := After(render, s, step), step.request;
            && t.flights == s.flights && t.cells.Keys == s.cells.Keys
            && (forall c :: c in s.cells ==> t.cells[c].creator == s.cells[c].creator)
            && (r in s.requests && HasCell(s.requests[r].pc) ==>
                  At(t, r).Cancelled? || (HasCell(At(t, r)) && At(t, r).cell == s.requests[r].pc.cell))
  {
    hide Sound;
  }

  lemma CreatorOther(render: string -> string, s: State, step: Step)
    requires CreatorInv(s) && Enabled(s, step) && !JobStep(step) && !step.TakeCell? && !step.CleanUp?
    ensures CreatorInv(After(render, s, step))
  {
    RequestFrame(render, s, step);
    KeepsCell(render, s, step);
    hide After, Enabled;
    var t := After(render, s, step);
    forall d | d in t.flights
      ensures t.flights[d] in t.cells &&
              var r := t.cells[t.flights[d]].creator;
              r in t.requests &&
              (t.requests[r].pc.Cancelled? || (HasCell(t.requests[r].pc) && t.requests[r].pc.cell == t.flights[d]))
    {
      assert d in s.flights;
    }
  }

  lemma CreatorStep(render: string -> string, s: State, step: Step)
    requires CreatorInv(s) && CellsInv(s) && Enabled(s, step)
    ensures CreatorInv(After(render, s, step))
  {
    hide CellsInv, After, Enabled;
    if JobStep(step) {
      JobFrame(render, s, step);
    } else {
      hide CreatorInv;
      if step.TakeCell? {
        CreatorTake(render, s, step);
      } else if step.CleanUp? {
        CreatorCleanUp(render, s, step);
      } else {
        CreatorOther(render, s, step);
      }
    }
  }

  // Every run

  ghost predicate RunInv(s: State) {
    CellsInv(s) && JobsInv(s) && PermitsInv(s) && Sound(s.cache) && RequesterInv(s) && CreatorInv(s)
  }

  lemma StartInv()
    ensures RunInv(START)
  {
    assert Holders(START.requests) == {} && Running(START.jobs) == {};
  }

  lemma RunStep(render: string -> string, s: State, step: Step)
    requires RunInv(s) && Enabled(s, step)
    ensures RunInv(After(render, s, step))
  {
    hide CellsInv, JobsInv, PermitsInv, Sound, RequesterInv, CreatorInv, Enabled, After;
    CellsStep(render, s, step);
    JobsStep(render, s, step);
    PermitsStep(render, s, step);
    CacheStep(render, s, step);
    RequesterStep(render, s, step);
    CreatorStep(render, s, step);
  }

  lemma {:induction false} RunKeepsInv(render: string -> string, s: State, steps: seq<Step>)
    requires RunInv(s) && Legal(render, s, steps)
    ensures RunInv(Reached(render, s, steps))
    decreases |steps|
  {
    hide RunInv, Enabled, After;
    if steps != [] {
      RunStep(render, s, steps[0]);
      RunKeepsInv(render, After(render, s, steps[0]), steps[1..]);
    }
  }

  /** A request whose digest is cached is answered at once, and touches nothing else. */
  lemma HitsAnswerAtOnce(render: string -> string, s: State, r: nat, digest: string, markdown: string)
    requires r !in s.requests && digest in s.cache.entries
    ensures Enabled(s, Begin(r, digest, markdown))
    ensures After(render, s, Begin(r, digest, markdown)) ==
            s.(requests := s.requests[r := Request(digest, markdown, Done(Ok(s.cache.entries[digest])))])
  {
  }

  /** In every run, also one with cancellations, at most two jobs hold a permit at once. */
  lemma PermitsAreConserved(render: string -> string, steps: seq<Step>)
    requires Legal(render, START, steps)
    ensures var s := Reached(render, START, steps);
            && s.available + |Holders(s.requests)| + |Running(s.jobs)| == 2
            && |Rendering(s.jobs)| <= 2
  {
    hide Legal, Reached, CellsInv, JobsInv, Sound, RequesterInv, CreatorInv;
    StartInv();
    RunKeepsInv(render, START, steps);
    var s := Reached(render, START, steps);
    SubsetCardinality(Rendering(s.jobs), Running(s.jobs));
  }

  lemma {:induction false} SubsetCardinality(a: set<nat>, b: set<nat>)
    requires a <= b
    ensures |a| <= |b|
  {
    assert b == a + (b - a);
  }

  /** The requests that initialise a cell for the same digest are one request. */
  lemma OneInitialiser(s: State, r: nat, q: nat)
    requires CellsInv(s) && r in s.requests && q in s.requests
    requires Owns(s.requests[r].pc) && Owns(s.requests[q].pc) && s.requests[r].digest == s.requests[q].digest
    ensures r == q
  {
    assert s.cells[s.requests[r].pc.cell].owner == Some(r);
    assert s.cells[s.requests[q].pc.cell].owner == Some(q);
  }

  lemma OneAwaitedJob(s: State, j: nat, k: nat)
    requires CellsInv(s) && JobsInv(s) && RequesterInv(s)
    requires j in s.jobs && k in s.jobs && Unfinished(s.jobs[j]) && Unfinished(s.jobs[k])
    requires s.jobs[j].digest == s.jobs[k].digest
    requires !At(s, s.jobs[j].requester).Cancelled? && !At(s, s.jobs[k].requester).Cancelled?
    ensures j == k
  {
    hide CellsInv;
    OneInitialiser(s, s.jobs[j].requester, s.jobs[k].requester);
  }

  /**
   Single flight, in every run: of two renders of the same digest in progress together,
   the requester of one was cancelled.
   */
  lemma SingleFlight(render: string -> string, steps: seq<Step>, j: nat, k: nat)
    requires Legal(render, START, steps)
    requires var s := Reached(render, START, steps);
             && j in s.jobs && k in s.jobs && j != k
             && Unfinished(s.jobs[j]) && Unfinished(s.jobs[k]) && s.jobs[j].digest == s.jobs[k].digest
    ensures var s := Reached(render, START, steps);
            At(s, s.jobs[j].requester).Cancelled? || At(s, s.jobs[k].requester).Cancelled?
  {
    hide Legal, Reached, CellsInv, JobsInv, PermitsInv, Sound, RequesterInv, CreatorInv;
    StartInv();
    RunKeepsInv(render, START, steps);
    var s := Reached(render, START, steps);
    if !At(s, s.jobs[j].requester).Cancelled? && !At(s, s.jobs[k].requester).Cancelled? {
      OneAwaitedJob(s, j, k);
      assert false;
    }
  }

  /**
   In every run an unset cell is the one registered for its digest, and a registered
   cell whose creator no longer holds it was left behind by a cancellation.
   */
  lemma RegisteredCells(render: string -> string, steps: seq<Step>)
    requires Legal(render, START, steps)
    ensures var s := Reached(render, START, steps);
            && (forall c :: c in s.cells && s.cells[c].value.None? ==>
                  s.cells[c].digest in s.flights && s.flights[s.cells[c].digest] == c)
            && (forall d :: d in s.flights ==>
                  && s.flights[d] in s.cells
                  && var r := s.cells[s.flights[d]].creator;
                     At(s, r).Cancelled? || (HasCell(At(s, r)) && At(s, r).cell == s.flights[d]))
  {
    hide Legal, Reached, JobsInv, PermitsInv, Sound, RequesterInv, HeldInv, OwnerInv;
    StartInv();
    RunKeepsInv(render, START, steps);
  }

  /** A cleaning request takes its own cell out of the map, or nothing; the other digests keep theirs. */
  lemma CleanUpIsOwn(render: string -> string, s: State, r: nat)
    requires CellsInv(s) && Enabled(s, CleanUp(r))
    ensures var t := After(render, s, CleanUp(r));
            && (forall d :: d in s.flights && s.flights[d] != At(s, r).cell ==>
                  d in t.flights && t.flights[d] == s.flights[d])
            && (forall d :: d in t.flights ==> d in s.flights && t.flights[d] == s.flights[d] && t.flights[d] != At(s, r).cell)
  {
    hide OwnerInv;
    assert s.cells[At(s, r).cell].digest == s.requests[r].digest;
  }

  /** A job can store its output whenever it has rendered; if that fits it is cached, whoever still waits. */
  lemma JobFillsCache(render: string -> string, steps: seq<Step>, j: nat)
    requires Legal(render, START, steps)
    requires var s := Reached(render, START, steps); j in s.jobs && s.jobs[j].pc.Rendering?
    ensures var s := Reached(render, START, steps);
            && Enabled(s, StoreJob(j))
            && (Utf8.Length(render(s.jobs[j].markdown)) <= MAX_RENDERED_BYTES ==>
                  s.jobs[j].digest in After(render, s, StoreJob(j)).cache.entries)
  {
    hide Legal, Reached, Sound, Inserted, Utf8.Length, CellsInv, JobsInv, PermitsInv, RequesterInv, CreatorInv;
    StartInv();
    RunKeepsInv(render, START, steps);
    var s := Reached(render, START, steps);
    InsertedEntries(s.cache, s.jobs[j].digest, render(s.jobs[j].markdown));
  }

  // Runs without cancellation

  predicate Uncancelled(steps: seq<Step>) {
    forall step :: step in steps ==> !step.Cancel?
  }

  ghost predicate NoneCancelled(requests: Requests) {
    forall r :: r in requests ==> !requests[r].pc.Cancelled?
  }

  /** What was looked up under a permit, or is rendered under one, is not in the cache. */
  ghost predicate AbsentInv(s: State) {
    && (forall r :: r in s.requests && s.requests[r].pc.Absent? ==> s.requests[r].digest !in s.cache.entries)
    && (forall j :: j in s.jobs && (s.jobs[j].pc.Queued? || s.jobs[j].pc.Rendering?) ==>
          s.jobs[j].digest !in s.cache.entries)
  }

  lemma StoreJobAbsent(render: string -> string, s: State, j: nat)
    requires RunInv(s) && NoneCancelled(s.requests) && AbsentInv(s) && Enabled(s, StoreJob(j))
    ensures AbsentInv(After(render, s, StoreJob(j)))
  {
    hide Sound, Inserted, Utf8.Length, CellsInv, JobsInv, PermitsInv, CreatorInv;
    var t := After(render, s, StoreJob(j));
    var job := s.jobs[j];
    InsertedEntries(s.cache, job.digest, render(job.markdown));
    forall r | r in t.requests && t.requests[r].pc.Absent?
      ensures t.requests[r].digest !in t.cache.entries
    {
      if s.requests[r].digest == job.digest {
        JobDigest(s, j);
        OneInitialiser(s, r, job.requester);
        assert false;
      }
    }
    forall k | k in t.jobs && (t.jobs[k].pc.Queued? || t.jobs[k].pc.Rendering?)
      ensures t.jobs[k].digest !in t.cache.entries
    {
      assert k != j;
      if s.jobs[k].digest == job.digest {
        OneAwaitedJob(s, j, k);
        assert false;
      }
    }
  }

  lemma JobDigest(s: State, j: nat)
    requires JobsInv(s) && RequesterInv(s) && NoneCancelled(s.requests) && j in s.jobs && Unfinished(s.jobs[j])
    ensures var r := s.jobs[j].requester;
            r in s.requests && s.requests[r].pc.Awaiting? && s.requests[r].digest == s.jobs[j].digest
  {
  }

  lemma OtherJobAbsent(render: string -> string, s: State, step: Step)
    requires AbsentInv(s) && Enabled(s, step) && JobStep(step) && !step.StoreJob?
    ensures AbsentInv(After(render, s, step))
  {
    JobFrame(render, s, step);
    assert step.StartJob? ==> s.jobs[step.job].pc.Queued?;
    hide After, Enabled;
  }

  lemma RequestAbsent(render: string -> string, s: State, step: Step)
    requires AbsentInv(s) && Enabled(s, step) && !JobStep(step) && !step.Spawn?
    ensures AbsentInv(After(render, s, step))
  {
    RequestFrame(render, s, step);
    var t, r := After(render, s, step), step.request;
    assert t.requests[r].pc.Absent? ==> s.requests[r].digest !in s.cache.entries;
    hide After, Enabled;
  }

  lemma SpawnAbsent(render: string -> string, s: State, step: Step)
    requires AbsentInv(s) && Enabled(s, step) && step.Spawn?
    ensures AbsentInv(After(render, s, step))
  {
  }

  lemma OtherAbsent(render: string -> string, s: State, step: Step)
    requires AbsentInv(s) && Enabled(s, step) && !step.StoreJob?
    ensures AbsentInv(After(render, s, step))
  {
    hide AbsentInv, After, Enabled;
    if JobStep(step) {
      OtherJobAbsent(render, s, step);
    } else if step.Spawn? {
      SpawnAbsent(render, s, step);
    } else {
      RequestAbsent(render, s, step);
    }
  }

  lemma NoneCancelledStep(render: string -> string, s: State, step: Step)
    requires NoneCancelled(s.requests) && Enabled(s, step) && !step.Cancel?
    ensures NoneCancelled(After(render, s, step).requests)
  {
    hide Enabled, After;
    if JobStep(step) {
      JobFrame(render, s, step);
    } else {
      RequestFrame(render, s, step);
    }
  }

  lemma {:induction false} UncancelledRun(render: string -> string, s: State, steps: seq<Step>)
    requires RunInv(s) && NoneCancelled(s.requests) && AbsentInv(s)
    requires Legal(render, s, steps) && Uncancelled(steps)
    ensures var t := Reached(render, s, steps); RunInv(t) && NoneCancelled(t.requests) && AbsentInv(t)
    decreases |steps|
  {
    hide RunInv, NoneCancelled, AbsentInv, Enabled, After;
    if steps != [] {
      var step := steps[0];
      assert step in steps;
      RunStep(render, s, step);
      NoneCancelledStep(render, s, step);
      if step.StoreJob? {
        StoreJobAbsent(render, s, step.job);
      } else {
        OtherAbsent(render, s, step);
      }
      UncancelledRun(render, After(render, s, step), steps[1..]);
    }
  }

  /**
   Without cancellation a digest is rendered by one job at a time, only while it is absent
   from the cache, and the map of flights is empty when no request is active.
   */
  lemma UncancelledSingleFlight(render: string -> string, steps: seq<Step>)
    requires Legal(render, START, steps) && Uncancelled(steps)
    ensures var s := Reached(render, START, steps);
            && (forall j, k | j in s.jobs && k in s.jobs && Unfinished(s.jobs[j]) && Unfinished(s.jobs[k]) ::
                  s.jobs[j].digest == s.jobs[k].digest ==> j == k)
            && (forall j :: j in s.jobs && (s.jobs[j].pc.Queued? || s.jobs[j].pc.Rendering?) ==>
                  s.jobs[j].digest !in s.cache.entries)
            && (forall d :: d in s.flights ==>
                  exists r :: r in s.requests && HasCell(s.requests[r].pc) && s.requests[r].pc.cell == s.flights[d])
            && ((forall r :: r in s.requests ==> !Active(s.requests[r].pc)) ==> s.flights == map[])
  {
    hide Legal, Reached, CellsInv, JobsInv, PermitsInv, Sound;
    StartInv();
    UncancelledRun(render, START, steps);
    var s := Reached(render, START, steps);
    forall j, k | j in s.jobs && k in s.jobs && Unfinished(s.jobs[j]) && Unfinished(s.jobs[k])
                  && s.jobs[j].digest == s.jobs[k].digest
      ensures j == k
    {
      OneAwaitedJob(s, j, k);
    }
    forall d | d in s.flights
      ensures exists r :: r in s.requests && HasCell(s.requests[r].pc) && s.requests[r].pc.cell == s.flights[d]
    {
      assert s.cells[s.flights[d]].creator in s.requests;
    }
  }

  // Answers

  /** Calls with equal digests carry equal texts. */
  predicate Coherent(steps: seq<Step>) {
    forall a, b :: a in steps && b in steps && a.Begin? && b.Begin? && a.digest == b.digest ==> a.markdown == b.markdown
  }

  predicate MayFail(steps: seq<Step>) {
    exists step :: step in steps && step.FailJob?
  }

  /** An answer for a text: its own, or, if jobs may fail, that the worker failed. */
  predicate Fair(render: string -> string, mayFail: bool, markdown: string, outcome: Outcome) {
    outcome == Expected(render, markdown) || (mayFail && outcome == Err(WorkerFailed))
  }

  function Answer(pc: Pc): Option<Outcome> {
    if pc.Resolved? || pc.Returned? || pc.Done? then Some(pc.outcome) else None
  }

  function JobAnswer(pc: JobPc): Option<Outcome> {
    if pc.Stored? || pc.Finished? then Some(pc.outcome) else None
  }

  ghost predicate FairCache(render: string -> string, source: string -> string, entries: map<string, string>) {
    forall d :: d in entries ==> Expected(render, source(d)) == Ok(entries[d])
  }

  ghost predicate FairCells(render: string -> string, source: string -> string, mayFail: bool, cells: Cells) {
    forall c :: c in cells && cells[c].value.Some? ==>
      Fair(render, mayFail, source(cells[c].digest), cells[c].value.value)
  }

  ghost predicate FairJobs(render: string -> string, source: string -> string, mayFail: bool, jobs: Jobs) {
    forall j :: j in jobs ==>
      jobs[j].markdown == source(jobs[j].digest) &&
      (JobAnswer(jobs[j].pc).Some? ==> Fair(render, mayFail, source(jobs[j].digest), JobAnswer(jobs[j].pc).value))
  }

  ghost predicate FairRequests(render: string -> string, source: string -> string, mayFail: bool, requests: Requests) {
    forall r :: r in requests ==>
      requests[r].markdown == source(requests[r].digest) &&
      (Answer(requests[r].pc).Some? ==>
         Fair(render, mayFail, source(requests[r].digest), Answer(requests[r].pc).value))
  }

  ghost predicate FairInv(render: string -> string, source: string -> string, mayFail: bool, s: State) {
    && FairCache(render, source, s.cache.entries)
    && FairCells(render, source, mayFail, s.cells)
    && FairJobs(render, source, mayFail, s.jobs)
    && FairRequests(render, source, mayFail, s.requests)
  }

  predicate StepFits(source: string -> string, mayFail: bool, step: Step) {
    (step.Begin? ==> step.markdown == source(step.digest)) && (step.FailJob? ==> mayFail)
  }

  lemma FairCacheStep(render: string -> string, source: string -> string, mayFail: bool, s: State, step: Step)
    requires FairInv(render, source, mayFail, s) && Enabled(s, step)
    ensures FairCache(render, source, After(render, s, step).cache.entries)
  {
    hide Sound, Inserted, Utf8.Length, FairCells, FairRequests;
    if step.StoreJob? {
      var job := s.jobs[step.job];
      InsertedEntries(s.cache, job.digest, render(job.markdown));
    }
  }

  lemma FairCellsStep(render: string -> string, source: string -> string, mayFail: bool, s: State, step: Step)
    requires FairInv(render, source, mayFail, s) && Enabled(s, step) && HeldInv(s.cells, s.requests)
    ensures FairCells(render, source, mayFail, After(render, s, step).cells)
  {
    hide Sound, Fair, FairCache, FairJobs;
    if JobStep(step) {
      JobFrame(render, s, step);
    } else if Advance(step) {
      AdvanceFrame(render, s, step);
    } else {
      hide Inserted, Utf8.Length;
    }
  }

  lemma FairJobMoves(
    render: string -> string, source: string -> string, mayFail: bool, jobs: Jobs, j: nat, job: Job)
    requires FairJobs(render, source, mayFail, jobs) && job.markdown == source(job.digest)
    requires JobAnswer(job.pc).Some? ==> Fair(render, mayFail, job.markdown, JobAnswer(job.pc).value)
    ensures FairJobs(render, source, mayFail, jobs[j := job])
  {
    hide Fair;
  }

  /** A step of a job keeps its text and gives it a fair answer. */
  lemma FairJob(render: string -> string, source: string -> string, mayFail: bool, s: State, step: Step)
    requires FairJobs(render, source, mayFail, s.jobs) && Enabled(s, step) && StepFits(source, mayFail, step)
    requires JobStep(step)
    ensures var t := After(render, s, step);
            && step.job in s.jobs && step.job in t.jobs
            && var was, job := s.jobs[step.job], t.jobs[step.job];
               && t.jobs == s.jobs[step.job := job]
               && job.markdown == was.markdown && job.digest == was.digest && job.markdown == source(job.digest)
               && (JobAnswer(job.pc).Some? ==> Fair(render, mayFail, job.markdown, JobAnswer(job.pc).value))
  {
    hide Sound, Inserted, Utf8.Length;
  }

  lemma FairJobsStep(render: string -> string, source: string -> string, mayFail: bool, s: State, step: Step)
    requires FairInv(render, source, mayFail, s) && Enabled(s, step) && StepFits(source, mayFail, step)
    ensures FairJobs(render, source, mayFail, After(render, s, step).jobs)
  {
    if JobStep(step) {
      hide After, Enabled, Fair, FairJobs, FairCache, FairCells, FairRequests, StepFits;
      FairJob(render, source, mayFail, s, step);
      FairJobMoves(render, source, mayFail, s.jobs, step.job, After(render, s, step).jobs[step.job]);
    } else if step.Spawn? {
      hide Fair, FairJobs, FairCache, FairCells;
      FairJobMoves(render, source, mayFail, s.jobs, step.job, After(render, s, step).jobs[step.job]);
    } else {
      RequestFrame(render, s, step);
    }
  }

  lemma FairRequestMoves(
    render: string -> string, source: string -> string, mayFail: bool, requests: Requests, r: nat, request: Request)
    requires FairRequests(render, source, mayFail, requests) && FairRequest(render, source, mayFail, request)
    ensures FairRequests(render, source, mayFail, requests[r := request])
  {
    hide Fair;
  }

  /** The answer of a request is fair. */
  predicate FairRequest(render: string -> string, source: string -> string, mayFail: bool, request: Request) {
    && request.markdown == source(request.digest)
    && (Answer(request.pc).Some? ==> Fair(render, mayFail, request.markdown, Answer(request.pc).value))
  }

  lemma FairFromCache(render: string -> string, source: string -> string, mayFail: bool, s: State, step: Step)
    requires FairCache(render, source, s.cache.entries) && FairRequests(render, source, mayFail, s.requests)
    requires Enabled(s, step) && StepFits(source, mayFail, step) && (step.Begin? || step.Recheck?)
    ensures FairRequest(render, source, mayFail, After(render, s, step).requests[step.request])
  {
    hide Expected;
  }

  lemma FairFromCell(render: string -> string, source: string -> string, mayFail: bool, s: State, step: Step)
    requires FairCells(render, source, mayFail, s.cells) && FairRequests(render, source, mayFail, s.requests)
    requires HeldInv(s.cells, s.requests) && Enabled(s, step) && step.Enter?
    ensures FairRequest(render, source, mayFail, After(render, s, step).requests[step.request])
  {
    hide Fair;
  }

  lemma FairFromJob(render: string -> string, source: string -> string, mayFail: bool, s: State, step: Step)
    requires FairJobs(render, source, mayFail, s.jobs) && FairRequests(render, source, mayFail, s.requests)
    requires JobsInv(s) && Enabled(s, step) && step.Collect?
    ensures FairRequest(render, source, mayFail, After(render, s, step).requests[step.request])
  {
    hide Fair;
  }

  lemma FairBefore(render: string -> string, source: string -> string, mayFail: bool, s: State, step: Step)
    requires FairRequests(render, source, mayFail, s.requests) && Enabled(s, step) && !JobStep(step)
    requires !step.Begin? && !step.Recheck? && !step.Enter? && !step.Collect?
    ensures FairRequest(render, source, mayFail, After(render, s, step).requests[step.request])
  {
    hide Fair;
  }

  /** A step of a request gives it a fair answer: from the cache, its cell, its job, or as before. */
  lemma FairAnswer(render: string -> string, source: string -> string, mayFail: bool, s: State, step: Step)
    requires FairInv(render, source, mayFail, s) && Enabled(s, step) && StepFits(source, mayFail, step)
    requires HeldInv(s.cells, s.requests) && JobsInv(s) && !JobStep(step)
    ensures step.request in After(render, s, step).requests
    ensures FairRequest(render, source, mayFail, After(render, s, step).requests[step.request])
  {
    RequestFrame(render, s, step);
    hide After, Enabled, FairRequest, FairJobs, FairCache, FairCells, FairRequests, StepFits, HeldInv, JobsInv;
    match step
    case Begin(_, _, _) => FairFromCache(render, source, mayFail, s, step);
    case Recheck(_) => FairFromCache(render, source, mayFail, s, step);
    case Enter(_) => FairFromCell(render, source, mayFail, s, step);
    case Collect(_) => FairFromJob(render, source, mayFail, s, step);
    case _ => FairBefore(render, source, mayFail, s, step);
  }

  lemma FairRequestsStep(render: string -> string, source: string -> string, mayFail: bool, s: State, step: Step)
    requires FairInv(render, source, mayFail, s) && Enabled(s, step) && StepFits(source, mayFail, step)
    requires HeldInv(s.cells, s.requests) && JobsInv(s)
    ensures FairRequests(render, source, mayFail, After(render, s, step).requests)
  {
    hide After, Enabled, Fair, FairJobs, FairCache, FairCells, FairRequests, StepFits, HeldInv, JobsInv;
    if JobStep(step) {
      JobFrame(render, s, step);
    } else {
      RequestFrame(render, s, step);
      FairAnswer(render, source, mayFail, s, step);
      FairRequestMoves(
        render, source, mayFail, s.requests, step.request, After(render, s, step).requests[step.request]);
    }
  }

  lemma {:induction false} FairRun(
    render: string -> string, source: string -> string, mayFail: bool, s: State, steps: seq<Step>)
    requires RunInv(s) && FairInv(render, source, mayFail, s) && Legal(render, s, steps)
    requires forall step :: step in steps ==> StepFits(source, mayFail, step)
    ensures FairInv(render, source, mayFail, Reached(render, s, steps))
    decreases |steps|
  {
    hide CellsInv, JobsInv, PermitsInv, Sound, RequesterInv, CreatorInv, Enabled, After, StepFits;
    hide FairCache, FairCells, FairJobs, FairRequests;
    if steps != [] {
      var step := steps[0];
      assert step in steps;
      assert HeldInv(s.cells, s.requests) by { HeldCells(s); }
      RunStep(render, s, step);
      FairCacheStep(render, source, mayFail, s, step);
      FairCellsStep(render, source, mayFail, s, step);
      FairJobsStep(render, source, mayFail, s, step);
      FairRequestsStep(render, source, mayFail, s, step);
      FairRun(render, source, mayFail, After(render, s, step), steps[1..]);
    }
  }

  lemma HeldCells(s: State)
    requires CellsInv(s)
    ensures HeldInv(s.cells, s.requests)
  {
  }

  ghost function SourceOf(steps: seq<Step>): (source: string -> string)
    requires Coherent(steps)
    ensures forall step :: step in steps && step.Begin? ==> step.markdown == source(step.digest)
  {
    d =>
      if exists step :: step in steps && step.Begin? && step.digest == d then
        var step :| step in steps && step.Begin? && step.digest == d; step.markdown
      else
        ""
  }

  /**
   Hits, shared flights, evictions, repeated renders and cancellations do not show: if equal
   digests mean equal texts, every answer is the one for the text, or that the worker failed,
   and the latter only if some job did fail.
   */
  lemma CachingIsTransparent(render: string -> string, steps: seq<Step>, r: nat)
    requires Legal(render, START, steps) && Coherent(steps)
    requires var s := Reached(render, START, steps); r in s.requests && s.requests[r].pc.Done?
    ensures var request := Reached(render, START, steps).requests[r];
            || request.pc.outcome == Expected(render, request.markdown)
            || (request.pc.outcome == Err(WorkerFailed) && MayFail(steps))
  {
    hide Legal, Reached, RunInv, Expected;
    StartInv();
    FairRun(render, SourceOf(steps), MayFail(steps), START, steps);
  }
}
