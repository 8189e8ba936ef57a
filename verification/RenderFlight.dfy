/**
 The single-flight protocol of `render_cached` and `render_once` (`src/markdown.rs`):
 any number of requests and blocking jobs, interleaved at every lock, await and
 hand-over, with requests cancelled at any point.  `render` is any function.
 */
module RenderFlight {
  import opened RenderCache
  import opened Wrappers
  import Utf8

  const MAX_RENDERED_BYTES: nat := 8 * 1024 * 1024
  const RENDER_LIMIT: nat := 2

  datatype MarkdownRenderError = OutputTooLarge | WorkerFailed

  type Outcome = Result<string, MarkdownRenderError>

  /** A shared cell: who created it, who is initialising it, and its value once set. */
  datatype Cell = Cell(digest: string, creator: nat, owner: Option<nat>, value: Option<Outcome>)

  datatype JobPc =
    | Queued                    // spawned, holding the permit it was given
    | Rendering
    | Stored(outcome: Outcome)  // the output is in the cache if it fits; the permit is still held
    | Finished(outcome: Outcome)

  datatype Job = Job(digest: string, markdown: string, requester: nat, pc: JobPc)

  datatype Pc =
    | Missed                                // the first look into the cache found nothing
    | Holding(cell: nat)                    // has its cell, in `get_or_init`
    | Initialising(cell: nat)               // runs `render_once`, waiting for a permit
    | Permitted(cell: nat)                  // holds a permit
    | Absent(cell: nat)                     // holds a permit, and the second look found nothing
    | Awaiting(cell: nat, job: nat)         // the permit went into the job
    | Resolved(cell: nat, outcome: Outcome) // `render_once` returned
    | Returned(cell: nat, outcome: Outcome) // `get_or_init` returned
    | Done(outcome: Outcome)
    | Cancelled

  datatype Request = Request(digest: string, markdown: string, pc: Pc)

  datatype State = State(
    cache: Contents,
    flights: map<string, nat>,
    cells: map<nat, Cell>,
    jobs: map<nat, Job>,
    requests: map<nat, Request>,
    available: nat
  )

  const START := State(EMPTY, map[], map[], map[], map[], RENDER_LIMIT)

  datatype Step =
    | Begin(request: nat, digest: string, markdown: string)
    | TakeCell(request: nat, unused: nat)
    | Enter(request: nat)
    | Acquire(request: nat)
    | Recheck(request: nat)
    | Spawn(request: nat, job: nat)
    | Collect(request: nat)
    | Publish(request: nat)
    | CleanUp(request: nat)
    | StartJob(job: nat)
    | StoreJob(job: nat)
    | FinishJob(job: nat)
    | FailJob(job: nat)
    | Cancel(request: nat)

  predicate HasCell(pc: Pc) {
    !(pc.Missed? || pc.Done? || pc.Cancelled?)
  }

  /** The request runs the initialisation of its cell. */
  predicate Owns(pc: Pc) {
    pc.Initialising? || pc.Permitted? || pc.Absent? || pc.Awaiting? || pc.Resolved?
  }

  predicate HoldsPermit(pc: Pc) {
    pc.Permitted? || pc.Absent?
  }

  predicate Active(pc: Pc) {
    !pc.Done? && !pc.Cancelled?
  }

  predicate Unfinished(job: Job) {
    !job.pc.Finished?
  }

  function At(s: State, r: nat): Pc {
    if r in s.requests then s.requests[r].pc else Cancelled
  }

  function Moved(s: State, r: nat, pc: Pc): State {
    if r in s.requests then s.(requests := s.requests[r := s.requests[r].(pc := pc)]) else s
  }

  function JobMoved(s: State, j: nat, pc: JobPc): State {
    if j in s.jobs then s.(jobs := s.jobs[j := s.jobs[j].(pc := pc)]) else s
  }

  function WithOwner(s: State, c: nat, owner: Option<nat>): State {
    if c in s.cells then s.(cells := s.cells[c := s.cells[c].(owner := owner)]) else s
  }

  predicate Enabled(s: State, step: Step) {
    match step
    case Begin(r, _, _) => r !in s.requests
    case TakeCell(r, unused) => At(s, r).Missed? && unused !in s.cells
    case Enter(r) =>
      At(s, r).Holding? && At(s, r).cell in s.cells &&
      var cell := s.cells[At(s, r).cell];
      cell.value.Some? || cell.owner.None?
    case Acquire(r) => At(s, r).Initialising? && s.available > 0
    case Recheck(r) => At(s, r).Permitted?
    case Spawn(r, j) => At(s, r).Absent? && j !in s.jobs
    case Collect(r) => At(s, r).Awaiting? && At(s, r).job in s.jobs && s.jobs[At(s, r).job].pc.Finished?
    case Publish(r) => At(s, r).Resolved? && At(s, r).cell in s.cells
    case CleanUp(r) => At(s, r).Returned?
    case StartJob(j) => j in s.jobs && s.jobs[j].pc.Queued?
    case StoreJob(j) => j in s.jobs && s.jobs[j].pc.Rendering? && Sound(s.cache)
    case FinishJob(j) => j in s.jobs && s.jobs[j].pc.Stored?
    case FailJob(j) => j in s.jobs && (s.jobs[j].pc.Queued? || s.jobs[j].pc.Rendering?)
    case Cancel(r) => r in s.requests && Active(At(s, r))
  }

  /** The answer for a text: its rendering, unless that is too large. */
  function Expected(render: string -> string, markdown: string): Outcome {
    if Utf8.Length(render(markdown)) > MAX_RENDERED_BYTES then Err(OutputTooLarge) else Ok(render(markdown))
  }

  function After(render: string -> string, s: State, step: Step): State
    requires Enabled(s, step)
  {
    match step
    case Begin(r, digest, markdown) =>
      var pc := if digest in s.cache.entries then Done(Ok(s.cache.entries[digest])) else Missed;
      s.(requests := s.requests[r := Request(digest, markdown, pc)])
    case TakeCell(r, unused) =>
      var digest := s.requests[r].digest;
      if digest in s.flights then
        Moved(s, r, Holding(s.flights[digest]))
      else
        Moved(s, r, Holding(unused)).(
          cells := s.cells[unused := Cell(digest, r, None, None)], flights := s.flights[digest := unused])
    case Enter(r) =>
      var c := At(s, r).cell;
      if s.cells[c].value.Some? then
        Moved(s, r, Returned(c, s.cells[c].value.value))
      else
        WithOwner(Moved(s, r, Initialising(c)), c, Some(r))
    case Acquire(r) => Moved(s, r, Permitted(At(s, r).cell)).(available := s.available - 1)
    case Recheck(r) =>
      var digest, c := s.requests[r].digest, At(s, r).cell;
      if digest in s.cache.entries then
        Moved(s, r, Resolved(c, Ok(s.cache.entries[digest]))).(available := s.available + 1)
      else
        Moved(s, r, Absent(c))
    case Spawn(r, j) =>
      Moved(s, r, Awaiting(At(s, r).cell, j)).(
        jobs := s.jobs[j := Job(s.requests[r].digest, s.requests[r].markdown, r, Queued)])
    case Collect(r) => Moved(s, r, Resolved(At(s, r).cell, s.jobs[At(s, r).job].pc.outcome))
    case Publish(r) =>
      var c, outcome := At(s, r).cell, At(s, r).outcome;
      Moved(s, r, Returned(c, outcome)).(
        cells := s.cells[c := s.cells[c].(owner := None, value := Some(outcome))])
    case CleanUp(r) =>
      var digest, c := s.requests[r].digest, At(s, r).cell;
      var t := Moved(s, r, Done(At(s, r).outcome));
      if digest in s.flights && s.flights[digest] == c then t.(flights := s.flights - {digest}) else t
    case StartJob(j) => JobMoved(s, j, Rendering)
    case StoreJob(j) =>
      var output := render(s.jobs[j].markdown);
      if Utf8.Length(output) > MAX_RENDERED_BYTES then
        JobMoved(s, j, Stored(Err(OutputTooLarge)))
      else
        JobMoved(s, j, Stored(Ok(output))).(cache := Inserted(s.cache, s.jobs[j].digest, output))
    case FinishJob(j) => JobMoved(s, j, Finished(s.jobs[j].pc.outcome)).(available := s.available + 1)
    case FailJob(j) => JobMoved(s, j, Finished(Err(WorkerFailed))).(available := s.available + 1)
    case Cancel(r) =>
      var pc := At(s, r);
      var t := Moved(s, r, Cancelled);
      var u := if HoldsPermit(pc) then t.(available := s.available + 1) else t;
      if Owns(pc) then WithOwner(u, pc.cell, None) else u
  }

  predicate Legal(render: string -> string, s: State, steps: seq<Step>)
    decreases |steps|
  {
    steps != [] ==> Enabled(s, steps[0]) && Legal(render, After(render, s, steps[0]), steps[1..])
  }

  function Reached(render: string -> string, s: State, steps: seq<Step>): State
    requires Legal(render, s, steps)
    decreases |steps|
  {
    if steps == [] then s else Reached(render, After(render, s, steps[0]), steps[1..])
  }

  // Every run

  type Requests = map<nat, Request>
  type Cells = map<nat, Cell>

  /** Requests and the cells they hold. */
  ghost predicate HeldInv(cells: Cells, requests: Requests) {
    && (forall r :: r in requests && HasCell(requests[r].pc) ==>
          requests[r].pc.cell in cells && cells[requests[r].pc.cell].digest == requests[r].digest)
    && (forall r :: r in requests && requests[r].pc.Returned? ==>
          requests[r].pc.cell in cells && cells[requests[r].pc.cell].value == Some(requests[r].pc.outcome))
  }

  /** A cell has one initialiser, who runs for it, and no value while it has one. */
  ghost predicate OwnerInv(cells: Cells, requests: Requests) {
    && (forall r :: r in requests && Owns(requests[r].pc) ==>
          requests[r].pc.cell in cells && cells[requests[r].pc.cell].owner == Some(r))
    && (forall c :: c in cells && cells[c].owner.Some? ==>
          && cells[c].value.None?
          && cells[c].owner.value in requests
          && Owns(requests[cells[c].owner.value].pc)
          && requests[cells[c].owner.value].pc.cell == c)
  }

  /** A cell without a value is the one registered for its digest. */
  ghost predicate RegisteredInv(flights: map<string, nat>, cells: Cells) {
    && (forall d :: d in flights ==> flights[d] in cells && cells[flights[d]].digest == d)
    && (forall c :: c in cells && cells[c].value.None? ==> cells[c].digest in flights && flights[cells[c].digest] == c)
  }

  ghost predicate CellsInv(s: State) {
    && HeldInv(s.cells, s.requests)
    && OwnerInv(s.cells, s.requests)
    && RegisteredInv(s.flights, s.cells)
  }

  /** A request that awaits a job spawned that job for its own digest and text. */
  ghost predicate JobsInv(s: State) {
    forall r :: r in s.requests && s.requests[r].pc.Awaiting? ==>
      var j := s.requests[r].pc.job;
      j in s.jobs && s.jobs[j].requester == r
      && s.jobs[j].digest == s.requests[r].digest && s.jobs[j].markdown == s.requests[r].markdown
  }

  predicate JobStep(step: Step) {
    step.StartJob? || step.StoreJob? || step.FinishJob? || step.FailJob?
  }

  /** The request stays the initialiser of its cell. */
  predicate Advance(step: Step) {
    step.Acquire? || step.Recheck? || step.Spawn? || step.Collect?
  }

  /** A step of a job changes its counter, and the cache if it stores. */
  lemma JobFrame(render: string -> string, s: State, step: Step)
    requires Enabled(s, step) && JobStep(step)
    ensures var t, j := After(render, s, step), step.job;
            && t.requests == s.requests && t.cells == s.cells && t.flights == s.flights
            && j in s.jobs && j in t.jobs && t.jobs == s.jobs[j := s.jobs[j].(pc := t.jobs[j].pc)]
            && Unfinished(s.jobs[j]) && (t.jobs[j].pc.Queued? || t.jobs[j].pc.Rendering? ==> step.StartJob?)
            && (!step.StoreJob? ==> t.cache == s.cache)
  {
    hide Sound, Inserted, Utf8.Length;
  }

  /** A step of an initialiser touches its own counter only. */
  lemma AdvanceFrame(render: string -> string, s: State, step: Step)
    requires Enabled(s, step) && Advance(step)
    ensures var t, r := After(render, s, step), step.request;
            && r in s.requests && Owns(s.requests[r].pc) && Owns(At(t, r)) && At(t, r).cell == s.requests[r].pc.cell
            && t.requests == s.requests[r := s.requests[r].(pc := At(t, r))]
            && t.cells == s.cells && t.flights == s.flights
  {
  }

  lemma AdvanceKeepsCells(cells: Cells, requests: Requests, r: nat, pc: Pc)
    requires HeldInv(cells, requests) && OwnerInv(cells, requests)
    requires r in requests && Owns(requests[r].pc) && Owns(pc) && pc.cell == requests[r].pc.cell
    ensures var later := requests[r := requests[r].(pc := pc)];
            HeldInv(cells, later) && OwnerInv(cells, later)
  {
  }

  /** A request that holds no cell comes or goes. */
  lemma NoCell(cells: Cells, requests: Requests, r: nat, request: Request)
    requires HeldInv(cells, requests) && OwnerInv(cells, requests)
    requires !HasCell(request.pc) && (r in requests ==> !Owns(requests[r].pc))
    ensures HeldInv(cells, requests[r := request]) && OwnerInv(cells, requests[r := request])
  {
  }

  lemma TakesCell(cells: Cells, requests: Requests, r: nat, c: nat)
    requires HeldInv(cells, requests) && OwnerInv(cells, requests)
    requires r in requests && requests[r].pc.Missed? && c in cells && cells[c].digest == requests[r].digest
    ensures var later := requests[r := requests[r].(pc := Holding(c))];
            HeldInv(cells, later) && OwnerInv(cells, later)
  {
  }

  lemma NewCell(flights: map<string, nat>, cells: Cells, requests: Requests, c: nat, cell: Cell)
    requires HeldInv(cells, requests) && OwnerInv(cells, requests) && RegisteredInv(flights, cells)
    requires c !in cells && cell.owner.None? && cell.value.None? && cell.digest !in flights
    ensures HeldInv(cells[c := cell], requests) && OwnerInv(cells[c := cell], requests)
    ensures RegisteredInv(flights[cell.digest := c], cells[c := cell])
  {
  }

  lemma EntersCell(cells: Cells, requests: Requests, r: nat, c: nat)
    requires HeldInv(cells, requests) && OwnerInv(cells, requests)
    requires r in requests && requests[r].pc == Holding(c) && c in cells
    requires cells[c].value.Some? || cells[c].owner.None?
    ensures if cells[c].value.Some? then
              var later := requests[r := requests[r].(pc := Returned(c, cells[c].value.value))];
              HeldInv(cells, later) && OwnerInv(cells, later)
            else
              var later := requests[r := requests[r].(pc := Initialising(c))];
              var owned := cells[c := cells[c].(owner := Some(r))];
              HeldInv(owned, later) && OwnerInv(owned, later)
  {
  }

  lemma OwnerChanges(flights: map<string, nat>, cells: Cells, c: nat, owner: Option<nat>)
    requires RegisteredInv(flights, cells) && c in cells
    ensures RegisteredInv(flights, cells[c := cells[c].(owner := owner)])
  {
  }

  lemma PublishesCell(flights: map<string, nat>, cells: Cells, requests: Requests, r: nat, outcome: Outcome)
    requires HeldInv(cells, requests) && OwnerInv(cells, requests) && RegisteredInv(flights, cells)
    requires r in requests && Owns(requests[r].pc)
    ensures var c := requests[r].pc.cell;
            && c in cells
            && var published := cells[c := cells[c].(owner := None, value := Some(outcome))];
               var later := requests[r := requests[r].(pc := Returned(c, outcome))];
               HeldInv(published, later) && OwnerInv(published, later) && RegisteredInv(flights, published)
  {
  }

  lemma CleansUp(flights: map<string, nat>, cells: Cells, d: string)
    requires RegisteredInv(flights, cells) && d in flights && cells[flights[d]].value.Some?
    ensures RegisteredInv(flights - {d}, cells)
  {
  }

  lemma AbandonsCell(cells: Cells, requests: Requests, r: nat)
    requires HeldInv(cells, requests) && OwnerInv(cells, requests)
    requires r in requests && Owns(requests[r].pc)
    ensures var c := requests[r].pc.cell;
            && c in cells
            && var freed := cells[c := cells[c].(owner := None)];
               var later := requests[r := requests[r].(pc := Cancelled)];
               HeldInv(freed, later) && OwnerInv(freed, later)
  {
  }

  lemma CellsTake(render: string -> string, s: State, step: Step)
    requires CellsInv(s) && Enabled(s, step) && step.TakeCell?
    ensures CellsInv(After(render, s, step))
  {
    var r, digest := step.request, s.requests[step.request].digest;
    if digest in s.flights {
      TakesCell(s.cells, s.requests, r, s.flights[digest]);
    } else {
      var cell := Cell(digest, r, None, None);
      NewCell(s.flights, s.cells, s.requests, step.unused, cell);
      TakesCell(s.cells[step.unused := cell], s.requests, r, step.unused);
    }
    hide HeldInv, OwnerInv, RegisteredInv;
  }

  lemma CellsEnter(render: string -> string, s: State, step: Step)
    requires CellsInv(s) && Enabled(s, step) && step.Enter?
    ensures CellsInv(After(render, s, step))
  {
    hide HeldInv, OwnerInv, RegisteredInv;
    var r, c := step.request, At(s, step.request).cell;
    EntersCell(s.cells, s.requests, r, c);
    OwnerChanges(s.flights, s.cells, c, Some(r));
  }

  lemma CellsPublish(render: string -> string, s: State, step: Step)
    requires CellsInv(s) && Enabled(s, step) && step.Publish?
    ensures CellsInv(After(render, s, step))
  {
    hide HeldInv, OwnerInv, RegisteredInv;
    PublishesCell(s.flights, s.cells, s.requests, step.request, At(s, step.request).outcome);
  }

  lemma CellsCleanUp(render: string -> string, s: State, step: Step)
    requires CellsInv(s) && Enabled(s, step) && step.CleanUp?
    ensures CellsInv(After(render, s, step))
  {
    var r, pc := step.request, At(s, step.request);
    assert s.cells[pc.cell].value.Some?;
    hide HeldInv, OwnerInv, RegisteredInv;
    NoCell(s.cells, s.requests, r, s.requests[r].(pc := Done(pc.outcome)));
    if s.requests[r].digest in s.flights && s.flights[s.requests[r].digest] == pc.cell {
      CleansUp(s.flights, s.cells, s.requests[r].digest);
    }
  }

  lemma CellsCancel(render: string -> string, s: State, step: Step)
    requires CellsInv(s) && Enabled(s, step) && step.Cancel?
    ensures CellsInv(After(render, s, step))
  {
    hide HeldInv, OwnerInv, RegisteredInv;
    var r, pc := step.request, At(s, step.request);
    if Owns(pc) {
      AbandonsCell(s.cells, s.requests, r);
      OwnerChanges(s.flights, s.cells, pc.cell, None);
    } else {
      NoCell(s.cells, s.requests, r, s.requests[r].(pc := Cancelled));
    }
  }

  lemma CellsBegin(render: string -> string, s: State, step: Step)
    requires CellsInv(s) && Enabled(s, step) && step.Begin?
    ensures CellsInv(After(render, s, step))
  {
    hide HeldInv, OwnerInv, RegisteredInv;
    NoCell(s.cells, s.requests, step.request, After(render, s, step).requests[step.request]);
  }

  lemma CellsStep(render: string -> string, s: State, step: Step)
    requires CellsInv(s) && Enabled(s, step)
    ensures CellsInv(After(render, s, step))
  {
    hide HeldInv, OwnerInv, RegisteredInv, Enabled, After;
    if JobStep(step) {
      JobFrame(render, s, step);
    } else if Advance(step) {
      AdvanceFrame(render, s, step);
      AdvanceKeepsCells(s.cells, s.requests, step.request, At(After(render, s, step), step.request));
    } else {
      hide CellsInv;
      match step
      case Begin(_, _, _) => CellsBegin(render, s, step);
      case TakeCell(_, _) => CellsTake(render, s, step);
      case Enter(_) => CellsEnter(render, s, step);
      case Publish(_) => CellsPublish(render, s, step);
      case CleanUp(_) => CellsCleanUp(render, s, step);
      case Cancel(_) => CellsCancel(render, s, step);
    }
  }

  /** A request that comes to await a job has just spawned it; the jobs it may wait for only change their counter. */
  lemma JobsFrame(render: string -> string, s: State, step: Step)
    requires Enabled(s, step)
    ensures var t := After(render, s, step);
            if step.Spawn? then
              && step.request in s.requests && step.job !in s.jobs
              && var request := s.requests[step.request];
                 && t.jobs == s.jobs[step.job := Job(request.digest, request.markdown, step.request, Queued)]
                 && t.requests ==
                    s.requests[step.request := request.(pc := Awaiting(request.pc.cell, step.job))]
            else
              && t.jobs.Keys == s.jobs.Keys
              && (forall j :: j in s.jobs ==> t.jobs[j] == s.jobs[j].(pc := t.jobs[j].pc))
  {
    hide Sound, Inserted, Utf8.Length;
  }

  lemma NewWaits(render: string -> string, s: State, step: Step)
    requires Enabled(s, step) && !step.Spawn?
    ensures var t := After(render, s, step);
            forall r :: r in t.requests && t.requests[r].pc.Awaiting? ==> r in s.requests && t.requests[r] == s.requests[r]
  {
    hide Sound, Inserted, Utf8.Length;
  }

  lemma JobsStep(render: string -> string, s: State, step: Step)
    requires JobsInv(s) && Enabled(s, step)
    ensures JobsInv(After(render, s, step))
  {
    JobsFrame(render, s, step);
    if !step.Spawn? {
      NewWaits(render, s, step);
    }
    hide Enabled, After;
  }
}
