/** Every interleaving of a user's events and the responses to the page's requests (`src/http/assets/admin.js`). */
module AdminRuns {
  import opened Wrappers
  import opened AdminPage

  type Tasks = map<nat, Task>

  /** The page and its suspended handlers. */
  datatype World = World(page: Page, tasks: Tasks)

  const START := World(LOCKED_VIEW, map[])

  datatype Step =
    | SubmitUnlock(task: nat, candidate: string)
    | PressLock
    | SubmitUpload(task: nat, chosen: bool)
    | PressDelete(row: nat)
    | PressConfirm(task: nat)
    | PressCancel
    | CloseFires
    | Answer(task: nat, reply: Reply, refresh: nat)
    | Read(task: nat)
    | List(task: nat, payload: Option<seq<License>>)
    | Resume(task: nat)

  /** Hidden and disabled controls fire no events, nor does what a modal dialog covers. */
  predicate Enabled(w: World, step: Step) {
    match step
    case SubmitUnlock(t, _) => !w.page.shown && !w.page.unlockBusy && t !in w.tasks
    case PressLock => w.page.shown
    case SubmitUpload(t, _) => w.page.shown && !w.page.uploadBusy && t !in w.tasks
    case PressDelete(row) => w.page.shown && !w.page.dialogOpen && row < |w.page.list|
    case PressConfirm(t) => w.page.dialogOpen && !w.page.deleteBusy && t !in w.tasks
    case PressCancel => w.page.dialogOpen && !w.page.deleteBusy
    case CloseFires => w.page.closing > 0
    case Answer(t, reply, refresh) =>
      t in w.tasks && w.tasks[t].stage.Answering? && (reply.Failed? || w.tasks[t].stage.sent.Some?) && refresh !in w.tasks
    case Read(t) => t in w.tasks && w.tasks[t].stage.Reading?
    case List(t, _) => t in w.tasks && w.tasks[t].stage.Listing?
    case Resume(t) => t in w.tasks && w.tasks[t].stage.Refreshing? && w.tasks[t].stage.refresh !in w.tasks
  }

  function With(page: Page, tasks: Tasks, t: nat, kind: Kind): World {
    World(page, tasks[t := NewTask(page, kind)])
  }

  function TurnOf(w: World, step: Step): Turn
    requires Enabled(w, step) && (step.Answer? || step.Read? || step.List? || step.Resume?)
  {
    var task := w.tasks[step.task];
    match step
    case Answer(_, reply, _) => Answered(w.page, task, reply)
    case Read(_) => EndTurn(Rejected(w.page, task), task)
    case List(_, payload) => Listed(w.page, task, payload)
    case Resume(_) => EndTurn(w.page, task)
  }

  function After(w: World, step: Step): World
    requires Enabled(w, step)
  {
    match step
    case SubmitUnlock(t, candidate) =>
      if candidate == "" then w else With(Begun(w.page, Unlock).(token := candidate), w.tasks, t, Unlock)
    case PressLock => w.(page := Locked(w.page))
    case SubmitUpload(t, chosen) => if chosen then With(Begun(w.page, Upload), w.tasks, t, Upload) else w
    case PressDelete(row) =>
      w.(page := w.page.(pendingSlug := w.page.list[row].slug, deleteBusy := false, dialogOpen := true))
    case PressConfirm(t) =>
      if w.page.pendingSlug == "" || w.page.token == "" then w
      else With(Begun(w.page, Delete), w.tasks, t, Delete)
    case PressCancel => w.(page := Closed(w.page))
    case CloseFires => w.(page := w.page.(pendingSlug := "", deleteBusy := false, closing := w.page.closing - 1))
    case Answer(t, _, refresh) => Turned(w, t, TurnOf(w, step), refresh)
    case Read(t) => Turned(w, t, TurnOf(w, step), t)
    case List(t, _) => Turned(w, t, TurnOf(w, step), t)
    case Resume(t) => Turned(w, t, TurnOf(w, step), t)
  }

  /** A handler has run one piece. */
  function Turned(w: World, t: nat, turn: Turn, refresh: nat): World
    requires t in w.tasks
  {
    match turn.next
    case Ended => World(turn.page, w.tasks - {t})
    case Await(stage) => World(turn.page, w.tasks[t := w.tasks[t].(stage := stage)])
    case AwaitRefresh(started) =>
      var waiting := w.tasks[t := w.tasks[t].(stage := Refreshing(refresh))];
      if started then With(turn.page, waiting, refresh, Refresh) else World(turn.page, waiting)
  }

  predicate Legal(w: World, steps: seq<Step>)
    decreases |steps|
  {
    steps != [] ==> Enabled(w, steps[0]) && Legal(After(w, steps[0]), steps[1..])
  }

  function Reached(w: World, steps: seq<Step>): World
    requires Legal(w, steps)
    decreases |steps|
  {
    if steps == [] then w else Reached(After(w, steps[0]), steps[1..])
  }

  // Every run

  /** What the page shows fits its session. */
  ghost predicate PageInv(p: Page) {
    && (p.shown ==> p.token != "" && !p.unlockBusy)
    && (p.token != "" ==> p.shown || p.unlockBusy)
    && (!p.shown ==> p.list == [] && !p.dialogOpen)
    && (forall license :: license in p.list ==> ValidSummary(license))
  }

  predicate Asks(kind: Kind, target: Target) {
    match kind
    case Unlock => target == ListAll
    case Upload => target == Publish
    case Refresh => target == ListAll
    case Delete => target.Remove? && target.slug != ""
  }

  predicate StageFits(kind: Kind, stage: Stage) {
    match stage
    case Answering(sent) => sent.Some? && Asks(kind, sent.value.target)
    case Reading => true
    case Listing => kind.Unlock? || kind.Refresh?
    case Refreshing(_) => kind.Upload? || kind.Delete?
  }

  /** A handler belongs to a session that has begun, and the current one's fit what the page shows. */
  ghost predicate TaskInv(p: Page, task: Task) {
    && task.epoch <= p.epoch && task.id <= CurrentId(p, task.kind)
    && StageFits(task.kind, task.stage)
    && (task.epoch == p.epoch && task.stage.Answering? ==> task.stage.sent.value.token == p.token)
    && (task.epoch == p.epoch ==> p.token != "" && (p.shown <==> !task.kind.Unlock?))
    && (task.epoch == p.epoch && task.kind.Unlock? ==> task.id == p.unlockId)
    && (IsCurrentOperation(p, task) && !task.kind.Delete? ==> Busy(p, task.kind))
  }

  ghost predicate TasksInv(p: Page, tasks: Tasks) {
    && (forall t :: t in tasks ==> TaskInv(p, tasks[t]))
    && (forall t, u :: t in tasks && u in tasks && t != u && tasks[t].kind == tasks[u].kind ==> tasks[t].id != tasks[u].id)
  }

  ghost predicate InFlight(p: Page, tasks: Tasks, kind: Kind) {
    exists t :: t in tasks && tasks[t].kind == kind && IsCurrentOperation(p, tasks[t])
  }

  ghost predicate BusyInv(p: Page, tasks: Tasks) {
    forall kind :: Busy(p, kind) ==> InFlight(p, tasks, kind)
  }

  ghost predicate Inv(p: Page, tasks: Tasks) {
    PageInv(p) && TasksInv(p, tasks) && BusyInv(p, tasks)
  }

  lemma LockKeeps(p: Page, tasks: Tasks)
    requires Inv(p, tasks)
    ensures Inv(Locked(p), tasks)
  {
  }

  /** The page changes nothing a handler depends on, but for a busy dialog that it frees. */
  predicate SameSession(p: Page, q: Page) {
    q == p.(list := q.list, dialogOpen := q.dialogOpen, pendingSlug := q.pendingSlug, closing := q.closing,
            deleteBusy := q.deleteBusy) && (q.deleteBusy ==> p.deleteBusy)
  }

  lemma SameSessionKeeps(p: Page, q: Page, tasks: Tasks)
    requires Inv(p, tasks) && SameSession(p, q) && PageInv(q)
    ensures Inv(q, tasks)
  {
    forall kind | Busy(q, kind) ensures InFlight(q, tasks, kind) {
      assert Busy(p, kind);
      var t :| t in tasks && tasks[t].kind == kind && IsCurrentOperation(p, tasks[t]);
      assert IsCurrentOperation(q, tasks[t]);
    }
  }

  lemma UnlockBegins(p: Page, tasks: Tasks, t: nat, candidate: string)
    requires Inv(p, tasks) && t !in tasks && !p.shown && !p.unlockBusy && candidate != ""
    ensures var w := With(Begun(p, Unlock).(token := candidate), tasks, t, Unlock); Inv(w.page, w.tasks)
  {
    var w := With(Begun(p, Unlock).(token := candidate), tasks, t, Unlock);
    assert IsCurrentOperation(w.page, w.tasks[t]);
    forall kind | Busy(w.page, kind) ensures InFlight(w.page, w.tasks, kind) {
      if !kind.Unlock? {
        assert Busy(p, kind);
        assert false;
      }
    }
  }

  lemma TaskAfterBegun(p: Page, task: Task, kind: Kind)
    requires PageInv(p) && TaskInv(p, task) && p.shown && !kind.Unlock?
    ensures TaskInv(Begun(p, kind), task)
  {
    hide ValidSummary;
  }

  lemma NewTaskInv(p: Page, kind: Kind)
    requires PageInv(p) && p.shown && !kind.Unlock?
    requires kind.Delete? ==> p.pendingSlug != ""
    ensures TaskInv(Begun(p, kind), NewTask(Begun(p, kind), kind))
  {
    hide ValidSummary;
  }

  lemma TasksBegin(p: Page, tasks: Tasks, t: nat, kind: Kind)
    requires PageInv(p) && TasksInv(p, tasks) && t !in tasks && p.shown && !kind.Unlock?
    requires kind.Delete? ==> p.pendingSlug != ""
    ensures var w := With(Begun(p, kind), tasks, t, kind); PageInv(w.page) && TasksInv(w.page, w.tasks)
  {
    hide ValidSummary;
    var w := With(Begun(p, kind), tasks, t, kind);
    assert w.tasks[t] == NewTask(Begun(p, kind), kind) && w.page == Begun(p, kind);
    NewTaskInv(p, kind);
    forall u | u in tasks ensures TaskInv(w.page, tasks[u]) && (tasks[u].kind == kind ==> tasks[u].id < w.tasks[t].id) {
      assert TaskInv(p, tasks[u]);
      TaskAfterBegun(p, tasks[u], kind);
    }
    hide TaskInv, PageInv;
    assert PageInv(w.page) by { BegunPage(p, kind); }
  }

  lemma BegunPage(p: Page, kind: Kind)
    requires PageInv(p) && p.shown && !kind.Unlock?
    ensures PageInv(Begun(p, kind))
  {
  }

  lemma BusyBegins(p: Page, tasks: Tasks, t: nat, kind: Kind)
    requires BusyInv(p, tasks) && t !in tasks && !kind.Unlock?
    ensures var w := With(Begun(p, kind), tasks, t, kind); BusyInv(w.page, w.tasks)
  {
    var w := With(Begun(p, kind), tasks, t, kind);
    assert IsCurrentOperation(w.page, w.tasks[t]);
    forall other | Busy(w.page, other) ensures InFlight(w.page, w.tasks, other) {
      if other != kind {
        assert Busy(p, other);
        var u :| u in tasks && tasks[u].kind == other && IsCurrentOperation(p, tasks[u]);
        assert IsCurrentOperation(w.page, w.tasks[u]);
      }
    }
  }

  lemma OperationBegins(p: Page, tasks: Tasks, t: nat, kind: Kind)
    requires Inv(p, tasks) && t !in tasks && p.shown && !kind.Unlock?
    requires kind.Delete? ==> p.pendingSlug != ""
    ensures var w := With(Begun(p, kind), tasks, t, kind); Inv(w.page, w.tasks)
  {
    hide PageInv, TasksInv, BusyInv;
    TasksBegin(p, tasks, t, kind);
    BusyBegins(p, tasks, t, kind);
  }

  lemma StageKeeps(p: Page, tasks: Tasks, t: nat, stage: Stage)
    requires Inv(p, tasks) && t in tasks && StageFits(tasks[t].kind, stage)
    requires !stage.Answering?
    ensures Inv(p, tasks[t := tasks[t].(stage := stage)])
  {
    var later := tasks[t := tasks[t].(stage := stage)];
    forall kind | Busy(p, kind) ensures InFlight(p, later, kind) {
      var u :| u in tasks && tasks[u].kind == kind && IsCurrentOperation(p, tasks[u]);
      assert IsCurrentOperation(p, later[u]);
    }
  }

  /** For a suspended handler both guards say the same: only that it was not superseded. */
  lemma GuardsAgree(p: Page, task: Task)
    requires PageInv(p) && TaskInv(p, task)
    ensures IsCurrentSessionOperation(p, task) <==> IsCurrentOperation(p, task)
  {
  }

  lemma BusyEnds(p: Page, tasks: Tasks, t: nat)
    requires Inv(p, tasks) && t in tasks
    ensures BusyInv(Settled(p, tasks[t]), tasks - {t})
  {
    var q, rest := Settled(p, tasks[t]), tasks - {t};
    GuardsAgree(p, tasks[t]);
    hide PageInv, TaskInv;
    forall kind | Busy(q, kind) ensures InFlight(q, rest, kind) {
      assert Busy(p, kind);
      var u :| u in tasks && tasks[u].kind == kind && IsCurrentOperation(p, tasks[u]);
      assert u != t;
      assert IsCurrentOperation(q, rest[u]);
    }
  }

  lemma TasksEnd(p: Page, tasks: Tasks, t: nat)
    requires PageInv(p) && TasksInv(p, tasks) && t in tasks
    requires !(tasks[t].kind.Unlock? && IsCurrentOperation(p, tasks[t]))
    ensures PageInv(Settled(p, tasks[t])) && TasksInv(Settled(p, tasks[t]), tasks - {t})
  {
    GuardsAgree(p, tasks[t]);
  }

  /** The one operation in flight ends: the others keep their own flags. */
  lemma Ends(p: Page, tasks: Tasks, t: nat)
    requires Inv(p, tasks) && t in tasks && !(tasks[t].kind.Unlock? && IsCurrentOperation(p, tasks[t]))
    ensures Inv(Settled(p, tasks[t]), tasks - {t})
  {
    BusyEnds(p, tasks, t);
    TasksEnd(p, tasks, t);
  }

  /** An unlock ends: with the token gone, or with the manager shown. */
  lemma UnlockEnds(p: Page, tasks: Tasks, t: nat, q: Page)
    requires Inv(p, tasks) && t in tasks && tasks[t].kind.Unlock? && IsCurrentOperation(p, tasks[t])
    requires q == p.(token := "", unlockBusy := false) ||
             (q == p.(list := q.list, shown := true, unlockBusy := false) && PageInv(q))
    ensures Inv(q, tasks - {t})
  {
    var rest := tasks - {t};
    forall u | u in rest ensures rest[u].epoch < p.epoch {
      assert TaskInv(p, tasks[u]) && TaskInv(p, tasks[t]);
    }
    forall kind ensures !Busy(q, kind) {
      if Busy(p, kind) && !kind.Unlock? {
        assert false;
      }
    }
  }

  lemma EventKeeps(w: World, step: Step)
    requires Inv(w.page, w.tasks) && Enabled(w, step)
    requires !step.Answer? && !step.Read? && !step.List? && !step.Resume?
    ensures var v := After(w, step); Inv(v.page, v.tasks)
  {
    var v := After(w, step);
    match step
    case SubmitUnlock(t, candidate) =>
      if candidate != "" { UnlockBegins(w.page, w.tasks, t, candidate); }
    case PressLock => LockKeeps(w.page, w.tasks);
    case SubmitUpload(t, chosen) => OperationBegins(w.page, w.tasks, t, Upload);
    case PressConfirm(t) =>
      if w.page.pendingSlug != "" { OperationBegins(w.page, w.tasks, t, Delete); }
    case _ => SameSessionKeeps(w.page, v.page, w.tasks);
  }

  lemma RejectedKeeps(w: World, t: nat)
    requires Inv(w.page, w.tasks) && t in w.tasks
    ensures var turn := EndTurn(Rejected(w.page, w.tasks[t]), w.tasks[t]); Inv(turn.page, w.tasks - {t})
  {
    var task := w.tasks[t];
    GuardsAgree(w.page, task);
    if task.kind.Unlock? && IsCurrentOperation(w.page, task) {
      UnlockEnds(w.page, w.tasks, t, w.page.(token := "", unlockBusy := false));
    } else {
      Ends(w.page, w.tasks, t);
    }
  }

  lemma ListKeeps(w: World, step: Step)
    requires Inv(w.page, w.tasks) && Enabled(w, step) && step.List?
    ensures var v := After(w, step); Inv(v.page, v.tasks)
  {
    var t, task, list := step.task, w.tasks[step.task], ListFrom(step.payload);
    GuardsAgree(w.page, task);
    if list.None? {
      RejectedKeeps(w, t);
    } else if !IsCurrentOperation(w.page, task) {
      Ends(w.page, w.tasks, t);
    } else if task.kind.Unlock? {
      UnlockEnds(w.page, w.tasks, t, w.page.(list := list.value, shown := true, unlockBusy := false));
    } else {
      SameSessionKeeps(w.page, w.page.(list := list.value), w.tasks);
      Ends(w.page.(list := list.value), w.tasks, t);
    }
  }

  /** A handler that goes on to a refresh. */
  lemma RefreshKeeps(p: Page, tasks: Tasks, t: nat, refresh: nat)
    requires Inv(p, tasks) && t in tasks && refresh !in tasks && IsCurrentOperation(p, tasks[t])
    requires tasks[t].kind.Upload? || tasks[t].kind.Delete?
    ensures var v := Turned(World(p, tasks), t, RefreshTurn(p, tasks[t].epoch), refresh); Inv(v.page, v.tasks)
  {
    var waiting := tasks[t := tasks[t].(stage := Refreshing(refresh))];
    StageKeeps(p, tasks, t, Refreshing(refresh));
    OperationBegins(p, waiting, refresh, Refresh);
  }

  lemma AnswerKeeps(w: World, step: Step)
    requires Inv(w.page, w.tasks) && Enabled(w, step) && step.Answer?
    ensures var v := After(w, step); Inv(v.page, v.tasks)
  {
    var p, t, task := w.page, step.task, w.tasks[step.task];
    GuardsAgree(p, task);
    if step.reply.Failed? {
      RejectedKeeps(w, t);
    } else if !IsCurrentOperation(p, task) {
      Ends(p, w.tasks, t);
    } else if step.reply.status == 401 && !task.kind.Unlock? {
      LockKeeps(p, w.tasks);
      Ends(Locked(p), w.tasks, t);
    } else if !Succeeded(step.reply.status) {
      StageKeeps(p, w.tasks, t, Reading);
    } else {
      match task.kind
      case Unlock => StageKeeps(p, w.tasks, t, Listing);
      case Refresh => StageKeeps(p, w.tasks, t, Listing);
      case Upload => RefreshKeeps(p, w.tasks, t, step.refresh);
      case Delete =>
        SameSessionKeeps(p, Closed(p), w.tasks);
        RefreshKeeps(Closed(p), w.tasks, t, step.refresh);
    }
  }

  lemma StepKeeps(w: World, step: Step)
    requires Inv(w.page, w.tasks) && Enabled(w, step)
    ensures var v := After(w, step); Inv(v.page, v.tasks)
  {
    match step
    case Answer(_, _, _) => AnswerKeeps(w, step);
    case List(_, _) => ListKeeps(w, step);
    case Read(t) => RejectedKeeps(w, t);
    case Resume(t) => Ends(w.page, w.tasks, t);
    case _ => EventKeeps(w, step);
  }

  lemma {:induction false} RunKeepsInv(w: World, steps: seq<Step>)
    requires Inv(w.page, w.tasks) && Legal(w, steps)
    ensures var v := Reached(w, steps); Inv(v.page, v.tasks)
    decreases |steps|
  {
    hide Inv, Enabled, After;
    if steps != [] {
      StepKeeps(w, steps[0]);
      RunKeepsInv(After(w, steps[0]), steps[1..]);
    }
  }

  /**
   In every run a form or the list is marked busy exactly while an operation of the current
   session is in flight for it, the token is kept exactly while the manager is shown or an
   unlock is in flight, and a hidden manager lists nothing.
   */
  lemma PageTellsTheSession(steps: seq<Step>)
    requires Legal(START, steps)
    ensures var w := Reached(START, steps);
            && (forall kind | kind != Delete :: Busy(w.page, kind) <==> InFlight(w.page, w.tasks, kind))
            && (w.page.deleteBusy ==> InFlight(w.page, w.tasks, Delete))
            && (w.page.token != "" <==> w.page.shown || InFlight(w.page, w.tasks, Unlock))
            && (w.page.shown ==> !InFlight(w.page, w.tasks, Unlock))
            && (!w.page.shown ==> w.page.list == [])
            && (forall t :: t in w.tasks && w.tasks[t].stage.Answering? ==>
                  && w.tasks[t].stage.sent.Some? && Asks(w.tasks[t].kind, w.tasks[t].stage.sent.value.target)
                  && (w.tasks[t].epoch == w.page.epoch ==> w.tasks[t].stage.sent.value.token == w.page.token))
  {
    hide Legal, Reached, ValidSummary;
    StartInv();
    RunKeepsInv(START, steps);
    var w := Reached(START, steps);
    forall kind | kind != Delete ensures Busy(w.page, kind) <==> InFlight(w.page, w.tasks, kind) {
    }
    assert Busy(w.page, Delete) <==> w.page.deleteBusy;
    assert Busy(w.page, Unlock) <==> w.page.unlockBusy;
  }

  lemma StartInv()
    ensures Inv(START.page, START.tasks)
  {
    assert forall kind :: !Busy(START.page, kind);
  }

  /** A new handler, if the event started one. */
  function Started(tasks: Tasks, t: nat, task: Option<Task>): Tasks {
    if task.Some? then tasks[t := task.value] else tasks
  }

  /** The page's own code performs exactly the step. */
  method Perform(page: AdminPage, tasks: Tasks, step: Step) returns (later: Tasks)
    requires Inv(page.View(), tasks) && Enabled(World(page.View(), tasks), step)
    modifies page
    ensures World(page.View(), later) == After(World(old(page.View()), tasks), step)
    ensures Inv(page.View(), later)
  {
    StepKeeps(World(page.View(), tasks), step);
    assert step.List? ==> TaskInv(page.View(), tasks[step.task]);
    hide Inv, Answered, Listed, Rejected, Settled, Locked, Closed, Begun, WithBusy, Bumped;
    later := tasks;
    match step {
      case Answer(t, reply, refresh) =>
        var next := page.ReplyArrives(tasks[t], reply);
        later := Turned(World(page.View(), tasks), t, Turn(page.View(), next), refresh).tasks;
      case Read(t) =>
        var next := page.MessageArrives(tasks[t]);
        later := Turned(World(page.View(), tasks), t, Turn(page.View(), next), t).tasks;
      case List(t, payload) =>
        var next := page.ListArrives(tasks[t], payload);
        later := Turned(World(page.View(), tasks), t, Turn(page.View(), next), t).tasks;
      case Resume(t) =>
        var next := page.End(tasks[t]);
        later := Turned(World(page.View(), tasks), t, Turn(page.View(), next), t).tasks;
      case _ =>
        later := PerformEvent(page, tasks, step);
    }
  }

  method PerformEvent(page: AdminPage, tasks: Tasks, step: Step) returns (later: Tasks)
    requires Enabled(World(page.View(), tasks), step) && !HandlerStep(step)
    modifies page
    ensures World(page.View(), later) == After(World(old(page.View()), tasks), step)
  {
    hide Locked, Closed, Begun, WithBusy, Bumped;
    later := tasks;
    match step {
      case SubmitUnlock(t, candidate) =>
        var task := page.UnlockManager(candidate);
        later := Started(tasks, t, task);
      case PressLock =>
        page.LockManager();
      case SubmitUpload(t, chosen) =>
        var task := page.UploadLicense(chosen);
        later := Started(tasks, t, task);
      case PressDelete(row) =>
        page.OpenDeleteDialog(page.licenses[row].slug);
      case PressConfirm(t) =>
        var task := page.DeleteLicense();
        later := Started(tasks, t, task);
      case PressCancel =>
        page.CloseDialog();
      case CloseFires =>
        page.FinishDeleteDialog();
    }
  }

  // What comes of an operation that is not superseded

  predicate Current(w: World, t: nat, kind: Kind) {
    t in w.tasks && w.tasks[t].kind == kind && IsCurrentOperation(w.page, w.tasks[t])
  }

  predicate Waits(w: World, t: nat, stage: Stage) {
    t in w.tasks && w.tasks[t].stage == stage
  }

  predicate ValidList(list: seq<License>) {
    forall license :: license in list ==> ValidSummary(license)
  }

  /** Submitting a token asks with it, in a new session; submitting a file asks to publish in this one. */
  lemma SubmissionsAsk(w: World, t: nat, candidate: string)
    requires Inv(w.page, w.tasks) && candidate != ""
    ensures Enabled(w, SubmitUnlock(t, candidate)) ==>
              var v := After(w, SubmitUnlock(t, candidate));
              && Current(v, t, Unlock) && Waits(v, t, Answering(Some(Request(candidate, ListAll))))
              && v.page.token == candidate && v.page.epoch > w.page.epoch && v.page.unlockBusy && !v.page.shown
    ensures Enabled(w, SubmitUpload(t, true)) ==>
              var v := After(w, SubmitUpload(t, true));
              && Current(v, t, Upload) && Waits(v, t, Answering(Some(Request(w.page.token, Publish))))
              && v.page.token == w.page.token && v.page.epoch == w.page.epoch && v.page.uploadBusy
  {
    hide BusyInv, TasksInv, ValidSummary;
  }

  /** The right token opens the manager: a good response and a valid list show exactly that list. */
  lemma UnlockOpens(w: World, t: nat, status: nat, list: seq<License>, refresh: nat)
    requires Inv(w.page, w.tasks) && Current(w, t, Unlock) && w.tasks[t].stage.Answering? && refresh !in w.tasks
    requires 200 <= status <= 299 && ValidList(list)
    ensures Enabled(w, Answer(t, Status(status), refresh))
    ensures var v := After(w, Answer(t, Status(status), refresh));
            && v.page == w.page && Current(v, t, Unlock) && Waits(v, t, Listing)
            && Enabled(v, List(t, Some(list)))
            && var u := After(v, List(t, Some(list)));
               && u.page.shown && u.page.list == list
               && u.page.token == w.page.token != "" && !u.page.unlockBusy
               && u.page.epoch == w.page.epoch && u.tasks == w.tasks - {t}
  {
    GuardsAgree(w.page, w.tasks[t]);
    hide BusyInv, ValidSummary;
    assert TaskInv(w.page, w.tasks[t]);
    var v := After(w, Answer(t, Status(status), refresh));
    assert v.page == w.page && v.tasks == w.tasks[t := w.tasks[t].(stage := Listing)];
  }

  /** Any other response to an unlock, and an invalid list, end it with the token gone. */
  lemma UnlockFails(w: World, t: nat, step: Step)
    requires Inv(w.page, w.tasks) && Current(w, t, Unlock) && Enabled(w, step)
    requires step == Read(t) || (step.List? && step.task == t && ListFrom(step.payload).None?) ||
             (step.Answer? && step.task == t && step.reply.Failed?)
    ensures After(w, step).page == w.page.(token := "", unlockBusy := false) && After(w, step).tasks == w.tasks - {t}
  {
    GuardsAgree(w.page, w.tasks[t]);
    hide BusyInv;
  }

  /** A good response to an upload or a deletion starts a refresh, the latter having closed the dialog. */
  lemma ChangeRefreshes(w: World, t: nat, kind: Kind, status: nat, refresh: nat)
    requires kind.Upload? || kind.Delete?
    requires Inv(w.page, w.tasks) && Current(w, t, kind) && w.tasks[t].stage.Answering? && refresh !in w.tasks
    requires 200 <= status <= 299
    ensures Enabled(w, Answer(t, Status(status), refresh))
    ensures var v := After(w, Answer(t, Status(status), refresh));
            && v.page.refreshId == w.page.refreshId + 1 && v.page.listBusy
            && (kind.Delete? ==> !v.page.dialogOpen)
            && (kind.Upload? ==> v.page.dialogOpen == w.page.dialogOpen)
            && v.page.list == w.page.list && v.page.token == w.page.token && v.page.epoch == w.page.epoch
            && Current(v, t, kind) && Waits(v, t, Refreshing(refresh))
            && Current(v, refresh, Refresh) && Waits(v, refresh, Answering(Some(Request(w.page.token, ListAll))))
  {
    assert TaskInv(w.page, w.tasks[t]);
    GuardsAgree(w.page, w.tasks[t]);
    hide BusyInv, ValidSummary;
  }

  /** Any other status but 401, or any of an unlock's, starts nothing: the message is awaited on the same page. */
  lemma RefusalIsRead(w: World, t: nat, kind: Kind, status: nat, refresh: nat)
    requires Inv(w.page, w.tasks) && Current(w, t, kind) && w.tasks[t].stage.Answering? && refresh !in w.tasks
    requires !(200 <= status <= 299) && (status != 401 || kind.Unlock?)
    ensures Enabled(w, Answer(t, Status(status), refresh))
    ensures After(w, Answer(t, Status(status), refresh)) ==
            World(w.page, w.tasks[t := w.tasks[t].(stage := Reading)])
  {
    assert TaskInv(w.page, w.tasks[t]);
    GuardsAgree(w.page, w.tasks[t]);
    hide BusyInv;
  }

  /** A good response and a valid list end a refresh with exactly that list on the page. */
  lemma RefreshShows(w: World, t: nat, status: nat, list: seq<License>, refresh: nat)
    requires Inv(w.page, w.tasks) && Current(w, t, Refresh) && w.tasks[t].stage.Answering? && refresh !in w.tasks
    requires 200 <= status <= 299 && ValidList(list)
    ensures Enabled(w, Answer(t, Status(status), refresh))
    ensures var v := After(w, Answer(t, Status(status), refresh));
            && v.page == w.page && Current(v, t, Refresh) && Waits(v, t, Listing)
            && Enabled(v, List(t, Some(list)))
            && After(v, List(t, Some(list))) ==
               World(w.page.(list := list, listBusy := false), w.tasks - {t})
  {
    GuardsAgree(w.page, w.tasks[t]);
    hide BusyInv, ValidSummary;
    assert TaskInv(w.page, w.tasks[t]);
    var v := After(w, Answer(t, Status(status), refresh));
    assert v.page == w.page && v.tasks == w.tasks[t := w.tasks[t].(stage := Listing)];
  }

  /** An upload, refresh or deletion that fails, or whose refresh is over, frees its controls and changes nothing else. */
  lemma OperationEnds(w: World, t: nat, kind: Kind, step: Step)
    requires Inv(w.page, w.tasks) && Current(w, t, kind) && !kind.Unlock? && Enabled(w, step)
    requires step == Read(t) || step == Resume(t) || (step.Answer? && step.task == t && step.reply.Failed?)
    ensures After(w, step) == World(WithBusy(w.page, kind, false), w.tasks - {t})
  {
    GuardsAgree(w.page, w.tasks[t]);
    hide BusyInv;
  }

  /** The button of a row and the dialog's confirmation ask for the removal of that row's license. */
  lemma ConfirmedRemoval(w: World, row: nat, t: nat)
    requires Inv(w.page, w.tasks) && Enabled(w, PressDelete(row)) && t !in w.tasks
    ensures var v := After(w, PressDelete(row));
            && Enabled(v, PressConfirm(t))
            && var u := After(v, PressConfirm(t));
               Waits(u, t, Answering(Some(Request(w.page.token, Remove(w.page.list[row].slug)))))
               && Current(u, t, Delete) && u.page.deleteBusy
  {
    assert w.page.list[row] in w.page.list;
    hide BusyInv, TasksInv;
  }

  // Superseded handlers

  predicate Superseded(p: Page, task: Task) {
    !IsCurrentOperation(p, task) && task.epoch <= p.epoch && task.id <= CurrentId(p, task.kind)
  }

  predicate HandlerStep(step: Step) {
    step.Answer? || step.Read? || step.List? || step.Resume?
  }

  /** Epochs and operation numbers only grow. */
  predicate Later(p: Page, q: Page) {
    && p.epoch <= q.epoch && p.unlockId <= q.unlockId && p.uploadId <= q.uploadId
    && p.refreshId <= q.refreshId && p.deleteId <= q.deleteId
  }

  lemma LaterIds(p: Page, q: Page)
    requires Later(p, q)
    ensures forall kind :: CurrentId(p, kind) <= CurrentId(q, kind)
  {
  }

  lemma SettledGrows(p: Page, task: Task)
    ensures var q := Settled(p, task);
            Later(p, q) && q.shown == p.shown && q.list == p.list && q.refreshId == p.refreshId
  {
  }

  lemma RejectedGrows(p: Page, task: Task)
    ensures var q := Rejected(p, task); Later(p, q) && q.shown == p.shown && q.list == p.list
  {
  }

  lemma SettledAfterRejected(p: Page, task: Task)
    ensures var q := Settled(Rejected(p, task), task); Later(p, q) && q.shown == p.shown && q.list == p.list
  {
    hide Settled, Rejected;
    RejectedGrows(p, task);
    SettledGrows(Rejected(p, task), task);
  }

  lemma LockedGrows(p: Page)
    ensures Later(p, Locked(p)) && !Locked(p).shown
  {
  }

  lemma RefreshTurnGrows(p: Page, epoch: nat)
    ensures var turn := RefreshTurn(p, epoch);
            Later(p, turn.page) && turn.page.shown == p.shown &&
            (turn.next.AwaitRefresh? && turn.next.started ==> turn.page.refreshId > p.refreshId)
  {
  }

  lemma ClosedGrows(p: Page)
    ensures var q := Closed(p); Later(p, q) && Later(q, p) && q.shown == p.shown
  {
  }

  lemma AnsweredGrows(p: Page, task: Task, reply: Reply)
    ensures var turn := Answered(p, task, reply);
            && Later(p, turn.page) && (turn.page.shown ==> p.shown)
            && (turn.next.AwaitRefresh? && turn.next.started ==> turn.page.refreshId > p.refreshId)
  {
    hide Settled, Rejected, Locked, RefreshTurn, Closed;
    SettledGrows(p, task);
    SettledAfterRejected(p, task);
    LockedGrows(p);
    SettledGrows(Locked(p), task);
    RefreshTurnGrows(p, task.epoch);
    ClosedGrows(p);
    RefreshTurnGrows(Closed(p), task.epoch);
  }

  lemma ListedGrows(p: Page, task: Task, payload: Option<seq<License>>)
    ensures var turn := Listed(p, task, payload);
            && Later(p, turn.page) && turn.next.Ended?
            && (turn.page.shown && !p.shown ==>
                  task.kind.Unlock? && IsCurrentOperation(p, task) && ListFrom(payload) == Some(turn.page.list))
  {
    hide Settled, Rejected, ListFrom;
    SettledGrows(p, task);
    SettledAfterRejected(p, task);
    ListIsPayload(payload);
    if payload.Some? {
      SettledGrows(p.(list := payload.value, shown := p.shown || task.kind.Unlock?), task);
    }
  }

  lemma ListIsPayload(payload: Option<seq<License>>)
    ensures ListFrom(payload).Some? ==> ListFrom(payload) == payload
  {
  }

  lemma TurnGrows(w: World, step: Step)
    requires Enabled(w, step) && HandlerStep(step)
    ensures var p, turn := w.page, TurnOf(w, step);
            && Later(p, turn.page)
            && (turn.next.AwaitRefresh? && turn.next.started ==> turn.page.refreshId > p.refreshId)
            && (turn.page.shown && !p.shown ==>
                  step.List? && w.tasks[step.task].kind.Unlock? && IsCurrentOperation(p, w.tasks[step.task])
                  && ListFrom(step.payload) == Some(turn.page.list))
  {
    hide ListFrom, Answered, Listed, Settled, Rejected, Later;
    var p, task := w.page, w.tasks[step.task];
    match step
    case Answer(_, reply, _) => AnsweredGrows(p, task, reply);
    case List(_, payload) => ListedGrows(p, task, payload);
    case Read(_) => SettledAfterRejected(p, task);
    case Resume(_) => SettledGrows(p, task);
  }

  /** A handler that was there before, or one that has just begun. */
  predicate KnownOrNew(w: World, v: World, u: nat)
    requires u in v.tasks
  {
    var task := v.tasks[u];
    || (u in w.tasks && task == w.tasks[u].(stage := task.stage))
    || (&& task.epoch == v.page.epoch && task.id == CurrentId(v.page, task.kind)
        && task.id > CurrentId(w.page, task.kind) && (task.kind.Unlock? ==> v.page.epoch > w.page.epoch))
  }

  lemma TurnedShape(w: World, t: nat, turn: Turn, refresh: nat)
    requires t in w.tasks
    requires turn.next.AwaitRefresh? && turn.next.started ==> turn.page.refreshId > w.page.refreshId
    ensures var v := Turned(w, t, turn, refresh);
            v.page == turn.page && forall u :: u in v.tasks ==> KnownOrNew(w, v, u)
  {
  }

  lemma EventShape(w: World, step: Step)
    requires Enabled(w, step) && !HandlerStep(step)
    ensures var v := After(w, step);
            Later(w.page, v.page) && (v.page.shown ==> w.page.shown) && forall u :: u in v.tasks ==> KnownOrNew(w, v, u)
  {
  }

  lemma HandlerShape(w: World, step: Step)
    requires Enabled(w, step) && HandlerStep(step)
    ensures var v := After(w, step);
            v.page == TurnOf(w, step).page && forall u :: u in v.tasks ==> KnownOrNew(w, v, u)
  {
    TurnGrows(w, step);
    var turn := TurnOf(w, step);
    hide TurnOf, Turned, KnownOrNew;
    TurnedShape(w, step.task, turn, if step.Answer? then step.refresh else step.task);
  }

  lemma StepShape(w: World, step: Step)
    requires Enabled(w, step)
    ensures var v := After(w, step); Later(w.page, v.page) && forall u :: u in v.tasks ==> KnownOrNew(w, v, u)
  {
    hide Enabled, After, TurnOf, KnownOrNew, Later;
    if HandlerStep(step) {
      TurnGrows(w, step);
      HandlerShape(w, step);
    } else {
      EventShape(w, step);
    }
  }

  lemma NumbersGrow(w: World, step: Step)
    requires Enabled(w, step)
    ensures var p, q := w.page, After(w, step).page;
            p.epoch <= q.epoch && forall kind :: CurrentId(p, kind) <= CurrentId(q, kind)
  {
    hide Enabled, After, KnownOrNew;
    StepShape(w, step);
    LaterIds(w.page, After(w, step).page);
  }

  lemma {:induction false} NumbersGrowInRuns(w: World, steps: seq<Step>)
    requires Legal(w, steps)
    ensures var p, q := w.page, Reached(w, steps).page;
            p.epoch <= q.epoch && forall kind :: CurrentId(p, kind) <= CurrentId(q, kind)
    decreases |steps|
  {
    hide Enabled, After, CurrentId;
    if steps != [] {
      NumbersGrow(w, steps[0]);
      NumbersGrowInRuns(After(w, steps[0]), steps[1..]);
    }
  }

  lemma SupersededStepIsSilent(w: World, step: Step)
    requires Enabled(w, step) && HandlerStep(step) && !IsCurrentOperation(w.page, w.tasks[step.task])
    ensures After(w, step).page == w.page
  {
    hide ListFrom, Locked, Closed, RefreshTurn;
  }

  /**
   A handler whose epoch or operation number is superseded stays so in every run, and whatever
   reaches it then, or fails to, changes nothing of the page: no session, list or busy state.
   */
  lemma SupersededHandlersAreSilent(w: World, task: Task, steps: seq<Step>, step: Step)
    requires Superseded(w.page, task) && Legal(w, steps)
    requires var v := Reached(w, steps);
             && Enabled(v, step) && HandlerStep(step)
             && v.tasks[step.task].(stage := task.stage) == task
    ensures var v := Reached(w, steps); Superseded(v.page, task) && After(v, step).page == v.page
  {
    hide Legal, Reached, Enabled, After;
    NumbersGrowInRuns(w, steps);
    SupersededStepIsSilent(Reached(w, steps), step);
  }

  // After a lock

  /** The step by which an unlock of a later epoch, not superseded, gets a valid list. */
  predicate Unlocks(w: World, step: Step, epoch: nat) {
    && step.List? && ListFrom(step.payload).Some? && step.task in w.tasks
    && w.tasks[step.task].kind.Unlock? && w.tasks[step.task].epoch > epoch
    && IsCurrentOperation(w.page, w.tasks[step.task])
  }

  /** Some step of a run completes an unlock of a later epoch. */
  predicate UnlocksWithin(w: World, steps: seq<Step>, epoch: nat)
    requires Legal(w, steps)
    decreases |steps|
  {
    steps != [] && (Unlocks(w, steps[0], epoch) || UnlocksWithin(After(w, steps[0]), steps[1..], epoch))
  }

  /** Of the unlocks in flight, the current ones were submitted after `epoch`. */
  ghost predicate UnlocksAreLater(tasks: Tasks, epoch: nat, current: nat) {
    epoch <= current && forall t :: t in tasks && tasks[t].kind.Unlock? && tasks[t].epoch == current ==> current > epoch
  }

  lemma ShownByUnlock(w: World, step: Step)
    requires Enabled(w, step) && !w.page.shown && After(w, step).page.shown
    ensures step.List? && w.tasks[step.task].kind.Unlock? && IsCurrentOperation(w.page, w.tasks[step.task])
    ensures ListFrom(step.payload) == Some(After(w, step).page.list)
  {
    hide After, TurnOf, KnownOrNew, Inv;
    if HandlerStep(step) {
      TurnGrows(w, step);
      HandlerShape(w, step);
    } else {
      EventShape(w, step);
    }
  }

  lemma UnlockEpochs(w: World, step: Step, epoch: nat)
    requires Enabled(w, step) && UnlocksAreLater(w.tasks, epoch, w.page.epoch)
    requires forall t :: t in w.tasks ==> w.tasks[t].epoch <= w.page.epoch
    ensures UnlocksAreLater(After(w, step).tasks, epoch, After(w, step).page.epoch)
  {
    StepShape(w, step);
    hide Enabled, After;
  }

  lemma {:induction false} HiddenUntilUnlock(w: World, steps: seq<Step>, epoch: nat)
    requires Inv(w.page, w.tasks) && Legal(w, steps) && !w.page.shown && UnlocksAreLater(w.tasks, epoch, w.page.epoch)
    requires !UnlocksWithin(w, steps, epoch)
    ensures !Reached(w, steps).page.shown && Reached(w, steps).page.list == []
    decreases |steps|
  {
    if steps == [] {
      assert PageInv(w.page);
    } else {
      var v := After(w, steps[0]);
      assert forall t :: t in w.tasks ==> TaskInv(w.page, w.tasks[t]);
      hide Inv, Enabled, After;
      StepKeeps(w, steps[0]);
      UnlockEpochs(w, steps[0], epoch);
      if v.page.shown {
        ShownByUnlock(w, steps[0]);
        assert false;
      }
      HiddenUntilUnlock(v, steps[1..], epoch);
    }
  }

  /** A 401 for an operation of the current session, other than an unlock, locks the page; a superseded one does nothing. */
  lemma UnauthorizedLocks(w: World, step: Step)
    requires Inv(w.page, w.tasks) && Enabled(w, step)
    requires step.Answer? && step.reply == Status(401) && !w.tasks[step.task].kind.Unlock?
    ensures After(w, step).page ==
            if IsCurrentOperation(w.page, w.tasks[step.task]) then Locked(w.page) else w.page
    ensures After(w, step).tasks == w.tasks - {step.task}
  {
    hide BusyInv;
    GuardsAgree(w.page, w.tasks[step.task]);
  }

  /** Pressing Lock locks, and so does a 401 for any operation in flight but an unlock. */
  lemma Locks(w: World, step: Step)
    requires Inv(w.page, w.tasks) && Enabled(w, step)
    requires step.PressLock? ||
             (&& step.Answer? && step.reply == Status(401) && !w.tasks[step.task].kind.Unlock?
              && IsCurrentOperation(w.page, w.tasks[step.task]))
    ensures After(w, step).page == Locked(w.page) && After(w, step).page.token == ""
  {
    if step.Answer? {
      UnauthorizedLocks(w, step);
    }
  }

  /**
   Once the page is locked, whatever was in flight, the manager stays hidden and lists
   nothing until an unlock that was submitted after the lock gets a valid list.
   */
  lemma LockHolds(before: seq<Step>, steps: seq<Step>)
    requires Legal(START, before) && Reached(START, before).page.token == ""
    requires var w := Reached(START, before); Legal(w, steps) && !UnlocksWithin(w, steps, w.page.epoch)
    ensures var v := Reached(Reached(START, before), steps); !v.page.shown && v.page.list == []
  {
    hide Legal, Reached, UnlocksWithin;
    StartInv();
    RunKeepsInv(START, before);
    var w := Reached(START, before);
    assert forall t :: t in w.tasks ==> TaskInv(w.page, w.tasks[t]);
    assert !w.page.shown;
    hide Inv;
    HiddenUntilUnlock(w, steps, w.page.epoch);
  }

  // Refreshes

  /** The step puts the list of a refresh on the page. */
  predicate Renders(w: World, step: Step) {
    && Enabled(w, step) && step.List?
    && w.tasks[step.task].kind.Refresh? && IsCurrentOperation(w.page, w.tasks[step.task])
  }

  ghost predicate NoRefresh(w: World, id: nat) {
    id <= w.page.refreshId && forall t :: t in w.tasks && w.tasks[t].kind.Refresh? ==> w.tasks[t].id != id
  }

  lemma NoRefreshStep(w: World, step: Step, id: nat)
    requires Enabled(w, step) && NoRefresh(w, id)
    ensures NoRefresh(After(w, step), id)
  {
    StepShape(w, step);
    hide Enabled, After;
  }

  lemma {:induction false} NoRefreshInRuns(w: World, steps: seq<Step>, id: nat)
    requires Legal(w, steps) && NoRefresh(w, id)
    ensures NoRefresh(Reached(w, steps), id)
    decreases |steps|
  {
    hide Enabled, After, NoRefresh;
    if steps != [] {
      NoRefreshStep(w, steps[0], id);
      NoRefreshInRuns(After(w, steps[0]), steps[1..], id);
    }
  }

  lemma ListEnds(w: World, step: Step)
    requires Enabled(w, step) && step.List?
    ensures After(w, step).tasks == w.tasks - {step.task} && w.page.refreshId <= After(w, step).page.refreshId
  {
    ListedGrows(w.page, w.tasks[step.task], step.payload);
    hide Listed;
  }

  lemma RenderedIsOver(w: World, step: Step)
    requires Inv(w.page, w.tasks) && Renders(w, step)
    ensures NoRefresh(After(w, step), w.tasks[step.task].id)
  {
    ListEnds(w, step);
    hide PageInv, BusyInv, TaskInv, After;
  }

  /** Of two refreshes that put their lists on the page, the one that does so later began later. */
  lemma RefreshesRenderInOrder(before: seq<Step>, first: Step, between: seq<Step>, second: Step)
    requires Legal(START, before) && Renders(Reached(START, before), first)
    requires var v := After(Reached(START, before), first); Legal(v, between) && Renders(Reached(v, between), second)
    ensures var w := Reached(START, before);
            var u := Reached(After(w, first), between);
            w.tasks[first.task].id < u.tasks[second.task].id
  {
    hide Legal, Reached, Inv, After;
    StartInv();
    RunKeepsInv(START, before);
    var w := Reached(START, before);
    var v := After(w, first);
    RenderedIsOver(w, first);
    NumbersGrow(w, first);
    NumbersGrowInRuns(v, between);
    NoRefreshInRuns(v, between, w.tasks[first.task].id);
    var u := Reached(v, between);
    assert CurrentId(w.page, Refresh) <= CurrentId(v.page, Refresh) <= CurrentId(u.page, Refresh);
  }
}
