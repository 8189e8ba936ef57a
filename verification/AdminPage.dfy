/**
 The administrator page's session state (`src/http/assets/admin.js`).  Each
 handler is cut at its awaits: a piece runs without interruption and tells what
 the handler waits for next.
 */
module AdminPage {
  import opened Wrappers

  const MAX_SAFE_INTEGER: int := 0x1f_ffff_ffff_ffff
  const MAX_TIME: int := 8_640_000_000_000_000

  datatype License = License(
    id: int, slug: string, title: string, sourceFilename: string, sha256: string, uploadedAtMs: int)

  datatype Kind = Unlock | Upload | Refresh | Delete

  datatype Target = ListAll | Publish | Remove(slug: string)

  /** What goes out: the bearer token and what is asked for. */
  datatype Request = Request(token: string, target: Target)

  /** What a suspended handler waits for. */
  datatype Stage =
    | Answering(sent: Option<Request>) // the response; nothing is sent when the request throws for want of a token
    | Reading                  // the error message of a response
    | Listing                  // the list of a response
    | Refreshing(refresh: nat) // the refresh it started

  datatype Task = Task(kind: Kind, epoch: nat, id: nat, stage: Stage)

  /** The response to a request, or its failure. */
  datatype Reply = Failed | Status(status: nat)

  datatype Page = Page(
    token: string,
    epoch: nat, unlockId: nat, uploadId: nat, refreshId: nat, deleteId: nat,
    shown: bool,               // the manager is shown and the token gate hidden, or the reverse
    list: seq<License>,
    unlockBusy: bool, uploadBusy: bool, listBusy: bool, deleteBusy: bool,
    pendingSlug: string,
    dialogOpen: bool,
    closing: nat               // close events of the dialog that have not fired yet
  )

  const LOCKED_VIEW := Page("", 0, 0, 0, 0, 0, false, [], false, false, false, false, "", false, 0)

  /** How a piece of a handler ends. */
  datatype Next = Ended | Await(stage: Stage) | AwaitRefresh(started: bool)

  datatype Turn = Turn(page: Page, next: Next)

  predicate Succeeded(status: nat) {
    200 <= status <= 299
  }

  predicate SafeInteger(n: int) {
    -MAX_SAFE_INTEGER <= n <= MAX_SAFE_INTEGER
  }

  predicate ValidSummary(license: License) {
    && SafeInteger(license.id) && license.slug != "" && license.title != "" && license.sourceFilename != ""
    && SafeInteger(license.uploadedAtMs) && -MAX_TIME <= license.uploadedAtMs <= MAX_TIME
  }

  /** The list a payload carries; none if it is not a list of summaries. */
  function ListFrom(payload: Option<seq<License>>): Option<seq<License>> {
    if payload.Some? && forall license :: license in payload.value ==> ValidSummary(license) then payload else None
  }

  function CurrentId(page: Page, kind: Kind): nat {
    match kind
    case Unlock => page.unlockId
    case Upload => page.uploadId
    case Refresh => page.refreshId
    case Delete => page.deleteId
  }

  predicate IsCurrentSession(page: Page, epoch: nat) {
    page.token != "" && epoch == page.epoch
  }

  predicate IsCurrentOperation(page: Page, task: Task) {
    task.epoch == page.epoch && task.id == CurrentId(page, task.kind)
  }

  predicate IsCurrentSessionOperation(page: Page, task: Task) {
    IsCurrentSession(page, task.epoch) && task.id == CurrentId(page, task.kind)
  }

  predicate Busy(page: Page, kind: Kind) {
    match kind
    case Unlock => page.unlockBusy
    case Upload => page.uploadBusy
    case Refresh => page.listBusy
    case Delete => page.deleteBusy
  }

  function WithBusy(page: Page, kind: Kind, busy: bool): Page {
    match kind
    case Unlock => page.(unlockBusy := busy)
    case Upload => page.(uploadBusy := busy)
    case Refresh => page.(listBusy := busy)
    case Delete => page.(deleteBusy := busy)
  }

  function Bumped(page: Page, kind: Kind): Page {
    match kind
    case Unlock => page.(epoch := page.epoch + 1, unlockId := page.unlockId + 1)
    case Upload => page.(uploadId := page.uploadId + 1)
    case Refresh => page.(refreshId := page.refreshId + 1)
    case Delete => page.(deleteId := page.deleteId + 1)
  }

  /** The page once an operation of a kind has begun. */
  function Begun(page: Page, kind: Kind): Page {
    WithBusy(Bumped(page, kind), kind, true)
  }

  /** The request an operation makes: to list, to publish, or to remove the license whose deletion is pending. */
  function RequestFor(page: Page, kind: Kind): Option<Request> {
    if page.token == "" then None
    else
      match kind
      case Unlock => Some(Request(page.token, ListAll))
      case Upload => Some(Request(page.token, Publish))
      case Refresh => Some(Request(page.token, ListAll))
      case Delete => Some(Request(page.token, Remove(page.pendingSlug)))
  }

  function NewTask(page: Page, kind: Kind): Task {
    Task(kind, page.epoch, CurrentId(page, kind), Answering(RequestFor(page, kind)))
  }

  function Closed(page: Page): Page {
    if page.dialogOpen then page.(dialogOpen := false, closing := page.closing + 1) else page
  }

  function Locked(page: Page): Page {
    Closed(page).(
      epoch := page.epoch + 1, unlockId := page.unlockId + 1, uploadId := page.uploadId + 1,
      refreshId := page.refreshId + 1, deleteId := page.deleteId + 1,
      token := "", shown := false, list := [], pendingSlug := "",
      unlockBusy := false, uploadBusy := false, listBusy := false, deleteBusy := false)
  }

  /** The end of a handler: its operation is over, if it is still the current one. */
  function Settled(page: Page, task: Task): Page {
    var current := if task.kind.Unlock? then IsCurrentOperation(page, task) else IsCurrentSessionOperation(page, task);
    if current then WithBusy(page, task.kind, false) else page
  }

  /** What an operation that did not succeed does to the page: a failed unlock drops the token. */
  function Rejected(page: Page, task: Task): Page {
    if IsCurrentSessionOperation(page, task) && task.kind.Unlock? then page.(token := "") else page
  }

  function EndTurn(page: Page, task: Task): Turn {
    Turn(Settled(page, task), Ended)
  }

  /** The handler goes on to a refresh, which begins at once if the session is current. */
  function RefreshTurn(page: Page, epoch: nat): Turn {
    if IsCurrentSession(page, epoch) then
      Turn(Begun(page, Refresh), AwaitRefresh(true))
    else
      Turn(page, AwaitRefresh(false))
  }

  /** A handler gets the response to its request. */
  function Answered(page: Page, task: Task, reply: Reply): Turn {
    if reply.Failed? then
      EndTurn(Rejected(page, task), task)
    else if !IsCurrentSessionOperation(page, task) then
      EndTurn(page, task)
    else if reply.status == 401 && !task.kind.Unlock? then
      EndTurn(Locked(page), task)
    else if !Succeeded(reply.status) then
      Turn(page, Await(Reading))
    else
      match task.kind
      case Unlock => Turn(page, Await(Listing))
      case Upload => RefreshTurn(page, task.epoch)
      case Refresh => Turn(page, Await(Listing))
      case Delete => RefreshTurn(Closed(page), task.epoch)
  }

  /** A handler gets the list it waited for, or an exception. */
  function Listed(page: Page, task: Task, payload: Option<seq<License>>): Turn {
    if ListFrom(payload).None? then
      EndTurn(Rejected(page, task), task)
    else if !IsCurrentSessionOperation(page, task) then
      EndTurn(page, task)
    else
      EndTurn(page.(list := payload.value, shown := page.shown || task.kind.Unlock?), task)
  }

  /** The browser's side: one page, its handlers as they run. */
  class AdminPage {
    var adminToken: string
    var sessionEpoch: nat
    var unlockOperationId: nat
    var uploadOperationId: nat
    var refreshOperationId: nat
    var deleteOperationId: nat
    var managerShown: bool
    var licenses: seq<License>
    var tokenFormBusy: bool
    var uploadFormBusy: bool
    var listBusy: bool
    var deleteBusy: bool
    var pendingDeleteSlug: string
    var dialogOpen: bool
    var closeEvents: nat

    function View(): Page
      reads this
    {
      Page(
        adminToken, sessionEpoch, unlockOperationId, uploadOperationId, refreshOperationId, deleteOperationId,
        managerShown, licenses, tokenFormBusy, uploadFormBusy, listBusy, deleteBusy,
        pendingDeleteSlug, dialogOpen, closeEvents)
    }

    constructor ()
      ensures View() == LOCKED_VIEW
    {
      adminToken, pendingDeleteSlug := "", "";
      sessionEpoch, unlockOperationId, uploadOperationId, refreshOperationId, deleteOperationId := 0, 0, 0, 0, 0;
      managerShown, licenses := false, [];
      tokenFormBusy, uploadFormBusy, listBusy, deleteBusy := false, false, false, false;
      dialogOpen, closeEvents := false, 0;
    }

    predicate InSession(epoch: nat)
      reads this
      ensures InSession(epoch) <==> IsCurrentSession(View(), epoch)
    {
      adminToken != "" && epoch == sessionEpoch
    }

    /** The request with the token of the moment; none is sent while there is no token. */
    function AuthenticatedRequest(target: Target): Option<Request>
      reads this
    {
      if adminToken == "" then None else Some(Request(adminToken, target))
    }

    method CloseDialog()
      modifies this
      ensures View() == Closed(old(View()))
    {
      if dialogOpen {
        dialogOpen := false;
        closeEvents := closeEvents + 1;
      }
    }

    method SupersedeAll()
      modifies this
      ensures var page := old(View());
              View() == page.(
                epoch := page.epoch + 1, unlockId := page.unlockId + 1, uploadId := page.uploadId + 1,
                refreshId := page.refreshId + 1, deleteId := page.deleteId + 1)
    {
      sessionEpoch := sessionEpoch + 1;
      unlockOperationId := unlockOperationId + 1;
      uploadOperationId := uploadOperationId + 1;
      refreshOperationId := refreshOperationId + 1;
      deleteOperationId := deleteOperationId + 1;
    }

    method SettleAll()
      modifies this
      ensures View() == old(View()).(unlockBusy := false, uploadBusy := false, listBusy := false, deleteBusy := false)
    {
      tokenFormBusy := false;
      uploadFormBusy := false;
      listBusy := false;
      deleteBusy := false;
    }

    method LockManager()
      modifies this
      ensures View() == Locked(old(View()))
    {
      SupersedeAll();
      adminToken := "";
      pendingDeleteSlug := "";
      SettleAll();
      CloseDialog();
      licenses := [];
      managerShown := false;
    }

    // unlockManager

    method UnlockManager(candidate: string) returns (task: Option<Task>)
      modifies this
      ensures candidate == "" ==> task.None? && View() == old(View())
      ensures candidate != "" ==>
                && View() == Begun(old(View()), Unlock).(token := candidate)
                && task == Some(NewTask(View(), Unlock))
    {
      if candidate == "" {
        return None;
      }
      sessionEpoch := sessionEpoch + 1;
      unlockOperationId := unlockOperationId + 1;
      adminToken := candidate;
      tokenFormBusy := true;
      task := Some(Task(Unlock, sessionEpoch, unlockOperationId, Answering(AuthenticatedRequest(ListAll))));
    }

    method EndUnlock(task: Task) returns (next: Next)
      requires task.kind == Unlock
      modifies this
      ensures Turn(View(), next) == EndTurn(old(View()), task)
    {
      if task.epoch == sessionEpoch && task.id == unlockOperationId {
        tokenFormBusy := false;
      }
      next := Ended;
    }

    method RejectUnlock(task: Task) returns (next: Next)
      requires task.kind == Unlock
      modifies this
      ensures Turn(View(), next) == EndTurn(Rejected(old(View()), task), task)
    {
      if InSession(task.epoch) && task.id == unlockOperationId {
        adminToken := "";
      }
      next := EndUnlock(task);
    }

    method UnlockAnswered(task: Task, reply: Reply) returns (next: Next)
      requires task.kind == Unlock
      modifies this
      ensures Turn(View(), next) == Answered(old(View()), task, reply)
    {
      if reply.Failed? {
        next := RejectUnlock(task);
      } else if !(InSession(task.epoch) && task.id == unlockOperationId) {
        next := EndUnlock(task);
      } else if !Succeeded(reply.status) {
        next := Await(Reading);
      } else {
        next := Await(Listing);
      }
    }

    method UnlockListed(task: Task, payload: Option<seq<License>>) returns (next: Next)
      requires task.kind == Unlock
      modifies this
      ensures Turn(View(), next) == Listed(old(View()), task, payload)
    {
      var list := ListFrom(payload);
      if list.None? {
        next := RejectUnlock(task);
      } else if !(InSession(task.epoch) && task.id == unlockOperationId) {
        next := EndUnlock(task);
      } else {
        licenses := list.value;
        managerShown := true;
        next := EndUnlock(task);
      }
    }

    // refreshLicenses

    method RefreshLicenses(epoch: nat) returns (task: Option<Task>)
      modifies this
      ensures View() == RefreshTurn(old(View()), epoch).page
      ensures task == if IsCurrentSession(old(View()), epoch) then Some(NewTask(View(), Refresh)) else None
    {
      if !InSession(epoch) {
        return None;
      }
      refreshOperationId := refreshOperationId + 1;
      listBusy := true;
      task := Some(Task(Refresh, epoch, refreshOperationId, Answering(AuthenticatedRequest(ListAll))));
    }

    method EndRefresh(task: Task) returns (next: Next)
      requires task.kind == Refresh
      modifies this
      ensures Turn(View(), next) == EndTurn(old(View()), task)
    {
      if InSession(task.epoch) && task.id == refreshOperationId {
        listBusy := false;
      }
      next := Ended;
    }

    method RefreshAnswered(task: Task, reply: Reply) returns (next: Next)
      requires task.kind == Refresh
      modifies this
      ensures Turn(View(), next) == Answered(old(View()), task, reply)
    {
      if reply.Failed? || !(InSession(task.epoch) && task.id == refreshOperationId) {
        next := EndRefresh(task);
      } else if reply.status == 401 {
        LockManager();
        next := EndRefresh(task);
      } else if !Succeeded(reply.status) {
        next := Await(Reading);
      } else {
        next := Await(Listing);
      }
    }

    method RefreshListed(task: Task, payload: Option<seq<License>>) returns (next: Next)
      requires task.kind == Refresh
      modifies this
      ensures Turn(View(), next) == Listed(old(View()), task, payload)
    {
      var list := ListFrom(payload);
      if list.Some? && InSession(task.epoch) && task.id == refreshOperationId {
        licenses := list.value;
      }
      next := EndRefresh(task);
    }

    // uploadLicense

    method UploadLicense(chosen: bool) returns (task: Option<Task>)
      modifies this
      ensures !chosen ==> task.None? && View() == old(View())
      ensures chosen ==> View() == Begun(old(View()), Upload) && task == Some(NewTask(View(), Upload))
    {
      if !chosen {
        return None;
      }
      uploadOperationId := uploadOperationId + 1;
      uploadFormBusy := true;
      task := Some(Task(Upload, sessionEpoch, uploadOperationId, Answering(AuthenticatedRequest(Publish))));
    }

    method EndUpload(task: Task) returns (next: Next)
      requires task.kind == Upload
      modifies this
      ensures Turn(View(), next) == EndTurn(old(View()), task)
    {
      if InSession(task.epoch) && task.id == uploadOperationId {
        uploadFormBusy := false;
      }
      next := Ended;
    }

    method UploadAnswered(task: Task, reply: Reply) returns (next: Next)
      requires task.kind == Upload
      modifies this
      ensures Turn(View(), next) == Answered(old(View()), task, reply)
    {
      if reply.Failed? || !(InSession(task.epoch) && task.id == uploadOperationId) {
        next := EndUpload(task);
      } else if reply.status == 401 {
        LockManager();
        next := EndUpload(task);
      } else if !Succeeded(reply.status) {
        next := Await(Reading);
      } else {
        var refresh := RefreshLicenses(task.epoch);
        next := AwaitRefresh(refresh.Some?);
      }
    }

    // deleteLicense

    method OpenDeleteDialog(slug: string)
      modifies this
      ensures View() == old(View()).(pendingSlug := slug, deleteBusy := false, dialogOpen := true)
    {
      pendingDeleteSlug := slug;
      deleteBusy := false;
      dialogOpen := true;
    }

    method FinishDeleteDialog()
      requires closeEvents > 0
      modifies this
      ensures View() == old(View()).(pendingSlug := "", deleteBusy := false, closing := old(View()).closing - 1)
    {
      closeEvents := closeEvents - 1;
      pendingDeleteSlug := "";
      deleteBusy := false;
    }

    method DeleteLicense() returns (task: Option<Task>)
      modifies this
      ensures var page := old(View());
              if page.pendingSlug == "" || page.token == "" then task.None? && View() == page
              else View() == Begun(page, Delete) && task == Some(NewTask(View(), Delete))
    {
      if pendingDeleteSlug == "" || adminToken == "" {
        return None;
      }
      var slug := pendingDeleteSlug;
      deleteOperationId := deleteOperationId + 1;
      deleteBusy := true;
      task := Some(Task(Delete, sessionEpoch, deleteOperationId, Answering(AuthenticatedRequest(Remove(slug)))));
    }

    method EndDelete(task: Task) returns (next: Next)
      requires task.kind == Delete
      modifies this
      ensures Turn(View(), next) == EndTurn(old(View()), task)
    {
      if InSession(task.epoch) && task.id == deleteOperationId {
        deleteBusy := false;
      }
      next := Ended;
    }

    method DeleteAnswered(task: Task, reply: Reply) returns (next: Next)
      requires task.kind == Delete
      modifies this
      ensures Turn(View(), next) == Answered(old(View()), task, reply)
    {
      if reply.Failed? || !(InSession(task.epoch) && task.id == deleteOperationId) {
        next := EndDelete(task);
      } else if reply.status == 401 {
        CloseDialog();
        LockManager();
        next := EndDelete(task);
      } else if !Succeeded(reply.status) {
        next := Await(Reading);
      } else {
        CloseDialog();
        var refresh := RefreshLicenses(task.epoch);
        next := AwaitRefresh(refresh.Some?);
      }
    }

    // Every handler, by the kind of its operation

    method ReplyArrives(task: Task, reply: Reply) returns (next: Next)
      modifies this
      ensures Turn(View(), next) == Answered(old(View()), task, reply)
    {
      match task.kind
      case Unlock => next := UnlockAnswered(task, reply);
      case Upload => next := UploadAnswered(task, reply);
      case Refresh => next := RefreshAnswered(task, reply);
      case Delete => next := DeleteAnswered(task, reply);
    }

    method End(task: Task) returns (next: Next)
      modifies this
      ensures Turn(View(), next) == EndTurn(old(View()), task)
    {
      match task.kind
      case Unlock => next := EndUnlock(task);
      case Upload => next := EndUpload(task);
      case Refresh => next := EndRefresh(task);
      case Delete => next := EndDelete(task);
    }

    /** The message of a failed response has been read. */
    method MessageArrives(task: Task) returns (next: Next)
      modifies this
      ensures Turn(View(), next) == EndTurn(Rejected(old(View()), task), task)
    {
      if task.kind.Unlock? {
        next := RejectUnlock(task);
      } else {
        next := End(task);
      }
    }

    method ListArrives(task: Task, payload: Option<seq<License>>) returns (next: Next)
      requires task.kind.Unlock? || task.kind.Refresh?
      modifies this
      ensures Turn(View(), next) == Listed(old(View()), task, payload)
    {
      if task.kind.Unlock? {
        next := UnlockListed(task, payload);
      } else {
        next := RefreshListed(task, payload);
      }
    }
  }
}
