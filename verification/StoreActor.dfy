/**
 The actor around the store (`src/store.rs`): callers, the bounded queue, the two
 shared flags, recovery, shutdown and the health guard, each step as fine as the
 loads and stores other threads can see.
 */
module StoreActor {
  import opened Codec
  import opened Domain
  import opened LicenseTable
  import opened Rnmdb
  import opened StoreRuns
  import opened StoreSpec
  import opened Wrappers

  datatype Item = Call(caller: nat) | ShutdownMark

  datatype CallerPc =
    | SawAlive                     // `alive` was loaded as true; `try_send` comes next
    | Rejected(error: StoreError)  // `send` returned the error
    | Waiting                      // accepted; the answer is awaited
    | Replied(answer: Answer)      // the actor sent this answer
    | Dropped                      // the response channel was dropped: the caller sees Unavailable

  datatype Caller = Caller(command: Command, pc: CallerPc)

  datatype ActorPc =
    | Receiving                             // in `blocking_recv`
    | Executing(item: Item)                 // in `execute`
    | Faulted(caller: nat, pre: Core)       // the transaction failed; `recover` begins
    | Unready(caller: nat, pre: Core)       // `ready` was stored as false
    | Emptied(caller: nat, pre: Core)       // the old state was dropped
    | Reloaded(caller: nat, answer: Answer) // the new state is in place; `ready` comes next
    | Broken(caller: nat)                   // `open_database` failed; `alive` comes next
    | Replying(caller: nat, answer: Answer)
    | Deciding(stop: bool)                  // the condition of the loop
    | Leaving                               // the loop was left; the core drops first
    | GuardReady                            // the health guard stores `ready`
    | GuardAlive                            // and then `alive`
    | Closing                               // the receiver closes its channel
    | Draining                              // and drops what the queue still holds
    | Ended

  /** How far `shutdown` has come; its future may be dropped while it waits for a slot. */
  datatype ShutdownPc = NotAsked | Asked | Sent | Joined | Abandoned

  /** The queue, and what happened to its items so far, in order. */
  datatype Mail = Mail(
    queue: seq<Item>,     // accepted and not yet taken
    accepted: seq<Item>,  // accepted by the channel
    started: seq<Item>,   // taken by the actor
    drained: seq<Item>,   // dropped with the queue
    resolved: seq<nat>    // callers that got their answer, or lost it
  )

  datatype State = State(
    capacity: nat,
    closed: bool,
    ready: bool,
    alive: bool,
    core: Core,
    actor: ActorPc,
    shutdown: ShutdownPc,
    sendersGone: bool,
    callers: map<nat, Caller>,
    mail: Mail,
    history: seq<Event>   // the store's own run
  )

  /** Steps of callers and of the holder of `StoreTask`. */
  datatype OutsideStep =
    | LoadAlive(caller: nat, command: Command)
    | TrySend(caller: nat, full: bool)
    | AskShutdown
    | SendShutdown
    | AbandonShutdown
    | JoinActor
    | DropSenders

  /** Steps of the actor loop. */
  datatype LoopStep =
    | Receive
    | ReceiveNone
    | Answer(answer: Answer, post: Core)
    | TakeShutdown
    | Fault(table: Table)
    | StoreUnready
    | DropState
    | Reload(works: bool)
    | StoreReady
    | StoreDead
    | Reply
    | Decide

  /** Steps of the actor thread after its loop. */
  datatype ExitStep =
    | DropCore
    | GuardStoreReady
    | GuardStoreAlive
    | CloseQueue
    | DrainOne
    | End

  datatype Step = Outside(outside: OutsideStep) | Loop(loop: LoopStep) | Exit(exit: ExitStep)

  ghost predicate Initial(sha: Sha256, s: State) {
    && s.capacity > 0
    && Inv(sha, s.core) && s.core.memory.Some?
    && s == State(s.capacity, false, true, true, s.core, Receiving, NotAsked, false, map[], Mail([], [], [], [], []), [])
  }

  predicate Pending(callers: map<nat, Caller>, caller: nat, pc: CallerPc) {
    caller in callers && callers[caller].pc == pc
  }

  function WithPc(callers: map<nat, Caller>, caller: nat, pc: CallerPc): map<nat, Caller>
    requires caller in callers
  {
    callers[caller := callers[caller].(pc := pc)]
  }

  function Push(mail: Mail, item: Item): Mail {
    mail.(queue := mail.queue + [item], accepted := mail.accepted + [item])
  }

  /** The command the actor is executing. */
  predicate Runs(s: State) {
    s.actor.Executing? && s.actor.item.Call? && s.actor.item.caller in s.callers
  }

  function Running(s: State): Command
    requires Runs(s)
  {
    s.callers[s.actor.item.caller].command
  }

  ghost predicate OutsideEnabled(sha: Sha256, s: State, step: OutsideStep) {
    match step
    case LoadAlive(c, command) => c !in s.callers && Proper(sha, command) && !s.sendersGone
    case TrySend(c, full) =>
      // A slot that comes free while `shutdown` waits for one is kept for it.
      && Pending(s.callers, c, SawAlive)
      && (if full then |s.mail.queue| >= s.capacity || s.shutdown == Asked
          else s.closed || |s.mail.queue| < s.capacity)
    case AskShutdown => s.shutdown == NotAsked && !s.sendersGone
    case SendShutdown => s.shutdown == Asked && (s.closed || |s.mail.queue| < s.capacity)
    case AbandonShutdown => s.shutdown == Asked
    case JoinActor => s.shutdown == Sent && s.actor == Ended
    case DropSenders => s.shutdown != Asked && forall c :: c in s.callers ==> s.callers[c].pc != SawAlive
  }

  ghost function AfterOutside(sha: Sha256, s: State, step: OutsideStep): State
    requires OutsideEnabled(sha, s, step)
  {
    match step
    case LoadAlive(c, command) =>
      s.(callers := s.callers[c := Caller(command, if s.alive then SawAlive else Rejected(Unavailable))])
    case TrySend(c, full) =>
      if s.closed then s.(callers := WithPc(s.callers, c, Rejected(Unavailable)))
      else if full then s.(callers := WithPc(s.callers, c, Rejected(QueueFull)))
      else s.(callers := WithPc(s.callers, c, Waiting), mail := Push(s.mail, Call(c)))
    case AskShutdown => s.(ready := false, shutdown := Asked)
    case SendShutdown =>
      if s.closed then s.(shutdown := Sent) else s.(shutdown := Sent, mail := Push(s.mail, ShutdownMark))
    case AbandonShutdown => s.(shutdown := Abandoned)
    case JoinActor => s.(shutdown := Joined)
    case DropSenders => s.(sendersGone := true)
  }

  ghost predicate LoopEnabled(sha: Sha256, s: State, step: LoopStep) {
    match step
    case Receive => s.actor == Receiving && s.mail.queue != []
    case ReceiveNone => s.actor == Receiving && s.mail.queue == [] && s.sendersGone
    case Answer(answer, post) => Runs(s) && Direct(s.core, Running(s), answer, post)
    case TakeShutdown => s.actor == Executing(ShutdownMark)
    case Fault(table) => Runs(s) && Interrupted(s.core, Running(s), table)
    case StoreUnready => s.actor.Faulted?
    case DropState => s.actor.Unready?
    case Reload(works) =>
      && s.actor.Emptied? && s.actor.caller in s.callers
      && s.actor.pre.memory.Some? && NeedsTransaction(s.actor.pre.memory.value, s.callers[s.actor.caller].command)
      && (works ==> Accepted(sha, s.core.table))
    case StoreReady => s.actor.Reloaded?
    case StoreDead => s.actor.Broken?
    case Reply => s.actor.Replying? && s.actor.caller in s.callers
    case Decide => s.actor.Deciding?
  }

  ghost function AfterLoop(sha: Sha256, s: State, step: LoopStep): State
    requires LoopEnabled(sha, s, step)
  {
    match step
    case Receive =>
      var item := s.mail.queue[0];
      s.(actor := Executing(item), mail := s.mail.(queue := s.mail.queue[1..], started := s.mail.started + [item]))
    case ReceiveNone => s.(actor := Leaving)
    case Answer(answer, post) =>
      s.(core := post, actor := Replying(s.actor.item.caller, answer),
         history := s.history + [Executed(Running(s), answer, post)])
    case TakeShutdown => s.(actor := Deciding(true))
    case Fault(table) =>
      s.(core := s.core.(table := table), actor := Faulted(s.actor.item.caller, s.core))
    case StoreUnready => s.(ready := false, actor := Unready(s.actor.caller, s.actor.pre))
    case DropState => s.(core := s.core.(memory := None), actor := Emptied(s.actor.caller, s.actor.pre))
    case Reload(works) =>
      var command := s.callers[s.actor.caller].command;
      if works then
        var post := Core(s.core.table, Some(Loaded(sha, s.core.table)));
        var answer := Settled(s.actor.pre, command, post.memory.value);
        s.(core := post, actor := Reloaded(s.actor.caller, answer),
           history := s.history + [Executed(command, answer, post)])
      else
        s.(actor := Broken(s.actor.caller),
           history := s.history + [Executed(command, Document(Err(StorageUnavailable)), s.core)])
    case StoreReady => s.(ready := true, actor := Replying(s.actor.caller, s.actor.answer))
    case StoreDead =>
      s.(alive := false, actor := Replying(s.actor.caller, Document(Err(StorageUnavailable))))
    case Reply =>
      var c := s.actor.caller;
      s.(callers := WithPc(s.callers, c, Replied(s.actor.answer)), actor := Deciding(false),
         mail := s.mail.(resolved := s.mail.resolved + [c]))
    case Decide => s.(actor := if s.actor.stop || !s.alive then Leaving else Receiving)
  }

  predicate ExitEnabled(s: State, step: ExitStep) {
    match step
    case DropCore => s.actor == Leaving
    case GuardStoreReady => s.actor == GuardReady
    case GuardStoreAlive => s.actor == GuardAlive
    case CloseQueue => s.actor == Closing
    case DrainOne => s.actor == Draining && s.mail.queue != []
    case End => s.actor == Draining && s.mail.queue == []
  }

  function AfterExit(s: State, step: ExitStep): State
    requires ExitEnabled(s, step)
  {
    match step
    case DropCore => s.(core := s.core.(memory := None), actor := GuardReady)
    case GuardStoreReady => s.(ready := false, actor := GuardAlive)
    case GuardStoreAlive => s.(alive := false, actor := Closing)
    case CloseQueue => s.(closed := true, actor := Draining)
    case DrainOne =>
      var item := s.mail.queue[0];
      var rest := s.mail.(queue := s.mail.queue[1..], drained := s.mail.drained + [item]);
      if item.Call? && item.caller in s.callers then
        s.(callers := WithPc(s.callers, item.caller, Dropped), mail := rest.(resolved := rest.resolved + [item.caller]))
      else
        s.(mail := rest)
    case End => s.(actor := Ended)
  }

  ghost predicate Enabled(sha: Sha256, s: State, step: Step) {
    match step
    case Outside(o) => OutsideEnabled(sha, s, o)
    case Loop(l) => LoopEnabled(sha, s, l)
    case Exit(e) => ExitEnabled(s, e)
  }

  ghost function After(sha: Sha256, s: State, step: Step): State
    requires Enabled(sha, s, step)
  {
    match step
    case Outside(o) => AfterOutside(sha, s, o)
    case Loop(l) => AfterLoop(sha, s, l)
    case Exit(e) => AfterExit(s, e)
  }

  ghost predicate Legal(sha: Sha256, s: State, steps: seq<Step>)
    decreases |steps|
  {
    steps != [] ==> Enabled(sha, s, steps[0]) && Legal(sha, After(sha, s, steps[0]), steps[1..])
  }

  ghost function Reached(sha: Sha256, s: State, steps: seq<Step>): State
    requires Legal(sha, s, steps)
    decreases |steps|
  {
    if steps == [] then s else Reached(sha, After(sha, s, steps[0]), steps[1..])
  }

  // The flags and the database state

  /** The actor thread still holds the core. */
  predicate OwnsCore(a: ActorPc) {
    !(a in {GuardReady, GuardAlive, Closing, Draining, Ended})
  }

  ghost predicate FlagsInv(s: State) {
    var a := s.actor;
    // Commands start only with the state open, and `transaction` only runs then.
    && (a.Receiving? || a.Executing? || a.Faulted? || a.Unready? ==> s.alive && s.core.memory.Some?)
    && (a.Emptied? || a.Reloaded? || a.Broken? ==> s.alive)
    && (a.Emptied? || a.Broken? ==> s.core.memory.None?)
    && (a.Reloaded? ==> s.core.memory.Some?)
    && (a.Unready? || a.Emptied? || a.Reloaded? || a.Broken? ==> !s.ready)
    && (a.Replying? || a.Deciding? ==> (s.alive <==> s.core.memory.Some?))
    && (OwnsCore(a) && s.ready ==> s.core.memory.Some?)
    && (a in {GuardAlive, Closing, Draining, Ended} ==> !s.ready)
    && (a in {Closing, Draining, Ended} ==> !s.alive)
    && (s.closed <==> a in {Draining, Ended})
    && (a == Ended ==> s.mail.queue == [])
  }

  /** A command answered without a fault leaves an open state open. */
  lemma DirectKeepsOpen(pre: Core, command: Command, answer: Answer, post: Core)
    requires Direct(pre, command, answer, post)
    ensures post.memory.Some? <==> pre.memory.Some?
  {
  }

  lemma FlagsLoop(sha: Sha256, s: State, step: LoopStep)
    requires FlagsInv(s) && LoopEnabled(sha, s, step)
    ensures FlagsInv(AfterLoop(sha, s, step))
    ensures AfterLoop(sha, s, step).alive ==> s.alive
  {
    hide Accepted, Loaded, Settled, Interrupted, Proper, NeedsTransaction, Direct, WithPc;
    if step.Answer? {
      DirectKeepsOpen(s.core, Running(s), step.answer, step.post);
    }
  }

  lemma FlagsOutside(sha: Sha256, s: State, step: OutsideStep)
    requires FlagsInv(s) && OutsideEnabled(sha, s, step)
    ensures FlagsInv(AfterOutside(sha, s, step)) && AfterOutside(sha, s, step).alive == s.alive
  {
    hide Proper, WithPc, Push, Pending;
  }

  lemma FlagsExit(s: State, step: ExitStep)
    requires FlagsInv(s) && ExitEnabled(s, step)
    ensures FlagsInv(AfterExit(s, step))
    ensures AfterExit(s, step).alive ==> s.alive
  {
    hide WithPc;
  }

  lemma FlagsStep(sha: Sha256, s: State, step: Step)
    requires FlagsInv(s) && Enabled(sha, s, step)
    ensures FlagsInv(After(sha, s, step))
    ensures After(sha, s, step).alive ==> s.alive
  {
    hide FlagsInv, AfterOutside, AfterLoop, AfterExit;
    match step
    case Outside(o) => FlagsOutside(sha, s, o);
    case Loop(l) => FlagsLoop(sha, s, l);
    case Exit(e) => FlagsExit(s, e);
  }

  // The queue and the answers

  predicate NoDuplicates<T(==)>(xs: seq<T>) {
    forall i, j :: 0 <= i < j < |xs| ==> xs[i] != xs[j]
  }

  predicate Settlement(pc: CallerPc) {
    pc.Replied? || pc.Dropped?
  }

  /** The caller whose command the actor has in hand. */
  function InHand(a: ActorPc): Option<nat> {
    if a.Executing? then
      if a.item.Call? then Some(a.item.caller) else None
    else if a.Faulted? || a.Unready? || a.Emptied? || a.Reloaded? || a.Broken? || a.Replying? then
      Some(a.caller)
    else
      None
  }

  predicate LoopLeft(a: ActorPc) {
    a == Leaving || !OwnsCore(a)
  }

  /** Items are taken, or dropped with the queue, in the order of acceptance and once each. */
  ghost predicate MailInv(m: Mail) {
    && m.accepted == m.started + m.drained + m.queue
    && NoDuplicates(m.accepted)
    && NoDuplicates(m.resolved)
  }

  /** Exactly the callers whose command was accepted wait, were answered, or lost their answer. */
  ghost predicate CallersInv(m: Mail, callers: map<nat, Caller>, hand: Option<nat>) {
    && (hand.Some? ==> Call(hand.value) in m.started && Pending(callers, hand.value, Waiting))
    && (forall c :: Call(c) in m.accepted ==> c in callers)
    && (forall c :: c in callers && (callers[c].pc.SawAlive? || callers[c].pc.Rejected?) ==> Call(c) !in m.accepted)
    && (forall c :: c in callers && callers[c].pc.Waiting? ==> Call(c) in m.queue || hand == Some(c))
    && (forall c :: c in callers && callers[c].pc.Replied? ==> Call(c) in m.started && hand != Some(c))
    && (forall c :: c in callers && callers[c].pc.Dropped? ==> Call(c) in m.drained)
    && (forall c :: c in m.resolved <==> c in callers && Settlement(callers[c].pc))
  }

  /** Nothing is taken after the shutdown mark, which is accepted at most once. */
  ghost predicate MarkInv(m: Mail, a: ActorPc, shutdown: ShutdownPc, closed: bool) {
    && (ShutdownMark in m.accepted ==> shutdown in {Sent, Joined})
    && (m.drained != [] ==> closed)
    && (forall i :: 0 <= i < |m.started| - 1 ==> m.started[i] != ShutdownMark)
    && (m.started != [] && m.started[|m.started| - 1] == ShutdownMark ==>
          a == Executing(ShutdownMark) || a == Deciding(true) || LoopLeft(a))
  }

  lemma AppendedIsNew<T>(xs: seq<T>, x: T)
    requires NoDuplicates(xs) && x !in xs
    ensures NoDuplicates(xs + [x])
  {
  }

  lemma AppendedMembers<T>(xs: seq<T>, x: T)
    ensures forall y :: y in xs + [x] <==> y in xs || y == x
  {
  }

  /** Moving the head of the queue to the end of what was taken before it. */
  lemma HeadMoves<T>(before: seq<T>, queue: seq<T>)
    requires queue != []
    ensures (before + [queue[0]]) + queue[1..] == before + queue
    ensures queue[0] in queue && forall x :: x in queue <==> x == queue[0] || x in queue[1..]
  {
    assert queue == [queue[0]] + queue[1..];
  }

  /** No item is in two of the three parts of the accepted items. */
  lemma PartsAreDisjoint(m: Mail)
    requires MailInv(m)
    ensures forall x :: x in m.accepted <==> x in m.started || x in m.drained || x in m.queue
    ensures forall x :: x in m.started ==> x !in m.drained && x !in m.queue
    ensures forall x :: x in m.drained ==> x !in m.queue
    ensures m.queue != [] ==> m.queue[0] !in m.queue[1..]
  {
    var n, k := |m.started|, |m.started| + |m.drained|;
    assert forall i :: 0 <= i < n ==> m.started[i] == m.accepted[i];
    assert forall i :: 0 <= i < |m.drained| ==> m.drained[i] == m.accepted[n + i];
    assert forall i :: 0 <= i < |m.queue| ==> m.queue[i] == m.accepted[k + i];
  }

  lemma PushKeepsMail(m: Mail, item: Item)
    requires MailInv(m) && item !in m.accepted
    ensures MailInv(Push(m, item))
  {
    AppendedIsNew(m.accepted, item);
    assert m.accepted + [item] == m.started + m.drained + (m.queue + [item]);
  }

  lemma AcceptedCaller(m: Mail, callers: map<nat, Caller>, hand: Option<nat>, c: nat)
    requires MailInv(m) && CallersInv(m, callers, hand) && Pending(callers, c, SawAlive)
    ensures MailInv(Push(m, Call(c))) && CallersInv(Push(m, Call(c)), WithPc(callers, c, Waiting), hand)
  {
    PushKeepsMail(m, Call(c));
    AppendedMembers(m.accepted, Call(c));
    AppendedMembers(m.queue, Call(c));
    PartsAreDisjoint(m);
  }

  lemma TakenItem(m: Mail, callers: map<nat, Caller>)
    requires MailInv(m) && CallersInv(m, callers, None) && m.queue != [] && m.drained == []
    ensures var item := m.queue[0];
            var t := m.(queue := m.queue[1..], started := m.started + [item]);
            MailInv(t) && CallersInv(t, callers, if item.Call? then Some(item.caller) else None)
  {
    HeadMoves(m.started, m.queue);
    AppendedMembers(m.started, m.queue[0]);
    PartsAreDisjoint(m);
    var t := m.(queue := m.queue[1..], started := m.started + [m.queue[0]]);
    assert m.accepted == m.started + m.queue;
    assert t.accepted == t.started + t.queue == t.started + t.drained + t.queue;
  }

  lemma RepliedCaller(m: Mail, callers: map<nat, Caller>, c: nat, answer: Answer)
    requires MailInv(m) && CallersInv(m, callers, Some(c)) && c in callers
    requires callers[c].pc.Waiting?
    ensures var t := m.(resolved := m.resolved + [c]);
            MailInv(t) && CallersInv(t, WithPc(callers, c, Replied(answer)), None)
  {
    AppendedIsNew(m.resolved, c);
    AppendedMembers(m.resolved, c);
    PartsAreDisjoint(m);
  }

  lemma DroppedMail(m: Mail)
    requires MailInv(m) && m.queue != []
    ensures MailInv(m.(queue := m.queue[1..], drained := m.drained + [m.queue[0]]))
  {
    HeadMoves(m.started + m.drained, m.queue);
    assert m.started + (m.drained + [m.queue[0]]) == m.started + m.drained + [m.queue[0]];
  }

  /** The caller of an item that is dropped with the queue. */
  lemma DroppedCaller(m: Mail, callers: map<nat, Caller>, c: nat)
    requires MailInv(m) && CallersInv(m, callers, None) && m.queue != [] && m.queue[0] == Call(c)
    ensures c in callers && c !in m.resolved
    ensures var t := m.(queue := m.queue[1..], drained := m.drained + [Call(c)], resolved := m.resolved + [c]);
            CallersInv(t, WithPc(callers, c, Dropped), None)
  {
    HeadMoves(m.drained, m.queue);
    AppendedMembers(m.drained, m.queue[0]);
    AppendedMembers(m.resolved, c);
    PartsAreDisjoint(m);
    hide MailInv;
  }

  lemma DroppedMark(m: Mail, callers: map<nat, Caller>)
    requires CallersInv(m, callers, None) && m.queue != [] && m.queue[0] == ShutdownMark
    ensures CallersInv(m.(queue := m.queue[1..], drained := m.drained + [ShutdownMark]), callers, None)
  {
    HeadMoves(m.drained, m.queue);
    AppendedMembers(m.drained, m.queue[0]);
  }

  lemma DroppedItem(m: Mail, callers: map<nat, Caller>)
    requires MailInv(m) && CallersInv(m, callers, None) && m.queue != []
    ensures var item := m.queue[0];
            var t := m.(queue := m.queue[1..], drained := m.drained + [item]);
            if item.Call? && item.caller in callers then
              var u := t.(resolved := t.resolved + [item.caller]);
              MailInv(u) && CallersInv(u, WithPc(callers, item.caller, Dropped), None)
            else
              MailInv(t) && CallersInv(t, callers, None)
  {
    hide CallersInv;
    DroppedMail(m);
    if m.queue[0].Call? {
      DroppedCaller(m, callers, m.queue[0].caller);
      AppendedIsNew(m.resolved, m.queue[0].caller);
    } else {
      DroppedMark(m, callers);
    }
  }

  ghost predicate TrafficInv(s: State) {
    && MailInv(s.mail)
    && CallersInv(s.mail, s.callers, InHand(s.actor))
    && MarkInv(s.mail, s.actor, s.shutdown, s.closed)
  }

  lemma NewCaller(m: Mail, callers: map<nat, Caller>, hand: Option<nat>, c: nat, command: Command, pc: CallerPc)
    requires CallersInv(m, callers, hand) && c !in callers && (pc.SawAlive? || pc.Rejected?)
    ensures CallersInv(m, callers[c := Caller(command, pc)], hand)
  {
  }

  lemma RejectedCaller(m: Mail, callers: map<nat, Caller>, hand: Option<nat>, c: nat, error: StoreError)
    requires CallersInv(m, callers, hand) && Pending(callers, c, SawAlive)
    ensures CallersInv(m, WithPc(callers, c, Rejected(error)), hand)
  {
  }

  lemma AcceptedMark(m: Mail, callers: map<nat, Caller>, hand: Option<nat>)
    requires MailInv(m) && CallersInv(m, callers, hand) && ShutdownMark !in m.accepted
    ensures MailInv(Push(m, ShutdownMark)) && CallersInv(Push(m, ShutdownMark), callers, hand)
  {
    PushKeepsMail(m, ShutdownMark);
    AppendedMembers(m.accepted, ShutdownMark);
    AppendedMembers(m.queue, ShutdownMark);
  }

  lemma PushedCall(m: Mail, a: ActorPc, shutdown: ShutdownPc, closed: bool, c: nat)
    requires MarkInv(m, a, shutdown, closed)
    ensures MarkInv(Push(m, Call(c)), a, shutdown, closed)
  {
    AppendedMembers(m.accepted, Call(c));
  }

  lemma PushedMark(m: Mail, a: ActorPc, shutdown: ShutdownPc, closed: bool)
    requires MarkInv(m, a, shutdown, closed)
    ensures MarkInv(Push(m, ShutdownMark), a, Sent, closed)
  {
  }

  lemma MarkFollowsShutdown(m: Mail, a: ActorPc, shutdown: ShutdownPc, closed: bool, later: ShutdownPc)
    requires MarkInv(m, a, shutdown, closed)
    ensures shutdown in {Sent, Joined} ==> later in {Sent, Joined} ==> MarkInv(m, a, later, closed)
    ensures shutdown !in {Sent, Joined} ==> ShutdownMark !in m.accepted && MarkInv(m, a, later, closed)
  {
  }

  lemma TrafficOutside(sha: Sha256, s: State, step: OutsideStep)
    requires TrafficInv(s) && OutsideEnabled(sha, s, step)
    ensures TrafficInv(AfterOutside(sha, s, step))
  {
    hide Proper, MailInv, CallersInv, MarkInv, WithPc, InHand, Push;
    var m, a := s.mail, s.actor;
    match step
    case LoadAlive(c, command) =>
      NewCaller(m, s.callers, InHand(a), c, command, if s.alive then SawAlive else Rejected(Unavailable));
    case TrySend(c, _) =>
      RejectedCaller(m, s.callers, InHand(a), c, Unavailable);
      RejectedCaller(m, s.callers, InHand(a), c, QueueFull);
      AcceptedCaller(m, s.callers, InHand(a), c);
      PushedCall(m, a, s.shutdown, s.closed, c);
    case SendShutdown =>
      MarkFollowsShutdown(m, a, s.shutdown, s.closed, Sent);
      AcceptedMark(m, s.callers, InHand(a));
      PushedMark(m, a, s.shutdown, s.closed);
    case AskShutdown =>
      MarkFollowsShutdown(m, a, s.shutdown, s.closed, Asked);
    case AbandonShutdown =>
      MarkFollowsShutdown(m, a, s.shutdown, s.closed, Abandoned);
    case JoinActor =>
      MarkFollowsShutdown(m, a, s.shutdown, s.closed, Joined);
    case DropSenders =>
  }

  /** The loop steps that neither take an item nor answer one. */
  predicate Inner(step: LoopStep) {
    !step.Receive? && !step.Reply?
  }

  lemma InnerKeepsMail(sha: Sha256, s: State, step: LoopStep)
    requires LoopEnabled(sha, s, step) && Inner(step)
    ensures var t := AfterLoop(sha, s, step);
            t.mail == s.mail && t.callers == s.callers && t.shutdown == s.shutdown && t.closed == s.closed
  {
    hide Accepted, Loaded, Settled, Interrupted, NeedsTransaction, Direct;
  }

  lemma InnerKeepsHand(sha: Sha256, s: State, step: LoopStep)
    requires LoopEnabled(sha, s, step) && Inner(step)
    ensures InHand(AfterLoop(sha, s, step).actor) == InHand(s.actor)
  {
    hide Accepted, Loaded, Settled, Interrupted, NeedsTransaction, Direct, WithPc;
  }

  lemma InnerKeepsMark(sha: Sha256, s: State, step: LoopStep)
    requires LoopEnabled(sha, s, step) && Inner(step)
    ensures var t := AfterLoop(sha, s, step);
            && (s.actor == Executing(ShutdownMark) ==> t.actor == Deciding(true))
            && (s.actor == Deciding(true) || LoopLeft(s.actor) ==> LoopLeft(t.actor))
  {
    hide Accepted, Loaded, Settled, Interrupted, NeedsTransaction, Direct, WithPc, InHand;
  }

  lemma TakenMark(m: Mail, shutdown: ShutdownPc, closed: bool)
    requires MarkInv(m, Receiving, shutdown, closed) && m.queue != []
    ensures var t := m.(queue := m.queue[1..], started := m.started + [m.queue[0]]);
            MarkInv(t, Executing(m.queue[0]), shutdown, closed)
  {
  }

  lemma MarkFollowsActor(m: Mail, a: ActorPc, shutdown: ShutdownPc, closed: bool, later: ActorPc, resolved: seq<nat>)
    requires MarkInv(m, a, shutdown, closed)
    requires a == Executing(ShutdownMark) ==> later == Deciding(true)
    requires a == Deciding(true) || LoopLeft(a) ==> LoopLeft(later)
    ensures MarkInv(m.(resolved := resolved), later, shutdown, closed)
  {
  }

  lemma TrafficReceive(sha: Sha256, s: State)
    requires TrafficInv(s) && FlagsInv(s) && LoopEnabled(sha, s, Receive)
    ensures TrafficInv(AfterLoop(sha, s, Receive))
  {
    assert s.mail.drained == [];
    hide CallersInv, MailInv, MarkInv;
    TakenItem(s.mail, s.callers);
    TakenMark(s.mail, s.shutdown, s.closed);
  }

  lemma TrafficReply(sha: Sha256, s: State)
    requires TrafficInv(s) && LoopEnabled(sha, s, Reply)
    ensures TrafficInv(AfterLoop(sha, s, Reply))
  {
    hide CallersInv, MailInv, MarkInv, WithPc;
    HandIsWaiting(s);
    RepliedCaller(s.mail, s.callers, s.actor.caller, s.actor.answer);
    MarkFollowsActor(s.mail, s.actor, s.shutdown, s.closed, Deciding(false), s.mail.resolved + [s.actor.caller]);
  }

  lemma TrafficLoop(sha: Sha256, s: State, step: LoopStep)
    requires TrafficInv(s) && FlagsInv(s) && LoopEnabled(sha, s, step)
    ensures TrafficInv(AfterLoop(sha, s, step))
  {
    hide CallersInv, MailInv, MarkInv, LoopEnabled, AfterLoop, InHand, LoopLeft, FlagsInv;
    if Inner(step) {
      var t := AfterLoop(sha, s, step);
      InnerKeepsMail(sha, s, step);
      InnerKeepsHand(sha, s, step);
      InnerKeepsMark(sha, s, step);
      MarkFollowsActor(s.mail, s.actor, s.shutdown, s.closed, t.actor, s.mail.resolved);
      assert s.mail.(resolved := s.mail.resolved) == s.mail;
    } else if step.Receive? {
      TrafficReceive(sha, s);
    } else {
      TrafficReply(sha, s);
    }
  }

  lemma HandIsWaiting(s: State)
    requires CallersInv(s.mail, s.callers, InHand(s.actor)) && InHand(s.actor).Some?
    ensures Pending(s.callers, InHand(s.actor).value, Waiting)
  {
  }

  lemma TrafficExit(s: State, step: ExitStep)
    requires TrafficInv(s) && FlagsInv(s) && ExitEnabled(s, step)
    ensures TrafficInv(AfterExit(s, step))
  {
    hide CallersInv, MailInv, WithPc;
    if step.DrainOne? {
      DroppedItem(s.mail, s.callers);
    }
  }

  lemma TrafficStep(sha: Sha256, s: State, step: Step)
    requires TrafficInv(s) && FlagsInv(s) && Enabled(sha, s, step)
    ensures TrafficInv(After(sha, s, step))
  {
    hide TrafficInv, FlagsInv, AfterOutside, AfterLoop, AfterExit;
    match step
    case Outside(o) => TrafficOutside(sha, s, o);
    case Loop(l) => TrafficLoop(sha, s, l);
    case Exit(e) => TrafficExit(s, e);
  }

  // The answers and the store's own run

  /** The answer the actor has settled on and not yet sent. */
  function AnswerInHand(a: ActorPc): Option<Answer> {
    if a.Reloaded? || a.Replying? then Some(a.answer)
    else if a.Broken? then Some(Document(Err(StorageUnavailable)))
    else None
  }

  /** The item in hand is not in the store's run yet. */
  predicate Unrecorded(a: ActorPc) {
    a.Executing? || a.Faulted? || a.Unready? || a.Emptied?
  }

  /** The event is the item's command with the answer its caller got, or is about to get. */
  ghost predicate Records(e: Event, item: Item, callers: map<nat, Caller>, a: ActorPc) {
    && e.Executed? && item.Call? && item.caller in callers
    && callers[item.caller].command == e.command
    && (|| callers[item.caller].pc == Replied(e.answer)
        || (InHand(a) == Some(item.caller) && AnswerInHand(a) == Some(e.answer)))
  }

  /** The store's run is the commands taken, in order, each with its own answer. */
  ghost predicate RecordInv(started: seq<Item>, history: seq<Event>, callers: map<nat, Caller>, a: ActorPc) {
    && (InHand(a).Some? ==> started != [] && started[|started| - 1] == Call(InHand(a).value))
    && (a == Executing(ShutdownMark) ==> started != [] && started[|started| - 1] == ShutdownMark)
    && |history| == |started| - OpenItems(started, a)
    && forall i :: 0 <= i < |history| ==> Records(history[i], started[i], callers, a)
  }

  function OpenItems(started: seq<Item>, a: ActorPc): nat {
    if started != [] && (started[|started| - 1] == ShutdownMark || Unrecorded(a)) then 1 else 0
  }

  /** Callers outside the store's run may change as they like. */
  lemma RecordFrame(started: seq<Item>, history: seq<Event>, callers: map<nat, Caller>, later: map<nat, Caller>,
                    a: ActorPc, c: nat)
    requires RecordInv(started, history, callers, a)
    requires Call(c) !in started
    requires forall k :: k in callers && k != c ==> k in later && later[k] == callers[k]
    ensures RecordInv(started, history, later, a)
  {
    forall i | 0 <= i < |history| ensures Records(history[i], started[i], later, a) {
      assert Records(history[i], started[i], callers, a);
      assert started[i] in started;
    }
  }

  lemma RecordOutside(sha: Sha256, s: State, step: OutsideStep)
    requires TrafficInv(s) && OutsideEnabled(sha, s, step)
    requires RecordInv(s.mail.started, s.history, s.callers, s.actor)
    ensures var t := AfterOutside(sha, s, step);
            RecordInv(t.mail.started, t.history, t.callers, t.actor)
  {
    hide Proper, RecordInv, MarkInv;
    var t := AfterOutside(sha, s, step);
    PartsAreDisjoint(s.mail);
    hide MailInv;
    if step.LoadAlive? || step.TrySend? {
      assert Call(step.caller) !in s.mail.accepted;
      RecordFrame(s.mail.started, s.history, s.callers, t.callers, s.actor, step.caller);
    }
  }

  lemma RecordDrain(s: State)
    requires TrafficInv(s) && ExitEnabled(s, DrainOne)
    requires RecordInv(s.mail.started, s.history, s.callers, s.actor)
    ensures var t := AfterExit(s, DrainOne);
            RecordInv(t.mail.started, t.history, t.callers, t.actor)
  {
    var t := AfterExit(s, DrainOne);
    hide RecordInv, MailInv, CallersInv, MarkInv, WithPc;
    PartsAreDisjoint(s.mail);
    assert s.mail.queue[0] in s.mail.queue;
    if s.mail.queue[0].Call? {
      RecordFrame(s.mail.started, s.history, s.callers, t.callers, s.actor, s.mail.queue[0].caller);
    }
  }

  lemma RecordExit(s: State, step: ExitStep)
    requires TrafficInv(s) && ExitEnabled(s, step)
    requires RecordInv(s.mail.started, s.history, s.callers, s.actor)
    ensures var t := AfterExit(s, step);
            RecordInv(t.mail.started, t.history, t.callers, t.actor)
  {
    hide RecordInv, TrafficInv, WithPc;
    if step.DrainOne? {
      RecordDrain(s);
    } else {
      RecordFollowsActor(s.mail.started, s.history, s.callers, s.actor, AfterExit(s, step).actor);
    }
  }

  /** Steps of the actor that keep what it has in hand. */
  lemma RecordFollowsActor(started: seq<Item>, history: seq<Event>, callers: map<nat, Caller>, a: ActorPc, later: ActorPc)
    requires RecordInv(started, history, callers, a)
    requires InHand(later) == InHand(a) && (AnswerInHand(a).Some? ==> AnswerInHand(later) == AnswerInHand(a))
    requires a == Executing(ShutdownMark) || Unrecorded(later) == Unrecorded(a)
    requires !later.Executing?
    ensures RecordInv(started, history, callers, later)
  {
    forall i | 0 <= i < |history| ensures Records(history[i], started[i], callers, later) {
      assert Records(history[i], started[i], callers, a);
    }
  }

  lemma RecordTaken(m: Mail, history: seq<Event>, callers: map<nat, Caller>, shutdown: ShutdownPc, closed: bool)
    requires RecordInv(m.started, history, callers, Receiving) && MarkInv(m, Receiving, shutdown, closed)
    requires m.queue != []
    ensures RecordInv(m.started + [m.queue[0]], history, callers, Executing(m.queue[0]))
  {
    forall i | 0 <= i < |history| ensures Records(history[i], (m.started + [m.queue[0]])[i], callers, Executing(m.queue[0])) {
      assert Records(history[i], m.started[i], callers, Receiving);
    }
  }

  /** The command in hand is answered and enters the store's run. */
  lemma RecordAnswered(started: seq<Item>, history: seq<Event>, callers: map<nat, Caller>, a: ActorPc, later: ActorPc, e: Event)
    requires RecordInv(started, history, callers, a)
    requires Unrecorded(a) && InHand(a).Some? && InHand(a).value in callers
    requires !Unrecorded(later) && InHand(later) == InHand(a) && AnswerInHand(later).Some?
    requires e.Executed? && e.command == callers[InHand(a).value].command && AnswerInHand(later) == Some(e.answer)
    ensures RecordInv(started, history + [e], callers, later)
  {
    forall i | 0 <= i < |history| + 1 ensures Records((history + [e])[i], started[i], callers, later) {
      if i < |history| {
        assert Records(history[i], started[i], callers, a);
      }
    }
  }

  lemma RecordReplied(m: Mail, history: seq<Event>, callers: map<nat, Caller>, a: ActorPc)
    requires RecordInv(m.started, history, callers, a) && MailInv(m)
    requires a.Replying? && a.caller in callers && callers[a.caller].pc.Waiting?
    ensures RecordInv(m.started, history, WithPc(callers, a.caller, Replied(a.answer)), Deciding(false))
  {
    var later := WithPc(callers, a.caller, Replied(a.answer));
    forall i | 0 <= i < |history| ensures Records(history[i], m.started[i], later, Deciding(false)) {
      assert Records(history[i], m.started[i], callers, a);
    }
  }

  /** The loop steps that neither take a command, record it, nor answer it. */
  predicate Plain(step: LoopStep) {
    !step.Receive? && !step.Answer? && !step.Reload? && !step.Reply?
  }

  lemma PlainKeepsRecord(sha: Sha256, s: State, step: LoopStep)
    requires LoopEnabled(sha, s, step) && Plain(step)
    ensures var a, later := s.actor, AfterLoop(sha, s, step).actor;
            && (AnswerInHand(a).Some? ==> AnswerInHand(later) == AnswerInHand(a))
            && (a == Executing(ShutdownMark) || Unrecorded(later) == Unrecorded(a))
            && !later.Executing?
            && AfterLoop(sha, s, step).history == s.history
  {
    hide Interrupted, WithPc, InHand;
  }

  lemma RecordPlain(sha: Sha256, s: State, step: LoopStep)
    requires LoopEnabled(sha, s, step) && Plain(step)
    requires RecordInv(s.mail.started, s.history, s.callers, s.actor)
    ensures var t := AfterLoop(sha, s, step);
            RecordInv(t.mail.started, t.history, t.callers, t.actor)
  {
    InnerKeepsMail(sha, s, step);
    InnerKeepsHand(sha, s, step);
    PlainKeepsRecord(sha, s, step);
    hide LoopEnabled, AfterLoop, RecordInv, InHand, AnswerInHand, Unrecorded;
    RecordFollowsActor(s.mail.started, s.history, s.callers, s.actor, AfterLoop(sha, s, step).actor);
  }

  lemma RecordRun(sha: Sha256, s: State, step: LoopStep)
    requires LoopEnabled(sha, s, step) && (step.Answer? || step.Reload?)
    requires RecordInv(s.mail.started, s.history, s.callers, s.actor)
    ensures var t := AfterLoop(sha, s, step);
            RecordInv(t.mail.started, t.history, t.callers, t.actor)
  {
    hide Accepted, Loaded, Settled, NeedsTransaction, Direct, RecordInv, WithPc;
    var t := AfterLoop(sha, s, step);
    RecordAnswered(s.mail.started, s.history, s.callers, s.actor, t.actor, t.history[|s.history|]);
  }

  lemma RecordReceive(sha: Sha256, s: State)
    requires TrafficInv(s) && LoopEnabled(sha, s, Receive)
    requires RecordInv(s.mail.started, s.history, s.callers, s.actor)
    ensures var t := AfterLoop(sha, s, Receive);
            RecordInv(t.mail.started, t.history, t.callers, t.actor)
  {
    hide RecordInv, MarkInv, MailInv, CallersInv;
    RecordTaken(s.mail, s.history, s.callers, s.shutdown, s.closed);
  }

  lemma RecordReply(sha: Sha256, s: State)
    requires TrafficInv(s) && LoopEnabled(sha, s, Reply)
    requires RecordInv(s.mail.started, s.history, s.callers, s.actor)
    ensures var t := AfterLoop(sha, s, Reply);
            RecordInv(t.mail.started, t.history, t.callers, t.actor)
  {
    hide RecordInv, MarkInv, MailInv, CallersInv, WithPc;
    HandIsWaiting(s);
    RecordReplied(s.mail, s.history, s.callers, s.actor);
  }

  lemma RecordLoop(sha: Sha256, s: State, step: LoopStep)
    requires TrafficInv(s) && LoopEnabled(sha, s, step)
    requires RecordInv(s.mail.started, s.history, s.callers, s.actor)
    ensures var t := AfterLoop(sha, s, step);
            RecordInv(t.mail.started, t.history, t.callers, t.actor)
  {
    hide TrafficInv, RecordInv, LoopEnabled, AfterLoop;
    match step
    case Receive => RecordReceive(sha, s);
    case Reply => RecordReply(sha, s);
    case Answer(_, _) => RecordRun(sha, s, step);
    case Reload(_) => RecordRun(sha, s, step);
    case _ => RecordPlain(sha, s, step);
  }

  lemma RecordStep(sha: Sha256, s: State, step: Step)
    requires TrafficInv(s) && Enabled(sha, s, step)
    requires RecordInv(s.mail.started, s.history, s.callers, s.actor)
    ensures var t := After(sha, s, step);
            RecordInv(t.mail.started, t.history, t.callers, t.actor)
  {
    hide TrafficInv, RecordInv, AfterOutside, AfterLoop, AfterExit;
    match step
    case Outside(o) => RecordOutside(sha, s, o);
    case Loop(l) => RecordLoop(sha, s, l);
    case Exit(e) => RecordExit(s, e);
  }

  /** The core is where the store's run has brought it, or in the middle of one recovery. */
  ghost predicate RunInv(sha: Sha256, start: Core, s: State) {
    && Inv(sha, start)
    && Run(sha, start, s.history)
    && (forall c :: c in s.callers ==> Proper(sha, s.callers[c].command))
    && CoreFollows(sha, Final(start, s.history), s)
  }

  ghost predicate CoreFollows(sha: Sha256, final: Core, s: State) {
    var a := s.actor;
    if a.Faulted? || a.Unready? || a.Emptied? then
      && final == a.pre
      && a.caller in s.callers
      && Interrupted(a.pre, s.callers[a.caller].command, s.core.table)
    else if OwnsCore(a) then
      s.core == final
    else
      s.core.table == final.table
  }

  lemma {:induction false} RunGrows(sha: Sha256, start: Core, events: seq<Event>, e: Event)
    requires Run(sha, start, events) && Happens(sha, Final(start, events), e)
    ensures Run(sha, start, events + [e]) && Final(start, events + [e]) == e.post
    decreases |events|
  {
    hide Happens;
    if events == [] {
      assert events + [e] == [e] && [e][1..] == [];
    } else {
      assert (events + [e])[1..] == events[1..] + [e];
      assert Final(events[0].post, events[1..]) == Final(start, events);
      RunGrows(sha, events[0].post, events[1..], e);
    }
  }

  lemma RunOutside(sha: Sha256, start: Core, s: State, step: OutsideStep)
    requires RunInv(sha, start, s) && OutsideEnabled(sha, s, step)
    ensures RunInv(sha, start, AfterOutside(sha, s, step))
  {
    hide Inv, Run, Interrupted, Proper, Final, Push, OwnsCore, Settlement;
  }

  lemma RunExit(sha: Sha256, start: Core, s: State, step: ExitStep)
    requires RunInv(sha, start, s) && ExitEnabled(s, step)
    ensures RunInv(sha, start, AfterExit(s, step))
  {
    hide Inv, Run, Interrupted, Proper, Final;
  }

  lemma RunAnswer(sha: Sha256, start: Core, s: State, answer: Answer, post: Core)
    requires RunInv(sha, start, s) && FlagsInv(s) && LoopEnabled(sha, s, LoopStep.Answer(answer, post))
    ensures RunInv(sha, start, AfterLoop(sha, s, LoopStep.Answer(answer, post)))
  {
    hide Inv, Run, Interrupted, Proper, Direct;
    assert Happens(sha, s.core, Executed(Running(s), answer, post));
    RunGrows(sha, start, s.history, Executed(Running(s), answer, post));
  }

  lemma RunReload(sha: Sha256, start: Core, s: State, works: bool)
    requires RunInv(sha, start, s) && FlagsInv(s) && LoopEnabled(sha, s, Reload(works))
    ensures RunInv(sha, start, AfterLoop(sha, s, Reload(works)))
  {
    hide Inv, Run, Interrupted, Proper, Direct, Accepted, Loaded, Settled;
    var t := AfterLoop(sha, s, Reload(works));
    var e := t.history[|s.history|];
    assert if works then Recovered(sha, s.actor.pre, e.command, e.answer, e.post) else Lost(s.actor.pre, e.command, e.answer, e.post);
    assert Happens(sha, s.actor.pre, e);
    RunGrows(sha, start, s.history, e);
  }

  lemma RunOther(sha: Sha256, start: Core, s: State, step: LoopStep)
    requires RunInv(sha, start, s) && LoopEnabled(sha, s, step) && !step.Answer? && !step.Reload?
    ensures RunInv(sha, start, AfterLoop(sha, s, step))
  {
    hide Inv, Run, Interrupted, Proper, Direct, Final, Happens;
  }

  lemma RunStep(sha: Sha256, start: Core, s: State, step: Step)
    requires RunInv(sha, start, s) && FlagsInv(s) && Enabled(sha, s, step)
    ensures RunInv(sha, start, After(sha, s, step))
  {
    hide RunInv, FlagsInv, AfterOutside, AfterLoop, AfterExit;
    match step
    case Outside(o) => RunOutside(sha, start, s, o);
    case Loop(Answer(answer, post)) => RunAnswer(sha, start, s, answer, post);
    case Loop(Reload(works)) => RunReload(sha, start, s, works);
    case Loop(l) => RunOther(sha, start, s, l);
    case Exit(e) => RunExit(sha, start, s, e);
  }

  // All interleavings

  ghost predicate ActorInv(sha: Sha256, start: Core, s: State) {
    && FlagsInv(s)
    && TrafficInv(s)
    && RecordInv(s.mail.started, s.history, s.callers, s.actor)
    && RunInv(sha, start, s)
  }

  lemma InitialIsSound(sha: Sha256, s: State)
    requires Initial(sha, s)
    ensures ActorInv(sha, s.core, s)
  {
    hide Inv, Interrupted;
  }

  /** Every step of every thread keeps the invariant. */
  lemma StepIsSound(sha: Sha256, start: Core, s: State, step: Step)
    requires ActorInv(sha, start, s) && Enabled(sha, s, step)
    ensures ActorInv(sha, start, After(sha, s, step))
  {
    hide FlagsInv, TrafficInv, RecordInv, RunInv, Enabled, After;
    FlagsStep(sha, s, step);
    TrafficStep(sha, s, step);
    RecordStep(sha, s, step);
    RunStep(sha, start, s, step);
  }

  lemma {:induction false} ReachedIsSound(sha: Sha256, start: Core, s: State, steps: seq<Step>)
    requires ActorInv(sha, start, s) && Legal(sha, s, steps)
    ensures ActorInv(sha, start, Reached(sha, s, steps))
    decreases |steps|
  {
    hide ActorInv, Enabled, After;
    if steps != [] {
      StepIsSound(sha, start, s, steps[0]);
      ReachedIsSound(sha, start, After(sha, s, steps[0]), steps[1..]);
    }
  }

  /**
   In every interleaving a command starts only with the database state open, before
   any shutdown mark was taken and before any recovery failed; and between commands
   an open index is the decoded durable table, which always opens again.
   */
  lemma CommandsStartOpen(sha: Sha256, s: State, steps: seq<Step>)
    requires Initial(sha, s) && Legal(sha, s, steps)
    ensures var t := Reached(sha, s, steps);
            && (t.actor.Receiving? || t.actor.Executing? ==> t.core.memory.Some? && t.alive)
            && (t.actor.Receiving? ==> ShutdownMark !in t.mail.started)
            && (t.ready && OwnsCore(t.actor) ==> t.core.memory.Some?)
            && (OwnsCore(t.actor) && !Unrecorded(t.actor) ==> Inv(sha, t.core))
            && Accepted(sha, t.core.table)
  {
    hide Initial, Legal, Reached, ActorInv, Inv;
    InitialIsSound(sha, s);
    ReachedIsSound(sha, s.core, s, steps);
    var t := Reached(sha, s, steps);
    OpenWhenStarting(sha, s.core, t);
    SoundCore(sha, s.core, t);
    SoundTraffic(sha, s.core, t);
    TableAlwaysOpens(sha, s.core, t);
  }

  lemma OpenWhenStarting(sha: Sha256, start: Core, s: State)
    requires ActorInv(sha, start, s)
    ensures s.actor.Receiving? || s.actor.Executing? ==> s.core.memory.Some? && s.alive
    ensures s.actor.Receiving? ==> ShutdownMark !in s.mail.started
    ensures s.ready && OwnsCore(s.actor) ==> s.core.memory.Some?
  {
    hide RunInv, RecordInv, MailInv, CallersInv;
  }

  lemma SoundCore(sha: Sha256, start: Core, s: State)
    requires ActorInv(sha, start, s)
    ensures OwnsCore(s.actor) && !Unrecorded(s.actor) ==> Inv(sha, s.core)
  {
    hide FlagsInv, TrafficInv, RecordInv, Inv;
    RunKeepsInv(sha, start, s.history);
  }

  lemma TableAlwaysOpens(sha: Sha256, start: Core, s: State)
    requires RunInv(sha, start, s)
    ensures Accepted(sha, s.core.table)
  {
    hide DecodeDocument, Interrupted, Proper;
    var final := Final(start, s.history);
    RunKeepsInv(sha, start, s.history);
    var a := s.actor;
    if a.Faulted? || a.Unready? || a.Emptied? {
      assert Interrupted(a.pre, s.callers[a.caller].command, s.core.table);
      DoubtIsSettled(sha, a.pre, s.callers[a.caller].command, s.core.table);
    }
  }

  /** Accepted items are taken in the order of acceptance and at most once; the rest is dropped unexecuted. */
  lemma AcceptanceOrder(sha: Sha256, s: State, steps: seq<Step>)
    requires Initial(sha, s) && Legal(sha, s, steps)
    ensures var m := Reached(sha, s, steps).mail;
            && m.started <= m.accepted
            && NoDuplicates(m.accepted)
            && (forall x :: x in m.drained ==> x !in m.started)
  {
    InitialIsSound(sha, s);
    ReachedIsSound(sha, s.core, s, steps);
    hide ActorInv, CallersInv, MarkInv, RunInv, FlagsInv, RecordInv;
    SoundTraffic(sha, s.core, Reached(sha, s, steps));
    PartsAreDisjoint(Reached(sha, s, steps).mail);
  }

  lemma SoundTraffic(sha: Sha256, start: Core, s: State)
    requires ActorInv(sha, start, s)
    ensures MailInv(s.mail) && CallersInv(s.mail, s.callers, InHand(s.actor)) && FlagsInv(s)
    ensures RecordInv(s.mail.started, s.history, s.callers, s.actor) && RunInv(sha, start, s)
  {
  }

  /**
   Once the actor has ended, every accepted command was resolved exactly once: it was
   executed and answered, or it was dropped, never executed, and its caller sees
   Unavailable.  A rejected command was never accepted, and no executed one is
   answered as if it had not been.
   */
  lemma EveryCommandIsResolvedOnce(sha: Sha256, s: State, steps: seq<Step>)
    requires Initial(sha, s) && Legal(sha, s, steps)
    ensures var t := Reached(sha, s, steps);
            && NoDuplicates(t.mail.resolved)
            && (t.actor == Ended ==>
                  forall c :: Call(c) in t.mail.accepted ==>
                    c in t.mail.resolved && c in t.callers && Settlement(t.callers[c].pc))
            && (forall c :: c in t.callers && t.callers[c].pc.Replied? ==>
                  Call(c) in t.mail.started && Call(c) !in t.mail.drained && !LooksUnsent(t.callers[c].pc.answer))
            && (forall c :: c in t.callers && t.callers[c].pc.Dropped? ==>
                  Call(c) in t.mail.drained && Call(c) !in t.mail.started)
            && (forall c :: c in t.callers && t.callers[c].pc.Rejected? ==> Call(c) !in t.mail.accepted)
  {
    InitialIsSound(sha, s);
    ReachedIsSound(sha, s.core, s, steps);
    var t := Reached(sha, s, steps);
    SoundTraffic(sha, s.core, t);
    hide ActorInv, FlagsInv, MarkInv, RunInv, MailInv, RecordInv, Initial, Legal, Reached, LooksUnsent;
    if t.actor == Ended {
      EndedResolvesAll(t);
    }
    CallersAreApart(t);
    hide CallersInv;
    forall c | c in t.callers && t.callers[c].pc.Replied? ensures !LooksUnsent(t.callers[c].pc.answer) {
      RepliesAreExecuted(sha, s.core, t, c);
    }
  }

  lemma EndedResolvesAll(s: State)
    requires FlagsInv(s) && CallersInv(s.mail, s.callers, InHand(s.actor)) && s.actor == Ended
    ensures forall c :: Call(c) in s.mail.accepted ==>
              c in s.mail.resolved && c in s.callers && Settlement(s.callers[c].pc)
  {
    EndedHoldsNothing(s);
  }

  lemma CallersAreApart(s: State)
    requires MailInv(s.mail) && CallersInv(s.mail, s.callers, InHand(s.actor))
    ensures forall c :: c in s.callers && s.callers[c].pc.Replied? ==>
              Call(c) in s.mail.started && Call(c) !in s.mail.drained
    ensures forall c :: c in s.callers && s.callers[c].pc.Dropped? ==>
              Call(c) in s.mail.drained && Call(c) !in s.mail.started
    ensures forall c :: c in s.callers && s.callers[c].pc.Rejected? ==> Call(c) !in s.mail.accepted
  {
    PartsAreDisjoint(s.mail);
    hide MailInv;
  }

  lemma EndedHoldsNothing(s: State)
    requires FlagsInv(s) && s.actor == Ended
    ensures s.mail.queue == [] && InHand(s.actor) == None
  {
  }

  /** An answer that `send` or a lost channel would give. */
  predicate LooksUnsent(answer: Answer) {
    || answer == Document(Err(Unavailable)) || answer == Document(Err(QueueFull))
    || answer == Licenses(Err(Unavailable)) || answer == Licenses(Err(QueueFull))
  }

  lemma ExecutedAnswer(sha: Sha256, pre: Core, command: Command, answer: Answer, post: Core)
    requires Executes(sha, pre, command, answer, post)
    ensures !LooksUnsent(answer)
  {
    hide DecodeDocument, Committed, Accepted, Loaded, Ordered;
  }

  lemma {:induction false} RunAnswers(sha: Sha256, start: Core, events: seq<Event>, i: nat)
    requires Run(sha, start, events) && i < |events| && events[i].Executed?
    ensures !LooksUnsent(events[i].answer)
    decreases i
  {
    hide Executes, LooksUnsent;
    if i == 0 {
      ExecutedAnswer(sha, start, events[0].command, events[0].answer, events[0].post);
    } else {
      RunAnswers(sha, events[0].post, events[1..], i - 1);
    }
  }

  lemma ReplyIsRecorded(s: State, c: nat) returns (i: nat)
    requires RecordInv(s.mail.started, s.history, s.callers, s.actor)
    requires CallersInv(s.mail, s.callers, InHand(s.actor))
    requires c in s.callers && s.callers[c].pc.Replied?
    ensures i < |s.history| && i < |s.mail.started| && s.mail.started[i] == Call(c)
    ensures Records(s.history[i], s.mail.started[i], s.callers, s.actor)
  {
    i :| 0 <= i < |s.mail.started| && s.mail.started[i] == Call(c);
    hide Records, CallersInv;
    assert InHand(s.actor) != Some(c) by { RepliedIsNotInHand(s, c); }
  }

  lemma RepliedIsNotInHand(s: State, c: nat)
    requires CallersInv(s.mail, s.callers, InHand(s.actor))
    requires c in s.callers && s.callers[c].pc.Replied?
    ensures InHand(s.actor) != Some(c)
  {
  }

  /** A reply is the answer its command has in the store's run. */
  lemma RepliesAreExecuted(sha: Sha256, start: Core, s: State, c: nat)
    requires RecordInv(s.mail.started, s.history, s.callers, s.actor) && RunInv(sha, start, s)
    requires CallersInv(s.mail, s.callers, InHand(s.actor))
    requires c in s.callers && s.callers[c].pc.Replied?
    ensures exists i :: 0 <= i < |s.history| && s.mail.started[i] == Call(c) && s.history[i].Executed?
                        && s.history[i].command == s.callers[c].command && s.history[i].answer == s.callers[c].pc.answer
    ensures !LooksUnsent(s.callers[c].pc.answer)
  {
    hide CoreFollows, Run, LooksUnsent, Proper, Inv, RecordInv;
    assert |s.history| <= |s.mail.started| by { HistoryFits(s); }
    var i := ReplyIsRecorded(s, c);
    RepliedIsNotInHand(s, c);
    hide CallersInv;
    RunAnswers(sha, start, s.history, i);
  }

  lemma HistoryFits(s: State)
    requires RecordInv(s.mail.started, s.history, s.callers, s.actor)
    ensures |s.history| <= |s.mail.started|
  {
  }

  /** Only the last event of a run of commands can leave the database closed. */
  lemma {:induction false} OpenAllAlong(sha: Sha256, start: Core, events: seq<Event>)
    requires Run(sha, start, events) && forall i :: 0 <= i < |events| ==> events[i].Executed?
    requires Final(start, events).memory.Some?
    ensures forall i :: 0 <= i < |events| ==> events[i].post.memory.Some?
    decreases |events|
  {
    hide Executes, Proper;
    if |events| > 1 {
      assert Final(start, events) == Final(events[0].post, events[1..]);
      OpenAllAlong(sha, events[0].post, events[1..]);
      assert Happens(sha, events[0].post, events[1]) by {
        assert events[1..][0] == events[1];
      }
      assert forall i :: 0 < i < |events| ==> events[i] == events[1..][i - 1];
    }
  }

  /**
   However callers, faults, recoveries and shutdown interleave: the store's run is the
   commands in the order of their acceptance, each reply is the answer of its own
   command, and while the database is open the durable table holds what a plain map
   holds after those answers.
   */
  lemma RepliesTellTheTable(sha: Sha256, s: State, steps: seq<Step>)
    requires Initial(sha, s) && Legal(sha, s, steps)
    ensures var t := Reached(sha, s, steps);
            && RecordInv(t.mail.started, t.history, t.callers, t.actor)
            && Run(sha, s.core, t.history)
            && (OwnsCore(t.actor) && !Unrecorded(t.actor) && t.core.memory.Some? ==>
                  && Inv(sha, t.core)
                  && t.core.memory.value.licenses == Replay(IndexOf(sha, s.core.table), t.history))
  {
    hide Inv, Interrupted, Run;
    InitialIsSound(sha, s);
    ReachedIsSound(sha, s.core, s, steps);
    var t := Reached(sha, s, steps);
    SoundTraffic(sha, s.core, t);
    if OwnsCore(t.actor) && !Unrecorded(t.actor) && t.core.memory.Some? {
      OnlyCommands(t.mail.started, t.history, t.callers, t.actor);
      OpenAllAlong(sha, s.core, t.history);
      AnswersTellTheTable(sha, s.core, t.history);
      OpenIndex(sha, t.core);
    }
  }

  /** A transaction failed and the table was not loaded again yet. */
  predicate InDoubt(a: ActorPc) {
    a.Faulted? || a.Unready? || a.Emptied?
  }

  /** What the durable table can hold after the store's run, beside what its answers tell of. */
  ghost predicate TableFollows(sha: Sha256, start: Core, s: State)
    requires Decodes(sha, start.table) && Decodes(sha, s.core.table)
  {
    var index, told := IndexOf(sha, s.core.table), Replay(IndexOf(sha, start.table), s.history);
    if InDoubt(s.actor) then
      && s.actor.caller in s.callers
      && (index == told || index == WithTransaction(s.actor.pre, s.callers[s.actor.caller].command, told))
    else if s.history != [] && Loses(s.history[|s.history| - 1]) then
      var front, last := s.history[..|s.history| - 1], s.history[|s.history| - 1];
      || index == told
      || index == WithTransaction(Final(start, front), last.command, Replay(IndexOf(sha, start.table), front))
    else
      index == told
  }

  lemma SettledTableFollows(sha: Sha256, start: Core, s: State)
    requires RunInv(sha, start, s) && Accepted(sha, s.core.table) && !InDoubt(s.actor)
    requires forall i :: 0 <= i < |s.history| ==> s.history[i].Executed?
    ensures Decodes(sha, start.table) && TableFollows(sha, start, s)
  {
    assert Accepted(sha, start.table) && Inv(sha, start) && Run(sha, start, s.history);
    assert s.core.table == Final(start, s.history).table;
    hide Inv, Run, Accepted, RunInv, Interrupted, Effect, WithTransaction, Explains, Replay;
    AnswersExplainTheTable(sha, start, s.history);
    OnlyTheLastIsInDoubt(
      sha, start, IndexOf(sha, start.table), s.history, IndexOf(sha, Final(start, s.history).table));
  }

  lemma DoubtfulTableFollows(sha: Sha256, start: Core, s: State)
    requires RunInv(sha, start, s) && Accepted(sha, s.core.table) && InDoubt(s.actor)
    requires forall i :: 0 <= i < |s.history| ==> s.history[i].Executed?
    ensures Decodes(sha, start.table) && TableFollows(sha, start, s)
  {
    var pre := s.actor.pre;
    assert Accepted(sha, start.table) && pre == Final(start, s.history);
    hide Run, Accepted, DecodeDocument, Effect, WithTransaction, Replay, Executes, Proper, Committed, Agrees, Ordered;
    OpenAllAlong(sha, start, s.history);
    AnswersTellTheTable(sha, start, s.history);
    InterruptedTable(sha, pre, s.callers[s.actor.caller].command, s.core.table);
  }

  /**
   In every reachable state, also during a recovery, after one has failed, after a
   shutdown and once the actor has ended: the durable table holds what a plain map holds
   after the answers recorded so far, but for at most one transaction, and that only
   while its recovery runs or if its recovery failed.
   */
  lemma DurableTableFollows(sha: Sha256, s: State, steps: seq<Step>)
    requires Initial(sha, s) && Legal(sha, s, steps)
    ensures var t := Reached(sha, s, steps);
            Accepted(sha, s.core.table) && Accepted(sha, t.core.table) && TableFollows(sha, s.core, t)
  {
    assert Accepted(sha, s.core.table);
    hide Initial, Legal, Reached, ActorInv, Inv, Accepted, RunInv, TableFollows, RecordInv;
    InitialIsSound(sha, s);
    ReachedIsSound(sha, s.core, s, steps);
    var t := Reached(sha, s, steps);
    SoundTraffic(sha, s.core, t);
    OnlyCommands(t.mail.started, t.history, t.callers, t.actor);
    TableAlwaysOpens(sha, s.core, t);
    if InDoubt(t.actor) {
      DoubtfulTableFollows(sha, s.core, t);
    } else {
      SettledTableFollows(sha, s.core, t);
    }
  }

  /** A service that has ended without losing its database leaves exactly what its replies tell of. */
  lemma EndedTableIsTold(sha: Sha256, s: State, steps: seq<Step>)
    requires Initial(sha, s) && Legal(sha, s, steps)
    requires var t := Reached(sha, s, steps);
             t.actor == Ended && (t.history != [] ==> !Loses(t.history[|t.history| - 1]))
    ensures var t := Reached(sha, s, steps);
            && Accepted(sha, s.core.table) && Accepted(sha, t.core.table)
            && IndexOf(sha, t.core.table) == Replay(IndexOf(sha, s.core.table), t.history)
            && |t.history| <= |t.mail.started|
            && (forall i :: 0 <= i < |t.history| ==> Answers(t.history[i], t.mail.started[i], t.callers))
  {
    hide Legal, Reached, Initial, Accepted, Replay, ActorInv;
    DurableTableFollows(sha, s, steps);
    InitialIsSound(sha, s);
    ReachedIsSound(sha, s.core, s, steps);
    var t := Reached(sha, s, steps);
    SoundTraffic(sha, s.core, t);
    hide TableFollows, RunInv, MailInv, CallersInv, FlagsInv;
    EndedAnswers(t.mail.started, t.history, t.callers);
  }

  /** The event is the command of the caller whose call was taken, with the answer it got. */
  predicate Answers(e: Event, item: Item, callers: map<nat, Caller>) {
    && e.Executed? && item.Call? && item.caller in callers
    && callers[item.caller] == Caller(e.command, Replied(e.answer))
  }

  lemma EndedAnswers(started: seq<Item>, history: seq<Event>, callers: map<nat, Caller>)
    requires RecordInv(started, history, callers, Ended)
    ensures |history| <= |started| && forall i :: 0 <= i < |history| ==> Answers(history[i], started[i], callers)
  {
    forall i | 0 <= i < |history| ensures Answers(history[i], started[i], callers) {
      assert Records(history[i], started[i], callers, Ended);
    }
  }

  lemma OpenIndex(sha: Sha256, c: Core)
    requires Inv(sha, c) && c.memory.Some?
    ensures c.memory.value.licenses == IndexOf(sha, c.table)
  {
  }

  lemma OnlyCommands(started: seq<Item>, history: seq<Event>, callers: map<nat, Caller>, a: ActorPc)
    requires RecordInv(started, history, callers, a)
    ensures forall i :: 0 <= i < |history| ==> history[i].Executed?
  {
    forall i | 0 <= i < |history| ensures history[i].Executed? {
      assert Records(history[i], started[i], callers, a);
    }
  }

  lemma {:induction false} AliveNeverReturns(sha: Sha256, start: Core, s: State, steps: seq<Step>)
    requires ActorInv(sha, start, s) && Legal(sha, s, steps)
    ensures Reached(sha, s, steps).alive ==> s.alive
    decreases |steps|
  {
    hide Enabled, After;
    if steps != [] {
      FlagsStep(sha, s, steps[0]);
      StepIsSound(sha, start, s, steps[0]);
      hide ActorInv;
      AliveNeverReturns(sha, start, After(sha, s, steps[0]), steps[1..]);
    }
  }

  /**
   `is_ready` loads `ready`, lets any steps pass, and loads `alive`.  When it returns
   true, both flags held together at the first load, and the database was open then
   if the actor still had its core.
   */
  lemma IsReadyIsSound(sha: Sha256, s: State, before: seq<Step>, between: seq<Step>)
    requires Initial(sha, s) && Legal(sha, s, before)
    requires Legal(sha, Reached(sha, s, before), between)
    requires Reached(sha, s, before).ready && Reached(sha, Reached(sha, s, before), between).alive
    ensures var t := Reached(sha, s, before);
            && t.ready && t.alive
            && (OwnsCore(t.actor) ==> t.core.memory.Some?)
  {
    hide Legal, Reached;
    InitialIsSound(sha, s);
    ReachedIsSound(sha, s.core, s, before);
    AliveNeverReturns(sha, s.core, Reached(sha, s, before), between);
  }

  // The bounded queue

  lemma QueueLoop(sha: Sha256, s: State, step: LoopStep)
    requires LoopEnabled(sha, s, step)
    ensures var t := AfterLoop(sha, s, step); |t.mail.queue| <= |s.mail.queue| && t.capacity == s.capacity
  {
    hide Accepted, Loaded, Settled, Interrupted, NeedsTransaction, Direct, Proper, WithPc;
  }

  lemma QueueExit(s: State, step: ExitStep)
    requires ExitEnabled(s, step)
    ensures var t := AfterExit(s, step); |t.mail.queue| <= |s.mail.queue| && t.capacity == s.capacity
  {
    hide WithPc;
  }

  lemma QueueOutside(sha: Sha256, s: State, step: OutsideStep)
    requires OutsideEnabled(sha, s, step) && |s.mail.queue| <= s.capacity
    ensures var t := AfterOutside(sha, s, step); |t.mail.queue| <= s.capacity && t.capacity == s.capacity
  {
    hide Proper, WithPc, Pending;
  }

  lemma QueueStep(sha: Sha256, s: State, step: Step)
    requires Enabled(sha, s, step) && |s.mail.queue| <= s.capacity
    ensures |After(sha, s, step).mail.queue| <= s.capacity && After(sha, s, step).capacity == s.capacity
  {
    hide AfterOutside, AfterLoop, AfterExit, OutsideEnabled, LoopEnabled, ExitEnabled;
    match step
    case Outside(o) => QueueOutside(sha, s, o);
    case Loop(l) => QueueLoop(sha, s, l);
    case Exit(e) => QueueExit(s, e);
  }

  lemma {:induction false} QueueIsBounded(sha: Sha256, s: State, steps: seq<Step>)
    requires Legal(sha, s, steps) && |s.mail.queue| <= s.capacity
    ensures |Reached(sha, s, steps).mail.queue| <= s.capacity && Reached(sha, s, steps).capacity == s.capacity
    decreases |steps|
  {
    hide Enabled, After;
    if steps != [] {
      QueueStep(sha, s, steps[0]);
      QueueIsBounded(sha, After(sha, s, steps[0]), steps[1..]);
    }
  }

  /**
   `send` refuses with Unavailable only once `alive` is cleared or the channel closed, with
   QueueFull only if the queue is full or a slot is kept for a pending shutdown; otherwise the
   command is accepted behind all others.
   */
  lemma SendAnswers(sha: Sha256, s: State, step: OutsideStep)
    requires OutsideEnabled(sha, s, step) && |s.mail.queue| <= s.capacity && (step.LoadAlive? || step.TrySend?)
    ensures var t := AfterOutside(sha, s, step);
            && step.caller in t.callers
            && match t.callers[step.caller].pc
               case Rejected(Unavailable) => t.mail == s.mail && (if step.LoadAlive? then !s.alive else s.closed)
               case Rejected(QueueFull) =>
                 t.mail == s.mail && step.TrySend? && !s.closed && (|s.mail.queue| == s.capacity || s.shutdown == Asked)
               case SawAlive => t.mail == s.mail && step.LoadAlive? && s.alive
               case Waiting =>
                 && step.TrySend? && !s.closed && |s.mail.queue| < s.capacity
                 && t.mail.queue == s.mail.queue + [Call(step.caller)]
               case _ => false
  {
    hide Proper;
  }

  // Why the actor ends, and that it serves until then

  predicate LostDatabase(history: seq<Event>) {
    history != [] && Loses(history[|history| - 1])
  }

  /** Before its loop is left the actor is alive unless its database is lost, and ready unless it recovers. */
  ghost predicate ReasonInv(s: State) {
    var a := s.actor;
    && (LoopLeft(a) ==> s.sendersGone || ShutdownMark in s.mail.started || LostDatabase(s.history))
    && (a == Executing(ShutdownMark) || a == Deciding(true) ==> ShutdownMark in s.mail.started)
    && (a.Broken? || (!LoopLeft(a) && !s.alive) ==> LostDatabase(s.history))
    && (a.Receiving? || a.Executing? || a.Faulted? || ((a.Replying? || a.Deciding?) && s.alive) ==>
          s.ready || s.shutdown != NotAsked)
  }

  lemma ReasonOutside(sha: Sha256, s: State, step: OutsideStep)
    requires ReasonInv(s) && OutsideEnabled(sha, s, step)
    ensures ReasonInv(AfterOutside(sha, s, step))
  {
    hide Proper, WithPc, Pending, Loses;
  }

  lemma ReasonExit(s: State, step: ExitStep)
    requires ReasonInv(s) && ExitEnabled(s, step)
    ensures ReasonInv(AfterExit(s, step))
  {
    hide WithPc, Loses;
  }

  lemma TakenStays(s: State)
    requires s.mail.queue != []
    ensures var started := s.mail.started + [s.mail.queue[0]];
            && (ShutdownMark in s.mail.started ==> ShutdownMark in started) && s.mail.queue[0] in started
  {
  }

  lemma ReasonLoop(sha: Sha256, s: State, step: LoopStep)
    requires ReasonInv(s) && FlagsInv(s) && LoopEnabled(sha, s, step)
    ensures ReasonInv(AfterLoop(sha, s, step))
  {
    hide Accepted, Loaded, Settled, Interrupted, NeedsTransaction, Direct, WithPc;
    if step.Receive? {
      TakenStays(s);
    }
    if step.Answer? {
      assert s.alive;
    }
  }

  lemma ReasonStep(sha: Sha256, s: State, step: Step)
    requires ReasonInv(s) && FlagsInv(s) && Enabled(sha, s, step)
    ensures ReasonInv(After(sha, s, step))
  {
    hide ReasonInv, FlagsInv, AfterOutside, AfterLoop, AfterExit;
    match step
    case Outside(o) => ReasonOutside(sha, s, o);
    case Loop(l) => ReasonLoop(sha, s, l);
    case Exit(e) => ReasonExit(s, e);
  }

  lemma {:induction false} ReasonRun(sha: Sha256, s: State, steps: seq<Step>)
    requires ReasonInv(s) && FlagsInv(s) && Legal(sha, s, steps)
    ensures ReasonInv(Reached(sha, s, steps))
    decreases |steps|
  {
    hide ReasonInv, FlagsInv, Enabled, After;
    if steps != [] {
      ReasonStep(sha, s, steps[0]);
      FlagsStep(sha, s, steps[0]);
      ReasonRun(sha, After(sha, s, steps[0]), steps[1..]);
    }
  }

  /**
   In every run the actor leaves its loop only after a shutdown was taken, all senders were
   dropped, or its database was lost; and until a shutdown is asked for it is ready whenever it
   waits for a command or has begun one.
   */
  lemma ActorEndsForAReason(sha: Sha256, s: State, steps: seq<Step>)
    requires Initial(sha, s) && Legal(sha, s, steps)
    ensures var t := Reached(sha, s, steps);
            && (LoopLeft(t.actor) ==> t.sendersGone || ShutdownMark in t.mail.started || LostDatabase(t.history))
            && (t.actor.Receiving? || t.actor.Executing? ==> t.ready || t.shutdown != NotAsked)
  {
    hide Legal, Reached, FlagsInv, Inv;
    assert ReasonInv(s);
    assert FlagsInv(s) by { InitialFlags(sha, s); }
    ReasonRun(sha, s, steps);
  }

  lemma InitialFlags(sha: Sha256, s: State)
    requires Initial(sha, s)
    ensures FlagsInv(s)
  {
    hide Inv;
  }

  lemma RunStarts(sha: Sha256, s: State, step: Step, t: State, rest: seq<Step>)
    requires Enabled(sha, s, step) && After(sha, s, step) == t && Legal(sha, t, rest)
    ensures Legal(sha, s, [step] + rest) && Reached(sha, s, [step] + rest) == Reached(sha, t, rest)
  {
    hide Enabled, After;
    assert ([step] + rest)[1..] == rest;
  }

  /** The actor may go on to the command at the head of the queue. */
  predicate Serving(s: State) {
    && s.actor == Receiving && s.alive && s.mail.queue != []
    && s.mail.queue[0].Call? && Pending(s.callers, s.mail.queue[0].caller, Waiting)
  }

  predicate Served(s: State, t: State, answer: Answer, post: Core) {
    && s.mail.queue != [] && s.mail.queue[0].Call?
    && t.actor == Receiving && t.alive && t.core == post
    && t.mail.queue == s.mail.queue[1..]
    && Pending(t.callers, s.mail.queue[0].caller, Replied(answer))
    && t.shutdown == s.shutdown && t.closed == s.closed
  }

  function Taken(s: State): State
    requires Serving(s)
  {
    var item := s.mail.queue[0];
    s.(actor := Executing(item), mail := s.mail.(queue := s.mail.queue[1..], started := s.mail.started + [item]))
  }

  function RepliedTo(s: State, c: nat, answer: Answer): State
    requires c in s.callers
  {
    s.(callers := WithPc(s.callers, c, Replied(answer)), actor := Receiving,
       mail := s.mail.(resolved := s.mail.resolved + [c]))
  }

  /** The reply goes out, and the actor turns to the next command. */
  lemma Replies(sha: Sha256, s: State, c: nat, answer: Answer)
    requires s.actor == Replying(c, answer) && c in s.callers && s.alive
    ensures Legal(sha, s, [Loop(Reply)] + ([Loop(Decide)] + []))
    ensures Reached(sha, s, [Loop(Reply)] + ([Loop(Decide)] + [])) == RepliedTo(s, c, answer)
  {
    var s1 := After(sha, s, Loop(Reply));
    var s2 := After(sha, s1, Loop(Decide));
    assert s2 == RepliedTo(s, c, answer);
    assert Legal(sha, s2, []) && Reached(sha, s2, []) == s2;
    hide Enabled, After, Legal, Reached;
    RunStarts(sha, s1, Loop(Decide), s2, []);
    RunStarts(sha, s, Loop(Reply), s1, [Loop(Decide)] + []);
  }

  /** Without a fault the command at the head is answered directly, and the actor is ready for the next. */
  lemma ServesDirectly(sha: Sha256, s: State, answer: Answer, post: Core)
    requires Serving(s) && Direct(s.core, s.callers[s.mail.queue[0].caller].command, answer, post)
    ensures var steps := [Loop(Receive)] + ([Loop(LoopStep.Answer(answer, post))] + ([Loop(Reply)] + ([Loop(Decide)] + [])));
            Legal(sha, s, steps) && Served(s, Reached(sha, s, steps), answer, post) && Reached(sha, s, steps).ready == s.ready
  {
    hide Direct;
    var c := s.mail.queue[0].caller;
    var s1 := After(sha, s, Loop(Receive));
    assert s1 == Taken(s);
    var s2 := After(sha, s1, Loop(LoopStep.Answer(answer, post)));
    Replies(sha, s2, c, answer);
    var rest := [Loop(Reply)] + ([Loop(Decide)] + []);
    hide Legal, Reached;
    RunStarts(sha, s1, Loop(LoopStep.Answer(answer, post)), s2, rest);
    RunStarts(sha, s, Loop(Receive), s1, [Loop(LoopStep.Answer(answer, post))] + rest);
  }

  /** The core, in the middle of a recovery from the transaction of the command in hand. */
  function Recovering(s: State, table: Table): State
    requires Serving(s)
  {
    Taken(s).(core := Core(table, None), ready := false, actor := Emptied(s.mail.queue[0].caller, s.core))
  }

  lemma Recovery(sha: Sha256, s: State, table: Table, rest: seq<Step>)
    requires Serving(s) && Interrupted(s.core, s.callers[s.mail.queue[0].caller].command, table)
    requires Legal(sha, Recovering(s, table), rest)
    ensures var steps := [Loop(Receive)] + ([Loop(Fault(table))] + ([Loop(StoreUnready)] + ([Loop(DropState)] + rest)));
            Legal(sha, s, steps) && Reached(sha, s, steps) == Reached(sha, Recovering(s, table), rest)
  {
    hide Interrupted, Legal, Reached;
    var s1 := Taken(s);
    assert After(sha, s, Loop(Receive)) == s1;
    var s2 := After(sha, s1, Loop(Fault(table)));
    var s3 := After(sha, s2, Loop(StoreUnready));
    var s4 := After(sha, s3, Loop(DropState));
    assert s4 == Recovering(s, table);
    hide Enabled, After;
    RunStarts(sha, s3, Loop(DropState), s4, rest);
    RunStarts(sha, s2, Loop(StoreUnready), s3, [Loop(DropState)] + rest);
    RunStarts(sha, s1, Loop(Fault(table)), s2, [Loop(StoreUnready)] + ([Loop(DropState)] + rest));
    RunStarts(sha, s, Loop(Receive), s1, [Loop(Fault(table))] + ([Loop(StoreUnready)] + ([Loop(DropState)] + rest)));
  }

  /** The steps that follow once the database has been opened again. */
  function Reopening(): seq<Step> {
    [Loop(Reload(true))] + ([Loop(StoreReady)] + ([Loop(Reply)] + ([Loop(Decide)] + [])))
  }

  lemma Reopens(sha: Sha256, s: State, table: Table)
    requires Serving(s) && Interrupted(s.core, s.callers[s.mail.queue[0].caller].command, table) && Accepted(sha, table)
    ensures var r, command := Recovering(s, table), s.callers[s.mail.queue[0].caller].command;
            && Legal(sha, r, Reopening())
            && var t := Reached(sha, r, Reopening());
               Served(s, t, Settled(s.core, command, Loaded(sha, table)), Core(table, Some(Loaded(sha, table)))) && t.ready
  {
    hide Accepted, Loaded, Settled, Committed;
    var c := s.mail.queue[0].caller;
    var r := Recovering(s, table);
    var s1 := After(sha, r, Loop(Reload(true)));
    var s2 := After(sha, s1, Loop(StoreReady));
    var answer := Settled(s.core, s.callers[c].command, Loaded(sha, table));
    assert s2.actor == Replying(c, answer) && s2.ready && s2.alive;
    Replies(sha, s2, c, answer);
    var rest := [Loop(Reply)] + ([Loop(Decide)] + []);
    hide Legal, Reached;
    RunStarts(sha, s1, Loop(StoreReady), s2, rest);
    RunStarts(sha, r, Loop(Reload(true)), s1, [Loop(StoreReady)] + rest);
  }

  /** After a failed transaction and a recovery that works the command is answered, and the actor is ready for the next. */
  lemma ServesByRecovery(sha: Sha256, s: State, table: Table)
    requires Serving(s) && Interrupted(s.core, s.callers[s.mail.queue[0].caller].command, table) && Accepted(sha, table)
    ensures var steps :=
              [Loop(Receive)] + ([Loop(Fault(table))] + ([Loop(StoreUnready)] + ([Loop(DropState)] + Reopening())));
            && Legal(sha, s, steps)
            && var t, command := Reached(sha, s, steps), s.callers[s.mail.queue[0].caller].command;
               Served(s, t, Settled(s.core, command, Loaded(sha, table)), Core(table, Some(Loaded(sha, table)))) && t.ready
  {
    hide Legal, Reached, Served, Recovering, Interrupted, Accepted, Loaded, Settled, Reopening;
    Reopens(sha, s, table);
    Recovery(sha, s, table, Reopening());
  }

  lemma HeadIsServing(s: State, c: nat)
    requires FlagsInv(s) && MailInv(s.mail) && CallersInv(s.mail, s.callers, InHand(s.actor))
    requires s.actor == Receiving && s.mail.queue != [] && s.mail.queue[0] == Call(c)
    ensures Serving(s)
  {
    PartsAreDisjoint(s.mail);
    assert Call(c) in s.mail.queue;
    hide MailInv;
  }

  /**
   In every run, whenever the actor waits and the queue has a command at its head, that command
   can be served: there are four steps of the actor's own that answer it directly and lead back.
   */
  lemma EveryCommandCanBeServed(sha: Sha256, s: State, steps: seq<Step>) returns (more: seq<Step>)
    requires Initial(sha, s) && Legal(sha, s, steps)
    requires var t := Reached(sha, s, steps); t.actor == Receiving && t.mail.queue != [] && t.mail.queue[0].Call?
    ensures var t := Reached(sha, s, steps);
            && Serving(t) && Legal(sha, t, more) && |more| == 4
            && var u := Reached(sha, t, more);
               exists answer, post :: Served(t, u, answer, post) && Direct(t.core, t.callers[t.mail.queue[0].caller].command, answer, post)
  {
    hide Legal, Reached, Inv, Direct, Served, Initial;
    InitialIsSound(sha, s);
    ReachedIsSound(sha, s.core, s, steps);
    var t := Reached(sha, s, steps);
    SoundTraffic(sha, s.core, t);
    SoundCore(sha, s.core, t);
    hide ActorInv, FlagsInv, MailInv, CallersInv, RecordInv, Serving;
    var c := t.mail.queue[0].caller;
    HeadIsServing(t, c);
    assert c in t.callers && t.core.memory.Some? by { ServingIsOpen(sha, s.core, t); }
    assert Proper(sha, t.callers[c].command);
    var answer, post := DirectExists(sha, t.core, t.callers[c].command);
    ServesDirectly(sha, t, answer, post);
    more := [Loop(Receive)] + ([Loop(LoopStep.Answer(answer, post))] + ([Loop(Reply)] + ([Loop(Decide)] + [])));
  }

  lemma ServingIsOpen(sha: Sha256, start: Core, s: State)
    requires FlagsInv(s) && Serving(s)
    ensures s.mail.queue[0].caller in s.callers && s.core.memory.Some?
  {
  }
}
