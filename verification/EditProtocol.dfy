/** The demo's edit, worker and display protocol: the UI thread submits batches of edits over
    a channel of capacity one, the service worker applies them and publishes what it did to a
    display that each side enters only by try_lock. */
module EditProtocol {
  import opened Amounts
  import opened Outcomes

  const U64_MAX: nat := 0xFFFF_FFFF_FFFF_FFFF
  const EDIT_LIMIT: nat := 64
  const OUTPUT_LOG_LIMIT: nat := 200

  type Edit = nat
  type Batch = seq<Edit>
  type Line = nat

  // ---------------------------------------------------------------- edit progress

  datatype Progress = Progress(submitted: nat, applied: nat) {
    predicate Ready() { applied == submitted }
  }

  datatype SubmitError = StillPending | SequenceExhausted | QueueUnavailable

  /** The channel of capacity one: its content, and whether its receiver still exists. */
  datatype Channel = Channel(slot: Option<(nat, Batch)>, connected: bool)

  function Observed(p: Progress, applied: nat): Progress {
    if applied == p.submitted then p.(applied := applied) else p
  }

  function SubmitOutcome(p: Progress, channel: Channel, edits: Batch): Result<(), SubmitError> {
    if edits == [] then Ok(())
    else if !p.Ready() then Err(StillPending)
    else if p.submitted == U64_MAX then Err(SequenceExhausted)
    else if !channel.connected || channel.slot.Some? then Err(QueueUnavailable)
    else Ok(())
  }

  predicate Sends(p: Progress, channel: Channel, edits: Batch) {
    edits != [] && SubmitOutcome(p, channel, edits).Ok?
  }

  function Submitted(p: Progress, channel: Channel, edits: Batch): Progress {
    if Sends(p, channel, edits) then p.(submitted := p.submitted + 1) else p
  }

  function ChannelAfter(p: Progress, channel: Channel, edits: Batch): Channel {
    if Sends(p, channel, edits) then channel.(slot := Some((p.submitted + 1, edits))) else channel
  }

  class EditChannel {
    var content: Channel

    constructor ()
      ensures content == Channel(None, true)
    {
      content := Channel(None, true);
    }

    method TrySend(item: (nat, Batch)) returns (sent: bool)
      modifies this
      ensures sent == (old(content).connected && old(content).slot.None?)
      ensures content == if sent then old(content).(slot := Some(item)) else old(content)
    {
      sent := content.connected && content.slot.None?;
      if sent {
        content := content.(slot := Some(item));
      }
    }
  }

  class EditProgress {
    var submitted: nat
    var applied: nat

    function Value(): Progress
      reads this
    {
      Progress(submitted, applied)
    }

    constructor ()
      ensures Value() == Progress(0, 0)
    {
      submitted, applied := 0, 0;
    }

    method Observe(upTo: nat) returns (complete: bool)
      modifies this
      ensures Value() == Observed(old(Value()), upTo)
      ensures complete <==> upTo == old(submitted)
      ensures complete ==> Value().Ready()
    {
      if upTo != submitted {
        return false;
      }
      applied := upTo;
      return true;
    }

    method Submit(sender: EditChannel, edits: Batch) returns (r: Result<(), SubmitError>)
      modifies this, sender
      ensures r == SubmitOutcome(old(Value()), old(sender.content), edits)
      ensures Value() == Submitted(old(Value()), old(sender.content), edits)
      ensures sender.content == ChannelAfter(old(Value()), old(sender.content), edits)
    {
      if edits == [] {
        return Ok(());
      }
      if applied != submitted {
        return Err(StillPending);
      }
      if submitted == U64_MAX {
        return Err(SequenceExhausted);
      }
      var next := submitted + 1;
      var sent := sender.TrySend((next, edits));
      if !sent {
        return Err(QueueUnavailable);
      }
      submitted := next;
      return Ok(());
    }
  }

  // ---------------------------------------------------------------- the controller

  /** What the controller has done: whole batches it committed, and the edits it executed
      after the last commit. A snapshot of the controller is such a value. */
  datatype Controller = Controller(committed: seq<Batch>, partial: seq<Edit>)

  /** The controller behind ServicedController::apply. The edits that fail, and the commit,
      are decided outside. */
  class ServicedController {
    var state: Controller
    const rejects: Edit -> bool

    constructor (rejects: Edit -> bool)
      ensures state == Controller([], []) && this.rejects == rejects
    {
      state := Controller([], []);
      this.rejects := rejects;
    }

    /** A batch is committed whole or not at all; the edits before a rejected one were
        executed, the ones after it were not. */
    method Apply(edits: Batch, commits: bool) returns (ok: bool)
      requires state.partial == []
      modifies this
      ensures ok <==> |edits| <= EDIT_LIMIT && commits && forall e | e in edits :: !rejects(e)
      ensures ok ==> state == Controller(old(state).committed + [edits], [])
      ensures !ok ==> state.committed == old(state).committed && state.partial <= edits
      ensures !ok && |edits| > EDIT_LIMIT ==> state == old(state)
      ensures !ok && |edits| <= EDIT_LIMIT && state.partial != edits ==>
              rejects(edits[|state.partial|])
    {
      if |edits| > EDIT_LIMIT {
        return false;
      }
      var i := 0;
      while i < |edits|
        invariant 0 <= i <= |edits|
        invariant state == Controller(old(state).committed, edits[..i])
        invariant forall e | e in edits[..i] :: !rejects(e)
      {
        if rejects(edits[i]) {
          return false;
        }
        state := state.(partial := state.partial + [edits[i]]);
        i := i + 1;
      }
      assert edits[..|edits|] == edits;
      if !commits {
        return false;
      }
      state := Controller(state.committed + [edits], []);
      return true;
    }
  }

  // ---------------------------------------------------------------- log lines

  function SaturatingAdd(a: nat, b: nat): nat { Lesser(U64_MAX, a + b) }

  function SaturatingSub(a: nat, b: nat): nat { if a >= b then a - b else 0 }

  /** The newest lines that fit. */
  function Latest(lines: seq<Line>): seq<Line> {
    lines[SaturatingSub(|lines|, OUTPUT_LOG_LIMIT)..]
  }

  function Excess(waiting: seq<Line>, lines: seq<Line>): nat {
    SaturatingSub(|waiting| + |lines|, OUTPUT_LOG_LIMIT)
  }

  class LogDisplay {
    var logs: seq<Line>

    constructor ()
      ensures logs == []
    {
      logs := [];
    }

    /** publish_display: append, then drop the oldest lines over the limit. */
    method Publish(lines: seq<Line>)
      modifies this
      ensures logs == Latest(old(logs) + lines)
      ensures |logs| <= OUTPUT_LOG_LIMIT
      ensures |old(logs)| <= OUTPUT_LOG_LIMIT ==>
              |logs| == |old(logs)| + |lines| - Excess(old(logs), lines)
    {
      logs := logs + lines;
      var excess := SaturatingSub(|logs|, OUTPUT_LOG_LIMIT);
      logs := logs[excess..];
    }
  }

  // ---------------------------------------------------------------- the two threads

  datatype Display = Display(snapshot: Option<Controller>, applied: nat, logs: seq<Line>,
                             omittedLogs: nat)

  /** Where the worker's loop is. Every stage after a failure carries it to the end. */
  datatype Stage =
    | CheckStop
    | TakeEdits
    | Applying(sequence: nat, rest: Batch)
    | Committing(done: nat)
    | Servicing
    | AudioCycle
    | Publishing(failed: bool)
    | Deciding(mustClose: bool)
    | Closing
    | Exited

  /** All that both threads, the channels and the display hold, with what happened so far:
      the batches submitted, the lines the UI took, the numbers of lines produced and dropped,
      and the lines published since the UI last took some. */
  datatype State = State(
    progress: Progress, view: Controller, outputLog: seq<Line>,
    channel: Channel, stopSent: bool, failureSent: bool,
    stage: Stage, applied: nat, controller: Controller, lines: seq<Line>, omittedLogs: nat,
    display: Display,
    submitted: seq<Batch>, produced: nat, taken: seq<Line>, dropped: nat, sinceTake: seq<Line>)

  datatype Action =
    | UiPoll                      // try_lock succeeds and the UI takes what is there
    | UiSubmit(edits: Batch)
    | UiStop
    | WorkerCheck
    | WorkerTake
    | WorkerEdit(accepted: bool)
    | WorkerCommit(delivered: bool)
    | WorkerService(newLines: seq<Line>, serviced: bool)
    | WorkerAudio(cycled: bool)
    | WorkerPublish(hasSnapshot: bool)  // try_lock succeeds
    | WorkerBusy                        // try_lock fails
    | WorkerDecide
    | WorkerClose

  function Initial(): State {
    State(Progress(0, 0), Controller([], []), [], Channel(None, true), false, false,
          CheckStop, 0, Controller([], []), [], 0, Display(None, 0, [], 0),
          [], 0, [], 0, [])
  }

  function Poll(s: State): State {
    var s' := s.(outputLog := Latest(s.outputLog + s.display.logs),
                 display := s.display.(logs := []),
                 taken := s.taken + s.display.logs, sinceTake := []);
    if s.display.snapshot.Some? && s.display.applied == s.progress.submitted
    then s'.(progress := Observed(s.progress, s.display.applied),
             view := s.display.snapshot.value,
             display := s'.display.(snapshot := None))
    else s'
  }

  function SubmitStep(s: State, edits: Batch): State {
    s.(progress := Submitted(s.progress, s.channel, edits),
       channel := ChannelAfter(s.progress, s.channel, edits),
       submitted := if Sends(s.progress, s.channel, edits) then s.submitted + [edits]
                    else s.submitted)
  }

  function Take(s: State): State {
    match s.channel.slot
    case None => s.(stage := Servicing)
    case Some((sequence, edits)) =>
      s.(channel := s.channel.(slot := None),
         stage := if |edits| > EDIT_LIMIT then Publishing(true) else Applying(sequence, edits))
  }

  function EditStep(s: State, accepted: bool): State
    requires s.stage.Applying?
  {
    if s.stage.rest == [] then s.(stage := Committing(s.stage.sequence))
    else if accepted
    then s.(stage := s.stage.(rest := s.stage.rest[1..]),
            controller := s.controller.(partial := s.controller.partial + [s.stage.rest[0]]))
    else s.(stage := Publishing(true))
  }

  function CommitStep(s: State, delivered: bool): State
    requires s.stage.Committing?
  {
    if delivered
    then s.(controller := Controller(s.controller.committed + [s.controller.partial], []),
            applied := s.stage.done, stage := Servicing)
    else s.(stage := Publishing(true))
  }

  function ServiceStep(s: State, newLines: seq<Line>, serviced: bool): State {
    s.(lines := newLines, produced := s.produced + |newLines|,
       stage := if serviced then AudioCycle else Publishing(true))
  }

  function PublishStep(s: State, hasSnapshot: bool): State
    requires s.stage.Publishing?
  {
    var omitted := SaturatingAdd(s.omittedLogs, Excess(s.display.logs, s.lines));
    s.(omittedLogs := omitted,
       dropped := s.dropped + Excess(s.display.logs, s.lines),
       sinceTake := s.sinceTake + s.lines,
       lines := [],
       display := Display(if hasSnapshot then Some(s.controller) else None, s.applied,
                          Latest(s.display.logs + s.lines), omitted),
       stage := Deciding(s.stage.failed))
  }

  function BusyStep(s: State): State
    requires s.stage.Publishing?
  {
    s.(omittedLogs := SaturatingAdd(s.omittedLogs, |s.lines|), dropped := s.dropped + |s.lines|,
       lines := [], stage := Deciding(s.stage.failed))
  }

  /** One step of either thread. An action that is not possible in the state does nothing. */
  function Next(s: State, a: Action): State {
    match a
    case UiPoll => Poll(s)
    case UiSubmit(edits) => SubmitStep(s, edits)
    case UiStop => s.(stopSent := true)
    case WorkerCheck =>
      if !s.stage.CheckStop? then s else s.(stage := if s.stopSent then Closing else TakeEdits)
    case WorkerTake => if s.stage.TakeEdits? then Take(s) else s
    case WorkerEdit(accepted) => if s.stage.Applying? then EditStep(s, accepted) else s
    case WorkerCommit(delivered) => if s.stage.Committing? then CommitStep(s, delivered) else s
    case WorkerService(newLines, serviced) =>
      if s.stage.Servicing? then ServiceStep(s, newLines, serviced) else s
    case WorkerAudio(cycled) =>
      if s.stage.AudioCycle? then s.(stage := Publishing(!cycled)) else s
    case WorkerPublish(hasSnapshot) => if s.stage.Publishing? then PublishStep(s, hasSnapshot) else s
    case WorkerBusy => if s.stage.Publishing? then BusyStep(s) else s
    case WorkerDecide =>
      if !s.stage.Deciding? then s
      else if s.stage.mustClose then s.(stage := Closing, failureSent := true)
      else s.(stage := CheckStop)
    case WorkerClose =>
      if s.stage.Closing? then s.(stage := Exited, channel := Channel(None, false)) else s
  }

  /** Any interleaving of the two threads. */
  function Run(actions: seq<Action>): State {
    if actions == [] then Initial()
    else Next(Run(actions[..|actions| - 1]), actions[|actions| - 1])
  }

  // ---------------------------------------------------------------- invariant

  /** At most one batch is on its way, and the counters tell how far it got. */
  predicate Counted(s: State) {
    && |s.submitted| == s.progress.submitted <= U64_MAX
    && |s.controller.committed| == s.applied
    && s.progress.applied <= s.applied <= s.progress.submitted <= s.progress.applied + 1
    && s.controller.committed == s.submitted[..s.applied]
    && s.view == Controller(s.submitted[..s.progress.applied], [])
  }

  predicate Pending(s: State) { s.applied + 1 == s.progress.submitted == |s.submitted| }

  predicate QueueHoldsPending(s: State) {
    s.channel.slot.Some? ==>
      && Pending(s)
      && s.channel.slot.value == (s.progress.submitted, s.submitted[s.applied])
      && s.controller.partial == []
  }

  /** The edits executed since the last commit belong to the pending batch. */
  predicate StageFits(s: State) {
    match s.stage
    case Applying(sequence, rest) =>
      && Pending(s) && s.channel.slot.None? && sequence == s.progress.submitted
      && s.controller.partial + rest == s.submitted[s.applied]
    case Committing(sequence) =>
      && Pending(s) && s.channel.slot.None? && sequence == s.progress.submitted
      && s.controller.partial == s.submitted[s.applied]
    case Publishing(failed) =>
      if failed then s.controller.partial != [] ==> Pending(s) else s.controller.partial == []
    case Deciding(failed) =>
      if failed then s.controller.partial != [] ==> Pending(s) else s.controller.partial == []
    case Closing => s.controller.partial != [] ==> Pending(s)
    case Exited => s.controller.partial != [] ==> Pending(s)
    case _ => s.controller.partial == []
  }

  predicate DisplayFits(s: State) {
    && s.display.applied <= s.applied <= |s.submitted|
    && (s.display.snapshot.Some? ==>
          && s.display.snapshot.value.committed == s.submitted[..s.display.applied]
          && (s.display.snapshot.value.partial != [] ==> s.display.applied < s.progress.submitted))
  }

  predicate Consistent(s: State) {
    Counted(s) && QueueHoldsPending(s) && StageFits(s) && DisplayFits(s)
  }

  lemma PollKeepsConsistent(s: State)
    requires Consistent(s)
    ensures Consistent(Poll(s))
  {
  }

  lemma SubmitKeepsConsistent(s: State, edits: Batch)
    requires Consistent(s)
    ensures Consistent(SubmitStep(s, edits))
  {
    if Sends(s.progress, s.channel, edits) {
      assert (s.submitted + [edits])[..s.applied] == s.submitted[..s.applied];
      assert (s.submitted + [edits])[..s.progress.applied] == s.submitted[..s.progress.applied];
      assert (s.submitted + [edits])[..s.display.applied] == s.submitted[..s.display.applied];
    }
  }

  lemma TakeKeepsConsistent(s: State)
    requires Consistent(s) && s.stage.TakeEdits?
    ensures Consistent(Take(s))
  {
  }

  lemma EditKeepsConsistent(s: State, accepted: bool)
    requires Consistent(s) && s.stage.Applying?
    ensures Consistent(EditStep(s, accepted))
  {
    var partial, rest := s.controller.partial, s.stage.rest;
    if rest == [] {
      assert partial + rest == partial;
    } else {
      assert partial + [rest[0]] + rest[1..] == partial + rest;
    }
  }

  lemma CommitKeepsConsistent(s: State, delivered: bool)
    requires Consistent(s) && s.stage.Committing?
    ensures Consistent(CommitStep(s, delivered))
  {
  }

  lemma PublishKeepsConsistent(s: State, hasSnapshot: bool)
    requires Consistent(s) && s.stage.Publishing?
    ensures Consistent(PublishStep(s, hasSnapshot)) && Consistent(BusyStep(s))
  {
  }

  /** The steps that leave batches, views and display alone. */
  lemma {:induction false} QuietStepsKeepConsistent(s: State, a: Action)
    requires Consistent(s)
    requires a.UiStop? || a.WorkerCheck? || a.WorkerService? || a.WorkerAudio? || a.WorkerDecide?
             || a.WorkerClose?
    ensures Consistent(Next(s, a))
  {
  }

  /** Both threads keep the invariant, whatever step is taken. */
  lemma StepKeepsConsistent(s: State, a: Action)
    requires Consistent(s)
    ensures Consistent(Next(s, a))
  {
    match a
    case UiPoll => PollKeepsConsistent(s);
    case UiSubmit(edits) => SubmitKeepsConsistent(s, edits);
    case WorkerTake => if s.stage.TakeEdits? { TakeKeepsConsistent(s); }
    case WorkerEdit(accepted) => if s.stage.Applying? { EditKeepsConsistent(s, accepted); }
    case WorkerCommit(delivered) => if s.stage.Committing? { CommitKeepsConsistent(s, delivered); }
    case WorkerPublish(hasSnapshot) =>
      if s.stage.Publishing? { PublishKeepsConsistent(s, hasSnapshot); }
    case WorkerBusy => if s.stage.Publishing? { PublishKeepsConsistent(s, false); }
    case _ => QuietStepsKeepConsistent(s, a);
  }

  lemma {:induction false} EveryRunIsConsistent(actions: seq<Action>)
    ensures Consistent(Run(actions))
  {
    if actions != [] {
      EveryRunIsConsistent(actions[..|actions| - 1]);
      StepKeepsConsistent(Run(actions[..|actions| - 1]), actions[|actions| - 1]);
    }
  }

  // ---------------------------------------------------------------- what every run guarantees

  /** Committed batches are the first submitted ones, each once and in order; at most the last
      submitted batch is missing; edits executed but not committed belong to that batch. */
  lemma {:induction false} CommittedIsPrefix(actions: seq<Action>)
    ensures var s := Run(actions);
            && s.controller.committed <= s.submitted
            && |s.submitted| <= |s.controller.committed| + 1
            && (s.controller.partial != [] ==> |s.submitted| == |s.controller.committed| + 1)
  {
    EveryRunIsConsistent(actions);
  }

  /** When the UI may edit, nothing is queued, the worker applied every batch, it is not in the
      middle of one, and the view shows exactly those batches. */
  lemma {:induction false} ReadyMeansDrained(actions: seq<Action>)
    ensures var s := Run(actions);
            s.progress.Ready() ==>
              && s.channel.slot.None?
              && s.controller == Controller(s.submitted, [])
              && s.view == s.controller
              && !s.stage.Applying? && !s.stage.Committing?
  {
    EveryRunIsConsistent(actions);
    var s := Run(actions);
    assert s.submitted[..|s.submitted|] == s.submitted;
  }

  /** A snapshot that the UI adopts shows every submitted batch and no part of another. */
  lemma {:induction false} AdoptedSnapshotIsComplete(actions: seq<Action>)
    ensures var s := Run(actions);
            var t := Next(s, UiPoll);
            s.display.snapshot.Some? && t.display.snapshot.None? ==>
              t.view == Controller(s.submitted, []) && t.progress.Ready()
  {
    EveryRunIsConsistent(actions);
    var s := Run(actions);
    assert s.submitted[..|s.submitted|] == s.submitted;
  }

  /** The view never shows a half-applied batch, and only ever falls short by one batch. */
  lemma {:induction false} ViewIsWhole(actions: seq<Action>)
    ensures var s := Run(actions);
            && s.view.partial == []
            && s.view.committed <= s.controller.committed <= s.submitted
            && |s.submitted| <= |s.view.committed| + 1
  {
    EveryRunIsConsistent(actions);
  }

  // ---------------------------------------------------------------- a batch comes through

  function RunFrom(s: State, actions: seq<Action>): State
    decreases |actions|
  {
    if actions == [] then s else RunFrom(Next(s, actions[0]), actions[1..])
  }

  lemma {:induction false} RunFromConcatenation(s: State, a: seq<Action>, b: seq<Action>)
    ensures RunFrom(s, a + b) == RunFrom(RunFrom(s, a), b)
    decreases |a|
  {
    if a == [] {
      assert a + b == b;
    } else {
      assert (a + b)[1..] == a[1..] + b;
      RunFromConcatenation(Next(s, a[0]), a[1..], b);
    }
  }

  function AcceptAll(n: nat): seq<Action> {
    if n == 0 then [WorkerEdit(true)] else [WorkerEdit(true)] + AcceptAll(n - 1)
  }

  lemma {:induction false} AcceptedEditsReachCommit(s: State)
    requires s.stage.Applying?
    ensures RunFrom(s, AcceptAll(|s.stage.rest|)) ==
            s.(stage := Committing(s.stage.sequence),
               controller := s.controller.(partial := s.controller.partial + s.stage.rest))
    decreases |s.stage.rest|
  {
    var rest, script := s.stage.rest, AcceptAll(|s.stage.rest|);
    assert script[0] == WorkerEdit(true);
    if rest == [] {
      assert script[1..] == [];
      assert s.controller.partial + [] == s.controller.partial;
    } else {
      assert script[1..] == AcceptAll(|rest| - 1);
      AcceptedEditsReachCommit(EditStep(s, true));
      assert s.controller.partial + [rest[0]] + rest[1..] == s.controller.partial + rest;
    }
  }

  const FINISH := [WorkerCommit(true), WorkerService([], true), WorkerAudio(true),
                   WorkerPublish(true), UiPoll]

  predicate Queued(s: State) {
    && Consistent(s) && s.stage.CheckStop? && !s.stopSent
    && s.channel.slot.Some? && |s.channel.slot.value.1| <= EDIT_LIMIT
  }

  function Begun(s: State): State { Next(Next(s, WorkerCheck), WorkerTake) }

  function Script(edits: Batch): seq<Action> {
    [WorkerCheck, WorkerTake] + (AcceptAll(|edits|) + FINISH)
  }

  lemma BatchIsTaken(s: State)
    requires Queued(s)
    ensures RunFrom(s, [WorkerCheck, WorkerTake]) == Begun(s)
    ensures Begun(s).stage == Applying(s.progress.submitted, s.submitted[s.applied])
    ensures Begun(s).controller == Controller(s.submitted[..s.applied], [])
    ensures Begun(s).submitted == s.submitted && Begun(s).progress == s.progress
  {
  }

  /** Nothing blocks a queued batch: one worker cycle without failures and one poll make the
      UI ready again, with a view that shows every submitted batch. */
  lemma {:induction false} QueuedBatchComesThrough(s: State)
    requires Queued(s)
    ensures var t := RunFrom(s, Script(s.channel.slot.value.1));
            t.progress.Ready() && t.submitted == s.submitted && t.view == Controller(s.submitted, [])
  {
    var edits := s.channel.slot.value.1;
    assert RunFrom(s, [WorkerCheck, WorkerTake]) == Begun(s) by {
      BatchIsTaken(s);
    }
    RunFromConcatenation(s, [WorkerCheck, WorkerTake], AcceptAll(|edits|) + FINISH);
    RunFromConcatenation(Begun(s), AcceptAll(|edits|), FINISH);
    TakenBatchReachesCommit(s);
    FinishAdopts(RunFrom(Begun(s), AcceptAll(|edits|)));
    assert s.submitted[..s.applied] + [s.submitted[s.applied]] == s.submitted;
  }

  lemma {:induction false} TakenBatchReachesCommit(s: State)
    requires Queued(s)
    ensures var t := RunFrom(Begun(s), AcceptAll(|s.channel.slot.value.1|));
            && t.stage == Committing(t.progress.submitted)
            && t.controller == Controller(s.submitted[..s.applied], s.submitted[s.applied])
            && t.submitted == s.submitted
  {
    BatchIsTaken(s);
    AcceptedEditsReachCommit(Begun(s));
    assert [] + s.submitted[s.applied] == s.submitted[s.applied];
  }

  lemma {:induction false} FinishAdopts(s: State)
    requires s.stage.Committing? && s.stage.done == s.progress.submitted
    ensures var t := RunFrom(s, FINISH);
            && t.progress.Ready() && t.submitted == s.submitted
            && t.view == Controller(s.controller.committed + [s.controller.partial], [])
  {
    var a := Next(s, FINISH[0]);
    var b := Next(a, FINISH[1]);
    var c := Next(b, FINISH[2]);
    var d := Next(c, FINISH[3]);
    assert FINISH[1..][1..] == FINISH[2..] && FINISH[2..][1..] == FINISH[3..];
    assert FINISH[3..][1..] == FINISH[4..] && FINISH[4..][1..] == [];
    assert RunFrom(d, FINISH[4..]) == Poll(d);
  }

  // ---------------------------------------------------------------- a batch is rejected

  /** The pending batch failed and the worker is on its way out. */
  predicate PendingFailed(s: State) {
    && Consistent(s)
    && Pending(s)
    && (s.stage == Publishing(true) || s.stage == Deciding(true)
        || s.stage.Closing? || s.stage.Exited?)
  }

  lemma RejectionPersists(s: State, a: Action)
    requires PendingFailed(s)
    ensures PendingFailed(Next(s, a))
    ensures Next(s, a).submitted == s.submitted && Next(s, a).controller == s.controller
  {
    StepKeepsConsistent(s, a);
  }

  /** After a rejected batch, whatever both threads do next, nothing more is submitted or
      applied, the UI is never ready again, and no later view shows the rejected batch. */
  lemma {:induction false} RejectionIsFinal(s: State, actions: seq<Action>)
    requires PendingFailed(s)
    ensures var t := RunFrom(s, actions);
            && t.submitted == s.submitted && t.controller == s.controller
            && !t.progress.Ready()
            && |t.view.committed| < |t.submitted|
    decreases |actions|
  {
    if actions != [] {
      RejectionPersists(s, actions[0]);
      RejectionIsFinal(Next(s, actions[0]), actions[1..]);
    }
  }

  // ---------------------------------------------------------------- stopping

  /** The worker sees the stop before it looks at the queue again. */
  predicate StopDue(s: State) {
    s.stopSent && (s.stage.CheckStop? || s.stage.Closing? || s.stage.Exited?)
  }

  /** Once a stop is due, nothing more is applied, whatever both threads do next. */
  lemma {:induction false} StopIsHonoured(s: State, actions: seq<Action>)
    requires StopDue(s)
    ensures var t := RunFrom(s, actions);
            StopDue(t) && t.controller == s.controller && t.applied == s.applied
    decreases |actions|
  {
    if actions != [] {
      StopIsHonoured(Next(s, actions[0]), actions[1..]);
    }
  }

  /** A stop that is sent while the worker waits makes its next two steps close the controller
      and drop the channel, whatever is queued. */
  lemma {:induction false} StopCloses(s: State)
    requires s.stage.CheckStop?
    ensures var t := RunFrom(s, [UiStop, WorkerCheck, WorkerClose]);
            t == s.(stopSent := true, stage := Exited, channel := Channel(None, false))
    ensures s.stopSent ==>
              RunFrom(s, [WorkerCheck, WorkerClose]) ==
                s.(stage := Exited, channel := Channel(None, false))
  {
    assert [UiStop, WorkerCheck, WorkerClose][1..] == [WorkerCheck, WorkerClose];
    assert [WorkerCheck, WorkerClose][1..] == [WorkerClose];
  }

  /** How many batches the worker may still commit before it checks for a stop. */
  function UnderWay(s: State): nat {
    if s.stage.TakeEdits? || s.stage.Applying? || s.stage.Committing? then 1 else 0
  }

  lemma StopAllowsOneStep(s: State, a: Action)
    requires s.stopSent
    ensures Next(s, a).stopSent && s.controller.committed <= Next(s, a).controller.committed
    ensures |Next(s, a).controller.committed| + UnderWay(Next(s, a)) <=
            |s.controller.committed| + UnderWay(s)
  {
    match a
    case WorkerEdit(accepted) => if s.stage.Applying? { assert UnderWay(EditStep(s, accepted)) <= 1; }
    case _ =>
  }

  /** Wherever the worker is when the stop is sent, at most the batch under way is committed. */
  lemma {:induction false} StopAllowsOneBatch(s: State, actions: seq<Action>)
    requires s.stopSent
    ensures var t := RunFrom(s, actions);
            s.controller.committed <= t.controller.committed
            && |t.controller.committed| + UnderWay(t) <= |s.controller.committed| + UnderWay(s)
    decreases |actions|
  {
    if actions != [] {
      StopAllowsOneStep(s, actions[0]);
      StopAllowsOneBatch(Next(s, actions[0]), actions[1..]);
    }
  }

  // ---------------------------------------------------------------- failing

  predicate Failing(s: State) {
    || s.stage == Publishing(true) || s.stage == Deciding(true)
    || ((s.stage.Closing? || s.stage.Exited?) && s.failureSent)
  }

  /** What the worker fails on: a batch over the limit, a rejected edit, an undelivered commit,
      a failed service and a failed audio cycle. */
  predicate Fails(s: State, a: Action) {
    match a
    case WorkerTake =>
      s.stage.TakeEdits? && s.channel.slot.Some? && |s.channel.slot.value.1| > EDIT_LIMIT
    case WorkerEdit(accepted) => s.stage.Applying? && s.stage.rest != [] && !accepted
    case WorkerCommit(delivered) => s.stage.Committing? && !delivered
    case WorkerService(_, serviced) => s.stage.Servicing? && !serviced
    case WorkerAudio(cycled) => s.stage.AudioCycle? && !cycled
    case _ => false
  }

  lemma {:induction false} FailingPersists(s: State, actions: seq<Action>)
    requires Failing(s)
    ensures var t := RunFrom(s, actions);
            Failing(t) && t.controller == s.controller && t.applied == s.applied
    decreases |actions|
  {
    if actions != [] {
      FailingPersists(Next(s, actions[0]), actions[1..]);
    }
  }

  /** Every failure ends the worker: nothing is applied after it, the worker never comes back to
      its queue, and it closes only with the failure sent. */
  lemma {:induction false} FailureCloses(s: State, a: Action, actions: seq<Action>)
    requires Fails(s, a)
    ensures var failed := Next(s, a);
            var t := RunFrom(failed, actions);
            && failed.stage == Publishing(true)
            && failed.controller == s.controller && failed.applied == s.applied
            && t.controller == s.controller && t.applied == s.applied
            && !t.stage.CheckStop?
            && (t.stage.Closing? || t.stage.Exited? ==> t.failureSent)
  {
    FailingPersists(Next(s, a), actions);
  }

  /** However the display is, the worker then needs three more steps to its end. */
  lemma {:induction false} FailingCloses(s: State, shown: bool, hasSnapshot: bool)
    requires s.stage == Publishing(true)
    ensures var publish := if shown then WorkerPublish(hasSnapshot) else WorkerBusy;
            var t := RunFrom(s, [publish, WorkerDecide, WorkerClose]);
            && t.stage.Exited? && t.failureSent && t.channel == Channel(None, false)
            && t.controller == s.controller && t.applied == s.applied
  {
    var publish := if shown then WorkerPublish(hasSnapshot) else WorkerBusy;
    var decided := Next(Next(s, publish), WorkerDecide);
    assert [publish, WorkerDecide, WorkerClose][1..] == [WorkerDecide, WorkerClose];
    assert [WorkerDecide, WorkerClose][1..] == [WorkerClose];
    assert RunFrom(decided, [WorkerClose]) == RunFrom(Next(decided, WorkerClose), []);
  }

  // ---------------------------------------------------------------- log conservation

  predicate LogsCounted(s: State) {
    && s.produced == |s.taken| + |s.display.logs| + |s.lines| + s.dropped
    && s.omittedLogs == Lesser(U64_MAX, s.dropped)
    && s.display.logs == Latest(s.sinceTake)
    && (s.lines != [] ==> s.stage.AudioCycle? || s.stage.Publishing?)
  }

  lemma PublishCountsLogs(s: State, hasSnapshot: bool)
    requires LogsCounted(s) && s.stage.Publishing?
    ensures LogsCounted(PublishStep(s, hasSnapshot)) && LogsCounted(BusyStep(s))
  {
  }

  lemma PollCountsLogs(s: State)
    requires LogsCounted(s)
    ensures LogsCounted(Poll(s))
  {
  }

  lemma ServiceCountsLogs(s: State, newLines: seq<Line>, serviced: bool)
    requires LogsCounted(s) && s.stage.Servicing?
    ensures LogsCounted(ServiceStep(s, newLines, serviced))
  {
  }

  lemma OtherStepsCountLogs(s: State, t: State)
    requires LogsCounted(s)
    requires t.produced == s.produced && t.taken == s.taken && t.dropped == s.dropped
    requires t.lines == s.lines && t.sinceTake == s.sinceTake && t.omittedLogs == s.omittedLogs
    requires t.display == s.display
    requires t.stage.AudioCycle? || t.stage.Publishing? || s.lines == []
    ensures LogsCounted(t)
  {
  }

  predicate MovesLogs(a: Action) {
    a.UiPoll? || a.WorkerService? || a.WorkerPublish? || a.WorkerBusy?
  }

  lemma {:induction false} QuietStepsKeepLogs(s: State, a: Action)
    requires !MovesLogs(a)
    ensures var t := Next(s, a);
            && t.produced == s.produced && t.taken == s.taken && t.dropped == s.dropped
            && t.lines == s.lines && t.sinceTake == s.sinceTake && t.omittedLogs == s.omittedLogs
            && t.display == s.display
            && (s.stage.AudioCycle? || s.stage.Publishing? ==>
                  t.stage == s.stage || t.stage.Publishing?)
  {
  }

  lemma {:induction false} QuietStepsCountLogs(s: State, a: Action)
    requires LogsCounted(s) && !MovesLogs(a)
    ensures LogsCounted(Next(s, a))
  {
    QuietStepsKeepLogs(s, a);
    OtherStepsCountLogs(s, Next(s, a));
  }

  lemma StepCountsLogs(s: State, a: Action)
    requires LogsCounted(s)
    ensures LogsCounted(Next(s, a))
  {
    match a
    case WorkerPublish(hasSnapshot) => if s.stage.Publishing? { PublishCountsLogs(s, hasSnapshot); }
    case WorkerBusy => if s.stage.Publishing? { PublishCountsLogs(s, false); }
    case UiPoll => PollCountsLogs(s);
    case WorkerService(newLines, serviced) =>
      if s.stage.Servicing? { ServiceCountsLogs(s, newLines, serviced); }
    case _ => QuietStepsCountLogs(s, a);
  }

  lemma {:induction false} LogsAreCounted(actions: seq<Action>)
    ensures LogsCounted(Run(actions))
  {
    if actions != [] {
      LogsAreCounted(actions[..|actions| - 1]);
      StepCountsLogs(Run(actions[..|actions| - 1]), actions[|actions| - 1]);
    }
  }

  lemma LatestOfLatest(older: seq<Line>, newer: seq<Line>)
    ensures Latest(Latest(older) + newer) == Latest(older + newer)
  {
  }

  /** The lines of a service reach the UI, after those that waited, whether or not the service
      and the audio cycle succeed. */
  lemma {:induction false} LinesComeThrough(s: State, newLines: seq<Line>, serviced: bool,
                                            cycled: bool, hasSnapshot: bool)
    requires s.stage.Servicing?
    ensures var done := Next(Next(s, WorkerService(newLines, serviced)), WorkerAudio(cycled));
            var t := Next(Next(done, WorkerPublish(hasSnapshot)), UiPoll);
            && t.outputLog == Latest(s.outputLog + Latest(s.display.logs + newLines))
            && t.produced == s.produced + |newLines|
            && t.display.logs == [] && t.lines == []
  {
    var done := Next(Next(s, WorkerService(newLines, serviced)), WorkerAudio(cycled));
    assert done.stage.Publishing? && done.lines == newLines && done.display == s.display;
    PublishedLinesAreTaken(done, hasSnapshot);
  }

  lemma {:induction false} PublishedLinesAreTaken(s: State, hasSnapshot: bool)
    requires s.stage.Publishing?
    ensures var t := Next(Next(s, WorkerPublish(hasSnapshot)), UiPoll);
            && t.outputLog == Latest(s.outputLog + Latest(s.display.logs + s.lines))
            && t.produced == s.produced && t.display.logs == [] && t.lines == []
  {
  }

  predicate ShowsTaken(s: State) { s.outputLog == Latest(s.taken) }

  lemma StepShowsTaken(s: State, a: Action)
    requires ShowsTaken(s)
    ensures ShowsTaken(Next(s, a))
  {
    if a.UiPoll? {
      LatestOfLatest(s.taken, s.display.logs);
    }
  }

  /** The UI shows the newest of all the lines it took, in order. */
  lemma {:induction false} TakenIsShown(actions: seq<Action>)
    ensures var s := Run(actions);
            && |s.outputLog| == Lesser(|s.taken|, OUTPUT_LOG_LIMIT)
            && s.outputLog == s.taken[|s.taken| - |s.outputLog|..]
  {
    TakenIsLatest(actions);
  }

  lemma {:induction false} TakenIsLatest(actions: seq<Action>)
    ensures ShowsTaken(Run(actions))
  {
    if actions != [] {
      TakenIsLatest(actions[..|actions| - 1]);
      StepShowsTaken(Run(actions[..|actions| - 1]), actions[|actions| - 1]);
    }
  }

  /** Every line produced was taken by the UI, waits for it, is about to be published, or was
      counted as omitted, as far as a u64 counts; at most 200 wait, and they are the newest of
      those published since the UI last took some, in order. */
  predicate Accounted(s: State) {
    var accounted := |s.taken| + |s.display.logs| + |s.lines|;
    && accounted <= s.produced
    && s.omittedLogs == Lesser(U64_MAX, s.produced - accounted)
    && |s.display.logs| == Lesser(|s.sinceTake|, OUTPUT_LOG_LIMIT)
    && s.display.logs == s.sinceTake[|s.sinceTake| - |s.display.logs|..]
  }

  lemma CountedIsAccounted(s: State)
    requires LogsCounted(s)
    ensures Accounted(s)
  {
  }

  lemma {:induction false} LogConservation(actions: seq<Action>)
    ensures Accounted(Run(actions))
  {
    LogsAreCounted(actions);
    CountedIsAccounted(Run(actions));
  }
}
