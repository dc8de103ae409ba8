/** The lifecycle of a controller with a HID side and an audio side that fail independently but
    must end together. */
module CoupledLifecycle {
  import opened Outcomes

  // ---------------------------------------------------------------- the two sides

  datatype HidState = NotOpen | Open | Closed | Failed

  datatype HidChange = Stays | GetsClosed | Fails

  /** What a service call of the HID side emits: an event for the caller, nothing for the caller,
      or a required protocol request that escaped its owner. */
  datatype Event = Delivered(payload: nat) | Hidden | Leaked(error: nat)

  datatype Answer = Accepted | Rejected(reason: nat)

  /** What a call that reaches the HID side finds: its own state, and the audio as last seen,
      after so many questions. */
  datatype Reach = Reach(hid: HidState, audioFailed: bool, asked: nat)

  /** The HID side. It may close or fail by itself, which shows at its next call; a state other
      than open is final. Every call that reaches it is recorded. */
  class Hid {
    const changes: nat -> HidChange
    const answers: nat -> Answer
    const emitted: nat -> seq<Event>
    var state: HidState
    var calls: nat
    ghost var reached: seq<Reach>
    ghost var served: seq<nat>

    constructor (changes: nat -> HidChange, answers: nat -> Answer, emitted: nat -> seq<Event>)
      ensures this.changes == changes && this.answers == answers && this.emitted == emitted
      ensures state == Open && calls == 0 && reached == [] && served == []
    {
      this.changes, this.answers, this.emitted := changes, answers, emitted;
      state, calls := Open, 0;
      reached, served := [], [];
    }

    static function Changed(state: HidState, change: HidChange): HidState {
      if state != Open then state
      else match change case Stays => Open case GetsClosed => Closed case Fails => Failed
    }

    method Diagnose() returns (seen: HidState)
      modifies this`state, this`calls
      ensures seen == state == Changed(old(state), changes(old(calls))) && calls == old(calls) + 1
    {
      state, calls := Changed(state, changes(calls)), calls + 1;
      seen := state;
    }

    method Close()
      modifies this`state
      ensures state == if old(state) == Failed then Failed else Closed
    {
      state := if state == Failed then Failed else Closed;
    }

    /** An edit or a commit. */
    method Perform(ghost audio: Audio) returns (answer: Answer)
      modifies this`state, this`calls, this`reached
      ensures calls == old(calls) + 1
      ensures state == Changed(old(state), changes(old(calls)))
      ensures answer == answers(old(calls))
      ensures reached == old(reached) + [Reach(old(state), audio.failed, audio.queries)]
    {
      reached := reached + [Reach(state, audio.failed, audio.queries)];
      answer := answers(calls);
      state, calls := Changed(state, changes(calls)), calls + 1;
    }

    /** A service call, with the events it emits. */
    method Serve(ghost audio: Audio) returns (answer: Answer, events: seq<Event>)
      modifies this
      ensures calls == old(calls) + 1
      ensures state == Changed(old(state), changes(old(calls)))
      ensures answer == answers(old(calls)) && events == emitted(old(calls))
      ensures reached == old(reached) + [Reach(old(state), audio.failed, audio.queries)]
      ensures served == old(served) + [old(calls)]
    {
      events, served := emitted(calls), served + [calls];
      answer := Perform(audio);
    }
  }

  /** The audio side. Its worker may fail at any time, which shows at the next question, and a
      failure stays visible, also after the close. Closing asks the worker a last time and cleans
      up, and either can show a failure. One backend asks the worker anew for its error as well;
      the other reports only the error that its close retained. */
  class Audio {
    const fails: nat -> bool
    const closeFails: bool
    const asksForError: bool
    var closed: bool
    var failed: bool
    var retained: bool
    var queries: nat

    ghost predicate Valid()
      reads this
    {
      && retained == (closed && closeFails)
      && (retained ==> failed)
      && (!failed ==> forall k | 0 <= k < queries :: !fails(k))
    }

    constructor (fails: nat -> bool, closeFails: bool, asksForError: bool)
      ensures this.fails == fails && this.closeFails == closeFails
      ensures this.asksForError == asksForError
      ensures Valid() && !closed && !failed && queries == 0
    {
      this.fails, this.closeFails, this.asksForError := fails, closeFails, asksForError;
      closed, failed, retained, queries := false, false, false, 0;
    }

    method HasFailed() returns (f: bool)
      requires Valid()
      modifies this`failed, this`queries
      ensures Valid()
      ensures f == failed == (old(failed) || fails(old(queries))) && queries == old(queries) + 1
    {
      failed, queries := failed || fails(queries), queries + 1;
      f := failed;
    }

    method LastError() returns (error: bool)
      requires Valid()
      modifies this`failed, this`queries
      ensures Valid()
      ensures asksForError ==>
                error == failed == (old(failed) || fails(old(queries))) && queries == old(queries) + 1
      ensures !asksForError ==>
                error == retained && failed == old(failed) && queries == old(queries)
    {
      if asksForError {
        error := HasFailed();
      } else {
        error := retained;
      }
    }

    method Close()
      requires Valid()
      modifies this`closed, this`failed, this`retained
      ensures Valid() && closed
      ensures failed == (old(failed) || (!old(closed) && closeFails))
    {
      if !closed && closeFails {
        failed, retained := true, true;
      }
      closed := true;
    }
  }

  // ---------------------------------------------------------------- the service adapter

  function Deliveries(events: seq<Event>): seq<nat> {
    if events == [] then []
    else
      Deliveries(events[..|events| - 1])
      + match events[|events| - 1] case Delivered(p) => [p] case _ => []
  }

  /** The error of the last request that escaped. */
  function Leak(events: seq<Event>): Option<nat> {
    if events == [] then None
    else match events[|events| - 1]
      case Leaked(e) => Some(e)
      case _ => Leak(events[..|events| - 1])
  }

  lemma {:induction false} LeakMeaning(events: seq<Event>)
    ensures Leak(events).Some? <==> exists e :: e in events && e.Leaked?
    ensures Leak(events).Some? ==> Leaked(Leak(events).value) in events
  {
    if events != [] {
      LeakMeaning(events[..|events| - 1]);
      assert events == events[..|events| - 1] + [events[|events| - 1]];
    }
  }

  /** Hand the events over one by one. */
  method Adapt(events: seq<Event>) returns (delivered: seq<nat>, ownershipError: Option<nat>)
    ensures delivered == Deliveries(events) && ownershipError == Leak(events)
  {
    delivered, ownershipError := [], None;
    for i := 0 to |events|
      invariant delivered == Deliveries(events[..i]) && ownershipError == Leak(events[..i])
    {
      assert events[..i + 1][..i] == events[..i];
      match events[i] {
        case Delivered(p) => delivered := delivered + [p];
        case Hidden =>
        case Leaked(e) => ownershipError := Some(e);
      }
    }
    assert events[..|events|] == events;
  }

  // ---------------------------------------------------------------- the controller

  datatype ServiceError = AudioFailed | OwnershipError(error: nat) | HidError(reason: nat)

  predicate Ended(state: HidState) { state == Closed || state == Failed }

  class Controller {
    const hid: Hid
    const audio: Audio

    constructor (hid: Hid, audio: Audio)
      ensures this.hid == hid && this.audio == audio
    {
      this.hid, this.audio := hid, audio;
    }

    /** A closed or failed HID side has a closed audio side, and a failed audio side a closed or
        failed HID side. */
    ghost predicate Coupled()
      reads hid, audio
    {
      (Ended(hid.state) ==> audio.closed) && (audio.failed ==> Ended(hid.state))
    }

    /** Nothing that is over comes back. */
    twostate predicate Terminal()
      reads hid, audio
    {
      && (Ended(old(hid.state)) ==> hid.state == old(hid.state))
      && (old(audio.closed) ==> audio.closed)
      && (old(audio.failed) ==> audio.failed)
    }

    /** Every call that reached the HID side found it ended, or asked its audio before and saw no
        failure in that answer or any earlier one. A worker that had failed by then did so after
        that question. */
    ghost predicate Safe()
      reads hid, audio
    {
      && audio.Valid()
      && forall r | r in hid.reached && !Ended(r.hid) ::
           && !r.audioFailed
           && 0 < r.asked <= audio.queries
           && forall k | 0 <= k < r.asked :: !audio.fails(k)
    }

    /** A service call that let a required request escape has ended both sides. */
    ghost predicate Contained()
      reads hid, audio
    {
      forall call | call in hid.served ::
        Leak(hid.emitted(call)).Some? ==> Ended(hid.state) && audio.closed
    }

    method Close()
      requires audio.Valid()
      modifies hid`state, audio`closed, audio`failed, audio`retained
      ensures audio.Valid() && Ended(hid.state) && audio.closed && Terminal()
      ensures old(audio.failed) ==> audio.failed
    {
      audio.Close();
      hid.Close();
    }

    /** reap_audio_failure: the sides end together as far as they were seen. */
    method Reap()
      requires audio.Valid()
      modifies hid`state, hid`calls, audio
      ensures audio.Valid() && Coupled() && Terminal() && audio.queries == old(audio.queries) + 1
      ensures var asked := old(audio.failed) || audio.fails(old(audio.queries));
              if asked then audio.failed && Ended(hid.state) && audio.closed
              else
                && hid.calls == old(hid.calls) + 1
                && hid.state == Hid.Changed(old(hid.state), hid.changes(old(hid.calls)))
                && audio.closed == (old(audio.closed) || Ended(hid.state))
                && audio.failed == (Ended(hid.state) && !old(audio.closed) && audio.closeFails)
    {
      var failed := audio.HasFailed();
      if failed {
        Close();
      } else {
        var state := hid.Diagnose();
        if Ended(state) {
          audio.Close();
        }
      }
    }

    /** An edit, neutralize or commit: it reaches the HID side only after the reap. */
    method Edit() returns (answer: Answer)
      requires Safe()
      modifies hid`state, hid`calls, hid`reached, audio
      ensures Safe() && Terminal()
      ensures |hid.reached| == |old(hid.reached)| + 1
      ensures hid.reached[..|old(hid.reached)|] == old(hid.reached)
      ensures var found := hid.reached[|old(hid.reached)|];
              && found.asked == old(audio.queries) + 1 && found.audioFailed == audio.failed
              && (if old(audio.failed) || audio.fails(old(audio.queries)) then Ended(found.hid)
                  else found.hid == Hid.Changed(old(hid.state), hid.changes(old(hid.calls))))
      ensures hid.calls > 0 && answer == hid.answers(hid.calls - 1)
    {
      Reap();
      answer := hid.Perform(audio);
    }

    /** The audio failure is first seen by the question after the reap. */
    ghost predicate LateFailure()
      reads audio
    {
      && !audio.failed
      && !audio.fails(audio.queries)
      && audio.fails(audio.queries + 1)
    }

    /** diagnostics: a reported audio error comes with an ended HID side and closed audio, except
        when the failure first shows at the question for the error, after the reap. Then it is
        reported beside whatever the two diagnoses found, and the next reap closes it. */
    method Diagnostics() returns (state: HidState, audioError: bool)
      requires audio.Valid()
      modifies hid`state, hid`calls, audio
      ensures audio.Valid() && state == hid.state && Terminal()
      ensures audio.queries >= old(audio.queries)
      ensures audioError ==> audio.failed
      ensures audioError == if audio.asksForError then audio.failed
                            else audio.closed && audio.closeFails
      ensures audioError && !(audio.asksForError && old(LateFailure())) ==>
                Ended(state) && audio.closed
      ensures audio.asksForError && old(LateFailure()) ==>
                var seen := Hid.Changed(old(hid.state), hid.changes(old(hid.calls)));
                && audioError
                && state == Hid.Changed(seen, hid.changes(old(hid.calls) + 1))
                && audio.closed == (old(audio.closed) || Ended(seen))
      ensures audio.asksForError ==>
                (audioError <==>
                  || old(audio.failed)
                  || audio.fails(old(audio.queries))
                  || audio.fails(old(audio.queries) + 1)
                  || (!old(audio.closed) && audio.closeFails
                      && Ended(Hid.Changed(old(hid.state), hid.changes(old(hid.calls))))))
    {
      Reap();
      state := hid.Diagnose();
      audioError := audio.LastError();
    }

    /** service: afterwards the sides have ended together, except when the audio failure first
        shows between the reap and the question that follows it; then the call reports a closed
        controller that is still open, and the next reap closes it. An escaped request ends both
        sides in the same call. */
    method Service() returns (delivered: seq<nat>, result: Result<(), ServiceError>)
      requires Safe()
      modifies hid, audio
      ensures Safe() && Terminal()
      ensures Coupled() <==> !old(LateFailure()) || Ended(hid.state)
      ensures old(LateFailure()) ==>
                && hid.state == Hid.Changed(old(hid.state), hid.changes(old(hid.calls)))
                && audio.closed == (old(audio.closed) || Ended(hid.state))
      ensures result == Err(AudioFailed) <==>
                || old(audio.failed)
                || audio.fails(old(audio.queries))
                || audio.fails(old(audio.queries) + 1)
                || (!old(audio.closed) && audio.closeFails
                    && Ended(Hid.Changed(old(hid.state), hid.changes(old(hid.calls)))))
      ensures result == Err(AudioFailed) ==>
                delivered == [] && hid.reached == old(hid.reached) && hid.served == old(hid.served)
      ensures result != Err(AudioFailed) ==>
                var call := old(hid.calls) + 1;
                && hid.served == old(hid.served) + [call]
                && |hid.reached| == |old(hid.reached)| + 1
                && hid.reached[..|old(hid.reached)|] == old(hid.reached)
                && hid.reached[|old(hid.reached)|].asked == old(audio.queries) + 2
                && delivered == Deliveries(hid.emitted(call))
                && (match Leak(hid.emitted(call))
                    case Some(e) =>
                      result == Err(OwnershipError(e)) && Ended(hid.state) && audio.closed
                    case None =>
                      result == match hid.answers(call)
                                case Accepted => Ok(())
                                case Rejected(reason) => Err(HidError(reason)))
    {
      Reap();
      var failed := audio.HasFailed();
      if failed {
        return [], Err(AudioFailed);
      }
      var answer, events := hid.Serve(audio);
      var ownershipError;
      delivered, ownershipError := Adapt(events);
      if ownershipError.Some? {
        Close();
        return delivered, Err(OwnershipError(ownershipError.value));
      }
      Reap();
      result := match answer case Accepted => Ok(()) case Rejected(reason) => Err(HidError(reason));
    }
  }

  /** The late failure does happen: service reports the controller closed with both sides open. */
  method LateFailureLeavesBothOpen()
    returns (result: Result<(), ServiceError>, state: HidState, audioClosed: bool)
    ensures result == Err(AudioFailed) && state == Open && !audioClosed
  {
    var hid := new Hid(_ => Stays, _ => Accepted, _ => []);
    var audio := new Audio(query => query == 1, false, true);
    var controller := new Controller(hid, audio);
    var _, r := controller.Service();
    result, state, audioClosed := r, hid.state, audio.closed;
  }

  /** Nor is it only service: diagnostics reports the audio error beside an open HID side. */
  method LateErrorBesideOpenHid()
    returns (state: HidState, audioError: bool, audioClosed: bool)
    ensures state == Open && audioError && !audioClosed
  {
    var hid := new Hid(_ => Stays, _ => Accepted, _ => []);
    var audio := new Audio(query => query == 1, false, true);
    var controller := new Controller(hid, audio);
    state, audioError := controller.Diagnostics();
    audioClosed := audio.closed;
  }

  /** The window that remains for an edit: a worker that fails after the question of the same
      call is beside an open HID side that the edit reaches, and the next question shows it. */
  method EditInTheWindow() returns (ghost found: Reach, failedNext: bool)
    ensures found == Reach(Open, false, 1) && failedNext
  {
    var hid := new Hid(_ => Stays, _ => Accepted, _ => []);
    var audio := new Audio(query => query >= 1, false, true);
    var controller := new Controller(hid, audio);
    var _ := controller.Edit();
    found := hid.reached[0];
    failedNext := audio.HasFailed();
  }

  // ---------------------------------------------------------------- every run

  datatype Command = EditCall | ServiceCall | DiagnosticsCall | AudioAccess | CloseCall

  /** Any run of calls on a controller, whatever fails when: a call reaches a HID side that has
      not ended only after its audio was asked and had not failed, nothing that ended comes back,
      and a close or an escaped request in the run has ended both sides for good. */
  method RunCommands(controller: Controller, commands: seq<Command>)
    requires controller.Safe() && controller.Contained()
    modifies controller.hid, controller.audio
    ensures controller.Safe() && controller.Terminal() && controller.Contained()
    ensures CloseCall in commands ==> Ended(controller.hid.state) && controller.audio.closed
    ensures commands != [] && commands[|commands| - 1] == AudioAccess ==> controller.Coupled()
  {
    for i := 0 to |commands|
      invariant controller.Safe() && controller.Terminal() && controller.Contained()
      invariant CloseCall in commands[..i] ==> Ended(controller.hid.state) && controller.audio.closed
      invariant i > 0 && commands[i - 1] == AudioAccess ==> controller.Coupled()
    {
      match commands[i] {
        case EditCall => var _ := controller.Edit();
        case ServiceCall => var _, _ := controller.Service();
        case DiagnosticsCall => var _, _ := controller.Diagnostics();
        case AudioAccess => controller.Reap();
        case CloseCall => controller.Close();
      }
    }
  }
}
