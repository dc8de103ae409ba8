/** The final microphone accounting of the live broker script: counters that keep growing in the
    worker are read one message at a time until two rounds agree. */
module BrokerAccounting {
  import opened Outcomes

  datatype Diagnostics = Diagnostics(
    lostOutputs: nat, completedTransfers: nat, microphoneSilence: nat, stalledTransfers: nat,
    playback: nat, capture: nat, abandonedCapture: nat, audioLateness: nat, queueDropped: nat,
    pumpLateness: nat)

  /** Everything the accounting reads: the worker's state at an instant, or one round of reads. */
  datatype Collected = Collected(host: nat, silence: nat, consumed: nat, counters: Diagnostics)

  datatype AccountingError =
    InvalidReply | DoesNotReconcile | SilenceDisagrees | Unaccounted | NotQuiescent

  datatype Accounting = Accounting(host: nat, consumed: nat, silence: nat, submitted: nat,
                                   unconsumed: nat, completed: nat, abandoned: nat)

  type Verdict = Result<(Accounting, Diagnostics), AccountingError>

  /** Nothing the worker counts ever goes down. */
  predicate Grows(a: Collected, b: Collected) {
    && a.host <= b.host
    && a.silence <= b.silence
    && a.consumed <= b.consumed
    && DiagnosticsGrow(a.counters, b.counters)
  }

  predicate DiagnosticsGrow(a: Diagnostics, b: Diagnostics) {
    && a.lostOutputs <= b.lostOutputs
    && a.completedTransfers <= b.completedTransfers
    && a.microphoneSilence <= b.microphoneSilence
    && a.stalledTransfers <= b.stalledTransfers
    && a.playback <= b.playback
    && a.capture <= b.capture
    && a.abandonedCapture <= b.abandonedCapture
    && a.audioLateness <= b.audioLateness
    && a.queueDropped <= b.queueDropped
    && a.pumpLateness <= b.pumpLateness
  }

  ghost predicate OnlyGrows(at: nat -> Collected) {
    forall s: nat, t: nat | s <= t :: Grows(at(s), at(t))
  }

  /** When each of the four messages of a round was answered. */
  datatype Times = Times(host: nat, credit: nat, counters: nat, pump: nat)

  /** A round of reads, each of the worker at its own moment. */
  ghost predicate ReadAt(c: Collected, at: nat -> Collected, times: Times) {
    && times.host <= times.credit <= times.counters <= times.pump
    && c.host == at(times.host).host
    && c.silence == at(times.host).silence
    && c.consumed == at(times.credit).consumed
    && c.counters == at(times.counters).counters.(pumpLateness := at(times.pump).counters.pumpLateness)
  }

  /** Two agreeing rounds are a snapshot: the worker held every value at the end of the first. */
  lemma DoubleCollect(c: Collected, at: nat -> Collected, first: Times, second: Times)
    requires OnlyGrows(at)
    requires ReadAt(c, at, first) && ReadAt(c, at, second) && first.pump <= second.host
    ensures at(first.pump) == c
  {
  }

  // ---------------------------------------------------------------- judging one instant

  /** The judgement of a state of the worker held at one instant. */
  function Judged(c: Collected, submitted: nat): Verdict {
    if c.consumed > submitted || c.host != c.consumed + c.silence then Err(DoesNotReconcile)
    else if c.silence != c.counters.microphoneSilence then Err(SilenceDisagrees)
    else if c.host != c.counters.capture + c.counters.abandonedCapture then Err(Unaccounted)
    else
      Ok((Accounting(c.host, c.consumed, c.silence, submitted, submitted - c.consumed,
                     c.counters.capture, c.counters.abandonedCapture), c.counters))
  }

  /** Every frame is in exactly one place on each of the three ways of counting. */
  predicate Reconciles(a: Accounting) {
    && a.submitted == a.consumed + a.unconsumed
    && a.host == a.consumed + a.silence
    && a.host == a.completed + a.abandoned
  }

  /** What a verdict claims about a state, field by field. The checks come in this order: host
      frames against credit, the two silences, and the completed transfers. */
  predicate Claims(verdict: Verdict, c: Collected, submitted: nat) {
    var balanced := c.consumed <= submitted && c.host == c.consumed + c.silence;
    var silent := c.silence == c.counters.microphoneSilence;
    var finished := c.host == c.counters.capture + c.counters.abandonedCapture;
    match verdict
    case Ok((a, counters)) =>
      && balanced && silent && finished && counters == c.counters
      && a.submitted == submitted && a.host == c.host && a.consumed == c.consumed
      && a.silence == c.silence && a.completed == c.counters.capture
      && a.abandoned == c.counters.abandonedCapture && a.unconsumed == submitted - c.consumed
    case Err(DoesNotReconcile) => !balanced
    case Err(SilenceDisagrees) => balanced && !silent
    case Err(Unaccounted) => balanced && silent && !finished
    case Err(_) => false
  }

  lemma JudgementMeaning(c: Collected, submitted: nat, verdict: Verdict)
    ensures verdict == Judged(c, submitted) <==> Claims(verdict, c, submitted)
    ensures verdict == Judged(c, submitted) && verdict.Ok? ==> Reconciles(verdict.value.0)
  {
  }

  // ---------------------------------------------------------------- the control channel

  /** The worker: its state as a function of time, how long each message takes to be answered,
      and which answers are malformed. */
  class Worker {
    const at: nat -> Collected
    const pauses: nat -> nat
    const malformed: nat -> bool
    var now: nat
    var messages: nat

    constructor (at: nat -> Collected, pauses: nat -> nat, malformed: nat -> bool)
      ensures this.at == at && this.pauses == pauses && this.malformed == malformed
      ensures now == 0 && messages == 0
    {
      this.at, this.pauses, this.malformed, now, messages := at, pauses, malformed, 0, 0;
    }

    /** One message and its answer: the worker goes on for any time before it answers. */
    method Ask() returns (state: Option<Collected>)
      modifies this
      ensures now >= old(now) && messages == old(messages) + 1
      ensures state == if malformed(old(messages)) then None else Some(at(now))
    {
      now := now + pauses(messages);
      state := if malformed(messages) then None else Some(at(now));
      messages := messages + 1;
    }

    /** One round: host accounting, credit, then the two halves of the diagnostics. */
    method Collect() returns (collected: Option<Collected>, ghost times: Times)
      modifies this
      ensures now >= old(now) && messages > old(messages)
      ensures collected.None? <==> malformed(messages - 1)
      ensures collected.Some? ==>
                && ReadAt(collected.value, at, times)
                && old(now) <= times.host && times.pump == now
    {
      times := Times(0, 0, 0, 0);
      var host := Ask();
      if host == None { return None, times; }
      ghost var hostTime := now;
      var credit := Ask();
      if credit == None { return None, times; }
      ghost var creditTime := now;
      var counters := Ask();
      if counters == None { return None, times; }
      times := Times(hostTime, creditTime, now, now);
      var pump := Ask();
      if pump == None { return None, times; }
      times := times.(pump := now);
      collected := Some(Collected(
        host.value.host, host.value.silence, credit.value.consumed,
        counters.value.counters.(pumpLateness := pump.value.counters.pumpLateness)));
    }

    /** The worker changed at some moment of an interval. */
    ghost predicate Moved(from: nat, to: nat) {
      exists s, t | from <= s <= t <= to :: at(s) != at(t)
    }

    /** The worker held the state in an interval. */
    ghost predicate HeldBetween(from: nat, to: nat, c: Collected) {
      exists t | from <= t <= to :: at(t) == c
    }

    /** A state the worker held in an interval is judged. */
    ghost predicate JudgedBetween(from: nat, to: nat, submitted: nat, verdict: Verdict) {
      exists t | from <= t <= to :: verdict == Judged(at(t), submitted)
    }

    /** A round of reads of a worker that does not move shows its state. */
    lemma RoundOfStill(c: Collected, times: Times, from: nat, to: nat)
      requires ReadAt(c, at, times) && from <= times.host && times.pump <= to
      ensures c == at(from) || Moved(from, to)
    {
      if !Moved(from, to) {
        assert at(times.host) == at(from) && at(times.credit) == at(from);
        assert at(times.counters) == at(from) && at(times.pump) == at(from);
      }
    }

    /** Up to three rounds, until two agree. */
    method Agree() returns (r: Result<Collected, AccountingError>)
      modifies this
      ensures now >= old(now) && messages > old(messages)
      ensures r.Err? ==> r.error == InvalidReply || r.error == NotQuiescent
      ensures r == Err(InvalidReply) <==> malformed(messages - 1)
      ensures r == Err(NotQuiescent) ==> Moved(old(now), now)
      ensures OnlyGrows(at) && r.Ok? ==> HeldBetween(old(now), now, r.value)
      ensures r.Ok? && !Moved(old(now), now) ==> r.value == at(old(now))
    {
      var previous: Option<Collected> := None;
      ghost var earlier := Times(now, now, now, now);
      for round := 0 to 3
        invariant now >= old(now) && messages >= old(messages)
        invariant round > 0 ==> previous.Some? && messages > old(messages) && !malformed(messages - 1)
        invariant previous.Some? ==>
                    && ReadAt(previous.value, at, earlier)
                    && old(now) <= earlier.host && earlier.pump <= now
        invariant previous.Some? ==> previous.value == at(old(now)) || Moved(old(now), now)
        invariant round > 1 ==> Moved(old(now), now)
      {
        var current, times := Collect();
        if current == None {
          return Err(InvalidReply);
        }
        RoundOfStill(current.value, times, old(now), now);
        if current == previous {
          if OnlyGrows(at) {
            DoubleCollect(current.value, at, earlier, times);
            assert at(earlier.pump) == current.value;
          }
          return Ok(current.value);
        }
        previous, earlier := current, times;
      }
      r := Err(NotQuiescent);
    }

    /** final_microphone_accounting: for counters that only grow, every verdict about the frames
        is the judgement of one instant, and it gives up only on a worker that moved. */
    method FinalAccounting(submitted: nat) returns (verdict: Verdict)
      modifies this
      ensures now >= old(now) && messages > old(messages)
      ensures verdict == Err(InvalidReply) <==> malformed(messages - 1)
      ensures verdict == Err(NotQuiescent) ==> Moved(old(now), now)
      ensures OnlyGrows(at) && verdict != Err(InvalidReply) && verdict != Err(NotQuiescent) ==>
                JudgedBetween(old(now), now, submitted, verdict)
      ensures verdict.Ok? ==>
                var (a, counters) := verdict.value;
                && Reconciles(a) && a.submitted == submitted
                && a.completed == counters.capture && a.abandoned == counters.abandonedCapture
                && a.silence == counters.microphoneSilence
      ensures verdict != Err(InvalidReply) && !Moved(old(now), now) ==>
                verdict == Judged(at(old(now)), submitted)
    {
      var agreed := Agree();
      if agreed.Err? {
        return Err(agreed.error);
      }
      verdict := Judged(agreed.value, submitted);
      JudgementMeaning(agreed.value, submitted, verdict);
      if OnlyGrows(at) {
        var t :| old(now) <= t <= now && at(t) == agreed.value;
        assert verdict == Judged(at(t), submitted);
      }
    }
  }
}
