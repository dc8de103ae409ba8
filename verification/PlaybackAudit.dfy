/** The playback audit of the USB audio acceptance program: an online recogniser that counts
    frames, and the exact set of frame streams that its final condition accepts. */
module PlaybackAudit {
  import opened Outcomes
  import opened Markers

  // ---------------------------------------------------------------- the counters

  /** The length and number of the trials, their frames in all, and the width of a frame. */
  datatype Plan = Plan(trialFrames: nat, trials: nat, totalFrames: nat, channels: nat)

  /** The audit's plan and the counts under its four headings. */
  datatype Counters =
    Counters(plan: Plan, valid: nat, interiorBad: nat, idleSilence: nat, extraPattern: nat)

  /** Repeated addition of trials. */
  function Times(trials: nat, trialFrames: nat): nat {
    if trials == 0 then 0 else Times(trials - 1, trialFrames) + trialFrames
  }

  lemma {:induction false} TimesIsProduct(trials: nat, trialFrames: nat)
    ensures Times(trials, trialFrames) == trialFrames * trials
  {
    if trials > 0 {
      TimesIsProduct(trials - 1, trialFrames);
      assert trialFrames * trials == trialFrames * (trials - 1) + trialFrames;
    }
  }

  /** The program cannot produce a marker out of range, nor a trial without frames. */
  predicate Playable(plan: Plan) {
    && plan.trialFrames > 0
    && InRange(plan.trialFrames - 1, plan.channels)
    && plan.totalFrames == Times(plan.trials, plan.trialFrames)
  }

  lemma PositionIsPlayable(plan: Plan, position: nat)
    requires Playable(plan) && position < plan.trialFrames
    ensures InRange(position, plan.channels)
  {
  }

  function TrialMarker(plan: Plan, position: nat): (frame: Frame)
    requires Playable(plan) && position < plan.trialFrames
    ensures !Silent(frame) && |frame| == plan.channels
  {
    PositionIsPlayable(plan, position);
    MarkerIsNotSilent(position, plan.channels);
    Marker(position, plan.channels)
  }

  /** observe. */
  function Count(c: Counters, frame: Frame): (next: Counters)
    requires Playable(c.plan)
  {
    var plan, total := c.plan, c.plan.totalFrames;
    if frame == TrialMarker(plan, c.valid % plan.trialFrames) then
      if c.valid == total then c.(extraPattern := c.extraPattern + 1)
      else c.(valid := c.valid + 1)
    else if c.valid < total && c.valid % plan.trialFrames != 0 then
      c.(interiorBad := c.interiorBad + 1)
    else if Silent(frame) then c.(idleSilence := c.idleSilence + 1)
    else c.(interiorBad := c.interiorBad + 1)
  }

  function CountAll(c: Counters, frames: seq<Frame>): (final: Counters)
    requires Playable(c.plan)
    ensures final.plan == c.plan
    decreases |frames|
  {
    if frames == [] then c else CountAll(Count(c, frames[0]), frames[1..])
  }

  lemma {:induction false} CountAllConcatenation(c: Counters, a: seq<Frame>, b: seq<Frame>)
    requires Playable(c.plan)
    ensures CountAll(c, a + b) == CountAll(CountAll(c, a), b)
    decreases |a|
  {
    if a == [] {
      assert a + b == b;
    } else {
      assert (a + b)[1..] == a[1..] + b;
      CountAllConcatenation(Count(c, a[0]), a[1..], b);
    }
  }

  predicate Faultless(c: Counters) { c.interiorBad == 0 && c.extraPattern == 0 }

  predicate Accepts(c: Counters) {
    c.valid == c.plan.totalFrames && Faultless(c)
  }

  // ---------------------------------------------------------------- the accepted streams

  function Silence(frames: nat, channels: nat): seq<Frame> {
    seq(frames, _ => seq(channels, _ => 0))
  }

  /** The markers of one trial from a position on. */
  function TrialFrom(plan: Plan, position: nat): seq<Frame>
    requires Playable(plan) && position <= plan.trialFrames
    decreases plan.trialFrames - position
  {
    if position == plan.trialFrames then []
    else [TrialMarker(plan, position)] + TrialFrom(plan, position + 1)
  }

  /** Trials separated, preceded and followed by silences of the given lengths. */
  function Playback(plan: Plan, silences: seq<nat>): seq<Frame>
    requires Playable(plan) && silences != []
    decreases |silences|
  {
    Silence(silences[0], plan.channels)
    + if |silences| == 1 then [] else TrialFrom(plan, 0) + Playback(plan, silences[1..])
  }

  predicate OfWidth(frames: seq<Frame>, channels: int) {
    forall i | 0 <= i < |frames| :: |frames[i]| == channels
  }

  predicate PlaysWith(plan: Plan, frames: seq<Frame>, silences: seq<nat>)
    requires Playable(plan)
  {
    |silences| == plan.trials + 1 && frames == Playback(plan, silences)
  }

  ghost predicate IsPlayback(plan: Plan, frames: seq<Frame>)
    requires Playable(plan)
  {
    exists silences :: PlaysWith(plan, frames, silences)
  }

  // ---------------------------------------------------------------- arithmetic of positions

  /** After done whole trials and position frames of the next one. */
  predicate At(c: Counters, plan: Plan, done: nat, position: nat) {
    && c.plan == plan
    && done <= plan.trials
    && position < plan.trialFrames
    && (position > 0 ==> done < plan.trials)
    && c.valid == Times(done, plan.trialFrames) + position
  }

  lemma {:induction false} Remainder(done: nat, position: nat, t: nat)
    requires position < t
    ensures (Times(done, t) + position) % t == position
  {
    if done > 0 {
      Remainder(done - 1, position, t);
      PlusModulus(Times(done - 1, t) + position, t);
    }
  }

  lemma AtLeastOnce(t: nat, k: int)
    ensures k >= 1 ==> t * k >= t
    ensures k <= -1 ==> t * k <= 0 - t
  {
  }

  lemma PlusModulus(x: nat, t: nat)
    requires t > 0
    ensures (x + t) % t == x % t
  {
    var k := (x + t) / t - (x / t + 1);
    assert t * k == t * ((x + t) / t) - t * (x / t) - t;
    assert t * k == x % t - (x + t) % t;
    AtLeastOnce(t, k);
  }

  lemma {:induction false} TimesGrows(a: nat, b: nat, t: nat)
    requires a < b
    ensures Times(a, t) + t <= Times(b, t)
  {
    if a < b - 1 {
      TimesGrows(a, b - 1, t);
    }
  }

  lemma ValidAt(c: Counters, plan: Plan, done: nat, position: nat)
    requires Playable(plan) && At(c, plan, done, position)
    ensures c.valid % plan.trialFrames == position
    ensures c.valid <= plan.totalFrames
    ensures c.valid == plan.totalFrames <==> done == plan.trials
  {
    Remainder(done, position, plan.trialFrames);
    if done < plan.trials {
      TimesGrows(done, plan.trials, plan.trialFrames);
    }
  }

  // ---------------------------------------------------------------- acceptance, exactly

  lemma {:induction false} FaultsStay(c: Counters, frames: seq<Frame>)
    requires Playable(c.plan)
    ensures CountAll(c, frames).interiorBad >= c.interiorBad
    ensures CountAll(c, frames).extraPattern >= c.extraPattern
    decreases |frames|
  {
    if frames != [] {
      FaultsStay(Count(c, frames[0]), frames[1..]);
    }
  }

  /** What is still to come at a position. */
  function Expected(plan: Plan, position: nat, silences: seq<nat>): seq<Frame>
    requires Playable(plan) && position < plan.trialFrames && silences != []
  {
    if position == 0 then Playback(plan, silences)
    else TrialFrom(plan, position) + Playback(plan, silences)
  }

  function SilencesLeft(plan: Plan, done: nat, position: nat): nat
    requires done <= plan.trials && (position > 0 ==> done < plan.trials)
  {
    if position == 0 then plan.trials - done + 1 else plan.trials - done
  }

  /** One frame at a known place: the only ways to stay free of faults. */
  predicate Moves(c: Counters, next: Counters, frame: Frame, plan: Plan, done: nat, position: nat)
    requires Playable(plan) && position < plan.trialFrames
  {
    if frame == TrialMarker(plan, position) then
      if done == plan.trials then next.extraPattern > c.extraPattern
      else
        && next == c.(valid := c.valid + 1)
        && (if position + 1 < plan.trialFrames then At(next, plan, done, position + 1)
            else At(next, plan, done + 1, 0))
    else if position == 0 && Silent(frame) then
      next == c.(idleSilence := c.idleSilence + 1) && At(next, plan, done, 0)
    else next.interiorBad > c.interiorBad
  }

  lemma FrameAt(c: Counters, frame: Frame, plan: Plan, done: nat, position: nat)
    requires Playable(plan) && At(c, plan, done, position)
    ensures Moves(c, Count(c, frame), frame, plan, done, position)
  {
    ValidAt(c, plan, done, position);
  }

  lemma SilentFrame(frame: Frame, channels: nat)
    requires Silent(frame) && |frame| == channels
    ensures frame == seq(channels, _ => 0)
  {
  }

  /** One more leading silent frame. */
  lemma LongerSilence(plan: Plan, silences: seq<nat>)
    requires Playable(plan) && silences != []
    ensures Playback(plan, silences[0 := silences[0] + 1])
         == [seq(plan.channels, _ => 0)] + Playback(plan, silences)
  {
  }

  /** A trial that starts at once. */
  lemma NoSilence(plan: Plan, silences: seq<nat>)
    requires Playable(plan) && silences != []
    ensures Playback(plan, [0] + silences) == TrialFrom(plan, 0) + Playback(plan, silences)
  {
  }

  function ZeroFrame(plan: Plan): Frame
    requires Playable(plan)
  {
    seq(plan.channels, _ => 0)
  }

  lemma SilenceComesFirst(plan: Plan, silences: seq<nat>)
    requires Playable(plan) && silences != [] && silences[0] > 0
    ensures Expected(plan, 0, silences)
         == [ZeroFrame(plan)] + Expected(plan, 0, silences[0 := silences[0] - 1])
  {
  }

  /** The place after the marker of the given place, and the silences left there. */
  function Later(position: nat, silences: seq<nat>): seq<nat>
    requires silences != []
  {
    if position == 0 then silences[1..] else silences
  }

  function NextPosition(plan: Plan, position: nat): nat {
    if position + 1 < plan.trialFrames then position + 1 else 0
  }

  lemma TrialMarkerFirst(plan: Plan, position: nat, rest: seq<Frame>)
    requires Playable(plan) && position < plan.trialFrames
    ensures TrialFrom(plan, position) + rest
         == [TrialMarker(plan, position)] + (TrialFrom(plan, position + 1) + rest)
    ensures TrialFrom(plan, plan.trialFrames) + rest == rest
  {
  }

  lemma MarkerComesFirst(plan: Plan, position: nat, silences: seq<nat>)
    requires Playable(plan) && position < plan.trialFrames && silences != []
    requires position == 0 ==> silences[0] == 0 && |silences| > 1
    ensures Expected(plan, position, silences)
         == [TrialMarker(plan, position)]
            + Expected(plan, NextPosition(plan, position), Later(position, silences))
  {
    var later := Later(position, silences);
    if position == 0 {
      NoSilence(plan, later);
      assert silences == [0] + later;
    }
    TrialMarkerFirst(plan, position, Playback(plan, later));
  }

  /** Whatever is accepted from a place on is what was expected there. */
  lemma {:induction false} AcceptedIsExpected(c: Counters, frames: seq<Frame>, plan: Plan,
                                              done: nat, position: nat)
    returns (silences: seq<nat>)
    requires Playable(plan) && At(c, plan, done, position) && OfWidth(frames, plan.channels)
    requires Accepts(CountAll(c, frames))
    ensures silences != [] && |silences| == SilencesLeft(plan, done, position)
    ensures frames == Expected(plan, position, silences)
    decreases |frames|
  {
    ValidAt(c, plan, done, position);
    if frames == [] {
      silences := [0];
      assert Silence(0, plan.channels) == [];
    } else {
      var frame, rest, next := frames[0], frames[1..], Count(c, frames[0]);
      FrameAt(c, frame, plan, done, position);
      FaultsStay(next, rest);
      assert frames == [frame] + rest;
      if frame == TrialMarker(plan, position) {
        var place := NextPosition(plan, position);
        var later := AcceptedIsExpected(next, rest, plan, if place == 0 then done + 1 else done, place);
        silences := if position == 0 then [0] + later else later;
        assert Later(position, silences) == later;
        MarkerComesFirst(plan, position, silences);
      } else {
        var later := AcceptedIsExpected(next, rest, plan, done, 0);
        silences := later[0 := later[0] + 1];
        SilentFrame(frame, plan.channels);
        LongerSilence(plan, later);
      }
    }
  }

  /** Whatever is expected from a place on is accepted. */
  lemma {:induction false} ExpectedIsAccepted(c: Counters, silences: seq<nat>, plan: Plan,
                                              done: nat, position: nat)
    requires Playable(plan) && At(c, plan, done, position)
    requires Faultless(c)
    requires silences != [] && |silences| == SilencesLeft(plan, done, position)
    ensures Accepts(CountAll(c, Expected(plan, position, silences)))
    decreases |Expected(plan, position, silences)|
  {
    if position == 0 && silences[0] > 0 {
      FrameAt(c, ZeroFrame(plan), plan, done, 0);
      SilenceComesFirst(plan, silences);
      var shorter := silences[0 := silences[0] - 1];
      CountFirst(c, ZeroFrame(plan), Expected(plan, 0, shorter));
      ExpectedIsAccepted(Count(c, ZeroFrame(plan)), shorter, plan, done, 0);
    } else if position == 0 && |silences| == 1 {
      ValidAt(c, plan, done, 0);
      assert Expected(plan, 0, silences) == [];
    } else {
      var marker, next := TrialMarker(plan, position), NextPosition(plan, position);
      var later := Later(position, silences);
      FrameAt(c, marker, plan, done, position);
      MarkerComesFirst(plan, position, silences);
      CountFirst(c, marker, Expected(plan, next, later));
      ExpectedIsAccepted(Count(c, marker), later, plan,
                         if next == 0 then done + 1 else done, next);
    }
  }

  lemma CountFirst(c: Counters, frame: Frame, rest: seq<Frame>)
    requires Playable(c.plan)
    ensures CountAll(c, [frame] + rest) == CountAll(Count(c, frame), rest)
  {
  }

  predicate Fresh(c: Counters) {
    c.valid == c.interiorBad == c.idleSilence == c.extraPattern == 0
  }

  /** The final counters accept exactly the streams of whole trials in order, with any amount
      of silence before, between and after them, and nothing else. */
  lemma AcceptanceMeaning(c: Counters, frames: seq<Frame>)
    requires Playable(c.plan) && OfWidth(frames, c.plan.channels) && Fresh(c)
    ensures Accepts(CountAll(c, frames)) <==> IsPlayback(c.plan, frames)
  {
    assert At(c, c.plan, 0, 0);
    if Accepts(CountAll(c, frames)) {
      var silences := AcceptedIsExpected(c, frames, c.plan, 0, 0);
      assert PlaysWith(c.plan, frames, silences);
    }
    if IsPlayback(c.plan, frames) {
      var silences :| PlaysWith(c.plan, frames, silences);
      ExpectedIsAccepted(c, silences, c.plan, 0, 0);
    }
  }

  // ---------------------------------------------------------------- the audit object

  /** The i-th of the first frames of an interleaved sample buffer. */
  function Chunk(samples: seq<int>, channels: nat, count: nat, i: nat): (frame: Frame)
    requires |samples| >= Times(count, channels) && i < count
    ensures |frame| == channels
  {
    TimesGrows(i, count, channels);
    samples[Times(i, channels)..Times(i + 1, channels)]
  }

  function Frames(samples: seq<int>, channels: nat, count: nat): (frames: seq<Frame>)
    requires |samples| >= Times(count, channels)
    ensures |frames| == count
  {
    seq(count, i requires 0 <= i < count => Chunk(samples, channels, count, i))
  }

  function Sum(c: Counters): nat {
    c.valid + c.interiorBad + c.idleSilence + c.extraPattern
  }

  /** One read of the playback stream: how many frames it delivered into the buffer, at which
      position, and whether the stream reported a break before them. */
  datatype Read = Read(frames: nat, firstFrame: nat, discontinuity: bool, samples: seq<int>)

  predicate Readable(read: Read, channels: nat) {
    |read.samples| >= Times(read.frames, channels)
  }

  predicate Breaks(read: Read, expected: Option<nat>) {
    read.discontinuity || (expected.Some? && expected.value != read.firstFrame)
  }

  class PatternAudit {
    const plan: Plan
    var valid: nat
    var interiorBad: nat
    var idleSilence: nat
    var extraPattern: nat
    var received: nat
    var discontinuities: nat
    var expectedPosition: Option<nat>

    function Value(): Counters
      reads this
    {
      Counters(plan, valid, interiorBad, idleSilence, extraPattern)
    }

    constructor (trialFrames: nat, trials: nat, channels: nat)
      ensures plan == Plan(trialFrames, trials, Times(trials, trialFrames), channels)
      ensures Fresh(Value()) && received == 0 && discontinuities == 0
      ensures expectedPosition == None
    {
      TimesIsProduct(trials, trialFrames);
      plan := Plan(trialFrames, trials, trialFrames * trials, channels);
      valid, interiorBad, idleSilence, extraPattern := 0, 0, 0, 0;
      received, discontinuities, expectedPosition := 0, 0, None;
    }

    method Observe(frame: Frame)
      requires Playable(plan)
      modifies this`valid, this`interiorBad, this`idleSilence, this`extraPattern
      ensures Value() == Count(old(Value()), frame)
      ensures Sum(Value()) == Sum(old(Value())) + 1
    {
      if frame == TrialMarker(plan, valid % plan.trialFrames) {
        if valid == plan.totalFrames {
          extraPattern := extraPattern + 1;
        } else {
          valid := valid + 1;
        }
      } else if valid < plan.totalFrames && valid % plan.trialFrames != 0 {
        interiorBad := interiorBad + 1;
      } else if Silent(frame) {
        idleSilence := idleSilence + 1;
      } else {
        interiorBad := interiorBad + 1;
      }
    }

    /** observe_samples: every received frame is counted once, under exactly one heading. */
    method ObserveRead(read: Read)
      requires Playable(plan) && Readable(read, plan.channels)
      modifies this
      ensures Value() == CountAll(old(Value()),
                           Frames(read.samples, plan.channels, read.frames))
      ensures received == old(received) + read.frames
      ensures Sum(Value()) == Sum(old(Value())) + read.frames
      ensures discontinuities == old(discontinuities)
                + if read.frames > 0 && Breaks(read, old(expectedPosition)) then 1 else 0
      ensures expectedPosition == if read.frames == 0 then old(expectedPosition)
                                  else Some(read.firstFrame + read.frames)
    {
      if read.frames == 0 {
        return;
      }
      if Breaks(read, expectedPosition) {
        discontinuities := discontinuities + 1;
      }
      expectedPosition := Some(read.firstFrame + read.frames);
      received := received + read.frames;
      var frames := Frames(read.samples, plan.channels, read.frames);
      for i := 0 to |frames|
        invariant CountAll(old(Value()), frames) == CountAll(Value(), frames[i..])
        invariant Sum(Value()) == Sum(old(Value())) + i
        invariant received == old(received) + read.frames
        invariant expectedPosition == Some(read.firstFrame + read.frames)
        invariant discontinuities == old(discontinuities)
                    + if Breaks(read, old(expectedPosition)) then 1 else 0
      {
        assert frames[i..][0] == frames[i] && frames[i..][1..] == frames[i + 1..];
        Observe(frames[i]);
      }
    }
  }

  // ---------------------------------------------------------------- a whole acceptance run

  predicate AllReadable(blocks: seq<Read>, channels: nat) {
    blocks == [] || (Readable(blocks[0], channels) && AllReadable(blocks[1..], channels))
  }

  function AllFrames(blocks: seq<Read>, channels: nat): (frames: seq<Frame>)
    requires AllReadable(blocks, channels)
  {
    if blocks == [] then []
    else Frames(blocks[0].samples, channels, blocks[0].frames) + AllFrames(blocks[1..], channels)
  }

  lemma {:induction false} FramesHaveWidth(blocks: seq<Read>, channels: nat)
    requires AllReadable(blocks, channels)
    ensures OfWidth(AllFrames(blocks, channels), channels)
  {
    if blocks != [] {
      FramesHaveWidth(blocks[1..], channels);
    }
  }

  function FrameCount(blocks: seq<Read>): nat {
    if blocks == [] then 0 else blocks[0].frames + FrameCount(blocks[1..])
  }

  /** Where the stream is expected to continue after a read. */
  function Continues(read: Read, expected: Option<nat>): Option<nat> {
    if read.frames == 0 then expected else Some(read.firstFrame + read.frames)
  }

  /** How many reads that delivered something were flagged or started elsewhere than the last
      one ended. */
  function Breakages(blocks: seq<Read>, expected: Option<nat>): nat
    decreases |blocks|
  {
    if blocks == [] then 0
    else
      (if blocks[0].frames > 0 && Breaks(blocks[0], expected) then 1 else 0)
      + Breakages(blocks[1..], Continues(blocks[0], expected))
  }

  /** What an audit holds. */
  datatype Account =
    Account(counted: Counters, received: nat, breakages: nat, expected: Option<nat>)

  ghost function AccountOf(audit: PatternAudit): Account
    reads audit
  {
    Account(audit.Value(), audit.received, audit.discontinuities, audit.expectedPosition)
  }

  /** The account after one read. */
  function Observed(account: Account, read: Read, channels: nat): Account
    requires Playable(account.counted.plan) && Readable(read, channels)
  {
    Account(CountAll(account.counted, Frames(read.samples, channels, read.frames)),
            account.received + read.frames,
            account.breakages + if read.frames > 0 && Breaks(read, account.expected) then 1 else 0,
            Continues(read, account.expected))
  }

  function ObservedAll(account: Account, blocks: seq<Read>, channels: nat): Account
    requires Playable(account.counted.plan) && AllReadable(blocks, channels)
    decreases |blocks|
  {
    if blocks == [] then account
    else ObservedAll(Observed(account, blocks[0], channels), blocks[1..], channels)
  }

  lemma {:induction false} CountsOfReads(account: Account, blocks: seq<Read>, channels: nat)
    requires Playable(account.counted.plan) && AllReadable(blocks, channels)
    ensures ObservedAll(account, blocks, channels).counted
         == CountAll(account.counted, AllFrames(blocks, channels))
    decreases |blocks|
  {
    if blocks != [] {
      CountsOfReads(Observed(account, blocks[0], channels), blocks[1..], channels);
      CountAllConcatenation(account.counted,
                            Frames(blocks[0].samples, channels, blocks[0].frames),
                            AllFrames(blocks[1..], channels));
    }
  }

  lemma {:induction false} FramesOfReads(account: Account, blocks: seq<Read>, channels: nat)
    requires Playable(account.counted.plan) && AllReadable(blocks, channels)
    ensures ObservedAll(account, blocks, channels).received == account.received + FrameCount(blocks)
    decreases |blocks|
  {
    if blocks != [] {
      FramesOfReads(Observed(account, blocks[0], channels), blocks[1..], channels);
    }
  }

  lemma {:induction false} BreakagesOfReads(account: Account, blocks: seq<Read>, channels: nat)
    requires Playable(account.counted.plan) && AllReadable(blocks, channels)
    ensures ObservedAll(account, blocks, channels).breakages
         == account.breakages + Breakages(blocks, account.expected)
    decreases |blocks|
  {
    if blocks != [] {
      BreakagesOfReads(Observed(account, blocks[0], channels), blocks[1..], channels);
    }
  }

  /** An audit that observes every read of a stream. */
  method RunAudit(audit: PatternAudit, blocks: seq<Read>)
    requires Playable(audit.plan) && AllReadable(blocks, audit.plan.channels)
    modifies audit
    ensures AccountOf(audit) == old(ObservedAll(AccountOf(audit), blocks, audit.plan.channels))
    ensures Sum(audit.Value()) - audit.received == old(Sum(audit.Value()) - audit.received)
  {
    var rest := blocks;
    while rest != []
      invariant AllReadable(rest, audit.plan.channels)
      invariant ObservedAll(AccountOf(audit), rest, audit.plan.channels)
             == old(ObservedAll(AccountOf(audit), blocks, audit.plan.channels))
      invariant Sum(audit.Value()) - audit.received == old(Sum(audit.Value()) - audit.received)
      decreases |rest|
    {
      ghost var before := AccountOf(audit);
      audit.ObserveRead(rest[0]);
      assert AccountOf(audit) == Observed(before, rest[0], audit.plan.channels);
      rest := rest[1..];
    }
  }

  /** The playback side of the acceptance program, from its first read to its final condition:
      it accepts exactly the unbroken streams of whole trials with silence around them, and the
      counts always add up to the frames received. */
  method AuditPlayback(blocks: seq<Read>, trialFrames: nat, trials: nat, channels: nat)
    returns (accepted: bool, received: nat, counted: Counters)
    requires trialFrames > 0 && InRange(trialFrames - 1, channels)
    requires AllReadable(blocks, channels)
    ensures accepted <==>
            && IsPlayback(Plan(trialFrames, trials, Times(trials, trialFrames), channels),
                          AllFrames(blocks, channels))
            && Breakages(blocks, None) == 0
    ensures received == FrameCount(blocks) == Sum(counted)
  {
    var audit := new PatternAudit(trialFrames, trials, channels);
    FramesHaveWidth(blocks, channels);
    AcceptanceMeaning(audit.Value(), AllFrames(blocks, channels));
    CountsOfReads(AccountOf(audit), blocks, channels);
    FramesOfReads(AccountOf(audit), blocks, channels);
    BreakagesOfReads(AccountOf(audit), blocks, channels);
    RunAudit(audit, blocks);
    received, counted := audit.received, audit.Value();
    accepted := counted.valid == audit.plan.totalFrames && counted.interiorBad == 0
                && counted.extraPattern == 0 && audit.discontinuities == 0;
  }
}
