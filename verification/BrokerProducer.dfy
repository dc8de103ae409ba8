/** The microphone producer of the live broker script: it sends marker blocks against the
    credit that the worker reports, and stops at the first thing that does not add up. */
module BrokerProducer {
  import opened Amounts
  import opened Outcomes
  import opened Markers
  import opened MarkerCodec
  import opened RefillDelays
  import opened Refill

  /** One block on the wire: where it says it starts, and its frames. */
  datatype Block = Block(first: nat, frames: seq<Frame>)

  function Joined(blocks: seq<Block>): seq<Frame> {
    if blocks == [] then [] else Joined(blocks[..|blocks| - 1]) + blocks[|blocks| - 1].frames
  }

  /** Every block starts where the ones before it end, and holds 1 to 128 frames. */
  predicate Contiguous(blocks: seq<Block>) {
    blocks == []
    || (&& Contiguous(blocks[..|blocks| - 1])
        && blocks[|blocks| - 1].first == |Joined(blocks[..|blocks| - 1])|
        && 1 <= |blocks[|blocks| - 1].frames| <= BLOCK)
  }

  /** What was sent is the marker stream up to submitted, in contiguous blocks. */
  predicate Sent(blocks: seq<Block>, submitted: nat, channels: int) {
    Contiguous(blocks) && Fed(Joined(blocks), submitted, channels)
  }

  lemma SentMore(blocks: seq<Block>, submitted: nat, frames: nat, channels: int)
    requires Sent(blocks, submitted, channels) && 1 <= frames <= BLOCK
    requires InRange(submitted + frames - 1, channels)
    ensures Sent(blocks + [Block(submitted, Stretch(submitted, frames, channels))],
                 submitted + frames, channels)
  {
  }

  /** One answer to a credit request with the times around it; no credit stands for an error. */
  datatype Reading = Reading(started: nat, replied: nat, credit: Option<nat>)

  function Observed(reading: Reading): Observation
    requires reading.credit.Some?
  {
    Observation(reading.started, reading.replied, reading.credit.value)
  }

  /** The reading has a credit for frames that were sent, and does not go backwards. */
  predicate Plausible(recorded: seq<Observation>, submitted: nat, reading: Reading) {
    && reading.credit.Some?
    && reading.credit.value <= submitted
    && Follows(recorded, Observed(reading))
  }

  class Producer {
    const channels: int
    const fill: nat
    /** Which blocks the socket fails to send whole. */
    const broken: nat -> bool
    var submitted: nat
    var reported: nat
    var delays: Delays
    ghost var blocks: seq<Block>
    var attempts: nat

    ghost predicate Valid()
      reads this, delays
    {
      && delays.Valid()
      && Sent(blocks, submitted, channels)
      && reported <= submitted <= delays.consumed + fill
    }

    /** The socket took every block attempted in this stretch. */
    ghost predicate Unbroken(from: nat, to: nat) {
      forall k | from <= k < to :: !broken(k)
    }

    constructor (channels: int, fill: nat, broken: nat -> bool)
      ensures Valid() && fresh(delays)
      ensures this.channels == channels && this.fill == fill && this.broken == broken
      ensures submitted == reported == attempts == 0 && blocks == [] && delays.recorded == []
    {
      this.channels, this.fill, this.broken := channels, fill, broken;
      submitted, reported, attempts := 0, 0, 0;
      blocks := [];
      delays := new Delays();
    }

    /** One block on the socket. */
    method SendBlock(frames: nat) returns (sent: bool)
      requires Sent(blocks, submitted, channels) && 1 <= frames <= BLOCK
      requires InRange(submitted + frames - 1, channels)
      modifies this`submitted, this`blocks, this`attempts
      ensures Sent(blocks, submitted, channels)
      ensures attempts == old(attempts) + 1
      ensures submitted == if sent then old(submitted) + frames else old(submitted)
      ensures sent <==> !broken(old(attempts))
    {
      attempts := attempts + 1;
      if broken(attempts - 1) {
        return false;
      }
      SentMore(blocks, submitted, frames, channels);
      blocks := blocks + [Block(submitted, Stretch(submitted, frames, channels))];
      submitted, sent := submitted + frames, true;
    }

    /** The inner loop: send available frames in full blocks of 128 and one with the rest, unless
        there is no marker for one of them or the socket breaks. */
    method SendAvailable(count: nat) returns (sent: bool)
      requires Sent(blocks, submitted, channels)
      modifies this`submitted, this`blocks, this`attempts
      ensures Sent(blocks, submitted, channels)
      ensures old(submitted) <= submitted <= old(submitted) + count
      ensures attempts >= old(attempts)
      ensures sent <==> submitted == old(submitted) + count
      ensures sent <==>
                && Markable(old(submitted), old(submitted) + count, channels)
                && Unbroken(old(attempts), attempts)
      ensures sent ==> attempts == old(attempts) + (count + BLOCK - 1) / BLOCK
    {
      var available := count;
      while available > 0
        invariant Sent(blocks, submitted, channels)
        invariant submitted + available == old(submitted) + count
        invariant attempts >= old(attempts) && Unbroken(old(attempts), attempts)
        invariant submitted > old(submitted) ==> InRange(submitted - 1, channels)
        invariant if available > 0 then count - available == BLOCK * (attempts - old(attempts))
                  else attempts == old(attempts) + (count + BLOCK - 1) / BLOCK
      {
        var frames := Lesser(BLOCK, available);
        if !InRange(submitted + frames - 1, channels) {
          if InRange(old(submitted) + count - 1, channels) {
            InRangeBelow(submitted + frames - 1, old(submitted) + count - 1, channels);
          }
          return false;
        }
        sent := SendBlock(frames);
        if !sent {
          return;
        }
        available := available - frames;
      }
      sent := true;
    }

    /** Send what brings the producer the fill ahead of the consumption. */
    method TopUp(consumed: nat) returns (full: bool)
      requires Sent(blocks, submitted, channels) && submitted <= consumed + fill
      modifies this`submitted, this`blocks, this`attempts
      ensures Sent(blocks, submitted, channels)
      ensures old(submitted) <= submitted <= consumed + fill && attempts >= old(attempts)
      ensures full ==> submitted == consumed + fill
      ensures full <==>
                && Markable(old(submitted), consumed + fill, channels)
                && Unbroken(old(attempts), attempts)
    {
      var available := if consumed + fill > submitted then consumed + fill - submitted else 0;
      full := SendAvailable(available);
    }

    /** One round of the credit loop. A round that succeeds leaves the producer exactly the fill
        ahead of the consumption it was told of; a credit beyond what was sent, an observation
        that goes backwards, or a failed send ends it. */
    method Round(reading: Reading) returns (continues: bool)
      requires Valid()
      modifies this`submitted, this`reported, this`blocks, this`attempts, delays
      ensures Valid()
      ensures old(submitted) <= submitted
      ensures continues ==>
                && reading.credit.Some?
                && reading.credit.value <= old(submitted)
                && old(delays.recorded) + [Observed(reading)] == delays.recorded
                && submitted == reported == reading.credit.value + fill
      ensures !continues ==> reported == old(reported)
      ensures attempts >= old(attempts)
      ensures continues <==>
                && Plausible(old(delays.recorded), old(submitted), reading)
                && Markable(old(submitted), reading.credit.value + fill, channels)
                && Unbroken(old(attempts), attempts)
      ensures !Plausible(old(delays.recorded), old(submitted), reading) ==>
                submitted == old(submitted) && blocks == old(blocks) && attempts == old(attempts)
    {
      if reading.credit.None? || reading.credit.value > submitted {
        return false;
      }
      var consumed := reading.credit.value;
      var accepted := delays.Record(Observed(reading));
      if !accepted {
        return false;
      }
      continues := TopUp(consumed);
      if continues {
        reported := submitted;
      }
    }
  }

  /** The last of the rounds done was told of a consumption exactly the fill behind. */
  ghost predicate FillAhead(producer: Producer, readings: seq<Reading>, rounds: nat)
    requires rounds <= |readings|
    reads producer
  {
    rounds > 0 ==>
      && readings[rounds - 1].credit.Some?
      && producer.reported == readings[rounds - 1].credit.value + producer.fill
  }

  /** The reading's credit is for frames that the reading before it made the producer send, it
      does not go backwards, and there are markers for what it lets the producer send. */
  predicate AcceptableAt(readings: seq<Reading>, i: nat, channels: int, fill: nat)
    requires i < |readings|
  {
    var now := readings[i];
    && now.credit.Some? && now.started <= now.replied
    && (now.credit.value + fill > 0 ==> InRange(now.credit.value + fill - 1, channels))
    && if i == 0 then now.credit.value == 0
       else
         && readings[i - 1].credit.Some?
         && readings[i - 1].started <= now.started
         && readings[i - 1].credit.value <= now.credit.value <= readings[i - 1].credit.value + fill
  }

  /** The first n readings can be accepted, one after the other. */
  predicate Acceptable(readings: seq<Reading>, n: nat, channels: int, fill: nat)
    requires n <= |readings|
  {
    forall i | 0 <= i < n :: AcceptableAt(readings, i, channels, fill)
  }

  /** What the producer knows after the rounds done. */
  ghost predicate UpToDate(producer: Producer, readings: seq<Reading>, rounds: nat)
    requires rounds <= |readings|
    reads producer, producer.delays
  {
    && producer.submitted == producer.reported
    && if rounds == 0 then producer.submitted == 0 && producer.delays.recorded == []
       else
         && readings[rounds - 1].credit.Some?
         && producer.submitted == readings[rounds - 1].credit.value + producer.fill
         && var recorded := producer.delays.recorded;
            recorded != [] && recorded[|recorded| - 1] == Observed(readings[rounds - 1])
  }

  lemma AcceptableIsPlausible(producer: Producer, readings: seq<Reading>, rounds: nat)
    requires rounds < |readings| && producer.Valid() && UpToDate(producer, readings, rounds)
    ensures AcceptableAt(readings, rounds, producer.channels, producer.fill) <==>
              && Plausible(producer.delays.recorded, producer.submitted, readings[rounds])
              && Markable(producer.submitted, readings[rounds].credit.value + producer.fill,
                          producer.channels)
  {
  }

  /** The round for one of the readings. */
  method NextRound(producer: Producer, readings: seq<Reading>, rounds: nat) returns (continues: bool)
    requires rounds < |readings| && producer.Valid() && UpToDate(producer, readings, rounds)
    modifies producer, producer.delays
    ensures producer.Valid() && producer.delays == old(producer.delays)
    ensures producer.attempts >= old(producer.attempts)
    ensures continues ==> UpToDate(producer, readings, rounds + 1)
    ensures !continues ==> producer.reported == old(producer.reported)
    ensures continues <==>
              && AcceptableAt(readings, rounds, producer.channels, producer.fill)
              && producer.Unbroken(old(producer.attempts), producer.attempts)
  {
    AcceptableIsPlausible(producer, readings, rounds);
    continues := producer.Round(readings[rounds]);
  }

  /** The credit loop, until it is stopped or something does not add up. */
  method ProduceRounds(producer: Producer, readings: seq<Reading>) returns (rounds: nat)
    requires producer.Valid() && producer.attempts == 0 && UpToDate(producer, readings, 0)
    modifies producer, producer.delays
    ensures producer.Valid() && producer.delays == old(producer.delays)
    ensures rounds <= |readings| && FillAhead(producer, readings, rounds)
    ensures rounds == |readings| ==> producer.submitted == producer.reported
    ensures Acceptable(readings, rounds, producer.channels, producer.fill)
    ensures rounds == |readings| <==>
              && Acceptable(readings, |readings|, producer.channels, producer.fill)
              && producer.Unbroken(0, producer.attempts)
  {
    rounds := 0;
    while rounds < |readings|
      invariant rounds <= |readings| && producer.Valid()
      invariant producer.delays == old(producer.delays)
      invariant UpToDate(producer, readings, rounds)
      invariant Acceptable(readings, rounds, producer.channels, producer.fill)
      invariant producer.Unbroken(0, producer.attempts)
    {
      var continues := NextRound(producer, readings, rounds);
      if !continues {
        return;
      }
      rounds := rounds + 1;
    }
  }

  /** A whole run of the producer over the readings it gets: whatever happens, the blocks sent
      are contiguous stretches of the marker stream, and the producer is never further ahead of
      the consumption last accepted than the fill. It ends early only at a reading that it must
      not accept or at a broken socket. */
  method Produce(readings: seq<Reading>, channels: int, fill: nat, broken: nat -> bool)
    returns (producer: Producer, rounds: nat)
    ensures rounds <= |readings| && FillAhead(producer, readings, rounds)
    ensures producer.Valid() && producer.channels == channels && producer.fill == fill
    ensures producer.broken == broken
    ensures Sent(producer.blocks, producer.submitted, channels)
    ensures rounds == |readings| ==> producer.submitted == producer.reported
    ensures Acceptable(readings, rounds, channels, fill)
    ensures rounds == |readings| <==>
              Acceptable(readings, |readings|, channels, fill) && producer.Unbroken(0, producer.attempts)
    ensures fresh(producer)
  {
    producer := new Producer(channels, fill, broken);
    rounds := ProduceRounds(producer, readings);
  }
}
