/** The acceptance orchestrator: it opens a number of sessions in every cycle, measures each of
    them, closes them all, and reports one sample for each creation whatever fails. */
module Orchestrator {
  import opened Outcomes
  import opened Sorting

  // ---------------------------------------------------------------- samples

  /** A creation: the cycle and the index in it. */
  datatype Id = Id(cycle: nat, index: nat)

  const API_CALL: nat := 0
  const API_RETURNED: nat := 1
  const NODE_PRESENT: nat := 2
  const SDL_READY: nat := 5
  const CLOSE_CALL: nat := 6
  const CLOSE_RETURNED: nat := 7
  const NODE_GONE: nat := 8
  const STAGE_COUNT: nat := 9
  const NOT_REACHED: string := "not reached"

  /** A stage carries a value or a reason, never both and never neither. */
  datatype Cell = Measured(at: nat) | Missing(reason: string)

  type Stages = seq<Cell>

  datatype Sample = Sample(id: Id, cold: bool, stages: Stages, errors: seq<string>)

  /** The first stages are settled, in the order of the clock, and the others not reached. */
  predicate Timeline(stages: Stages, reached: nat, now: nat) {
    && |stages| == STAGE_COUNT && reached <= STAGE_COUNT
    && (forall i | 0 <= i < reached :: stages[i].Measured? ==> stages[i].at <= now)
    && (forall i, j | 0 <= i < j < reached :: ClockOrder(stages[i], stages[j]))
    && (forall i | reached <= i < STAGE_COUNT :: stages[i] == Missing(NOT_REACHED))
  }

  predicate ClockOrder(a: Cell, b: Cell) { a.Measured? && b.Measured? ==> a.at <= b.at }

  /** No two stages show the same time. */
  predicate Increasing(stages: Stages) {
    forall i, j | 0 <= i < j < |stages| ::
      stages[i].Measured? && stages[j].Measured? ==> stages[i].at < stages[j].at
  }

  /** The call at this time was made after the first reading and before the second. */
  predicate Encloses(call: Cell, time: nat, returned: Cell, ticking: bool) {
    && call == Measured(time)
    && (returned.Measured? ==> time <= returned.at && (ticking ==> time < returned.at))
  }

  predicate AllIncreasing(samples: seq<Sample>) {
    forall s | s in samples :: Increasing(s.stages)
  }

  // ---------------------------------------------------------------- the order of samples

  predicate Before(a: Id, b: Id) {
    a.cycle < b.cycle || (a.cycle == b.cycle && a.index <= b.index)
  }

  function Ids(samples: seq<Sample>): (ids: seq<Id>)
    ensures |ids| == |samples|
  {
    seq(|samples|, i requires 0 <= i < |samples| => samples[i].id)
  }

  lemma CreationOrder()
    ensures Total(Before) && Transitive(Before) && Antisymmetric(Before)
    ensures Total(SampleBefore) && Transitive(SampleBefore)
  {
  }

  /** sort_by_key on the cycle and the index. */
  predicate SampleBefore(a: Sample, b: Sample) { Before(a.id, b.id) }

  /** The creations of cycles before the given one, and its first ones, in order. */
  function IdsTo(cycle: nat, index: nat, concurrency: nat): seq<Id>
    decreases cycle, index
  {
    if index > 0 then IdsTo(cycle, index - 1, concurrency) + [Id(cycle, index - 1)]
    else if cycle > 0 then IdsTo(cycle - 1, concurrency, concurrency)
    else []
  }

  lemma {:induction false} IdsAscend(cycle: nat, index: nat, concurrency: nat)
    requires index <= concurrency
    ensures InOrder(IdsTo(cycle, index, concurrency), Before)
    ensures forall id | id in IdsTo(cycle, index, concurrency) ::
              id.index < concurrency && (id.cycle < cycle || (id.cycle == cycle && id.index < index))
    decreases cycle, index
  {
    if index > 0 {
      IdsAscend(cycle, index - 1, concurrency);
    } else if cycle > 0 {
      IdsAscend(cycle - 1, concurrency, concurrency);
    }
  }

  lemma {:induction false} IdsCount(cycle: nat, index: nat, concurrency: nat)
    ensures |IdsTo(cycle, index, concurrency)| == cycle * concurrency + index
    decreases cycle, index
  {
    if index > 0 {
      IdsCount(cycle, index - 1, concurrency);
    } else if cycle > 0 {
      IdsCount(cycle - 1, concurrency, concurrency);
      assert cycle * concurrency == (cycle - 1) * concurrency + concurrency;
    }
  }

  lemma {:induction false} IdsExtend(q: nat, r: nat, cycle: nat, index: nat, concurrency: nat)
    requires (q < cycle && r <= concurrency) || (q == cycle && r <= index)
    ensures IdsTo(q, r, concurrency) <= IdsTo(cycle, index, concurrency)
    decreases cycle, index
  {
    if q == cycle && r == index {
    } else if index > 0 {
      IdsExtend(q, r, cycle, index - 1, concurrency);
    } else {
      IdsExtend(q, r, cycle - 1, concurrency, concurrency);
    }
  }

  /** Creation number cycle · concurrency + index is the one of that cycle and index. */
  lemma IdAt(cycles: nat, concurrency: nat, cycle: nat, index: nat)
    requires cycle < cycles && index < concurrency
    ensures cycle * concurrency + index < |IdsTo(cycles, 0, concurrency)| == cycles * concurrency
    ensures IdsTo(cycles, 0, concurrency)[cycle * concurrency + index] == Id(cycle, index)
  {
    var some, all := IdsTo(cycle, index + 1, concurrency), IdsTo(cycles, 0, concurrency);
    IdsCount(cycle, index + 1, concurrency);
    IdsCount(cycles, 0, concurrency);
    IdsExtend(cycle, index + 1, cycles, 0, concurrency);
    assert some[|some| - 1] == Id(cycle, index);
    assert all[|some| - 1] == some[|some| - 1];
  }

  lemma IdsOfOneMore(samples: seq<Sample>, s: Sample)
    ensures Ids(samples + [s]) == Ids(samples) + [s.id]
    ensures Ids([s] + samples) == [s.id] + Ids(samples)
  {
  }

  lemma {:induction false} IdsOfInsert(samples: seq<Sample>, s: Sample)
    ensures multiset(Ids(Insert(samples, s, SampleBefore))) == multiset(Ids(samples)) + multiset{s.id}
  {
    if samples != [] && SampleBefore(samples[0], s) {
      IdsOfInsert(samples[1..], s);
      assert samples == [samples[0]] + samples[1..];
      IdsOfOneMore(samples[1..], samples[0]);
      IdsOfOneMore(Insert(samples[1..], s, SampleBefore), samples[0]);
    } else {
      IdsOfOneMore(samples, s);
    }
  }

  lemma {:induction false} IdsOfSorted(samples: seq<Sample>)
    ensures multiset(Ids(Sorted(samples, SampleBefore))) == multiset(Ids(samples))
  {
    if samples != [] {
      var init, last := samples[..|samples| - 1], samples[|samples| - 1];
      IdsOfSorted(init);
      IdsOfInsert(Sorted(init, SampleBefore), last);
      assert samples == init + [last];
      IdsOfOneMore(init, last);
    }
  }

  /** Sorting lists the samples by their creation and neither loses nor invents one. */
  lemma SortedSamples(samples: seq<Sample>)
    ensures InOrder(Ids(Sorted(samples, SampleBefore)), Before)
    ensures multiset(Ids(Sorted(samples, SampleBefore))) == multiset(Ids(samples))
    ensures forall x | x in Sorted(samples, SampleBefore) :: x in samples
  {
    var sorted := Sorted(samples, SampleBefore);
    CreationOrder();
    SortedSorts(samples, SampleBefore);
    IdsOfSorted(samples);
    forall i, j | 0 <= i < j < |sorted| ensures Before(Ids(sorted)[i], Ids(sorted)[j]) {
      assert SampleBefore(sorted[i], sorted[j]);
    }
    forall x | x in sorted ensures x in samples {
      assert x in multiset(sorted);
    }
  }

  // ---------------------------------------------------------------- provider and clock

  /** Everything the provider answers, by creation and stage; None is success. */
  datatype Answers = Answers(
    creation: Id -> Option<string>,
    observation: (Id, nat) -> Option<string>,
    driving: Id -> Option<string>,
    serviceErrors: Id -> seq<string>)

  /** The provider and the monotonic clock. The ghost fields record the order of calls, and the
      preconditions are what the orchestrator owes its provider: a creation is never attempted
      twice nor after a close in the same cycle, sessions are used only while they are held, an
      observation is offered every other session held, no session is closed before all of its
      cycle have been attempted, and none is let go before it is closed. */
  class World {
    const answers: Answers
    const ticks: nat -> nat
    var now: nat
    var readings: nat
    ghost var attempted: seq<Id>
    ghost var held: multiset<Id>
    ghost var closed: set<Id>
    ghost var closings: seq<Id>
    /** The clock at each attempt, and at each close. */
    ghost var attemptTimes: seq<nat>
    ghost var closeTimes: seq<nat>

    constructor (answers: Answers, ticks: nat -> nat)
      ensures this.answers == answers && this.ticks == ticks
      ensures attempted == [] && held == multiset{} && closed == {} && closings == []
    {
      this.answers, this.ticks, now, readings := answers, ticks, 0, 0;
      attempted, held, closed, closings := [], multiset{}, {}, [];
      attemptTimes, closeTimes := [], [];
    }

    /** Time passes between any two readings. */
    ghost predicate Ticking() { forall n :: ticks(n) > 0 }

    method NowNs() returns (at: nat)
      modifies this`now, this`readings
      ensures at == now == old(now) + ticks(old(readings)) && readings == old(readings) + 1
    {
      now, readings := now + ticks(readings), readings + 1;
      at := now;
    }

    method Create(id: Id) returns (error: Option<string>)
      requires id !in attempted && forall other | other in closed :: other.cycle < id.cycle
      modifies this`attempted, this`held, this`attemptTimes
      ensures error == answers.creation(id) && attempted == old(attempted) + [id]
      ensures attemptTimes == old(attemptTimes) + [now]
      ensures held == old(held) + if error.None? then multiset{id} else multiset{}
    {
      error := answers.creation(id);
      attempted, attemptTimes := attempted + [id], attemptTimes + [now];
      if error.None? {
        held := held + multiset{id};
      }
    }

    method Observe(id: Id, stage: nat, ghost peers: seq<Id>) returns (error: Option<string>)
      requires held == multiset(peers) + multiset{id}
      requires stage == NODE_GONE <==> id in closed
      ensures error == answers.observation(id, stage)
    {
      error := answers.observation(id, stage);
    }

    method Drive(id: Id) returns (error: Option<string>)
      requires id in held && id !in closed
      ensures error == answers.driving(id)
    {
      error := answers.driving(id);
    }

    method Close(id: Id, ghost concurrency: nat)
      requires id in held
      requires forall i | 0 <= i < concurrency :: Id(id.cycle, i) in attempted
      modifies this`closed, this`closings, this`closeTimes
      ensures closeTimes == old(closeTimes) + [now]
      ensures closed == old(closed) + {id} && closings == old(closings) + [id]
    {
      closed, closings, closeTimes := closed + {id}, closings + [id], closeTimes + [now];
    }

    method TakeServiceErrors(id: Id) returns (errors: seq<string>)
      requires id in held
      ensures errors == answers.serviceErrors(id)
    {
      errors := answers.serviceErrors(id);
    }

    ghost method LetGo(id: Id)
      requires id in held && id in closed
      modifies this`held
      ensures held == old(held) - multiset{id}
    {
      held := held - multiset{id};
    }
  }

  // ---------------------------------------------------------------- what a sample must say

  predicate Settled(cell: Cell, answer: Option<string>) {
    match answer
    case None => cell.Measured?
    case Some(reason) => cell == Missing(reason)
  }

  function Errors(answer: Option<string>): seq<string> {
    match answer case None => [] case Some(e) => [e]
  }

  /** Up to the drive: a session is open and its first six stages are settled. */
  predicate Opened(id: Id, stages: Stages, errors: seq<string>, a: Answers, now: nat) {
    && a.creation(id).None?
    && Timeline(stages, CLOSE_CALL, now)
    && stages[API_CALL].Measured? && stages[API_RETURNED].Measured?
    && (forall i | NODE_PRESENT <= i <= SDL_READY :: Settled(stages[i], a.observation(id, i)))
    && errors == Errors(a.driving(id))
  }

  /** A sample reports its own creation: the stages in the order of the clock, a reason exactly
      where the provider gave one, and exactly the errors of its session. */
  predicate Faithful(s: Sample, a: Answers, now: nat) {
    && s.cold == (s.id.cycle == 0)
    && match a.creation(s.id)
       case Some(e) =>
         Timeline(s.stages, API_RETURNED, now) && s.stages[API_CALL].Measured? && s.errors == [e]
       case None =>
         && Timeline(s.stages, STAGE_COUNT, now)
         && s.stages[API_CALL].Measured? && s.stages[API_RETURNED].Measured?
         && s.stages[CLOSE_CALL].Measured? && s.stages[CLOSE_RETURNED].Measured?
         && (forall i | NODE_PRESENT <= i <= SDL_READY :: Settled(s.stages[i], a.observation(s.id, i)))
         && Settled(s.stages[NODE_GONE], a.observation(s.id, NODE_GONE))
         && s.errors == Errors(a.driving(s.id)) + Errors(a.observation(s.id, NODE_GONE))
                        + a.serviceErrors(s.id)
  }

  // ---------------------------------------------------------------- one session

  predicate AllOpened(active: seq<Sample>, cycle: nat, a: Answers, now: nat) {
    forall e | e in active :: e.id.cycle == cycle && Opened(e.id, e.stages, e.errors, a, now)
  }

  predicate AllFaithful(samples: seq<Sample>, a: Answers, now: nat) {
    forall s | s in samples :: Faithful(s, a, now)
  }

  const UNREACHED: Stages := seq(STAGE_COUNT, _ => Missing(NOT_REACHED))

  /** Settling the next stage at a later reading, or with a reason, extends the timeline. */
  lemma NextStage(stages: Stages, reached: nat, before: nat, cell: Cell, now: nat)
    requires Timeline(stages, reached, before) && reached < STAGE_COUNT && before <= now
    requires cell.Measured? ==> before <= cell.at <= now
    ensures Timeline(stages[reached := cell], reached + 1, now)
  {
  }

  lemma NextIncreases(stages: Stages, reached: nat, before: nat, cell: Cell)
    requires Timeline(stages, reached, before) && reached < STAGE_COUNT && Increasing(stages)
    requires cell.Measured? ==> before < cell.at
    ensures Increasing(stages[reached := cell])
  {
  }

  /** A stage that has a value takes one reading of the clock, and shows it; one that has a
      reason takes none. */
  method Settle(world: World, stages: Stages, stage: nat, answer: Option<string>)
    returns (settled: Stages)
    requires stage < STAGE_COUNT && Timeline(stages, stage, world.now)
    modifies world`now, world`readings
    ensures world.now >= old(world.now)
    ensures |settled| == |stages| && settled == stages[stage := settled[stage]]
    ensures Settled(settled[stage], answer) && Timeline(settled, stage + 1, world.now)
    ensures world.readings == old(world.readings) + if answer.None? then 1 else 0
    ensures world.now == old(world.now) + if answer.None? then world.ticks(old(world.readings)) else 0
    ensures answer.None? ==> settled[stage] == Measured(world.now)
    ensures world.Ticking() && Increasing(stages) ==> Increasing(settled)
  {
    var cell;
    match answer {
      case None =>
        var at := world.NowNs();
        cell := Measured(at);
      case Some(reason) =>
        cell := Missing(reason);
    }
    NextStage(stages, stage, old(world.now), cell, world.now);
    if world.Ticking() && Increasing(stages) {
      NextIncreases(stages, stage, old(world.now), cell);
    }
    settled := stages[stage := cell];
  }

  /** The four observations of an open session. */
  method ObserveOpen(world: World, id: Id, called: Stages, ghost peers: seq<Id>)
    returns (stages: Stages)
    requires Timeline(called, NODE_PRESENT, world.now)
    requires id !in world.closed && world.held == multiset(peers) + multiset{id}
    modifies world`now, world`readings
    ensures world.now >= old(world.now) && Timeline(stages, CLOSE_CALL, world.now)
    ensures stages[API_CALL] == called[API_CALL] && stages[API_RETURNED] == called[API_RETURNED]
    ensures forall i | NODE_PRESENT <= i <= SDL_READY ::
              Settled(stages[i], world.answers.observation(id, i))
    ensures world.Ticking() && Increasing(called) ==> Increasing(stages)
  {
    stages := called;
    for stage := NODE_PRESENT to CLOSE_CALL
      invariant world.now >= old(world.now) && Timeline(stages, stage, world.now)
      invariant stages[API_CALL] == called[API_CALL] && stages[API_RETURNED] == called[API_RETURNED]
      invariant world.Ticking() && Increasing(called) ==> Increasing(stages)
      invariant forall i | NODE_PRESENT <= i < stage ::
                  Settled(stages[i], world.answers.observation(id, i))
    {
      var answer := world.Observe(id, stage, peers);
      stages := Settle(world, stages, stage, answer);
    }
  }

  method OpenSession(world: World, id: Id, ghost peers: seq<Id>)
    returns (stages: Stages, errors: seq<string>, created: bool)
    requires id !in world.attempted && id !in world.closed && world.held == multiset(peers)
    requires forall other | other in world.closed :: other.cycle < id.cycle
    modifies world
    ensures world.now >= old(world.now) && world.closed == old(world.closed)
    ensures world.attempted == old(world.attempted) + [id]
    ensures world.held == multiset(peers) + if created then multiset{id} else multiset{}
    ensures created ==> Opened(id, stages, errors, world.answers, world.now)
    ensures !created ==>
              Faithful(Sample(id, id.cycle == 0, stages, errors), world.answers, world.now)
    ensures world.Ticking() ==> Increasing(stages)
    ensures |world.attemptTimes| == |old(world.attemptTimes)| + 1
    ensures |stages| == STAGE_COUNT
            && Encloses(stages[API_CALL], world.attemptTimes[|old(world.attemptTimes)|],
                        stages[API_RETURNED], world.Ticking())
  {
    stages := Settle(world, UNREACHED, API_CALL, None);
    var error := world.Create(id);
    if error.Some? {
      return stages, [error.value], false;
    }
    stages := Settle(world, stages, API_RETURNED, None);
    stages := ObserveOpen(world, id, stages, peers);
    var failure := world.Drive(id);
    errors, created := Errors(failure), true;
  }

  lemma ClosedFaithfully(e: Sample, stages: Stages, errors: seq<string>, a: Answers, before: nat,
                         now: nat)
    requires Opened(e.id, e.stages, e.errors, a, before) && Timeline(stages, STAGE_COUNT, now)
    requires stages[..CLOSE_CALL] == e.stages[..CLOSE_CALL]
    requires stages[CLOSE_CALL].Measured? && stages[CLOSE_RETURNED].Measured?
    requires Settled(stages[NODE_GONE], a.observation(e.id, NODE_GONE))
    requires errors == e.errors + Errors(a.observation(e.id, NODE_GONE)) + a.serviceErrors(e.id)
    ensures Faithful(Sample(e.id, e.id.cycle == 0, stages, errors), a, now)
  {
    forall i | 0 <= i < CLOSE_CALL ensures stages[i] == e.stages[i] {
      assert stages[..CLOSE_CALL][i] == e.stages[..CLOSE_CALL][i];
    }
  }

  method CloseSession(world: World, e: Sample, concurrency: nat, ghost peers: seq<Id>)
    returns (sample: Sample)
    requires Opened(e.id, e.stages, e.errors, world.answers, world.now)
    requires world.held == multiset(peers) + multiset{e.id}
    requires forall i | 0 <= i < concurrency :: Id(e.id.cycle, i) in world.attempted
    modifies world
    ensures world.now >= old(world.now) && world.attempted == old(world.attempted)
    ensures world.held == multiset(peers) && world.closed == old(world.closed) + {e.id}
    ensures world.closings == old(world.closings) + [e.id] + [e.id]
    ensures sample.id == e.id && Faithful(sample, world.answers, world.now)
    ensures world.Ticking() && Increasing(e.stages) ==> Increasing(sample.stages)
    ensures |world.closeTimes| == |old(world.closeTimes)| + 2
    ensures Encloses(sample.stages[CLOSE_CALL], world.closeTimes[|old(world.closeTimes)|],
                     sample.stages[CLOSE_RETURNED], world.Ticking())
  {
    var stages := Settle(world, e.stages, CLOSE_CALL, None);
    world.Close(e.id, concurrency);
    stages := Settle(world, stages, CLOSE_RETURNED, None);
    world.Close(e.id, concurrency);
    var answer := world.Observe(e.id, NODE_GONE, peers);
    stages := Settle(world, stages, NODE_GONE, answer);
    var errors := world.TakeServiceErrors(e.id);
    world.LetGo(e.id);
    ClosedFaithfully(e, stages, e.errors + Errors(answer) + errors, world.answers, old(world.now), world.now);
    sample := Sample(e.id, e.id.cycle == 0, stages, e.errors + Errors(answer) + errors);
  }

  // ---------------------------------------------------------------- a whole run

  /** Later readings keep what is settled. */
  lemma Later(active: seq<Sample>, samples: seq<Sample>, cycle: nat, a: Answers, before: nat, now: nat)
    requires before <= now
    ensures AllOpened(active, cycle, a, before) ==> AllOpened(active, cycle, a, now)
    ensures AllFaithful(samples, a, before) ==> AllFaithful(samples, a, now)
  {
  }

  /** Between two calls of a cycle: every creation so far is a sample or an open session. */
  ghost predicate Accounted(world: World, samples: seq<Sample>, active: seq<Sample>, cycle: nat)
    reads world
  {
    && multiset(Ids(samples)) + multiset(Ids(active)) == multiset(world.attempted)
    && AllFaithful(samples, world.answers, world.now)
    && AllOpened(active, cycle, world.answers, world.now)
    && world.held == multiset(Ids(active))
    && (world.Ticking() ==> AllIncreasing(samples) && AllIncreasing(active))
  }

  /** A creation that just happened is accounted for as an open session or as a sample. */
  lemma AccountedOpen(world: World, samples: seq<Sample>, active: seq<Sample>, s: Sample,
                      before: seq<Id>)
    requires multiset(Ids(samples)) + multiset(Ids(active)) == multiset(before)
    requires AllFaithful(samples, world.answers, world.now)
    requires AllOpened(active, s.id.cycle, world.answers, world.now)
    requires world.attempted == before + [s.id] && world.held == multiset(Ids(active)) + multiset{s.id}
    requires Opened(s.id, s.stages, s.errors, world.answers, world.now)
    requires world.Ticking() ==> AllIncreasing(samples) && AllIncreasing(active) && Increasing(s.stages)
    ensures Accounted(world, samples, active + [s], s.id.cycle)
  {
    IdsOfOneMore(active, s);
  }

  lemma AccountedFailed(world: World, samples: seq<Sample>, active: seq<Sample>, s: Sample,
                        before: seq<Id>)
    requires multiset(Ids(samples)) + multiset(Ids(active)) == multiset(before)
    requires AllFaithful(samples, world.answers, world.now)
    requires AllOpened(active, s.id.cycle, world.answers, world.now)
    requires world.attempted == before + [s.id] && world.held == multiset(Ids(active))
    requires Faithful(s, world.answers, world.now)
    requires world.Ticking() ==> AllIncreasing(samples) && AllIncreasing(active) && Increasing(s.stages)
    ensures Accounted(world, samples + [s], active, s.id.cycle)
  {
    IdsOfOneMore(samples, s);
  }

  method OpenNext(world: World, id: Id, done: seq<Sample>, entries: seq<Sample>)
    returns (samples: seq<Sample>, active: seq<Sample>)
    requires id !in world.attempted && id !in world.closed
    requires forall other | other in world.closed :: other.cycle < id.cycle
    requires Accounted(world, done, entries, id.cycle)
    modifies world
    ensures world.attempted == old(world.attempted) + [id] && world.closed == old(world.closed)
    ensures Accounted(world, samples, active, id.cycle)
  {
    var stages, errors, created := OpenSession(world, id, Ids(entries));
    var sample := Sample(id, id.cycle == 0, stages, errors);
    Later(entries, done, id.cycle, world.answers, old(world.now), world.now);
    if created {
      AccountedOpen(world, done, entries, sample, old(world.attempted));
      samples, active := done, entries + [sample];
    } else {
      AccountedFailed(world, done, entries, sample, old(world.attempted));
      samples, active := done + [sample], entries;
    }
  }

  method OpenCycle(world: World, cycle: nat, concurrency: nat, done: seq<Sample>)
    returns (samples: seq<Sample>, active: seq<Sample>)
    requires world.attempted == IdsTo(cycle, 0, concurrency)
    requires Accounted(world, done, [], cycle)
    requires forall other | other in world.closed :: other.cycle < cycle
    modifies world
    ensures world.attempted == IdsTo(cycle, concurrency, concurrency)
    ensures Accounted(world, samples, active, cycle)
    ensures world.closed == old(world.closed)
  {
    samples, active := done, [];
    for index := 0 to concurrency
      invariant world.attempted == IdsTo(cycle, index, concurrency)
      invariant Accounted(world, samples, active, cycle)
      invariant world.closed == old(world.closed)
    {
      IdsAscend(cycle, index, concurrency);
      samples, active := OpenNext(world, Id(cycle, index), samples, active);
    }
  }

  method CloseNext(world: World, active: seq<Sample>, concurrency: nat, ghost cycle: nat,
                   ghost done: seq<Sample>)
    returns (sample: Sample)
    requires active != [] && Accounted(world, done, active, cycle)
    requires forall i | 0 <= i < concurrency :: Id(cycle, i) in world.attempted
    modifies world
    ensures world.attempted == old(world.attempted)
    ensures world.closed == old(world.closed) + {active[0].id}
    ensures Accounted(world, done + [sample], active[1..], cycle)
  {
    ghost var rest := active[1..];
    assert active == [active[0]] + rest;
    IdsOfOneMore(rest, active[0]);
    sample := CloseSession(world, active[0], concurrency, Ids(rest));
    Later(rest, done, cycle, world.answers, old(world.now), world.now);
    IdsOfOneMore(done, sample);
  }

  method CloseCycle(world: World, cycle: nat, concurrency: nat, done: seq<Sample>,
                    entries: seq<Sample>)
    returns (samples: seq<Sample>)
    requires Accounted(world, done, entries, cycle)
    requires forall i | 0 <= i < concurrency :: Id(cycle, i) in world.attempted
    requires forall other | other in world.closed :: other.cycle < cycle
    modifies world
    ensures world.attempted == old(world.attempted)
    ensures Accounted(world, samples, [], cycle + 1)
    ensures forall other | other in world.closed :: other.cycle < cycle + 1
  {
    var active := entries;
    samples := done;
    while active != []
      invariant world.attempted == old(world.attempted)
      invariant Accounted(world, samples, active, cycle)
      invariant forall other | other in world.closed :: other.cycle < cycle + 1
    {
      var sample := CloseNext(world, active, concurrency, cycle, samples);
      samples, active := samples + [sample], active[1..];
    }
  }

  lemma {:induction false} IdsContain(cycle: nat, index: nat, concurrency: nat, i: nat)
    requires i < index
    ensures Id(cycle, i) in IdsTo(cycle, index, concurrency)
  {
    if i < index - 1 {
      IdsContain(cycle, index - 1, concurrency, i);
    }
  }

  datatype Configuration = Configuration(declared: bool, cycles: nat, concurrency: nat)

  predicate Runnable(c: Configuration) {
    c.declared && 1 <= c.cycles <= 1000 && 1 <= c.concurrency <= 32
  }

  /** run: an unbounded or undeclared configuration is refused before the provider is called.
      Otherwise there is exactly one sample for each creation, in order and faithful to its own
      session, and no session is left open. */
  method Run(world: World, c: Configuration) returns (report: Option<seq<Sample>>)
    requires world.attempted == [] && world.held == multiset{} && world.closed == {}
    modifies world
    ensures report.Some? <==> Runnable(c)
    ensures report.None? ==> world.attempted == []
    ensures report.Some? ==>
              && Ids(report.value) == world.attempted == IdsTo(c.cycles, 0, c.concurrency)
              && AllFaithful(report.value, world.answers, world.now)
              && world.held == multiset{}
              && (world.Ticking() ==> AllIncreasing(report.value))
  {
    if !Runnable(c) {
      return None;
    }
    var samples: seq<Sample> := [];
    for cycle := 0 to c.cycles
      invariant world.attempted == IdsTo(cycle, 0, c.concurrency)
      invariant Accounted(world, samples, [], cycle)
      invariant forall other | other in world.closed :: other.cycle < cycle
    {
      var active;
      samples, active := OpenCycle(world, cycle, c.concurrency, samples);
      forall i | 0 <= i < c.concurrency ensures Id(cycle, i) in world.attempted {
        IdsContain(cycle, c.concurrency, c.concurrency, i);
      }
      samples := CloseCycle(world, cycle, c.concurrency, samples, active);
    }
    SortedSamples(samples);
    IdsAscend(c.cycles, 0, c.concurrency);
    assert Ids([]) == [];
    CreationOrder();
    ListingIsUnique(Ids(Sorted(samples, SampleBefore)), world.attempted, Before);
    report := Some(Sorted(samples, SampleBefore));
  }

  // ---------------------------------------------------------------- peers that failed

  /** The service call of a peer: what each call would answer, and how many were made. */
  class Peer {
    const answers: nat -> Option<string>
    var calls: nat
    var failure: Option<string>

    constructor (answers: nat -> Option<string>)
      ensures this.answers == answers && calls == 0 && failure == None
    {
      this.answers, calls, failure := answers, 0, None;
    }

    ghost predicate Valid()
      reads this
    {
      && (forall k | 0 <= k < calls - 1 :: answers(k).None?)
      && (calls > 0 ==> failure == answers(calls - 1))
      && (calls == 0 ==> failure == None)
    }

    /** A peer is serviced until it first fails. */
    method Service()
      requires Valid()
      modifies this
      ensures Valid()
      ensures calls == old(calls) + if old(failure).Some? then 0 else 1
    {
      if failure.None? {
        failure, calls := answers(calls), calls + 1;
      }
    }
  }

  /** However often a peer is serviced before its errors are taken, they are its first failure
      alone, and it was not called again after it. */
  method ServiceAll(peer: Peer, times: nat) returns (errors: seq<string>)
    requires peer.calls == 0 && peer.failure == None
    modifies peer
    ensures peer.failure == None && |errors| <= 1 && peer.calls <= times
    ensures errors == [] ==>
              peer.calls == times && forall k | 0 <= k < times :: peer.answers(k).None?
    ensures errors != [] ==>
              && peer.calls > 0 && peer.answers(peer.calls - 1) == Some(errors[0])
              && forall k | 0 <= k < peer.calls - 1 :: peer.answers(k).None?
  {
    for n := 0 to times
      invariant peer.Valid() && peer.calls <= n
      invariant peer.failure.None? ==> peer.calls == n
    {
      peer.Service();
    }
    errors := Errors(peer.failure);
    peer.failure := None;
  }
}
