/** The microphone side of the USB audio acceptance program: it keeps the device a fixed number
    of frames ahead of what the host has consumed, whatever each write accepts. */
module Refill {
  import opened Amounts
  import opened Outcomes
  import opened Markers
  import opened MarkerCodec

  const BLOCK: nat := 128
  const POSITIONS: nat := 0x1_0000_0000_0000_0000

  /** The device as seen through its write call: it fails, or takes a prefix of the offer. The
      answers are arbitrary, and the ghost field keeps every frame it took. */
  class Microphone {
    const answers: nat -> Option<nat>
    var writes: nat
    ghost var taken: seq<Frame>

    /** The device took something at each of these writes. */
    ghost predicate Willing(from: nat, to: nat) {
      forall k | from <= k < to :: answers(k).Some? && answers(k).value > 0
    }

    constructor (answers: nat -> Option<nat>)
      ensures this.answers == answers && writes == 0 && taken == []
    {
      this.answers, writes, taken := answers, 0, [];
    }

    method Write(frames: seq<Frame>) returns (accepted: Option<nat>)
      requires 0 < |frames| <= BLOCK
      modifies this
      ensures writes == old(writes) + 1
      ensures match answers(old(writes))
              case None => accepted == None && taken == old(taken)
              case Some(n) =>
                accepted == Some(Lesser(n, |frames|))
                && taken == old(taken) + frames[..Lesser(n, |frames|)]
    {
      match answers(writes) {
        case None =>
          accepted := None;
        case Some(n) =>
          accepted := Some(Lesser(n, |frames|));
          taken := taken + frames[..Lesser(n, |frames|)];
      }
      writes := writes + 1;
    }
  }

  /** The device was fed exactly the markers below submitted, in order and once each. */
  predicate Fed(taken: seq<Frame>, submitted: nat, channels: int) {
    && (submitted > 0 ==> InRange(submitted - 1, channels))
    && taken == Stretch(0, submitted, channels)
  }

  /** There are markers to feed up to the target. */
  predicate Markable(submitted: nat, target: nat, channels: int) {
    target > submitted ==> InRange(target - 1, channels)
  }

  /** The first frames of a block extend what was fed. */
  lemma FedMore(taken: seq<Frame>, submitted: nat, offered: nat, accepted: nat, channels: int)
    requires Fed(taken, submitted, channels) && 0 < offered && accepted <= offered
    requires InRange(submitted + offered - 1, channels)
    ensures Fed(taken + Stretch(submitted, offered, channels)[..accepted], submitted + accepted,
                channels)
  {
  }

  datatype End = Refilled(acceptedAny: bool) | Terminal | Exhausted

  /** refill_microphone: feed the markers from submitted up to the target in blocks. */
  method RefillMicrophone(mic: Microphone, channels: int, before: nat, target: nat)
    returns (submitted: nat, end: End)
    requires channels == 1 || channels == 2
    requires Fed(mic.taken, before, channels)
    modifies mic
    ensures Fed(mic.taken, submitted, channels)
    ensures before <= submitted <= Greater(before, target)
    ensures mic.writes >= old(mic.writes)
    ensures submitted == Greater(before, target) <==>
              Markable(before, target, channels) && mic.Willing(old(mic.writes), mic.writes)
    ensures end.Refilled? ==>
              && end.acceptedAny == (submitted > before)
              && (submitted < target ==>
                    mic.writes > old(mic.writes) && mic.answers(mic.writes - 1) == Some(0))
    ensures end.Terminal? <==>
              mic.writes > old(mic.writes) && mic.answers(mic.writes - 1) == None
    ensures end.Exhausted? ==>
              submitted < target && !InRange(submitted + Lesser(target - submitted, BLOCK) - 1, channels)
  {
    submitted, end := before, Refilled(false);
    while submitted < target
      invariant Fed(mic.taken, submitted, channels)
      invariant before <= submitted <= Greater(before, target)
      invariant mic.writes >= old(mic.writes)
      invariant mic.Willing(old(mic.writes), mic.writes)
      invariant end == Refilled(submitted > before)
    {
      var frames := Lesser(target - submitted, BLOCK);
      if !InRange(submitted + frames - 1, channels) {
        if InRange(target - 1, channels) {
          InRangeBelow(submitted + frames - 1, target - 1, channels);
        }
        return submitted, Exhausted;
      }
      ghost var taken := mic.taken;
      var accepted := mic.Write(Stretch(submitted, frames, channels));
      if accepted == None {
        return submitted, Terminal;
      }
      FedMore(taken, submitted, frames, accepted.value, channels);
      if accepted.value == 0 {
        return;
      }
      end, submitted := Refilled(true), submitted + accepted.value;
    }
  }

  // ---------------------------------------------------------------- a whole run

  /** The furthest host position among the first n. */
  function Furthest(hosts: seq<nat>, n: nat): nat
    requires n <= |hosts|
  {
    if n == 0 then 0 else Greater(Furthest(hosts, n - 1), hosts[n - 1])
  }

  predicate Monotone(hosts: seq<nat>) {
    forall i, j | 0 <= i <= j < |hosts| :: hosts[i] <= hosts[j]
  }

  lemma {:induction false} FurthestIsLast(hosts: seq<nat>, n: nat)
    requires n < |hosts| && Monotone(hosts)
    ensures Furthest(hosts, n + 1) == hosts[n]
  {
    if n > 0 {
      FurthestIsLast(hosts, n - 1);
    }
  }

  datatype Outcome = Running | Overflow | Ended(end: End)

  /** The frames submitted after each round stay within the fill of the furthest host position. */
  predicate Bounded(submitted: seq<nat>, hosts: seq<nat>, fill: nat) {
    |submitted| <= |hosts|
    && forall k | 0 <= k < |submitted| :: submitted[k] <= Furthest(hosts, k + 1) + fill
  }

  lemma BoundedByHosts(submitted: seq<nat>, hosts: seq<nat>, fill: nat)
    requires Bounded(submitted, hosts, fill) && Monotone(hosts)
    ensures forall k | 0 <= k < |submitted| :: submitted[k] <= hosts[k] + fill
  {
    forall k | 0 <= k < |submitted| ensures submitted[k] <= hosts[k] + fill {
      FurthestIsLast(hosts, k);
    }
  }

  /** If each of its writes took something, round k ended at its target, the fill ahead of the
      host, or stayed where it was beyond it. */
  ghost predicate RoundReaches(mic: Microphone, submitted: seq<nat>, writes: seq<nat>,
                               hosts: seq<nat>, fill: nat, k: nat)
    requires |writes| == |submitted| + 1 && |submitted| <= |hosts| && k < |submitted|
  {
    mic.Willing(writes[k], writes[k + 1]) ==>
      submitted[k] == Greater(if k == 0 then 0 else submitted[k - 1], hosts[k] + fill)
  }

  ghost predicate Reaches(mic: Microphone, submitted: seq<nat>, writes: seq<nat>, hosts: seq<nat>,
                          fill: nat)
    requires |writes| == |submitted| + 1 && |submitted| <= |hosts|
  {
    forall k | 0 <= k < |submitted| :: RoundReaches(mic, submitted, writes, hosts, fill, k)
  }

  lemma ReachesMore(mic: Microphone, submitted: seq<nat>, writes: seq<nat>, hosts: seq<nat>,
                    fill: nat, total: nat, written: nat)
    requires |writes| == |submitted| + 1 && |submitted| < |hosts|
    requires Reaches(mic, submitted, writes, hosts, fill)
    requires mic.Willing(writes[|submitted|], written) ==>
               total == Greater(if submitted == [] then 0 else submitted[|submitted| - 1],
                                hosts[|submitted|] + fill)
    ensures Reaches(mic, submitted + [total], writes + [written], hosts, fill)
  {
    forall k | 0 <= k <= |submitted|
      ensures RoundReaches(mic, submitted + [total], writes + [written], hosts, fill, k)
    {
      assert k < |submitted| ==> RoundReaches(mic, submitted, writes, hosts, fill, k);
    }
  }

  /** The refills of an exercise, one for each host position reported: the device is fed the
      markers from 0 without loss or repeat, for a host that only advances never more than it
      consumed plus the fill, and that much whenever no write is refused. */
  method RefillAll(mic: Microphone, channels: int, fill: nat, hosts: seq<nat>)
    returns (submitted: seq<nat>, total: nat, outcome: Outcome, ghost writes: seq<nat>)
    requires channels == 1 || channels == 2
    requires mic.taken == []
    modifies mic
    ensures Fed(mic.taken, total, channels)
    ensures submitted != [] && outcome == Running ==> total == submitted[|submitted| - 1]
    ensures Bounded(submitted, hosts, fill)
    ensures Monotone(hosts) ==>
              forall k | 0 <= k < |submitted| :: submitted[k] <= hosts[k] + fill
    ensures |writes| == |submitted| + 1 && writes[0] == old(mic.writes)
    ensures Reaches(mic, submitted, writes, hosts, fill)
    ensures outcome == Running ==> |submitted| == |hosts|
    ensures outcome == Overflow ==>
              |submitted| < |hosts| && hosts[|submitted|] + fill >= POSITIONS
    ensures outcome.Ended? ==> |submitted| < |hosts| && !outcome.end.Refilled?
  {
    submitted, total, writes, outcome := [], 0, [mic.writes], Running;
    while |submitted| < |hosts|
      invariant |submitted| <= |hosts| && |writes| == |submitted| + 1
      invariant writes[0] == old(mic.writes) && writes[|submitted|] == mic.writes
      invariant Fed(mic.taken, total, channels)
      invariant total == if submitted == [] then 0 else submitted[|submitted| - 1]
      invariant Bounded(submitted, hosts, fill)
      invariant Reaches(mic, submitted, writes, hosts, fill)
    {
      var target := hosts[|submitted|] + fill;
      if target >= POSITIONS {
        outcome := Overflow;
        break;
      }
      var end;
      total, end := RefillMicrophone(mic, channels, total, target);
      if !end.Refilled? {
        outcome := Ended(end);
        break;
      }
      ReachesMore(mic, submitted, writes, hosts, fill, total, mic.writes);
      submitted, writes := submitted + [total], writes + [mic.writes];
    }
    if Monotone(hosts) {
      BoundedByHosts(submitted, hosts, fill);
    }
  }
}
