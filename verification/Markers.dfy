/** The indexed S16 markers that the audio programs play and recognise: one frame per index,
    or for mono one index in a positive header frame and a negative tail frame. */
module Markers {
  /** The base of the two digits of an index, and the first index they cannot write. */
  const MARKER_BASE: int := 32767
  const INDICES: int := 0x3FFF_0001

  type Frame = seq<int>

  predicate ValidChannels(channels: int) { channels == 1 || channels == 2 || channels == 4 }

  function Index(position: nat, channels: int): nat {
    if channels == 1 then position / 2 else position
  }

  /** The marker exists: the programs refuse to produce any other. */
  predicate InRange(position: int, channels: int) {
    && ValidChannels(channels)
    && position >= 0
    && Index(position, channels) < INDICES
  }

  function Marker(position: nat, channels: int): (frame: Frame)
    requires InRange(position, channels)
    ensures |frame| == channels
  {
    var index := Index(position, channels);
    var high, low := index / 32767 + 1, index % 32767 + 1;
    if channels == 1 then [if position % 2 == 0 then high else -low]
    else if channels == 2 then [high, low]
    else [high, low, -high, -low]
  }

  predicate Silent(frame: Frame) { forall i | 0 <= i < |frame| :: frame[i] == 0 }

  lemma DigitsOfIndex(high: nat, low: nat)
    requires low < 32767
    ensures (high * 32767 + low) / 32767 == high
    ensures (high * 32767 + low) % 32767 == low
  {
  }

  lemma MarkerIsNotSilent(position: nat, channels: int)
    requires InRange(position, channels)
    ensures !Silent(Marker(position, channels))
  {
    assert Marker(position, channels)[0] != 0;
  }

  /** Frames of two or four channels name their position. */
  lemma MarkerInjective(p: nat, q: nat, channels: int)
    requires InRange(p, channels) && InRange(q, channels) && channels != 1
    requires Marker(p, channels) == Marker(q, channels)
    ensures p == q
  {
  }

  lemma NextHigh(k: nat)
    ensures (k + 1) / 32767 == if k % 32767 == 32766 then k / 32767 + 1 else k / 32767
  {
  }

  lemma OddPair(k: nat, l: nat)
    requires k % 32767 == l % 32767
    requires (k + 1) / 32767 == (l + 1) / 32767
    ensures k == l
  {
    NextHigh(k);
    NextHigh(l);
    EvenPair(k, l);
  }

  lemma EvenPair(k: nat, l: nat)
    requires k / 32767 == l / 32767 && k % 32767 == l % 32767
    ensures k == l
  {
  }

  lemma HalfOfSuccessor(p: nat)
    ensures p % 2 == 0 ==> (p + 1) / 2 == p / 2 && (p + 1) % 2 == 1 && p == 2 * (p / 2)
    ensures p % 2 == 1 ==> (p + 1) / 2 == p / 2 + 1 && (p + 1) % 2 == 0 && p == 2 * (p / 2) + 1
  {
  }

  /** Two adjacent mono frames name their position, whichever half comes first. */
  lemma MonoPairInjective(p: nat, q: nat)
    requires InRange(p, 1) && InRange(p + 1, 1) && InRange(q, 1) && InRange(q + 1, 1)
    requires Marker(p, 1) == Marker(q, 1) && Marker(p + 1, 1) == Marker(q + 1, 1)
    ensures p == q
  {
    assert Marker(p, 1)[0] == Marker(q, 1)[0];
    assert Marker(p + 1, 1)[0] == Marker(q + 1, 1)[0];
    assert p % 2 == q % 2;
    HalfOfSuccessor(p);
    HalfOfSuccessor(q);
    if p % 2 == 0 {
      EvenPair(p / 2, q / 2);
    } else {
      OddPair(p / 2, q / 2);
    }
  }
}
