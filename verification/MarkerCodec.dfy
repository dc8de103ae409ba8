/** The capture checker of the live USB audio script: the PCM it plays, the decoder of what
    was captured, and the summary of a window that the verdict rests on. */
module MarkerCodec {
  import opened Outcomes
  import opened Markers

  const MAX_CAPTURE_FRAMES: nat := 3_200_000

  datatype CodecError = InvalidMarker | MarkerExhausted | Unbounded | InvalidCapture | Oversized
                      | InvalidWindow

  // ---------------------------------------------------------------- bytes

  newtype Byte = b: int | 0 <= b < 256

  predicate IsSample(v: int) { -32768 <= v <= 32767 }

  /** Little-endian signed 16-bit. */
  function PackSample(v: int): seq<Byte>
    requires IsSample(v)
  {
    var u := if v < 0 then v + 65536 else v;
    [(u % 256) as Byte, (u / 256) as Byte]
  }

  /** The low byte of the two's complement, then the high one. */
  lemma SampleBytes(v: int)
    requires IsSample(v)
    ensures |PackSample(v)| == 2
    ensures PackSample(v)[0] as int == v % 256 && PackSample(v)[1] as int == v / 256 % 256
  {
  }

  function UnpackSample(low: Byte, high: Byte): int {
    var u := low as int + 256 * (high as int);
    if u >= 32768 then u - 65536 else u
  }

  predicate IsFrame(frame: Frame, channels: nat) {
    |frame| == channels && forall i | 0 <= i < |frame| :: IsSample(frame[i])
  }

  predicate Framed(frames: seq<Frame>, channels: nat) {
    forall i | 0 <= i < |frames| :: IsFrame(frames[i], channels)
  }

  function PackFrame(frame: Frame): (bytes: seq<Byte>)
    requires forall i | 0 <= i < |frame| :: IsSample(frame[i])
    ensures |bytes| == 2 * |frame|
  {
    if frame == [] then [] else PackSample(frame[0]) + PackFrame(frame[1..])
  }

  function UnpackFrame(bytes: seq<Byte>): (frame: Frame)
    requires |bytes| % 2 == 0
    ensures IsFrame(frame, |bytes| / 2)
  {
    if bytes == [] then [] else [UnpackSample(bytes[0], bytes[1])] + UnpackFrame(bytes[2..])
  }

  function Pack(frames: seq<Frame>, channels: nat): (bytes: seq<Byte>)
    requires Framed(frames, channels)
  {
    if frames == [] then [] else PackFrame(frames[0]) + Pack(frames[1..], channels)
  }

  predicate WholeFrames(bytes: seq<Byte>, channels: int)
    requires ValidChannels(channels)
  {
    |bytes| % (2 * channels) == 0
  }

  lemma OneFrameOf(length: nat, width: nat)
    requires width == 2 || width == 4 || width == 8
    ensures length > 0 && length % width == 0 ==>
              && length >= width
              && (length - width) % width == 0
              && (length - width) / width == length / width - 1
    ensures length % width == 0 ==> (width + length) % width == 0
  {
    if width == 2 {
      assert length % 2 == 0 ==> (2 + length) % 2 == 0;
    } else if width == 4 {
      assert length % 4 == 0 ==> (4 + length) % 4 == 0;
    } else {
      assert length % 8 == 0 ==> (8 + length) % 8 == 0;
    }
  }

  /** Removing or adding one frame keeps a whole number of frames. */
  lemma OneFrame(length: nat, channels: int)
    requires ValidChannels(channels)
    ensures length > 0 && length % (2 * channels) == 0 ==>
              && length >= 2 * channels
              && (length - 2 * channels) % (2 * channels) == 0
              && (length - 2 * channels) / (2 * channels) == length / (2 * channels) - 1
    ensures length % (2 * channels) == 0 ==> (2 * channels + length) % (2 * channels) == 0
  {
    OneFrameOf(length, 2 * channels);
  }

  function Unpack(bytes: seq<Byte>, channels: int): (frames: seq<Frame>)
    requires ValidChannels(channels) && WholeFrames(bytes, channels)
    ensures |frames| == |bytes| / (2 * channels)
    ensures Framed(frames, channels)
  {
    if bytes == [] then []
    else
      OneFrame(|bytes|, channels);
      [UnpackFrame(bytes[..2 * channels])] + Unpack(bytes[2 * channels..], channels)
  }

  lemma SampleRoundTrip(v: int)
    requires IsSample(v)
    ensures |PackSample(v)| == 2 && UnpackSample(PackSample(v)[0], PackSample(v)[1]) == v
  {
  }

  lemma {:induction false} FrameRoundTrip(frame: Frame)
    requires forall i | 0 <= i < |frame| :: IsSample(frame[i])
    ensures UnpackFrame(PackFrame(frame)) == frame
  {
    if frame != [] {
      FrameRoundTrip(frame[1..]);
      SampleRoundTrip(frame[0]);
      assert PackFrame(frame)[..2] == PackSample(frame[0]);
      assert PackFrame(frame)[2..] == PackFrame(frame[1..]);
      assert frame == [frame[0]] + frame[1..];
    }
  }

  lemma UnpackFirst(first: seq<Byte>, rest: seq<Byte>, channels: int)
    requires ValidChannels(channels) && |first| == 2 * channels && WholeFrames(rest, channels)
    ensures WholeFrames(first + rest, channels)
    ensures Unpack(first + rest, channels) == [UnpackFrame(first)] + Unpack(rest, channels)
  {
    OneFrame(|rest|, channels);
    assert (first + rest)[..2 * channels] == first && (first + rest)[2 * channels..] == rest;
  }

  /** Unpacking the bytes of any frames gives the frames back. */
  lemma {:induction false} PackRoundTrip(frames: seq<Frame>, channels: int)
    requires ValidChannels(channels) && Framed(frames, channels)
    ensures WholeFrames(Pack(frames, channels), channels)
    ensures Unpack(Pack(frames, channels), channels) == frames
  {
    if frames != [] {
      PackRoundTrip(frames[1..], channels);
      FrameRoundTrip(frames[0]);
      UnpackFirst(PackFrame(frames[0]), Pack(frames[1..], channels), channels);
      assert frames == [frames[0]] + frames[1..];
    }
  }

  // ---------------------------------------------------------------- the played PCM

  function CheckedMarker(position: int, channels: int): Result<Frame, CodecError> {
    if position < 0 || !ValidChannels(channels) then Err(InvalidMarker)
    else if !InRange(position, channels) then Err(MarkerExhausted)
    else Ok(Marker(position, channels))
  }

  lemma InRangeBelow(p: nat, q: nat, channels: int)
    requires InRange(q, channels) && p <= q
    ensures InRange(p, channels)
  {
  }

  /** The markers from start on. */
  function Stretch(start: nat, frames: nat, channels: int): (stretch: seq<Frame>)
    requires frames > 0 ==> InRange(start + frames - 1, channels)
    ensures |stretch| == frames
  {
    seq(frames, i requires 0 <= i < frames =>
      (InRangeBelow(start + i, start + frames - 1, channels); Marker(start + i, channels)))
  }

  lemma StretchIsFramed(start: nat, frames: nat, channels: int)
    requires frames > 0 ==> InRange(start + frames - 1, channels)
    requires ValidChannels(channels)
    ensures Framed(Stretch(start, frames, channels), channels)
  {
    forall i | 0 <= i < frames ensures IsFrame(Stretch(start, frames, channels)[i], channels) {
      InRangeBelow(start + i, start + frames - 1, channels);
      assert Stretch(start, frames, channels)[i] == Marker(start + i, channels);
    }
  }

  function MarkerPcm(frames: int, channels: int, start: int): Result<seq<Byte>, CodecError> {
    if !(0 <= frames <= MAX_CAPTURE_FRAMES) then Err(Unbounded)
    else match CheckedMarker(start, channels)
      case Err(e) => Err(e)
      case Ok(_) =>
        if frames == 0 then Ok([])
        else match CheckedMarker(start + frames - 1, channels)
          case Err(e) => Err(e)
          case Ok(_) =>
            StretchIsFramed(start, frames, channels);
            Ok(Pack(Stretch(start, frames, channels), channels))
  }

  // ---------------------------------------------------------------- what decoding means

  /** A mono header, and a mono tail whose header is the frame just before it. */
  predicate IsHeader(frame: Frame)
    requires |frame| == 1
  {
    1 <= frame[0] <= MARKER_BASE
  }

  predicate IsTail(frame: Frame)
    requires |frame| == 1
  {
    -MARKER_BASE <= frame[0] <= -1
  }

  function DigitsIndex(high: int, low: int): int { (high - 1) * 32767 + (low - 1) }

  predicate IsWholeMarker(frame: Frame)
    requires |frame| == 2 || |frame| == 4
  {
    && 1 <= frame[0] <= MARKER_BASE
    && 1 <= frame[1] <= MARKER_BASE
    && (|frame| == 4 ==> frame[2] == -frame[0] && frame[3] == -frame[1])
  }

  predicate Capture(frames: seq<Frame>, channels: int) {
    ValidChannels(channels) && Framed(frames, channels)
  }

  /** An indexed unit is complete with frame i. */
  predicate EndsUnit(frames: seq<Frame>, channels: int, i: int)
    requires Capture(frames, channels) && 0 <= i < |frames|
  {
    if channels == 1 then i >= 1 && IsHeader(frames[i - 1]) && IsTail(frames[i])
    else IsWholeMarker(frames[i])
  }

  function UnitIndex(frames: seq<Frame>, channels: int, i: int): (index: nat)
    requires Capture(frames, channels) && 0 <= i < |frames| && EndsUnit(frames, channels, i)
  {
    if channels == 1 then DigitsIndex(frames[i - 1][0], -frames[i][0])
    else DigitsIndex(frames[i][0], frames[i][1])
  }

  function UnitWidth(channels: int): nat { if channels == 1 then 2 else 1 }

  /** Where the unit that contains frame i ends, within the first n frames. */
  function UnitEnd(frames: seq<Frame>, channels: int, n: int, i: int): (end: Option<nat>)
    requires Capture(frames, channels) && 0 <= i < n <= |frames|
  {
    if EndsUnit(frames, channels, i) then Some(i)
    else if channels == 1 && i + 1 < n && EndsUnit(frames, channels, i + 1) then Some(i + 1)
    else None
  }

  /** The index of the last unit complete before frame n. */
  function Previous(frames: seq<Frame>, channels: int, n: nat): Option<nat>
    requires Capture(frames, channels) && n <= |frames|
  {
    if n == 0 then None
    else if EndsUnit(frames, channels, n - 1) then Some(UnitIndex(frames, channels, n - 1))
    else Previous(frames, channels, n - 1)
  }

  /** The source position of a frame, or -1 for a frame of no unit. */
  function Position(frames: seq<Frame>, channels: int, n: int, i: int): int
    requires Capture(frames, channels) && 0 <= i < n <= |frames|
  {
    match UnitEnd(frames, channels, n, i)
    case None => -1
    case Some(end) =>
      var index := UnitIndex(frames, channels, end);
      if channels != 1 then index else if end == i then 2 * index + 1 else 2 * index
  }

  /** The unit of frame i does not continue the last unit before it. */
  predicate Gap(frames: seq<Frame>, channels: int, n: int, i: int)
    requires Capture(frames, channels) && 0 <= i < n <= |frames|
  {
    match UnitEnd(frames, channels, n, i)
    case None => false
    case Some(end) =>
      var previous := Previous(frames, channels, end + 1 - UnitWidth(channels));
      previous.Some? && UnitIndex(frames, channels, end) != previous.value + 1
  }

  // ---------------------------------------------------------------- the decoder's arrays

  datatype Decoded =
    Decoded(valid: seq<bool>, silence: seq<bool>, gaps: seq<bool>, positions: seq<int>)

  predicate Sized(d: Decoded, n: nat) {
    |d.valid| == |d.silence| == |d.gaps| == |d.positions| == n
  }

  /** What the decoder knows about frame i after n frames. */
  predicate EntryFits(d: Decoded, frames: seq<Frame>, channels: int, n: nat, i: nat)
    requires Capture(frames, channels) && i < n <= |frames| && Sized(d, |frames|)
  {
    && d.silence[i] == Silent(frames[i])
    && d.positions[i] == Position(frames, channels, n, i)
    && d.valid[i] == (Position(frames, channels, n, i) >= 0)
    && d.gaps[i] == Gap(frames, channels, n, i)
  }

  predicate EntryBlank(d: Decoded, i: nat)
    requires i < |d.valid| && Sized(d, |d.valid|)
  {
    !d.silence[i] && d.positions[i] == -1 && !d.valid[i] && !d.gaps[i]
  }

  /** The arrays after the first n frames. */
  ghost predicate DecodedUpTo(d: Decoded, frames: seq<Frame>, channels: int, n: nat)
    requires Capture(frames, channels) && n <= |frames|
  {
    && Sized(d, |frames|)
    && (forall i | 0 <= i < n :: EntryFits(d, frames, channels, n, i))
    && (forall i | n <= i < |frames| :: EntryBlank(d, i))
  }

  ghost predicate Decodes(d: Decoded, frames: seq<Frame>, channels: int)
    requires Capture(frames, channels)
  {
    DecodedUpTo(d, frames, channels, |frames|)
  }

  /** Seeing one more frame completes at most the unit that ends with it. */
  lemma OneMoreFrame(frames: seq<Frame>, channels: int, n: nat, i: nat)
    requires Capture(frames, channels) && i < n < |frames|
    ensures channels == 1 && i == n - 1 && EndsUnit(frames, channels, n) ==>
              && UnitEnd(frames, channels, n, i).None?
              && UnitEnd(frames, channels, n + 1, i) == Some(n)
    ensures !(channels == 1 && i == n - 1 && EndsUnit(frames, channels, n)) ==>
              UnitEnd(frames, channels, n + 1, i) == UnitEnd(frames, channels, n, i)
  {
  }

  lemma FrameOfNoUnit(d: Decoded, e: Decoded, frames: seq<Frame>, channels: int, n: nat)
    requires Capture(frames, channels) && n < |frames| && DecodedUpTo(d, frames, channels, n)
    requires !EndsUnit(frames, channels, n)
    requires e == d.(silence := d.silence[n := Silent(frames[n])])
    ensures DecodedUpTo(e, frames, channels, n + 1)
  {
    var m := n + 1;
    assert EntryBlank(d, n);
    forall i | 0 <= i < m ensures EntryFits(e, frames, channels, m, i) {
      if i < n {
        assert EntryFits(d, frames, channels, n, i);
        OneMoreFrame(frames, channels, n, i);
      }
    }
    forall i | m <= i < |frames| ensures EntryBlank(e, i) {
      assert EntryBlank(d, i);
    }
  }

  function Marked(flags: seq<bool>, first: nat, last: nat): seq<bool>
    requires first <= last < |flags|
  {
    flags[first := true][last := true]
  }

  /** The arrays with the unit that ends with frame n entered. */
  function UnitEntered(d: Decoded, frames: seq<Frame>, channels: int, n: nat): Decoded
    requires Capture(frames, channels) && n < |frames| && Sized(d, |frames|)
    requires EndsUnit(frames, channels, n)
  {
    var first := n + 1 - UnitWidth(channels);
    var index := UnitIndex(frames, channels, n);
    var previous := Previous(frames, channels, n);
    Decoded(Marked(d.valid, first, n),
            d.silence[n := Silent(frames[n])],
            if previous.Some? && index != previous.value + 1 then Marked(d.gaps, first, n) else d.gaps,
            d.positions[first := 2 * index][n := if channels == 1 then 2 * index + 1 else index])
  }

  lemma EntryBeforeUnit(d: Decoded, frames: seq<Frame>, channels: int, n: nat, i: nat)
    requires Capture(frames, channels) && n < |frames| && DecodedUpTo(d, frames, channels, n)
    requires EndsUnit(frames, channels, n) && i < n + 1 - UnitWidth(channels)
    ensures EntryFits(UnitEntered(d, frames, channels, n), frames, channels, n + 1, i)
  {
    assert EntryFits(d, frames, channels, n, i);
    OneMoreFrame(frames, channels, n, i);
  }

  lemma EntryOfHeader(d: Decoded, frames: seq<Frame>, n: nat)
    requires Capture(frames, 1) && 0 < n < |frames| && DecodedUpTo(d, frames, 1, n)
    requires EndsUnit(frames, 1, n)
    ensures EntryFits(UnitEntered(d, frames, 1, n), frames, 1, n + 1, n - 1)
  {
    assert EntryFits(d, frames, 1, n, n - 1);
    OneMoreFrame(frames, 1, n, n - 1);
  }

  lemma EntryOfLast(d: Decoded, frames: seq<Frame>, channels: int, n: nat)
    requires Capture(frames, channels) && n < |frames| && DecodedUpTo(d, frames, channels, n)
    requires EndsUnit(frames, channels, n)
    ensures EntryFits(UnitEntered(d, frames, channels, n), frames, channels, n + 1, n)
  {
    assert EntryBlank(d, n);
  }

  lemma FrameEndsUnit(d: Decoded, frames: seq<Frame>, channels: int, n: nat)
    requires Capture(frames, channels) && n < |frames| && DecodedUpTo(d, frames, channels, n)
    requires EndsUnit(frames, channels, n)
    ensures DecodedUpTo(UnitEntered(d, frames, channels, n), frames, channels, n + 1)
  {
    var m, e := n + 1, UnitEntered(d, frames, channels, n);
    forall i | 0 <= i < m ensures EntryFits(e, frames, channels, m, i) {
      if i < n + 1 - UnitWidth(channels) {
        EntryBeforeUnit(d, frames, channels, n, i);
      } else if i < n {
        EntryOfHeader(d, frames, n);
      } else {
        EntryOfLast(d, frames, channels, n);
      }
    }
    forall i | m <= i < |frames| ensures EntryBlank(e, i) {
      assert EntryBlank(d, i);
    }
  }

  // ---------------------------------------------------------------- decode_capture

  /** The writes for one unit: both of its frames are valid and carry their positions, and
      both carry the discontinuity. */
  method EnterUnit(valid: array<bool>, gaps: array<bool>, positions: array<int>,
                   first: nat, last: nat, index: nat, gap: bool, channels: int)
    requires valid != gaps && first <= last < valid.Length == gaps.Length == positions.Length
    modifies valid, gaps, positions
    ensures valid[..] == Marked(old(valid[..]), first, last)
    ensures gaps[..] == if gap then Marked(old(gaps[..]), first, last) else old(gaps[..])
    ensures positions[..] ==
            old(positions[..])[first := 2 * index][last := if channels == 1 then 2 * index + 1 else index]
  {
    valid[first], valid[last] := true, true;
    positions[first] := 2 * index;
    positions[last] := if channels == 1 then 2 * index + 1 else index;
    if gap {
      gaps[first], gaps[last] := true, true;
    }
  }

  /** The header that waits for its tail before frame n. */
  function PendingHeader(frames: seq<Frame>, channels: int, n: nat): Option<nat>
    requires Capture(frames, channels) && n <= |frames|
  {
    if channels == 1 && n > 0 && IsHeader(frames[n - 1]) then Some(n - 1) else None
  }

  /** The branches on one frame: the unit it completes, and the header left waiting. */
  method ReadFrame(frames: seq<Frame>, channels: int, offset: nat, pending: Option<nat>)
    returns (unit: Option<(nat, nat)>, waiting: Option<nat>)
    requires Capture(frames, channels) && offset < |frames|
    requires pending == PendingHeader(frames, channels, offset)
    ensures unit == if EndsUnit(frames, channels, offset)
                    then Some((offset + 1 - UnitWidth(channels), UnitIndex(frames, channels, offset)))
                    else None
    ensures waiting == PendingHeader(frames, channels, offset + 1)
  {
    var frame := frames[offset];
    unit, waiting := None, None;
    if channels == 1 {
      if IsHeader(frame) {
        waiting := Some(offset);
      } else if IsTail(frame) && pending.Some? {
        unit := Some((pending.value, DigitsIndex(frames[pending.value][0], -frame[0])));
      }
    } else if IsWholeMarker(frame) {
      unit := Some((offset, DigitsIndex(frame[0], frame[1])));
    }
  }

  /** One iteration of decode_capture: it carries the last index and, for mono, the header
      that waits for its tail. */
  method DecodeOne(frames: seq<Frame>, channels: int, offset: nat, valid: array<bool>,
                   silence: array<bool>, gaps: array<bool>, positions: array<int>,
                   previous: Option<nat>, pending: Option<nat>)
    returns (last: Option<nat>, waiting: Option<nat>)
    requires Capture(frames, channels) && offset < |frames|
    requires valid != silence && valid != gaps && silence != gaps
    requires DecodedUpTo(Decoded(valid[..], silence[..], gaps[..], positions[..]),
                         frames, channels, offset)
    requires previous == Previous(frames, channels, offset)
    requires pending == PendingHeader(frames, channels, offset)
    modifies valid, silence, gaps, positions
    ensures DecodedUpTo(Decoded(valid[..], silence[..], gaps[..], positions[..]),
                        frames, channels, offset + 1)
    ensures last == Previous(frames, channels, offset + 1)
    ensures waiting == PendingHeader(frames, channels, offset + 1)
  {
    ghost var before := Decoded(valid[..], silence[..], gaps[..], positions[..]);
    silence[offset] := Silent(frames[offset]);
    var unit;
    unit, waiting := ReadFrame(frames, channels, offset, pending);
    if unit.Some? {
      var (first, index) := unit.value;
      var gap := previous.Some? && index != previous.value + 1;
      EnterUnit(valid, gaps, positions, first, offset, index, gap, channels);
      last := Some(index);
      FrameEndsUnit(before, frames, channels, offset);
    } else {
      last := previous;
      FrameOfNoUnit(before, Decoded(valid[..], silence[..], gaps[..], positions[..]),
                    frames, channels, offset);
    }
  }

  /** The loop of decode_capture over fresh arrays. */
  method DecodeFrames(frames: seq<Frame>, channels: int) returns (r: Decoded)
    requires Capture(frames, channels)
    ensures Decodes(r, frames, channels)
  {
    var count := |frames|;
    var valid := new bool[count](_ => false);
    var silence := new bool[count](_ => false);
    var gaps := new bool[count](_ => false);
    var positions := new int[count](_ => -1);
    var previous: Option<nat> := None;
    var pending: Option<nat> := None;
    for offset := 0 to count
      invariant DecodedUpTo(Decoded(valid[..], silence[..], gaps[..], positions[..]),
                            frames, channels, offset)
      invariant previous == Previous(frames, channels, offset)
      invariant pending == PendingHeader(frames, channels, offset)
    {
      previous, pending := DecodeOne(frames, channels, offset, valid, silence, gaps, positions,
                                     previous, pending);
    }
    return Decoded(valid[..], silence[..], gaps[..], positions[..]);
  }

  method DecodeCapture(data: seq<Byte>, channels: int) returns (r: Result<Decoded, CodecError>)
    ensures r == Err(InvalidCapture) <==>
            !ValidChannels(channels) || !WholeFrames(data, channels)
    ensures r == Err(Oversized) <==>
            && ValidChannels(channels) && WholeFrames(data, channels)
            && |data| / (2 * channels) > MAX_CAPTURE_FRAMES
    ensures r.Ok? || r == Err(InvalidCapture) || r == Err(Oversized)
    ensures r.Ok? ==> Decodes(r.value, Unpack(data, channels), channels)
  {
    if !ValidChannels(channels) || !WholeFrames(data, channels) {
      return Err(InvalidCapture);
    }
    var frames := Unpack(data, channels);
    if |frames| > MAX_CAPTURE_FRAMES {
      return Err(Oversized);
    }
    var decoded := DecodeFrames(frames, channels);
    return Ok(decoded);
  }
}
