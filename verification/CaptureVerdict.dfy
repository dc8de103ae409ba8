/** What the capture checker's verdict means: the summary counts of a window say exactly
    whether the window is a contiguous stretch of the played marker stream. */
module CaptureVerdict {
  import opened Outcomes
  import opened Markers
  import opened MarkerCodec

  // ---------------------------------------------------------------- frames and positions

  /** Frame i is the marker that the stream shows there when frame lo shows position start. */
  predicate MarkerAt(frames: seq<Frame>, channels: int, lo: int, start: int, i: int)
    requires 0 <= lo <= i < |frames| && start >= 0
  {
    InRange(start + i - lo, channels) && frames[i] == Marker(start + i - lo, channels)
  }

  /** The frames lo to hi are the markers from start on. */
  predicate IsStretch(frames: seq<Frame>, channels: int, lo: int, hi: int, start: int) {
    && 0 <= lo <= hi <= |frames|
    && start >= 0
    && forall i | lo <= i < hi :: MarkerAt(frames, channels, lo, start, i)
  }

  /** A frame that the decoder accepts is the marker of the position it reports. */
  lemma PositionNamesMarker(frames: seq<Frame>, channels: int, n: int, i: int)
    requires Capture(frames, channels) && 0 <= i < n <= |frames|
    requires Position(frames, channels, n, i) >= 0
    ensures InRange(Position(frames, channels, n, i), channels)
    ensures frames[i] == Marker(Position(frames, channels, n, i), channels)
  {
    var end := UnitEnd(frames, channels, n, i).value;
    if channels == 1 {
      DigitsOfIndex(frames[end - 1][0] - 1, -frames[end][0] - 1);
    } else {
      DigitsOfIndex(frames[i][0] - 1, frames[i][1] - 1);
    }
  }

  /** A marker at its place in a unit is recognised with its position. */
  lemma MarkerIsRecognised(frames: seq<Frame>, channels: int, i: nat, p: nat)
    requires Capture(frames, channels) && i < |frames|
    requires InRange(p, channels) && frames[i] == Marker(p, channels)
    requires channels == 1 ==>
             p % 2 == 1 && i >= 1 && InRange(p - 1, 1) && frames[i - 1] == Marker(p - 1, 1)
    ensures EndsUnit(frames, channels, i)
    ensures UnitIndex(frames, channels, i) == Index(p, channels)
  {
  }

  lemma NextPosition(frames: seq<Frame>, channels: int, n: int, i: int)
    requires Capture(frames, channels) && 0 <= i && i + 1 < n <= |frames|
    requires Position(frames, channels, n, i) >= 0
    requires Position(frames, channels, n, i + 1) >= 0 && !Gap(frames, channels, n, i + 1)
    ensures Position(frames, channels, n, i + 1) == Position(frames, channels, n, i) + 1
  {
  }

  // ---------------------------------------------------------------- soundness

  /** Every frame of the window is valid and none carries a gap. */
  predicate Perfect(frames: seq<Frame>, channels: int, begin: int, end: int)
    requires Capture(frames, channels) && 0 <= begin <= end <= |frames|
  {
    forall i | begin <= i < end ::
      Position(frames, channels, |frames|, i) >= 0 && !Gap(frames, channels, |frames|, i)
  }

  lemma {:induction false} PositionsAdvance(frames: seq<Frame>, channels: int, begin: int, end: int,
                                            i: int)
    requires Capture(frames, channels) && 0 <= begin <= i < end <= |frames|
    requires Perfect(frames, channels, begin, end)
    ensures Position(frames, channels, |frames|, i)
         == Position(frames, channels, |frames|, begin) + i - begin
    decreases i
  {
    if i > begin {
      PositionsAdvance(frames, channels, begin, end, i - 1);
      NextPosition(frames, channels, |frames|, i - 1);
    }
  }

  /** No loss, repetition, reordering or corruption can pass: a perfect window is a contiguous
      stretch of the stream that starts at the position reported for its first frame. */
  lemma PerfectIsContiguous(frames: seq<Frame>, channels: int, begin: int, end: int)
    requires Capture(frames, channels) && 0 <= begin < end <= |frames|
    requires Perfect(frames, channels, begin, end)
    ensures IsStretch(frames, channels, begin, end, Position(frames, channels, |frames|, begin))
  {
    var start := Position(frames, channels, |frames|, begin);
    forall i | begin <= i < end ensures MarkerAt(frames, channels, begin, start, i) {
      PositionsAdvance(frames, channels, begin, end, i);
      PositionNamesMarker(frames, channels, |frames|, i);
    }
  }

  // ---------------------------------------------------------------- exact meaning

  /** Whole units from lo to hi: what the decoder must have seen of a stretch. */
  predicate WholeUnits(frames: seq<Frame>, channels: int, lo: int, hi: int, start: int) {
    && IsStretch(frames, channels, lo, hi, start)
    && (channels == 1 ==> start % 2 == 0 && (hi - lo) % 2 == 0)
  }

  /** Frame i of the stretch is decoded, and its unit continues the one before it. */
  predicate DecodedInStretch(frames: seq<Frame>, channels: int, lo: int, start: int, i: int)
    requires Capture(frames, channels) && 0 <= lo <= i < |frames| && start >= 0
  {
    && Position(frames, channels, |frames|, i) == start + i - lo
    && (Gap(frames, channels, |frames|, i) ==>
          && i < lo + UnitWidth(channels)
          && Previous(frames, channels, lo).Some?
          && Previous(frames, channels, lo).value + 1 != Index(start, channels))
  }

  lemma FrameIsRecognised(frames: seq<Frame>, channels: int, lo: int, hi: int, start: int, i: int)
    requires Capture(frames, channels) && WholeUnits(frames, channels, lo, hi, start)
    requires channels != 1 && lo <= i < hi
    ensures EndsUnit(frames, channels, i) && UnitIndex(frames, channels, i) == start + i - lo
  {
    assert MarkerAt(frames, channels, lo, start, i);
    MarkerIsRecognised(frames, channels, i, start + i - lo);
  }

  lemma WholeFramesAreDecoded(frames: seq<Frame>, channels: int, lo: int, hi: int, start: int,
                              i: int)
    requires Capture(frames, channels) && WholeUnits(frames, channels, lo, hi, start)
    requires channels != 1 && lo <= i < hi
    ensures DecodedInStretch(frames, channels, lo, start, i)
  {
    FrameIsRecognised(frames, channels, lo, hi, start, i);
    if i > lo {
      FrameIsRecognised(frames, channels, lo, hi, start, i - 1);
    }
  }

  /** A mono header is not a tail. */
  lemma HeadersStartPairs(frames: seq<Frame>, i: int, p: nat)
    requires Capture(frames, 1) && 0 <= i < |frames|
    requires p % 2 == 0 && InRange(p, 1) && frames[i] == Marker(p, 1)
    ensures !EndsUnit(frames, 1, i)
  {
    assert frames[i][0] >= 1;
  }

  /** The mono pair that ends at frame e. */
  lemma PairIsRecognised(frames: seq<Frame>, lo: int, hi: int, start: int, e: int)
    requires Capture(frames, 1) && WholeUnits(frames, 1, lo, hi, start)
    requires lo < e < hi && (e - lo) % 2 == 1
    ensures EndsUnit(frames, 1, e) && !EndsUnit(frames, 1, e - 1)
    ensures UnitIndex(frames, 1, e) == (start + e - lo) / 2
  {
    var p := start + e - lo;
    assert MarkerAt(frames, 1, lo, start, e) && MarkerAt(frames, 1, lo, start, e - 1);
    assert p % 2 == 1 && (p - 1) % 2 == 0;
    MarkerIsRecognised(frames, 1, e, p);
    HeadersStartPairs(frames, e - 1, p - 1);
  }

  /** The unit that ends at frame e continues the one before it. */
  lemma PairContinues(frames: seq<Frame>, lo: int, hi: int, start: int, e: int)
    requires Capture(frames, 1) && WholeUnits(frames, 1, lo, hi, start)
    requires lo < e < hi && (e - lo) % 2 == 1
    ensures e - 1 > lo ==> Previous(frames, 1, e - 1) == Some((start + e - lo) / 2 - 1)
  {
    if e - 1 > lo {
      PairIsRecognised(frames, lo, hi, start, e - 2);
    }
  }

  lemma PairsAreDecoded(frames: seq<Frame>, lo: int, hi: int, start: int, i: int)
    requires Capture(frames, 1) && WholeUnits(frames, 1, lo, hi, start)
    requires lo <= i < hi
    ensures DecodedInStretch(frames, 1, lo, start, i)
  {
    var e := if (i - lo) % 2 == 1 then i else i + 1;
    PairIsRecognised(frames, lo, hi, start, e);
    PairContinues(frames, lo, hi, start, e);
    assert UnitEnd(frames, 1, |frames|, i) == Some(e);
  }

  lemma UnitsAreDecoded(frames: seq<Frame>, channels: int, lo: int, hi: int, start: int, i: int)
    requires Capture(frames, channels) && WholeUnits(frames, channels, lo, hi, start)
    requires lo <= i < hi
    ensures DecodedInStretch(frames, channels, lo, start, i)
  {
    if channels == 1 {
      PairsAreDecoded(frames, lo, hi, start, i);
    } else {
      WholeFramesAreDecoded(frames, channels, lo, hi, start, i);
    }
  }

  /** One frame before the window when it starts with a tail, and one after it when it ends
      with a header. */
  function Lead(channels: int, start: int): int {
    if channels == 1 && start % 2 == 1 then 1 else 0
  }

  function Trail(channels: int, start: int, begin: int, end: int): int {
    if channels == 1 && (start + end - begin) % 2 == 1 then 1 else 0
  }

  /** The window shows the stream from start on, its cut pairs are whole in the capture, and
      its first unit continues the last unit decoded before it. */
  predicate ShowsStream(frames: seq<Frame>, channels: int, begin: int, end: int, start: int)
    requires Capture(frames, channels)
  {
    var lo, hi := begin - Lead(channels, start), end + Trail(channels, start, begin, end);
    var first := start - Lead(channels, start);
    && WholeUnits(frames, channels, lo, hi, first)
    && (Previous(frames, channels, lo).Some? ==>
          Previous(frames, channels, lo).value + 1 == Index(first, channels))
  }

  lemma PartnerBefore(frames: seq<Frame>, i: int)
    requires Capture(frames, 1) && 0 <= i < |frames|
    requires Position(frames, 1, |frames|, i) >= 0 && Position(frames, 1, |frames|, i) % 2 == 1
    ensures i >= 1 && Position(frames, 1, |frames|, i - 1) == Position(frames, 1, |frames|, i) - 1
  {
  }

  lemma PartnerAfter(frames: seq<Frame>, i: int)
    requires Capture(frames, 1) && 0 <= i < |frames|
    requires Position(frames, 1, |frames|, i) >= 0 && Position(frames, 1, |frames|, i) % 2 == 0
    ensures i + 1 < |frames|
    ensures Position(frames, 1, |frames|, i + 1) == Position(frames, 1, |frames|, i) + 1
  {
  }

  /** A stretch may be lengthened by one frame on either side. */
  lemma LongerStretch(frames: seq<Frame>, channels: int, lo: int, hi: int, start: int,
                      begin: int, end: int)
    requires 0 <= lo <= begin < end <= hi <= |frames| && start + lo - begin >= 0
    requires IsStretch(frames, channels, begin, end, start)
    requires begin - lo <= 1 && hi - end <= 1
    requires lo < begin ==> MarkerAt(frames, channels, lo, start + lo - begin, lo)
    requires end < hi ==> MarkerAt(frames, channels, lo, start + lo - begin, end)
    ensures IsStretch(frames, channels, lo, hi, start + lo - begin)
  {
    var first := start + lo - begin;
    forall i | lo <= i < hi ensures MarkerAt(frames, channels, lo, first, i) {
      if begin <= i < end {
        assert MarkerAt(frames, channels, begin, start, i);
      }
    }
  }

  lemma FirstUnitContinues(frames: seq<Frame>, channels: int, begin: int)
    requires Capture(frames, channels) && 0 <= begin < |frames|
    requires Position(frames, channels, |frames|, begin) >= 0
    requires !Gap(frames, channels, |frames|, begin)
    ensures var start := Position(frames, channels, |frames|, begin);
            var lo, first := begin - Lead(channels, start), start - Lead(channels, start);
            && lo >= 0
            && (Previous(frames, channels, lo).Some? ==>
                  Previous(frames, channels, lo).value + 1 == Index(first, channels))
  {
  }

  lemma EvenEdges(start: nat, begin: int, end: int)
    ensures var lo, hi := begin - Lead(1, start), end + Trail(1, start, begin, end);
            (start - Lead(1, start)) % 2 == 0 && (hi - lo) % 2 == 0
  {
  }

  lemma MarkerBefore(frames: seq<Frame>, begin: int, start: int)
    requires Capture(frames, 1) && 0 <= begin < |frames|
    requires Position(frames, 1, |frames|, begin) == start && start > 0 && start % 2 == 1
    ensures begin >= 1 && MarkerAt(frames, 1, begin - 1, start - 1, begin - 1)
  {
    PartnerBefore(frames, begin);
    PositionNamesMarker(frames, 1, |frames|, begin - 1);
  }

  lemma MarkerAfter(frames: seq<Frame>, begin: int, end: int, start: int)
    requires Capture(frames, 1) && 0 <= begin < end <= |frames|
    requires Perfect(frames, 1, begin, end)
    requires Position(frames, 1, |frames|, begin) == start && (start + end - begin) % 2 == 1
    ensures end < |frames| && MarkerAt(frames, 1, begin, start, end)
  {
    PositionsAdvance(frames, 1, begin, end, end - 1);
    var last := start + end - 1 - begin;
    assert Position(frames, 1, |frames|, end - 1) == last;
    HalfOfSuccessor(last);
    PartnerAfter(frames, end - 1);
    PositionNamesMarker(frames, 1, |frames|, end);
  }

  /** A perfect window extends to a stretch of whole units. */
  lemma PerfectExtends(frames: seq<Frame>, channels: int, begin: int, end: int, start: int)
    requires Capture(frames, channels) && 0 <= begin < end <= |frames|
    requires Perfect(frames, channels, begin, end)
    requires start == Position(frames, channels, |frames|, begin)
    ensures IsStretch(frames, channels, begin - Lead(channels, start),
                      end + Trail(channels, start, begin, end), start - Lead(channels, start))
  {
    PerfectIsContiguous(frames, channels, begin, end);
    if channels == 1 {
      var lo, hi := begin - Lead(1, start), end + Trail(1, start, begin, end);
      if lo < begin {
        MarkerBefore(frames, begin, start);
      }
      if hi > end {
        MarkerAfter(frames, begin, end, start);
      }
      LongerStretch(frames, 1, lo, hi, start, begin, end);
    }
  }

  lemma PerfectShowsStream(frames: seq<Frame>, channels: int, begin: int, end: int)
    requires Capture(frames, channels) && 0 <= begin < end <= |frames|
    requires Perfect(frames, channels, begin, end)
    ensures ShowsStream(frames, channels, begin, end, Position(frames, channels, |frames|, begin))
  {
    var start := Position(frames, channels, |frames|, begin);
    PerfectExtends(frames, channels, begin, end, start);
    EvenEdges(start, begin, end);
    FirstUnitContinues(frames, channels, begin);
  }

  lemma StreamIsPerfect(frames: seq<Frame>, channels: int, begin: int, end: int, start: int)
    requires Capture(frames, channels) && 0 <= begin < end <= |frames|
    requires ShowsStream(frames, channels, begin, end, start)
    ensures Perfect(frames, channels, begin, end)
  {
    var lo, hi := begin - Lead(channels, start), end + Trail(channels, start, begin, end);
    forall i | begin <= i < end
      ensures Position(frames, channels, |frames|, i) >= 0 && !Gap(frames, channels, |frames|, i)
    {
      UnitsAreDecoded(frames, channels, lo, hi, start - Lead(channels, start), i);
    }
  }

  /** Exactly the windows that pass. */
  lemma WindowMeaning(frames: seq<Frame>, channels: int, begin: int, end: int)
    requires Capture(frames, channels) && 0 <= begin < end <= |frames|
    ensures Perfect(frames, channels, begin, end) <==>
            exists start :: ShowsStream(frames, channels, begin, end, start)
  {
    if Perfect(frames, channels, begin, end) {
      PerfectShowsStream(frames, channels, begin, end);
    }
    if exists start :: ShowsStream(frames, channels, begin, end, start) {
      var start :| ShowsStream(frames, channels, begin, end, start);
      StreamIsPerfect(frames, channels, begin, end, start);
    }
  }

  // ---------------------------------------------------------------- codec round trip

  /** The first frame of an odd mono stretch is a tail without its header. */
  predicate CutOff(start: nat, count: nat, channels: int, i: nat) {
    channels == 1 && ((i == 0 && start % 2 == 1) || (i == count - 1 && (start + count) % 2 == 1))
  }

  lemma StretchIsCapture(start: nat, count: nat, channels: int)
    requires ValidChannels(channels) && count > 0 && InRange(start + count - 1, channels)
    ensures Capture(Stretch(start, count, channels), channels)
    ensures IsStretch(Stretch(start, count, channels), channels, 0, count, start)
  {
    StretchIsFramed(start, count, channels);
    var frames := Stretch(start, count, channels);
    forall k | 0 <= k < count ensures MarkerAt(frames, channels, 0, start, k) {
      InRangeBelow(start + k, start + count - 1, channels);
    }
  }

  /** A stretch without its first or last frames is a stretch. */
  lemma InnerStretch(frames: seq<Frame>, channels: int, hi: int, start: int, a: int, b: int)
    requires IsStretch(frames, channels, 0, hi, start) && 0 <= a <= b <= hi
    ensures IsStretch(frames, channels, a, b, start + a)
  {
    var first := start + a;
    forall k | a <= k < b ensures MarkerAt(frames, channels, a, first, k) {
      assert MarkerAt(frames, channels, 0, start, k);
    }
  }

  lemma HalvesCutOff(frames: seq<Frame>, start: nat, count: nat, i: nat)
    requires Capture(frames, 1) && count == |frames| && i < count
    requires IsStretch(frames, 1, 0, count, start) && CutOff(start, count, 1, i)
    ensures UnitEnd(frames, 1, count, i).None?
  {
    assert MarkerAt(frames, 1, 0, start, i);
    HalfOfSuccessor(start + count - 1);
  }

  /** Decoding played markers gives back their positions, all of them valid and without gaps,
      except only a mono half whose partner was cut off at either end. */
  lemma DecodedStretch(start: nat, count: nat, channels: int, i: nat)
    requires ValidChannels(channels) && i < count && InRange(start + count - 1, channels)
    ensures Capture(Stretch(start, count, channels), channels)
    ensures var frames := Stretch(start, count, channels);
            && !Gap(frames, channels, count, i)
            && Position(frames, channels, count, i)
               == if CutOff(start, count, channels, i) then -1 else start + i
  {
    var frames := Stretch(start, count, channels);
    StretchIsCapture(start, count, channels);
    if CutOff(start, count, channels, i) {
      HalvesCutOff(frames, start, count, i);
    } else {
      WholeUnitsAreDecoded(frames, start, count, channels, i);
    }
  }

  lemma WholeUnitsAreDecoded(frames: seq<Frame>, start: nat, count: nat, channels: int, i: nat)
    requires Capture(frames, channels) && count == |frames| && i < count
    requires IsStretch(frames, channels, 0, count, start) && !CutOff(start, count, channels, i)
    ensures !Gap(frames, channels, count, i) && Position(frames, channels, count, i) == start + i
  {
    var lo := if channels == 1 && start % 2 == 1 then 1 else 0;
    var hi := if channels == 1 && (start + count) % 2 == 1 then count - 1 else count;
    InnerStretch(frames, channels, count, start, lo, hi);
    UnitsAreDecoded(frames, channels, lo, hi, start + lo, i);
    assert Previous(frames, channels, lo).None?;
  }

  /** The whole path through bytes: what is played is what is decoded. */
  lemma PlayedIsDecoded(count: nat, channels: int, start: nat)
    requires ValidChannels(channels) && 0 < count <= MAX_CAPTURE_FRAMES
    requires InRange(start + count - 1, channels)
    ensures MarkerPcm(count, channels, start).Ok?
    ensures var bytes := MarkerPcm(count, channels, start).value;
            WholeFrames(bytes, channels) && Unpack(bytes, channels) == Stretch(start, count, channels)
  {
    InRangeBelow(start, start + count - 1, channels);
    StretchIsFramed(start, count, channels);
    PackRoundTrip(Stretch(start, count, channels), channels);
  }

  // ---------------------------------------------------------------- the window summary

  datatype Summary = Summary(
    frames: nat, exactPattern: nat, silence: nat, patternGaps: nat,
    firstUnexpected: Option<nat>, lastUnexpected: Option<nat>,
    firstGap: Option<nat>, lastGap: Option<nat>,
    firstSource: Option<int>, lastSource: Option<int>)

  function Count(flags: seq<bool>, begin: nat, end: nat): (count: nat)
    requires begin <= end <= |flags|
    ensures count <= end - begin
    decreases end - begin
  {
    if begin == end then 0 else (if flags[begin] then 1 else 0) + Count(flags, begin + 1, end)
  }

  function FirstWith(flags: seq<bool>, value: bool, begin: nat, end: nat): (first: Option<nat>)
    requires begin <= end <= |flags|
    ensures first.None? ==> forall i | begin <= i < end :: flags[i] != value
    ensures first.Some? ==> begin <= first.value < end && flags[first.value] == value
    ensures first.Some? ==> forall i | begin <= i < first.value :: flags[i] != value
    decreases end - begin
  {
    if begin == end then None
    else if flags[begin] == value then Some(begin)
    else FirstWith(flags, value, begin + 1, end)
  }

  function LastWith(flags: seq<bool>, value: bool, begin: nat, end: nat): (last: Option<nat>)
    requires begin <= end <= |flags|
    ensures last.None? ==> forall i | begin <= i < end :: flags[i] != value
    ensures last.Some? ==> begin <= last.value < end && flags[last.value] == value
    ensures last.Some? ==> forall i | last.value < i < end :: flags[i] != value
    decreases end
  {
    if begin == end then None
    else if flags[end - 1] == value then Some(end - 1)
    else LastWith(flags, value, begin, end - 1)
  }

  function Relative(index: Option<nat>, begin: nat): Option<nat>
    requires index.Some? ==> index.value >= begin
  {
    match index case None => None case Some(i) => Some(i - begin)
  }

  function PositionOf(d: Decoded, index: Option<nat>): Option<int>
    requires index.Some? ==> index.value < |d.positions|
  {
    match index case None => None case Some(i) => Some(d.positions[i])
  }

  /** capture_summary. */
  function Summarize(d: Decoded, begin: int, end: int): Result<Summary, CodecError>
    requires Sized(d, |d.valid|)
  {
    if !(0 <= begin <= end <= |d.valid|) then Err(InvalidWindow)
    else Ok(Summary(
      end - begin, Count(d.valid, begin, end), Count(d.silence, begin, end),
      Count(d.gaps, begin, end),
      Relative(FirstWith(d.valid, false, begin, end), begin),
      Relative(LastWith(d.valid, false, begin, end), begin),
      Relative(FirstWith(d.gaps, true, begin, end), begin),
      Relative(LastWith(d.gaps, true, begin, end), begin),
      PositionOf(d, FirstWith(d.valid, true, begin, end)),
      PositionOf(d, LastWith(d.valid, true, begin, end))))
  }

  lemma {:induction false} CountExtremes(flags: seq<bool>, begin: nat, end: nat)
    requires begin <= end <= |flags|
    ensures Count(flags, begin, end) == end - begin <==> forall i | begin <= i < end :: flags[i]
    ensures Count(flags, begin, end) == 0 <==> forall i | begin <= i < end :: !flags[i]
    decreases end - begin
  {
    if begin < end {
      CountExtremes(flags, begin + 1, end);
    }
  }

  /** The frames of a window that the decoder placed, did not place, found after a gap, and
      found silent. */
  ghost function PlacedIn(frames: seq<Frame>, channels: int, begin: int, end: int): set<int>
    requires Capture(frames, channels) && 0 <= begin <= end <= |frames|
  {
    set i | begin <= i < end && Position(frames, channels, |frames|, i) >= 0
  }

  ghost function UnexpectedIn(frames: seq<Frame>, channels: int, begin: int, end: int): set<int>
    requires Capture(frames, channels) && 0 <= begin <= end <= |frames|
  {
    set i | begin <= i < end && Position(frames, channels, |frames|, i) < 0
  }

  ghost function GapsIn(frames: seq<Frame>, channels: int, begin: int, end: int): set<int>
    requires Capture(frames, channels) && 0 <= begin <= end <= |frames|
  {
    set i | begin <= i < end && Gap(frames, channels, |frames|, i)
  }

  ghost function SilentIn(frames: seq<Frame>, begin: int, end: int): set<int>
    requires 0 <= begin <= end <= |frames|
  {
    set i | begin <= i < end && Silent(frames[i])
  }

  /** The least, or the greatest, of the frames, counted from the beginning of the window. */
  ghost predicate IsFirst(first: Option<nat>, frames: set<int>, begin: int) {
    match first
    case None => frames == {}
    case Some(k) => begin + k in frames && forall i | i in frames :: begin + k <= i
  }

  ghost predicate IsLast(last: Option<nat>, frames: set<int>, begin: int) {
    match last
    case None => frames == {}
    case Some(k) => begin + k in frames && forall i | i in frames :: i <= begin + k
  }

  function Flagged(flags: seq<bool>, value: bool, begin: int, end: int): set<int>
    requires 0 <= begin <= end <= |flags|
  {
    set i | begin <= i < end && flags[i] == value
  }

  lemma {:induction false} CountIsSize(flags: seq<bool>, begin: nat, end: nat)
    requires begin <= end <= |flags|
    ensures Count(flags, begin, end) == |Flagged(flags, true, begin, end)|
    decreases end - begin
  {
    var all := Flagged(flags, true, begin, end);
    if begin < end {
      var rest := Flagged(flags, true, begin + 1, end);
      CountIsSize(flags, begin + 1, end);
      assert all == if flags[begin] then {begin as int} + rest else rest;
    }
  }

  lemma FirstAndLastFlag(flags: seq<bool>, value: bool, begin: nat, end: nat)
    requires begin <= end <= |flags|
    ensures IsFirst(Relative(FirstWith(flags, value, begin, end), begin),
                    Flagged(flags, value, begin, end), begin)
    ensures IsLast(Relative(LastWith(flags, value, begin, end), begin),
                   Flagged(flags, value, begin, end), begin)
  {
    LastFlag(flags, value, begin, end);
  }

  lemma LastFlag(flags: seq<bool>, value: bool, begin: nat, end: nat)
    requires begin <= end <= |flags|
    ensures IsLast(Relative(LastWith(flags, value, begin, end), begin),
                   Flagged(flags, value, begin, end), begin)
  {
  }

  lemma FlagsMeaning(d: Decoded, frames: seq<Frame>, channels: int, begin: nat, end: nat)
    requires Capture(frames, channels) && Decodes(d, frames, channels)
    requires begin <= end <= |frames|
    ensures Flagged(d.valid, true, begin, end) == PlacedIn(frames, channels, begin, end)
    ensures Flagged(d.valid, false, begin, end) == UnexpectedIn(frames, channels, begin, end)
    ensures Flagged(d.gaps, true, begin, end) == GapsIn(frames, channels, begin, end)
    ensures Flagged(d.silence, true, begin, end) == SilentIn(frames, begin, end)
  {
    forall i | begin <= i < end
      ensures d.valid[i] == (Position(frames, channels, |frames|, i) >= 0)
      ensures d.gaps[i] == Gap(frames, channels, |frames|, i)
      ensures d.silence[i] == Silent(frames[i])
    {
      assert EntryFits(d, frames, channels, |frames|, i);
    }
  }

  /** The position of the first, or the last, of the placed frames. */
  ghost predicate ComesFirst(source: Option<int>, placed: set<int>, positions: seq<int>, begin: nat)
    requires forall i | i in placed :: begin <= i < |positions|
  {
    match source
    case None => placed == {}
    case Some(p) => exists k: nat :: IsFirst(Some(k), placed, begin) && p == positions[begin + k]
  }

  ghost predicate ComesLast(source: Option<int>, placed: set<int>, positions: seq<int>, begin: nat)
    requires forall i | i in placed :: begin <= i < |positions|
  {
    match source
    case None => placed == {}
    case Some(p) => exists k: nat :: IsLast(Some(k), placed, begin) && p == positions[begin + k]
  }

  /** The fields of a summary, given which frames of the window are of each kind and where the
      placed ones belong. */
  ghost predicate Summarizes(s: Summary, placed: set<int>, unexpected: set<int>, gaps: set<int>,
                             silent: set<int>, positions: seq<int>, begin: nat, end: nat)
    requires begin <= end <= |positions| && forall i | i in placed :: begin <= i < end
  {
    && s.frames == end - begin
    && s.exactPattern == |placed| && s.patternGaps == |gaps| && s.silence == |silent|
    && IsFirst(s.firstUnexpected, unexpected, begin) && IsLast(s.lastUnexpected, unexpected, begin)
    && IsFirst(s.firstGap, gaps, begin) && IsLast(s.lastGap, gaps, begin)
    && ComesFirst(s.firstSource, placed, positions, begin)
    && ComesLast(s.lastSource, placed, positions, begin)
  }

  lemma FlagsAreSummarized(d: Decoded, begin: nat, end: nat)
    requires Sized(d, |d.valid|) && begin <= end <= |d.valid|
    ensures Summarizes(Summarize(d, begin, end).value, Flagged(d.valid, true, begin, end),
                       Flagged(d.valid, false, begin, end), Flagged(d.gaps, true, begin, end),
                       Flagged(d.silence, true, begin, end), d.positions, begin, end)
  {
    CountIsSize(d.valid, begin, end);
    CountIsSize(d.gaps, begin, end);
    CountIsSize(d.silence, begin, end);
    FirstAndLastFlag(d.valid, false, begin, end);
    FirstAndLastFlag(d.gaps, true, begin, end);
    SourcesComeFirstAndLast(d, begin, end);
  }

  lemma SourcesComeFirstAndLast(d: Decoded, begin: nat, end: nat)
    requires Sized(d, |d.valid|) && begin <= end <= |d.valid|
    ensures ComesFirst(PositionOf(d, FirstWith(d.valid, true, begin, end)),
                       Flagged(d.valid, true, begin, end), d.positions, begin)
    ensures ComesLast(PositionOf(d, LastWith(d.valid, true, begin, end)),
                      Flagged(d.valid, true, begin, end), d.positions, begin)
  {
    FirstAndLastFlag(d.valid, true, begin, end);
    var first, last := FirstWith(d.valid, true, begin, end), LastWith(d.valid, true, begin, end);
    if first.Some? {
      assert IsFirst(Some(first.value - begin), Flagged(d.valid, true, begin, end), begin);
    }
    if last.Some? {
      assert IsLast(Some(last.value - begin), Flagged(d.valid, true, begin, end), begin);
    }
  }

  ghost function Positions(frames: seq<Frame>, channels: int): seq<int>
    requires Capture(frames, channels)
  {
    seq(|frames|, i requires 0 <= i < |frames| => Position(frames, channels, |frames|, i))
  }

  /** Every field of the summary of a window, against the frames themselves: the counts, and the
      first and last unexpected frames and gaps counted from its beginning, and the positions of
      its first and last placed frames. */
  lemma SummaryMeaning(d: Decoded, frames: seq<Frame>, channels: int, begin: int, end: int)
    requires Capture(frames, channels) && Decodes(d, frames, channels)
    ensures Summarize(d, begin, end).Ok? <==> 0 <= begin <= end <= |frames|
    ensures Summarize(d, begin, end).Ok? ==>
              Summarizes(Summarize(d, begin, end).value, PlacedIn(frames, channels, begin, end),
                         UnexpectedIn(frames, channels, begin, end),
                         GapsIn(frames, channels, begin, end), SilentIn(frames, begin, end),
                         Positions(frames, channels), begin, end)
  {
    if 0 <= begin <= end <= |frames| {
      FlagsMeaning(d, frames, channels, begin, end);
      assert d.positions == Positions(frames, channels) by {
        forall i | 0 <= i < |frames| ensures d.positions[i] == Position(frames, channels, |frames|, i) {
          assert EntryFits(d, frames, channels, |frames|, i);
        }
      }
      FlagsAreSummarized(d, begin, end);
    }
  }

  // ---------------------------------------------------------------- the verdict of a trial

  const RATE: nat := 48_000
  const WARMUP: nat := 2 * RATE

  function MeasuredEnd(d: Decoded, seconds: nat): nat {
    if WARMUP + seconds * RATE <= |d.valid| then WARMUP + seconds * RATE else |d.valid|
  }

  function MeasuredBegin(d: Decoded, seconds: nat): nat {
    if WARMUP <= MeasuredEnd(d, seconds) then WARMUP else MeasuredEnd(d, seconds)
  }

  /** The pass condition of run_trial: commandsClean stands for both commands having ended
      with status zero and without error output. */
  predicate Passed(d: Decoded, seconds: nat, commandsClean: bool)
    requires Sized(d, |d.valid|)
  {
    var summary := Summarize(d, MeasuredBegin(d, seconds), MeasuredEnd(d, seconds));
    && commandsClean
    && summary.Ok?
    && summary.value.frames == summary.value.exactPattern == RATE * seconds
    && |d.valid| == RATE * (seconds + 3)
    && summary.value.silence == summary.value.patternGaps == 0
  }

  lemma DecodedIsNotSilent(frames: seq<Frame>, channels: int, i: int)
    requires Capture(frames, channels) && 0 <= i < |frames|
    requires Position(frames, channels, |frames|, i) >= 0
    ensures !Silent(frames[i])
  {
  }

  /** The counts of a window say whether it is perfect, and then no frame of it is silent. */
  lemma CountsMeaning(d: Decoded, frames: seq<Frame>, channels: int, begin: nat, end: nat)
    requires Capture(frames, channels) && Decodes(d, frames, channels)
    requires begin <= end <= |frames|
    ensures Perfect(frames, channels, begin, end) <==>
            Count(d.valid, begin, end) == end - begin && Count(d.gaps, begin, end) == 0
    ensures Perfect(frames, channels, begin, end) ==> Count(d.silence, begin, end) == 0
  {
    CountExtremes(d.valid, begin, end);
    CountExtremes(d.silence, begin, end);
    CountExtremes(d.gaps, begin, end);
    forall i | begin <= i < end
      ensures d.valid[i] == (Position(frames, channels, |frames|, i) >= 0)
      ensures d.gaps[i] == Gap(frames, channels, |frames|, i)
      ensures d.valid[i] ==> !d.silence[i]
    {
      assert EntryFits(d, frames, channels, |frames|, i);
      if d.valid[i] {
        DecodedIsNotSilent(frames, channels, i);
      }
    }
  }

  /** A trial passes exactly when the commands were clean, every frame was captured, and the
      measured window is perfect. */
  lemma VerdictMeaning(d: Decoded, frames: seq<Frame>, channels: int, seconds: nat,
                       commandsClean: bool)
    requires Capture(frames, channels) && Decodes(d, frames, channels)
    ensures Passed(d, seconds, commandsClean) <==>
            && commandsClean
            && |frames| == RATE * (seconds + 3)
            && Perfect(frames, channels, WARMUP, WARMUP + seconds * RATE)
  {
    if |frames| == RATE * (seconds + 3) {
      CountsMeaning(d, frames, channels, WARMUP, WARMUP + seconds * RATE);
    }
  }

  /** What a passed trial proves: the measured samples are consecutive markers of the stream,
      from the position the summary reports first. */
  lemma PassedTrialIsContiguous(d: Decoded, frames: seq<Frame>, channels: int, seconds: nat)
    requires Capture(frames, channels) && Decodes(d, frames, channels) && seconds > 0
    requires Passed(d, seconds, true)
    ensures WARMUP + seconds * RATE <= |frames|
    ensures var summary := Summarize(d, WARMUP, WARMUP + seconds * RATE).value;
            && summary.firstSource.Some?
            && IsStretch(frames, channels, WARMUP, WARMUP + seconds * RATE, summary.firstSource.value)
  {
    VerdictMeaning(d, frames, channels, seconds, true);
    PerfectIsContiguous(frames, channels, WARMUP, WARMUP + seconds * RATE);
    assert EntryFits(d, frames, channels, |frames|, WARMUP);
  }
}
