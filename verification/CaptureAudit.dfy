/** The capture audit of the native USB audio probe: one pass over the captured frames that
    scores how they match a fixed pattern, and the fixed window that is scored. */
module CaptureAudit {
  import opened Amounts
  import opened Outcomes
  import opened Markers

  datatype Audit = Audit(longest: nat, exact: nat, zero: nat, interiorZero: nat, other: nat,
                         runs: nat)

  // ---------------------------------------------------------------- what the scores mean

  predicate ExactAt(frames: seq<Frame>, pattern: Frame, i: int)
    requires 0 <= i < |frames|
  {
    frames[i] == pattern
  }

  /** The exact frames among the first n. */
  function Exacts(frames: seq<Frame>, pattern: Frame, n: nat): set<nat>
    requires n <= |frames|
  {
    set i: nat | i < n && ExactAt(frames, pattern, i)
  }

  function Zeros(frames: seq<Frame>, pattern: Frame, n: nat): set<nat>
    requires n <= |frames|
  {
    set i: nat | i < n && !ExactAt(frames, pattern, i) && Silent(frames[i])
  }

  function Others(frames: seq<Frame>, pattern: Frame, n: nat): set<nat>
    requires n <= |frames|
  {
    set i: nat | i < n && !ExactAt(frames, pattern, i) && !Silent(frames[i])
  }

  predicate AllExact(frames: seq<Frame>, pattern: Frame, i: nat, j: nat)
    requires i <= j <= |frames|
  {
    forall k | i <= k < j :: ExactAt(frames, pattern, k)
  }

  /** A maximal block of exact frames. */
  predicate IsBlock(frames: seq<Frame>, pattern: Frame, i: nat, j: nat) {
    && i < j <= |frames| && AllExact(frames, pattern, i, j)
    && (i > 0 ==> !ExactAt(frames, pattern, i - 1))
    && (j < |frames| ==> !ExactAt(frames, pattern, j))
  }

  predicate StartsAt(frames: seq<Frame>, pattern: Frame, i: int)
    requires 0 <= i < |frames|
  {
    ExactAt(frames, pattern, i) && (i > 0 ==> !ExactAt(frames, pattern, i - 1))
  }

  /** Where the blocks among the first n frames begin. */
  function Starts(frames: seq<Frame>, pattern: Frame, n: nat): set<nat>
    requires n <= |frames|
  {
    set i: nat | i < n && StartsAt(frames, pattern, i)
  }

  /** The end of the exact frames from i on. */
  function BlockEnd(frames: seq<Frame>, pattern: Frame, i: nat): (j: nat)
    requires i <= |frames|
    ensures i <= j <= |frames| && AllExact(frames, pattern, i, j)
    ensures j < |frames| ==> !ExactAt(frames, pattern, j)
    decreases |frames| - i
  {
    if i == |frames| || !ExactAt(frames, pattern, i) then i else BlockEnd(frames, pattern, i + 1)
  }

  /** Every beginning has exactly one block, and every block one beginning: their number is the
      number of maximal blocks. */
  lemma BlocksByStart(frames: seq<Frame>, pattern: Frame, i: nat, j: nat)
    ensures IsBlock(frames, pattern, i, j) <==>
              i in Starts(frames, pattern, |frames|) && j == BlockEnd(frames, pattern, i)
  {
  }

  /** The length of the longest stretch of exact frames among the first n. */
  ghost predicate IsLongest(frames: seq<Frame>, pattern: Frame, n: nat, longest: nat)
    requires n <= |frames|
  {
    && (forall i, j | 0 <= i <= j <= n :: AllExact(frames, pattern, i, j) ==> j - i <= longest)
    && (exists i, j | 0 <= i <= j <= n :: AllExact(frames, pattern, i, j) && j - i == longest)
  }

  /** The all-zero frames from the first exact frame to the last one. */
  function InteriorZeros(frames: seq<Frame>, pattern: Frame): set<nat> {
    set i: nat | i < |frames| && Silent(frames[i]) && Inside(frames, pattern, i)
  }

  predicate Inside(frames: seq<Frame>, pattern: Frame, i: nat) {
    (exists f | 0 <= f < |frames| && f <= i :: ExactAt(frames, pattern, f))
    && (exists l | 0 <= l < |frames| && i <= l :: ExactAt(frames, pattern, l))
  }

  ghost predicate Scores(a: Audit, frames: seq<Frame>, pattern: Frame) {
    && a.exact == |Exacts(frames, pattern, |frames|)|
    && a.zero == |Zeros(frames, pattern, |frames|)|
    && a.other == |Others(frames, pattern, |frames|)|
    && a.runs == |Starts(frames, pattern, |frames|)|
    && IsLongest(frames, pattern, |frames|, a.longest)
    && a.interiorZero == |InteriorZeros(frames, pattern)|
  }

  // ---------------------------------------------------------------- one more frame

  lemma OneMore(frames: seq<Frame>, pattern: Frame, n: nat)
    requires n < |frames|
    ensures ExactAt(frames, pattern, n) ==>
              && Exacts(frames, pattern, n + 1) == Exacts(frames, pattern, n) + {n}
              && Zeros(frames, pattern, n + 1) == Zeros(frames, pattern, n)
              && Others(frames, pattern, n + 1) == Others(frames, pattern, n)
    ensures !ExactAt(frames, pattern, n) && Silent(frames[n]) ==>
              && Exacts(frames, pattern, n + 1) == Exacts(frames, pattern, n)
              && Zeros(frames, pattern, n + 1) == Zeros(frames, pattern, n) + {n}
              && Others(frames, pattern, n + 1) == Others(frames, pattern, n)
    ensures !ExactAt(frames, pattern, n) && !Silent(frames[n]) ==>
              && Exacts(frames, pattern, n + 1) == Exacts(frames, pattern, n)
              && Zeros(frames, pattern, n + 1) == Zeros(frames, pattern, n)
              && Others(frames, pattern, n + 1) == Others(frames, pattern, n) + {n}
  {
  }

  lemma OneMoreStart(frames: seq<Frame>, pattern: Frame, n: nat)
    requires n < |frames|
    ensures Starts(frames, pattern, n + 1)
         == if StartsAt(frames, pattern, n) then
              Starts(frames, pattern, n) + {n}
            else Starts(frames, pattern, n)
  {
  }

  /** The exact frames just before n. */
  predicate IsCurrent(frames: seq<Frame>, pattern: Frame, n: nat, current: nat)
    requires n <= |frames|
  {
    && current <= n && AllExact(frames, pattern, n - current, n)
    && (current < n ==> !ExactAt(frames, pattern, n - current - 1))
  }

  lemma LongestWithOneMore(frames: seq<Frame>, pattern: Frame, n: nat, longest: nat, current: nat)
    requires n < |frames| && IsLongest(frames, pattern, n, longest)
    requires IsCurrent(frames, pattern, n, current)
    ensures ExactAt(frames, pattern, n) ==>
              && IsCurrent(frames, pattern, n + 1, current + 1)
              && IsLongest(frames, pattern, n + 1, Greater(longest, current + 1))
    ensures !ExactAt(frames, pattern, n) ==>
              IsCurrent(frames, pattern, n + 1, 0) && IsLongest(frames, pattern, n + 1, longest)
  {
  }

  // ---------------------------------------------------------------- audit_capture

  /** The all-zero frames of a range, counted. */
  method CountSilent(frames: seq<Frame>, first: nat, last: nat) returns (count: nat)
    requires first <= last < |frames|
    ensures count == |set i: nat | i < |frames| && first <= i <= last && Silent(frames[i])|
  {
    count := 0;
    ghost var seen: set<nat> := {};
    for k := first to last + 1
      invariant seen == set i: nat | i < |frames| && first <= i < k && Silent(frames[i])
      invariant count == |seen|
    {
      if Silent(frames[k]) {
        count, seen := count + 1, seen + {k};
      }
    }
    assert seen == set i: nat | i < |frames| && first <= i <= last && Silent(frames[i]);
  }

  /** The counts after the first n frames. */
  predicate Counted(frames: seq<Frame>, pattern: Frame, n: nat, exact: nat, zero: nat, other: nat,
                    runs: nat)
    requires n <= |frames|
  {
    && exact == |Exacts(frames, pattern, n)| && zero == |Zeros(frames, pattern, n)|
    && other == |Others(frames, pattern, n)| && runs == |Starts(frames, pattern, n)|
    && exact + zero + other == n
  }

  lemma CountedWithOneMore(frames: seq<Frame>, pattern: Frame, n: nat, exact: nat, zero: nat,
                           other: nat, runs: nat, current: nat)
    requires n < |frames| && Counted(frames, pattern, n, exact, zero, other, runs)
    requires IsCurrent(frames, pattern, n, current)
    ensures ExactAt(frames, pattern, n) ==>
              Counted(frames, pattern, n + 1, exact + 1, zero, other,
                      if current == 0 then runs + 1 else runs)
    ensures !ExactAt(frames, pattern, n) ==>
              if Silent(frames[n]) then Counted(frames, pattern, n + 1, exact, zero + 1, other, runs)
              else Counted(frames, pattern, n + 1, exact, zero, other + 1, runs)
  {
    OneMore(frames, pattern, n);
    OneMoreStart(frames, pattern, n);
    if current > 0 {
      assert ExactAt(frames, pattern, n - 1);
    }
  }

  /** The first and the last exact frame among the first n. */
  predicate Bounds(frames: seq<Frame>, pattern: Frame, n: nat, first: Option<nat>, last: Option<nat>)
    requires n <= |frames|
  {
    match (first, last)
    case (Some(f), Some(l)) =>
      && f <= l < n && ExactAt(frames, pattern, f) && ExactAt(frames, pattern, l)
      && forall i | 0 <= i < n && ExactAt(frames, pattern, i) :: f <= i <= l
    case (None, None) => forall i | 0 <= i < n :: !ExactAt(frames, pattern, i)
    case _ => false
  }

  /** The one pass: every score is what its definition says. */
  method AuditCapture(frames: seq<Frame>, pattern: Frame) returns (a: Audit)
    ensures Scores(a, frames, pattern)
    ensures a.exact + a.zero + a.other == |frames|
  {
    var longest, exact, zero, other, runs, current := 0, 0, 0, 0, 0, 0;
    var firstExact: Option<nat> := None;
    var lastExact: Option<nat> := None;
    assert AllExact(frames, pattern, 0, 0);
    for n := 0 to |frames|
      invariant Counted(frames, pattern, n, exact, zero, other, runs)
      invariant IsCurrent(frames, pattern, n, current) && IsLongest(frames, pattern, n, longest)
      invariant Bounds(frames, pattern, n, firstExact, lastExact)
    {
      CountedWithOneMore(frames, pattern, n, exact, zero, other, runs, current);
      LongestWithOneMore(frames, pattern, n, longest, current);
      if ExactAt(frames, pattern, n) {
        if firstExact == None {
          firstExact := Some(n);
        }
        lastExact := Some(n);
        if current == 0 {
          runs := runs + 1;
        }
        current, exact := current + 1, exact + 1;
        longest := Greater(longest, current);
      } else {
        if Silent(frames[n]) {
          zero := zero + 1;
        } else {
          other := other + 1;
        }
        current := 0;
      }
    }
    var interiorZero := 0;
    if firstExact.Some? {
      interiorZero := CountSilent(frames, firstExact.value, lastExact.value);
      InteriorIsBetween(frames, pattern, firstExact.value, lastExact.value);
    } else {
      assert InteriorZeros(frames, pattern) == {};
    }
    a := Audit(longest, exact, zero, interiorZero, other, runs);
  }

  lemma InteriorIsBetween(frames: seq<Frame>, pattern: Frame, first: nat, last: nat)
    requires first <= last < |frames|
    requires ExactAt(frames, pattern, first) && ExactAt(frames, pattern, last)
    requires forall i | 0 <= i < |frames| && ExactAt(frames, pattern, i) :: first <= i <= last
    ensures InteriorZeros(frames, pattern)
         == set i: nat | i < |frames| && first <= i <= last && Silent(frames[i])
  {
  }

  // ---------------------------------------------------------------- measured_capture

  const WARM_UP: nat := 96_000

  /** The first exact frame, if any. */
  predicate IsFirst(frames: seq<Frame>, pattern: Frame, first: nat) {
    && first < |frames| && ExactAt(frames, pattern, first)
    && forall i | 0 <= i < first :: !ExactAt(frames, pattern, i)
  }

  /** There are enough frames after the first exact one to fill the window. */
  predicate HasWindow(frames: seq<Frame>, pattern: Frame, seconds: nat) {
    exists first | 0 <= first < |frames| ::
      IsFirst(frames, pattern, first) && first + WARM_UP + seconds * 48_000 <= |frames|
  }

  lemma {:induction false} CountsAtMost(s: set<nat>, n: nat)
    requires forall i | i in s :: i < n
    ensures |s| <= n && (|s| == n ==> forall i: nat | i < n :: i in s)
  {
    if n > 0 {
      CountsAtMost(s - {n - 1}, n - 1);
    } else {
      assert s == {};
    }
  }

  lemma {:induction false} AllCounted(frames: seq<Frame>, pattern: Frame, n: nat)
    requires n <= |frames| && AllExact(frames, pattern, 0, |frames|)
    ensures |Exacts(frames, pattern, n)| == n
  {
    if n > 0 {
      AllCounted(frames, pattern, n - 1);
      OneMore(frames, pattern, n - 1);
    }
  }

  /** As many exact frames as frames means that every frame is exact, and it is one block. */
  lemma FullScore(a: Audit, frames: seq<Frame>, pattern: Frame)
    requires Scores(a, frames, pattern)
    ensures a.exact == |frames| <==> AllExact(frames, pattern, 0, |frames|)
    ensures a.exact == |frames| > 0 ==> a.longest == |frames| && a.runs == 1 && a.zero + a.other == 0
  {
    var exacts := Exacts(frames, pattern, |frames|);
    CountsAtMost(exacts, |frames|);
    if AllExact(frames, pattern, 0, |frames|) {
      AllCounted(frames, pattern, |frames|);
    }
    if a.exact == |frames| {
      forall i | 0 <= i < |frames| ensures ExactAt(frames, pattern, i) {
        assert i in exacts;
      }
      assert Zeros(frames, pattern, |frames|) == {} && Others(frames, pattern, |frames|) == {};
      if |frames| > 0 {
        assert Starts(frames, pattern, |frames|) == {0};
      }
    }
  }

  /** The fixed window after the warm-up: there is a score exactly when the window is there, and
      a full score means that the whole window is the pattern. */
  method MeasuredCapture(frames: seq<Frame>, pattern: Frame, seconds: nat)
    returns (measured: Option<Audit>, ghost begin: nat)
    ensures measured.Some? <==> HasWindow(frames, pattern, seconds)
    ensures measured.Some? ==>
              && begin >= WARM_UP && begin + seconds * 48_000 <= |frames|
              && IsFirst(frames, pattern, begin - WARM_UP)
              && Scores(measured.value, frames[begin..begin + seconds * 48_000], pattern)
              && (measured.value.exact == seconds * 48_000 <==>
                    forall i | begin <= i < begin + seconds * 48_000 :: frames[i] == pattern)
  {
    begin := 0;
    var first := 0;
    while first < |frames| && frames[first] != pattern
      invariant first <= |frames|
      invariant forall i | 0 <= i < first :: !ExactAt(frames, pattern, i)
    {
      first := first + 1;
    }
    if first == |frames| {
      return None, begin;
    }
    assert IsFirst(frames, pattern, first);
    begin := first + WARM_UP;
    var end := first + WARM_UP + seconds * 48_000;
    if end > |frames| {
      return None, begin;
    }
    var window := frames[first + WARM_UP..end];
    var a := AuditCapture(window, pattern);
    FullScore(a, window, pattern);
    forall i | 0 <= i < |window|
      ensures ExactAt(window, pattern, i) <==> frames[begin + i] == pattern
    {
    }
    if a.exact == |window| {
      forall i | begin <= i < end ensures frames[i] == pattern {
        assert ExactAt(window, pattern, i - begin);
      }
    }
    measured := Some(a);
  }
}
