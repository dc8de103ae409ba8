/** The refill delays of the live broker script: a bounded record of the longest waits. */
module RefillDelays {
  import opened Outcomes
  import opened Sorting

  const KEPT: nat := 8

  /** Interval and round trip in microseconds, and the consumed position they ended at. */
  datatype Entry = Entry(interval: nat, roundTrip: nat, consumed: nat)

  /** Tuple order, largest first. */
  predicate AtLeast(a: Entry, b: Entry) {
    a.interval > b.interval
    || (a.interval == b.interval
        && (a.roundTrip > b.roundTrip
            || (a.roundTrip == b.roundTrip && a.consumed >= b.consumed)))
  }

  lemma LargestFirst()
    ensures Total(AtLeast) && Transitive(AtLeast) && Antisymmetric(AtLeast)
  {
  }

  function First(s: seq<Entry>, n: nat): seq<Entry> { if |s| <= n then s else s[..n] }

  /** Whether an entry makes it into the first n depends on the first n alone. */
  lemma {:induction false} FirstOfInsert(d: seq<Entry>, e: Entry, n: nat)
    ensures First(Insert(d, e, AtLeast), n) == First(Insert(First(d, n), e, AtLeast), n)
  {
    if |d| > n > 0 && AtLeast(d[0], e) {
      FirstOfInsert(d[1..], e, n - 1);
      assert First(d, n) == [d[0]] + First(d[1..], n - 1);
      assert First(d, n)[1..] == First(d[1..], n - 1);
      assert First(Insert(d, e, AtLeast), n) == [d[0]] + First(Insert(d[1..], e, AtLeast), n - 1);
    }
  }

  // ---------------------------------------------------------------- the kept entries

  /** sorted(…, reverse=True). */
  function Descending(s: seq<Entry>): seq<Entry> { Sorted(s, AtLeast) }

  /** The largest entries, listed. */
  function Best(entries: seq<Entry>): seq<Entry> { First(Descending(entries), KEPT) }

  predicate IsLeast(s: seq<Entry>, least: Entry) {
    least in s && forall x | x in s :: AtLeast(x, least)
  }

  lemma BestWithRoom(entries: seq<Entry>, e: Entry)
    requires |entries| < KEPT
    ensures multiset(Best(entries + [e])) == multiset(Best(entries)) + multiset{e}
  {
    assert (entries + [e])[..|entries|] == entries;
    LargestFirst();
    SortedSorts(entries, AtLeast);
    InsertContents(Descending(entries), e, AtLeast);
  }

  lemma LastIsLeast(listed: seq<Entry>, entries: seq<Entry>, least: Entry)
    requires listed != [] && InOrder(listed, AtLeast) && multiset(listed) == multiset(entries)
    requires IsLeast(entries, least)
    ensures listed[|listed| - 1] == least
  {
    var last := listed[|listed| - 1];
    assert last in multiset(listed) && last in multiset(entries);
    assert last in entries;
    assert least in multiset(entries);
    assert least in multiset(listed);
    var k :| 0 <= k < |listed| && listed[k] == least;
  }

  /** With no room left, the least of the kept entries and the new one goes. */
  lemma BestWithoutRoom(entries: seq<Entry>, kept: seq<Entry>, e: Entry, least: Entry)
    requires |entries| >= KEPT && multiset(kept) == multiset(Best(entries))
    requires IsLeast(kept + [e], least)
    ensures multiset(Best(entries + [e])) == multiset(kept) + multiset{e} - multiset{least}
  {
    var all := Insert(Best(entries), e, AtLeast);
    assert Best(entries + [e]) == First(all, KEPT) by {
      assert (entries + [e])[..|entries|] == entries;
      FirstOfInsert(Descending(entries), e, KEPT);
    }
    LargestFirst();
    assert InOrder(Best(entries), AtLeast) by {
      SortedSorts(entries, AtLeast);
    }
    InsertContents(Best(entries), e, AtLeast);
    InsertOrders(Best(entries), e, AtLeast);
    LastIsLeast(all, kept + [e], least);
    assert all == all[..KEPT] + [least];
  }

  // ---------------------------------------------------------------- observations

  datatype Observation = Observation(started: nat, replied: nat, consumed: nat)

  function Elapsed(from: nat, to: nat): nat
    requires from <= to
  {
    (to - from) / 1000
  }

  /** An observation may follow the ones recorded. */
  predicate Follows(recorded: seq<Observation>, o: Observation) {
    && o.started <= o.replied
    && (recorded != [] ==>
          && recorded[|recorded| - 1].started <= o.started
          && recorded[|recorded| - 1].consumed <= o.consumed)
  }

  predicate FollowsAt(recorded: seq<Observation>, i: nat)
    requires i < |recorded|
  {
    && recorded[i].started <= recorded[i].replied
    && (i > 0 ==>
          && recorded[i - 1].started <= recorded[i].started
          && recorded[i - 1].consumed <= recorded[i].consumed)
  }

  predicate Recordable(recorded: seq<Observation>) {
    forall i | 0 <= i < |recorded| :: FollowsAt(recorded, i)
  }

  /** The entry that one more observation adds, if any. */
  function Added(before: Observation, o: Observation): seq<Entry>
    requires before.started <= o.started <= o.replied
  {
    if o.consumed > before.consumed then
      [Entry(Elapsed(before.started, o.started), Elapsed(o.started, o.replied), o.consumed)]
    else []
  }

  lemma RecordableUpTo(recorded: seq<Observation>, n: nat)
    requires Recordable(recorded) && n <= |recorded|
    ensures Recordable(recorded[..n])
  {
    forall i | 0 <= i < n ensures FollowsAt(recorded[..n], i) {
      assert FollowsAt(recorded, i);
    }
  }

  /** One entry for each observation, except the first, that found consumption advanced. */
  function Entries(recorded: seq<Observation>): seq<Entry>
    requires Recordable(recorded)
  {
    if |recorded| < 2 then []
    else
      RecordableUpTo(recorded, |recorded| - 1);
      assert FollowsAt(recorded, |recorded| - 1);
      Entries(recorded[..|recorded| - 1])
      + Added(recorded[|recorded| - 2], recorded[|recorded| - 1])
  }

  lemma EntriesWithOneMore(recorded: seq<Observation>, o: Observation)
    requires Recordable(recorded) && Follows(recorded, o)
    ensures Recordable(recorded + [o])
    ensures recorded == [] || o.consumed == recorded[|recorded| - 1].consumed ==>
              Entries(recorded + [o]) == Entries(recorded)
    ensures recorded != [] && o.consumed > recorded[|recorded| - 1].consumed ==>
              Entries(recorded + [o]) == Entries(recorded) + Added(recorded[|recorded| - 1], o)
  {
    RecordableWithOneMore(recorded, o);
    assert (recorded + [o])[..|recorded|] == recorded;
  }

  lemma RecordableWithOneMore(recorded: seq<Observation>, o: Observation)
    requires Recordable(recorded) && Follows(recorded, o)
    ensures Recordable(recorded + [o])
  {
    forall i | 0 <= i <= |recorded| ensures FollowsAt(recorded + [o], i) {
      assert i < |recorded| ==> FollowsAt(recorded, i);
    }
  }

  /** The entry is about the time since the observation before, which found less consumed, and
      about the time its own observation took, in whole microseconds. */
  predicate Times(recorded: seq<Observation>, i: nat, e: Entry)
    requires 1 <= i < |recorded|
  {
    && recorded[i].consumed > recorded[i - 1].consumed
    && e.interval == (recorded[i].started - recorded[i - 1].started) / 1000
    && e.roundTrip == (recorded[i].replied - recorded[i].started) / 1000
    && e.consumed == recorded[i].consumed
  }

  lemma {:induction false} EntryMeaning(recorded: seq<Observation>, e: Entry)
    requires Recordable(recorded)
    ensures e in Entries(recorded) <==> exists i | 1 <= i < |recorded| :: Times(recorded, i, e)
  {
    if |recorded| >= 2 {
      var init, n := recorded[..|recorded| - 1], |recorded| - 1;
      RecordableUpTo(recorded, n);
      assert FollowsAt(recorded, n);
      EntryMeaning(init, e);
      forall i | 1 <= i < n ensures Times(recorded, i, e) <==> Times(init, i, e) {
      }
      assert e in Added(recorded[n - 1], recorded[n]) <==> Times(recorded, n, e);
    }
  }

  /** No entry that is not listed took longer than one that is, and the longest come first. */
  lemma LongestAreListed(entries: seq<Entry>)
    ensures var listed := Best(entries);
            var others := Descending(entries)[|listed|..];
            && |listed| == (if |entries| < 8 then |entries| else 8)
            && multiset(listed) + multiset(others) == multiset(entries)
            && (forall i, j | 0 <= i < j < |listed| :: listed[i].interval >= listed[j].interval)
            && (forall x, y | x in listed && y in others :: x.interval >= y.interval)
  {
    var all, listed := Descending(entries), Best(entries);
    var others := all[|listed|..];
    assert all == listed + others;
    assert InOrder(all, AtLeast) && multiset(all) == multiset(entries) by {
      LargestFirst();
      SortedSorts(entries, AtLeast);
    }
    forall i, j | 0 <= i < j < |listed| ensures listed[i].interval >= listed[j].interval {
      assert AtLeast(all[i], all[j]);
    }
    forall x, y | x in listed && y in others ensures x.interval >= y.interval {
      var i :| 0 <= i < |listed| && listed[i] == x;
      var j :| 0 <= j < |others| && others[j] == y;
      assert AtLeast(all[i], all[|listed| + j]);
    }
  }

  /** The kept entries, in whatever order, are the largest. */
  predicate Keeps(kept: seq<Entry>, entries: seq<Entry>) { Descending(kept) == Best(entries) }

  lemma KeepsContents(kept: seq<Entry>, entries: seq<Entry>)
    ensures Keeps(kept, entries) <==> multiset(kept) == multiset(Best(entries))
    ensures Keeps(kept, entries) ==> |kept| == |Best(entries)|
  {
    LargestFirst();
    SortedSorts(kept, AtLeast);
    SortedSorts(entries, AtLeast);
    if multiset(kept) == multiset(Best(entries)) {
      ListingIsUnique(Descending(kept), Best(entries), AtLeast);
    }
  }

  class Delays {
    var previous: Option<nat>
    var consumed: nat
    var largest: seq<Entry>
    ghost var recorded: seq<Observation>

    ghost predicate Valid()
      reads this
    {
      && Recordable(recorded)
      && (recorded == [] ==> previous == None && consumed == 0)
      && (recorded != [] ==>
            && previous == Some(recorded[|recorded| - 1].started)
            && consumed == recorded[|recorded| - 1].consumed)
      && Keeps(largest, Entries(recorded))
    }

    constructor ()
      ensures Valid() && recorded == []
    {
      previous, consumed, largest, recorded := None, 0, [], [];
    }

    /** The heap's push: its order inside is not part of what callers see. */
    method HeapPush(e: Entry)
      modifies this`largest
      ensures multiset(largest) == multiset(old(largest)) + multiset{e}
    {
      largest := largest + [e];
    }

    /** Push, then pop the least. */
    method HeapPushPop(e: Entry) returns (least: Entry)
      modifies this`largest
      ensures IsLeast(old(largest) + [e], least)
      ensures multiset(largest) == multiset(old(largest)) + multiset{e} - multiset{least}
    {
      var all := largest + [e];
      var k := 0;
      for i := 1 to |all|
        invariant 0 <= k < i
        invariant forall j | 0 <= j < i :: AtLeast(all[j], all[k])
      {
        if AtLeast(all[k], all[i]) {
          k := i;
        }
      }
      least, largest := all[k], all[..k] + all[k + 1..];
      assert all == all[..k] + [least] + all[k + 1..];
      assert multiset(all) == multiset(all[..k]) + multiset{least} + multiset(all[k + 1..]);
      assert multiset(all) == multiset(old(largest)) + multiset{e};
    }

    /** Keep the new entry if it is among the largest. */
    method Keep(e: Entry, ghost entries: seq<Entry>)
      requires Keeps(largest, entries)
      modifies this`largest
      ensures Keeps(largest, entries + [e])
    {
      KeepsContents(largest, entries);
      if |largest| < KEPT {
        BestWithRoom(entries, e);
        HeapPush(e);
      } else {
        ghost var kept := largest;
        var least := HeapPushPop(e);
        BestWithoutRoom(entries, kept, e, least);
      }
      KeepsContents(largest, entries + [e]);
    }

    /** Keep the entry of an accepted observation, if it makes one. */
    method Note(o: Observation)
      requires Valid() && Follows(recorded, o)
      modifies this`largest
      ensures Recordable(recorded + [o])
      ensures Keeps(largest, Entries(recorded + [o]))
    {
      EntriesWithOneMore(recorded, o);
      if previous.Some? && o.consumed > consumed {
        var entry := Entry((o.started - previous.value) / 1000, (o.replied - o.started) / 1000, o.consumed);
        assert Added(recorded[|recorded| - 1], o) == [entry];
        Keep(entry, Entries(recorded));
      }
    }

    /** record: an observation that goes backwards is refused and changes nothing. */
    method Record(o: Observation) returns (accepted: bool)
      requires Valid()
      modifies this
      ensures Valid()
      ensures accepted <==> Follows(old(recorded), o)
      ensures recorded == if accepted then old(recorded) + [o] else old(recorded)
    {
      if o.replied < o.started || (previous.Some? && o.started < previous.value) {
        return false;
      }
      if o.consumed < consumed {
        return false;
      }
      Note(o);
      recorded := recorded + [o];
      previous, consumed, accepted := Some(o.started), o.consumed, true;
    }

    /** summary: exactly the eight largest of all the entries, largest first. */
    method Summary() returns (listed: seq<Entry>)
      requires Valid()
      ensures listed == Best(Entries(recorded))
      ensures |listed| == |largest| <= KEPT
    {
      listed := Descending(largest);
    }
  }
}
