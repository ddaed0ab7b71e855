/** The histogram of times between pushes of one pad. Timestamps are 64-bit; counters wrap at 2^64. */
module Interval {
  import opened Common

  /** Upper bounds in nanoseconds; every interval is within the last one. */
  const BOUNDS: seq<Word> :=
    [1_000_000, 5_000_000, 10_000_000, 20_000_000, 40_000_000, 100_000_000, 250_000_000, 1_000_000_000, U64_MAX]

  datatype Event = Reset(at: Word) | Observe(at: Word)

  /** An unreset run of accepted pushes. */
  datatype Segment = Segment(first: Word, last: Word)

  /** What a history of calls amounts to: the timing state, the runs, and the times between pushes of a run. */
  datatype Timing = Timing(last: Option<Word>, resetAt: Word, segments: seq<Segment>, intervals: seq<Word>)

  predicate Late(t: Timing, at: Word) { at < t.resetAt || (t.last.Some? && at < t.last.value) }

  function Extended(segments: seq<Segment>, at: Word): seq<Segment>
    requires segments != []
  {
    segments[|segments| - 1 := Segment(segments[|segments| - 1].first, at)]
  }

  function Next(t: Timing, e: Event): (n: Timing)
    requires t.last.Some? ==> t.segments != []
    ensures n.last.Some? ==> n.segments != []
  {
    if e.Reset? then
      var resetAt := if t.resetAt <= e.at then e.at else t.resetAt;
      t.(resetAt := resetAt, last := if t.last.Some? && t.last.value <= resetAt then None else t.last)
    else if Late(t, e.at) then t
    else if t.last.None? then t.(last := Some(e.at), segments := t.segments + [Segment(e.at, e.at)])
    else Timing(Some(e.at), t.resetAt, Extended(t.segments, e.at), t.intervals + [e.at - t.last.value])
  }

  function After(history: seq<Event>): (t: Timing)
    ensures t.last.Some? ==> t.segments != []
  {
    if history == [] then Timing(None, 0, [], [])
    else Next(After(history[..|history| - 1]), history[|history| - 1])
  }

  // ---------------------------------------------------------------- what the timing means

  /** The latest time any call has named. */
  function Latest(history: seq<Event>): Word {
    if history == [] then 0
    else
      var rest := Latest(history[..|history| - 1]);
      var at := history[|history| - 1].at;
      if rest <= at then at else rest
  }

  /** The last push is never before the last reset, and together they hold the latest time of all calls: a push is
      late exactly when an earlier call named a later time, and then it changes nothing. */
  lemma {:induction false} LateMeansOvertaken(history: seq<Event>, at: Word)
    ensures var t := After(history);
            && (t.last.Some? ==> t.last.value >= t.resetAt && t.last.value == Latest(history))
            && (t.last.None? ==> t.resetAt == Latest(history))
            && (Late(t, at) <==> at < Latest(history))
            && (Late(t, at) ==> After(history + [Observe(at)]) == t)
    decreases |history|
  {
    assert (history + [Observe(at)])[..|history|] == history;
    if history != [] {
      LateMeansOvertaken(history[..|history| - 1], history[|history| - 1].at);
    }
  }

  // ---------------------------------------------------------------- which pushes make an interval

  /** How many pushes are not late. */
  function OnTime(history: seq<Event>): nat {
    if history == [] then 0
    else
      var (before, e) := (history[..|history| - 1], history[|history| - 1]);
      OnTime(before) + (if e.Observe? && e.at >= Latest(before) then 1 else 0)
  }

  function Resets(history: seq<Event>): nat {
    if history == [] then 0
    else Resets(history[..|history| - 1]) + (if history[|history| - 1].Reset? then 1 else 0)
  }

  /** Every push that is not late either opens a run or makes an interval, and only a reset lets another run open. */
  lemma {:induction false} EveryPushCounts(history: seq<Event>)
    ensures var t := After(history);
            && |t.segments| + |t.intervals| == OnTime(history)
            && |t.segments| <= Resets(history) + (if t.last.Some? then 1 else 0)
    decreases |history|
  {
    if history != [] {
      EveryPushCounts(history[..|history| - 1]);
      LateMeansOvertaken(history[..|history| - 1], history[|history| - 1].at);
    }
  }

  /** The latest time any reset has named. */
  function LatestReset(history: seq<Event>): Word {
    if history == [] then 0
    else
      var (rest, e) := (LatestReset(history[..|history| - 1]), history[|history| - 1]);
      if e.Reset? && rest <= e.at then e.at else rest
  }

  predicate ResetAfter(history: seq<Event>, j: nat) {
    exists k :: j < k < |history| && history[k].Reset?
  }

  /** This push is the latest call so far; and if a reset came after it, no reset at all has reached its time. */
  ghost predicate OpenPush(history: seq<Event>, j: nat) {
    && j < |history| && history[j].Observe? && history[j].at == Latest(history)
    && (ResetAfter(history, j) ==> LatestReset(history) < history[j].at)
  }

  ghost predicate HasOpenPush(history: seq<Event>) { exists j: nat :: OpenPush(history, j) }

  lemma LateCallsChangeLittle(before: seq<Event>, e: Event, j: nat)
    requires e.Reset? || e.at < Latest(before)
    ensures j < |before| ==> (ResetAfter(before + [e], j) <==> ResetAfter(before, j) || e.Reset?)
    ensures LatestReset(before) <= LatestReset(before + [e])
    ensures e.Observe? ==> LatestReset(before + [e]) == LatestReset(before)
    ensures e.Reset? ==> e.at <= LatestReset(before + [e])
    ensures e.at <= Latest(before) ==> Latest(before + [e]) == Latest(before)
    ensures e.at <= Latest(before + [e])
  {
    var history := before + [e];
    assert history[..|before|] == before && history[|before|] == e;
    if j < |before| && ResetAfter(before, j) {
      var k :| j < k < |before| && before[k].Reset?;
      assert history[k].Reset?;
    }
  }

  lemma OpenPushStays(before: seq<Event>, e: Event, j: nat)
    requires j < |before| && (e.Reset? || e.at < Latest(before))
    ensures OpenPush(before + [e], j) <==>
              OpenPush(before, j) && (e.Reset? ==> LatestReset(before + [e]) < Latest(before))
  {
    var history := before + [e];
    LateCallsChangeLittle(before, e, j);
    assert history[j] == before[j];
  }

  lemma OpenPushStep(before: seq<Event>, e: Event)
    ensures var history := before + [e];
            HasOpenPush(history) <==>
              if e.Observe? && e.at >= Latest(before) then true
              else HasOpenPush(before) && (e.Reset? ==> LatestReset(history) < Latest(before))
  {
    var history := before + [e];
    assert history[..|before|] == before && history[|before|] == e;
    if e.Observe? && e.at >= Latest(before) {
      assert OpenPush(history, |before|);
    } else {
      forall j: nat | j < |before|
        ensures OpenPush(history, j) <==>
                  OpenPush(before, j) && (e.Reset? ==> LatestReset(history) < Latest(before))
      {
        OpenPushStays(before, e, j);
      }
      LateCallsChangeLittle(before, e, 0);
      assert !OpenPush(history, |before|);
      if HasOpenPush(before) && (e.Reset? ==> LatestReset(history) < Latest(before)) {
        var j: nat :| OpenPush(before, j);
        assert OpenPush(history, j);
      }
    }
  }

  lemma {:induction false} LastIsOpenPush(history: seq<Event>)
    ensures After(history).resetAt == LatestReset(history)
    ensures After(history).last.Some? <==> HasOpenPush(history)
    decreases |history|
  {
    if history != [] {
      var (before, e) := (history[..|history| - 1], history[|history| - 1]);
      LastIsOpenPush(before);
      LateMeansOvertaken(before, e.at);
      OpenPushStep(before, e);
      assert history == before + [e];
    }
  }

  /** What one more call does. A push that is not late makes an interval since the latest call if that was a push that
      no reset has caught up with, and opens a run otherwise; a late push and a reset leave runs and intervals alone. */
  lemma PushMeans(history: seq<Event>, e: Event)
    ensures var (t, next) := (After(history), After(history + [e]));
            if e.Reset? || e.at < Latest(history) then next.intervals == t.intervals && next.segments == t.segments
            else if HasOpenPush(history) then
              && next.intervals == t.intervals + [e.at - Latest(history)]
              && |next.segments| == |t.segments| > 0
              && next.segments[|t.segments| - 1] == Segment(t.segments[|t.segments| - 1].first, e.at)
              && next.segments[..|t.segments| - 1] == t.segments[..|t.segments| - 1]
            else
              next.intervals == t.intervals && next.segments == t.segments + [Segment(e.at, e.at)]
  {
    assert (history + [e])[..|history|] == history;
    LastIsOpenPush(history);
    LateMeansOvertaken(history, e.at);
  }

  /** Without resets and with times in order, the intervals are the differences of successive times. */
  lemma {:induction false} PlainIntervals(history: seq<Event>)
    requires forall i :: 0 <= i < |history| ==> history[i].Observe?
    requires forall i, j :: 0 <= i < j < |history| ==> history[i].at <= history[j].at
    ensures var intervals := After(history).intervals;
            && |intervals| == (if history == [] then 0 else |history| - 1)
            && (forall i :: 0 <= i < |intervals| ==> intervals[i] == history[i + 1].at - history[i].at)
    ensures history != [] ==> After(history).last == Some(history[|history| - 1].at) && After(history).resetAt == 0
    decreases |history|
  {
    if history != [] {
      PlainIntervals(history[..|history| - 1]);
    }
  }

  // ---------------------------------------------------------------- sums and buckets

  function TotalTime(s: seq<Word>): nat { if s == [] then 0 else TotalTime(s[..|s| - 1]) + s[|s| - 1] }

  function Spans(s: seq<Segment>): int {
    if s == [] then 0 else Spans(s[..|s| - 1]) + (s[|s| - 1].last - s[|s| - 1].first)
  }

  lemma TotalGrows(s: seq<Word>, interval: Word)
    ensures TotalTime(s + [interval]) == TotalTime(s) + interval
  {
    assert (s + [interval])[..|s|] == s;
  }

  lemma SpansGrow(s: seq<Segment>, at: Word)
    requires s != []
    ensures Spans(Extended(s, at)) == Spans(s) + at - s[|s| - 1].last
  {
    assert Extended(s, at)[..|s| - 1] == s[..|s| - 1];
  }

  predicate Telescoped(t: Timing) {
    && TotalTime(t.intervals) == Spans(t.segments)
    && (t.last.Some? ==> t.segments != [] && t.segments[|t.segments| - 1].last == t.last.value)
    && (forall i :: 0 <= i < |t.segments| ==> t.segments[i].first <= t.segments[i].last)
  }

  lemma OpeningTelescopes(t: Timing, at: Word)
    requires Telescoped(t) && t.last.None?
    ensures Telescoped(t.(last := Some(at), segments := t.segments + [Segment(at, at)]))
  {
    assert (t.segments + [Segment(at, at)])[..|t.segments|] == t.segments;
  }

  lemma ExtendingTelescopes(t: Timing, at: Word)
    requires Telescoped(t) && t.last.Some? && t.last.value <= at
    ensures Telescoped(Timing(Some(at), t.resetAt, Extended(t.segments, at), t.intervals + [at - t.last.value]))
  {
    TotalGrows(t.intervals, at - t.last.value);
    SpansGrow(t.segments, at);
  }

  lemma NextTelescopes(t: Timing, e: Event)
    requires Telescoped(t)
    ensures Telescoped(Next(t, e))
  {
    if e.Observe? && !Late(t, e.at) {
      if t.last.None? {
        OpeningTelescopes(t, e.at);
      } else {
        ExtendingTelescopes(t, e.at);
      }
    }
  }

  /** The intervals of a history add up to the lengths of its runs, and the open run ends at the last push. */
  lemma {:induction false} SumTelescopes(history: seq<Event>)
    ensures Telescoped(After(history))
    decreases |history|
  {
    if history != [] {
      SumTelescopes(history[..|history| - 1]);
      NextTelescopes(After(history[..|history| - 1]), history[|history| - 1]);
    }
  }

  /** How many intervals are within a bound. */
  function Within(s: seq<Word>, bound: Word): (n: nat)
    ensures n <= |s|
  {
    if s == [] then 0 else Within(s[..|s| - 1], bound) + (if s[|s| - 1] <= bound then 1 else 0)
  }

  lemma {:induction false} WithinCounts(s: seq<Word>, bound: Word)
    ensures Within(s, bound) == |set i | 0 <= i < |s| && s[i] <= bound|
    decreases |s|
  {
    var all := set i | 0 <= i < |s| && s[i] <= bound;
    if s == [] {
      assert all == {};
    } else {
      var n := |s| - 1;
      var before := set i | 0 <= i < n && s[..n][i] <= bound;
      WithinCounts(s[..n], bound);
      assert all == before + (if s[n] <= bound then {n} else {});
    }
  }

  /** The buckets are cumulative: a larger bound counts no fewer, and the last one counts everything. */
  lemma {:induction false} BucketsAreCumulative(s: seq<Word>, low: Word, high: Word)
    requires low <= high
    ensures Within(s, low) <= Within(s, high) <= Within(s, BOUNDS[|BOUNDS| - 1]) == |s|
  {
    if s != [] {
      BucketsAreCumulative(s[..|s| - 1], low, high);
    }
  }

  // ---------------------------------------------------------------- the histogram

  function WrappedCount(n: nat): Word { n % U64_MODULUS }

  class PadInterval {
    var last: Option<Word>
    var resetAt: Word
    var buckets: array<Word>
    var count: Word
    var sum: Word
    ghost var history: seq<Event>

    ghost predicate Valid()
      reads this, buckets
    {
      var t := After(history);
      last == t.last && resetAt == t.resetAt && Counted(t.intervals)
    }

    /** The counters describe these intervals, modulo 2^64. */
    ghost predicate Counted(intervals: seq<Word>)
      reads this, buckets
    {
      && buckets.Length == |BOUNDS|
      && count == WrappedCount(|intervals|)
      && sum == WrappedCount(TotalTime(intervals))
      && forall i :: 0 <= i < |BOUNDS| ==> buckets[i] == WrappedCount(Within(intervals, BOUNDS[i]))
    }

    constructor ()
      ensures Valid() && fresh(buckets) && history == []
    {
      last, resetAt, count, sum := None, 0, 0, 0;
      buckets := new Word[|BOUNDS|](_ => 0);
      history := [];
    }

    method ResetAt(timestamp: Word)
      requires Valid()
      modifies this`last, this`resetAt, this`history
      ensures Valid() && history == old(history) + [Reset(timestamp)]
    {
      history := history + [Reset(timestamp)];
      assert history[..|history| - 1] == old(history);
      resetAt := if resetAt <= timestamp then timestamp else resetAt;
      if last.Some? && last.value <= resetAt {
        last := None;
      }
    }

    method ObserveAt(timestamp: Word)
      requires Valid()
      modifies this, buckets
      ensures Valid() && buckets == old(buckets) && history == old(history) + [Observe(timestamp)]
    {
      ghost var before := After(history);
      history := history + [Observe(timestamp)];
      assert history[..|history| - 1] == old(history);
      if timestamp < resetAt {
        return;
      }
      if last.Some? {
        if timestamp < last.value {
          return;
        }
        Record(timestamp - last.value, before.intervals);
      }
      last := Some(timestamp);
    }

    /** Count one interval in every bucket whose bound it does not exceed. */
    method Record(interval: Word, ghost intervals: seq<Word>)
      requires Counted(intervals)
      modifies this`count, this`sum, buckets
      ensures Counted(intervals + [interval])
    {
      ghost var more := intervals + [interval];
      assert more[..|intervals|] == intervals;
      for i := 0 to |BOUNDS|
        invariant forall k :: 0 <= k < i ==> buckets[k] == WrappedCount(Within(more, BOUNDS[k]))
        invariant forall k :: i <= k < |BOUNDS| ==> buckets[k] == WrappedCount(Within(intervals, BOUNDS[k]))
        modifies buckets
      {
        if interval <= BOUNDS[i] {
          WrapStep(Within(intervals, BOUNDS[i]), 1);
          buckets[i] := WrappingAdd(buckets[i], 1);
        }
      }
      WrapStep(|intervals|, 1);
      WrapStep(TotalTime(intervals), interval);
      count := WrappingAdd(count, 1);
      sum := WrappingAdd(sum, interval);
    }
  }

  lemma WrapStep(n: nat, step: Word)
    ensures WrappingAdd(WrappedCount(n), step) == WrappedCount(n + step)
  {
  }
}
