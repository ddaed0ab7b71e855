/** Text recognition: which frames are analysed, and how a strided frame is packed for the recogniser. */
module OcrFrames {
  import opened Common

  // ---------------------------------------------------------------- sampling

  datatype Selection = Empty | SelectedWithoutPts | SelectedAt(pts: nat)

  datatype State = State(selection: Selection, lastSeenValid: Option<nat>, generation: nat)

  const START := State(Empty, None, 1)

  /** A new generation, with nothing seen or selected. */
  function Reset(s: State): State { State(Empty, None, s.generation + 1) }

  /** Time going backwards starts a new generation; a buffer without a time leaves the last time seen alone. */
  function Seen(s: State, pts: Option<nat>): State {
    var backwards := s.lastSeenValid.Some? && pts.Some? && pts.value < s.lastSeenValid.value;
    (if backwards then Reset(s) else s).(lastSeenValid := if pts.Some? then pts else s.lastSeenValid)
  }

  function Chosen(selection: Selection, pts: Option<nat>, interval: nat): bool {
    interval == 0 ||
    (if pts.Some? then !selection.SelectedAt? || SaturatingSub(pts.value, selection.pts) >= interval
     else selection.Empty?)
  }

  /** With an interval of zero everything is selected and nothing is remembered of it. */
  function Select(before: State, pts: Option<nat>, interval: nat): (State, bool) {
    var s := Seen(before, pts);
    var chosen := Chosen(s.selection, pts, interval);
    (if chosen && interval > 0
     then s.(selection := if pts.Some? then SelectedAt(pts.value) else SelectedWithoutPts) else s,
     chosen)
  }

  class FrameSampler {
    var selection: Selection
    var lastSeenValid: Option<nat>
    var generation: nat

    function View(): State
      reads this
    {
      State(selection, lastSeenValid, generation)
    }

    constructor ()
      ensures View() == START
    {
      selection, lastSeenValid, generation := Empty, None, 1;
    }

    /** Stream start, a new segment and the end of a flush begin a new generation. */
    method ResetGeneration()
      modifies this
      ensures View() == Reset(old(View()))
    {
      generation := generation + 1;
      selection, lastSeenValid := Empty, None;
    }

    method SelectFrame(pts: Option<nat>, interval: nat) returns (chosen: bool)
      modifies this
      ensures (View(), chosen) == Select(old(View()), pts, interval)
    {
      if lastSeenValid.Some? && pts.Some? && pts.value < lastSeenValid.value {
        ResetGeneration();
      }
      if pts.Some? {
        lastSeenValid := pts;
      }
      if interval == 0 {
        return true;
      }
      if pts.Some? && !selection.SelectedAt? {
        selection := SelectedAt(pts.value);
        return true;
      }
      if pts.Some? && SaturatingSub(pts.value, selection.pts) >= interval {
        selection := SelectedAt(pts.value);
        return true;
      }
      if pts.None? && selection.Empty? {
        selection := SelectedWithoutPts;
        return true;
      }
      chosen := false;
    }
  }

  datatype Sample = Sample(generation: nat, pts: Option<nat>)

  /** A buffer arrives, with its time if it has one, or a new generation begins. */
  datatype Event = Arrives(pts: Option<nat>) | NewGeneration

  /** The sampler after some events, and the samples it has selected. */
  function After(interval: nat, events: seq<Event>): (State, seq<Sample>) {
    if events == [] then (START, [])
    else
      var (s, samples) := After(interval, events[..|events| - 1]);
      var e := events[|events| - 1];
      if e.NewGeneration? then (Reset(s), samples)
      else
        var (next, chosen) := Select(s, e.pts, interval);
        (next, if chosen then samples + [Sample(next.generation, e.pts)] else samples)
  }

  /** The element over any events selects the samples of the run. */
  method RunSampler(interval: nat, events: seq<Event>) returns (samples: seq<Sample>)
    ensures samples == After(interval, events).1
  {
    var sampler := new FrameSampler();
    samples := [];
    for i := 0 to |events|
      invariant (sampler.View(), samples) == After(interval, events[..i])
    {
      assert events[..i + 1][..i] == events[..i];
      match events[i]
      case NewGeneration => sampler.ResetGeneration();
      case Arrives(pts) =>
        var chosen := sampler.SelectFrame(pts, interval);
        if chosen {
          samples := samples + [Sample(sampler.generation, pts)];
        }
    }
    assert events[..|events|] == events;
  }

  /** What the state remembers of the samples of its generation. */
  ghost predicate Remembers(s: State, samples: seq<Sample>) {
    && (forall i :: 0 <= i < |samples| ==> samples[i].generation <= s.generation)
    && (s.selection.Empty? <==> forall i :: 0 <= i < |samples| ==> samples[i].generation != s.generation)
    && (s.selection.SelectedAt? ==>
          && s.lastSeenValid.Some? && s.selection.pts <= s.lastSeenValid.value
          && Sample(s.generation, Some(s.selection.pts)) in samples)
    && (forall i :: 0 <= i < |samples| && samples[i].generation == s.generation && samples[i].pts.Some? ==>
          s.selection.SelectedAt? && samples[i].pts.value <= s.selection.pts)
  }

  /** Samples of one generation are an interval apart, and only the first may lack a time. */
  ghost predicate Apart(samples: seq<Sample>, interval: nat) {
    forall i, j :: 0 <= i < j < |samples| && samples[i].generation == samples[j].generation ==>
      && samples[j].pts.Some?
      && (samples[i].pts.Some? ==> samples[i].pts.value + interval <= samples[j].pts.value)
  }

  lemma SeenRemembers(s: State, samples: seq<Sample>, pts: Option<nat>)
    requires Remembers(s, samples)
    ensures Remembers(Seen(s, pts), samples)
  {
  }

  lemma ChosenRemembers(s: State, samples: seq<Sample>, pts: Option<nat>, interval: nat)
    requires interval > 0 && Remembers(s, samples) && Apart(samples, interval)
    requires pts.Some? ==> s.lastSeenValid == pts
    requires Chosen(s.selection, pts, interval)
    ensures var next := s.(selection := if pts.Some? then SelectedAt(pts.value) else SelectedWithoutPts);
            var more := samples + [Sample(s.generation, pts)];
            Remembers(next, more) && Apart(more, interval)
  {
    var more := samples + [Sample(s.generation, pts)];
    assert more[|samples|] == Sample(s.generation, pts);
  }

  /** Over any buffers and new generations, with a positive interval, samples of one generation are at least the
      interval apart. */
  lemma {:induction false} SamplesAreApart(interval: nat, events: seq<Event>)
    requires interval > 0
    ensures var (s, samples) := After(interval, events); Remembers(s, samples) && Apart(samples, interval)
    decreases |events|
  {
    if events != [] {
      var n := |events| - 1;
      SamplesAreApart(interval, events[..n]);
      var (s, samples) := After(interval, events[..n]);
      if events[n].Arrives? {
        var pts := events[n].pts;
        SeenRemembers(s, samples, pts);
        var seen := Seen(s, pts);
        if Chosen(seen.selection, pts, interval) {
          ChosenRemembers(seen, samples, pts, interval);
        }
      }
    }
  }

  /** A timed buffer is selected exactly when it is an interval after every timed sample of its generation. */
  lemma SelectedIffApart(interval: nat, events: seq<Event>, t: nat)
    requires interval > 0
    ensures var (s, samples) := After(interval, events);
            var (next, chosen) := Select(s, Some(t), interval);
            chosen <==>
              forall i :: 0 <= i < |samples| && samples[i].generation == next.generation && samples[i].pts.Some? ==>
                samples[i].pts.value + interval <= t
  {
    SamplesAreApart(interval, events);
    var (s, samples) := After(interval, events);
    SeenRemembers(s, samples, Some(t));
    var seen := Seen(s, Some(t));
    if seen.selection.SelectedAt? {
      assert Sample(seen.generation, Some(seen.selection.pts)) in samples;
    }
  }

  /** An untimed buffer is selected exactly when nothing else of its generation was; without an interval every buffer
      is. */
  lemma UntimedIffFirst(interval: nat, events: seq<Event>, pts: Option<nat>)
    ensures var (s, samples) := After(interval, events);
            && (interval > 0 ==>
                  (Select(s, None, interval).1 <==>
                     forall i :: 0 <= i < |samples| ==> samples[i].generation != s.generation))
            && (interval == 0 ==> Select(s, pts, interval).1)
  {
    if interval > 0 {
      SamplesAreApart(interval, events);
    }
  }

  /** The time of the latest timed buffer since the latest call for a new generation. */
  function LastTime(events: seq<Event>): Option<nat> {
    if events == [] then None
    else
      var e := events[|events| - 1];
      if e.NewGeneration? then None else if e.pts.Some? then e.pts else LastTime(events[..|events| - 1])
  }

  /** Generations are counted from one: each call for a new one and each step back in time begins another. */
  function Generations(events: seq<Event>): nat {
    if events == [] then 1
    else
      var (before, e) := (events[..|events| - 1], events[|events| - 1]);
      var back := e.Arrives? && e.pts.Some? && LastTime(before).Some? && e.pts.value < LastTime(before).value;
      Generations(before) + (if e.NewGeneration? || back then 1 else 0)
  }

  lemma {:induction false} GenerationsAreCounted(interval: nat, events: seq<Event>)
    ensures var (s, samples) := After(interval, events);
            && s.generation == Generations(events) && s.lastSeenValid == LastTime(events)
            && (events != [] && events[|events| - 1].Arrives? ==>
                  var before := After(interval, events[..|events| - 1]);
                  samples == before.1 + (if Select(before.0, events[|events| - 1].pts, interval).1
                                         then [Sample(Generations(events), events[|events| - 1].pts)] else []))
    decreases |events|
  {
    if events != [] {
      GenerationsAreCounted(interval, events[..|events| - 1]);
    }
  }

  // ---------------------------------------------------------------- row packing

  /** The first n rows without their padding. */
  function Rows(source: Bytes, stride: nat, rowBytes: nat, n: nat): Bytes
    requires n == 0 || (n - 1) * stride + rowBytes <= |source|
    requires rowBytes <= stride
  {
    if n == 0 then []
    else
      RowBefore(stride, rowBytes, n, |source|);
      Rows(source, stride, rowBytes, n - 1) + source[(n - 1) * stride..(n - 1) * stride + rowBytes]
  }

  lemma RowBefore(stride: nat, rowBytes: nat, n: nat, size: nat)
    requires n > 0 && (n - 1) * stride + rowBytes <= size && rowBytes <= stride
    ensures n > 1 ==> (n - 2) * stride + rowBytes <= size
  {
    if n > 1 {
      assert (n - 1) * stride == (n - 2) * stride + stride;
    }
  }

  predicate LongEnough(source: Bytes, stride: nat, rowBytes: nat, height: nat) {
    height == 0 || (height - 1) * stride + rowBytes <= |source|
  }

  /** Packing fails only for a frame over its limits, a stride below a row, or a source that ends within a row; the
      shortcut for unpadded frames gives the same bytes as the loop. */
  method Pack(source: Bytes, stride: int, width: nat, height: nat, maxFrameBytes: nat) returns (r: Option<Bytes>)
    ensures r.Some? <==>
              && width * 3 * height <= Min(USIZE_MAX, maxFrameBytes) && width * 3 <= Min(USIZE_MAX, stride)
              && LongEnough(source, stride, width * 3, height)
    ensures r.Some? ==> r.value == Rows(source, stride, width * 3, height)
  {
    var rowBytes := width * 3;
    if rowBytes > USIZE_MAX {
      return None;
    }
    var packedLen := rowBytes * height;
    if packedLen > USIZE_MAX || packedLen > maxFrameBytes || stride < 0 || stride < rowBytes {
      return None;
    }
    if stride == rowBytes && |source| >= packedLen {
      WholeFrame(source, rowBytes, height);
      return Some(source[..packedLen]);
    }
    r := PackRows(source, stride, rowBytes, height);
  }

  method PackRows(source: Bytes, stride: nat, rowBytes: nat, height: nat) returns (r: Option<Bytes>)
    requires rowBytes <= stride
    ensures r.Some? <==> LongEnough(source, stride, rowBytes, height)
    ensures r.Some? ==> r.value == Rows(source, stride, rowBytes, height)
  {
    var packed := [];
    for row := 0 to height
      invariant LongEnough(source, stride, rowBytes, row) && packed == Rows(source, stride, rowBytes, row)
    {
      var start := row * stride;
      if start + rowBytes > |source| {
        ShortRow(source, stride, rowBytes, row, height);
        return None;
      }
      packed := packed + source[start..start + rowBytes];
    }
    r := Some(packed);
  }

  lemma ShortRow(source: Bytes, stride: nat, rowBytes: nat, row: nat, height: nat)
    requires row < height && row * stride + rowBytes > |source|
    ensures !LongEnough(source, stride, rowBytes, height)
  {
    Scaled(row, height - 1, stride);
  }

  lemma {:induction false} WholeFrame(source: Bytes, rowBytes: nat, n: nat)
    requires rowBytes * n <= |source|
    ensures LongEnough(source, rowBytes, rowBytes, n) && Rows(source, rowBytes, rowBytes, n) == source[..rowBytes * n]
    decreases n
  {
    if n > 0 {
      assert rowBytes * n == (n - 1) * rowBytes + rowBytes && rowBytes * (n - 1) == (n - 1) * rowBytes;
      WholeFrame(source, rowBytes, n - 1);
    }
  }

  /** Each packed byte is the byte of the same row and column of the frame. */
  lemma {:induction false} RowsAt(source: Bytes, stride: nat, rowBytes: nat, n: nat, row: nat, column: nat)
    requires LongEnough(source, stride, rowBytes, n) && rowBytes <= stride && row < n && column < rowBytes
    ensures var (to, at) := (row * rowBytes + column, row * stride + column);
            && 0 <= to < |Rows(source, stride, rowBytes, n)| && 0 <= at < |source|
            && Rows(source, stride, rowBytes, n)[to] == source[at]
    decreases n
  {
    RowBefore(stride, rowBytes, n, |source|);
    Scaled(row + 1, n, rowBytes);
    Scaled(row, n - 1, stride);
    assert n * rowBytes == (n - 1) * rowBytes + rowBytes && (row + 1) * rowBytes == row * rowBytes + rowBytes;
    RowsLength(source, stride, rowBytes, n - 1);
    if row < n - 1 {
      RowsAt(source, stride, rowBytes, n - 1, row, column);
    }
  }

  lemma {:induction false} RowsLength(source: Bytes, stride: nat, rowBytes: nat, n: nat)
    requires LongEnough(source, stride, rowBytes, n) && rowBytes <= stride
    ensures |Rows(source, stride, rowBytes, n)| == n * rowBytes
    decreases n
  {
    if n > 0 {
      RowBefore(stride, rowBytes, n, |source|);
      RowsLength(source, stride, rowBytes, n - 1);
      assert n * rowBytes == (n - 1) * rowBytes + rowBytes;
    }
  }
}
