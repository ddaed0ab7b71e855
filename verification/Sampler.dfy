/** Batch accumulation of the vision-language element: which frames are sampled, and why a batch always fits. */
module Sampler {
  import opened Common

  const MIB := 1024 * 1024

  datatype Settings = Settings(interval: nat, framesPerRequest: nat, queueCapacity: nat, maxFrameBytes: nat,
                               maxBatchBytes: nat)

  datatype SettingsError = FramesPerRequest | QueueCapacity | MaxFrameBytes | MaxBatchBytes | Overflow | BatchTooSmall

  function ValidateSettings(s: Settings): Result<(), SettingsError> {
    if !(1 <= s.framesPerRequest <= 10) then Err(FramesPerRequest)
    else if !(1 <= s.queueCapacity <= 4) then Err(QueueCapacity)
    else if !(1 <= s.maxFrameBytes <= 16 * MIB) then Err(MaxFrameBytes)
    else if !(1 <= s.maxBatchBytes <= 32 * MIB) then Err(MaxBatchBytes)
    else if s.framesPerRequest * s.maxFrameBytes > U64_MAX then Err(Overflow)
    else if s.framesPerRequest * s.maxFrameBytes > s.maxBatchBytes then Err(BatchTooSmall)
    else Ok(())
  }

  /** Settings are valid within their ranges, when a full batch of the largest frames is still a legal batch. */
  lemma SettingsIff(s: Settings)
    ensures ValidateSettings(s).Ok? <==>
              && 1 <= s.framesPerRequest <= 10 && 1 <= s.queueCapacity <= 4
              && 1 <= s.maxFrameBytes <= 16_777_216 && 1 <= s.maxBatchBytes <= 33_554_432
              && s.framesPerRequest * s.maxFrameBytes <= s.maxBatchBytes
    ensures ValidateSettings(s) != Err(Overflow)
  {
    if 1 <= s.framesPerRequest <= 10 && s.maxFrameBytes <= 16 * MIB {
      Scaled(s.framesPerRequest, 10, s.maxFrameBytes);
    }
  }

  datatype Frame = Frame(bytes: Bytes, pts: Option<nat>)

  datatype State = State(lastSeen: Option<nat>, lastSelected: Option<nat>, noPtsSelected: bool, frames: seq<Frame>,
                         bytes: nat, generation: nat)

  const START := State(None, None, false, [], 0, 1)

  /** A buffer may fail to map. */
  datatype Buffer = Buffer(pts: Option<nat>, data: Option<Bytes>)

  datatype Outcome = Skipped | Unreadable | FrameTooLarge | BatchTooLarge | Accepted | BatchReady(frames: seq<Frame>)

  /** A new generation, with an empty sampler. */
  function Reset(s: State): State { START.(generation := s.generation + 1) }

  /** A time earlier than the one seen just before starts a new generation. */
  function Seen(s: State, pts: Option<nat>): State {
    var backwards := s.lastSeen.Some? && pts.Some? && pts.value < s.lastSeen.value;
    (if backwards then Reset(s) else s).(lastSeen := pts)
  }

  predicate Selected(s: State, settings: Settings, pts: Option<nat>) {
    if pts.Some? then
      s.lastSelected.None? || settings.interval == 0
      || SaturatingSub(pts.value, s.lastSelected.value) >= settings.interval
    else settings.interval == 0 || (!s.noPtsSelected && s.frames == [])
  }

  function Push(s: State, frame: Frame): State {
    s.(bytes := s.bytes + |frame.bytes|, noPtsSelected := s.noPtsSelected || frame.pts.None?,
       lastSelected := if frame.pts.Some? then frame.pts else s.lastSelected, frames := s.frames + [frame])
  }

  function Collect(before: State, settings: Settings, b: Buffer): (State, Outcome) {
    var s := Seen(before, b.pts);
    if !Selected(s, settings, b.pts) then (s, Skipped)
    else if b.data.None? then (s, Unreadable)
    else if |b.data.value| > settings.maxFrameBytes then (s, FrameTooLarge)
    else if s.bytes + |b.data.value| > Min(U64_MAX, settings.maxBatchBytes) then (s, BatchTooLarge)
    else
      var next := Push(s, Frame(b.data.value, b.pts));
      if |next.frames| < settings.framesPerRequest then (next, Accepted)
      else (next.(frames := [], bytes := 0), BatchReady(next.frames))
  }

  class BatchSampler {
    var lastSeen: Option<nat>
    var lastSelected: Option<nat>
    var noPtsSelected: bool
    var frames: seq<Frame>
    var bytes: nat
    var generation: nat

    function View(): State
      reads this
    {
      State(lastSeen, lastSelected, noPtsSelected, frames, bytes, generation)
    }

    constructor ()
      ensures View() == START
    {
      lastSeen, lastSelected, noPtsSelected, frames, bytes, generation := None, None, false, [], 0, 1;
    }

    method ResetGeneration()
      modifies this
      ensures View() == Reset(old(View()))
    {
      generation := generation + 1;
      lastSeen, lastSelected, noPtsSelected, frames, bytes := None, None, false, [], 0;
    }

    method CollectBatch(b: Buffer, settings: Settings) returns (outcome: Outcome)
      modifies this
      ensures (View(), outcome) == Collect(old(View()), settings, b)
    {
      if lastSeen.Some? && b.pts.Some? && b.pts.value < lastSeen.value {
        ResetGeneration();
      }
      lastSeen := b.pts;
      var selected := settings.interval == 0;
      match b.pts {
        case Some(current) =>
          selected := lastSelected.None? || settings.interval == 0
                      || SaturatingSub(current, lastSelected.value) >= settings.interval;
        case None =>
          selected := settings.interval == 0 || (!noPtsSelected && frames == []);
      }
      if !selected {
        return Skipped;
      }
      if b.data.None? {
        return Unreadable;
      }
      var size := |b.data.value|;
      if size > settings.maxFrameBytes {
        return FrameTooLarge;
      }
      if bytes + size > U64_MAX || bytes + size > settings.maxBatchBytes {
        return BatchTooLarge;
      }
      bytes := bytes + size;
      if b.pts.None? {
        noPtsSelected := true;
      }
      lastSelected := if b.pts.Some? then b.pts else lastSelected;
      frames := frames + [Frame(b.data.value, b.pts)];
      if |frames| < settings.framesPerRequest {
        return Accepted;
      }
      outcome := BatchReady(frames);
      frames := [];
      bytes := 0;
    }
  }

  // ---------------------------------------------------------------- sizes

  function Size(frames: seq<Frame>): nat {
    if frames == [] then 0 else Size(frames[..|frames| - 1]) + |frames[|frames| - 1].bytes|
  }

  predicate EachFits(frames: seq<Frame>, limit: nat) {
    forall i :: 0 <= i < |frames| ==> |frames[i].bytes| <= limit
  }

  lemma {:induction false} SizeBound(frames: seq<Frame>, limit: nat)
    requires EachFits(frames, limit)
    ensures Size(frames) <= |frames| * limit
  {
    if frames != [] {
      var n := |frames| - 1;
      SizeBound(frames[..n], limit);
      assert n * limit + limit == (n + 1) * limit;
    }
  }

  ghost predicate SizesOk(s: State, settings: Settings) {
    s.bytes == Size(s.frames) && |s.frames| < settings.framesPerRequest && EachFits(s.frames, settings.maxFrameBytes)
  }

  lemma PushSizes(s: State, settings: Settings, frame: Frame)
    requires ValidateSettings(settings).Ok? && SizesOk(s, settings) && |frame.bytes| <= settings.maxFrameBytes
    ensures var next := Push(s, frame);
            next.bytes == Size(next.frames) <= settings.maxBatchBytes && EachFits(next.frames, settings.maxFrameBytes)
  {
    var next := Push(s, frame);
    assert next.frames[..|s.frames|] == s.frames;
    SizeBound(next.frames, settings.maxFrameBytes);
    Scaled(|next.frames|, settings.framesPerRequest, settings.maxFrameBytes);
  }

  /** With validated settings the byte count is the size of the held frames, fewer than a batch; a batch has exactly
      the requested number of frames and fits both limits; and the batch limit is never what rejects a frame. */
  lemma CollectKeepsSizes(s: State, settings: Settings, b: Buffer)
    requires ValidateSettings(settings).Ok? && SizesOk(s, settings)
    ensures var (next, outcome) := Collect(s, settings, b);
            && SizesOk(next, settings) && !outcome.BatchTooLarge?
            && (outcome.BatchReady? ==>
                  && |outcome.frames| == settings.framesPerRequest
                  && EachFits(outcome.frames, settings.maxFrameBytes) && Size(outcome.frames) <= settings.maxBatchBytes)
  {
    var seen := Seen(s, b.pts);
    assert SizesOk(seen, settings);
    if b.data.Some? && |b.data.value| <= settings.maxFrameBytes {
      PushSizes(seen, settings, Frame(b.data.value, b.pts));
    }
  }

  // ---------------------------------------------------------------- runs

  datatype Sample = Sample(generation: nat, frame: Frame)

  /** The sampler after some events, every sample it accepted, and every batch it gave out. */
  datatype Run = Run(state: State, samples: seq<Sample>, batches: seq<seq<Frame>>)

  /** A buffer arrives, or the stream starts, changes its segment or has been flushed. */
  datatype Event = Arrives(buffer: Buffer) | NewGeneration

  function Take(run: Run, settings: Settings, b: Buffer): Run {
    var (next, outcome) := Collect(run.state, settings, b);
    if outcome.Accepted? || outcome.BatchReady? then
      Run(next, run.samples + [Sample(next.generation, Frame(if b.data.Some? then b.data.value else [], b.pts))],
          if outcome.BatchReady? then run.batches + [outcome.frames] else run.batches)
    else run.(state := next)
  }

  function Extend(run: Run, settings: Settings, e: Event): Run {
    if e.Arrives? then Take(run, settings, e.buffer) else run.(state := Reset(run.state))
  }

  function After(settings: Settings, events: seq<Event>): Run {
    if events == [] then Run(START, [], [])
    else Extend(After(settings, events[..|events| - 1]), settings, events[|events| - 1])
  }

  /** The element over any events gives out the batches of the run. */
  method RunSampler(settings: Settings, events: seq<Event>) returns (batches: seq<seq<Frame>>)
    ensures batches == After(settings, events).batches
  {
    var sampler := new BatchSampler();
    batches := [];
    for i := 0 to |events|
      invariant sampler.View() == After(settings, events[..i]).state
      invariant batches == After(settings, events[..i]).batches
    {
      assert events[..i + 1][..i] == events[..i];
      match events[i]
      case NewGeneration => sampler.ResetGeneration();
      case Arrives(buffer) =>
        var outcome := sampler.CollectBatch(buffer, settings);
        if outcome.BatchReady? {
          batches := batches + [outcome.frames];
        }
    }
    assert events[..|events|] == events;
  }

  /** The frames given are the last samples, all of this generation. */
  ghost predicate AreLast(frames: seq<Frame>, samples: seq<Sample>, generation: nat) {
    && |frames| <= |samples|
    && forall i :: 0 <= i < |frames| ==>
         samples[|samples| - |frames| + i] == Sample(generation, frames[i])
  }

  /** The last time selected bounds the samples of its generation, and only one of them may lack a time. */
  ghost predicate TimesOk(run: Run, settings: Settings) {
    && (forall i :: 0 <= i < |run.samples| ==> run.samples[i].generation <= run.state.generation)
    && (forall i :: 0 <= i < |run.samples| && run.samples[i].generation == run.state.generation ==>
          if run.samples[i].frame.pts.Some?
          then run.state.lastSelected.Some? && run.samples[i].frame.pts.value <= run.state.lastSelected.value
          else run.state.noPtsSelected)
  }

  ghost predicate Apart(samples: seq<Sample>, interval: nat) {
    forall i, j :: 0 <= i < j < |samples| && samples[i].generation == samples[j].generation ==>
      && (samples[i].frame.pts.Some? && samples[j].frame.pts.Some? ==>
            samples[i].frame.pts.value + interval <= samples[j].frame.pts.value)
      && (samples[i].frame.pts.Some? || samples[j].frame.pts.Some?)
  }

  lemma TakeKeepsTimes(run: Run, settings: Settings, b: Buffer)
    requires settings.interval > 0 && TimesOk(run, settings) && Apart(run.samples, settings.interval)
    ensures var next := Take(run, settings, b); TimesOk(next, settings) && Apart(next.samples, settings.interval)
  {
    var seen := run.(state := Seen(run.state, b.pts));
    assert TimesOk(seen, settings);
    var next := Take(run, settings, b);
    if next.samples != run.samples {
      var frame := Frame(if b.data.Some? then b.data.value else [], b.pts);
      SelectedIsApart(seen, settings, frame);
      assert next.samples == run.samples + [Sample(seen.state.generation, frame)];
    }
  }

  lemma SelectedIsApart(run: Run, settings: Settings, frame: Frame)
    requires settings.interval > 0 && TimesOk(run, settings) && Apart(run.samples, settings.interval)
    requires Selected(run.state, settings, frame.pts)
    requires frame.pts.None? ==> !run.state.noPtsSelected
    ensures Apart(run.samples + [Sample(run.state.generation, frame)], settings.interval)
  {
  }

  ghost predicate BatchOk(batch: seq<Frame>, settings: Settings) {
    && |batch| == settings.framesPerRequest
    && EachFits(batch, settings.maxFrameBytes) && Size(batch) <= settings.maxBatchBytes
  }

  ghost predicate BatchesOk(run: Run, settings: Settings) {
    forall k :: 0 <= k < |run.batches| ==> BatchOk(run.batches[k], settings)
  }

  lemma PushIsLast(frames: seq<Frame>, samples: seq<Sample>, generation: nat, frame: Frame)
    requires AreLast(frames, samples, generation)
    ensures AreLast(frames + [frame], samples + [Sample(generation, frame)], generation)
  {
    var (more, all) := (frames + [frame], samples + [Sample(generation, frame)]);
    forall i | 0 <= i < |more| ensures all[|all| - |more| + i] == Sample(generation, more[i]) {
      if i < |frames| {
        assert samples[|samples| - |frames| + i] == Sample(generation, frames[i]);
      }
    }
  }

  lemma TakeKeepsHeld(run: Run, settings: Settings, b: Buffer)
    requires AreLast(run.state.frames, run.samples, run.state.generation)
    ensures var (next, outcome) := Collect(run.state, settings, b);
            var after := Take(run, settings, b);
            && AreLast(next.frames, after.samples, next.generation)
            && (outcome.BatchReady? ==> AreLast(outcome.frames, after.samples, next.generation))
  {
    var seen := Seen(run.state, b.pts);
    assert AreLast(seen.frames, run.samples, seen.generation);
    if b.data.Some? {
      PushIsLast(seen.frames, run.samples, seen.generation, Frame(b.data.value, b.pts));
    }
  }

  /** Over any buffers and new generations: held frames stay below a batch and their size is the byte count; every
      batch has exactly the requested frames within both limits; and with a positive interval the samples of one
      generation are at least that far apart, at most one of them having no time. */
  lemma {:induction false} SamplerBounds(settings: Settings, events: seq<Event>)
    requires ValidateSettings(settings).Ok?
    ensures SizesOk(After(settings, events).state, settings) && BatchesOk(After(settings, events), settings)
    ensures settings.interval > 0 ==> Apart(After(settings, events).samples, settings.interval)
    ensures settings.interval > 0 ==> TimesOk(After(settings, events), settings)
    decreases |events|
  {
    if events != [] {
      var n := |events| - 1;
      SamplerBounds(settings, events[..n]);
      if events[n].Arrives? {
        CollectKeepsSizes(After(settings, events[..n]).state, settings, events[n].buffer);
        if settings.interval > 0 {
          TakeKeepsTimes(After(settings, events[..n]), settings, events[n].buffer);
        }
      }
    }
  }

  lemma {:induction false} HeldAreLast(settings: Settings, events: seq<Event>)
    ensures var run := After(settings, events); AreLast(run.state.frames, run.samples, run.state.generation)
    decreases |events|
  {
    if events != [] {
      var n := |events| - 1;
      HeldAreLast(settings, events[..n]);
      if events[n].Arrives? {
        TakeKeepsHeld(After(settings, events[..n]), settings, events[n].buffer);
      }
    }
  }

  /** A batch is made of consecutive samples of one generation, the latest ones. */
  lemma BatchIsConsecutive(settings: Settings, events: seq<Event>, b: Buffer)
    requires Collect(After(settings, events).state, settings, b).1.BatchReady?
    ensures var (next, outcome) := Collect(After(settings, events).state, settings, b);
            AreLast(outcome.frames, After(settings, events + [Arrives(b)]).samples, next.generation)
  {
    HeldAreLast(settings, events);
    TakeKeepsHeld(After(settings, events), settings, b);
    assert (events + [Arrives(b)])[..|events|] == events;
  }

  ghost predicate SampledAt(samples: seq<Sample>, generation: nat, pts: Option<nat>) {
    exists i :: 0 <= i < |samples| && samples[i].generation == generation && samples[i].frame.pts == pts
  }

  /** What the state says was selected was sampled in its generation. */
  ghost predicate Remembers(run: Run) {
    && (run.state.lastSelected.Some? ==> SampledAt(run.samples, run.state.generation, run.state.lastSelected))
    && (run.state.noPtsSelected ==> SampledAt(run.samples, run.state.generation, None))
  }

  lemma StillSampled(samples: seq<Sample>, more: seq<Sample>, generation: nat, pts: Option<nat>)
    requires samples <= more && SampledAt(samples, generation, pts)
    ensures SampledAt(more, generation, pts)
  {
    var i :| 0 <= i < |samples| && samples[i].generation == generation && samples[i].frame.pts == pts;
    assert more[i] == samples[i];
  }

  lemma TakeRemembers(run: Run, settings: Settings, b: Buffer)
    requires Remembers(run)
    ensures Remembers(Take(run, settings, b))
  {
    var (seen, next) := (Seen(run.state, b.pts), Take(run, settings, b));
    if next.samples != run.samples {
      assert next.samples[|run.samples|].generation == next.state.generation;
      assert SampledAt(next.samples, next.state.generation, b.pts);
    }
    if seen.lastSelected.Some? {
      StillSampled(run.samples, next.samples, seen.generation, seen.lastSelected);
    }
    if seen.noPtsSelected {
      StillSampled(run.samples, next.samples, seen.generation, None);
    }
  }

  lemma {:induction false} RunRemembers(settings: Settings, events: seq<Event>)
    ensures Remembers(After(settings, events))
    decreases |events|
  {
    if events != [] {
      RunRemembers(settings, events[..|events| - 1]);
      if events[|events| - 1].Arrives? {
        TakeRemembers(After(settings, events[..|events| - 1]), settings, events[|events| - 1].buffer);
      }
    }
  }

  /** With a positive interval a timed buffer is passed over exactly when it comes less than an interval after some
      timed sample of its generation. */
  lemma SkippedIffTooClose(settings: Settings, events: seq<Event>, t: nat, data: Option<Bytes>)
    requires ValidateSettings(settings).Ok? && settings.interval > 0
    ensures var run := After(settings, events);
            var (next, outcome) := Collect(run.state, settings, Buffer(Some(t), data));
            outcome.Skipped? <==>
              exists i :: 0 <= i < |run.samples| && run.samples[i].generation == next.generation
                          && run.samples[i].frame.pts.Some? && t < run.samples[i].frame.pts.value + settings.interval
  {
    SamplerBounds(settings, events);
    RunRemembers(settings, events);
    var run := After(settings, events);
    var seen := Seen(run.state, Some(t));
    assert TimesOk(run.(state := seen), settings);
  }

  /** An untimed buffer is passed over exactly when a batch is being filled or its generation already has an untimed
      sample; without an interval no buffer is passed over. */
  lemma UntimedSkippedIff(settings: Settings, events: seq<Event>, b: Buffer)
    requires ValidateSettings(settings).Ok?
    ensures var run := After(settings, events);
            var skipped := Collect(run.state, settings, b).1.Skipped?;
            && (settings.interval == 0 ==> !skipped)
            && (settings.interval > 0 && b.pts.None? ==>
                  (skipped <==> run.state.frames != [] || SampledAt(run.samples, run.state.generation, None)))
  {
    SamplerBounds(settings, events);
    RunRemembers(settings, events);
  }

  /** What becomes of a buffer that is not passed over: it cannot be read, is too large, completes the batch with the
      frames held before, or is held with them; and what was held is dropped when a new generation begins. */
  lemma OutcomeIff(settings: Settings, events: seq<Event>, b: Buffer)
    requires ValidateSettings(settings).Ok?
    ensures var run := After(settings, events);
            var (next, outcome) := Collect(run.state, settings, b);
            var held := if next.generation == run.state.generation then run.state.frames else [];
            && (outcome.Skipped? || outcome.Unreadable? || outcome.FrameTooLarge? ==> next.frames == held)
            && (!outcome.Skipped? ==>
                  && (outcome.Unreadable? <==> b.data.None?)
                  && (outcome.FrameTooLarge? <==> b.data.Some? && |b.data.value| > settings.maxFrameBytes)
                  && (b.data.Some? && |b.data.value| <= settings.maxFrameBytes ==>
                        var all := held + [Frame(b.data.value, b.pts)];
                        if |all| < settings.framesPerRequest then outcome == Accepted && next.frames == all
                        else outcome == BatchReady(all) && next.frames == []))
  {
    SamplerBounds(settings, events);
    CollectKeepsSizes(After(settings, events).state, settings, b);
  }

  /** The time of the latest buffer, if it had one and no new generation was called for since. */
  function LastTime(events: seq<Event>): Option<nat> {
    if events == [] || events[|events| - 1].NewGeneration? then None else events[|events| - 1].buffer.pts
  }

  /** Generations are counted from one: each call for a new one, and each buffer earlier than the one just before it,
      begins another. */
  function Generations(events: seq<Event>): nat {
    if events == [] then 1
    else
      var (before, e) := (events[..|events| - 1], events[|events| - 1]);
      var back := e.Arrives? && e.buffer.pts.Some? && LastTime(before).Some?
                  && e.buffer.pts.value < LastTime(before).value;
      Generations(before) + (if e.NewGeneration? || back then 1 else 0)
  }

  lemma {:induction false} GenerationsAreCounted(settings: Settings, events: seq<Event>)
    ensures var s := After(settings, events).state;
            s.generation == Generations(events) && s.lastSeen == LastTime(events)
    decreases |events|
  {
    if events != [] {
      GenerationsAreCounted(settings, events[..|events| - 1]);
    }
  }

  /** Every buffer that is held or completes a batch is a sample of its generation, and nothing else is. */
  lemma SamplesAreTaken(settings: Settings, events: seq<Event>, e: Event)
    ensures var (run, next) := (After(settings, events), After(settings, events + [e]));
            if e.NewGeneration? then next.samples == run.samples && next.batches == run.batches
            else
              var outcome := Collect(run.state, settings, e.buffer).1;
              && next.batches == run.batches + (if outcome.BatchReady? then [outcome.frames] else [])
              && (outcome.Accepted? || outcome.BatchReady? ==>
                    && e.buffer.data.Some?
                    && next.samples == run.samples + [Sample(Generations(events + [e]),
                                                             Frame(e.buffer.data.value, e.buffer.pts))])
              && (!outcome.Accepted? && !outcome.BatchReady? ==> next.samples == run.samples)
  {
    assert (events + [e])[..|events|] == events;
    GenerationsAreCounted(settings, events + [e]);
  }
}
