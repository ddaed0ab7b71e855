/** The parser element: one accumulated buffer, a remembered scan offset and a minimum frame size.
    Its base class hands every call all accumulated bytes, calls only when at least
    `minFrameSize` bytes (or, draining, any bytes) are there, removes what a finished frame
    consumed, and stops when a frame consumes nothing or the stream has failed. */
module LineParse {
  import opened Common
  import opened Framing

  datatype FormatError =
    | RecordTooLong
    | UnterminatedTooLong
    | LookaheadExhausted
    | NotRepresentable

  datatype FrameAction =
    | Reject(error: FormatError)
    | Deliver(payload: Bytes, consumed: nat)
    | Drop(consumed: nat)
    | NeedMore

  /** What a frame means, decided by a fresh search of all its bytes. */
  function Decide(data: Bytes, settings: Settings, draining: bool): FrameAction
    requires Accepted(settings)
  {
    match FindFrom(data, settings.delimiter, 0)
    case Some(p) =>
      if p > settings.maxRecordSize then Reject(RecordTooLong)
      else if p == 0 && settings.omitEmpty then Drop(|settings.delimiter|)
      else Deliver(data[..p], p + |settings.delimiter|)
    case None =>
      if draining then
        if data == [] then NeedMore
        else if |data| > settings.maxRecordSize then Reject(UnterminatedTooLong)
        else Deliver(data, |data|)
      else if |data| >= Lookahead(settings) then Reject(LookaheadExhausted)
      else NeedMore
  }

  function Delivered(action: FrameAction): seq<Bytes> {
    if action.Deliver? then [action.payload] else []
  }

  lemma DecideBounds(data: Bytes, settings: Settings, draining: bool)
    requires Accepted(settings)
    ensures var action := Decide(data, settings, draining);
            && (action.Drop? || action.Deliver? ==> 0 < action.consumed <= |data|)
            && (action.NeedMore? && !draining ==> NoneIn(data, settings.delimiter) && |data| < Lookahead(settings))
            && (action.NeedMore? && draining ==> data == [])
  {
  }

  /** Why a frame is rejected: a delimiter is there, but none within the bound; or there is none, and the stream has
      ended beyond the bound or the look-ahead is used up. */
  lemma DecideRejects(data: Bytes, settings: Settings, draining: bool)
    requires Accepted(settings)
    ensures var (d, action) := (settings.delimiter, Decide(data, settings, draining));
            && (action == Reject(RecordTooLong) <==>
                  !NoneIn(data, d) && NoneBefore(data, d, settings.maxRecordSize + 1))
            && (action == Reject(UnterminatedTooLong) <==>
                  NoneIn(data, d) && draining && |data| > settings.maxRecordSize)
            && (action == Reject(LookaheadExhausted) <==>
                  NoneIn(data, d) && !draining && |data| >= settings.maxRecordSize + |d|)
            && action != Reject(NotRepresentable)
  {
    var found := FindFrom(data, settings.delimiter, 0);
    if found.Some? {
      assert OccursAt(data, settings.delimiter, found.value);
    }
  }

  /** A decision on bytes that contain a delimiter concerns their first record. */
  lemma DecideFirst(record: Bytes, rest: Bytes, settings: Settings, draining: bool)
    requires Accepted(settings)
    requires FindFrom(record + settings.delimiter + rest, settings.delimiter, 0) == Some(|record|)
    ensures var data := record + settings.delimiter + rest;
            var action := Decide(data, settings, draining);
            if |record| > settings.maxRecordSize then action.Reject?
            else
              (action.Drop? || action.Deliver?)
              && Delivered(action) == Emit(record, settings)
              && 0 < action.consumed <= |data| && data[action.consumed..] == rest
  {
    assert (record + settings.delimiter + rest)[..|record|] == record;
  }

  /** One non-draining decision is one step of the incremental meaning. */
  lemma DecideAdvances(data: Bytes, before: seq<Bytes>, settings: Settings)
    requires Accepted(settings)
    ensures var action := Decide(data, settings, false);
            if action.Reject? then Advance(data, settings) == Failed([])
            else if action.NeedMore? then Advance(data, settings) == Running([], data)
            else
              0 < action.consumed <= |data|
              && Prepend(before, Advance(data, settings))
                 == Prepend(before + Delivered(action), Advance(data[action.consumed..], settings))
  {
    if FindFrom(data, settings.delimiter, 0).None? {
      LastRecord(data, settings);
    } else {
      var record, rest := FirstRecord(data, settings);
      DecideFirst(record, rest, settings, false);
      PrependPrepend(before, Emit(record, settings), Advance(rest, settings));
    }
  }

  /** One draining decision is one step of the whole-stream meaning. */
  lemma {:induction false} DecideSplits(data: Bytes, before: seq<Bytes>, settings: Settings)
    requires Accepted(settings)
    ensures var whole := SplitStream(data, settings);
            var action := Decide(data, settings, true);
            if action.Reject? then whole == Outcome([], false)
            else if action.NeedMore? then data == [] && whole == Outcome([], true)
            else
              0 < action.consumed <= |data|
              && var tail := SplitStream(data[action.consumed..], settings);
                 before + whole.records == before + Delivered(action) + tail.records && whole.ok == tail.ok
  {
    if FindFrom(data, settings.delimiter, 0).None? {
      LastRecord(data, settings);
      assert data[|data|..] == [];
      LastRecord([], settings);
    } else {
      DecideSplitsFirst(data, before, settings);
    }
  }

  lemma {:induction false} DecideSplitsFirst(data: Bytes, before: seq<Bytes>, settings: Settings)
    requires Accepted(settings) && FindFrom(data, settings.delimiter, 0).Some?
    ensures var whole := SplitStream(data, settings);
            var action := Decide(data, settings, true);
            if action.Reject? then whole == Outcome([], false)
            else
              && !action.NeedMore? && 0 < action.consumed <= |data|
              && var tail := SplitStream(data[action.consumed..], settings);
                 before + whole.records == before + Delivered(action) + tail.records && whole.ok == tail.ok
  {
    var record, rest := FirstRecord(data, settings);
    DecideFirst(record, rest, settings, true);
    if |record| <= settings.maxRecordSize {
      var action := Decide(data, settings, true);
      assert data[action.consumed..] == rest && Delivered(action) == Emit(record, settings);
      Regroup(before, Emit(record, settings), SplitStream(rest, settings).records);
    }
  }

  lemma Regroup(before: seq<Bytes>, head: seq<Bytes>, tail: seq<Bytes>)
    ensures before + (head + tail) == before + head + tail
  {
  }

  class LineParser {
    const settings: Settings
    var scanOffset: nat
    var minFrameSize: nat
    // Base-class state: bytes not yet consumed, records handed downstream, and a failed flow.
    var adapter: Bytes
    var output: seq<Bytes>
    var failure: Option<FormatError>

    /** No delimiter starts before the scan offset, and waiting below the minimum frame size
        never leaves a decidable byte sequence undecided. */
    ghost predicate Valid()
      reads this
    {
      && Accepted(settings)
      && NoneBefore(adapter, settings.delimiter, scanOffset)
      && (scanOffset == 0 || scanOffset + |settings.delimiter| <= |adapter| + 1)
      && 1 <= minFrameSize <= Min(Lookahead(settings), |adapter| + 1)
      && (failure.None? && |adapter| < minFrameSize ==>
            NoneIn(adapter, settings.delimiter) && |adapter| < Lookahead(settings))
    }

    ghost function State(): Progress
      reads this
    {
      if failure.None? then Running(output, adapter) else Failed(output)
    }

    /** Nothing in the buffer can be decided before more bytes or the end of the stream. */
    ghost predicate Settled()
      reads this
    {
      failure.None? ==> NoneIn(adapter, settings.delimiter) && |adapter| < Lookahead(settings)
    }

    constructor (settings: Settings)
      requires Accepted(settings)
      ensures Valid() && this.settings == settings
      ensures State() == Running([], []) && Settled()
    {
      this.settings := settings;
      scanOffset, minFrameSize := 0, 1;
      adapter, output, failure := [], [], None;
    }

    /** Flush-stop and stream-start forget the search position. */
    method ResetScan()
      requires Valid()
      modifies this`scanOffset, this`minFrameSize
      ensures Valid() && scanOffset == 0 && minFrameSize == 1 && State() == old(State())
    {
      scanOffset := 0;
      minFrameSize := 1;
    }

    /** Searching only from the remembered offset decides exactly what a fresh search would. */
    method DecideFrame(draining: bool) returns (action: FrameAction)
      requires Valid()
      modifies this`scanOffset
      ensures action == Decide(adapter, settings, draining)
      ensures NoneBefore(adapter, settings.delimiter, scanOffset)
      ensures scanOffset == 0 || scanOffset + |settings.delimiter| <= |adapter| + 1
    {
      var delimiter := settings.delimiter;
      var search := FindDelimiter(adapter, delimiter, scanOffset);
      FindIsLeftmost(adapter, delimiter, scanOffset);
      if search.Some? {
        var recordLen := search.value;
        if recordLen > settings.maxRecordSize {
          return Reject(RecordTooLong);
        }
        var consumed := recordLen + |delimiter|;
        if consumed > U32_MAX {
          return Reject(NotRepresentable);
        }
        if recordLen == 0 && settings.omitEmpty {
          return Drop(consumed);
        }
        return Deliver(adapter[..recordLen], consumed);
      }
      scanOffset := Max(|adapter| - Max(|delimiter| - 1, 0), 0);
      if draining {
        if adapter == [] {
          return NeedMore;
        }
        if |adapter| > settings.maxRecordSize {
          return Reject(UnterminatedTooLong);
        }
        if |adapter| > U32_MAX {
          return Reject(NotRepresentable);
        }
        return Deliver(adapter, |adapter|);
      }
      if |adapter| >= Lookahead(settings) {
        return Reject(LookaheadExhausted);
      }
      return NeedMore;
    }

    /** One call: finish or drop a frame and reset the search, or raise the minimum frame size. */
    method HandleFrame(draining: bool) returns (consumed: nat)
      requires Valid() && failure.None?
      modifies this
      ensures Valid()
      ensures var action := Decide(old(adapter), settings, draining);
              var finishes := action.Drop? || action.Deliver?;
              && (failure == if action.Reject? then Some(action.error) else None)
              && output == old(output) + Delivered(action)
              && consumed == (if finishes then action.consumed else 0)
              && consumed <= |old(adapter)| && adapter == old(adapter)[consumed..]
    {
      ghost var data := adapter;
      DecideBounds(data, settings, draining);
      var action := DecideFrame(draining);
      consumed := 0;
      if action.Reject? {
        failure := Some(action.error);
      } else if action.NeedMore? {
        if !draining {
          minFrameSize := Min(|adapter| + 1, Lookahead(settings));
        }
      } else {
        consumed := action.consumed;
        FinishFrame(consumed);
        output := output + Delivered(action);
      }
    }

    /** The search restarts at the byte after a finished or dropped frame. */
    method FinishFrame(consumed: nat)
      requires Accepted(settings) && consumed <= |adapter|
      modifies this`scanOffset, this`minFrameSize, this`adapter
      ensures Valid() && adapter == old(adapter)[consumed..]
    {
      scanOffset, minFrameSize := 0, 1;
      adapter := adapter[consumed..];
      assert NoneBefore(adapter, settings.delimiter, 0);
    }

    /** The base class's loop for one upstream buffer. */
    method Chain(chunk: Bytes)
      requires Valid() && Settled()
      modifies this
      ensures Valid() && Settled()
      ensures State() == Feed(old(State()), chunk, settings)
    {
      if failure.Some? {
        return;
      }
      ghost var target := Feed(State(), chunk, settings);
      if scanOffset > 0 {
        ScanOffsetSurvivesMore(adapter, chunk, settings.delimiter, scanOffset);
      }
      if chunk == [] {
        assert adapter + chunk == adapter;
      }
      adapter := adapter + chunk;
      var blocked := false;
      while failure.None? && !blocked && |adapter| >= minFrameSize
        invariant Valid()
        invariant failure.None? ==> Prepend(output, Advance(adapter, settings)) == target
        invariant failure.Some? ==> Failed(output) == target
        invariant blocked ==> Settled()
        decreases |adapter|, failure.None?, !blocked
      {
        ghost var before := output;
        DecideAdvances(adapter, before, settings);
        var consumed := HandleFrame(false);
        blocked := consumed == 0;
      }
      if failure.None? {
        assert Advance(adapter, settings) == Running([], adapter);
        assert output + [] == output;
      }
    }

    /** The base class's loop at end of stream. */
    method Drain()
      requires Valid() && Settled()
      modifies this
      ensures Outcome(output, failure.None?) == Finish(old(State()), settings)
    {
      if failure.Some? {
        return;
      }
      ghost var before, data := output, adapter;
      while failure.None? && adapter != []
        invariant Valid()
        invariant failure.None? ==>
                    var w, v := SplitStream(data, settings), SplitStream(adapter, settings);
                    before + w.records == output + v.records && w.ok == v.ok
        invariant failure.Some? ==> Outcome(output, false) == Outcome(before + SplitStream(data, settings).records,
                                                                      SplitStream(data, settings).ok)
        decreases |adapter|, failure.None?
      {
        DecideSplits(adapter, output, settings);
        assert output + [] == output;
        var _ := HandleFrame(true);
      }
      DecideSplits([], [], settings);
      assert before + [] == before && output + [] == output;
    }
  }

  /** A whole run: any chunks, then end of stream. */
  method ParseStream(settings: Settings, chunks: seq<Bytes>) returns (r: Result<Outcome, StartError>)
    ensures CheckedLookahead(settings).Err? ==> r == Err(CheckedLookahead(settings).error)
    ensures Accepted(settings) ==> r == Ok(SplitStream(Flatten(chunks), settings))
    ensures Accepted(settings) ==> r.Ok? && Means(Flatten(chunks), settings, r.value)
    ensures Accepted(settings) && settings.omitEmpty ==> [] !in r.value.records
  {
    var check := CheckedLookahead(settings);
    if check.Err? {
      return Err(check.error);
    }
    var parser := new LineParser(settings);
    for i := 0 to |chunks|
      invariant fresh(parser) && parser.settings == settings
      invariant parser.Valid() && parser.Settled()
      invariant FeedAll(parser.State(), chunks[i..], settings) == FeedAll(Running([], []), chunks, settings)
    {
      parser.Chain(chunks[i]);
      assert chunks[i..][1..] == chunks[i + 1..];
    }
    assert chunks[|chunks|..] == [];
    FragmentationIndependence(chunks, settings);
    SplitMeans(Flatten(chunks), settings);
    parser.Drain();
    r := Ok(Outcome(parser.output, parser.failure.None?));
  }
}
