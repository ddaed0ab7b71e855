/** Delimiter framing: what the bounded parser accepts, as one pass over a whole stream,
    and the incremental form of the same pass that survives arbitrary fragmentation. */
module Framing {
  import opened Common

  datatype Settings = Settings(delimiter: Bytes, maxRecordSize: nat, omitEmpty: bool)

  datatype StartError = EmptyDelimiter | DelimiterTooLarge | LookaheadOverflow

  /** The parser's start-time check; the result is the look-ahead in bytes. */
  function CheckedLookahead(settings: Settings): (r: Result<nat, StartError>)
    ensures r.Ok? ==> r.value == settings.maxRecordSize + |settings.delimiter| <= U32_MAX
    ensures r == Err(EmptyDelimiter) <==> settings.delimiter == []
    ensures r == Err(DelimiterTooLarge) <==> |settings.delimiter| > U32_MAX
    ensures r == Err(LookaheadOverflow) <==>
              0 < |settings.delimiter| <= U32_MAX < settings.maxRecordSize + |settings.delimiter|
  {
    if settings.delimiter == [] then Err(EmptyDelimiter)
    else if |settings.delimiter| > U32_MAX then Err(DelimiterTooLarge)
    else if settings.maxRecordSize + |settings.delimiter| > U32_MAX then Err(LookaheadOverflow)
    else Ok(settings.maxRecordSize + |settings.delimiter|)
  }

  predicate Accepted(settings: Settings) {
    CheckedLookahead(settings).Ok?
  }

  function Lookahead(settings: Settings): nat {
    settings.maxRecordSize + |settings.delimiter|
  }

  // ---------------------------------------------------------------- substring search

  predicate OccursAt(data: Bytes, delimiter: Bytes, at: int) {
    0 <= at && at + |delimiter| <= |data| && data[at..at + |delimiter|] == delimiter
  }

  ghost predicate NoneBefore(data: Bytes, delimiter: Bytes, bound: int) {
    forall at :: at < bound ==> !OccursAt(data, delimiter, at)
  }

  ghost predicate NoneIn(data: Bytes, delimiter: Bytes) {
    forall at :: !OccursAt(data, delimiter, at)
  }

  function FindFrom(data: Bytes, delimiter: Bytes, start: nat): (r: Option<nat>)
    ensures r.Some? ==> start <= r.value && OccursAt(data, delimiter, r.value)
    ensures r.Some? ==> forall at :: start <= at < r.value ==> !OccursAt(data, delimiter, at)
    ensures r.None? ==> forall at :: start <= at ==> !OccursAt(data, delimiter, at)
    decreases |data| - start
  {
    if start + |delimiter| > |data| then None
    else if data[start..start + |delimiter|] == delimiter then Some(start)
    else FindFrom(data, delimiter, start + 1)
  }

  function FindDelimiter(data: Bytes, delimiter: Bytes, startingOffset: nat): (r: Option<nat>)
    ensures NoneBefore(data, delimiter, startingOffset) && delimiter != [] ==>
              (r.Some? ==> OccursAt(data, delimiter, r.value) && NoneBefore(data, delimiter, r.value))
              && (r.None? ==> NoneIn(data, delimiter))
  {
    FindFrom(data, delimiter, Min(startingOffset, |data|))
  }

  /** The leftmost delimiter is unique, whatever offset the search started from. */
  lemma FindIsLeftmost(data: Bytes, delimiter: Bytes, startingOffset: nat)
    requires delimiter != [] && NoneBefore(data, delimiter, startingOffset)
    ensures FindDelimiter(data, delimiter, startingOffset) == FindFrom(data, delimiter, 0)
  {
    var a, b := FindDelimiter(data, delimiter, startingOffset), FindFrom(data, delimiter, 0);
    if a.Some? && b.Some? {
      assert OccursAt(data, delimiter, a.value) && OccursAt(data, delimiter, b.value);
    }
  }

  /** An occurrence that lies inside `data` is untouched by bytes that arrive later. */
  lemma OccursInPrefix(data: Bytes, more: Bytes, delimiter: Bytes, at: int)
    requires at + |delimiter| <= |data|
    ensures OccursAt(data + more, delimiter, at) <==> OccursAt(data, delimiter, at)
  {
    if 0 <= at {
      assert (data + more)[at..at + |delimiter|] == data[at..at + |delimiter|];
    }
  }

  lemma LeftmostSurvivesMore(data: Bytes, more: Bytes, delimiter: Bytes)
    requires delimiter != [] && FindFrom(data, delimiter, 0).Some?
    ensures FindFrom(data + more, delimiter, 0) == FindFrom(data, delimiter, 0)
  {
    var p := FindFrom(data, delimiter, 0).value;
    forall at | 0 <= at <= p
      ensures OccursAt(data + more, delimiter, at) <==> OccursAt(data, delimiter, at)
    {
      OccursInPrefix(data, more, delimiter, at);
    }
    FindUnique(data + more, delimiter, p);
  }

  lemma FindUnique(data: Bytes, delimiter: Bytes, at: nat)
    requires OccursAt(data, delimiter, at) && forall k :: 0 <= k < at ==> !OccursAt(data, delimiter, k)
    ensures FindFrom(data, delimiter, 0) == Some(at)
  {
    var r := FindFrom(data, delimiter, 0);
    if r.Some? {
      assert OccursAt(data, delimiter, r.value);
    }
  }

  /** The remembered scan offset stays sound as bytes are appended. */
  lemma ScanOffsetSurvivesMore(data: Bytes, more: Bytes, delimiter: Bytes, offset: nat)
    requires delimiter != [] && NoneBefore(data, delimiter, offset) && offset + |delimiter| <= |data| + 1
    ensures NoneBefore(data + more, delimiter, offset)
  {
    forall at | at < offset ensures !OccursAt(data + more, delimiter, at) {
      OccursInPrefix(data, more, delimiter, at);
    }
  }

  // ---------------------------------------------------------------- reference meaning

  /** What a whole stream means: the records, and whether the stream was well formed. */
  datatype Outcome = Outcome(records: seq<Bytes>, ok: bool)

  function Emit(record: Bytes, settings: Settings): seq<Bytes> {
    if record == [] && settings.omitEmpty then [] else [record]
  }

  /** One leftmost split of the complete stream under the record bound. */
  function SplitStream(stream: Bytes, settings: Settings): Outcome
    requires settings.delimiter != []
    decreases |stream|
  {
    match FindFrom(stream, settings.delimiter, 0)
    case Some(p) =>
      if p > settings.maxRecordSize then Outcome([], false)
      else
        var tail := SplitStream(stream[p + |settings.delimiter|..], settings);
        Outcome(Emit(stream[..p], settings) + tail.records, tail.ok)
    case None =>
      if stream == [] then Outcome([], true)
      else if |stream| > settings.maxRecordSize then Outcome([], false)
      else Outcome([stream], true)
  }

  // ---------------------------------------------------------------- incremental meaning

  datatype Progress =
    | Running(records: seq<Bytes>, rest: Bytes)
    | Failed(records: seq<Bytes>)

  function Prepend(records: seq<Bytes>, p: Progress): Progress {
    match p
    case Running(more, rest) => Running(records + more, rest)
    case Failed(more) => Failed(records + more)
  }

  /** Everything that can be decided about a stream that has not ended yet. */
  function Advance(data: Bytes, settings: Settings): (p: Progress)
    requires settings.delimiter != []
    ensures p.Running? ==> NoneIn(p.rest, settings.delimiter) && |p.rest| < Lookahead(settings)
    decreases |data|
  {
    var found := FindFrom(data, settings.delimiter, 0);
    if found.None? then (if |data| >= Lookahead(settings) then Failed([]) else Running([], data))
    else if found.value > settings.maxRecordSize then Failed([])
    else Prepend(Emit(data[..found.value], settings), Advance(data[found.value + |settings.delimiter|..], settings))
  }

  /** A stream that contains a delimiter, seen from its first record. */
  lemma FirstRecord(stream: Bytes, settings: Settings) returns (record: Bytes, rest: Bytes)
    requires settings.delimiter != [] && FindFrom(stream, settings.delimiter, 0).Some?
    ensures stream == record + settings.delimiter + rest && NoneIn(record, settings.delimiter)
    ensures |record| == FindFrom(stream, settings.delimiter, 0).value
    ensures |record| <= settings.maxRecordSize ==>
              && SplitStream(stream, settings)
                 == Outcome(Emit(record, settings) + SplitStream(rest, settings).records,
                            SplitStream(rest, settings).ok)
              && Advance(stream, settings) == Prepend(Emit(record, settings), Advance(rest, settings))
    ensures |record| > settings.maxRecordSize ==>
              SplitStream(stream, settings) == Outcome([], false) && Advance(stream, settings) == Failed([])
  {
    var d := settings.delimiter;
    var p := FindFrom(stream, d, 0).value;
    record, rest := stream[..p], stream[p + |d|..];
    assert stream == record + stream[p..];
    forall at ensures !OccursAt(record, d, at) {
      if 0 <= at && at + |d| <= p {
        OccursInPrefix(record, stream[p..], d, at);
      }
    }
  }

  lemma LastRecord(stream: Bytes, settings: Settings)
    requires settings.delimiter != [] && FindFrom(stream, settings.delimiter, 0).None?
    ensures NoneIn(stream, settings.delimiter)
    ensures SplitStream(stream, settings)
            == if stream == [] then Outcome([], true)
               else if |stream| > settings.maxRecordSize then Outcome([], false) else Outcome([stream], true)
    ensures Advance(stream, settings)
            == if |stream| >= Lookahead(settings) then Failed([]) else Running([], stream)
  {
  }

  function Feed(p: Progress, chunk: Bytes, settings: Settings): Progress
    requires settings.delimiter != []
  {
    match p
    case Running(records, rest) => Prepend(records, Advance(rest + chunk, settings))
    case Failed(records) => p
  }

  function FeedAll(p: Progress, chunks: seq<Bytes>, settings: Settings): Progress
    requires settings.delimiter != []
    decreases |chunks|
  {
    if chunks == [] then p else FeedAll(Feed(p, chunks[0], settings), chunks[1..], settings)
  }

  function Finish(p: Progress, settings: Settings): Outcome {
    match p
    case Failed(records) => Outcome(records, false)
    case Running(records, rest) =>
      if rest == [] then Outcome(records, true)
      else if |rest| > settings.maxRecordSize then Outcome(records, false)
      else Outcome(records + [rest], true)
  }

  function Flatten(chunks: seq<Bytes>): Bytes {
    if chunks == [] then [] else chunks[0] + Flatten(chunks[1..])
  }

  lemma PrependPrepend(a: seq<Bytes>, b: seq<Bytes>, p: Progress)
    ensures Prepend(a, Prepend(b, p)) == Prepend(a + b, p)
  {
    assert (a + b) + p.records == a + (b + p.records);
  }

  /** The look-ahead error is final: no continuation contains a legal record. */
  lemma {:induction false} OverlongStaysOverlong(data: Bytes, more: Bytes, settings: Settings)
    requires settings.delimiter != [] && NoneIn(data, settings.delimiter) && |data| >= Lookahead(settings)
    ensures Advance(data + more, settings) == Failed([])
    ensures SplitStream(data + more, settings) == Outcome([], false)
  {
    var r := FindFrom(data + more, settings.delimiter, 0);
    if r.Some? && r.value <= settings.maxRecordSize {
      OccursInPrefix(data, more, settings.delimiter, r.value);
      assert false;
    }
  }

  /** Some continuation of `data` opens with a record within the bound. */
  ghost predicate Recoverable(data: Bytes, settings: Settings) {
    exists more: Bytes, p: nat ::
      p <= settings.maxRecordSize && FindFrom(data + more, settings.delimiter, 0) == Some(p)
  }

  /** Without a delimiter so far, a legal first record is still possible exactly when the bound is not
      yet passed or the buffered tail is a delimiter under way that started within the bound. */
  lemma RecoverableIff(data: Bytes, settings: Settings)
    requires settings.delimiter != [] && NoneIn(data, settings.delimiter)
    ensures Recoverable(data, settings) <==>
              |data| <= settings.maxRecordSize
              || exists p: nat :: PartialAt(data, settings.delimiter, p) && p <= settings.maxRecordSize
  {
    if Recoverable(data, settings) && |data| > settings.maxRecordSize {
      var more: Bytes, p: nat :|
        p <= settings.maxRecordSize && FindFrom(data + more, settings.delimiter, 0) == Some(p);
      StraddlesEnd(data, more, settings.delimiter, p);
    }
    if |data| <= settings.maxRecordSize {
      assert data[|data|..] == settings.delimiter[..0];
      CompletePartial(data, settings.delimiter, |data|);
      WitnessRecoverable(data, settings.delimiter[0..], |data|, settings);
    } else if p: nat :| PartialAt(data, settings.delimiter, p) && p <= settings.maxRecordSize {
      CompletePartial(data, settings.delimiter, p);
      WitnessRecoverable(data, settings.delimiter[|data| - p..], p, settings);
    }
  }

  /** A delimiter that needs later bytes is already under way at the end of the buffer. */
  lemma StraddlesEnd(data: Bytes, more: Bytes, delimiter: Bytes, at: nat)
    requires NoneIn(data, delimiter) && OccursAt(data + more, delimiter, at) && at < |data|
    ensures PartialAt(data, delimiter, at)
  {
    if at + |delimiter| <= |data| {
      OccursInPrefix(data, more, delimiter, at);
    } else {
      assert data[at..] == (data + more)[at..at + |delimiter|][..|data| - at];
    }
  }

  lemma CompletePartial(data: Bytes, delimiter: Bytes, at: nat)
    requires PartialAt(data, delimiter, at)
    ensures OccursAt(data + delimiter[|data| - at..], delimiter, at)
  {
    var k := |data| - at;
    assert (data + delimiter[k..])[at..at + |delimiter|] == data[at..] + delimiter[k..] == delimiter;
  }

  /** `data` ends in a proper, possibly empty, prefix of the delimiter that starts at `at`. */
  predicate PartialAt(data: Bytes, delimiter: Bytes, at: nat) {
    at <= |data| < at + |delimiter| && data[at..] == delimiter[..|data| - at]
  }

  lemma WitnessRecoverable(data: Bytes, more: Bytes, at: nat, settings: Settings)
    requires at <= settings.maxRecordSize && OccursAt(data + more, settings.delimiter, at)
    ensures Recoverable(data, settings)
  {
    var r := FindFrom(data + more, settings.delimiter, 0);
    assert r.Some? && r.value <= at;
  }

  lemma PrependNothing(p: Progress)
    ensures Prepend([], p) == p
  {
    assert [] + p.records == p.records;
  }

  lemma {:induction false} FeedPrepend(records: seq<Bytes>, p: Progress, chunk: Bytes, settings: Settings)
    requires settings.delimiter != []
    ensures Feed(Prepend(records, p), chunk, settings) == Prepend(records, Feed(p, chunk, settings))
  {
    if p.Running? {
      PrependPrepend(records, p.records, Advance(p.rest + chunk, settings));
    }
  }

  lemma {:induction false} AdvanceUndecided(data: Bytes, more: Bytes, settings: Settings)
    requires settings.delimiter != [] && FindFrom(data, settings.delimiter, 0).None?
    ensures Advance(data + more, settings) == Feed(Advance(data, settings), more, settings)
  {
    if |data| >= Lookahead(settings) {
      OverlongStaysOverlong(data, more, settings);
    } else {
      PrependNothing(Advance(data + more, settings));
    }
  }

  /** Splitting a stream in two anywhere changes nothing. */
  lemma {:induction false} AdvanceAppend(data: Bytes, more: Bytes, settings: Settings)
    requires settings.delimiter != []
    ensures Advance(data + more, settings) == Feed(Advance(data, settings), more, settings)
    decreases |data|
  {
    if FindFrom(data, settings.delimiter, 0).None? {
      AdvanceUndecided(data, more, settings);
    } else {
      LeftmostSurvivesMore(data, more, settings.delimiter);
      var record, rest := FirstRecord(data, settings);
      var sameRecord, longerRest := FirstRecord(data + more, settings);
      SameSplit(record, settings.delimiter, rest, more, sameRecord, longerRest);
      if |record| <= settings.maxRecordSize {
        AdvanceAppend(rest, more, settings);
        FeedPrepend(Emit(record, settings), Advance(rest, settings), more, settings);
      }
    }
  }

  lemma SameSplit(a: Bytes, d: Bytes, b: Bytes, more: Bytes, x: Bytes, y: Bytes)
    requires a + d + b + more == x + d + y && |a| == |x|
    ensures a == x && y == b + more
  {
    assert a == (a + d + b + more)[..|a|] && x == (x + d + y)[..|a|];
    assert b + more == (a + d + b + more)[|a| + |d|..] && y == (x + d + y)[|a| + |d|..];
  }

  lemma FlattenSplit(data: Bytes, chunks: seq<Bytes>)
    requires chunks != []
    ensures data + Flatten(chunks) == data + chunks[0] + Flatten(chunks[1..])
  {
  }

  lemma {:induction false} FeedAllIsAdvance(data: Bytes, chunks: seq<Bytes>, settings: Settings)
    requires settings.delimiter != []
    ensures FeedAll(Advance(data, settings), chunks, settings) == Advance(data + Flatten(chunks), settings)
    decreases |chunks|
  {
    if chunks == [] {
      assert data + [] == data;
    } else {
      var p := Advance(data, settings);
      calc {
        FeedAll(p, chunks, settings);
        FeedAll(Feed(p, chunks[0], settings), chunks[1..], settings);
        { AdvanceAppend(data, chunks[0], settings); }
        FeedAll(Advance(data + chunks[0], settings), chunks[1..], settings);
        { FeedAllIsAdvance(data + chunks[0], chunks[1..], settings); }
        Advance(data + chunks[0] + Flatten(chunks[1..]), settings);
        { FlattenSplit(data, chunks); }
        Advance(data + Flatten(chunks), settings);
      }
    }
  }

  /** Records decided earlier stay in front of the final outcome. */
  lemma FinishPrepend(head: seq<Bytes>, p: Progress, settings: Settings)
    ensures Finish(Prepend(head, p), settings)
            == Outcome(head + Finish(p, settings).records, Finish(p, settings).ok)
  {
    if p.Running? {
      assert head + (p.records + [p.rest]) == head + p.records + [p.rest];
    }
  }

  lemma {:induction false} FinishAdvance(stream: Bytes, settings: Settings)
    requires settings.delimiter != []
    ensures Finish(Advance(stream, settings), settings) == SplitStream(stream, settings)
    decreases |stream|
  {
    if FindFrom(stream, settings.delimiter, 0).None? {
      LastRecord(stream, settings);
      assert [] + [stream] == [stream];
    } else {
      var record, rest := FirstRecord(stream, settings);
      FinishAdvance(rest, settings);
      FinishPrepend(Emit(record, settings), Advance(rest, settings), settings);
    }
  }

  /** Fragmentation independence: any two ways of cutting a stream into chunks give the records
      and the verdict of one leftmost split of the whole stream. */
  lemma FragmentationIndependence(chunks: seq<Bytes>, settings: Settings)
    requires settings.delimiter != []
    ensures Finish(FeedAll(Running([], []), chunks, settings), settings)
            == SplitStream(Flatten(chunks), settings)
  {
    assert FindFrom([], settings.delimiter, 0).None?;
    assert Advance([], settings) == Running([], []);
    FeedAllIsAdvance([], chunks, settings);
    assert [] + Flatten(chunks) == Flatten(chunks);
    FinishAdvance(Flatten(chunks), settings);
  }

  // ---------------------------------------------------------------- what the records are

  /** The stream cut at every leftmost delimiter, whatever the bound; a stream has one more piece than delimiters. */
  function Pieces(stream: Bytes, delimiter: Bytes): (pieces: seq<Bytes>)
    requires delimiter != []
    ensures pieces != []
    decreases |stream|
  {
    var found := FindFrom(stream, delimiter, 0);
    if found.None? then [stream]
    else [stream[..found.value]] + Pieces(stream[found.value + |delimiter|..], delimiter)
  }

  function Join(pieces: seq<Bytes>, delimiter: Bytes): Bytes
    requires pieces != []
  {
    if |pieces| == 1 then pieces[0] else pieces[0] + delimiter + Join(pieces[1..], delimiter)
  }

  lemma PiecesStep(stream: Bytes, record: Bytes, rest: Bytes, delimiter: Bytes)
    requires delimiter != [] && stream == record + delimiter + rest
    requires FindFrom(stream, delimiter, 0) == Some(|record|)
    ensures Pieces(stream, delimiter) == [record] + Pieces(rest, delimiter)
  {
    assert stream[..|record|] == record && stream[|record| + |delimiter|..] == rest;
  }

  lemma JoinStep(record: Bytes, pieces: seq<Bytes>, delimiter: Bytes)
    requires pieces != []
    ensures Join([record] + pieces, delimiter) == record + delimiter + Join(pieces, delimiter)
  {
    assert ([record] + pieces)[1..] == pieces;
  }

  /** The pieces, joined by delimiters, are the stream, and none of them contains one. */
  lemma {:induction false} PiecesJoin(stream: Bytes, settings: Settings)
    requires settings.delimiter != []
    ensures var pieces := Pieces(stream, settings.delimiter);
            && Join(pieces, settings.delimiter) == stream
            && forall i :: 0 <= i < |pieces| ==> NoneIn(pieces[i], settings.delimiter)
    decreases |stream|
  {
    if FindFrom(stream, settings.delimiter, 0).Some? {
      var record, rest := FirstRecord(stream, settings);
      PiecesStep(stream, record, rest, settings.delimiter);
      PiecesJoin(rest, settings);
      JoinStep(record, Pieces(rest, settings.delimiter), settings.delimiter);
    }
  }

  /** The records of a stream: its pieces, but nothing after a last delimiter. */
  function Whole(pieces: seq<Bytes>): seq<Bytes>
    requires pieces != []
  {
    if pieces[|pieces| - 1] == [] then pieces[..|pieces| - 1] else pieces
  }

  predicate AllWithin(records: seq<Bytes>, bound: nat) {
    forall i :: 0 <= i < |records| ==> |records[i]| <= bound
  }

  /** Everything before the first record beyond the bound. */
  function BeforeOverlong(records: seq<Bytes>, bound: nat): (r: seq<Bytes>)
    ensures r <= records && AllWithin(r, bound) && (r == records <==> AllWithin(records, bound))
    ensures |r| < |records| ==> |records[|r|]| > bound
  {
    if records == [] || |records[0]| > bound then []
    else
      var rest := BeforeOverlong(records[1..], bound);
      assert records == [records[0]] + records[1..];
      [records[0]] + rest
  }

  function WithoutEmpty(records: seq<Bytes>): (r: seq<Bytes>)
    ensures forall i :: 0 <= i < |r| ==> r[i] != []
  {
    if records == [] then []
    else (if records[0] == [] then [] else [records[0]]) + WithoutEmpty(records[1..])
  }

  /** What records amount to: all of them up to the first one beyond the bound, without the empty ones if those are to
      be omitted; and they are well formed when none is beyond the bound. */
  ghost predicate AmountTo(records: seq<Bytes>, settings: Settings, o: Outcome) {
    var legal := BeforeOverlong(records, settings.maxRecordSize);
    && (o.ok <==> AllWithin(records, settings.maxRecordSize))
    && o.records == if settings.omitEmpty then WithoutEmpty(legal) else legal
  }

  /** What a stream means, without its parser. */
  ghost predicate Means(stream: Bytes, settings: Settings, o: Outcome)
    requires settings.delimiter != []
  {
    AmountTo(Whole(Pieces(stream, settings.delimiter)), settings, o)
  }

  lemma WholeStep(record: Bytes, pieces: seq<Bytes>)
    requires pieces != []
    ensures Whole([record] + pieces) == [record] + Whole(pieces)
  {
  }

  lemma {:induction false} SplitMeans(stream: Bytes, settings: Settings)
    requires settings.delimiter != []
    ensures Means(stream, settings, SplitStream(stream, settings))
    decreases |stream|
  {
    var d := settings.delimiter;
    if FindFrom(stream, d, 0).Some? {
      var record, rest := FirstRecord(stream, settings);
      PiecesStep(stream, record, rest, d);
      WholeStep(record, Pieces(rest, d));
      SplitMeans(rest, settings);
      AmountStep(record, Whole(Pieces(rest, d)), settings, SplitStream(rest, settings));
    } else {
      MeansLast(stream, settings);
    }
  }

  lemma AmountStep(record: Bytes, records: seq<Bytes>, settings: Settings, o: Outcome)
    requires AmountTo(records, settings, o)
    ensures AmountTo([record] + records, settings,
                     if |record| > settings.maxRecordSize then Outcome([], false)
                     else Outcome(Emit(record, settings) + o.records, o.ok))
  {
    MeansStep(record, records, settings);
  }

  lemma MeansStep(record: Bytes, records: seq<Bytes>, settings: Settings)
    ensures var all := [record] + records;
            && (AllWithin(all, settings.maxRecordSize)
                <==> |record| <= settings.maxRecordSize && AllWithin(records, settings.maxRecordSize))
            && BeforeOverlong(all, settings.maxRecordSize)
               == (if |record| > settings.maxRecordSize then []
                   else [record] + BeforeOverlong(records, settings.maxRecordSize))
            && WithoutEmpty(all) == (if record == [] then [] else [record]) + WithoutEmpty(records)
    ensures var legal := [record] + BeforeOverlong(records, settings.maxRecordSize);
            WithoutEmpty(legal)
            == (if record == [] then [] else [record]) + WithoutEmpty(BeforeOverlong(records, settings.maxRecordSize))
  {
    var (all, tail) := ([record] + records, BeforeOverlong(records, settings.maxRecordSize));
    assert all[1..] == records && ([record] + tail)[1..] == tail;
    assert AllWithin(all, settings.maxRecordSize) ==> AllWithin(all[1..], settings.maxRecordSize);
    assert all[0] == record;
    forall i | 0 <= i < |records| ensures records[i] == all[i + 1] {
    }
  }

  lemma MeansLast(stream: Bytes, settings: Settings)
    requires settings.delimiter != [] && FindFrom(stream, settings.delimiter, 0).None?
    ensures Means(stream, settings, SplitStream(stream, settings))
  {
    LastRecord(stream, settings);
    if stream != [] {
      MeansStep(stream, [], settings);
      assert [stream] + [] == [stream];
    }
  }

  /** Omitting empty records changes nothing else. */
  lemma OmitEmptyFilters(stream: Bytes, settings: Settings)
    requires settings.delimiter != [] && settings.omitEmpty
    ensures var all := SplitStream(stream, settings.(omitEmpty := false));
            && SplitStream(stream, settings) == Outcome(WithoutEmpty(all.records), all.ok)
            && [] !in SplitStream(stream, settings).records
  {
    SplitMeans(stream, settings);
    SplitMeans(stream, settings.(omitEmpty := false));
  }
}
