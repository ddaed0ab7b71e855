/** The encoder element and the round trips between it and the parser. */
module LineEnc {
  import opened Common
  import opened Framing

  datatype EncodeError = EmptyDelimiter | SizeOverflow | OutputTooSmall

  predicate EndsWith(data: Bytes, suffix: Bytes) {
    |suffix| <= |data| && data[|data| - |suffix|..] == suffix
  }

  /** The bytes one record becomes: terminated, but never terminated twice. */
  function Encode(record: Bytes, delimiter: Bytes): (r: Bytes)
    ensures EndsWith(r, delimiter) && record <= r
    ensures r == record || r == record + delimiter
    ensures r == record <==> EndsWith(record, delimiter)
  {
    if EndsWith(record, delimiter) then record else record + delimiter
  }

  /** Encoding twice is encoding once. */
  lemma EncodeIsIdempotent(record: Bytes, delimiter: Bytes)
    ensures Encode(Encode(record, delimiter), delimiter) == Encode(record, delimiter)
  {
  }

  /** The output size the base class allocates for an input of `size` bytes. */
  function TransformSize(size: nat, delimiter: Bytes): Option<nat> {
    if size + |delimiter| <= USIZE_MAX then Some(size + |delimiter|) else None
  }

  /** Writes the encoded record to the front of the allocated buffer and reports its final size. */
  method Transform(input: Bytes, delimiter: Bytes, output: array<byte>) returns (r: Result<nat, EncodeError>)
    modifies output
    ensures r.Ok? <==> && delimiter != [] && |Encode(input, delimiter)| <= output.Length
                       && (EndsWith(input, delimiter) || |input| + |delimiter| <= USIZE_MAX)
    ensures r.Ok? ==> r.value <= output.Length && output[..r.value] == Encode(input, delimiter)
                      && output[r.value..] == old(output[r.value..])
    ensures delimiter == [] ==> r == Err(EncodeError.EmptyDelimiter) && output[..] == old(output[..])
    ensures r == Err(SizeOverflow) <==>
              delimiter != [] && !EndsWith(input, delimiter) && |input| + |delimiter| > USIZE_MAX
    ensures r == Err(EncodeError.EmptyDelimiter) ==> delimiter == []
  {
    if delimiter == [] {
      return Err(EncodeError.EmptyDelimiter);
    }
    var appendDelimiter := !EndsWith(input, delimiter);
    if appendDelimiter && |input| + |delimiter| > USIZE_MAX {
      return Err(SizeOverflow);
    }
    var outputSize := if appendDelimiter then |input| + |delimiter| else |input|;
    if |input| > output.Length {
      return Err(OutputTooSmall);
    }
    forall i | 0 <= i < |input| {
      output[i] := input[i];
    }
    if appendDelimiter {
      if outputSize > output.Length {
        return Err(OutputTooSmall);
      }
      forall i | |input| <= i < outputSize {
        output[i] := delimiter[i - |input|];
      }
    }
    return Ok(outputSize);
  }

  /** A size is announced whenever a terminated record would have one; a buffer of that size is always large enough,
      and exactly filled unless the record came terminated. */
  lemma TransformSizeSuffices(input: Bytes, delimiter: Bytes)
    ensures TransformSize(|input|, delimiter).Some? <==> |input + delimiter| <= USIZE_MAX
    ensures TransformSize(|input|, delimiter).Some? ==>
              && |Encode(input, delimiter)| <= TransformSize(|input|, delimiter).value
              && (!EndsWith(input, delimiter) ==>
                    |Encode(input, delimiter)| == TransformSize(|input|, delimiter).value)
  {
  }

  function EncodeAll(records: seq<Bytes>, delimiter: Bytes): Bytes {
    if records == [] then [] else Encode(records[0], delimiter) + EncodeAll(records[1..], delimiter)
  }

  lemma EncodeAllStep(record: Bytes, records: seq<Bytes>, delimiter: Bytes)
    ensures EncodeAll([record] + records, delimiter) == Encode(record, delimiter) + EncodeAll(records, delimiter)
  {
    assert ([record] + records)[1..] == records;
  }

  // ---------------------------------------------------------------- parse, then encode

  lemma NoDelimiterInside(record: Bytes, delimiter: Bytes)
    requires delimiter != [] && NoneIn(record, delimiter)
    ensures !EndsWith(record, delimiter) && Encode(record, delimiter) == record + delimiter
  {
    if EndsWith(record, delimiter) {
      assert OccursAt(record, delimiter, |record| - |delimiter|);
      assert false;
    }
  }

  /** One terminated record at the front of a stream. */
  lemma SplitStep(record: Bytes, tail: Bytes, settings: Settings)
    requires settings.delimiter != [] && |record| <= settings.maxRecordSize
    requires FindFrom(record + settings.delimiter + tail, settings.delimiter, 0) == Some(|record|)
    ensures SplitStream(record + settings.delimiter + tail, settings)
            == Outcome(Emit(record, settings) + SplitStream(tail, settings).records, SplitStream(tail, settings).ok)
    ensures Advance(record + settings.delimiter + tail, settings)
            == Prepend(Emit(record, settings), Advance(tail, settings))
  {
    var stream := record + settings.delimiter + tail;
    assert stream[..|record|] == record;
    assert stream[|record| + |settings.delimiter|..] == tail;
  }

  lemma ReencodeLast(stream: Bytes, settings: Settings)
    requires settings.delimiter != [] && SplitStream(stream, settings).ok
    requires FindFrom(stream, settings.delimiter, 0).None?
    ensures Advance(stream, settings) == Running([], stream)
    ensures EncodeAll(SplitStream(stream, settings).records, settings.delimiter)
            == stream + if stream == [] then [] else settings.delimiter
  {
    LastRecord(stream, settings);
    NoDelimiterInside(stream, settings.delimiter);
    EncodeAllStep(stream, [], settings.delimiter);
    assert [stream] + [] == [stream] && stream + settings.delimiter + [] == stream + settings.delimiter;
  }

  lemma ReencodeFirst(stream: Bytes, settings: Settings) returns (record: Bytes, rest: Bytes)
    requires settings.delimiter != [] && !settings.omitEmpty && SplitStream(stream, settings).ok
    requires FindFrom(stream, settings.delimiter, 0).Some?
    ensures stream == record + settings.delimiter + rest && |rest| < |stream|
    ensures Encode(record, settings.delimiter) == record + settings.delimiter
    ensures SplitStream(rest, settings).ok
    ensures SplitStream(stream, settings).records == [record] + SplitStream(rest, settings).records
    ensures Advance(stream, settings) == Prepend([record], Advance(rest, settings))
  {
    record, rest := FirstRecord(stream, settings);
    NoDelimiterInside(record, settings.delimiter);
  }

  /** Re-encoding what was parsed gives back the stream, with one more delimiter exactly when the
      stream ended inside a record. */
  lemma {:induction false} EncodeOfParse(stream: Bytes, settings: Settings)
    requires settings.delimiter != [] && !settings.omitEmpty && SplitStream(stream, settings).ok
    ensures Advance(stream, settings).Running?
    ensures EncodeAll(SplitStream(stream, settings).records, settings.delimiter)
            == stream + if Advance(stream, settings).rest == [] then [] else settings.delimiter
    decreases |stream|
  {
    if FindFrom(stream, settings.delimiter, 0).None? {
      ReencodeLast(stream, settings);
    } else {
      var record, rest := ReencodeFirst(stream, settings);
      EncodeOfParse(rest, settings);
      var missing := if Advance(rest, settings).rest == [] then [] else settings.delimiter;
      ReencodeStep(record, rest, SplitStream(rest, settings).records, missing, settings.delimiter);
    }
  }

  lemma ReencodeStep(record: Bytes, rest: Bytes, records: seq<Bytes>, missing: Bytes, d: Bytes)
    requires Encode(record, d) == record + d && EncodeAll(records, d) == rest + missing
    ensures EncodeAll([record] + records, d) == record + d + rest + missing
  {
    EncodeAllStep(record, records, d);
    assert record + d + (rest + missing) == record + d + rest + missing;
  }

  // ---------------------------------------------------------------- encode, then parse

  /** A shift below `bound` that maps the delimiter onto itself: a proper prefix equals a suffix. */
  predicate SelfOverlap(delimiter: Bytes, bound: nat) {
    exists shift :: 0 < shift < |delimiter| && shift <= bound && Shifts(delimiter, shift)
  }

  predicate Shifts(delimiter: Bytes, shift: nat) {
    shift <= |delimiter| && delimiter[shift..] == delimiter[..|delimiter| - shift]
  }

  /** Records a caller may hand to the encoder and expect back. */
  ghost predicate Framable(records: seq<Bytes>, settings: Settings) {
    forall i :: 0 <= i < |records| ==>
      |records[i]| <= settings.maxRecordSize && NoneIn(records[i], settings.delimiter)
  }

  function NonEmpty(records: seq<Bytes>, settings: Settings): seq<Bytes> {
    if settings.omitEmpty then WithoutEmpty(records) else records
  }

  /** Encoding the records and parsing the result gives them back, without the empty ones if those are omitted. */
  predicate Survives(records: seq<Bytes>, settings: Settings)
    requires settings.delimiter != []
  {
    SplitStream(EncodeAll(records, settings.delimiter), settings) == Outcome(NonEmpty(records, settings), true)
  }

  /** After a delimiter-free record the leftmost delimiter is its own terminator, unless the
      delimiter overlaps itself by a shift the record is long enough to expose. */
  lemma TerminatorIsLeftmost(record: Bytes, tail: Bytes, delimiter: Bytes)
    requires delimiter != [] && NoneIn(record, delimiter) && !SelfOverlap(delimiter, |record|)
    ensures FindFrom(record + delimiter + tail, delimiter, 0) == Some(|record|)
  {
    var n, whole := |record|, record + delimiter + tail;
    assert whole[n..n + |delimiter|] == delimiter;
    forall at | 0 <= at < n ensures !OccursAt(whole, delimiter, at) {
      if OccursAt(whole, delimiter, at) {
        if at + |delimiter| <= n {
          assert whole == record + (delimiter + tail);
          OccursInPrefix(record, delimiter + tail, delimiter, at);
        } else {
          var shift := n - at;
          assert delimiter[shift..] == whole[at..at + |delimiter|][shift..] == whole[n..at + |delimiter|];
          assert delimiter[..|delimiter| - shift] == whole[n..at + |delimiter|];
          assert Shifts(delimiter, shift);
        }
        assert false;
      }
    }
    FindUnique(whole, delimiter, n);
  }

  lemma {:induction false} ParseOfEncode(records: seq<Bytes>, settings: Settings)
    requires settings.delimiter != [] && Framable(records, settings)
    requires !SelfOverlap(settings.delimiter, settings.maxRecordSize)
    ensures Survives(records, settings)
    decreases |records|
  {
    var d := settings.delimiter;
    if records == [] {
      assert FindFrom([], d, 0).None?;
    } else {
      var tail := EncodeAll(records[1..], d);
      NoDelimiterInside(records[0], d);
      TerminatorIsLeftmost(records[0], tail, d);
      SplitStep(records[0], tail, settings);
      ParseOfEncode(records[1..], settings);
    }
  }

  /** Records and the delimiters between them never outgrow the stream they came from. */
  lemma {:induction false} RecordsFit(stream: Bytes, settings: Settings)
    requires settings.delimiter != []
    ensures var records := SplitStream(stream, settings).records;
            |Flatten(records)| + (if |records| > 1 then |settings.delimiter| else 0) <= |stream|
    decreases |stream|
  {
    if FindFrom(stream, settings.delimiter, 0).None? {
      LastRecord(stream, settings);
      FlattenStep(stream, []);
      assert [stream] + [] == [stream];
    } else {
      var record, rest := FirstRecord(stream, settings);
      RecordsFit(rest, settings);
      var tail := SplitStream(rest, settings).records;
      FlattenStep(record, tail);
      assert [] + tail == tail;
    }
  }

  lemma FlattenStep(record: Bytes, records: seq<Bytes>)
    ensures Flatten([record] + records) == record + Flatten(records)
  {
    assert ([record] + records)[1..] == records;
  }

  /** A self-overlapping delimiter loses a pair of records that expose the overlap. */
  lemma OverlapLosesRecords(shift: nat, settings: Settings)
    requires 0 < shift < |settings.delimiter| && shift <= settings.maxRecordSize
    requires Shifts(settings.delimiter, shift)
    ensures var records := [settings.delimiter[..shift], settings.delimiter[..shift]];
            && Framable(records, settings)
            && !Survives(records, settings)
  {
    var d := settings.delimiter;
    var record, u := d[..shift], d[|d| - shift..];
    var records := [record, record];
    assert forall i :: 0 <= i < |records| ==> records[i] == record && NoneIn(record, d);
    NoDelimiterInside(record, d);
    OverlapStream(shift, d);
    var rest := u + record + d;
    var stream := [] + d + rest;
    assert OccursAt(stream, d, 0) by {
      assert stream[0..|d|] == d;
    }
    FindUnique(stream, d, 0);
    SplitStep([], rest, settings);
    RestNeverSplitsInTwo(u, record, settings);
    NonEmptyPair(record, settings);
    var after := SplitStream(rest, settings).records;
    assert [] + after == after && ([[]] + after)[0] == [];
  }

  lemma OverlapStream(shift: nat, d: Bytes)
    requires 0 < shift < |d| && Shifts(d, shift) && NoneIn(d[..shift], d)
    ensures EncodeAll([d[..shift], d[..shift]], d) == [] + d + (d[|d| - shift..] + d[..shift] + d)
  {
    var record, u := d[..shift], d[|d| - shift..];
    NoDelimiterInside(record, d);
    EncodePair(record, d);
    ShiftCommutes(shift, d);
    Regroup(d, u, record);
  }

  lemma EncodePair(record: Bytes, d: Bytes)
    ensures EncodeAll([record, record], d) == Encode(record, d) + Encode(record, d)
  {
    assert [record] + [record] == [record, record] && [record] + [] == [record];
    EncodeAllStep(record, [record], d);
    EncodeAllStep(record, [], d);
  }

  lemma Regroup(d: Bytes, u: Bytes, record: Bytes)
    ensures (d + u) + (record + d) == [] + d + (u + record + d)
  {
  }

  lemma ShiftCommutes(shift: nat, d: Bytes)
    requires 0 < shift < |d| && Shifts(d, shift)
    ensures d[..shift] + d == d + d[|d| - shift..]
  {
    var record, u := d[..shift], d[|d| - shift..];
    assert d == record + d[shift..];
    assert d == d[..|d| - shift] + u;
    assert record + (d[..|d| - shift] + u) == (record + d[..|d| - shift]) + u;
  }

  lemma NonEmptyPair(record: Bytes, settings: Settings)
    requires record != []
    ensures NonEmpty([record, record], settings) == [record, record]
  {
    assert [record, record][1..] == [record] && [record][1..] == [];
    assert WithoutEmpty([record]) == [record] + WithoutEmpty([]);
  }

  lemma FlattenPair(record: Bytes)
    ensures |Flatten([record, record])| == 2 * |record|
  {
    assert [record] + [record] == [record, record] && [record] + [] == [record];
    FlattenStep(record, [record]);
    FlattenStep(record, []);
  }

  lemma RestNeverSplitsInTwo(u: Bytes, record: Bytes, settings: Settings)
    requires 0 < |record| == |u| < |settings.delimiter|
    ensures SplitStream(u + record + settings.delimiter, settings).records != [record, record]
  {
    var d, pair := settings.delimiter, [record, record];
    var rest := u + record + d;
    assert OccursAt(rest, d, |rest| - |d|);
    var head, tail := FirstRecord(rest, settings);
    var after := SplitStream(tail, settings).records;
    FlattenPair(record);
    RecordsFit(tail, settings);
    assert [] + after == after;
    if Emit(head, settings) + after == pair && Emit(head, settings) != [] {
      assert pair[0] == head && pair[1] == after[0];
      assert FindFrom(tail, d, 0).None?;
      LastRecord(tail, settings);
      CommutingPrefix(u, record, d);
      assert false;
    }
  }

  /** If `u ++ r ++ d` is also `r ++ d ++ r`, with `u` as long as `r`, it starts with `d`. */
  lemma CommutingPrefix(u: Bytes, r: Bytes, d: Bytes)
    requires |u| == |r| && u + r + d == r + d + r
    ensures OccursAt(u + r + d, d, 0)
  {
    var whole := u + r + d;
    assert u == whole[..|r|] == r;
    assert r + d == whole[|r|..] == d + r;
    assert whole == r + (d + r) == (r + d) + r == d + r + r;
  }

  /** The exact condition under which every framable list of records survives the round trip. */
  lemma RoundTripIff(settings: Settings)
    requires settings.delimiter != []
    ensures (forall records :: Framable(records, settings) ==>
               Survives(records, settings))
            <==> !SelfOverlap(settings.delimiter, settings.maxRecordSize)
  {
    if SelfOverlap(settings.delimiter, settings.maxRecordSize) {
      var shift :| 0 < shift < |settings.delimiter| && shift <= settings.maxRecordSize
                   && Shifts(settings.delimiter, shift);
      OverlapLosesRecords(shift, settings);
    } else {
      forall records | Framable(records, settings)
        ensures Survives(records, settings)
      {
        ParseOfEncode(records, settings);
      }
    }
  }
}
