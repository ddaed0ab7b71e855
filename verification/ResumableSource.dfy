/** The resumable source: a reader task fills a bounded channel from an append-only log, `create` hands
    records downstream and commits a cursor, and flushes replace the reader. */
module ResumableSource {
  import opened Common

  type Id = nat

  datatype Entry = Entry(command: bool, timestamp: nat)

  datatype StartMode = Earliest | Sequence | AtTimestamp | FromTail

  datatype Settings = Settings(
    mode: StartMode, startSeqNum: nat, startTimestamp: nat, tailOffset: nat, clampToTail: bool, ignoreCommands: bool,
    capacity: nat)

  datatype ReadFrom = SeqNum(seqNum: nat) | Timestamp(timestamp: nat) | TailOffset(offset: nat)

  datatype ReadStart = ReadStart(from: ReadFrom, clampToTail: bool)

  datatype FlowError = Flushing | Error

  function ConfiguredStart(settings: Settings): ReadStart {
    ReadStart(match settings.mode
              case Earliest => SeqNum(0)
              case Sequence => SeqNum(settings.startSeqNum)
              case AtTimestamp => Timestamp(settings.startTimestamp)
              case FromTail => TailOffset(settings.tailOffset),
              settings.clampToTail)
  }

  /** The preflight check of an unclamped start: true when the start is not beyond the tail. */
  predicate WithinTail(from: ReadFrom, tailSeqNum: nat, tailTimestamp: nat) {
    match from
    case SeqNum(n) => n <= tailSeqNum
    case Timestamp(t) => t <= tailTimestamp
    case TailOffset(_) => true
  }

  function TailTimestamp(log: seq<Entry>): nat {
    if log == [] then 0 else log[|log| - 1].timestamp
  }

  function FirstAt(log: seq<Entry>, timestamp: nat): (i: nat)
    ensures i <= |log| && (i < |log| ==> log[i].timestamp >= timestamp)
    ensures forall k :: 0 <= k < i ==> log[k].timestamp < timestamp
  {
    if log == [] || log[0].timestamp >= timestamp then 0 else 1 + FirstAt(log[1..], timestamp)
  }

  /** Where the service opens a session for a start that passed its check. */
  function Resolve(start: ReadStart, log: seq<Entry>): nat {
    match start.from
    case SeqNum(n) => if start.clampToTail then Min(n, |log|) else n
    case Timestamp(t) => FirstAt(log, t)
    case TailOffset(k) => Max(|log| - k, 0)
  }

  // ---------------------------------------------------------------- the filtered log

  predicate Shown(log: seq<Entry>, ignoreCommands: bool, at: nat)
    requires at < |log|
  {
    !(ignoreCommands && log[at].command)
  }

  /** Sequence numbers in `[lo, hi)` that survive the command-record filter, in log order. */
  function Visible(log: seq<Entry>, ignoreCommands: bool, lo: nat, hi: nat): seq<nat>
    requires hi <= |log|
  {
    if hi <= lo then []
    else Visible(log, ignoreCommands, lo, hi - 1) + if Shown(log, ignoreCommands, hi - 1) then [hi - 1] else []
  }

  lemma {:induction false} VisibleMembers(log: seq<Entry>, ignore: bool, lo: nat, hi: nat)
    requires hi <= |log|
    ensures var r := Visible(log, ignore, lo, hi);
            && (forall v: nat :: v in r <==> lo <= v < hi && Shown(log, ignore, v))
            && (forall i, j :: 0 <= i < j < |r| ==> r[i] < r[j])
    decreases hi
  {
    if lo < hi {
      VisibleMembers(log, ignore, lo, hi - 1);
      var before, r := Visible(log, ignore, lo, hi - 1), Visible(log, ignore, lo, hi);
      forall i, j | 0 <= i < j < |r| ensures r[i] < r[j] {
        assert r[i] == before[i] && before[i] in before;
      }
    }
  }

  /** `Visible` really is the filtered range: increasing, so duplicate-free, and with no gap. */
  lemma VisibleIsFilteredRange(log: seq<Entry>, ignore: bool, lo: nat, hi: nat)
    requires hi <= |log|
    ensures var r := Visible(log, ignore, lo, hi);
            && (forall v: nat :: v in r <==> lo <= v < hi && (ignore ==> !log[v].command))
            && (forall i, j :: 0 <= i < j < |r| ==> r[i] < r[j])
  {
    VisibleMembers(log, ignore, lo, hi);
  }

  lemma {:induction false} VisibleSplit(log: seq<Entry>, ignore: bool, lo: nat, mid: nat, hi: nat)
    requires lo <= mid <= hi <= |log|
    ensures Visible(log, ignore, lo, hi) == Visible(log, ignore, lo, mid) + Visible(log, ignore, mid, hi)
    decreases hi
  {
    if mid < hi {
      VisibleSplit(log, ignore, lo, mid, hi - 1);
    }
  }

  lemma {:induction false} VisibleGrows(log: seq<Entry>, more: seq<Entry>, ignore: bool, lo: nat, hi: nat)
    requires hi <= |log|
    ensures Visible(log + more, ignore, lo, hi) == Visible(log, ignore, lo, hi)
    decreases hi
  {
    if lo < hi {
      VisibleGrows(log, more, ignore, lo, hi - 1);
    }
  }

  /** The first visible record of a range splits the range right after itself. */
  lemma {:induction false} VisibleHead(log: seq<Entry>, ignore: bool, lo: nat, hi: nat)
    requires hi <= |log| && Visible(log, ignore, lo, hi) != []
    ensures var all := Visible(log, ignore, lo, hi); var v := all[0];
            lo <= v < hi && Shown(log, ignore, v)
            && Visible(log, ignore, lo, v + 1) == [v] && Visible(log, ignore, v + 1, hi) == all[1..]
    decreases hi
  {
    if Shown(log, ignore, hi - 1) && Visible(log, ignore, lo, hi - 1) == [] {
      assert Visible(log, ignore, hi, hi) == [];
    } else {
      VisibleHead(log, ignore, lo, hi - 1);
    }
  }

  // ---------------------------------------------------------------- control state

  /** The lock-protected state: which reader is current, where its receiver is, who is cancelled. */
  datatype Control = Control(
    worker: Id, receiver: Option<Id>, cancelled: set<Id>, flushing: bool, lastDelivered: Option<nat>)

  function Unlock(c: Control): Control {
    c.(flushing := true, cancelled := c.cancelled + {c.worker})
  }

  /** Where a replacement reader resumes; the last sequence number has no successor. */
  function ResumePoint(c: Control): Option<Option<nat>> {
    if c.lastDelivered.None? then Some(None)
    else if c.lastDelivered.value < U64_MAX then Some(Some(c.lastDelivered.value + 1))
    else None
  }

  /** A failed resume only clears the flush; otherwise a fresh reader replaces a cancelled one. */
  function UnlockStop(c: Control, unused: Id): Control {
    if ResumePoint(c).None? then c.(flushing := false)
    else c.(worker := unused, receiver := Some(unused), cancelled := c.cancelled + {c.worker}, flushing := false)
  }

  /** What `create` may take: the receiver, and whose cancellation it must respect. */
  function Borrow(c: Control): Result<(Id, Id), FlowError> {
    if c.flushing then Err(Flushing)
    else if c.receiver.None? then Err(Error)
    else Ok((c.receiver.value, c.worker))
  }

  function Borrowed(c: Control): Control {
    if Borrow(c).Ok? then c.(receiver := None) else c
  }

  /** The receiver goes back to whichever reader is current by then. */
  function PutBack(c: Control, receiver: Id): Control {
    c.(receiver := Some(receiver))
  }

  predicate Interrupted(c: Control, token: Id) {
    c.flushing || token in c.cancelled
  }

  function Commit(c: Control, token: Id, seqNum: nat): Result<Control, FlowError> {
    if c.flushing || c.worker != token || token in c.cancelled then Err(Flushing)
    else Ok(c.(lastDelivered := Some(seqNum)))
  }

  class SourceControl {
    var worker: Id
    var receiver: Option<Id>
    var cancelled: set<Id>
    var flushing: bool
    var lastDelivered: Option<nat>
    var nextId: Id

    ghost function View(): Control
      reads this
    {
      Control(worker, receiver, cancelled, flushing, lastDelivered)
    }

    ghost predicate Valid()
      reads this
    {
      worker < nextId && (forall id :: id in cancelled ==> id < nextId)
    }

    constructor ()
      ensures Valid() && View() == Control(0, Some(0), {}, false, None) && nextId == 1
    {
      worker, receiver, cancelled, flushing, lastDelivered, nextId := 0, Some(0), {}, false, None, 1;
    }

    method BeginFlush()
      requires Valid()
      modifies this`flushing, this`cancelled
      ensures Valid() && View() == Unlock(old(View()))
      ensures flushing && worker == old(worker) && worker in cancelled && lastDelivered == old(lastDelivered)
    {
      flushing := true;
      cancelled := cancelled + {worker};
    }

    method EndFlush() returns (r: Result<Option<nat>, string>)
      requires Valid()
      modifies this
      ensures Valid() && View() == UnlockStop(old(View()), old(nextId))
      ensures r.Ok? <==> ResumePoint(old(View())).Some?
      ensures r.Ok? ==> Some(r.value) == ResumePoint(old(View())) && worker !in cancelled
      ensures r.Ok? <==> old(lastDelivered).None? || old(lastDelivered).value < U64_MAX
      ensures r.Ok? ==> r.value == if old(lastDelivered).None? then None else Some(old(lastDelivered).value + 1)
      ensures r.Ok? ==> worker == old(nextId) && receiver == Some(worker) && old(worker) in cancelled
      ensures r.Err? ==> worker == old(worker) && receiver == old(receiver) && cancelled == old(cancelled)
      ensures !flushing && lastDelivered == old(lastDelivered)
    {
      flushing := false;
      if lastDelivered.Some? && lastDelivered.value >= U64_MAX {
        return Err("S2 sequence number exhausted");
      }
      var resume: Option<nat> := None;
      if lastDelivered.Some? {
        resume := Some(lastDelivered.value + 1);
      }
      cancelled := cancelled + {worker};
      worker, receiver, nextId := nextId, Some(nextId), nextId + 1;
      return Ok(resume);
    }

    /** `create` takes the receiver and remembers which reader's cancellation it must respect. */
    method TakeReceiver() returns (r: Result<(Id, Id), FlowError>)
      requires Valid()
      modifies this`receiver
      ensures Valid() && r == Borrow(old(View())) && View() == Borrowed(old(View()))
      ensures r == Err(Flushing) <==> flushing
      ensures r == Err(Error) <==> !flushing && old(receiver).None?
      ensures if r.Ok? then old(receiver) == Some(r.value.0) && r.value.1 == worker && receiver.None?
              else receiver == old(receiver)
    {
      if flushing {
        return Err(Flushing);
      }
      if receiver.None? {
        return Err(Error);
      }
      r := Ok((receiver.value, worker));
      receiver := None;
    }

    /** `create` gives the receiver back and learns whether it was interrupted. */
    method ReturnReceiver(chan: Id, token: Id) returns (interrupted: bool)
      requires Valid()
      modifies this`receiver
      ensures Valid() && View() == PutBack(old(View()), chan) && interrupted == Interrupted(old(View()), token)
      ensures receiver == Some(chan) && (interrupted <==> flushing || token in cancelled)
    {
      receiver := Some(chan);
      interrupted := flushing || token in cancelled;
    }

    method CommitDeliveredCursor(token: Id, seqNum: nat) returns (r: Result<(), FlowError>)
      requires Valid()
      modifies this`lastDelivered
      ensures Valid()
      ensures var c := Commit(old(View()), token, seqNum);
              if c.Ok? then r == Ok(()) && View() == c.value else r == Err(c.error) && View() == old(View())
      ensures r.Ok? <==> !flushing && worker == token && token !in cancelled
      ensures lastDelivered == if r.Ok? then Some(seqNum) else old(lastDelivered)
    {
      if flushing || worker != token || token in cancelled {
        return Err(Flushing);
      }
      lastDelivered := Some(seqNum);
      return Ok(());
    }
  }

  // ---------------------------------------------------------------- the transition system

  datatype Phase = Connecting | Opening | Reading | Ended

  /** A reader task; an open one has read from `from` up to `pos`, in a session opened when the log was `opening`. */
  datatype Reader = Reader(
    start: ReadStart, phase: Phase, isOpen: bool, opening: seq<Entry>, from: nat, pos: nat, tailError: bool)

  datatype Create =
    | Idle
    | Receiving(chan: Id, token: Id)
    | Got(chan: Id, token: Id, record: Option<nat>)
    | Committing(token: Id, seqNum: nat)

  datatype Source = Source(
    settings: Settings,
    ctl: Control,
    readers: map<Id, Reader>,
    channels: map<Id, seq<nat>>,
    nextId: Id,
    create: Create,
    // An error return stops the streaming thread until the next restart.
    ended: bool,
    log: seq<Entry>,
    delivered: seq<nat>,
    // Where the delivered run began, and the log when that session was opened.
    origin: nat,
    opening: seq<Entry>)

  function Fresh(start: ReadStart): Reader {
    Reader(start, Connecting, false, [], 0, 0, false)
  }

  function Initial(settings: Settings, log: seq<Entry>): Source {
    Source(settings, Control(0, Some(0), {}, false, None), map[0 := Fresh(ConfiguredStart(settings))], map[0 := []], 1,
           Idle, false, log, [], 0, [])
  }

  datatype Action =
    | Append(entry: Entry)
    | ReaderCheck(id: Id)
    | ReaderOpen(id: Id)
    | ReaderPush(id: Id)
    | ReaderEnd(id: Id)
    | CreateTake
    | CreateReceive
    | CreateReceiveNone
    | CreateReturn
    | CreateCommit(metadataOk: bool)
    | FlushStart
    | FlushStop

  predicate InPhase(s: Source, id: Id, phase: Phase) {
    id in s.readers && id in s.channels && s.readers[id].phase == phase
  }

  predicate Enabled(s: Source, a: Action) {
    match a
    case Append(_) => true
    case ReaderCheck(id) => InPhase(s, id, Connecting)
    case ReaderOpen(id) => InPhase(s, id, Opening)
    case ReaderPush(id) =>
      InPhase(s, id, Reading) && s.readers[id].pos < |s.log|
      && (Shown(s.log, s.settings.ignoreCommands, s.readers[id].pos) ==> |s.channels[id]| < s.settings.capacity)
    case ReaderEnd(id) => id in s.readers
    case CreateTake => s.create.Idle? && !s.ended && Borrow(s.ctl).Ok?
    case CreateReceive => s.create.Receiving? && s.create.chan in s.channels && s.channels[s.create.chan] != []
    case CreateReceiveNone =>
      s.create.Receiving?
      && (s.create.token in s.ctl.cancelled
          || (InPhase(s, s.create.chan, Ended) && s.channels[s.create.chan] == []))
    case CreateReturn => s.create.Got?
    case CreateCommit(_) => s.create.Committing?
    case FlushStart => true
    case FlushStop => true
  }

  function UpdateReader(s: Source, id: Id, r: Reader): Source {
    s.(readers := s.readers[id := r])
  }

  function CheckStep(s: Source, id: Id): Source
    requires id in s.readers
  {
    var r := s.readers[id];
    if r.start.clampToTail || WithinTail(r.start.from, |s.log|, TailTimestamp(s.log))
    then UpdateReader(s, id, r.(phase := Opening))
    else UpdateReader(s, id, r.(phase := Ended, tailError := true))
  }

  function OpenStep(s: Source, id: Id): Source
    requires id in s.readers
  {
    var at := Resolve(s.readers[id].start, s.log);
    UpdateReader(s, id, s.readers[id].(phase := Reading, isOpen := true, opening := s.log, from := at, pos := at))
  }

  function PushStep(s: Source, id: Id): Source
    requires InPhase(s, id, Reading) && s.readers[id].pos < |s.log|
  {
    var r := s.readers[id];
    s.(readers := s.readers[id := r.(pos := r.pos + 1)],
       channels := if Shown(s.log, s.settings.ignoreCommands, r.pos)
                   then s.channels[id := s.channels[id] + [r.pos]] else s.channels)
  }

  function ReturnStep(s: Source): Source
    requires s.create.Got?
  {
    var interrupted := Interrupted(s.ctl, s.create.token);
    s.(ctl := PutBack(s.ctl, s.create.chan),
       ended := s.ended || (!interrupted && s.create.record.None?),
       create := if interrupted || s.create.record.None? then Idle
                 else Committing(s.create.token, s.create.record.value))
  }

  function CommitStep(s: Source, metadataOk: bool): Source
    requires s.create.Committing?
  {
    var c := Commit(s.ctl, s.create.token, s.create.seqNum);
    if !metadataOk then s.(ended := true, create := Idle)
    else if c.Err? then s.(create := Idle)
    else
      s.(ctl := c.value, create := Idle, delivered := s.delivered + [s.create.seqNum],
         origin := if s.ctl.lastDelivered.None? && s.create.token in s.readers
                   then s.readers[s.create.token].from else s.origin,
         opening := if s.ctl.lastDelivered.None? && s.create.token in s.readers
                    then s.readers[s.create.token].opening else s.opening)
  }

  function FlushStopStep(s: Source): Source {
    var resume := ResumePoint(s.ctl);
    if resume.None? then s.(ctl := UnlockStop(s.ctl, s.nextId))
    else
      s.(ctl := UnlockStop(s.ctl, s.nextId), nextId := s.nextId + 1, ended := false,
         channels := s.channels[s.nextId := []],
         readers := s.readers[s.nextId := Fresh(StartOf(s.settings, s.ctl.lastDelivered))])
  }

  /** A replacement starts after the last delivered record, or where the settings say if there is none. */
  function StartOf(settings: Settings, lastDelivered: Option<nat>): ReadStart {
    if lastDelivered.Some? then ReadStart(SeqNum(lastDelivered.value + 1), false) else ConfiguredStart(settings)
  }

  function Step(s: Source, a: Action): Source
    requires Enabled(s, a)
  {
    match a
    case Append(entry) => s.(log := s.log + [entry])
    case ReaderCheck(id) => CheckStep(s, id)
    case ReaderOpen(id) => OpenStep(s, id)
    case ReaderPush(id) => PushStep(s, id)
    case ReaderEnd(id) => UpdateReader(s, id, s.readers[id].(phase := Ended))
    case CreateTake =>
      s.(create := Receiving(Borrow(s.ctl).value.0, Borrow(s.ctl).value.1), ctl := Borrowed(s.ctl))
    case CreateReceive =>
      s.(create := Got(s.create.chan, s.create.token, Some(s.channels[s.create.chan][0])),
         channels := s.channels[s.create.chan := s.channels[s.create.chan][1..]])
    case CreateReceiveNone => s.(create := Got(s.create.chan, s.create.token, None))
    case CreateReturn => ReturnStep(s)
    case CreateCommit(metadataOk) => CommitStep(s, metadataOk)
    case FlushStart => s.(ctl := Unlock(s.ctl))
    case FlushStop => FlushStopStep(s)
  }

  // ---------------------------------------------------------------- the invariant

  function Cursor(s: Source): nat
    requires s.ctl.worker in s.readers
  {
    if s.ctl.lastDelivered.Some? then s.ctl.lastDelivered.value + 1 else s.readers[s.ctl.worker].from
  }

  function InHand(s: Source): seq<nat> {
    match s.create
    case Got(_, _, Some(v)) => [v]
    case Committing(_, v) => [v]
    case _ => []
  }

  ghost predicate PinnedStart(settings: Settings) {
    ConfiguredStart(settings).from.SeqNum? && !settings.clampToTail
  }

  ghost predicate IdsOk(s: Source) {
    && s.ctl.worker in s.readers
    && s.readers.Keys == s.channels.Keys
    && (forall id :: id in s.readers ==> id < s.nextId)
    && (forall id :: id in s.ctl.cancelled ==> id < s.nextId)
    && (s.ctl.flushing ==> s.ctl.worker in s.ctl.cancelled)
  }

  /** Without overlapping a flush-stop, `create` always works on the current reader. */
  ghost predicate CreateOk(s: Source) {
    && (s.create.Receiving? || s.create.Got? ==>
          s.create.chan == s.create.token == s.ctl.worker && s.ctl.receiver.None?)
    && (s.create.Committing? ==> s.create.token == s.ctl.worker)
    && (!s.create.Idle? ==> !s.ended)
    && (s.create.Idle? || s.create.Committing? ==> s.ctl.receiver == Some(s.ctl.worker))
  }

  /** What was delivered is one unbroken run of the filtered log. */
  ghost predicate DeliveredOk(s: Source) {
    match s.ctl.lastDelivered
    case None => s.delivered == []
    case Some(last) =>
      && s.origin <= last < |s.log| && Shown(s.log, s.settings.ignoreCommands, last)
      && s.delivered == Visible(s.log, s.settings.ignoreCommands, s.origin, last + 1)
      && s.opening <= s.log && s.origin == Resolve(ConfiguredStart(s.settings), s.opening)
  }

  ghost predicate ReaderOk(s: Source)
    requires s.ctl.worker in s.readers
  {
    var r := s.readers[s.ctl.worker];
    && (r.isOpen ==> r.from <= r.pos <= |s.log| && Cursor(s) <= r.pos)
    && (!r.isOpen ==> r.start == StartOf(s.settings, s.ctl.lastDelivered) && !r.phase.Reading?)
    && (s.ctl.lastDelivered.None? && r.isOpen ==>
          r.opening <= s.log && r.from == Resolve(ConfiguredStart(s.settings), r.opening))
    && (r.phase.Opening? && !r.start.clampToTail && r.start.from.SeqNum? ==> r.start.from.seqNum <= |s.log|)
    && (r.phase.Connecting? || r.phase.Opening? ==> !r.isOpen)
    && (r.tailError ==> r.phase.Ended? && !r.isOpen && s.ctl.lastDelivered.None?)
  }

  /** While the current reader lives, what is in hand and in its channel continues the delivered run. */
  ghost predicate InFlightOk(s: Source)
    requires IdsOk(s) && ReaderOk(s)
  {
    s.ctl.worker !in s.ctl.cancelled && !s.ended ==>
      var r := s.readers[s.ctl.worker];
      InHand(s) + s.channels[s.ctl.worker]
      == if r.isOpen then Visible(s.log, s.settings.ignoreCommands, Cursor(s), r.pos) else []
  }

  ghost predicate Inv(s: Source) {
    IdsOk(s) && CreateOk(s) && DeliveredOk(s) && ReaderOk(s) && InFlightOk(s)
  }

  /** The base class never runs flush-stop while `create` is running. */
  predicate NoOverlap(s: Source, a: Action) {
    a.FlushStop? ==> s.create.Idle?
  }

  lemma InitialInv(settings: Settings, log: seq<Entry>)
    ensures Inv(Initial(settings, log))
  {
  }

  lemma AppendKeeps(s: Source, entry: Entry)
    requires Inv(s)
    ensures Inv(Step(s, Append(entry)))
  {
    if s.ctl.lastDelivered.Some? {
      VisibleGrows(s.log, [entry], s.settings.ignoreCommands, s.origin, s.ctl.lastDelivered.value + 1);
    }
    if s.readers[s.ctl.worker].isOpen {
      VisibleGrows(s.log, [entry], s.settings.ignoreCommands, Cursor(s), s.readers[s.ctl.worker].pos);
    }
  }

  /** Changing only a reader's phase keeps the invariant, as long as the current reader's phase stays honest. */
  lemma PhaseKeeps(s: Source, id: Id, phase: Phase, tailError: bool)
    requires Inv(s) && id in s.readers
    requires !phase.Reading? && (phase.Connecting? || phase.Opening? ==> !s.readers[id].isOpen)
    requires var r := s.readers[id];
             phase.Opening? && !r.start.clampToTail && r.start.from.SeqNum? ==> r.start.from.seqNum <= |s.log|
    requires tailError ==> phase.Ended? && !s.readers[id].isOpen
    requires tailError && id == s.ctl.worker ==> s.ctl.lastDelivered.None?
    ensures Inv(UpdateReader(s, id, s.readers[id].(phase := phase, tailError := tailError)))
  {
    var s' := UpdateReader(s, id, s.readers[id].(phase := phase, tailError := tailError));
    assert s'.readers.Keys == s.readers.Keys;
    assert Cursor(s') == Cursor(s) && ReaderOk(s');
  }

  lemma CheckKeeps(s: Source, id: Id)
    requires Inv(s) && Enabled(s, ReaderCheck(id)) && id == s.ctl.worker
    ensures Inv(CheckStep(s, id))
  {
    var r := s.readers[id];
    var ok := r.start.clampToTail || WithinTail(r.start.from, |s.log|, TailTimestamp(s.log));
    PhaseKeeps(s, id, if ok then Opening else Ended, !ok);
  }

  /** Nothing but the current reader and its channel matters. */
  lemma OthersDoNotMatter(s: Source, s': Source)
    requires Inv(s)
    requires s'.settings == s.settings && s'.ctl == s.ctl && s'.nextId == s.nextId && s'.create == s.create
    requires s'.ended == s.ended && s'.log == s.log && s'.delivered == s.delivered && s'.origin == s.origin
    requires s'.opening == s.opening
    requires s'.readers.Keys == s.readers.Keys && s'.channels.Keys == s.channels.Keys
    requires s'.readers[s.ctl.worker] == s.readers[s.ctl.worker]
    requires s'.channels[s.ctl.worker] == s.channels[s.ctl.worker]
    ensures Inv(s')
  {
    assert IdsOk(s') && CreateOk(s') && DeliveredOk(s') && ReaderOk(s');
  }

  lemma ElsewhereKeeps(s: Source, id: Id, r: Reader)
    requires Inv(s) && id in s.readers && id != s.ctl.worker
    ensures Inv(UpdateReader(s, id, r))
  {
    var s' := UpdateReader(s, id, r);
    assert s'.readers.Keys == s.readers.Keys;
    OthersDoNotMatter(s, s');
  }

  lemma OpenKeeps(s: Source, id: Id)
    requires Inv(s) && Enabled(s, ReaderOpen(id)) && id == s.ctl.worker
    ensures Inv(OpenStep(s, id))
  {
    var s' := OpenStep(s, id);
    assert s'.readers.Keys == s.readers.Keys;
    assert Resolve(s.readers[id].start, s.log) <= |s.log|;
    assert Visible(s.log, s.settings.ignoreCommands, Cursor(s'), s'.readers[id].pos) == [];
  }

  lemma PushElsewhereKeeps(s: Source, id: Id)
    requires Inv(s) && Enabled(s, ReaderPush(id)) && id != s.ctl.worker
    ensures Inv(PushStep(s, id))
  {
    var s' := PushStep(s, id);
    assert s'.readers.Keys == s.readers.Keys && s'.channels.Keys == s.channels.Keys;
    OthersDoNotMatter(s, s');
  }

  lemma PushKeeps(s: Source, id: Id)
    requires Inv(s) && Enabled(s, ReaderPush(id)) && id == s.ctl.worker
    ensures Inv(PushStep(s, id))
  {
    var s', pos := PushStep(s, id), s.readers[id].pos;
    var shown := if Shown(s.log, s.settings.ignoreCommands, pos) then [pos] else [];
    assert s'.channels[id] == s.channels[id] + shown;
    assert s'.readers.Keys == s.readers.Keys && s'.channels.Keys == s.channels.Keys;
    assert IdsOk(s') && CreateOk(s') && DeliveredOk(s') && ReaderOk(s');
    assert InHand(s) + (s.channels[id] + shown) == (InHand(s) + s.channels[id]) + shown;
    assert Visible(s.log, s.settings.ignoreCommands, Cursor(s), pos + 1)
           == Visible(s.log, s.settings.ignoreCommands, Cursor(s), pos) + shown;
  }

  lemma TakeKeeps(s: Source)
    requires Inv(s) && Enabled(s, CreateTake)
    ensures Inv(Step(s, CreateTake))
  {
  }

  lemma ReceiveKeeps(s: Source)
    requires Inv(s) && Enabled(s, CreateReceive)
    ensures Inv(Step(s, CreateReceive))
  {
    var chan := s.channels[s.create.chan];
    assert [] + chan == [chan[0]] + chan[1..];
  }

  lemma ReturnKeeps(s: Source, a: Action)
    requires Inv(s) && Enabled(s, a) && (a.CreateReceiveNone? || a.CreateReturn?)
    ensures Inv(Step(s, a))
  {
  }

  lemma HeadInHand(log: seq<Entry>, ignore: bool, lo: nat, hi: nat, v: nat, rest: seq<nat>)
    requires hi <= |log| && [v] + rest == Visible(log, ignore, lo, hi)
    ensures lo <= v < hi && Shown(log, ignore, v)
    ensures Visible(log, ignore, lo, v + 1) == [v] && rest == Visible(log, ignore, v + 1, hi)
  {
    assert ([v] + rest)[1..] == rest;
    VisibleHead(log, ignore, lo, hi);
  }

  lemma RunExtends(log: seq<Entry>, ignore: bool, delivered: seq<nat>, origin: nat, cursor: nat, v: nat)
    requires origin <= cursor <= v < |log|
    requires delivered == Visible(log, ignore, origin, cursor) && Visible(log, ignore, cursor, v + 1) == [v]
    ensures delivered + [v] == Visible(log, ignore, origin, v + 1)
  {
    VisibleSplit(log, ignore, origin, cursor, v + 1);
  }

  lemma RecordInHand(s: Source)
    requires Inv(s) && s.create.Committing? && s.ctl.worker !in s.ctl.cancelled
    ensures var w, v, ignore := s.ctl.worker, s.create.seqNum, s.settings.ignoreCommands;
            && s.readers[w].isOpen && s.readers[w].pos <= |s.log|
            && [v] + s.channels[w] == Visible(s.log, ignore, Cursor(s), s.readers[w].pos)
  {
    assert InHand(s) == [s.create.seqNum];
  }

  /** Committing moves the record in hand to the end of the delivered run. */
  lemma CommitExtendsRun(s: Source)
    requires Inv(s) && s.create.Committing? && s.ctl.worker !in s.ctl.cancelled
    ensures var w, v, ignore := s.ctl.worker, s.create.seqNum, s.settings.ignoreCommands;
            && s.readers[w].isOpen && Cursor(s) <= v < s.readers[w].pos && Shown(s.log, ignore, v)
            && s.channels[w] == Visible(s.log, ignore, v + 1, s.readers[w].pos)
            && s.delivered + [v]
               == Visible(s.log, ignore, if s.ctl.lastDelivered.None? then s.readers[w].from else s.origin, v + 1)
  {
    var w, v, ignore := s.ctl.worker, s.create.seqNum, s.settings.ignoreCommands;
    RecordInHand(s);
    HeadInHand(s.log, ignore, Cursor(s), s.readers[w].pos, v, s.channels[w]);
    if s.ctl.lastDelivered.Some? {
      RunExtends(s.log, ignore, s.delivered, s.origin, Cursor(s), v);
    } else {
      assert s.delivered + [v] == [v];
    }
  }

  lemma CommitOkKeeps(s: Source)
    requires Inv(s) && s.create.Committing? && Commit(s.ctl, s.create.token, s.create.seqNum).Ok?
    ensures Inv(CommitStep(s, true))
  {
    var s', w, v := CommitStep(s, true), s.ctl.worker, s.create.seqNum;
    CommitExtendsRun(s);
    assert s'.ctl == s.ctl.(lastDelivered := Some(v)) && s'.create == Idle;
    assert s'.readers == s.readers && s'.channels == s.channels && s'.log == s.log && s'.settings == s.settings;
    assert IdsOk(s') && CreateOk(s') && DeliveredOk(s');
    assert Cursor(s') == v + 1;
    assert ReaderOk(s');
    assert InHand(s') + s'.channels[w] == s.channels[w];
    assert InFlightOk(s');
  }

  lemma CommitKeeps(s: Source, metadataOk: bool)
    requires Inv(s) && s.create.Committing?
    ensures Inv(CommitStep(s, metadataOk))
  {
    if metadataOk && Commit(s.ctl, s.create.token, s.create.seqNum).Ok? {
      CommitOkKeeps(s);
    } else {
      assert ReaderOk(CommitStep(s, metadataOk));
    }
  }

  lemma FlushStartKeeps(s: Source)
    requires Inv(s)
    ensures Inv(Step(s, FlushStart))
  {
  }

  lemma FlushStopKeeps(s: Source)
    requires Inv(s) && s.create.Idle?
    ensures Inv(FlushStopStep(s))
  {
  }

  lemma StepInv(s: Source, a: Action)
    requires Inv(s) && Enabled(s, a) && NoOverlap(s, a)
    ensures Inv(Step(s, a))
  {
    match a
    case Append(entry) => AppendKeeps(s, entry);
    case ReaderCheck(id) =>
      if id == s.ctl.worker { CheckKeeps(s, id); } else { ElsewhereKeeps(s, id, CheckStep(s, id).readers[id]); }
    case ReaderOpen(id) =>
      if id == s.ctl.worker { OpenKeeps(s, id); } else { ElsewhereKeeps(s, id, OpenStep(s, id).readers[id]); }
    case ReaderPush(id) =>
      if id == s.ctl.worker { PushKeeps(s, id); } else { PushElsewhereKeeps(s, id); }
    case ReaderEnd(id) =>
      if id == s.ctl.worker { PhaseKeeps(s, id, Ended, s.readers[id].tailError); }
      else { ElsewhereKeeps(s, id, s.readers[id].(phase := Ended)); }
    case CreateTake => TakeKeeps(s);
    case CreateReceive => ReceiveKeeps(s);
    case CreateReceiveNone => ReturnKeeps(s, a);
    case CreateReturn => ReturnKeeps(s, a);
    case CreateCommit(metadataOk) => CommitKeeps(s, metadataOk);
    case FlushStart => FlushStartKeeps(s);
    case FlushStop => FlushStopKeeps(s);
  }

  // ---------------------------------------------------------------- whole runs

  /** A run from `s`; unless `overlap` is allowed it respects the base class's rule. */
  function Run(s: Source, trace: seq<Action>, overlap: bool): Option<Source>
    decreases |trace|
  {
    if trace == [] then Some(s)
    else if Enabled(s, trace[0]) && (overlap || NoOverlap(s, trace[0])) then Run(Step(s, trace[0]), trace[1..], overlap)
    else None
  }

  lemma StepKeepsSettings(s: Source, a: Action)
    requires Enabled(s, a)
    ensures Step(s, a).settings == s.settings && s.log <= Step(s, a).log
  {
  }

  lemma {:induction false} RunInv(s: Source, trace: seq<Action>)
    requires Inv(s) && Run(s, trace, false).Some?
    ensures Inv(Run(s, trace, false).value) && Run(s, trace, false).value.settings == s.settings
    decreases |trace|
  {
    if trace != [] {
      StepInv(s, trace[0]);
      StepKeepsSettings(s, trace[0]);
      RunInv(Step(s, trace[0]), trace[1..]);
    }
  }

  /** Where the settings let the run begin, for the log as it was when the session was opened: at the first record; at
      the configured sequence number or, clamped, at the tail if that is less; at the first record that is not older
      than the configured time; or so many records before the tail. */
  lemma StartIsConfigured(settings: Settings, log: seq<Entry>)
    ensures var at := Resolve(ConfiguredStart(settings), log);
            match settings.mode
            case Earliest => at == 0
            case Sequence =>
              at == if settings.clampToTail then Min(settings.startSeqNum, |log|) else settings.startSeqNum
            case AtTimestamp =>
              && at <= |log| && (forall k :: 0 <= k < at ==> log[k].timestamp < settings.startTimestamp)
              && (at < |log| ==> log[at].timestamp >= settings.startTimestamp)
            case FromTail => at == Max(|log| - settings.tailOffset, 0)
  {
  }

  /** Exactly-once delivery: over any number of flushes and restarts, what `create` returned is one run of the log
      from where the settings say, in order, without gaps or duplicates, up to the last record delivered. */
  lemma ExactlyOnce(settings: Settings, log: seq<Entry>, trace: seq<Action>)
    requires Run(Initial(settings, log), trace, false).Some?
    ensures var s := Run(Initial(settings, log), trace, false).value;
            s.delivered != [] ==>
              && var last := s.delivered[|s.delivered| - 1];
              && s.origin <= last < |s.log| && s.opening <= s.log
              && (forall v: nat :: v in s.delivered <==>
                    s.origin <= v <= last && (settings.ignoreCommands ==> !s.log[v].command))
              && (forall i, j :: 0 <= i < j < |s.delivered| ==> s.delivered[i] < s.delivered[j])
              && (match settings.mode
                  case Earliest => s.origin == 0
                  case Sequence =>
                    s.origin == if settings.clampToTail then Min(settings.startSeqNum, |s.opening|)
                                else settings.startSeqNum
                  case AtTimestamp =>
                    && (forall k :: 0 <= k < s.origin ==> s.log[k].timestamp < settings.startTimestamp)
                    && (s.origin < |s.opening| ==> s.log[s.origin].timestamp >= settings.startTimestamp)
                    && s.origin <= |s.opening|
                  case FromTail => s.origin == Max(|s.opening| - settings.tailOffset, 0))
  {
    InitialInv(settings, log);
    RunInv(Initial(settings, log), trace);
    var s := Run(Initial(settings, log), trace, false).value;
    if s.delivered != [] {
      LastIsCursor(s);
      VisibleIsFilteredRange(s.log, settings.ignoreCommands, s.origin, s.delivered[|s.delivered| - 1] + 1);
      StartIsConfigured(settings, s.opening);
    }
  }

  lemma LastIsCursor(s: Source)
    requires Inv(s) && s.delivered != []
    ensures s.ctl.lastDelivered == Some(s.delivered[|s.delivered| - 1])
  {
    var last := s.ctl.lastDelivered.value;
    VisibleIsFilteredRange(s.log, s.settings.ignoreCommands, s.origin, last + 1);
    assert s.delivered[|s.delivered| - 1] in s.delivered;
    assert last in s.delivered;
  }

  /** A resumed reader never fails its own tail check. */
  lemma ResumePassesTailCheck(settings: Settings, log: seq<Entry>, trace: seq<Action>)
    requires Run(Initial(settings, log), trace, false).Some?
    requires var s := Run(Initial(settings, log), trace, false).value;
             s.ctl.lastDelivered.Some? && Enabled(s, ReaderCheck(s.ctl.worker))
    ensures var s := Run(Initial(settings, log), trace, false).value;
            CheckStep(s, s.ctl.worker).readers[s.ctl.worker].phase == Opening
  {
    InitialInv(settings, log);
    RunInv(Initial(settings, log), trace);
  }

  /** The first reader fails its tail check exactly for an unclamped start beyond the tail: a sequence number past the
      next one to be written, or a time later than that of the last record. */
  lemma TailCheckIff(settings: Settings, log: seq<Entry>)
    ensures var s := Initial(settings, log);
            var r := Step(s, ReaderCheck(0)).readers[0];
            && (r.tailError <==>
                  && !settings.clampToTail
                  && ((settings.mode.Sequence? && settings.startSeqNum > |log|)
                      || (settings.mode.AtTimestamp?
                          && settings.startTimestamp > if log == [] then 0 else log[|log| - 1].timestamp)))
            && r.phase == (if r.tailError then Ended else Opening)
  {
  }

  /** The end of a flush replaces the reader by one with an empty channel that starts right after the last record
      delivered, without clamping, or where the settings say if there is none; it resumes a stream that had ended. */
  lemma FlushStopRestarts(s: Source)
    requires s.ctl.lastDelivered.Some? ==> s.ctl.lastDelivered.value < U64_MAX
    ensures var next := Step(s, FlushStop);
            && next.ctl.worker == s.nextId && next.ctl.receiver == Some(s.nextId) && !next.ctl.flushing && !next.ended
            && s.nextId in next.readers && s.nextId in next.channels && next.channels[s.nextId] == []
            && next.readers[s.nextId].phase == Connecting
            && next.readers[s.nextId].start
               == (if s.ctl.lastDelivered.Some? then ReadStart(SeqNum(s.ctl.lastDelivered.value + 1), false)
                   else ConfiguredStart(s.settings))
  {
  }

  /** How a call of `create` ends: a record goes on to be committed unless a flush or a cancelled reader interrupted the
      call; without a record an uninterrupted call ends the stream until the next restart. Either way the receiver is
      back. */
  lemma CreateEndsIff(s: Source)
    requires Enabled(s, CreateReturn)
    ensures var next := Step(s, CreateReturn);
            var interrupted := s.ctl.flushing || s.create.token in s.ctl.cancelled;
            && next.ctl.receiver == Some(s.create.chan) && next.delivered == s.delivered
            && (next.ended <==> s.ended || (!interrupted && s.create.record.None?))
            && next.create == (if !interrupted && s.create.record.Some?
                               then Committing(s.create.token, s.create.record.value) else Idle)
  {
  }

  // ---------------------------------------------------------------- everything can be delivered

  /** A current reader that will come to read, and a `create` that has or may get a record. */
  ghost predicate Serving(s: Source) {
    && Inv(s) && s.settings.capacity > 0 && !s.ctl.flushing && s.ctl.worker !in s.ctl.cancelled && !s.ended
    && var r := s.readers[s.ctl.worker];
    && !r.phase.Ended?
    && (r.phase.Connecting? ==> r.start.clampToTail || WithinTail(r.start.from, |s.log|, TailTimestamp(s.log)))
    && (!r.phase.Reading? ==> s.channels[s.ctl.worker] == [] && s.create.Idle?)
    && (s.create.Receiving? ==> s.channels[s.ctl.worker] != [])
    && (s.create.Got? ==> s.create.record.Some?)
  }

  function Stage(p: Phase): nat { if p.Connecting? then 2 else if p.Opening? then 1 else 0 }

  function CreateStage(c: Create): nat {
    match c
    case Idle => 3
    case Receiving(_, _) => 2
    case Got(_, _, _) => 1
    case Committing(_, _) => 0
  }

  ghost predicate Served(s: Source) {
    && Serving(s) && s.create.Idle? && s.channels[s.ctl.worker] == []
    && s.readers[s.ctl.worker].phase.Reading? && s.readers[s.ctl.worker].pos == |s.log|
  }

  function Unread(s: Source): int
    requires s.ctl.worker in s.readers
  {
    |s.log| - s.readers[s.ctl.worker].pos
  }

  function Held(s: Source): nat
    requires s.ctl.worker in s.channels
  {
    |s.channels[s.ctl.worker]| + |InHand(s)|
  }

  /** Where the delivered run begins, or will begin. */
  function First(s: Source): nat
    requires s.ctl.worker in s.readers
  {
    if s.ctl.lastDelivered.Some? then s.origin
    else if s.readers[s.ctl.worker].isOpen then s.readers[s.ctl.worker].from
    else Resolve(ConfiguredStart(s.settings), s.log)
  }

  /** The end has come closer, and nothing else changed. */
  ghost predicate Closer(s: Source, s': Source) {
    && Serving(s) && Serving(s') && s'.log == s.log && s'.settings == s.settings
    && s'.ctl.worker == s.ctl.worker && First(s') == First(s)
    && var (p, p') := (Stage(s.readers[s.ctl.worker].phase), Stage(s'.readers[s.ctl.worker].phase));
    && p' <= p
    && (p' == p ==>
          && Unread(s') <= Unread(s)
          && (Unread(s') == Unread(s) ==>
                Held(s') < Held(s) || (Held(s') == Held(s) && CreateStage(s'.create) < CreateStage(s.create))))
  }

  lemma ReaderAdvances(s: Source) returns (a: Action)
    requires Serving(s) && s.create.Idle? && s.channels[s.ctl.worker] == []
    requires !s.readers[s.ctl.worker].phase.Reading? || s.readers[s.ctl.worker].pos < |s.log|
    ensures Enabled(s, a) && !a.FlushStop? && Closer(s, Step(s, a)) && Step(s, a).delivered == s.delivered
  {
    var id := s.ctl.worker;
    a := if s.readers[id].phase.Connecting? then ReaderCheck(id)
         else if s.readers[id].phase.Opening? then ReaderOpen(id) else ReaderPush(id);
    StepInv(s, a);
  }

  lemma CreateAdvances(s: Source) returns (a: Action)
    requires Serving(s) && (!s.create.Idle? || s.channels[s.ctl.worker] != [])
    ensures Enabled(s, a) && !a.FlushStop? && Closer(s, Step(s, a))
  {
    a := match s.create
         case Idle => CreateTake
         case Receiving(_, _) => CreateReceive
         case Got(_, _, _) => CreateReturn
         case Committing(_, _) => CreateCommit(true);
    StepInv(s, a);
  }

  lemma Advance(s: Source) returns (a: Action)
    requires Serving(s) && !Served(s)
    ensures Enabled(s, a) && !a.FlushStop? && Closer(s, Step(s, a))
  {
    if s.create.Idle? && s.channels[s.ctl.worker] == [] {
      a := ReaderAdvances(s);
    } else {
      a := CreateAdvances(s);
    }
  }

  lemma {:induction false} ServeAll(s: Source) returns (rest: seq<Action>)
    requires Serving(s)
    ensures Run(s, rest, false).Some? && Served(Run(s, rest, false).value)
    ensures var end := Run(s, rest, false).value;
            end.log == s.log && end.settings == s.settings && First(end) == First(s)
    decreases Stage(s.readers[s.ctl.worker].phase), Unread(s), Held(s), CreateStage(s.create)
  {
    if Served(s) {
      rest := [];
    } else {
      var a := Advance(s);
      var more := ServeAll(Step(s, a));
      rest := [a] + more;
      assert rest[1..] == more;
    }
  }

  lemma ServedIsComplete(s: Source)
    requires Served(s)
    ensures s.delivered
            == (if First(s) <= |s.log| then Visible(s.log, s.settings.ignoreCommands, First(s), |s.log|) else [])
  {
    if s.ctl.lastDelivered.Some? {
      VisibleSplit(s.log, s.settings.ignoreCommands, s.origin, Cursor(s), |s.log|);
    }
  }

  lemma FlushStopServes(s: Source)
    requires Inv(s) && s.create.Idle? && s.settings.capacity > 0 && ResumePoint(s.ctl).Some?
    requires s.ctl.lastDelivered.None? ==>
               || s.settings.clampToTail
               || WithinTail(ConfiguredStart(s.settings).from, |s.log|, TailTimestamp(s.log))
    ensures Serving(Step(s, FlushStop))
    ensures First(Step(s, FlushStop))
            == if s.ctl.lastDelivered.Some? then s.origin else Resolve(ConfiguredStart(s.settings), s.log)
  {
    FlushStopKeeps(s);
  }

  /** Nothing is stuck: in any reachable state between calls of `create`, after a flush every record of the log from
      the start of the run on can still be delivered, unless the first session would fail its tail check or the last
      sequence number has no successor. */
  lemma EverythingCanBeDelivered(settings: Settings, log: seq<Entry>, trace: seq<Action>)
    requires Run(Initial(settings, log), trace, false).Some? && settings.capacity > 0
    requires var s := Run(Initial(settings, log), trace, false).value;
             && s.create.Idle? && (s.ctl.lastDelivered.Some? ==> s.ctl.lastDelivered.value < U64_MAX)
             && (s.ctl.lastDelivered.None? && !settings.clampToTail ==>
                   && (settings.mode.Sequence? ==> settings.startSeqNum <= |s.log|)
                   && (settings.mode.AtTimestamp? ==> settings.startTimestamp <= TailTimestamp(s.log)))
    ensures var s := Run(Initial(settings, log), trace, false).value;
            exists rest, end ::
              && Run(s, [FlushStop] + rest, false) == Some(end) && end.log == s.log
              && var first := if s.delivered != [] then s.origin else Resolve(ConfiguredStart(settings), s.log);
              forall v: nat :: v in end.delivered <==>
                first <= v < |s.log| && (settings.ignoreCommands ==> !s.log[v].command)
  {
    InitialInv(settings, log);
    RunInv(Initial(settings, log), trace);
    var s := Run(Initial(settings, log), trace, false).value;
    FlushStopServes(s);
    var rest := ServeAll(Step(s, FlushStop));
    var end := Run(Step(s, FlushStop), rest, false).value;
    assert ([FlushStop] + rest)[1..] == rest;
    assert Run(s, [FlushStop] + rest, false) == Some(end);
    ServedIsComplete(end);
    if First(end) <= |s.log| {
      VisibleIsFilteredRange(s.log, settings.ignoreCommands, First(end), |s.log|);
    }
    assert s.delivered != [] <==> s.ctl.lastDelivered.Some? by {
      DeliveredSome(s);
    }
  }

  lemma DeliveredSome(s: Source)
    requires Inv(s)
    ensures s.delivered != [] <==> s.ctl.lastDelivered.Some?
  {
    if s.ctl.lastDelivered.Some? {
      VisibleIsFilteredRange(s.log, s.settings.ignoreCommands, s.origin, s.ctl.lastDelivered.value + 1);
      assert s.ctl.lastDelivered.value in s.delivered;
    }
  }

  lemma RunCons(s: Source, a: Action, rest: seq<Action>)
    requires Enabled(s, a)
    ensures Run(s, [a] + rest, true) == Run(Step(s, a), rest, true)
  {
    assert ([a] + rest)[1..] == rest;
  }

  lemma {:induction false} RunConcat(s: Source, first: seq<Action>, second: seq<Action>)
    requires Run(s, first, true).Some?
    ensures Run(s, first + second, true) == Run(Run(s, first, true).value, second, true)
    decreases |first|
  {
    if first == [] {
      assert first + second == second;
    } else {
      var rest := first[1..];
      assert first + second == [first[0]] + (rest + second);
      RunCons(s, first[0], rest + second);
      RunConcat(Step(s, first[0]), rest, second);
    }
  }

  const OVERLAP_SETTINGS := Settings(Sequence, 0, 0, 0, false, false, 2)
  const OVERLAP_LOG := [Entry(false, 0), Entry(false, 0)]
  const OVERLAP_OPEN := [ReaderCheck(0), ReaderOpen(0)]
  const OVERLAP_PUSH := [ReaderPush(0), ReaderPush(0)]
  const OVERLAP_FLUSH := [CreateTake, CreateReceive, FlushStart, FlushStop]
  const OVERLAP_RETURN := [CreateReturn, CreateTake, CreateReceive]
  const OVERLAP_DELIVER := [CreateReturn, CreateCommit(true)]

  lemma OverlapOpen() returns (s: Source)
    ensures Run(Initial(OVERLAP_SETTINGS, OVERLAP_LOG), OVERLAP_OPEN, true) == Some(s)
    ensures s == Source(OVERLAP_SETTINGS, Control(0, Some(0), {}, false, None), s.readers, map[0 := []], 1,
                        Idle, false, OVERLAP_LOG, [], 0, [])
    ensures 0 in s.readers && s.readers[0].phase == Reading && s.readers[0].pos == 0
  {
    var s0 := Initial(OVERLAP_SETTINGS, OVERLAP_LOG);
    var s1 := Step(s0, ReaderCheck(0));
    s := Step(s1, ReaderOpen(0));
    RunCons(s1, ReaderOpen(0), []);
    RunCons(s0, ReaderCheck(0), [ReaderOpen(0)]);
    assert [ReaderOpen(0)] + [] == [ReaderOpen(0)];
    assert OVERLAP_OPEN == [ReaderCheck(0)] + [ReaderOpen(0)];
  }

  lemma OverlapPush(s0: Source) returns (s: Source)
    requires s0 == Source(OVERLAP_SETTINGS, Control(0, Some(0), {}, false, None), s0.readers, map[0 := []], 1,
                          Idle, false, OVERLAP_LOG, [], 0, [])
    requires 0 in s0.readers && s0.readers[0].phase == Reading && s0.readers[0].pos == 0
    ensures Run(s0, OVERLAP_PUSH, true) == Some(s)
    ensures s == Source(OVERLAP_SETTINGS, Control(0, Some(0), {}, false, None), s.readers, map[0 := [0, 1]], 1,
                        Idle, false, OVERLAP_LOG, [], 0, [])
  {
    var s1 := Step(s0, ReaderPush(0));
    s := Step(s1, ReaderPush(0));
    RunCons(s1, ReaderPush(0), []);
    RunCons(s0, ReaderPush(0), [ReaderPush(0)]);
    assert [ReaderPush(0)] + [] == [ReaderPush(0)];
    assert OVERLAP_PUSH == [ReaderPush(0)] + [ReaderPush(0)];
    assert [] + [0] == [0] && [0] + [1] == [0, 1];
    assert s1.readers[0].pos == 1 && s1.channels[0] == [0] && s.channels[0] == [0, 1];
    assert s.channels == map[0 := [0, 1]];
  }

  lemma OverlapFlush(s0: Source) returns (s: Source)
    requires s0.ctl == Control(0, Some(0), {}, false, None) && s0.channels == map[0 := [0, 1]] && s0.nextId == 1
    requires s0.create == Idle && !s0.ended
    ensures Run(s0, OVERLAP_FLUSH, true) == Some(s)
    ensures s.ctl == Control(1, Some(1), {0}, false, None) && s.create == Got(0, 0, Some(0)) && !s.ended
    ensures 0 in s.channels && s.channels[0] == [1]
    ensures s.log == s0.log && s.settings == s0.settings && s.delivered == s0.delivered
  {
    var s1 := Step(s0, CreateTake);
    var s2 := Step(s1, CreateReceive);
    var s3 := Step(s2, FlushStart);
    s := Step(s3, FlushStop);
    RunCons(s3, FlushStop, []);
    RunCons(s2, FlushStart, [FlushStop]);
    RunCons(s1, CreateReceive, [FlushStart, FlushStop]);
    RunCons(s0, CreateTake, [CreateReceive, FlushStart, FlushStop]);
    assert [FlushStop] + [] == [FlushStop];
    assert [FlushStart] + [FlushStop] == [FlushStart, FlushStop];
    assert [CreateReceive] + [FlushStart, FlushStop] == [CreateReceive, FlushStart, FlushStop];
    assert OVERLAP_FLUSH == [CreateTake] + [CreateReceive, FlushStart, FlushStop];
  }

  lemma OverlapReturn(s0: Source) returns (s: Source)
    requires s0.ctl == Control(1, Some(1), {0}, false, None) && s0.create == Got(0, 0, Some(0)) && !s0.ended
    requires 0 in s0.channels && s0.channels[0] == [1]
    ensures Run(s0, OVERLAP_RETURN, true) == Some(s)
    ensures s.ctl == Control(1, None, {0}, false, None) && s.create == Got(0, 1, Some(1)) && !s.ended
    ensures s.log == s0.log && s.settings == s0.settings && s.delivered == s0.delivered
  {
    var s1 := Step(s0, CreateReturn);
    var s2 := Step(s1, CreateTake);
    s := Step(s2, CreateReceive);
    RunCons(s2, CreateReceive, []);
    RunCons(s1, CreateTake, [CreateReceive]);
    RunCons(s0, CreateReturn, [CreateTake, CreateReceive]);
    assert [CreateReceive] + [] == [CreateReceive];
    assert [CreateTake] + [CreateReceive] == [CreateTake, CreateReceive];
    assert OVERLAP_RETURN == [CreateReturn] + [CreateTake, CreateReceive];
  }

  lemma OverlapDeliver(s0: Source) returns (s: Source)
    requires s0.ctl == Control(1, None, {0}, false, None) && s0.create == Got(0, 1, Some(1)) && !s0.ended
    ensures Run(s0, OVERLAP_DELIVER, true) == Some(s)
    ensures s.log == s0.log && s.settings == s0.settings && s.delivered == s0.delivered + [1]
  {
    var s1 := Step(s0, CreateReturn);
    s := Step(s1, CreateCommit(true));
    RunCons(s1, CreateCommit(true), []);
    RunCons(s0, CreateReturn, [CreateCommit(true)]);
    assert [CreateCommit(true)] + [] == [CreateCommit(true)];
    assert OVERLAP_DELIVER == [CreateReturn] + [CreateCommit(true)];
  }

  lemma OverlapStart() returns (trace: seq<Action>, s: Source)
    ensures Run(Initial(OVERLAP_SETTINGS, OVERLAP_LOG), trace, true) == Some(s)
    ensures s.ctl == Control(1, Some(1), {0}, false, None) && s.create == Got(0, 0, Some(0)) && !s.ended
    ensures 0 in s.channels && s.channels[0] == [1] && s.log == OVERLAP_LOG && s.delivered == []
  {
    var s0 := Initial(OVERLAP_SETTINGS, OVERLAP_LOG);
    var s1 := OverlapOpen();
    var s2 := OverlapPush(s1);
    s := OverlapFlush(s2);
    trace := OVERLAP_OPEN + OVERLAP_PUSH + OVERLAP_FLUSH;
    RunConcat(s0, OVERLAP_OPEN, OVERLAP_PUSH);
    RunConcat(s0, OVERLAP_OPEN + OVERLAP_PUSH, OVERLAP_FLUSH);
  }

  lemma OverlapEnd(before: seq<Action>, s: Source) returns (trace: seq<Action>, end: Source)
    requires Run(Initial(OVERLAP_SETTINGS, OVERLAP_LOG), before, true) == Some(s)
    requires s.ctl == Control(1, Some(1), {0}, false, None) && s.create == Got(0, 0, Some(0)) && !s.ended
    requires 0 in s.channels && s.channels[0] == [1]
    ensures Run(Initial(OVERLAP_SETTINGS, OVERLAP_LOG), trace, true) == Some(end)
    ensures end.log == s.log && end.delivered == s.delivered + [1]
  {
    var s0 := Initial(OVERLAP_SETTINGS, OVERLAP_LOG);
    var s3 := OverlapReturn(s);
    end := OverlapDeliver(s3);
    trace := before + OVERLAP_RETURN + OVERLAP_DELIVER;
    RunConcat(s0, before, OVERLAP_RETURN);
    RunConcat(s0, before + OVERLAP_RETURN, OVERLAP_DELIVER);
  }

  /** The base class's rule is needed: when flush-stop overlaps `create`, the record in `create`'s hands is
      dropped, its old receiver displaces the new one, and the next record is delivered in its place. */
  lemma OverlapLosesARecord()
    ensures PinnedStart(OVERLAP_SETTINGS)
    ensures exists trace: seq<Action> ::
              var r := Run(Initial(OVERLAP_SETTINGS, OVERLAP_LOG), trace, true);
              r.Some? && r.value.delivered == [1] && r.value.log == OVERLAP_LOG
    ensures Visible(OVERLAP_LOG, false, 0, 2) == [0, 1]
  {
    var first, s := OverlapStart();
    var trace, end := OverlapEnd(first, s);
    assert end.delivered == [1];
    OverlapVisible();
  }

  lemma OverlapVisible()
    ensures Visible(OVERLAP_LOG, false, 0, 2) == [0, 1]
  {
    assert Visible(OVERLAP_LOG, false, 0, 1) == [0];
  }
}
