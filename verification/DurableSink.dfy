/** The durable sink as a transition system: enqueuing threads, the append worker, drainers, flushes and
    stop, interleaved at every lock section, await point and condition-variable operation.
    The remote log is abstract: it only grows, in submission order, and `flush` and `close` succeed only
    once everything submitted before is acknowledged. Clocks and remote failures are free choices. */
module DurableSink {
  import opened Common
  import opened SharedQueue

  type Tid = nat

  datatype Worker =
    | Connecting
    | Top
    | Submitting(record: Record)
    | FlushCall(ticket: Ticket, begun: nat)
    | Flushed(ticket: Ticket, begun: nat)
    | Parked
    | CloseCall
    | Observing
    | Failing(detail: string)
    | Reporting
    | Finishing
    | Exited
    | Aborted

  datatype Phase = Checking | Waiting | TimingOut

  datatype Drainer = Drainer(
    ticket: Ticket,
    phase: Phase,
    eos: bool,
    // What had been accepted, and how many flushes had begun, when this drain took the lock.
    acceptedBefore: nat,
    flushesBefore: nat)

  datatype Sink = Sink(
    capacity: nat,
    q: QueueState,
    permit: bool,
    nextTicket: Ticket,
    // Completed requests, with the index of the flush that completed each.
    drained: map<Ticket, nat>,
    worker: Worker,
    hand: Option<Record>,
    // Enqueuers blocked on the capacity condition, and those notified but not yet holding the lock.
    carrying: map<Tid, Record>,
    asleep: set<Tid>,
    woken: set<Tid>,
    drainers: map<Tid, Drainer>,
    // Notifications decided under the lock and still to be delivered.
    wakeEnqueuers: nat,
    wakeDrainers: nat,
    wakeWorker: nat,
    unlockEnqueuers: bool,
    unlockDrainers: bool,
    stopped: bool,
    closing: bool,
    errorPosted: bool,
    posts: nat,
    // History.
    accepted: seq<Record>,
    submitted: seq<Record>,
    log: seq<Record>,
    flushesBegun: nat)

  function Initial(capacity: nat): Sink {
    Sink(capacity, INITIAL, false, 0, map[], Connecting, None, map[], {}, {}, map[],
         0, 0, 0, false, false, false, false, false, 0, [], [], [], 0)
  }

  datatype Action =
    | Render(tid: Tid, record: Record)
    | Retry(tid: Tid)
    | SpuriousWake(tid: Tid)
    | DeliverToEnqueuers
    | DeliverToDrainers
    | DeliverToWorker
    | UnlockNotifiesEnqueuers
    | UnlockNotifiesDrainers
    | ConnectOk
    | WorkerTake(wake: Option<Tid>)
    | SubmitOk
    | Acknowledge(upTo: nat)
    | FlushOk
    | CompleteDrain
    | ParkNotified
    | ParkTicket
    | CloseOk
    | TicketsOk
    | WorkerError(detail: string)
    | WorkerStoreFailure
    | WorkerReport
    | WorkerFinish
    | WorkerAbort
    | DrainStart(tid: Tid, eos: bool)
    | DrainCheck(tid: Tid, expired: bool)
    | DrainWake(tid: Tid)
    | DrainTimeout(tid: Tid)
    | StopTake
    | StopClose
    | Unlock
    | UnlockStop

  function HandSeq(s: Sink): seq<Record> {
    if s.hand.Some? then [s.hand.value] else []
  }

  predicate Phased(s: Sink, tid: Tid, phase: Phase) {
    tid in s.drainers && s.drainers[tid].phase == phase
  }

  predicate CanFail(w: Worker) {
    w.Connecting? || w.Submitting? || w.FlushCall? || w.Parked? || w.CloseCall? || w.Observing?
  }

  predicate Enabled(s: Sink, a: Action) {
    match a
    case Render(tid, _) => tid !in s.asleep + s.woken
    case Retry(tid) => tid in s.woken && tid in s.carrying
    case SpuriousWake(tid) => tid in s.asleep
    case DeliverToEnqueuers => s.wakeEnqueuers > 0
    case DeliverToDrainers => s.wakeDrainers > 0
    case DeliverToWorker => s.wakeWorker > 0
    case UnlockNotifiesEnqueuers => s.unlockEnqueuers
    case UnlockNotifiesDrainers => s.unlockDrainers
    case ConnectOk => s.worker.Connecting?
    case WorkerTake(wake) =>
      s.worker.Top?
      && (if s.q.records != [] && s.asleep != {} then wake.Some? && wake.value in s.asleep else wake.None?)
    case SubmitOk => s.worker.Submitting?
    case Acknowledge(upTo) => |s.log| <= upTo <= |s.submitted + HandSeq(s)|
    case FlushOk => s.worker.FlushCall? && s.log == s.submitted
    case CompleteDrain => s.worker.Flushed?
    case ParkNotified => s.worker.Parked? && s.permit
    case ParkTicket => s.worker.Parked?
    case CloseOk => s.worker.CloseCall? && s.log == s.submitted
    case TicketsOk => s.worker.Observing?
    case WorkerError(_) => CanFail(s.worker)
    case WorkerStoreFailure => s.worker.Failing?
    case WorkerReport => s.worker.Reporting?
    case WorkerFinish => s.worker.Finishing?
    case WorkerAbort => s.stopped && !s.worker.Exited?
    case DrainStart(tid, _) => tid !in s.drainers
    case DrainCheck(tid, _) => Phased(s, tid, Checking)
    case DrainWake(tid) => Phased(s, tid, Waiting)
    case DrainTimeout(tid) => Phased(s, tid, TimingOut)
    case StopTake => !s.stopped && !s.unlockEnqueuers && !s.unlockDrainers
    case StopClose => s.closing
    case Unlock => !s.stopped && !s.unlockEnqueuers && !s.unlockDrainers
    case UnlockStop => !s.stopped && !s.unlockEnqueuers && !s.unlockDrainers
  }

  /** One pass of the enqueue loop by `tid`. */
  function AttemptStep(s: Sink, tid: Tid, record: Record): Sink {
    var attempt := AttemptOf(s.q, s.capacity);
    s.(q := Enqueue(s.q, record, s.capacity),
       accepted := if attempt.Queued? then s.accepted + [record] else s.accepted,
       wakeWorker := if attempt.Queued? then s.wakeWorker + 1 else s.wakeWorker,
       asleep := if attempt.MustWait? then s.asleep + {tid} else s.asleep,
       woken := s.woken - {tid},
       carrying := if attempt.MustWait? then s.carrying[tid := record] else s.carrying - {tid})
  }

  function AfterTake(s: Sink): Worker {
    var taken := TakenFrom(s.q);
    if taken.record.Some? then Submitting(taken.record.value)
    else if !taken.accepting then CloseCall
    else if taken.drain.Some? then FlushCall(taken.drain.value, s.flushesBegun)
    else Parked
  }

  /** The worker's lock section; popping a record notifies one sleeping enqueuer, if there is one. */
  function TakeStep(s: Sink, wake: Option<Tid>): Sink {
    var notified := if wake.Some? then {wake.value} else {};
    s.(q := Take(s.q), worker := AfterTake(s), hand := TakenFrom(s.q).record,
       asleep := s.asleep - notified, woken := s.woken + notified,
       flushesBegun := if AfterTake(s).FlushCall? then s.flushesBegun + 1 else s.flushesBegun)
  }

  function WakeDrainers(drainers: map<Tid, Drainer>): map<Tid, Drainer> {
    map tid | tid in drainers ::
      if drainers[tid].phase.Waiting? then drainers[tid].(phase := Checking) else drainers[tid]
  }

  /** The element error is posted by whoever claims it first. */
  function ClaimAndPost(s: Sink): Sink {
    s.(errorPosted := true, posts := if s.errorPosted then s.posts else s.posts + 1)
  }

  function FailStep(s: Sink, failure: Failure): Sink {
    s.(q := StoreFailure(s.q, failure), wakeEnqueuers := s.wakeEnqueuers + 1,
       wakeDrainers := s.wakeDrainers + 1, wakeWorker := s.wakeWorker + 1)
  }

  function DrainStartStep(s: Sink, tid: Tid, eos: bool): Sink {
    var ticket := JoinedTicket(s.q, s.nextTicket);
    s.(q := JoinDrain(s.q, s.nextTicket),
       nextTicket := if s.q.drain.None? then s.nextTicket + 1 else s.nextTicket,
       permit := true,
       drainers := s.drainers[tid := Drainer(ticket, Checking, eos, |s.accepted|, s.flushesBegun)])
  }

  function Verdict(s: Sink, tid: Tid): Option<DrainOutcome>
    requires tid in s.drainers
  {
    DrainVerdict(s.q, s.drainers[tid].ticket in s.drained)
  }

  /** A drain that holds the lock returns its verdict, gives up at its deadline, or waits. */
  function DrainCheckStep(s: Sink, tid: Tid, expired: bool): Sink
    requires tid in s.drainers
  {
    var d, verdict := s.drainers[tid], Verdict(s, tid);
    var posts := d.eos && verdict.Some? && verdict.value.WorkerFailure?;
    s.(drainers := if verdict.Some? then s.drainers - {tid}
                   else s.drainers[tid := d.(phase := if expired then TimingOut else Waiting)],
       errorPosted := s.errorPosted || posts,
       posts := if posts && !s.errorPosted then s.posts + 1 else s.posts)
  }

  function DrainTimeoutStep(s: Sink, tid: Tid): Sink
    requires tid in s.drainers
  {
    var posts := s.drainers[tid].eos;
    s.(q := StoreFailure(s.q, ShutdownTimedOut), wakeEnqueuers := s.wakeEnqueuers + 1,
       wakeDrainers := s.wakeDrainers + 1, wakeWorker := s.wakeWorker + 1,
       drainers := s.drainers - {tid},
       errorPosted := s.errorPosted || posts,
       posts := if posts && !s.errorPosted then s.posts + 1 else s.posts)
  }

  function Step(s: Sink, a: Action): Sink
    requires Enabled(s, a)
  {
    match a
    case Render(tid, record) => AttemptStep(s, tid, record)
    case Retry(tid) => AttemptStep(s, tid, s.carrying[tid])
    case SpuriousWake(tid) => s.(asleep := s.asleep - {tid}, woken := s.woken + {tid})
    case DeliverToEnqueuers =>
      s.(wakeEnqueuers := s.wakeEnqueuers - 1, asleep := {}, woken := s.woken + s.asleep)
    case DeliverToDrainers => s.(wakeDrainers := s.wakeDrainers - 1, drainers := WakeDrainers(s.drainers))
    case DeliverToWorker => s.(wakeWorker := s.wakeWorker - 1, permit := true)
    case UnlockNotifiesEnqueuers => s.(unlockEnqueuers := false, asleep := {}, woken := s.woken + s.asleep)
    case UnlockNotifiesDrainers => s.(unlockDrainers := false, drainers := WakeDrainers(s.drainers))
    case ConnectOk => s.(worker := Top)
    case WorkerTake(wake) => TakeStep(s, wake)
    case SubmitOk => s.(worker := Top, hand := None, submitted := s.submitted + [s.worker.record])
    case Acknowledge(upTo) => s.(log := (s.submitted + HandSeq(s))[..upTo])
    case FlushOk => s.(worker := Flushed(s.worker.ticket, s.worker.begun))
    case CompleteDrain =>
      s.(worker := Top, drained := s.drained[s.worker.ticket := s.worker.begun], drainers := WakeDrainers(s.drainers))
    case ParkNotified => s.(worker := Top, permit := false)
    case ParkTicket => s.(worker := Top)
    case CloseOk => s.(worker := Observing)
    case TicketsOk => s.(worker := Finishing)
    case WorkerError(detail) => s.(worker := Failing(detail))
    case WorkerStoreFailure => FailStep(s, WorkerFailed(s.worker.detail)).(worker := Reporting)
    case WorkerReport => ClaimAndPost(s).(worker := Finishing)
    case WorkerFinish =>
      s.(q := Finish(s.q), worker := Exited, wakeEnqueuers := s.wakeEnqueuers + 1, wakeDrainers := s.wakeDrainers + 1)
    case WorkerAbort => s.(worker := Aborted)
    case DrainStart(tid, eos) => DrainStartStep(s, tid, eos)
    case DrainCheck(tid, expired) => DrainCheckStep(s, tid, expired)
    case DrainWake(tid) => s.(drainers := s.drainers[tid := s.drainers[tid].(phase := Checking)])
    case DrainTimeout(tid) => DrainTimeoutStep(s, tid)
    case StopTake => s.(stopped := true, closing := true)
    case StopClose =>
      s.(closing := false, q := Close(s.q), wakeEnqueuers := s.wakeEnqueuers + 1, wakeWorker := s.wakeWorker + 1)
    case Unlock => s.(q := SetFlushing(s.q, true), unlockEnqueuers := true, unlockDrainers := true)
    case UnlockStop => s.(q := SetFlushing(s.q, false))
  }

  // ---------------------------------------------------------------- the invariant

  /** Accepted records are submitted in order, then at most one in hand, then the bounded queue;
      the log holds a prefix of what has been handed over. */
  ghost predicate Conserved(s: Sink) {
    && s.accepted == s.submitted + HandSeq(s) + s.q.records
    && |s.q.records| <= s.capacity
    && s.log <= s.submitted + HandSeq(s)
    && (s.worker.Submitting? ==> s.hand == Some(s.worker.record))
    && ((CanFail(s.worker) && !s.worker.Submitting?) || s.worker.Top? || s.worker.Flushed? ==> s.hand.None?)
  }

  predicate Holds(w: Worker, ticket: Ticket) {
    (w.FlushCall? || w.Flushed?) && w.ticket == ticket
  }

  /** A completion flag is queued, in the worker's hands or set, never two of these. */
  ghost predicate TicketsOk(s: Sink) {
    && (s.q.drain.Some? ==>
          s.q.drain.value < s.nextTicket && s.q.drain.value !in s.drained && !Holds(s.worker, s.q.drain.value))
    && (s.worker.FlushCall? || s.worker.Flushed? ==>
          s.worker.ticket < s.nextTicket && s.worker.ticket !in s.drained && s.worker.begun < s.flushesBegun)
    && (forall t :: t in s.drained ==> t < s.nextTicket && s.drained[t] < s.flushesBegun)
    && (s.worker.Flushed? ==> s.log == s.submitted)
  }

  /** What a drain may rely on, depending on where its request is. */
  ghost predicate DrainerOk(s: Sink, d: Drainer) {
    && d.ticket < s.nextTicket && d.acceptedBefore <= |s.accepted| && d.flushesBefore <= s.flushesBegun
    && (d.ticket in s.drained ==> d.acceptedBefore <= |s.log| && d.flushesBefore <= s.drained[d.ticket])
    && (Holds(s.worker, d.ticket) ==> d.acceptedBefore <= |s.submitted| && d.flushesBefore <= s.worker.begun)
    && (d.ticket in s.drained || s.q.drain == Some(d.ticket) || Holds(s.worker, d.ticket) || Ending(s.worker))
  }

  predicate Ending(w: Worker) {
    w.CloseCall? || w.Observing? || w.Failing? || w.Reporting? || w.Finishing? || w.Exited? || w.Aborted?
  }

  ghost predicate DrainersOk(s: Sink) {
    forall tid :: tid in s.drainers ==> DrainerOk(s, s.drainers[tid])
  }

  /** A worker that ends without a failure has closed the producer over everything accepted. */
  ghost predicate EndingOk(s: Sink) {
    && (s.q.failure.Some? ==> !s.q.accepting)
    && (s.worker.CloseCall? || s.worker.Observing? ==> !s.q.accepting && s.q.records == [])
    && (s.worker.Observing? ==> s.log == s.accepted)
    && (s.worker.Reporting? ==> s.q.failure.Some?)
    && ((s.worker.Finishing? || s.worker.Exited?) && s.q.failure.None? ==> !s.q.accepting && s.log == s.accepted)
    && (s.q.done <==> s.worker.Exited?)
  }

  /** No worker wakeup is lost: parked with work to see implies a permit or a notification under way. */
  ghost predicate WorkerAwake(s: Sink) {
    s.worker.Parked? && (s.q.records != [] || s.q.drain.Some? || !s.q.accepting) ==>
      s.permit || s.wakeWorker > 0
  }

  /** No enqueuer wakeup is lost: with nothing broadcast under way, sleepers really must wait, or
      enough enqueuers have been notified to use up every free slot. */
  ghost predicate EnqueuersAwake(s: Sink) {
    && s.asleep !! s.woken
    && (forall tid :: tid in s.asleep + s.woken ==> tid in s.carrying)
    && (s.asleep != {} && s.wakeEnqueuers == 0 && !s.unlockEnqueuers ==>
          !s.q.flushing && s.q.failure.None? && s.q.accepting && |s.q.records| + |s.woken| >= s.capacity)
  }

  /** No drainer wakeup is lost. */
  ghost predicate DrainersAwake(s: Sink) {
    s.wakeDrainers == 0 && !s.unlockDrainers ==>
      forall tid :: tid in s.drainers && s.drainers[tid].phase.Waiting? ==>
        DrainVerdict(s.q, s.drainers[tid].ticket in s.drained).None?
  }

  ghost predicate PostsOk(s: Sink) {
    s.posts == if s.errorPosted then 1 else 0
  }

  ghost predicate DataInv(s: Sink) {
    Conserved(s) && TicketsOk(s) && DrainersOk(s) && EndingOk(s)
  }

  ghost predicate WakeInv(s: Sink) {
    WorkerAwake(s) && EnqueuersAwake(s) && DrainersAwake(s) && PostsOk(s)
  }

  ghost predicate Inv(s: Sink) {
    DataInv(s) && WakeInv(s)
  }

  lemma InitialInv(capacity: nat)
    ensures Inv(Initial(capacity))
  {
  }

  lemma QueuedKeepsData(s: Sink, tid: Tid, record: Record)
    requires Inv(s) && AttemptOf(s.q, s.capacity).Queued?
    ensures DataInv(AttemptStep(s, tid, record))
  {
    var s' := AttemptStep(s, tid, record);
    assert Conserved(s') && TicketsOk(s') && EndingOk(s');
  }

  lemma QueuedKeepsWake(s: Sink, tid: Tid, record: Record)
    requires Inv(s) && AttemptOf(s.q, s.capacity).Queued? && tid !in s.asleep
    ensures WakeInv(AttemptStep(s, tid, record))
  {
    var s' := AttemptStep(s, tid, record);
    if tid in s.woken {
      assert |s'.woken| == |s.woken| - 1;
    } else {
      assert s'.woken == s.woken;
    }
    assert WorkerAwake(s') && DrainersAwake(s');
  }

  lemma RejectedKeepsData(s: Sink, tid: Tid, record: Record)
    requires Inv(s) && AttemptOf(s.q, s.capacity).Rejected?
    ensures DataInv(AttemptStep(s, tid, record))
  {
    var s' := AttemptStep(s, tid, record);
    assert Conserved(s') && TicketsOk(s') && EndingOk(s');
  }

  lemma SleeperKeepsData(s: Sink, tid: Tid, record: Record)
    requires Inv(s) && AttemptOf(s.q, s.capacity).MustWait?
    ensures DataInv(AttemptStep(s, tid, record))
  {
    var s' := AttemptStep(s, tid, record);
    assert Conserved(s') && TicketsOk(s') && EndingOk(s');
  }

  lemma RejectedKeepsWake(s: Sink, tid: Tid, record: Record)
    requires Inv(s) && AttemptOf(s.q, s.capacity).Rejected? && tid !in s.asleep
    ensures WakeInv(AttemptStep(s, tid, record))
  {
  }

  lemma SleeperKeepsWake(s: Sink, tid: Tid, record: Record)
    requires Inv(s) && AttemptOf(s.q, s.capacity).MustWait? && tid !in s.asleep
    ensures WakeInv(AttemptStep(s, tid, record))
  {
  }

  lemma AttemptKeeps(s: Sink, tid: Tid, record: Record)
    requires Inv(s) && tid !in s.asleep
    ensures Inv(AttemptStep(s, tid, record))
  {
    if AttemptOf(s.q, s.capacity).Queued? {
      QueuedKeepsData(s, tid, record);
      QueuedKeepsWake(s, tid, record);
    } else {
      if AttemptOf(s.q, s.capacity).MustWait? {
        SleeperKeepsData(s, tid, record);
        SleeperKeepsWake(s, tid, record);
      } else {
        RejectedKeepsData(s, tid, record);
        RejectedKeepsWake(s, tid, record);
      }
    }
  }

  /** Wakeups, permits and flushing leave alone what the data invariant speaks of. */
  lemma SameData(s: Sink, s': Sink)
    requires DataInv(s)
    requires s'.accepted == s.accepted && s'.submitted == s.submitted && s'.hand == s.hand && s'.log == s.log
    requires s'.q.(flushing := s.q.flushing) == s.q && s'.capacity == s.capacity && s'.worker == s.worker
    requires s'.nextTicket == s.nextTicket && s'.drained == s.drained && s'.flushesBegun == s.flushesBegun
    requires forall k :: k in s'.drainers ==>
               k in s.drainers && s'.drainers[k].(phase := s.drainers[k].phase) == s.drainers[k]
    ensures DataInv(s')
  {
    assert Conserved(s') && TicketsOk(s') && EndingOk(s');
    forall k | k in s'.drainers ensures DrainerOk(s', s'.drainers[k]) {
      assert DrainerOk(s, s.drainers[k]);
    }
  }

  predicate WakesDrainers(a: Action) { a.DeliverToDrainers? || a.UnlockNotifiesDrainers? }

  predicate WakesOthers(a: Action) {
    a.SpuriousWake? || a.DeliverToEnqueuers? || a.DeliverToWorker? || a.UnlockNotifiesEnqueuers?
  }

  lemma DrainerDeliveryKeepsData(s: Sink, a: Action)
    requires Inv(s) && Enabled(s, a) && WakesDrainers(a)
    ensures DataInv(Step(s, a))
  {
    SameData(s, Step(s, a));
  }

  lemma DeliveryKeepsData(s: Sink, a: Action)
    requires Inv(s) && Enabled(s, a) && WakesOthers(a)
    ensures DataInv(Step(s, a))
  {
    SameData(s, Step(s, a));
  }

  lemma DrainerDeliveryKeepsWake(s: Sink, a: Action)
    requires Inv(s) && Enabled(s, a) && WakesDrainers(a)
    ensures WakeInv(Step(s, a))
  {
  }

  lemma DeliveryKeepsWake(s: Sink, a: Action)
    requires Inv(s) && Enabled(s, a) && WakesOthers(a)
    ensures WakeInv(Step(s, a))
  {
  }

  lemma TakeRecordKeepsData(s: Sink, wake: Option<Tid>)
    requires Inv(s) && Enabled(s, WorkerTake(wake)) && s.q.records != []
    ensures DataInv(TakeStep(s, wake))
  {
    var s' := TakeStep(s, wake);
    assert s.q.records == [s.q.records[0]] + s'.q.records;
    assert Conserved(s') && TicketsOk(s') && EndingOk(s');
  }

  lemma TakeRecordKeepsWake(s: Sink, wake: Option<Tid>)
    requires Inv(s) && Enabled(s, WorkerTake(wake)) && s.q.records != []
    ensures WakeInv(TakeStep(s, wake))
  {
    var s' := TakeStep(s, wake);
    if wake.Some? {
      assert |s'.woken| == |s.woken| + 1;
    }
    assert WorkerAwake(s') && DrainersAwake(s');
  }

  lemma TakeNothingKeeps(s: Sink)
    requires Inv(s) && Enabled(s, WorkerTake(None)) && s.q.records == []
    requires !s.q.accepting || s.q.drain.None?
    ensures DataInv(TakeStep(s, None)) && WakeInv(TakeStep(s, None))
  {
    var s' := TakeStep(s, None);
    assert s'.worker == if s.q.accepting then Parked else CloseCall;
    assert Conserved(s') && TicketsOk(s') && EndingOk(s');
    assert WorkerAwake(s') && EnqueuersAwake(s') && DrainersAwake(s');
  }

  lemma TakeRequestKeeps(s: Sink)
    requires Inv(s) && Enabled(s, WorkerTake(None)) && s.q.records == []
    requires s.q.accepting && s.q.drain.Some?
    ensures DataInv(TakeStep(s, None)) && WakeInv(TakeStep(s, None))
  {
    var s' := TakeStep(s, None);
    assert s'.worker == FlushCall(s.q.drain.value, s.flushesBegun);
    assert Conserved(s') && TicketsOk(s') && EndingOk(s');
    assert WorkerAwake(s') && EnqueuersAwake(s') && DrainersAwake(s');
  }

  lemma TakeKeeps(s: Sink, wake: Option<Tid>)
    requires Inv(s) && Enabled(s, WorkerTake(wake))
    ensures Inv(TakeStep(s, wake))
  {
    if s.q.records != [] {
      TakeRecordKeepsData(s, wake);
      TakeRecordKeepsWake(s, wake);
    } else {
      if s.q.accepting && s.q.drain.Some? {
        TakeRequestKeeps(s);
      } else {
        TakeNothingKeeps(s);
      }
    }
  }

  lemma SubmitKeepsData(s: Sink)
    requires Inv(s) && Enabled(s, SubmitOk)
    ensures DataInv(Step(s, SubmitOk))
  {
    var s' := Step(s, SubmitOk);
    assert Conserved(s') && TicketsOk(s') && EndingOk(s');
  }

  lemma AcknowledgeKeepsData(s: Sink, upTo: nat)
    requires Inv(s) && Enabled(s, Acknowledge(upTo))
    ensures DataInv(Step(s, Acknowledge(upTo)))
  {
    var s' := Step(s, Acknowledge(upTo));
    assert Conserved(s') && TicketsOk(s') && EndingOk(s');
  }

  lemma ConfirmKeepsData(s: Sink, a: Action)
    requires Inv(s) && Enabled(s, a) && (a.FlushOk? || a.CloseOk?)
    ensures DataInv(Step(s, a))
  {
    var s' := Step(s, a);
    assert Conserved(s') && TicketsOk(s') && EndingOk(s');
  }

  lemma RemoteKeepsWake(s: Sink, a: Action)
    requires Inv(s) && Enabled(s, a)
    requires a.SubmitOk? || a.Acknowledge? || a.FlushOk? || a.CloseOk?
    ensures WakeInv(Step(s, a))
  {
  }

  lemma CompleteDrainKeepsData(s: Sink)
    requires Inv(s) && Enabled(s, CompleteDrain)
    ensures DataInv(Step(s, CompleteDrain))
  {
    var s' := Step(s, CompleteDrain);
    assert Conserved(s') && TicketsOk(s') && EndingOk(s');
    forall k | k in s'.drainers ensures DrainerOk(s', s'.drainers[k]) {
      assert DrainerOk(s, s.drainers[k]);
    }
  }

  lemma CompleteDrainKeepsWake(s: Sink)
    requires Inv(s) && Enabled(s, CompleteDrain)
    ensures WakeInv(Step(s, CompleteDrain))
  {
  }

  predicate WorkerContinues(a: Action) { a.ConnectOk? || a.ParkNotified? || a.ParkTicket? }

  predicate WorkerEnds(a: Action) { a.TicketsOk? || a.WorkerError? || a.WorkerAbort? }

  lemma WorkerKeepsData(s: Sink, a: Action)
    requires Inv(s) && Enabled(s, a) && WorkerContinues(a)
    ensures DataInv(Step(s, a))
  {
    var s' := Step(s, a);
    assert Conserved(s') && TicketsOk(s') && EndingOk(s');
    forall k | k in s'.drainers ensures DrainerOk(s', s'.drainers[k]) {
      assert DrainerOk(s, s.drainers[k]);
    }
  }

  lemma WorkerEndKeepsData(s: Sink, a: Action)
    requires Inv(s) && Enabled(s, a) && WorkerEnds(a)
    ensures DataInv(Step(s, a))
  {
    var s' := Step(s, a);
    assert Conserved(s') && TicketsOk(s') && EndingOk(s');
    forall k | k in s'.drainers ensures DrainerOk(s', s'.drainers[k]) {
      assert DrainerOk(s, s.drainers[k]);
    }
  }

  lemma WorkerKeepsWake(s: Sink, a: Action)
    requires Inv(s) && Enabled(s, a) && WorkerContinues(a)
    ensures WakeInv(Step(s, a))
  {
  }

  lemma WorkerEndKeepsWake(s: Sink, a: Action)
    requires Inv(s) && Enabled(s, a) && WorkerEnds(a)
    ensures WakeInv(Step(s, a))
  {
  }

  lemma FailKeeps(s: Sink, failure: Failure)
    requires Inv(s)
    ensures Inv(FailStep(s, failure))
  {
    var s' := FailStep(s, failure);
    assert Conserved(s') && TicketsOk(s') && EndingOk(s');
  }

  lemma ClaimKeeps(s: Sink)
    requires Inv(s)
    ensures Inv(ClaimAndPost(s))
  {
  }

  lemma ForgetKeeps(s: Sink, tid: Tid)
    requires Inv(s)
    ensures Inv(s.(drainers := s.drainers - {tid}))
  {
    var s' := s.(drainers := s.drainers - {tid});
    assert Conserved(s') && TicketsOk(s') && EndingOk(s');
  }

  lemma PhaseKeeps(s: Sink, tid: Tid, phase: Phase)
    requires Inv(s) && tid in s.drainers && (phase.Waiting? ==> Verdict(s, tid).None?)
    ensures Inv(s.(drainers := s.drainers[tid := s.drainers[tid].(phase := phase)]))
  {
    var s' := s.(drainers := s.drainers[tid := s.drainers[tid].(phase := phase)]);
    assert Conserved(s') && TicketsOk(s') && EndingOk(s');
    forall k | k in s'.drainers ensures DrainerOk(s', s'.drainers[k]) {
      assert DrainerOk(s, s.drainers[k]);
    }
  }

  lemma StoreFailureKeeps(s: Sink)
    requires Inv(s) && Enabled(s, WorkerStoreFailure)
    ensures Inv(Step(s, WorkerStoreFailure))
  {
    FailKeeps(s, WorkerFailed(s.worker.detail));
    MoveKeeps(FailStep(s, WorkerFailed(s.worker.detail)), Reporting);
  }

  lemma FinishKeeps(s: Sink)
    requires Inv(s) && Enabled(s, WorkerFinish)
    ensures Inv(Step(s, WorkerFinish))
  {
    var s' := Step(s, WorkerFinish);
    assert Conserved(s') && TicketsOk(s') && EndingOk(s');
    assert WorkerAwake(s') && EnqueuersAwake(s') && DrainersAwake(s');
  }

  lemma FailureKeeps(s: Sink, a: Action)
    requires Inv(s) && Enabled(s, a)
    requires a.WorkerStoreFailure? || a.WorkerReport? || a.WorkerFinish?
    ensures Inv(Step(s, a))
  {
    if a.WorkerStoreFailure? {
      StoreFailureKeeps(s);
    } else if a.WorkerReport? {
      ClaimKeeps(s);
      MoveKeeps(ClaimAndPost(s), Finishing);
    } else {
      FinishKeeps(s);
    }
  }

  /** Moving towards the end of the worker after a failure. */
  lemma MoveKeeps(s: Sink, worker: Worker)
    requires Inv(s) && s.q.failure.Some? && (worker.Reporting? || worker.Finishing?)
    requires Ending(s.worker) && !s.q.done
    ensures Inv(s.(worker := worker))
  {
    var s' := s.(worker := worker);
    assert Conserved(s') && TicketsOk(s') && EndingOk(s');
  }

  lemma DrainStartKeepsData(s: Sink, tid: Tid, eos: bool)
    requires Inv(s) && Enabled(s, Action.DrainStart(tid, eos))
    ensures DataInv(DrainStartStep(s, tid, eos))
  {
    var s' := DrainStartStep(s, tid, eos);
    assert Conserved(s') && TicketsOk(s') && EndingOk(s');
  }

  lemma DrainStartKeepsWake(s: Sink, tid: Tid, eos: bool)
    requires Inv(s) && Enabled(s, Action.DrainStart(tid, eos))
    ensures WakeInv(DrainStartStep(s, tid, eos))
  {
    var s' := DrainStartStep(s, tid, eos);
    assert WorkerAwake(s') && EnqueuersAwake(s') && PostsOk(s');
  }

  lemma DrainCheckKeeps(s: Sink, tid: Tid, expired: bool)
    requires Inv(s) && Enabled(s, Action.DrainCheck(tid, expired))
    ensures Inv(DrainCheckStep(s, tid, expired))
  {
    if Verdict(s, tid).Some? {
      ForgetKeeps(s, tid);
      ClaimKeeps(s.(drainers := s.drainers - {tid}));
    } else if expired {
      PhaseKeeps(s, tid, TimingOut);
    } else {
      PhaseKeeps(s, tid, Waiting);
    }
  }

  lemma DrainTimeoutKeeps(s: Sink, tid: Tid)
    requires Inv(s) && Enabled(s, Action.DrainTimeout(tid))
    ensures Inv(DrainTimeoutStep(s, tid))
  {
    FailKeeps(s, ShutdownTimedOut);
    ForgetKeeps(FailStep(s, ShutdownTimedOut), tid);
    ClaimKeeps(FailStep(s, ShutdownTimedOut).(drainers := s.drainers - {tid}));
  }

  predicate OfElement(a: Action) { a.StopTake? || a.StopClose? || a.Unlock? || a.UnlockStop? }

  lemma CloseKeepsData(s: Sink)
    requires Inv(s) && Enabled(s, StopClose)
    ensures DataInv(Step(s, StopClose))
  {
    var s' := Step(s, StopClose);
    assert Conserved(s') && TicketsOk(s') && EndingOk(s');
    forall k | k in s'.drainers ensures DrainerOk(s', s'.drainers[k]) {
      assert DrainerOk(s, s.drainers[k]);
    }
  }

  lemma FlushingKeepsData(s: Sink, a: Action)
    requires Inv(s) && Enabled(s, a) && (a.StopTake? || a.Unlock? || a.UnlockStop?)
    ensures DataInv(Step(s, a))
  {
    SameData(s, Step(s, a));
  }

  lemma StopKeepsWake(s: Sink, a: Action)
    requires Inv(s) && Enabled(s, a) && (a.StopTake? || a.StopClose?)
    ensures WakeInv(Step(s, a))
  {
  }

  lemma FlushingKeepsWake(s: Sink, a: Action)
    requires Inv(s) && Enabled(s, a) && (a.Unlock? || a.UnlockStop?)
    ensures WakeInv(Step(s, a))
  {
  }

  lemma ElementStepInv(s: Sink, a: Action)
    requires Inv(s) && Enabled(s, a) && OfElement(a)
    ensures Inv(Step(s, a))
  {
    if a.StopClose? {
      CloseKeepsData(s);
    } else {
      FlushingKeepsData(s, a);
    }
    if a.StopTake? || a.StopClose? {
      StopKeepsWake(s, a);
    } else {
      FlushingKeepsWake(s, a);
    }
  }

  lemma RemoteStepInv(s: Sink, a: Action)
    requires Inv(s) && Enabled(s, a) && (a.SubmitOk? || a.Acknowledge? || a.FlushOk? || a.CloseOk?)
    ensures Inv(Step(s, a))
  {
    RemoteKeepsWake(s, a);
    if a.SubmitOk? {
      SubmitKeepsData(s);
    } else if a.Acknowledge? {
      AcknowledgeKeepsData(s, a.upTo);
    } else {
      ConfirmKeepsData(s, a);
    }
  }

  lemma WorkerStepInv(s: Sink, a: Action)
    requires Inv(s) && Enabled(s, a) && (WorkerContinues(a) || WorkerEnds(a))
    ensures Inv(Step(s, a))
  {
    if WorkerContinues(a) {
      WorkerKeepsData(s, a);
      WorkerKeepsWake(s, a);
    } else {
      WorkerEndKeepsData(s, a);
      WorkerEndKeepsWake(s, a);
    }
  }

  lemma DeliveryStepInv(s: Sink, a: Action)
    requires Inv(s) && Enabled(s, a) && (WakesDrainers(a) || WakesOthers(a))
    ensures Inv(Step(s, a))
  {
    if WakesDrainers(a) {
      DrainerDeliveryKeepsData(s, a);
      DrainerDeliveryKeepsWake(s, a);
    } else {
      DeliveryKeepsData(s, a);
      DeliveryKeepsWake(s, a);
    }
  }

  predicate OfDrain(a: Action) { a.DrainStart? || a.DrainCheck? || a.DrainWake? || a.DrainTimeout? }

  lemma DrainStepInv(s: Sink, a: Action)
    requires Inv(s) && Enabled(s, a) && OfDrain(a)
    ensures Inv(Step(s, a))
  {
    match a
    case DrainStart(tid, eos) => DrainStartKeepsData(s, tid, eos); DrainStartKeepsWake(s, tid, eos);
    case DrainCheck(tid, expired) => DrainCheckKeeps(s, tid, expired);
    case DrainWake(tid) => PhaseKeeps(s, tid, Checking);
    case DrainTimeout(tid) => DrainTimeoutKeeps(s, tid);
  }

  lemma StepInv(s: Sink, a: Action)
    requires Inv(s) && Enabled(s, a)
    ensures Inv(Step(s, a))
  {
    if OfElement(a) {
      ElementStepInv(s, a);
    } else if WakesDrainers(a) || WakesOthers(a) {
      DeliveryStepInv(s, a);
    } else if WorkerContinues(a) || WorkerEnds(a) {
      WorkerStepInv(s, a);
    } else if OfDrain(a) {
      DrainStepInv(s, a);
    } else if a.SubmitOk? || a.Acknowledge? || a.FlushOk? || a.CloseOk? {
      RemoteStepInv(s, a);
    } else if a.CompleteDrain? {
      CompleteDrainKeepsData(s);
      CompleteDrainKeepsWake(s);
    } else if a.WorkerTake? {
      TakeKeeps(s, a.wake);
    } else if a.Render? || a.Retry? {
      AttemptKeeps(s, a.tid, if a.Render? then a.record else s.carrying[a.tid]);
    } else {
      FailureKeeps(s, a);
    }
  }

  // ---------------------------------------------------------------- whole runs

  function Run(s: Sink, trace: seq<Action>): Option<Sink>
    decreases |trace|
  {
    if trace == [] then Some(s)
    else if Enabled(s, trace[0]) then Run(Step(s, trace[0]), trace[1..])
    else None
  }

  /** What one state promises about every later one. */
  ghost predicate Later(s: Sink, s': Sink) {
    Sticky(s.q, s'.q) && s.accepted <= s'.accepted && s.submitted <= s'.submitted && s.log <= s'.log
  }

  /** Nothing was accepted, and a flush goes on. */
  predicate Calm(s: Sink, s': Sink) { s'.accepted == s.accepted && (s.q.flushing ==> s'.q.flushing) }

  /** No drain has moved. */
  predicate Steady(s: Sink, s': Sink) { s'.drainers == s.drainers && s.flushesBegun <= s'.flushesBegun }

  lemma AttemptLater(s: Sink, tid: Tid, record: Record)
    ensures Later(s, AttemptStep(s, tid, record)) && Steady(s, AttemptStep(s, tid, record))
    ensures AttemptStep(s, tid, record).posts == s.posts
  {
    if AttemptOf(s.q, s.capacity).Queued? {
      assert AttemptStep(s, tid, record).accepted == s.accepted + [record];
    } else {
      assert AttemptStep(s, tid, record).q == s.q;
    }
  }

  lemma TakeLater(s: Sink, wake: Option<Tid>)
    ensures Later(s, TakeStep(s, wake)) && Calm(s, TakeStep(s, wake)) && Steady(s, TakeStep(s, wake))
    ensures TakeStep(s, wake).posts == s.posts
  {
    assert TakeStep(s, wake).q == Take(s.q);
  }

  lemma DrainStartLater(s: Sink, tid: Tid, eos: bool)
    ensures Later(s, DrainStartStep(s, tid, eos)) && Calm(s, DrainStartStep(s, tid, eos))
    ensures DrainStartStep(s, tid, eos).posts == s.posts
  {
    assert DrainStartStep(s, tid, eos).q == JoinDrain(s.q, s.nextTicket);
  }

  lemma DrainCheckLater(s: Sink, tid: Tid, expired: bool)
    requires tid in s.drainers
    ensures Later(s, DrainCheckStep(s, tid, expired)) && Calm(s, DrainCheckStep(s, tid, expired))
  {
    assert DrainCheckStep(s, tid, expired).q == s.q;
  }

  lemma DrainTimeoutLater(s: Sink, tid: Tid)
    requires tid in s.drainers
    ensures Later(s, DrainTimeoutStep(s, tid)) && Calm(s, DrainTimeoutStep(s, tid))
  {
    assert DrainTimeoutStep(s, tid).q == StoreFailure(s.q, ShutdownTimedOut);
  }

  lemma DeliveryLater(s: Sink, a: Action)
    requires Enabled(s, a)
    requires WakesDrainers(a) || WakesOthers(a)
    ensures Later(s, Step(s, a)) && Calm(s, Step(s, a)) && (WakesOthers(a) ==> Steady(s, Step(s, a)))
    ensures Step(s, a).posts == s.posts
  {
    var s' := Step(s, a);
    assert s'.accepted == s.accepted && s'.submitted == s.submitted && s'.log == s.log;
    assert s'.q == s.q;
  }

  lemma WorkerLater(s: Sink, a: Action)
    requires Enabled(s, a)
    requires a.ConnectOk? || a.FlushOk? || a.CompleteDrain? || a.ParkNotified? || a.ParkTicket?
    ensures Later(s, Step(s, a)) && Calm(s, Step(s, a)) && (!a.CompleteDrain? ==> Steady(s, Step(s, a)))
    ensures Step(s, a).posts == s.posts
  {
    var s' := Step(s, a);
    assert s'.accepted == s.accepted && s'.submitted == s.submitted && s'.log == s.log;
    assert s'.q == s.q;
  }

  lemma WorkerEndLater(s: Sink, a: Action)
    requires Enabled(s, a)
    requires a.CloseOk? || a.TicketsOk? || a.WorkerError? || a.WorkerAbort?
    ensures Later(s, Step(s, a)) && Calm(s, Step(s, a)) && Steady(s, Step(s, a)) && Step(s, a).posts == s.posts
  {
    var s' := Step(s, a);
    assert s'.accepted == s.accepted && s'.submitted == s.submitted && s'.log == s.log;
    assert s'.q == s.q;
  }

  lemma ReportLater(s: Sink, a: Action)
    requires Enabled(s, a) && (a.WorkerReport? || a.DrainWake?)
    ensures Later(s, Step(s, a)) && Calm(s, Step(s, a))
    ensures if a.WorkerReport? then Steady(s, Step(s, a)) else Step(s, a).posts == s.posts
  {
    var s' := Step(s, a);
    assert s'.accepted == s.accepted && s'.submitted == s.submitted && s'.log == s.log;
    assert s'.q == s.q;
  }

  lemma SectionLater(s: Sink, a: Action)
    requires Enabled(s, a)
    requires a.WorkerStoreFailure? || a.WorkerFinish? || a.StopTake? || a.StopClose? || a.Unlock? || a.UnlockStop?
    ensures Later(s, Step(s, a))
    ensures !a.UnlockStop? ==> Calm(s, Step(s, a))
    ensures Step(s, a).accepted == s.accepted && Steady(s, Step(s, a))
    ensures Step(s, a).posts == s.posts
  {
    var s' := Step(s, a);
    assert s'.accepted == s.accepted && s'.submitted == s.submitted && s'.log == s.log;
  }

  lemma RemoteLater(s: Sink, a: Action)
    requires Conserved(s) && Enabled(s, a) && (a.SubmitOk? || a.Acknowledge?)
    ensures Later(s, Step(s, a)) && Calm(s, Step(s, a)) && Steady(s, Step(s, a))
    ensures Step(s, a).posts == s.posts
  {
    var s' := Step(s, a);
    assert s'.q == s.q && s'.accepted == s.accepted;
  }

  lemma EnqueueLater(s: Sink, a: Action)
    requires Enabled(s, a) && (a.Render? || a.Retry? || a.WorkerTake?)
    ensures Later(s, Step(s, a))
    ensures Steady(s, Step(s, a)) && (a.WorkerTake? ==> Calm(s, Step(s, a)))
    ensures Step(s, a).posts == s.posts
  {
    match a
    case Render(tid, record) => AttemptLater(s, tid, record);
    case Retry(tid) => AttemptLater(s, tid, s.carrying[tid]);
    case WorkerTake(wake) => TakeLater(s, wake);
  }

  lemma DrainLater(s: Sink, a: Action)
    requires Enabled(s, a) && (a.DrainStart? || a.DrainCheck? || a.DrainTimeout?)
    ensures Later(s, Step(s, a)) && Calm(s, Step(s, a))
    ensures a.DrainStart? ==> Step(s, a).posts == s.posts
  {
    match a
    case DrainStart(tid, eos) => DrainStartLater(s, tid, eos);
    case DrainCheck(tid, expired) => DrainCheckLater(s, tid, expired);
    case DrainTimeout(tid) => DrainTimeoutLater(s, tid);
  }

  lemma StepLater(s: Sink, a: Action)
    requires Inv(s) && Enabled(s, a)
    ensures Later(s, Step(s, a))
    ensures a.WorkerReport? || a.DrainCheck? || a.DrainTimeout? || Step(s, a).posts == s.posts
    ensures OfDrain(a) || WakesDrainers(a) || a.CompleteDrain? || Steady(s, Step(s, a))
    ensures !a.Render? && !a.Retry? ==>
              Step(s, a).accepted == s.accepted && (a.UnlockStop? || Calm(s, Step(s, a)))
  {
    if a.Render? || a.Retry? || a.WorkerTake? {
      EnqueueLater(s, a);
    } else if a.DrainStart? || a.DrainCheck? || a.DrainTimeout? {
      DrainLater(s, a);
    } else if a.SubmitOk? || a.Acknowledge? {
      RemoteLater(s, a);
    } else if a.SpuriousWake? || a.DeliverToEnqueuers? || a.DeliverToDrainers? || a.DeliverToWorker?
              || a.UnlockNotifiesEnqueuers? || a.UnlockNotifiesDrainers? {
      DeliveryLater(s, a);
    } else if a.ConnectOk? || a.FlushOk? || a.CompleteDrain? || a.ParkNotified? || a.ParkTicket? {
      WorkerLater(s, a);
    } else if a.WorkerStoreFailure? || a.WorkerFinish? || a.StopTake? || a.StopClose? || a.Unlock? || a.UnlockStop? {
      SectionLater(s, a);
    } else if a.WorkerReport? || a.DrainWake? {
      ReportLater(s, a);
    } else {
      WorkerEndLater(s, a);
    }
  }

  lemma {:induction false} RunInv(s: Sink, trace: seq<Action>)
    requires Inv(s) && Run(s, trace).Some?
    ensures Inv(Run(s, trace).value) && Later(s, Run(s, trace).value)
    decreases |trace|
  {
    if trace != [] {
      StepInv(s, trace[0]);
      StepLater(s, trace[0]);
      RunInv(Step(s, trace[0]), trace[1..]);
    }
  }

  /** Conservation: in every reachable state the accepted records are, in order, those submitted, then at
      most one in the worker's hands, then a queue within its capacity; the log is a prefix of these. */
  lemma Conservation(capacity: nat, trace: seq<Action>)
    requires Run(Initial(capacity), trace).Some?
    ensures var s := Run(Initial(capacity), trace).value;
            && s.accepted == s.submitted + HandSeq(s) + s.q.records
            && |HandSeq(s)| <= 1 && |s.q.records| <= s.capacity
            && s.log <= s.accepted
  {
    InitialInv(capacity);
    RunInv(Initial(capacity), trace);
  }

  /** The end-of-stream barrier: when a drain returns Complete, everything accepted before it took the lock
      is in the log, in order, and was confirmed by a flush that began after it or by the final close. */
  lemma EosBarrier(capacity: nat, trace: seq<Action>, tid: Tid)
    requires Run(Initial(capacity), trace).Some?
    requires Phased(Run(Initial(capacity), trace).value, tid, Checking)
    requires Verdict(Run(Initial(capacity), trace).value, tid) == Some(Complete)
    ensures var s := Run(Initial(capacity), trace).value;
            var d := s.drainers[tid];
            && d.acceptedBefore <= |s.accepted| && s.accepted[..d.acceptedBefore] <= s.log
            && s.q.failure.None?
            && ((d.ticket in s.drained && d.flushesBefore <= s.drained[d.ticket] < s.flushesBegun)
                || (s.worker.Exited? && s.log == s.accepted))
  {
    InitialInv(capacity);
    RunInv(Initial(capacity), trace);
  }

  /** Every drain of this thread began when at least so much was accepted and so many flushes had begun. */
  predicate Since(s: Sink, tid: Tid, accepted: nat, flushes: nat) {
    && accepted <= |s.accepted| && flushes <= s.flushesBegun
    && (tid in s.drainers ==> accepted <= s.drainers[tid].acceptedBefore && flushes <= s.drainers[tid].flushesBefore)
  }

  lemma SinceOfDrains(s: Sink, a: Action, tid: Tid, accepted: nat, flushes: nat)
    requires Since(s, tid, accepted, flushes) && Enabled(s, a) && OfDrain(a)
    ensures Since(Step(s, a), tid, accepted, flushes)
  {
  }

  lemma SinceOfWakes(s: Sink, a: Action, tid: Tid, accepted: nat, flushes: nat)
    requires Since(s, tid, accepted, flushes) && Enabled(s, a) && (WakesDrainers(a) || a.CompleteDrain?)
    ensures Since(Step(s, a), tid, accepted, flushes)
  {
  }

  lemma SinceStays(s: Sink, s': Sink, tid: Tid, accepted: nat, flushes: nat)
    requires Since(s, tid, accepted, flushes) && s.accepted <= s'.accepted && Steady(s, s')
    ensures Since(s', tid, accepted, flushes)
  {
  }

  lemma {:induction false} SinceRun(s: Sink, trace: seq<Action>, tid: Tid, accepted: nat, flushes: nat)
    requires Inv(s) && Since(s, tid, accepted, flushes) && Run(s, trace).Some?
    ensures Since(Run(s, trace).value, tid, accepted, flushes)
    decreases |trace|
  {
    if trace != [] {
      var a := trace[0];
      StepInv(s, a);
      StepLater(s, a);
      if OfDrain(a) {
        SinceOfDrains(s, a, tid, accepted, flushes);
      } else if WakesDrainers(a) || a.CompleteDrain? {
        SinceOfWakes(s, a, tid, accepted, flushes);
      } else {
        SinceStays(s, Step(s, a), tid, accepted, flushes);
      }
      SinceRun(Step(s, a), trace[1..], tid, accepted, flushes);
    }
  }

  /** The barrier without the model's own bookkeeping: whatever was accepted by the time a drain began is in the log
      when that drain, or any later one of the same thread, returns Complete. */
  lemma DrainIsABarrier(capacity: nat, before: seq<Action>, tid: Tid, eos: bool, during: seq<Action>)
    requires Run(Initial(capacity), before).Some?
    requires Enabled(Run(Initial(capacity), before).value, Action.DrainStart(tid, eos))
    requires var s := Step(Run(Initial(capacity), before).value, Action.DrainStart(tid, eos));
             Run(s, during).Some? && Satisfied(Run(s, during).value, tid)
    ensures var s := Run(Initial(capacity), before).value;
            s.accepted <= Run(Step(s, Action.DrainStart(tid, eos)), during).value.log
  {
    InitialInv(capacity);
    RunInv(Initial(capacity), before);
    var s := Run(Initial(capacity), before).value;
    var started := Step(s, Action.DrainStart(tid, eos));
    StepInv(s, Action.DrainStart(tid, eos));
    RunInv(started, during);
    SinceRun(started, during, tid, |s.accepted|, s.flushesBegun);
    BarrierAt(Run(started, during).value, tid, s.accepted);
  }

  lemma BarrierAt(s: Sink, tid: Tid, early: seq<Record>)
    requires Inv(s) && Satisfied(s, tid) && early <= s.accepted && |early| <= s.drainers[tid].acceptedBefore
    ensures early <= s.log
  {
    assert DrainerOk(s, s.drainers[tid]);
    assert s.log <= s.accepted;
  }

  /** Once durable, durable for the rest of the run, whatever fails later; acceptance never resumes and the
      first failure is never replaced. */
  lemma DurableForever(capacity: nat, before: seq<Action>, after: seq<Action>)
    requires Run(Initial(capacity), before).Some?
    requires Run(Run(Initial(capacity), before).value, after).Some?
    ensures Later(Run(Initial(capacity), before).value, Run(Run(Initial(capacity), before).value, after).value)
  {
    InitialInv(capacity);
    RunInv(Initial(capacity), before);
    RunInv(Run(Initial(capacity), before).value, after);
  }

  /** No lost wakeups, for the worker, for enqueuers and for drainers, and at most one element error. */
  lemma NoLostWakeups(capacity: nat, trace: seq<Action>)
    requires Run(Initial(capacity), trace).Some?
    ensures var s := Run(Initial(capacity), trace).value;
            && (s.worker.Parked? && (s.q.records != [] || s.q.drain.Some? || !s.q.accepting) ==>
                  s.permit || s.wakeWorker > 0)
            && (forall tid :: tid in s.asleep && !AttemptOf(s.q, s.capacity).MustWait? ==>
                  s.wakeEnqueuers > 0 || s.unlockEnqueuers
                  || (|s.woken| >= s.capacity - |s.q.records| > 0 && AttemptOf(s.q, s.capacity).Queued?))
            && (forall tid :: Phased(s, tid, Waiting) && Verdict(s, tid).Some? ==>
                  s.wakeDrainers > 0 || s.unlockDrainers)
            && s.posts <= 1
  {
    InitialInv(capacity);
    RunInv(Initial(capacity), trace);
    var s := Run(Initial(capacity), trace).value;
    forall tid | Phased(s, tid, Waiting) && Verdict(s, tid).Some?
      ensures s.wakeDrainers > 0 || s.unlockDrainers
    {
      assert tid in s.drainers && s.drainers[tid].phase.Waiting?;
    }
  }

  /** A waiting drain's request is never forgotten while the worker lives. */
  lemma RequestsAreKept(capacity: nat, trace: seq<Action>, tid: Tid)
    requires Run(Initial(capacity), trace).Some?
    requires tid in Run(Initial(capacity), trace).value.drainers
    ensures var s := Run(Initial(capacity), trace).value;
            var t := s.drainers[tid].ticket;
            t in s.drained || s.q.drain == Some(t) || Holds(s.worker, t) || Ending(s.worker)
  {
    InitialInv(capacity);
    RunInv(Initial(capacity), trace);
  }

  // ---------------------------------------------------------------- what is accepted, and when

  /** A render call adds its record exactly when nothing forbids it and there is room; with no room it goes to sleep;
      otherwise it returns with its error. */
  lemma AcceptedExactlyWhenOpen(s: Sink, a: Action)
    requires Enabled(s, a) && (a.Render? || a.Retry?)
    ensures var s' := Step(s, a);
            var record := if a.Render? then a.record else s.carrying[a.tid];
            var open := !s.q.flushing && s.q.failure.None? && s.q.accepting;
            && s'.accepted == s.accepted + (if open && |s.q.records| < s.capacity then [record] else [])
            && s'.q.records == s.q.records + (if open && |s.q.records| < s.capacity then [record] else [])
            && (a.tid in s'.asleep <==> a.tid in s.asleep || (open && |s.q.records| >= s.capacity))
            && a.tid !in s'.woken && (a.tid in s'.carrying <==> open && |s.q.records| >= s.capacity)
  {
  }

  /** No reason to turn records away will go away by itself. */
  predicate TurnsAway(s: Sink) { s.q.flushing || s.q.failure.Some? || !s.q.accepting }

  lemma AttemptTurnedAway(s: Sink, a: Action)
    requires Enabled(s, a) && TurnsAway(s) && (a.Render? || a.Retry?)
    ensures Calm(s, Step(s, a))
  {
  }

  lemma StepTurnsAway(s: Sink, a: Action)
    requires Inv(s) && Enabled(s, a) && TurnsAway(s) && (a.UnlockStop? ==> s.q.failure.Some? || !s.q.accepting)
    ensures TurnsAway(Step(s, a)) && Step(s, a).accepted == s.accepted
    ensures s.q.failure.Some? || !s.q.accepting ==> Step(s, a).q.failure.Some? || !Step(s, a).q.accepting
  {
    StepLater(s, a);
    if a.Render? || a.Retry? {
      AttemptTurnedAway(s, a);
    }
  }

  predicate NeverUnlocks(trace: seq<Action>) { forall i :: 0 <= i < |trace| ==> !trace[i].UnlockStop? }

  lemma {:induction false} RunTurnsAway(s: Sink, trace: seq<Action>)
    requires Inv(s) && TurnsAway(s) && Run(s, trace).Some?
    requires NeverUnlocks(trace) || s.q.failure.Some? || !s.q.accepting
    ensures Run(s, trace).value.accepted == s.accepted
    decreases |trace|
  {
    if trace != [] {
      StepTurnsAway(s, trace[0]);
      StepInv(s, trace[0]);
      assert NeverUnlocks(trace) ==> NeverUnlocks(trace[1..]) && !trace[0].UnlockStop?;
      RunTurnsAway(Step(s, trace[0]), trace[1..]);
    }
  }

  /** Nothing is accepted from the start of a flush until its end. */
  lemma NothingAcceptedInFlush(capacity: nat, before: seq<Action>, during: seq<Action>)
    requires Run(Initial(capacity), before).Some? && Enabled(Run(Initial(capacity), before).value, Unlock)
    requires Run(Step(Run(Initial(capacity), before).value, Unlock), during).Some? && NeverUnlocks(during)
    ensures var s := Run(Initial(capacity), before).value;
            Run(Step(s, Unlock), during).value.accepted == s.accepted
  {
    InitialInv(capacity);
    RunInv(Initial(capacity), before);
    var s := Run(Initial(capacity), before).value;
    StepInv(s, Unlock);
    RunTurnsAway(Step(s, Unlock), during);
  }

  /** Nothing is accepted once the element has closed the queue, a failure was stored or a drain has timed out,
      whatever flushes come and go. */
  lemma NothingAcceptedAfterEnd(capacity: nat, before: seq<Action>, a: Action, later: seq<Action>)
    requires Run(Initial(capacity), before).Some? && Enabled(Run(Initial(capacity), before).value, a)
    requires a.StopClose? || a.WorkerStoreFailure? || a.DrainTimeout?
    requires Run(Step(Run(Initial(capacity), before).value, a), later).Some?
    ensures var s := Run(Initial(capacity), before).value;
            Run(Step(s, a), later).value.accepted == s.accepted
  {
    InitialInv(capacity);
    RunInv(Initial(capacity), before);
    var s := Run(Initial(capacity), before).value;
    StepInv(s, a);
    RunTurnsAway(Step(s, a), later);
  }

  /** After a flush the sink is open again, unless it was closed or has failed. */
  lemma OpenAfterFlush(s: Sink, tid: Tid, record: Record)
    requires Enabled(s, UnlockStop) && s.q.failure.None? && s.q.accepting && |s.q.records| < s.capacity
    requires Enabled(Step(s, UnlockStop), Render(tid, record))
    ensures Step(Step(s, UnlockStop), Render(tid, record)).accepted == s.accepted + [record]
  {
    AcceptedExactlyWhenOpen(Step(s, UnlockStop), Render(tid, record));
  }

  // ---------------------------------------------------------------- how a drain ends

  /** A drain that holds the lock goes on waiting exactly while the worker lives, has not completed the request and
      has not failed, and no flush has begun; after its deadline it gives up instead. */
  lemma DrainWaitsOnlyForTheWorker(s: Sink, tid: Tid, expired: bool)
    requires Enabled(s, Action.DrainCheck(tid, expired))
    ensures var s' := Step(s, Action.DrainCheck(tid, expired));
            && (tid in s'.drainers <==>
                  s.q.failure.None? && !s.q.done && s.drainers[tid].ticket !in s.drained && !s.q.flushing)
            && (tid in s'.drainers ==> Phased(s', tid, if expired then TimingOut else Waiting))
            && s'.q == s.q
  {
  }

  /** The element posts one error when the worker fails, or when a drain at end of stream fails or times out; no other
      step posts anything. */
  lemma FailuresAreReported(s: Sink, a: Action)
    requires Inv(s) && Enabled(s, a)
    ensures var s' := Step(s, a);
            var reports :=
              || a.WorkerReport?
              || (a.DrainTimeout? && s.drainers[a.tid].eos)
              || (a.DrainCheck? && s.drainers[a.tid].eos && s.q.failure.Some?);
            s'.posts == if reports then 1 else s.posts
  {
    StepLater(s, a);
    if a.WorkerReport? || a.DrainCheck? || a.DrainTimeout? {
      ReportsOnce(s, a);
    }
  }

  lemma ReportsOnce(s: Sink, a: Action)
    requires PostsOk(s) && Enabled(s, a) && (a.WorkerReport? || a.DrainCheck? || a.DrainTimeout?)
    ensures var reports := a.WorkerReport? || (s.drainers[a.tid].eos && (a.DrainTimeout? || s.q.failure.Some?));
            Step(s, a).posts == if reports then 1 else s.posts
  {
  }

  /** The failure that is kept is the worker's error or the timeout, whichever is stored first. */
  lemma FailureIsTheFirst(s: Sink, a: Action)
    requires Enabled(s, a) && (a.WorkerStoreFailure? || a.DrainTimeout?)
    ensures var now := if a.WorkerStoreFailure? then WorkerFailed(s.worker.detail) else ShutdownTimedOut;
            Step(s, a).q.failure == if s.q.failure.Some? then s.q.failure else Some(now)
  {
  }

  lemma ErrorIsKept(s: Sink, detail: string)
    requires Enabled(s, WorkerError(detail))
    ensures Step(s, WorkerError(detail)).worker == Failing(detail)
  {
  }

  // ---------------------------------------------------------------- nothing is stuck

  /** The worker has neither failed nor been aborted, and the drain has not given up. */
  ghost predicate Alive(s: Sink, tid: Tid) {
    && s.q.failure.None? && !s.worker.Failing? && !s.worker.Reporting? && !s.worker.Aborted?
    && tid in s.drainers && !s.drainers[tid].phase.TimingOut?
  }

  ghost predicate Hopeful(s: Sink, tid: Tid) { Inv(s) && Alive(s, tid) }

  ghost predicate Satisfied(s: Sink, tid: Tid) {
    Phased(s, tid, Checking) && Verdict(s, tid) == Some(Complete)
  }

  function Distance(s: Sink): nat {
    var unacknowledged := if s.log == s.submitted then 0 else 1;
    match s.worker
    case Submitting(_) => 9
    case Connecting | Parked => 9
    case FlushCall(_, _) => 10 + unacknowledged
    case Flushed(_, _) => 9
    case Top => 8
    case CloseCall => 6 + unacknowledged
    case Observing => 5
    case Finishing => 4
    case _ => 0
  }

  /** Nothing was lost and the end has come closer. */
  ghost predicate Advances(s: Sink, s': Sink, tid: Tid) {
    && Alive(s', tid)
    && s'.q.records == s.q.records && s'.q.drain == s.q.drain && s'.accepted == s.accepted
    && (s.q.done ==> s'.q.done) && (s'.q.done || Distance(s') < Distance(s))
  }

  lemma ProgressToTop(s: Sink, a: Action, tid: Tid)
    requires Alive(s, tid) && Enabled(s, a) && (a.ConnectOk? || a.ParkTicket? || a.SubmitOk?)
    ensures Advances(s, Step(s, a), tid)
  {
  }

  lemma ProgressOfCall(s: Sink, a: Action, tid: Tid)
    requires Alive(s, tid) && Enabled(s, a) && (a.FlushOk? || a.CompleteDrain?)
    ensures Advances(s, Step(s, a), tid)
  {
  }

  lemma ProgressOfClose(s: Sink, a: Action, tid: Tid)
    requires Alive(s, tid) && Enabled(s, a) && (a.CloseOk? || a.TicketsOk? || a.WorkerFinish?)
    ensures Advances(s, Step(s, a), tid)
  {
  }

  lemma ProgressOfService(s: Sink, tid: Tid)
    requires Alive(s, tid) && Conserved(s) && (s.worker.FlushCall? || s.worker.CloseCall?) && s.log != s.submitted
    ensures Enabled(s, Acknowledge(|s.submitted|)) && Advances(s, Step(s, Acknowledge(|s.submitted|)), tid)
  {
    assert s.submitted + [] == s.submitted;
    assert Step(s, Acknowledge(|s.submitted|)).log == s.submitted;
  }

  ghost predicate Forward(s: Sink, a: Action, tid: Tid) {
    Enabled(s, a) && Inv(Step(s, a)) && Advances(s, Step(s, a), tid)
  }

  /** The next step of the worker or of the service. */
  lemma ProgressOfWorker(s: Sink, tid: Tid) returns (a: Action)
    requires Hopeful(s, tid) && !s.worker.Top? && !s.worker.Exited?
    ensures Forward(s, a, tid)
  {
    if (s.worker.FlushCall? || s.worker.CloseCall?) && s.log != s.submitted {
      a := Acknowledge(|s.submitted|);
      ProgressOfService(s, tid);
    } else if s.worker.FlushCall? || s.worker.Flushed? {
      a := if s.worker.FlushCall? then FlushOk else Action.CompleteDrain;
      ProgressOfCall(s, a, tid);
    } else if s.worker.CloseCall? || s.worker.Observing? || s.worker.Finishing? {
      a := if s.worker.CloseCall? then CloseOk else if s.worker.Observing? then Action.TicketsOk else WorkerFinish;
      ProgressOfClose(s, a, tid);
    } else {
      a := if s.worker.Connecting? then ConnectOk else if s.worker.Parked? then ParkTicket else SubmitOk;
      ProgressToTop(s, a, tid);
    }
    StepInv(s, a);
  }

  lemma ProgressOfTake(s: Sink, tid: Tid) returns (a: Action)
    requires Hopeful(s, tid) && s.worker.Top? && s.drainers[tid].ticket !in s.drained
    ensures Enabled(s, a) && Inv(Step(s, a)) && Alive(Step(s, a), tid) && Step(s, a).accepted == s.accepted
    ensures var s' := Step(s, a);
            || |s'.q.records| < |s.q.records|
            || (s'.q.records == s.q.records && s.q.drain.Some? && s'.q.drain.None?)
  {
    var wake: Option<Tid> := None;
    if s.q.records != [] && s.asleep != {} {
      var sleeper :| sleeper in s.asleep;
      wake := Some(sleeper);
    }
    a := WorkerTake(wake);
    StepInv(s, a);
    assert DrainerOk(s, s.drainers[tid]);
  }

  lemma WakingSatisfies(s: Sink, tid: Tid)
    requires Alive(s, tid) && (s.q.done || s.drainers[tid].ticket in s.drained) && s.drainers[tid].phase.Waiting?
    ensures Enabled(s, DrainWake(tid)) && Satisfied(Step(s, DrainWake(tid)), tid)
    ensures Step(s, DrainWake(tid)).accepted == s.accepted
  {
  }

  lemma WakeForSuccess(s: Sink, tid: Tid) returns (rest: seq<Action>)
    requires Hopeful(s, tid) && (s.q.done || s.drainers[tid].ticket in s.drained)
    ensures Run(s, rest).Some? && Satisfied(Run(s, rest).value, tid) && Run(s, rest).value.accepted == s.accepted
  {
    if s.drainers[tid].phase.Checking? {
      rest := [];
    } else {
      rest := [DrainWake(tid)];
      WakingSatisfies(s, tid);
      assert Run(Step(s, rest[0]), rest[1..]) == Some(Step(s, rest[0]));
    }
  }

  lemma RunCons(s: Sink, a: Action, rest: seq<Action>)
    requires Enabled(s, a)
    ensures Run(s, [a] + rest) == Run(Step(s, a), rest)
  {
    assert ([a] + rest)[1..] == rest;
  }

  /** Steps of the worker and the service, and at most one waking of the drain, end with its success. */
  lemma {:induction false} ProgressToSuccess(s: Sink, tid: Tid) returns (rest: seq<Action>)
    requires Hopeful(s, tid)
    ensures Run(s, rest).Some? && Satisfied(Run(s, rest).value, tid) && Run(s, rest).value.accepted == s.accepted
    decreases |s.q.records|, if s.q.drain.Some? then 1 else 0, if s.q.done then 0 else 1, Distance(s)
  {
    if s.q.done || s.drainers[tid].ticket in s.drained {
      rest := WakeForSuccess(s, tid);
    } else {
      var a;
      if s.worker.Top? {
        a := ProgressOfTake(s, tid);
      } else {
        a := ProgressOfWorker(s, tid);
      }
      var next := Step(s, a);
      var more := ProgressToSuccess(next, tid);
      rest := [a] + more;
      RunCons(s, a, more);
    }
  }

  /** In every reachable state a drain that has not given up can still succeed while the worker has not failed or been
      aborted: steps of the worker and the service alone lead to its completion. */
  lemma DrainCanSucceed(capacity: nat, trace: seq<Action>, tid: Tid)
    requires Run(Initial(capacity), trace).Some?
    requires var s := Run(Initial(capacity), trace).value;
             && s.q.failure.None? && !s.worker.Failing? && !s.worker.Reporting? && !s.worker.Aborted?
             && tid in s.drainers && !s.drainers[tid].phase.TimingOut?
    ensures var s := Run(Initial(capacity), trace).value;
            exists rest :: Run(s, rest).Some? && Satisfied(Run(s, rest).value, tid)
  {
    InitialInv(capacity);
    RunInv(Initial(capacity), trace);
    var rest := ProgressToSuccess(Run(Initial(capacity), trace).value, tid);
  }
}
