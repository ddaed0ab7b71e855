/** The sink's lock-protected queue state: one function for each critical section, and the object
    whose methods are those critical sections. */
module SharedQueue {
  import opened Common

  datatype Record = Record(body: Bytes)

  datatype Failure = ShutdownTimedOut | WorkerFailed(detail: string)

  // The identity of one shared completion flag.
  type Ticket = nat

  datatype QueueState = QueueState(
    records: seq<Record>,
    accepting: bool,
    flushing: bool,
    failure: Option<Failure>,
    done: bool,
    drain: Option<Ticket>)

  datatype EnqueueError = Flushing | Terminal(failure: Failure) | Closed

  datatype Attempt = Queued | Rejected(error: EnqueueError) | MustWait

  datatype DrainOutcome = Complete | Interrupted | Timeout | WorkerFailure(failure: Failure)

  const INITIAL := QueueState([], true, false, None, false, None)

  /** What one pass of the enqueue loop does while it holds the lock. */
  function AttemptOf(q: QueueState, capacity: nat): Attempt {
    if q.flushing then Rejected(Flushing)
    else if q.failure.Some? then Rejected(Terminal(q.failure.value))
    else if !q.accepting then Rejected(Closed)
    else if |q.records| < capacity then Queued
    else MustWait
  }

  function Enqueue(q: QueueState, record: Record, capacity: nat): QueueState {
    if AttemptOf(q, capacity).Queued? then q.(records := q.records + [record]) else q
  }

  datatype Taken = Taken(record: Option<Record>, accepting: bool, drain: Option<Ticket>)

  /** The worker's critical section: a drain request is taken only when no record is queued. */
  function TakenFrom(q: QueueState): Taken {
    if q.records != [] then Taken(Some(q.records[0]), q.accepting, None)
    else Taken(None, q.accepting, q.drain)
  }

  function Take(q: QueueState): QueueState {
    if q.records != [] then q.(records := q.records[1..]) else q.(drain := None)
  }

  /** A drain joins the request that is still queued, or queues a fresh one. */
  function JoinedTicket(q: QueueState, unused: Ticket): Ticket {
    if q.drain.Some? then q.drain.value else unused
  }

  function JoinDrain(q: QueueState, unused: Ticket): QueueState {
    q.(drain := Some(JoinedTicket(q, unused)))
  }

  function Close(q: QueueState): QueueState {
    q.(accepting := false)
  }

  /** The first failure is kept. */
  function StoreFailure(q: QueueState, failure: Failure): QueueState {
    q.(failure := if q.failure.None? then Some(failure) else q.failure, accepting := false)
  }

  function Finish(q: QueueState): QueueState {
    q.(done := true)
  }

  function SetFlushing(q: QueueState, flushing: bool): QueueState {
    q.(flushing := flushing)
  }

  /** The drain loop's verdict once it holds the lock; `None` means it must wait. */
  function DrainVerdict(q: QueueState, drained: bool): Option<DrainOutcome> {
    if q.failure.Some? then Some(WorkerFailure(q.failure.value))
    else if q.done || drained then Some(Complete)
    else if q.flushing then Some(Interrupted)
    else None
  }

  /** Acceptance is one-way and the first failure is permanent, whichever section runs. */
  ghost predicate Sticky(q: QueueState, q': QueueState) {
    && (!q.accepting ==> !q'.accepting)
    && (q.failure.Some? ==> q'.failure == q.failure)
    && (q.done ==> q'.done)
    && (q.failure.None? && q'.failure.Some? ==> !q'.accepting)
  }

  /** Every section keeps acceptance one-way, the first failure and the end of the worker. */
  lemma SectionsAreSticky(q: QueueState, record: Record, capacity: nat, unused: Ticket, failure: Failure,
                          flushing: bool)
    ensures Sticky(q, Enqueue(q, record, capacity)) && Sticky(q, Take(q)) && Sticky(q, JoinDrain(q, unused))
    ensures Sticky(q, Close(q)) && Sticky(q, StoreFailure(q, failure)) && Sticky(q, Finish(q))
    ensures Sticky(q, SetFlushing(q, flushing))
  {
  }

  class Shared {
    const capacity: nat
    var records: seq<Record>
    var accepting: bool
    var flushing: bool
    var failure: Option<Failure>
    var done: bool
    var drain: Option<Ticket>
    var errorPosted: bool
    // Identities handed out so far, and the flags that have been set.
    var nextTicket: Ticket
    var drained: set<Ticket>

    ghost function View(): QueueState
      reads this
    {
      QueueState(records, accepting, flushing, failure, done, drain)
    }

    ghost predicate Valid()
      reads this
    {
      && |records| <= capacity
      && (drain.Some? ==> drain.value < nextTicket && drain.value !in drained)
      && (forall t :: t in drained ==> t < nextTicket)
      && (failure.Some? ==> !accepting)
    }

    constructor (capacity: nat)
      ensures Valid() && View() == INITIAL && this.capacity == capacity && drained == {} && !errorPosted
    {
      this.capacity := capacity;
      records, accepting, flushing, failure, done, drain := [], true, false, None, false, None;
      errorPosted, nextTicket, drained := false, 0, {};
    }

    method TryEnqueue(record: Record) returns (attempt: Attempt)
      requires Valid()
      modifies this`records
      ensures Valid() && attempt == AttemptOf(old(View()), capacity)
      ensures View() == Enqueue(old(View()), record, capacity)
      ensures attempt == Rejected(Flushing) <==> old(flushing)
      ensures forall f :: attempt == Rejected(Terminal(f)) <==> !old(flushing) && old(failure) == Some(f)
      ensures attempt == Rejected(Closed) <==> !old(flushing) && old(failure).None? && !old(accepting)
      ensures !attempt.Rejected? ==> (attempt.MustWait? <==> |old(records)| == capacity)
      ensures records == old(records) + (if attempt.Queued? then [record] else [])
    {
      if flushing {
        return Rejected(Flushing);
      }
      if failure.Some? {
        return Rejected(Terminal(failure.value));
      }
      if !accepting {
        return Rejected(Closed);
      }
      if |records| < capacity {
        records := records + [record];
        return Queued;
      }
      return MustWait;
    }

    method TakeNext() returns (taken: Taken)
      requires Valid()
      modifies this`records, this`drain
      ensures Valid() && taken == TakenFrom(old(View())) && View() == Take(old(View()))
      ensures taken.record.Some? ==> old(records) == [taken.record.value] + records && drain == old(drain)
      ensures taken.record.None? ==> old(records) == records == [] && taken.drain == old(drain) && drain.None?
      ensures taken.accepting == accepting && (taken.record.Some? ==> taken.drain.None?)
    {
      var record: Option<Record> := None;
      if records != [] {
        record := Some(records[0]);
        records := records[1..];
      }
      var request: Option<Ticket> := None;
      if record.None? {
        request := drain;
        drain := None;
      }
      return Taken(record, accepting, request);
    }

    method RequestDrain() returns (ticket: Ticket)
      requires Valid()
      modifies this`drain, this`nextTicket
      ensures Valid() && ticket == JoinedTicket(old(View()), old(nextTicket)) && ticket !in drained
      ensures View() == JoinDrain(old(View()), old(nextTicket))
      ensures drain == Some(ticket) && (old(drain).Some? ==> drain == old(drain))
      ensures old(drain).None? ==> ticket == old(nextTicket) && nextTicket == old(nextTicket) + 1
      ensures old(drain).Some? ==> nextTicket == old(nextTicket)
    {
      if drain.None? {
        drain := Some(nextTicket);
        nextTicket := nextTicket + 1;
      }
      return drain.value;
    }

    method CompleteDrain(ticket: Ticket)
      requires Valid() && ticket < nextTicket && drain != Some(ticket)
      modifies this`drained
      ensures Valid() && drained == old(drained) + {ticket}
    {
      drained := drained + {ticket};
    }

    method CheckDrain(ticket: Ticket) returns (verdict: Option<DrainOutcome>)
      ensures verdict == DrainVerdict(View(), ticket in drained)
      ensures verdict.None? <==> failure.None? && !done && ticket !in drained && !flushing
      ensures forall f :: verdict == Some(WorkerFailure(f)) <==> failure == Some(f)
      ensures verdict == Some(Complete) <==> failure.None? && (done || ticket in drained)
      ensures verdict != Some(Timeout)
    {
      if !done && ticket !in drained && !flushing && failure.None? {
        return None;
      }
      if failure.Some? {
        return Some(WorkerFailure(failure.value));
      }
      if done || ticket in drained {
        return Some(Complete);
      }
      return Some(Interrupted);
    }

    method CloseQueue()
      requires Valid()
      modifies this`accepting
      ensures Valid() && View() == Close(old(View())) && !accepting
    {
      accepting := false;
    }

    method RecordFailure(detail: Failure)
      requires Valid()
      modifies this`failure, this`accepting
      ensures Valid() && View() == StoreFailure(old(View()), detail) && !accepting
      ensures failure == if old(failure).Some? then old(failure) else Some(detail)
    {
      if failure.None? {
        failure := Some(detail);
      }
      accepting := false;
    }

    method FinishWorker()
      requires Valid()
      modifies this`done
      ensures Valid() && View() == Finish(old(View())) && done
    {
      done := true;
    }

    method MarkFlushing(value: bool)
      requires Valid()
      modifies this`flushing
      ensures Valid() && View() == SetFlushing(old(View()), value) && flushing == value
    {
      flushing := value;
    }

    /** Only the first caller may post the element error. */
    method ClaimErrorPost() returns (claimed: bool)
      requires Valid()
      modifies this`errorPosted
      ensures Valid() && errorPosted && claimed == !old(errorPosted)
    {
      claimed := !errorPosted;
      errorPosted := true;
    }
  }
}
