/** One run of the text-recognition worker: its receive loop, the emission gate, the producer that feeds it, and
    stops from other threads or from the worker's own thread inside a callback. Every step is one atomic access. */
module EmissionGate {
  import opened Common

  datatype Outcome = Succeeded(fits: bool) | Failed | Panicked

  datatype Kind = ResultMessage | ErrorMessage | FatalMessage

  datatype Message = Message(id: nat, kind: Kind)

  datatype Pc =
    | Receiving
    | Checking                     // has a job, about to look at the stop flag
    | Processing
    | Upgrading(outcome: Outcome)  // about to see whether the element is still there
    | Reporting(outcome: Outcome)  // counting and notifying; then the gate
    | Admitted(fits: bool)         // found the gate open; building the message
    | Posting(kind: Kind)
    | Posted(kind: Kind)           // inside the callbacks of the post
    | Aborting                     // after a panic, about to raise the stop flag
    | Dropping(last: bool)         // letting go of the element, which may dispose of it
    | Exited

  /** What a thread in `stop` does next with the worker it took out of the slot. */
  datatype StopStep = Raise | Close | HangUp | Leave

  datatype Handle = InSlot | Held(own: bool, step: StopStep) | Joined

  datatype State = State(
    pc: Pc,
    job: nat,                    // the request the worker took last
    stop: bool,
    gate: bool,
    sender: bool,                // the worker's own sender still exists
    queue: Option<nat>,          // the channel holds one request
    producer: Option<nat>,       // a request with a copy of the sender, about to send
    nextId: nat,
    handle: Handle,
    posts: seq<Message>,
    postsAtClose: nat)           // how many messages had been posted when the gate closed

  const START := State(Receiving, 0, false, true, true, None, None, 1, InSlot, [], 0)

  datatype Action =
    | Receive | SeeHangUp | CheckStop | Finish(outcome: Outcome) | Upgrade(alive: bool) | ReadGate | Build | Post
    | Return | RaiseStop | DropElement
    | TakeSender | TrySend
    | TakeWorker(own: bool) | ReapWorker | StopStep

  /** The worker thread runs outside its own calls of `stop`. */
  predicate WorkerRuns(s: State) { !(s.handle.Held? && s.handle.own) }

  /** A stop from the worker's own thread comes from a callback while notifying or posting, or from the disposal of
      the element when the worker drops the last reference to it. */
  predicate InCallback(s: State) { s.pc.Reporting? || s.pc.Posted? || s.pc.Dropping? }

  predicate Enabled(s: State, a: Action) {
    match a
    case Receive => WorkerRuns(s) && s.pc.Receiving? && s.queue.Some?
    case SeeHangUp => WorkerRuns(s) && s.pc.Receiving? && s.queue.None? && !s.sender && s.producer.None?
    case CheckStop => WorkerRuns(s) && s.pc.Checking?
    case Finish(_) => WorkerRuns(s) && s.pc.Processing?
    case Upgrade(_) => WorkerRuns(s) && s.pc.Upgrading?
    case ReadGate => WorkerRuns(s) && s.pc.Reporting?
    case Build => WorkerRuns(s) && s.pc.Admitted?
    case Post => WorkerRuns(s) && s.pc.Posting?
    case Return => WorkerRuns(s) && s.pc.Posted?
    case RaiseStop => WorkerRuns(s) && s.pc.Aborting?
    case DropElement => WorkerRuns(s) && s.pc.Dropping?
    case TakeSender => s.producer.None? && s.handle.InSlot? && s.sender
    case TrySend => s.producer.Some?
    case TakeWorker(own) => s.handle.InSlot? && (own ==> InCallback(s))
    case ReapWorker => s.handle.InSlot? && (s.stop || !s.sender)
    case StopStep => s.handle.Held? && (s.handle.step.Leave? && !s.handle.own ==> s.pc.Exited?)
  }

  function GateRead(s: State): State
    requires s.pc.Reporting?
  {
    match s.pc.outcome
    case Succeeded(fits) => s.(pc := if s.gate then Admitted(fits) else Dropping(false))
    case Failed => s.(pc := if s.gate then Posting(ErrorMessage) else Dropping(false))
    case Panicked =>  // an atomic swap
      s.(pc := if s.gate then Posting(FatalMessage) else Aborting,
         gate := false, postsAtClose := if s.gate then |s.posts| else s.postsAtClose)
  }

  /** The worker is back in the slot after a stop from its own thread; any other thread waits for it to end. */
  function StopStepped(s: State): State
    requires s.handle.Held?
  {
    match s.handle.step
    case Raise => s.(stop := true, handle := Held(s.handle.own, Close))
    case Close => s.(gate := false, postsAtClose := if s.gate then |s.posts| else s.postsAtClose,
                     handle := Held(s.handle.own, HangUp))
    case HangUp => s.(sender := false, handle := Held(s.handle.own, Leave))
    case Leave => s.(handle := if s.handle.own then InSlot else Joined)
  }

  function Step(s: State, a: Action): State
    requires Enabled(s, a)
  {
    match a
    case Receive => s.(pc := Checking, job := s.queue.value, queue := None)
    case SeeHangUp => s.(pc := Exited)
    case CheckStop => s.(pc := if s.stop then Exited else Processing)
    case Finish(outcome) => s.(pc := Upgrading(outcome))
    case Upgrade(alive) => s.(pc := if alive then Reporting(s.pc.outcome) else Exited)
    case ReadGate => GateRead(s)
    case Build => s.(pc := if s.pc.fits then Posting(ResultMessage) else Reporting(Failed))
    case Post => s.(pc := Posted(s.pc.kind), posts := s.posts + [Message(s.job, s.pc.kind)])
    case Return => s.(pc := if s.pc.kind.FatalMessage? then Aborting else Dropping(false))
    case RaiseStop => s.(stop := true, pc := Dropping(true))
    case DropElement => s.(pc := if s.pc.last then Exited else Receiving)
    case TakeSender => s.(producer := Some(s.nextId), nextId := s.nextId + 1)
    case TrySend => s.(producer := None,
                       queue := if s.pc.Exited? || s.queue.Some? then s.queue else s.producer)
    case TakeWorker(own) => s.(handle := Held(own, Raise))
    case ReapWorker => s.(handle := Held(false, HangUp))
    case StopStep => StopStepped(s)
  }

  // ---------------------------------------------------------------- order

  /** The worker has a job for which nothing was posted yet. */
  predicate Unposted(pc: Pc) {
    pc.Checking? || pc.Processing? || pc.Upgrading? || pc.Reporting? || pc.Admitted? || pc.Posting?
  }

  ghost predicate Increasing(posts: seq<Message>) {
    forall i, j :: 0 <= i < j < |posts| ==> posts[i].id < posts[j].id
  }

  /** Every message is for an earlier request than this. */
  ghost predicate AllBelow(posts: seq<Message>, id: nat) {
    forall i :: 0 <= i < |posts| ==> posts[i].id < id
  }

  /** Posted, in hand, queued, about to be sent and still to come: each stage has smaller request ids than the next. */
  ghost predicate OrderOk(s: State) {
    && Increasing(s.posts)
    && AllBelow(s.posts, if Unposted(s.pc) then s.job else s.job + 1)
    && (s.queue.Some? ==> s.job < s.queue.value < s.nextId)
    && (s.producer.Some? ==> s.job < s.producer.value < s.nextId)
    && (s.queue.Some? && s.producer.Some? ==> s.queue.value < s.producer.value)
    && s.job < s.nextId
  }

  lemma OrderOfPost(s: State)
    requires OrderOk(s) && Enabled(s, Post)
    ensures OrderOk(Step(s, Post))
  {
  }

  lemma OrderOfRequests(s: State, a: Action)
    requires OrderOk(s) && Enabled(s, a) && (a.Receive? || a.TakeSender? || a.TrySend?)
    ensures OrderOk(Step(s, a))
  {
  }

  /** Any other step leaves the messages and requests alone and takes up no new job. */
  lemma OrderOfOthers(s: State, a: Action)
    requires Enabled(s, a) && !a.Post? && !a.Receive? && !a.TakeSender? && !a.TrySend?
    ensures var n := Step(s, a);
            && n.posts == s.posts && n.job == s.job && n.queue == s.queue && n.producer == s.producer
            && n.nextId == s.nextId && (Unposted(n.pc) ==> Unposted(s.pc))
  {
  }

  lemma OrderStep(s: State, a: Action)
    requires OrderOk(s) && Enabled(s, a)
    ensures OrderOk(Step(s, a))
  {
    if a.Post? {
      OrderOfPost(s);
    } else if a.Receive? || a.TakeSender? || a.TrySend? {
      OrderOfRequests(s, a);
    } else {
      OrderOfOthers(s, a);
    }
  }

  // ---------------------------------------------------------------- the gate

  /** The worker has passed the gate and may still post. */
  predicate Past(pc: Pc) { pc.Admitted? || pc.Posting? }

  ghost predicate GateOk(s: State) {
    && (!s.gate ==> s.postsAtClose <= |s.posts| <= s.postsAtClose + (if Past(s.pc) then 0 else 1))
    && (s.pc.Posting? && s.pc.kind.FatalMessage? ==> !s.gate)
    && (s.handle.Held? && s.handle.step.Leave? ==> !s.sender)
    && (s.handle.Held? && !s.handle.step.Raise? ==> s.stop)
    && (!s.sender ==> s.stop)
    && (s.handle.Held? && s.handle.own ==> InCallback(s) && (s.handle.step.HangUp? || s.handle.step.Leave? ==> !s.gate))
    && (s.handle.Joined? ==> s.pc.Exited? && !s.sender)
  }

  lemma GateOfWorker(s: State, a: Action)
    requires GateOk(s) && Enabled(s, a) && WorkerRuns(s)
    requires !a.TakeSender? && !a.TrySend? && !a.TakeWorker? && !a.ReapWorker? && !a.StopStep?
    ensures GateOk(Step(s, a))
  {
  }

  lemma GateOfStop(s: State, a: Action)
    requires GateOk(s) && Enabled(s, a) && (a.TakeWorker? || a.ReapWorker? || a.StopStep?)
    ensures GateOk(Step(s, a))
  {
  }

  lemma GateStep(s: State, a: Action)
    requires GateOk(s) && Enabled(s, a)
    ensures GateOk(Step(s, a))
  {
    if a.TakeWorker? || a.ReapWorker? || a.StopStep? {
      GateOfStop(s, a);
    } else if !a.TakeSender? && !a.TrySend? {
      GateOfWorker(s, a);
    }
  }

  function After(s: State, actions: seq<Action>): Option<State>
    decreases |actions|
  {
    if actions == [] then Some(s)
    else
      var n := |actions| - 1;
      var before := After(s, actions[..n]);
      if before.Some? && Enabled(before.value, actions[n]) then Some(Step(before.value, actions[n])) else None
  }

  lemma {:induction false} RunInv(s: State, actions: seq<Action>)
    requires OrderOk(s) && GateOk(s) && After(s, actions).Some?
    ensures OrderOk(After(s, actions).value) && GateOk(After(s, actions).value)
    decreases |actions|
  {
    if actions != [] {
      var n := |actions| - 1;
      RunInv(s, actions[..n]);
      OrderStep(After(s, actions[..n]).value, actions[n]);
      GateStep(After(s, actions[..n]).value, actions[n]);
    }
  }

  /** In every interleaving: at most one message for each job, in strictly increasing request order, and at most one
      message after the gate closed. */
  lemma EmissionOrder(actions: seq<Action>)
    requires After(START, actions).Some?
    ensures var s := After(START, actions).value;
            Increasing(s.posts) && (!s.gate ==> |s.posts| <= s.postsAtClose + 1)
  {
    RunInv(START, actions);
  }

  lemma {:induction false} JoinedIsFinal(s: State, actions: seq<Action>)
    requires s.handle.Joined? && s.pc.Exited? && After(s, actions).Some?
    ensures var end := After(s, actions).value;
            end.handle.Joined? && end.pc.Exited? && end.posts == s.posts
    decreases |actions|
  {
    if actions != [] {
      JoinedIsFinal(s, actions[..|actions| - 1]);
    }
  }

  /** After a stop that joined the worker, nothing is posted. */
  lemma SilentAfterJoin(actions: seq<Action>, later: seq<Action>)
    requires After(START, actions).Some? && After(START, actions).value.handle.Joined?
    requires After(After(START, actions).value, later).Some?
    ensures After(After(START, actions).value, later).value.posts == After(START, actions).value.posts
  {
    RunInv(START, actions);
    JoinedIsFinal(After(START, actions).value, later);
  }

  /** A gate once closed stays closed, a stop flag once raised stays raised, and no message is taken back. */
  predicate Later(s: State, end: State) {
    && (!s.gate ==> !end.gate && end.postsAtClose == s.postsAtClose) && (s.stop ==> end.stop)
    && (!s.sender ==> !end.sender) && s.posts <= end.posts
  }

  lemma StepIsLater(s: State, a: Action)
    requires Enabled(s, a)
    ensures Later(s, Step(s, a))
  {
  }

  lemma {:induction false} NothingReopens(s: State, actions: seq<Action>)
    requires After(s, actions).Some?
    ensures Later(s, After(s, actions).value)
    decreases |actions|
  {
    if actions != [] {
      var n := |actions| - 1;
      NothingReopens(s, actions[..n]);
      StepIsLater(After(s, actions[..n]).value, actions[n]);
    }
  }

  lemma {:induction false} ClosedIsSilent(s: State, actions: seq<Action>)
    requires !s.gate && !Past(s.pc) && After(s, actions).Some?
    ensures var end := After(s, actions).value; !end.gate && !Past(end.pc) && end.posts == s.posts
    decreases |actions|
  {
    if actions != [] {
      var n := |actions| - 1;
      ClosedIsSilent(s, actions[..n]);
      ClosedStep(After(s, actions[..n]).value, actions[n]);
    }
  }

  lemma ClosedStep(s: State, a: Action)
    requires !s.gate && !Past(s.pc) && Enabled(s, a)
    ensures var n := Step(s, a); !n.gate && !Past(n.pc) && n.posts == s.posts
  {
  }

  /** A stop from the worker's own thread, inside a callback or a disposal, cannot join; yet nothing is posted once it
      is about to return. */
  lemma SilentAfterOwnStop(actions: seq<Action>, later: seq<Action>)
    requires After(START, actions).Some? && After(START, actions).value.handle == Held(true, Leave)
    requires After(After(START, actions).value, later).Some?
    ensures After(After(START, actions).value, later).value.posts == After(START, actions).value.posts
  {
    RunInv(START, actions);
    ClosedIsSilent(After(START, actions).value, later);
  }

  /** From the moment the gate is closed at most one more message comes. */
  lemma AtMostOneAfterClosing(actions: seq<Action>, later: seq<Action>)
    requires After(START, actions).Some? && !After(START, actions).value.gate
    requires After(After(START, actions).value, later).Some?
    ensures |After(After(START, actions).value, later).value.posts| <= |After(START, actions).value.posts| + 1
  {
    RunInv(START, actions);
    var s := After(START, actions).value;
    RunInv(s, later);
    NothingReopens(s, later);
  }

  /** A thread waiting in the join cannot wait forever for lack of a step: the worker has one, or the producer whose
      copy of the sender keeps the channel open has one. */
  lemma JoinIsNeverStuck(s: State)
    requires s.handle == Held(false, Leave) && !s.sender && !s.pc.Exited?
    ensures exists a :: Enabled(s, a) && !a.StopStep? && !a.TakeWorker? && !a.ReapWorker? && !a.TakeSender?
  {
    match s.pc
    case Receiving =>
      assert Enabled(s, Receive) || Enabled(s, SeeHangUp) || Enabled(s, TrySend);
    case Checking => assert Enabled(s, CheckStop);
    case Processing => assert Enabled(s, Finish(Failed));
    case Upgrading(_) => assert Enabled(s, Upgrade(true));
    case Reporting(_) => assert Enabled(s, ReadGate);
    case Admitted(_) => assert Enabled(s, Build);
    case Posting(_) => assert Enabled(s, Post);
    case Posted(_) => assert Enabled(s, Return);
    case Aborting => assert Enabled(s, RaiseStop);
    case Dropping(_) => assert Enabled(s, DropElement);
  }

  function PcRank(pc: Pc): (r: nat)
    ensures r <= MAX_RANK - 3
  {
    match pc
    case Exited => 0
    case Receiving | Checking => 1
    case Dropping(last) => if last then 1 else 2
    case Aborting => 2
    case Posted(_) => 3
    case Posting(_) => 4
    case Reporting(outcome) => if outcome.Succeeded? then 7 else 5
    case Admitted(_) => 6
    case Upgrading(_) => 8
    case Processing => 9
  }

  const MAX_RANK := 12

  /** How many more steps there can be before a stop has joined the worker. */
  function Rank(s: State): nat {
    PcRank(s.pc) + (if s.queue.Some? then 1 else 0) + (if s.producer.Some? then 2 else 0)
  }

  predicate WaitsToJoin(s: State) { s.handle == Held(false, Leave) && s.stop && !s.sender }

  lemma RankFalls(s: State, a: Action)
    requires WaitsToJoin(s) && Enabled(s, a)
    ensures var n := Step(s, a); (n.handle.Joined? && n.pc.Exited?) || (WaitsToJoin(n) && Rank(n) < Rank(s))
  {
  }

  lemma {:induction false} JoinWithinRank(s: State, later: seq<Action>)
    requires WaitsToJoin(s) && After(s, later).Some?
    ensures var end := After(s, later).value;
            (end.handle.Joined? && end.pc.Exited?) || (WaitsToJoin(end) && Rank(end) + |later| <= Rank(s))
    decreases |later|
  {
    if later != [] {
      var n := |later| - 1;
      JoinWithinRank(s, later[..n]);
      var before := After(s, later[..n]).value;
      if before.handle.Joined? {
        JoinedIsFinal(before, [later[n]]);
        assert After(before, [later[n]][..0]) == Some(before);
      } else {
        RankFalls(before, later[n]);
      }
    }
  }

  /** Once a thread waits to join, every run of more than twelve steps has joined the worker. */
  lemma JoinEnds(actions: seq<Action>, later: seq<Action>)
    requires After(START, actions).Some? && After(START, actions).value.handle == Held(false, Leave)
    requires After(After(START, actions).value, later).Some? && |later| > MAX_RANK
    ensures After(After(START, actions).value, later).value.handle.Joined?
  {
    RunInv(START, actions);
    JoinWithinRank(After(START, actions).value, later);
  }

  // ---------------------------------------------------------------- what is posted

  /** The message for an outcome: its result, an error if the result does not fit or the recogniser failed, or the fatal
      error after a panic. */
  function KindOf(outcome: Outcome): Kind {
    match outcome
    case Succeeded(fits) => if fits then ResultMessage else ErrorMessage
    case Failed => ErrorMessage
    case Panicked => FatalMessage
  }

  lemma Then(start: State, actions: seq<Action>, s: State, a: Action) returns (more: seq<Action>, next: State)
    requires After(start, actions) == Some(s) && Enabled(s, a)
    ensures next == Step(s, a) && After(start, more) == Some(next)
  {
    more, next := actions + [a], Step(s, a);
    assert more[..|actions|] == actions;
  }

  /** The worker is waiting, its request is there, and nobody stops it. */
  predicate Ready(s: State, id: nat) {
    s.pc.Receiving? && s.queue == Some(id) && s.gate && !s.stop && s.handle.InSlot?
  }

  lemma ProcessJob(s: State, id: nat, outcome: Outcome) returns (actions: seq<Action>, end: State)
    requires Ready(s, id)
    ensures After(s, actions) == Some(end)
    ensures end == s.(pc := Reporting(outcome), job := id, queue := None)
  {
    actions, end := Then(s, [], s, Receive);
    actions, end := Then(s, actions, end, CheckStop);
    actions, end := Then(s, actions, end, Finish(outcome));
    actions, end := Then(s, actions, end, Upgrade(true));
  }

  /** A request whose processing nobody stops is answered by exactly the message for its outcome; a panic also closes
      the gate and ends the worker. */
  lemma JobIsAnswered(s: State, id: nat, outcome: Outcome) returns (actions: seq<Action>, end: State)
    requires Ready(s, id)
    ensures After(s, actions) == Some(end) && end.posts == s.posts + [Message(id, KindOf(outcome))]
    ensures if outcome.Panicked? then !end.gate && end.stop && end.pc.Exited?
            else end.gate && !end.stop && end.pc.Receiving?
    ensures end.handle.InSlot? && end.queue.None?
  {
    actions, end := ProcessJob(s, id, outcome);
    actions, end := Then(s, actions, end, ReadGate);
    if outcome.Succeeded? {
      actions, end := Then(s, actions, end, Build);
      if !outcome.fits {
        actions, end := Then(s, actions, end, ReadGate);
      }
    }
    actions, end := Then(s, actions, end, Post);
    actions, end := Then(s, actions, end, Return);
    if outcome.Panicked? {
      actions, end := Then(s, actions, end, RaiseStop);
    }
    actions, end := Then(s, actions, end, DropElement);
  }

  /** A worker that finds its element gone, or its stop flag up, ends without a message. */
  lemma EndsWithoutAMessage(s: State, a: Action)
    requires Enabled(s, a) && (a == Upgrade(false) || a == SeeHangUp || (a.CheckStop? && s.stop))
    ensures Step(s, a) == s.(pc := Exited)
  {
  }

  /** A stop raises the flag, closes the gate and hangs up before it waits or leaves, and posts nothing. */
  lemma StopDoesItsWork(s: State, own: bool) returns (actions: seq<Action>, end: State)
    requires Enabled(s, TakeWorker(own))
    ensures After(s, actions) == Some(end) && |actions| == 4
    ensures end.stop && !end.gate && !end.sender && end.handle == Held(own, Leave)
    ensures end.posts == s.posts && end.pc == s.pc
  {
    var s1 := Step(s, TakeWorker(own));
    var s2 := Step(s1, StopStep);
    var s3 := Step(s2, StopStep);
    end := Step(s3, StopStep);
    actions := [TakeWorker(own), StopStep, StopStep, StopStep];
    assert actions[..3][..2][..1][..0] == [] && actions[..3][..2][..1] == [TakeWorker(own)];
    assert actions[..3][..2] == [TakeWorker(own), StopStep] && actions[..3] == [TakeWorker(own), StopStep, StopStep];
    assert After(s, []) == Some(s) && After(s, actions[..3][..2][..1]) == Some(s1);
    assert After(s, actions[..3][..2]) == Some(s2) && After(s, actions[..3]) == Some(s3);
  }

  /** A job past the check of the stop flag, with nothing posted yet. */
  predicate MayPost(pc: Pc) { Unposted(pc) && !pc.Checking? }

  lemma StoppedStep(s: State, a: Action)
    requires s.stop && Enabled(s, a)
    ensures var n := Step(s, a);
            n.stop && |n.posts| + (if MayPost(n.pc) then 1 else 0) <= |s.posts| + (if MayPost(s.pc) then 1 else 0)
  {
  }

  /** Once the stop flag is up, at most the job in hand is still answered, wherever its gate stands. */
  lemma {:induction false} AtMostOneAfterStop(s: State, actions: seq<Action>)
    requires s.stop && After(s, actions).Some?
    ensures var end := After(s, actions).value;
            && end.stop
            && |end.posts| + (if MayPost(end.pc) then 1 else 0) <= |s.posts| + (if MayPost(s.pc) then 1 else 0)
    decreases |actions|
  {
    if actions != [] {
      var n := |actions| - 1;
      AtMostOneAfterStop(s, actions[..n]);
      StoppedStep(After(s, actions[..n]).value, actions[n]);
    }
  }

  /** A request is taken over by an empty channel while the worker lives; a full one keeps the older request. */
  lemma FullChannelDropsTheNew(s: State)
    requires Enabled(s, TrySend)
    ensures var n := Step(s, TrySend);
            && n.producer.None? && (s.queue.Some? ==> n.queue == s.queue)
            && (s.queue.None? ==> n.queue == if s.pc.Exited? then None else s.producer)
  {
  }
}
