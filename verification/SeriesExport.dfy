/** Series from the first push to the last export, with pushes, removals and export cycles interleaved.
    Totals are unbounded here; the exporter sees them modulo 2^64. The model follows the buffer counter of each
    series; its byte counter and interval counters go through the same cursors. */
module SeriesExport {
  import opened Common
  import opened Cursor
  import opened SeriesRegistry

  /** A push: looked up and not found, holding the entry it will increment, or credited. */
  datatype Push =
    | Missing(key: Key, amount: nat)
    | Holding(entry: Entry, amount: nat)
    | Credited(credit: Credit, amount: nat)

  /** The export thread: between cycles, emptying the retirement queue, or exporting the collected series. */
  datatype Exporter =
    | Idle
    | Draining(snapshot: set<nat>, retired: set<nat>)
    | Exporting(snapshot: set<nat>, retired: set<nat>, todo: set<nat>)

  datatype State = State(
    registry: Registry,
    leaving: Option<nat>,          // removed from the map, not yet handed over; the registration lock is held
    retirement: seq<nat>,
    dropped: nat,
    pushed: map<nat, nat>,         // the true total of each series
    untracked: nat,
    pushes: seq<Push>,
    exporter: Exporter,
    cursors: map<nat, CursorState>,
    taken: map<nat, nat>)          // the accepted total of each series

  datatype Action =
    | Lookup(key: Key, amount: nat)
    | NoElement(push: nat)
    | Resolve(push: nat, included: bool)
    | Increment(push: nat)
    | RemoveKey(key: Key)
    | HandOver
    | StartCycle
    | DrainOne
    | StartExport
    | ExportSeries(id: nat, accepted: bool)
    | EndCycle

  const START_STATE := State(EMPTY, None, [], 0, map[], 0, [], Idle, map[], map[])

  function At(m: map<nat, nat>, id: nat): nat { if id in m then m[id] else 0 }

  function CursorIn(cursors: map<nat, CursorState>, id: nat): CursorState {
    if id in cursors then cursors[id] else START
  }

  function CursorOf(s: State, id: nat): CursorState { CursorIn(s.cursors, id) }

  function Current(s: State, id: nat): Word { At(s.pushed, id) % U64_MODULUS }

  /** Registration and removal take the registration lock, and the lock is held from the removal of a series to its
      hand-over. An export cycle takes no lock, so it may start in between. */
  predicate Enabled(s: State, a: Action) {
    match a
    case Lookup(_, _) => true
    case NoElement(p) => p < |s.pushes| && s.pushes[p].Missing?
    case Resolve(p, _) => p < |s.pushes| && s.pushes[p].Missing? && s.leaving.None?
    case Increment(p) => p < |s.pushes| && s.pushes[p].Holding?
    case RemoveKey(_) => s.leaving.None?
    case HandOver => s.leaving.Some?
    case StartCycle => s.exporter.Idle?
    case DrainOne => s.exporter.Draining? && s.retirement != []
    case StartExport => s.exporter.Draining? && s.retirement == []
    case ExportSeries(id, _) => s.exporter.Exporting? && id in s.exporter.todo
    case EndCycle => s.exporter.Exporting? && s.exporter.todo == {}
  }

  /** A snapshot between removal and hand-over misses the series that is leaving, whose cursor is then forgotten
      before its last export. The step is safe if that export may start from zero. */
  predicate Safe(s: State, a: Action) {
    a.StartCycle? && s.leaving.Some? ==> RestartFits(At(s.pushed, s.leaving.value), At(s.taken, s.leaving.value))
  }

  /** What a lock-free push finds. */
  function Found(s: State, key: Key, amount: nat): Push {
    if key in s.registry.pads then Holding(s.registry.pads[key], amount) else Missing(key, amount)
  }

  function Resolved(s: State, p: nat, included: bool, max: nat): State
    requires p < |s.pushes| && s.pushes[p].Missing?
  {
    var after := Register(s.registry, s.pushes[p].key, included, max);
    s.(registry := after, pushes := s.pushes[p := Holding(after.pads[s.pushes[p].key], s.pushes[p].amount)])
  }

  function Incremented(s: State, p: nat): State
    requires p < |s.pushes| && s.pushes[p].Holding?
  {
    var (credit, amount) := (CreditOf(s.pushes[p].entry), s.pushes[p].amount);
    s.(pushed := if credit.Series? then s.pushed[credit.id := At(s.pushed, credit.id) + amount] else s.pushed,
       untracked := if credit.Untracked? then s.untracked + amount else s.untracked,
       pushes := s.pushes[p := Credited(credit, amount)])
  }

  function HandedOver(s: State, max: nat): State
    requires s.leaving.Some?
  {
    s.(leaving := None,
       retirement := if |s.retirement| < max then s.retirement + [s.leaving.value] else s.retirement,
       dropped := if |s.retirement| < max then s.dropped else s.dropped + 1)
  }

  function ExportedSeries(s: State, id: nat, accepted: bool): State
    requires s.exporter.Exporting?
  {
    s.(exporter := s.exporter.(todo := s.exporter.todo - {id}),
       cursors := s.cursors[id := Exported(CursorOf(s, id), Current(s, id), accepted)],
       taken := s.taken[id := At(s.taken, id) + Sent(CursorOf(s, id), Current(s, id), accepted)])
  }

  function Kept(cursors: map<nat, CursorState>, snapshot: set<nat>, retired: set<nat>): map<nat, CursorState> {
    map id | id in cursors && id in snapshot && id !in retired :: cursors[id]
  }

  /** The start of a cycle: the identifiers of the live series. */
  function Collected(s: State): State { s.(exporter := Draining(Live(s.registry), {})) }

  function Step(s: State, a: Action, max: nat): State
    requires Enabled(s, a)
  {
    match a
    case Lookup(key, amount) => s.(pushes := s.pushes + [Found(s, key, amount)])
    case NoElement(p) => s.(pushes := s.pushes[p := Credited(Nothing, s.pushes[p].amount)])
    case Resolve(p, included) => Resolved(s, p, included, max)
    case Increment(p) => Incremented(s, p)
    case RemoveKey(key) => s.(registry := Remove(s.registry, key), leaving := Removed(s.registry, key))
    case HandOver => HandedOver(s, max)
    case StartCycle => Collected(s)
    case DrainOne => s.(retirement := s.retirement[1..],
                        exporter := Draining(s.exporter.snapshot, s.exporter.retired + {s.retirement[0]}))
    case StartExport => s.(exporter := Exporting(s.exporter.snapshot, s.exporter.retired,
                                                 s.exporter.snapshot + s.exporter.retired))
    case ExportSeries(id, accepted) => ExportedSeries(s, id, accepted)
    case EndCycle => s.(exporter := Idle, cursors := Kept(s.cursors, s.exporter.snapshot, s.exporter.retired))
  }

  // ---------------------------------------------------------------- every push has one credit

  function Total(pushes: seq<Push>, credit: Credit): nat {
    if pushes == [] then 0
    else
      var last := pushes[|pushes| - 1];
      Total(pushes[..|pushes| - 1], credit)
      + (if last.Credited? && last.credit == credit then last.amount else 0)
  }

  lemma {:induction false} TotalAfter(pushes: seq<Push>, p: nat, next: Push, credit: Credit)
    requires p < |pushes| && !pushes[p].Credited?
    ensures Total(pushes[p := next], credit)
            == Total(pushes, credit) + (if next.Credited? && next.credit == credit then next.amount else 0)
    decreases |pushes|
  {
    var n := |pushes| - 1;
    if p < n {
      TotalAfter(pushes[..n], p, next, credit);
      assert pushes[p := next][..n] == pushes[..n][p := next];
    } else {
      assert pushes[p := next][..n] == pushes[..n];
    }
  }

  /** The counters are exactly the sums of the pushes credited to them. */
  ghost predicate CreditsOk(s: State) {
    && (forall id :: At(s.pushed, id) == Total(s.pushes, Series(id)))
    && s.untracked == Total(s.pushes, Untracked)
  }

  lemma CreditsStep(s: State, a: Action, max: nat)
    requires CreditsOk(s) && Enabled(s, a)
    ensures CreditsOk(Step(s, a, max))
  {
    var next := Step(s, a, max);
    if a.Lookup? {
      assert next.pushes[..|s.pushes|] == s.pushes;
    } else if a.NoElement? || a.Resolve? || a.Increment? {
      forall credit: Credit
        ensures Total(next.pushes, credit) == Total(s.pushes, credit)
                + (if next.pushes[a.push].Credited? && next.pushes[a.push].credit == credit
                   then s.pushes[a.push].amount else 0)
      {
        TotalAfter(s.pushes, a.push, next.pushes[a.push], credit);
      }
    }
  }

  /** Every identifier held by a push has been given out. */
  ghost predicate HeldOk(s: State) {
    forall p :: 0 <= p < |s.pushes| ==>
      && (s.pushes[p].Holding? && s.pushes[p].entry.Tracked? ==> s.pushes[p].entry.id < s.registry.nextId)
      && (s.pushes[p].Credited? && s.pushes[p].credit.Series? ==> s.pushes[p].credit.id < s.registry.nextId)
  }

  lemma HeldStep(s: State, a: Action, max: nat)
    requires HeldOk(s) && RegistryOk(s.registry, max) && Enabled(s, a)
    ensures HeldOk(Step(s, a, max))
  {
    if a.Resolve? {
      RegisterKeepsOk(s.registry, s.pushes[a.push].key, a.included, max);
    }
  }

  lemma {:induction false} NothingCredited(pushes: seq<Push>, id: nat)
    requires forall p :: 0 <= p < |pushes| && pushes[p].Credited? ==> pushes[p].credit != Series(id)
    ensures Total(pushes, Series(id)) == 0
    decreases |pushes|
  {
    if pushes != [] {
      NothingCredited(pushes[..|pushes| - 1], id);
    }
  }

  // ---------------------------------------------------------------- where a series can be

  /** The series may still be exported by this or a later cycle. */
  predicate Ahead(s: State, id: nat) {
    id in Live(s.registry) || s.leaving == Some(id) || id in s.retirement
  }

  predicate InCycle(s: State, id: nat) {
    !s.exporter.Idle? && (id in s.exporter.snapshot || id in s.exporter.retired)
  }

  /** A series is live, leaving or waiting in the retirement queue at most once, and then not yet drained. */
  ghost predicate PlacesOk(s: State, max: nat) {
    && RegistryOk(s.registry, max)
    && |s.retirement| <= max
    && (s.leaving.Some? ==> max > 0)
    && (forall id :: id >= s.registry.nextId ==> At(s.taken, id) == 0 && id !in s.cursors)
    && (s.leaving.Some? ==> s.leaving.value < s.registry.nextId && s.leaving.value !in Live(s.registry)
                            && s.leaving.value !in s.retirement)
    && (forall i :: 0 <= i < |s.retirement| ==>
          s.retirement[i] < s.registry.nextId && s.retirement[i] !in Live(s.registry))
    && (forall i, j :: 0 <= i < j < |s.retirement| ==> s.retirement[i] != s.retirement[j])
    && (!s.exporter.Idle? ==> forall id :: id in s.exporter.retired ==> id < s.registry.nextId && !Ahead(s, id))
    && (!s.exporter.Idle? ==> forall id :: id in s.exporter.snapshot ==> id < s.registry.nextId)
    && (s.exporter.Exporting? ==> s.exporter.todo <= s.exporter.snapshot + s.exporter.retired)
  }

  lemma LiveBelow(r: Registry, max: nat)
    requires RegistryOk(r, max)
    ensures forall id :: id in Live(r) ==> id < r.nextId
  {
  }

  lemma PlacesOfRegistry(s: State, a: Action, max: nat)
    requires PlacesOk(s, max) && Enabled(s, a) && (a.Resolve? || a.RemoveKey?)
    ensures PlacesOk(Step(s, a, max), max)
  {
    LiveBelow(s.registry, max);
    if a.Resolve? {
      RegisterKeepsOk(s.registry, s.pushes[a.push].key, a.included, max);
    } else {
      RemoveKeepsOk(s.registry, a.key, max);
    }
  }

  lemma PlacesOfQueue(s: State, a: Action, max: nat)
    requires PlacesOk(s, max) && Enabled(s, a) && (a.HandOver? || a.DrainOne? || a.StartCycle?)
    ensures PlacesOk(Step(s, a, max), max)
  {
    LiveBelow(s.registry, max);
  }

  lemma PlacesOfExport(s: State, id: nat, accepted: bool, max: nat)
    requires PlacesOk(s, max) && Enabled(s, ExportSeries(id, accepted))
    ensures PlacesOk(ExportedSeries(s, id, accepted), max)
  {
    assert id < s.registry.nextId;
    assert forall other :: other != id ==> At(ExportedSeries(s, id, accepted).taken, other) == At(s.taken, other);
  }

  lemma PlacesStep(s: State, a: Action, max: nat)
    requires PlacesOk(s, max) && Enabled(s, a)
    ensures PlacesOk(Step(s, a, max), max)
  {
    if a.Resolve? || a.RemoveKey? {
      PlacesOfRegistry(s, a, max);
    } else if a.HandOver? || a.DrainOne? || a.StartCycle? {
      PlacesOfQueue(s, a, max);
    } else if a.ExportSeries? {
      PlacesOfExport(s, a.id, a.accepted, max);
    }
  }

  /** What holds in every run, whenever cycles start. */
  ghost predicate BooksOk(s: State, max: nat) { CreditsOk(s) && HeldOk(s) && PlacesOk(s, max) }

  lemma BooksStep(s: State, a: Action, max: nat)
    requires BooksOk(s, max) && Enabled(s, a)
    ensures BooksOk(Step(s, a, max), max)
  {
    CreditsStep(s, a, max);
    HeldStep(s, a, max);
    PlacesStep(s, a, max);
  }

  // ---------------------------------------------------------------- cursors and accepted totals

  predicate InSnapshot(s: State, id: nat) { !s.exporter.Idle? && id in s.exporter.snapshot }

  /** An export of the series is still to come, in this cycle or a later one. */
  predicate MayExport(s: State, id: nat) {
    Ahead(s, id) || (s.exporter.Draining? && InCycle(s, id)) || (s.exporter.Exporting? && id in s.exporter.todo)
  }

  predicate Fits(s: State, id: nat) { RestartFits(At(s.pushed, id), At(s.taken, id)) }

  /** The cursor of a series with an export to come is its accepted total modulo 2^64, and no more was accepted than
      pushed. */
  ghost predicate CursorsOk(s: State) {
    && (forall id :: id in s.cursors && MayExport(s, id) ==> s.cursors[id].value == At(s.taken, id) % U64_MODULUS)
    && (forall id :: At(s.taken, id) <= At(s.pushed, id))
  }

  /** Nothing was accepted for a live or collected series without a cursor, and any other that has an export to come
      may restart; so may those this cycle is about to forget. */
  ghost predicate RestartsOk(s: State) {
    && (forall id :: (id in Live(s.registry) || InSnapshot(s, id)) && id !in s.cursors ==> At(s.taken, id) == 0)
    && (forall id :: MayExport(s, id) && id !in s.cursors ==> Fits(s, id))
    && (!s.exporter.Idle? ==>
          forall id :: id !in s.exporter.snapshot && id in Live(s.registry) ==> At(s.taken, id) == 0)
    && (s.exporter.Draining? ==> forall id :: id !in s.exporter.snapshot && s.leaving == Some(id) ==> Fits(s, id))
    && (s.exporter.Exporting? ==> forall id :: id !in s.exporter.snapshot && Ahead(s, id) ==> Fits(s, id))
  }

  ghost predicate Inv(s: State, max: nat) { BooksOk(s, max) && CursorsOk(s) && RestartsOk(s) }

  lemma CursorMatches(s: State, id: nat)
    requires CursorsOk(s) && id in s.cursors && MayExport(s, id)
    ensures CursorOf(s, id).value == At(s.taken, id) % U64_MODULUS && At(s.taken, id) <= At(s.pushed, id)
  {
  }

  /** An export never carries the accepted total past the pushed one, whether its cursor matches or restarts. */
  lemma ExportFits(s: State, id: nat, accepted: bool, max: nat)
    requires Inv(s, max) && Enabled(s, ExportSeries(id, accepted))
    ensures At(s.taken, id) + Sent(CursorOf(s, id), Current(s, id), accepted) <= At(s.pushed, id)
    ensures id in s.cursors || At(s.taken, id) == 0 ==>
              Exported(CursorOf(s, id), Current(s, id), accepted).value
              == (At(s.taken, id) + Sent(CursorOf(s, id), Current(s, id), accepted)) % U64_MODULUS
  {
    if id in s.cursors {
      CursorMatches(s, id);
      NeverOvercounts(CursorOf(s, id), At(s.pushed, id), At(s.taken, id), accepted);
    } else {
      assert MayExport(s, id) && Fits(s, id);
      RestartSends(At(s.pushed, id));
      if At(s.taken, id) == 0 {
        NeverOvercounts(START, At(s.pushed, id), 0, accepted);
      }
    }
  }

  lemma ExportKeepsCursors(s: State, id: nat, accepted: bool, max: nat)
    requires Inv(s, max) && Enabled(s, ExportSeries(id, accepted))
    ensures CursorsOk(ExportedSeries(s, id, accepted))
  {
    ExportFits(s, id, accepted, max);
    assert Ahead(s, id) ==> InSnapshot(s, id);
    RecordedExport(s, id, Sent(CursorOf(s, id), Current(s, id), accepted),
                   Exported(CursorOf(s, id), Current(s, id), accepted), ExportedSeries(s, id, accepted));
  }

  lemma RecordedExport(s: State, id: nat, amount: nat, cursor: CursorState, next: State)
    requires CursorsOk(s) && At(s.taken, id) + amount <= At(s.pushed, id)
    requires Ahead(s, id) ==> cursor.value == (At(s.taken, id) + amount) % U64_MODULUS
    requires s.exporter.Exporting? && next.exporter == s.exporter.(todo := s.exporter.todo - {id})
    requires next == s.(exporter := next.exporter, cursors := s.cursors[id := cursor],
                        taken := s.taken[id := At(s.taken, id) + amount])
    ensures CursorsOk(next)
  {
    assert At(next.taken, id) == At(s.taken, id) + amount;
    assert forall other :: other != id ==> At(next.taken, other) == At(s.taken, other);
    assert forall other :: MayExport(next, other) ==> MayExport(s, other);
  }

  lemma ExportKeepsRestarts(s: State, id: nat, accepted: bool, max: nat)
    requires Inv(s, max) && Enabled(s, ExportSeries(id, accepted))
    ensures RestartsOk(ExportedSeries(s, id, accepted))
  {
    var next := ExportedSeries(s, id, accepted);
    assert !Ahead(s, id) || InSnapshot(s, id);
    assert forall other :: other != id ==> At(next.taken, other) == At(s.taken, other);
    assert forall other :: other != id && MayExport(next, other) ==> MayExport(s, other);
    assert forall other :: other != id && Fits(s, other) ==> Fits(next, other);
  }

  /** Where only places change, the totals and with them the permission to restart stay. */
  lemma FitsStays(s: State, next: State)
    requires next.pushed == s.pushed && next.taken == s.taken
    ensures forall id :: Fits(next, id) <==> Fits(s, id)
  {
  }

  lemma NewSeriesKeepsRestarts(s: State, next: State, max: nat)
    requires Inv(s, max) && next == s.(registry := next.registry, pushes := next.pushes)
    requires s.registry.nextId !in Live(s.registry)
    requires Live(next.registry) == Live(s.registry) || Live(next.registry) == Live(s.registry) + {s.registry.nextId}
    ensures CursorsOk(next) && RestartsOk(next)
  {
    var given := s.registry.nextId;
    FitsStays(s, next);
    RestartFromNothing(At(s.pushed, given));
    assert At(s.taken, given) == 0 && Fits(next, given) && given !in s.cursors && !InCycle(s, given);
    assert forall id :: MayExport(next, id) ==> MayExport(s, id) || id == given;
  }

  lemma ResolveKeepsRestarts(s: State, p: nat, included: bool, max: nat)
    requires Inv(s, max) && Enabled(s, Resolve(p, included))
    ensures CursorsOk(Resolved(s, p, included, max)) && RestartsOk(Resolved(s, p, included, max))
  {
    RegisterKeepsOk(s.registry, s.pushes[p].key, included, max);
    NewSeriesKeepsRestarts(s, Resolved(s, p, included, max), max);
  }

  lemma RemoveKeepsRestarts(s: State, key: Key, max: nat)
    requires Inv(s, max) && Enabled(s, RemoveKey(key))
    ensures CursorsOk(Step(s, RemoveKey(key), max)) && RestartsOk(Step(s, RemoveKey(key), max))
  {
    var next := Step(s, RemoveKey(key), max);
    RemoveKeepsOk(s.registry, key, max);
    FitsStays(s, next);
    assert forall id :: MayExport(next, id) <==> MayExport(s, id);
    if Removed(s.registry, key).Some? {
      RestartFromNothing(At(s.pushed, Removed(s.registry, key).value));
    }
  }

  lemma IncrementKeepsRestarts(s: State, p: nat, max: nat)
    requires Inv(s, max) && Enabled(s, Increment(p))
    ensures CursorsOk(Incremented(s, p)) && RestartsOk(Incremented(s, p))
  {
    var next := Incremented(s, p);
    forall id | Fits(s, id) ensures Fits(next, id) {
      RestartStaysFit(At(s.pushed, id), At(next.pushed, id), At(s.taken, id));
    }
    assert forall id :: MayExport(next, id) <==> MayExport(s, id);
  }

  lemma StartKeepsRestarts(s: State, max: nat)
    requires Inv(s, max) && Enabled(s, StartCycle) && Safe(s, StartCycle)
    ensures CursorsOk(Collected(s)) && RestartsOk(Collected(s))
  {
    var next := Collected(s);
    FitsStays(s, next);
    assert forall id :: MayExport(next, id) <==> MayExport(s, id);
  }

  lemma HandOverKeepsRestarts(s: State, max: nat)
    requires Inv(s, max) && Enabled(s, HandOver)
    ensures CursorsOk(HandedOver(s, max)) && RestartsOk(HandedOver(s, max))
  {
    var next := HandedOver(s, max);
    FitsStays(s, next);
    assert forall id :: MayExport(next, id) ==> MayExport(s, id);
  }

  lemma DrainKeepsRestarts(s: State, max: nat)
    requires Inv(s, max) && Enabled(s, DrainOne)
    ensures CursorsOk(Step(s, DrainOne, max)) && RestartsOk(Step(s, DrainOne, max))
  {
    var next := Step(s, DrainOne, max);
    FitsStays(s, next);
    assert forall id :: MayExport(next, id) ==> MayExport(s, id);
  }

  lemma StartExportKeepsRestarts(s: State, max: nat)
    requires Inv(s, max) && Enabled(s, StartExport)
    ensures CursorsOk(Step(s, StartExport, max)) && RestartsOk(Step(s, StartExport, max))
  {
    var next := Step(s, StartExport, max);
    FitsStays(s, next);
    assert forall id :: MayExport(next, id) ==> MayExport(s, id);
  }

  lemma EndKeepsRestarts(s: State, max: nat)
    requires Inv(s, max) && Enabled(s, EndCycle)
    ensures CursorsOk(Step(s, EndCycle, max)) && RestartsOk(Step(s, EndCycle, max))
  {
    var next := Step(s, EndCycle, max);
    FitsStays(s, next);
    assert forall id :: MayExport(next, id) ==> Ahead(s, id) && MayExport(s, id);
  }

  lemma PushKeepsRestarts(s: State, a: Action, max: nat)
    requires Inv(s, max) && Enabled(s, a) && (a.Lookup? || a.NoElement?)
    ensures CursorsOk(Step(s, a, max)) && RestartsOk(Step(s, a, max))
  {
    var next := Step(s, a, max);
    assert forall id :: MayExport(next, id) <==> MayExport(s, id);
    assert forall id :: Fits(next, id) <==> Fits(s, id);
  }

  lemma StepInv(s: State, a: Action, max: nat)
    requires Inv(s, max) && Enabled(s, a) && Safe(s, a)
    ensures Inv(Step(s, a, max), max)
  {
    BooksStep(s, a, max);
    if a.ExportSeries? {
      ExportKeepsCursors(s, a.id, a.accepted, max);
      ExportKeepsRestarts(s, a.id, a.accepted, max);
    } else if a.Resolve? {
      ResolveKeepsRestarts(s, a.push, a.included, max);
    } else if a.RemoveKey? {
      RemoveKeepsRestarts(s, a.key, max);
    } else if a.Increment? {
      IncrementKeepsRestarts(s, a.push, max);
    } else if a.Lookup? || a.NoElement? {
      PushKeepsRestarts(s, a, max);
    } else if a.StartCycle? {
      StartKeepsRestarts(s, max);
    } else if a.EndCycle? {
      EndKeepsRestarts(s, max);
    } else if a.HandOver? {
      HandOverKeepsRestarts(s, max);
    } else if a.DrainOne? {
      DrainKeepsRestarts(s, max);
    } else {
      StartExportKeepsRestarts(s, max);
    }
  }

  // ---------------------------------------------------------------- whole runs

  /** The state after some actions, if each was possible in its turn. A guarded run starts no unsafe cycle. */
  function After(s: State, actions: seq<Action>, max: nat, guarded: bool): Option<State>
    decreases |actions|
  {
    if actions == [] then Some(s)
    else
      var (n, a) := (|actions| - 1, actions[|actions| - 1]);
      var before := After(s, actions[..n], max, guarded);
      if before.Some? && Enabled(before.value, a) && (guarded ==> Safe(before.value, a))
      then Some(Step(before.value, a, max)) else None
  }

  lemma StartInv(max: nat)
    ensures Inv(START_STATE, max)
  {
    EmptyIsOk(max);
  }

  lemma {:induction false} RunBooks(s: State, actions: seq<Action>, max: nat, guarded: bool)
    requires BooksOk(s, max) && After(s, actions, max, guarded).Some?
    ensures BooksOk(After(s, actions, max, guarded).value, max)
    decreases |actions|
  {
    if actions != [] {
      var n := |actions| - 1;
      RunBooks(s, actions[..n], max, guarded);
      BooksStep(After(s, actions[..n], max, guarded).value, actions[n], max);
    }
  }

  lemma {:induction false} RunInv(s: State, actions: seq<Action>, max: nat)
    requires Inv(s, max) && After(s, actions, max, true).Some?
    ensures Inv(After(s, actions, max, true).value, max)
    decreases |actions|
  {
    if actions != [] {
      var n := |actions| - 1;
      RunInv(s, actions[..n], max);
      StepInv(After(s, actions[..n], max, true).value, actions[n], max);
    }
  }

  /** In every run, with any rejected sends, removals and dropped retirements, and with cycles starting at any time:
      the live series are counted exactly and within the cap, and every counter is the sum of the pushes credited to
      it. */
  lemma SeriesAccounting(actions: seq<Action>, max: nat)
    requires After(START_STATE, actions, max, false).Some?
    ensures var s := After(START_STATE, actions, max, false).value;
            && s.registry.active == |TrackedKeys(s.registry)| <= max
            && (forall id :: At(s.pushed, id) == Total(s.pushes, Series(id)))
            && s.untracked == Total(s.pushes, Untracked)
  {
    StartInv(max);
    RunBooks(START_STATE, actions, max, false);
  }

  /** In every run without an unsafe cycle no more is accepted for a series than was pushed to it. */
  lemma SeriesConservation(actions: seq<Action>, max: nat)
    requires After(START_STATE, actions, max, true).Some?
    ensures var s := After(START_STATE, actions, max, true).value;
            forall id :: At(s.taken, id) <= At(s.pushed, id) == Total(s.pushes, Series(id))
  {
    StartInv(max);
    RunInv(START_STATE, actions, max);
  }

  /** A push ends with one credit, decided by the entry it held. */
  lemma CreditIsFinal(s: State, a: Action, p: nat, max: nat)
    requires Enabled(s, a) && p < |s.pushes|
    ensures var next := Step(s, a, max);
            && p < |next.pushes| && next.pushes[p].amount == s.pushes[p].amount
            && (s.pushes[p].Credited? ==> next.pushes[p] == s.pushes[p])
            && (s.pushes[p].Holding? && next.pushes[p].Credited? ==>
                  match s.pushes[p].entry
                  case Tracked(id) => next.pushes[p].credit == Series(id)
                  case Ignored(Filtered) => next.pushes[p].credit == Nothing
                  case Ignored(_) => next.pushes[p].credit == Untracked)
  {
  }

  /** A new series has an identifier that no push, export or retirement of the run has seen. */
  lemma SeriesAreNew(actions: seq<Action>, p: nat, included: bool, max: nat)
    requires After(START_STATE, actions, max, false).Some?
    requires Enabled(After(START_STATE, actions, max, false).value, Resolve(p, included))
    ensures var s := After(START_STATE, actions, max, false).value;
            var id := s.registry.nextId;
            Step(s, Resolve(p, included), max).registry.nextId != id ==>
              && Step(s, Resolve(p, included), max).registry.nextId == id + 1
              && Step(s, Resolve(p, included), max).pushes[p].entry == Tracked(id)
              && !Ahead(s, id) && !InCycle(s, id) && At(s.taken, id) == 0 && At(s.pushed, id) == 0
  {
    StartInv(max);
    RunBooks(START_STATE, actions, max, false);
    var s := After(START_STATE, actions, max, false).value;
    LiveBelow(s.registry, max);
    NothingCredited(s.pushes, s.registry.nextId);
  }

  /** An accepted export brings a series that has its cursor, or its first export, level with its counter when the
      gap fits one send. */
  lemma AcceptedExportCatchesUp(actions: seq<Action>, id: nat, max: nat)
    requires After(START_STATE, actions, max, true).Some?
    requires Enabled(After(START_STATE, actions, max, true).value, ExportSeries(id, true))
    requires var s := After(START_STATE, actions, max, true).value;
             && At(s.pushed, id) - At(s.taken, id) <= I64_MAX
             && (id in s.cursors || At(s.taken, id) == 0)
    ensures var s := After(START_STATE, actions, max, true).value;
            At(Step(s, ExportSeries(id, true), max).taken, id) == At(s.pushed, id)
  {
    StartInv(max);
    RunInv(START_STATE, actions, max);
    var s := After(START_STATE, actions, max, true).value;
    if id in s.cursors {
      CursorMatches(s, id);
    }
    AcceptedSendCatchesUp(CursorOf(s, id), At(s.pushed, id), At(s.taken, id));
  }

  /** A removed series is handed over for its last export while there is room, and counted as dropped otherwise. */
  lemma RemovedIsHandedOver(s: State, key: Key, max: nat)
    requires Enabled(s, RemoveKey(key))
    ensures var removed := Step(s, RemoveKey(key), max);
            && key !in removed.registry.pads && removed.retirement == s.retirement
            && (removed.leaving.Some? <==> key in s.registry.pads && s.registry.pads[key].Tracked?)
            && (removed.leaving.Some? ==>
                  && removed.leaving == Some(s.registry.pads[key].id)
                  && var next := Step(removed, HandOver, max);
                  if |s.retirement| < max
                  then next.retirement == s.retirement + [removed.leaving.value] && next.dropped == s.dropped
                  else next.retirement == s.retirement && next.dropped == s.dropped + 1)
  {
  }

  /** After a cycle exactly the cursors of series that were live when it began and have not retired since are kept. */
  lemma CycleKeepsLiveCursors(s: State, id: nat, max: nat)
    requires Enabled(s, EndCycle)
    ensures var next := Step(s, EndCycle, max);
            && (id in next.cursors <==>
                  id in s.cursors && id in s.exporter.snapshot && id !in s.exporter.retired)
            && (id in next.cursors ==> next.cursors[id] == s.cursors[id])
  {
  }

  /** The cycle collects the series, or will take it out of the retirement queue. */
  predicate WillExport(s: State, id: nat) {
    s.exporter.Draining? && (id in s.exporter.snapshot || id in s.exporter.retired || id in s.retirement)
  }

  predicate SameBooks(s: State, next: State) {
    next.pushed == s.pushed && next.taken == s.taken && next.cursors == s.cursors
  }

  lemma {:induction false} DrainFor(start: State, actions: seq<Action>, s: State, id: nat, max: nat)
    returns (more: seq<Action>, t: State)
    requires After(start, actions, max, true) == Some(s) && WillExport(s, id)
    ensures After(start, more, max, true) == Some(t) && WillExport(t, id) && t.retirement == [] && SameBooks(s, t)
    decreases |s.retirement|
  {
    more, t := actions, s;
    if s.retirement != [] {
      more, t := Then(start, actions, s, DrainOne, max);
      more, t := DrainFor(start, more, t, id, max);
    }
  }

  /** Nothing is stuck: one cycle whose exports are accepted brings any live or retired series level with its counter,
      if the gap fits one send and the series has its cursor or had nothing accepted. */
  lemma EverySeriesCanCatchUp(actions: seq<Action>, id: nat, max: nat)
    requires After(START_STATE, actions, max, true).Some?
    requires var s := After(START_STATE, actions, max, true).value;
             && s.exporter.Idle? && s.leaving.None? && (id in Live(s.registry) || id in s.retirement)
             && At(s.pushed, id) - At(s.taken, id) <= I64_MAX && (id in s.cursors || At(s.taken, id) == 0)
    ensures var s := After(START_STATE, actions, max, true).value;
            exists more, end ::
              && After(START_STATE, more, max, true) == Some(end)
              && end.pushed == s.pushed && At(end.taken, id) == At(s.pushed, id)
  {
    var s := After(START_STATE, actions, max, true).value;
    var more, t := Then(START_STATE, actions, s, StartCycle, max);
    more, t := DrainFor(START_STATE, more, t, id, max);
    more, t := Then(START_STATE, more, t, StartExport, max);
    AcceptedExportCatchesUp(more, id, max);
    more, t := Then(START_STATE, more, t, ExportSeries(id, true), max);
  }

  // ---------------------------------------------------------------- one cycle on its own

  class ExportState {
    var pads: map<nat, CursorState>

    constructor ()
      ensures pads == map[]
    {
      pads := map[];
    }

    /** Export every series of the snapshot or the retirement queue once, even if it is in both, then keep only the
        cursors of the live ones. */
    method ExportPadSnapshot(active: seq<nat>, retirement: seq<nat>, current: map<nat, Word>, answer: nat -> bool)
      returns (sent: map<nat, nat>)
      requires forall id :: id in active || id in retirement ==> id in current
      modifies this
      ensures sent.Keys == (set id | id in active + retirement)
      ensures forall id :: id in sent ==> sent[id] == Sent(CursorIn(old(pads), id), current[id], answer(id))
      ensures pads.Keys == (set id | id in active && id !in retirement)
      ensures forall id :: id in pads ==> pads[id] == Exported(CursorIn(old(pads), id), current[id], answer(id))
    {
      var activeIds := set id | id in active;
      var retiredIds := Drain(retirement);
      var send := (id: nat, cursor: CursorState) =>
        var value := if id in current then current[id] else 0;
        (Exported(cursor, value, answer(id)), Sent(cursor, value, answer(id)));
      sent := ExportAll(activeIds + retiredIds, send);
      pads := map id | id in pads && id in activeIds && id !in retiredIds :: pads[id];
    }

    /** Empty the retirement queue. */
    method Drain(retirement: seq<nat>) returns (ids: set<nat>)
      ensures ids == set id | id in retirement
    {
      ids := {};
      for i := 0 to |retirement|
        invariant ids == set id | id in retirement[..i]
      {
        assert retirement[..i + 1] == retirement[..i] + [retirement[i]];
        ids := ids + {retirement[i]};
      }
      assert retirement[..|retirement|] == retirement;
    }

    /** One export of each series, in no particular order. */
    method ExportAll(ids: set<nat>, send: (nat, CursorState) -> (CursorState, nat)) returns (sent: map<nat, nat>)
      modifies this
      ensures forall id :: id in sent <==> id in ids
      ensures forall id :: id in sent ==> sent[id] == send(id, CursorIn(old(pads), id)).1
      ensures forall id :: id in pads <==> id in ids || id in old(pads)
      ensures forall id :: id in ids ==> pads[id] == send(id, CursorIn(old(pads), id)).0
    {
      sent := map[];
      var todo := ids;
      ghost var before := pads;
      while todo != {}
        invariant forall id :: id in sent <==> id in ids && id !in todo
        invariant todo <= ids && forall id :: id in pads <==> id in before || id in sent
        invariant forall id :: id in sent ==> sent[id] == send(id, CursorIn(before, id)).1
        invariant forall id :: id in pads ==>
          pads[id] == if id in sent then send(id, CursorIn(before, id)).0 else before[id]
        decreases |todo|
      {
        var id :| id in todo;
        var result := send(id, CursorIn(pads, id));
        pads := pads[id := result.0];
        sent := sent[id := result.1];
        todo := todo - {id};
      }
    }
  }

  // ---------------------------------------------------------------- snapshots inside a hand-over

  lemma Then(start: State, actions: seq<Action>, s: State, a: Action, max: nat)
    returns (more: seq<Action>, next: State)
    requires After(start, actions, max, true) == Some(s) && Enabled(s, a) && Safe(s, a)
    ensures next == Step(s, a, max) && After(start, more, max, true) == Some(next)
  {
    more, next := actions + [a], Step(s, a, max);
    assert more[..|actions|] == actions;
  }

  /** Some run from here, without an unsafe cycle, accepts more for the series than was pushed to it. */
  ghost predicate CanOvercount(s: State, id: nat, max: nat) {
    exists rest ::
      && After(s, rest, max, true).Some?
      && At(After(s, rest, max, true).value.taken, id) > At(After(s, rest, max, true).value.pushed, id)
  }

  /** The series is between removal and hand-over, missed by the cycle that runs. */
  ghost predicate Missed(s: State, id: nat, pushed: nat, taken: nat) {
    && s.leaving == Some(id) && !s.exporter.Idle? && id !in s.exporter.snapshot
    && At(s.pushed, id) == pushed && At(s.taken, id) == taken
  }

  lemma {:induction false} DrainAll(start: State, actions: seq<Action>, s: State, id: nat, max: nat)
    returns (more: seq<Action>, t: State)
    requires After(start, actions, max, true) == Some(s) && s.exporter.Draining?
    requires Missed(s, id, At(s.pushed, id), At(s.taken, id)) && BooksOk(s, max)
    ensures After(start, more, max, true) == Some(t) && t.exporter.Draining? && t.retirement == []
    ensures Missed(t, id, At(s.pushed, id), At(s.taken, id)) && BooksOk(t, max)
    decreases |s.retirement|
  {
    more, t := actions, s;
    if s.retirement != [] {
      BooksStep(s, DrainOne, max);
      more, t := Then(start, actions, s, DrainOne, max);
      more, t := DrainAll(start, more, t, id, max);
    }
  }

  lemma {:induction false} RejectAll(start: State, actions: seq<Action>, s: State, id: nat, max: nat)
    returns (more: seq<Action>, t: State)
    requires After(start, actions, max, true) == Some(s) && s.exporter.Exporting? && s.retirement == []
    requires Missed(s, id, At(s.pushed, id), At(s.taken, id)) && BooksOk(s, max)
    ensures After(start, more, max, true) == Some(t) && t.exporter.Exporting? && t.exporter.todo == {}
    ensures t.retirement == [] && Missed(t, id, At(s.pushed, id), At(s.taken, id)) && BooksOk(t, max)
    decreases |s.exporter.todo|
  {
    more, t := actions, s;
    if s.exporter.todo != {} {
      var other :| other in s.exporter.todo;
      BooksStep(s, ExportSeries(other, false), max);
      more, t := Then(start, actions, s, ExportSeries(other, false), max);
      more, t := RejectAll(start, more, t, id, max);
    }
  }

  /** The cycle that missed the series exports the others, to no effect. */
  lemma RunMissedCycle(start: State, id: nat, max: nat) returns (actions: seq<Action>, t: State)
    requires BooksOk(start, max) && start.exporter.Draining?
    requires Missed(start, id, At(start.pushed, id), At(start.taken, id))
    ensures After(start, actions, max, true) == Some(t) && BooksOk(t, max)
    ensures t.exporter.Exporting? && t.exporter.todo == {} && t.retirement == []
    ensures Missed(t, id, At(start.pushed, id), At(start.taken, id))
  {
    actions, t := DrainAll(start, [], start, id, max);
    BooksStep(t, StartExport, max);
    actions, t := Then(start, actions, t, StartExport, max);
    actions, t := RejectAll(start, actions, t, id, max);
  }

  /** Its end forgets the cursor of the series, which is then handed over. */
  lemma FinishMissedCycle(start: State, id: nat, max: nat) returns (actions: seq<Action>, t: State)
    requires BooksOk(start, max) && start.exporter.Draining?
    requires Missed(start, id, At(start.pushed, id), At(start.taken, id))
    ensures After(start, actions, max, true) == Some(t)
    ensures t.exporter.Idle? && t.leaving.None? && t.retirement == [id] && id !in t.cursors
    ensures At(t.pushed, id) == At(start.pushed, id) && At(t.taken, id) == At(start.taken, id)
  {
    actions, t := RunMissedCycle(start, id, max);
    actions, t := Then(start, actions, t, EndCycle, max);
    actions, t := Then(start, actions, t, HandOver, max);
  }

  /** The next cycle exports the series from zero. */
  lemma RestartedExport(start: State, before: seq<Action>, s: State, id: nat, max: nat)
    requires After(start, before, max, true) == Some(s) && s.exporter.Idle? && s.leaving.None?
    requires s.retirement == [id] && id !in s.cursors && !Fits(s, id)
    ensures CanOvercount(start, id, max)
  {
    var (actions, t) := (before, s);
    actions, t := Then(start, actions, t, StartCycle, max);
    actions, t := Then(start, actions, t, DrainOne, max);
    actions, t := Then(start, actions, t, StartExport, max);
    RestartSends(At(s.pushed, id));
    actions, t := Then(start, actions, t, ExportSeries(id, true), max);
    assert At(t.taken, id) > At(t.pushed, id);
  }

  /** The exact condition: a snapshot taken while a series is between removal and hand-over lets some run overcount
      the series if and only if its cursor may not restart; below 2^63 pushes, if and only if something was accepted
      for it before. */
  lemma SnapshotInsideHandOverIff(actions: seq<Action>, id: nat, max: nat)
    requires After(START_STATE, actions, max, true).Some?
    requires var s := After(START_STATE, actions, max, true).value; s.exporter.Idle? && s.leaving == Some(id)
    ensures var s := After(START_STATE, actions, max, true).value;
            && (CanOvercount(Collected(s), id, max) <==> !RestartFits(At(s.pushed, id), At(s.taken, id)))
            && (At(s.pushed, id) <= I64_MAX ==> (CanOvercount(Collected(s), id, max) <==> At(s.taken, id) > 0))
  {
    StartInv(max);
    RunInv(START_STATE, actions, max);
    var s := After(START_STATE, actions, max, true).value;
    if Fits(s, id) {
      HarmlessSnapshot(s, id, max);
    } else {
      BooksStep(s, StartCycle, max);
      var rest, t := FinishMissedCycle(Collected(s), id, max);
      RestartedExport(Collected(s), rest, t, id, max);
    }
    if At(s.pushed, id) <= I64_MAX {
      RestartOfSmallTotal(At(s.pushed, id), At(s.taken, id));
    }
  }

  lemma HarmlessSnapshot(s: State, id: nat, max: nat)
    requires Inv(s, max) && s.exporter.Idle? && s.leaving == Some(id) && Fits(s, id)
    ensures !CanOvercount(Collected(s), id, max)
  {
    StepInv(s, StartCycle, max);
    forall rest | After(Collected(s), rest, max, true).Some?
      ensures At(After(Collected(s), rest, max, true).value.taken, id)
              <= At(After(Collected(s), rest, max, true).value.pushed, id)
    {
      RunInv(Collected(s), rest, max);
    }
  }

  /** Such a snapshot does occur: a run of the code overcounts a series. */
  lemma SnapshotInsideHandOverOvercounts()
    ensures exists first ::
              && After(START_STATE, first, 1, true).Some?
              && var s := After(START_STATE, first, 1, true).value;
              s.exporter.Idle? && s.leaving == Some(1) && Enabled(s, StartCycle) && CanOvercount(Collected(s), 1, 1)
  {
    var first := ExportedThenLeaving();
    SnapshotInsideHandOverIff(first, 1, 1);
  }

  lemma FirstPush() returns (actions: seq<Action>)
    ensures var r := After(START_STATE, actions, 1, true);
            && r.Some? && r.value.exporter.Idle? && r.value.leaving.None? && r.value.retirement == []
            && r.value.registry.pads == map[0 := Tracked(1)] && r.value.cursors == map[]
            && r.value.pushed == map[1 := 5] && r.value.taken == map[]
  {
    actions := [];
    var s := START_STATE;
    actions, s := Then(START_STATE, actions, s, Lookup(0, 5), 1);
    actions, s := Then(START_STATE, actions, s, Resolve(0, true), 1);
    actions, s := Then(START_STATE, actions, s, Increment(0), 1);
  }

  lemma FirstCycle() returns (actions: seq<Action>)
    ensures var r := After(START_STATE, actions, 1, true);
            && r.Some? && r.value.exporter == Exporting({1}, {}, {1}) && r.value.leaving.None?
            && r.value.registry.pads == map[0 := Tracked(1)] && r.value.cursors == map[]
            && r.value.pushed == map[1 := 5] && r.value.taken == map[]
  {
    actions := FirstPush();
    var s := After(START_STATE, actions, 1, true).value;
    OneLive(s.registry);
    actions, s := Then(START_STATE, actions, s, StartCycle, 1);
    actions, s := Then(START_STATE, actions, s, StartExport, 1);
  }

  lemma FirstExport() returns (actions: seq<Action>)
    ensures var r := After(START_STATE, actions, 1, true);
            && r.Some? && r.value.exporter == Exporting({1}, {}, {}) && r.value.leaving.None?
            && r.value.registry.pads == map[0 := Tracked(1)]
            && r.value.pushed == map[1 := 5] && r.value.taken == map[1 := 5]
  {
    actions := FirstCycle();
    var s := After(START_STATE, actions, 1, true).value;
    RestartSends(5);
    assert CursorOf(s, 1) == START && Current(s, 1) == 5;
    actions, s := Then(START_STATE, actions, s, ExportSeries(1, true), 1);
  }

  lemma ExportedThenLeaving() returns (actions: seq<Action>)
    ensures var r := After(START_STATE, actions, 1, true);
            && r.Some? && r.value.exporter.Idle? && r.value.leaving == Some(1)
            && r.value.pushed == map[1 := 5] && r.value.taken == map[1 := 5]
  {
    actions := FirstExport();
    var s := After(START_STATE, actions, 1, true).value;
    actions, s := Then(START_STATE, actions, s, EndCycle, 1);
    actions, s := Then(START_STATE, actions, s, RemoveKey(0), 1);
  }

  lemma OneLive(r: Registry)
    requires r.pads == map[0 := Tracked(1)]
    ensures Live(r) == {1}
  {
    assert r.pads[0] == Tracked(1);
  }
}
