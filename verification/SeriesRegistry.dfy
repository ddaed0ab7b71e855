/** Registration of pad series: a capped set of live series with identifiers that are never used twice. */
module SeriesRegistry {
  import opened Common
  import opened Cursor

  type Key = nat

  datatype IgnoreReason = Filtered | SeriesLimit | SeriesIdOverflow

  datatype Entry = Tracked(id: nat) | Ignored(reason: IgnoreReason)

  datatype Credit = Series(id: nat) | Untracked | Nothing

  /** Where the amount of a push goes. */
  function CreditOf(entry: Entry): Credit {
    if entry.Tracked? then Series(entry.id) else if entry.reason.Filtered? then Nothing else Untracked
  }

  datatype Registry = Registry(pads: map<Key, Entry>, active: nat, nextId: nat)

  const EMPTY := Registry(map[], 0, 1)

  function NewEntry(r: Registry, included: bool, max: nat): Entry {
    if !included then Ignored(Filtered)
    else if r.active >= max then Ignored(SeriesLimit)
    else if r.nextId + 1 <= U64_MAX then Tracked(r.nextId)
    else Ignored(SeriesIdOverflow)
  }

  /** Look up again under the registration lock and insert an entry if there still is none. */
  function Register(r: Registry, key: Key, included: bool, max: nat): (after: Registry)
    ensures key in after.pads
  {
    if key in r.pads then r
    else
      var entry := NewEntry(r, included, max);
      Registry(r.pads[key := entry],
               if entry.Tracked? then r.active + 1 else r.active,
               if entry.Tracked? then r.nextId + 1 else r.nextId)
  }

  function Removed(r: Registry, key: Key): Option<nat> {
    if key in r.pads && r.pads[key].Tracked? then Some(r.pads[key].id) else None
  }

  function Remove(r: Registry, key: Key): Registry {
    Registry(r.pads - {key}, if Removed(r, key).Some? then Max(r.active - 1, 0) else r.active, r.nextId)
  }

  function TrackedKeys(r: Registry): set<Key> { set k | k in r.pads && r.pads[k].Tracked? }

  /** The identifiers of the series in the map. */
  function Live(r: Registry): set<nat> { set k | k in r.pads && r.pads[k].Tracked? :: r.pads[k].id }

  ghost predicate RegistryOk(r: Registry, max: nat) {
    && r.active == |TrackedKeys(r)| <= max
    && 1 <= r.nextId <= U64_MAX
    && (forall k :: k in r.pads && r.pads[k].Tracked? ==> 1 <= r.pads[k].id < r.nextId)
    && (forall j, k :: j in r.pads && k in r.pads && r.pads[j].Tracked? && r.pads[j] == r.pads[k] ==> j == k)
  }

  lemma EmptyIsOk(max: nat)
    ensures RegistryOk(EMPTY, max) && Live(EMPTY) == {}
  {
    assert TrackedKeys(EMPTY) == {};
  }

  /** Registration keeps the cap exact and gives a new series an identifier no series had before. */
  lemma RegisterKeepsOk(r: Registry, key: Key, included: bool, max: nat)
    requires RegistryOk(r, max)
    ensures var after := Register(r, key, included, max);
            && RegistryOk(after, max) && r.nextId <= after.nextId
            && Live(after) == (if after.nextId == r.nextId then Live(r) else Live(r) + {r.nextId})
            && r.nextId !in Live(r)
  {
    var after := Register(r, key, included, max);
    if after != r {
      var entry := NewEntry(r, included, max);
      LiveAfterInsert(r, key, entry, after);
      OkAfterInsert(r, key, entry, after, max);
      assert r.nextId !in Live(r);
    }
  }

  lemma OkAfterInsert(r: Registry, key: Key, entry: Entry, after: Registry, max: nat)
    requires RegistryOk(r, max) && key !in r.pads && after.pads == r.pads[key := entry]
    requires if entry.Tracked? then entry.id == r.nextId && r.active < max && r.nextId < U64_MAX
                                    && after.active == r.active + 1 && after.nextId == r.nextId + 1
             else after.active == r.active && after.nextId == r.nextId
    ensures RegistryOk(after, max)
  {
    if entry.Tracked? {
      assert TrackedKeys(after) == TrackedKeys(r) + {key};
    } else {
      assert TrackedKeys(after) == TrackedKeys(r);
    }
  }

  lemma LiveAfterInsert(r: Registry, key: Key, entry: Entry, after: Registry)
    requires key !in r.pads && after.pads == r.pads[key := entry]
    ensures Live(after) == Live(r) + (if entry.Tracked? then {entry.id} else {})
  {
    assert after.pads[key] == entry;
    forall id | id in Live(r) ensures id in Live(after) {
      var k :| k in r.pads && r.pads[k] == Tracked(id);
      assert after.pads[k] == Tracked(id);
    }
  }

  /** Removal frees exactly one place, and only for a tracked pad; the saturating decrement never saturates. */
  lemma RemoveKeepsOk(r: Registry, key: Key, max: nat)
    requires RegistryOk(r, max)
    ensures var after := Remove(r, key);
            && RegistryOk(after, max) && key !in after.pads
            && Live(after) == (if Removed(r, key).Some? then Live(r) - {Removed(r, key).value} else Live(r))
            && (Removed(r, key).Some? ==> Removed(r, key).value in Live(r) && after.active == r.active - 1)
  {
    var after := Remove(r, key);
    if Removed(r, key).Some? {
      var gone := Removed(r, key).value;
      assert key in TrackedKeys(r);
      assert TrackedKeys(after) == TrackedKeys(r) - {key};
      forall id | id in Live(r) && id != gone ensures id in Live(after) {
        var k :| k in r.pads && r.pads[k] == Tracked(id);
        assert after.pads[k] == Tracked(id);
      }
      assert gone !in Live(after);
    } else {
      assert TrackedKeys(after) == TrackedKeys(r);
      forall id | id in Live(r) ensures id in Live(after) {
        var k :| k in r.pads && r.pads[k] == Tracked(id);
        assert after.pads[k] == Tracked(id);
      }
    }
  }

  // ---------------------------------------------------------------- the metrics object

  class Metrics {
    const maxPadSeries: nat
    var pads: map<Key, Entry>
    var active: nat
    var nextId: nat
    var buffers: map<nat, Word>
    var untracked: Word
    var retirement: seq<nat>
    var droppedRetirements: Word

    function View(): Registry
      reads this
    {
      Registry(pads, active, nextId)
    }

    /** Every tracked pad has its statistics, and no series to come has any. */
    ghost predicate Valid()
      reads this
    {
      && RegistryOk(View(), maxPadSeries)
      && (forall k :: k in pads && pads[k].Tracked? ==> pads[k].id in buffers)
      && (forall id :: id in buffers ==> id < nextId)
    }

    constructor (max: nat)
      ensures Valid() && View() == EMPTY && maxPadSeries == max
      ensures buffers == map[] && untracked == 0 && retirement == [] && droppedRetirements == 0
    {
      maxPadSeries := max;
      pads, active, nextId := map[], 0, 1;
      buffers, untracked, retirement, droppedRetirements := map[], 0, [], 0;
      new;
      EmptyIsOk(max);
    }

    /** Add a push to exactly one place: its series, the untracked count, or nothing. */
    method IncrementEntry(entry: Entry, amount: Word)
      requires entry.Tracked? ==> entry.id in buffers
      modifies this`buffers, this`untracked
      ensures buffers == if CreditOf(entry).Series?
                         then old(buffers)[entry.id := WrappingAdd(old(buffers)[entry.id], amount)] else old(buffers)
      ensures untracked == if CreditOf(entry).Untracked? then WrappingAdd(old(untracked), amount) else old(untracked)
      ensures entry == Ignored(Filtered) ==> buffers == old(buffers) && untracked == old(untracked)
      ensures entry.Ignored? && entry != Ignored(Filtered) ==>
                buffers == old(buffers) && untracked == (old(untracked) + amount) % U64_MODULUS
      ensures entry.Tracked? ==>
                && buffers == old(buffers)[entry.id := (old(buffers)[entry.id] + amount) % U64_MODULUS]
                && untracked == old(untracked)
    {
      match entry
      case Tracked(id) => buffers := buffers[id := WrappingAdd(buffers[id], amount)];
      case Ignored(SeriesLimit) => untracked := WrappingAdd(untracked, amount);
      case Ignored(SeriesIdOverflow) => untracked := WrappingAdd(untracked, amount);
      case Ignored(Filtered) =>
    }

    /** Record a push on a pad. */
    method UpdatePad(key: Key, hasElement: bool, included: bool, amount: Word)
      requires Valid()
      modifies this`pads, this`active, this`nextId, this`buffers, this`untracked
      ensures Valid()
      ensures View() == if key in old(pads) || !hasElement then old(View())
                        else Register(old(View()), key, included, maxPadSeries)
      ensures key !in old(pads) && !hasElement ==> buffers == old(buffers) && untracked == old(untracked)
      ensures key in pads ==>
                && untracked == (if CreditOf(pads[key]).Untracked? then WrappingAdd(old(untracked), amount)
                                 else old(untracked))
                && forall id :: CreditIn(buffers, id) == if CreditOf(pads[key]) == Series(id)
                                                         then WrappingAdd(CreditIn(old(buffers), id), amount)
                                                         else CreditIn(old(buffers), id)
      ensures key in pads || !hasElement
      // A filtered pad changes no counter; one without a series of its own counts as untracked.
      ensures key in pads && pads[key] == Ignored(Filtered) ==>
                untracked == old(untracked) && forall id :: CreditIn(buffers, id) == CreditIn(old(buffers), id)
      ensures key in pads && pads[key].Ignored? && pads[key] != Ignored(Filtered) ==>
                && untracked == (old(untracked) + amount) % U64_MODULUS
                && forall id :: CreditIn(buffers, id) == CreditIn(old(buffers), id)
      ensures key in pads && pads[key].Tracked? ==>
                && untracked == old(untracked) && pads[key].id in buffers
                && buffers[pads[key].id] == (CreditIn(old(buffers), pads[key].id) + amount) % U64_MODULUS
                && forall id :: id != pads[key].id ==> CreditIn(buffers, id) == CreditIn(old(buffers), id)
      // A new pad is filtered, over the cap, tracked under the next identifier, or beyond the last one.
      ensures key !in old(pads) && hasElement ==>
                && pads == old(pads)[key := pads[key]]
                && (pads[key] == Ignored(Filtered) <==> !included)
                && (pads[key] == Ignored(SeriesLimit) <==> included && old(active) >= maxPadSeries)
                && (pads[key] == Ignored(SeriesIdOverflow) <==>
                      included && old(active) < maxPadSeries && old(nextId) == U64_MAX)
                && (pads[key].Tracked? ==> pads[key].id == old(nextId))
    {
      if key in pads {
        IncrementEntry(pads[key], amount);
        return;
      }
      if !hasElement {
        return;
      }
      RegisterPad(key, included);
      IncrementEntry(pads[key], amount);
    }

    /** The registration under the lock; the statistics of a new series start at zero. */
    method RegisterPad(key: Key, included: bool)
      requires Valid() && key !in pads
      modifies this`pads, this`active, this`nextId, this`buffers
      ensures Valid() && View() == Register(old(View()), key, included, maxPadSeries)
      ensures forall id :: CreditIn(buffers, id) == CreditIn(old(buffers), id)
      ensures pads == old(pads)[key := pads[key]] && (pads[key] == Ignored(Filtered) <==> !included)
      ensures pads[key] == Ignored(SeriesLimit) <==> included && old(active) >= maxPadSeries
      ensures pads[key] == Ignored(SeriesIdOverflow) <==>
                included && old(active) < maxPadSeries && old(nextId) == U64_MAX
      ensures pads[key].Tracked? ==> pads[key].id == old(nextId)
      ensures pads[key].Tracked? ==> active == old(active) + 1 && nextId == old(nextId) + 1
      ensures pads[key].Ignored? ==> active == old(active) && nextId == old(nextId)
    {
      RegisterKeepsOk(View(), key, included, maxPadSeries);
      var entry: Entry;
      if !included {
        entry := Ignored(Filtered);
      } else if active >= maxPadSeries {
        entry := Ignored(SeriesLimit);
      } else if nextId + 1 <= U64_MAX {
        entry := Tracked(nextId);
        buffers := buffers[nextId := 0];
        active, nextId := active + 1, nextId + 1;
      } else {
        entry := Ignored(SeriesIdOverflow);
      }
      pads := pads[key := entry];
    }

    /** Forget a pad and hand its series over for a last export, or count it as dropped. */
    method RemovePadKey(key: Key)
      requires Valid()
      modifies this`pads, this`active, this`retirement, this`droppedRetirements
      ensures Valid() && View() == Remove(old(View()), key)
      ensures Removed(old(View()), key).None? ==>
                retirement == old(retirement) && droppedRetirements == old(droppedRetirements)
      ensures Removed(old(View()), key).Some? ==>
                if |old(retirement)| < maxPadSeries
                then retirement == old(retirement) + [old(pads)[key].id]
                     && droppedRetirements == old(droppedRetirements)
                else retirement == old(retirement)
                     && droppedRetirements == WrappingAdd(old(droppedRetirements), 1)
    {
      RemoveKeepsOk(View(), key, maxPadSeries);
      var entry := if key in pads then Some(pads[key]) else None;
      pads := pads - {key};
      if entry.Some? && entry.value.Tracked? {
        active := Max(active - 1, 0);
        if |retirement| < maxPadSeries {
          retirement := retirement + [entry.value.id];
        } else {
          droppedRetirements := WrappingAdd(droppedRetirements, 1);
        }
      }
    }
  }

  function CreditIn(buffers: map<nat, Word>, id: nat): Word { if id in buffers then buffers[id] else 0 }
}
