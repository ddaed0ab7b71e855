/** The cursor that turns a wrapping 64-bit counter into increments a StatsD client may accept or reject. */
module Cursor {
  import opened Common

  datatype CursorState = CursorState(value: Word, wasActive: bool)

  const START := CursorState(0, false)

  /** The amount of the next send, if there is one. */
  function Due(c: CursorState, current: Word): Option<nat> {
    var delta := WrappingSub(current, c.value);
    if delta == 0 && !c.wasActive then None else Some(Min(delta, I64_MAX))
  }

  /** The cursor after the export; a rejected send leaves it alone. */
  function Exported(c: CursorState, current: Word, accepted: bool): CursorState {
    if Due(c, current).None? || !accepted then c
    else CursorState(WrappingAdd(c.value, Due(c, current).value), current != c.value)
  }

  function Sent(c: CursorState, current: Word, accepted: bool): nat {
    if Due(c, current).None? || !accepted then 0 else Due(c, current).value
  }

  class CounterCursor {
    var value: Word
    var wasActive: bool

    function State(): CursorState
      reads this
    {
      CursorState(value, wasActive)
    }

    constructor ()
      ensures State() == START
    {
      value, wasActive := 0, false;
    }

    /** Export once: `sent` is what was offered to the client, and `accepted` its answer. */
    method Export(current: Word, accepted: bool) returns (sent: Option<nat>)
      modifies this
      ensures sent == Due(old(State()), current)
      ensures State() == Exported(old(State()), current, accepted)
    {
      var delta := WrappingSub(current, value);
      if delta == 0 && !wasActive {
        return None;
      }
      var amount := Min(delta, I64_MAX);
      if accepted {
        value := WrappingAdd(value, amount);
        wasActive := delta != 0;
      }
      sent := Some(amount);
    }
  }

  // ---------------------------------------------------------------- any counter, any answers

  /** One export: the counter as read, and the client's answer. */
  datatype Attempt = Attempt(current: Word, accepted: bool)

  function Final(c: CursorState, attempts: seq<Attempt>): CursorState {
    if attempts == [] then c
    else
      var a := attempts[|attempts| - 1];
      Exported(Final(c, attempts[..|attempts| - 1]), a.current, a.accepted)
  }

  function TotalSent(c: CursorState, attempts: seq<Attempt>): nat {
    if attempts == [] then 0
    else
      var n := |attempts| - 1;
      TotalSent(c, attempts[..n]) + Sent(Final(c, attempts[..n]), attempts[n].current, attempts[n].accepted)
  }

  /** A cursor object over any exports, and all that the client accepted. */
  method ExportRun(attempts: seq<Attempt>) returns (total: nat)
    ensures total == TotalSent(START, attempts)
  {
    var cursor := new CounterCursor();
    total := 0;
    for i := 0 to |attempts|
      invariant cursor.State() == Final(START, attempts[..i]) && total == TotalSent(START, attempts[..i])
    {
      assert attempts[..i + 1][..i] == attempts[..i];
      var sent := cursor.Export(attempts[i].current, attempts[i].accepted);
      if sent.Some? && attempts[i].accepted {
        total := total + sent.value;
      }
    }
    assert attempts[..|attempts|] == attempts;
  }

  lemma AddModulo(start: Word, total: nat, amount: Word)
    ensures WrappingAdd((start + total) % U64_MODULUS, amount) == (start + (total + amount)) % U64_MODULUS
  {
  }

  /** Whatever the counter does and whichever sends fail, the cursor is its start plus all accepted amounts,
      modulo 2^64. */
  lemma {:induction false} CursorIsAcceptedTotal(c: CursorState, attempts: seq<Attempt>)
    ensures Final(c, attempts).value == (c.value + TotalSent(c, attempts)) % U64_MODULUS
  {
    if attempts != [] {
      var n := |attempts| - 1;
      CursorIsAcceptedTotal(c, attempts[..n]);
      AddModulo(c.value, TotalSent(c, attempts[..n]),
                Sent(Final(c, attempts[..n]), attempts[n].current, attempts[n].accepted));
    }
  }

  lemma DueFits(c: CursorState, current: Word)
    ensures Due(c, current).Some? ==> Due(c, current).value <= I64_MAX
    ensures Due(c, current) == Some(0) ==> c.wasActive && current == c.value
  {
  }

  /** A counter that has really reached `pushed`, of which `taken` was accepted before, is never overcounted, not
      even when it has wrapped any number of times. */
  lemma NeverOvercounts(c: CursorState, pushed: nat, taken: nat, accepted: bool)
    requires taken <= pushed && c.value == taken % U64_MODULUS
    ensures var current: Word := pushed % U64_MODULUS;
            && taken + Sent(c, current, accepted) <= pushed
            && Exported(c, current, accepted).value == (taken + Sent(c, current, accepted)) % U64_MODULUS
  {
    var current: Word := pushed % U64_MODULUS;
    DeltaBelow(pushed, taken);
    AddModulo(0, taken, Sent(c, current, accepted));
  }

  /** A cursor that starts again from zero does not carry the accepted total past the true one. */
  predicate RestartFits(pushed: nat, taken: nat) { taken + Min(pushed % U64_MODULUS, I64_MAX) <= pushed }

  lemma RestartSends(pushed: nat)
    ensures Sent(START, pushed % U64_MODULUS, true) == Min(pushed % U64_MODULUS, I64_MAX)
    ensures Sent(START, pushed % U64_MODULUS, false) == 0
  {
  }

  /** Further pushes never turn a harmless restart into a harmful one. */
  lemma RestartStaysFit(pushed: nat, more: nat, taken: nat)
    requires RestartFits(pushed, taken) && pushed <= more
    ensures RestartFits(more, taken)
  {
    var (q, a) := (pushed / U64_MODULUS, pushed % U64_MODULUS);
    var (r, b) := (more / U64_MODULUS, more % U64_MODULUS);
    assert pushed == U64_MODULUS * q + a && more == U64_MODULUS * r + b;
    assert q <= r;
  }

  lemma RestartFromNothing(pushed: nat)
    ensures RestartFits(pushed, 0)
  {
  }

  /** While the total fits 63 bits, only a series of which nothing was accepted may restart. */
  lemma RestartOfSmallTotal(pushed: nat, taken: nat)
    requires pushed <= I64_MAX
    ensures RestartFits(pushed, taken) <==> taken == 0
  {
  }

  /** One accepted send closes a gap that fits it. */
  lemma AcceptedSendCatchesUp(c: CursorState, pushed: nat, taken: nat)
    requires taken <= pushed <= taken + I64_MAX && c.value == taken % U64_MODULUS
    ensures taken + Sent(c, pushed % U64_MODULUS, true) == pushed
  {
    DeltaBelow(pushed, taken);
    Remainder(pushed - taken, 0, pushed - taken);
  }

  lemma DeltaBelow(pushed: nat, taken: nat)
    requires taken <= pushed
    ensures WrappingSub(pushed % U64_MODULUS, taken % U64_MODULUS) == (pushed - taken) % U64_MODULUS <= pushed - taken
  {
    var (q, a) := (pushed / U64_MODULUS, pushed % U64_MODULUS);
    var (r, b) := (taken / U64_MODULUS, taken % U64_MODULUS);
    assert pushed == U64_MODULUS * q + a && taken == U64_MODULUS * r + b;
    if a >= b {
      Remainder(pushed - taken, q - r, a - b);
      Remainder(a - b, 0, a - b);
    } else {
      Remainder(pushed - taken, q - r - 1, a - b + U64_MODULUS);
      Remainder(a - b, -1, a - b + U64_MODULUS);
    }
  }

  lemma Remainder(n: int, q: int, r: Word)
    requires n == U64_MODULUS * q + r
    ensures n % U64_MODULUS == r
  {
  }

  // ---------------------------------------------------------------- a steady counter

  /** What remains to be accepted once the counter stands still: the difference in 63-bit portions, then one zero. */
  function Plan(delta: nat, wasActive: bool): seq<nat>
    decreases delta
  {
    if delta == 0 then (if wasActive then [0] else [])
    else [Min(delta, I64_MAX)] + Plan(delta - Min(delta, I64_MAX), true)
  }

  function Remaining(c: CursorState, current: Word): seq<nat> {
    Plan(WrappingSub(current, c.value), c.wasActive)
  }

  function Accepts(answers: seq<bool>): nat {
    if answers == [] then 0 else Accepts(answers[1..]) + (if answers[0] then 1 else 0)
  }

  /** The accepted amounts while the counter stays at `current`. */
  function SteadySends(c: CursorState, current: Word, answers: seq<bool>): seq<nat>
    decreases |answers|
  {
    if answers == [] then []
    else
      (if Due(c, current).Some? && answers[0] then [Due(c, current).value] else [])
      + SteadySends(Exported(c, current, answers[0]), current, answers[1..])
  }

  lemma ExportTakesFromPlan(c: CursorState, current: Word)
    ensures Due(c, current).None? <==> Remaining(c, current) == []
    ensures Due(c, current).Some? ==>
              Remaining(c, current) == [Due(c, current).value] + Remaining(Exported(c, current, true), current)
  {
    if Due(c, current).Some? {
      var delta := WrappingSub(current, c.value);
      SubAfterAdd(current, c.value, Min(delta, I64_MAX));
    }
  }

  lemma SubAfterAdd(current: Word, value: Word, amount: nat)
    requires amount <= WrappingSub(current, value)
    ensures WrappingSub(current, WrappingAdd(value, amount)) == WrappingSub(current, value) - amount
  {
    var delta := WrappingSub(current, value);
    if current >= value {
      assert delta == current - value;
    } else {
      assert delta == current - value + U64_MODULUS;
    }
  }

  /** While the counter is steady, the accepted amounts are the plan, taken in order by the accepting answers, and
      then silence. */
  lemma {:induction false} SteadySendsFollowThePlan(c: CursorState, current: Word, answers: seq<bool>)
    ensures var plan := Remaining(c, current);
            SteadySends(c, current, answers) == plan[..Min(Accepts(answers), |plan|)]
    decreases |answers|
  {
    if answers != [] {
      var next := Exported(c, current, answers[0]);
      SteadySendsFollowThePlan(next, current, answers[1..]);
      ExportTakesFromPlan(c, current);
      var plan := Remaining(c, current);
      if Due(c, current).Some? && answers[0] {
        var k := Min(Accepts(answers[1..]), |Remaining(next, current)|);
        assert plan[..k + 1] == [plan[0]] + Remaining(next, current)[..k];
      }
    }
  }

  function Sum(s: seq<nat>): nat { if s == [] then 0 else s[0] + Sum(s[1..]) }

  /** The plan adds up to the difference and ends with its only zero; from the largest difference it has three
      portions. */
  lemma PlanIsShort(delta: Word, wasActive: bool)
    ensures var plan := Plan(delta, wasActive);
            && Sum(plan) == delta
            && |plan| <= 4
            && (delta != 0 || wasActive ==> plan != [] && plan[|plan| - 1] == 0)
            && (forall i :: 0 <= i < |plan| - 1 ==> 0 < plan[i] <= I64_MAX)
  {
    SumsUp(delta, wasActive);
    PlanInFull(delta, wasActive);
  }

  lemma LastPortion(delta: nat, wasActive: bool)
    requires 0 < delta <= I64_MAX
    ensures Plan(delta, wasActive) == [delta, 0]
  {
    assert Plan(0, true) == [0];
  }

  lemma PlanInFull(delta: Word, wasActive: bool)
    ensures Plan(delta, wasActive) ==
            if delta == 0 then (if wasActive then [0] else [])
            else if delta <= I64_MAX then [delta, 0]
            else if delta <= 2 * I64_MAX then [I64_MAX, delta - I64_MAX, 0]
            else [I64_MAX, I64_MAX, 1, 0]
  {
    if 0 < delta <= I64_MAX {
      LastPortion(delta, wasActive);
    } else if I64_MAX < delta <= 2 * I64_MAX {
      LastPortion(delta - I64_MAX, true);
    } else if 2 * I64_MAX < delta {
      LastPortion(1, true);
      assert Plan(delta - I64_MAX, true) == [I64_MAX] + Plan(1, true);
    }
  }

  lemma {:induction false} SumsUp(delta: nat, wasActive: bool)
    ensures Sum(Plan(delta, wasActive)) == delta
    decreases delta
  {
    if delta > 0 {
      var rest := delta - Min(delta, I64_MAX);
      SumsUp(rest, true);
      assert Plan(delta, wasActive)[1..] == Plan(rest, true);
    }
  }

  /** Three accepted sends after the counter came to rest carry the whole difference. */
  lemma CaughtUpWithinThree(c: CursorState, current: Word, answers: seq<bool>)
    requires Accepts(answers) >= 3
    ensures Sum(SteadySends(c, current, answers)) == WrappingSub(current, c.value)
  {
    var plan := Remaining(c, current);
    SteadySendsFollowThePlan(c, current, answers);
    PlanIsShort(WrappingSub(current, c.value), c.wasActive);
    var sends := SteadySends(c, current, answers);
    if |sends| < |plan| {
      assert |plan| == 4 && |sends| == 3 && plan[3] == 0;
      assert plan == sends + [0];
      SumAppendZero(sends);
    } else {
      assert sends == plan;
    }
  }

  lemma {:induction false} SumAppendZero(s: seq<nat>)
    ensures Sum(s + [0]) == Sum(s)
  {
    if s != [] {
      SumAppendZero(s[1..]);
      assert (s + [0])[1..] == s[1..] + [0];
    }
  }
}
