/** The two readings of one output row: the best class, and the expectation of a distance distribution.
    Arithmetic is over exact reals; `exp` is any function with exp(0) = 1 and no negative value, so that an
    exponential which underflows to zero is included. */
module RowHeads {
  import opened Common
  import opened Floats

  ghost predicate ExpLike(exp: real -> real) {
    exp(0.0) == 1.0 && forall x :: exp(x) >= 0.0
  }

  predicate ProductOfSum(exp: real -> real, x: real, y: real) {
    exp(x + y) == exp(x) * exp(y)
  }

  ghost predicate SumsToProducts(exp: real -> real) {
    forall x, y :: ProductOfSum(exp, x, y)
  }

  predicate AllFinite<T>(raw: seq<T>, value: T -> Option<Finite>) {
    forall i :: 0 <= i < |raw| ==> value(raw[i]).Some?
  }

  function Values<T>(raw: seq<T>, value: T -> Option<Finite>): (s: seq<Finite>)
    requires AllFinite(raw, value)
    ensures |s| == |raw|
  {
    seq(|raw|, i requires 0 <= i < |raw| => value(raw[i]).value)
  }

  // ---------------------------------------------------------------- expectation of a distribution

  /** The unnormalised weight of the bins, each logit lowered by `shift`. */
  function Mass(exp: real -> real, s: seq<Finite>, shift: real): real {
    if s == [] then 0.0 else Mass(exp, s[..|s| - 1], shift) + exp(s[|s| - 1].value - shift)
  }

  /** The weight of the bins, each multiplied by its index. */
  function Moment(exp: real -> real, s: seq<Finite>, shift: real): real {
    if s == [] then 0.0
    else Moment(exp, s[..|s| - 1], shift) + (|s| - 1) as real * exp(s[|s| - 1].value - shift)
  }

  function Peak(s: seq<Finite>): real
    requires s != []
  {
    var last := s[|s| - 1].value;
    if |s| == 1 then last
    else var rest := Peak(s[..|s| - 1]); if rest <= last then last else rest
  }

  lemma {:induction false} PeakIsMaximum(s: seq<Finite>)
    requires s != []
    ensures forall i :: 0 <= i < |s| ==> s[i].value <= Peak(s)
    ensures exists i :: 0 <= i < |s| && s[i].value == Peak(s)
  {
    var n := |s| - 1;
    if n == 0 {
      assert s[0].value == Peak(s);
    } else {
      PeakIsMaximum(s[..n]);
      var i :| 0 <= i < n && s[..n][i].value == Peak(s[..n]);
      assert s[i].value == Peak(s) || s[n].value == Peak(s);
    }
  }

  /** Whatever the shift, the moment lies between 0 and the last index times the mass. */
  lemma {:induction false} MomentBounds(exp: real -> real, s: seq<Finite>, shift: real)
    requires ExpLike(exp)
    ensures 0.0 <= Moment(exp, s, shift) && 0.0 <= Mass(exp, s, shift)
    ensures s != [] ==> Moment(exp, s, shift) <= (|s| - 1) as real * Mass(exp, s, shift)
    decreases |s|
  {
    if s != [] {
      var n := |s| - 1;
      var w := exp(s[n].value - shift);
      MomentBounds(exp, s[..n], shift);
      var m := Mass(exp, s[..n], shift);
      assert n as real * (m + w) == n as real * m + n as real * w;
      if n > 0 {
        assert (n - 1) as real * m <= n as real * m;
      }
    }
  }

  lemma {:induction false} MassAtPeak(exp: real -> real, s: seq<Finite>, shift: real, i: nat)
    requires ExpLike(exp) && i < |s| && s[i].value == shift
    ensures Mass(exp, s, shift) >= 1.0
    decreases |s|
  {
    var n := |s| - 1;
    MomentBounds(exp, s[..n], shift);
    if i < n {
      MassAtPeak(exp, s[..n], shift, i);
    }
  }

  /** The softmax mean the code computes: logits are first lowered by their maximum. */
  function Expectation(exp: real -> real, s: seq<Finite>): real
    requires s != [] && Mass(exp, s, Peak(s)) != 0.0
  {
    Moment(exp, s, Peak(s)) / Mass(exp, s, Peak(s))
  }

  lemma ExpectationInRange(exp: real -> real, s: seq<Finite>)
    requires ExpLike(exp) && s != []
    ensures Mass(exp, s, Peak(s)) >= 1.0
    ensures 0.0 <= Expectation(exp, s) <= (|s| - 1) as real
  {
    PeakIsMaximum(s);
    var i :| 0 <= i < |s| && s[i].value == Peak(s);
    MassAtPeak(exp, s, Peak(s), i);
    MomentBounds(exp, s, Peak(s));
    QuotientBound(Moment(exp, s, Peak(s)), Mass(exp, s, Peak(s)), (|s| - 1) as real);
  }

  lemma QuotientBound(a: real, b: real, c: real)
    requires b > 0.0 && 0.0 <= a <= c * b
    ensures 0.0 <= a / b <= c
  {
    assert a == (a / b) * b;
  }

  lemma {:induction false} ShiftScales(exp: real -> real, s: seq<Finite>, a: real, b: real)
    requires SumsToProducts(exp)
    ensures Mass(exp, s, a) == Mass(exp, s, b) * exp(b - a)
    ensures Moment(exp, s, a) == Moment(exp, s, b) * exp(b - a)
    decreases |s|
  {
    if s != [] {
      var n := |s| - 1;
      ShiftScales(exp, s[..n], a, b);
      var x, w := exp(s[n].value - b), exp(b - a);
      assert ProductOfSum(exp, s[n].value - b, b - a);
      assert s[n].value - a == (s[n].value - b) + (b - a);
      Factor(Mass(exp, s[..n], b), 1.0, x, w);
      Factor(Moment(exp, s[..n], b), n as real, x, w);
    }
  }

  lemma Factor(m: real, k: real, x: real, w: real)
    ensures m * w + k * (x * w) == (m + k * x) * w
  {
  }

  /** Lowering the logits by their maximum changes nothing: for a true exponential the result is the plain softmax
      mean of the bin indices. */
  lemma ExpectationIsSoftmaxMean(exp: real -> real, s: seq<Finite>)
    requires ExpLike(exp) && SumsToProducts(exp) && s != []
    ensures Mass(exp, s, 0.0) > 0.0 && Mass(exp, s, Peak(s)) >= 1.0
    ensures Expectation(exp, s) == Moment(exp, s, 0.0) / Mass(exp, s, 0.0)
  {
    ExpectationInRange(exp, s);
    MomentBounds(exp, s, 0.0);
    ShiftScales(exp, s, Peak(s), 0.0);
    RatioUnderScale(Moment(exp, s, 0.0), Mass(exp, s, 0.0), exp(0.0 - Peak(s)),
                    Moment(exp, s, Peak(s)), Mass(exp, s, Peak(s)));
  }

  lemma RatioUnderScale(a: real, b: real, w: real, aw: real, bw: real)
    requires aw == a * w && bw == b * w && bw >= 1.0 && b >= 0.0
    ensures b > 0.0 && aw / bw == a / b
  {
    assert b != 0.0;
    var q := a / b;
    assert a == q * b;
    Associate(q, b, w);
    assert aw == q * bw;
  }

  lemma Associate(q: real, b: real, w: real)
    ensures (q * b) * w == q * (b * w)
  {
  }

  /** The weighted deviations of the bin indices from a point. */
  function Deviation(exp: real -> real, s: seq<Finite>, shift: real, from: real): real {
    if s == [] then 0.0
    else
      var n := |s| - 1;
      Deviation(exp, s[..n], shift, from) + (n as real - from) * exp(s[n].value - shift)
  }

  lemma {:induction false} DeviationSplits(exp: real -> real, s: seq<Finite>, shift: real, from: real)
    ensures Deviation(exp, s, shift, from) == Moment(exp, s, shift) - from * Mass(exp, s, shift)
    decreases |s|
  {
    if s != [] {
      var n := |s| - 1;
      DeviationSplits(exp, s[..n], shift, from);
      Distribute(n as real, from, exp(s[n].value - shift), Mass(exp, s[..n], shift));
    }
  }

  lemma Distribute(n: real, from: real, w: real, m: real)
    ensures (n - from) * w == n * w - from * w
    ensures from * (m + w) == from * m + from * w
  {
  }

  /** The expectation is the one point from which the weighted deviations of the bin indices cancel. */
  lemma ExpectationBalances(exp: real -> real, s: seq<Finite>, at: real)
    requires ExpLike(exp) && s != []
    ensures Mass(exp, s, Peak(s)) >= 1.0
    ensures Deviation(exp, s, Peak(s), at) == 0.0 <==> at == Expectation(exp, s)
  {
    ExpectationInRange(exp, s);
    DeviationSplits(exp, s, Peak(s), at);
    QuotientUnique(Moment(exp, s, Peak(s)), Mass(exp, s, Peak(s)), at);
  }

  lemma QuotientUnique(a: real, b: real, at: real)
    requires b >= 1.0
    ensures a - at * b == 0.0 <==> at == a / b
  {
    assert a == (a / b) * b;
    if at != a / b {
      assert (at - a / b) * b != 0.0;
    }
  }

  /** The first pass: the maximum, or nothing when there is no bin or one of them is not finite. */
  method FiniteMaximum<T>(raw: seq<T>, value: T -> Option<Finite>) returns (max: Option<real>)
    ensures max.Some? <==> raw != [] && AllFinite(raw, value)
    ensures max.Some? ==> max.value == Peak(Values(raw, value))
  {
    // No maximum yet: below every finite value.
    max := None;
    for i := 0 to |raw|
      invariant forall j :: 0 <= j < i ==> value(raw[j]).Some?
      invariant max.Some? <==> i > 0
      invariant i > 0 ==> max.value == Peak(Values(raw[..i], value))
    {
      if value(raw[i]).None? {
        return None;
      }
      var v := value(raw[i]).value.value;
      assert Values(raw[..i + 1], value)[..i] == Values(raw[..i], value);
      if max.None? || max.value <= v {
        max := Some(v);
      }
    }
    assert raw[..|raw|] == raw;
  }

  lemma SumsStep(exp: real -> real, s: seq<Finite>, i: nat, shift: real)
    requires i < |s|
    ensures Mass(exp, s[..i + 1], shift) == Mass(exp, s[..i], shift) + exp(s[i].value - shift)
    ensures Moment(exp, s[..i + 1], shift) == Moment(exp, s[..i], shift) + i as real * exp(s[i].value - shift)
  {
    assert s[..i + 1][..i] == s[..i];
  }

  method DistributionExpectation<T>(raw: seq<T>, value: T -> Option<Finite>, exp: real -> real)
    returns (r: Option<real>)
    requires ExpLike(exp)
    ensures r.Some? <==> raw != [] && AllFinite(raw, value)
    ensures r.Some? ==> 0.0 <= r.value <= (|raw| - 1) as real
    ensures r.Some? ==> var s := Values(raw, value);
                        Mass(exp, s, Peak(s)) >= 1.0 && r.value == Expectation(exp, s)
  {
    var max := FiniteMaximum(raw, value);
    if max.None? {
      return None;
    }
    ghost var s := Values(raw, value);
    var denominator, numerator := 0.0, 0.0;
    for i := 0 to |raw|
      invariant denominator == Mass(exp, s[..i], max.value)
      invariant numerator == Moment(exp, s[..i], max.value)
    {
      SumsStep(exp, s, i, max.value);
      var probability := exp(value(raw[i]).value.value - max.value);
      denominator := denominator + probability;
      numerator := numerator + i as real * probability;
    }
    assert s[..|raw|] == s;
    ExpectationInRange(exp, s);
    r := if denominator > 0.0 then Some(numerator / denominator) else None;
  }

  // ---------------------------------------------------------------- best class

  /** The index a left-to-right scan settles on when ties move forward. */
  function BestIndex(s: seq<Finite>): (b: nat)
    requires s != []
    ensures b < |s|
  {
    var n := |s| - 1;
    if n == 0 then 0
    else var b := BestIndex(s[..n]); if TotalCompare(s[n], s[b]).Less? then b else n
  }

  ghost predicate LastMaximum(s: seq<Finite>, b: nat)
    requires b < |s|
  {
    && (forall i :: 0 <= i < |s| ==> !TotalCompare(s[i], s[b]).Greater?)
    && (forall i :: b < i < |s| ==> TotalCompare(s[i], s[b]).Less?)
  }

  lemma {:induction false} BestIsLastMaximum(s: seq<Finite>)
    requires s != []
    ensures LastMaximum(s, BestIndex(s))
    decreases |s|
  {
    var n := |s| - 1;
    if n > 0 {
      BestIsLastMaximum(s[..n]);
      var b := BestIndex(s[..n]);
      assert forall i :: 0 <= i < n ==> s[..n][i] == s[i];
    }
  }

  lemma LastMaximumUnique(s: seq<Finite>, a: nat, b: nat)
    requires a < |s| && b < |s| && LastMaximum(s, a) && b != a
    ensures !LastMaximum(s, b)
  {
    if b < a {
      assert !TotalCompare(s[b], s[a]).Greater?;
      assert !TotalCompare(s[a], s[b]).Less?;
    } else {
      assert TotalCompare(s[b], s[a]).Less?;
      assert TotalCompare(s[a], s[b]).Greater?;
    }
  }

  method BestClass<T>(raw: seq<T>, value: T -> Option<Finite>) returns (best: Option<(nat, Finite)>)
    ensures best.Some? <==> raw != [] && AllFinite(raw, value)
    ensures best.Some? ==> var s := Values(raw, value);
                           && best.value.0 == BestIndex(s) && best.value.1 == s[best.value.0]
                           && LastMaximum(s, best.value.0)
    ensures best.Some? ==>
              var (b, score) := best.value;
              && b < |raw| && value(raw[b]) == Some(score)
              && (forall i :: 0 <= i < |raw| ==> value(raw[i]).value.value <= score.value)
              && (forall i :: b < i < |raw| && value(raw[i]).value.value == score.value ==>
                    value(raw[i]).value.negativeZero && !score.negativeZero)
  {
    best := None;
    for i := 0 to |raw|
      invariant forall j :: 0 <= j < i ==> value(raw[j]).Some?
      invariant best.Some? <==> i > 0
      invariant i > 0 ==> var s := Values(raw[..i], value);
                          best.value.0 == BestIndex(s) && best.value.1 == s[best.value.0]
    {
      if value(raw[i]).None? {
        return None;
      }
      var score := value(raw[i]).value;
      assert Values(raw[..i + 1], value)[..i] == Values(raw[..i], value);
      if best.None? || !TotalCompare(score, best.value.1).Less? {
        best := Some((i, score));
      }
    }
    if raw != [] {
      assert raw[..|raw|] == raw;
      var s := Values(raw, value);
      BestIsLastMaximum(s);
      forall i | 0 <= i < |raw| ensures value(raw[i]).value == s[i] {
      }
    }
  }
}
