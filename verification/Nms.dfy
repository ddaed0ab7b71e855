/** Class-aware non-maximum suppression: sort in place, compact in place, truncate.
    Scores are finite and compared by the totalOrder predicate (section 5.10 of IEEE 754-2008), which also puts
    negative zero before positive zero; boxes are exact reals. */
module Nms {
  import opened Common
  import opened Floats

  datatype Detection = Detection(cls: nat, score: Finite, x1: real, y1: real, x2: real, y2: real, ordinal: nat)

  function Compare(a: int, b: int): Ordering {
    if a < b then Less else if a == b then Equal else Greater
  }

  function Then(first: Ordering, second: Ordering): Ordering {
    if first.Equal? then second else first
  }

  /** Higher scores first, then lower classes, then lower ordinals. */
  function DetectionOrder(left: Detection, right: Detection): Ordering {
    Then(Then(TotalCompare(right.score, left.score), Compare(left.cls, right.cls)),
         Compare(left.ordinal, right.ordinal))
  }

  predicate NotAfter(left: Detection, right: Detection) {
    !DetectionOrder(left, right).Greater?
  }

  predicate Sorted(s: seq<Detection>) {
    forall i, j :: 0 <= i < j < |s| ==> NotAfter(s[i], s[j])
  }

  /** Higher scores come first; of equal scores a positive zero before a negative one, then the lower class, then the
      lower ordinal. */
  ghost predicate HighestFirst(s: seq<Detection>) {
    forall i, j :: 0 <= i < j < |s| ==>
      && s[i].score.value >= s[j].score.value
      && (s[i].score.value == s[j].score.value ==>
            && (s[i].score.negativeZero ==> s[j].score.negativeZero)
            && (s[i].score.negativeZero == s[j].score.negativeZero ==>
                  s[i].cls < s[j].cls || (s[i].cls == s[j].cls && s[i].ordinal <= s[j].ordinal)))
  }

  lemma SortedIsHighestFirst(s: seq<Detection>)
    ensures Sorted(s) <==> HighestFirst(s)
  {
    if HighestFirst(s) {
      forall i, j | 0 <= i < j < |s| ensures NotAfter(s[i], s[j]) {
      }
    }
    if Sorted(s) {
      forall i, j | 0 <= i < j < |s| ensures NotAfter(s[i], s[j]) {
      }
    }
  }

  function MinReal(a: real, b: real): real { if a <= b then a else b }

  function MaxReal(a: real, b: real): real { if a <= b then b else a }

  function Area(d: Detection): real { (d.x2 - d.x1) * (d.y2 - d.y1) }

  /** The length two intervals have in common. */
  function Overlap(a1: real, a2: real, b1: real, b2: real): real {
    MaxReal(MinReal(a2, b2) - MaxReal(a1, b1), 0.0)
  }

  function Intersection(a: Detection, b: Detection): real {
    Overlap(a.x1, a.x2, b.x1, b.x2) * Overlap(a.y1, a.y2, b.y1, b.y2)
  }

  function IntersectionOverUnion(a: Detection, b: Detection): real {
    var intersection := Intersection(a, b);
    var union := Area(a) + Area(b) - intersection;
    if union > 0.0 then intersection / union else 0.0
  }

  predicate Proper(d: Detection) { d.x1 < d.x2 && d.y1 < d.y2 }

  lemma ProductBounds(a: real, b: real, c: real, d: real)
    requires 0.0 <= a <= c && 0.0 <= b <= d
    ensures 0.0 <= a * b <= c * d
  {
    assert a * b <= c * b && c * b <= c * d;
  }

  lemma IntersectionInside(a: Detection, b: Detection)
    requires Proper(a)
    ensures 0.0 <= Intersection(a, b) <= Area(a)
  {
    var (w, h) := (Overlap(a.x1, a.x2, b.x1, b.x2), Overlap(a.y1, a.y2, b.y1, b.y2));
    ProductBounds(w, h, a.x2 - a.x1, a.y2 - a.y1);
  }

  lemma IntersectionSymmetric(a: Detection, b: Detection)
    ensures Intersection(a, b) == Intersection(b, a)
  {
    assert MinReal(a.x2, b.x2) == MinReal(b.x2, a.x2) && MaxReal(a.x1, b.x1) == MaxReal(b.x1, a.x1);
    assert MinReal(a.y2, b.y2) == MinReal(b.y2, a.y2) && MaxReal(a.y1, b.y1) == MaxReal(b.y1, a.y1);
  }

  /** On proper boxes the measure is symmetric, lies in [0, 1], and is 1 for a box against itself. */
  lemma IouIsASimilarity(a: Detection, b: Detection)
    requires Proper(a) && Proper(b)
    ensures IntersectionOverUnion(a, b) == IntersectionOverUnion(b, a)
    ensures 0.0 <= IntersectionOverUnion(a, b) <= 1.0
    ensures IntersectionOverUnion(a, a) == 1.0
  {
    IntersectionInside(a, b);
    IntersectionInside(b, a);
    IntersectionSymmetric(a, b);
    AreaPositive(a);
    AreaPositive(b);
    QuotientInUnit(Intersection(a, b), Area(a) + Area(b) - Intersection(a, b));
    SelfIntersection(a);
    QuotientSelf(Area(a));
  }

  lemma SelfIntersection(a: Detection)
    requires Proper(a)
    ensures Intersection(a, a) == Area(a)
  {
    assert MinReal(a.x2, a.x2) == a.x2 && MaxReal(a.x1, a.x1) == a.x1;
    assert MinReal(a.y2, a.y2) == a.y2 && MaxReal(a.y1, a.y1) == a.y1;
    assert MaxReal(a.x2 - a.x1, 0.0) == a.x2 - a.x1 && MaxReal(a.y2 - a.y1, 0.0) == a.y2 - a.y1;
  }

  lemma AreaPositive(a: Detection)
    requires Proper(a)
    ensures Area(a) > 0.0
  {
    var w, h := a.x2 - a.x1, a.y2 - a.y1;
    assert w * h > 0.0;
  }

  lemma QuotientInUnit(i: real, u: real)
    requires 0.0 <= i <= u && u > 0.0
    ensures 0.0 <= i / u <= 1.0
  {
  }

  lemma QuotientSelf(u: real)
    requires u > 0.0
    ensures u / u == 1.0
  {
  }

  // ---------------------------------------------------------------- what the measure measures

  /** The unit cells of a box with whole corners. */
  function Cells(x1: int, y1: int, x2: int, y2: int): set<(int, int)> {
    set x: int, y: int | x1 <= x < x2 && y1 <= y < y2 :: (x, y)
  }

  lemma {:induction false} ColumnSize(x: int, y1: int, y2: int)
    requires y1 <= y2
    ensures |Cells(x, y1, x + 1, y2)| == y2 - y1
    decreases y2 - y1
  {
    if y1 == y2 {
      assert Cells(x, y1, x + 1, y2) == {};
    } else {
      ColumnSize(x, y1, y2 - 1);
      assert Cells(x, y1, x + 1, y2) == Cells(x, y1, x + 1, y2 - 1) + {(x, y2 - 1)};
    }
  }

  lemma {:induction false} CellsSize(x1: int, y1: int, x2: int, y2: int)
    requires x1 <= x2 && y1 <= y2
    ensures |Cells(x1, y1, x2, y2)| == (x2 - x1) * (y2 - y1)
    decreases x2 - x1
  {
    if x1 == x2 {
      assert Cells(x1, y1, x2, y2) == {};
    } else {
      CellsSize(x1, y1, x2 - 1, y2);
      ColumnSize(x2 - 1, y1, y2);
      LastColumn(x1, y1, x2, y2);
      OneMore(x2 - x1, y2 - y1);
    }
  }

  lemma LastColumn(x1: int, y1: int, x2: int, y2: int)
    requires x1 < x2
    ensures |Cells(x1, y1, x2, y2)| == |Cells(x1, y1, x2 - 1, y2)| + |Cells(x2 - 1, y1, x2, y2)|
  {
    assert Cells(x1, y1, x2, y2) == Cells(x1, y1, x2 - 1, y2) + Cells(x2 - 1, y1, x2, y2);
    assert Cells(x1, y1, x2 - 1, y2) !! Cells(x2 - 1, y1, x2, y2);
  }

  lemma OneMore(w: int, h: int)
    ensures w * h == (w - 1) * h + h
  {
  }

  predicate HasCorners(d: Detection, x1: int, y1: int, x2: int, y2: int) {
    d.x1 == x1 as real && d.y1 == y1 as real && d.x2 == x2 as real && d.y2 == y2 as real && x1 < x2 && y1 < y2
  }

  function BoxCells(d: Detection): set<(int, int)> { Cells(d.x1.Floor, d.y1.Floor, d.x2.Floor, d.y2.Floor) }

  predicate Whole(d: Detection) { HasCorners(d, d.x1.Floor, d.y1.Floor, d.x2.Floor, d.y2.Floor) }

  lemma OverlapOfWhole(a1: int, a2: int, b1: int, b2: int)
    ensures Overlap(a1 as real, a2 as real, b1 as real, b2 as real) == Max(Min(a2, b2) - Max(a1, b1), 0) as real
  {
  }

  /** A box turned inside out has no cells. */
  lemma CellsSizeAny(x1: int, y1: int, x2: int, y2: int)
    ensures |Cells(x1, y1, x2, y2)| == Max(x2 - x1, 0) * Max(y2 - y1, 0)
  {
    if x1 <= x2 && y1 <= y2 {
      CellsSize(x1, y1, x2, y2);
    } else {
      assert Cells(x1, y1, x2, y2) == {};
    }
  }

  lemma CellsMeet(x1: int, y1: int, x2: int, y2: int, u1: int, v1: int, u2: int, v2: int)
    ensures Cells(x1, y1, x2, y2) * Cells(u1, v1, u2, v2)
            == Cells(Max(x1, u1), Max(y1, v1), Min(x2, u2), Min(y2, v2))
  {
  }

  lemma OverlapIsWhole(a: Detection, b: Detection)
    requires Whole(a) && Whole(b)
    ensures Overlap(a.x1, a.x2, b.x1, b.x2)
            == Max(Min(a.x2.Floor, b.x2.Floor) - Max(a.x1.Floor, b.x1.Floor), 0) as real
    ensures Overlap(a.y1, a.y2, b.y1, b.y2)
            == Max(Min(a.y2.Floor, b.y2.Floor) - Max(a.y1.Floor, b.y1.Floor), 0) as real
  {
    OverlapOfWhole(a.x1.Floor, a.x2.Floor, b.x1.Floor, b.x2.Floor);
    OverlapOfWhole(a.y1.Floor, a.y2.Floor, b.y1.Floor, b.y2.Floor);
  }

  lemma IntersectionIs(a: Detection, b: Detection, w: int, h: int)
    requires Overlap(a.x1, a.x2, b.x1, b.x2) == w as real && Overlap(a.y1, a.y2, b.y1, b.y2) == h as real
    ensures Intersection(a, b) == (w * h) as real
  {
    ProductOfWhole(Overlap(a.x1, a.x2, b.x1, b.x2), Overlap(a.y1, a.y2, b.y1, b.y2), w, h);
  }

  lemma MeetSize(a: Detection, b: Detection) returns (w: int, h: int)
    ensures |BoxCells(a) * BoxCells(b)| == w * h
    ensures w == Max(Min(a.x2.Floor, b.x2.Floor) - Max(a.x1.Floor, b.x1.Floor), 0)
    ensures h == Max(Min(a.y2.Floor, b.y2.Floor) - Max(a.y1.Floor, b.y1.Floor), 0)
  {
    var (x1, y1) := (Max(a.x1.Floor, b.x1.Floor), Max(a.y1.Floor, b.y1.Floor));
    var (x2, y2) := (Min(a.x2.Floor, b.x2.Floor), Min(a.y2.Floor, b.y2.Floor));
    w, h := Max(x2 - x1, 0), Max(y2 - y1, 0);
    CellsMeet(a.x1.Floor, a.y1.Floor, a.x2.Floor, a.y2.Floor, b.x1.Floor, b.y1.Floor, b.x2.Floor, b.y2.Floor);
    CellsSizeAny(x1, y1, x2, y2);
  }

  lemma IntersectionCountsCells(a: Detection, b: Detection)
    requires Whole(a) && Whole(b)
    ensures Intersection(a, b) == |BoxCells(a) * BoxCells(b)| as real
  {
    OverlapIsWhole(a, b);
    var w, h := MeetSize(a, b);
    IntersectionIs(a, b, w, h);
  }

  lemma ProductOfWhole(x: real, y: real, a: int, b: int)
    requires x == a as real && y == b as real
    ensures x * y == (a * b) as real
  {
  }

  /** On whole corners the measure is the number of unit cells in both boxes over the number in either. */
  lemma IouCountsCells(a: Detection, b: Detection)
    requires Whole(a) && Whole(b)
    ensures |BoxCells(a) + BoxCells(b)| > 0
    ensures IntersectionOverUnion(a, b)
            == |BoxCells(a) * BoxCells(b)| as real / |BoxCells(a) + BoxCells(b)| as real
  {
    IntersectionCountsCells(a, b);
    AreaCountsCells(a);
    AreaCountsCells(b);
    assert |BoxCells(a) + BoxCells(b)| == |BoxCells(a)| + |BoxCells(b)| - |BoxCells(a) * BoxCells(b)|;
    AreaPositive(a);
    assert BoxCells(a) <= BoxCells(a) + BoxCells(b);
    SubsetSize(BoxCells(a), BoxCells(a) + BoxCells(b));
  }

  lemma AreaCountsCells(d: Detection)
    requires Whole(d)
    ensures Area(d) == |BoxCells(d)| as real && Proper(d)
  {
    CellsSize(d.x1.Floor, d.y1.Floor, d.x2.Floor, d.y2.Floor);
    ProductOfWhole(d.x2 - d.x1, d.y2 - d.y1, d.x2.Floor - d.x1.Floor, d.y2.Floor - d.y1.Floor);
  }

  lemma SubsetSize<T>(a: set<T>, b: set<T>)
    requires a <= b
    ensures |a| <= |b|
  {
    assert b == a + (b - a);
  }

  // ---------------------------------------------------------------- functional greedy suppression

  predicate Conflicts(kept: Detection, candidate: Detection, threshold: real) {
    kept.cls == candidate.cls && IntersectionOverUnion(kept, candidate) > threshold
  }

  predicate Suppressed(kept: seq<Detection>, candidate: Detection, threshold: real) {
    exists i :: 0 <= i < |kept| && Conflicts(kept[i], candidate, threshold)
  }

  /** One pass over ranked candidates, keeping at most `limit`. */
  function Greedy(ranked: seq<Detection>, threshold: real, limit: nat): (r: seq<Detection>)
    ensures |r| <= limit && |r| <= |ranked|
  {
    if ranked == [] then []
    else
      var kept := Greedy(ranked[..|ranked| - 1], threshold, limit);
      var candidate := ranked[|ranked| - 1];
      if |kept| == limit || Suppressed(kept, candidate, threshold) then kept else kept + [candidate]
  }

  function Keep(ranked: seq<Detection>, threshold: real): seq<Detection> {
    Greedy(ranked, threshold, |ranked|)
  }

  /** A limit only cuts the unlimited result short. */
  lemma {:induction false} LimitIsPrefix(ranked: seq<Detection>, threshold: real, limit: nat, more: nat)
    requires limit <= more
    ensures Greedy(ranked, threshold, limit)
            == Greedy(ranked, threshold, more)[..Min(limit, |Greedy(ranked, threshold, more)|)]
    decreases |ranked|
  {
    if ranked != [] {
      LimitIsPrefix(ranked[..|ranked| - 1], threshold, limit, more);
    }
  }

  // ---------------------------------------------------------------- the declarative meaning

  /** A candidate is kept exactly when no kept candidate ranked before it conflicts with it. */
  ghost predicate IsGreedyMask(mask: seq<bool>, ranked: seq<Detection>, threshold: real) {
    && |mask| == |ranked|
    && forall i :: 0 <= i < |mask| ==> (mask[i] <==> !SuppressedAt(mask, ranked, threshold, i))
  }

  ghost predicate SuppressedAt(mask: seq<bool>, ranked: seq<Detection>, threshold: real, i: nat)
    requires i < |mask| == |ranked|
  {
    exists j :: 0 <= j < i && mask[j] && Conflicts(ranked[j], ranked[i], threshold)
  }

  function Filter(s: seq<Detection>, mask: seq<bool>): (r: seq<Detection>)
    requires |s| == |mask|
    ensures |r| <= |s|
  {
    if s == [] then []
    else
      Filter(s[..|s| - 1], mask[..|s| - 1]) + if mask[|s| - 1] then [s[|s| - 1]] else []
  }

  lemma {:induction false} FilterMembers(s: seq<Detection>, mask: seq<bool>, i: nat)
    requires i < |s| == |mask| && mask[i]
    ensures exists k :: 0 <= k < |Filter(s, mask)| && Filter(s, mask)[k] == s[i]
    decreases |s|
  {
    var n := |s| - 1;
    if i < n {
      FilterMembers(s[..n], mask[..n], i);
      var k :| 0 <= k < |Filter(s[..n], mask[..n])| && Filter(s[..n], mask[..n])[k] == s[..n][i];
      assert Filter(s, mask)[k] == s[i];
    } else {
      assert Filter(s, mask)[|Filter(s, mask)| - 1] == s[i];
    }
  }

  lemma {:induction false} FilterOrigin(s: seq<Detection>, mask: seq<bool>, k: nat) returns (i: nat)
    requires |s| == |mask| && k < |Filter(s, mask)|
    ensures i < |s| && mask[i] && Filter(s, mask)[k] == s[i]
    decreases |s|
  {
    var n := |s| - 1;
    var before := Filter(s[..n], mask[..n]);
    if k < |before| {
      i := FilterOrigin(s[..n], mask[..n], k);
    } else {
      i := n;
    }
  }

  /** Restricting to a shorter ranking restricts the mask. */
  lemma MaskPrefix(mask: seq<bool>, ranked: seq<Detection>, threshold: real)
    requires IsGreedyMask(mask, ranked, threshold) && ranked != []
    ensures IsGreedyMask(mask[..|mask| - 1], ranked[..|ranked| - 1], threshold)
  {
    var m, r := mask[..|mask| - 1], ranked[..|ranked| - 1];
    forall i | 0 <= i < |m| ensures m[i] <==> !SuppressedAt(m, r, threshold, i) {
      assert mask[i] <==> !SuppressedAt(mask, ranked, threshold, i);
      if SuppressedAt(mask, ranked, threshold, i) {
        var j :| 0 <= j < i && mask[j] && Conflicts(ranked[j], ranked[i], threshold);
        assert m[j] && Conflicts(r[j], r[i], threshold);
      }
      if SuppressedAt(m, r, threshold, i) {
        var j :| 0 <= j < i && m[j] && Conflicts(r[j], r[i], threshold);
        assert mask[j] && Conflicts(ranked[j], ranked[i], threshold);
      }
    }
  }

  /** Any mask with the declarative property selects exactly what the greedy pass keeps. */
  lemma {:induction false} GreedyIsTheMask(mask: seq<bool>, ranked: seq<Detection>, threshold: real, limit: nat)
    requires IsGreedyMask(mask, ranked, threshold) && |ranked| <= limit
    ensures Filter(ranked, mask) == Greedy(ranked, threshold, limit)
    decreases |ranked|
  {
    if ranked != [] {
      var n := |ranked| - 1;
      MaskPrefix(mask, ranked, threshold);
      GreedyIsTheMask(mask[..n], ranked[..n], threshold, limit);
      SuppressedByFilter(mask, ranked, threshold);
      assert mask[n] <==> !SuppressedAt(mask, ranked, threshold, n);
    }
  }

  lemma SuppressedByFilter(mask: seq<bool>, ranked: seq<Detection>, threshold: real)
    requires |mask| == |ranked| > 0
    ensures var n := |ranked| - 1;
            SuppressedAt(mask, ranked, threshold, n)
            <==> Suppressed(Filter(ranked[..n], mask[..n]), ranked[n], threshold)
  {
    var n := |ranked| - 1;
    var kept := Filter(ranked[..n], mask[..n]);
    if SuppressedAt(mask, ranked, threshold, n) {
      var j :| 0 <= j < n && mask[j] && Conflicts(ranked[j], ranked[n], threshold);
      FilterMembers(ranked[..n], mask[..n], j);
      var k :| 0 <= k < |kept| && kept[k] == ranked[..n][j];
      assert Conflicts(kept[k], ranked[n], threshold);
    }
    if Suppressed(kept, ranked[n], threshold) {
      var k :| 0 <= k < |kept| && Conflicts(kept[k], ranked[n], threshold);
      var i := FilterOrigin(ranked[..n], mask[..n], k);
      assert mask[i] && Conflicts(ranked[i], ranked[n], threshold);
    }
  }

  /** The mask the greedy pass computes; together with `GreedyIsTheMask` it is the only one. */
  function MaskOf(ranked: seq<Detection>, threshold: real): (mask: seq<bool>)
    ensures |mask| == |ranked|
  {
    if ranked == [] then []
    else
      var n := |ranked| - 1;
      var before := MaskOf(ranked[..n], threshold);
      before + [!Suppressed(Filter(ranked[..n], before), ranked[n], threshold)]
  }

  lemma {:induction false} MaskExists(ranked: seq<Detection>, threshold: real)
    ensures IsGreedyMask(MaskOf(ranked, threshold), ranked, threshold)
    decreases |ranked|
  {
    if ranked != [] {
      var n := |ranked| - 1;
      var before, mask := MaskOf(ranked[..n], threshold), MaskOf(ranked, threshold);
      MaskExists(ranked[..n], threshold);
      assert mask[..n] == before;
      SuppressedByFilter(mask, ranked, threshold);
      forall i | 0 <= i < |mask| ensures mask[i] <==> !SuppressedAt(mask, ranked, threshold, i) {
        if i < n {
          assert before[i] <==> !SuppressedAt(before, ranked[..n], threshold, i);
          MaskExtends(mask, ranked, threshold, i);
        }
      }
    }
  }

  lemma MaskExtends(mask: seq<bool>, ranked: seq<Detection>, threshold: real, i: nat)
    requires |mask| == |ranked| && i < |ranked| - 1
    ensures var n := |ranked| - 1;
            SuppressedAt(mask, ranked, threshold, i) <==> SuppressedAt(mask[..n], ranked[..n], threshold, i)
  {
    var n := |ranked| - 1;
    if SuppressedAt(mask, ranked, threshold, i) {
      var j :| 0 <= j < i && mask[j] && Conflicts(ranked[j], ranked[i], threshold);
      assert mask[..n][j] && Conflicts(ranked[..n][j], ranked[..n][i], threshold);
    }
    if SuppressedAt(mask[..n], ranked[..n], threshold, i) {
      var j :| 0 <= j < i && mask[..n][j] && Conflicts(ranked[..n][j], ranked[..n][i], threshold);
      assert mask[j] && Conflicts(ranked[j], ranked[i], threshold);
    }
  }

  // ---------------------------------------------------------------- consequences

  ghost predicate IsSortOf(ranked: seq<Detection>, input: seq<Detection>) {
    Sorted(ranked) && multiset(ranked) == multiset(input)
  }

  lemma {:induction false} FilterSorted(s: seq<Detection>, mask: seq<bool>)
    requires |s| == |mask| && Sorted(s)
    ensures Sorted(Filter(s, mask)) && multiset(Filter(s, mask)) <= multiset(s)
    decreases |s|
  {
    if s != [] {
      var n := |s| - 1;
      FilterSorted(s[..n], mask[..n]);
      assert s == s[..n] + [s[n]];
      FilteredBeforeLast(s, mask);
    }
  }

  lemma FilteredBeforeLast(s: seq<Detection>, mask: seq<bool>)
    requires |s| == |mask| && Sorted(s) && s != []
    ensures var before := Filter(s[..|s| - 1], mask[..|s| - 1]);
            forall i :: 0 <= i < |before| ==> NotAfter(before[i], s[|s| - 1])
  {
    var n := |s| - 1;
    var before := Filter(s[..n], mask[..n]);
    forall i | 0 <= i < |before| ensures NotAfter(before[i], s[n]) {
      var k := FilterOrigin(s[..n], mask[..n], i);
      assert s[..n][k] == s[k];
    }
  }

  /** Two kept detections of one class do not overlap beyond the threshold. */
  ghost predicate FarApart(r: seq<Detection>, threshold: real) {
    forall i, j :: 0 <= i < j < |r| && r[i].cls == r[j].cls ==> IntersectionOverUnion(r[i], r[j]) <= threshold
  }

  /** A kept detection of the class, with at least its score, overlaps it beyond the threshold. */
  ghost predicate Overlapped(d: Detection, r: seq<Detection>, threshold: real) {
    exists k :: 0 <= k < |r| && r[k].cls == d.cls && r[k].score.value >= d.score.value
                && IntersectionOverUnion(r[k], d) > threshold
  }

  /** The limit was reached with detections none of which scores less. */
  ghost predicate CutOff(d: Detection, r: seq<Detection>, limit: nat) {
    |r| == limit && forall k :: 0 <= k < |r| ==> r[k].score.value >= d.score.value
  }

  /** Everything the element promises of a suppressed list: it is drawn from the input, highest scores first, at most to
      the limit, far apart in each class; and every other input is overlapped by a kept one that scores no less, or was
      cut off by the limit. */
  ghost predicate IsSuppressionOf(r: seq<Detection>, input: seq<Detection>, threshold: real, limit: nat) {
    && multiset(r) <= multiset(input) && |r| <= limit
    && HighestFirst(r) && FarApart(r, threshold)
    && forall d :: d in input ==> d in r || Overlapped(d, r, threshold) || CutOff(d, r, limit)
  }

  /** The promises hold for any ranking of the input, and a limit only cuts the unlimited result short. */
  lemma SuppressionMeaning(ranked: seq<Detection>, input: seq<Detection>, threshold: real, limit: nat)
    requires IsSortOf(ranked, input)
    ensures var r, all := Greedy(ranked, threshold, limit), Keep(ranked, threshold);
            && IsSuppressionOf(r, input, threshold, limit)
            && r == all[..Min(limit, |all|)]
  {
    GreedyIsOrdered(ranked, threshold);
    GreedyCompatible(ranked, threshold, limit);
    CutPrefix(ranked, threshold, limit);
    var r := Greedy(ranked, threshold, limit);
    PrefixOrdered(r, Keep(ranked, threshold), ranked);
    SortedIsHighestFirst(r);
    forall d | d in input ensures d in r || Overlapped(d, r, threshold) || CutOff(d, r, limit) {
      assert d in multiset(ranked);
      var i :| 0 <= i < |ranked| && ranked[i] == d;
      AccountedFor(ranked, threshold, limit, i);
    }
    forall i, j | 0 <= i < j < |r| && r[i].cls == r[j].cls
      ensures IntersectionOverUnion(r[i], r[j]) <= threshold
    {
      assert !Conflicts(r[i], r[j], threshold);
    }
  }

  lemma AccountedFor(ranked: seq<Detection>, threshold: real, limit: nat, i: nat)
    requires Sorted(ranked) && i < |ranked|
    ensures var r := Greedy(ranked, threshold, limit);
            ranked[i] in r || Overlapped(ranked[i], r, threshold) || CutOff(ranked[i], r, limit)
  {
    var before, r := Greedy(ranked[..i], threshold, limit), Greedy(ranked, threshold, limit);
    GreedyMonotone(ranked, threshold, limit, i);
    KeptScoreNoLess(ranked, threshold, limit, i);
    if |before| < limit {
      DroppedIsSuppressed(ranked, threshold, limit, i);
      if Suppressed(before, ranked[i], threshold) {
        var k :| 0 <= k < |before| && Conflicts(before[k], ranked[i], threshold);
        assert r[k] == before[k];
      } else {
        assert (before + [ranked[i]])[|before|] == ranked[i];
        assert r[|before|] == ranked[i];
      }
    } else {
      assert r == before;
    }
  }

  /** Whatever was kept before an element of the ranking scores at least as high. */
  lemma KeptScoreNoLess(ranked: seq<Detection>, threshold: real, limit: nat, i: nat)
    requires Sorted(ranked) && i < |ranked|
    ensures var before := Greedy(ranked[..i], threshold, limit);
            forall k :: 0 <= k < |before| ==>
              NotAfter(before[k], ranked[i]) && before[k].score.value >= ranked[i].score.value
  {
    GreedyFromRanking(ranked[..i], threshold, limit);
    var before := Greedy(ranked[..i], threshold, limit);
    forall k | 0 <= k < |before|
      ensures NotAfter(before[k], ranked[i]) && before[k].score.value >= ranked[i].score.value
    {
      assert before[k] in multiset(ranked[..i]);
    }
  }

  lemma GreedyIsOrdered(ranked: seq<Detection>, threshold: real)
    requires Sorted(ranked)
    ensures Sorted(Keep(ranked, threshold)) && multiset(Keep(ranked, threshold)) <= multiset(ranked)
  {
    var mask := MaskOf(ranked, threshold);
    MaskExists(ranked, threshold);
    GreedyIsTheMask(mask, ranked, threshold, |ranked|);
    FilterSorted(ranked, mask);
  }

  lemma CutPrefix(ranked: seq<Detection>, threshold: real, limit: nat)
    ensures Greedy(ranked, threshold, limit) == Keep(ranked, threshold)[..Min(limit, |Keep(ranked, threshold)|)]
  {
    if limit <= |ranked| {
      LimitIsPrefix(ranked, threshold, limit, |ranked|);
    } else {
      LimitIsPrefix(ranked, threshold, |ranked|, limit);
    }
  }

  lemma PrefixOrdered(r: seq<Detection>, all: seq<Detection>, ranked: seq<Detection>)
    requires r <= all && Sorted(all) && multiset(all) <= multiset(ranked)
    ensures Sorted(r) && multiset(r) <= multiset(ranked)
  {
    assert all == r + all[|r|..];
    forall i, j | 0 <= i < j < |r| ensures NotAfter(r[i], r[j]) {
      assert NotAfter(all[i], all[j]);
    }
  }

  ghost predicate Compatible(r: seq<Detection>, threshold: real) {
    forall i, j :: 0 <= i < j < |r| ==> !Conflicts(r[i], r[j], threshold)
  }

  lemma CompatibleAppend(kept: seq<Detection>, candidate: Detection, threshold: real)
    requires Compatible(kept, threshold) && !Suppressed(kept, candidate, threshold)
    ensures Compatible(kept + [candidate], threshold)
  {
  }

  lemma {:induction false} GreedyCompatible(ranked: seq<Detection>, threshold: real, limit: nat)
    ensures Compatible(Greedy(ranked, threshold, limit), threshold)
    decreases |ranked|
  {
    if ranked != [] {
      var n := |ranked| - 1;
      GreedyCompatible(ranked[..n], threshold, limit);
      if Greedy(ranked, threshold, limit) != Greedy(ranked[..n], threshold, limit) {
        CompatibleAppend(Greedy(ranked[..n], threshold, limit), ranked[n], threshold);
      }
    }
  }

  /** A candidate ranked before the cut is missing only because a kept candidate ranked before it, of its own
      class, overlaps it beyond the threshold. */
  lemma DroppedIsSuppressed(ranked: seq<Detection>, threshold: real, limit: nat, i: nat)
    requires Sorted(ranked) && i < |ranked|
    requires |Greedy(ranked[..i], threshold, limit)| < limit
    ensures var before, r := Greedy(ranked[..i], threshold, limit), Greedy(ranked, threshold, limit);
            && before <= r
            && (if Overlapped(ranked[i], before, threshold) then Greedy(ranked[..i + 1], threshold, limit) == before
                else Greedy(ranked[..i + 1], threshold, limit) == before + [ranked[i]] <= r)
            && (Overlapped(ranked[i], before, threshold) <==> Suppressed(before, ranked[i], threshold))
  {
    GreedyMonotone(ranked, threshold, limit, i);
    GreedyMonotone(ranked, threshold, limit, i + 1);
    GreedyStep(ranked, threshold, limit, i);
    KeptScoreNoLess(ranked, threshold, limit, i);
    var before := Greedy(ranked[..i], threshold, limit);
    if Suppressed(before, ranked[i], threshold) {
      var k :| 0 <= k < |before| && Conflicts(before[k], ranked[i], threshold);
      assert IntersectionOverUnion(before[k], ranked[i]) > threshold;
    }
    if Overlapped(ranked[i], before, threshold) {
      var k :| 0 <= k < |before| && before[k].cls == ranked[i].cls
               && IntersectionOverUnion(before[k], ranked[i]) > threshold;
      assert Conflicts(before[k], ranked[i], threshold);
    }
  }

  lemma {:induction false} GreedyFromRanking(ranked: seq<Detection>, threshold: real, limit: nat)
    ensures multiset(Greedy(ranked, threshold, limit)) <= multiset(ranked)
    decreases |ranked|
  {
    if ranked != [] {
      GreedyFromRanking(ranked[..|ranked| - 1], threshold, limit);
      assert ranked == ranked[..|ranked| - 1] + [ranked[|ranked| - 1]];
    }
  }

  lemma {:induction false} GreedyMonotone(ranked: seq<Detection>, threshold: real, limit: nat, i: nat)
    requires i <= |ranked|
    ensures Greedy(ranked[..i], threshold, limit) <= Greedy(ranked, threshold, limit)
    decreases |ranked|
  {
    var n := |ranked| - 1;
    if i <= n {
      GreedyMonotone(ranked[..n], threshold, limit, i);
      assert ranked[..n][..i] == ranked[..i];
    } else {
      assert ranked[..i] == ranked;
    }
  }

  /** Below the limit, one more candidate is kept unless a kept one suppresses it. */
  lemma GreedyStep(ranked: seq<Detection>, threshold: real, limit: nat, i: nat)
    requires i < |ranked| && |Greedy(ranked[..i], threshold, limit)| < limit
    ensures var kept := Greedy(ranked[..i], threshold, limit);
            Greedy(ranked[..i + 1], threshold, limit) ==
              if Suppressed(kept, ranked[i], threshold) then kept else kept + [ranked[i]]
  {
    assert ranked[..i + 1][..i] == ranked[..i];
  }

  /** At the limit, the rest of the ranking changes nothing. */
  lemma GreedyFull(ranked: seq<Detection>, threshold: real, limit: nat, i: nat)
    requires i <= |ranked| && |Greedy(ranked[..i], threshold, limit)| == limit
    ensures Greedy(ranked, threshold, limit) == Greedy(ranked[..i], threshold, limit)
  {
    GreedyMonotone(ranked, threshold, limit, i);
  }

  // ---------------------------------------------------------------- independence of input order

  ghost predicate DistinctOrdinals(s: seq<Detection>) {
    forall i, j :: 0 <= i < j < |s| ==> s[i].ordinal != s[j].ordinal
  }

  lemma OrderAntisymmetric(a: Detection, b: Detection)
    requires NotAfter(a, b) && NotAfter(b, a)
    ensures a.ordinal == b.ordinal
  {
  }

  /** Distinct ordinals make the ranking unique. */
  lemma {:induction false} RankingUnique(a: seq<Detection>, b: seq<Detection>)
    requires Sorted(a) && Sorted(b) && multiset(a) == multiset(b) && DistinctOrdinals(a)
    ensures a == b
    decreases |a|
  {
    SameLength(a, b);
    if a != [] {
      SameHead(a, b);
      TailMultiset(a);
      TailMultiset(b);
      RankingUnique(a[1..], b[1..]);
      assert a == [a[0]] + a[1..] && b == [b[0]] + b[1..];
    }
  }

  lemma TailMultiset(a: seq<Detection>)
    requires a != []
    ensures multiset(a[1..]) == multiset(a) - multiset{a[0]}
  {
    assert a == [a[0]] + a[1..];
  }

  lemma SameHead(a: seq<Detection>, b: seq<Detection>)
    requires Sorted(a) && Sorted(b) && multiset(a) == multiset(b) && DistinctOrdinals(a) && a != [] && b != []
    ensures a[0] == b[0]
  {
    assert a[0] in multiset(b) && b[0] in multiset(a);
    var i :| 0 <= i < |b| && b[i] == a[0];
    var j :| 0 <= j < |a| && a[j] == b[0];
    assert NotAfter(b[0], b[i]) && NotAfter(a[0], a[j]);
    OrderAntisymmetric(a[0], b[0]);
    assert j == 0;
  }

  lemma SameLength(a: seq<Detection>, b: seq<Detection>)
    requires multiset(a) == multiset(b)
    ensures |a| == |b|
  {
    assert |multiset(a)| == |a| && |multiset(b)| == |b|;
  }

  lemma {:induction false} DistinctIsInvariant(a: seq<Detection>, b: seq<Detection>)
    requires multiset(a) == multiset(b) && DistinctOrdinals(a)
    ensures DistinctOrdinals(b)
  {
    forall i, j | 0 <= i < j < |b| ensures b[i].ordinal != b[j].ordinal {
      if b[i].ordinal == b[j].ordinal {
        assert b[i] in multiset(a) && b[j] in multiset(a);
        var k :| 0 <= k < |a| && a[k] == b[i];
        var l :| 0 <= l < |a| && a[l] == b[j];
        assert k == l;
        TwiceInMultiset(b, i, j);
        OnceInMultiset(a, k);
        assert false;
      }
    }
  }

  lemma TwiceInMultiset(b: seq<Detection>, i: nat, j: nat)
    requires i < j < |b| && b[i] == b[j]
    ensures multiset(b)[b[i]] >= 2
  {
    assert b == b[..i] + [b[i]] + b[i + 1..j] + [b[j]] + b[j + 1..];
  }

  lemma OnceInMultiset(a: seq<Detection>, k: nat)
    requires k < |a| && DistinctOrdinals(a)
    ensures multiset(a)[a[k]] == 1
  {
    assert a == a[..k] + [a[k]] + a[k + 1..];
    assert a[k] !in a[..k] && a[k] !in a[k + 1..];
  }

  /** With distinct ordinals the result depends only on which candidates there are, not on their order or on
      how the unstable sort breaks ties. */
  lemma OrderIndependence(x: seq<Detection>, y: seq<Detection>, rankedX: seq<Detection>, rankedY: seq<Detection>,
                          threshold: real, limit: nat)
    requires multiset(x) == multiset(y) && DistinctOrdinals(x)
    requires IsSortOf(rankedX, x) && IsSortOf(rankedY, y)
    ensures Greedy(rankedX, threshold, limit) == Greedy(rankedY, threshold, limit)
  {
    DistinctIsInvariant(x, rankedX);
    RankingUnique(rankedX, rankedY);
  }

  // ---------------------------------------------------------------- in place

  lemma SwapKeepsMultiset(s: seq<Detection>, i: nat, j: nat)
    requires i < j < |s|
    ensures multiset(s[i := s[j]][j := s[i]]) == multiset(s)
  {
  }

  /** Sorting in place; nothing is promised about the order of candidates that compare equal. */
  method SortUnstable(a: array<Detection>)
    modifies a
    ensures IsSortOf(a[..], old(a[..])) && HighestFirst(a[..])
  {
    for i := 0 to a.Length
      invariant Sorted(a[..i]) && multiset(a[..]) == multiset(old(a[..]))
    {
      InsertLast(a, i);
    }
    assert a[..a.Length] == a[..];
    SortedIsHighestFirst(a[..]);
  }

  /** Moves `a[n]` down to its place among the sorted elements before it. */
  method InsertLast(a: array<Detection>, n: nat)
    requires n < a.Length && Sorted(a[..n])
    modifies a
    ensures Sorted(a[..n + 1]) && multiset(a[..]) == multiset(old(a[..]))
  {
    var j := n;
    LastMayMove(a[..], n);
    assert a[..n] == a[..][..n];
    while j > 0 && !NotAfter(a[j - 1], a[j])
      invariant 0 <= j <= n
      invariant SortedExcept(a[..], n, j)
      invariant multiset(a[..]) == multiset(old(a[..]))
    {
      SwapKeepsMultiset(a[..], j - 1, j);
      SwapDown(a[..], n, j);
      SwapBack(a, j);
      j := j - 1;
    }
    SortedFromPairs(a[..], n, j);
    assert a[..n + 1] == a[..][..n + 1];
  }

  method SwapBack(a: array<Detection>, j: nat)
    requires 0 < j < a.Length
    modifies a
    ensures a[..] == old(a[..])[j - 1 := old(a[j])][j := old(a[j - 1])]
  {
    a[j - 1], a[j] := a[j], a[j - 1];
  }

  lemma LastMayMove(s: seq<Detection>, n: nat)
    requires n < |s| && Sorted(s[..n])
    ensures SortedExcept(s, n, n)
  {
    forall k, l | 0 <= k < l < n ensures NotAfter(s[k], s[l]) {
      assert s[..n][k] == s[k] && s[..n][l] == s[l];
    }
  }

  /** The first `n + 1` elements are ordered, except that the one at `j` may still have to move down. */
  ghost predicate SortedExcept(s: seq<Detection>, n: nat, j: nat)
    requires n < |s|
  {
    forall k, l :: 0 <= k < l <= n && l != j ==> NotAfter(s[k], s[l])
  }

  lemma SwapDown(s: seq<Detection>, n: nat, j: nat)
    requires 0 < j <= n < |s| && SortedExcept(s, n, j) && !NotAfter(s[j - 1], s[j])
    ensures SortedExcept(s[j - 1 := s[j]][j := s[j - 1]], n, j - 1)
  {
    var t := s[j - 1 := s[j]][j := s[j - 1]];
    forall k, l | 0 <= k < l <= n && l != j - 1 ensures NotAfter(t[k], t[l]) {
      var k', l' := if k == j - 1 then j else if k == j then j - 1 else k, if l == j then j - 1 else l;
      assert t[k] == s[k'] && t[l] == s[l'];
    }
  }

  lemma SortedFromPairs(s: seq<Detection>, n: nat, j: nat)
    requires j <= n < |s| && SortedExcept(s, n, j)
    requires j > 0 ==> NotAfter(s[j - 1], s[j])
    ensures Sorted(s[..n + 1])
  {
    forall k, l | 0 <= k < l <= n ensures NotAfter(s[k], s[l]) {
      if l == j && k < j - 1 {
        assert NotAfter(s[k], s[j - 1]);
      }
    }
  }

  /** Sort, suppress and compact in one buffer; the caller truncates to the returned length. */
  method Suppress(a: array<Detection>, threshold: real, limit: nat)
    returns (retained: nat, ghost ranked: seq<Detection>)
    modifies a
    ensures limit > 0 ==> IsSortOf(ranked, old(a[..]))
    ensures retained <= a.Length && a[..retained] == Greedy(ranked, threshold, limit)
    ensures limit == 0 ==> retained == 0 && a[..] == old(a[..])
    ensures IsSuppressionOf(a[..retained], old(a[..]), threshold, limit)
  {
    if limit == 0 {
      return 0, [];
    }
    SortUnstable(a);
    ranked := a[..];
    retained := 0;
    var index := 0;
    while index < a.Length
      invariant retained <= index <= a.Length && retained < limit
      invariant a[..retained] == Greedy(ranked[..index], threshold, limit)
      invariant |ranked| == a.Length && forall k :: index <= k < a.Length ==> a[k] == ranked[k]
    {
      var candidate := a[index];
      assert candidate == ranked[index];
      GreedyStep(ranked, threshold, limit, index);
      var hit := HasConflict(a, retained, candidate, threshold);
      index := index + 1;
      if !hit {
        ghost var kept := a[..retained];
        a[retained] := candidate;
        retained := retained + 1;
        assert a[..retained] == kept + [candidate];
        if retained == limit {
          GreedyFull(ranked, threshold, limit, index);
          SuppressionMeaning(ranked, old(a[..]), threshold, limit);
          return;
        }
      }
    }
    assert ranked[..index] == ranked;
    SuppressionMeaning(ranked, old(a[..]), threshold, limit);
  }

  method HasConflict(a: array<Detection>, n: nat, candidate: Detection, threshold: real) returns (hit: bool)
    requires n <= a.Length
    ensures hit == Suppressed(a[..n], candidate, threshold)
  {
    for i := 0 to n
      invariant forall k :: 0 <= k < i ==> !Conflicts(a[k], candidate, threshold)
    {
      if Conflicts(a[i], candidate, threshold) {
        assert Conflicts(a[..n][i], candidate, threshold);
        return true;
      }
    }
    return false;
  }
}
