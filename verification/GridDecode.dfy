/** Decoding the model output over the multi-level grid of centre points into candidate boxes. */
module GridDecode {
  import opened Common
  import opened Floats
  import opened Nms
  import opened RowHeads

  const NUM_CLASSES := 80
  const REG_MAX := 7
  const BINS := REG_MAX + 1
  const CHANNELS := NUM_CLASSES + 4 * BINS

  type Stride = n: nat | n > 0 witness 1

  datatype Contract = Contract(name: string, inputSize: nat, points: nat, strides: seq<Stride>, halfStrideOffset: bool)
  {
    function Dims(): seq<nat> { [1, points, CHANNELS] }

    function Elements(): nat { points * CHANNELS }

    function Center(grid: nat, stride: real): real {
      (grid as real + (if halfStrideOffset then 0.5 else 0.0)) * stride
    }
  }

  const CONTRACTS: seq<Contract> := [
    Contract("nanodet-m-320", 320, 2100, [8, 16, 32], true),
    Contract("nanodet-plus-320", 320, 2125, [8, 16, 32, 64], false),
    Contract("nanodet-m-416", 416, 3549, [8, 16, 32], true),
    Contract("nanodet-plus-416", 416, 3598, [8, 16, 32, 64], false)]

  /** The first contract with these dimensions; no other has them. */
  function ContractForDims(dims: seq<nat>): (r: Option<Contract>)
    ensures forall c :: c in CONTRACTS && c.Dims() == dims <==> r == Some(c)
  {
    if dims == CONTRACTS[0].Dims() then Some(CONTRACTS[0])
    else if dims == CONTRACTS[1].Dims() then Some(CONTRACTS[1])
    else if dims == CONTRACTS[2].Dims() then Some(CONTRACTS[2])
    else if dims == CONTRACTS[3].Dims() then Some(CONTRACTS[3])
    else None
  }

  // ---------------------------------------------------------------- the grid

  function Grid(size: nat, stride: Stride): nat { (size + stride - 1) / stride }

  /** The grid is the least one whose cells cover the input. */
  lemma GridIsLeastCover(size: nat, stride: Stride, g: nat)
    ensures g * stride >= size <==> g >= Grid(size, stride)
  {
    var q := Grid(size, stride);
    assert q * stride <= size + stride - 1 < (q + 1) * stride;
    if g >= q {
      assert g * stride >= q * stride;
    } else {
      assert (g + 1) * stride <= q * stride;
    }
  }

  function Points(size: nat, strides: seq<Stride>): nat {
    if strides == [] then 0
    else
      var g := Grid(size, strides[|strides| - 1]);
      Points(size, strides[..|strides| - 1]) + g * g
  }

  datatype Cell = Cell(level: nat, x: nat, y: nat)

  predicate ValidCell(size: nat, strides: seq<Stride>, c: Cell) {
    c.level < |strides| && c.x < Grid(size, strides[c.level]) && c.y < Grid(size, strides[c.level])
  }

  function OrdinalOf(size: nat, strides: seq<Stride>, c: Cell): nat
    requires ValidCell(size, strides, c)
  {
    Points(size, strides[..c.level]) + c.y * Grid(size, strides[c.level]) + c.x
  }

  function CellAt(size: nat, strides: seq<Stride>, n: nat): Cell
    requires n < Points(size, strides)
  {
    var k := |strides| - 1;
    var before := Points(size, strides[..k]);
    if n < before then CellAt(size, strides[..k], n)
    else
      var at := InLevel(Grid(size, strides[k]), n - before);
      Cell(k, at.0, at.1)
  }

  /** Column and row of the `m`th cell of a square grid. */
  function InLevel(g: nat, m: nat): (at: (nat, nat))
    requires m < g * g
    ensures at.0 < g && at.1 < g && at.1 * g + at.0 == m
  {
    OutOfSquare(g, m);
    (m % g, m / g)
  }

  lemma OutOfSquare(g: nat, m: nat)
    requires m < g * g
    ensures g > 0 && m % g < g && m / g < g && (m / g) * g + m % g == m
  {
  }

  lemma InSquare(g: nat, x: nat, y: nat)
    requires x < g && y < g
    ensures y * g + x < g * g && InLevel(g, y * g + x) == (x, y)
  {
    Scaled(y + 1, g, g);
    DivMod(y, g, x);
  }

  lemma DivMod(q: nat, g: nat, r: nat)
    requires r < g
    ensures (q * g + r) / g == q && (q * g + r) % g == r
  {
    var n := q * g + r;
    var d := n / g;
    assert n == d * g + n % g;
    if d > q {
      Scaled(q + 1, d, g);
    } else if d < q {
      Scaled(d + 1, q, g);
    }
  }

  /** Every row number below the total belongs to a cell, and that cell has that number. */
  lemma {:induction false} CellHasOrdinal(size: nat, strides: seq<Stride>, n: nat)
    requires n < Points(size, strides)
    ensures ValidCell(size, strides, CellAt(size, strides, n))
    ensures OrdinalOf(size, strides, CellAt(size, strides, n)) == n
    decreases |strides|
  {
    var k := |strides| - 1;
    if n < Points(size, strides[..k]) {
      CellHasOrdinal(size, strides[..k], n);
      assert strides[..k][..CellAt(size, strides[..k], n).level] == strides[..CellAt(size, strides[..k], n).level];
    }
  }

  /** Every cell has a row number below the total, and no two cells share one. */
  lemma {:induction false} OrdinalHasCell(size: nat, strides: seq<Stride>, c: Cell)
    requires ValidCell(size, strides, c)
    ensures OrdinalOf(size, strides, c) < Points(size, strides)
    ensures CellAt(size, strides, OrdinalOf(size, strides, c)) == c
    decreases |strides|
  {
    var k := |strides| - 1;
    if c.level < k {
      assert strides[..k][..c.level] == strides[..c.level];
      OrdinalHasCell(size, strides[..k], c);
    } else {
      LastLevelHasCell(Points(size, strides[..k]), size, strides, c);
    }
  }

  lemma LastLevelHasCell(before: nat, size: nat, strides: seq<Stride>, c: Cell)
    requires ValidCell(size, strides, c) && c.level == |strides| - 1 && before == Points(size, strides[..c.level])
    ensures OrdinalOf(size, strides, c) < Points(size, strides)
    ensures CellAt(size, strides, OrdinalOf(size, strides, c)) == c
  {
    var g := Grid(size, strides[c.level]);
    var m := c.y * g + c.x;
    InSquare(g, c.x, c.y);
    assert OrdinalOf(size, strides, c) == before + m;
  }

  /** Level by level, row by row, from left to right. */
  predicate ComesBefore(a: Cell, b: Cell) {
    a.level < b.level || (a.level == b.level && (a.y < b.y || (a.y == b.y && a.x < b.x)))
  }

  lemma {:induction false} PointsMonotone(size: nat, strides: seq<Stride>, k: nat, l: nat)
    requires k <= l <= |strides|
    ensures Points(size, strides[..k]) <= Points(size, strides[..l])
    decreases l
  {
    if k < l {
      PointsMonotone(size, strides, k, l - 1);
      PointsStep(size, strides, l - 1);
    }
  }

  lemma OrdinalInLevel(size: nat, strides: seq<Stride>, c: Cell)
    requires ValidCell(size, strides, c)
    ensures Points(size, strides[..c.level]) <= OrdinalOf(size, strides, c) < Points(size, strides[..c.level + 1])
  {
    InSquare(Grid(size, strides[c.level]), c.x, c.y);
    PointsStep(size, strides, c.level);
  }

  lemma EarlierInSquare(g: nat, x: nat, y: nat, u: nat, v: nat)
    requires x < g && u < g && (y < v || (y == v && x < u))
    ensures y * g + x < v * g + u
  {
    if y < v {
      Scaled(y + 1, v, g);
      assert (y + 1) * g == y * g + g;
    }
  }

  lemma EarlierIsLess(size: nat, strides: seq<Stride>, a: Cell, b: Cell)
    requires ValidCell(size, strides, a) && ValidCell(size, strides, b) && ComesBefore(a, b)
    ensures OrdinalOf(size, strides, a) < OrdinalOf(size, strides, b)
  {
    if a.level < b.level {
      OrdinalInLevel(size, strides, a);
      OrdinalInLevel(size, strides, b);
      PointsMonotone(size, strides, a.level + 1, b.level);
    } else {
      EarlierInSquare(Grid(size, strides[a.level]), a.x, a.y, b.x, b.y);
    }
  }

  /** The rows are numbered in reading order. */
  lemma OrdinalsFollowTheGrid(size: nat, strides: seq<Stride>, a: Cell, b: Cell)
    requires ValidCell(size, strides, a) && ValidCell(size, strides, b)
    ensures OrdinalOf(size, strides, a) < OrdinalOf(size, strides, b) <==> ComesBefore(a, b)
  {
    if ComesBefore(a, b) {
      EarlierIsLess(size, strides, a, b);
    } else if a != b {
      EarlierIsLess(size, strides, b, a);
    }
  }

  // ---------------------------------------------------------------- one row

  function Row<T>(output: seq<T>, n: nat): (row: seq<T>)
    requires (n + 1) * CHANNELS <= |output|
    ensures |row| == CHANNELS
  {
    output[n * CHANNELS..(n + 1) * CHANNELS]
  }

  function Side<T>(row: seq<T>, side: nat): (bins: seq<T>)
    requires |row| == CHANNELS && side < 4
    ensures |bins| == BINS
  {
    row[NUM_CLASSES + side * BINS..NUM_CLASSES + side * BINS + BINS]
  }

  datatype Settings<!T> = Settings(threshold: real, value: T -> Option<Finite>, exp: real -> real)

  function Distance<T>(row: seq<T>, side: nat, p: Settings<T>): (d: real)
    requires |row| == CHANNELS && side < 4 && ExpLike(p.exp) && AllFinite(Side(row, side), p.value)
    ensures 0.0 <= d <= REG_MAX as real
  {
    var s := Values(Side(row, side), p.value);
    ExpectationInRange(p.exp, s);
    Expectation(p.exp, s)
  }

  /** The box of a cell, clamped to the input: left, top, right and bottom edges. */
  function BoxAt(c: Contract, cell: Cell, stride: real, left: real, top: real, right: real, bottom: real)
    : (real, real, real, real)
  {
    var size := c.inputSize as real;
    var (cx, cy) := (c.Center(cell.x, stride), c.Center(cell.y, stride));
    (Clamp(cx - left * stride, 0.0, size), Clamp(cy - top * stride, 0.0, size),
     Clamp(cx + right * stride, 0.0, size), Clamp(cy + bottom * stride, 0.0, size))
  }

  predicate InBox(box: (real, real, real, real), px: real, py: real) {
    box.0 <= px <= box.2 && box.1 <= py <= box.3
  }

  predicate Inside(size: nat, px: real, py: real) { 0.0 < px < size as real && 0.0 < py < size as real }

  /** Left, top, right and bottom, taken in strides, reach so far right and down. */
  predicate WithinSides(left: real, top: real, right: real, bottom: real, stride: real, dx: real, dy: real) {
    -(left * stride) <= dx <= right * stride && -(top * stride) <= dy <= bottom * stride
  }

  /** A point strictly inside the input lies in the box exactly when each of the four sides, taken in strides from
      the cell's centre, reaches it. */
  lemma BoxCoversWhatTheSidesReach(c: Contract, cell: Cell, stride: real, left: real, top: real, right: real,
                                   bottom: real, px: real, py: real)
    requires Inside(c.inputSize, px, py)
    ensures InBox(BoxAt(c, cell, stride, left, top, right, bottom), px, py) <==>
              WithinSides(left, top, right, bottom, stride,
                          px - c.Center(cell.x, stride), py - c.Center(cell.y, stride))
  {
    var size := c.inputSize as real;
    var (cx, cy) := (c.Center(cell.x, stride), c.Center(cell.y, stride));
    ClampOrder(cx - left * stride, px, size);
    ClampOrder(cx + right * stride, px, size);
    ClampOrder(cy - top * stride, py, size);
    ClampOrder(cy + bottom * stride, py, size);
  }

  lemma ClampOrder(v: real, at: real, size: real)
    requires 0.0 < at < size
    ensures Clamp(v, 0.0, size) <= at <==> v <= at
    ensures at <= Clamp(v, 0.0, size) <==> at <= v
  {
  }

  function DecodeRow<T>(row: seq<T>, c: Contract, cell: Cell, ordinal: nat, p: Settings<T>): Option<Detection>
    requires |row| == CHANNELS && ExpLike(p.exp) && cell.level < |c.strides|
  {
    if !AllFinite(row, p.value) then None
    else
      var scores := Values(row[..NUM_CLASSES], p.value);
      var cls := BestIndex(scores);
      var box := BoxAt(c, cell, c.strides[cell.level] as real,
                       Distance(row, 0, p), Distance(row, 1, p), Distance(row, 2, p), Distance(row, 3, p));
      if scores[cls].value < p.threshold || box.2 <= box.0 || box.3 <= box.1 then None
      else Some(Detection(cls, scores[cls], box.0, box.1, box.2, box.3, ordinal))
  }

  method ReadRow<T>(row: seq<T>, c: Contract, cell: Cell, ordinal: nat, p: Settings<T>) returns (r: Option<Detection>)
    requires |row| == CHANNELS && ExpLike(p.exp) && cell.level < |c.strides|
    ensures r == DecodeRow(row, c, cell, ordinal, p)
  {
    var best := BestClass(row[..NUM_CLASSES], p.value);
    if best.None? {
      assert !AllFinite(row, p.value);
      return None;
    }
    var (cls, score) := best.value;
    if score.value < p.threshold {
      return None;
    }
    var distances := [];
    for side := 0 to 4
      invariant |distances| == side
      invariant forall k :: 0 <= k < side ==>
        AllFinite(Side(row, k), p.value) && distances[k] == Distance(row, k, p)
    {
      var d := DistributionExpectation(Side(row, side), p.value, p.exp);
      if d.None? {
        SideNotFinite(row, side, p.value);
        return None;
      }
      distances := distances + [d.value];
    }
    RowFinite(row, p.value);
    var (x1, y1, x2, y2) :=
      BoxAt(c, cell, c.strides[cell.level] as real, distances[0], distances[1], distances[2], distances[3]);
    if x2 <= x1 || y2 <= y1 {
      return None;
    }
    r := Some(Detection(cls, score, x1, y1, x2, y2, ordinal));
  }

  /** What the row reaches from the centre of its cell: on each side the mean of eight bins, in strides. */
  ghost predicate Reaches<T>(row: seq<T>, p: Settings<T>, cx: real, cy: real, stride: real, px: real, py: real)
    requires |row| == CHANNELS && ExpLike(p.exp) && AllFinite(row, p.value)
  {
    WithinSides(Distance(row, 0, p), Distance(row, 1, p), Distance(row, 2, p), Distance(row, 3, p), stride,
                px - cx, py - cy)
  }

  lemma DistanceReadsItsBins<T>(row: seq<T>, side: nat, p: Settings<T>, at: real)
    requires |row| == 112 && side < 4 && ExpLike(p.exp) && AllFinite(row, p.value)
    ensures var bins := Values(row[80 + 8 * side..88 + 8 * side], p.value);
            && (forall i :: 0 <= i < 8 ==> p.value(row[80 + 8 * side + i]) == Some(bins[i]))
            && (Deviation(p.exp, bins, Peak(bins), at) == 0.0 <==> at == Distance(row, side, p))
  {
    ExpectationBalances(p.exp, Values(Side(row, side), p.value), at);
  }

  /** The centre of a cell: grid origins for NanoDet-Plus, half a stride further for NanoDet-m. */
  lemma CentersByName(c: Contract, grid: nat, stride: real)
    requires c in CONTRACTS
    ensures c.name == "nanodet-plus-320" || c.name == "nanodet-plus-416" ==>
              c.Center(grid, stride) == grid as real * stride
    ensures c.name == "nanodet-m-320" || c.name == "nanodet-m-416" ==>
              c.Center(grid, stride) == grid as real * stride + stride / 2.0
    ensures c.name in ["nanodet-plus-320", "nanodet-plus-416", "nanodet-m-320", "nanodet-m-416"]
  {
  }

  function BoxOf<T>(row: seq<T>, c: Contract, cell: Cell, p: Settings<T>): (real, real, real, real)
    requires |row| == CHANNELS && ExpLike(p.exp) && AllFinite(row, p.value) && cell.level < |c.strides|
  {
    BoxAt(c, cell, c.strides[cell.level] as real,
          Distance(row, 0, p), Distance(row, 1, p), Distance(row, 2, p), Distance(row, 3, p))
  }

  /** The box covers what the row reaches. */
  lemma BoxIsWhatItReaches<T>(row: seq<T>, c: Contract, cell: Cell, p: Settings<T>, px: real, py: real)
    requires |row| == CHANNELS && ExpLike(p.exp) && AllFinite(row, p.value) && cell.level < |c.strides|
    requires Inside(c.inputSize, px, py)
    ensures var stride := c.strides[cell.level] as real;
            InBox(BoxOf(row, c, cell, p), px, py) <==>
              Reaches(row, p, c.Center(cell.x, stride), c.Center(cell.y, stride), stride, px, py)
  {
    BoxCoversWhatTheSidesReach(c, cell, c.strides[cell.level] as real, Distance(row, 0, p), Distance(row, 1, p),
                               Distance(row, 2, p), Distance(row, 3, p), px, py);
  }

  /** A decoded row: the last class of the greatest score, and the box of the row. */
  lemma DecodedRowMeaning<T>(row: seq<T>, c: Contract, cell: Cell, ordinal: nat, p: Settings<T>)
    requires |row| == CHANNELS && ExpLike(p.exp) && cell.level < |c.strides|
    requires DecodeRow(row, c, cell, ordinal, p).Some?
    ensures var d := DecodeRow(row, c, cell, ordinal, p).value;
            && d.ordinal == ordinal && d.cls < 80 && d.score.value >= p.threshold
            && AllFinite(row, p.value) && p.value(row[d.cls]) == Some(d.score)
            && (forall i :: 0 <= i < 80 ==> p.value(row[i]).value.value <= d.score.value)
            && (forall i :: d.cls < i < 80 && p.value(row[i]).value.value == d.score.value ==>
                  p.value(row[i]).value.negativeZero && !d.score.negativeZero)
            && (d.x1, d.y1, d.x2, d.y2) == BoxOf(row, c, cell, p)
  {
    var scores := Values(row[..NUM_CLASSES], p.value);
    BestIsLastMaximum(scores);
    forall i | 0 <= i < 80 ensures p.value(row[i]).value == scores[i] {
    }
  }

  /** Two points strictly inside the input, one to the right of and below the other. */
  predicate SpanArea(size: nat, ux: real, uy: real, vx: real, vy: real) {
    Inside(size, ux, uy) && Inside(size, vx, vy) && ux < vx && uy < vy
  }

  /** A row decodes exactly when all its values are finite, some class reaches the threshold, and what it reaches has
      an area inside the input. */
  lemma RowDecodesIff<T>(row: seq<T>, c: Contract, cell: Cell, ordinal: nat, p: Settings<T>)
    requires |row| == CHANNELS && ExpLike(p.exp) && cell.level < |c.strides|
    ensures var stride := c.strides[cell.level] as real;
            var (cx, cy) := (c.Center(cell.x, stride), c.Center(cell.y, stride));
            DecodeRow(row, c, cell, ordinal, p).Some? <==>
              && AllFinite(row, p.value)
              && (exists i :: 0 <= i < 80 && p.value(row[i]).value.value >= p.threshold)
              && (exists ux, uy, vx, vy :: SpanArea(c.inputSize, ux, uy, vx, vy)
                    && Reaches(row, p, cx, cy, stride, ux, uy) && Reaches(row, p, cx, cy, stride, vx, vy))
  {
    if AllFinite(row, p.value) {
      BestReaches(row, p);
      BoxHasArea(c.inputSize, BoxOf(row, c, cell, p));
      forall px: real, py: real | Inside(c.inputSize, px, py)
        ensures var stride := c.strides[cell.level] as real;
                InBox(BoxOf(row, c, cell, p), px, py) <==>
                  Reaches(row, p, c.Center(cell.x, stride), c.Center(cell.y, stride), stride, px, py)
      {
        BoxIsWhatItReaches(row, c, cell, p, px, py);
      }
    }
  }

  lemma BestReaches<T>(row: seq<T>, p: Settings<T>)
    requires |row| == CHANNELS && AllFinite(row, p.value)
    ensures var scores := Values(row[..NUM_CLASSES], p.value);
            scores[BestIndex(scores)].value >= p.threshold
            <==> exists i :: 0 <= i < 80 && p.value(row[i]).value.value >= p.threshold
  {
    var scores := Values(row[..NUM_CLASSES], p.value);
    BestIsLastMaximum(scores);
    forall i | 0 <= i < 80 ensures p.value(row[i]).value == scores[i] {
    }
    assert p.value(row[BestIndex(scores)]).value == scores[BestIndex(scores)];
  }

  /** A box has sides exactly when it holds two points apart in both directions. */
  lemma BoxHasArea(size: nat, box: (real, real, real, real))
    requires 0.0 <= box.0 <= size as real && 0.0 <= box.1 <= size as real
    requires 0.0 <= box.2 <= size as real && 0.0 <= box.3 <= size as real
    ensures (box.0 < box.2 && box.1 < box.3) <==>
              exists ux, uy, vx, vy :: SpanArea(size, ux, uy, vx, vy) && InBox(box, ux, uy) && InBox(box, vx, vy)
  {
    if box.0 < box.2 && box.1 < box.3 {
      var (ux, vx) := ((2.0 * box.0 + box.2) / 3.0, (box.0 + 2.0 * box.2) / 3.0);
      var (uy, vy) := ((2.0 * box.1 + box.3) / 3.0, (box.1 + 2.0 * box.3) / 3.0);
      assert SpanArea(size, ux, uy, vx, vy) && InBox(box, ux, uy) && InBox(box, vx, vy);
    }
  }

  lemma SideNotFinite<T>(row: seq<T>, side: nat, value: T -> Option<Finite>)
    requires |row| == CHANNELS && side < 4 && !AllFinite(Side(row, side), value)
    ensures !AllFinite(row, value)
  {
    var i :| 0 <= i < BINS && value(Side(row, side)[i]).None?;
    assert value(row[NUM_CLASSES + side * BINS + i]).None?;
  }

  lemma RowFinite<T>(row: seq<T>, value: T -> Option<Finite>)
    requires |row| == CHANNELS && AllFinite(row[..NUM_CLASSES], value)
    requires forall k :: 0 <= k < 4 ==> AllFinite(Side(row, k), value)
    ensures AllFinite(row, value)
  {
    forall i | 0 <= i < |row| ensures value(row[i]).Some? {
      if i < NUM_CLASSES {
        assert row[i] == row[..NUM_CLASSES][i];
      } else {
        var k := (i - NUM_CLASSES) / BINS;
        assert row[i] == Side(row, k)[i - NUM_CLASSES - k * BINS];
      }
    }
  }

  // ---------------------------------------------------------------- all rows

  function Somes(rows: seq<Option<Detection>>): seq<Detection> {
    if rows == [] then []
    else
      var last := rows[|rows| - 1];
      Somes(rows[..|rows| - 1]) + (if last.Some? then [last.value] else [])
  }

  /** Each of the first n rows, decoded or skipped. */
  function DecodedRows<T>(output: seq<T>, c: Contract, p: Settings<T>, n: nat): (rows: seq<Option<Detection>>)
    requires |output| == c.Elements() && n <= c.points && n <= Points(c.inputSize, c.strides) && ExpLike(p.exp)
    ensures |rows| == n
  {
    seq(n, i requires 0 <= i < n => DecodedAt(output, c, p, i))
  }

  function Candidates<T>(output: seq<T>, c: Contract, p: Settings<T>, n: nat): seq<Detection>
    requires |output| == c.Elements() && n <= c.points && n <= Points(c.inputSize, c.strides) && ExpLike(p.exp)
  {
    Somes(DecodedRows(output, c, p, n))
  }

  function DecodedAt<T>(output: seq<T>, c: Contract, p: Settings<T>, n: nat): Option<Detection>
    requires |output| == c.Elements() && n < c.points && n < Points(c.inputSize, c.strides) && ExpLike(p.exp)
  {
    CellHasOrdinal(c.inputSize, c.strides, n);
    RowInside(c, n);
    DecodeRow(Row(output, n), c, CellAt(c.inputSize, c.strides, n), n, p)
  }

  lemma RowInside(c: Contract, n: nat)
    requires n < c.points
    ensures (n + 1) * CHANNELS <= c.Elements()
  {
    Scaled(n + 1, c.points, CHANNELS);
  }

  /** A candidate carries its row as ordinal, a class below 80, a score that reached the threshold, and a box with
      positive sides inside the input. */
  ghost predicate WellPlaced<T>(d: Detection, c: Contract, p: Settings<T>) {
    && d.cls < NUM_CLASSES && d.score.value >= p.threshold
    && 0.0 <= d.x1 < d.x2 <= c.inputSize as real
    && 0.0 <= d.y1 < d.y2 <= c.inputSize as real
  }

  ghost predicate StrictlyIncreasing(s: seq<Detection>) {
    forall i, j :: 0 <= i < j < |s| ==> s[i].ordinal < s[j].ordinal
  }

  /** The row of a cell: 112 values from where the cells before it end. */
  lemma DecodedAtIsItsRow<T>(output: seq<T>, c: Contract, p: Settings<T>, cell: Cell)
    requires |output| == c.points * 112 && ExpLike(p.exp)
    requires ValidCell(c.inputSize, c.strides, cell) && OrdinalOf(c.inputSize, c.strides, cell) < c.points
    ensures var n := OrdinalOf(c.inputSize, c.strides, cell);
            && n < Points(c.inputSize, c.strides) && 0 <= n * 112 <= n * 112 + 112 <= |output|
            && DecodedAt(output, c, p, n) == DecodeRow(output[n * 112..n * 112 + 112], c, cell, n, p)
  {
    OrdinalHasCell(c.inputSize, c.strides, cell);
    RowInside(c, OrdinalOf(c.inputSize, c.strides, cell));
  }

  lemma DecodedIsWellPlaced<T>(output: seq<T>, c: Contract, p: Settings<T>, n: nat)
    requires |output| == c.Elements() && n < c.points && n < Points(c.inputSize, c.strides) && ExpLike(p.exp)
    ensures var d := DecodedAt(output, c, p, n);
            d.Some? ==> WellPlaced(d.value, c, p) && d.value.ordinal == n && Proper(d.value)
  {
  }

  ghost predicate NumberedByRow(rows: seq<Option<Detection>>) {
    forall i :: 0 <= i < |rows| && rows[i].Some? ==> rows[i].value.ordinal == i
  }

  lemma {:induction false} SomesAreTheRows(rows: seq<Option<Detection>>, d: Detection)
    requires NumberedByRow(rows)
    ensures d in Somes(rows) <==> d.ordinal < |rows| && rows[d.ordinal] == Some(d)
    decreases |rows|
  {
    if rows != [] {
      var n := |rows| - 1;
      SomesAreTheRows(rows[..n], d);
      assert d in Somes(rows) <==> d in Somes(rows[..n]) || rows[n] == Some(d);
    }
  }

  lemma {:induction false} SomesIncrease(rows: seq<Option<Detection>>)
    requires NumberedByRow(rows)
    ensures StrictlyIncreasing(Somes(rows))
    decreases |rows|
  {
    if rows != [] {
      var n := |rows| - 1;
      var before := Somes(rows[..n]);
      SomesIncrease(rows[..n]);
      forall i | 0 <= i < |before| ensures before[i].ordinal < n {
        SomesAreTheRows(rows[..n], before[i]);
      }
    }
  }

  /** The candidates are exactly the rows that decode, each once, in row order, and every one of them is well
      placed. */
  lemma CandidatesAreTheDecodedRows<T>(output: seq<T>, c: Contract, p: Settings<T>, n: nat)
    requires |output| == c.Elements() && n <= c.points && n <= Points(c.inputSize, c.strides) && ExpLike(p.exp)
    ensures StrictlyIncreasing(Candidates(output, c, p, n))
    ensures forall d :: d in Candidates(output, c, p, n) <==>
              d.ordinal < n && DecodedAt(output, c, p, d.ordinal) == Some(d)
    ensures forall d :: d in Candidates(output, c, p, n) ==> WellPlaced(d, c, p)
  {
    var rows := DecodedRows(output, c, p, n);
    forall i | 0 <= i < n && rows[i].Some? ensures rows[i].value.ordinal == i && WellPlaced(rows[i].value, c, p) {
      DecodedIsWellPlaced(output, c, p, i);
    }
    SomesIncrease(rows);
    forall d ensures d in Somes(rows) <==> d.ordinal < n && rows[d.ordinal] == Some(d) {
      SomesAreTheRows(rows, d);
    }
  }

  lemma CandidatesStep<T>(output: seq<T>, c: Contract, p: Settings<T>, n: nat)
    requires |output| == c.Elements() && n < c.points && n < Points(c.inputSize, c.strides) && ExpLike(p.exp)
    ensures var d := DecodedAt(output, c, p, n);
            Candidates(output, c, p, n + 1) == Candidates(output, c, p, n) + (if d.Some? then [d.value] else [])
  {
    assert DecodedRows(output, c, p, n + 1)[..n] == DecodedRows(output, c, p, n);
  }

  predicate OrdinalsFit(s: seq<Detection>) {
    forall i :: 0 <= i < |s| ==> s[i].ordinal <= U16_MAX
  }

  datatype DecodeError =
    | ElementCount(found: nat, expected: nat)
    | RowUnavailable(point: nat)
    | OrdinalTooLarge(point: nat)
    | PointCount(found: nat, expected: nat)

  class Buffer {
    var items: seq<Detection>

    constructor ()
      ensures items == []
    {
      items := [];
    }
  }

  ghost predicate Reached<T>(output: seq<T>, c: Contract, p: Settings<T>, items: seq<Detection>, point: nat)
    requires |output| == c.Elements() && ExpLike(p.exp)
  {
    && point <= c.points && point <= Points(c.inputSize, c.strides)
    && items == Candidates(output, c, p, point) && OrdinalsFit(items)
  }

  /** What is in the buffer when the traversal fails, and why. */
  ghost predicate Stopped<T>(output: seq<T>, c: Contract, p: Settings<T>, items: seq<Detection>, e: DecodeError)
    requires |output| == c.Elements() && ExpLike(p.exp)
  {
    var total := Points(c.inputSize, c.strides);
    if e.RowUnavailable? then e.point == c.points < total && Reached(output, c, p, items, e.point)
    else if e.PointCount? then e.found == total < c.points == e.expected && Reached(output, c, p, items, total)
    else
      && e.OrdinalTooLarge? && U16_MAX < e.point < total && e.point < c.points
      && Reached(output, c, p, items, e.point) && !OrdinalsFit(Candidates(output, c, p, e.point + 1))
  }

  /** The body of the innermost loop: decode one row and push the detection. */
  method Visit<T>(output: seq<T>, c: Contract, p: Settings<T>, cell: Cell, point: nat, buffer: Buffer)
    returns (failure: Option<DecodeError>)
    requires |output| == c.Elements() && point < c.points && ExpLike(p.exp)
    requires ValidCell(c.inputSize, c.strides, cell) && OrdinalOf(c.inputSize, c.strides, cell) == point
    requires point < Points(c.inputSize, c.strides) && Reached(output, c, p, buffer.items, point)
    modifies buffer
    ensures failure.None? ==> Reached(output, c, p, buffer.items, point + 1)
    ensures failure.Some? ==> Stopped(output, c, p, buffer.items, failure.value)
  {
    RowInside(c, point);
    var r := ReadRow(Row(output, point), c, cell, point, p);
    DecodedAtCell(output, c, p, cell, point);
    DecodedIsWellPlaced(output, c, p, point);
    CandidatesStep(output, c, p, point);
    ReachedStep(output, c, p, buffer.items, point, r);
    if r.Some? {
      if point > U16_MAX {
        return Some(OrdinalTooLarge(point));
      }
      buffer.items := buffer.items + [r.value];
    }
    failure := None;
  }

  lemma DecodedAtCell<T>(output: seq<T>, c: Contract, p: Settings<T>, cell: Cell, point: nat)
    requires |output| == c.Elements() && point < c.points && (point + 1) * CHANNELS <= |output| && ExpLike(p.exp)
    requires ValidCell(c.inputSize, c.strides, cell) && OrdinalOf(c.inputSize, c.strides, cell) == point
    requires point < Points(c.inputSize, c.strides)
    ensures DecodeRow(Row(output, point), c, cell, point, p) == DecodedAt(output, c, p, point)
  {
    OrdinalHasCell(c.inputSize, c.strides, cell);
  }

  lemma ReachedStep<T>(output: seq<T>, c: Contract, p: Settings<T>, items: seq<Detection>, point: nat,
                       r: Option<Detection>)
    requires |output| == c.Elements() && point < c.points && ExpLike(p.exp)
    requires point < Points(c.inputSize, c.strides) && Reached(output, c, p, items, point)
    requires r.Some? ==> r.value.ordinal == point
    requires Candidates(output, c, p, point + 1)
             == Candidates(output, c, p, point) + (if r.Some? then [r.value] else [])
    ensures r.None? ==> Reached(output, c, p, items, point + 1)
    ensures r.Some? && point <= U16_MAX ==> Reached(output, c, p, items + [r.value], point + 1)
    ensures r.Some? && point > U16_MAX ==> Stopped(output, c, p, items, OrdinalTooLarge(point))
  {
    if r.Some? {
      assert Candidates(output, c, p, point + 1)[|items|] == r.value;
    }
  }

  method Traverse<T>(output: seq<T>, c: Contract, p: Settings<T>, buffer: Buffer) returns (r: Result<(), DecodeError>)
    requires |output| == c.Elements() && ExpLike(p.exp)
    modifies buffer
    ensures r.Ok? ==> Points(c.inputSize, c.strides) == c.points && Reached(output, c, p, buffer.items, c.points)
    ensures r.Err? ==> Stopped(output, c, p, buffer.items, r.error)
  {
    buffer.items := [];
    var point := 0;
    for level := 0 to |c.strides|
      invariant point == Points(c.inputSize, c.strides[..level]) && Reached(output, c, p, buffer.items, point)
    {
      var failure;
      point, failure := TraverseLevel(output, c, p, level, point, buffer);
      if failure.Some? {
        return Err(failure.value);
      }
    }
    assert c.strides[..|c.strides|] == c.strides;
    r := if point != c.points then Err(PointCount(point, c.points)) else Ok(());
  }

  /** The loop over one level's rows of cells. */
  method TraverseLevel<T>(output: seq<T>, c: Contract, p: Settings<T>, level: nat, start: nat, buffer: Buffer)
    returns (point: nat, failure: Option<DecodeError>)
    requires |output| == c.Elements() && ExpLike(p.exp) && level < |c.strides|
    requires start == Points(c.inputSize, c.strides[..level]) && Reached(output, c, p, buffer.items, start)
    modifies buffer
    ensures failure.Some? ==> Stopped(output, c, p, buffer.items, failure.value)
    ensures failure.None? ==> point == Points(c.inputSize, c.strides[..level + 1])
                              && Reached(output, c, p, buffer.items, point)
  {
    point := start;
    var grid := Grid(c.inputSize, c.strides[level]);
    for y := 0 to grid
      invariant point == start + y * grid && Reached(output, c, p, buffer.items, point)
    {
      point, failure := TraverseRow(output, c, p, level, y, point, buffer);
      if failure.Some? {
        return;
      }
      assert (y + 1) * grid == y * grid + grid;
    }
    PointsStep(c.inputSize, c.strides, level);
    failure := None;
  }

  /** The loop over one row of cells. */
  method TraverseRow<T>(output: seq<T>, c: Contract, p: Settings<T>, level: nat, y: nat, start: nat, buffer: Buffer)
    returns (point: nat, failure: Option<DecodeError>)
    requires |output| == c.Elements() && ExpLike(p.exp)
    requires level < |c.strides| && y < Grid(c.inputSize, c.strides[level])
    requires start == Points(c.inputSize, c.strides[..level]) + y * Grid(c.inputSize, c.strides[level])
    requires Reached(output, c, p, buffer.items, start)
    modifies buffer
    ensures failure.Some? ==> Stopped(output, c, p, buffer.items, failure.value)
    ensures failure.None? ==> point == start + Grid(c.inputSize, c.strides[level])
                              && Reached(output, c, p, buffer.items, point)
  {
    point := start;
    for x := 0 to Grid(c.inputSize, c.strides[level])
      invariant point == start + x && Reached(output, c, p, buffer.items, point)
    {
      var cell := Cell(level, x, y);
      CellReached(c.inputSize, c.strides, cell, point);
      if point == c.points {
        return point, Some(RowUnavailable(point));
      }
      failure := Visit(output, c, p, cell, point, buffer);
      if failure.Some? {
        return;
      }
      point := point + 1;
    }
    failure := None;
  }

  lemma PointsStep(size: nat, strides: seq<Stride>, level: nat)
    requires level < |strides|
    ensures var g := Grid(size, strides[level]);
            Points(size, strides[..level + 1]) == Points(size, strides[..level]) + g * g
  {
    assert strides[..level + 1][..level] == strides[..level];
  }

  lemma CellReached(size: nat, strides: seq<Stride>, cell: Cell, point: nat)
    requires ValidCell(size, strides, cell)
    requires point == Points(size, strides[..cell.level]) + cell.y * Grid(size, strides[cell.level]) + cell.x
    ensures OrdinalOf(size, strides, cell) == point < Points(size, strides)
  {
    OrdinalHasCell(size, strides, cell);
  }

  /** The whole decoder. On success the buffer holds the greedy suppression of the candidates, the same for
      whichever ranking of them the unstable sort produced. */
  method DecodeValues<T>(output: seq<T>, c: Contract, p: Settings<T>, iouThreshold: real, maxDetections: nat,
                         buffer: Buffer)
    returns (r: Result<(), DecodeError>)
    requires ExpLike(p.exp)
    modifies buffer
    ensures r == Err(ElementCount(|output|, c.Elements())) <==> |output| != c.Elements()
    ensures |output| != c.Elements() ==> buffer.items == old(buffer.items)
    ensures |output| == c.Elements() && r.Err? ==> Stopped(output, c, p, buffer.items, r.error)
    ensures |output| == c.Elements() && r.Ok? ==>
              && Points(c.inputSize, c.strides) == c.points
              && OrdinalsFit(Candidates(output, c, p, c.points))
              && IsSuppressionOf(buffer.items, Candidates(output, c, p, c.points), iouThreshold, maxDetections)
              && forall ranked :: IsSortOf(ranked, Candidates(output, c, p, c.points)) ==>
                   buffer.items == Greedy(ranked, iouThreshold, maxDetections)
  {
    if |output| != c.Elements() {
      return Err(ElementCount(|output|, c.Elements()));
    }
    r := Traverse(output, c, p, buffer);
    if r.Ok? {
      var items := buffer.items;
      CandidatesAreTheDecodedRows(output, c, p, c.points);
      var a := new Detection[|items|](i requires 0 <= i < |items| => items[i]);
      assert a[..] == items;
      var retained, ranked := Suppress(a, iouThreshold, maxDetections);
      buffer.items := a[..retained];
      forall other | IsSortOf(other, items)
        ensures buffer.items == Greedy(other, iouThreshold, maxDetections)
      {
        if maxDetections > 0 {
          IncreasingIsDistinct(items);
          OrderIndependence(items, items, ranked, other, iouThreshold, maxDetections);
        }
      }
    }
  }

  lemma IncreasingIsDistinct(s: seq<Detection>)
    requires StrictlyIncreasing(s)
    ensures DistinctOrdinals(s)
  {
  }

  // ---------------------------------------------------------------- the supported contracts

  lemma Fits(c: Contract)
    requires c in CONTRACTS
    ensures Points(c.inputSize, c.strides) == c.points <= U16_MAX
  {
    if c == CONTRACTS[0] {
      SumOf3(c.inputSize, c.strides);
    } else if c == CONTRACTS[1] {
      SumOf4(c.inputSize, c.strides);
    } else if c == CONTRACTS[2] {
      SumOf3(c.inputSize, c.strides);
    } else {
      SumOf4(c.inputSize, c.strides);
    }
  }

  lemma SumOf3(size: nat, s: seq<Stride>)
    requires |s| == 3
    ensures Points(size, s) == Grid(size, s[0]) * Grid(size, s[0]) + Grid(size, s[1]) * Grid(size, s[1])
                               + Grid(size, s[2]) * Grid(size, s[2])
  {
    assert s[..2][..1] == s[..1] && s[..1][..0] == [];
    assert Points(size, s[..1]) == Grid(size, s[0]) * Grid(size, s[0]);
    assert Points(size, s[..2]) == Points(size, s[..1]) + Grid(size, s[1]) * Grid(size, s[1]);
  }

  lemma SumOf4(size: nat, s: seq<Stride>)
    requires |s| == 4
    ensures Points(size, s) == Grid(size, s[0]) * Grid(size, s[0]) + Grid(size, s[1]) * Grid(size, s[1])
                               + Grid(size, s[2]) * Grid(size, s[2]) + Grid(size, s[3]) * Grid(size, s[3])
  {
    SumOf3(size, s[..3]);
  }

  /** On a supported contract the grid, the row count and the ordinal width agree: nothing stops the traversal. */
  lemma SupportedContractsDecode<T>(output: seq<T>, c: Contract, p: Settings<T>, items: seq<Detection>, e: DecodeError)
    requires c in CONTRACTS && |output| == c.Elements() && ExpLike(p.exp)
    ensures !Stopped(output, c, p, items, e)
  {
    Fits(c);
  }
}
