/** Shape checks between a model's reported axes and the tensors that flow through it: input axes with shared
    dimension symbols, and output axes constrained by both the declaration and the model. */
module ShapeConstraints {
  import opened Common
  import opened ModelInfo

  /** What the runtime reports of one tensor: an axis of -1 is dynamic, an empty symbol names nothing. A session
      input has one symbol for each axis; the loop stops at the shorter of the two. */
  datatype ValueType = NotATensor | Tensor(elementType: ScalarType, shape: seq<int>, symbols: seq<string>)

  // ---------------------------------------------------------------- inputs

  datatype Provided = Provided(model: ValueType, actual: ValueType)

  datatype InputError = NotTensor | RankMismatch | AxisMismatch | SymbolMismatch

  class SymbolTable {
    var sizes: map<string, int>

    constructor ()
      ensures sizes == map[]
    {
      sizes := map[];
    }
  }

  function CheckedAxes(p: Provided): (n: nat)
    requires p.model.Tensor? && p.actual.Tensor?
    ensures n <= |p.model.shape| && n <= |p.model.symbols|
  {
    Min(|p.model.shape|, |p.model.symbols|)
  }

  predicate FixedAxesMatch(p: Provided) {
    && p.model.Tensor? && p.actual.Tensor? && |p.model.shape| == |p.actual.shape|
    && forall i :: 0 <= i < CheckedAxes(p) ==> p.model.shape[i] == -1 || p.model.shape[i] == p.actual.shape[i]
  }

  predicate AxisAssigned(p: Provided, sizes: map<string, int>, i: nat)
    requires p.model.Tensor? && p.actual.Tensor? && |p.model.shape| == |p.actual.shape| && i < CheckedAxes(p)
  {
    p.model.symbols[i] == "" ||
    (p.model.symbols[i] in sizes && sizes[p.model.symbols[i]] == p.actual.shape[i])
  }

  /** The assignment gives every symbol of the first n axes the size of its axis. */
  predicate AssignedUpTo(p: Provided, sizes: map<string, int>, n: nat)
    requires p.model.Tensor? && p.actual.Tensor? && |p.model.shape| == |p.actual.shape| && n <= CheckedAxes(p)
  {
    forall i :: 0 <= i < n ==> AxisAssigned(p, sizes, i)
  }

  predicate Fits(p: Provided, sizes: map<string, int>) {
    FixedAxesMatch(p) && AssignedUpTo(p, sizes, CheckedAxes(p))
  }

  predicate Extends(more: map<string, int>, less: map<string, int>) {
    forall s :: s in less ==> s in more && more[s] == less[s]
  }

  /** One axis names a symbol the table holds with another size. */
  predicate Clash(p: Provided, sizes: map<string, int>, i: nat)
    requires p.model.Tensor? && p.actual.Tensor? && |p.model.shape| == |p.actual.shape| && i < CheckedAxes(p)
  {
    p.model.symbols[i] != "" && p.model.symbols[i] in sizes && sizes[p.model.symbols[i]] != p.actual.shape[i]
  }

  /** An assignment that extends the table and fits the input extends every table the loop builds on the way. */
  ghost predicate Minimal(table: map<string, int>, before: map<string, int>, p: Provided, n: nat)
    requires p.model.Tensor? && p.actual.Tensor? && |p.model.shape| == |p.actual.shape| && n <= CheckedAxes(p)
  {
    forall sizes :: Extends(sizes, before) && AssignedUpTo(p, sizes, n) ==> Extends(sizes, table)
  }

  /** Check one input and add its symbols to the table. It is accepted exactly when some assignment extends the
      table and fits it, and the new table is then the least such assignment. */
  method ValidateInputShape(p: Provided, table: SymbolTable) returns (r: Result<(), InputError>)
    modifies table
    ensures r.Ok? ==> && Fits(p, table.sizes) && Extends(table.sizes, old(table.sizes))
                      && Minimal(table.sizes, old(table.sizes), p, CheckedAxes(p))
    ensures r.Err? ==> forall sizes :: Extends(sizes, old(table.sizes)) ==> !Fits(p, sizes)
    ensures r == Err(NotTensor) <==> p.model.NotATensor? || p.actual.NotATensor?
    ensures r == Err(RankMismatch) <==> && p.model.Tensor? && p.actual.Tensor?
                                        && |p.model.shape| != |p.actual.shape|
    ensures r == Err(AxisMismatch) ==>
              exists i :: 0 <= i < Min(|p.model.shape|, |p.model.symbols|)
                          && p.model.shape[i] != -1 && p.model.shape[i] != p.actual.shape[i]
  {
    if p.model.NotATensor? || p.actual.NotATensor? {
      return Err(NotTensor);
    }
    if |p.model.shape| != |p.actual.shape| {
      return Err(RankMismatch);
    }
    ghost var before := table.sizes;
    for i := 0 to CheckedAxes(p)
      invariant forall k :: 0 <= k < i ==> p.model.shape[k] == -1 || p.model.shape[k] == p.actual.shape[k]
      invariant AssignedUpTo(p, table.sizes, i) && Extends(table.sizes, before) && Minimal(table.sizes, before, p, i)
    {
      var (expected, actual, symbol) := (p.model.shape[i], p.actual.shape[i], p.model.symbols[i]);
      if expected != -1 && expected != actual {
        return Err(AxisMismatch);
      }
      if symbol != "" {
        if symbol in table.sizes && table.sizes[symbol] != actual {
          ClashRejects(p, table.sizes, before, i);
          return Err(SymbolMismatch);
        }
        AssignAxis(p, table.sizes, before, i);
        table.sizes := table.sizes[symbol := actual];
      }
    }
    r := Ok(());
  }

  lemma ClashRejects(p: Provided, table: map<string, int>, before: map<string, int>, i: nat)
    requires p.model.Tensor? && p.actual.Tensor? && |p.model.shape| == |p.actual.shape| && i < CheckedAxes(p)
    requires Minimal(table, before, p, i) && Clash(p, table, i)
    ensures forall sizes :: Extends(sizes, before) ==> !Fits(p, sizes)
  {
    forall sizes | Extends(sizes, before) ensures !Fits(p, sizes) {
      if AssignedUpTo(p, sizes, i) {
        assert Extends(sizes, table);
        assert !AxisAssigned(p, sizes, i);
      }
    }
  }

  lemma AssignAxis(p: Provided, table: map<string, int>, before: map<string, int>, i: nat)
    requires p.model.Tensor? && p.actual.Tensor? && |p.model.shape| == |p.actual.shape| && i < CheckedAxes(p)
    requires AssignedUpTo(p, table, i) && Extends(table, before) && Minimal(table, before, p, i)
    requires p.model.symbols[i] != "" && !Clash(p, table, i)
    ensures var next := table[p.model.symbols[i] := p.actual.shape[i]];
            AssignedUpTo(p, next, i + 1) && Extends(next, before) && Minimal(next, before, p, i + 1)
  {
    var next := table[p.model.symbols[i] := p.actual.shape[i]];
    forall k | 0 <= k < i + 1 ensures AxisAssigned(p, next, k) {
      assert k < i ==> AxisAssigned(p, table, k);
    }
    forall sizes | Extends(sizes, before) && AssignedUpTo(p, sizes, i + 1) ensures Extends(sizes, next) {
      assert AxisAssigned(p, sizes, i);
      assert Extends(sizes, table);
    }
  }

  predicate FitsAll(inputs: seq<Provided>, sizes: map<string, int>) {
    forall p :: p in inputs ==> Fits(p, sizes)
  }

  /** A named axis of a model's input. */
  predicate NamesAxis(p: Provided, i: nat) {
    p.model.Tensor? && i < |p.model.shape| && i < |p.model.symbols| && p.model.symbols[i] != ""
  }

  /** Every input is a tensor of the model's rank and agrees with its fixed axes. */
  predicate RanksAndAxesFit(inputs: seq<Provided>) {
    forall a :: 0 <= a < |inputs| ==>
      && inputs[a].model.Tensor? && inputs[a].actual.Tensor?
      && |inputs[a].model.shape| == |inputs[a].actual.shape|
      && forall i :: 0 <= i < |inputs[a].model.shape| && i < |inputs[a].model.symbols| ==>
           inputs[a].model.shape[i] == -1 || inputs[a].model.shape[i] == inputs[a].actual.shape[i]
  }

  /** Axes that carry the same symbol, in one input or in two, have the same size. */
  ghost predicate SymbolsAgree(inputs: seq<Provided>)
    requires RanksAndAxesFit(inputs)
  {
    forall a, b, i, j ::
      0 <= a < |inputs| && 0 <= b < |inputs| && 0 <= i && 0 <= j
      && NamesAxis(inputs[a], i) && NamesAxis(inputs[b], j)
      && inputs[a].model.symbols[i] == inputs[b].model.symbols[j] ==>
        inputs[a].actual.shape[i] == inputs[b].actual.shape[j]
  }

  ghost predicate IsNamedBy(inputs: seq<Provided>, symbol: string, a: nat, i: nat) {
    a < |inputs| && NamesAxis(inputs[a], i) && inputs[a].model.symbols[i] == symbol
  }

  ghost function SizeOf(inputs: seq<Provided>, symbol: string): (size: int)
    requires RanksAndAxesFit(inputs) && exists a: nat, i: nat :: IsNamedBy(inputs, symbol, a, i)
    ensures exists a: nat, i: nat :: IsNamedBy(inputs, symbol, a, i) && inputs[a].actual.shape[i] == size
  {
    var a: nat, i: nat :| IsNamedBy(inputs, symbol, a, i);
    inputs[a].actual.shape[i]
  }

  ghost function Symbols(inputs: seq<Provided>): set<string> {
    set a, i | 0 <= a < |inputs| && inputs[a].model.Tensor? && 0 <= i < |inputs[a].model.symbols|
               && IsNamedBy(inputs, inputs[a].model.symbols[i], a, i) :: inputs[a].model.symbols[i]
  }

  lemma AgreeingSymbolsFit(inputs: seq<Provided>)
    requires RanksAndAxesFit(inputs) && SymbolsAgree(inputs)
    ensures exists sizes :: FitsAll(inputs, sizes)
  {
    var sizes := map s | s in Symbols(inputs) :: SizeOf(inputs, s);
    forall p | p in inputs ensures Fits(p, sizes) {
      var a: nat :| a < |inputs| && inputs[a] == p;
      forall i | 0 <= i < CheckedAxes(p) ensures AxisAssigned(p, sizes, i) {
        var symbol := p.model.symbols[i];
        if symbol != "" {
          assert IsNamedBy(inputs, symbol, a, i);
          assert symbol in Symbols(inputs);
          var b: nat, j: nat :| IsNamedBy(inputs, symbol, b, j) && inputs[b].actual.shape[j] == sizes[symbol];
        }
      }
    }
    assert FitsAll(inputs, sizes);
  }

  lemma FittingSymbolsAgree(inputs: seq<Provided>, sizes: map<string, int>)
    requires FitsAll(inputs, sizes)
    ensures RanksAndAxesFit(inputs) && SymbolsAgree(inputs)
  {
    forall a | 0 <= a < |inputs| ensures Fits(inputs[a], sizes) {
      assert inputs[a] in inputs;
    }
    forall a, b, i, j | 0 <= a < |inputs| && 0 <= b < |inputs| && 0 <= i && 0 <= j
                        && NamesAxis(inputs[a], i) && NamesAxis(inputs[b], j)
                        && inputs[a].model.symbols[i] == inputs[b].model.symbols[j]
      ensures inputs[a].actual.shape[i] == inputs[b].actual.shape[j]
    {
      assert AxisAssigned(inputs[a], sizes, i) && AxisAssigned(inputs[b], sizes, j);
    }
  }

  /** One assignment of sizes to symbols fits all inputs exactly when they fit in rank and fixed axes and any two axes
      with one symbol agree. */
  lemma PairwiseIsEnough(inputs: seq<Provided>)
    ensures (exists sizes :: FitsAll(inputs, sizes)) <==> RanksAndAxesFit(inputs) && SymbolsAgree(inputs)
  {
    if RanksAndAxesFit(inputs) && SymbolsAgree(inputs) {
      AgreeingSymbolsFit(inputs);
    }
    if sizes :| FitsAll(inputs, sizes) {
      FittingSymbolsAgree(inputs, sizes);
    }
  }

  /** Check a whole input set. It is accepted exactly when one assignment of sizes to symbols fits every axis of
      every input; the order of the inputs does not enter the condition. */
  method ValidateInputs(inputs: seq<Provided>) returns (accepted: bool)
    ensures accepted <==> exists sizes :: FitsAll(inputs, sizes)
    ensures accepted <==> RanksAndAxesFit(inputs) && SymbolsAgree(inputs)
  {
    PairwiseIsEnough(inputs);
    var table := new SymbolTable();
    for i := 0 to |inputs|
      invariant forall k :: 0 <= k < i ==> Fits(inputs[k], table.sizes)
      invariant forall sizes :: FitsAll(inputs, sizes) ==> Extends(sizes, table.sizes)
    {
      ghost var before := table.sizes;
      var r := ValidateInputShape(inputs[i], table);
      if r.Err? {
        assert inputs[i] in inputs;
        return false;
      }
      forall k | 0 <= k < i ensures Fits(inputs[k], table.sizes) {
        FitsMore(inputs[k], before, table.sizes);
      }
      forall sizes | FitsAll(inputs, sizes) ensures Extends(sizes, table.sizes) {
        assert inputs[i] in inputs;
      }
    }
    assert FitsAll(inputs, table.sizes);
    accepted := true;
  }

  lemma FitsMore(p: Provided, less: map<string, int>, more: map<string, int>)
    requires Fits(p, less) && Extends(more, less)
    ensures Fits(p, more)
  {
    forall i | 0 <= i < CheckedAxes(p) ensures AxisAssigned(p, more, i) {
      assert AxisAssigned(p, less, i);
    }
  }

  /** Two axes anywhere in an accepted set that carry the same symbol have the same size. */
  lemma SharedSymbolsAgree(inputs: seq<Provided>, sizes: map<string, int>, a: nat, i: nat, b: nat, j: nat)
    requires FitsAll(inputs, sizes) && a < |inputs| && b < |inputs|
    requires NamesAxis(inputs[a], i) && NamesAxis(inputs[b], j)
    requires inputs[a].model.symbols[i] == inputs[b].model.symbols[j]
    ensures inputs[a].actual.Tensor? && inputs[b].actual.Tensor?
    ensures i < |inputs[a].actual.shape| && j < |inputs[b].actual.shape|
    ensures inputs[a].actual.shape[i] == inputs[b].actual.shape[j]
  {
    FittingSymbolsAgree(inputs, sizes);
  }

  // ---------------------------------------------------------------- outputs

  /** A fixed model axis must agree with the declaration unless that is a wildcard. */
  predicate DimsMatch(model: seq<Option<nat>>, declared: seq<int>) {
    && |model| == |declared|
    && forall i :: 0 <= i < |model| ==> declared[i] == -1 || model[i].None? || model[i].value == declared[i]
  }

  function ReportedAxes(shape: seq<int>): (axes: seq<Option<nat>>)
    ensures |axes| == |shape|
  {
    seq(|shape|, i requires 0 <= i < |shape| => if shape[i] >= 0 then Some(shape[i]) else None)
  }

  datatype TypeError = NotTensorType | ScalarMismatch | UnsupportedAxes | DimsMismatch

  predicate SupportedAxes(shape: seq<int>) {
    shape != [] && forall i :: 0 <= i < |shape| ==> shape[i] == -1 || 0 < shape[i] <= I32_MAX
  }

  function ValidateType(value: ValueType, description: TensorDescription): Result<(), TypeError> {
    if value.NotATensor? then Err(NotTensorType)
    else if value.elementType != description.dataType then Err(ScalarMismatch)
    else if !SupportedAxes(value.shape) then Err(UnsupportedAxes)
    else if !DimsMatch(ReportedAxes(value.shape), description.dims) then Err(DimsMismatch)
    else Ok(())
  }

  /** A model's output fits a declaration exactly when it is a tensor of its type and rank, with positive 32-bit or
      dynamic axes, and no axis is fixed differently on both sides. */
  lemma ValidateTypeIff(value: ValueType, description: TensorDescription)
    ensures var r := ValidateType(value, description);
            var supported := value.Tensor? && value.shape != []
                             && forall i :: 0 <= i < |value.shape| ==>
                                  value.shape[i] == -1 || 1 <= value.shape[i] <= I32_MAX;
            && (r.Ok? <==>
                  && value.Tensor? && value.elementType == description.dataType && supported
                  && |value.shape| == |description.dims|
                  && forall i :: 0 <= i < |value.shape| ==>
                       description.dims[i] == -1 || value.shape[i] == -1 || value.shape[i] == description.dims[i])
            && (r == Err(NotTensorType) <==> value.NotATensor?)
            && (r == Err(ScalarMismatch) <==> value.Tensor? && value.elementType != description.dataType)
            && (r == Err(UnsupportedAxes) <==>
                  value.Tensor? && value.elementType == description.dataType && !supported)
  {
    if value.Tensor? && SupportedAxes(value.shape) {
      var axes := ReportedAxes(value.shape);
      forall i | 0 <= i < |value.shape|
        ensures axes[i] == if value.shape[i] == -1 then None else Some(value.shape[i])
      {
        assert value.shape[i] == -1 || value.shape[i] > 0;
      }
    }
  }

  /** Replace each declared wildcard by the model's axis, which may be dynamic too. Here `-1` is the only negative
      axis and every other one fits 32 bits, since the type check came first. */
  method ConstrainOutput(declared: array<int>, shape: seq<int>)
    requires SupportedAxes(shape) && declared.Length == |shape|
    modifies declared
    ensures declared[..] == Constrained(old(declared[..]), shape)
  {
    for i := 0 to declared.Length
      invariant forall k :: 0 <= k < i ==> declared[k] == ConstrainedAxis(old(declared[k]), shape[k])
      invariant forall k :: i <= k < declared.Length ==> declared[k] == old(declared[k])
    {
      if declared[i] == -1 {
        declared[i] := shape[i];
      }
    }
  }

  function ConstrainedAxis(declared: int, model: int): int { if declared == -1 then model else declared }

  function Constrained(declared: seq<int>, shape: seq<int>): (r: seq<int>)
    requires |declared| == |shape|
    ensures |r| == |declared|
  {
    seq(|declared|, i requires 0 <= i < |declared| => ConstrainedAxis(declared[i], shape[i]))
  }

  function Constrain(description: TensorDescription, model: ValueType): TensorDescription
    requires ValidateType(model, description).Ok?
  {
    description.(dims := Constrained(description.dims, model.shape))
  }

  /** The shape agrees with every fixed axis. */
  predicate FitsModel(shape: seq<int>, dims: seq<nat>) {
    |shape| == |dims| && forall i :: 0 <= i < |dims| ==> shape[i] == -1 || shape[i] == dims[i]
  }

  /** The constrained description is the meet: it validates exactly the shapes that validate against the declaration
      and agree with every fixed axis of the model, at the same byte size. */
  lemma ConstraintIsAMeet(description: TensorDescription, model: ValueType, dims: seq<nat>)
    requires ValidateType(model, description).Ok?
    ensures var both := ValidateDims(Constrain(description, model), dims);
            both == if FitsModel(model.shape, dims) then ValidateDims(description, dims) else Err(AxesMismatch)
  {
    var c := Constrain(description, model);
    ReportedFixed(model.shape, description.dims);
    if AxesMatch(c.dims, dims) {
      forall i | 0 <= i < |dims|
        ensures AxisMatches(description.dims[i], dims[i]) && (model.shape[i] == -1 || model.shape[i] == dims[i])
      {
        assert AxisMatches(c.dims[i], dims[i]);
      }
    }
    if AxesMatch(description.dims, dims) && FitsModel(model.shape, dims) {
      forall i | 0 <= i < |dims| ensures AxisMatches(c.dims[i], dims[i]) {
        assert AxisMatches(description.dims[i], dims[i]);
      }
    }
  }

  lemma ReportedFixed(shape: seq<int>, declared: seq<int>)
    requires SupportedAxes(shape) && DimsMatch(ReportedAxes(shape), declared)
    ensures |shape| == |declared|
    ensures forall i :: 0 <= i < |shape| ==> declared[i] == -1 || shape[i] == -1 || declared[i] == shape[i]
  {
    forall i | 0 <= i < |shape| ensures declared[i] == -1 || shape[i] == -1 || declared[i] == shape[i] {
      assert declared[i] == -1 || ReportedAxes(shape)[i].None? || ReportedAxes(shape)[i].value == declared[i];
    }
  }

  /** The check of one returned output: its type and shape against the constrained description. */
  function CheckOutput(value: ValueType, description: TensorDescription): Option<nat> {
    if ValidateType(value, description).Err? then None
    else if exists i :: 0 <= i < |value.shape| && value.shape[i] < 0 then None
    else
      var size := ValidateDims(description, value.shape);
      if size.Ok? then Some(size.value) else None
  }

  /** A returned output is accepted exactly when its element type and every axis satisfy both the declaration and
      the model, and its bytes fit an allocation. */
  lemma ReturnedOutputIff(description: TensorDescription, model: ValueType, value: ValueType)
    requires ValidateType(model, description).Ok?
    ensures var r := CheckOutput(value, Constrain(description, model));
            r.Some? <==>
              && value.Tensor? && value.elementType == description.dataType
              && (forall i :: 0 <= i < |value.shape| ==> value.shape[i] >= 0)
              && FitsModel(model.shape, value.shape)
              && AxesMatch(description.dims, value.shape) && ValidAxes(value.shape)
              && description.dataType.Size() * Product(value.shape) <= ISIZE_MAX
  {
    if value.Tensor? && forall i :: 0 <= i < |value.shape| ==> value.shape[i] >= 0 {
      var c := Constrain(description, model);
      var dims: seq<nat> := value.shape;
      ConstraintIsAMeet(description, model, dims);
      ValidateDimsIff(description, dims);
      if ValidateDims(c, dims).Ok? {
        assert AxesMatch(c.dims, dims) && ValidAxes(dims);
        forall i | 0 <= i < |dims|
          ensures c.dims[i] == -1 || ReportedAxes(value.shape)[i].value == c.dims[i]
          ensures 0 < value.shape[i] <= I32_MAX
        {
          assert AxisMatches(c.dims[i], dims[i]) && ValidAxis(dims[i]);
        }
      }
    }
  }
}
