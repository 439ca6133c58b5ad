/** The static methods of class MeshAnalyzer in app.py: parameter validation,
    the three-mesh solve and the interpretation of the loop currents. */
module MeshAnalyzer {
  import opened Wrappers
  import opened Linear3

  // ---------------------------------------------------------------------
  // Parameter validation (validate_parameters)
  // ---------------------------------------------------------------------

  /** A parameter value: a finite real number, or one of the three IEEE
      values that are not finite. They differ under comparison: NaN compares
      false with everything, and the infinities compare as their sign says. */
  datatype Value = Num(x: real) | NaN | PosInfinity | NegInfinity

  /** One item of the insertion-ordered parameter mapping. */
  datatype Entry = Entry(key: string, value: Value)

  /** The ValueError raised by validate_parameters, by cause. */
  datatype ParamError =
    | InvalidNumber(key: string)        // "Debe ser un número válido"
    | NotPositive(key: string)          // "Debe ser un valor positivo"
    | ResistanceOutOfRange(key: string) // "Resistencia debe estar entre ..."
    | VoltageOutOfRange(key: string)    // "Voltaje debe estar entre ..."
  {
    function Key(): string
    {
      match this
      case InvalidNumber(k) => k
      case NotPositive(k) => k
      case ResistanceOutOfRange(k) => k
      case VoltageOutOfRange(k) => k
    }
  }

  /** RESISTANCE_RANGE, in ohms, both ends inclusive. */
  const ResistanceMin: real := 0.01
  const ResistanceMax: real := 1000.0
  /** VOLTAGE_RANGE, in volts, both ends inclusive. */
  const VoltageMin: real := 1.0
  const VoltageMax: real := 500.0

  predicate StartsWith(key: string, c: char)
  {
    |key| > 0 && key[0] == c
  }

  /** What a valid entry is, stated independently of the order of checks. */
  predicate EntryValid(e: Entry)
  {
    && e.value.Num?
    && e.value.x > 0.0
    && (StartsWith(e.key, 'R') ==> ResistanceMin <= e.value.x <= ResistanceMax)
    && (StartsWith(e.key, 'V') ==> VoltageMin <= e.value.x <= VoltageMax)
  }

  /** The checks of one loop iteration, in the source's order. */
  function CheckEntry(e: Entry): (r: Option<ParamError>)
    ensures r.None? <==> EntryValid(e)
    ensures r.Some? ==> r.value.Key() == e.key
    ensures r == Some(InvalidNumber(e.key)) <==> !e.value.Num?
    ensures r == Some(NotPositive(e.key)) <==> e.value.Num? && e.value.x <= 0.0
    ensures r == Some(ResistanceOutOfRange(e.key))
            <==> && e.value.Num? && e.value.x > 0.0 && StartsWith(e.key, 'R')
                 && !(ResistanceMin <= e.value.x <= ResistanceMax)
    ensures r == Some(VoltageOutOfRange(e.key))
            <==> && e.value.Num? && e.value.x > 0.0 && !StartsWith(e.key, 'R') && StartsWith(e.key, 'V')
                 && !(VoltageMin <= e.value.x <= VoltageMax)
  {
    match e.value
    case NaN => Some(InvalidNumber(e.key))
    case PosInfinity => Some(InvalidNumber(e.key))
    case NegInfinity => Some(InvalidNumber(e.key))
    case Num(x) =>
      if x <= 0.0 then Some(NotPositive(e.key))
      else if StartsWith(e.key, 'R') then
        (if ResistanceMin <= x <= ResistanceMax then None else Some(ResistanceOutOfRange(e.key)))
      else if StartsWith(e.key, 'V') then
        (if VoltageMin <= x <= VoltageMax then None else Some(VoltageOutOfRange(e.key)))
      else None
  }

  /** validate_parameters as a value: the error of the first entry, in
      iteration order, that fails its checks. */
  function Validate(params: seq<Entry>): (r: Outcome<ParamError>)
    ensures r.Pass? <==> forall i :: 0 <= i < |params| ==> EntryValid(params[i])
  {
    if |params| == 0 then Pass
    else match CheckEntry(params[0])
      case Some(err) => Fail(err)
      case None =>
        var rest := Validate(params[1..]);
        assert forall i :: 1 <= i < |params| ==> params[i] == params[1..][i - 1];
        rest
  }

  /** Validation reports the first offending entry: every entry before it
      passes, and the error is that entry's own. */
  lemma {:induction false} ValidateReportsFirstFailure(params: seq<Entry>)
    requires Validate(params).Fail?
    ensures exists k :: 0 <= k < |params| && FirstFailureAt(params, k, Validate(params).error)
  {
    if CheckEntry(params[0]).Some? {
      assert FirstFailureAt(params, 0, Validate(params).error);
    } else {
      ValidateReportsFirstFailure(params[1..]);
      var k :| 0 <= k < |params[1..]| && FirstFailureAt(params[1..], k, Validate(params[1..]).error);
      assert FirstFailureAt(params, k + 1, Validate(params).error);
    }
  }

  predicate FirstFailureAt(params: seq<Entry>, k: int, err: ParamError)
    requires 0 <= k < |params|
  {
    && (forall i :: 0 <= i < k ==> EntryValid(params[i]))
    && CheckEntry(params[k]) == Some(err)
  }

  /** The validation loop of validate_parameters: walks the entries in order
      and stops at the first one that fails. */
  method ValidateParameters(params: seq<Entry>) returns (r: Outcome<ParamError>)
    ensures r == Validate(params)
    ensures r.Pass? <==> forall i :: 0 <= i < |params| ==> EntryValid(params[i])
    ensures r.Fail? ==> exists k :: 0 <= k < |params| && FirstFailureAt(params, k, r.error)
  {
    var i := 0;
    while i < |params|
      invariant 0 <= i <= |params|
      invariant forall j :: 0 <= j < i ==> EntryValid(params[j])
      invariant Validate(params) == Validate(params[i..])
    {
      var check := CheckEntry(params[i]);
      if check.Some? {
        r := Fail(check.value);
        assert FirstFailureAt(params, i, r.error);
        return;
      }
      assert params[i..][1..] == params[i + 1..];
      i := i + 1;
    }
    r := Pass;
  }

  // ---------------------------------------------------------------------
  // Mesh solve (calcular_corrientes)
  // ---------------------------------------------------------------------

  /** The nine arguments of calcular_corrientes: six branch resistances
      (ohms) and three source voltages (volts). */
  datatype Circuit = Circuit(r1: real, r2: real, r3: real, r4: real, r5: real, r6: real,
                             v1: real, v2: real, v3: real)

  /** The nine parameter names, in the order calcular_corrientes validates them. */
  const ParameterNames: seq<string> := ["R1", "R2", "R3", "R4", "R5", "R6", "V1", "V2", "V3"]

  function Keys(p: seq<Entry>): (ks: seq<string>)
    ensures |ks| == |p| && forall i :: 0 <= i < |p| ==> ks[i] == p[i].key
  {
    seq(|p|, i requires 0 <= i < |p| => p[i].key)
  }

  /** The mapping built before validation, in the order R1..R6, V1..V3. */
  function Params(c: Circuit): (p: seq<Entry>)
    ensures Keys(p) == ParameterNames
  {
    [Entry("R1", Num(c.r1)), Entry("R2", Num(c.r2)), Entry("R3", Num(c.r3)),
     Entry("R4", Num(c.r4)), Entry("R5", Num(c.r5)), Entry("R6", Num(c.r6)),
     Entry("V1", Num(c.v1)), Entry("V2", Num(c.v2)), Entry("V3", Num(c.v3))]
  }

  /** The mesh-resistance matrix: R4 is shared by meshes 1 and 2, R5 by
      meshes 2 and 3, R6 by meshes 1 and 3; R1, R2, R3 are each mesh's own. */
  function CoefficientMatrix(c: Circuit): (a: Mat3)
    ensures Symmetric(a)
    ensures MatVec(a, Vec3(1.0, 1.0, 1.0)) == Vec3(c.r1, c.r2, c.r3)
  {
    Mat3(Vec3(c.r1 + c.r4 + c.r6, -c.r4, -c.r6),
         Vec3(-c.r4, c.r2 + c.r4 + c.r5, -c.r5),
         Vec3(-c.r6, -c.r5, c.r3 + c.r5 + c.r6))
  }

  /** B: the sources, in the order of the validated V1, V2, V3 entries. */
  function VoltageVector(c: Circuit): (b: Vec3)
    ensures Params(c)[6] == Entry("V1", Num(b.x))
    ensures Params(c)[7] == Entry("V2", Num(b.y))
    ensures Params(c)[8] == Entry("V3", Num(b.z))
  {
    Vec3(c.v1, c.v2, c.v3)
  }

  /** |det A| below this is treated as singular. */
  const SingularThreshold: real := 0.0000000001
  /** A largest current above this many amperes draws a warning. */
  const MaxPlausibleCurrent: real := 1000.0

  /** A successful solve: the loop currents, the A and B used, and whether
      the warning about implausibly high current was raised. */
  datatype Solution = Solution(currents: Vec3, a: Mat3, b: Vec3, highCurrent: bool)

  datatype SolveError = InvalidParameter(cause: ParamError) | SingularSystem

  /** calcular_corrientes: validate, build A and B, reject a (near-)singular
      A, solve A·I = B. */
  function CalcularCorrientes(c: Circuit): (r: Result<Solution, SolveError>)
    ensures Validate(Params(c)).Fail? ==> r == Failure(InvalidParameter(Validate(Params(c)).error))
    ensures r == Failure(SingularSystem)
            <==> Validate(Params(c)).Pass? && Abs(Det(CoefficientMatrix(c))) < SingularThreshold
    ensures r.Success? ==> && r.value.a == CoefficientMatrix(c)
                           && r.value.b == VoltageVector(c)
                           && MatVec(r.value.a, r.value.currents) == r.value.b
                           && r.value.highCurrent == (MaxAbs(r.value.currents) > MaxPlausibleCurrent)
  {
    match Validate(Params(c))
    case Fail(err) => Failure(InvalidParameter(err))
    case Pass =>
      var a, b := CoefficientMatrix(c), VoltageVector(c);
      if Abs(Det(a)) < SingularThreshold then Failure(SingularSystem)
      else
        var currents := Cramer(a, b);
        Success(Solution(currents, a, b, MaxAbs(currents) > MaxPlausibleCurrent))
  }

  /** Each mesh's diagonal entry is its own resistance plus the magnitudes of
      the off-diagonal entries of its row, and A is symmetric. */
  lemma CoefficientMatrixShape(c: Circuit)
    requires c.r4 >= 0.0 && c.r5 >= 0.0 && c.r6 >= 0.0
    ensures var a := CoefficientMatrix(c);
      && Symmetric(a)
      && a.r1.x == c.r1 + Abs(a.r1.y) + Abs(a.r1.z)
      && a.r2.y == c.r2 + Abs(a.r2.x) + Abs(a.r2.z)
      && a.r3.z == c.r3 + Abs(a.r3.x) + Abs(a.r3.y)
      && a.r1.y <= 0.0 && a.r1.z <= 0.0 && a.r2.z <= 0.0
  {
  }

  /** Row k of A·I = B is Kirchhoff's voltage law around mesh k: the drop
      across the mesh's own branch carries its current, a shared branch
      carries the difference of the two mesh currents, and the drops add up
      to the mesh's source voltage. */
  lemma KirchhoffVoltageLaw(c: Circuit, i: Vec3)
    ensures MatVec(CoefficientMatrix(c), i) == VoltageVector(c) <==>
      && c.r1 * i.x + c.r4 * (i.x - i.y) + c.r6 * (i.x - i.z) == c.v1
      && c.r2 * i.y + c.r4 * (i.y - i.x) + c.r5 * (i.y - i.z) == c.v2
      && c.r3 * i.z + c.r5 * (i.z - i.y) + c.r6 * (i.z - i.x) == c.v3
  {
  }

  /** det A as a sum of sixteen products of three resistances, none of which
      is subtracted. */
  function MeshDeterminant(c: Circuit): real
  {
    var a, b, cc, d, e, f := c.r1, c.r2, c.r3, c.r4, c.r5, c.r6;
    a * (b * cc + b * e + b * f + cc * d + d * e + d * f + cc * e + e * f)
    + b * cc * d + b * d * e + b * d * f + cc * d * e
    + b * cc * f + b * e * f + cc * d * f + cc * e * f
  }

  lemma DeterminantExpansion(c: Circuit)
    ensures Det(CoefficientMatrix(c)) == MeshDeterminant(c)
  {
  }

  /** Positive resistances give a positive determinant (A is strictly
      diagonally dominant with a positive diagonal). */
  lemma MeshDeterminantPositive(c: Circuit)
    requires c.r1 > 0.0 && c.r2 > 0.0 && c.r3 > 0.0 && c.r4 > 0.0 && c.r5 > 0.0 && c.r6 > 0.0
    ensures Det(CoefficientMatrix(c)) >= c.r1 * c.r2 * c.r3 > 0.0
  {
    DeterminantExpansion(c);
    var a, b, cc, d, e, f := c.r1, c.r2, c.r3, c.r4, c.r5, c.r6;
    var rest := a * b * e + a * b * f + a * cc * d + a * d * e + a * d * f + a * cc * e + a * e * f
                + b * cc * d + b * d * e + b * d * f + cc * d * e + b * cc * f + b * e * f
                + cc * d * f + cc * e * f;
    assert MeshDeterminant(c) == a * b * cc + rest;
    Product3Positive(a, b, cc);
    Product3Positive(a, b, e); Product3Positive(a, b, f); Product3Positive(a, cc, d);
    Product3Positive(a, d, e); Product3Positive(a, d, f); Product3Positive(a, cc, e);
    Product3Positive(a, e, f);
    Product3Positive(b, cc, d); Product3Positive(b, d, e); Product3Positive(b, d, f);
    Product3Positive(cc, d, e); Product3Positive(b, cc, f); Product3Positive(b, e, f);
    Product3Positive(cc, d, f); Product3Positive(cc, e, f);
    assert rest > 0.0;
  }

  lemma Product3Positive(x: real, y: real, z: real)
    requires x > 0.0 && y > 0.0 && z > 0.0
    ensures x * y * z > 0.0
  {
    assert x * y > 0.0;
  }

  /** Every validated circuit has det A >= 10^-6, far above the singularity
      threshold: the singular-system error is unreachable after validation. */
  lemma ValidatedDeterminantAboveThreshold(c: Circuit)
    requires Validate(Params(c)).Pass?
    ensures Det(CoefficientMatrix(c)) >= 0.000001 > SingularThreshold
  {
    var p := Params(c);
    assert EntryValid(p[0]) && EntryValid(p[1]) && EntryValid(p[2]);
    assert EntryValid(p[3]) && EntryValid(p[4]) && EntryValid(p[5]);
    MeshDeterminantPositive(c);
    assert c.r1 >= 0.01 && c.r2 >= 0.01 && c.r3 >= 0.01;
    assert c.r1 * c.r2 >= 0.0001 by {
      assert c.r1 * c.r2 >= 0.01 * c.r2;
    }
    assert c.r1 * c.r2 * c.r3 >= 0.0001 * c.r3;
  }

  /** calcular_corrientes succeeds exactly on the inputs that pass validation. */
  lemma SolveSucceedsIffValid(c: Circuit)
    ensures CalcularCorrientes(c).Success? <==> Validate(Params(c)).Pass?
  {
    if Validate(Params(c)).Pass? {
      ValidatedDeterminantAboveThreshold(c);
    }
  }

  /** The returned currents are the only solution of A·I = B. */
  lemma SolutionIsUnique(c: Circuit, i: Vec3)
    requires CalcularCorrientes(c).Success?
    requires MatVec(CoefficientMatrix(c), i) == VoltageVector(c)
    ensures i == CalcularCorrientes(c).value.currents
  {
    CramerUnique(CoefficientMatrix(c), VoltageVector(c), i);
  }

  /** The high-current flag is advisory: it never turns a solve into an error. */
  lemma HighCurrentIsOnlyAWarning(c: Circuit)
    requires Validate(Params(c)).Pass?
    ensures CalcularCorrientes(c).Success?
    ensures CalcularCorrientes(c).value.currents == Cramer(CoefficientMatrix(c), VoltageVector(c))
  {
    ValidatedDeterminantAboveThreshold(c);
  }

  // ---------------------------------------------------------------------
  // Interpretation (interpretar_corrientes)
  // ---------------------------------------------------------------------

  /** The three meshes; their labels are I1, I2, I3. */
  datatype Mesh = I1 | I2 | I3

  /** The fixed room zone of each mesh. */
  datatype Zone = LivingDining | KitchenLaundry | Bedrooms

  function ZoneOf(m: Mesh): Zone
  {
    match m
    case I1 => LivingDining
    case I2 => KitchenLaundry
    case I3 => Bedrooms
  }

  /** "horario" / "antihorario". */
  datatype Direction = Clockwise | CounterClockwise

  /** The load bands of a non-negligible current. */
  datatype LoadBand = Low | Normal | High | Critical

  /** The interpretation of one current: a negligible current carries neither
      magnitude nor direction. */
  datatype Interpretation =
    | Negligible(zone: Zone)
    | Load(zone: Zone, magnitude: real, direction: Direction, band: LoadBand)

  const NegligibleBelow: real := 0.001

  /** The smallest magnitude of each band, and the one where the next begins. */
  function BandFloor(b: LoadBand): real
  {
    match b
    case Low => NegligibleBelow
    case Normal => 1.0
    case High => 10.0
    case Critical => 50.0
  }

  function Severity(r: Interpretation): nat
  {
    match r
    case Negligible(_) => 0
    case Load(_, _, _, b) => match b case Low => 1 case Normal => 2 case High => 3 case Critical => 4
  }

  /** One iteration of the interpretation loop. */
  function Interpret(m: Mesh, current: real): (r: Interpretation)
    ensures r.zone == ZoneOf(m)
    ensures r.Negligible? <==> Abs(current) < NegligibleBelow
    ensures r.Load? ==> r.magnitude == Abs(current) && (r.direction == Clockwise <==> current > 0.0)
  {
    var magnitude := Abs(current);
    var direction := if current > 0.0 then Clockwise else CounterClockwise;
    if magnitude < NegligibleBelow then Negligible(ZoneOf(m))
    else if magnitude < 1.0 then Load(ZoneOf(m), magnitude, direction, Low)
    else if magnitude < 10.0 then Load(ZoneOf(m), magnitude, direction, Normal)
    else if magnitude < 50.0 then Load(ZoneOf(m), magnitude, direction, High)
    else Load(ZoneOf(m), magnitude, direction, Critical)
  }

  /** The bands partition the magnitudes: a current lands in band b exactly
      when its magnitude is at least b's floor and below the next floor. */
  lemma InterpretBands(m: Mesh, current: real)
    ensures Interpret(m, current).zone == ZoneOf(m)
    ensures Interpret(m, current).Negligible? <==> Abs(current) < NegligibleBelow
    ensures Interpret(m, current).Load? ==>
      && Interpret(m, current).magnitude == Abs(current)
      && BandFloor(Interpret(m, current).band) <= Abs(current)
      && forall b: LoadBand :: BandFloor(b) > BandFloor(Interpret(m, current).band)
                               ==> Abs(current) < BandFloor(b)
  {
  }

  /** A larger current never gets a milder interpretation. */
  lemma InterpretMonotone(m: Mesh, x: real, y: real)
    requires Abs(x) <= Abs(y)
    ensures Severity(Interpret(m, x)) <= Severity(Interpret(m, y))
  {
  }

  /** A non-negligible current is clockwise iff positive and counter-clockwise
      iff negative; zero is negligible, so it never shows a direction. */
  lemma InterpretDirection(m: Mesh, current: real)
    ensures current == 0.0 ==> Interpret(m, current).Negligible?
    ensures Interpret(m, current).Load? ==>
      && (Interpret(m, current).direction == Clockwise <==> current > 0.0)
      && (Interpret(m, current).direction == CounterClockwise <==> current < 0.0)
  {
  }

  /** Reversing a current keeps its band and magnitude and reverses its
      direction. */
  lemma InterpretReversal(m: Mesh, current: real)
    ensures Severity(Interpret(m, -current)) == Severity(Interpret(m, current))
    ensures Interpret(m, current).Load? ==>
      && Interpret(m, -current).magnitude == Interpret(m, current).magnitude
      && Interpret(m, -current).direction != Interpret(m, current).direction
  {
  }

  /** interpretar_corrientes: fills the interpretation mapping one mesh at a
      time. */
  method InterpretarCorrientes(i1: real, i2: real, i3: real) returns (r: map<Mesh, Interpretation>)
    ensures r.Keys == {I1, I2, I3}
    ensures r[I1] == Interpret(I1, i1) && r[I2] == Interpret(I2, i2) && r[I3] == Interpret(I3, i3)
  {
    var meshes := [I1, I2, I3];
    var currents := [i1, i2, i3];
    r := map[];
    var k := 0;
    while k < 3
      invariant 0 <= k <= 3
      invariant r.Keys == set j | 0 <= j < k :: meshes[j]
      invariant forall j :: 0 <= j < k ==> r[meshes[j]] == Interpret(meshes[j], currents[j])
    {
      r := r[meshes[k] := Interpret(meshes[k], currents[k])];
      k := k + 1;
    }
    assert meshes[0] in r && meshes[1] in r && meshes[2] in r;
  }

  /** The worked case (0.0005, 15, 60): negligible, high, critical. */
  lemma InterpretExample()
    ensures Interpret(I1, 0.0005) == Negligible(LivingDining)
    ensures Interpret(I2, 15.0) == Load(KitchenLaundry, 15.0, Clockwise, High)
    ensures Interpret(I3, 60.0) == Load(Bedrooms, 60.0, Clockwise, Critical)
  {
  }
}
