/** app_clean.py: the earlier version of the application. Its solver builds
    the same mesh matrix but validates nothing and only fails on an exactly
    singular matrix; its form handling overlays non-empty fields verbatim and
    then only checks that every value is positive. */
module AppClean {
  import opened Wrappers
  import opened Linear3
  import opened MeshAnalyzer
  import App

  /** The messages the page can show, by cause. */
  datatype CleanError =
    | NonNumericInput           // "Por favor, ingresa valores numéricos válidos."
    | NotPositiveValue(key: string) // "El valor de {key} debe ser positivo"
    | NoUniqueSolution          // "El sistema no tiene solución única"

  /** The tuple (I1, I2, I3, A, B) of a successful solve. */
  datatype CleanSolution = CleanSolution(currents: Vec3, a: Mat3, b: Vec3)

  // ---------------------------------------------------------------------
  // calcular_corrientes
  // ---------------------------------------------------------------------

  /** calcular_corrientes of app_clean.py: np.linalg.solve raises only on a
      singular matrix, which over the reals is det A = 0. */
  function SolveCurrents(c: Circuit): (r: Result<CleanSolution, CleanError>)
    ensures r.Failure? <==> Det(CoefficientMatrix(c)) == 0.0
    ensures r.Failure? ==> r.error == NoUniqueSolution
    ensures r.Success? ==> && r.value.a == CoefficientMatrix(c)
                           && r.value.b == VoltageVector(c)
                           && MatVec(r.value.a, r.value.currents) == r.value.b
  {
    var a, b := CoefficientMatrix(c), VoltageVector(c);
    if Det(a) == 0.0 then Failure(NoUniqueSolution)
    else Success(CleanSolution(Cramer(a, b), a, b))
  }

  /** On every input that app.py's validation admits, both solvers succeed
      with the same currents, matrix and vector. */
  lemma SolversAgreeOnValidInput(c: Circuit)
    requires Validate(Params(c)).Pass?
    ensures SolveCurrents(c).Success? && MeshAnalyzer.CalcularCorrientes(c).Success?
    ensures SolveCurrents(c).value.currents == MeshAnalyzer.CalcularCorrientes(c).value.currents
    ensures SolveCurrents(c).value.a == MeshAnalyzer.CalcularCorrientes(c).value.a
    ensures SolveCurrents(c).value.b == MeshAnalyzer.CalcularCorrientes(c).value.b
  {
    ValidatedDeterminantAboveThreshold(c);
    var a, b := CoefficientMatrix(c), VoltageVector(c);
    CramerUnique(a, b, SolveCurrents(c).value.currents);
  }

  /** Where the two versions differ: a 5000-ohm shared branch is solved here
      and rejected as out of range by app.py. */
  lemma RangeCheckOnlyInApp()
    ensures var c := Circuit(0.5, 0.7, 0.6, 5000.0, 15.0, 25.0, 120.0, 220.0, 120.0);
      && SolveCurrents(c).Success?
      && MeshAnalyzer.CalcularCorrientes(c) == Failure(InvalidParameter(ResistanceOutOfRange("R4")))
  {
    var c := Circuit(0.5, 0.7, 0.6, 5000.0, 15.0, 25.0, 120.0, 220.0, 120.0);
    var p := Params(c);
    assert Validate(p[3..]) == Fail(ResistanceOutOfRange("R4"));
    assert Validate(p[2..]) == Validate(p[3..]) by { assert p[2..][1..] == p[3..]; }
    assert Validate(p[1..]) == Validate(p[2..]) by { assert p[1..][1..] == p[2..]; }
    DeterminantExpansion(c);
  }

  /** With every resistance zero the matrix is exactly singular: here that is
      the no-unique-solution error, in app.py it is stopped by validation. */
  lemma ZeroResistancesAreSingular(c: Circuit)
    requires c.r1 == c.r2 == c.r3 == c.r4 == c.r5 == c.r6 == 0.0
    ensures SolveCurrents(c) == Failure(NoUniqueSolution)
    ensures MeshAnalyzer.CalcularCorrientes(c) == Failure(InvalidParameter(NotPositive("R1")))
  {
    assert Validate(Params(c)) == Fail(NotPositive("R1")) by {
      assert Params(c)[0] == Entry("R1", Num(0.0));
    }
    assert SolveCurrents(c) == Failure(NoUniqueSolution) by {
      DeterminantExpansion(c);
      assert MeshDeterminant(c) == 0.0;
    }
  }

  /** With no source voltage the only solution is zero current in every mesh. */
  lemma NoSourcesNoCurrent(c: Circuit)
    requires c.v1 == 0.0 && c.v2 == 0.0 && c.v3 == 0.0
    requires SolveCurrents(c).Success?
    ensures SolveCurrents(c).value.currents == Vec3(0.0, 0.0, 0.0)
  {
    var zero := Vec3(0.0, 0.0, 0.0);
    assert MatVec(CoefficientMatrix(c), zero) == VoltageVector(c);
    CramerUnique(CoefficientMatrix(c), VoltageVector(c), zero);
  }

  // ---------------------------------------------------------------------
  // The two loops of home
  // ---------------------------------------------------------------------

  /** One iteration of the overlay loop: a missing or empty field keeps the
      entry; any other text goes to float() unchanged; None when it raises. */
  function OverlaidVerbatim(form: map<string, string>, e: Entry, toFloat: string -> Option<Value>): (r: Option<Entry>)
    ensures r.Some? ==> r.value.key == e.key
    ensures (e.key !in form || form[e.key] == []) ==> r == Some(e)
    ensures r.None? <==> e.key in form && form[e.key] != [] && toFloat(form[e.key]).None?
    ensures e.key in form && form[e.key] != [] && toFloat(form[e.key]).Some? ==>
      r == Some(Entry(e.key, toFloat(form[e.key]).value))
  {
    if e.key !in form || form[e.key] == [] then Some(e)
    else match toFloat(form[e.key])
      case None => None
      case Some(v) => Some(Entry(e.key, v))
  }

  /** The index of the first field whose conversion raises, or |defaults|. */
  function FirstConversionFailure(form: map<string, string>, defaults: seq<Entry>,
                                  toFloat: string -> Option<Value>): (n: nat)
    ensures n <= |defaults|
    ensures forall i :: 0 <= i < n ==> OverlaidVerbatim(form, defaults[i], toFloat).Some?
    ensures n < |defaults| ==> OverlaidVerbatim(form, defaults[n], toFloat).None?
  {
    if |defaults| == 0 then 0
    else if OverlaidVerbatim(form, defaults[0], toFloat).None? then 0
    else
      var n := FirstConversionFailure(form, defaults[1..], toFloat);
      assert forall i :: 1 <= i <= n ==> defaults[i] == defaults[1..][i - 1];
      1 + n
  }

  /** The overlay loop of home: fields are neither stripped nor rewritten. */
  method OverlayForm(form: map<string, string>, defaults: seq<Entry>, toFloat: string -> Option<Value>)
    returns (vals: seq<Entry>, err: Option<CleanError>)
    ensures |vals| == |defaults| && Keys(vals) == Keys(defaults)
    ensures forall i :: 0 <= i < |vals| ==>
      vals[i] == if i < FirstConversionFailure(form, defaults, toFloat)
                 then OverlaidVerbatim(form, defaults[i], toFloat).value else defaults[i]
    ensures err.None? <==> FirstConversionFailure(form, defaults, toFloat) == |defaults|
    ensures err.Some? ==> err.value == NonNumericInput
  {
    ghost var n := FirstConversionFailure(form, defaults, toFloat);
    vals := defaults;
    err := None;
    var i := 0;
    while i < |vals|
      invariant 0 <= i <= |vals| == |defaults|
      invariant i <= n
      invariant forall j :: 0 <= j < |vals| ==>
        vals[j] == if j < i then OverlaidVerbatim(form, defaults[j], toFloat).value else defaults[j]
    {
      assert vals[i] == defaults[i];
      var key := vals[i].key;
      if key in form && form[key] != [] {
        var converted := toFloat(form[key]);
        if converted.None? {
          err := Some(NonNumericInput);
          return;
        }
        vals := vals[i := Entry(key, converted.value)];
      }
      i := i + 1;
    }
    assert Keys(vals) == Keys(defaults);
  }

  /** `value <= 0` is false for NaN and for +inf and true for -inf, so a
      finite value at most zero and -inf are refused, NaN and +inf pass. */
  predicate PassesPositivity(v: Value): (r: bool)
    ensures v.Num? ==> (r <==> v.x > 0.0)
    ensures (v.NaN? || v.PosInfinity?) ==> r
    ensures v.NegInfinity? ==> !r
  {
    match v
    case Num(x) => !(x <= 0.0)
    case NaN => true
    case PosInfinity => true
    case NegInfinity => false
  }

  /** The positivity loop as a value: the first entry at most zero. */
  function PositivityCheck(vals: seq<Entry>): (r: Option<CleanError>)
    ensures r.None? <==> forall i :: 0 <= i < |vals| ==> PassesPositivity(vals[i].value)
    ensures r.Some? ==> exists k :: 0 <= k < |vals| && r.value == NotPositiveValue(vals[k].key)
                                    && !PassesPositivity(vals[k].value)
                                    && forall i :: 0 <= i < k ==> PassesPositivity(vals[i].value)
  {
    if |vals| == 0 then None
    else if !PassesPositivity(vals[0].value) then Some(NotPositiveValue(vals[0].key))
    else
      var rest := PositivityCheck(vals[1..]);
      assert forall i :: 1 <= i < |vals| ==> vals[i] == vals[1..][i - 1];
      rest
  }

  /** The positivity loop of home, stopping at the first value at most zero. */
  method CheckPositive(vals: seq<Entry>) returns (err: Option<CleanError>)
    ensures err == PositivityCheck(vals)
  {
    var i := 0;
    while i < |vals|
      invariant 0 <= i <= |vals|
      invariant PositivityCheck(vals) == PositivityCheck(vals[i..])
    {
      if !PassesPositivity(vals[i].value) {
        return Some(NotPositiveValue(vals[i].key));
      }
      assert vals[i..][1..] == vals[i + 1..];
      i := i + 1;
    }
    err := None;
  }

  /** Whatever app.py's validation admits passes this check, but not the
      other way round: NaN and +inf pass here, while -inf is refused by both. */
  lemma PositivityWeakerThanValidation(vals: seq<Entry>)
    ensures Validate(vals).Pass? ==> PositivityCheck(vals).None?
    ensures var nan := [Entry("R1", NaN)];
      PositivityCheck(nan).None? && Validate(nan) == Fail(InvalidNumber("R1"))
    ensures var inf := [Entry("R1", PosInfinity)];
      PositivityCheck(inf).None? && Validate(inf) == Fail(InvalidNumber("R1"))
    ensures var ninf := [Entry("R1", NegInfinity)];
      PositivityCheck(ninf) == Some(NotPositiveValue("R1")) && Validate(ninf) == Fail(InvalidNumber("R1"))
  {
    var nan := [Entry("R1", NaN)];
    assert Validate(nan) == Fail(InvalidNumber("R1"));
    var inf := [Entry("R1", PosInfinity)];
    assert Validate(inf) == Fail(InvalidNumber("R1"));
    var ninf := [Entry("R1", NegInfinity)];
    assert Validate(ninf) == Fail(InvalidNumber("R1"));
  }

  // ---------------------------------------------------------------------
  // What the page receives
  // ---------------------------------------------------------------------

  /** vals['R1'] .. vals['V3'] as solver arguments, when the mapping has
      exactly the nine names in order and all of them are numbers. */
  function CircuitOf(vals: seq<Entry>): (c: Option<Circuit>)
    ensures c.Some? ==> Params(c.value) == vals
  {
    if Keys(vals) == ParameterNames && forall i :: 0 <= i < |vals| ==> vals[i].value.Num? then
      var c := Circuit(vals[0].value.x, vals[1].value.x, vals[2].value.x,
                       vals[3].value.x, vals[4].value.x, vals[5].value.x,
                       vals[6].value.x, vals[7].value.x, vals[8].value.x);
      assert Keys(Params(c)) == Keys(vals);
      assert forall i :: 0 <= i < 9 ==> Params(c)[i] == vals[i];
      Some(c)
    else None
  }

  lemma CircuitOfParams(c: Circuit)
    ensures CircuitOf(Params(c)) == Some(c)
  {
  }

  /** What home renders: the values shown in the form, the error, and the
      solve result when it ran. */
  datatype Page = Page(vals: seq<Entry>, error: Option<CleanError>, solution: Option<CleanSolution>)

  /** home for a submitted form: overlay, positivity check, then the solve,
      which is skipped once an error is set. */
  method Home(form: map<string, string>, toFloat: string -> Option<Value>) returns (page: Page)
    ensures |page.vals| == 9 && Keys(page.vals) == ParameterNames
    ensures forall i :: 0 <= i < 9 ==>
      page.vals[i] == if i < FirstConversionFailure(form, App.GetDefaultValues(), toFloat)
                      then OverlaidVerbatim(form, App.GetDefaultValues()[i], toFloat).value
                      else App.GetDefaultValues()[i]
    ensures page.error == Some(NonNumericInput)
            <==> FirstConversionFailure(form, App.GetDefaultValues(), toFloat) < 9
    ensures (page.error.Some? && page.error.value.NotPositiveValue?)
            <==> FirstConversionFailure(form, App.GetDefaultValues(), toFloat) == 9
                 && PositivityCheck(page.vals).Some?
    ensures (FirstConversionFailure(form, App.GetDefaultValues(), toFloat) == 9
             && PositivityCheck(page.vals).Some?) ==> page.error == PositivityCheck(page.vals)
    ensures page.error.Some? ==> page.solution.None?
    ensures page.error.None? && CircuitOf(page.vals).Some? ==> page.solution.Some?
    ensures page.solution.Some? ==> && CircuitOf(page.vals).Some?
                                    && SolveCurrents(CircuitOf(page.vals).value) == Success(page.solution.value)
    ensures page.error == Some(NoUniqueSolution)
            <==> && PositivityCheck(page.vals).None?
                 && FirstConversionFailure(form, App.GetDefaultValues(), toFloat) == 9
                 && CircuitOf(page.vals).Some?
                 && SolveCurrents(CircuitOf(page.vals).value).Failure?
  {
    var vals, err := OverlayForm(form, App.GetDefaultValues(), toFloat);
    if err.None? {
      err := CheckPositive(vals);
    }
    var solution: Option<CleanSolution> := None;
    if err.None? {
      var c := CircuitOf(vals);
      if c.Some? {
        match SolveCurrents(c.value)
        case Success(s) => solution := Some(s);
        case Failure(e) => err := Some(e);
      }
    }
    page := Page(vals, err, solution);
  }
}
