# Three-mesh residential circuit analyzer, modelled in Dafny

The application computes the steady-state loop currents of a fixed
three-mesh resistive network (living/dining, kitchen/laundry, bedrooms). It
takes six branch resistances R1..R6 and three source voltages V1..V3. This
project models its numeric engine, class `MeshAnalyzer` of `app.py`:

- **parameter validation**: every value must be a positive number. Names
  starting with `R` must also lie in [0.01, 1000] ohms, and names starting
  with `V` in [1, 500] volts. The first failing entry, in mapping order, is
  the one reported.
- **the mesh solve**: it validates, builds the symmetric 3×3 mesh-resistance
  matrix A and the voltage vector B, and rejects |det A| < 10^-10. It then
  solves A·I = B and flags a largest current above 1000 A.
- **the interpretation** of each current as a band, a direction and a zone.
- **the two canonical parameter sets** and **the reading of the HTML form**
  (`parse_form_data`).

It also models the earlier solver and form loops of `app_clean.py`, to show
where the two versions differ.

Numbers are `real`. `numpy.linalg.det` and `solve` become an explicit
determinant and Cramer's rule (module `Linear3`). Raised `ValueError`s become
`Result`/`Outcome` values whose error constructors name the cause. Python's
`float()` on form text is a parameter `toFloat: string -> Option<Value>`
(`None` when it raises). A value is a finite real `Num(x)` or one of `NaN`,
`PosInfinity` and `NegInfinity`, since Python's comparisons treat these three
differently.

Files: `wrappers.dfy` (Option, Result, Outcome), `linear3.dfy` (3×3 algebra),
`mesh_analyzer.dfy` (class `MeshAnalyzer`), `app.dfy` (module-level
functions of `app.py`), `app_clean.py`'s counterpart `app_clean.dfy`.

What the proofs establish, in short:

- The returned currents solve A·I = B. They are the only solution.
- det A expands to sixteen products of three resistances, none of them
  subtracted. So every validated input has det A ≥ 10^-6. The singular-system
  error can never be raised after validation, and the solve succeeds exactly
  on the inputs that pass validation.
- A current of exactly zero is always "negligible", and a negligible
  interpretation carries no direction. So the fall-through of 0 to
  "antihorario" at `app.py:130` is never visible.
- `app_clean.py` solves whatever app.py would solve, with the same result. It
  also solves inputs that app.py rejects, such as a 5000 Ω branch. Its
  positivity check lets NaN and +inf through, because `NaN <= 0` and
  `inf <= 0` are false. It rejects -inf, the first offending key in order.

Two behaviours of the code at the edges:

- Both versions' form handling rejects a zero resistance or a zero voltage,
  since zero is not positive: `app.py` in its validation, `app_clean.py` in
  the positivity loop of `home`. Only `app_clean.py`'s `calcular_corrientes`,
  called directly, accepts zeros. It gives zero current when all sources are
  zero (`AppClean.NoSourcesNoCurrent`), and it reports all-zero resistances
  as having no unique solution (`AppClean.ZeroResistancesAreSingular`).
- A current of exactly zero is classified as negligible, which has no
  direction, so it is never reported as counter-clockwise
  (`MeshAnalyzer.InterpretDirection`).

## Model

| member | source | states |
|---|---|---|
| `MeshAnalyzer.CheckEntry` | app.py:34-48 | One entry's checks, in source order. It passes iff the entry is a positive finite number and, for an `R` or `V` name, inside the inclusive range. NaN and ±inf give the invalid-number error, and a value ≤ 0 the not-positive error, whatever the name. A positive `R` value outside [0.01, 1000] gives the resistance-range error. A positive value whose name starts with `V` (not `R`) and lies outside [1, 500] gives the voltage-range error. The error carries the entry's key. |
| `MeshAnalyzer.Validate` | app.py:33-48 | Validation passes iff every entry of the mapping is valid. |
| `MeshAnalyzer.ValidateReportsFirstFailure` | app.py:33-48 | On failure, the reported error belongs to an entry whose predecessors are all valid, i.e. the first offending key in iteration order. |
| `MeshAnalyzer.ValidateParameters` | app.py:22-48 | The early-exit loop returns the same outcome as `Validate`. It passes iff all entries are valid, and otherwise fails at the first invalid one. |
| `MeshAnalyzer.Params` | app.py:77-78 | The mapping built from the nine arguments has the keys R1..R6, V1..V3 in that order. |
| `MeshAnalyzer.CalcularCorrientes` | app.py:76-105 | An invalid parameter yields that validation error before any matrix is built. The singular-system error occurs iff validation passes and abs(det A) < 10^-10. On success the returned A and B are the mesh matrix and the voltage vector, A·I = B holds, and the warning flag is set iff the largest abs(I) exceeds 1000. |
| `MeshAnalyzer.CoefficientMatrix` | app.py:82-86 | A is symmetric, and each row sums to its mesh's own resistance R1, R2 or R3. |
| `MeshAnalyzer.VoltageVector` | app.py:89 | B's components are the values validated under V1, V2 and V3. |
| `MeshAnalyzer.KirchhoffVoltageLaw` | app.py:82-89 | A·I = B holds iff, around each mesh, the drops over its own and its shared resistances (with the neighbouring mesh's current subtracted) sum to that mesh's source voltage. |
| `MeshAnalyzer.CoefficientMatrixShape` | app.py:82-89 | A is symmetric with non-positive off-diagonal entries. Each diagonal entry is the mesh's own resistance plus the magnitudes of its row's off-diagonal entries. |
| `MeshAnalyzer.DeterminantExpansion` | app.py:82-92 | det A equals a sum of sixteen triple products of resistances with no subtraction. |
| `MeshAnalyzer.MeshDeterminantPositive` | app.py:82-93 | Positive resistances give det A ≥ R1·R2·R3 > 0. |
| `MeshAnalyzer.ValidatedDeterminantAboveThreshold` | app.py:92-94 | Every validated circuit has det A ≥ 10^-6, above the 10^-10 singularity threshold. |
| `MeshAnalyzer.SolveSucceedsIffValid` | app.py:76-105 | The solve succeeds iff the nine parameters pass validation, so the singular branch is unreachable. |
| `MeshAnalyzer.SolutionIsUnique` | app.py:96-98 | Any vector solving A·I = B equals the returned currents. |
| `MeshAnalyzer.HighCurrentIsOnlyAWarning` | app.py:100-105 | For validated inputs the solve succeeds, and its currents are the exact solution whatever their size. |
| `MeshAnalyzer.Interpret` | app.py:125-142 | The interpretation carries the mesh's zone (`ZoneOf`, the `zonas` mapping). It is negligible iff abs(I) < 0.001. Otherwise it carries abs(I), and it is clockwise iff I > 0. |
| `MeshAnalyzer.InterpretBands` | app.py:128-142 | The interpretation carries the mesh's fixed zone. It is negligible iff abs(I) < 0.001. Otherwise it carries abs(I) and the band whose floor is at most abs(I) and below every higher floor (1, 10, 50), i.e. first match wins. |
| `MeshAnalyzer.InterpretMonotone` | app.py:133-142 | A current of larger magnitude never gets a milder band. |
| `MeshAnalyzer.InterpretDirection` | app.py:129-134 | A zero current is negligible. A non-negligible current is clockwise iff I > 0 and counter-clockwise iff I < 0. |
| `MeshAnalyzer.InterpretReversal` | app.py:129-142 | Negating a current keeps its band and magnitude and reverses its direction. |
| `MeshAnalyzer.InterpretarCorrientes` | app.py:112-144 | The loop fills a mapping with exactly the keys I1, I2, I3. Each key holds the interpretation of its own current. |
| `MeshAnalyzer.InterpretExample` | app.py:133-142 | The currents (0.0005, 15, 60) are classified negligible, high (clockwise) and critical (clockwise). |
| `Linear3.Det` | app.py:92 | The first-row expansion standing in for `np.linalg.det` equals the expansion along the first column. |
| `Linear3.Cramer` | app.py:96-98 | For det A ≠ 0 the computed vector x satisfies A·x = b, standing in for `np.linalg.solve`. |
| `Linear3.CramerSolves` | app.py:98 | The Cramer quotients det(A with column k := b)/det A solve the system. |
| `Linear3.CramerUnique` | app.py:98 | A non-singular system has no solution other than the Cramer one. |
| `Linear3.MaxAbs` | app.py:101 | The result is one of abs(x), abs(y), abs(z) and is at least each of them. |
| `App.GetDefaultValues` | app.py:146-163 | The default set has the keys R1..V3 in order and passes validation. |
| `App.GetExampleValues` | app.py:165-179 | The example set has the keys R1..V3 in order. Validation rejects it at V2 = 0 as not positive. |
| `App.Strip` | app.py:197 | The stripped text is no longer than the field and starts and ends with a character that is not whitespace (or is empty). |
| `App.CommaToDot` | app.py:200 | The rewritten text has the same length and contains no ','. Text without ',' is left unchanged. |
| `App.Overlaid` | app.py:196-201 | The field text is the form value (or '') stripped (`FieldText`). The overlaid entry keeps its key. A blank field keeps the default entry. The overlay fails iff the field is non-blank and its rewritten text makes `float()` raise. Otherwise the entry holds `float()` of the rewritten text. |
| `App.StripDropsOnlySpace` | app.py:197 | Stripping keeps a contiguous slice with no whitespace at either end and removes only whitespace. It leaves nothing iff the field is all whitespace, so such a field counts as blank. |
| `App.FirstConversionFailure` | app.py:196-201 | Every field before the returned index overlays without error, and the field at the index (if any) makes `float()` raise. |
| `App.ParseFormData` | app.py:181-211 | The result keeps the defaults' key sequence. Each entry before the first failing conversion is overlaid: blank keeps the default, otherwise the text with ',' → '.' is converted. Later entries keep their defaults. A conversion failure reports the rewritten text. Otherwise the error is the validation error of the overlaid values. No error iff every conversion succeeds and validation passes. |
| `App.BlankFormKeepsDefaults` | app.py:196-198 | A form whose fields are all blank converts nothing and keeps every default. |
| `App.CommaAndDotAgree` | app.py:199-201 | Two fields that differ only by ',' in place of '.' overlay to the same entry. |
| `AppClean.SolveCurrents` | app_clean.py:6-30 | It fails iff det A = 0 exactly, with the no-unique-solution error. It has no threshold and no validation. On success A is the same mesh matrix as in app.py, B = (V1, V2, V3), and A·I = B. |
| `AppClean.SolversAgreeOnValidInput` | app_clean.py:16-28 | On every input that app.py validates, both solvers succeed with the same currents, A and B. |
| `AppClean.RangeCheckOnlyInApp` | app_clean.py:6-30 | A 5000 Ω R4 is solved by app_clean.py and rejected by app.py as out of range. |
| `AppClean.ZeroResistancesAreSingular` | app_clean.py:26-30 | For every circuit whose six resistances are zero, whatever its voltages, app_clean.py reports no unique solution, while app.py rejects R1 as not positive. |
| `AppClean.NoSourcesNoCurrent` | app_clean.py:16-28 | With V1 = V2 = V3 = 0, a successful solve gives zero current in every mesh. |
| `AppClean.FirstConversionFailure` | app_clean.py:54-57 | Every field before the returned index overlays verbatim without error, and the field at the index makes `float()` raise. |
| `AppClean.OverlaidVerbatim` | app_clean.py:54-57 | The entry keeps its key. A missing or empty field keeps the default entry. The overlay fails iff the field is present and non-empty and its unmodified text makes `float()` raise. Otherwise the entry holds `float()` of that text. |
| `AppClean.OverlayForm` | app_clean.py:54-57 | Keys are kept. Only a present, non-empty field overrides its default, converted without stripping or comma rewriting. The loop stops at the first failing conversion with the non-numeric error. |
| `AppClean.PassesPositivity` | app_clean.py:61 | A finite value passes iff it is > 0. NaN and +inf pass, because `<= 0` is false for them. -inf fails. |
| `AppClean.PositivityCheck` | app_clean.py:60-62 | It passes iff every value passes `value <= 0` being false. On failure it names the key of the first value that fails, all earlier values having passed. |
| `AppClean.CheckPositive` | app_clean.py:60-62 | The early-exit positivity loop returns the same as `PositivityCheck`. |
| `AppClean.PositivityWeakerThanValidation` | app_clean.py:60-62 | Whatever app.py validates passes the positivity check. NaN and +inf pass it but fail app.py's validation. -inf fails both. |
| `AppClean.CircuitOf` | app_clean.py:75-76 | The nine values extracted by name rebuild exactly the mapping they came from. |
| `AppClean.CircuitOfParams` | app_clean.py:75-78 | Extracting the arguments from the mapping of a circuit gives that circuit back. |
| `AppClean.Home` | app_clean.py:47-83 | The shown values are the defaults overlaid up to the first failing field. The non-numeric error occurs iff a conversion raised, and the not-positive error iff conversions succeeded and the positivity check failed. That error is exactly the positivity check's, naming the first value that is not positive. Any error means no solve result. With no error and numeric values, the solve runs and its result or no-unique-solution error is what the page gets. |

## Left out

- The Flask routes and response shaping are not modelled: `home`, `api_calculate`, `api_example`, `circuito_png` and the error handlers of `app.py`, and the rendering in `app_clean.py`. They are HTTP and template glue.
- `dibujar_circuito` is not modelled: it is Matplotlib drawing into a PNG buffer.
- Logging is not modelled. The high-current warning is the `highCurrent` flag of the solution, and the error logs carry no logic.
- Floating point is not modelled: numbers are reals, and LU factorisation and rounding are left out. The "unexpected numeric failure" branches (`app.py:107-110`, the generic `except Exception` handlers of both files) have no counterpart over the reals once det A ≠ 0.
- The `isinstance` test of `app.py:34` is not modelled for values that are not numbers at all: those reach the validation only through `api_calculate`, which is not modelled. NaN and ±inf are the constructors `NaN`, `PosInfinity` and `NegInfinity`. The solver's arguments are reals, so they cannot carry them.
- `float()` parsing is the abstract parameter `toFloat`. `str.strip` removes the characters for which `str.isspace` holds, listed in `App.IsSpace`.
- The formatted interpretation strings (`:.3f`, `:.2f`, emoji) are not modelled. Band, direction and zone are data.
- `static/main.js` is not part of this model: it is browser-side input handling.
- `simulacion_mallas.py` is not part of this model: it is a print script with a differently wired matrix.
- Parameter mappings are sequences of entries. The uniqueness of dictionary keys is not imposed, since no operation depends on it.
- App.ParseFormData: a failed conversion is reported by the rewritten text, not by Python's message string.
- AppClean.Home: when NaN or +inf passes the positivity check, the solve over it is not modelled. The page then has neither an error nor a result. A GET request is the same as a form with no fields. The inline defaults of `app_clean.py:35-45` are the same nine values as `get_default_values`, so the model uses `App.GetDefaultValues` for both.
