/** The module-level helpers of app.py around MeshAnalyzer: the two canonical
    parameter sets and the reading of the HTML form. */
module App {
  import opened Wrappers
  import opened MeshAnalyzer

  /** get_default_values: a realistic residential installation. */
  function GetDefaultValues(): (p: seq<Entry>)
    ensures Keys(p) == ParameterNames
    ensures Validate(p) == Pass
  {
    var p := [Entry("R1", Num(0.5)), Entry("R2", Num(0.7)), Entry("R3", Num(0.6)),
              Entry("R4", Num(20.0)), Entry("R5", Num(15.0)), Entry("R6", Num(25.0)),
              Entry("V1", Num(120.0)), Entry("V2", Num(220.0)), Entry("V3", Num(120.0))];
    assert forall i :: 0 <= i < |p| ==> EntryValid(p[i]);
    p
  }

  /** get_example_values: the worked textbook circuit, which has no second or
      third source. */
  function GetExampleValues(): (p: seq<Entry>)
    ensures Keys(p) == ParameterNames
    ensures Validate(p) == Fail(NotPositive("V2"))
  {
    var p := [Entry("R1", Num(2.0)), Entry("R2", Num(4.0)), Entry("R3", Num(3.0)),
              Entry("R4", Num(6.0)), Entry("R5", Num(5.0)), Entry("R6", Num(2.0)),
              Entry("V1", Num(12.0)), Entry("V2", Num(0.0)), Entry("V3", Num(0.0))];
    assert Validate(p[7..]) == Fail(NotPositive("V2"));
    assert Validate(p[6..]) == Validate(p[6..][1..]) by { assert p[6..][1..] == p[7..]; }
    assert Validate(p[5..]) == Validate(p[5..][1..]) by { assert p[5..][1..] == p[6..]; }
    assert Validate(p[4..]) == Validate(p[4..][1..]) by { assert p[4..][1..] == p[5..]; }
    assert Validate(p[3..]) == Validate(p[3..][1..]) by { assert p[3..][1..] == p[4..]; }
    assert Validate(p[2..]) == Validate(p[2..][1..]) by { assert p[2..][1..] == p[3..]; }
    assert Validate(p[1..]) == Validate(p[1..][1..]) by { assert p[1..][1..] == p[2..]; }
    assert Validate(p) == Validate(p[1..]);
    p
  }

  // ---------------------------------------------------------------------
  // Form text
  // ---------------------------------------------------------------------

  /** The characters str.strip removes: those for which str.isspace holds,
      i.e. the Unicode whitespace and the ASCII separators U+001C..U+001F. */
  predicate IsSpace(ch: char)
  {
    || ('\t' <= ch <= '\r')            // U+0009..U+000D
    || ('\U{1C}' <= ch <= ' ')          // U+001C..U+0020
    || ch == '\U{85}' || ch == '\U{A0}' || ch == '\U{1680}'
    || ('\U{2000}' <= ch <= '\U{200A}')
    || ch == '\U{2028}' || ch == '\U{2029}' || ch == '\U{202F}' || ch == '\U{205F}'
    || ch == '\U{3000}'
  }

  function TrimLeft(s: string): string
  {
    if |s| > 0 && IsSpace(s[0]) then TrimLeft(s[1..]) else s
  }

  function TrimRight(s: string): string
  {
    if |s| > 0 && IsSpace(s[|s| - 1]) then TrimRight(s[..|s| - 1]) else s
  }

  /** str.strip: drops leading and trailing whitespace. */
  function Strip(s: string): (r: string)
    ensures |r| <= |s|
    ensures r == [] || (!IsSpace(r[0]) && !IsSpace(r[|r| - 1]))
  {
    TrimLeftDrops(s);
    TrimRightDrops(TrimLeft(s));
    TrimRight(TrimLeft(s))
  }

  lemma {:induction false} TrimLeftDrops(s: string)
    ensures var r := TrimLeft(s);
      && |r| <= |s| && r == s[|s| - |r|..]
      && (r == [] || !IsSpace(r[0]))
      && forall i :: 0 <= i < |s| - |r| ==> IsSpace(s[i])
  {
    if |s| > 0 && IsSpace(s[0]) {
      TrimLeftDrops(s[1..]);
    }
  }

  lemma {:induction false} TrimRightDrops(s: string)
    ensures var r := TrimRight(s);
      && |r| <= |s| && r == s[..|r|]
      && (r == [] || !IsSpace(r[|r| - 1]))
      && forall i :: |r| <= i < |s| ==> IsSpace(s[i])
  {
    if |s| > 0 && IsSpace(s[|s| - 1]) {
      TrimRightDrops(s[..|s| - 1]);
    }
  }

  /** Stripping keeps a slice of the text that neither starts nor ends with
      whitespace, drops only whitespace, and leaves nothing exactly when the
      text is all whitespace, so such a field counts as blank. */
  lemma StripDropsOnlySpace(s: string)
    ensures var lo := |s| - |TrimLeft(s)|;
      && 0 <= lo <= |s| - |Strip(s)| && Strip(s) == s[lo..lo + |Strip(s)|]
      && (forall i :: 0 <= i < lo ==> IsSpace(s[i]))
      && (forall i :: lo + |Strip(s)| <= i < |s| ==> IsSpace(s[i]))
    ensures Strip(s) == [] || (!IsSpace(Strip(s)[0]) && !IsSpace(Strip(s)[|Strip(s)| - 1]))
    ensures Strip(s) == [] <==> forall i :: 0 <= i < |s| ==> IsSpace(s[i])
  {
    var t := TrimLeft(s);
    TrimLeftDrops(s);
    TrimRightDrops(t);
    var r := Strip(s);
    var lo := |s| - |t|;
    assert t == s[lo..];
    assert r == s[lo..lo + |r|];
    forall i | lo + |r| <= i < |s|
      ensures IsSpace(s[i])
    {
      assert s[i] == t[i - lo];
    }
    if r == [] {
      assert t == [] && lo == |s|;
    } else {
      assert r[0] == t[0] == s[lo];
    }
  }

  /** form_value.replace(',', '.'): a decimal comma becomes a decimal point. */
  function CommaToDot(s: string): (r: string)
    ensures |r| == |s|
    ensures forall i :: 0 <= i < |r| ==> r[i] != ','
    ensures (forall i :: 0 <= i < |s| ==> s[i] != ',') ==> r == s
  {
    seq(|s|, i requires 0 <= i < |s| => if s[i] == ',' then '.' else s[i])
  }

  lemma CommaToDotAt(s: string, i: int)
    requires 0 <= i < |s|
    ensures CommaToDot(s)[i] == if s[i] == ',' then '.' else s[i]
  {
  }

  /** form_data.get(key, '').strip() */
  function FieldText(form: map<string, string>, key: string): string
  {
    Strip(if key in form then form[key] else "")
  }

  // ---------------------------------------------------------------------
  // parse_form_data
  // ---------------------------------------------------------------------

  /** Why parse_form_data returned an error message: float() rejected the
      rewritten text, or validation failed. */
  datatype FormError = ConversionFailed(text: string) | ValidationFailed(cause: ParamError)

  /** One iteration of the overlay loop: a blank field keeps the entry, a
      non-blank one is rewritten and converted; None when float() raises. */
  function Overlaid(form: map<string, string>, e: Entry, toFloat: string -> Option<Value>): (r: Option<Entry>)
    ensures r.Some? ==> r.value.key == e.key
    ensures FieldText(form, e.key) == [] ==> r == Some(e)
    ensures r.None? <==> FieldText(form, e.key) != [] && toFloat(CommaToDot(FieldText(form, e.key))).None?
    ensures FieldText(form, e.key) != [] && toFloat(CommaToDot(FieldText(form, e.key))).Some? ==>
      r == Some(Entry(e.key, toFloat(CommaToDot(FieldText(form, e.key))).value))
  {
    var text := FieldText(form, e.key);
    if text == [] then Some(e)
    else match toFloat(CommaToDot(text))
      case None => None
      case Some(v) => Some(Entry(e.key, v))
  }

  /** The index of the first field whose conversion raises, or |defaults|. */
  function FirstConversionFailure(form: map<string, string>, defaults: seq<Entry>,
                                  toFloat: string -> Option<Value>): (n: nat)
    ensures n <= |defaults|
    ensures forall i :: 0 <= i < n ==> Overlaid(form, defaults[i], toFloat).Some?
    ensures n < |defaults| ==> Overlaid(form, defaults[n], toFloat).None?
  {
    if |defaults| == 0 then 0
    else if Overlaid(form, defaults[0], toFloat).None? then 0
    else
      var n := FirstConversionFailure(form, defaults[1..], toFloat);
      assert forall i :: 1 <= i <= n ==> defaults[i] == defaults[1..][i - 1];
      1 + n
  }

  /** parse_form_data: copy the defaults, overwrite each entry whose field is
      not blank, then validate. The returned values are the ones reached when
      the loop stopped, as in the source. */
  method ParseFormData(form: map<string, string>, defaults: seq<Entry>, toFloat: string -> Option<Value>)
    returns (vals: seq<Entry>, err: Option<FormError>)
    ensures |vals| == |defaults| && Keys(vals) == Keys(defaults)
    ensures var n := FirstConversionFailure(form, defaults, toFloat);
      forall i :: 0 <= i < |vals| ==>
        vals[i] == if i < n then Overlaid(form, defaults[i], toFloat).value else defaults[i]
    ensures var n := FirstConversionFailure(form, defaults, toFloat);
      n < |defaults| ==> err == Some(ConversionFailed(CommaToDot(FieldText(form, defaults[n].key))))
    ensures FirstConversionFailure(form, defaults, toFloat) == |defaults| ==>
      err == (match Validate(vals) case Pass => None case Fail(e) => Some(ValidationFailed(e)))
    ensures err.None? <==> FirstConversionFailure(form, defaults, toFloat) == |defaults| && Validate(vals).Pass?
  {
    ghost var n := FirstConversionFailure(form, defaults, toFloat);
    vals := defaults;
    var i := 0;
    while i < |vals|
      invariant 0 <= i <= |vals| == |defaults|
      invariant i <= n
      invariant forall j :: 0 <= j < |vals| ==>
        vals[j] == if j < i then Overlaid(form, defaults[j], toFloat).value else defaults[j]
    {
      assert vals[i] == defaults[i];
      var text := FieldText(form, vals[i].key);
      if text != [] {
        var rewritten := CommaToDot(text);
        var converted := toFloat(rewritten);
        if converted.None? {
          assert Overlaid(form, defaults[i], toFloat).None?;
          err := Some(ConversionFailed(rewritten));
          return;
        }
        assert Overlaid(form, defaults[i], toFloat) == Some(Entry(vals[i].key, converted.value));
        vals := vals[i := Entry(vals[i].key, converted.value)];
      } else {
        assert Overlaid(form, defaults[i], toFloat) == Some(defaults[i]);
      }
      i := i + 1;
    }
    assert Keys(vals) == Keys(defaults);
    var outcome := ValidateParameters(vals);
    err := if outcome.Fail? then Some(ValidationFailed(outcome.error)) else None;
  }

  /** A form that leaves every field blank yields the defaults unchanged. */
  lemma {:induction false} BlankFormKeepsDefaults(form: map<string, string>, defaults: seq<Entry>,
                                                  toFloat: string -> Option<Value>)
    requires forall i :: 0 <= i < |defaults| ==> FieldText(form, defaults[i].key) == []
    ensures FirstConversionFailure(form, defaults, toFloat) == |defaults|
    ensures forall i :: 0 <= i < |defaults| ==> Overlaid(form, defaults[i], toFloat) == Some(defaults[i])
  {
    if |defaults| > 0 {
      BlankFormKeepsDefaults(form, defaults[1..], toFloat);
    }
  }

  /** A decimal comma and a decimal point in a field convert the same way. */
  lemma CommaAndDotAgree(form1: map<string, string>, form2: map<string, string>, e: Entry,
                         toFloat: string -> Option<Value>)
    requires |FieldText(form1, e.key)| == |FieldText(form2, e.key)|
    requires forall i :: 0 <= i < |FieldText(form1, e.key)| ==>
      var c1, c2 := FieldText(form1, e.key)[i], FieldText(form2, e.key)[i];
      c1 == c2 || (c1 == ',' && c2 == '.')
    ensures Overlaid(form1, e, toFloat) == Overlaid(form2, e, toFloat)
  {
    var t1, t2 := FieldText(form1, e.key), FieldText(form2, e.key);
    forall i | 0 <= i < |t1|
      ensures CommaToDot(t1)[i] == CommaToDot(t2)[i]
    {
      CommaToDotAt(t1, i);
      CommaToDotAt(t2, i);
    }
    assert CommaToDot(t1) == CommaToDot(t2);
  }
}
