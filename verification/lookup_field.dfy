/** The lookup field (creatio_tests/fields/lookup.py): the base checks
    followed by a containment check of the drop-down's options, and the
    editing operations that go through the drop-down. The exceptions
    `open` lets through (no trigger, or a trigger neither click reaches)
    propagate out of `check` and `set_value`; they are the `Err` side of
    the results here. */
module LookupField {
  import opened Wrappers
  import opened Values
  import opened DomQueries
  import opened ValidationResults
  import opened Fields
  import opened OverlayService
  import Conversions

  /** Python's `v in options` for the option texts the drop-down gives:
      only a string equal to one of them is found; a configured number,
      boolean or `null` never equals a text. */
  predicate Observed(v: Value, options: seq<string>) {
    v.Str? && v.s in options
  }

  /** The expected values that are not among the observed options, in
      expected order, repeats kept. */
  function Missing(expected: seq<Value>, options: seq<string>): (r: seq<Value>)
    ensures |r| <= |expected|
  {
    if expected == [] then []
    else if Observed(expected[0], options) then Missing(expected[1..], options)
    else [expected[0]] + Missing(expected[1..], options)
  }

  /** A value is missing exactly when it is expected and not observed. */
  lemma {:induction false} MissingMembers(expected: seq<Value>, options: seq<string>, v: Value)
    ensures v in Missing(expected, options) <==> v in expected && !Observed(v, options)
  {
    if expected != [] {
      MissingMembers(expected[1..], options, v);
      assert expected == [expected[0]] + expected[1..];
    }
  }

  /** Appending one expected value appends it to the missing list exactly
      when it is not observed: the list keeps the expected order and every
      repeat. */
  lemma {:induction false} MissingSnoc(expected: seq<Value>, x: Value, options: seq<string>)
    ensures Missing(expected + [x], options) == Missing(expected, options) + (if Observed(x, options) then [] else [x])
  {
    if expected == [] {
      assert [x][1..] == [];
    } else {
      assert (expected + [x])[1..] == expected[1..] + [x];
      MissingSnoc(expected[1..], x, options);
    }
  }

  /** Nothing is missing exactly when every expected value is observed. */
  lemma MissingEmptyIffContained(expected: seq<Value>, options: seq<string>)
    ensures Missing(expected, options) == [] <==> forall v :: v in expected ==> Observed(v, options)
  {
    if Missing(expected, options) != [] {
      var v := Missing(expected, options)[0];
      MissingMembers(expected, options, v);
    } else {
      forall v | v in expected
        ensures Observed(v, options)
      {
        MissingMembers(expected, options, v);
      }
    }
  }

  /** Against no options at all, every expected value is missing, in order
      and with its repeats. */
  lemma {:induction false} MissingFromNothing(expected: seq<Value>)
    ensures Missing(expected, []) == expected
  {
    if expected != [] {
      MissingFromNothing(expected[1..]);
      assert expected == [expected[0]] + expected[1..];
    }
  }

  /** Observed values that are not expected never matter: two observations
      that agree on the expected values give the same missing list. */
  lemma {:induction false} MissingIgnoresUnexpected(expected: seq<Value>, a: seq<string>, b: seq<string>)
    requires forall v :: v in expected ==> (Observed(v, a) <==> Observed(v, b))
    ensures Missing(expected, a) == Missing(expected, b)
  {
    if expected != [] {
      MissingIgnoresUnexpected(expected[1..], a, b);
    }
  }

  /** A configured number is missing even when an option shows its digits:
      `1` is not `"1"`. */
  lemma NumberNeverMatchesText(n: int, options: seq<string>)
    ensures Missing([Int(n)], options) == [Int(n)]
  {
  }

  /** What `_check_options` returns: `(ok, message, options)`. */
  datatype OptionsCheck = OptionsCheck(ok: bool, message: string, options: seq<string>)

  /** The failure message naming the missing values and the observed
      options, both as Python lists. */
  function MissingMessage(missing: seq<Value>, options: seq<string>): string {
    "lookup dictionary missing values: " + Conversions.ReprValues(missing) + "; actual: " + ReprList(options)
  }

  /** `_check_options(container)`: skipped without expected values;
      otherwise the drop-down is opened and read, and every expected value
      must be among the options read. */
  function CheckOptions(expected: seq<Value>, c: Container): (r: Result<OptionsCheck, Raised>)
    ensures expected == [] ==> r == Ok(OptionsCheck(true, "lookup dictionary check skipped", []))
    ensures expected != [] ==> (r.Err? <==> Open(c.parts, c.overlay).Err?)
    ensures expected != [] && r.Ok? ==> (r.value.ok <==>
      Open(c.parts, c.overlay).value.ok && Read(c.overlay.ticks, c.overlay.panelHtml).ok &&
      forall v :: v in expected ==> Observed(v, Read(c.overlay.ticks, c.overlay.panelHtml).options))
    ensures expected != [] && r.Ok? && !Open(c.parts, c.overlay).value.ok ==>
      r.value == OptionsCheck(false, Open(c.parts, c.overlay).value.message, [])
    ensures expected != [] && r.Ok? && Open(c.parts, c.overlay).value.ok && !Read(c.overlay.ticks, c.overlay.panelHtml).ok ==>
      r.value == OptionsCheck(false, Read(c.overlay.ticks, c.overlay.panelHtml).message, [])
    ensures (expected != [] && r.Ok? && Open(c.parts, c.overlay).value.ok && Read(c.overlay.ticks, c.overlay.panelHtml).ok &&
      Missing(expected, Read(c.overlay.ticks, c.overlay.panelHtml).options) != []) ==>
      r.value == OptionsCheck(false,
        MissingMessage(Missing(expected, Read(c.overlay.ticks, c.overlay.panelHtml).options), Read(c.overlay.ticks, c.overlay.panelHtml).options),
        Read(c.overlay.ticks, c.overlay.panelHtml).options)
    ensures r.Ok? && r.value.ok && expected != [] ==>
      r.value.message == "lookup dictionary ok" && r.value.options == Read(c.overlay.ticks, c.overlay.panelHtml).options
  {
    if expected == [] then Ok(OptionsCheck(true, "lookup dictionary check skipped", []))
    else
      var o :- Open(c.parts, c.overlay);
      if !o.ok then Ok(OptionsCheck(false, o.message, []))
      else
        var rd := Read(c.overlay.ticks, c.overlay.panelHtml);
        if !rd.ok then Ok(OptionsCheck(false, rd.message, []))
        else
          var missing := Missing(expected, rd.options);
          MissingEmptyIffContained(expected, rd.options);
          if missing != [] then Ok(OptionsCheck(false, MissingMessage(missing, rd.options), rd.options))
          else Ok(OptionsCheck(true, "lookup dictionary ok", rd.options))
  }

  /** `LookupField.check(container)`: the base verdict when it fails,
      otherwise the options check with the options in the details. */
  function Check(f: Field, c: Container): (r: Result<ValidationResult, Raised>)
    ensures !Fields.Check(f, c).ok ==> r == Ok(Fields.Check(f, c))
    ensures Fields.Check(f, c).ok ==> (r.Err? <==> CheckOptions(f.expectedOptions, c).Err?)
    ensures r.Ok? ==> (r.value.ok <==> Fields.Check(f, c).ok && CheckOptions(f.expectedOptions, c).value.ok)
    ensures r.Ok? && r.value.ok ==> (r.value.message == "field is valid" &&
      r.value.details == map["code" := TextValue(f.code),
        "options" := if f.expectedOptions == [] then NoValue else TextList(CheckOptions(f.expectedOptions, c).value.options)])
    ensures Fields.Check(f, c).ok && r.Ok? && !r.value.ok ==>
      r.value.details == map["code" := TextValue(f.code), "options" := TextList(CheckOptions(f.expectedOptions, c).value.options)]
    ensures Fields.Check(f, c).ok && r.Ok? && !r.value.ok ==>
      r.value.message == CheckOptions(f.expectedOptions, c).value.message
  {
    var base := Fields.Check(f, c);
    if !base.ok then Ok(base)
    else
      var o :- CheckOptions(f.expectedOptions, c);
      if !o.ok then Ok(ValidationResult(false, o.message, map["code" := TextValue(f.code), "options" := TextList(o.options)]))
      else
        assert f.expectedOptions != [] ==> o.options != [];
        Ok(ValidationResult(true, "field is valid",
          map["code" := TextValue(f.code), "options" := if o.options != [] then TextList(o.options) else NoValue]))
  }

  /** A failing base check is returned unchanged, whatever the drop-down
      would show. */
  lemma BaseFailureSkipsOptions(f: Field, c: Container, v: OverlayView)
    requires !Fields.Check(f, c).ok
    ensures Check(f, c) == Check(f, c.(overlay := v)) == Ok(Fields.Check(f, c))
  {
  }

  /** Without expected values the drop-down is never opened: the verdict is
      the base one, with `options` set to `None`. */
  lemma NoExpectedOptionsSkipsOverlay(f: Field, c: Container, v: OverlayView)
    requires f.expectedOptions == []
    ensures Check(f, c) == Check(f, c.(overlay := v))
    ensures Check(f, c).Ok? && Check(f, c).value.ok == Fields.Check(f, c).ok
  {
  }

  /** A lookup whose control probe passes has a trigger to open the
      drop-down with: the probe's selectors are among the trigger's. */
  lemma ProbePassMeansTrigger(c: Container)
    requires Probe(FieldTypes.Lookup, c).ok
    ensures FindTrigger(c.parts).Some?
  {
  }

  /** `set_value(container, value)`: an empty value is refused before the
      drop-down is opened; the option whose text is the value is clicked,
      directly or through JavaScript. */
  function SetValue(c: Container, value: Option<string>): (r: Result<Outcome, Raised>)
    ensures value.None? || value == Some("") ==> r == Ok(Outcome(false, "value is empty"))
    ensures value.Some? && value.value != "" ==> (r.Err? <==> Open(c.parts, c.overlay).Err?)
    ensures r.Ok? && r.value.ok <==>
      value.Some? && value.value != "" && Open(c.parts, c.overlay).Ok? && Open(c.parts, c.overlay).value.ok &&
      value.value in c.optionClicks && c.optionClicks[value.value] != Unclickable
    ensures r.Ok? && r.value.ok ==> r.value.message == "value set"
    ensures value.Some? && value.value != "" && Open(c.parts, c.overlay).Ok? && !Open(c.parts, c.overlay).value.ok ==>
      r == Ok(Outcome(false, Open(c.parts, c.overlay).value.message))
    ensures value.Some? && value.value != "" && Open(c.parts, c.overlay).Ok? && Open(c.parts, c.overlay).value.ok ==>
      (value.value !in c.optionClicks ==> r == Ok(Outcome(false, "option not found: " + c.driverError))) &&
      (value.value in c.optionClicks && c.optionClicks[value.value] == Unclickable ==>
        r == Ok(Outcome(false, "cannot click option: " + c.driverError)))
  {
    if value.None? || value.value == "" then Ok(Outcome(false, "value is empty"))
    else
      var o :- Open(c.parts, c.overlay);
      if !o.ok then Ok(Outcome(false, o.message))
      else if value.value !in c.optionClicks then Ok(Outcome(false, "option not found: " + c.driverError))
      else if c.optionClicks[value.value] == Unclickable then Ok(Outcome(false, "cannot click option: " + c.driverError))
      else Ok(Outcome(true, "value set"))
  }

  /** The message of the `UnboundLocalError` the JavaScript fallback of
      `clear_value` raises when no combobox host was found: it names the
      host variable before the script can run. */
  const UnboundHostMessage := "cannot access local variable 'host' where it is not associated with a value"

  /** `clear_value(container)`: the clear icon first, then `clear()` on the
      combobox host, then a JavaScript assignment to the host; the first
      that works decides. */
  function ClearValue(c: Container): (r: Outcome)
    ensures ClearIcon in c.parts && c.clearIconClick != Unclickable ==>
      r == Outcome(true, if c.clearIconClick == Clicked then "value cleared via clear icon" else "value cleared via clear icon JS")
    ensures r.ok <==> ((ClearIcon in c.parts && c.clearIconClick != Unclickable) ||
      (RoleCombobox in c.parts && (c.hostClears || c.scriptClears)))
    ensures !(ClearIcon in c.parts && c.clearIconClick != Unclickable) && RoleCombobox in c.parts && c.hostClears ==>
      r.message == "value cleared"
    ensures !(ClearIcon in c.parts && c.clearIconClick != Unclickable) && RoleCombobox !in c.parts ==>
      r == Outcome(false, "cannot clear value: " + UnboundHostMessage)
    ensures !(ClearIcon in c.parts && c.clearIconClick != Unclickable) && RoleCombobox in c.parts && !c.hostClears ==>
      r == (if c.scriptClears then Outcome(true, "value cleared via JS") else Outcome(false, "cannot clear value: " + c.driverError))
  {
    if ClearIcon in c.parts && c.clearIconClick != Unclickable then
      Outcome(true, if c.clearIconClick == Clicked then "value cleared via clear icon" else "value cleared via clear icon JS")
    else if RoleCombobox !in c.parts then Outcome(false, "cannot clear value: " + UnboundHostMessage)
    else if c.hostClears then Outcome(true, "value cleared")
    else if c.scriptClears then Outcome(true, "value cleared via JS")
    else Outcome(false, "cannot clear value: " + c.driverError)
  }

  /** Setting a value and checking the options open the drop-down the same
      way: when opening does not succeed, both report the same message. */
  lemma SetAndCheckShareOpenFailure(c: Container, value: string, expected: seq<Value>)
    requires value != "" && expected != []
    requires Open(c.parts, c.overlay).Ok? && !Open(c.parts, c.overlay).value.ok
    ensures SetValue(c, Some(value)) == Ok(Outcome(false, Open(c.parts, c.overlay).value.message))
    ensures CheckOptions(expected, c) == Ok(OptionsCheck(false, Open(c.parts, c.overlay).value.message, []))
  {
  }

  /** Setting goes only through the drop-down and its options, clearing only
      through the clear icon and the combobox host: neither depends on what
      the other uses. */
  lemma SetAndClearUseDisjointParts(c: Container, value: Option<string>, v: OverlayView,
                                    clicks: map<string, Click>, icon: Click, hostClears: bool, scriptClears: bool)
    ensures SetValue(c, value) == SetValue(c.(clearIconClick := icon, hostClears := hostClears, scriptClears := scriptClears), value)
    ensures ClearValue(c) == ClearValue(c.(overlay := v, optionClicks := clicks))
  {
  }
}
