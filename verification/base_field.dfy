/** The checks every field shares (creatio_tests/fields/base.py): the
    control probe, the label check, the readonly check, the pipeline that
    runs them in that order, and the editing fallback chains. The probes of
    the text, number and date-time kinds are selector lookups whose outcome
    is an input here. */
module Fields {
  import opened Wrappers
  import opened Strings
  import FieldTypes
  import Values
  import opened DomQueries
  import opened ValidationResults
  import LabelResolver
  import ReadonlyDetector
  import OverlayService
  import Logger

  /** The editable control `input, textarea`: how focusing it goes, whether
      the keystrokes go through, and whether the JavaScript assignment
      does. */
  datatype Editable = Editable(focus: OverlayService.Click, keys: bool, script: bool)

  /** The checkbox input of a boolean field: its checked state (`None` when
      reading it raised) and how clicking it goes. */
  datatype Checkbox = Checkbox(selected: Option<bool>, click: OverlayService.Click)

  /** Everything a field's operations observe of its container element. */
  datatype Container = Container(
    controlFound: bool,                       // the kind's control selector matches (text, number, date-time)
    checkbox: Option<Checkbox>,               // `mat-checkbox input[type='checkbox']`
    parts: set<Part>,                         // the lookup-related elements present
    editable: Option<Editable>,               // the first `input, textarea`
    labelDom: LabelResolver.LabelDom,
    host: ReadonlyDetector.HostState,
    overlay: OverlayService.OverlayView,
    optionClicks: map<string, OverlayService.Click>,  // overlay options that match a value, by value
    clearIconClick: OverlayService.Click,
    hostClears: bool,                         // `clear()` on the combobox host works
    scriptClears: bool,                       // the JavaScript clearing script works
    driverError: string)                      // the text of the exception a failing driver call raises

  /** A configured field: `TextField`, `NumberField`, `BooleanField`,
      `DateTimeField` or `LookupField` by its kind. `expectedOptions` is
      used by lookups only, and holds the configured values as they were
      read, whatever their type. */
  datatype Field = Field(
    kind: FieldTypes.FieldType,
    code: string,
    title: Option<string>,
    readonly: Option<bool>,
    strictTitle: bool,
    ctx: FieldTypes.CheckContext,
    expectedOptions: seq<Values.Value>)

  /** A stage's `(ok, message)` or `(ok, message, found)` tuple. */
  datatype Stage = Stage(ok: bool, message: string, found: string)

  /** An editing operation's `(ok, message)`. */
  datatype Outcome = Outcome(ok: bool, message: string)

  /** The field's own logger: enabled by the context's debug flag, prefixed
      with the field code. */
  function FieldLogger(f: Field): (lg: Logger.Logger)
    ensures lg.enabled == f.ctx.debug
    ensures |lg.prefix| == |f.code| + 8 && StartsWith(lg.prefix, "[field:")
    ensures lg.prefix[7..|lg.prefix| - 1] == f.code && lg.prefix[|lg.prefix| - 1] == ']'
  {
    Logger.Logger(f.ctx.debug, "[field:" + f.code + "]")
  }

  /** The lookup control selector group matches. */
  predicate HasLookupControl(parts: set<Part>) {
    ComboboxContainer in parts || AutocompleteInput in parts || RoleCombobox in parts
  }

  /** The name each kind's probe gives its control in its messages. */
  function ControlName(k: FieldTypes.FieldType): string {
    match k
    case Text => "text"
    case Number => "number"
    case DateTime => "datetime"
    case Boolean => "checkbox"
    case Lookup => "lookup"
  }

  /** `_probe_control(container)` of each kind. */
  function Probe(k: FieldTypes.FieldType, c: Container): (r: Stage)
    ensures r.ok <==> match k
      case Boolean => c.checkbox.Some?
      case Lookup => HasLookupControl(c.parts)
      case _ => c.controlFound
    ensures r.ok ==> r.message == ControlName(k) + " control ok"
    ensures !r.ok ==> r.message == ControlName(k) + " control not found: " + c.driverError
    ensures r.found == ""
  {
    var found := match k
      case Boolean => c.checkbox.Some?
      case Lookup => HasLookupControl(c.parts)
      case _ => c.controlFound;
    if found then Stage(true, ControlName(k) + " control ok", "")
    else Stage(false, ControlName(k) + " control not found: " + c.driverError, "")
  }

  /** `_check_title(container)`. */
  function CheckTitle(title: Option<string>, strict: bool, d: LabelResolver.LabelDom): (r: Stage)
    ensures title.None? ==> r == Stage(true, "title check skipped", "")
    ensures title.Some? ==> r.found == LabelResolver.ResolveLabel(d) && IsTrimmed(r.found)
    ensures r.ok <==> (title.None? ||
      (r.found != "" && (if strict then r.found == title.value else IsInfix(title.value, r.found))))
    ensures title.Some? && r.found == "" ==> r.message == "label text is empty"
    ensures title.Some? && r.found != "" && strict && r.found != title.value ==>
      r.message == "label mismatch: expected '" + title.value + "', got '" + r.found + "'"
    ensures title.Some? && r.found != "" && !strict && !IsInfix(title.value, r.found) ==>
      r.message == "label does not contain expected substring: '" + title.value + "', got '" + r.found + "'"
    ensures r.ok && title.Some? ==> r.message == "title ok"
  {
    if title.None? then Stage(true, "title check skipped", "")
    else
      var t := title.value;
      var txt := LabelResolver.ResolveLabel(d);
      ContainsIsInfix(txt, t);
      if txt == "" then Stage(false, "label text is empty", "")
      else if strict && txt != t then
        Stage(false, "label mismatch: expected '" + t + "', got '" + txt + "'", txt)
      else if !strict && !Contains(txt, t) then
        Stage(false, "label does not contain expected substring: '" + t + "', got '" + txt + "'", txt)
      else Stage(true, "title ok", txt)
  }

  /** A label that passes the strict comparison passes the substring one. */
  lemma StrictTitleImpliesLoose(title: Option<string>, d: LabelResolver.LabelDom)
    requires CheckTitle(title, true, d).ok
    ensures CheckTitle(title, false, d).ok
  {
    if title.Some? {
      var txt := LabelResolver.ResolveLabel(d);
      assert OccursAt(title.value, txt, 0);
    }
  }

  /** An empty label fails whichever comparison is configured. */
  lemma EmptyLabelFailsBothModes(title: Option<string>, strict: bool, d: LabelResolver.LabelDom)
    requires title.Some? && LabelResolver.ResolveLabel(d) == ""
    ensures !CheckTitle(title, strict, d).ok
    ensures CheckTitle(title, strict, d).message == "label text is empty"
  {
  }

  /** `_check_readonly(container)`. */
  function CheckReadonly(expected: Option<bool>, host: ReadonlyDetector.HostState): (r: Stage)
    ensures expected.None? ==> r == Stage(true, "readonly check skipped", "")
    ensures expected.Some? ==> r.found == ReadonlyDetector.Classify(host).reason
    ensures r.ok <==> expected.None? || expected.value == ReadonlyDetector.Classify(host).readonly
    ensures expected == Some(true) && !r.ok ==> r.message == "field is not readonly: " + r.found
    ensures expected == Some(false) && !r.ok ==> r.message == "field is readonly: " + r.found
  {
    if expected.None? then Stage(true, "readonly check skipped", "")
    else
      var v := ReadonlyDetector.Classify(host);
      if expected.value && !v.readonly then Stage(false, "field is not readonly: " + v.reason, v.reason)
      else if !expected.value && v.readonly then Stage(false, "field is readonly: " + v.reason, v.reason)
      else Stage(true, "readonly ok: " + v.reason, v.reason)
  }

  /** `{"code": code}`. */
  function CodeDetails(code: string): map<string, Detail> {
    map["code" := TextValue(code)]
  }

  /** `check(container)` of `BaseField`: probe, then title, then readonly;
      the first failing stage decides the verdict. */
  function Check(f: Field, c: Container): (r: ValidationResult)
    ensures r.ok <==> (Probe(f.kind, c).ok && CheckTitle(f.title, f.strictTitle, c.labelDom).ok
      && CheckReadonly(f.readonly, c.host).ok)
    ensures r.ok ==> r.message == "field is valid" && r.details == CodeDetails(f.code)
    ensures "code" in r.details && r.details["code"] == TextValue(f.code)
    ensures !Probe(f.kind, c).ok ==> r == ValidationResult(false, Probe(f.kind, c).message, CodeDetails(f.code))
    ensures Probe(f.kind, c).ok && !CheckTitle(f.title, f.strictTitle, c.labelDom).ok ==>
      r.message == CheckTitle(f.title, f.strictTitle, c.labelDom).message &&
      r.details == CodeDetails(f.code)["label_found" := TextValue(CheckTitle(f.title, f.strictTitle, c.labelDom).found)]
    ensures Probe(f.kind, c).ok && CheckTitle(f.title, f.strictTitle, c.labelDom).ok && !r.ok ==>
      r.message == CheckReadonly(f.readonly, c.host).message &&
      r.details == CodeDetails(f.code)["readonly_reason" := TextValue(CheckReadonly(f.readonly, c.host).found)]
  {
    var p := Probe(f.kind, c);
    if !p.ok then ValidationResult(false, p.message, CodeDetails(f.code))
    else
      var t := CheckTitle(f.title, f.strictTitle, c.labelDom);
      if !t.ok then ValidationResult(false, t.message, CodeDetails(f.code)["label_found" := TextValue(t.found)])
      else
        var ro := CheckReadonly(f.readonly, c.host);
        if !ro.ok then ValidationResult(false, ro.message, CodeDetails(f.code)["readonly_reason" := TextValue(ro.found)])
        else ValidationResult(true, "field is valid", CodeDetails(f.code))
  }

  /** A failed probe decides the verdict before the label or the readonly
      state is looked at. */
  lemma ProbeFailureShortCircuits(f: Field, c: Container, d: LabelResolver.LabelDom, host: ReadonlyDetector.HostState)
    requires !Probe(f.kind, c).ok
    ensures Check(f, c) == Check(f, c.(labelDom := d, host := host))
  {
  }

  /** A failed title check decides the verdict before the readonly state is
      looked at. */
  lemma TitleFailureShortCircuits(f: Field, c: Container, host: ReadonlyDetector.HostState)
    requires Probe(f.kind, c).ok && !CheckTitle(f.title, f.strictTitle, c.labelDom).ok
    ensures Check(f, c) == Check(f, c.(host := host))
  {
  }

  /** A field with neither a title nor a readonly expectation is valid
      exactly when its control is found. */
  lemma UnconstrainedFieldNeedsOnlyControl(f: Field, c: Container)
    requires f.title.None? && f.readonly.None?
    ensures Check(f, c).ok <==> Probe(f.kind, c).ok
  {
  }

  /** Focusing the editable control: a click, else a JavaScript click. */
  function Focus(e: Editable, err: string): (r: Option<Outcome>)
    ensures r.Some? <==> e.focus == OverlayService.Unclickable
    ensures r.Some? ==> r.value == Outcome(false, "cannot focus control: " + err)
  {
    if e.focus == OverlayService.Unclickable then Some(Outcome(false, "cannot focus control: " + err)) else None
  }

  /** `set_value(container, value)` of `BaseField`. */
  function SetValue(c: Container, value: Option<string>): (r: Outcome)
    ensures value.None? ==> r == Outcome(false, "value is None")
    ensures value.Some? && c.editable.None? ==> r == Outcome(false, "editable control not found")
    ensures r.ok <==> (value.Some? && c.editable.Some? && c.editable.value.focus != OverlayService.Unclickable
      && (c.editable.value.keys || c.editable.value.script))
    ensures r.ok ==> r.message == (if c.editable.value.keys then "value set" else "value set via JS")
    ensures value.Some? && c.editable.Some? && c.editable.value.focus == OverlayService.Unclickable ==>
      r == Outcome(false, "cannot focus control: " + c.driverError)
    ensures (value.Some? && c.editable.Some? && c.editable.value.focus != OverlayService.Unclickable &&
      !c.editable.value.keys && !c.editable.value.script) ==> r == Outcome(false, "cannot set value: " + c.driverError)
  {
    if value.None? then Outcome(false, "value is None")
    else if c.editable.None? then Outcome(false, "editable control not found")
    else
      var e := c.editable.value;
      var blocked := Focus(e, c.driverError);
      if blocked.Some? then blocked.value
      else if e.keys then Outcome(true, "value set")
      else if e.script then Outcome(true, "value set via JS")
      else Outcome(false, "cannot set value: " + c.driverError)
  }

  /** `clear_value(container)` of `BaseField`. */
  function ClearValue(c: Container): (r: Outcome)
    ensures c.editable.None? ==> r == Outcome(false, "editable control not found")
    ensures r.ok <==> (c.editable.Some? && c.editable.value.focus != OverlayService.Unclickable
      && (c.editable.value.keys || c.editable.value.script))
    ensures r.ok ==> r.message == (if c.editable.value.keys then "value cleared" else "value cleared via JS")
    ensures c.editable.Some? && c.editable.value.focus == OverlayService.Unclickable ==>
      r == Outcome(false, "cannot focus control: " + c.driverError)
    ensures (c.editable.Some? && c.editable.value.focus != OverlayService.Unclickable &&
      !c.editable.value.keys && !c.editable.value.script) ==> r == Outcome(false, "cannot clear value: " + c.driverError)
  {
    if c.editable.None? then Outcome(false, "editable control not found")
    else
      var e := c.editable.value;
      var blocked := Focus(e, c.driverError);
      if blocked.Some? then blocked.value
      else if e.keys then Outcome(true, "value cleared")
      else if e.script then Outcome(true, "value cleared via JS")
      else Outcome(false, "cannot clear value: " + c.driverError)
  }

  /** Setting and clearing succeed on the same containers: both go through
      the same focus, keystroke and script steps. */
  lemma SetAndClearAgree(c: Container, value: string)
    ensures SetValue(c, Some(value)).ok <==> ClearValue(c).ok
  {
  }
}
