/** `PageObject` (creatio_tests/page/page_object.py): the fields configured
    for one page, registered by code, and their aggregated checks. Fields
    are located again for every check; which containers are found is an
    input. */
module PageObject {
  import opened Wrappers
  import opened FieldTypes
  import opened ValidationResults
  import opened OrderedMaps
  import Fields
  import Values
  import FieldFactory
  import OverlayService
  import Strings

  datatype Page = Page(name: string, defaultWait: int, debug: bool, fields: OrderedMap<string, Fields.Field>)

  /** A page without fields. */
  function New(name: string, defaultWait: int, debug: bool): (p: Page)
    ensures p.fields.Valid() && p.fields.keys == []
  {
    Page(name, defaultWait, debug, Empty())
  }

  /** `wait_timeout_sec or default`: both a missing and a zero timeout fall
      back to the page's default. */
  function WaitOrDefault(w: Option<int>, default: int): (r: int)
    ensures w.None? || w == Some(0) ==> r == default
    ensures w.Some? && w.value != 0 ==> r == w.value
  {
    if w.Some? && w.value != 0 then w.value else default
  }

  /** The context `add_field` gives a field: the per-field or default
      timeout, the page's debug flag, and a `[page][code]` prefix. */
  function FieldContext(p: Page, code: string, wait: Option<int>): (ctx: CheckContext)
    ensures ctx.waitTimeoutSec == WaitOrDefault(wait, p.defaultWait) && ctx.debug == p.debug
    ensures ctx.prefix == "[" + p.name + "][" + code + "]"
  {
    CheckContext(WaitOrDefault(wait, p.defaultWait), p.debug, "[" + p.name + "][" + code + "]")
  }

  /** `_log(code, msg)`: one `[page][code] msg` line when debugging. */
  function Log(p: Page, code: string, msg: string): (out: seq<string>)
    ensures !p.debug ==> out == []
    ensures p.debug ==> |out| == 1 && out[0] == FieldContext(p, code, None).prefix + " " + msg
  {
    if p.debug then ["[" + p.name + "][" + code + "] " + msg] else []
  }

  /** `add_field(...)` as written: it always hands `required=` on to
      `FieldFactory.create`, which has no such parameter, so every call
      raises the `TypeError` and the page is never changed. */
  function AddField(p: Page, ftype: FieldFactory.TypeArg, code: string, title: Option<string>,
                    readonly: Option<bool>, strictTitle: bool, required: Option<bool>,
                    lookupValues: Option<seq<Values.Value>>, wait: Option<int>): (r: Result<Page, string>)
    ensures r == Err(FieldFactory.RequiredKeywordError)
  {
    match FieldFactory.Create(ftype, code, title, readonly, strictTitle, FieldContext(p, code, wait), lookupValues, true)
    case Err(e) => Err(e)
    case Ok(f) =>
      var keys := if code in p.fields.items then p.fields.keys else p.fields.keys + [code];
      Ok(p.(fields := OrderedMap(keys, p.fields.items[code := f])))
  }

  /** `add_field(...)` as evidently intended, without `required`: the field
      is created and registered under its code, replacing an earlier field
      with that code in place. */
  function AddFieldIntended(p: Page, ftype: FieldFactory.TypeArg, code: string, title: Option<string>,
                            readonly: Option<bool>, strictTitle: bool,
                            lookupValues: Option<seq<Values.Value>>, wait: Option<int>): (r: Page)
    requires p.fields.Valid()
    ensures r.fields.Valid()
    ensures r.name == p.name && r.defaultWait == p.defaultWait && r.debug == p.debug
    ensures code in r.fields.items
    ensures r.fields.items[code].code == code && r.fields.items[code].kind == FieldFactory.KindOf(ftype)
    ensures r.fields.items[code].ctx == FieldContext(p, code, wait)
    ensures (r.fields.items[code].title == title && r.fields.items[code].readonly == readonly
             && r.fields.items[code].strictTitle == strictTitle)
    ensures r.fields.items[code].expectedOptions ==
      (if FieldFactory.KindOf(ftype) == Lookup then lookupValues.GetOr([]) else [])
    ensures forall k :: k != code ==> Get(r.fields, k) == Get(p.fields, k)
    ensures code in p.fields.items ==> r.fields.keys == p.fields.keys
    ensures code !in p.fields.items ==> r.fields.keys == p.fields.keys + [code]
  {
    var f := FieldFactory.Create(ftype, code, title, readonly, strictTitle, FieldContext(p, code, wait), lookupValues, false).value;
    p.(fields := Put(p.fields, code, f))
  }

  /** The last registration of a code wins. */
  lemma AddFieldLastWins(p: Page, code: string, a: FieldFactory.TypeArg, b: FieldFactory.TypeArg,
                         title: Option<string>, lookupValues: Option<seq<Values.Value>>, wait: Option<int>)
    requires p.fields.Valid()
    ensures AddFieldIntended(AddFieldIntended(p, a, code, None, None, true, None, None), b, code, title, None, true, lookupValues, wait)
         == AddFieldIntended(p, b, code, title, None, true, lookupValues, wait)
  {
    var once := AddFieldIntended(p, a, code, None, None, true, None, None);
    var twice := AddFieldIntended(once, b, code, title, None, true, lookupValues, wait);
    var direct := AddFieldIntended(p, b, code, title, None, true, lookupValues, wait);
    assert twice.fields.items == direct.fields.items;
  }

  /** The `check_all` report: the overall flag, and one verdict per code in
      registration order. */
  datatype Report = Report(allOk: bool, results: seq<(string, ValidationResult)>)

  /** Folding verdicts into a report: every entry is kept, and the overall
      flag is the conjunction of theirs. */
  function Aggregate(entries: seq<(string, ValidationResult)>): (r: Report)
    ensures r.results == entries
    ensures r.allOk <==> forall i :: 0 <= i < |entries| ==> entries[i].1.ok
  {
    if entries == [] then Report(true, [])
    else
      var rest := Aggregate(entries[1..]);
      Report(entries[0].1.ok && rest.allOk, entries)
  }

  /** The verdict for one registered code: `field not found` when the page
      has no element for it, else the field's own check. */
  function Verdict(p: Page, found: map<string, Fields.Container>, code: string): (r: Result<ValidationResult, OverlayService.Raised>)
    requires code in p.fields.items
    ensures code !in found ==> r == Ok(ValidationResult(false, "field not found", map["code" := TextValue(code)]))
    ensures code in found ==> r == FieldFactory.CheckField(p.fields.items[code], found[code])
  {
    if code !in found then Ok(ValidationResult(false, "field not found", map["code" := TextValue(code)]))
    else FieldFactory.CheckField(p.fields.items[code], found[code])
  }

  /** The verdicts of the codes from position `k` on, stopping only when a
      check raises. */
  function VerdictsFrom(p: Page, found: map<string, Fields.Container>, k: nat): (r: Result<seq<(string, ValidationResult)>, OverlayService.Raised>)
    requires p.fields.Valid() && k <= |p.fields.keys|
    ensures r.Ok? ==> |r.value| == |p.fields.keys| - k
    ensures r.Ok? ==> forall i :: k <= i < |p.fields.keys| ==>
      r.value[i - k].0 == p.fields.keys[i] && Verdict(p, found, p.fields.keys[i]) == Ok(r.value[i - k].1)
    ensures r.Err? <==> exists i :: k <= i < |p.fields.keys| && Verdict(p, found, p.fields.keys[i]).Err?
    decreases |p.fields.keys| - k
  {
    if k == |p.fields.keys| then Ok([])
    else
      var code := p.fields.keys[k];
      var v :- Verdict(p, found, code);
      var rest :- VerdictsFrom(p, found, k + 1);
      Ok([(code, v)] + rest)
  }

  /** `check_all()`: every registered field is checked, failures do not
      stop the loop, and the report is ok exactly when every verdict is. A
      lookup check that raises ends the whole call. */
  function CheckAll(p: Page, found: map<string, Fields.Container>): (r: Result<Report, OverlayService.Raised>)
    requires p.fields.Valid()
    ensures r.Ok? ==> |r.value.results| == |p.fields.keys|
    ensures r.Ok? ==> forall i :: 0 <= i < |p.fields.keys| ==>
      r.value.results[i].0 == p.fields.keys[i] && Verdict(p, found, p.fields.keys[i]) == Ok(r.value.results[i].1)
    ensures r.Ok? ==> (r.value.allOk <==> forall i :: 0 <= i < |r.value.results| ==> r.value.results[i].1.ok)
    ensures r.Err? <==> exists i :: 0 <= i < |p.fields.keys| && Verdict(p, found, p.fields.keys[i]).Err?
  {
    var entries :- VerdictsFrom(p, found, 0);
    Ok(Aggregate(entries))
  }

  /** The debug lines `check_all` writes for a report: one
      `[page][code] message` line per verdict, in the report's order, and
      none when the page is not debugging. */
  function CheckAllLog(p: Page, results: seq<(string, ValidationResult)>): (out: seq<string>)
    ensures !p.debug ==> out == []
    ensures p.debug ==> |out| == |results|
    ensures p.debug ==> forall i :: 0 <= i < |results| ==>
      out[i] == FieldContext(p, results[i].0, None).prefix + " " + results[i].1.message
  {
    if results == [] then []
    else Log(p, results[0].0, results[0].1.message) + CheckAllLog(p, results[1..])
  }

  /** With debugging on, the line for a verdict starts with the
      `[page][code] ` prefix of that verdict's field. */
  lemma LogLineNamesField(p: Page, results: seq<(string, ValidationResult)>, i: nat)
    requires p.debug && i < |results|
    ensures Strings.StartsWith(CheckAllLog(p, results)[i], "[" + p.name + "][" + results[i].0 + "] ")
  {
    var head := "[" + p.name + "][" + results[i].0 + "] ";
    assert CheckAllLog(p, results)[i] == head + results[i].1.message;
    assert (head + results[i].1.message)[..|head|] == head;
  }

  /** With debugging on, `check_all` writes one line per registered field,
      in registration order, each naming its field. */
  lemma CheckAllLogsEveryField(p: Page, found: map<string, Fields.Container>, i: nat)
    requires p.fields.Valid() && p.debug && i < |p.fields.keys|
    ensures CheckAll(p, found).Ok? ==>
      |CheckAllLog(p, CheckAll(p, found).value.results)| == |p.fields.keys| &&
      Strings.StartsWith(CheckAllLog(p, CheckAll(p, found).value.results)[i], "[" + p.name + "][" + p.fields.keys[i] + "] ")
  {
    var r := CheckAll(p, found);
    if r.Ok? {
      assert r.value.results[i].0 == p.fields.keys[i];
      LogLineNamesField(p, r.value.results, i);
    }
  }

  /** A code the page cannot find fails on its own without hiding the other
      verdicts. */
  lemma MissingFieldFailsReport(p: Page, found: map<string, Fields.Container>, i: nat)
    requires p.fields.Valid() && i < |p.fields.keys| && p.fields.keys[i] !in found
    requires CheckAll(p, found).Ok?
    ensures !CheckAll(p, found).value.allOk
    ensures CheckAll(p, found).value.results[i].1 == ValidationResult(false, "field not found", map["code" := TextValue(p.fields.keys[i])])
  {
  }

  /** The class a field of each kind belongs to. */
  function ClassName(k: FieldType): string {
    match k
    case Text => "TextField"
    case Number => "NumberField"
    case Boolean => "BooleanField"
    case DateTime => "DateTimeField"
    case Lookup => "LookupField"
  }

  /** `await_check_all(...)` as written: it calls `await_for_check` on the
      first field, which no field class defines, so any page with a field
      raises an `AttributeError`; an empty page reports success. */
  function AwaitCheckAll(p: Page): (r: Result<Report, string>)
    requires p.fields.Valid()
    ensures p.fields.keys == [] <==> r.Ok?
    ensures r.Ok? ==> r.value == Report(true, [])
    ensures r.Err? ==> r.error == "'" + ClassName(p.fields.items[p.fields.keys[0]].kind) + "' object has no attribute 'await_for_check'"
  {
    if p.fields.keys == [] then Ok(Report(true, []))
    else Err("'" + ClassName(p.fields.items[p.fields.keys[0]].kind) + "' object has no attribute 'await_for_check'")
  }

  /** `await_check_all(...)` as evidently intended: one awaited verdict per
      registered field, in registration order, aggregated like
      `check_all`. */
  function AwaitCheckAllIntended(p: Page, verdicts: seq<ValidationResult>): (r: Report)
    requires p.fields.Valid() && |verdicts| == |p.fields.keys|
    ensures |r.results| == |p.fields.keys|
    ensures forall i :: 0 <= i < |p.fields.keys| ==> r.results[i] == (p.fields.keys[i], verdicts[i])
    ensures r.allOk <==> forall i :: 0 <= i < |verdicts| ==> verdicts[i].ok
  {
    Aggregate(seq(|verdicts|, i requires 0 <= i < |verdicts| => (p.fields.keys[i], verdicts[i])))
  }

  /** Awaiting verdicts that agree with `check_all`'s gives `check_all`'s
      report: the two aggregate alike. */
  lemma AwaitAggregatesLikeCheckAll(p: Page, found: map<string, Fields.Container>)
    requires p.fields.Valid() && CheckAll(p, found).Ok?
    ensures AwaitCheckAllIntended(p, seq(|p.fields.keys|, i requires 0 <= i < |p.fields.keys| =>
      CheckAll(p, found).value.results[i].1)) == CheckAll(p, found).value
  {
    var rep := CheckAll(p, found).value;
    var vs := seq(|p.fields.keys|, i requires 0 <= i < |p.fields.keys| => rep.results[i].1);
    var r := AwaitCheckAllIntended(p, vs);
    assert r.results == rep.results;
  }
}
