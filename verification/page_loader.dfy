/** `load_page_config` (creatio_tests/utils/page_loader.py): a page built
    from a JSON configuration, its entries validated one by one. As written,
    the loop hands every validated entry to `add_field`, which always
    raises; the intended loader registers the fields instead. */
module PageLoader {
  import opened Wrappers
  import opened Strings
  import opened Values
  import opened Conversions
  import opened FieldTypes
  import OrderedMaps
  import PageObject
  import FieldFactory
  import Fields

  /** `_FIELD_TYPE_MAP`: the five upper-case type names. */
  function TypeOfName(t: string): Option<FieldType> {
    if t == "TEXT" then Some(Text)
    else if t == "NUMBER" then Some(Number)
    else if t == "BOOLEAN" then Some(Boolean)
    else if t == "DATETIME" then Some(DateTime)
    else if t == "LOOKUP" then Some(Lookup)
    else None
  }

  /** The name each field type goes by in a configuration. */
  function NameOfType(k: FieldType): string {
    match k
    case Text => "TEXT"
    case Number => "NUMBER"
    case Boolean => "BOOLEAN"
    case DateTime => "DATETIME"
    case Lookup => "LOOKUP"
  }

  /** The type map is a bijection between the five names and the five
      kinds. */
  lemma TypeNamesBijective(k: FieldType, t: string)
    ensures TypeOfName(NameOfType(k)) == Some(k)
    ensures TypeOfName(t).Some? ==> NameOfType(TypeOfName(t).value) == t
  {
  }

  /** A validated entry of the `fields` array: what the loop hands on to
      `add_field`. */
  datatype FieldSpec = FieldSpec(
    ftype: FieldType,
    code: string,
    title: Option<string>,
    readonly: Option<bool>,
    strictTitle: bool,
    required: Option<bool>,
    lookupValues: Option<seq<Value>>,
    wait: Option<int>)

  /** An optional boolean setting of an entry: absent or `null` gives
      `None`, anything else must have a lenient boolean reading. */
  function OptionalBool(d: map<string, Value>, key: string, code: string): (r: Result<Option<bool>, PyError>)
    ensures GetOptional(d, key).None? ==> r == Ok(None)
    ensures GetOptional(d, key).Some? ==> (r.Ok? <==> LenientBool(d[key]).Some?)
    ensures GetOptional(d, key).Some? && r.Ok? ==> r.value == LenientBool(d[key])
    ensures r.Err? ==> r.error == ValueError("invalid " + key + " for field " + code)
  {
    match GetOptional(d, key)
    case None => Ok(None)
    case Some(v) =>
      match LenientBool(v)
      case None => Err(ValueError("invalid " + key + " for field " + code))
      case Some(b) => Ok(Some(b))
  }

  /** The stripped, upper-cased `type` of an entry. */
  function TypeText(d: map<string, Value>): string {
    Upper(Trim(PyStr(Get(d, "type", Str("")))))
  }

  /** The stripped `code` of an entry. */
  function CodeText(d: map<string, Value>): string {
    Trim(PyStr(Get(d, "code", Str(""))))
  }

  /** One pass of the loop's validation, for the entry at index `idx`: the
      type must be one of the five names, the code must not be blank,
      `readonly` and `required` must read as booleans when given,
      `lookup_values` must be a list when given, and a per-field wait must
      convert to an integer. */
  function ParseField(idx: nat, f: Value): (r: Result<FieldSpec, PyError>)
    ensures !f.Dict? ==> r == Err(AttributeError(NoGetMessage(f)))
    ensures f.Dict? && TypeOfName(TypeText(f.entries)).None? ==>
      r == Err(ValueError("unknown field type at index " + IntToDecimal(idx) + ": " + ReprStr(TypeText(f.entries))))
    ensures f.Dict? && TypeOfName(TypeText(f.entries)).Some? && CodeText(f.entries) == "" ==>
      r == Err(ValueError("missing code for field at index " + IntToDecimal(idx)))
    ensures r.Ok? ==> f.Dict? && Some(r.value.ftype) == TypeOfName(TypeText(f.entries))
    ensures r.Ok? ==> r.value.code == CodeText(f.entries) && r.value.code != "" && IsTrimmed(r.value.code)
    ensures r.Ok? ==> r.value.strictTitle == LenientBool(Get(f.entries, "strict_title", Bool(true))).GetOr(false)
    ensures r.Ok? && GetOptional(f.entries, "lookup_values").Some? ==> GetOptional(f.entries, "lookup_values").value.List?
  {
    if !f.Dict? then Err(AttributeError(NoGetMessage(f)))
    else
      var d := f.entries;
      var tRaw := TypeText(d);
      match TypeOfName(tRaw)
      case None => Err(ValueError("unknown field type at index " + IntToDecimal(idx) + ": " + ReprStr(tRaw)))
      case Some(ftype) =>
        var code := CodeText(d);
        if code == "" then Err(ValueError("missing code for field at index " + IntToDecimal(idx)))
        else ParseSettings(ftype, code, d)
  }

  /** The rest of an entry, once its type and code are known: the title,
      the two optional flags, the strict-title flag, the lookup values and
      the per-field wait, validated in the loop's order. */
  function ParseSettings(ftype: FieldType, code: string, d: map<string, Value>): (r: Result<FieldSpec, PyError>)
    ensures r.Ok? <==> (OptionalBool(d, "readonly", code).Ok? && OptionalBool(d, "required", code).Ok?
                        && (GetOptional(d, "lookup_values").Some? ==> GetOptional(d, "lookup_values").value.List?)
                        && OptionalInt(d, "wait_timeout_sec").Ok?)
    ensures OptionalBool(d, "readonly", code).Err? ==> r == Err(OptionalBool(d, "readonly", code).error)
    ensures OptionalBool(d, "readonly", code).Ok? && OptionalBool(d, "required", code).Err? ==>
      r == Err(OptionalBool(d, "required", code).error)
    ensures (OptionalBool(d, "readonly", code).Ok? && OptionalBool(d, "required", code).Ok?
             && GetOptional(d, "lookup_values").Some? && !GetOptional(d, "lookup_values").value.List?) ==>
      r == Err(ValueError("lookup_values must be list for field " + code))
    ensures (r.Err? && OptionalBool(d, "readonly", code).Ok? && OptionalBool(d, "required", code).Ok?
             && (GetOptional(d, "lookup_values").Some? ==> GetOptional(d, "lookup_values").value.List?)) ==>
      r.error == OptionalInt(d, "wait_timeout_sec").error
    ensures r.Ok? ==> r.value.ftype == ftype && r.value.code == code
    ensures r.Ok? ==> (r.value.title.Some? <==> GetOptional(d, "title").Some?)
    ensures r.Ok? && r.value.title.Some? ==> r.value.title.value == PyStr(d["title"])
    ensures r.Ok? ==> (r.value.readonly == OptionalBool(d, "readonly", code).value
                       && r.value.required == OptionalBool(d, "required", code).value)
    ensures r.Ok? ==> r.value.strictTitle == LenientBool(Get(d, "strict_title", Bool(true))).GetOr(false)
    ensures r.Ok? ==> r.value.wait == OptionalInt(d, "wait_timeout_sec").value
    ensures r.Ok? ==> (r.value.lookupValues.Some? <==> GetOptional(d, "lookup_values").Some?)
    ensures r.Ok? && GetOptional(d, "lookup_values").Some? ==> r.value.lookupValues == Some(d["lookup_values"].items)
  {
    var title := if GetOptional(d, "title").Some? then Some(PyStr(d["title"])) else None;
    var readonly :- OptionalBool(d, "readonly", code);
    var strictTitle := LenientBool(Get(d, "strict_title", Bool(true))).GetOr(false);
    var required :- OptionalBool(d, "required", code);
    var lookup := GetOptional(d, "lookup_values");
    if lookup.Some? && !lookup.value.List? then Err(ValueError("lookup_values must be list for field " + code))
    else
      var wait :- OptionalInt(d, "wait_timeout_sec");
      var values := if lookup.Some? then Some(lookup.value.items) else None;
      Ok(FieldSpec(ftype, code, title, readonly, strictTitle, required, values, wait))
  }

  /** An optional setting written out: `null` for `None`. */
  function OrNull<T>(o: Option<T>, f: T -> Value): Value {
    if o.Some? then f(o.value) else Null
  }

  /** A field spec written out as a configuration entry. */
  function Render(s: FieldSpec): Value {
    Dict(map[
      "type" := Str(NameOfType(s.ftype)),
      "code" := Str(s.code),
      "title" := OrNull(s.title, t => Str(t)),
      "readonly" := OrNull(s.readonly, b => Bool(b)),
      "strict_title" := Bool(s.strictTitle),
      "required" := OrNull(s.required, b => Bool(b)),
      "lookup_values" := OrNull(s.lookupValues, (vs: seq<Value>) => List(vs)),
      "wait_timeout_sec" := OrNull(s.wait, w => Int(w))])
  }

  /** Upper-casing a text without lower-case letters changes nothing. */
  lemma UpperOfUpper(s: string)
    requires forall i :: 0 <= i < |s| ==> !('a' <= s[i] <= 'z')
    ensures Upper(s) == s
  {
  }

  /** A type name reads back as itself. */
  lemma TypeTextOfName(k: FieldType)
    ensures Upper(Trim(NameOfType(k))) == NameOfType(k)
  {
    var t := NameOfType(k);
    assert IsTrimmed(t);
    TrimOfTrimmed(t);
    UpperOfUpper(t);
  }

  /** What the written-out entry holds under the keys of the type and the
      code. */
  lemma RenderedEntries(s: FieldSpec)
    ensures Render(s).Dict?
    ensures Get(Render(s).entries, "type", Str("")) == Str(NameOfType(s.ftype))
    ensures Get(Render(s).entries, "code", Str("")) == Str(s.code)
  {
  }

  /** What the written-out entry holds under the keys of the title and the
      strict-title flag. */
  lemma RenderedTitle(s: FieldSpec)
    ensures GetOptional(Render(s).entries, "title") == (if s.title.Some? then Some(Str(s.title.value)) else None)
    ensures Get(Render(s).entries, "strict_title", Bool(true)) == Bool(s.strictTitle)
  {
  }

  /** What the written-out entry holds under the keys of the optional
      settings. */
  lemma RenderedOptions(s: FieldSpec)
    ensures GetOptional(Render(s).entries, "readonly") == (if s.readonly.Some? then Some(Bool(s.readonly.value)) else None)
    ensures GetOptional(Render(s).entries, "required") == (if s.required.Some? then Some(Bool(s.required.value)) else None)
    ensures GetOptional(Render(s).entries, "wait_timeout_sec") == (if s.wait.Some? then Some(Int(s.wait.value)) else None)
  {
  }

  /** The written-out lookup values read back as the spec's. */
  lemma RenderedLookups(s: FieldSpec)
    ensures s.lookupValues.None? ==> GetOptional(Render(s).entries, "lookup_values").None?
    ensures s.lookupValues.Some? ==> (GetOptional(Render(s).entries, "lookup_values").Some?
      && GetOptional(Render(s).entries, "lookup_values").value.List?
      && GetOptional(Render(s).entries, "lookup_values").value.items == s.lookupValues.value)
  {
  }

  /** The settings of a written-out entry read back as the spec's. */
  lemma RenderedSettings(s: FieldSpec)
    ensures OptionalBool(Render(s).entries, "readonly", s.code) == Ok(s.readonly)
    ensures OptionalBool(Render(s).entries, "required", s.code) == Ok(s.required)
    ensures LenientBool(Get(Render(s).entries, "strict_title", Bool(true))).GetOr(false) == s.strictTitle
    ensures OptionalInt(Render(s).entries, "wait_timeout_sec") == Ok(s.wait)
  {
    RenderedTitle(s);
    RenderedOptions(s);
    if s.wait.Some? {
      IntOfRendered(s.wait.value);
    }
  }

  /** The settings of a written-out entry validate into the spec. */
  lemma SettingsRendered(s: FieldSpec)
    ensures ParseSettings(s.ftype, s.code, Render(s).entries) == Ok(s)
  {
    RenderedTitle(s);
    RenderedLookups(s);
    RenderedSettings(s);
  }

  /** Writing a spec out and validating it again gives the spec back, as
      long as its code is a non-blank stripped text. */
  lemma ParseRendered(idx: nat, s: FieldSpec)
    requires s.code != "" && IsTrimmed(s.code)
    ensures ParseField(idx, Render(s)) == Ok(s)
  {
    var d := Render(s).entries;
    RenderedEntries(s);
    TypeTextOfName(s.ftype);
    TypeNamesBijective(s.ftype, NameOfType(s.ftype));
    assert TypeText(d) == NameOfType(s.ftype);
    TrimOfTrimmed(s.code);
    assert CodeText(d) == s.code;
    SettingsRendered(s);
  }

  /** The top of `load_page_config`: the file must exist and hold a JSON
      object; the page gets its stripped name (or `Page`), the default wait
      (30 unless given, through `int`) and the debug flag; the `fields`
      array must be a non-empty list. */
  function LoadHeader(files: Files, configPath: Option<string>): (r: Result<(PageObject.Page, seq<Value>), PyError>)
    ensures ConfigPath(configPath, "page.json") !in files ==>
      r == Err(FileNotFoundError("config file not found: " + ConfigPath(configPath, "page.json")))
    ensures r.Ok? ==> ConfigPath(configPath, "page.json") in files && files[ConfigPath(configPath, "page.json")].Parsed?
    ensures r.Ok? ==> r.value.0.fields.Valid() && r.value.0.fields.keys == [] && |r.value.1| > 0
    ensures r.Ok? ==> r.value.0.name != "" && IsTrimmed(r.value.0.name)
    ensures ConfigPath(configPath, "page.json") in files ==>
      var file := files[ConfigPath(configPath, "page.json")];
      && (file.Malformed? ==> r == Err(JsonDecodeError(file.error)))
      && (file.Parsed? && !file.data.Dict? ==> r == Err(AttributeError(NoGetMessage(file.data))))
      && (file.Parsed? && file.data.Dict? ==> HeaderOf(file.data.entries, r))
  {
    var path := ConfigPath(configPath, "page.json");
    if path !in files then Err(FileNotFoundError("config file not found: " + path))
    else
      match files[path]
      case Malformed(e) => Err(JsonDecodeError(e))
      case Parsed(data) =>
        if !data.Dict? then Err(AttributeError(NoGetMessage(data)))
        else
          var d := data.entries;
          var stripped := Trim(PyStr(Get(d, "name", Str("Page"))));
          var name := if stripped == "" then "Page" else stripped;
          var wait :- IntOf(Get(d, "wait_timeout_sec", Int(30)));
          var debug := LenientBool(Get(d, "debug", Bool(false))).GetOr(false);
          var fields := Get(d, "fields", List([]));
          if !fields.List? || fields.items == [] then Err(ValueError("fields array is empty"))
          else Ok((PageObject.New(name, wait, debug), fields.items))
  }

  /** What the top of the loader makes of a configuration object: the name
      (stripped, `"Page"` when blank), the default wait through `int(v)`,
      the debug flag by its lenient reading, and a non-empty `fields`
      list. */
  predicate HeaderOf(d: map<string, Value>, r: Result<(PageObject.Page, seq<Value>), PyError>) {
    var w := Get(d, "wait_timeout_sec", Int(30));
    var fields := Get(d, "fields", List([]));
    && (IntOf(w).Err? ==> r == Err(IntOf(w).error))
    && (IntOf(w).Ok? && (!fields.List? || fields.items == []) ==> r == Err(ValueError("fields array is empty")))
    && (r.Ok? <==> IntOf(w).Ok? && fields.List? && fields.items != [])
    && (r.Ok? ==> r.value.1 == fields.items && r.value.0.defaultWait == IntOf(w).value)
    && (r.Ok? ==> r.value.0.debug == LenientBool(Get(d, "debug", Bool(false))).GetOr(false))
    && (r.Ok? && Trim(PyStr(Get(d, "name", Str("Page")))) != "" ==> r.value.0.name == Trim(PyStr(Get(d, "name", Str("Page")))))
    && (r.Ok? && Trim(PyStr(Get(d, "name", Str("Page")))) == "" ==> r.value.0.name == "Page")
  }

  /** The `TypeError` every `add_field` call of the loop raises. */
  const AddFieldError := TypeError(FieldFactory.RequiredKeywordError)

  /** The first pass of the loop as written: the entry is validated, then
      handed to `add_field` together with `required=`, which raises, so the
      loop never reaches a second entry. */
  function FirstEntryAsWritten(p: PageObject.Page, f: Value): (r: Result<PageObject.Page, PyError>)
    ensures r.Err?
    ensures ParseField(0, f).Err? ==> r == Err(ParseField(0, f).error)
    ensures ParseField(0, f).Ok? ==> r == Err(AddFieldError)
  {
    var s :- ParseField(0, f);
    match PageObject.AddField(p, FieldFactory.Kind(s.ftype), s.code, s.title, s.readonly, s.strictTitle,
                              s.required, s.lookupValues, s.wait)
    case Err(e) => Err(TypeError(e))
    case Ok(_) => assert false; Err(AddFieldError)
  }

  /** `load_page_config(client, config_path)` as written. The `fields`
      array is never empty here, so its first entry either fails validation
      or reaches `add_field`: the call never returns a page. */
  function LoadPageConfig(files: Files, configPath: Option<string>): (r: Result<PageObject.Page, PyError>)
    ensures r.Err?
    ensures LoadHeader(files, configPath).Err? ==> r == Err(LoadHeader(files, configPath).error)
    ensures LoadHeader(files, configPath).Ok? ==>
      var first := ParseField(0, LoadHeader(files, configPath).value.1[0]);
      r == Err(if first.Err? then first.error else AddFieldError)
  {
    var (p, fields) :- LoadHeader(files, configPath);
    FirstEntryAsWritten(p, fields[0])
  }

  /** The field a spec registers on page `p`. */
  function Register(p: PageObject.Page, s: FieldSpec): (r: PageObject.Page)
    requires p.fields.Valid()
    ensures r.fields.Valid()
    ensures r.name == p.name && r.defaultWait == p.defaultWait && r.debug == p.debug
  {
    PageObject.AddFieldIntended(p, FieldFactory.Kind(s.ftype), s.code, s.title, s.readonly, s.strictTitle, s.lookupValues, s.wait)
  }

  /** The loop as evidently intended, from entry `idx` on: each entry is
      validated and registered, `required` is validated and dropped. */
  function LoadFieldsIntended(p: PageObject.Page, fields: seq<Value>, idx: nat): (r: Result<PageObject.Page, PyError>)
    requires p.fields.Valid() && idx <= |fields|
    decreases |fields| - idx
  {
    if idx == |fields| then Ok(p)
    else
      var s :- ParseField(idx, fields[idx]);
      LoadFieldsIntended(Register(p, s), fields, idx + 1)
  }

  /** The values of a run of results, or the first error among them. */
  function Sequence<T, E>(rs: seq<Result<T, E>>): (r: Result<seq<T>, E>)
    ensures r.Ok? ==> |r.value| == |rs|
    decreases |rs|
  {
    if rs == [] then Ok([])
    else
      var x :- rs[0];
      var rest :- Sequence(rs[1..]);
      Ok([x] + rest)
  }

  /** A run succeeds exactly when every result does, and then it holds
      their values in order. */
  lemma {:induction false} SequenceOk<T, E>(rs: seq<Result<T, E>>)
    ensures Sequence(rs).Ok? <==> forall j :: 0 <= j < |rs| ==> rs[j].Ok?
    ensures Sequence(rs).Ok? ==> forall j :: 0 <= j < |rs| ==> Sequence(rs).value[j] == rs[j].value
    decreases |rs|
  {
    if rs != [] {
      SequenceOk(rs[1..]);
      assert forall j :: 1 <= j < |rs| ==> rs[j] == rs[1..][j - 1];
    }
  }

  /** A failing run fails with the error of its first failing result. */
  lemma {:induction false} SequenceFirstError<T, E>(rs: seq<Result<T, E>>, j: nat)
    requires j < |rs| && rs[j].Err?
    requires forall m :: 0 <= m < j ==> rs[m].Ok?
    ensures Sequence(rs) == Err(rs[j].error)
    decreases j
  {
    if j > 0 {
      assert rs[1..][j - 1] == rs[j];
      SequenceFirstError(rs[1..], j - 1);
    }
  }

  /** The validation result of every entry, by index. */
  function Results(fields: seq<Value>): seq<Result<FieldSpec, PyError>> {
    seq(|fields|, j requires 0 <= j < |fields| => ParseField(j, fields[j]))
  }

  /** Validating every entry, stopping at the first that fails. */
  function ParseAll(fields: seq<Value>): (r: Result<seq<FieldSpec>, PyError>)
    ensures r.Ok? ==> |r.value| == |fields|
  {
    Sequence(Results(fields))
  }

  /** The entries validate exactly when each of them does. */
  lemma ParseAllOkIff(fields: seq<Value>)
    ensures ParseAll(fields).Ok? <==> forall m :: 0 <= m < |fields| ==> ParseField(m, fields[m]).Ok?
  {
    var rs := Results(fields);
    SequenceOk(rs);
    assert forall m :: 0 <= m < |fields| ==> rs[m] == ParseField(m, fields[m]);
  }

  /** When they validate, each entry gives its own spec, in order. */
  lemma ParseAllAt(fields: seq<Value>, j: nat)
    requires ParseAll(fields).Ok? && j < |fields|
    ensures ParseField(j, fields[j]) == Ok(ParseAll(fields).value[j])
  {
    var rs := Results(fields);
    SequenceOk(rs);
    assert rs[j] == ParseField(j, fields[j]);
  }

  /** Otherwise the first entry that fails gives the error. */
  lemma ParseAllFirstError(fields: seq<Value>, j: nat)
    requires j < |fields| && ParseField(j, fields[j]).Err?
    requires forall m :: 0 <= m < j ==> ParseField(m, fields[m]).Ok?
    ensures ParseAll(fields) == Err(ParseField(j, fields[j]).error)
  {
    var rs := Results(fields);
    assert forall m :: 0 <= m < j ==> rs[m].Ok?;
    SequenceFirstError(rs, j);
  }

  /** Registering validated specs one after the other. */
  function RegisterAll(p: PageObject.Page, specs: seq<FieldSpec>): (r: PageObject.Page)
    requires p.fields.Valid()
    ensures r.fields.Valid()
    ensures r.name == p.name && r.defaultWait == p.defaultWait && r.debug == p.debug
    decreases |specs|
  {
    if specs == [] then p else RegisterAll(Register(p, specs[0]), specs[1..])
  }

  /** Validation and registration interleaved, as the loop does them, give
      what validating everything first and registering afterwards gives:
      an error aborts the whole call either way. */
  lemma {:induction false} TwoPhases(p: PageObject.Page, fields: seq<Value>, idx: nat)
    requires p.fields.Valid() && idx <= |fields|
    ensures Sequence(Results(fields)[idx..]).Err? ==>
      LoadFieldsIntended(p, fields, idx) == Err(Sequence(Results(fields)[idx..]).error)
    ensures Sequence(Results(fields)[idx..]).Ok? ==>
      LoadFieldsIntended(p, fields, idx) == Ok(RegisterAll(p, Sequence(Results(fields)[idx..]).value))
    decreases |fields| - idx
  {
    if idx < |fields| {
      var rs := Results(fields)[idx..];
      assert rs[0] == ParseField(idx, fields[idx]);
      assert rs[1..] == Results(fields)[idx + 1..];
      if ParseField(idx, fields[idx]).Ok? {
        var s := ParseField(idx, fields[idx]).value;
        TwoPhases(Register(p, s), fields, idx + 1);
        if Sequence(rs).Ok? {
          assert Sequence(rs).value[1..] == Sequence(rs[1..]).value;
        }
      }
    }
  }

  /** The codes of the specs, in order. */
  function Codes(specs: seq<FieldSpec>): (r: seq<string>)
    ensures |r| == |specs| && forall i :: 0 <= i < |specs| ==> r[i] == specs[i].code
  {
    seq(|specs|, i requires 0 <= i < |specs| => specs[i].code)
  }

  /** After registration the page holds exactly its earlier codes and the
      codes of the specs. */
  lemma {:induction false} RegisterAllCodes(p: PageObject.Page, specs: seq<FieldSpec>, k: string)
    requires p.fields.Valid()
    ensures k in RegisterAll(p, specs).fields.items <==> k in p.fields.items || k in Codes(specs)
    decreases |specs|
  {
    if specs != [] {
      RegisterAllCodes(Register(p, specs[0]), specs[1..], k);
      assert Codes(specs) == [specs[0].code] + Codes(specs[1..]);
    }
  }

  /** Registration appends: the codes the page already had keep their
      positions. */
  lemma {:induction false} RegisterAllAppends(p: PageObject.Page, specs: seq<FieldSpec>)
    requires p.fields.Valid()
    ensures |p.fields.keys| <= |RegisterAll(p, specs).fields.keys|
    ensures RegisterAll(p, specs).fields.keys[..|p.fields.keys|] == p.fields.keys
    decreases |specs|
  {
    if specs != [] {
      var q := Register(p, specs[0]);
      RegisterAllAppends(q, specs[1..]);
      assert q.fields.keys[..|p.fields.keys|] == p.fields.keys;
    }
  }

  /** The field that registering spec `s` on page `p` creates. */
  function FieldOf(p: PageObject.Page, s: FieldSpec): Fields.Field {
    FieldFactory.Create(FieldFactory.Kind(s.ftype), s.code, s.title, s.readonly, s.strictTitle,
      PageObject.FieldContext(p, s.code, s.wait), s.lookupValues, false).value
  }

  /** The last spec with a given code decides that code's field; codes
      that no spec names keep their field. */
  lemma {:induction false} RegisterAllLastWins(p: PageObject.Page, specs: seq<FieldSpec>, j: nat)
    requires p.fields.Valid() && j < |specs|
    requires forall m :: j < m < |specs| ==> specs[m].code != specs[j].code
    ensures specs[j].code in RegisterAll(p, specs).fields.items
    ensures RegisterAll(p, specs).fields.items[specs[j].code] == FieldOf(p, specs[j])
    decreases |specs|
  {
    var q := Register(p, specs[0]);
    if j == 0 {
      RegisterAllUntouched(q, specs[1..], specs[0].code);
    } else {
      RegisterAllLastWins(q, specs[1..], j - 1);
    }
  }

  /** A code no spec names keeps what it had. */
  lemma {:induction false} RegisterAllUntouched(p: PageObject.Page, specs: seq<FieldSpec>, k: string)
    requires p.fields.Valid() && k !in Codes(specs)
    ensures OrderedMaps.Get(RegisterAll(p, specs).fields, k) == OrderedMaps.Get(p.fields, k)
    decreases |specs|
  {
    if specs != [] {
      var q := Register(p, specs[0]);
      assert Codes(specs) == [specs[0].code] + Codes(specs[1..]);
      RegisterAllUntouched(q, specs[1..], k);
    }
  }

  /** `load_page_config(client, config_path)` as evidently intended: a page
      is returned exactly when the header and every entry validate, and it
      holds the fields the specs register, in order. */
  function LoadPageConfigIntended(files: Files, configPath: Option<string>): (r: Result<PageObject.Page, PyError>)
    ensures r.Ok? <==> LoadHeader(files, configPath).Ok? && ParseAll(LoadHeader(files, configPath).value.1).Ok?
    ensures LoadHeader(files, configPath).Err? ==> r == Err(LoadHeader(files, configPath).error)
    ensures LoadHeader(files, configPath).Ok? && ParseAll(LoadHeader(files, configPath).value.1).Err? ==>
      r == Err(ParseAll(LoadHeader(files, configPath).value.1).error)
    ensures r.Ok? ==>
      r.value == RegisterAll(LoadHeader(files, configPath).value.0, ParseAll(LoadHeader(files, configPath).value.1).value)
    ensures r.Ok? ==> r.value.fields.Valid() && r.value.name != "" && IsTrimmed(r.value.name)
  {
    var (p, fields) :- LoadHeader(files, configPath);
    TwoPhases(p, fields, 0);
    assert Results(fields)[0..] == Results(fields);
    LoadFieldsIntended(p, fields, 0)
  }

  /** Wherever the intended loader returns a page, the loader as written
      raises the `TypeError` of `add_field` instead. */
  lemma AsWrittenNeverLoads(files: Files, configPath: Option<string>)
    ensures LoadPageConfigIntended(files, configPath).Ok? ==> LoadPageConfig(files, configPath) == Err(AddFieldError)
  {
    if LoadPageConfigIntended(files, configPath).Ok? {
      var fields := LoadHeader(files, configPath).value.1;
      assert ParseField(0, fields[0]).Ok?;
    }
  }
}
