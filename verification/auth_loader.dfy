/** `load_auth` (creatio_tests/utils/auth_loader.py): reads the login
    settings of a test run from a JSON file and builds the authorisation
    client from them. The file system is the `Files` map. */
module AuthLoader {
  import opened Wrappers
  import opened Strings
  import opened Values
  import opened Conversions
  import AuthPage

  /** The message of the `ValueError` `_as_bool` raises. */
  function CastMessage(v: Value): string {
    "cannot cast to bool: " + Repr(v)
  }

  /** `_as_bool(x)`: a boolean as it is, one of the ten words after
      `strip().lower()`, a number by its truthiness; every other value,
      including every other string, raises a `ValueError`. */
  function AsBool(v: Value): (r: Result<bool, PyError>)
    ensures v.Bool? ==> r == Ok(v.b)
    ensures v.Int? || v.Float? ==> r == Ok(Truthy(v))
    ensures v.Str? ==> (r == Ok(true) <==> Lower(Trim(v.s)) in TrueWords)
    ensures v.Str? ==> (r == Ok(false) <==> Lower(Trim(v.s)) !in TrueWords && Lower(Trim(v.s)) in FalseWords)
    ensures v.Null? || v.List? || v.Dict? ==> r.Err?
    ensures r.Err? ==> r.error == ValueError(CastMessage(v))
  {
    match v
    case Bool(b) => Ok(b)
    case Str(s) =>
      var w := Lower(Trim(s));
      if w in TrueWords then Ok(true)
      else if w in FalseWords then Ok(false)
      else Err(ValueError(CastMessage(v)))
    case Int(i) => Ok(i != 0)
    case Float(f) => Ok(f != 0.0)
    case _ => Err(ValueError(CastMessage(v)))
  }

  /** The strict cast accepts exactly what the page loader's lenient one
      reads, and reads it the same way. */
  lemma AsBoolAgreesWithLenient(v: Value)
    ensures AsBool(v).Ok? <==> LenientBool(v).Some?
    ensures AsBool(v).Ok? ==> AsBool(v).value == LenientBool(v).value
  {
    WordsDisjoint();
    if v.Str? {
      var w := Lower(Trim(v.s));
      assert w in FalseWords ==> w !in TrueWords;
    }
  }

  /** The four settings the file must give. */
  const RequiredKeys: seq<string> := ["base_url", "username", "password", "test_url"]

  /** A key of a dict counts as missing when it is absent, `null`, or its
      `str` is blank. */
  predicate Blank(d: map<string, Value>, k: string) {
    GetOptional(d, k).None? || Trim(PyStr(d[k])) == ""
  }

  /** Every required key is there with a non-blank value. */
  predicate Complete(d: map<string, Value>) {
    !Blank(d, "base_url") && !Blank(d, "username") && !Blank(d, "password") && !Blank(d, "test_url")
  }

  /** `Complete` is the condition for each key of `RequiredKeys`. */
  lemma CompleteIsEveryKey(d: map<string, Value>)
    ensures Complete(d) <==> forall i :: 0 <= i < |RequiredKeys| ==> !Blank(d, RequiredKeys[i])
  {
    assert RequiredKeys[0] == "base_url" && RequiredKeys[1] == "username";
    assert RequiredKeys[2] == "password" && RequiredKeys[3] == "test_url";
  }

  /** The `TypeError` of `k in v` on a value that is not a container. */
  function NotIterableMessage(v: Value): string {
    "argument of type '" + TypeName(v) + "' is not iterable"
  }

  /** One test of the `missing` comprehension on whatever the file parsed
      to. On a dict it is `Blank`. On a list or a string, `k in data` is
      membership or substring: a key found there goes on to `data.get`,
      which raises, and a key not found counts as missing. On anything else
      `in` itself raises. */
  function KeyMissing(data: Value, k: string): (r: Result<bool, PyError>)
    ensures data.Dict? ==> r == Ok(Blank(data.entries, k))
    ensures r.Ok? && !data.Dict? ==> r.value
    ensures data.Null? || data.Bool? || data.Int? || data.Float? ==> r == Err(TypeError(NotIterableMessage(data)))
  {
    match data
    case Dict(d) => Ok(Blank(d, k))
    case List(items) => if Str(k) in items then Err(AttributeError(NoGetMessage(data))) else Ok(true)
    case Str(s) => if Contains(s, k) then Err(AttributeError(NoGetMessage(data))) else Ok(true)
    case _ => Err(TypeError(NotIterableMessage(data)))
  }

  /** `a` is `b` with some elements left out, order kept. */
  predicate Subsequence(a: seq<string>, b: seq<string>)
    decreases |b|
  {
    a == [] || (b != [] && if a[0] == b[0] then Subsequence(a[1..], b[1..]) else Subsequence(a, b[1..]))
  }

  /** The `missing` list, in the order of `keys`; the first test that
      raises ends the comprehension. */
  function MissingFrom(data: Value, keys: seq<string>): (r: Result<seq<string>, PyError>)
    ensures data.Dict? ==> r.Ok? && forall k :: k in r.value <==> k in keys && Blank(data.entries, k)
    ensures r.Ok? ==> Subsequence(r.value, keys)
    ensures r.Ok? && !data.Dict? ==> r.value == keys
    ensures r.Err? ==> !data.Dict?
    decreases |keys|
  {
    if keys == [] then Ok([])
    else
      var here :- KeyMissing(data, keys[0]);
      var rest :- MissingFrom(data, keys[1..]);
      Ok(if here then [keys[0]] + rest else rest)
  }

  /** `int(wait_timeout_sec)`, any failure reported as one `ValueError`
      naming the value. */
  function WaitSetting(w: Value): (r: Result<int, PyError>)
    ensures r.Ok? <==> PyInt(w).Some?
    ensures r.Ok? ==> r.value == PyInt(w).value
    ensures r.Err? ==> r.error == ValueError("invalid 'wait_timeout_sec': " + Repr(w))
  {
    if IntOf(w).Ok? then Ok(IntOf(w).value) else Err(ValueError("invalid 'wait_timeout_sec': " + Repr(w)))
  }

  /** The three optional settings, as `data.get` reads them with their
      defaults. */
  function Headless(d: map<string, Value>): Value {
    Get(d, "headless", Bool(false))
  }

  function Debug(d: map<string, Value>): Value {
    Get(d, "debug", Bool(true))
  }

  function Wait(d: map<string, Value>): Value {
    Get(d, "wait_timeout_sec", Int(180))
  }

  /** The client built from a complete settings dict: the four texts by
      `str`, the base URL also stripped, then `headless`, `debug` and the
      timeout checked in that order. */
  function FromEntries(d: map<string, Value>): (r: Result<AuthPage.Client, PyError>)
    requires Complete(d)
    ensures r.Ok? <==> AsBool(Headless(d)).Ok? && AsBool(Debug(d)).Ok? && PyInt(Wait(d)).Some?
    ensures AsBool(Headless(d)).Err? ==> r == Err(ValueError("invalid 'headless': " + CastMessage(Headless(d))))
    ensures AsBool(Headless(d)).Ok? && AsBool(Debug(d)).Err? ==>
      r == Err(ValueError("invalid 'debug': " + CastMessage(Debug(d))))
    ensures AsBool(Headless(d)).Ok? && AsBool(Debug(d)).Ok? && PyInt(Wait(d)).None? ==>
      r == Err(ValueError("invalid 'wait_timeout_sec': " + Repr(Wait(d))))
    ensures r.Ok? ==> (r.value.username == PyStr(d["username"]) && r.value.password == PyStr(d["password"])
                       && r.value.testUrl == PyStr(d["test_url"]))
    ensures r.Ok? ==> StartsWith(Trim(PyStr(d["base_url"])), r.value.baseUrl)
    ensures r.Ok? ==> r.value.baseUrl == TrimEndChar(Trim(PyStr(d["base_url"])), '/')
    ensures r.Ok? ==> (r.value.headless == AsBool(Headless(d)).value && r.value.debug == AsBool(Debug(d)).value
                       && r.value.waitTimeoutSec == PyInt(Wait(d)).value)
  {
    var headless := AsBool(Headless(d));
    var debug := AsBool(Debug(d));
    var wait := WaitSetting(Wait(d));
    if headless.Err? then Err(ValueError("invalid 'headless': " + headless.error.message))
    else if debug.Err? then Err(ValueError("invalid 'debug': " + debug.error.message))
    else if wait.Err? then Err(wait.error)
    else
      Ok(AuthPage.NewClient(Trim(PyStr(d["base_url"])), PyStr(d["username"]), PyStr(d["password"]), PyStr(d["test_url"]),
                            headless.value, wait.value, debug.value))
  }

  /** What the parsed file gives: the missing keys are reported all at
      once, before any setting is looked at. */
  function FromData(data: Value): (r: Result<AuthPage.Client, PyError>)
    ensures r.Ok? ==> data.Dict? && Complete(data.entries)
    ensures data.Dict? && Complete(data.entries) ==> r == FromEntries(data.entries)
    ensures data.Dict? && !Complete(data.entries) ==>
      r == Err(ValueError("missing required keys: " + ReprList(MissingFrom(data, RequiredKeys).value)))
  {
    var missing :- MissingFrom(data, RequiredKeys);
    if missing != [] then Err(ValueError("missing required keys: " + ReprList(missing)))
    else
      assert data.Dict?;
      assert RequiredKeys[0] !in missing && RequiredKeys[1] !in missing;
      assert RequiredKeys[2] !in missing && RequiredKeys[3] !in missing;
      FromEntries(data.entries)
  }

  /** `load_auth(config_path)`: a missing file and a malformed one are
      reported with the path; a loaded client always comes from a dict
      holding all four required settings. */
  function LoadAuth(files: Files, configPath: Option<string>): (r: Result<AuthPage.Client, PyError>)
    ensures ConfigPath(configPath, "auth.json") !in files ==>
      r == Err(FileNotFoundError("config file not found: " + ConfigPath(configPath, "auth.json")))
    ensures ConfigPath(configPath, "auth.json") in files && files[ConfigPath(configPath, "auth.json")].Malformed? ==>
      r == Err(ValueError("invalid json in " + ConfigPath(configPath, "auth.json") + ": "
                          + files[ConfigPath(configPath, "auth.json")].error))
    ensures r.Ok? ==> (ConfigPath(configPath, "auth.json") in files
                       && files[ConfigPath(configPath, "auth.json")].Parsed?
                       && files[ConfigPath(configPath, "auth.json")].data.Dict?
                       && Complete(files[ConfigPath(configPath, "auth.json")].data.entries))
  {
    var path := ConfigPath(configPath, "auth.json");
    if path !in files then Err(FileNotFoundError("config file not found: " + path))
    else
      match files[path]
      case Malformed(e) => Err(ValueError("invalid json in " + path + ": " + e))
      case Parsed(data) => FromData(data)
  }

  /** A file whose top level is not an object never loads: it fails on the
      first required key, either inside the `in` test or because every key
      is reported missing. */
  lemma NonDictNeverLoads(data: Value)
    requires !data.Dict?
    ensures FromData(data).Err?
    ensures MissingFrom(data, RequiredKeys).Ok? ==>
      FromData(data) == Err(ValueError("missing required keys: " + ReprList(RequiredKeys)))
  {
  }

  /** Keys that are all blank in a dict are all reported, in order. */
  lemma {:induction false} AllBlankAllMissing(d: map<string, Value>, keys: seq<string>)
    requires forall i :: 0 <= i < |keys| ==> Blank(d, keys[i])
    ensures MissingFrom(Dict(d), keys) == Ok(keys)
    decreases |keys|
  {
    if keys != [] {
      AllBlankAllMissing(d, keys[1..]);
      assert [keys[0]] + keys[1..] == keys;
    }
  }

  /** An empty object lists all four keys, in the order they are
      required. */
  lemma EmptyConfigMessage()
    ensures FromData(Dict(map[])) == Err(ValueError("missing required keys: " + ReprList(RequiredKeys)))
  {
    AllBlankAllMissing(map[], RequiredKeys);
  }

  /** Absent optional settings take their defaults: a visible browser,
      debugging on, and three minutes to wait. */
  lemma LoadAuthDefaults(d: map<string, Value>)
    requires Complete(d)
    requires "headless" !in d && "debug" !in d && "wait_timeout_sec" !in d
    ensures FromEntries(d).Ok?
    ensures !FromEntries(d).value.headless && FromEntries(d).value.debug
    ensures FromEntries(d).value.waitTimeoutSec == 180
  {
  }

  /** A client the loader can give back unchanged: its base URL is
      stripped and has no trailing slash, and none of its texts is
      blank. */
  predicate Loadable(c: AuthPage.Client) {
    c.baseUrl != "" && IsTrimmed(c.baseUrl) && c.baseUrl[|c.baseUrl| - 1] != '/'
    && Trim(c.username) != "" && Trim(c.password) != "" && Trim(c.testUrl) != ""
  }

  /** The settings file that describes a client. */
  function Render(c: AuthPage.Client): (data: Value)
    ensures data.Dict?
  {
    Dict(map["base_url" := Str(c.baseUrl), "username" := Str(c.username), "password" := Str(c.password),
             "test_url" := Str(c.testUrl), "headless" := Bool(c.headless), "debug" := Bool(c.debug),
             "wait_timeout_sec" := Int(c.waitTimeoutSec)])
  }

  /** The four texts of a written-out client. */
  lemma RenderedTexts(c: AuthPage.Client)
    ensures Render(c).entries["base_url"] == Str(c.baseUrl) && Render(c).entries["username"] == Str(c.username)
    ensures Render(c).entries["password"] == Str(c.password) && Render(c).entries["test_url"] == Str(c.testUrl)
  {
  }

  /** The three optional settings of a written-out client. */
  lemma RenderedOptions(c: AuthPage.Client)
    ensures Headless(Render(c).entries) == Bool(c.headless) && Debug(Render(c).entries) == Bool(c.debug)
    ensures Wait(Render(c).entries) == Int(c.waitTimeoutSec)
  {
  }

  /** The written-out settings of a loadable client are complete and
      build that client. */
  lemma FromRenderedEntries(c: AuthPage.Client)
    requires Loadable(c)
    ensures Complete(Render(c).entries) && FromEntries(Render(c).entries) == Ok(c)
  {
    var d := Render(c).entries;
    RenderedTexts(c);
    RenderedOptions(c);
    TrimOfTrimmed(c.baseUrl);
    var r := FromEntries(d);
    assert r.Ok?;
    AuthPage.BaseUrlStable(c);
    assert r.value.baseUrl == c.baseUrl;
  }

  /** Writing a loadable client's settings to the configuration file and
      loading it gives the client back. */
  lemma LoadRenderedAuth(files: Files, path: string, c: AuthPage.Client)
    requires path != "" && Loadable(c)
    ensures LoadAuth(files[path := Parsed(Render(c))], Some(path)) == Ok(c)
  {
    FromRenderedEntries(c);
  }
}
