/** What the two configuration loaders (creatio_tests/utils/page_loader.py
    and creatio_tests/utils/auth_loader.py) share: the exceptions they
    raise, the configuration files they read, the lenient boolean reading
    of a value, and `int(v)` together with the exception it raises. */
module Conversions {
  import opened Wrappers
  import opened Strings
  import opened Values

  /** The Python exceptions the loaders let out, with their messages. */
  datatype PyError =
    | FileNotFoundError(message: string)
    | JsonDecodeError(message: string)
    | ValueError(message: string)
    | TypeError(message: string)
    | AttributeError(message: string)

  /** A configuration file as `json.loads` sees its text: either a parsed
      value or the decoder's complaint. */
  datatype FileState = Malformed(error: string) | Parsed(data: Value)

  /** The files that exist, by path. Reading the disk is replaced by this
      map. */
  type Files = map<string, FileState>

  /** `Path(config_path or default)`: a missing or empty path falls back to
      the default name. */
  function ConfigPath(configPath: Option<string>, default: string): (p: string)
    ensures configPath.None? || configPath == Some("") ==> p == default
    ensures configPath.Some? && configPath.value != "" ==> p == configPath.value
  {
    if configPath.Some? && configPath.value != "" then configPath.value else default
  }

  /** Python's `type(v).__name__`. */
  function TypeName(v: Value): string {
    match v
    case Null => "NoneType"
    case Bool(_) => "bool"
    case Int(_) => "int"
    case Float(_) => "float"
    case Str(_) => "str"
    case List(_) => "list"
    case Dict(_) => "dict"
  }

  /** The `AttributeError` of calling `.get` on a value that is not a dict. */
  function NoGetMessage(v: Value): string {
    "'" + TypeName(v) + "' object has no attribute 'get'"
  }

  /** Python's `repr(v)`: a string is quoted and escaped, every other value
      reads as its `str`. */
  function Repr(v: Value): string {
    if v.Str? then ReprStr(v.s) else PyStr(v)
  }

  /** Python's `repr(items)` of a list of values: each item by its `repr`,
      separated by a comma and a space, in brackets. */
  function ReprValues(items: seq<Value>): (r: string)
    ensures |r| >= 2 && r[0] == '[' && r[|r| - 1] == ']'
  {
    "[" + Join(seq(|items|, i requires 0 <= i < |items| => Repr(items[i])), ", ") + "]"
  }

  /** A list of strings reads the same whether its items are taken as
      values or as texts. */
  lemma ReprValuesOfTexts(texts: seq<string>)
    ensures ReprValues(seq(|texts|, i requires 0 <= i < |texts| => Str(texts[i]))) == ReprList(texts)
  {
    var items := seq(|texts|, i requires 0 <= i < |texts| => Str(texts[i]));
    assert seq(|items|, i requires 0 <= i < |items| => Repr(items[i]))
        == seq(|texts|, i requires 0 <= i < |texts| => ReprStr(texts[i]));
  }

  /** The words read as true and as false, after stripping and
      lower-casing. */
  const TrueWords: set<string> := {"1", "true", "yes", "y", "on"}
  const FalseWords: set<string> := {"0", "false", "no", "n", "off"}

  /** `_normalize_bool(x)`: a boolean as it is, one of the ten words after
      `strip().lower()`, a number by its truthiness; `None` for anything
      else, including every other string. */
  function LenientBool(v: Value): (r: Option<bool>)
    ensures v.Bool? ==> r == Some(v.b)
    ensures v.Int? || v.Float? ==> r == Some(Truthy(v))
    ensures v.Str? ==> (r == Some(true) <==> Lower(Trim(v.s)) in TrueWords)
    ensures v.Str? ==> (r == Some(false) <==> Lower(Trim(v.s)) in FalseWords)
    ensures v.Null? || v.List? || v.Dict? ==> r.None?
  {
    match v
    case Bool(b) => Some(b)
    case Str(s) =>
      var w := Lower(Trim(s));
      if w in TrueWords then Some(true)
      else if w in FalseWords then Some(false)
      else None
    case Int(i) => Some(i != 0)
    case Float(f) => Some(f != 0.0)
    case _ => None
  }

  /** No word reads both ways, so the string case is well defined in
      either order of the two tests. */
  lemma WordsDisjoint()
    ensures TrueWords * FalseWords == {}
  {
    assert forall w :: w in TrueWords ==> w !in FalseWords;
  }

  /** Off strings, the reading agrees with Python's truthiness; on strings
      it does not: `"0"` is a truthy string that reads as false. */
  lemma LenientBoolVersusTruthy(v: Value)
    ensures !v.Str? && LenientBool(v).Some? ==> LenientBool(v).value == Truthy(v)
    ensures Truthy(Str("0")) && LenientBool(Str("0")) == Some(false)
  {
    assert Lower(Trim("0")) == "0";
  }

  /** What `str` makes of a boolean reads back as that boolean. */
  lemma BoolTextReadsBack(b: bool)
    ensures LenientBool(Str(PyStr(Bool(b)))) == Some(b)
  {
    var s := PyStr(Bool(b));
    TrimOfTrimmed(s);
    if b {
      assert Lower(s) == "true";
    } else {
      assert Lower(s) == "false";
    }
  }

  /** Surrounding whitespace never changes the reading of a string. */
  lemma PaddingIgnored(s: string)
    ensures LenientBool(Str(Trim(s))) == LenientBool(Str(s))
  {
    TrimIdempotent(s);
  }

  /** The message of the `ValueError` `int(s)` raises for a string that is
      not a decimal integer. */
  function BadLiteralMessage(s: string): string {
    "invalid literal for int() with base 10: " + ReprStr(s)
  }

  /** The message of the `TypeError` `int(v)` raises for a value of a type
      it cannot convert. */
  function BadTypeMessage(v: Value): string {
    "int() argument must be a string, a bytes-like object or a real number, not '" + TypeName(v) + "'"
  }

  /** Python's `int(v)`, with the exception it raises: a `ValueError` for a
      string that is not an integer literal, a `TypeError` for `None`, a
      list or a dict. */
  function IntOf(v: Value): (r: Result<int, PyError>)
    ensures r.Ok? <==> PyInt(v).Some?
    ensures r.Ok? ==> r.value == PyInt(v).value
    ensures r.Err? && v.Str? ==> r.error == ValueError(BadLiteralMessage(v.s))
    ensures r.Err? && !v.Str? ==> r.error == TypeError(BadTypeMessage(v)) && (v.Null? || v.List? || v.Dict?)
  {
    match PyInt(v)
    case Some(i) => Ok(i)
    case None => if v.Str? then Err(ValueError(BadLiteralMessage(v.s))) else Err(TypeError(BadTypeMessage(v)))
  }

  /** An integer, and its decimal text, both convert back to it. */
  lemma IntOfRendered(i: int)
    ensures IntOf(Int(i)) == Ok(i)
    ensures IntOf(Str(IntToDecimal(i))) == Ok(i)
  {
    IntStrRoundTrip(i);
  }

  /** An optional integer setting: absent or `null` gives `None`, anything
      else goes through `int(v)`. */
  function OptionalInt(d: map<string, Value>, key: string): (r: Result<Option<int>, PyError>)
    ensures GetOptional(d, key).None? ==> r == Ok(None)
    ensures GetOptional(d, key).Some? ==> (r.Ok? <==> IntOf(d[key]).Ok?)
    ensures GetOptional(d, key).Some? && r.Ok? ==> r.value == Some(IntOf(d[key]).value)
    ensures r.Err? ==> r.error == IntOf(d[key]).error
  {
    match GetOptional(d, key)
    case None => Ok(None)
    case Some(v) =>
      var i :- IntOf(v);
      Ok(Some(i))
  }
}
