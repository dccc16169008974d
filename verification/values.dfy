/** Parsed configuration values as Python sees them after `json.loads`,
    with the three built-in conversions the loaders apply to them:
    `bool(v)`, `str(v)` and `int(v)`. */
module Values {
  import opened Wrappers
  import opened Strings

  datatype Value =
    | Null
    | Bool(b: bool)
    | Int(i: int)
    | Float(f: real)
    | Str(s: string)
    | List(items: seq<Value>)
    | Dict(entries: map<string, Value>)

  /** Python's `bool(v)`: zero, empty and `None` are false. */
  predicate Truthy(v: Value) {
    match v
    case Null => false
    case Bool(b) => b
    case Int(i) => i != 0
    case Float(f) => f != 0.0
    case Str(s) => s != ""
    case List(items) => |items| > 0
    case Dict(entries) => |entries| > 0
  }

  /** `d.get(key, default)`. */
  function Get(d: map<string, Value>, key: string, default: Value): Value {
    if key in d then d[key] else default
  }

  /** `d.get(key)`, which yields `None` both for an absent key and for an
      explicit JSON `null`. */
  function GetOptional(d: map<string, Value>, key: string): (r: Option<Value>)
    ensures r.Some? ==> key in d && d[key] == r.value && r.value != Null
    ensures r.None? ==> key !in d || d[key] == Null
  {
    if key in d && d[key] != Null then Some(d[key]) else None
  }

  predicate IsDigit(c: char) {
    '0' <= c <= '9'
  }

  predicate AllDigits(s: string) {
    forall i :: 0 <= i < |s| ==> IsDigit(s[i])
  }

  function DigitChar(d: int): (c: char)
    requires 0 <= d < 10
    ensures IsDigit(c)
  {
    ('0' as int + d) as char
  }

  /** Decimal digits of a natural number, most significant first. */
  function NatToDecimal(n: nat): (r: string)
    ensures r != "" && AllDigits(r)
  {
    if n < 10 then [DigitChar(n)] else NatToDecimal(n / 10) + [DigitChar(n % 10)]
  }

  /** Python's `str(i)` for an integer. */
  function IntToDecimal(i: int): (r: string)
    ensures r != "" && IsTrimmed(r)
  {
    if i < 0 then "-" + NatToDecimal(-i) else NatToDecimal(i)
  }

  /** The number a string of decimal digits denotes. */
  function ParseDigits(s: string): nat
    requires AllDigits(s)
  {
    if s == "" then 0 else 10 * ParseDigits(s[..|s| - 1]) + DigitValue(s[|s| - 1])
  }

  function DigitValue(c: char): nat
    requires IsDigit(c)
  {
    c as int - '0' as int
  }

  lemma {:induction false} DecimalRoundTrip(n: nat)
    ensures ParseDigits(NatToDecimal(n)) == n
  {
    if n >= 10 {
      var x := NatToDecimal(n / 10);
      var r := x + [DigitChar(n % 10)];
      assert r[..|r| - 1] == x;
      DecimalRoundTrip(n / 10);
    }
  }

  /** Python's `int(s)` on a string: optional surrounding whitespace, an
      optional sign, then one or more ASCII digits. */
  function ParseInt(s: string): (r: Option<int>)
    ensures r.Some? ==> Trim(s) != ""
  {
    ParseSigned(Trim(s))
  }

  /** An optionally signed run of one or more ASCII digits. */
  function ParseSigned(t: string): (r: Option<int>)
    ensures r.Some? ==> t != ""
  {
    if |t| > 1 && (t[0] == '-' || t[0] == '+') && AllDigits(t[1..]) then
      var n: int := ParseDigits(t[1..]);
      Some(if t[0] == '-' then -n else n)
    else if t != "" && AllDigits(t) then Some(ParseDigits(t))
    else None
  }

  /** Python's `int(f)` for a finite float truncates toward zero. */
  function Truncate(f: real): (r: int)
    ensures -1.0 < f - r as real < 1.0
    ensures (f >= 0.0 ==> 0 <= r) && (f <= 0.0 ==> r <= 0)
  {
    if f >= 0.0 then f.Floor else -((-f).Floor)
  }

  /** Python's `str(v)`. Integers, booleans, `None` and strings are
      rendered exactly; floats, lists and dicts get a stand-in text that,
      like their real `repr`, is never blank. */
  function PyStr(v: Value): (r: string)
    ensures v.Str? ==> r == v.s
    ensures !v.Str? ==> r != "" && Trim(r) == r
  {
    match v
    case Null => "None"
    case Bool(b) => if b then "True" else "False"
    case Int(i) => TrimOfTrimmed(IntToDecimal(i)); IntToDecimal(i)
    case Float(_) => "<float>"
    case Str(s) => s
    case List(_) => "[...]"
    case Dict(_) => "{...}"
  }

  /** Python's `int(v)`, or `None` where it raises. */
  function PyInt(v: Value): (r: Option<int>)
    ensures v.Int? ==> r == Some(v.i)
    ensures v.Null? || v.List? || v.Dict? ==> r.None?
  {
    match v
    case Bool(b) => Some(if b then 1 else 0)
    case Int(i) => Some(i)
    case Float(f) => Some(Truncate(f))
    case Str(s) => ParseInt(s)
    case _ => None
  }

  /** The decimal rendering of an integer parses back to it. */
  lemma ParseSignedDecimal(i: int)
    ensures ParseSigned(IntToDecimal(i)) == Some(i)
  {
    var t := IntToDecimal(i);
    if i < 0 {
      var d := NatToDecimal(-i);
      assert t[1..] == d;
      DecimalRoundTrip(-i);
    } else {
      assert IsDigit(t[0]);
      DecimalRoundTrip(i);
    }
  }

  /** `int(str(i)) == i`. */
  lemma IntStrRoundTrip(i: int)
    ensures PyInt(Str(PyStr(Int(i)))) == Some(i)
  {
    var t := IntToDecimal(i);
    TrimOfTrimmed(t);
    ParseSignedDecimal(i);
  }
  /** The quote character `repr` puts around a string: a double quote when
      the text holds a single quote and no double quote, else a single
      quote. */
  function ReprQuote(s: string): char {
    if '\'' in s && '"' !in s then '"' else '\''
  }

  function HexDigit(d: int): char
    requires 0 <= d < 16
  {
    if d < 10 then ('0' as int + d) as char else ('a' as int + d - 10) as char
  }

  /** The characters up to U+00FF that Python does not count as printable:
      the C0 controls, DEL, the C1 controls, the no-break space and the
      soft hyphen. `repr` writes them as `\xhh`. */
  predicate Latin1Unprintable(c: char) {
    c as int < 32 || 127 <= c as int <= 160 || c as int == 173
  }

  /** A character `repr` writes as itself inside the quote `q`. */
  predicate ReprPlainChar(c: char, q: char) {
    c != '\\' && c != q && !Latin1Unprintable(c)
  }

  /** How `repr` writes one character inside the quote `q`: backslash, the
      quote and the unprintable characters up to U+00FF are escaped. */
  function ReprChar(c: char, q: char): (r: string)
    ensures ReprPlainChar(c, q) <==> r == [c]
    ensures Latin1Unprintable(c) && c != q && c != '\n' && c != '\r' && c != '\t' ==> |r| == 4 && r[..2] == "\\x"
  {
    if c == '\\' then "\\\\"
    else if c == q then ['\\', q]
    else if c == '\n' then "\\n"
    else if c == '\r' then "\\r"
    else if c == '\t' then "\\t"
    else if Latin1Unprintable(c) then "\\x" + [HexDigit(c as int / 16), HexDigit(c as int % 16)]
    else [c]
  }

  /** The escaped characters of `s`, in order. */
  function ReprBody(s: string, q: char): (r: string)
    ensures |r| >= |s|
  {
    if s == "" then "" else ReprChar(s[0], q) + ReprBody(s[1..], q)
  }

  /** Python's `repr(s)` of a string. */
  function ReprStr(s: string): (r: string)
    ensures |r| >= 2 && r[0] == r[|r| - 1] == ReprQuote(s)
  {
    var q := ReprQuote(s);
    [q] + ReprBody(s, q) + [q]
  }

  /** A text without quotes, backslashes or control characters is written
      between single quotes exactly as it is. */
  lemma {:induction false} ReprOfPlain(s: string)
    requires forall i :: 0 <= i < |s| ==> ReprPlainChar(s[i], '\'') && s[i] != '"'
    ensures ReprStr(s) == "'" + s + "'"
  {
    assert '\'' !in s;
    ReprBodyOfPlain(s, '\'');
  }

  lemma {:induction false} ReprBodyOfPlain(s: string, q: char)
    requires forall i :: 0 <= i < |s| ==> ReprPlainChar(s[i], q)
    ensures ReprBody(s, q) == s
  {
    if s != "" {
      ReprBodyOfPlain(s[1..], q);
      assert ReprChar(s[0], q) == [s[0]];
      assert s == [s[0]] + s[1..];
    }
  }

  /** Python's `repr(items)` of a list of strings (which `str` of a list
      also gives). */
  function ReprList(items: seq<string>): (r: string)
    ensures |r| >= 2 && r[0] == '[' && r[|r| - 1] == ']'
  {
    "[" + Join(seq(|items|, i requires 0 <= i < |items| => ReprStr(items[i])), ", ") + "]"
  }
}
