/** `Logger` (creatio_tests/services/logger.py): a gated line formatter.
    Writing to standard error is modelled as the sequence of lines a call
    emits. */
module Logger {
  import opened Strings

  datatype Logger = Logger(enabled: bool, prefix: string)

  /** The four levels, each with its own tag. */
  datatype Level = Log | Info | Warn | Error

  function Tag(l: Level): string {
    match l
    case Log => "log"
    case Info => "info"
    case Warn => "warn"
    case Error => "error"
  }

  /** `_fmt(level, msg)`: the optional prefix and a space, the bracketed
      level, a space, then the message. */
  function Fmt(lg: Logger, level: string, msg: string): (r: string)
    ensures lg.prefix == "" ==> StartsWith(r, "[" + level + "] ")
    ensures lg.prefix != "" ==> StartsWith(r, lg.prefix + " [" + level + "] ")
    ensures |r| == (if lg.prefix == "" then 0 else |lg.prefix| + 1) + |level| + 3 + |msg|
    ensures r[|r| - |msg|..] == msg
  {
    var p := if lg.prefix != "" then lg.prefix + " " else "";
    p + "[" + level + "] " + msg
  }

  /** What one call of `log`, `info`, `warn` or `error` writes. */
  function Emit(lg: Logger, l: Level, msg: string): (out: seq<string>)
    ensures !lg.enabled ==> out == []
    ensures lg.enabled ==> |out| == 1
  {
    if lg.enabled then [Fmt(lg, Tag(l), msg)] else []
  }

  /** Distinct levels give distinct tags. */
  lemma TagInjective(a: Level, b: Level)
    requires a != b
    ensures Tag(a) != Tag(b)
  {
  }

  /** A line determines its message: for a fixed logger and level, two
      different messages never format to the same line. */
  lemma FmtInjective(lg: Logger, level: string, m1: string, m2: string)
    requires Fmt(lg, level, m1) == Fmt(lg, level, m2)
    ensures m1 == m2
  {
    var r := Fmt(lg, level, m1);
    assert |m1| == |m2|;
    assert m1 == r[|r| - |m1|..];
  }

  /** The four levels differ only in their tag: two calls at different
      levels with the same message emit different lines of the same shape. */
  lemma LevelsDifferOnlyInTag(lg: Logger, a: Level, b: Level, msg: string)
    requires lg.enabled && a != b
    ensures Emit(lg, a, msg) != Emit(lg, b, msg)
    ensures Emit(lg, a, msg) == [Fmt(lg, Tag(a), msg)]
  {
    var p := if lg.prefix != "" then lg.prefix + " " else "";
    TagAt(p, Tag(a), msg);
    TagAt(p, Tag(b), msg);
    TagInjective(a, b);
    if |Tag(a)| == |Tag(b)| {
      assert Fmt(lg, Tag(a), msg)[|p| + 1..|p| + 1 + |Tag(a)|] != Fmt(lg, Tag(b), msg)[|p| + 1..|p| + 1 + |Tag(b)|];
    }
  }

  /** The level sits right after the prefix and the opening bracket. */
  lemma TagAt(p: string, level: string, msg: string)
    ensures (p + "[" + level + "] " + msg)[|p| + 1..|p| + 1 + |level|] == level
  {
    var s := p + "[" + level + "] " + msg;
    assert s == p + ("[" + level + "] " + msg);
    assert s[|p|..] == "[" + level + "] " + msg;
    assert ("[" + level + "] " + msg)[1..1 + |level|] == level;
  }
}
