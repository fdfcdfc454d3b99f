/** A reader for the filter language surql.rs writes, and the proof that it undoes the writer: same
    meaning for filters, every literal unchanged. */
module SurqlReader {
  import opened Wrappers
  import opened Text
  import opened Contract
  import opened Surql

  // ---- primitives: each returns what it read and the rest of the text ----

  /** The body of a quoted literal, after its opening quote. */
  function ReadQuoted(s: string): (r: Option<(string, string)>)
    ensures r.Some? ==> |r.value.1| < |s|
  {
    if s == "" then None
    else if s[0] == '\'' then Some(("", s[1..]))
    else if s[0] == '\\' then
      if |s| < 2 then None
      else
        match ReadQuoted(s[2..])
        case None => None
        case Some((t, rest)) => Some(([s[1]] + t, rest))
    else
      match ReadQuoted(s[1..])
      case None => None
      case Some((t, rest)) => Some(([s[0]] + t, rest))
  }

  function IdentSpan(s: string): (n: nat)
    ensures n <= |s|
  {
    if s != "" && IdentChar(s[0]) then 1 + IdentSpan(s[1..]) else 0
  }

  predicate NumberChar(c: char) { IsDigit(c) || c == '.' }

  function NumberSpan(s: string): (n: nat)
    ensures n <= |s|
  {
    if s != "" && NumberChar(s[0]) then 1 + NumberSpan(s[1..]) else 0
  }

  function DurationSpan(s: string): (n: nat)
    ensures n <= |s|
  {
    if s != "" && SpanChar(s[0]) then 1 + DurationSpan(s[1..]) else 0
  }

  /** Digits first, and a unit somewhere. */
  predicate HasUnit(s: string)
  {
    s != "" && IsDigit(s[0]) && exists i :: 0 <= i < |s| && UnitChar(s[i])
  }

  function ReadInt(t: string): Option<i64>
  {
    var neg := t != "" && t[0] == '-';
    var digits := if neg then t[1..] else t;
    if digits == "" || !AllDigits(digits) then None
    else
      var n: int := NumeralValue(digits, 10);
      var i: int := if neg then -n else n;
      if -0x8000_0000_0000_0000 <= i <= 0x7FFF_FFFF_FFFF_FFFF then Some(i) else None
  }

  /** A number literal: with the suffix `dec` a decimal kept as written, with units a duration kept as
      written, without either an integer. */
  function ReadNumber(s: string): (r: Option<(Value, string)>)
    ensures r.Some? ==> |r.value.1| < |s|
  {
    var sign := if s != "" && s[0] == '-' then 1 else 0;
    var n := sign + NumberSpan(s[sign..]);
    if n == 0 then None
    else if "dec" <= s[n..] then Some((Decimal(s[..n]), s[n + 3..]))
    else if HasUnit(s[..DurationSpan(s)]) then Some((Duration(s[..DurationSpan(s)]), s[DurationSpan(s)..]))
    else
      var i := ReadInt(s[..n]);
      if i.None? then None else Some((Int(i.value), s[n..]))
  }

  // ---- values ----

  function ReadValue(s: string): (r: Option<(Value, string)>)
    ensures r.Some? ==> |r.value.1| < |s|
    decreases |s|, 1
  {
    if s == "" then None
    else if s[0] == '\'' then
      var q := ReadQuoted(s[1..]);
      if q.None? then None else Some((Text(q.value.0), q.value.1))
    else if "d'" <= s then
      var q := ReadQuoted(s[2..]);
      if q.None? then None else Some((Datetime(q.value.0), q.value.1))
    else if "NONE" <= s then Some((Null, s[4..]))
    else if "true" <= s then Some((Bool(true), s[4..]))
    else if "false" <= s then Some((Bool(false), s[5..]))
    else if "type::record('" <= s then
      var q := ReadQuoted(s[14..]);
      if q.None? || !(")" <= q.value.1) then None else Some((RecordId(q.value.0), q.value.1[1..]))
    else if s[0] == '[' then
      var items := if "]" <= s[1..] then Some(([], s[2..])) else ReadItems(s[1..]);
      if items.None? then None else Some((List(items.value.0), items.value.1))
    else if "{ " <= s then
      var entries := if " }" <= s[2..] then Some(([], s[4..])) else ReadEntries(s[2..]);
      if entries.None? then None else Some((Object(entries.value.0), entries.value.1))
    else ReadNumber(s)
  }

  /** One item and those after it, through the closing bracket. */
  function ReadItems(s: string): (r: Option<(seq<Value>, string)>)
    ensures r.Some? ==> |r.value.1| < |s|
    decreases |s|, 2
  {
    var head := ReadValue(s);
    if head.None? then None
    else
      var (v, rest) := head.value;
      if "]" <= rest then Some(([v], rest[1..]))
      else if ", " <= rest then
        var tail := ReadItems(rest[2..]);
        if tail.None? then None else Some(([v] + tail.value.0, tail.value.1))
      else None
  }

  function ReadEntries(s: string): (r: Option<(seq<(string, Value)>, string)>)
    ensures r.Some? ==> |r.value.1| < |s|
    decreases |s|, 2
  {
    var n := IdentSpan(s);
    if n == 0 || !(": " <= s[n..]) then None
    else
      var head := ReadValue(s[n + 2..]);
      if head.None? then None
      else
        var ((v, rest), k) := (head.value, s[..n]);
        if " }" <= rest then Some(([(k, v)], rest[2..]))
        else if ", " <= rest then
          var tail := ReadEntries(rest[2..]);
          if tail.None? then None else Some(([(k, v)] + tail.value.0, tail.value.1))
        else None
  }

  // ---- paths and operators ----

  function ReadSegment(s: string): (r: Option<(PathSegment, string)>)
    ensures r.Some? ==> |r.value.1| < |s|
  {
    if "->" <= s then
      var n := IdentSpan(s[2..]);
      if n > 0 && "->?" <= s[2 + n..] then Some((Edge(Out, s[2..2 + n]), s[5 + n..])) else None
    else if "<-" <= s then
      var n := IdentSpan(s[2..]);
      if n > 0 && "<-?" <= s[2 + n..] then Some((Edge(In, s[2..2 + n]), s[5 + n..])) else None
    else
      var dot := if s != "" && s[0] == '.' then 1 else 0;
      var n := IdentSpan(s[dot..]);
      if n > 0 then Some((Field(s[dot..dot + n]), s[dot + n..])) else None
  }

  /** Segments up to the space before the operator. */
  function ReadPath(s: string): (r: Option<(seq<PathSegment>, string)>)
    ensures r.Some? ==> |r.value.1| <= |s|
  {
    if " " <= s then Some(([], s))
    else
      var head := ReadSegment(s);
      if head.None? then None
      else
        var tail := ReadPath(head.value.1);
        if tail.None? then None else Some(([head.value.0] + tail.value.0, tail.value.1))
  }

  function ReadOp(s: string): (r: Option<(CmpOp, string)>)
    ensures r.Some? ==> |r.value.1| < |s|
  {
    if " = " <= s then Some((Eq, s[3..]))
    else if " != " <= s then Some((Ne, s[4..]))
    else if " > " <= s then Some((Gt, s[3..]))
    else if " >= " <= s then Some((Gte, s[4..]))
    else if " < " <= s then Some((Lt, s[3..]))
    else if " <= " <= s then Some((Lte, s[4..]))
    else if " INSIDE " <= s then Some((Inside, s[8..]))
    else if " CONTAINS " <= s then Some((Contains, s[10..]))
    else None
  }

  // ---- filters ----

  function ReadFilter(s: string): (r: Option<(Filter, string)>)
    ensures r.Some? ==> |r.value.1| < |s|
    decreases |s|, 1
  {
    if "(!(" <= s then
      var inner := ReadFilter(s[3..]);
      if inner.None? || !("))" <= inner.value.1) then None else Some((Not(inner.value.0), inner.value.1[2..]))
    else if "(" <= s then
      var head := ReadFilter(s[1..]);
      if head.None? then None
      else
        var (f, rest) := head.value;
        if ")" <= rest then Some((And([f]), rest[1..]))
        else if " AND " <= rest then
          var tail := ReadFilters(rest[5..], " AND ");
          if tail.None? then None else Some((And([f] + tail.value.0), tail.value.1))
        else if " OR " <= rest then
          var tail := ReadFilters(rest[4..], " OR ");
          if tail.None? then None else Some((Or([f] + tail.value.0), tail.value.1))
        else None
    else
      var path := ReadPath(s);
      if path.None? || path.value.0 == [] then None
      else
        var op := ReadOp(path.value.1);
        if op.None? then None
        else
          var v := ReadValue(op.value.1);
          if v.None? then None else Some((Cmp(path.value.0, op.value.0, v.value.0), v.value.1))
  }

  /** One filter and those after it, through the closing parenthesis. */
  function ReadFilters(s: string, sep: string): (r: Option<(seq<Filter>, string)>)
    ensures r.Some? ==> |r.value.1| < |s|
    decreases |s|, 2
  {
    var head := ReadFilter(s);
    if head.None? then None
    else
      var (f, rest) := head.value;
      if ")" <= rest then Some(([f], rest[1..]))
      else if sep != "" && sep <= rest then
        var tail := ReadFilters(rest[|sep|..], sep);
        if tail.None? then None else Some(([f] + tail.value.0, tail.value.1))
      else None
  }
}
