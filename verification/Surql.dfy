/** SurrealQL rendering (surql.rs): the only place where query text is assembled. */
module Surql {
  import opened Wrappers
  import opened Text
  import opened Contract
  import opened Collections

  datatype RenderError = InvalidValue | PathTooDeep

  type Rendered = Result<string, RenderError>

  const MAX_PATH_DEPTH: nat := 3

  // ---- escaping and identifiers ----

  function ReplaceChar(s: string, c: char, with: string): string
  {
    if s == "" then "" else (if s[0] == c then with else [s[0]]) + ReplaceChar(s[1..], c, with)
  }

  /** Backslashes first, then quotes. */
  function EscapeStr(s: string): string
  {
    ReplaceChar(ReplaceChar(s, '\\', "\\\\"), '\'', "\\'")
  }

  predicate IsAlnum(c: char) { IsDigit(c) || 'a' <= c <= 'z' || 'A' <= c <= 'Z' }

  predicate IdentChar(c: char) { IsAlnum(c) || c == '_' }

  predicate IsIdent(s: string) { s != "" && forall i :: 0 <= i < |s| ==> IdentChar(s[i]) }

  // ---- values ----

  /** `-?digits(.digits)?` */
  predicate PlainDecimal(s: string)
  {
    var t := if s != "" && s[0] == '-' then s[1..] else s;
    var parts := Split(t, '.');
    1 <= |parts| <= 2 && forall i :: 0 <= i < |parts| ==> parts[i] != "" && AllDigits(parts[i])
  }

  predicate DateChar(c: char) { IsDigit(c) || c in "-T:.Z+ " }

  predicate Rfc3339Shape(s: string)
  {
    && |s| >= 20 && s[4] == '-' && s[7] == '-' && (s[10] == 'T' || s[10] == ' ')
    && forall i :: 0 <= i < |s| ==> DateChar(s[i])
  }

  predicate UnitChar(c: char) { c in "nsumhdwy" }

  predicate SpanChar(c: char) { IsDigit(c) || UnitChar(c) }

  predicate DurationShape(s: string)
  {
    s != "" && forall i :: 0 <= i < |s| ==> SpanChar(s[i])
  }

  /** `table:key` with an identifier before the first colon and something after it. */
  predicate RecordShape(s: string)
  {
    exists i :: 0 < i < |s| - 1 && s[i] == ':' && IsIdent(s[..i])
  }

  function JoinAll(parts: seq<string>, sep: string): string
  {
    if parts == [] then "" else Join(parts, sep)
  }

  function RenderValue(v: Value): Rendered
    decreases v
  {
    match v
    case Null => Ok("NONE")
    case Bool(b) => Ok(if b then "true" else "false")
    case Int(i) => Ok(IntText(i))
    case Decimal(s) => if PlainDecimal(s) then Ok(s + "dec") else Err(InvalidValue)
    case Datetime(s) => if Rfc3339Shape(s) then Ok("d'" + EscapeStr(s) + "'") else Err(InvalidValue)
    case Duration(s) => if DurationShape(s) then Ok(s) else Err(InvalidValue)
    case RecordId(s) => if RecordShape(s) then Ok("type::record('" + EscapeStr(s) + "')") else Err(InvalidValue)
    case Text(s) => Ok("'" + EscapeStr(s) + "'")
    case List(items) =>
      var parts := RenderItems(items);
      if parts.Err? then Err(parts.error) else Ok("[" + JoinAll(parts.value, ", ") + "]")
    case Object(entries) =>
      var parts := RenderEntries(entries);
      if parts.Err? then Err(parts.error) else Ok("{ " + JoinAll(parts.value, ", ") + " }")
  }

  function RenderItems(items: seq<Value>): (r: Result<seq<string>, RenderError>)
    ensures r.Ok? ==> |r.value| == |items|
    decreases items
  {
    if items == [] then Ok([])
    else
      var head, tail := RenderValue(items[0]), RenderItems(items[1..]);
      if head.Err? then Err(head.error) else if tail.Err? then tail else Ok([head.value] + tail.value)
  }

  function RenderEntry(e: (string, Value)): Rendered
    decreases e
  {
    var value := RenderValue(e.1);
    if !IsIdent(e.0) then Err(InvalidValue) else if value.Err? then value else Ok(e.0 + ": " + value.value)
  }

  function RenderEntries(entries: seq<(string, Value)>): (r: Result<seq<string>, RenderError>)
    ensures r.Ok? ==> |r.value| == |entries|
    decreases entries
  {
    if entries == [] then Ok([])
    else
      var head, tail := RenderEntry(entries[0]), RenderEntries(entries[1..]);
      if head.Err? then Err(head.error) else if tail.Err? then tail else Ok([head.value] + tail.value)
  }

  /** The Object arm: one part pushed per entry. */
  method RenderObject(entries: seq<(string, Value)>) returns (r: Rendered)
    ensures r == RenderValue(Object(entries))
  {
    hide RenderEntry;
    var parts: seq<string> := [];
    assert entries[0..] == entries;
    ghost var all := RenderEntries(entries);
    assert all.Ok? ==> parts + all.value == all.value;
    for i := 0 to |entries|
      invariant var rest := RenderEntries(entries[i..]);
                all == if rest.Err? then rest else Ok(parts + rest.value)
    {
      assert entries[i..][1..] == entries[i + 1..] && entries[i..][0] == entries[i];
      var part := RenderEntry(entries[i]);
      if part.Err? { return part; }
      ghost var rest := RenderEntries(entries[i + 1..]);
      assert rest.Ok? ==> parts + ([part.value] + rest.value) == (parts + [part.value]) + rest.value;
      parts := parts + [part.value];
    }
    assert entries[|entries|..] == [];
    assert parts + [] == parts;
    return Ok("{ " + JoinAll(parts, ", ") + " }");
  }

  // ---- paths ----

  /** The text of a segment; fields after the first get a dot. */
  function RenderSegment(seg: PathSegment, first: bool): Rendered
  {
    match seg
    case Edge(dir, name) =>
      if !IsIdent(name) then Err(InvalidValue)
      else Ok(if dir.Out? then "->" + name + "->?" else "<-" + name + "<-?")
    case _ =>
      if !IsIdent(seg.name) then Err(InvalidValue) else Ok(if first then seg.name else "." + seg.name)
  }

  function RenderSegments(path: seq<PathSegment>, first: bool): Rendered
    decreases path
  {
    if path == [] then Ok("")
    else
      var head, tail := RenderSegment(path[0], first), RenderSegments(path[1..], false);
      if head.Err? then head else if tail.Err? then tail else Ok(head.value + tail.value)
  }

  function RenderPath(path: seq<PathSegment>): Rendered
  {
    if path == [] || |path| > MAX_PATH_DEPTH then Err(PathTooDeep) else RenderSegments(path, true)
  }

  /** What a buffer holds once the remaining text is appended. */
  function Appended(out: string, rest: Rendered): Rendered
  {
    if rest.Err? then rest else Ok(out + rest.value)
  }

  lemma AppendStart(path: seq<PathSegment>)
    ensures Appended("", RenderSegments(path[0..], true)) == RenderSegments(path, true)
  {
    var all := RenderSegments(path, true);
    assert path[0..] == path;
    assert all.Ok? ==> "" + all.value == all.value;
  }

  lemma AppendStep(path: seq<PathSegment>, i: nat, out: string)
    requires i < |path|
    ensures var (seg, rest) := (RenderSegment(path[i], i == 0), RenderSegments(path[i + 1..], false));
            Appended(out, RenderSegments(path[i..], i == 0)) == if seg.Err? then seg else Appended(out + seg.value, rest)
  {
    hide RenderSegment;
    assert path[i..][1..] == path[i + 1..];
    var (seg, rest) := (RenderSegment(path[i], i == 0), RenderSegments(path[i + 1..], false));
    if seg.Ok? && rest.Ok? { Cat(out, seg.value, rest.value); }
  }

  lemma AppendEnd(path: seq<PathSegment>, out: string, first: bool)
    ensures Appended(out, RenderSegments(path[|path|..], first)) == Ok(out)
  {
    assert path[|path|..] == [] && out + "" == out;
  }

  /** The buffer appended to, segment by segment. */
  method BuildPath(path: seq<PathSegment>) returns (r: Rendered)
    ensures r == RenderPath(path)
  {
    if path == [] || |path| > MAX_PATH_DEPTH { return Err(PathTooDeep); }
    hide RenderSegment, RenderSegments, Appended;
    var out := "";
    AppendStart(path);
    for i := 0 to |path|
      invariant RenderPath(path) == Appended(out, RenderSegments(path[i..], i == 0))
    {
      AppendStep(path, i, out);
      var seg := RenderSegment(path[i], i == 0);
      if seg.Err? { return seg; }
      out := out + seg.value;
    }
    AppendEnd(path, out, false);
    return Ok(out);
  }

  // ---- filters ----

  function OpText(op: CmpOp): string
  {
    match op
    case Eq => "="
    case Ne => "!="
    case Gt => ">"
    case Gte => ">="
    case Lt => "<"
    case Lte => "<="
    case Inside => "INSIDE"
    case Contains => "CONTAINS"
  }

  function RenderFilter(f: Filter): Rendered
    decreases f
  {
    match f
    case And(fs) =>
      var parts := RenderFilters(fs);
      if parts.Err? then Err(parts.error) else Ok("(" + JoinAll(parts.value, " AND ") + ")")
    case Or(fs) =>
      var parts := RenderFilters(fs);
      if parts.Err? then Err(parts.error) else Ok("(" + JoinAll(parts.value, " OR ") + ")")
    case Not(inner) =>
      var t := RenderFilter(inner);
      if t.Err? then t else Ok("(!(" + t.value + "))")
    case Cmp(path, op, value) =>
      var p, v := RenderPath(path), RenderValue(value);
      if p.Err? then p else if v.Err? then v else Ok(p.value + " " + OpText(op) + " " + v.value)
  }

  function RenderFilters(fs: seq<Filter>): (r: Result<seq<string>, RenderError>)
    ensures r.Ok? ==> |r.value| == |fs|
    decreases fs
  {
    if fs == [] then Ok([])
    else
      var head, tail := RenderFilter(fs[0]), RenderFilters(fs[1..]);
      if head.Err? then Err(head.error) else if tail.Err? then tail else Ok([head.value] + tail.value)
  }

  predicate IsRange(op: CmpOp) { op == Gt || op == Gte || op == Lt || op == Lte }

  predicate HasRange(f: Filter)
  {
    match f
    case And(fs) => exists i :: 0 <= i < |fs| && HasRange(fs[i])
    case Or(fs) => exists i :: 0 <= i < |fs| && HasRange(fs[i])
    case Not(inner) => HasRange(inner)
    case Cmp(_, op, _) => IsRange(op)
  }
}
