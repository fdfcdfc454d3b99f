/** The text-diff undo of the rollup worker (`dmp_unpatch` in aggregates.rs): a
    diff-match-patch patch text interpreted strictly against its source. */
module TextPatch {
  import opened Wrappers
  import opened Text
  import opened Utf8

  datatype PatchError = BadHeader | BadOffset | OutOfOrder | BadEscape | Mismatch | BadLine | SplitPanic

  // ---- the text layer: lines, escapes, headers ----

  function IndexOf(s: string, c: char): (k: nat)
    ensures k <= |s| && (k < |s| ==> s[k] == c) && forall i :: 0 <= i < k ==> s[i] != c
  {
    if s == "" || s[0] == c then 0 else 1 + IndexOf(s[1..], c)
  }

  function StripCr(s: string): string
  {
    if s != "" && s[|s| - 1] == '\r' then s[..|s| - 1] else s
  }

  /** `str::lines`: a final line feed is optional, `\r\n` ends a line as `\n` does. */
  function Lines(s: string): seq<string>
  {
    if s == "" then []
    else
      var k := IndexOf(s, '\n');
      if k == |s| then [s] else [StripCr(s[..k])] + Lines(s[k + 1..])
  }

  function SplitOnce(s: string, sep: string): (r: Option<(string, string)>)
    requires sep != ""
    ensures r.Some? ==> r.value.0 + sep + r.value.1 == s
  {
    if StartsWith(s, sep) then Some(("", s[|sep|..]))
    else if s == "" then None
    else
      match SplitOnce(s[1..], sep)
      case None => None
      case Some((a, b)) => Some(([s[0]] + a, b))
  }

  /** `u8::from_str_radix(_, 16)` on two bytes. */
  function EscapedByte(hi: byte, lo: byte): Option<byte>
  {
    var h, l := HexValue(hi), HexValue(lo);
    if l.None? then None
    else if hi == '+' as int then Some(l.value)
    else if h.None? then None
    else Some(16 * h.value + l.value)
  }

  /** `out` followed by what is still to come, if that succeeds. */
  function Then(out: seq<byte>, rest: Option<seq<byte>>): Option<seq<byte>>
  {
    match rest case None => None case Some(r) => Some(out + r)
  }

  function Unescape(b: seq<byte>): Option<seq<byte>>
  {
    if b == [] then Some([])
    else if b[0] == '%' as int && |b| > 2 then
      match EscapedByte(b[1], b[2])
      case None => None
      case Some(x) => Then([x], Unescape(b[3..]))
    else Then([b[0]], Unescape(b[1..]))
  }

  function Decode(line: string): Result<string, PatchError>
  {
    match Unescape(ToUtf8(line))
    case None => Err(BadEscape)
    case Some(b) =>
      match FromUtf8(b)
      case None => Err(BadEscape)
      case Some(s) => Ok(s)
  }

  /** Where a hunk starts in the source: its offset is 1-based unless its source length is 0. */
  function HunkAt(start1: nat, len1: nat): nat
  {
    if len1 == 0 then start1 else if start1 == 0 then 0 else start1 - 1
  }

  function ParseHeader(line: string): Result<nat, PatchError>
  {
    if !StartsWith(line, "@@ -") then Err(BadHeader)
    else
      match SplitOnce(line[4..], " +")
      case None => Err(BadHeader)
      case Some((coords, _)) =>
        match SplitOnce(coords, ",")
        case None =>
          (match ParseUsize(coords)
           case None => Err(BadOffset)
           case Some(a) => Ok(HunkAt(a, 1)))
        case Some((start, len)) =>
          var a, b := ParseUsize(start), ParseUsize(len);
          if a.None? || b.None? then Err(BadOffset) else Ok(HunkAt(a.value, b.value))
  }

  /** One hunk line: kept context, deleted text, or inserted text. */
  datatype Edit = Keep(text: string) | Drop(text: string) | Put(text: string)

  function ParseEdit(line: string): Result<Edit, PatchError>
  {
    if line == "" then Err(BadLine)
    else if line[0] as int >= 0x80 then Err(SplitPanic)
    else
      match Decode(line[1..])
      case Err(e) => Err(e)
      case Ok(text) =>
        if line[0] == ' ' then Ok(Keep(text))
        else if line[0] == '-' then Ok(Drop(text))
        else if line[0] == '+' then Ok(Put(text))
        else Err(BadLine)
  }

  // ---- the interpreter, line by line as the code runs it ----

  datatype Cursor = Cursor(pos: nat, out: string)

  /** The source has `text` at `pos`. */
  predicate Sits(source: string, pos: nat, text: string)
  {
    pos + |text| <= |source| && source[pos..pos + |text|] == text
  }

  function ApplyEdit(source: string, c: Cursor, e: Edit): Result<Cursor, PatchError>
  {
    if e.Put? then Ok(Cursor(c.pos, c.out + e.text))
    else if !Sits(source, c.pos, e.text) then Err(Mismatch)
    else Ok(Cursor(c.pos + |e.text|, if e.Keep? then c.out + e.text else c.out))
  }

  /** `open`: a header has been read, so lines not starting with `@@` belong to its hunk. */
  function Run(source: string, lines: seq<string>, c: Cursor, open: bool): (r: Result<Cursor, PatchError>)
    requires c.pos <= |source|
    ensures r.Ok? ==> r.value.pos <= |source|
    decreases |lines|
  {
    if lines == [] then Ok(c)
    else if !open || StartsWith(lines[0], "@@") then
      match ParseHeader(lines[0])
      case Err(e) => Err(e)
      case Ok(at) =>
        if at < c.pos || at > |source| then Err(OutOfOrder)
        else Run(source, lines[1..], Cursor(at, c.out + source[c.pos..at]), true)
    else
      match ParseEdit(lines[0])
      case Err(e) => Err(e)
      case Ok(edit) =>
        match ApplyEdit(source, c, edit)
        case Err(e) => Err(e)
        case Ok(c') => Run(source, lines[1..], c', true)
  }

  function Unpatch(source: string, patch: string): Result<string, PatchError>
  {
    match Run(source, Lines(patch), Cursor(0, ""), false)
    case Err(e) => Err(e)
    case Ok(c) => Ok(c.out + source[c.pos..])
  }

  // ---- the code's loops ----

  lemma ThenStep(out: seq<byte>, x: byte, rest: Option<seq<byte>>)
    ensures Then(out, Then([x], rest)) == Then(out + [x], rest)
  {
    if rest.Some? { assert out + ([x] + rest.value) == (out + [x]) + rest.value; }
  }

  lemma UnescapeAt(b: seq<byte>, i: nat)
    requires i < |b|
    ensures Unescape(b[i..]) ==
            if b[i] == '%' as int && i + 2 < |b| then
              var x := EscapedByte(b[i + 1], b[i + 2]);
              if x.None? then None else Then([x.value], Unescape(b[i + 3..]))
            else Then([b[i]], Unescape(b[i + 1..]))
  {
    assert b[i..][1..] == b[i + 1..];
    if i + 2 < |b| { assert b[i..][3..] == b[i + 3..]; }
  }

  method DecodeLine(line: string) returns (r: Result<string, PatchError>)
    ensures r == Decode(line)
  {
    hide Unescape, Then, EscapedByte;
    var b := ToUtf8(line);
    var out: seq<byte>, i := [], 0;
    assert b[0..] == b;
    assert Then(out, Unescape(b)) == Unescape(b) by { ThenNothing(Unescape(b)); }
    while i < |b|
      invariant 0 <= i <= |b|
      invariant Unescape(b) == Then(out, Unescape(b[i..]))
    {
      UnescapeAt(b, i);
      if b[i] == '%' as int && i + 2 < |b| {
        var x := EscapedByte(b[i + 1], b[i + 2]);
        if x.None? {
          ThenNone(out);
          return Err(BadEscape);
        }
        ThenStep(out, x.value, Unescape(b[i + 3..]));
        out := out + [x.value];
        i := i + 3;
      } else {
        ThenStep(out, b[i], Unescape(b[i + 1..]));
        out := out + [b[i]];
        i := i + 1;
      }
    }
    assert b[i..] == [];
    ThenEnd(out);
    var s := FromUtf8(out);
    return if s.None? then Err(BadEscape) else Ok(s.value);
  }

  lemma ThenNothing(rest: Option<seq<byte>>)
    ensures Then([], rest) == rest
  {
    if rest.Some? { assert [] + rest.value == rest.value; }
  }

  lemma ThenNone(out: seq<byte>)
    ensures Then(out, None) == None
  {}

  lemma ThenEnd(out: seq<byte>)
    ensures Then(out, Unescape([])) == Some(out)
  {
    assert out + [] == out;
  }

  lemma RunHeader(source: string, lines: seq<string>, i: nat, c: Cursor, open: bool)
    requires i < |lines| && c.pos <= |source| && (!open || StartsWith(lines[i], "@@"))
    ensures var h := ParseHeader(lines[i]);
            Run(source, lines[i..], c, open) ==
            if h.Err? then Err(h.error)
            else if h.value < c.pos || h.value > |source| then Err(OutOfOrder)
            else Run(source, lines[i + 1..], Cursor(h.value, c.out + source[c.pos..h.value]), true)
  {
    assert lines[i..][1..] == lines[i + 1..];
  }

  lemma RunEdit(source: string, lines: seq<string>, i: nat, c: Cursor)
    requires i < |lines| && c.pos <= |source| && !StartsWith(lines[i], "@@")
    ensures var e := ParseEdit(lines[i]);
            Run(source, lines[i..], c, true) ==
            if e.Err? then Err(e.error)
            else
              var d := ApplyEdit(source, c, e.value);
              if d.Err? then Err(d.error) else Run(source, lines[i + 1..], d.value, true)
  {
    assert lines[i..][1..] == lines[i + 1..];
  }

  lemma RunEnd(source: string, c: Cursor, open: bool)
    requires c.pos <= |source|
    ensures Run(source, [], c, open) == Ok(c)
  {}

  /** `dmp_unpatch` itself: the outer loop takes headers, the inner one a hunk's lines. */
  method DmpUnpatch(source: string, patch: string) returns (r: Result<string, PatchError>)
    ensures r == Unpatch(source, patch)
  {
    hide Run, Lines, ParseHeader, Decode;
    var lines := Lines(patch);
    var out, pos, i := "", 0, 0;
    ghost var answer := Run(source, lines, Cursor(0, ""), false);
    assert lines[0..] == lines;
    while i < |lines|
      invariant 0 <= i <= |lines| && 0 <= pos <= |source|
      invariant i < |lines| ==> i == 0 || StartsWith(lines[i], "@@")
      invariant answer == Run(source, lines[i..], Cursor(pos, out), i > 0)
    {
      RunHeader(source, lines, i, Cursor(pos, out), i > 0);
      var header := ParseHeader(lines[i]);
      if header.Err? { return Err(header.error); }
      var at := header.value;
      if at < pos || at > |source| { return Err(OutOfOrder); }
      out := out + source[pos..at];
      pos := at;
      i := i + 1;
      while i < |lines| && !StartsWith(lines[i], "@@")
        invariant 0 < i <= |lines| && 0 <= pos <= |source|
        invariant answer == Run(source, lines[i..], Cursor(pos, out), true)
      {
        RunEdit(source, lines, i, Cursor(pos, out));
        var line := lines[i];
        if line == "" { return Err(BadLine); }
        if line[0] as int >= 0x80 { return Err(SplitPanic); }
        var text := DecodeLine(line[1..]);
        if text.Err? { return Err(text.error); }
        if line[0] == ' ' || line[0] == '-' {
          if !Sits(source, pos, text.value) { return Err(Mismatch); }
          pos := pos + |text.value|;
          if line[0] == ' ' { out := out + text.value; }
        } else if line[0] == '+' {
          out := out + text.value;
        } else {
          return Err(BadLine);
        }
        i := i + 1;
      }
    }
    assert lines[i..] == [];
    RunEnd(source, Cursor(pos, out), i > 0);
    out := out + source[pos..];
    return Ok(out);
  }
}
