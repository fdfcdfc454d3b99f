/** Reading undoes rendering: every literal comes back unchanged, every filter with its meaning. */
module SurqlLaws {
  import opened Wrappers
  import opened Collections
  import opened Text
  import opened Contract
  import opened Surql
  import opened SurqlReader

  /** What may come after a value: the end, or a separator or closing bracket. */
  predicate Follow(rest: string)
  {
    rest == "" || rest[0] == ' ' || rest[0] == ')' || rest[0] == ',' || rest[0] == ']'
  }

  // ---- quoted literals ----

  lemma {:induction false} ReplaceAppend(a: string, b: string, c: char, with: string)
    ensures ReplaceChar(a + b, c, with) == ReplaceChar(a, c, with) + ReplaceChar(b, c, with)
  {
    if a == "" {
      assert a + b == b;
    } else {
      assert (a + b)[1..] == a[1..] + b;
      ReplaceAppend(a[1..], b, c, with);
    }
  }

  function EscapeChar(c: char): string
  {
    if c == '\\' then "\\\\" else if c == '\'' then "\\'" else [c]
  }

  /** Escaping goes character by character. */
  lemma EscapeHead(s: string)
    requires s != ""
    ensures EscapeStr(s) == EscapeChar(s[0]) + EscapeStr(s[1..])
  {
    var head := if s[0] == '\\' then "\\\\" else [s[0]];
    var tail := ReplaceChar(s[1..], '\\', "\\\\");
    ReplaceAppend(head, tail, '\'', "\\'");
    QuoteHead(s[0]);
  }

  lemma QuoteHead(c: char)
    ensures ReplaceChar("\\\\", '\'', "\\'") == "\\\\"
    ensures c != '\\' ==> ReplaceChar([c], '\'', "\\'") == EscapeChar(c)
  {
    var two := "\\\\";
    assert two[1..] == "\\" && "\\"[1..] == "";
    assert ReplaceChar("\\", '\'', "\\'") == "\\";
    assert [c][1..] == "";
  }

  lemma {:induction false} QuotedReads(t: string, rest: string)
    ensures ReadQuoted(EscapeStr(t) + ("'" + rest)) == Some((t, rest))
  {
    var more := EscapeStr(t) + ("'" + rest);
    if t == "" {
      assert EscapeStr("") == "";
      assert more == "'" + rest;
      assert more[1..] == rest;
    } else {
      QuotedReads(t[1..], rest);
      EscapeHead(t);
      hide EscapeStr;
      var inner := EscapeStr(t[1..]) + ("'" + rest);
      Cat(EscapeChar(t[0]), EscapeStr(t[1..]), "'" + rest);
      assert more == EscapeChar(t[0]) + inner;
      assert more[|EscapeChar(t[0])|..] == inner;
      assert [t[0]] + t[1..] == t;
    }
  }

  // ---- identifiers and numbers ----

  lemma {:induction false} IdentReads(k: string, rest: string)
    requires forall i :: 0 <= i < |k| ==> IdentChar(k[i])
    requires rest == "" || !IdentChar(rest[0])
    ensures IdentSpan(k + rest) == |k|
  {
    if k == "" {
      assert k + rest == rest;
    } else {
      assert (k + rest)[1..] == k[1..] + rest;
      IdentReads(k[1..], rest);
    }
  }

  lemma {:induction false} NumberReads(t: string, rest: string)
    requires forall i :: 0 <= i < |t| ==> NumberChar(t[i])
    requires rest == "" || !NumberChar(rest[0])
    ensures NumberSpan(t + rest) == |t|
  {
    if t == "" {
      assert t + rest == rest;
    } else {
      assert (t + rest)[1..] == t[1..] + rest;
      NumberReads(t[1..], rest);
    }
  }

  lemma {:induction false} DurationSpans(t: string, rest: string)
    requires forall i :: 0 <= i < |t| ==> SpanChar(t[i])
    requires rest == "" || !SpanChar(rest[0])
    ensures DurationSpan(t + rest) == |t|
  {
    if t == "" {
      assert t + rest == rest;
    } else {
      assert (t + rest)[1..] == t[1..] + rest;
      DurationSpans(t[1..], rest);
    }
  }

  lemma {:induction false} DecimalChars(t: string)
    requires forall i :: 0 <= i < |Split(t, '.')| ==> AllDigits(Split(t, '.')[i])
    ensures forall i :: 0 <= i < |t| ==> NumberChar(t[i])
  {
    if t != "" {
      var parts, rest := Split(t, '.'), Split(t[1..], '.');
      if t[0] == '.' {
        assert forall i :: 0 <= i < |rest| ==> rest[i] == parts[i + 1];
      } else {
        assert parts[0] == [t[0]] + rest[0];
        assert IsDigit(parts[0][0]);
        forall i | 0 <= i < |rest| ensures AllDigits(rest[i]) {
          if i == 0 {
            assert forall j :: 0 <= j < |rest[0]| ==> rest[0][j] == parts[0][j + 1];
          } else {
            assert rest[i] == parts[i];
          }
        }
      }
      DecimalChars(t[1..]);
    }
  }

  /** A sign and number characters, then something else. */
  lemma NumberSplits(t: string, rest: string)
    requires t != "" && t != "-"
    requires var sign := if t[0] == '-' then 1 else 0;
             forall i :: sign <= i < |t| ==> NumberChar(t[i])
    requires rest == "" || !NumberChar(rest[0])
    ensures var sign := if t[0] == '-' then 1 else 0;
            sign + NumberSpan((t + rest)[sign..]) == |t|
  {
    var sign := if t[0] == '-' then 1 else 0;
    assert (t + rest)[sign..] == t[sign..] + rest;
    NumberReads(t[sign..], rest);
  }

  lemma DecimalReads(t: string, rest: string)
    requires PlainDecimal(t)
    ensures t != "" && (t[0] == '-' || IsDigit(t[0]))
    ensures ReadNumber((t + "dec") + rest) == Some((Decimal(t), rest))
  {
    DecimalStart(t);
    hide PlainDecimal, NumberSpan, Split;
    var s := (t + "dec") + rest;
    Cat(t, "dec", rest);
    NumberSplits(t, "dec" + rest);
    assert s[0] == t[0];
    assert s[..|t|] == t && s[|t|..] == "dec" + rest && s[|t| + 3..] == rest;
  }

  lemma DecimalStart(t: string)
    requires PlainDecimal(t)
    ensures t != "" && t != "-" && (t[0] == '-' || IsDigit(t[0]))
    ensures forall i :: (if t[0] == '-' then 1 else 0) <= i < |t| ==> NumberChar(t[i])
  {
    var body := if t != "" && t[0] == '-' then t[1..] else t;
    var parts := Split(body, '.');
    assert parts[0] != "" && AllDigits(parts[0]);
    forall i | 0 <= i < |parts| ensures AllDigits(Split(body, '.')[i]) { assert AllDigits(parts[i]); }
    DecimalChars(body);
    assert body != "";
    assert t != "-";
    if t[0] == '-' {
      forall i | 1 <= i < |t| ensures NumberChar(t[i]) { assert t[i] == body[i - 1]; }
    } else {
      assert body[0] != '.';
      assert parts[0][0] == body[0];
    }
  }

  lemma IntReads(i: i64, rest: string)
    requires Follow(rest)
    ensures var t := IntText(i);
            t != "" && (t[0] == '-' || IsDigit(t[0])) && ReadNumber(t + rest) == Some((Int(i), rest))
  {
    var t := IntText(i);
    var n: nat := if i < 0 then -(i as int) else i;
    var digits := Numeral(n, 10);
    assert IsDigit(digits[0]);
    NumeralRoundTrip(n, 10);
    hide Numeral, NumberSpan, NumeralValue, DurationSpan, HasUnit, UnitChar;
    assert t == if i < 0 then "-" + digits else digits;
    assert i < 0 ==> t[1..] == digits;
    assert forall k :: 0 <= k < |digits| ==> IsDigit(digits[k]);
    NumberSplits(t, rest);
    assert (t + rest)[..|t|] == t && (t + rest)[|t|..] == rest;
    assert !("dec" <= rest);
    if i >= 0 {
      FollowEnds(rest);
      DurationSpans(t, rest);
      NoUnits(t);
    } else {
      assert (t + rest)[0] == '-';
    }
  }

  lemma FollowEnds(rest: string)
    requires Follow(rest)
    ensures rest == "" || !SpanChar(rest[0])
  {}

  lemma NoUnits(t: string)
    requires AllDigits(t)
    ensures !HasUnit(t)
  {}

  /** A duration with a unit is neither the integer nor the decimal its digits begin. */
  lemma DurationReads(t: string, rest: string)
    requires DurationShape(t) && HasUnit(t) && Follow(rest)
    ensures ReadNumber(t + rest) == Some((Duration(t), rest))
  {
    var s := t + rest;
    FollowEnds(rest);
    DurationSpans(t, rest);
    var unit :| 0 <= unit < |t| && UnitChar(t[unit]);
    NumberStops(s, unit);
    assert s[0] == t[0] && NumberSpan(s) > 0;
    hide DurationSpan, HasUnit, NumberSpan;
    assert s[..|t|] == t && s[|t|..] == rest && s[0..] == s;
    NoSuffix(t, rest, NumberSpan(s));
  }

  lemma NoSuffix(t: string, rest: string, n: nat)
    requires DurationShape(t) && Follow(rest) && n < |t|
    ensures !("dec" <= (t + rest)[n..])
  {
    var s := t + rest;
    if n + 1 < |t| {
      assert s[n..][1] == t[n + 1];
    } else if rest != "" {
      assert s[n..][1] == rest[0];
    }
  }

  lemma {:induction false} NumberStops(s: string, i: nat)
    requires i < |s| && !NumberChar(s[i])
    ensures NumberSpan(s) <= i
  {
    if i > 0 && NumberChar(s[0]) { NumberStops(s[1..], i - 1); }
  }

  // ---- values ----

  /** Every duration in it has a unit. */
  predicate Units(v: Value)
  {
    match v
    case Duration(s) => HasUnit(s)
    case List(items) => forall i :: 0 <= i < |items| ==> Units(items[i])
    case Object(entries) => forall i :: 0 <= i < |entries| ==> Units(entries[i].1)
    case _ => true
  }

  lemma TextReads(t: string, rest: string)
    ensures ReadValue(("'" + EscapeStr(t) + "'") + rest) == Some((Text(t), rest))
  {
    QuotedReads(t, rest);
    var s := ("'" + EscapeStr(t) + "'") + rest;
    hide ReadQuoted, EscapeStr;
    assert s[1..] == EscapeStr(t) + ("'" + rest);
  }

  lemma DatetimeReads(t: string, rest: string)
    ensures ReadValue(("d'" + EscapeStr(t) + "'") + rest) == Some((Datetime(t), rest))
  {
    QuotedReads(t, rest);
    var s := ("d'" + EscapeStr(t) + "'") + rest;
    hide ReadQuoted, EscapeStr;
    assert s[2..] == EscapeStr(t) + ("'" + rest);
    assert s[0] == 'd' && s[1] == '\'';
  }

  lemma RecordReads(t: string, rest: string)
    ensures ReadValue(("type::record('" + EscapeStr(t) + "')") + rest) == Some((RecordId(t), rest))
  {
    QuotedReads(t, ")" + rest);
    var s := ("type::record('" + EscapeStr(t) + "')") + rest;
    hide ReadQuoted, EscapeStr;
    assert |"type::record('"| == 14;
    assert s[14..] == EscapeStr(t) + ("'" + (")" + rest));
    assert s[0] == 't' && s[1] == 'y';
    assert (")" + rest)[1..] == rest;
  }

  lemma NumbersDispatch(s: string)
    requires s != "" && (s[0] == '-' || IsDigit(s[0]))
    ensures ReadValue(s) == ReadNumber(s)
  {
    hide ReadNumber, ReadQuoted;
  }

  lemma ListDispatch(s: string)
    ensures ReadValue("[" + s) ==
            var items := if "]" <= s then Some(([], s[1..])) else ReadItems(s);
            if items.None? then None else Some((List(items.value.0), items.value.1))
  {
    hide ReadItems;
    var all := "[" + s;
    assert all[1..] == s && all[0] == '[';
    assert "]" <= s ==> all[2..] == s[1..];
  }

  lemma ObjectDispatch(s: string)
    ensures ReadValue("{ " + s) ==
            var entries := if " }" <= s then Some(([], s[2..])) else ReadEntries(s);
            if entries.None? then None else Some((Object(entries.value.0), entries.value.1))
  {
    hide ReadEntries;
    var all := "{ " + s;
    assert all[2..] == s && all[0] == '{' && all[1] == ' ';
    assert " }" <= s ==> all[4..] == s[2..];
  }

  lemma ConstantReads(rest: string)
    ensures ReadValue("NONE" + rest) == Some((Null, rest))
    ensures ReadValue("true" + rest) == Some((Bool(true), rest))
    ensures ReadValue("false" + rest) == Some((Bool(false), rest))
  {
    var n, t, f := "NONE" + rest, "true" + rest, "false" + rest;
    assert n[0] == 'N' && n[4..] == rest;
    assert t[0] == 't' && t[4..] == rest;
    assert f[0] == 'f' && f[5..] == rest;
  }

  /** How a rendered value starts. */
  lemma ValueStarts(v: Value)
    requires RenderValue(v).Ok? && Units(v)
    ensures RenderValue(v).value != "" && RenderValue(v).value[0] != ']'
  {
    match v
    case Int(i) => IntReads(i, "");
    case Decimal(s) => DecimalReads(s, "");
    case Duration(s) => DurationReads(s, "");
    case _ =>
  }

  /** A list of parts: the first, and the rest behind separators. */
  lemma Joined(parts: seq<string>, sep: string, end: string)
    requires parts != []
    ensures JoinAll(parts, sep) + end ==
            parts[0] + if |parts| == 1 then end else sep + (JoinAll(parts[1..], sep) + end)
  {
    if |parts| > 1 {
      Cat(parts[0] + sep, Join(parts[1..], sep), end);
      Cat(parts[0], sep, Join(parts[1..], sep) + end);
    }
  }

  lemma ItemsUnfold(items: seq<Value>)
    requires items != [] && RenderItems(items).Ok?
    ensures var parts := RenderItems(items).value;
            && RenderValue(items[0]) == Ok(parts[0]) && RenderItems(items[1..]) == Ok(parts[1..])
  {
    assert RenderItems(items).value[1..] == RenderItems(items[1..]).value;
  }

  lemma EntriesUnfold(entries: seq<(string, Value)>)
    requires entries != [] && RenderEntries(entries).Ok?
    ensures var parts := RenderEntries(entries).value;
            && RenderEntry(entries[0]) == Ok(parts[0]) && RenderEntries(entries[1..]) == Ok(parts[1..])
  {
    assert RenderEntries(entries).value[1..] == RenderEntries(entries[1..]).value;
  }

  lemma ReadItemsStep(v: Value, s: string, after: string)
    requires ReadValue(s) == Some((v, after))
    ensures "]" <= after ==> ReadItems(s) == Some(([v], after[1..]))
    ensures ", " <= after && !("]" <= after) ==>
              ReadItems(s) == var tail := ReadItems(after[2..]); if tail.None? then None else Some(([v] + tail.value.0, tail.value.1))
  {
    hide ReadValue;
  }

  lemma ReadEntriesStep(k: string, v: Value, s: string, after: string)
    requires IsIdent(k) && ReadValue(s) == Some((v, after))
    ensures " }" <= after ==> ReadEntries(k + (": " + s)) == Some(([(k, v)], after[2..]))
    ensures ", " <= after && !(" }" <= after) ==>
              ReadEntries(k + (": " + s)) ==
              var tail := ReadEntries(after[2..]); if tail.None? then None else Some(([(k, v)] + tail.value.0, tail.value.1))
  {
    var all := k + (": " + s);
    IdentReads(k, ": " + s);
    hide ReadValue, IdentSpan;
    assert all[|k|..] == ": " + s && all[|k| + 2..] == s && all[..|k|] == k;
    assert |s| < |all|;
  }

  lemma {:induction false} LiteralReads(v: Value, t: string, rest: string)
    requires RenderValue(v) == Ok(t) && Units(v) && Follow(rest)
    ensures ReadValue(t + rest) == Some((v, rest))
    decreases v, 1
  {
    match v
    case Null => ConstantReads(rest);
    case Bool(b) => ConstantReads(rest);
    case Int(i) =>
      IntReads(i, rest);
      NumbersDispatch(t + rest);
    case Decimal(s) =>
      DecimalReads(s, rest);
      NumbersDispatch(t + rest);
    case Duration(s) =>
      DurationReads(s, rest);
      NumbersDispatch(t + rest);
    case Datetime(s) => DatetimeReads(s, rest);
    case RecordId(s) => RecordReads(s, rest);
    case Text(s) => TextReads(s, rest);
    case List(items) => ListReads(items, t, rest);
    case Object(entries) => ObjectReads(entries, t, rest);
  }

  lemma {:induction false} ListReads(items: seq<Value>, t: string, rest: string)
    requires RenderValue(List(items)) == Ok(t) && Units(List(items))
    ensures ReadValue(t + rest) == Some((List(items), rest))
    decreases items, 1
  {
    var parts := RenderItems(items).value;
    var body := JoinAll(parts, ", ");
    assert t + rest == "[" + (body + ("]" + rest));
    ListDispatch(body + ("]" + rest));
    if items == [] {
      assert body + ("]" + rest) == "]" + rest && ("]" + rest)[1..] == rest;
    } else {
      ItemsRead(items, parts, rest);
      ItemsUnfold(items);
      ValueStarts(items[0]);
      Joined(parts, ", ", "]" + rest);
      hide ReadItems, RenderItems, JoinAll, ReadValue, RenderValue;
      assert (body + ("]" + rest))[0] == parts[0][0];
    }
  }

  lemma Follows(rest: string)
    ensures Follow("]" + rest) && Follow(" }" + rest) && Follow(", " + rest) && Follow(")" + rest) && Follow(" " + rest)
    ensures (", " + rest)[2..] == rest && ("]" + rest)[1..] == rest && (" }" + rest)[2..] == rest
    ensures ", " <= ", " + rest && !("]" <= ", " + rest) && !(" }" <= ", " + rest)
    ensures "]" <= "]" + rest && " }" <= " }" + rest
  {}

  lemma UnitsItems(items: seq<Value>)
    requires items != [] && Units(List(items))
    ensures Units(items[0]) && Units(List(items[1..])) && [items[0]] + items[1..] == items
  {}

  lemma UnitsEntries(entries: seq<(string, Value)>)
    requires entries != [] && Units(Object(entries))
    ensures Units(entries[0].1) && Units(Object(entries[1..])) && [entries[0]] + entries[1..] == entries
  {}

  lemma {:induction false} ItemsRead(items: seq<Value>, parts: seq<string>, rest: string)
    requires items != [] && RenderItems(items) == Ok(parts) && Units(List(items))
    ensures ReadItems(JoinAll(parts, ", ") + ("]" + rest)) == Some((items, rest))
    decreases items, 0
  {
    hide *;
    var end := "]" + rest;
    ItemsUnfold(items);
    UnitsItems(items);
    Joined(parts, ", ", end);
    var more := JoinAll(parts[1..], ", ") + end;
    var after := if |parts| == 1 then end else ", " + more;
    Follows(rest);
    Follows(more);
    LiteralReads(items[0], parts[0], after);
    ReadItemsStep(items[0], parts[0] + after, after);
    if |parts| > 1 {
      ItemsRead(items[1..], parts[1..], rest);
    } else {
      assert items == [items[0]];
    }
  }

  lemma {:induction false} ObjectReads(entries: seq<(string, Value)>, t: string, rest: string)
    requires RenderValue(Object(entries)) == Ok(t) && Units(Object(entries))
    ensures ReadValue(t + rest) == Some((Object(entries), rest))
    decreases entries, 1
  {
    hide *;
    ObjectIs(entries, rest);
    var parts := RenderEntries(entries).value;
    var body := JoinAll(parts, ", ");
    ObjectDispatch(body + (" }" + rest));
    Follows(rest);
    if entries == [] {
      assert body + (" }" + rest) == " }" + rest;
    } else {
      EntriesRead(entries, parts, rest);
    }
  }

  lemma ObjectIs(entries: seq<(string, Value)>, rest: string)
    requires RenderValue(Object(entries)).Ok?
    ensures RenderEntries(entries).Ok?
    ensures var parts := RenderEntries(entries).value;
            && RenderValue(Object(entries)).value + rest == "{ " + (JoinAll(parts, ", ") + (" }" + rest))
            && (entries == [] ==> JoinAll(parts, ", ") == "")
            && (entries != [] ==> !(" }" <= JoinAll(parts, ", ") + (" }" + rest)))
  {
    var parts := RenderEntries(entries).value;
    var body := JoinAll(parts, ", ");
    assert ("{ " + body + " }") + rest == "{ " + (body + (" }" + rest));
    if entries != [] {
      EntriesUnfold(entries);
      EntryIs(entries[0]);
      Joined(parts, ", ", " }" + rest);
      hide JoinAll, RenderEntries, RenderEntry, RenderValue;
      assert (body + (" }" + rest))[0] == parts[0][0];
    }
  }

  lemma EntryIs(e: (string, Value))
    requires RenderEntry(e).Ok?
    ensures IsIdent(e.0) && RenderValue(e.1).Ok?
    ensures RenderEntry(e).value == (e.0 + ": ") + RenderValue(e.1).value
    ensures RenderEntry(e).value[0] != ' '
  {}

  lemma {:induction false} EntryValue(e: (string, Value), part: string, after: string)
    requires RenderEntry(e) == Ok(part) && Units(e.1) && Follow(after)
    ensures IsIdent(e.0) && RenderValue(e.1).Ok?
    ensures part + after == e.0 + (": " + (RenderValue(e.1).value + after))
    ensures ReadValue(RenderValue(e.1).value + after) == Some((e.1, after))
    decreases e, 0
  {
    hide *;
    EntryIs(e);
    var value := RenderValue(e.1).value;
    Cat(e.0 + ": ", value, after);
    Cat(e.0, ": ", value + after);
    LiteralReads(e.1, value, after);
  }

  lemma {:induction false} EntriesRead(entries: seq<(string, Value)>, parts: seq<string>, rest: string)
    requires entries != [] && RenderEntries(entries) == Ok(parts) && Units(Object(entries))
    ensures ReadEntries(JoinAll(parts, ", ") + (" }" + rest)) == Some((entries, rest))
    decreases entries, 0
  {
    hide *;
    var end := " }" + rest;
    EntriesUnfold(entries);
    UnitsEntries(entries);
    Joined(parts, ", ", end);
    var more := JoinAll(parts[1..], ", ") + end;
    var after := if |parts| == 1 then end else ", " + more;
    Follows(rest);
    Follows(more);
    EntryValue(entries[0], parts[0], after);
    ReadEntriesStep(entries[0].0, entries[0].1, RenderValue(entries[0].1).value + after, after);
    assert (entries[0].0, entries[0].1) == entries[0];
    if |parts| > 1 {
      EntriesRead(entries[1..], parts[1..], rest);
    } else {
      assert entries == [entries[0]];
    }
  }

  // ---- the converse ----

  /** The reader returns no duration without a unit. */
  lemma {:induction false} ReadUnits(s: string)
    ensures ReadValue(s).Some? ==> Units(ReadValue(s).value.0)
    decreases |s|, 1
  {
    hide ReadQuoted, ReadInt, NumberSpan, DurationSpan, HasUnit;
    if "[" <= s {
      if !("]" <= s[1..]) { ReadItemsUnits(s[1..]); }
    } else if "{ " <= s {
      if !(" }" <= s[2..]) { ReadEntriesUnits(s[2..]); }
    }
  }

  lemma {:induction false} ReadItemsUnits(s: string)
    ensures ReadItems(s).Some? ==> Units(List(ReadItems(s).value.0))
    decreases |s|, 2
  {
    hide ReadValue;
    ReadUnits(s);
    if ReadValue(s).Some? {
      var rest := ReadValue(s).value.1;
      if ", " <= rest { ReadItemsUnits(rest[2..]); }
    }
  }

  lemma {:induction false} ReadEntriesUnits(s: string)
    ensures ReadEntries(s).Some? ==> Units(Object(ReadEntries(s).value.0))
    decreases |s|, 2
  {
    hide ReadValue, IdentSpan;
    var n := IdentSpan(s);
    if ": " <= s[n..] {
      ReadUnits(s[n + 2..]);
      if ReadValue(s[n + 2..]).Some? {
        var rest := ReadValue(s[n + 2..]).value.1;
        if ", " <= rest { ReadEntriesUnits(rest[2..]); }
      }
    }
  }

  /** A renderable value reads back unchanged exactly when every duration in it has a unit. */
  lemma ValueReads(v: Value, t: string, rest: string)
    requires RenderValue(v) == Ok(t) && Follow(rest)
    ensures ReadValue(t + rest) == Some((v, rest)) <==> Units(v)
  {
    hide *;
    if Units(v) { LiteralReads(v, t, rest); }
    ReadUnits(t + rest);
  }
}
