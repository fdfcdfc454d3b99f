/** Filters read back from their text: what the reader returns, and that it means the same. */
module SurqlFilters {
  import opened Wrappers
  import opened Collections
  import opened Text
  import opened Contract
  import opened Surql
  import opened SurqlReader
  import opened SurqlLaws

  // ---- paths ----

  /** A link hop is printed as the field it goes through. */
  function NormSegment(seg: PathSegment): PathSegment
  {
    if seg.LinkHop? then Field(seg.name) else seg
  }

  function NormPath(path: seq<PathSegment>): (r: seq<PathSegment>)
    ensures |r| == |path|
  {
    if path == [] then [] else [NormSegment(path[0])] + NormPath(path[1..])
  }

  predicate AfterIdent(rest: string) { rest == "" || !IdentChar(rest[0]) }

  lemma EdgeReads(name: string, after: string)
    requires IsIdent(name)
    ensures ReadSegment(("->" + name + "->?") + after) == Some((Edge(Out, name), after))
    ensures ReadSegment(("<-" + name + "<-?") + after) == Some((Edge(In, name), after))
  {
    var s, t := ("->" + name + "->?") + after, ("<-" + name + "<-?") + after;
    IdentReads(name, "->?" + after);
    IdentReads(name, "<-?" + after);
    hide IdentSpan, IsIdent;
    var n := |name|;
    assert s[2..] == name + ("->?" + after) && t[2..] == name + ("<-?" + after);
    assert s[2 + n..] == "->?" + after && t[2 + n..] == "<-?" + after;
    assert s[2..2 + n] == name && t[2..2 + n] == name;
    assert s[5 + n..] == after && t[5 + n..] == after;
    assert s[0] == '-' && t[0] == '<';
  }

  lemma NameReads(name: string, after: string)
    requires IsIdent(name) && AfterIdent(after)
    ensures ReadSegment(name + after) == Some((Field(name), after))
    ensures ReadSegment(("." + name) + after) == Some((Field(name), after))
  {
    var s, t := name + after, ("." + name) + after;
    IdentReads(name, after);
    var n := |name|;
    assert IdentChar(name[0]) && s[0] == name[0];
    hide IdentSpan, IsIdent;
    assert s[0..] == s;
    assert t == "." + s;
    assert t[1..] == s && t[0] == '.';
    assert s[0..0 + n] == name && s[0 + n..] == after;
    assert t[1..1 + n] == name && t[1 + n..] == after;
  }

  lemma SegmentReads(seg: PathSegment, first: bool, t: string, after: string)
    requires RenderSegment(seg, first) == Ok(t) && (seg.Edge? || AfterIdent(after))
    ensures ReadSegment(t + after) == Some((NormSegment(seg), after))
    ensures t != "" && t[0] != ' ' && t[0] != '('
    ensures !first ==> !IdentChar(t[0])
  {
    hide ReadSegment;
    if seg.Edge? { EdgeReads(seg.edgeType, after); } else { NameReads(seg.name, after); }
  }

  lemma SegmentsUnfold(path: seq<PathSegment>, first: bool)
    requires path != [] && RenderSegments(path, first).Ok?
    ensures RenderSegment(path[0], first).Ok? && RenderSegments(path[1..], false).Ok?
    ensures RenderSegments(path, first).value == RenderSegment(path[0], first).value + RenderSegments(path[1..], false).value
  {}

  lemma PathStep(s: string, seg: PathSegment, after: string)
    requires s != "" && s[0] != ' ' && ReadSegment(s) == Some((seg, after))
    ensures ReadPath(s) == var tail := ReadPath(after); if tail.None? then None else Some(([seg] + tail.value.0, tail.value.1))
  {
    hide ReadSegment;
  }

  lemma {:induction false} SegmentsRead(path: seq<PathSegment>, first: bool, t: string, rest: string)
    requires RenderSegments(path, first) == Ok(t)
    ensures ReadPath(t + (" " + rest)) == Some((NormPath(path), " " + rest))
    ensures path != [] ==> t != "" && t[0] != '(' && (!first ==> !IdentChar(t[0]))
    decreases path
  {
    var space := " " + rest;
    if path == [] {
      assert t + space == space && " " <= space;
    } else {
      SegmentsUnfold(path, first);
      var head, tail := RenderSegment(path[0], first).value, RenderSegments(path[1..], false).value;
      SegmentsRead(path[1..], false, tail, rest);
      hide RenderSegments, RenderSegment, ReadPath, ReadSegment;
      assert path[1..] == [] ==> tail == "" by { NoSegments(path[1..]); }
      assert AfterIdent(tail + space);
      SegmentReads(path[0], first, head, tail + space);
      Cat(head, tail, space);
      PathStep(t + space, NormSegment(path[0]), tail + space);
    }
  }

  lemma NoSegments(path: seq<PathSegment>)
    ensures path == [] ==> RenderSegments(path, false) == Ok("")
  {}

  lemma OpReads(op: CmpOp, rest: string)
    ensures ReadOp((" " + OpText(op) + " ") + rest) == Some((op, rest))
  {
    var t := " " + OpText(op) + " ";
    assert (t + rest)[|t|..] == rest;
    assert t <= t + rest;
    assert (t + rest)[0] == ' ' && (t + rest)[1] == t[1] && (t + rest)[2] == t[2];
  }

  // ---- filters ----

  /** What reading the text of a filter gives: hops as fields, a one-element Or as an And. */
  function Norm(f: Filter): Filter
  {
    match f
    case And(fs) => And(Norms(fs))
    case Or(fs) => if |fs| == 1 then And(Norms(fs)) else Or(Norms(fs))
    case Not(inner) => Not(Norm(inner))
    case Cmp(path, op, v) => Cmp(NormPath(path), op, v)
  }

  function Norms(fs: seq<Filter>): (r: seq<Filter>)
    ensures |r| == |fs|
  {
    if fs == [] then [] else [Norm(fs[0])] + Norms(fs[1..])
  }

  /** No empty conjunction or disjunction, and no duration without a unit. */
  predicate Plain(f: Filter)
  {
    match f
    case And(fs) => fs != [] && PlainAll(fs)
    case Or(fs) => fs != [] && PlainAll(fs)
    case Not(inner) => Plain(inner)
    case Cmp(_, _, v) => Units(v)
  }

  predicate PlainAll(fs: seq<Filter>) { fs == [] || (Plain(fs[0]) && PlainAll(fs[1..])) }

  lemma CmpReads(path: seq<PathSegment>, op: CmpOp, v: Value, t: string, rest: string)
    requires RenderFilter(Cmp(path, op, v)) == Ok(t) && Units(v) && Follow(rest)
    ensures ReadFilter(t + rest) == Some((Cmp(NormPath(path), op, v), rest))
    ensures t != "" && t[0] != '!'
  {
    hide *;
    CmpIs(path, op, v);
    var (p, o, value) := (RenderPath(path).value, OpText(op), RenderValue(v).value);
    var ops := o + " " + (value + rest);
    CmpText(p, o, value, rest);
    SegmentsRead(path, true, p, ops);
    OpReads(op, value + rest);
    ValueReads(v, value, rest);
    FirstNotBang(path);
    CmpDispatch(t + rest);
    NormPathLength(path);
  }

  lemma NormPathLength(path: seq<PathSegment>)
    ensures |NormPath(path)| == |path|
  {}

  lemma CmpIs(path: seq<PathSegment>, op: CmpOp, v: Value)
    requires RenderFilter(Cmp(path, op, v)).Ok?
    ensures path != [] && RenderPath(path).Ok? && RenderValue(v).Ok? && RenderSegments(path, true) == RenderPath(path)
    ensures RenderFilter(Cmp(path, op, v)).value == RenderPath(path).value + " " + OpText(op) + " " + RenderValue(v).value
  {}

  lemma CmpText(p: string, o: string, value: string, rest: string)
    ensures (p + " " + o + " " + value) + rest == p + (" " + (o + " " + (value + rest)))
    ensures " " + (o + " " + (value + rest)) == (" " + o + " ") + (value + rest)
  {}

  lemma FirstNotBang(path: seq<PathSegment>)
    requires path != [] && RenderSegments(path, true).Ok?
    ensures RenderSegments(path, true).value != "" && RenderSegments(path, true).value[0] != '!'
  {
    SegmentsUnfold(path, true);
  }

  lemma CmpDispatch(s: string)
    requires s != "" && s[0] != '('
    ensures ReadFilter(s) ==
            var path := ReadPath(s);
            if path.None? || path.value.0 == [] || ReadOp(path.value.1).None? then None
            else
              var op := ReadOp(path.value.1).value;
              var v := ReadValue(op.1);
              if v.None? then None else Some((Cmp(path.value.0, op.0, v.value.0), v.value.1))
  {
    hide ReadPath, ReadOp, ReadValue;
  }

  lemma NotDispatch(s: string, f: Filter, rest: string)
    requires ReadFilter(s) == Some((f, "))" + rest))
    ensures ReadFilter("(!(" + s) == Some((Not(f), rest))
  {
    var all := "(!(" + s;
    assert "(!(" <= all && all[3..] == s;
    assert "))" <= "))" + rest && ("))" + rest)[2..] == rest;
    NotUnfold(all);
  }

  lemma NotUnfold(s: string)
    requires "(!(" <= s
    ensures ReadFilter(s) ==
            var inner := ReadFilter(s[3..]);
            if inner.None? || !("))" <= inner.value.1) then None else Some((Not(inner.value.0), inner.value.1[2..]))
  {
    hide ReadPath, ReadOp, ReadValue, ReadFilters;
  }

  lemma ParenIs(s: string)
    requires s != "" && s[0] != '!'
    ensures ReadFilter("(" + s) ==
            if ReadFilter(s).None? then None
            else
              var (f, rest) := ReadFilter(s).value;
              if ")" <= rest then Some((And([f]), rest[1..]))
              else if " AND " <= rest then
                var tail := ReadFilters(rest[5..], " AND ");
                if tail.None? then None else Some((And([f] + tail.value.0), tail.value.1))
              else if " OR " <= rest then
                var tail := ReadFilters(rest[4..], " OR ");
                if tail.None? then None else Some((Or([f] + tail.value.0), tail.value.1))
              else None
  {
    hide ReadPath, ReadOp, ReadValue, ReadFilters;
    var all := "(" + s;
    assert all[1..] == s && "(" <= all && all[1] == s[0];
    assert !("(!(" <= all);
  }

  lemma ParenUnfold(s: string, f: Filter, after: string)
    requires s != "" && s[0] != '!' && ReadFilter(s) == Some((f, after))
    ensures ")" <= after ==> ReadFilter("(" + s) == Some((And([f]), after[1..]))
    ensures " AND " <= after ==>
              ReadFilter("(" + s) == var tail := ReadFilters(after[5..], " AND ");
                                     if tail.None? then None else Some((And([f] + tail.value.0), tail.value.1))
    ensures " OR " <= after ==>
              ReadFilter("(" + s) == var tail := ReadFilters(after[4..], " OR ");
                                     if tail.None? then None else Some((Or([f] + tail.value.0), tail.value.1))
  {
    hide *;
    ParenIs(s);
    assert " AND " <= after ==> after[0] == ' ' && after[1] == 'A';
    assert " OR " <= after ==> after[0] == ' ' && after[1] == 'O';
  }

  lemma FiltersStep(s: string, sep: string, f: Filter, after: string)
    requires ReadFilter(s) == Some((f, after)) && sep != ""
    ensures ")" <= after ==> ReadFilters(s, sep) == Some(([f], after[1..]))
    ensures sep <= after && !(")" <= after) ==>
              ReadFilters(s, sep) == var tail := ReadFilters(after[|sep|..], sep);
                                     if tail.None? then None else Some(([f] + tail.value.0, tail.value.1))
  {
    hide ReadFilter;
  }

  lemma FiltersUnfold(fs: seq<Filter>)
    requires fs != [] && RenderFilters(fs).Ok?
    ensures var parts := RenderFilters(fs).value;
            && RenderFilter(fs[0]) == Ok(parts[0]) && RenderFilters(fs[1..]) == Ok(parts[1..])
  {
    assert RenderFilters(fs).value[1..] == RenderFilters(fs[1..]).value;
  }

  predicate Separator(sep: string) { sep == " AND " || sep == " OR " }

  lemma Separators(sep: string, rest: string)
    requires Separator(sep)
    ensures Follow(sep + rest) && sep <= sep + rest && !(")" <= sep + rest) && (sep + rest)[|sep|..] == rest
    ensures Follow(")" + rest) && ")" <= ")" + rest && (")" + rest)[1..] == rest
  {}

  lemma {:induction false} FilterReads(f: Filter, t: string, rest: string)
    requires RenderFilter(f) == Ok(t) && Plain(f) && Follow(rest)
    ensures ReadFilter(t + rest) == Some((Norm(f), rest))
    ensures t != "" && t[0] != '!'
    decreases f, 1
  {
    match f
    case Cmp(path, op, v) =>
      CmpReads(path, op, v, t, rest);
    case Not(inner) =>
      var inside := RenderFilter(inner).value;
      assert t + rest == "(!(" + (inside + ("))" + rest));
      FilterReads(inner, inside, "))" + rest);
      NotDispatch(inside + ("))" + rest), Norm(inner), rest);
    case And(fs) =>
      ListReads(fs, " AND ", t, rest);
      NormOne(fs);
    case Or(fs) =>
      ListReads(fs, " OR ", t, rest);
      NormOne(fs);
  }

  lemma NormOne(fs: seq<Filter>)
    requires fs != []
    ensures Norms(fs) == [Norm(fs[0])] + Norms(fs[1..])
    ensures |fs| == 1 ==> Norms(fs) == [Norm(fs[0])]
  {
    if |fs| == 1 { assert fs[1..] == []; }
  }

  lemma {:induction false} ListReads(fs: seq<Filter>, sep: string, t: string, rest: string)
    requires fs != [] && PlainAll(fs) && Separator(sep) && RenderFilters(fs).Ok?
    requires t == "(" + JoinAll(RenderFilters(fs).value, sep) + ")"
    ensures ReadFilter(t + rest) ==
            Some((if |fs| == 1 || sep == " AND " then And(Norms(fs)) else Or(Norms(fs)), rest))
    decreases fs, 1
  {
    hide *;
    var parts, end := RenderFilters(fs).value, ")" + rest;
    var body := JoinAll(parts, sep) + end;
    assert t + rest == "(" + body;
    FiltersUnfold(fs);
    PlainUnfold(fs);
    NormOne(fs);
    Joined(parts, sep, end);
    var more := JoinAll(parts[1..], sep) + end;
    var after := if |parts| == 1 then end else sep + more;
    Separators(sep, rest);
    Separators(sep, more);
    FilterReads(fs[0], parts[0], after);
    ParenUnfold(parts[0] + after, Norm(fs[0]), after);
    if |parts| > 1 {
      assert fs[1..] != [];
      FiltersRead(fs[1..], parts[1..], sep, rest);
      assert Separator(sep) ==> sep == " AND " || sep == " OR " by { SeparatorIs(sep); }
    }
  }

  lemma SeparatorIs(sep: string)
    requires Separator(sep)
    ensures (sep == " AND " && |sep| == 5) || (sep == " OR " && |sep| == 4)
  {}

  lemma PlainUnfold(fs: seq<Filter>)
    requires fs != [] && PlainAll(fs)
    ensures Plain(fs[0]) && PlainAll(fs[1..])
  {}

  lemma {:induction false} FiltersRead(fs: seq<Filter>, parts: seq<string>, sep: string, rest: string)
    requires fs != [] && PlainAll(fs) && Separator(sep) && RenderFilters(fs) == Ok(parts)
    ensures ReadFilters(JoinAll(parts, sep) + (")" + rest), sep) == Some((Norms(fs), rest))
    decreases fs, 0
  {
    hide *;
    var end := ")" + rest;
    FiltersUnfold(fs);
    PlainUnfold(fs);
    NormOne(fs);
    Joined(parts, sep, end);
    var more := JoinAll(parts[1..], sep) + end;
    var after := if |parts| == 1 then end else sep + more;
    Separators(sep, rest);
    Separators(sep, more);
    SeparatorIs(sep);
    FilterReads(fs[0], parts[0], after);
    FiltersStep(parts[0] + after, sep, Norm(fs[0]), after);
    if |parts| > 1 {
      FiltersRead(fs[1..], parts[1..], sep, rest);
    }
  }

  /** The reader returns no empty list and no duration without a unit. */
  lemma {:induction false} ReadPlain(s: string)
    ensures ReadFilter(s).Some? ==> Plain(ReadFilter(s).value.0)
    decreases |s|, 1
  {
    hide ReadPath, ReadOp, ReadValue, ReadFilters, Units, PlainAll;
    if "(!(" <= s {
      ReadPlain(s[3..]);
    } else if "(" <= s {
      ReadPlain(s[1..]);
      if ReadFilter(s[1..]).Some? {
        var (f, rest) := ReadFilter(s[1..]).value;
        PlainCons(f, []);
        if " AND " <= rest {
          ReadFiltersPlain(rest[5..], " AND ");
          if ReadFilters(rest[5..], " AND ").Some? { PlainCons(f, ReadFilters(rest[5..], " AND ").value.0); }
        }
        if " OR " <= rest {
          ReadFiltersPlain(rest[4..], " OR ");
          if ReadFilters(rest[4..], " OR ").Some? { PlainCons(f, ReadFilters(rest[4..], " OR ").value.0); }
        }
      }
    } else {
      var path := ReadPath(s);
      if path.Some? {
        var op := ReadOp(path.value.1);
        if op.Some? { ReadUnits(op.value.1); }
      }
    }
  }

  lemma PlainCons(f: Filter, fs: seq<Filter>)
    ensures PlainAll([f] + fs) <==> Plain(f) && PlainAll(fs)
    ensures PlainAll([f]) <==> Plain(f)
  {
    assert ([f] + fs)[1..] == fs && [f][1..] == [];
  }

  lemma {:induction false} ReadFiltersPlain(s: string, sep: string)
    ensures ReadFilters(s, sep).Some? ==> PlainAll(ReadFilters(s, sep).value.0)
    decreases |s|, 2
  {
    hide ReadFilter;
    ReadPlain(s);
    if ReadFilter(s).Some? {
      var rest := ReadFilter(s).value.1;
      if sep != "" && sep <= rest { ReadFiltersPlain(rest[|sep|..], sep); }
    }
  }

  lemma {:induction false} NormPlain(f: Filter)
    ensures Plain(Norm(f)) <==> Plain(f)
    decreases f, 0
  {
    match f
    case Cmp(_, _, _) =>
    case Not(inner) => NormPlain(inner);
    case And(fs) => NormsPlain(fs);
    case Or(fs) => NormsPlain(fs);
  }

  lemma {:induction false} NormsPlain(fs: seq<Filter>)
    ensures PlainAll(Norms(fs)) <==> PlainAll(fs)
    decreases fs, 0
  {
    if fs != [] {
      NormPlain(fs[0]);
      NormsPlain(fs[1..]);
      assert Norms(fs)[1..] == Norms(fs[1..]);
    }
  }

  /** The text of a renderable filter reads back, all of it, as the filter's normal form exactly when
      no list in it is empty and every duration has a unit. */
  lemma RenderReads(f: Filter)
    requires RenderFilter(f).Ok?
    ensures ReadFilter(RenderFilter(f).value) == Some((Norm(f), "")) <==> Plain(f)
  {
    hide *;
    var t := RenderFilter(f).value;
    if Plain(f) {
      FilterReads(f, t, "") by { assert Follow("") by { NothingFollows(); } }
      assert t + "" == t;
    }
    ReadPlain(t);
    NormPlain(f);
  }

  lemma NothingFollows()
    ensures Follow("")
  {}

  // ---- meanings ----

  /** The truth of a filter, for any reading of its comparisons by the text of their paths. */
  predicate Holds(f: Filter, atom: (Rendered, CmpOp, Value) -> bool)
  {
    match f
    case And(fs) => forall i :: 0 <= i < |fs| ==> Holds(fs[i], atom)
    case Or(fs) => exists i :: 0 <= i < |fs| && Holds(fs[i], atom)
    case Not(inner) => !Holds(inner, atom)
    case Cmp(path, op, v) => atom(RenderPath(path), op, v)
  }

  lemma {:induction false} NormSegments(path: seq<PathSegment>, first: bool)
    ensures RenderSegments(NormPath(path), first) == RenderSegments(path, first)
    decreases path
  {
    if path != [] {
      NormSegments(path[1..], false);
      assert NormPath(path)[1..] == NormPath(path[1..]);
    }
  }

  lemma {:induction false} NormsAt(fs: seq<Filter>, i: nat)
    requires i < |fs|
    ensures Norms(fs)[i] == Norm(fs[i])
  {
    if i > 0 { NormsAt(fs[1..], i - 1); }
  }

  /** The normal form means the same, and has a range comparison exactly when the filter does. */
  lemma {:induction false} NormMeans(f: Filter, atom: (Rendered, CmpOp, Value) -> bool)
    ensures Holds(Norm(f), atom) <==> Holds(f, atom)
    ensures HasRange(Norm(f)) <==> HasRange(f)
    decreases f
  {
    match f
    case Cmp(path, _, _) => NormSegments(path, true);
    case Not(inner) => NormMeans(inner, atom);
    case And(fs) => NormsMean(fs, atom);
    case Or(fs) => NormsMean(fs, atom);
  }

  lemma {:induction false} NormsMean(fs: seq<Filter>, atom: (Rendered, CmpOp, Value) -> bool)
    ensures forall i :: 0 <= i < |fs| ==>
              (Holds(Norms(fs)[i], atom) <==> Holds(fs[i], atom)) && (HasRange(Norms(fs)[i]) <==> HasRange(fs[i]))
    decreases fs
  {
    forall i | 0 <= i < |fs|
      ensures (Holds(Norms(fs)[i], atom) <==> Holds(fs[i], atom)) && (HasRange(Norms(fs)[i]) <==> HasRange(fs[i]))
    {
      NormsAt(fs, i);
      NormMeans(fs[i], atom);
    }
  }

  /** A filter sent as text is the filter that was meant. */
  lemma SameMeaning(f: Filter, atom: (Rendered, CmpOp, Value) -> bool)
    requires RenderFilter(f).Ok? && Plain(f)
    ensures var r := ReadFilter(RenderFilter(f).value);
            && r.Some? && r.value.1 == ""
            && (Holds(r.value.0, atom) <==> Holds(f, atom))
            && (HasRange(r.value.0) <==> HasRange(f))
  {
    RenderReads(f);
    NormMeans(f, atom);
  }

  /** Only durations and integers are printed in digits and unit letters. */
  lemma SpanText(v: Value)
    requires RenderValue(v).Ok? && !v.Int? && !v.Duration?
    ensures !DurationShape(RenderValue(v).value)
  {
    hide RenderItems, RenderEntries, PlainDecimal, Rfc3339Shape, RecordShape, EscapeStr;
    var t := RenderValue(v).value;
    match v
    case Decimal(d) => assert t[|d| + 1] == 'e';
    case Null => assert t[0] == 'N';
    case Bool(_) => assert t[0] == 't' || t[0] == 'f';
    case Datetime(_) => assert t[1] == '\'';
    case RecordId(_) => assert t[0] == 't';
    case Text(_) => assert t[0] == '\'';
    case List(_) => assert t[0] == '[';
    case Object(_) => assert t[0] == '{';
  }

  /** Which values a duration shares its text with: the integer whose numeral it is, and no other. A
      unit rules that one out. */
  lemma DurationAmbiguous(s: string, v: Value)
    requires DurationShape(s)
    ensures RenderValue(v) == RenderValue(Duration(s)) <==>
            v == Duration(s) || (v.Int? && v.i >= 0 && s == IntText(v.i))
    ensures RenderValue(v) == RenderValue(Duration(s)) && HasUnit(s) ==> v == Duration(s)
  {
    if v.Int? {
      hide Numeral, HasUnit;
      if v.i >= 0 { NoUnits(IntText(v.i)); } else { assert IntText(v.i)[0] == '-'; }
    } else if RenderValue(v).Ok? && !v.Duration? {
      SpanText(v);
    }
  }

  /** An empty conjunction and an empty disjunction have one text, which does not read back. */
  lemma EmptyAmbiguous()
    ensures RenderFilter(And([])) == RenderFilter(Or([])) == Ok("()") && ReadFilter("()").None?
  {
    var t := "()";
    assert t[1..] == ")" && t[1] == ')' && !("(!(" <= t);
    assert RenderFilters([]) == Ok([]) && JoinAll([], " AND ") == "" && JoinAll([], " OR ") == "";
    assert "(" + "" + ")" == t;
    assert ReadSegment(")").None?;
    assert ReadFilter(")").None?;
    assert RenderFilter(And([])) == Ok(t);
  }
}
