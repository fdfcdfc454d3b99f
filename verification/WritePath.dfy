/** The update path of broker.rs: read a baseline, show the hook the merged document, keep only what
    the caller wrote or the hook changed, MERGE. Top-level fields are atomic values; a hook is any
    function from documents to documents. */
module WritePath {
  import opened Wrappers
  import opened Text
  import opened Contract
  import Money = Decimals

  type Entry = (string, Value)
  type Doc = seq<Entry>

  // ---- the same value ----

  function AsNumber(v: Value): Option<Money.Decimal>
  {
    match v
    case Decimal(s) => Money.Parse(s)
    case Text(s) => Money.Parse(s)
    case Int(i) => Money.Parse(IntText(i))
    case _ => None
  }

  /** Numeric equality where both sides read as numbers, equality otherwise. Scales more than 38
      apart, where the comparison overflows, count as different. */
  predicate SameValue(a: Value, b: Value)
  {
    var x, y := AsNumber(a), AsNumber(b);
    if x.Some? && y.Some? then Money.Alignable(x.value, y.value) && Money.Cmp(x.value, y.value) == Money.Equal
    else a == b
  }

  /** Two numbers are the same value exactly when they denote the same amount or the comparison clips
      one of them onto the other. */
  lemma SameAmount(a: Value, b: Value)
    requires AsNumber(a).Some? && AsNumber(b).Some?
    requires Money.Alignable(AsNumber(a).value, AsNumber(b).value)
    ensures var (x, y) := (AsNumber(a).value, AsNumber(b).value);
            SameValue(a, b) <==> Money.Value(x) == Money.Value(y) || Money.ClipsOnto(x, y) || Money.ClipsOnto(y, x)
  {
    Money.CmpNumeric(AsNumber(a).value, AsNumber(b).value);
  }

  // ---- documents as lists of fields ----

  predicate HasKey(d: Doc, k: string) { exists i :: 0 <= i < |d| && d[i].0 == k }

  function Keys(d: Doc): set<string> { set i | 0 <= i < |d| :: d[i].0 }

  /** Position of the first field named `k`. */
  function IndexOf(d: Doc, k: string): (i: nat)
    ensures i <= |d| && (i < |d| ==> d[i].0 == k) && (i < |d| <==> HasKey(d, k))
  {
    if d == [] then 0
    else if d[0].0 == k then 0
    else
      var j := IndexOf(d[1..], k);
      assert HasKey(d, k) ==> HasKey(d[1..], k) by {
        if i :| 0 <= i < |d| && d[i].0 == k { assert d[1..][i - 1].0 == k; }
      }
      1 + j
  }

  function SetField(d: Doc, e: Entry): Doc
  {
    var i := IndexOf(d, e.0);
    if i < |d| then d[i := e] else d + [e]
  }

  function SetFields(d: Doc, es: Doc): Doc
    decreases |es|
  {
    if es == [] then d else SetFields(SetField(d, es[0]), es[1..])
  }

  /** What the hook is shown: the baseline with the caller's fields over it, and the record id. */
  function Shown(baseline: Doc, doc: Doc, id: string): Doc
  {
    var d := SetFields(baseline, doc);
    if HasKey(d, "id") then d else d + [("id", Text(id))]
  }

  method BuildShown(baseline: Doc, doc: Doc, id: string) returns (hookDoc: Doc)
    ensures hookDoc == Shown(baseline, doc, id)
  {
    hookDoc := baseline;
    assert doc[0..] == doc;
    for n := 0 to |doc|
      invariant SetFields(baseline, doc) == SetFields(hookDoc, doc[n..])
    {
      assert doc[n..][0] == doc[n] && doc[n..][1..] == doc[n + 1..];
      var i := 0;
      while i < |hookDoc| && hookDoc[i].0 != doc[n].0
        invariant i <= |hookDoc| && forall j :: 0 <= j < i ==> hookDoc[j].0 != doc[n].0
      {
        i := i + 1;
      }
      FirstIs(hookDoc, doc[n].0, i);
      if i < |hookDoc| { hookDoc := hookDoc[i := doc[n]]; } else { hookDoc := hookDoc + [doc[n]]; }
    }
    if !HasKey(hookDoc, "id") { hookDoc := hookDoc + [("id", Text(id))]; }
  }

  lemma {:induction false} FirstIs(d: Doc, k: string, i: nat)
    requires i <= |d| && (forall j :: 0 <= j < i ==> d[j].0 != k) && (i < |d| ==> d[i].0 == k)
    ensures IndexOf(d, k) == i
  {
    if i > 0 { FirstIs(d[1..], k, i - 1); }
  }

  /** The last value a list of entries gives a field. */
  function LastOf(entries: Doc, k: string): Option<Value>
  {
    if entries == [] then None
    else if entries[|entries| - 1].0 == k then Some(entries[|entries| - 1].1)
    else LastOf(entries[..|entries| - 1], k)
  }

  function Lookup(d: Doc, k: string): Option<Value>
  {
    if IndexOf(d, k) < |d| then Some(d[IndexOf(d, k)].1) else None
  }

  lemma SetLookup(d: Doc, e: Entry, k: string)
    ensures Lookup(SetField(d, e), k) == if k == e.0 then Some(e.1) else Lookup(d, k)
  {
    var i, j, r := IndexOf(d, e.0), IndexOf(d, k), SetField(d, e);
    FirstOnly(d, k);
    FirstOnly(d, e.0);
    hide IndexOf;
    if k == e.0 {
      FirstIs(r, k, i);
    } else if j < |d| {
      FirstIs(r, k, j);
    } else {
      FirstIs(r, k, |r|);
    }
  }

  lemma {:induction false} FirstOnly(d: Doc, k: string)
    ensures forall j :: 0 <= j < IndexOf(d, k) ==> d[j].0 != k
  {
    if d != [] && d[0].0 != k {
      FirstOnly(d[1..], k);
      forall j | 0 <= j < IndexOf(d, k) ensures d[j].0 != k { if j > 0 { assert d[j] == d[1..][j - 1]; } }
    }
  }

  lemma LastFirst(e: Entry, rest: Doc, k: string)
    ensures LastOf([e] + rest, k) == if LastOf(rest, k).Some? then LastOf(rest, k) else if e.0 == k then Some(e.1) else None
  {
    var all := [e] + rest;
    if rest == [] {
      assert all == [e] && [e][..0] == [];
    } else {
      assert all[..|all| - 1] == [e] + rest[..|rest| - 1];
      LastFirst(e, rest[..|rest| - 1], k);
    }
  }

  lemma {:induction false} SetAllLookup(d: Doc, es: Doc, k: string)
    ensures Lookup(SetFields(d, es), k) == if LastOf(es, k).Some? then LastOf(es, k) else Lookup(d, k)
    decreases |es|
  {
    if es != [] {
      SetLookup(d, es[0], k);
      SetAllLookup(SetField(d, es[0]), es[1..], k);
      LastFirst(es[0], es[1..], k);
      assert [es[0]] + es[1..] == es;
    }
  }

  /** The hook sees every field as the caller last wrote it, or else as the record holds it. */
  lemma ShownIs(baseline: Doc, doc: Doc, id: string, k: string)
    ensures k != "id" ==>
              Lookup(Shown(baseline, doc, id), k) == if LastOf(doc, k).Some? then LastOf(doc, k) else Lookup(baseline, k)
    ensures HasKey(Shown(baseline, doc, id), "id")
  {
    hide Lookup, IndexOf, LastOf;
    var d := SetFields(baseline, doc);
    SetAllLookup(d, [], k);
    SetAllLookup(baseline, doc, k);
    if !HasKey(d, "id") {
      if k != "id" { PushLookup(d, ("id", Text(id)), k); }
      assert Shown(baseline, doc, id)[|d|].0 == "id";
    }
  }

  lemma PushLookup(d: Doc, e: Entry, k: string)
    requires k != e.0
    ensures Lookup(d + [e], k) == Lookup(d, k)
  {
    FirstOnly(d, k);
    FirstIs(d + [e], k, if IndexOf(d, k) < |d| then IndexOf(d, k) else |d| + 1);
  }

  // ---- the shrink ----

  const ENGINE_FIELDS: set<string> := {"id", "status", "owner", "docstatus"}

  /** The hook handed this field back as it was shown. */
  predicate Echoed(shown: Doc, e: Entry)
  {
    exists i :: 0 <= i < |shown| && shown[i].0 == e.0 && SameValue(shown[i].1, e.1)
  }

  /** A field of the hook's output that goes into the MERGE of an update. */
  predicate Persists(declared: set<string>, doc: Doc, shown: Doc, e: Entry)
  {
    e.0 != "id" && (e.0 in declared || e.0 in ENGINE_FIELDS) && (HasKey(doc, e.0) || !Echoed(shown, e))
  }

  function Shrunk(declared: set<string>, doc: Doc, shown: Doc, out: Doc): Doc
  {
    if out == [] then []
    else
      var last := out[|out| - 1];
      Shrunk(declared, doc, shown, out[..|out| - 1]) + if Persists(declared, doc, shown, last) then [last] else []
  }

  datatype Rule = NoId | Declared(fields: set<string>) | Changed(doc: Doc, shown: Doc)

  predicate Keeps(rule: Rule, e: Entry)
  {
    match rule
    case NoId => e.0 != "id"
    case Declared(fields) => e.0 in fields || e.0 in ENGINE_FIELDS
    case Changed(doc, shown) => HasKey(doc, e.0) || !Echoed(shown, e)
  }

  function Kept(d: Doc, rule: Rule): Doc
  {
    if d == [] then []
    else Kept(d[..|d| - 1], rule) + if Keeps(rule, d[|d| - 1]) then [d[|d| - 1]] else []
  }

  /** `entries.retain`. */
  method Retain(d: Doc, rule: Rule) returns (r: Doc)
    ensures r == Kept(d, rule)
  {
    r := [];
    for i := 0 to |d|
      invariant r == Kept(d[..i], rule)
    {
      assert d[..i + 1][..i] == d[..i];
      if Keeps(rule, d[i]) { r := r + [d[i]]; }
    }
    assert d[..|d|] == d;
  }

  /** The three `retain` calls one after the other. */
  method Shrink(declared: set<string>, doc: Doc, shown: Doc, out: Doc) returns (entries: Doc)
    ensures entries == Shrunk(declared, doc, shown, out)
  {
    entries := Retain(out, NoId);
    entries := Retain(entries, Declared(declared));
    entries := Retain(entries, Changed(doc, shown));
    ThreeRetains(declared, doc, shown, out);
  }

  lemma KeptAppend(d: Doc, e: Entry, rule: Rule)
    ensures Kept(d + [e], rule) == if Keeps(rule, e) then Kept(d, rule) + [e] else Kept(d, rule)
  {
    assert (d + [e])[..|d|] == d;
  }

  lemma {:induction false} ThreeRetains(declared: set<string>, doc: Doc, shown: Doc, out: Doc)
    ensures Kept(Kept(Kept(out, NoId), Declared(declared)), Changed(doc, shown)) == Shrunk(declared, doc, shown, out)
  {
    hide Keeps, Persists, Kept, Shrunk;
    Unfold(declared, doc, shown, out);
    if out != [] {
      var before, last := out[..|out| - 1], out[|out| - 1];
      ThreeRetains(declared, doc, shown, before);
      KeptAppend(before, last, NoId);
      assert before + [last] == out;
      KeptAppend(Kept(before, NoId), last, Declared(declared));
      KeptAppend(Kept(Kept(before, NoId), Declared(declared)), last, Changed(doc, shown));
    }
  }

  lemma Unfold(declared: set<string>, doc: Doc, shown: Doc, out: Doc)
    ensures forall rule: Rule :: Kept([], rule) == []
    ensures forall e: Entry :: Persists(declared, doc, shown, e) <==>
                                 Keeps(NoId, e) && Keeps(Declared(declared), e) && Keeps(Changed(doc, shown), e)
    ensures out == [] ==> Shrunk(declared, doc, shown, out) == []
    ensures out != [] ==>
              var before, last := out[..|out| - 1], out[|out| - 1];
              Shrunk(declared, doc, shown, out)
              == if Persists(declared, doc, shown, last) then Shrunk(declared, doc, shown, before) + [last]
                 else Shrunk(declared, doc, shown, before)
  {}

  lemma {:induction false} ShrunkHolds(declared: set<string>, doc: Doc, shown: Doc, out: Doc, e: Entry)
    ensures e in Shrunk(declared, doc, shown, out) <==> e in out && Persists(declared, doc, shown, e)
  {
    if out != [] {
      hide Persists;
      var before, last := out[..|out| - 1], out[|out| - 1];
      ShrunkHolds(declared, doc, shown, before, e);
      assert out == before + [last];
    }
  }

  /** A MERGE never reaches beyond the caller's fields exactly when the hook hands back every other
      field of the document type as the same value it was shown. */
  lemma EchoNeverWidens(declared: set<string>, doc: Doc, shown: Doc, out: Doc)
    ensures (forall e <- Shrunk(declared, doc, shown, out) :: HasKey(doc, e.0)) <==>
            (forall e <- out :: e.0 != "id" && (e.0 in declared || e.0 in ENGINE_FIELDS) && !HasKey(doc, e.0) ==> Echoed(shown, e))
  {
    hide HasKey, Echoed, Shrunk;
    var entries := Shrunk(declared, doc, shown, out);
    if forall e <- entries :: HasKey(doc, e.0) {
      forall e | e in out && e.0 != "id" && (e.0 in declared || e.0 in ENGINE_FIELDS) && !HasKey(doc, e.0)
        ensures Echoed(shown, e)
      {
        ShrunkHolds(declared, doc, shown, out, e);
      }
    } else {
      var e :| e in entries && !HasKey(doc, e.0);
      ShrunkHolds(declared, doc, shown, out, e);
    }
  }

  /** Comparing values has a price: a hook that rewrites the text "7" as "007" changes nothing. */
  lemma ReformattingLost(declared: set<string>, shown: Doc, f: string)
    requires f != "id" && f in declared && shown == [(f, Text("7"))]
    ensures Shrunk(declared, [], shown, [(f, Text("007"))]) == []
  {
    Sevens();
    var e := (f, Text("007"));
    assert shown[0].0 == f;
    assert Echoed(shown, e);
    assert [e][..0] == [];
  }

  lemma Sevens()
    ensures SameValue(Text("7"), Text("007"))
  {
    NumeralRoundTrip(7, 10);
    assert Numeral(7, 10) == "7";
    Money.ParseOnePart("7");
    LeadingZeros(2, "7", 10);
    assert Zeros(2) + "7" == "007";
    Money.ParseOnePart("007");
    PlainSeven("7");
    PlainSeven("007");
  }

  lemma PlainSeven(s: string)
    requires s != "" && AllDigits(s) && Money.ParseBody(s) == Some((7, 0))
    ensures Money.Parse(s) == Some(Money.Decimal(7, 0))
  {
    hide Money.ParseBody;
    assert IsDigit(s[0]) && IsDigit(s[|s| - 1]);
    assert Trim(s) == s;
  }
}

/** Several updates of one record at once, each reading its baseline and later merging. */
module ConcurrentWrites {
  import opened Wrappers
  import opened Contract
  import opened WritePath

  type Stored = map<string, Value>

  /** MERGE: later duplicates win, NONE removes the field. */
  function Merge(r: Stored, entries: Doc): Stored
  {
    if entries == [] then r
    else
      var (k, v) := entries[|entries| - 1];
      var before := Merge(r, entries[..|entries| - 1]);
      if v.Null? then before - {k} else before[k := v]
  }

  function Get(r: Stored, k: string): Value { if k in r then r[k] else Null }

  /** Every field as SELECT * returns it, in some order. */
  predicate Lists(baseline: Doc, r: Stored)
  {
    && Keys(baseline) == r.Keys
    && (forall i :: 0 <= i < |baseline| ==> baseline[i].0 in r && baseline[i].1 == r[baseline[i].0])
  }

  datatype Phase = Waiting | HasRead(baseline: Doc) | Merged(entries: Doc)

  /** One update of the record: the caller's fields and where the update stands. */
  datatype Update = Update(doc: Doc, phase: Phase)

  datatype State = State(stored: Stored, updates: seq<Update>)

  datatype Step = Read(u: nat, baseline: Doc) | Commit(u: nat, out: Doc)

  predicate Steps(declared: set<string>, id: string, s: State, step: Step, t: State)
  {
    match step
    case Read(u, baseline) =>
      u < |s.updates| && s.updates[u].phase.Waiting? && Lists(baseline, s.stored)
      && t == s.(updates := s.updates[u := s.updates[u].(phase := HasRead(baseline))])
    case Commit(u, out) =>
      u < |s.updates| && s.updates[u].phase.HasRead?
      && var doc := s.updates[u].doc;
         var entries := Shrunk(declared, doc, Shown(s.updates[u].phase.baseline, doc, id), out);
         t == State(Merge(s.stored, entries), s.updates[u := s.updates[u].(phase := Merged(entries))])
  }

  /** Update `u`'s hook stays within `fields`: those the caller wrote, and those it changes against
      the document it was shown. */
  predicate Within(fields: set<string>, declared: set<string>, id: string, s: State, step: Step)
  {
    step.Commit? && step.u < |s.updates| && s.updates[step.u].phase.HasRead? ==>
      var doc := s.updates[step.u].doc;
      var shown := Shown(s.updates[step.u].phase.baseline, doc, id);
      && (forall i :: 0 <= i < |doc| ==> doc[i].0 in fields)
      && (forall e <- step.out :: !HasKey(doc, e.0) && !Echoed(shown, e) ==> e.0 in fields)
  }

  predicate Disjoint(fields: seq<set<string>>)
  {
    forall i, j :: 0 <= i < j < |fields| ==> fields[i] !! fields[j]
  }

  /** An interleaving in which update `u` keeps to `fields[u]`. */
  ghost predicate Run(fields: seq<set<string>>, declared: set<string>, id: string, states: seq<State>, steps: seq<Step>)
  {
    && |states| == |steps| + 1 && |states[0].updates| == |fields|
    && (forall u <- states[0].updates :: u.phase.Waiting?)
    && forall i :: 0 <= i < |steps| ==>
         && Steps(declared, id, states[i], steps[i], states[i + 1])
         && steps[i].u < |fields| && Within(fields[steps[i].u], declared, id, states[i], steps[i])
  }

  // ---- merging ----

  lemma {:induction false} MergeSets(r: Stored, entries: Doc, k: string)
    ensures Get(Merge(r, entries), k) == if LastOf(entries, k).Some? then LastOf(entries, k).value else Get(r, k)
  {
    if entries != [] { MergeSets(r, entries[..|entries| - 1], k); }
  }

  lemma {:induction false} LastListed(entries: Doc, k: string)
    ensures LastOf(entries, k).Some? ==> (k, LastOf(entries, k).value) in entries
  {
    if entries != [] { LastListed(entries[..|entries| - 1], k); }
  }

  // ---- the invariant ----

  /** What a field holds: its only writer's value once that update has merged, else what it held. */
  predicate FieldOk(fields: seq<set<string>>, start: Stored, s: State, k: string)
    requires |s.updates| == |fields|
  {
    && (forall u :: 0 <= u < |fields| && s.updates[u].phase.Merged? && LastOf(s.updates[u].phase.entries, k).Some? ==>
                      k in fields[u] && Get(s.stored, k) == LastOf(s.updates[u].phase.entries, k).value)
    && ((forall u :: 0 <= u < |fields| && s.updates[u].phase.Merged? ==> LastOf(s.updates[u].phase.entries, k).None?) ==>
          Get(s.stored, k) == Get(start, k))
  }

  lemma CommitKeeps(fields: seq<set<string>>, declared: set<string>, id: string, start: Stored, s: State, step: Step, t: State, k: string)
    requires Disjoint(fields) && |s.updates| == |fields| && FieldOk(fields, start, s, k)
    requires step.Commit? && Steps(declared, id, s, step, t) && Within(fields[step.u], declared, id, s, step)
    ensures |t.updates| == |fields| && FieldOk(fields, start, t, k)
  {
    hide Shrunk, Shown, Merge, LastOf, Echoed, SameValue;
    var u, doc := step.u, s.updates[step.u].doc;
    var shown := Shown(s.updates[u].phase.baseline, doc, id);
    var entries := Shrunk(declared, doc, shown, step.out);
    MergeSets(s.stored, entries, k);
    LastListed(entries, k);
    var last := LastOf(entries, k);
    if last.Some? {
      ShrunkHolds(declared, doc, shown, step.out, (k, last.value));
      assert k in fields[u];
      forall v | 0 <= v < |fields| && v != u ensures k !in fields[v] {
        assert if v < u then fields[v] !! fields[u] else fields[u] !! fields[v];
      }
    }
  }

  lemma StepKeeps(fields: seq<set<string>>, declared: set<string>, id: string, start: Stored, s: State, step: Step, t: State, k: string)
    requires Disjoint(fields) && |s.updates| == |fields| && FieldOk(fields, start, s, k)
    requires Steps(declared, id, s, step, t) && step.u < |fields| && Within(fields[step.u], declared, id, s, step)
    ensures |t.updates| == |fields| && FieldOk(fields, start, t, k)
  {
    if step.Commit? { CommitKeeps(fields, declared, id, start, s, step, t, k); }
  }

  /** However the baseline reads and MERGEs of updates on pairwise disjoint fields interleave, every
      field an update wrote holds that update's value, and every other field what it held before. */
  lemma {:induction false} NoLostUpdate(fields: seq<set<string>>, declared: set<string>, id: string,
                                       states: seq<State>, steps: seq<Step>, i: nat, k: string)
    requires Disjoint(fields) && Run(fields, declared, id, states, steps) && i < |states|
    ensures |states[i].updates| == |fields| && FieldOk(fields, states[0].stored, states[i], k)
  {
    if i > 0 {
      NoLostUpdate(fields, declared, id, states, steps, i - 1, k);
      hide FieldOk, Steps, Within, Disjoint;
      StepKeeps(fields, declared, id, states[0].stored, states[i - 1], steps[i - 1], states[i], k);
    }
  }
}
