/** The Tier-1 counter of sync.rs: an EVENT that keeps rollup rows beside every write of the
    source table, and the one-shot backfill that recomputes them. Numbers are exact (`real`). */
module Counters {
  import opened Wrappers
  import opened Collections
  import opened Text
  import Money = Decimals

  // ---- documents and keys ----

  /** A key field's value; rows are addressed by its `<string>` cast. */
  datatype Key = TextKey(s: string) | IntKey(i: int) | AmountKey(d: Money.Decimal) | LinkKey(table: string, id: string)

  function Cast(k: Key): string
  {
    match k
    case TextKey(s) => s
    case IntKey(i) => IntText(i)
    case AmountKey(d) => Money.ToPlainString(d)
    case LinkKey(table, id) => table + ":" + id
  }

  /** `key` is `None` when the field is NONE; a metric field that is missing counts as zero. */
  datatype Doc = Doc(docstatus: int, key: Option<Key>, fields: map<string, real>)

  /** Metrics by name, each summing one field. */
  datatype Aggregate = Aggregate(submittable: bool, metrics: map<string, string>)

  predicate Counts(agg: Aggregate, doc: Option<Doc>)
  {
    doc.Some? && (agg.submittable ==> doc.value.docstatus == 1)
  }

  /** The key a side of a mutation contributes under, if it does. */
  function CountedKey(agg: Aggregate, doc: Option<Doc>): Option<Key>
  {
    if Counts(agg, doc) then doc.value.key else None
  }

  // ---- rows ----

  datatype Column = N | Metric(name: string)

  type Row = map<Column, real>
  type Rows = map<string, Row>

  predicate HasColumn(agg: Aggregate, c: Column) { c.Metric? ==> c.name in agg.metrics }

  function Field(doc: Doc, f: string): real { if f in doc.fields then doc.fields[f] else 0.0 }

  /** What a counted document adds to a column. */
  function Amount(agg: Aggregate, doc: Doc, c: Column): real
    requires HasColumn(agg, c)
  {
    match c
    case N => 1.0
    case Metric(m) => Field(doc, agg.metrics[m])
  }

  function RowOf(rows: Rows, k: string): Row { if k in rows then rows[k] else map[] }

  function Cell(rows: Rows, k: string, c: Column): real
  {
    CellOf(RowOf(rows, k), c)
  }

  function Signed(subtract: bool, x: real): real { if subtract then -x else x }

  function CellOf(row: Row, c: Column): real { if c in row then row[c] else 0.0 }

  function Columns(names: set<string>): set<Column> { set m | m in names :: Metric(m) }

  /** The row with `n` and the named metrics moved by the document's amounts. */
  function MoveRow(row: Row, metrics: map<string, string>, names: set<string>, doc: Doc, subtract: bool): Row
    requires names <= metrics.Keys
  {
    map c | c in row.Keys + Columns(names) + {N} :: (
      if c == N then CellOf(row, N) + Signed(subtract, 1.0)
      else if c in Columns(names) then CellOf(row, c) + Signed(subtract, Field(doc, metrics[c.name]))
      else row[c])
  }

  /** UPSERT of the row of `k`. */
  function Upsert(agg: Aggregate, rows: Rows, k: string, doc: Doc, subtract: bool): Rows
  {
    rows[k := MoveRow(RowOf(rows, k), agg.metrics, agg.metrics.Keys, doc, subtract)]
  }

  /** The EVENT body: take the old contribution out, put the new one in. */
  function Event(agg: Aggregate, rows: Rows, before: Option<Doc>, after: Option<Doc>): Rows
  {
    var bk, ak := CountedKey(agg, before), CountedKey(agg, after);
    var out := if bk.Some? then Upsert(agg, rows, Cast(bk.value), before.value, true) else rows;
    if ak.Some? then Upsert(agg, out, Cast(ak.value), after.value, false) else out
  }

  // ---- what the rows should hold ----

  predicate At(agg: Aggregate, doc: Option<Doc>, k: string)
  {
    var key := CountedKey(agg, doc);
    key.Some? && Cast(key.value) == k
  }

  function ShareAt(agg: Aggregate, doc: Option<Doc>, k: string, c: Column): real
    requires HasColumn(agg, c)
  {
    if At(agg, doc, k) then Amount(agg, doc.value, c) else 0.0
  }

  /** The sum of a column over the counted documents under `k`. */
  ghost function Tally(agg: Aggregate, docs: map<string, Doc>, k: string, c: Column): real
    requires HasColumn(agg, c)
    decreases |docs|
  {
    if docs == map[] then 0.0
    else ShareAt(agg, Some(docs[Pick(docs)]), k, c) + Tally(agg, docs - {Pick(docs)}, k, c)
  }

  lemma {:induction false} TallyWithout(agg: Aggregate, docs: map<string, Doc>, id: string, k: string, c: Column)
    requires HasColumn(agg, c) && id in docs
    ensures Tally(agg, docs, k, c) == ShareAt(agg, Some(docs[id]), k, c) + Tally(agg, docs - {id}, k, c)
    decreases |docs|
  {
    hide ShareAt;
    var p := Pick(docs);
    if p != id {
      TallyWithout(agg, docs - {p}, id, k, c);
      TallyWithout(agg, docs - {id}, p, k, c);
      assert (docs - {p}) - {id} == (docs - {id}) - {p};
    }
  }

  function Counted(agg: Aggregate, docs: map<string, Doc>, k: string): set<string>
  {
    set id | id in docs && At(agg, Some(docs[id]), k)
  }

  /** Column `n` is the number of counted documents; where there are none, every column is zero. */
  lemma {:induction false} TallyCounts(agg: Aggregate, docs: map<string, Doc>, k: string, c: Column)
    requires HasColumn(agg, c)
    ensures Tally(agg, docs, k, N) == |Counted(agg, docs, k)| as real
    ensures Counted(agg, docs, k) == {} ==> Tally(agg, docs, k, c) == 0.0
    decreases |docs|
  {
    if docs == map[] {
      assert Counted(agg, docs, k) == {};
    } else {
      hide At;
      var p := Pick(docs);
      var rest := docs - {p};
      TallyCounts(agg, rest, k, c);
      if At(agg, Some(docs[p]), k) {
        assert Counted(agg, docs, k) == Counted(agg, rest, k) + {p};
      } else {
        assert Counted(agg, docs, k) == Counted(agg, rest, k);
      }
    }
  }

  // ---- the event ----

  lemma UpsertAdds(agg: Aggregate, rows: Rows, key: string, doc: Doc, subtract: bool, k: string, c: Column)
    requires HasColumn(agg, c)
    ensures Cell(Upsert(agg, rows, key, doc, subtract), k, c)
            == Cell(rows, k, c) + if k == key then Signed(subtract, Amount(agg, doc, c)) else 0.0
  {}

  /** Each EVENT moves every column of every row by the difference of the two contributions. */
  lemma EventAdds(agg: Aggregate, rows: Rows, before: Option<Doc>, after: Option<Doc>, k: string, c: Column)
    requires HasColumn(agg, c)
    ensures Cell(Event(agg, rows, before, after), k, c)
            == Cell(rows, k, c) - ShareAt(agg, before, k, c) + ShareAt(agg, after, k, c)
  {
    hide Upsert, Cell, Amount, Cast;
    var bk, ak := CountedKey(agg, before), CountedKey(agg, after);
    var out := rows;
    if bk.Some? {
      UpsertAdds(agg, rows, Cast(bk.value), before.value, true, k, c);
      out := Upsert(agg, rows, Cast(bk.value), before.value, true);
    }
    if ak.Some? { UpsertAdds(agg, out, Cast(ak.value), after.value, false, k, c); }
  }

  function Put(docs: map<string, Doc>, id: string, doc: Option<Doc>): map<string, Doc>
  {
    if doc.Some? then docs[id := doc.value] else docs - {id}
  }

  lemma TallyPut(agg: Aggregate, docs: map<string, Doc>, id: string, doc: Option<Doc>, k: string, c: Column)
    requires HasColumn(agg, c)
    ensures Tally(agg, Put(docs, id, doc), k, c)
            == Tally(agg, docs, k, c) - ShareAt(agg, Find(docs, id), k, c) + ShareAt(agg, doc, k, c)
  {
    hide ShareAt, Tally;
    var none: Option<Doc> := None;
    assert ShareAt(agg, none, k, c) == 0.0 by { NoShare(agg, k, c); }
    if id in docs { TallyWithout(agg, docs, id, k, c); }
    if doc.Some? {
      TallyWithout(agg, docs[id := doc.value], id, k, c);
      assert docs[id := doc.value] - {id} == docs - {id};
    }
    if id !in docs { assert docs - {id} == docs; }
  }

  lemma NoShare(agg: Aggregate, k: string, c: Column)
    requires HasColumn(agg, c)
    ensures ShareAt(agg, None, k, c) == 0.0
  {}

  ghost predicate Exact(agg: Aggregate, docs: map<string, Doc>, rows: Rows)
  {
    forall k: string, c: Column | HasColumn(agg, c) :: Cell(rows, k, c) == Tally(agg, docs, k, c)
  }

  lemma EventExact(agg: Aggregate, docs: map<string, Doc>, rows: Rows, id: string, after: Option<Doc>)
    requires Exact(agg, docs, rows)
    ensures Exact(agg, Put(docs, id, after), Event(agg, rows, Find(docs, id), after))
  {
    hide Cell, Tally, Event, Put, ShareAt, HasColumn;
    forall k: string, c: Column | HasColumn(agg, c)
      ensures Cell(Event(agg, rows, Find(docs, id), after), k, c) == Tally(agg, Put(docs, id, after), k, c)
    {
      EventAdds(agg, rows, Find(docs, id), after, k, c);
      TallyPut(agg, docs, id, after, k, c);
    }
  }

  // ---- runs of writes ----

  /** A committed write: the new document, or `None` for a deletion. */
  datatype Write = Write(id: string, after: Option<Doc>)

  function DocsAfter(docs: map<string, Doc>, ws: seq<Write>): map<string, Doc>
    decreases |ws|
  {
    if ws == [] then docs else DocsAfter(Put(docs, ws[0].id, ws[0].after), ws[1..])
  }

  function RowsAfter(agg: Aggregate, docs: map<string, Doc>, rows: Rows, ws: seq<Write>): Rows
    decreases |ws|
  {
    if ws == [] then rows
    else RowsAfter(agg, Put(docs, ws[0].id, ws[0].after),
                   Event(agg, rows, Find(docs, ws[0].id), ws[0].after), ws[1..])
  }

  /** Over any creates, edits, key moves, submits, cancels and deletes, every column stays the sum
      over the counted documents of its key. */
  lemma {:induction false} WritesExact(agg: Aggregate, docs: map<string, Doc>, rows: Rows, ws: seq<Write>)
    requires Exact(agg, docs, rows)
    ensures Exact(agg, DocsAfter(docs, ws), RowsAfter(agg, docs, rows, ws))
    decreases |ws|
  {
    if ws != [] {
      hide Exact, Event, Put;
      EventExact(agg, docs, rows, ws[0].id, ws[0].after);
      WritesExact(agg, Put(docs, ws[0].id, ws[0].after),
                  Event(agg, rows, Find(docs, ws[0].id), ws[0].after), ws[1..]);
    }
  }

  // ---- backfill ----

  /** GROUP BY compares keys themselves, not their casts. */
  predicate InGroup(agg: Aggregate, doc: Option<Doc>, key: Key) { CountedKey(agg, doc) == Some(key) }

  ghost function GroupSum(agg: Aggregate, docs: map<string, Doc>, key: Key, c: Column): real
    requires HasColumn(agg, c)
    decreases |docs|
  {
    if docs == map[] then 0.0
    else
      var doc := Some(docs[Pick(docs)]);
      (if InGroup(agg, doc, key) then Amount(agg, doc.value, c) else 0.0) + GroupSum(agg, docs - {Pick(docs)}, key, c)
  }

  function KeysUsed(agg: Aggregate, docs: map<string, Doc>): set<Key>
  {
    set id | id in docs && CountedKey(agg, Some(docs[id])).Some? :: CountedKey(agg, Some(docs[id])).value
  }

  ghost function GroupRow(agg: Aggregate, docs: map<string, Doc>, key: Key): Row
  {
    (map m | m in agg.metrics :: Metric(m) := GroupSum(agg, docs, key, Metric(m))) + map[N := GroupSum(agg, docs, key, N)]
  }

  /** The groups in the order the query returned them; a later UPSERT of a row replaces an earlier. */
  ghost function Backfill(agg: Aggregate, docs: map<string, Doc>, groups: seq<Key>): Rows
  {
    if groups == [] then map[]
    else
      var last := groups[|groups| - 1];
      Backfill(agg, docs, groups[..|groups| - 1])[Cast(last) := GroupRow(agg, docs, last)]
  }

  /** No two keys in use have the same cast. */
  predicate CastsApart(keys: set<Key>)
  {
    forall k, l | k in keys && l in keys :: Cast(k) == Cast(l) ==> k == l
  }

  ghost predicate Lists(groups: seq<Key>, keys: set<Key>)
  {
    && (forall k :: k in groups <==> k in keys)
    && forall i, j :: 0 <= i < j < |groups| ==> groups[i] != groups[j]
  }

  /** Backfilled rows are those of the last group with their cast. */
  lemma {:induction false} BackfillCell(agg: Aggregate, docs: map<string, Doc>, groups: seq<Key>, k: string)
    returns (g: Option<Key>)
    ensures g == None ==> k !in Backfill(agg, docs, groups) && forall x <- groups :: Cast(x) != k
    ensures g.Some? ==> g.value in groups && Cast(g.value) == k && k in Backfill(agg, docs, groups)
                        && Backfill(agg, docs, groups)[k] == GroupRow(agg, docs, g.value)
  {
    hide GroupRow, Cast;
    if groups == [] {
      g := None;
    } else {
      var n := |groups| - 1;
      if Cast(groups[n]) == k {
        g := Some(groups[n]);
      } else {
        g := BackfillCell(agg, docs, groups[..n], k);
        assert forall x :: x in groups <==> x in groups[..n] || x == groups[n];
      }
    }
  }

  lemma GroupCell(agg: Aggregate, docs: map<string, Doc>, key: Key, c: Column)
    requires HasColumn(agg, c)
    ensures c in GroupRow(agg, docs, key) && GroupRow(agg, docs, key)[c] == GroupSum(agg, docs, key, c)
  {
    hide GroupSum;
  }

  /** When casts are apart, the group of a key holds the documents its row counts. */
  lemma {:induction false} GroupIsTally(agg: Aggregate, docs: map<string, Doc>, keys: set<Key>, key: Key, c: Column)
    requires HasColumn(agg, c) && CastsApart(keys) && key in keys && KeysUsed(agg, docs) <= keys
    ensures GroupSum(agg, docs, key, c) == Tally(agg, docs, Cast(key), c)
    decreases |docs|
  {
    if docs != map[] {
      hide Cast, Amount;
      var p := Pick(docs);
      var used := CountedKey(agg, Some(docs[p]));
      assert used.Some? ==> used.value in KeysUsed(agg, docs);
      GroupIsTally(agg, docs - {p}, keys, key, c);
    }
  }

  lemma {:induction false} GroupsBelowTally(agg: Aggregate, docs: map<string, Doc>, a: Key, b: Key)
    requires a != b && Cast(a) == Cast(b)
    ensures Tally(agg, docs, Cast(a), N) >= GroupSum(agg, docs, a, N) + GroupSum(agg, docs, b, N)
    decreases |docs|
  {
    if docs != map[] {
      hide Cast;
      GroupsBelowTally(agg, docs - {Pick(docs)}, a, b);
    }
  }

  lemma {:induction false} GroupPositive(agg: Aggregate, docs: map<string, Doc>, key: Key)
    ensures GroupSum(agg, docs, key, N) >= if key in KeysUsed(agg, docs) then 1.0 else 0.0
    decreases |docs|
  {
    if docs != map[] {
      var p := Pick(docs);
      GroupPositive(agg, docs - {p}, key);
      if key in KeysUsed(agg, docs) && !InGroup(agg, Some(docs[p]), key) {
        var id :| id in docs && CountedKey(agg, Some(docs[id])) == Some(key);
        assert id in docs - {p};
      }
    }
  }

  lemma {:induction false} UnusedTally(agg: Aggregate, docs: map<string, Doc>, k: string, c: Column)
    requires HasColumn(agg, c) && forall key <- KeysUsed(agg, docs) :: Cast(key) != k
    ensures Counted(agg, docs, k) == {} && Tally(agg, docs, k, c) == 0.0
  {
    forall id | id in docs ensures !At(agg, Some(docs[id]), k) {
      var key := CountedKey(agg, Some(docs[id]));
      assert key.Some? ==> key.value in KeysUsed(agg, docs);
    }
    TallyCounts(agg, docs, k, c);
  }

  /** Whatever order the groups come in, the backfilled rows are exact precisely when no two keys
      in use have the same cast. */
  lemma BackfillExact(agg: Aggregate, docs: map<string, Doc>, groups: seq<Key>)
    requires Lists(groups, KeysUsed(agg, docs))
    ensures Exact(agg, docs, Backfill(agg, docs, groups)) <==> CastsApart(KeysUsed(agg, docs))
  {
    hide Tally, GroupSum, GroupRow, Backfill, KeysUsed, Cast, HasColumn;
    var keys, rows := KeysUsed(agg, docs), Backfill(agg, docs, groups);
    if CastsApart(keys) {
      forall k: string, c: Column | HasColumn(agg, c) ensures Cell(rows, k, c) == Tally(agg, docs, k, c) {
        var g := BackfillCell(agg, docs, groups, k);
        if g.None? {
          UnusedTally(agg, docs, k, c);
        } else {
          GroupCell(agg, docs, g.value, c);
          GroupIsTally(agg, docs, keys, g.value, c);
        }
      }
    } else {
      var a, b :| a in keys && b in keys && Cast(a) == Cast(b) && a != b;
      CollisionLoses(agg, docs, groups, a, b);
    }
  }

  /** The condition is needed: were two keys of one cast in use, the row would count one group only. */
  lemma CollisionLoses(agg: Aggregate, docs: map<string, Doc>, groups: seq<Key>, a: Key, b: Key)
    requires Lists(groups, KeysUsed(agg, docs))
    requires a in KeysUsed(agg, docs) && b in KeysUsed(agg, docs) && Cast(a) == Cast(b) && a != b
    ensures Cell(Backfill(agg, docs, groups), Cast(a), N) < Tally(agg, docs, Cast(a), N)
    ensures !Exact(agg, docs, Backfill(agg, docs, groups))
  {
    hide Tally, GroupSum, GroupRow, Backfill, KeysUsed, Cast;
    var k := Cast(a);
    var g := BackfillCell(agg, docs, groups, k);
    assert a in groups;
    var kept := g.value;
    var lost := if kept == a then b else a;
    GroupCell(agg, docs, kept, N);
    GroupPositive(agg, docs, lost);
    GroupsBelowTally(agg, docs, kept, lost);
    assert HasColumn(agg, N);
  }

  /** The EVENT's rows against a backfill of the same documents: equal on every key some counted
      document has, and zero on the EVENT's other rows. */
  lemma EventMatchesBackfill(agg: Aggregate, ws: seq<Write>, groups: seq<Key>, k: string, c: Column)
    requires HasColumn(agg, c)
    requires var docs := DocsAfter(map[], ws); Lists(groups, KeysUsed(agg, docs)) && CastsApart(KeysUsed(agg, docs))
    ensures var (docs, rows) := (DocsAfter(map[], ws), RowsAfter(agg, map[], map[], ws));
            && Cell(rows, k, N) == |Counted(agg, docs, k)| as real
            && Cell(rows, k, c) == Cell(Backfill(agg, docs, groups), k, c)
            && (Counted(agg, docs, k) == {} ==> Cell(rows, k, c) == 0.0)
  {
    hide Tally, Backfill, KeysUsed, Counted, DocsAfter, RowsAfter, CastsApart, Lists;
    var docs := DocsAfter(map[], ws);
    assert Exact(agg, map[], map[]) by { NothingExact(agg); }
    WritesExact(agg, map[], map[], ws);
    BackfillExact(agg, docs, groups);
    TallyCounts(agg, docs, k, c);
    assert HasColumn(agg, N);
  }

  // ---- key fields have one type ----

  /** The types the schema gives a key field: text, an integer (docstatus), money (stored without
      trailing zeros, not negative) or links to one table. */
  datatype FieldType = TextField | IntField | MoneyField | LinkField(target: string)

  predicate HasType(k: Key, t: FieldType)
  {
    match t
    case TextField => k.TextKey?
    case IntField => k.IntKey?
    case MoneyField => k.AmountKey? && k.d.mantissa >= 0 && (k.d.scale > 0 ==> k.d.mantissa % 10 != 0)
    case LinkField(target) => k.LinkKey? && k.table == target
  }

  lemma IntTextInjective(i: int, j: int)
    requires IntText(i) == IntText(j)
    ensures i == j
  {
    var (m, n) := (if i < 0 then -i else i, if j < 0 then -j else j);
    NumeralRoundTrip(m, 10);
    NumeralRoundTrip(n, 10);
    hide NumeralValue;
    assert IsDigit(Numeral(m, 10)[0]) && IsDigit(Numeral(n, 10)[0]);
    hide Numeral;
    assert i < 0 ==> IntText(i)[0] == '-' && IntText(i)[1..] == Numeral(m, 10);
    assert j < 0 ==> IntText(j)[0] == '-' && IntText(j)[1..] == Numeral(n, 10);
  }

  lemma CastInjective(k: Key, l: Key, t: FieldType)
    requires HasType(k, t) && HasType(l, t) && Cast(k) == Cast(l)
    ensures k == l
  {
    match t
    case TextField =>
    case IntField => IntTextInjective(k.i, l.i);
    case MoneyField =>
      Money.PrintParse(k.d);
      Money.PrintParse(l.d);
    case LinkField(target) =>
      assert Cast(k)[|target| + 1..] == k.id && Cast(l)[|target| + 1..] == l.id;
  }

  /** Keys of one type have casts of their own. */
  lemma OneTypeApart(keys: set<Key>, t: FieldType)
    requires forall k <- keys :: HasType(k, t)
    ensures CastsApart(keys)
  {
    hide Cast, HasType;
    forall k, l | k in keys && l in keys && Cast(k) == Cast(l) ensures k == l { CastInjective(k, l, t); }
  }

  /** Every key a document has is of the field's type. */
  predicate Typed(docs: map<string, Doc>, t: FieldType)
  {
    forall id <- docs :: docs[id].key.Some? ==> HasType(docs[id].key.value, t)
  }

  /** Documents of the schema as it stands: the backfill is exact, whatever order the groups come in. */
  lemma TypedBackfillExact(agg: Aggregate, docs: map<string, Doc>, t: FieldType, groups: seq<Key>)
    requires Typed(docs, t) && Lists(groups, KeysUsed(agg, docs))
    ensures CastsApart(KeysUsed(agg, docs)) && Exact(agg, docs, Backfill(agg, docs, groups))
  {
    forall k | k in KeysUsed(agg, docs) ensures HasType(k, t) {
      var id :| id in docs && CountedKey(agg, Some(docs[id])) == Some(k);
    }
    OneTypeApart(KeysUsed(agg, docs), t);
    hide KeysUsed, CastsApart, HasType, Backfill, Exact, Lists;
    BackfillExact(agg, docs, groups);
  }

  lemma {:induction false} WritesTyped(docs: map<string, Doc>, ws: seq<Write>, t: FieldType)
    requires Typed(docs, t)
    requires forall w <- ws :: w.after.Some? && w.after.value.key.Some? ==> HasType(w.after.value.key.value, t)
    ensures Typed(DocsAfter(docs, ws), t)
    decreases |ws|
  {
    if ws != [] {
      hide HasType;
      WritesTyped(Put(docs, ws[0].id, ws[0].after), ws[1..], t);
    }
  }

  /** The promise as the schema makes it: over any writes whose keys have the field's one type, the
      EVENT's rows equal a backfill's on every key, and are zero on all others. */
  lemma EventMatchesTypedBackfill(agg: Aggregate, ws: seq<Write>, t: FieldType, groups: seq<Key>, k: string, c: Column)
    requires HasColumn(agg, c) && Lists(groups, KeysUsed(agg, DocsAfter(map[], ws)))
    requires forall w <- ws :: w.after.Some? && w.after.value.key.Some? ==> HasType(w.after.value.key.value, t)
    ensures var (docs, rows) := (DocsAfter(map[], ws), RowsAfter(agg, map[], map[], ws));
            && Cell(rows, k, N) == |Counted(agg, docs, k)| as real
            && Cell(rows, k, c) == Cell(Backfill(agg, docs, groups), k, c)
            && (Counted(agg, docs, k) == {} ==> Cell(rows, k, c) == 0.0)
  {
    hide *;
    NothingTyped(t);
    WritesTyped(map[], ws, t);
    TypedBackfillExact(agg, DocsAfter(map[], ws), t, groups);
    EventMatchesBackfill(agg, ws, groups, k, c);
  }

  lemma NothingTyped(t: FieldType)
    ensures Typed(map[], t)
  {}

  lemma NothingExact(agg: Aggregate)
    ensures Exact(agg, map[], map[])
  {}

  // ---- the tables in place ----

  /** A source table with its rollup rows; every write fires the EVENT before it commits. */
  class CounterTable {
    const agg: Aggregate
    var docs: map<string, Doc>
    var rows: Rows

    constructor (a: Aggregate)
      ensures agg == a && docs == map[] && Exact(agg, docs, rows)
    {
      agg, docs, rows := a, map[], map[];
      new;
      NothingExact(a);
    }

    method Commit(id: string, after: Option<Doc>)
      requires Exact(agg, docs, rows)
      modifies this
      ensures docs == Put(old(docs), id, after)
      ensures rows == Event(agg, old(rows), Find(old(docs), id), after)
      ensures Exact(agg, docs, rows)
    {
      EventExact(agg, docs, rows, id, after);
      hide Exact;
      var before := Find(docs, id);
      var bk, ak := CountedKey(agg, before), CountedKey(agg, after);
      if bk.Some? { rows := Moved(agg, rows, Cast(bk.value), before.value, true); }
      if ak.Some? { rows := Moved(agg, rows, Cast(ak.value), after.value, false); }
      docs := Put(docs, id, after);
    }

    /** `backfill_counter`: delete the rows, then one UPSERT per group the query returned. */
    method Refill(groups: seq<Key>, sums: seq<Row>) returns (buckets: nat)
      requires |sums| == |groups| && Lists(groups, KeysUsed(agg, docs))
      requires forall i :: 0 <= i < |groups| ==> sums[i] == GroupRow(agg, docs, groups[i])
      modifies `rows
      ensures rows == Backfill(agg, docs, groups) && buckets == |rows|
      ensures Exact(agg, docs, rows) <==> CastsApart(KeysUsed(agg, docs))
    {
      BackfillExact(agg, docs, groups);
      hide GroupRow, Cast, Exact, CastsApart, KeysUsed, Lists;
      rows := map[];
      for i := 0 to |groups|
        invariant docs == old(docs) && rows == Backfill(agg, docs, groups[..i])
      {
        assert groups[..i + 1][..i] == groups[..i];
        rows := rows[Cast(groups[i]) := sums[i]];
      }
      assert groups[..|groups|] == groups;
      buckets := |rows|;
    }

    /** UPSERT ... SET: `n` and then the metrics, one assignment at a time. */
    static method Moved(agg: Aggregate, rows: Rows, k: string, doc: Doc, subtract: bool) returns (r: Rows)
      ensures r == Upsert(agg, rows, k, doc, subtract)
    {
      hide *;
      var metrics := agg.metrics;
      var was := RowOf(rows, k);
      var row := was[N := CellOf(was, N) + Signed(subtract, 1.0)];
      var todo := metrics.Keys;
      ghost var done: set<string> := {};
      MoveNothing(was, metrics, doc, subtract);
      while todo != {}
        invariant done + todo == metrics.Keys && done !! todo
        invariant row == MoveRow(was, metrics, done, doc, subtract)
        decreases |todo|
      {
        var m :| m in todo;
        MoveOne(was, metrics, done, m, doc, subtract);
        row := row[Metric(m) := CellOf(row, Metric(m)) + Signed(subtract, Field(doc, metrics[m]))];
        done, todo := done + {m}, todo - {m};
      }
      assert done == metrics.Keys;
      UpsertIs(agg, rows, k, doc, subtract);
      r := rows[k := row];
    }
  }

  lemma UpsertIs(agg: Aggregate, rows: Rows, k: string, doc: Doc, subtract: bool)
    ensures Upsert(agg, rows, k, doc, subtract)
            == rows[k := MoveRow(RowOf(rows, k), agg.metrics, agg.metrics.Keys, doc, subtract)]
  {}

  lemma MoveNothing(row: Row, metrics: map<string, string>, doc: Doc, subtract: bool)
    ensures MoveRow(row, metrics, {}, doc, subtract) == row[N := CellOf(row, N) + Signed(subtract, 1.0)]
  {}

  lemma MoveOne(row: Row, metrics: map<string, string>, done: set<string>, m: string, doc: Doc, subtract: bool)
    requires done <= metrics.Keys && m in metrics && m !in done
    ensures var moved := MoveRow(row, metrics, done, doc, subtract);
            MoveRow(row, metrics, done + {m}, doc, subtract)
            == moved[Metric(m) := CellOf(moved, Metric(m)) + Signed(subtract, Field(doc, metrics[m]))]
  {
    hide Field, Signed;
    ColumnsPlus(done, m);
    hide Columns;
  }

  lemma ColumnsPlus(done: set<string>, m: string)
    ensures Columns(done + {m}) == Columns(done) + {Metric(m)}
    ensures m !in done ==> Metric(m) !in Columns(done)
  {}
}
