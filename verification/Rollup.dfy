/** The Tier-2 rollup worker of aggregates.rs: feed decoding, signed contributions, the exact
    fold, and the one transaction that posts deltas and moves the cursor.
    Sums outside the `i128` envelope, where the code clips or overflows, stop the model. */
module Rollups {
  import opened Wrappers
  import opened Text
  import opened Json
  import Money = Decimals
  import JsonUndo

  type Decimal = Money.Decimal

  datatype TickError = NoOriginal | BadUndo(error: JsonUndo.UndoError) | OutsideEnvelope

  // ---- decoding the feed ----

  datatype Change = Change(before: Option<Value>, after: Option<Value>)

  /** The elements of an array member, none when it is missing or something else. */
  function Items(v: Option<Value>): seq<Value>
  {
    if v.Some? && v.value.Arr? then v.value.items else []
  }

  function AsU64(v: Option<Value>): Option<nat>
  {
    if v.Some? && v.value.Num? then
      var t := v.value.text;
      if t != "" && AllDigits(t) && NumeralValue(t, 10) <= USIZE_MAX then Some(NumeralValue(t, 10)) else None
    else None
  }

  /** One change of an entry; `None` for those the worker skips. */
  function DecodeChange(c: Value): Result<Option<Change>, TickError>
  {
    var delete, current, update := Get(c, "delete"), Get(c, "current"), Get(c, "update");
    if Get(c, "define_table").Some? then Ok(None)
    else if delete.Some? then
      var original := Get(delete.value, "original");
      if original.None? then Err(NoOriginal) else Ok(Some(Change(original, None)))
    else if current.Some? then
      match JsonUndo.Undo(current.value, Items(update))
      case Err(e) => Err(BadUndo(e))
      case Ok(before) => Ok(Some(Change(Some(before), current)))
    else if update.Some? && update.value.Obj? then Ok(Some(Change(None, update)))
    else Ok(None)
  }

  function DecodeChanges(done: seq<Change>, cs: seq<Value>): Result<seq<Change>, TickError>
    decreases |cs|
  {
    if cs == [] then Ok(done)
    else
      match DecodeChange(cs[0])
      case Err(e) => Err(e)
      case Ok(ch) => DecodeChanges(if ch.None? then done else done + [ch.value], cs[1..])
  }

  function VersionOr(e: Value, last: nat): nat
  {
    var vs := AsU64(Get(e, "versionstamp"));
    if vs.None? then last else vs.value
  }

  function DecodeEntries(done: seq<Change>, last: nat, es: seq<Value>): Result<(seq<Change>, nat), TickError>
    decreases |es|
  {
    if es == [] then Ok((done, last))
    else
      match DecodeChanges(done, Items(Get(es[0], "changes")))
      case Err(e) => Err(e)
      case Ok(more) => DecodeEntries(more, VersionOr(es[0], last), es[1..])
  }

  method DecodeFeed(entries: seq<Value>) returns (r: Result<(seq<Change>, nat), TickError>)
    ensures r == DecodeEntries([], 0, entries)
  {
    hide DecodeChange, VersionOr;
    var out, last: nat := [], 0;
    assert entries[0..] == entries;
    for i := 0 to |entries|
      invariant DecodeEntries([], 0, entries) == DecodeEntries(out, last, entries[i..])
    {
      var e := entries[i];
      assert entries[i..][0] == e && entries[i..][1..] == entries[i + 1..];
      var cs, was := Items(Get(e, "changes")), out;
      assert cs[0..] == cs;
      for j := 0 to |cs|
        invariant DecodeChanges(was, cs) == DecodeChanges(out, cs[j..])
      {
        assert cs[j..][0] == cs[j] && cs[j..][1..] == cs[j + 1..];
        var ch := DecodeChange(cs[j]);
        if ch.Err? { return Err(ch.error); }
        if ch.value.Some? { out := out + [ch.value.value]; }
      }
      assert cs[|cs|..] == [];
      last := VersionOr(e, last);
    }
    assert entries[|entries|..] == [];
    return Ok((out, last));
  }

  // ---- contributions ----

  /** `from_json`: a decimal string or a JSON number; anything else counts as zero. */
  function Numeric(v: Option<Value>): Decimal
  {
    var text := if v.Some? && v.value.Str? then Some(v.value.s)
                else if v.Some? && v.value.Num? then Some(v.value.text) else None;
    var d := if text.None? then None else Money.Parse(text.value);
    if d.None? then Money.ZERO else d.value
  }

  function Plus(a: Decimal, b: Decimal): Option<Decimal>
  {
    if Money.Alignable(a, b) && Money.SumFits(a, b) then Some(Money.Add(a, b)) else None
  }

  datatype Handler = ItemSales | GroupRevenue(groups: map<string, string>)

  /** What a document adds under one rollup key. */
  datatype Share = Share(key: string, amounts: seq<(string, Decimal)>)

  datatype ItemTotal = ItemTotal(item: string, qty: Decimal, amount: Decimal)

  function IndexOf(per: seq<ItemTotal>, item: string): (i: nat)
    ensures i <= |per| && (i < |per| ==> per[i].item == item)
  {
    if per == [] then 0 else if per[0].item == item then 0 else 1 + IndexOf(per[1..], item)
  }

  function AddLine(per: seq<ItemTotal>, line: Value): Option<seq<ItemTotal>>
  {
    var item := AsStr(Get(line, "item"));
    if item.None? then Some(per)
    else
      var i := IndexOf(per, item.value);
      var e := if i < |per| then per[i] else ItemTotal(item.value, Money.ZERO, Money.ZERO);
      var qty, amount := Plus(e.qty, Numeric(Get(line, "qty"))), Plus(e.amount, Numeric(Get(line, "amount")));
      if qty.None? || amount.None? then None
      else
        var sum := ItemTotal(item.value, qty.value, amount.value);
        Some(if i < |per| then per[i := sum] else per + [sum])
  }

  function AddLines(per: seq<ItemTotal>, lines: seq<Value>): Option<seq<ItemTotal>>
    decreases |lines|
  {
    if lines == [] then Some(per)
    else
      match AddLine(per, lines[0])
      case None => None
      case Some(next) => AddLines(next, lines[1..])
  }

  function ItemShares(per: seq<ItemTotal>): seq<Share>
  {
    seq(|per|, i requires 0 <= i < |per| => Share(per[i].item, [("qty", per[i].qty), ("amount", per[i].amount)]))
  }

  function Lines(doc: Value): seq<Value> { Items(Get(doc, "lines")) }

  function GroupOf(groups: map<string, string>, customer: string): string
  {
    if customer in groups then groups[customer] else "(none)"
  }

  function Contribution(h: Handler, doc: Value): Option<seq<Share>>
  {
    match h
    case ItemSales =>
      var per := AddLines([], Lines(doc));
      if per.None? then None else Some(ItemShares(per.value))
    case GroupRevenue(groups) =>
      var customer := AsStr(Get(doc, "customer"));
      if customer.None? then Some([])
      else
        Some([Share(GroupOf(groups, customer.value),
                    [("revenue", Numeric(Get(doc, "total"))), ("n", Money.Decimal(1, 0))])])
  }

  method Contribute(h: Handler, doc: Value) returns (shares: Option<seq<Share>>)
    ensures shares == Contribution(h, doc)
  {
    match h
    case GroupRevenue(groups) =>
      return Contribution(h, doc);
    case ItemSales =>
      hide AddLine;
      var lines := Lines(doc);
      var per: seq<ItemTotal> := [];
      assert lines[0..] == lines;
      for i := 0 to |lines|
        invariant AddLines([], lines) == AddLines(per, lines[i..])
      {
        assert lines[i..][0] == lines[i] && lines[i..][1..] == lines[i + 1..];
        var next := AddLine(per, lines[i]);
        if next.None? { return None; }
        per := next.value;
      }
      assert lines[|lines|..] == [];
      return Some(ItemShares(per));
  }

  // ---- the signed fold ----

  type Fields = map<string, Decimal>
  type Deltas = map<string, Fields>

  function AddSigned(d: Decimal, amount: Decimal, subtract: bool): Option<Decimal>
  {
    if !subtract then Plus(d, amount)
    else if amount.mantissa == Money.MIN then None else Plus(d, Money.Neg(amount))
  }

  function FoldAmounts(fields: Fields, amounts: seq<(string, Decimal)>, subtract: bool): Option<Fields>
    decreases |amounts|
  {
    if amounts == [] then Some(fields)
    else
      var (f, amount) := amounts[0];
      match AddSigned(if f in fields then fields[f] else Money.ZERO, amount, subtract)
      case None => None
      case Some(d) => FoldAmounts(fields[f := d], amounts[1..], subtract)
  }

  function FoldShares(acc: Deltas, shares: seq<Share>, subtract: bool): Option<Deltas>
    decreases |shares|
  {
    if shares == [] then Some(acc)
    else
      var key := shares[0].key;
      match FoldAmounts(if key in acc then acc[key] else map[], shares[0].amounts, subtract)
      case None => None
      case Some(fields) => FoldShares(acc[key := fields], shares[1..], subtract)
  }

  function FoldDoc(h: Handler, acc: Deltas, doc: Option<Value>, subtract: bool): Option<Deltas>
  {
    if doc.None? then Some(acc)
    else
      match Contribution(h, doc.value)
      case None => None
      case Some(shares) => FoldShares(acc, shares, subtract)
  }

  function FoldChange(h: Handler, acc: Deltas, ch: Change): Option<Deltas>
  {
    match FoldDoc(h, acc, ch.before, true)
    case None => None
    case Some(next) => FoldDoc(h, next, ch.after, false)
  }

  function FoldChanges(h: Handler, acc: Deltas, changes: seq<Change>): Option<Deltas>
    decreases |changes|
  {
    if changes == [] then Some(acc)
    else
      match FoldChange(h, acc, changes[0])
      case None => None
      case Some(next) => FoldChanges(h, next, changes[1..])
  }

  method AddShares(start: Deltas, shares: seq<Share>, subtract: bool) returns (r: Option<Deltas>)
    ensures r == FoldShares(start, shares, subtract)
  {
    hide AddSigned;
    var acc := start;
    assert shares[0..] == shares;
    for i := 0 to |shares|
      invariant FoldShares(start, shares, subtract) == FoldShares(acc, shares[i..], subtract)
    {
      assert shares[i..][0] == shares[i] && shares[i..][1..] == shares[i + 1..];
      var key, amounts := shares[i].key, shares[i].amounts;
      var was: Fields := if key in acc then acc[key] else map[];
      var bucket := was;
      assert amounts[0..] == amounts;
      for j := 0 to |amounts|
        invariant FoldAmounts(was, amounts, subtract) == FoldAmounts(bucket, amounts[j..], subtract)
      {
        assert amounts[j..][0] == amounts[j] && amounts[j..][1..] == amounts[j + 1..];
        var (f, amount) := amounts[j];
        var sum := AddSigned(if f in bucket then bucket[f] else Money.ZERO, amount, subtract);
        if sum.None? { return None; }
        bucket := bucket[f := sum.value];
      }
      assert amounts[|amounts|..] == [];
      acc := acc[key := bucket];
    }
    assert shares[|shares|..] == [];
    return Some(acc);
  }

  method Fold(h: Handler, changes: seq<Change>) returns (r: Option<Deltas>)
    ensures r == FoldChanges(h, map[], changes)
  {
    hide Contribution, FoldShares;
    var acc: Deltas := map[];
    assert changes[0..] == changes;
    for i := 0 to |changes|
      invariant FoldChanges(h, map[], changes) == FoldChanges(h, acc, changes[i..])
    {
      assert changes[i..][0] == changes[i] && changes[i..][1..] == changes[i + 1..];
      var sides := [(changes[i].before, true), (changes[i].after, false)];
      var was := acc;
      for k := 0 to 2
        invariant k == 0 ==> acc == was
        invariant k == 1 ==> FoldDoc(h, was, changes[i].before, true) == Some(acc)
        invariant k == 2 ==> FoldChange(h, was, changes[i]) == Some(acc)
      {
        var (doc, subtract) := sides[k];
        if doc.Some? {
          var shares := Contribute(h, doc.value);
          if shares.None? { return None; }
          var next := AddShares(acc, shares.value, subtract);
          if next.None? { return None; }
          acc := next.value;
        }
      }
    }
    assert changes[|changes|..] == [];
    return Some(acc);
  }

  // ---- posting ----

  /** A rollup row's numeric columns, and the table of rows by key. */
  type Row = map<string, real>
  type Table = map<string, Row>

  function Cell(row: Row, f: string): real { if f in row then row[f] else 0.0 }

  function RowOf(t: Table, key: string): Row { if key in t then t[key] else map[] }

  /** `SET f = (f ?? 0dec) + delta` for every folded field. */
  function PostRow(row: Row, fields: Fields): Row
  {
    map f | f in row.Keys + fields.Keys :: (
      if f in fields then Cell(row, f) + Money.Value(fields[f]) else row[f])
  }

  /** One UPSERT per folded key; rows of other keys stay. */
  function Post(t: Table, acc: Deltas): Table
  {
    map key | key in t.Keys + acc.Keys :: (
      if key in acc then PostRow(RowOf(t, key), acc[key]) else t[key])
  }

  datatype Ticked = Ticked(table: Table, cursor: nat, changes: nat)

  /** What a tick over a fetched batch commits, all of it in one transaction. */
  function TickOver(h: Handler, t: Table, cursor: nat, entries: seq<Value>): Result<Ticked, TickError>
  {
    if entries == [] then Ok(Ticked(t, cursor, 0))
    else
      match DecodeEntries([], 0, entries)
      case Err(e) => Err(e)
      case Ok(batch) =>
        match FoldChanges(h, map[], batch.0)
        case None => Err(OutsideEnvelope)
        case Some(acc) => Ok(Ticked(Post(t, acc), batch.1, |batch.0|))
  }

  // ---- the feed as the database serves it ----

  function VersionOf(e: Value): nat { VersionOr(e, 0) }

  /** SHOW CHANGES SINCE cursor + 1. */
  function Pending(feed: seq<Value>, cursor: nat): seq<Value>
  {
    if feed != [] && VersionOf(feed[0]) <= cursor then Pending(feed[1..], cursor) else feed
  }

  const DRAIN_LIMIT: nat := 1000

  function Take(s: seq<Value>, n: nat): (batch: seq<Value>)
    ensures batch <= s
  {
    if |s| <= n then s else s[..n]
  }

  /** What a drain did, the entries it left behind, and the error that stopped it, if any. */
  datatype Drained = Drained(table: Table, cursor: nat, changes: nat, rest: seq<Value>, error: Option<TickError>)

  /** A drain of a feed that stays as it is: ticks on batches until one applies nothing. */
  function DrainOver(h: Handler, t: Table, cursor: nat, total: nat, pending: seq<Value>): Drained
    decreases |pending|
  {
    var batch := Take(pending, DRAIN_LIMIT);
    var rest := pending[|batch|..];
    match TickOver(h, t, cursor, batch)
    case Err(e) => Drained(t, cursor, total, pending, Some(e))
    case Ok(k) =>
      if k.changes == 0 then Drained(k.table, k.cursor, total, rest, None)
      else DrainOver(h, k.table, k.cursor, total + k.changes, rest)
  }

  /** Entries in the order of their versionstamps, all of them past `last`. */
  predicate Versioned(feed: seq<Value>, last: nat)
  {
    feed != [] ==> AsU64(Get(feed[0], "versionstamp")).Some? && last < VersionOf(feed[0])
                   && Versioned(feed[1..], VersionOf(feed[0]))
  }

  /** The rollup table and its cursor record, as the worker keeps them. */
  class RollupWorker {
    const handler: Handler
    var table: Table
    var cursor: nat

    constructor (h: Handler)
      ensures handler == h && table == map[] && cursor == 0
    {
      handler, table, cursor := h, map[], 0;
    }

    /** One transaction: both fields change, or (on an error before COMMIT) neither. */
    method Tick(entries: seq<Value>) returns (r: Result<nat, TickError>)
      modifies this
      ensures var k := TickOver(handler, old(table), old(cursor), entries);
              if k.Err? then r == Err(k.error) && table == old(table) && cursor == old(cursor)
              else r == Ok(k.value.changes) && table == k.value.table && cursor == k.value.cursor
    {
      if entries == [] { return Ok(0); }
      var batch := DecodeFeed(entries);
      if batch.Err? { return Err(batch.error); }
      var acc := Fold(handler, batch.value.0);
      if acc.None? { return Err(OutsideEnvelope); }
      var next := Posted(table, acc.value);
      table, cursor := next, batch.value.1;
      return Ok(|batch.value.0|);
    }

    /** The UPSERT statements one after the other, in any order of the keys. */
    static method Posted(t: Table, acc: Deltas) returns (r: Table)
      ensures r == Post(t, acc)
    {
      hide PostRow, Post;
      r := t;
      var todo := acc.Keys;
      ghost var done: Deltas := map[];
      PostNothing(t);
      while todo != {}
        invariant todo <= acc.Keys && done.Keys == acc.Keys - todo
        invariant forall key <- done :: done[key] == acc[key]
        invariant r == Post(t, done)
        decreases |todo|
      {
        var key :| key in todo;
        PostOne(t, done, key, acc[key]);
        r := r[key := PostRow(RowOf(r, key), acc[key])];
        done := done[key := acc[key]];
        todo := todo - {key};
      }
      assert done == acc;
    }

    method Drain(feed: seq<Value>) returns (r: Result<nat, TickError>)
      requires Versioned(feed, 0)
      modifies this
      ensures var d := DrainOver(handler, old(table), old(cursor), 0, Pending(feed, old(cursor)));
              && table == d.table && cursor == d.cursor
              && r == if d.error.Some? then Err(d.error.value) else Ok(d.changes)
    {
      hide *;
      var total := 0;
      ghost var goal := DrainOver(handler, table, cursor, 0, Pending(feed, cursor));
      while true
        invariant goal == DrainOver(handler, table, cursor, total, Pending(feed, cursor))
        decreases |Pending(feed, cursor)|
      {
        var batch := Take(Pending(feed, cursor), DRAIN_LIMIT);
        DrainStep(handler, table, cursor, total, feed);
        var n := Tick(batch);
        if n.Err? { return Err(n.error); }
        if n.value == 0 { return Ok(total); }
        total := total + n.value;
      }
    }

    method RecomputeFromSource(feed: seq<Value>) returns (r: Result<nat, TickError>)
      requires Versioned(feed, 0)
      modifies this
      ensures var d := DrainOver(handler, map[], 0, 0, feed);
              && table == d.table && cursor == d.cursor
              && r == if d.error.Some? then Err(d.error.value) else Ok(d.changes)
    {
      table, cursor := map[], 0;
      r := Drain(feed);
    }
  }

  /** Versionstamp of the last entry. */
  function LastVersion(es: seq<Value>): nat
    requires es != []
  {
    VersionOf(es[|es| - 1])
  }

  lemma {:induction false} PendingVersioned(feed: seq<Value>, last: nat, cursor: nat)
    requires Versioned(feed, last)
    ensures Versioned(Pending(feed, cursor), if cursor < last then last else cursor)
  {
    if feed != [] && VersionOf(feed[0]) <= cursor { PendingVersioned(feed[1..], VersionOf(feed[0]), cursor); }
  }

  lemma {:induction false} PendingLater(feed: seq<Value>, cursor: nat, later: nat)
    requires cursor <= later
    ensures Pending(Pending(feed, cursor), later) == Pending(feed, later)
  {
    if feed != [] && VersionOf(feed[0]) <= cursor { PendingLater(feed[1..], cursor, later); }
  }

  lemma {:induction false} BatchSkipped(p: seq<Value>, last: nat, n: nat)
    requires Versioned(p, last) && 0 < n <= |p|
    ensures VersionOf(p[n - 1]) > last && Pending(p, VersionOf(p[n - 1])) == p[n..]
  {
    if n > 1 {
      BatchSkipped(p[1..], VersionOf(p[0]), n - 1);
      assert p[1..][n - 1..] == p[n..];
    } else {
      assert p[1..] == [] || VersionOf(p[1..][0]) > VersionOf(p[0]);
    }
  }

  /** After a batch is committed, what is pending is what followed the batch. */
  lemma PendingAfter(feed: seq<Value>, cursor: nat, n: nat)
    requires Versioned(feed, 0) && 0 < n <= |Pending(feed, cursor)|
    ensures var p := Pending(feed, cursor);
            Pending(feed, LastVersion(p[..n])) == p[n..]
  {
    var p := Pending(feed, cursor);
    PendingVersioned(feed, 0, cursor);
    BatchSkipped(p, cursor, n);
    PendingLater(feed, cursor, VersionOf(p[n - 1]));
  }

  lemma {:induction false} BatchVersioned(p: seq<Value>, last: nat, n: nat)
    requires Versioned(p, last) && n <= |p|
    ensures Versioned(p[..n], last)
  {
    if n > 0 {
      BatchVersioned(p[1..], VersionOf(p[0]), n - 1);
      assert p[..n][1..] == p[1..][..n - 1];
    }
  }

  lemma {:induction false} DecodedCursor(done: seq<Change>, last: nat, es: seq<Value>, before: nat)
    requires Versioned(es, before) && es != []
    ensures var r := DecodeEntries(done, last, es);
            r.Ok? ==> r.value.1 == LastVersion(es)
    decreases |es|
  {
    hide DecodeChanges;
    assert VersionOr(es[0], last) == VersionOf(es[0]);
    var more := DecodeChanges(done, Items(Get(es[0], "changes")));
    if more.Ok? && |es| > 1 {
      DecodedCursor(more.value, VersionOf(es[0]), es[1..], VersionOf(es[0]));
      assert es[1..][|es| - 2] == es[|es| - 1];
    }
  }

  /** A tick over a non-empty batch leaves the cursor on the batch's last versionstamp. */
  lemma TickAdvances(h: Handler, t: Table, cursor: nat, batch: seq<Value>, before: nat)
    requires Versioned(batch, before)
    ensures var k := TickOver(h, t, cursor, batch);
            k.Ok? ==> k.value.cursor == if batch == [] then cursor else LastVersion(batch)
  {
    if batch != [] { DecodedCursor([], 0, batch, before); }
  }

  lemma PostNothing(t: Table)
    ensures Post(t, map[]) == t
  {}

  lemma PostOne(t: Table, done: Deltas, key: string, fields: Fields)
    requires key !in done
    ensures Post(t, done)[key := PostRow(RowOf(Post(t, done), key), fields)] == Post(t, done[key := fields])
  {
    hide PostRow;
  }

  lemma DrainUnfold(h: Handler, t: Table, cursor: nat, total: nat, pending: seq<Value>)
    ensures var batch := Take(pending, DRAIN_LIMIT);
            var k, d := TickOver(h, t, cursor, batch), DrainOver(h, t, cursor, total, pending);
            && (k.Err? ==> d == Drained(t, cursor, total, pending, Some(k.error)))
            && (k.Ok? ==>
                  d == if k.value.changes == 0 then Drained(k.value.table, k.value.cursor, total, pending[|batch|..], None)
                       else DrainOver(h, k.value.table, k.value.cursor, total + k.value.changes, pending[|batch|..]))
  {
    hide TickOver, Take;
  }

  /** One turn of the drain loop. */
  lemma DrainStep(h: Handler, t: Table, cursor: nat, total: nat, feed: seq<Value>)
    requires Versioned(feed, 0)
    ensures var pending := Pending(feed, cursor);
            var k, d := TickOver(h, t, cursor, Take(pending, DRAIN_LIMIT)), DrainOver(h, t, cursor, total, pending);
            && (k.Err? ==> d.error == Some(k.error) && d.table == t && d.cursor == cursor)
            && (k.Ok? && k.value.changes == 0 ==>
                  d.error == None && d.table == k.value.table && d.cursor == k.value.cursor && d.changes == total)
            && (k.Ok? && k.value.changes > 0 ==>
                  && |Pending(feed, k.value.cursor)| < |pending|
                  && d == DrainOver(h, k.value.table, k.value.cursor, total + k.value.changes, Pending(feed, k.value.cursor)))
  {
    hide *;
    BatchDone(h, t, cursor, feed);
    DrainUnfold(h, t, cursor, total, Pending(feed, cursor));
  }

  lemma BatchDone(h: Handler, t: Table, cursor: nat, feed: seq<Value>)
    requires Versioned(feed, 0)
    ensures var pending := Pending(feed, cursor);
            var batch := Take(pending, DRAIN_LIMIT);
            var k := TickOver(h, t, cursor, batch);
            k.Ok? && k.value.changes > 0 ==>
              batch != [] && Pending(feed, k.value.cursor) == pending[|batch|..]
  {
    var pending := Pending(feed, cursor);
    var batch := Take(pending, DRAIN_LIMIT);
    if batch == [] {
      NothingFetched(h, t, cursor);
    } else {
      hide TickOver, Pending, Versioned;
      PendingVersioned(feed, 0, cursor);
      BatchVersioned(pending, cursor, |batch|);
      assert batch == pending[..|batch|];
      TickAdvances(h, t, cursor, batch, cursor);
      PendingAfter(feed, cursor, |batch|);
    }
  }

  lemma NothingFetched(h: Handler, t: Table, cursor: nat)
    ensures TickOver(h, t, cursor, []) == Ok(Ticked(t, cursor, 0))
  {}
}
