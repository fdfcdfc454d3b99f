/** What a rollup is for: the sum of its source documents' contributions. The kernel's fold over
    decoded changes adds exactly the difference between the source before and after them. */
module RollupLaws {
  import opened Wrappers
  import opened Json
  import opened Rollups
  import Money = Decimals

  // ---- contributions as exact sums ----

  ghost function Amount(line: Value, field: string): real { Money.Value(Numeric(Get(line, field))) }

  ghost function LineShare(line: Value, key: string, f: string): real
  {
    if AsStr(Get(line, "item")) == Some(key) && (f == "qty" || f == "amount") then Amount(line, f) else 0.0
  }

  ghost function LinesShare(lines: seq<Value>, key: string, f: string): real
  {
    if lines == [] then 0.0 else LineShare(lines[0], key, f) + LinesShare(lines[1..], key, f)
  }

  /** What a document adds to column `f` of the row `key`, as an exact number. */
  ghost function ShareOf(h: Handler, doc: Value, key: string, f: string): real
  {
    match h
    case ItemSales => LinesShare(Lines(doc), key, f)
    case GroupRevenue(groups) =>
      var customer := AsStr(Get(doc, "customer"));
      if customer.None? || GroupOf(groups, customer.value) != key then 0.0
      else if f == "revenue" then Amount(doc, "total")
      else if f == "n" then 1.0 else 0.0
  }

  ghost function AmountIn(amounts: seq<(string, Decimal)>, f: string): real
  {
    if amounts == [] then 0.0
    else (if amounts[0].0 == f then Money.Value(amounts[0].1) else 0.0) + AmountIn(amounts[1..], f)
  }

  ghost function SharesIn(shares: seq<Share>, key: string, f: string): real
  {
    if shares == [] then 0.0
    else (if shares[0].key == key then AmountIn(shares[0].amounts, f) else 0.0) + SharesIn(shares[1..], key, f)
  }

  lemma PlusValue(a: Decimal, b: Decimal)
    ensures Plus(a, b).Some? ==> Money.Value(Plus(a, b).value) == Money.Value(a) + Money.Value(b)
  {
    if Money.Alignable(a, b) { Money.AddExact(a, b); }
  }

  // ---- item totals ----

  ghost function ItemAt(e: ItemTotal, key: string, f: string): real
  {
    if e.item != key then 0.0
    else if f == "qty" then Money.Value(e.qty)
    else if f == "amount" then Money.Value(e.amount) else 0.0
  }

  ghost function ItemsAt(per: seq<ItemTotal>, key: string, f: string): real
  {
    if per == [] then 0.0 else ItemAt(per[0], key, f) + ItemsAt(per[1..], key, f)
  }

  lemma {:induction false} ItemUpdated(per: seq<ItemTotal>, i: nat, e: ItemTotal, key: string, f: string)
    requires i < |per|
    ensures ItemsAt(per[i := e], key, f) == ItemsAt(per, key, f) - ItemAt(per[i], key, f) + ItemAt(e, key, f)
  {
    if i == 0 {
      assert per[i := e][1..] == per[1..];
    } else {
      assert per[i := e][1..] == per[1..][i - 1 := e];
      ItemUpdated(per[1..], i - 1, e, key, f);
    }
  }

  lemma {:induction false} ItemAppended(per: seq<ItemTotal>, e: ItemTotal, key: string, f: string)
    ensures ItemsAt(per + [e], key, f) == ItemsAt(per, key, f) + ItemAt(e, key, f)
  {
    if per == [] {
      assert per + [e] == [e] && [e][1..] == [];
    } else {
      assert (per + [e])[1..] == per[1..] + [e];
      ItemAppended(per[1..], e, key, f);
    }
  }

  lemma LineAdded(per: seq<ItemTotal>, line: Value, key: string, f: string)
    ensures var next := AddLine(per, line);
            next.Some? ==> ItemsAt(next.value, key, f) == ItemsAt(per, key, f) + LineShare(line, key, f)
  {
    var item := AsStr(Get(line, "item"));
    if item.Some? && AddLine(per, line).Some? {
      hide Money.Value, Plus, Numeric, ItemsAt;
      assert |"qty"| == 3 && |"amount"| == 6;
      var i := IndexOf(per, item.value);
      var e := if i < |per| then per[i] else ItemTotal(item.value, Money.ZERO, Money.ZERO);
      var qty, amount := Numeric(Get(line, "qty")), Numeric(Get(line, "amount"));
      PlusValue(e.qty, qty);
      PlusValue(e.amount, amount);
      Money.ZeroValue();
      var sum := ItemTotal(item.value, Plus(e.qty, qty).value, Plus(e.amount, amount).value);
      assert ItemAt(sum, key, f) == ItemAt(e, key, f) + LineShare(line, key, f);
      if i < |per| { ItemUpdated(per, i, sum, key, f); } else { ItemAppended(per, sum, key, f); }
    }
  }

  lemma {:induction false} LinesAdded(per: seq<ItemTotal>, lines: seq<Value>, key: string, f: string)
    ensures var all := AddLines(per, lines);
            all.Some? ==> ItemsAt(all.value, key, f) == ItemsAt(per, key, f) + LinesShare(lines, key, f)
    decreases |lines|
  {
    if lines != [] {
      hide AddLine, LineShare, ItemsAt;
      LineAdded(per, lines[0], key, f);
      var next := AddLine(per, lines[0]);
      if next.Some? { LinesAdded(next.value, lines[1..], key, f); }
    }
  }

  lemma TwoAmounts(x: (string, Decimal), y: (string, Decimal), f: string)
    ensures AmountIn([x, y], f) ==
            (if x.0 == f then Money.Value(x.1) else 0.0) + (if y.0 == f then Money.Value(y.1) else 0.0)
  {
    hide Money.Value;
    assert [x, y][1..] == [y] && [y][1..] == [];
    assert AmountIn([y], f) == if y.0 == f then Money.Value(y.1) else 0.0;
  }

  lemma ItemShare(e: ItemTotal, f: string)
    ensures AmountIn([("qty", e.qty), ("amount", e.amount)], f) == ItemAt(e, e.item, f)
  {
    assert |"qty"| == 3 && |"amount"| == 6;
    TwoAmounts(("qty", e.qty), ("amount", e.amount), f);
  }

  lemma {:induction false} ItemSharesIn(per: seq<ItemTotal>, key: string, f: string)
    ensures SharesIn(ItemShares(per), key, f) == ItemsAt(per, key, f)
  {
    if per != [] {
      assert ItemShares(per)[1..] == ItemShares(per[1..]);
      ItemShare(per[0], f);
      ItemSharesIn(per[1..], key, f);
    }
  }

  /** The shares a handler computes are the exact sums over the document's lines. */
  lemma ContributionExact(h: Handler, doc: Value, key: string, f: string)
    ensures var shares := Contribution(h, doc);
            shares.Some? ==> SharesIn(shares.value, key, f) == ShareOf(h, doc, key, f)
  {
    match h
    case ItemSales =>
      var per := AddLines([], Lines(doc));
      LinesAdded([], Lines(doc), key, f);
      if per.Some? { ItemSharesIn(per.value, key, f); }
    case GroupRevenue(groups) =>
      if AsStr(Get(doc, "customer")).Some? {
        hide Money.Value, Numeric, GroupOf;
        assert |"revenue"| == 7 && |"n"| == 1;
        var one := Money.Decimal(1, 0);
        OneValue();
        var amounts := [("revenue", Numeric(Get(doc, "total"))), ("n", one)];
        TwoAmounts(amounts[0], amounts[1], f);
        var shares := Contribution(h, doc).value;
        assert shares[1..] == [];
      }
  }

  lemma OneValue()
    ensures Money.Value(Money.Decimal(1, 0)) == 1.0
  {
    Money.AlignedValue(Money.Decimal(1, 0), 0);
  }

  // ---- the fold ----

  ghost function Sign(subtract: bool, x: real): real { if subtract then -x else x }

  ghost function FieldAt(fields: Fields, f: string): real
  {
    if f in fields then Money.Value(fields[f]) else 0.0
  }

  ghost function DeltaAt(acc: Deltas, key: string, f: string): real
  {
    if key in acc then FieldAt(acc[key], f) else 0.0
  }

  lemma SignedValue(d: Decimal, amount: Decimal, subtract: bool)
    ensures var r := AddSigned(d, amount, subtract);
            r.Some? ==> Money.Value(r.value) == Money.Value(d) + Sign(subtract, Money.Value(amount))
  {
    if subtract {
      if amount.mantissa != Money.MIN {
        Money.NegValue(amount);
        PlusValue(d, Money.Neg(amount));
      }
    } else {
      PlusValue(d, amount);
    }
  }

  lemma {:induction false} AmountsFolded(fields: Fields, amounts: seq<(string, Decimal)>, subtract: bool, f: string)
    ensures var r := FoldAmounts(fields, amounts, subtract);
            r.Some? ==> FieldAt(r.value, f) == FieldAt(fields, f) + Sign(subtract, AmountIn(amounts, f))
    decreases |amounts|
  {
    if amounts != [] {
      hide AddSigned, Money.Value;
      var (g, amount) := amounts[0];
      var was := if g in fields then fields[g] else Money.ZERO;
      var d := AddSigned(was, amount, subtract);
      SignedValue(was, amount, subtract);
      Money.ZeroValue();
      if d.Some? { AmountsFolded(fields[g := d.value], amounts[1..], subtract, f); }
    }
  }

  lemma {:induction false} SharesFolded(acc: Deltas, shares: seq<Share>, subtract: bool, key: string, f: string)
    ensures var r := FoldShares(acc, shares, subtract);
            r.Some? ==> DeltaAt(r.value, key, f) == DeltaAt(acc, key, f) + Sign(subtract, SharesIn(shares, key, f))
    decreases |shares|
  {
    if shares != [] {
      hide FoldAmounts, AmountIn, Money.Value;
      var k := shares[0].key;
      var was: Fields := if k in acc then acc[k] else map[];
      var fields := FoldAmounts(was, shares[0].amounts, subtract);
      AmountsFolded(was, shares[0].amounts, subtract, f);
      if fields.Some? { SharesFolded(acc[k := fields.value], shares[1..], subtract, key, f); }
    }
  }

  ghost function ShareOr0(h: Handler, doc: Option<Value>, key: string, f: string): real
  {
    if doc.None? then 0.0 else ShareOf(h, doc.value, key, f)
  }

  /** What a change does to a column: the new document's share less the old one's. */
  ghost function Net(h: Handler, ch: Change, key: string, f: string): real
  {
    ShareOr0(h, ch.after, key, f) - ShareOr0(h, ch.before, key, f)
  }

  ghost function NetAll(h: Handler, changes: seq<Change>, key: string, f: string): real
  {
    if changes == [] then 0.0 else Net(h, changes[0], key, f) + NetAll(h, changes[1..], key, f)
  }

  lemma {:induction false} NetAppend(h: Handler, a: seq<Change>, b: seq<Change>, key: string, f: string)
    ensures NetAll(h, a + b, key, f) == NetAll(h, a, key, f) + NetAll(h, b, key, f)
  {
    if a == [] {
      assert a + b == b;
    } else {
      assert (a + b)[1..] == a[1..] + b;
      NetAppend(h, a[1..], b, key, f);
    }
  }

  lemma DocFolded(h: Handler, acc: Deltas, doc: Option<Value>, subtract: bool, key: string, f: string)
    ensures var r := FoldDoc(h, acc, doc, subtract);
            r.Some? ==> DeltaAt(r.value, key, f) == DeltaAt(acc, key, f) + Sign(subtract, ShareOr0(h, doc, key, f))
  {
    if doc.Some? && Contribution(h, doc.value).Some? {
      hide Contribution, FoldShares, ShareOf, DeltaAt;
      ContributionExact(h, doc.value, key, f);
      SharesFolded(acc, Contribution(h, doc.value).value, subtract, key, f);
    }
  }

  lemma {:induction false} ChangesFolded(h: Handler, acc: Deltas, changes: seq<Change>, key: string, f: string)
    ensures var r := FoldChanges(h, acc, changes);
            r.Some? ==> DeltaAt(r.value, key, f) == DeltaAt(acc, key, f) + NetAll(h, changes, key, f)
    decreases |changes|
  {
    if changes != [] {
      hide FoldDoc, DeltaAt, ShareOr0;
      var ch := changes[0];
      DocFolded(h, acc, ch.before, true, key, f);
      var half := FoldDoc(h, acc, ch.before, true);
      if half.Some? {
        DocFolded(h, half.value, ch.after, false, key, f);
        var next := FoldDoc(h, half.value, ch.after, false);
        if next.Some? { ChangesFolded(h, next.value, changes[1..], key, f); }
      }
    }
  }

  // ---- posting ----

  /** Column `f` of row `key`; a missing row or column counts as zero. */
  function CellAt(t: Table, key: string, f: string): real { Cell(RowOf(t, key), f) }

  lemma Posted(t: Table, acc: Deltas, key: string, f: string)
    ensures CellAt(Post(t, acc), key, f) == CellAt(t, key, f) + DeltaAt(acc, key, f)
  {
    hide Money.Value;
  }

  /** A committed tick moves every column by the net share of the changes it decoded. */
  lemma TickAdds(h: Handler, t: Table, cursor: nat, entries: seq<Value>, key: string, f: string)
    requires entries != []
    ensures var k, d := TickOver(h, t, cursor, entries), DecodeEntries([], 0, entries);
            k.Ok? ==> d.Ok? && k.value.cursor == d.value.1
                      && CellAt(k.value.table, key, f) == CellAt(t, key, f) + NetAll(h, d.value.0, key, f)
  {
    hide DecodeEntries, FoldChanges, Post, CellAt, NetAll;
    var d := DecodeEntries([], 0, entries);
    if d.Ok? {
      var acc := FoldChanges(h, map[], d.value.0);
      ChangesFolded(h, map[], d.value.0, key, f);
      if acc.Some? { Posted(t, acc.value, key, f); }
    }
  }
}
