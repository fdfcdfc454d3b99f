/** Runs of the rollup pipeline: source transactions, the feed they leave, and one worker that
    reads its cursor, fetches, commits, crashes and is reset. The maintained table always equals
    the one computed from the documents the source held at the cursor. */
module RollupRuns {
  import opened Wrappers
  import opened Collections
  import opened Text
  import opened Json
  import opened Rollups
  import opened RollupLaws
  import JsonUndo
  import JsonUndoLaws
  import UndoEdits
  import Rfc = Rfc6902

  // ---- the source and its transactions ----

  type Source = map<string, Value>

  datatype Mutation =
    | Create(id: string, doc: Value)
    | Update(id: string, after: Value, undo: seq<Value>)
    | Delete(id: string)
    | DefineTable

  /** The database records undo operations that take the new document back to the old one. */
  predicate Legal(m: Mutation, src: Source)
  {
    match m
    case Create(id, doc) => id !in src && doc.Obj?
    case Update(id, after, undo) => id in src && JsonUndo.Undo(after, undo) == Ok(src[id])
    case Delete(id) => id in src
    case DefineTable => true
  }

  /** Any edit of a document that RFC 6902 can apply, with its inverse list as the undo, is a legal
      update. */
  lemma EditsAreLegal(src: Source, id: string, ops: seq<Rfc.PatchOp>)
    requires id in src && Rfc.ApplyAll(src[id], ops).Some?
    ensures Legal(Update(id, Rfc.ApplyAll(src[id], ops).value, Rfc.WritePatch(Rfc.InverseAll(src[id], ops))), src)
  {
    JsonUndoLaws.UndoRestores(src[id], ops);
  }

  /** So is any list of edits in which document operations and text changes mix. */
  lemma TextEditsAreLegal(src: Source, id: string, es: seq<UndoEdits.Edit>)
    requires id in src && UndoEdits.MadeAll(src[id], es).Some?
    ensures Legal(Update(id, UndoEdits.MadeAll(src[id], es).value, UndoEdits.WriteUndoAll(src[id], es)), src)
  {
    UndoEdits.EditsUndone(src[id], es);
  }

  function Next(m: Mutation, src: Source): Source
  {
    match m
    case Create(id, doc) => src[id := doc]
    case Update(id, after, _) => src[id := after]
    case Delete(id) => src - {id}
    case DefineTable => src
  }

  function ChangeOf(m: Mutation, src: Source): Option<Change>
    requires Legal(m, src)
  {
    match m
    case Create(_, doc) => Some(Change(None, Some(doc)))
    case Update(id, after, _) => Some(Change(Some(src[id]), Some(after)))
    case Delete(id) => Some(Change(Some(src[id]), None))
    case DefineTable => None
  }

  /** The change as SHOW CHANGES prints it, with INCLUDE ORIGINAL. */
  function Wire(m: Mutation, src: Source): Value
    requires Legal(m, src)
  {
    match m
    case Create(_, doc) => Obj(map["update" := doc])
    case Update(_, after, undo) => Obj(map["current" := after, "update" := Arr(undo)])
    case Delete(id) => Obj(map["delete" := Obj(map["id" := Str(id), "original" := src[id]])])
    case DefineTable => Obj(map["define_table" := Null])
  }

  lemma WireDecodes(m: Mutation, src: Source)
    requires Legal(m, src)
    ensures DecodeChange(Wire(m, src)) == Ok(ChangeOf(m, src))
  {
    var c := Wire(m, src);
    assert |"update"| == 6 && |"delete"| == 6 && |"current"| == 7 && |"define_table"| == 12;
    assert "update"[0] != "delete"[0] && |"id"| == 2 && |"original"| == 8;
    match m
    case Create(_, doc) =>
      assert Get(c, "define_table") == None && Get(c, "delete") == None && Get(c, "current") == None;
    case Update(_, after, undo) =>
      assert Get(c, "define_table") == None && Get(c, "delete") == None;
      assert Get(c, "current") == Some(after) && Items(Get(c, "update")) == undo;
    case Delete(id) =>
      assert Get(c, "define_table") == None && Get(Get(c, "delete").value, "original") == Some(src[id]);
    case DefineTable =>
  }

  // ---- transactions of several mutations ----

  predicate LegalAll(ms: seq<Mutation>, src: Source)
  {
    ms == [] || (Legal(ms[0], src) && LegalAll(ms[1..], Next(ms[0], src)))
  }

  function NextAll(ms: seq<Mutation>, src: Source): Source
    decreases |ms|
  {
    if ms == [] then src else NextAll(ms[1..], Next(ms[0], src))
  }

  function ChangesOf(ms: seq<Mutation>, src: Source): seq<Change>
    requires LegalAll(ms, src)
    decreases |ms|
  {
    if ms == [] then []
    else
      var ch, rest := ChangeOf(ms[0], src), ChangesOf(ms[1..], Next(ms[0], src));
      if ch.None? then rest else [ch.value] + rest
  }

  function WireAll(ms: seq<Mutation>, src: Source): seq<Value>
    requires LegalAll(ms, src)
    decreases |ms|
  {
    if ms == [] then [] else [Wire(ms[0], src)] + WireAll(ms[1..], Next(ms[0], src))
  }

  lemma {:induction false} WireAllDecodes(done: seq<Change>, ms: seq<Mutation>, src: Source)
    requires LegalAll(ms, src)
    ensures DecodeChanges(done, WireAll(ms, src)) == Ok(done + ChangesOf(ms, src))
    decreases |ms|
  {
    if ms == [] {
      assert done + [] == done;
    } else {
      hide DecodeChange, Wire, ChangeOf, Legal, Next;
      WireDecodes(ms[0], src);
      var ch, rest := ChangeOf(ms[0], src), ChangesOf(ms[1..], Next(ms[0], src));
      var more := if ch.None? then done else done + [ch.value];
      assert WireAll(ms, src)[1..] == WireAll(ms[1..], Next(ms[0], src));
      WireAllDecodes(more, ms[1..], Next(ms[0], src));
      assert more + rest == done + ChangesOf(ms, src);
    }
  }

  // ---- the log and its feed ----

  datatype Txn = Txn(vs: nat, muts: seq<Mutation>)

  function LastVs(log: seq<Txn>): nat { if log == [] then 0 else log[|log| - 1].vs }

  /** What the source holds after the whole log. */
  function After(log: seq<Txn>): Source
  {
    if log == [] then map[] else NextAll(log[|log| - 1].muts, After(log[..|log| - 1]))
  }

  /** Versionstamps strictly increase, and every mutation was possible where it happened. */
  predicate LegalLog(log: seq<Txn>)
  {
    log != [] ==>
      var last, before := log[|log| - 1], log[..|log| - 1];
      LegalLog(before) && LastVs(before) < last.vs <= USIZE_MAX && LegalAll(last.muts, After(before))
  }

  function EntryOf(txn: Txn, src: Source): Value
    requires LegalAll(txn.muts, src)
  {
    Obj(map["versionstamp" := Num(Numeral(txn.vs, 10)), "changes" := Arr(WireAll(txn.muts, src))])
  }

  /** The changefeed, complete back to the origin. */
  function FeedOf(log: seq<Txn>): (feed: seq<Value>)
    requires LegalLog(log)
    ensures |feed| == |log|
  {
    if log == [] then []
    else FeedOf(log[..|log| - 1]) + [EntryOf(log[|log| - 1], After(log[..|log| - 1]))]
  }

  lemma EntryReads(txn: Txn, src: Source)
    requires LegalAll(txn.muts, src) && txn.vs <= USIZE_MAX
    ensures AsU64(Get(EntryOf(txn, src), "versionstamp")) == Some(txn.vs)
    ensures Items(Get(EntryOf(txn, src), "changes")) == WireAll(txn.muts, src)
    ensures forall last :: VersionOr(EntryOf(txn, src), last) == txn.vs
  {
    hide WireAll;
    assert |"versionstamp"| == 12 && |"changes"| == 7;
    NumeralRoundTrip(txn.vs, 10);
  }

  lemma {:induction false} PrefixLegal(log: seq<Txn>, i: nat)
    requires LegalLog(log) && i <= |log|
    ensures LegalLog(log[..i])
    ensures i < |log| ==> LegalAll(log[i].muts, After(log[..i])) && LastVs(log[..i]) < log[i].vs <= USIZE_MAX
    decreases |log|
  {
    hide LegalAll, After;
    if i == |log| {
      assert log[..i] == log;
    } else {
      var before := log[..|log| - 1];
      assert before[..i] == log[..i];
      PrefixLegal(before, i);
    }
  }

  lemma {:induction false} FeedAt(log: seq<Txn>, i: nat)
    requires LegalLog(log) && i < |log|
    ensures LegalLog(log[..i]) && LegalAll(log[i].muts, After(log[..i]))
    ensures FeedOf(log)[i] == EntryOf(log[i], After(log[..i]))
    decreases |log|
  {
    hide LegalAll, After, EntryOf;
    PrefixLegal(log, i);
    if i < |log| - 1 {
      var before := log[..|log| - 1];
      assert before[..i] == log[..i];
      FeedAt(before, i);
    }
  }

  lemma {:induction false} Increasing(log: seq<Txn>, i: nat, j: nat)
    requires LegalLog(log) && i < j < |log|
    ensures log[i].vs < log[j].vs
    decreases j
  {
    PrefixLegal(log, j);
    if i < j - 1 { Increasing(log, i, j - 1); }
  }

  function ChangesBetween(log: seq<Txn>, i: nat, j: nat): seq<Change>
    requires LegalLog(log) && i <= j <= |log|
    decreases j - i
  {
    if i == j then []
    else
      PrefixLegal(log, i);
      ChangesOf(log[i].muts, After(log[..i])) + ChangesBetween(log, i + 1, j)
  }

  lemma BetweenStep(log: seq<Txn>, i: nat, j: nat)
    requires LegalLog(log) && i <= j <= |log|
    ensures i == j ==> ChangesBetween(log, i, j) == []
    ensures i < j ==> LegalAll(log[i].muts, After(log[..i]))
                      && ChangesBetween(log, i, j) == ChangesOf(log[i].muts, After(log[..i])) + ChangesBetween(log, i + 1, j)
  {
    hide LegalLog, LegalAll, After, ChangesOf;
    PrefixLegal(log, i);
  }

  /** Decoding an entry puts its changes behind those already decoded. */
  lemma EntryDecodes(done: seq<Change>, last: nat, txn: Txn, src: Source, rest: seq<Value>)
    requires LegalAll(txn.muts, src) && txn.vs <= USIZE_MAX
    ensures DecodeEntries(done, last, [EntryOf(txn, src)] + rest)
            == DecodeEntries(done + ChangesOf(txn.muts, src), txn.vs, rest)
  {
    hide LegalAll, WireAll, EntryOf, DecodeChanges, VersionOr, ChangesOf;
    EntryReads(txn, src);
    WireAllDecodes(done, txn.muts, src);
    assert ([EntryOf(txn, src)] + rest)[1..] == rest;
  }

  lemma EmptyDecodes(done: seq<Change>, last: nat)
    ensures DecodeEntries(done, last, []) == Ok((done, last))
  {}

  lemma {:induction false} SegmentDecodes(log: seq<Txn>, i: nat, j: nat, done: seq<Change>, last: nat)
    requires LegalLog(log) && i <= j <= |log|
    ensures DecodeEntries(done, last, FeedOf(log)[i..j])
            == Ok((done + ChangesBetween(log, i, j), if i < j then log[j - 1].vs else last))
    decreases j - i
  {
    hide *;
    var es := FeedOf(log)[i..j];
    BetweenStep(log, i, j);
    if i == j {
      EmptyDecodes(done, last);
      assert es == [] && done + [] == done;
    } else {
      FeedAt(log, i);
      PrefixLegal(log, i);
      var txn, src := log[i], After(log[..i]);
      var here, rest := ChangesOf(txn.muts, src), ChangesBetween(log, i + 1, j);
      assert es == [EntryOf(txn, src)] + FeedOf(log)[i + 1..j];
      EntryDecodes(done, last, txn, src, FeedOf(log)[i + 1..j]);
      SegmentDecodes(log, i + 1, j, done + here, txn.vs);
      assert (done + here) + rest == done + (here + rest);
    }
  }

  // ---- sums over the source ----

  /** The column recomputed from scratch: every document's share, added up. */
  ghost function Total(h: Handler, src: Source, key: string, f: string): real
    decreases |src|
  {
    if src == map[] then 0.0
    else ShareOf(h, src[Pick(src)], key, f) + Total(h, src - {Pick(src)}, key, f)
  }

  lemma {:induction false} TotalWithout(h: Handler, src: Source, id: string, key: string, f: string)
    requires id in src
    ensures Total(h, src, key, f) == ShareOf(h, src[id], key, f) + Total(h, src - {id}, key, f)
    decreases |src|
  {
    hide ShareOf;
    var p := Pick(src);
    if p != id {
      TotalWithout(h, src - {p}, id, key, f);
      TotalWithout(h, src - {id}, p, key, f);
      assert (src - {p}) - {id} == (src - {id}) - {p};
    }
  }

  lemma TotalStep(h: Handler, m: Mutation, src: Source, key: string, f: string)
    requires Legal(m, src)
    ensures var ch := ChangeOf(m, src);
            Total(h, Next(m, src), key, f) ==
            Total(h, src, key, f) + if ch.None? then 0.0 else Net(h, ch.value, key, f)
  {
    hide ShareOf, Total;
    match m
    case Create(id, doc) =>
      TotalWithout(h, src[id := doc], id, key, f);
      assert src[id := doc] - {id} == src;
    case Update(id, after, _) =>
      TotalWithout(h, src, id, key, f);
      TotalWithout(h, src[id := after], id, key, f);
      assert src[id := after] - {id} == src - {id};
    case Delete(id) =>
      TotalWithout(h, src, id, key, f);
    case DefineTable =>
  }

  lemma {:induction false} TotalTxn(h: Handler, ms: seq<Mutation>, src: Source, key: string, f: string)
    requires LegalAll(ms, src)
    ensures Total(h, NextAll(ms, src), key, f) == Total(h, src, key, f) + NetAll(h, ChangesOf(ms, src), key, f)
    decreases |ms|
  {
    if ms != [] {
      hide Total, Net, ChangeOf, Legal, Next;
      TotalStep(h, ms[0], src, key, f);
      TotalTxn(h, ms[1..], Next(ms[0], src), key, f);
    }
  }

  /** The changes between two points of the log account for the difference of the totals there. */
  lemma {:induction false} TotalsDiffer(h: Handler, log: seq<Txn>, i: nat, j: nat, key: string, f: string)
    requires LegalLog(log) && i <= j <= |log|
    ensures Total(h, After(log[..j]), key, f) ==
            Total(h, After(log[..i]), key, f) + NetAll(h, ChangesBetween(log, i, j), key, f)
    decreases j - i
  {
    if i < j {
      hide Total, LegalLog, LegalAll, NetAll, NextAll;
      PrefixLegal(log, i);
      var here, rest := ChangesOf(log[i].muts, After(log[..i])), ChangesBetween(log, i + 1, j);
      assert log[..i + 1][..i] == log[..i] && log[..i + 1][i] == log[i];
      TotalTxn(h, log[i].muts, After(log[..i]), key, f);
      TotalsDiffer(h, log, i + 1, j, key, f);
      NetAppend(h, here, rest, key, f);
    } else {
      assert NetAll(h, [], key, f) == 0.0;
    }
  }

  // ---- the cursor's place in the log ----

  /** How many transactions a cursor has seen. */
  function Seen(log: seq<Txn>, cursor: nat): (i: nat)
    ensures i <= |log|
  {
    if log == [] || LastVs(log) <= cursor then |log| else Seen(log[..|log| - 1], cursor)
  }

  /** The documents the source held when the cursor's transaction had just committed. */
  function HeldAt(log: seq<Txn>, cursor: nat): Source { After(log[..Seen(log, cursor)]) }

  lemma {:induction false} SeenIs(log: seq<Txn>, cursor: nat, i: nat)
    requires LegalLog(log) && i <= |log|
    requires i > 0 ==> log[i - 1].vs <= cursor
    requires i < |log| ==> cursor < log[i].vs
    ensures Seen(log, cursor) == i
    decreases |log|
  {
    hide LegalAll, After;
    if i < |log| {
      if i < |log| - 1 { Increasing(log, i, |log| - 1); }
      SeenIs(log[..|log| - 1], cursor, i);
    }
  }

  lemma {:induction false} SeenSplits(log: seq<Txn>, cursor: nat)
    requires LegalLog(log)
    ensures var i := Seen(log, cursor);
            (i > 0 ==> log[i - 1].vs <= cursor) && (i < |log| ==> cursor < log[i].vs)
    decreases |log|
  {
    hide LegalAll, After;
    if log != [] && LastVs(log) > cursor { SeenSplits(log[..|log| - 1], cursor); }
  }

  lemma {:induction false} PendingFrom(log: seq<Txn>, cursor: nat, k: nat)
    requires LegalLog(log) && k <= Seen(log, cursor)
    ensures Pending(FeedOf(log)[k..], cursor) == FeedOf(log)[Seen(log, cursor)..]
    decreases Seen(log, cursor) - k
  {
    hide LegalLog, LegalAll, After, FeedOf, EntryOf, VersionOr;
    var i := Seen(log, cursor);
    SeenSplits(log, cursor);
    if k < |log| {
      FeedAt(log, k);
      PrefixLegal(log, k);
      EntryReads(log[k], After(log[..k]));
      assert FeedOf(log)[k..][0] == FeedOf(log)[k];
    }
    if k < i {
      if k < i - 1 { Increasing(log, k, i - 1); }
      PendingFrom(log, cursor, k + 1);
      assert FeedOf(log)[k..][1..] == FeedOf(log)[k + 1..];
    }
  }

  lemma PendingIs(log: seq<Txn>, cursor: nat)
    requires LegalLog(log)
    ensures Pending(FeedOf(log), cursor) == FeedOf(log)[Seen(log, cursor)..]
  {
    PendingFrom(log, cursor, 0);
    assert FeedOf(log)[0..] == FeedOf(log);
  }

  // ---- the invariant ----

  /** The maintained table is the one recomputed from the documents held at the cursor. */
  ghost predicate Maintained(h: Handler, log: seq<Txn>, t: Table, cursor: nat)
  {
    forall key: string, f: string :: CellAt(t, key, f) == Total(h, HeldAt(log, cursor), key, f)
  }

  lemma NothingMaintained(h: Handler, log: seq<Txn>)
    requires LegalLog(log)
    ensures Maintained(h, log, map[], 0) && Seen(log, 0) == 0
  {
    if log != [] { PrefixLegal(log, 0); }
    SeenIs(log, 0, 0);
    assert log[..0] == [];
  }

  lemma TotalAt(h: Handler, log: seq<Txn>, t: Table, cursor: nat, key: string, f: string)
    requires Maintained(h, log, t, cursor)
    ensures CellAt(t, key, f) == Total(h, After(log[..Seen(log, cursor)]), key, f)
  {}

  /** The commit of the `n` entries after the cursor, seen from the log. */
  lemma CommitIs(h: Handler, log: seq<Txn>, t: Table, cursor: nat, n: nat)
    requires LegalLog(log) && 0 < n <= |Pending(FeedOf(log), cursor)|
    ensures var i, k := Seen(log, cursor), TickOver(h, t, cursor, Pending(FeedOf(log), cursor)[..n]);
            i + n <= |log| &&
            (k.Ok? ==>
               && DecodeEntries([], 0, Pending(FeedOf(log), cursor)[..n]) == Ok((ChangesBetween(log, i, i + n), k.value.cursor))
               && k.value.changes == |ChangesBetween(log, i, i + n)|
               && cursor <= k.value.cursor == log[i + n - 1].vs && Seen(log, k.value.cursor) == i + n)
  {
    hide *;
    PendingIs(log, cursor);
    var i, batch := Seen(log, cursor), Pending(FeedOf(log), cursor)[..n];
    assert batch == FeedOf(log)[i..i + n];
    SegmentDecodes(log, i, i + n, [], 0);
    assert [] + ChangesBetween(log, i, i + n) == ChangesBetween(log, i, i + n);
    DecodedCommit(h, t, cursor, batch);
    SeenSplits(log, cursor);
    if n > 1 { Increasing(log, i, i + n - 1); }
    if i + n < |log| { Increasing(log, i + n - 1, i + n); }
    if TickOver(h, t, cursor, batch).Ok? { SeenIs(log, log[i + n - 1].vs, i + n); }
  }

  lemma CellKeeps(h: Handler, log: seq<Txn>, t: Table, cursor: nat, n: nat, key: string, f: string)
    requires LegalLog(log) && Maintained(h, log, t, cursor)
    requires 0 < n <= |Pending(FeedOf(log), cursor)|
    ensures var k := TickOver(h, t, cursor, Pending(FeedOf(log), cursor)[..n]);
            k.Ok? ==> CellAt(k.value.table, key, f) == Total(h, After(log[..Seen(log, k.value.cursor)]), key, f)
  {
    hide *;
    var i := Seen(log, cursor);
    CommitIs(h, log, t, cursor, n);
    TickAdds(h, t, cursor, Pending(FeedOf(log), cursor)[..n], key, f);
    TotalsDiffer(h, log, i, i + n, key, f);
    TotalAt(h, log, t, cursor, key, f);
  }

  /** Committing any batch that starts where the cursor stands keeps the table maintained. */
  lemma TickKeeps(h: Handler, log: seq<Txn>, t: Table, cursor: nat, n: nat)
    requires LegalLog(log) && Maintained(h, log, t, cursor)
    requires n <= |Pending(FeedOf(log), cursor)|
    ensures var k := TickOver(h, t, cursor, Pending(FeedOf(log), cursor)[..n]);
            k.Ok? ==> Maintained(h, log, k.value.table, k.value.cursor)
  {
    var batch := Pending(FeedOf(log), cursor)[..n];
    if n == 0 {
      NothingFetched(h, t, cursor);
      assert batch == [];
    } else {
      hide LegalLog, FeedOf, Pending, TickOver, CellAt, Total, After, Seen;
      var k := TickOver(h, t, cursor, batch);
      if k.Ok? {
        forall key: string, f: string
          ensures CellAt(k.value.table, key, f) == Total(h, HeldAt(log, k.value.cursor), key, f)
        {
          CellKeeps(h, log, t, cursor, n, key, f);
        }
      }
    }
  }

  lemma DecodedCommit(h: Handler, t: Table, cursor: nat, batch: seq<Value>)
    requires batch != []
    ensures var k, d := TickOver(h, t, cursor, batch), DecodeEntries([], 0, batch);
            k.Ok? ==> d.Ok? && k.value.cursor == d.value.1 && k.value.changes == |d.value.0|
  {}

  // ---- the pipeline ----

  /** Where the worker stands between the statements of a tick. */
  datatype Phase = Idle | CursorRead(cursor: nat) | Fetched(batch: seq<Value>)

  datatype State = State(log: seq<Txn>, table: Table, cursor: nat, phase: Phase)

  datatype Step =
    | Write(txn: Txn)
    | ReadCursor
    | Fetch(n: nat)
    | Commit
    | Crash
    | Recompute

  /** One atomic step. SHOW CHANGES ... LIMIT may serve any prefix of what is pending; a commit
      posts the deltas and moves the cursor together; a crash loses only the worker's memory. */
  ghost predicate Steps(h: Handler, s: State, step: Step, s': State)
  {
    match step
    case Write(txn) => LegalLog(s.log + [txn]) && s' == s.(log := s.log + [txn])
    case ReadCursor => s.phase.Idle? && s' == s.(phase := CursorRead(s.cursor))
    case Fetch(n) =>
      s.phase.CursorRead? && LegalLog(s.log)
      && var pending := Pending(FeedOf(s.log), s.phase.cursor);
         n <= |pending| && s' == s.(phase := Fetched(pending[..n]))
    case Commit =>
      s.phase.Fetched?
      && var k := TickOver(h, s.table, s.cursor, s.phase.batch);
         k.Ok? && s' == State(s.log, k.value.table, k.value.cursor, Idle)
    case Crash => s' == s.(phase := Idle)
    case Recompute => s.phase.Idle? && s' == State(s.log, map[], 0, Idle)
  }

  ghost predicate Run(h: Handler, states: seq<State>, steps: seq<Step>)
  {
    && |states| == |steps| + 1 && states[0] == State([], map[], 0, Idle)
    && forall i :: 0 <= i < |steps| ==> Steps(h, states[i], steps[i], states[i + 1])
  }

  ghost predicate Inv(h: Handler, s: State)
  {
    && LegalLog(s.log) && s.cursor <= LastVs(s.log)
    && Maintained(h, s.log, s.table, s.cursor)
    && (s.phase.CursorRead? ==> s.phase.cursor == s.cursor)
    && (s.phase.Fetched? ==> s.phase.batch <= Pending(FeedOf(s.log), s.cursor))
  }

  /** A new transaction changes neither what the cursor has seen nor what was pending before it. */
  lemma WriteKeeps(h: Handler, log: seq<Txn>, txn: Txn, cursor: nat)
    requires LegalLog(log) && LegalLog(log + [txn]) && cursor <= LastVs(log)
    ensures HeldAt(log + [txn], cursor) == HeldAt(log, cursor)
    ensures Pending(FeedOf(log), cursor) <= Pending(FeedOf(log + [txn]), cursor)
    ensures cursor <= LastVs(log + [txn])
  {
    var more := log + [txn];
    assert more[..|log|] == log && more[|log|] == txn;
    PrefixLegal(more, |log|);
    SeenSplits(log, cursor);
    hide LegalAll, After, Pending, EntryOf;
    var i := Seen(log, cursor);
    SeenIs(more, cursor, i);
    assert more[..i] == log[..i];
    PendingIs(log, cursor);
    PendingIs(more, cursor);
    assert FeedOf(more)[..|log|] == FeedOf(log);
  }

  lemma StepKeeps(h: Handler, s: State, step: Step, s': State)
    requires Inv(h, s) && Steps(h, s, step, s')
    ensures Inv(h, s')
  {
    match step
    case Write(txn) =>
      WriteKeeps(h, s.log, txn, s.cursor);
      hide LegalLog, FeedOf, Pending, LastVs, HeldAt;
    case Commit =>
      var n := |s.phase.batch|;
      assert s.phase.batch == Pending(FeedOf(s.log), s.cursor)[..n];
      TickKeeps(h, s.log, s.table, s.cursor, n);
      CommitBound(h, s.log, s.table, s.cursor, n);
      hide LegalLog, FeedOf, Pending, TickOver, Maintained, LastVs;
    case Recompute =>
      NothingMaintained(h, s.log);
    case Fetch(n) =>
    case ReadCursor =>
    case Crash =>
  }

  lemma CommitBound(h: Handler, log: seq<Txn>, t: Table, cursor: nat, n: nat)
    requires LegalLog(log) && n <= |Pending(FeedOf(log), cursor)| && cursor <= LastVs(log)
    ensures var k := TickOver(h, t, cursor, Pending(FeedOf(log), cursor)[..n]);
            k.Ok? ==> k.value.cursor <= LastVs(log)
  {
    hide LegalLog, FeedOf, Pending, TickOver, Seen, ChangesBetween, DecodeEntries;
    if n == 0 {
      NothingFetched(h, t, cursor);
      assert Pending(FeedOf(log), cursor)[..n] == [];
    } else {
      CommitIs(h, log, t, cursor, n);
      var i := Seen(log, cursor);
      if i + n < |log| { Increasing(log, i + n - 1, |log| - 1); }
    }
  }

  lemma {:induction false} RunKeeps(h: Handler, states: seq<State>, steps: seq<Step>, i: nat)
    requires Run(h, states, steps) && i < |states|
    ensures Inv(h, states[i])
  {
    if i == 0 {
      NothingMaintained(h, []);
    } else {
      hide Inv, Steps;
      RunKeeps(h, states, steps, i - 1);
      StepKeeps(h, states[i - 1], steps[i - 1], states[i]);
    }
  }

  /** In every reachable state, whatever was written, replayed, lost or reset, each column is the
      sum of the shares of the documents the source held at the cursor's versionstamp. */
  lemma AlwaysMaintained(h: Handler, states: seq<State>, steps: seq<Step>, i: nat, key: string, f: string)
    requires Run(h, states, steps) && i < |states|
    ensures var s := states[i];
            CellAt(s.table, key, f) == Total(h, HeldAt(s.log, s.cursor), key, f)
  {
    RunKeeps(h, states, steps, i);
  }

  /** Two workers over one log, one of them reset in its past, agree wherever they stand on the
      same versionstamp: recomputing and catching up gives the incremental table back. */
  lemma RecomputeAgrees(h: Handler, ss: seq<State>, xs: seq<Step>, rs: seq<State>, ys: seq<Step>, key: string, f: string)
    requires Run(h, ss, xs) && Run(h, rs, ys)
    requires ss[|xs|].log == rs[|ys|].log && ss[|xs|].cursor == rs[|ys|].cursor
    ensures CellAt(ss[|xs|].table, key, f) == CellAt(rs[|ys|].table, key, f)
  {
    AlwaysMaintained(h, ss, xs, |xs|, key, f);
    AlwaysMaintained(h, rs, ys, |ys|, key, f);
  }

  // ---- drain ----

  predicate Real(txn: Txn) { exists k :: 0 <= k < |txn.muts| && !txn.muts[k].DefineTable? }

  /** Some full batch of a drain that starts at entry `i` holds nothing but table definitions,
      and more entries follow it. */
  ghost predicate Stalls(log: seq<Txn>, i: nat)
    decreases |log| - i
  {
    var next := i + DRAIN_LIMIT;
    next < |log| && ((forall j :: i <= j < next ==> !Real(log[j])) || Stalls(log, next))
  }

  lemma {:induction false} ChangesOfReal(ms: seq<Mutation>, src: Source)
    requires LegalAll(ms, src)
    ensures ChangesOf(ms, src) == [] <==> forall k :: 0 <= k < |ms| ==> ms[k].DefineTable?
    decreases |ms|
  {
    if ms != [] {
      var rest := ms[1..];
      ChangesOfReal(rest, Next(ms[0], src));
      assert forall k :: 0 <= k < |rest| ==> rest[k] == ms[k + 1];
      if forall k :: 0 <= k < |rest| ==> rest[k].DefineTable? {
        forall k | 0 < k < |ms| ensures ms[k].DefineTable? { assert ms[k] == rest[k - 1]; }
      }
    }
  }

  lemma {:induction false} NothingBetween(log: seq<Txn>, i: nat, j: nat)
    requires LegalLog(log) && i <= j <= |log|
    ensures ChangesBetween(log, i, j) == [] <==> forall k :: i <= k < j ==> !Real(log[k])
    decreases j - i
  {
    BetweenStep(log, i, j);
    if i < j {
      hide LegalLog, LegalAll, After, ChangesOf, ChangesBetween;
      ChangesOfReal(log[i].muts, After(log[..i]));
      NothingBetween(log, i + 1, j);
    }
  }

  /** One turn of a drain over the entries from `Seen` on. */
  lemma DrainTurn(h: Handler, log: seq<Txn>, t: Table, cursor: nat)
    requires LegalLog(log) && Maintained(h, log, t, cursor)
    ensures var pending := Pending(FeedOf(log), cursor);
            var batch, i := Take(pending, DRAIN_LIMIT), Seen(log, cursor);
            var n, k := |batch|, TickOver(h, t, cursor, batch);
            && n == (if |log| - i <= DRAIN_LIMIT then |log| - i else DRAIN_LIMIT)
            && (k.Ok? ==>
                  && Maintained(h, log, k.value.table, k.value.cursor)
                  && Seen(log, k.value.cursor) == i + n && Pending(FeedOf(log), k.value.cursor) == pending[n..]
                  && (k.value.changes == 0 <==> forall j :: i <= j < i + n ==> !Real(log[j])))
  {
    hide LegalLog, FeedOf, Pending, TickOver, Maintained, Seen, ChangesBetween, Real;
    PendingIs(log, cursor);
    var pending := Pending(FeedOf(log), cursor);
    var batch, i := Take(pending, DRAIN_LIMIT), Seen(log, cursor);
    var n, k := |batch|, TickOver(h, t, cursor, batch);
    assert batch == pending[..n];
    TickKeeps(h, log, t, cursor, n);
    if n == 0 {
      NothingFetched(h, t, cursor);
      assert batch == [];
    } else {
      CommitIs(h, log, t, cursor, n);
      NothingBetween(log, i, i + n);
    }
    if k.Ok? {
      PendingIs(log, k.value.cursor);
      assert FeedOf(log)[i + n..] == pending[n..];
    }
  }

  /** A drain keeps the table maintained; when no error stops it, it has caught up unless a full
      batch of table definitions made it stop early, and then it has not. */
  lemma {:induction false} DrainCatchesUp(h: Handler, log: seq<Txn>, t: Table, cursor: nat, total: nat)
    requires LegalLog(log) && Maintained(h, log, t, cursor)
    ensures var d := DrainOver(h, t, cursor, total, Pending(FeedOf(log), cursor));
            && Maintained(h, log, d.table, d.cursor) && Pending(FeedOf(log), d.cursor) == d.rest
            && (d.error == None ==> (d.rest == [] <==> !Stalls(log, Seen(log, cursor))))
    decreases |log| - Seen(log, cursor)
  {
    hide *;
    var pending := Pending(FeedOf(log), cursor);
    var batch, i := Take(pending, DRAIN_LIMIT), Seen(log, cursor);
    DrainTurn(h, log, t, cursor);
    DrainUnfold(h, t, cursor, total, pending);
    PendingIs(log, cursor);
    StallsCases(log, i);
    var k := TickOver(h, t, cursor, batch);
    if k.Ok? && k.value.changes != 0 {
      DrainCatchesUp(h, log, k.value.table, k.value.cursor, total + k.value.changes);
      StallsCases(log, i + |batch|);
    }
  }

  lemma StallsCases(log: seq<Txn>, i: nat)
    ensures i + DRAIN_LIMIT >= |log| ==> !Stalls(log, i)
    ensures i + DRAIN_LIMIT < |log| ==>
              (Stalls(log, i) <==> (forall j :: i <= j < i + DRAIN_LIMIT ==> !Real(log[j])) || Stalls(log, i + DRAIN_LIMIT))
  {
    hide Real;
  }

  /** `recompute_from_source` on a complete feed: unless it stalls, the table it leaves is the
      sum over every document the source holds now. */
  lemma RecomputeCatchesUp(h: Handler, log: seq<Txn>, key: string, f: string)
    requires LegalLog(log)
    ensures var d := DrainOver(h, map[], 0, 0, FeedOf(log));
            d.error == None && !Stalls(log, 0) ==> CellAt(d.table, key, f) == Total(h, After(log), key, f)
  {
    hide LegalLog, FeedOf, TickOver, Real, Stalls, CellAt, Total, After, DrainOver;
    NothingMaintained(h, log);
    PendingIs(log, 0);
    assert FeedOf(log)[0..] == FeedOf(log);
    DrainCatchesUp(h, log, map[], 0, 0);
    var d := DrainOver(h, map[], 0, 0, FeedOf(log));
    PendingIs(log, d.cursor);
    if d.error == None && d.rest == [] {
      assert Seen(log, d.cursor) == |log|;
      assert log[..|log|] == log;
    }
  }

  function Definitions(n: nat): (log: seq<Txn>)
    ensures |log| == n
  {
    if n == 0 then [] else Definitions(n - 1) + [Txn(n, [DefineTable])]
  }

  lemma {:induction false} DefinitionsLegal(n: nat)
    requires n <= USIZE_MAX
    ensures LegalLog(Definitions(n)) && LastVs(Definitions(n)) == n && After(Definitions(n)) == map[]
    ensures forall k :: 0 <= k < n ==> !Real(Definitions(n)[k])
  {
    if n > 0 {
      DefinitionsLegal(n - 1);
      DefinitionReal(n);
      TxnAppends(Definitions(n - 1), n, [DefineTable]);
      hide LegalLog, After, Real;
    }
  }

  lemma DefinitionReal(n: nat)
    ensures !Real(Txn(n, [DefineTable])) && LegalAll([DefineTable], map[]) && NextAll([DefineTable], map[]) == map[]
  {
    assert [DefineTable][1..] == [];
  }

  lemma TxnAppends(log: seq<Txn>, vs: nat, muts: seq<Mutation>)
    requires LegalLog(log) && LastVs(log) < vs <= USIZE_MAX && LegalAll(muts, After(log))
    ensures LegalLog(log + [Txn(vs, muts)]) && LastVs(log + [Txn(vs, muts)]) == vs
    ensures After(log + [Txn(vs, muts)]) == NextAll(muts, After(log))
  {
    var more := log + [Txn(vs, muts)];
    assert more[..|log|] == log;
    hide LegalAll, NextAll;
  }

  /** Catching up can fail: a thousand table definitions hide the document that follows them. */
  lemma DrainMisses(h: Handler, doc: Value)
    requires doc.Obj?
    ensures var log := Definitions(DRAIN_LIMIT) + [Txn(DRAIN_LIMIT + 1, [Create("a", doc)])];
            LegalLog(log) && Stalls(log, 0)
            && var d := DrainOver(h, map[], 0, 0, FeedOf(log));
               d.error == None && d.table == map[] && d.rest != []
  {
    hide *;
    Limits();
    var before := Definitions(DRAIN_LIMIT);
    var log := before + [Txn(DRAIN_LIMIT + 1, [Create("a", doc)])];
    DefinitionsLegal(DRAIN_LIMIT);
    CreateAppends(before, DRAIN_LIMIT + 1, doc);
    var feed := FeedOf(log);
    forall k | 0 <= k < DRAIN_LIMIT ensures !Real(log[k]) { assert log[k] == before[k]; }
    StallsCases(log, 0);
    var batch := Take(feed, DRAIN_LIMIT);
    FirstBatch(feed);
    SegmentDecodes(log, 0, DRAIN_LIMIT, [], 0);
    NothingBetween(log, 0, DRAIN_LIMIT);
    NothingDecoded(h, batch);
    DrainUnfold(h, map[], 0, 0, feed);
  }

  lemma Limits()
    ensures 0 < DRAIN_LIMIT < USIZE_MAX
  {}

  lemma FirstBatch(feed: seq<Value>)
    requires |feed| > DRAIN_LIMIT
    ensures Take(feed, DRAIN_LIMIT) == feed[0..DRAIN_LIMIT]
  {}

  lemma NothingDecoded(h: Handler, batch: seq<Value>)
    requires batch != [] && DecodeEntries([], 0, batch).Ok? && DecodeEntries([], 0, batch).value.0 == []
    ensures TickOver(h, map[], 0, batch) == Ok(Ticked(map[], DecodeEntries([], 0, batch).value.1, 0))
  {
    hide DecodeEntries;
    PostNothing(map[]);
  }

  lemma CreateAppends(log: seq<Txn>, vs: nat, doc: Value)
    requires LegalLog(log) && After(log) == map[] && doc.Obj? && LastVs(log) < vs <= USIZE_MAX
    ensures LegalLog(log + [Txn(vs, [Create("a", doc)])])
  {
    assert [Create("a", doc)][1..] == [];
    assert LegalAll([Create("a", doc)], map[]);
    hide LegalLog, After, LegalAll;
    TxnAppends(log, vs, [Create("a", doc)]);
  }
}
