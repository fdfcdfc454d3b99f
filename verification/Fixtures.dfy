/** Fixture ownership (rest.rs): which app ships a row, what planning finds, what applying leaves. */
module Fixtures {
  import opened Wrappers
  import opened Collections
  import opened Json
  import opened Utf8

  // ---- provenance ids ----

  function HexByte(b: byte): (s: string)
    ensures |s| == 2 && s[0] != '_' && s[1] != '_'
  {
    [HEX_LOWER[b / 16], HEX_LOWER[b % 16]]
  }

  function HexBytes(bs: seq<byte>): string
  {
    if bs == [] then "" else HexByte(bs[0]) + HexBytes(bs[1..])
  }

  function ProvenanceId(doctype: string, key: string): string
  {
    HexBytes(ToUtf8(doctype)) + "_" + HexBytes(ToUtf8(key))
  }

  /** The buffer the code pushes onto. */
  method BuildId(doctype: string, key: string) returns (out: string)
    ensures out == ProvenanceId(doctype, key)
  {
    out := PushHex("", ToUtf8(doctype));
    assert "" + HexBytes(ToUtf8(doctype)) == HexBytes(ToUtf8(doctype));
    out := out + "_";
    out := PushHex(out, ToUtf8(key));
  }

  method PushHex(start: string, bs: seq<byte>) returns (out: string)
    ensures out == start + HexBytes(bs)
  {
    out := start;
    assert bs[0..] == bs;
    for i := 0 to |bs|
      invariant start + HexBytes(bs) == out + HexBytes(bs[i..])
    {
      assert bs[i..][0] == bs[i] && bs[i..][1..] == bs[i + 1..];
      assert out + (HexByte(bs[i]) + HexBytes(bs[i + 1..])) == (out + HexByte(bs[i])) + HexBytes(bs[i + 1..]);
      out := out + HexByte(bs[i]);
    }
    assert bs[|bs|..] == [];
    assert out + "" == out;
  }

  lemma HexByteInjective(a: byte, b: byte)
    requires HexByte(a) == HexByte(b)
    ensures a == b
  {
    HexLowerValue(a / 16);
    HexLowerValue(b / 16);
    HexLowerValue(a % 16);
    HexLowerValue(b % 16);
    assert HexByte(a)[0] == HexByte(b)[0] && HexByte(a)[1] == HexByte(b)[1];
  }

  /** Hex text up to an underscore determines the bytes and what follows. */
  lemma {:induction false} HexSplits(a: seq<byte>, b: seq<byte>, x: string, y: string)
    requires HexBytes(a) + ("_" + x) == HexBytes(b) + ("_" + y)
    ensures a == b && x == y
  {
    var s, t := HexBytes(a) + ("_" + x), HexBytes(b) + ("_" + y);
    if a == [] || b == [] {
      assert s[0] == t[0];
      assert a == b;
      assert s == "_" + x && t == "_" + y;
      assert s[1..] == x && t[1..] == y;
    } else {
      var p, q := HexBytes(a[1..]) + ("_" + x), HexBytes(b[1..]) + ("_" + y);
      assert s == HexByte(a[0]) + p && t == HexByte(b[0]) + q;
      assert s[..2] == HexByte(a[0]) && t[..2] == HexByte(b[0]) && s[2..] == p && t[2..] == q;
      HexByteInjective(a[0], b[0]);
      HexSplits(a[1..], b[1..], x, y);
      assert a == [a[0]] + a[1..] && b == [b[0]] + b[1..];
    }
  }

  lemma {:induction false} HexInjective(a: seq<byte>, b: seq<byte>)
    requires HexBytes(a) == HexBytes(b)
    ensures a == b
  {
    if a != [] && b != [] {
      var p, q := HexBytes(a[1..]), HexBytes(b[1..]);
      assert HexBytes(a)[..2] == HexByte(a[0]) && HexBytes(b)[..2] == HexByte(b[0]);
      assert HexBytes(a)[2..] == p && HexBytes(b)[2..] == q;
      HexByteInjective(a[0], b[0]);
      HexInjective(a[1..], b[1..]);
      assert a == [a[0]] + a[1..] && b == [b[0]] + b[1..];
    }
  }

  /** Two rows never share a provenance record. */
  lemma IdsDistinct(doctype: string, key: string, doctype': string, key': string)
    requires ProvenanceId(doctype, key) == ProvenanceId(doctype', key')
    ensures doctype == doctype' && key == key'
  {
    hide HexBytes, ToUtf8, FromUtf8;
    var (d, k, d', k') := (ToUtf8(doctype), ToUtf8(key), ToUtf8(doctype'), ToUtf8(key'));
    assert HexBytes(d) + "_" + HexBytes(k) == HexBytes(d) + ("_" + HexBytes(k));
    assert HexBytes(d') + "_" + HexBytes(k') == HexBytes(d') + ("_" + HexBytes(k'));
    HexSplits(d, d', HexBytes(k), HexBytes(k'));
    HexInjective(k, k');
    Utf8RoundTrip(doctype);
    Utf8RoundTrip(doctype');
    Utf8RoundTrip(key);
    Utf8RoundTrip(key');
  }

  // ---- the store ----

  type Row = map<string, Value>

  /** A row's address. */
  type Rid = (string, string)

  datatype Provenance = Provenance(app: string, shipped: Row, active: bool)

  datatype Store = Store(rows: map<Rid, Row>, provenance: map<string, Provenance>)

  datatype Fixture = Fixture(doctype: string, key: string, values: Row)

  datatype Manifest = Manifest(name: string, fixtures: seq<Fixture>)

  function RidOf(f: Fixture): Rid { (f.doctype, f.key) }

  function IdOf(f: Fixture): string { ProvenanceId(f.doctype, f.key) }

  /** What manifest validation demands of the fixtures: none declared twice. */
  predicate Validated(m: Manifest)
  {
    forall i, j :: 0 <= i < j < |m.fixtures| ==> RidOf(m.fixtures[i]) != RidOf(m.fixtures[j])
  }

  // ---- planning ----

  datatype Action = Create | Adopt | Refresh | ReAdopt

  datatype Verdict = Ambiguous(owner: string) | Planned(action: Action, overwrites: bool)

  function PlanOne(s: Store, app: string, f: Fixture): Verdict
  {
    var current, owned := Find(s.rows, RidOf(f)), Find(s.provenance, IdOf(f));
    if owned.Some? && owned.value.app != app then Ambiguous(owned.value.app)
    else if owned.Some? then
      Planned(if owned.value.active then Refresh else ReAdopt, current != Some(owned.value.shipped))
    else Planned(if current.Some? then Adopt else Create, current.Some?)
  }

  datatype Plan = Refused(ambiguous: seq<Fixture>) | Plan(rows: seq<(Fixture, Action)>, overwrites: seq<Fixture>)

  /** Fixtures sorted into refusals, rows and overwrites, in manifest order. */
  datatype Sorted = Sorted(ambiguous: seq<Fixture>, rows: seq<(Fixture, Action)>, overwrites: seq<Fixture>)

  function Sort(s: Store, app: string, fs: seq<Fixture>): Sorted
  {
    if fs == [] then Sorted([], [], [])
    else
      var n := |fs| - 1;
      var before := Sort(s, app, fs[..n]);
      match PlanOne(s, app, fs[n])
      case Ambiguous(_) => before.(ambiguous := before.ambiguous + [fs[n]])
      case Planned(action, overwrites) =>
        before.(rows := before.rows + [(fs[n], action)],
                overwrites := if overwrites then before.overwrites + [fs[n]] else before.overwrites)
  }

  function PlanOf(s: Store, m: Manifest): Plan
  {
    var sorted := Sort(s, m.name, m.fixtures);
    if sorted.ambiguous != [] then Refused(sorted.ambiguous) else Plan(sorted.rows, sorted.overwrites)
  }

  // ---- applying ----

  const ENGINE_COLUMNS: set<string> := {"owner", "status", "docstatus"}

  /** A column kept from the shipped state when the fixture does not name it. */
  function Restored(values: Row, column: string, shipped: Option<Row>): Row
  {
    if column !in values && shipped.Some? && column in shipped.value then values[column := shipped.value[column]]
    else values
  }

  /** UPSERT ... MERGE: null removes. */
  function Merged(row: Row, values: Row): Row
  {
    map c | c in row.Keys + values.Keys && !(c in values && values[c].Null?) :: (if c in values then values[c] else row[c])
  }

  /** Columns of the row before that the fixture does not name are set to NONE. */
  function Cleared(row: Row, before: Option<Row>, values: Row): Row
  {
    map c | c in row && !(before.Some? && c in before.value && c !in ENGINE_COLUMNS && c !in values) :: row[c]
  }

  function Written(before: Option<Row>, shipped: Option<Row>, values: Row): Row
  {
    var all := Restored(Restored(values, "status", shipped), "docstatus", shipped);
    Cleared(Merged(if before.Some? then before.value else map[], all), before, values)
  }

  function ShippedBefore(s: Store, f: Fixture): Option<Row>
  {
    var owned := Find(s.provenance, IdOf(f));
    if owned.Some? then Some(owned.value.shipped) else None
  }

  /** Claim if unclaimed, write the row, record it as shipped. */
  function ApplyOne(s: Store, app: string, f: Fixture): Result<Store, string>
  {
    var owned := Find(s.provenance, IdOf(f));
    if owned.Some? && owned.value.app != app then Err(owned.value.app)
    else
      var row := Written(Find(s.rows, RidOf(f)), ShippedBefore(s, f), f.values);
      Ok(Store(s.rows[RidOf(f) := row], s.provenance[IdOf(f) := Provenance(app, row, true)]))
  }

  function ApplyAll(s: Store, app: string, fs: seq<Fixture>): Result<Store, string>
    decreases |fs|
  {
    if fs == [] then Ok(s)
    else
      match ApplyOne(s, app, fs[0])
      case Err(owner) => Err(owner)
      case Ok(next) => ApplyAll(next, app, fs[1..])
  }

  /** The store when applying ends: behind the last fixture, or before the first foreign one. */
  function AppliedUntil(s: Store, app: string, fs: seq<Fixture>): Store
    decreases |fs|
  {
    if fs == [] || ApplyOne(s, app, fs[0]).Err? then s
    else AppliedUntil(ApplyOne(s, app, fs[0]).value, app, fs[1..])
  }

  /** `orphan_app_fixtures` at uninstall. */
  function OrphanApp(s: Store, app: string): Store
  {
    s.(provenance := map id | id in s.provenance ::
        if s.provenance[id].app == app then s.provenance[id].(active := false) else s.provenance[id])
  }

  function Orphan(s: Store, id: string): Store
  {
    if id in s.provenance then s.(provenance := s.provenance[id := s.provenance[id].(active := false)]) else s
  }

  predicate Declares(m: Manifest, f: Fixture) { exists i :: 0 <= i < |m.fixtures| && RidOf(m.fixtures[i]) == RidOf(f) }

  function OrphanRemoved(s: Store, previous: seq<Fixture>, next: Manifest): Store
    decreases |previous|
  {
    if previous == [] then s
    else OrphanRemoved(if Declares(next, previous[0]) then s else Orphan(s, IdOf(previous[0])), previous[1..], next)
  }

  class Tenant {
    var store: Store

    constructor (s: Store)
      ensures store == s
    {
      store := s;
    }

    method PlanFixtures(m: Manifest) returns (plan: Plan)
      ensures plan == PlanOf(store, m)
    {
      var sorted := Sorted([], [], []);
      var fs := m.fixtures;
      for i := 0 to |fs|
        invariant sorted == Sort(store, m.name, fs[..i])
      {
        assert fs[..i + 1][..i] == fs[..i];
        match PlanOne(store, m.name, fs[i]) {
          case Ambiguous(_) => sorted := sorted.(ambiguous := sorted.ambiguous + [fs[i]]);
          case Planned(action, overwrites) =>
            sorted := sorted.(rows := sorted.rows + [(fs[i], action)]);
            if overwrites { sorted := sorted.(overwrites := sorted.overwrites + [fs[i]]); }
        }
      }
      assert fs[..|fs|] == fs;
      return if sorted.ambiguous != [] then Refused(sorted.ambiguous) else Plan(sorted.rows, sorted.overwrites);
    }

    /** Fixture by fixture; a refusal stops it with the earlier ones applied. */
    method ApplyFixtures(m: Manifest) returns (refused: Option<string>)
      modifies this
      ensures store == AppliedUntil(old(store), m.name, m.fixtures)
      ensures var r := ApplyAll(old(store), m.name, m.fixtures);
              if r.Ok? then refused == None && store == r.value else refused == Some(r.error)
    {
      hide ApplyOne;
      var fs := m.fixtures;
      assert fs[0..] == fs;
      for i := 0 to |fs|
        invariant ApplyAll(old(store), m.name, fs) == ApplyAll(store, m.name, fs[i..])
        invariant AppliedUntil(old(store), m.name, fs) == AppliedUntil(store, m.name, fs[i..])
      {
        assert fs[i..][0] == fs[i] && fs[i..][1..] == fs[i + 1..];
        var next := ApplyOne(store, m.name, fs[i]);
        if next.Err? { return Some(next.error); }
        store := next.value;
      }
      assert fs[|fs|..] == [];
      return None;
    }

    method OrphanRemovedFixtures(previous: Manifest, next: Manifest)
      modifies this
      ensures store == OrphanRemoved(old(store), previous.fixtures, next)
    {
      var fs := previous.fixtures;
      assert fs[0..] == fs;
      for i := 0 to |fs|
        invariant OrphanRemoved(old(store), fs, next) == OrphanRemoved(store, fs[i..], next)
      {
        assert fs[i..][0] == fs[i] && fs[i..][1..] == fs[i + 1..];
        if !Declares(next, fs[i]) { store := Orphan(store, IdOf(fs[i])); }
      }
      assert fs[|fs|..] == [];
    }
  }

  /** Where applying stops: the fixtures before a foreign one are all applied, from it on none; and
      without a foreign one, all of them. */
  lemma {:induction false} StopsAtForeign(s: Store, app: string, fs: seq<Fixture>) returns (n: nat)
    ensures n <= |fs| && ApplyAll(s, app, fs[..n]) == Ok(AppliedUntil(s, app, fs))
    ensures n < |fs| ==> ApplyOne(AppliedUntil(s, app, fs), app, fs[n]).Err?
    ensures ApplyAll(s, app, fs).Ok? <==> n == |fs|
    decreases |fs|
  {
    hide ApplyOne;
    if fs == [] || ApplyOne(s, app, fs[0]).Err? {
      n := 0;
    } else {
      var rest := StopsAtForeign(ApplyOne(s, app, fs[0]).value, app, fs[1..]);
      n := rest + 1;
      assert fs[..n][1..] == fs[1..][..rest];
    }
  }

  predicate Dropped(previous: seq<Fixture>, next: Manifest, id: string)
  {
    exists i :: 0 <= i < |previous| && IdOf(previous[i]) == id && !Declares(next, previous[i])
  }

  /** Orphaning per record: exactly the provenance of fixtures the next manifest no longer declares
      becomes inactive; owners, shipped states and rows stay. */
  lemma {:induction false} OrphanRemovedIs(s: Store, previous: seq<Fixture>, next: Manifest)
    ensures var t := OrphanRemoved(s, previous, next);
            && t.rows == s.rows && t.provenance.Keys == s.provenance.Keys
            && forall id <- s.provenance ::
                 t.provenance[id] == if Dropped(previous, next, id) then s.provenance[id].(active := false) else s.provenance[id]
    decreases |previous|
  {
    hide Declares, ProvenanceId;
    if previous != [] {
      var f, rest := previous[0], previous[1..];
      var mid := if Declares(next, f) then s else Orphan(s, IdOf(f));
      OrphanRemovedIs(mid, rest, next);
      forall id ensures Dropped(previous, next, id) <==> (IdOf(f) == id && !Declares(next, f)) || Dropped(rest, next, id) {
        if Dropped(rest, next, id) {
          var i :| 0 <= i < |rest| && IdOf(rest[i]) == id && !Declares(next, rest[i]);
          assert previous[i + 1] == rest[i];
        }
        if i :| 0 < i < |previous| && IdOf(previous[i]) == id && !Declares(next, previous[i]) {
          assert rest[i - 1] == previous[i];
        }
      }
      hide Dropped;
    }
  }

  // ---- planning after applying ----

  /** The row is in its shipped state, owned by `app`. */
  predicate Settled(s: Store, app: string, f: Fixture, active: bool)
  {
    var owned := Find(s.provenance, IdOf(f));
    owned.Some? && owned.value.app == app && owned.value.active == active && Find(s.rows, RidOf(f)) == Some(owned.value.shipped)
  }

  lemma ApplySettles(s: Store, app: string, f: Fixture)
    requires ApplyOne(s, app, f).Ok?
    ensures Settled(ApplyOne(s, app, f).value, app, f, true)
  {
    hide Written, ProvenanceId;
  }

  /** Applying another row leaves this one settled. */
  lemma ApplyKeeps(s: Store, app: string, f: Fixture, g: Fixture)
    requires Settled(s, app, f, true) && RidOf(f) != RidOf(g) && ApplyOne(s, app, g).Ok?
    ensures Settled(ApplyOne(s, app, g).value, app, f, true)
  {
    if IdOf(f) == IdOf(g) { IdsDistinct(f.doctype, f.key, g.doctype, g.key); }
    hide Written, ProvenanceId;
  }

  lemma {:induction false} AllSettled(s: Store, app: string, fs: seq<Fixture>, f: Fixture)
    requires ApplyAll(s, app, fs).Ok? && Validated(Manifest(app, fs))
    ensures f in fs ==> Settled(ApplyAll(s, app, fs).value, app, f, true)
    ensures Settled(s, app, f, true) && (forall i :: 0 <= i < |fs| ==> RidOf(fs[i]) != RidOf(f)) ==>
              Settled(ApplyAll(s, app, fs).value, app, f, true)
    decreases |fs|
  {
    if fs != [] {
      hide ApplyOne, Settled, RidOf;
      var next, tail := ApplyOne(s, app, fs[0]).value, fs[1..];
      assert forall i :: 0 <= i < |tail| ==> tail[i] == fs[i + 1];
      AllSettled(next, app, tail, f);
      ApplySettles(s, app, fs[0]);
      assert f in fs ==> f == fs[0] || f in tail;
      if Settled(s, app, f, true) && RidOf(fs[0]) != RidOf(f) { ApplyKeeps(s, app, f, fs[0]); }
    }
  }

  lemma {:induction false} SortSettled(s: Store, app: string, fs: seq<Fixture>, active: bool)
    requires forall i :: 0 <= i < |fs| ==> Settled(s, app, fs[i], active)
    ensures Sort(s, app, fs).ambiguous == [] && Sort(s, app, fs).overwrites == []
    ensures Sort(s, app, fs).rows == seq(|fs|, i requires 0 <= i < |fs| => (fs[i], if active then Refresh else ReAdopt))
  {
    if fs != [] {
      hide ProvenanceId;
      SortSettled(s, app, fs[..|fs| - 1], active);
      assert Settled(s, app, fs[|fs| - 1], active);
    }
  }

  /** Right after a validated manifest was applied, planning it again finds every row its own, up to
      date, and nothing to overwrite. */
  lemma ReplanQuiet(s: Store, m: Manifest)
    requires Validated(m) && ApplyAll(s, m.name, m.fixtures).Ok?
    ensures var fs := m.fixtures;
            PlanOf(ApplyAll(s, m.name, fs).value, m) == Plan(seq(|fs|, i requires 0 <= i < |fs| => (fs[i], Refresh)), [])
  {
    var after := ApplyAll(s, m.name, m.fixtures).value;
    assert Validated(Manifest(m.name, m.fixtures));
    forall i | 0 <= i < |m.fixtures| ensures Settled(after, m.name, m.fixtures[i], true) {
      AllSettled(s, m.name, m.fixtures, m.fixtures[i]);
    }
    SortSettled(after, m.name, m.fixtures, true);
  }

  /** Uninstalling keeps the rows and their owner: installing again re-adopts every one of them and,
      without edits in between, overwrites nothing. */
  lemma ReAdoptQuiet(s: Store, m: Manifest)
    requires Validated(m) && ApplyAll(s, m.name, m.fixtures).Ok?
    ensures var fs := m.fixtures;
            PlanOf(OrphanApp(ApplyAll(s, m.name, fs).value, m.name), m)
            == Plan(seq(|fs|, i requires 0 <= i < |fs| => (fs[i], ReAdopt)), [])
  {
    var after := ApplyAll(s, m.name, m.fixtures).value;
    assert Validated(Manifest(m.name, m.fixtures));
    forall i | 0 <= i < |m.fixtures| ensures Settled(OrphanApp(after, m.name), m.name, m.fixtures[i], false) {
      AllSettled(s, m.name, m.fixtures, m.fixtures[i]);
    }
    SortSettled(OrphanApp(after, m.name), m.name, m.fixtures, false);
  }

  /** A row just applied has, besides the engine's columns, exactly the fixture's values. */
  lemma AppliedRow(before: Option<Row>, shipped: Option<Row>, values: Row, c: string)
    requires c !in ENGINE_COLUMNS
    ensures var row := Written(before, shipped, values);
            if c in values && !values[c].Null? then c in row && row[c] == values[c] else c !in row
  {}

  /** The lifecycle columns come from the fixture, failing that from what was shipped before, failing
      that from the row as it was. */
  lemma AppliedEngineColumns(before: Option<Row>, shipped: Option<Row>, values: Row, c: string)
    requires c == "status" || c == "docstatus"
    ensures var source := if c in values then values
                          else if shipped.Some? && c in shipped.value then shipped.value
                          else if before.Some? then before.value else map[];
            var row := Written(before, shipped, values);
            if c in source && !(source[c].Null? && (c in values || (shipped.Some? && c in shipped.value)))
            then c in row && row[c] == source[c] else c !in row
  {
    assert |"status"| == 6 && |"docstatus"| == 9;
  }

  lemma SortLast(s: Store, app: string, fs: seq<Fixture>)
    requires fs != []
    ensures var (before, last) := (Sort(s, app, fs[..|fs| - 1]), PlanOne(s, app, fs[|fs| - 1]));
            && (Sort(s, app, fs).ambiguous == [] <==> before.ambiguous == [] && last.Planned?)
            && (Sort(s, app, fs).overwrites == [] <==> before.overwrites == [] && !(last.Planned? && last.overwrites))
  {
    hide PlanOne;
  }

  lemma {:induction false} SortFinds(s: Store, app: string, fs: seq<Fixture>)
    ensures Sort(s, app, fs).ambiguous == [] <==> forall i :: 0 <= i < |fs| ==> PlanOne(s, app, fs[i]).Planned?
    ensures Sort(s, app, fs).overwrites == [] <==>
            forall i :: 0 <= i < |fs| ==> !(PlanOne(s, app, fs[i]).Planned? && PlanOne(s, app, fs[i]).overwrites)
  {
    hide PlanOne;
    if fs != [] {
      SortLast(s, app, fs);
      hide Sort;
      var n := |fs| - 1;
      SortFinds(s, app, fs[..n]);
      assert forall i :: 0 <= i < n ==> fs[..n][i] == fs[i];
    }
  }

  /** The row is nobody's yet, or this app's in the state it shipped. */
  predicate Untouched(s: Store, app: string, f: Fixture)
  {
    var current, owned := Find(s.rows, RidOf(f)), Find(s.provenance, IdOf(f));
    if owned.None? then current.None? else owned.value.app == app && current == Some(owned.value.shipped)
  }

  /** A plan asks for no acknowledgement exactly when no row it would write holds anything but what
      this app last shipped there. */
  lemma QuietPlanIsSafe(s: Store, m: Manifest)
    ensures PlanOf(s, m).Plan? && PlanOf(s, m).overwrites == [] <==>
            forall i :: 0 <= i < |m.fixtures| ==> Untouched(s, m.name, m.fixtures[i])
  {
    SortFinds(s, m.name, m.fixtures);
    hide Sort, ProvenanceId;
    forall i | 0 <= i < |m.fixtures|
      ensures Untouched(s, m.name, m.fixtures[i]) <==>
              PlanOne(s, m.name, m.fixtures[i]).Planned? && !PlanOne(s, m.name, m.fixtures[i]).overwrites
    {}
  }

  /** With nobody else at work, a plan that is not refused applies to the end. */
  lemma PlannedApplies(s: Store, m: Manifest)
    requires PlanOf(s, m).Plan?
    ensures ApplyAll(s, m.name, m.fixtures).Ok?
  {
    SortFinds(s, m.name, m.fixtures);
    hide ProvenanceId, Sort;
    forall i | 0 <= i < |m.fixtures| ensures !Foreign(s, m.name, m.fixtures[i]) {
      assert PlanOne(s, m.name, m.fixtures[i]).Planned?;
    }
    NobodyForeign(s, m.name, m.fixtures);
  }

  predicate Foreign(s: Store, app: string, f: Fixture)
  {
    IdOf(f) in s.provenance && s.provenance[IdOf(f)].app != app
  }

  lemma {:induction false} NobodyForeign(s: Store, app: string, fs: seq<Fixture>)
    requires forall i :: 0 <= i < |fs| ==> !Foreign(s, app, fs[i])
    ensures ApplyAll(s, app, fs).Ok?
    decreases |fs|
  {
    if fs != [] {
      hide ProvenanceId, Written;
      assert !Foreign(s, app, fs[0]);
      var next := ApplyOne(s, app, fs[0]).value;
      forall i | 0 <= i < |fs[1..]| ensures !Foreign(next, app, fs[1..][i]) { assert !Foreign(s, app, fs[i + 1]); }
      NobodyForeign(next, app, fs[1..]);
    }
  }
}
