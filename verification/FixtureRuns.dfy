/** Installs, updates and uninstalls of any number of apps at once, statement by statement: who owns
    a fixture's provenance never changes once somebody has claimed it. */
module FixtureRuns {
  import opened Wrappers
  import opened Collections
  import opened Fixtures

  /** Where an apply of one fixture stands. `current` and `shipped` are what it read at the start. */
  datatype Point =
    | Begun
    | RowRead(current: Option<Row>)
    | Unclaimed(current: Option<Row>)
    | ClaimLost(current: Option<Row>)
    | Owned(current: Option<Row>, shipped: Option<Row>)
    | Upserted(current: Option<Row>)
    | Reading
    | HasRow(row: Row)

  datatype Apply = Apply(app: string, fixture: Fixture, point: Point)

  datatype State = State(store: Store, applies: map<nat, Apply>)

  const INIT: State := State(Store(map[], map[]), map[])

  /** The statements of `apply_fixtures` for apply `p`, and what others do to the tables meanwhile. */
  datatype Step =
    | Begin(p: nat, app: string, fixture: Fixture)
    | ReadCurrent(p: nat)
    | ReadProvenance(p: nat)
    | Claim(p: nat)
    | ReadAgain(p: nat)
    | Upsert(p: nat)
    | Clear(p: nat)
    | ReadRow(p: nat)
    | Record(p: nat)
    | Quit(p: nat)
    | OrphanRow(f: Fixture)
    | OrphanAll(app: string)
    | Edit(rid: Rid, row: Option<Row>)

  predicate Enabled(s: State, step: Step)
  {
    match step
    case Begin(p, _, _) => p !in s.applies
    case ReadCurrent(p) => p in s.applies && s.applies[p].point.Begun?
    case ReadProvenance(p) => p in s.applies && s.applies[p].point.RowRead?
    case Claim(p) => p in s.applies && s.applies[p].point.Unclaimed?
    case ReadAgain(p) => p in s.applies && s.applies[p].point.ClaimLost?
    case Upsert(p) => p in s.applies && s.applies[p].point.Owned?
    case Clear(p) => p in s.applies && s.applies[p].point.Upserted?
    case ReadRow(p) => p in s.applies && s.applies[p].point.Reading?
    case Record(p) => p in s.applies && s.applies[p].point.HasRow?
    case Quit(p) => p in s.applies
    case _ => true
  }

  function Ended(s: State, p: nat): State { s.(applies := s.applies - {p}) }

  function Moved(s: State, p: nat, point: Point): State
    requires p in s.applies
  {
    s.(applies := s.applies[p := s.applies[p].(point := point)])
  }

  function Stored(s: State, rid: Rid, row: Option<Row>): State
  {
    s.(store := s.store.(rows := if row.Some? then s.store.rows[rid := row.value] else s.store.rows - {rid}))
  }

  function Noted(s: State, id: string, prov: Provenance): State
  {
    s.(store := s.store.(provenance := s.store.provenance[id := prov]))
  }

  function RowNow(s: State, f: Fixture): Row
  {
    if RidOf(f) in s.store.rows then s.store.rows[RidOf(f)] else map[]
  }

  /** The provenance is read after the row; a foreign owner refuses the fixture. */
  function AfterRead(s: State, p: nat): State
    requires p in s.applies && s.applies[p].point.RowRead?
  {
    var a := s.applies[p];
    var owned := Find(s.store.provenance, IdOf(a.fixture));
    if owned.None? then Moved(s, p, Unclaimed(a.point.current))
    else if owned.value.app != a.app then Ended(s, p)
    else Moved(s, p, Owned(a.point.current, Some(owned.value.shipped)))
  }

  /** CREATE ONLY fails when the record exists. */
  function AfterClaim(s: State, p: nat): State
    requires p in s.applies && s.applies[p].point.Unclaimed?
  {
    var a := s.applies[p];
    if IdOf(a.fixture) in s.store.provenance then Moved(s, p, ClaimLost(a.point.current))
    else Moved(Noted(s, IdOf(a.fixture), Provenance(a.app, map[], false)), p, Owned(a.point.current, None))
  }

  function AfterReadAgain(s: State, p: nat): State
    requires p in s.applies && s.applies[p].point.ClaimLost?
  {
    var a := s.applies[p];
    var owned := Find(s.store.provenance, IdOf(a.fixture));
    if owned.None? || owned.value.app != a.app then Ended(s, p) else Moved(s, p, Owned(a.point.current, None))
  }

  function AfterUpsert(s: State, p: nat): State
    requires p in s.applies && s.applies[p].point.Owned?
  {
    var a := s.applies[p];
    var values := Restored(Restored(a.fixture.values, "status", a.point.shipped), "docstatus", a.point.shipped);
    Moved(Stored(s, RidOf(a.fixture), Some(Merged(RowNow(s, a.fixture), values))), p, Upserted(a.point.current))
  }

  function AfterClear(s: State, p: nat): State
    requires p in s.applies && s.applies[p].point.Upserted?
  {
    var a := s.applies[p];
    var cleared := Cleared(RowNow(s, a.fixture), a.point.current, a.fixture.values);
    if RidOf(a.fixture) in s.store.rows then Moved(Stored(s, RidOf(a.fixture), Some(cleared)), p, Reading)
    else Moved(s, p, Reading)
  }

  function AfterReadRow(s: State, p: nat): State
    requires p in s.applies
  {
    var f := s.applies[p].fixture;
    if RidOf(f) in s.store.rows then Moved(s, p, HasRow(s.store.rows[RidOf(f)])) else Ended(s, p)
  }

  /** UPDATE of the provenance record, its app included. */
  function AfterRecord(s: State, p: nat): State
    requires p in s.applies && s.applies[p].point.HasRow?
  {
    var a := s.applies[p];
    var id := IdOf(a.fixture);
    Ended(if id in s.store.provenance then Noted(s, id, Provenance(a.app, a.point.row, true)) else s, p)
  }

  function Next(s: State, step: Step): State
    requires Enabled(s, step)
  {
    match step
    case Begin(p, app, f) => s.(applies := s.applies[p := Apply(app, f, Begun)])
    case ReadCurrent(p) => Moved(s, p, RowRead(Find(s.store.rows, RidOf(s.applies[p].fixture))))
    case ReadProvenance(p) => AfterRead(s, p)
    case Claim(p) => AfterClaim(s, p)
    case ReadAgain(p) => AfterReadAgain(s, p)
    case Upsert(p) => AfterUpsert(s, p)
    case Clear(p) => AfterClear(s, p)
    case ReadRow(p) => AfterReadRow(s, p)
    case Record(p) => AfterRecord(s, p)
    case Quit(p) => Ended(s, p)
    case OrphanRow(f) => s.(store := Orphan(s.store, IdOf(f)))
    case OrphanAll(app) => s.(store := OrphanApp(s.store, app))
    case Edit(rid, row) => Stored(s, rid, row)
  }

  ghost predicate Run(states: seq<State>, steps: seq<Step>)
  {
    && |states| == |steps| + 1 && states[0] == INIT
    && forall i :: 0 <= i < |steps| ==> Enabled(states[i], steps[i]) && states[i + 1] == Next(states[i], steps[i])
  }

  // ---- ownership ----

  function Owner(s: State, id: string): Option<string>
  {
    if id in s.store.provenance then Some(s.store.provenance[id].app) else None
  }

  predicate PastClaim(point: Point) { point.Owned? || point.Upserted? || point.Reading? || point.HasRow? }

  /** Whoever is past the claim owns the fixture. */
  predicate Inv(s: State)
  {
    forall p <- s.applies :: PastClaim(s.applies[p].point) ==> Owner(s, IdOf(s.applies[p].fixture)) == Some(s.applies[p].app)
  }

  /** No record disappears or changes hands. */
  ghost predicate OwnersKept(s: State, t: State)
  {
    forall id :: Owner(s, id).Some? ==> Owner(t, id) == Owner(s, id)
  }

  lemma KeptInv(s: State, t: State, p: nat)
    requires Inv(s) && OwnersKept(s, t)
    requires forall q <- t.applies :: q != p ==> q in s.applies && t.applies[q] == s.applies[q]
    requires p in t.applies && PastClaim(t.applies[p].point) ==> Owner(t, IdOf(t.applies[p].fixture)) == Some(t.applies[p].app)
    ensures Inv(t)
  {
    hide ProvenanceId;
  }

  lemma ClaimKeeps(s: State, p: nat)
    requires Inv(s) && p in s.applies && s.applies[p].point.Unclaimed?
    ensures Inv(AfterClaim(s, p)) && OwnersKept(s, AfterClaim(s, p))
  {
    hide ProvenanceId;
    KeptInv(s, AfterClaim(s, p), p);
  }

  lemma RecordKeeps(s: State, p: nat)
    requires Inv(s) && p in s.applies && s.applies[p].point.HasRow?
    ensures Inv(AfterRecord(s, p)) && OwnersKept(s, AfterRecord(s, p))
  {
    hide ProvenanceId;
    assert Owner(s, IdOf(s.applies[p].fixture)) == Some(s.applies[p].app);
    KeptInv(s, AfterRecord(s, p), p);
  }

  lemma WriteKeeps(s: State, t: State, p: nat)
    requires Inv(s) && t.store.provenance == s.store.provenance
    requires forall q <- t.applies :: q != p ==> q in s.applies && t.applies[q] == s.applies[q]
    requires p in t.applies && PastClaim(t.applies[p].point) ==>
               (p in s.applies && PastClaim(s.applies[p].point) && t.applies[p].fixture == s.applies[p].fixture && t.applies[p].app == s.applies[p].app)
               || Owner(s, IdOf(t.applies[p].fixture)) == Some(t.applies[p].app)
    ensures Inv(t) && OwnersKept(s, t)
  {
    hide ProvenanceId;
    KeptInv(s, t, p);
  }

  lemma OrphanKeeps(s: State, id: string, app: string)
    ensures OwnersKept(s, s.(store := Orphan(s.store, id))) && OwnersKept(s, s.(store := OrphanApp(s.store, app)))
  {}

  lemma StepKeeps(s: State, step: Step)
    requires Inv(s) && Enabled(s, step)
    ensures Inv(Next(s, step)) && OwnersKept(s, Next(s, step))
  {
    hide ProvenanceId, Merged, Cleared, Restored, OwnersKept;
    match step
    case Begin(p, _, _) => WriteKeeps(s, Next(s, step), p);
    case ReadCurrent(p) => WriteKeeps(s, Next(s, step), p);
    case ReadProvenance(p) => WriteKeeps(s, Next(s, step), p);
    case Claim(p) => ClaimKeeps(s, p);
    case ReadAgain(p) => WriteKeeps(s, Next(s, step), p);
    case Upsert(p) => WriteKeeps(s, Next(s, step), p);
    case Clear(p) => WriteKeeps(s, Next(s, step), p);
    case ReadRow(p) => WriteKeeps(s, Next(s, step), p);
    case Record(p) => RecordKeeps(s, p);
    case Quit(p) => WriteKeeps(s, Next(s, step), p);
    case OrphanRow(f) => OrphanSteps(s, IdOf(f), "");
    case OrphanAll(app) => OrphanSteps(s, "", app);
    case Edit(_, _) => EditKeeps(s, Next(s, step));
  }

  lemma OrphanSteps(s: State, id: string, app: string)
    requires Inv(s)
    ensures var (t, u) := (s.(store := Orphan(s.store, id)), s.(store := OrphanApp(s.store, app)));
            Inv(t) && OwnersKept(s, t) && Inv(u) && OwnersKept(s, u)
  {
    hide ProvenanceId;
    OrphanKeeps(s, id, app);
  }

  lemma EditKeeps(s: State, t: State)
    requires Inv(s) && t.applies == s.applies && t.store.provenance == s.store.provenance
    ensures Inv(t) && OwnersKept(s, t)
  {
    hide ProvenanceId;
  }

  lemma {:induction false} RunKeeps(states: seq<State>, steps: seq<Step>, i: nat)
    requires Run(states, steps) && i < |states|
    ensures Inv(states[i])
  {
    if i > 0 {
      hide Inv, Next, Enabled;
      RunKeeps(states, steps, i - 1);
      StepKeeps(states[i - 1], steps[i - 1]);
    } else {
      assert states[0] == INIT;
    }
  }

  /** In any interleaving of any apps' installs, updates and uninstalls, and whatever users do to the
      rows, the owner of a fixture's provenance is settled by the first claim for good. */
  lemma {:induction false} OwnerForGood(states: seq<State>, steps: seq<Step>, i: nat, j: nat, id: string)
    requires Run(states, steps) && i <= j < |states| && Owner(states[i], id).Some?
    ensures Owner(states[j], id) == Owner(states[i], id)
    decreases j - i
  {
    if i < j {
      hide Inv, Next, Enabled, Owner;
      OwnerForGood(states, steps, i, j - 1, id);
      RunKeeps(states, steps, j - 1);
      StepKeeps(states[j - 1], steps[j - 1]);
    }
  }

  /** Only the owner ever writes a fixture's row or its shipped state; anyone else who asks later is
      refused, even after the owner was uninstalled. */
  lemma OthersRefused(states: seq<State>, steps: seq<Step>, i: nat, j: nat, p: nat, m: Manifest, f: Fixture)
    requires Run(states, steps) && i <= j < |states| && Owner(states[i], IdOf(f)).Some?
    ensures p in states[j].applies && PastClaim(states[j].applies[p].point) && RidOf(states[j].applies[p].fixture) == RidOf(f) ==>
              Some(states[j].applies[p].app) == Owner(states[i], IdOf(f))
    ensures f in m.fixtures && Some(m.name) != Owner(states[i], IdOf(f)) ==> PlanOf(states[j].store, m).Refused?
  {
    hide ProvenanceId;
    RunKeeps(states, steps, j);
    OwnerForGood(states, steps, i, j, IdOf(f));
    if f in m.fixtures && Some(m.name) != Owner(states[i], IdOf(f)) {
      var k :| 0 <= k < |m.fixtures| && m.fixtures[k] == f;
      ForeignRefused(states[j].store, m.name, m.fixtures, k);
    }
  }

  lemma {:induction false} ForeignRefused(s: Store, app: string, fs: seq<Fixture>, k: nat)
    requires k < |fs| && PlanOne(s, app, fs[k]).Ambiguous?
    ensures Sort(s, app, fs).ambiguous != []
  {
    hide PlanOne;
    if k < |fs| - 1 { ForeignRefused(s, app, fs[..|fs| - 1], k); }
  }
}
