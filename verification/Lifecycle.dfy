/** The life of one submittable document: the broker's pre-write edges and post-write triggers
    (broker.rs) over the docstatus lattice EVENT (sync.rs), one operation after another. */
module Lifecycle {
  import opened Wrappers

  datatype Refusal = DeleteRequiresDraft | Resurrection | Illegal10 | Illegal02 | HookRejected | NoRows

  datatype Edge = OnSubmit | OnCancel

  datatype Trigger = AfterInsert | Updated | Submit | Cancel

  /** The lattice EVENT on an UPDATE. */
  function LatticeUpdate(before: int, after: int): Option<Refusal>
  {
    if before == 2 then Some(Resurrection)
    else if before == 1 && after == 0 then Some(Illegal10)
    else if before == 0 && after == 2 then Some(Illegal02)
    else None
  }

  /** Hooks consulted before the write, from the baseline's docstatus to the shown document's. */
  function Edges(before: int, shown: int): seq<Edge>
  {
    (if before != 1 && shown == 1 then [OnSubmit] else []) + (if before != 2 && shown == 2 then [OnCancel] else [])
  }

  /** Notifications after the write, from the baseline's docstatus to the stored one. */
  function Triggers(create: bool, before: int, after: int): seq<Trigger>
  {
    [if create then AfterInsert else Updated]
    + (if before != 1 && after == 1 then [Submit] else []) + (if before != 2 && after == 2 then [Cancel] else [])
  }

  /** A request. `caller` is the docstatus the caller names, `written` the one the validate hooks
      leave in the document to be stored; `rejects` are the edge hooks that would refuse. */
  datatype Request =
    | Create(caller: Option<int>, written: Option<int>, rejects: set<Edge>)
    | Update(caller: Option<int>, written: Option<int>, rejects: set<Edge>)
    | Delete

  datatype Outcome =
    | Refused(why: Refusal)
    | Committed(docstatus: Option<int>, edges: seq<Edge>, triggers: seq<Trigger>)

  function OrElse(d: Option<int>, default: int): int { if d.Some? then d.value else default }

  /** What a request does to the document, absent when `doc` is `None`; the column defaults to 0. */
  function Handle(doc: Option<int>, q: Request): Outcome
  {
    match q
    case Create(caller, written, rejects) =>
      var edges := Edges(0, OrElse(caller, 0));
      if exists e :: e in edges && e in rejects then Refused(HookRejected)
      else if doc.Some? then Refused(NoRows)
      else var after := OrElse(written, 0); Committed(Some(after), edges, Triggers(true, 0, after))
    case Update(caller, written, rejects) =>
      var before := OrElse(doc, 0);
      var edges := Edges(before, OrElse(caller, before));
      if exists e :: e in edges && e in rejects then Refused(HookRejected)
      else if doc.None? then Refused(NoRows)
      else
        var after := OrElse(written, before);
        if LatticeUpdate(before, after).Some? then Refused(LatticeUpdate(before, after).value)
        else Committed(Some(after), edges, Triggers(false, before, after))
    case Delete =>
      if doc.None? then Refused(NoRows)
      else if doc.value != 0 then Refused(DeleteRequiresDraft)
      else Committed(None, [], [])
  }

  /** Requests write docstatus within {0, 1, 2}. */
  predicate InRange(q: Request)
  {
    q.Delete? || (q.written.Some? ==> 0 <= q.written.value <= 2)
  }

  /** The document and the triggers fired since it was last created. */
  datatype State = State(doc: Option<int>, fired: seq<Trigger>)

  const INIT: State := State(None, [])

  function After(s: State, q: Request): State
  {
    match Handle(s.doc, q)
    case Refused(_) => s
    case Committed(d, _, triggers) => State(d, if q.Create? then triggers else s.fired + triggers)
  }

  function Runs(s: State, qs: seq<Request>): State
    decreases |qs|
  {
    if qs == [] then s else Runs(After(s, qs[0]), qs[1..])
  }

  function Count(ts: seq<Trigger>, t: Trigger): nat
  {
    if ts == [] then 0 else Count(ts[..|ts| - 1], t) + if ts[|ts| - 1] == t then 1 else 0
  }

  /** Submit has fired at most once, and not before docstatus 1; Cancel once, and not before 2. */
  predicate Ok(s: State)
  {
    && (s.doc.Some? ==> 0 <= s.doc.value <= 2)
    && Count(s.fired, Submit) <= (if s.doc.Some? && s.doc.value == 0 then 0 else 1)
    && Count(s.fired, Cancel) <= (if s.doc.Some? && s.doc.value < 2 then 0 else 1)
  }

  lemma CountPush(ts: seq<Trigger>, t: Trigger, x: Trigger)
    ensures Count(ts + [t], x) == Count(ts, x) + if t == x then 1 else 0
  {
    assert (ts + [t])[..|ts|] == ts;
  }

  lemma {:induction false} CountAppend(a: seq<Trigger>, b: seq<Trigger>, x: Trigger)
    ensures Count(a + b, x) == Count(a, x) + Count(b, x)
  {
    if b == [] {
      assert a + b == a;
    } else {
      assert (a + b)[..|a + b| - 1] == a + b[..|b| - 1];
      CountAppend(a, b[..|b| - 1], x);
    }
  }

  lemma TriggerCounts(create: bool, before: int, after: int)
    ensures Count(Triggers(create, before, after), Submit) == if before != 1 && after == 1 then 1 else 0
    ensures Count(Triggers(create, before, after), Cancel) == if before != 2 && after == 2 then 1 else 0
  {
    var first := [if create then AfterInsert else Updated];
    var submit: seq<Trigger> := if before != 1 && after == 1 then [Submit] else [];
    var cancel: seq<Trigger> := if before != 2 && after == 2 then [Cancel] else [];
    forall x: Trigger ensures Count(first + submit + cancel, x) == Count(first, x) + Count(submit, x) + Count(cancel, x) {
      CountAppend(first + submit, cancel, x);
      CountAppend(first, submit, x);
    }
    assert forall t: Trigger, x: Trigger :: Count([t], x) == if t == x then 1 else 0 by {
      forall t: Trigger, x: Trigger ensures Count([t], x) == if t == x then 1 else 0 { CountPush([], t, x); assert [] + [t] == [t]; }
    }
  }

  lemma StepOk(s: State, q: Request)
    requires Ok(s) && InRange(q)
    ensures Ok(After(s, q))
  {
    hide Count, Triggers, Edges;
    match Handle(s.doc, q)
    case Refused(_) =>
    case Committed(d, _, triggers) =>
      if q.Delete? {
        assert s.fired + [] == s.fired;
      } else {
        var before := if q.Create? then 0 else s.doc.value;
        TriggerCounts(q.Create?, before, d.value);
        CountAppend(s.fired, triggers, Submit);
        CountAppend(s.fired, triggers, Cancel);
      }
  }

  /** In any sequence of requests, Submit and Cancel each fire at most once per incarnation. */
  lemma {:induction false} TriggersOnce(s: State, qs: seq<Request>)
    requires Ok(s) && forall i :: 0 <= i < |qs| ==> InRange(qs[i])
    ensures Ok(Runs(s, qs)) && Count(Runs(s, qs).fired, Submit) <= 1 && Count(Runs(s, qs).fired, Cancel) <= 1
    decreases |qs|
  {
    if qs != [] {
      hide Ok, After, InRange;
      StepOk(s, qs[0]);
      forall i | 0 <= i < |qs[1..]| ensures InRange(qs[1..][i]) { assert qs[1..][i] == qs[i + 1]; }
      TriggersOnce(After(s, qs[0]), qs[1..]);
    }
    assert Ok(Runs(s, qs)) ==> Count(Runs(s, qs).fired, Submit) <= 1 && Count(Runs(s, qs).fired, Cancel) <= 1;
  }

  /** Exactly when an update of a document in range commits: docstatus stays or rises by one, from
      below 2; what commits never lowers or skips. A deletion commits exactly at 0. */
  lemma LatticeExact(doc: int, q: Request)
    requires 0 <= doc <= 2 && InRange(q) && !q.Create?
    ensures q.Delete? ==> (Handle(Some(doc), q).Committed? <==> doc == 0)
    ensures q.Update? ==>
              var after := OrElse(q.written, doc);
              Handle(Some(doc), q).Committed? <==>
                doc < 2 && doc <= after <= doc + 1
                && forall e <- Edges(doc, OrElse(q.caller, doc)) :: e !in q.rejects
  {}

  /** The hook that stands before a docstatus. */
  function EdgeTo(docstatus: int): Edge { if docstatus == 1 then OnSubmit else OnCancel }

  /** A committed change of docstatus was put to exactly the hook of its edge if and only if the
      document shown to the edge hooks already had the docstatus that was stored. An update that
      leaves docstatus alone consulted nobody exactly when the shown document did not move it to 1
      or 2. */
  lemma EdgesConsulted(doc: int, q: Request)
    requires 0 <= doc <= 2 && q.Update? && InRange(q) && Handle(Some(doc), q).Committed?
    ensures var (shown, after, edges) := (OrElse(q.caller, doc), OrElse(q.written, doc), Handle(Some(doc), q).edges);
            && (after != doc ==> (edges == [EdgeTo(after)] <==> shown == after))
            && (after == doc ==> (edges == [] <==> shown == doc || (shown != 1 && shown != 2)))
  {
    EdgeCases(doc, OrElse(q.caller, doc));
  }

  /** The same for a document created at a docstatus, whose edge is read from 0. */
  lemma CreateEdgesConsulted(q: Request)
    requires q.Create? && InRange(q) && Handle(None, q).Committed?
    ensures var (shown, after, edges) := (OrElse(q.caller, 0), OrElse(q.written, 0), Handle(None, q).edges);
            && (after != 0 ==> (edges == [EdgeTo(after)] <==> shown == after))
            && (after == 0 ==> (edges == [] <==> shown != 1 && shown != 2))
  {
    EdgeCases(0, OrElse(q.caller, 0));
  }

  lemma EdgeCases(before: int, shown: int)
    requires 0 <= before <= 2
    ensures Edges(before, shown) == if shown != before && (shown == 1 || shown == 2) then [EdgeTo(shown)] else []
  {}

  /** Otherwise a submission can pass by the submit hook: the edge is read before validate runs. */
  lemma EdgeBypassed()
    ensures var q := Update(None, Some(1), {OnSubmit});
            Handle(Some(0), q) == Committed(Some(1), [], [Updated, Submit])
  {
    assert Edges(0, 0) == [];
    assert Triggers(false, 0, 1) == [Updated, Submit];
  }
}
