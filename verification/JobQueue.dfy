/** The leased job queue of worker.rs. Every UPDATE ... WHERE of the source is one atomic step on
    the table of jobs; a token is fresh at every claim attempt. */
module JobQueue {
  import opened Wrappers

  const LEASE_SECONDS: nat := 300
  const MAX_ATTEMPTS: nat := 5

  type Id = string
  type Token = nat

  datatype Status = Queued | Running | Done | Denied | Dead

  /** A job row. `attempts` is NONE on rows older than the typed envelope; `tenant` likewise. */
  datatype Row = Row(status: Status, attempts: Option<nat>, claimedBy: Option<string>, token: Option<Token>,
                     lease: Option<nat>, tenant: Option<string>, enqueuedAt: nat)

  type Table = map<Id, Row>

  /** The right to execute a job that a successful claim hands out. */
  datatype Lease = Lease(id: Id, claimedBy: string, token: Token, attempt: nat)

  datatype Source = FromQueue | FromExpired

  function Attempts(r: Row): nat { if r.attempts.None? then 0 else r.attempts.value }

  predicate Expired(r: Row, now: nat) { r.lease.Some? && r.lease.value <= now }

  predicate Claimable(r: Row, source: Source, now: nat)
  {
    match source
    case FromQueue => r.status == Queued && Attempts(r) < MAX_ATTEMPTS
    case FromExpired => r.status == Running && Expired(r, now) && Attempts(r) < MAX_ATTEMPTS
  }

  predicate Eligible(r: Row, now: nat) { Claimable(r, FromQueue, now) || Claimable(r, FromExpired, now) }

  predicate Reapable(r: Row, now: nat)
  {
    Attempts(r) >= MAX_ATTEMPTS && (r.status == Queued || (r.status == Running && Expired(r, now)))
  }

  predicate Terminal(s: Status) { s == Done || s == Denied || s == Dead }

  function ClaimRow(r: Row, worker: string, token: Token, now: nat): Row
  {
    r.(status := Running, claimedBy := Some(worker), token := Some(token),
       lease := Some(now + LEASE_SECONDS), attempts := Some(Attempts(r) + 1))
  }

  function RequeueRow(r: Row): Row { r.(status := Queued, claimedBy := None, token := None, lease := None) }

  function CloseRow(r: Row, s: Status): Row { r.(status := s, claimedBy := None, token := None, lease := None) }

  /** The fence: only the claim that still owns the row gets through. */
  predicate Owns(jobs: Table, l: Lease)
  {
    l.id in jobs && jobs[l.id].status == Running && jobs[l.id].claimedBy == Some(l.claimedBy)
    && jobs[l.id].token == Some(l.token)
  }

  predicate CanClaim(jobs: Table, id: Id, source: Source, now: nat)
  {
    id in jobs && Claimable(jobs[id], source, now)
  }

  /** How a run ended. */
  datatype Outcome = Finished(denied: bool) | Retry

  function Settled(r: Row, attempt: nat, o: Outcome): Row
  {
    match o
    case Finished(denied) => CloseRow(r, if denied then Denied else Done)
    case Retry => if attempt >= MAX_ATTEMPTS then CloseRow(r, Dead) else RequeueRow(r)
  }

  function Reaped(jobs: Table, now: nat): Table
  {
    map id | id in jobs :: if Reapable(jobs[id], now) then CloseRow(jobs[id], Dead) else jobs[id]
  }

  /** The queue table with the database clock and the supply of claim tokens. */
  class Queue {
    var jobs: Table
    var now: nat
    var nextToken: Token

    constructor ()
      ensures jobs == map[] && now == 0 && nextToken == 0
    {
      jobs, now, nextToken := map[], 0, 0;
    }

    method TryClaimFrom(id: Id, worker: string, source: Source) returns (lease: Option<Lease>)
      modifies `jobs, `nextToken
      ensures nextToken == old(nextToken) + 1
      ensures var can := CanClaim(old(jobs), id, source, now);
              && lease.Some? == can
              && (!can ==> jobs == old(jobs))
              && (can ==> var claimed := ClaimRow(old(jobs)[id], worker, old(nextToken), now);
                          jobs == old(jobs)[id := claimed]
                          && lease == Some(Lease(id, worker, old(nextToken), claimed.attempts.value)))
    {
      var token := nextToken;
      nextToken := nextToken + 1;
      if !CanClaim(jobs, id, source, now) { return None; }
      var row := ClaimRow(jobs[id], worker, token, now);
      jobs := jobs[id := row];
      return Some(Lease(id, worker, token, row.attempts.value));
    }

    /** A queued row first; failing that, one whose lease has run out. */
    method TryClaim(id: Id, worker: string) returns (lease: Option<Lease>)
      modifies `jobs, `nextToken
      ensures nextToken > old(nextToken)
      ensures lease.Some? <==> id in old(jobs) && Eligible(old(jobs)[id], now)
      ensures lease.None? ==> jobs == old(jobs)
      ensures lease.Some? ==>
                && old(nextToken) <= lease.value.token < nextToken && Owns(jobs, lease.value)
                && lease.value.id == id && lease.value.attempt == Attempts(old(jobs)[id]) + 1 <= MAX_ATTEMPTS
                && jobs == old(jobs)[id := ClaimRow(old(jobs)[id], worker, lease.value.token, now)]
    {
      lease := TryClaimFrom(id, worker, FromQueue);
      if lease.None? { lease := TryClaimFrom(id, worker, FromExpired); }
    }

    method RenewLease(l: Lease) returns (renewed: bool)
      modifies `jobs
      ensures renewed == Owns(old(jobs), l)
      ensures jobs == if renewed then old(jobs)[l.id := old(jobs)[l.id].(lease := Some(now + LEASE_SECONDS))] else old(jobs)
    {
      renewed := Owns(jobs, l);
      if renewed { jobs := jobs[l.id := jobs[l.id].(lease := Some(now + LEASE_SECONDS))]; }
    }

    /** `finish` and `requeue`: one fenced update. */
    method Settle(l: Lease, o: Outcome) returns (applied: bool)
      modifies `jobs
      ensures applied == Owns(old(jobs), l)
      ensures jobs == if applied then old(jobs)[l.id := Settled(old(jobs)[l.id], l.attempt, o)] else old(jobs)
    {
      applied := Owns(jobs, l);
      if applied {
        var row := jobs[l.id];
        match o {
          case Finished(denied) => row := CloseRow(row, if denied then Denied else Done);
          case Retry => row := if l.attempt >= MAX_ATTEMPTS then CloseRow(row, Dead) else RequeueRow(row);
        }
        jobs := jobs[l.id := row];
      }
    }

    method ReapExhausted()
      modifies `jobs
      ensures jobs == Reaped(old(jobs), now)
    {
      jobs := Reaped(jobs, now);
    }
  }
}

/** Runs of the queue with any number of workers: enqueues, claims, renewals, completions however
    late, reaping, crashes and the clock, in any order. */
module JobRuns {
  import opened Wrappers
  import opened JobQueue

  /** What has happened to the jobs so far, oldest first. */
  datatype Event = Claimed(l: Lease) | Closed(l: Lease) | Swept(ids: set<Id>)

  /** `leases` are the claims some worker still remembers; a worker may use one at any time. */
  datatype State = State(jobs: Table, now: nat, nextToken: Token, leases: set<Lease>, history: seq<Event>)

  datatype Step =
    | Enqueue(id: Id, row: Row)
    | Claim(id: Id, worker: string, source: Source)
    | Renew(l: Lease)
    | Settle(l: Lease, o: Outcome)
    | Reap
    | Tick(now: nat)
    | Crash(lost: set<Lease>)

  const INIT: State := State(map[], 0, 0, {}, [])

  predicate Fresh(r: Row)
  {
    r.status == Queued && Attempts(r) == 0 && r.claimedBy == None && r.token == None && r.lease == None
  }

  predicate Enabled(s: State, step: Step)
  {
    match step
    case Enqueue(id, row) => id !in s.jobs && Fresh(row)
    case Renew(l) => l in s.leases
    case Settle(l, _) => l in s.leases
    case Tick(now) => s.now <= now
    case _ => true
  }

  function Next(s: State, step: Step): State
    requires Enabled(s, step)
  {
    match step
    case Enqueue(id, row) => s.(jobs := s.jobs[id := row])
    case Claim(id, worker, source) =>
      var t := s.(nextToken := s.nextToken + 1);
      if !CanClaim(s.jobs, id, source, s.now) then t
      else
        var row := ClaimRow(s.jobs[id], worker, s.nextToken, s.now);
        var l := Lease(id, worker, s.nextToken, Attempts(row));
        t.(jobs := s.jobs[id := row], leases := s.leases + {l}, history := s.history + [Claimed(l)])
    case Renew(l) =>
      if !Owns(s.jobs, l) then s
      else s.(jobs := s.jobs[l.id := s.jobs[l.id].(lease := Some(s.now + LEASE_SECONDS))])
    case Settle(l, o) =>
      if !Owns(s.jobs, l) then s
      else s.(jobs := s.jobs[l.id := Settled(s.jobs[l.id], l.attempt, o)], history := s.history + [Closed(l)])
    case Reap =>
      s.(jobs := Reaped(s.jobs, s.now), history := s.history + [Swept(set id | id in s.jobs && Reapable(s.jobs[id], s.now))])
    case Tick(now) => s.(now := now)
    case Crash(lost) => s.(leases := s.leases - lost)
  }

  ghost predicate Run(states: seq<State>, steps: seq<Step>)
  {
    && |states| == |steps| + 1 && states[0] == INIT
    && forall i :: 0 <= i < |steps| ==> Enabled(states[i], steps[i]) && states[i + 1] == Next(states[i], steps[i])
  }

  // ---- reading the history ----

  function Claims(h: seq<Event>, id: Id): nat
  {
    if h == [] then 0
    else
      var last := h[|h| - 1];
      Claims(h[..|h| - 1], id) + if last.Claimed? && last.l.id == id then 1 else 0
  }

  /** The claim of `id` that nothing has closed since. */
  function Open(h: seq<Event>, id: Id): Option<Lease>
  {
    if h == [] then None
    else
      match h[|h| - 1]
      case Claimed(l) => if l.id == id then Some(l) else Open(h[..|h| - 1], id)
      case Closed(l) => if l.id == id then None else Open(h[..|h| - 1], id)
      case Swept(ids) => if id in ids then None else Open(h[..|h| - 1], id)
  }

  /** The latest claim of `id`, closed or not. */
  function Latest(h: seq<Event>, id: Id): Option<Lease>
  {
    if h == [] then None
    else
      var last := h[|h| - 1];
      if last.Claimed? && last.l.id == id then Some(last.l) else Latest(h[..|h| - 1], id)
  }

  /** The claim a token was handed out with. */
  function Issued(h: seq<Event>, token: Token): Option<Lease>
  {
    if h == [] then None
    else
      var last := h[|h| - 1];
      if last.Claimed? && last.l.token == token then Some(last.l) else Issued(h[..|h| - 1], token)
  }

  /** Accepted completions (finish or requeue) carrying `token`. */
  function Accepted(h: seq<Event>, token: Token): nat
  {
    if h == [] then 0
    else
      var last := h[|h| - 1];
      Accepted(h[..|h| - 1], token) + if last.Closed? && last.l.token == token then 1 else 0
  }

  lemma IdAppended(h: seq<Event>, e: Event, id: Id)
    ensures Claims(h + [e], id) == Claims(h, id) + if e.Claimed? && e.l.id == id then 1 else 0
    ensures Latest(h + [e], id) == if e.Claimed? && e.l.id == id then Some(e.l) else Latest(h, id)
    ensures Open(h + [e], id) ==
            if e.Claimed? && e.l.id == id then Some(e.l)
            else if (e.Closed? && e.l.id == id) || (e.Swept? && id in e.ids) then None
            else Open(h, id)
  {
    assert (h + [e])[..|h|] == h;
  }

  lemma TokenAppended(h: seq<Event>, e: Event, token: Token)
    ensures Accepted(h + [e], token) == Accepted(h, token) + if e.Closed? && e.l.token == token then 1 else 0
    ensures Issued(h + [e], token) == if e.Claimed? && e.l.token == token then Some(e.l) else Issued(h, token)
  {
    assert (h + [e])[..|h|] == h;
  }

  lemma {:induction false} OpenIsLatest(h: seq<Event>, id: Id)
    ensures Open(h, id).Some? ==> Open(h, id) == Latest(h, id)
  {
    if h != [] { OpenIsLatest(h[..|h| - 1], id); }
  }

  // ---- the invariant ----

  /** A row against the history: as many attempts as claims, never more than five; running exactly
      while its latest claim is open, and then stamped with that claim; a queued row is claimable. */
  predicate RowOk(r: Row, h: seq<Event>, id: Id)
  {
    && Attempts(r) == Claims(h, id) <= MAX_ATTEMPTS
    && (r.status == Queued ==> Attempts(r) < MAX_ATTEMPTS)
    && (r.status == Running ==>
          r.lease.Some? && r.claimedBy.Some? && r.token.Some?
          && Open(h, id) == Some(Lease(id, r.claimedBy.value, r.token.value, Attempts(r))))
    && (r.status != Running ==> Open(h, id) == None)
  }

  /** An open claim is the one its token was issued with, and nothing was accepted for it yet. */
  predicate IdOk(s: State, id: Id)
  {
    && (if id in s.jobs then RowOk(s.jobs[id], s.history, id) else Claims(s.history, id) == 0 && Open(s.history, id) == None)
    && (Open(s.history, id).Some? ==>
          var l := Open(s.history, id).value;
          l.id == id && Issued(s.history, l.token) == Some(l) && Accepted(s.history, l.token) == 0)
  }

  predicate TokenOk(s: State, token: Token)
  {
    && Accepted(s.history, token) <= (if Issued(s.history, token).Some? then 1 else 0)
    && (Issued(s.history, token).Some? ==> token < s.nextToken)
  }

  ghost predicate Inv(s: State)
  {
    && (forall id: Id :: IdOk(s, id))
    && (forall token: Token :: TokenOk(s, token))
    && (forall l <- s.leases :: Issued(s.history, l.token) == Some(l))
  }

  /** The fence lets through only the open claim of a job. */
  lemma OwnerIsOpen(s: State, l: Lease)
    requires Inv(s) && l in s.leases && Owns(s.jobs, l)
    ensures Open(s.history, l.id) == Some(l) && Accepted(s.history, l.token) == 0
  {
    assert IdOk(s, l.id);
  }

  /** Steps that neither claim nor close anything. */
  lemma QuietKeeps(s: State, t: State)
    requires Inv(s) && t.history == s.history && t.nextToken >= s.nextToken && t.leases <= s.leases
    requires forall id: Id :: IdOk(s, id) ==> IdOk(t, id)
    ensures Inv(t)
  {
    forall token: Token ensures TokenOk(t, token) { assert TokenOk(s, token); }
  }

  lemma ClaimKeeps(s: State, id: Id, worker: string, source: Source)
    requires Inv(s) && CanClaim(s.jobs, id, source, s.now)
    ensures Inv(Next(s, Claim(id, worker, source)))
  {
    hide Claims, Open, Issued, Accepted, Latest;
    var t := Next(s, Claim(id, worker, source));
    var token, l := s.nextToken, t.history[|t.history| - 1].l;
    var e := Claimed(l);
    assert TokenOk(s, token);
    forall jd: Id ensures IdOk(t, jd) {
      assert IdOk(s, jd);
      IdAppended(s.history, e, jd);
      if Open(t.history, jd).Some? { TokenAppended(s.history, e, Open(t.history, jd).value.token); }
    }
    forall k: Token ensures TokenOk(t, k) {
      assert TokenOk(s, k);
      TokenAppended(s.history, e, k);
    }
    forall k | k in t.leases ensures Issued(t.history, k.token) == Some(k) {
      TokenAppended(s.history, e, k.token);
    }
  }

  lemma SettleKeeps(s: State, l: Lease, o: Outcome)
    requires Inv(s) && l in s.leases && Owns(s.jobs, l)
    ensures Inv(Next(s, Settle(l, o)))
  {
    hide Claims, Open, Issued, Accepted, Latest;
    var t, e := Next(s, Settle(l, o)), Closed(l);
    OwnerIsOpen(s, l);
    forall jd: Id ensures IdOk(t, jd) {
      assert IdOk(s, jd);
      assert IdOk(s, l.id);
      IdAppended(s.history, e, jd);
      if Open(t.history, jd).Some? { TokenAppended(s.history, e, Open(t.history, jd).value.token); }
    }
    forall k: Token ensures TokenOk(t, k) {
      assert TokenOk(s, k);
      TokenAppended(s.history, e, k);
    }
    forall k | k in t.leases ensures Issued(t.history, k.token) == Some(k) {
      TokenAppended(s.history, e, k.token);
    }
  }

  lemma ReapKeeps(s: State)
    requires Inv(s)
    ensures Inv(Next(s, Reap))
  {
    hide Claims, Open, Issued, Accepted, Latest;
    var t := Next(s, Reap);
    var e := t.history[|t.history| - 1];
    forall jd: Id ensures IdOk(t, jd) {
      assert IdOk(s, jd);
      IdAppended(s.history, e, jd);
      if Open(t.history, jd).Some? { TokenAppended(s.history, e, Open(t.history, jd).value.token); }
    }
    forall k: Token ensures TokenOk(t, k) {
      assert TokenOk(s, k);
      TokenAppended(s.history, e, k);
    }
    forall k | k in t.leases ensures Issued(t.history, k.token) == Some(k) {
      TokenAppended(s.history, e, k.token);
    }
  }

  lemma StepKeeps(s: State, step: Step)
    requires Inv(s) && Enabled(s, step)
    ensures Inv(Next(s, step))
  {
    match step
    case Claim(id, worker, source) =>
      if CanClaim(s.jobs, id, source, s.now) { ClaimKeeps(s, id, worker, source); } else { QuietKeeps(s, Next(s, step)); }
    case Settle(l, o) => if Owns(s.jobs, l) { SettleKeeps(s, l, o); }
    case Reap => ReapKeeps(s);
    case _ => QuietKeeps(s, Next(s, step));
  }

  lemma {:induction false} RunKeeps(states: seq<State>, steps: seq<Step>, i: nat)
    requires Run(states, steps) && i < |states|
    ensures Inv(states[i])
  {
    if i > 0 {
      hide Inv, Next, Enabled;
      RunKeeps(states, steps, i - 1);
      StepKeeps(states[i - 1], steps[i - 1]);
    }
  }

  // ---- what holds in every run ----

  /** A job's attempts are its successful claims, five at most, and a queued job can be claimed. */
  lemma AttemptsBounded(states: seq<State>, steps: seq<Step>, i: nat, id: Id)
    requires Run(states, steps) && i < |states| && id in states[i].jobs
    ensures Attempts(states[i].jobs[id]) == Claims(states[i].history, id) <= MAX_ATTEMPTS
    ensures states[i].jobs[id].status == Queued ==> Claimable(states[i].jobs[id], FromQueue, states[i].now)
  {
    RunKeeps(states, steps, i);
    assert IdOk(states[i], id);
  }

  /** No job is stranded: unless it is finished for good, it can be claimed, it can be reaped, or its
      running lease is still to run out. */
  lemma NothingStranded(states: seq<State>, steps: seq<Step>, i: nat, id: Id)
    requires Run(states, steps) && i < |states| && id in states[i].jobs && !Terminal(states[i].jobs[id].status)
    ensures var (r, now) := (states[i].jobs[id], states[i].now);
            Eligible(r, now) || Reapable(r, now) || (r.status == Running && r.lease.Some? && now < r.lease.value)
  {
    RunKeeps(states, steps, i);
    assert IdOk(states[i], id);
  }

  /** `done`, `denied` and `dead` are never left: the row does not change again. */
  lemma {:induction false} TerminalStays(states: seq<State>, steps: seq<Step>, i: nat, j: nat, id: Id)
    requires Run(states, steps) && i <= j < |states|
    requires id in states[i].jobs && Terminal(states[i].jobs[id].status)
    ensures id in states[j].jobs && states[j].jobs[id] == states[i].jobs[id]
    decreases j - i
  {
    if i < j { TerminalStays(states, steps, i, j - 1, id); }
  }

  /** However late or often completions are attempted, a token has at most one accepted. */
  lemma AcceptedOnce(states: seq<State>, steps: seq<Step>, i: nat, token: Token)
    requires Run(states, steps) && i < |states|
    ensures Accepted(states[i].history, token) <= 1
  {
    RunKeeps(states, steps, i);
    assert TokenOk(states[i], token);
  }

  /** A completion, requeue or renewal goes through only for the job's latest claim, still open. */
  lemma OnlyLatest(states: seq<State>, steps: seq<Step>, i: nat, l: Lease)
    requires Run(states, steps) && i < |states| && l in states[i].leases && Owns(states[i].jobs, l)
    ensures Latest(states[i].history, l.id) == Some(l) && Open(states[i].history, l.id) == Some(l)
    ensures Accepted(states[i].history, l.token) == 0
    ensures Attempts(states[i].jobs[l.id]) == l.attempt
  {
    RunKeeps(states, steps, i);
    OwnerIsOpen(states[i], l);
    OpenIsLatest(states[i].history, l.id);
    assert IdOk(states[i], l.id);
  }

  /** An accepted retry of the fifth attempt is terminal; an earlier one leaves a claimable job. */
  lemma RetryBudget(states: seq<State>, steps: seq<Step>, i: nat, l: Lease)
    requires Run(states, steps) && i < |steps| && steps[i] == Settle(l, Retry) && Owns(states[i].jobs, l)
    ensures var r := states[i + 1].jobs[l.id];
            if l.attempt == MAX_ATTEMPTS then r.status == Dead else Claimable(r, FromQueue, states[i + 1].now)
  {
    OnlyLatest(states, steps, i, l);
    RunKeeps(states, steps, i);
    assert IdOk(states[i], l.id);
  }

  /** A claim shuts everybody else out, reaper included, until its lease of five minutes is over. */
  lemma ClaimExcludes(r: Row, worker: string, token: Token, now: nat, later: nat)
    requires Eligible(r, now) && now <= later
    ensures var claimed := ClaimRow(r, worker, token, now);
            && (Eligible(claimed, later) || Reapable(claimed, later) <==> later >= now + 300)
            && Attempts(claimed) == Attempts(r) + 1 <= 5
            && (Eligible(claimed, later) ==> Attempts(claimed) < 5)
  {}

  /** While a claim's lease is running, nobody else can claim the job. */
  lemma OneOwner(states: seq<State>, steps: seq<Step>, i: nat, l: Lease, source: Source)
    requires Run(states, steps) && i < |states| && l in states[i].leases && Owns(states[i].jobs, l)
    requires !Expired(states[i].jobs[l.id], states[i].now)
    ensures !CanClaim(states[i].jobs, l.id, source, states[i].now)
    ensures forall k <- states[i].leases :: k.id == l.id && Owns(states[i].jobs, k) ==> k == l
  {
    RunKeeps(states, steps, i);
    OwnerIsOpen(states[i], l);
    forall k | k in states[i].leases && k.id == l.id && Owns(states[i].jobs, k) ensures k == l {
      OwnerIsOpen(states[i], k);
    }
  }
}
