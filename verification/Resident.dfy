/** The resident worker of worker.rs: `claim_next` scans the tenants' queue heads, orders them
    fairly and claims; `tick` repeats it until it finds nothing. Time may pass before every
    statement; nothing else touches the queue meanwhile. */
module Residents {
  import opened Wrappers
  import opened Collections
  import opened JobQueue
  import opened FairRounds
  import opened FairLaws

  const MAX_TENANTS_PER_ROUND: nat := 32
  const HEAD_PER_TENANT: nat := 10

  predicate Selected(jobs: Table, now: nat, tenant: string, id: Id)
  {
    id in jobs && Eligible(jobs[id], now) && jobs[id].tenant == Some(tenant)
  }

  predicate Grouped(jobs: Table, now: nat, g: Option<string>, id: Id)
  {
    id in jobs && Eligible(jobs[id], now) && jobs[id].tenant == g
  }

  predicate Stamped(jobs: Table, now: nat, id: Id)
  {
    id in jobs && Eligible(jobs[id], now) && jobs[id].tenant.Some?
  }

  /** When a job was enqueued. */
  function Age(jobs: Table, id: Id): nat { if id in jobs then jobs[id].enqueuedAt else 0 }

  predicate OldestFirst(jobs: Table, ids: seq<Id>)
  {
    forall i, j :: 0 <= i < j < |ids| ==> ids[i] != ids[j] && Age(jobs, ids[i]) <= Age(jobs, ids[j])
  }

  predicate NoneOlder(jobs: Table, ids: seq<Id>, others: set<Id>)
  {
    forall i, id :: 0 <= i < |ids| && id in others ==> Age(jobs, ids[i]) <= Age(jobs, id)
  }

  function Others(jobs: Table, now: nat, tenant: string, ids: seq<Id>): set<Id>
  {
    set id | id in jobs && Selected(jobs, now, tenant, id) && id !in ids
  }

  /** The oldest eligible jobs of a tenant, ten at most. */
  predicate Heads(jobs: Table, now: nat, tenant: string, ids: seq<Id>)
  {
    var others := Others(jobs, now, tenant, ids);
    && |ids| <= HEAD_PER_TENANT && (others != {} ==> |ids| == HEAD_PER_TENANT)
    && (forall id <- ids :: Selected(jobs, now, tenant, id))
    && OldestFirst(jobs, ids) && NoneOlder(jobs, ids, others)
  }

  function SourceOf(r: Row): Source { if r.status == Running then FromExpired else FromQueue }

  // ---- the attempts left ----

  function Left(r: Row): nat { if Attempts(r) < MAX_ATTEMPTS then MAX_ATTEMPTS - Attempts(r) else 0 }

  /** Attempts all the jobs together may still consume. */
  ghost function Budget(jobs: Table): nat
    decreases |jobs|
  {
    if jobs == map[] then 0 else Left(jobs[Pick(jobs)]) + Budget(jobs - {Pick(jobs)})
  }

  lemma {:induction false} BudgetWithout(jobs: Table, id: Id)
    requires id in jobs
    ensures Budget(jobs) == Left(jobs[id]) + Budget(jobs - {id})
    decreases |jobs|
  {
    var p := Pick(jobs);
    if p != id {
      BudgetWithout(jobs - {p}, id);
      BudgetWithout(jobs - {id}, p);
      assert (jobs - {p}) - {id} == (jobs - {id}) - {p};
    }
  }

  lemma BudgetPut(jobs: Table, id: Id, r: Row)
    requires id in jobs
    ensures Budget(jobs[id := r]) == Budget(jobs) - Left(jobs[id]) + Left(r)
  {
    BudgetWithout(jobs, id);
    BudgetWithout(jobs[id := r], id);
    assert jobs[id := r] - {id} == jobs - {id};
  }

  lemma {:induction false} BudgetSame(a: Table, b: Table)
    requires a.Keys == b.Keys && forall id <- a :: Left(a[id]) == Left(b[id])
    ensures Budget(a) == Budget(b)
    decreases |a|
  {
    if a != map[] {
      var p := Pick(a);
      BudgetWithout(b, p);
      BudgetSame(a - {p}, b - {p});
    } else {
      assert b == map[];
    }
  }

  // ---- the scan ----

  lemma {:induction false} JobListed(es: seq<Entry>, job: string, tenant: string)
    ensures job in JobsOf(es, tenant) <==> (job, tenant) in es
  {
    if es != [] {
      var n := |es| - 1;
      JobListed(es[..n], job, tenant);
      assert es == es[..n] + [es[n]];
    }
  }

  /** The first job of a fair order is the first listed job of its tenant. */
  lemma HeadIsFirst(queued: seq<Entry>, caps: map<string, nat>, round: nat)
    requires queued != [] && forall t <- caps :: caps[t] >= 1
    ensures var order := Order(queued, caps, round);
            && order != [] && order[0] in queued
            && JobsOf(queued, order[0].1) != [] && JobsOf(queued, order[0].1)[0] == order[0].0
  {
    var order := Order(queued, caps, round);
    hide Order;
    var (job, tenant) := queued[0];
    FairShare(queued, caps, round, tenant);
    JobListed(queued, job, tenant);
    assert JobsOf(order, tenant) != [];
    assert order != [];
    FirstJob(order);
    var t := order[0].1;
    FairShare(queued, caps, round, t);
    JobListed(queued, order[0].0, t);
  }

  lemma {:induction false} FirstJob(es: seq<Entry>)
    requires es != []
    ensures JobsOf(es, es[0].1) != [] && JobsOf(es, es[0].1)[0] == es[0].0
  {
    if |es| > 1 {
      FirstJob(es[..|es| - 1]);
    } else {
      JobsOne(es[0], es[0].1);
    }
  }

  // ---- what a scan has listed ----

  function Tagged(ids: seq<Id>, tenant: string): (es: seq<Entry>)
    ensures |es| == |ids|
  {
    seq(|ids|, i requires 0 <= i < |ids| => (ids[i], tenant))
  }

  lemma {:induction false} TaggedJobs(ids: seq<Id>, tenant: string, t: string)
    ensures JobsOf(Tagged(ids, tenant), t) == if t == tenant then ids else []
  {
    if ids != [] {
      var n := |ids| - 1;
      assert Tagged(ids, tenant)[..n] == Tagged(ids[..n], tenant);
      TaggedJobs(ids[..n], tenant, t);
      assert ids[..n] + [ids[n]] == ids;
    }
  }

  /** Listed jobs are eligible now, with the source their status called for; and each tenant's list
      starts with a job no younger than any that was eligible when the scan began. */
  ghost predicate Listed(jobs: Table, scanAt: nat, now: nat, es: seq<Entry>, sources: map<Id, Source>)
  {
    && (forall e <- es :: Selected(jobs, now, e.1, e.0) && e.0 in sources && sources[e.0] == SourceOf(jobs[e.0]))
    && (forall t, id :: JobsOf(es, t) != [] && Selected(jobs, scanAt, t, id) ==> Age(jobs, JobsOf(es, t)[0]) <= Age(jobs, id))
  }

  lemma ListMore(jobs: Table, scanAt: nat, was: nat, now: nat, es: seq<Entry>, sources: map<Id, Source>,
                 tenant: string, ids: seq<Id>, more: map<Id, Source>)
    requires scanAt <= was <= now && Listed(jobs, scanAt, was, es, sources) && Heads(jobs, now, tenant, ids)
    requires more == sources + map id | id in ids && id in jobs :: SourceOf(jobs[id])
    ensures Listed(jobs, scanAt, now, es + Tagged(ids, tenant), more)
    ensures (exists id :: Selected(jobs, scanAt, tenant, id)) ==> ids != []
  {
    hide Heads, Eligible, Age, SourceOf, JobsOf;
    var all := es + Tagged(ids, tenant);
    forall e | e in all
      ensures Selected(jobs, now, e.1, e.0) && e.0 in more && more[e.0] == SourceOf(jobs[e.0])
    {
      if e in es {
        Later(jobs, was, now, e.1, e.0);
      } else {
        HeadSelected(jobs, now, tenant, ids, e.0);
      }
    }
    forall t, id | JobsOf(all, t) != [] && Selected(jobs, scanAt, t, id)
      ensures Age(jobs, JobsOf(all, t)[0]) <= Age(jobs, id)
    {
      JobsAppend(es, Tagged(ids, tenant), t);
      TaggedJobs(ids, tenant, t);
      if JobsOf(es, t) == [] { FirstHead(jobs, scanAt, now, tenant, ids, id); }
    }
    forall id | Selected(jobs, scanAt, tenant, id) ensures ids != [] {
      FirstHead(jobs, scanAt, now, tenant, ids, id);
    }
  }

  lemma Later(jobs: Table, a: nat, b: nat, tenant: string, id: Id)
    requires a <= b && Selected(jobs, a, tenant, id)
    ensures Selected(jobs, b, tenant, id)
  {}

  lemma HeadSelected(jobs: Table, now: nat, tenant: string, ids: seq<Id>, id: Id)
    requires Heads(jobs, now, tenant, ids) && id in ids
    ensures Selected(jobs, now, tenant, id)
  {
    hide Eligible;
  }

  /** The first head of a tenant is no younger than any job it already had before. */
  lemma FirstHead(jobs: Table, scanAt: nat, now: nat, tenant: string, ids: seq<Id>, id: Id)
    requires Heads(jobs, now, tenant, ids) && scanAt <= now && Selected(jobs, scanAt, tenant, id)
    ensures ids != [] && Age(jobs, ids[0]) <= Age(jobs, id)
  {
    Later(jobs, scanAt, now, tenant, id);
    hide Eligible, Age;
    if id in ids {
      var i :| 0 <= i < |ids| && ids[i] == id;
    } else {
      assert id in Others(jobs, now, tenant, ids);
      assert |ids| == HEAD_PER_TENANT;
    }
  }

  lemma NothingListed(jobs: Table, scanAt: nat)
    ensures Listed(jobs, scanAt, scanAt, [], map[])
  {}

  /** The head of the fair order, if it is the first listed job of its tenant. */
  lemma HeadListed(jobs: Table, scanAt: nat, now: nat, es: seq<Entry>, sources: map<Id, Source>, e: Entry)
    requires Listed(jobs, scanAt, now, es, sources) && e in es
    requires JobsOf(es, e.1) != [] && JobsOf(es, e.1)[0] == e.0
    ensures Selected(jobs, now, e.1, e.0) && e.0 in sources && sources[e.0] == SourceOf(jobs[e.0])
    ensures forall id :: Selected(jobs, scanAt, e.1, id) ==> Age(jobs, e.0) <= Age(jobs, id)
  {
    hide Eligible, Age, JobsOf;
  }

  /** `after` is `before` with the job of `l` claimed. */
  predicate IsClaim(before: Table, after: Table, l: Lease, worker: string, now: nat)
  {
    && Stamped(before, now, l.id) && l.attempt == Attempts(before[l.id]) + 1
    && after == before[l.id := ClaimRow(before[l.id], worker, l.token, now)]
  }

  lemma ClaimWithin(jobs: Table, id: Id, now: nat)
    requires Stamped(jobs, now, id)
    ensures Attempts(jobs[id]) < MAX_ATTEMPTS
  {}

  /** The source recorded when a job was listed still lets it be claimed. */
  lemma StillClaimable(jobs: Table, now: nat, later: nat, tenant: string, id: Id)
    requires Selected(jobs, now, tenant, id) && now <= later
    ensures CanClaim(jobs, id, SourceOf(jobs[id]), later) && Stamped(jobs, later, id)
  {}

  /** Of two different groups, or of thirty-two, at least one names a tenant. */
  lemma SomeNamed(groups: seq<Option<string>>, named: string)
    requires Some(named) in groups
    requires forall i, j :: 0 <= i < j < |groups| ==> groups[i] != groups[j]
    ensures exists i :: 0 <= i < |groups| && i < MAX_TENANTS_PER_ROUND && groups[i].Some?
  {
    var i :| 0 <= i < |groups| && groups[i] == Some(named);
    if i >= MAX_TENANTS_PER_ROUND { assert groups[0].Some? || groups[1].Some?; }
  }

  lemma BudgetClaimed(jobs: Table, reapedAt: nat, id: Id, worker: string, token: Token, now: nat)
    requires id in jobs && Eligible(Reaped(jobs, reapedAt)[id], now)
    ensures var after := Reaped(jobs, reapedAt);
            Budget(after[id := ClaimRow(after[id], worker, token, now)]) == Budget(jobs) - 1
  {
    var after := Reaped(jobs, reapedAt);
    BudgetSame(jobs, after);
    BudgetPut(after, id, ClaimRow(after[id], worker, token, now));
  }

  // ---- jobs without a tenant ----

  /** Jobs without a tenant that have attempts left are just as they were. */
  predicate UnstampedKept(before: Table, after: Table)
  {
    forall id <- before :: before[id].tenant == None && Attempts(before[id]) < MAX_ATTEMPTS ==>
                             id in after && after[id] == before[id]
  }

  lemma ReapKeepsUnstamped(jobs: Table, now: nat)
    ensures UnstampedKept(jobs, Reaped(jobs, now))
  {}

  lemma KeptTwice(a: Table, b: Table, c: Table)
    requires UnstampedKept(a, b) && UnstampedKept(b, c)
    ensures UnstampedKept(a, c)
  {}

  /** Claiming a stamped job, and then changing that job only, leaves the others alone. */
  lemma ClaimKeepsUnstamped(before: Table, claimed: Table, after: Table, l: Lease, worker: string, now: nat)
    requires IsClaim(before, claimed, l, worker, now)
    requires forall id <- claimed :: id != l.id ==> id in after && after[id] == claimed[id]
    ensures UnstampedKept(before, after)
  {
    hide Eligible, ClaimRow;
  }

  class Resident {
    const queue: Queue
    const door: WorkerDoor
    const name: string
    /** The tenant of the worker's own database, read for groups without one. */
    const home: string

    constructor (q: Queue, d: WorkerDoor, name: string, home: string)
      ensures queue == q && door == d
    {
      queue, door, this.name, this.home := q, d, name, home;
    }

    /** The clock moves on by any amount. */
    method Elapse()
      modifies queue`now
      ensures queue.now >= old(queue.now)
    {
      assert queue.now <= queue.now;
      var later: nat :| queue.now <= later;
      queue.now := later;
    }

    /** SELECT tenant ... GROUP BY tenant, in whatever order. */
    method TenantGroups() returns (groups: seq<Option<string>>)
      ensures forall i, j :: 0 <= i < j < |groups| ==> groups[i] != groups[j]
      ensures forall g :: g in groups <==> exists id :: Grouped(queue.jobs, queue.now, g, id)
    {
      var todo := set id | id in queue.jobs && Eligible(queue.jobs[id], queue.now) :: queue.jobs[id].tenant;
      ghost var all := todo;
      forall g ensures g in all <==> exists id :: Grouped(queue.jobs, queue.now, g, id) {
        if g in all {
          var id :| id in queue.jobs && Eligible(queue.jobs[id], queue.now) && queue.jobs[id].tenant == g;
          assert Grouped(queue.jobs, queue.now, g, id);
        }
      }
      groups := [];
      while todo != {}
        invariant forall i, j :: 0 <= i < j < |groups| ==> groups[i] != groups[j]
        invariant forall g :: g in groups <==> g in all && g !in todo
        invariant todo <= all
        decreases |todo|
      {
        var g :| g in todo;
        groups, todo := groups + [g], todo - {g};
      }
    }

    /** SELECT ... ORDER BY enqueued_at LIMIT 10 for one tenant. */
    method HeadsOf(tenant: string) returns (ids: seq<Id>)
      ensures Heads(queue.jobs, queue.now, tenant, ids)
    {
      var jobs := queue.jobs;
      var todo := set id | id in jobs && Selected(jobs, queue.now, tenant, id);
      ids := [];
      while todo != {} && |ids| < HEAD_PER_TENANT
        invariant |ids| <= HEAD_PER_TENANT
        invariant forall id :: Selected(jobs, queue.now, tenant, id) <==> id in todo || id in ids
        invariant forall id <- todo :: id !in ids
        invariant OldestFirst(jobs, ids) && NoneOlder(jobs, ids, todo)
        decreases |todo|
      {
        var id := Oldest(jobs, todo);
        assert forall i :: 0 <= i < |ids| ==> Age(jobs, ids[i]) <= Age(jobs, id);
        ids, todo := ids + [id], todo - {id};
      }
      assert Others(jobs, queue.now, tenant, ids) == todo;
    }

    static method Oldest(jobs: Table, ids: set<Id>) returns (id: Id)
      requires ids != {} && ids <= jobs.Keys
      ensures id in ids && forall k <- ids :: Age(jobs, id) <= Age(jobs, k)
    {
      id :| id in ids;
      var todo := ids - {id};
      while todo != {}
        invariant id in ids && todo <= ids
        invariant forall k <- ids :: k !in todo ==> Age(jobs, id) <= Age(jobs, k)
        decreases |todo|
      {
        var k :| k in todo;
        if Age(jobs, k) < Age(jobs, id) { id := k; }
        todo := todo - {k};
      }
    }

    /** The heads of up to 32 tenants, each listed with its tenant and the source to claim it from.
        Nothing listed means that no job stamped with a tenant was eligible when this began. */
    method ListHeads() returns (listed: seq<Entry>, sources: map<Id, Source>)
      modifies queue`now
      ensures old(queue.now) <= queue.now
      ensures Listed(queue.jobs, old(queue.now), queue.now, listed, sources)
      ensures listed == [] ==> forall id :: !Stamped(queue.jobs, old(queue.now), id)
    {
      ghost var base, scanAt := queue.jobs, queue.now;
      var groups := TenantGroups();
      listed, sources := [], map[];
      var n := if |groups| < MAX_TENANTS_PER_ROUND then |groups| else MAX_TENANTS_PER_ROUND;
      hide Heads, Eligible, Listed;
      NothingListed(base, scanAt);
      for i := 0 to n
        invariant scanAt <= queue.now && Listed(base, scanAt, queue.now, listed, sources)
        invariant forall j :: 0 <= j < i && groups[j].Some? ==> listed != []
      {
        var tenant := if groups[i].Some? then groups[i].value else home;
        ghost var was := queue.now;
        Elapse();
        var ids := HeadsOf(tenant);
        var more := sources + map id | id in ids && id in queue.jobs :: SourceOf(queue.jobs[id]);
        ListMore(base, scanAt, was, queue.now, listed, sources, tenant, ids, more);
        if groups[i].Some? {
          assert groups[i] in groups;
          ghost var id :| Grouped(base, scanAt, groups[i], id);
          assert Selected(base, scanAt, tenant, id);
        }
        listed, sources := listed + Tagged(ids, tenant), more;
      }
      if listed == [] {
        forall id ensures !Stamped(base, scanAt, id) {
          if Stamped(base, scanAt, id) {
            assert Grouped(base, scanAt, base[id].tenant, id);
            SomeNamed(groups, base[id].tenant.value);
          }
        }
      }
    }

    /** One claim: reap, list the heads, claim in fair order. Nothing claimed means that no job
        stamped with a tenant was eligible when the scan began; a claimed job is the oldest its
        tenant had then. */
    method ClaimNext() returns (lease: Option<Lease>, ghost reapedAt: nat, ghost scanAt: nat)
      requires forall t <- door.caps :: door.caps[t] >= 1
      modifies queue, door`round
      ensures old(queue.now) <= reapedAt <= scanAt <= queue.now
      ensures var base := Reaped(old(queue.jobs), reapedAt);
              && (lease.None? ==> queue.jobs == base && forall id :: !Stamped(base, scanAt, id))
              && (lease.Some? ==>
                    && IsClaim(base, queue.jobs, lease.value, name, queue.now) && Owns(queue.jobs, lease.value)
                    && lease.value.attempt <= MAX_ATTEMPTS
                    && forall id :: Selected(base, scanAt, base[lease.value.id].tenant.value, id) ==>
                                      Age(base, lease.value.id) <= Age(base, id))
    {
      reapedAt := queue.now;
      queue.ReapExhausted();
      ghost var base := queue.jobs;
      Elapse();
      scanAt := queue.now;
      var listed, sources := ListHeads();
      ghost var listedAt := queue.now;
      ghost var fair := Order(listed, door.caps, door.round);
      if listed != [] {
        HeadIsFirst(listed, door.caps, door.round);
        HeadListed(base, scanAt, listedAt, listed, sources, fair[0]);
      }
      var order := door.FairRound(listed);
      hide Listed, Order, Reaped, Eligible, Heads, Age, JobsOf;
      lease := None;
      var i := 0;
      while i < |order| && lease.None?
        invariant i <= |order| && listedAt <= queue.now
        invariant lease.None? ==> i == 0 && queue.jobs == base
        invariant lease.Some? ==>
          && fair != [] && lease.value.id == fair[0].0 && Owns(queue.jobs, lease.value)
          && IsClaim(base, queue.jobs, lease.value, name, queue.now)
      {
        var id := order[i];
        Elapse();
        StillClaimable(base, listedAt, queue.now, fair[0].1, id);
        lease := queue.TryClaimFrom(id, name, if id in sources then sources[id] else FromQueue);
        i := i + 1;
      }
      if lease.Some? { ClaimWithin(base, lease.value.id, queue.now); }
    }

    /** The effect may end in any way, and the update that records it may be lost. */
    method Run(l: Lease)
      requires Owns(queue.jobs, l)
      modifies queue`jobs, queue`now
      ensures queue.now >= old(queue.now)
      ensures Budget(queue.jobs) == old(Budget(queue.jobs))
      ensures forall id <- old(queue.jobs) :: id != l.id ==> id in queue.jobs && queue.jobs[id] == old(queue.jobs)[id]
    {
      Elapse();
      var o: Option<Outcome> :| true;
      if o.Some? {
        BudgetPut(queue.jobs, l.id, Settled(queue.jobs[l.id], l.attempt, o.value));
        var applied := queue.Settle(l, o.value);
      }
    }

    /** Claim and run until nothing is found. Every claim costs an attempt, so this ends; and then
        no job stamped with a tenant was eligible when the last scan began. Jobs without a tenant are
        never served: those that were eligible are left as they were, and still are. */
    method Tick() returns (ran: nat, ghost scanAt: nat)
      requires forall t <- door.caps :: door.caps[t] >= 1
      modifies queue, door`round
      ensures ran + Budget(queue.jobs) == Budget(old(queue.jobs))
      ensures old(queue.now) <= scanAt <= queue.now
      ensures forall id :: !Stamped(queue.jobs, scanAt, id)
      ensures UnstampedKept(old(queue.jobs), queue.jobs)
      ensures forall id <- old(queue.jobs) :: old(queue.jobs)[id].tenant == None && Eligible(old(queue.jobs)[id], old(queue.now)) ==>
                id in queue.jobs && Eligible(queue.jobs[id], queue.now)
    {
      ran := 0;
      while true
        invariant queue.now >= old(queue.now)
        invariant ran + Budget(queue.jobs) == Budget(old(queue.jobs))
        invariant UnstampedKept(old(queue.jobs), queue.jobs)
        decreases Budget(queue.jobs)
      {
        ghost var before := queue.jobs;
        var lease, reapedAt, at := ClaimNext();
        ghost var reaped, claimed, claimedAt := Reaped(before, reapedAt), queue.jobs, queue.now;
        ReapKeepsUnstamped(before, reapedAt);
        KeptTwice(old(queue.jobs), before, reaped);
        if lease.None? {
          BudgetSame(before, queue.jobs);
          return ran, at;
        }
        BudgetClaimed(before, reapedAt, lease.value.id, name, lease.value.token, queue.now);
        Run(lease.value);
        ClaimKeepsUnstamped(reaped, claimed, queue.jobs, lease.value, name, claimedAt);
        KeptTwice(old(queue.jobs), reaped, queue.jobs);
        ran := ran + 1;
      }
    }
  }
}
