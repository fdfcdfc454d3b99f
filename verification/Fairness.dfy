/** The broker door of fairness.rs: one token bucket per tenant, over real time and real tokens. */
module TokenBuckets {
  import opened Wrappers

  /** `Unlimited` stands for an infinite rate. */
  datatype Policy = Unlimited | Limited(rate: real, burst: real)

  predicate Sound(p: Policy) { p.Limited? ==> p.rate > 0.0 && p.burst >= 0.0 }

  datatype Bucket = Bucket(tokens: real, last: real, policy: Policy)

  function Refill(rate: real, elapsed: real): real { elapsed * rate }

  function Wait(missing: real, rate: real): real
    requires rate > 0.0
  {
    missing / rate
  }

  function NewBucket(p: Policy, now: real): Bucket
  {
    Bucket(if p.Limited? then p.burst else 0.0, now, p)
  }

  function Refilled(b: Bucket, now: real): real
    requires b.policy.Limited?
  {
    var t := b.tokens + Refill(b.policy.rate, now - b.last);
    if t < b.policy.burst then t else b.policy.burst
  }

  /** The bucket after a call at `now`, and the verdict: admitted, or the seconds to wait. */
  function Take(b: Bucket, now: real): (r: (Bucket, Result<(), real>))
    requires Sound(b.policy)
    ensures r.0.policy == b.policy
  {
    if b.policy.Unlimited? then (b, Ok(()))
    else
      var t := Refilled(b, now);
      if t >= 1.0 then (b.(tokens := t - 1.0, last := now), Ok(()))
      else (b.(tokens := t, last := now), Err(Wait(1.0 - t, b.policy.rate)))
  }

  /** Tokens never leave [0, burst]. */
  predicate Valid(b: Bucket)
  {
    Sound(b.policy) && (b.policy.Limited? ==> 0.0 <= b.tokens <= b.policy.burst)
  }

  lemma RefillFacts(rate: real, a: real, b: real)
    requires rate > 0.0
    ensures Refill(rate, a + b) == Refill(rate, a) + Refill(rate, b)
    ensures Refill(rate, 0.0) == 0.0
    ensures a >= 0.0 <==> Refill(rate, a) >= 0.0
  {}

  lemma WaitFills(missing: real, rate: real)
    requires rate > 0.0
    ensures Refill(rate, Wait(missing, rate)) == missing
  {}

  lemma TakeValid(b: Bucket, now: real)
    requires Valid(b) && b.last <= now
    ensures Valid(Take(b, now).0)
    ensures b.policy.Limited? ==> Take(b, now).0.last == now
    ensures b.policy.Limited? ==>
              var admitted := if Take(b, now).1.Ok? then 1.0 else 0.0;
              admitted + Take(b, now).0.tokens <= b.tokens + Refill(b.policy.rate, now - b.last)
  {
    if b.policy.Limited? { RefillFacts(b.policy.rate, now - b.last, 0.0); }
    hide Refill, Wait;
  }

  // ---- sequences of calls ----

  predicate Ordered(times: seq<real>, since: real)
  {
    times != [] ==> since <= times[0] && Ordered(times[1..], times[0])
  }

  function TakeAll(b: Bucket, times: seq<real>): Bucket
    requires Sound(b.policy)
    decreases |times|
  {
    if times == [] then b else TakeAll(Take(b, times[0]).0, times[1..])
  }

  function Admitted(b: Bucket, times: seq<real>): nat
    requires Sound(b.policy)
    decreases |times|
  {
    if times == [] then 0
    else
      var (next, verdict) := Take(b, times[0]);
      (if verdict.Ok? then 1 else 0) + Admitted(next, times[1..])
  }

  function End(times: seq<real>, since: real): real { if times == [] then since else times[|times| - 1] }

  /** Any calls from any reachable bucket: what is admitted is paid for by the tokens at the start
      and the refill since. */
  lemma {:induction false} AdmittedPaid(b: Bucket, times: seq<real>)
    requires Valid(b) && b.policy.Limited? && Ordered(times, b.last)
    ensures Valid(TakeAll(b, times)) && TakeAll(b, times).policy == b.policy
    ensures Admitted(b, times) as real + TakeAll(b, times).tokens
            <= b.tokens + Refill(b.policy.rate, End(times, b.last) - b.last)
    decreases |times|
  {
    if times == [] {
      RefillFacts(b.policy.rate, 0.0, 0.0);
    } else {
      TakeValid(b, times[0]);
      var next := Take(b, times[0]).0;
      AdmittedPaid(next, times[1..]);
      RefillFacts(b.policy.rate, times[0] - b.last, End(times, b.last) - times[0]);
      hide Refill, Take;
      assert (times[0] - b.last) + (End(times, b.last) - times[0]) == End(times, b.last) - b.last;
    }
  }

  /** In any window of calls, at most burst + rate * elapsed are admitted. */
  lemma RateBound(b: Bucket, times: seq<real>)
    requires Valid(b) && b.policy.Limited? && Ordered(times, b.last)
    ensures Admitted(b, times) as real <= b.policy.burst + Refill(b.policy.rate, End(times, b.last) - b.last)
  {
    AdmittedPaid(b, times);
    hide Refill, Admitted;
  }

  /** The hint is exact: after a refusal, the next call succeeds if and only if it comes no earlier
      than the hint says and the burst can hold a whole token. */
  lemma HintExact(b: Bucket, now: real, later: real)
    requires Valid(b) && b.last <= now <= later && Take(b, now).1.Err?
    ensures var (next, verdict) := Take(b, now);
            && verdict.error > 0.0
            && (Take(next, later).1.Ok? <==> later >= now + verdict.error && b.policy.burst >= 1.0)
  {
    TakeValid(b, now);
    var rate, t := b.policy.rate, Refilled(b, now);
    var w := Wait(1.0 - t, rate);
    WaitFills(1.0 - t, rate);
    RefillFacts(rate, later - now - w, w);
    RefillFacts(rate, w, 0.0);
    hide Refill, Wait;
    assert (later - now - w) + w == later - now;
    var (next, verdict) := Take(b, now);
    assert next == b.(tokens := t, last := now) && verdict == Err(w);
    var refilled := Refilled(next, later);
    assert Refill(rate, later - now) == Refill(rate, later - now - w) + (1.0 - t);
    assert t + Refill(rate, later - now) >= 1.0 <==> later - now - w >= 0.0;
    assert refilled >= 1.0 <==> later - now - w >= 0.0 && b.policy.burst >= 1.0;
  }

  /** Milliseconds, rounded up. */
  function CeilMs(seconds: real): (ms: int)
    ensures (ms - 1) as real < seconds * 1000.0 <= ms as real
  {
    var f := (seconds * 1000.0).Floor;
    if f as real == seconds * 1000.0 then f else f + 1
  }

  /** The bucket table behind `admit_verb`. */
  class VerbDoor {
    var policies: map<string, Policy>
    var buckets: map<string, Bucket>

    ghost predicate Ok()
      reads this
    {
      && (forall t <- policies :: Sound(policies[t]))
      && (forall t <- buckets :: Valid(buckets[t]) && buckets[t].policy == PolicyFor(t))
    }

    constructor ()
      ensures Ok() && policies == map[] && buckets == map[]
    {
      policies, buckets := map[], map[];
    }

    function PolicyFor(tenant: string): Policy
      reads this
    {
      if tenant in policies then policies[tenant] else Unlimited
    }

    method SetPolicy(tenant: string, policy: Policy, now: real)
      requires Ok() && Sound(policy)
      modifies this
      ensures Ok()
      ensures policies == old(policies)[tenant := policy]
      ensures buckets == old(buckets)[tenant := NewBucket(policy, now)]
    {
      policies := policies[tenant := policy];
      buckets := buckets[tenant := NewBucket(policy, now)];
    }

    /** The verdict on one verb; a refusal carries the hint in milliseconds. Only this tenant's
        bucket is touched. */
    method AdmitVerb(tenant: string, now: real) returns (refused: Option<int>)
      requires Ok() && (tenant in buckets ==> buckets[tenant].last <= now)
      modifies `buckets
      ensures Ok() && buckets.Keys == old(buckets).Keys + {tenant}
      ensures forall t <- old(buckets) :: t != tenant ==> buckets[t] == old(buckets)[t]
      ensures var b := if tenant in old(buckets) then old(buckets)[tenant] else NewBucket(PolicyFor(tenant), now);
              && Sound(b.policy) && buckets[tenant] == Take(b, now).0
              && (refused.None? <==> Take(b, now).1.Ok?)
              && (refused.Some? ==> refused.value == CeilMs(Take(b, now).1.error))
              && (refused.Some? && b.policy.burst >= 1.0 ==>
                    Take(buckets[tenant], now + refused.value as real / 1000.0).1.Ok?)
    {
      var b := if tenant in buckets then buckets[tenant] else NewBucket(PolicyFor(tenant), now);
      var (next, verdict) := Take(b, now);
      TakeValid(b, now);
      buckets := buckets[tenant := next];
      if verdict.Ok? { return None; }
      var ms := CeilMs(verdict.error);
      HintExact(b, now, now);
      HintExact(b, now, now + ms as real / 1000.0);
      return Some(ms);
    }
  }
}

/** The worker door of fairness.rs: the claim order that interleaves the tenants. */
module FairRounds {
  import opened Collections

  /** A queued job with its tenant, oldest first. */
  type Entry = (string, string)

  datatype Group = Group(tenant: string, jobs: seq<string>)

  const UNCAPPED: nat := 0xFFFF_FFFF_FFFF_FFFF

  function Cap(caps: map<string, nat>, tenant: string): nat
  {
    if tenant in caps then caps[tenant] else UNCAPPED
  }

  function JobsOf(es: seq<Entry>, tenant: string): seq<string>
  {
    if es == [] then []
    else
      var n := |es| - 1;
      JobsOf(es[..n], tenant) + if es[n].1 == tenant then [es[n].0] else []
  }

  /** The tenants in order of first appearance. */
  function Tenants(es: seq<Entry>): seq<string>
  {
    if es == [] then []
    else
      var before := Tenants(es[..|es| - 1]);
      if es[|es| - 1].1 in before then before else before + [es[|es| - 1].1]
  }

  function Groups(es: seq<Entry>, tenants: seq<string>): (gs: seq<Group>)
    ensures |gs| == |tenants|
  {
    seq(|tenants|, i requires 0 <= i < |tenants| => Group(tenants[i], JobsOf(es, tenants[i])))
  }

  function RotateLeft<T>(s: seq<T>, k: nat): (r: seq<T>)
    requires k <= |s|
    ensures |r| == |s|
  {
    s[k..] + s[..k]
  }

  function Quota(g: Group, caps: map<string, nat>): nat { Min(Cap(caps, g.tenant), |g.jobs|) }

  /** Pass `k` over the groups: everybody's k-th job, from those who still have one to spend. */
  function Layer(gs: seq<Group>, caps: map<string, nat>, k: nat): seq<Entry>
  {
    if gs == [] then []
    else
      var n := |gs| - 1;
      Layer(gs[..n], caps, k) + if k < Quota(gs[n], caps) then [(gs[n].jobs[k], gs[n].tenant)] else []
  }

  function Passes(gs: seq<Group>, caps: map<string, nat>, p: nat): seq<Entry>
  {
    if p == 0 then [] else Passes(gs, caps, p - 1) + Layer(gs, caps, p - 1)
  }

  /** The largest quota. */
  function Depth(gs: seq<Group>, caps: map<string, nat>): nat
  {
    if gs == [] then 0
    else
      var d, q := Depth(gs[..|gs| - 1], caps), Quota(gs[|gs| - 1], caps);
      if d < q then q else d
  }

  /** The round a counter value starts: rotated groups, then passes until nobody has a job left. */
  function Rotated(queued: seq<Entry>, round: nat): (gs: seq<Group>)
    ensures |gs| == |Tenants(queued)|
  {
    var tenants := Tenants(queued);
    Groups(queued, if |tenants| > 1 then RotateLeft(tenants, round % |tenants|) else tenants)
  }

  function Order(queued: seq<Entry>, caps: map<string, nat>, round: nat): seq<Entry>
  {
    var gs := Rotated(queued, round);
    Passes(gs, caps, Depth(gs, caps))
  }

  function Ids(es: seq<Entry>): (ids: seq<string>)
    ensures |ids| == |es|
  {
    seq(|es|, i requires 0 <= i < |es| => es[i].0)
  }

  // ---- the code's loops ----

  lemma {:induction false} TenantsDistinct(es: seq<Entry>)
    ensures forall i, j :: 0 <= i < j < |Tenants(es)| ==> Tenants(es)[i] != Tenants(es)[j]
    ensures forall i :: 0 <= i < |es| ==> es[i].1 in Tenants(es)
  {
    if es != [] {
      var n := |es| - 1;
      TenantsDistinct(es[..n]);
      assert forall i :: 0 <= i < n ==> es[..n][i] == es[i];
    }
  }

  lemma {:induction false} NoJobs(es: seq<Entry>, tenant: string)
    requires tenant !in Tenants(es)
    ensures JobsOf(es, tenant) == []
  {
    if es != [] { NoJobs(es[..|es| - 1], tenant); }
  }

  /** Grouping: the first group with the tenant gets the job, or a new group is added. */
  lemma GroupStep(es: seq<Entry>, e: Entry, i: nat)
    requires i <= |Tenants(es)| && (i < |Tenants(es)| ==> Tenants(es)[i] == e.1)
    requires i == |Tenants(es)| ==> e.1 !in Tenants(es)
    ensures var (gs, more) := (Groups(es, Tenants(es)), es + [e]);
            Groups(more, Tenants(more)) ==
            if i < |gs| then gs[i := gs[i].(jobs := gs[i].jobs + [e.0])] else gs + [Group(e.1, [e.0])]
  {
    var (gs, more) := (Groups(es, Tenants(es)), es + [e]);
    assert more[..|es|] == es && more[|es|] == e;
    TenantsDistinct(es);
    forall t ensures JobsOf(more, t) == JobsOf(es, t) + if e.1 == t then [e.0] else [] {}
    if i == |gs| { NoJobs(es, e.1); }
    assert Tenants(more) == if i < |gs| then Tenants(es) else Tenants(es) + [e.1];
    hide JobsOf, Tenants;
    var ts, want := Groups(more, Tenants(more)), if i < |gs| then gs[i := gs[i].(jobs := gs[i].jobs + [e.0])] else gs + [Group(e.1, [e.0])];
    forall k | 0 <= k < |ts| ensures ts[k] == want[k] {
      assert k < |gs| && k != i ==> Tenants(es)[k] != e.1;
    }
  }

  /** The pass over the groups as the loop makes it: one group at a time. */
  lemma LayerStep(gs: seq<Group>, caps: map<string, nat>, k: nat, i: nat)
    requires i < |gs|
    ensures Layer(gs[..i + 1], caps, k)
            == Layer(gs[..i], caps, k) + if k < Quota(gs[i], caps) then [(gs[i].jobs[k], gs[i].tenant)] else []
  {
    assert gs[..i + 1][..i] == gs[..i];
  }

  lemma IdsAppend(a: seq<Entry>, b: seq<Entry>)
    ensures Ids(a + b) == Ids(a) + Ids(b)
  {}

  lemma {:induction false} DepthBounds(gs: seq<Group>, caps: map<string, nat>, d: nat)
    requires forall i :: 0 <= i < |gs| ==> Quota(gs[i], caps) <= d
    ensures Depth(gs, caps) <= d
  {
    if gs != [] { DepthBounds(gs[..|gs| - 1], caps, d); }
  }

  lemma {:induction false} QuotaWithin(gs: seq<Group>, caps: map<string, nat>, i: nat)
    requires i < |gs|
    ensures Quota(gs[i], caps) <= Depth(gs, caps)
  {
    if i < |gs| - 1 { QuotaWithin(gs[..|gs| - 1], caps, i); }
  }

  lemma {:induction false} LayerEmpty(gs: seq<Group>, caps: map<string, nat>, k: nat)
    ensures Layer(gs, caps, k) == [] <==> forall i :: 0 <= i < |gs| ==> Quota(gs[i], caps) <= k
  {
    if gs != [] {
      var n := |gs| - 1;
      hide Quota;
      LayerEmpty(gs[..n], caps, k);
      assert forall i :: 0 <= i < n ==> gs[..n][i] == gs[i];
    }
  }

  /** Passes beyond the depth add nothing. */
  lemma {:induction false} PassesSettle(gs: seq<Group>, caps: map<string, nat>, p: nat)
    requires p >= Depth(gs, caps)
    ensures Passes(gs, caps, p) == Passes(gs, caps, Depth(gs, caps))
  {
    if p > Depth(gs, caps) {
      PassesSettle(gs, caps, p - 1);
      forall i | 0 <= i < |gs| ensures Quota(gs[i], caps) <= p - 1 { QuotaWithin(gs, caps, i); }
      LayerEmpty(gs, caps, p - 1);
    }
  }

  /** `fair_round`, with the round counter and the cap table as fields. */
  class WorkerDoor {
    var round: nat
    var caps: map<string, nat>

    constructor (c: map<string, nat>)
      ensures round == 0 && caps == c
    {
      round, caps := 0, c;
    }

    static method Grouped(queued: seq<Entry>) returns (byTenant: seq<Group>)
      ensures byTenant == Groups(queued, Tenants(queued))
    {
      byTenant := [];
      for n := 0 to |queued|
        invariant byTenant == Groups(queued[..n], Tenants(queued[..n]))
      {
        var (job, tenant) := queued[n];
        var i := 0;
        while i < |byTenant| && byTenant[i].tenant != tenant
          invariant i <= |byTenant|
          invariant forall j :: 0 <= j < i ==> byTenant[j].tenant != tenant
        {
          i := i + 1;
        }
        assert queued[..n + 1] == queued[..n] + [queued[n]];
        assert forall j :: 0 <= j < |byTenant| ==> byTenant[j].tenant == Tenants(queued[..n])[j];
        GroupStep(queued[..n], queued[n], i);
        if i < |byTenant| {
          byTenant := byTenant[i := byTenant[i].(jobs := byTenant[i].jobs + [job])];
        } else {
          byTenant := byTenant + [Group(tenant, [job])];
        }
      }
      assert queued[..|queued|] == queued;
    }

    method FairRound(queued: seq<Entry>) returns (out: seq<string>)
      modifies `round
      ensures out == Ids(Order(queued, caps, old(round)))
      ensures round == old(round) + if |Tenants(queued)| > 1 then 1 else 0
    {
      var byTenant := Grouped(queued);
      if |byTenant| > 1 {
        var start := round % |byTenant|;
        round := round + 1;
        byTenant := RotateLeft(byTenant, start);
      }
      assert byTenant == Rotated(queued, old(round));
      out := Interleave(byTenant, caps);
    }

    static method Interleave(byTenant: seq<Group>, caps: map<string, nat>) returns (out: seq<string>)
      ensures out == Ids(Passes(byTenant, caps, Depth(byTenant, caps)))
    {
      hide Quota, Ids, Passes, Layer, Depth;
      var n := |byTenant|;
      var taken := new nat[n](_ => 0);
      out := [];
      var progressed := true;
      ghost var p := 0;
      Start(byTenant, caps);
      while progressed
        invariant fresh(taken) && out == Ids(Passes(byTenant, caps, p))
        invariant forall i :: 0 <= i < n ==> taken[i] == Min(p, Quota(byTenant[i], caps))
        invariant !progressed ==> p >= Depth(byTenant, caps)
        decreases progressed, Depth(byTenant, caps) - p
      {
        progressed := false;
        ghost var before := out;
        PassStep(byTenant, caps, p);
        for i := 0 to n
          invariant out == before + Ids(Layer(byTenant[..i], caps, p))
          invariant fresh(taken)
          invariant forall j :: 0 <= j < n ==>
            taken[j] == Min(if j < i then p + 1 else p, Quota(byTenant[j], caps))
          invariant progressed <==> exists j :: 0 <= j < i && Quota(byTenant[j], caps) > p
        {
          PushStep(byTenant, caps, p, i);
          QuotaIs(byTenant[i], caps);
          if taken[i] < Cap(caps, byTenant[i].tenant) {
            if taken[i] < |byTenant[i].jobs| {
              out := out + [byTenant[i].jobs[taken[i]]];
              taken[i] := taken[i] + 1;
              progressed := true;
            }
          }
        }
        PassDone(byTenant, caps, p);
        p := p + 1;
      }
      PassesSettle(byTenant, caps, p);
    }
  }

  lemma QuotaIs(g: Group, caps: map<string, nat>)
    ensures Quota(g, caps) == Min(Cap(caps, g.tenant), |g.jobs|)
  {}

  lemma PassStep(gs: seq<Group>, caps: map<string, nat>, p: nat)
    ensures Ids(Layer(gs[..0], caps, p)) == []
    ensures gs[..|gs|] == gs && Ids(Passes(gs, caps, p + 1)) == Ids(Passes(gs, caps, p)) + Ids(Layer(gs, caps, p))
  {
    IdsAppend(Passes(gs, caps, p), Layer(gs, caps, p));
  }

  lemma PushStep(gs: seq<Group>, caps: map<string, nat>, p: nat, i: nat)
    requires i < |gs|
    ensures Ids(Layer(gs[..i + 1], caps, p))
            == Ids(Layer(gs[..i], caps, p)) + if p < Quota(gs[i], caps) then [gs[i].jobs[p]] else []
  {
    LayerStep(gs, caps, p, i);
  }

  /** A pass that moved nobody comes after the last useful one. */
  lemma PassDone(gs: seq<Group>, caps: map<string, nat>, p: nat)
    ensures (exists j :: 0 <= j < |gs| && Quota(gs[j], caps) > p) <==> Depth(gs, caps) > p
  {
    hide Quota;
    if j :| 0 <= j < |gs| && Quota(gs[j], caps) > p { QuotaWithin(gs, caps, j); }
    if forall j :: 0 <= j < |gs| ==> Quota(gs[j], caps) <= p { DepthBounds(gs, caps, p); }
  }

  lemma Start(gs: seq<Group>, caps: map<string, nat>)
    ensures Ids(Passes(gs, caps, 0)) == []
  {}
}
