/** What the fair claim order gives each tenant: its own jobs in its own order up to its cap, a
    bounded wait for each, and its turn at the head. */
module FairLaws {
  import opened Wrappers
  import opened Collections
  import opened FairRounds

  predicate Distinct(gs: seq<Group>)
  {
    forall i, j :: 0 <= i < j < |gs| ==> gs[i].tenant != gs[j].tenant
  }

  lemma {:induction false} JobsAppend(a: seq<Entry>, b: seq<Entry>, t: string)
    ensures JobsOf(a + b, t) == JobsOf(a, t) + JobsOf(b, t)
  {
    if b == [] {
      assert a + b == a;
    } else {
      var n := |b| - 1;
      assert (a + b)[..|a| + n] == a + b[..n];
      JobsAppend(a, b[..n], t);
    }
  }

  lemma {:induction false} LayerWithout(gs: seq<Group>, caps: map<string, nat>, k: nat, t: string)
    requires forall i :: 0 <= i < |gs| ==> gs[i].tenant != t
    ensures JobsOf(Layer(gs, caps, k), t) == []
  {
    if gs != [] {
      var n := |gs| - 1;
      hide Quota;
      LayerWithout(gs[..n], caps, k, t);
      JobsAppend(Layer(gs[..n], caps, k), Layer(gs, caps, k)[|Layer(gs[..n], caps, k)|..], t);
    }
  }

  lemma JobsOne(e: Entry, t: string)
    ensures JobsOf([e], t) == if e.1 == t then [e.0] else []
  {
    assert [e][..0] == [];
  }

  /** In pass `k` tenant `i` gets exactly its k-th job, after the tenants before it. */
  lemma {:induction false} LayerOf(gs: seq<Group>, caps: map<string, nat>, k: nat, i: nat)
    requires Distinct(gs) && i < |gs|
    ensures Layer(gs[..i], caps, k) <= Layer(gs, caps, k)
    ensures JobsOf(Layer(gs[..i], caps, k), gs[i].tenant) == []
    ensures JobsOf(Layer(gs, caps, k), gs[i].tenant) == if k < Quota(gs[i], caps) then [gs[i].jobs[k]] else []
    ensures k < Quota(gs[i], caps) ==>
              var q := |Layer(gs[..i], caps, k)|;
              q < |Layer(gs, caps, k)| && Layer(gs, caps, k)[q] == (gs[i].jobs[k], gs[i].tenant)
    decreases |gs|
  {
    hide Layer, JobsOf, Quota;
    var n, t := |gs| - 1, gs[i].tenant;
    var before, last := Layer(gs[..n], caps, k), gs[n];
    LayerLast(gs, caps, k);
    if k < Quota(last, caps) {
      QuotaIs(last, caps);
      JobsAppend(before, [(last.jobs[k], last.tenant)], t);
      JobsOne((last.jobs[k], last.tenant), t);
    } else {
      assert Layer(gs, caps, k) == before;
    }
    LayerWithout(gs[..i], caps, k, t);
    if i < n {
      assert gs[..n][..i] == gs[..i];
      LayerOf(gs[..n], caps, k, i);
    }
  }

  lemma LayerLast(gs: seq<Group>, caps: map<string, nat>, k: nat)
    requires gs != []
    ensures var last := gs[|gs| - 1];
            Layer(gs, caps, k) == Layer(gs[..|gs| - 1], caps, k) + if k < Quota(last, caps) then [(last.jobs[k], last.tenant)] else []
  {}

  lemma {:induction false} PassesOf(gs: seq<Group>, caps: map<string, nat>, p: nat, i: nat)
    requires Distinct(gs) && i < |gs|
    ensures JobsOf(Passes(gs, caps, p), gs[i].tenant) == gs[i].jobs[..Min(p, Quota(gs[i], caps))]
  {
    hide *;
    if p == 0 {
      NoPasses(gs, caps, gs[i]);
    } else {
      var g, before, here := gs[i], Passes(gs, caps, p - 1), Layer(gs, caps, p - 1);
      PassesOf(gs, caps, p - 1, i);
      LayerOf(gs, caps, p - 1, i);
      NextPass(gs, caps, p - 1);
      JobsAppend(before, here, g.tenant);
      QuotaIs(g, caps);
      TakeOne(g.jobs, p - 1, Quota(g, caps), Cap(caps, g.tenant));
    }
  }

  lemma NoPasses(gs: seq<Group>, caps: map<string, nat>, g: Group)
    ensures JobsOf(Passes(gs, caps, 0), g.tenant) == g.jobs[..Min(0, Quota(g, caps))] == []
  {}

  lemma TakeOne(jobs: seq<string>, k: nat, q: nat, cap: nat)
    requires q == Min(cap, |jobs|)
    ensures Min(k, q) <= |jobs| && Min(k + 1, q) <= |jobs|
    ensures jobs[..Min(k + 1, q)] == jobs[..Min(k, q)] + if k < q then [jobs[k]] else []
  {}

  lemma {:induction false} PassesPrefix(gs: seq<Group>, caps: map<string, nat>, a: nat, b: nat)
    requires a <= b
    ensures Passes(gs, caps, a) <= Passes(gs, caps, b)
    decreases b
  {
    if a < b { PassesPrefix(gs, caps, a, b - 1); }
  }

  lemma {:induction false} LayerLength(gs: seq<Group>, caps: map<string, nat>, k: nat)
    ensures |Layer(gs, caps, k)| <= |gs|
  {
    if gs != [] { LayerLength(gs[..|gs| - 1], caps, k); }
  }

  lemma {:induction false} PassesLength(gs: seq<Group>, caps: map<string, nat>, p: nat)
    ensures |Passes(gs, caps, p)| <= p * |gs|
  {
    if p > 0 {
      PassesLength(gs, caps, p - 1);
      LayerLength(gs, caps, p - 1);
      assert p * |gs| == (p - 1) * |gs| + |gs|;
    }
  }

  // ---- the rotated groups ----

  /** Whose turn a counter value makes it, among `n` tenants. */
  function Turn(round: nat, n: nat): (i: nat)
    requires n > 0
    ensures i < n
  {
    round % n
  }

  lemma RotatedGroups(queued: seq<Entry>, round: nat)
    ensures var (gs, ts) := (Rotated(queued, round), Tenants(queued));
            && Distinct(gs)
            && (forall i :: 0 <= i < |gs| ==> gs[i].tenant in ts && gs[i].jobs == JobsOf(queued, gs[i].tenant))
            && (forall t <- ts :: exists i :: 0 <= i < |gs| && gs[i].tenant == t)
            && (ts != [] ==> gs[0].tenant == ts[Turn(round, |ts|)])
  {
    hide JobsOf, Tenants;
    TenantsDistinct(queued);
    var gs, ts := Rotated(queued, round), Tenants(queued);
    if |ts| > 1 {
      var k := round % |ts|;
      forall t | t in ts ensures exists i :: 0 <= i < |gs| && gs[i].tenant == t {
        var j :| 0 <= j < |ts| && ts[j] == t;
        var i := if j >= k then j - k else j - k + |ts|;
        assert gs[i].tenant == t;
      }
    } else if |ts| == 1 {
      assert gs[0].tenant == ts[0];
    }
  }

  /** Every tenant is given exactly its first min(cap, queued) jobs, in queue order. */
  lemma FairShare(queued: seq<Entry>, caps: map<string, nat>, round: nat, t: string)
    ensures var jobs := JobsOf(queued, t);
            JobsOf(Order(queued, caps, round), t) == jobs[..Min(Cap(caps, t), |jobs|)]
  {
    var gs := Rotated(queued, round);
    var d := Depth(gs, caps);
    RotatedGroups(queued, round);
    hide JobsOf, Tenants, Rotated, Passes, Depth;
    if t in Tenants(queued) {
      var i :| 0 <= i < |gs| && gs[i].tenant == t;
      PassesOf(gs, caps, d, i);
      QuotaWithin(gs, caps, i);
    } else {
      NoJobs(queued, t);
      PassesWithout(gs, caps, d, t);
    }
  }

  lemma {:induction false} PassesWithout(gs: seq<Group>, caps: map<string, nat>, p: nat, t: string)
    requires forall i :: 0 <= i < |gs| ==> gs[i].tenant != t
    ensures JobsOf(Passes(gs, caps, p), t) == []
  {
    if p == 0 { assert JobsOf([], t) == []; }
    if p > 0 {
      hide JobsOf, Layer;
      PassesWithout(gs, caps, p - 1, t);
      LayerWithout(gs, caps, p - 1, t);
      JobsAppend(Passes(gs, caps, p - 1), Layer(gs, caps, p - 1), t);
    }
  }

  /** A tenant's k-th job (from 0) comes before slot (k + 1) * T, behind exactly k of its own. */
  lemma BoundedWait(queued: seq<Entry>, caps: map<string, nat>, round: nat, t: string, k: nat) returns (slot: nat)
    requires k < Min(Cap(caps, t), |JobsOf(queued, t)|)
    ensures var order := Order(queued, caps, round);
            && slot < |order| && slot < (k + 1) * |Tenants(queued)|
            && order[slot] == (JobsOf(queued, t)[k], t) && |JobsOf(order[..slot], t)| == k
  {
    var gs, order := Rotated(queued, round), Order(queued, caps, round);
    RotatedGroups(queued, round);
    hide JobsOf, Tenants, Rotated, Passes, Depth, Layer;
    if t !in Tenants(queued) { NoJobs(queued, t); }
    var i :| 0 <= i < |gs| && gs[i].tenant == t;
    var done, here := Passes(gs, caps, k), Layer(gs, caps, k);
    var ahead := Layer(gs[..i], caps, k);
    QuotaWithin(gs, caps, i);
    LayerOf(gs, caps, k, i);
    PassesPrefix(gs, caps, k + 1, Depth(gs, caps));
    NextPass(gs, caps, k);
    slot := |done| + |ahead|;
    PassesLength(gs, caps, k);
    LayerLength(gs, caps, k);
    assert (k + 1) * |gs| == k * |gs| + |gs|;
    assert (done + here)[slot] == here[|ahead|];
    assert order[..slot] == done + ahead by {
      assert (done + here)[..slot] == done + here[..|ahead|];
    }
    JobsAppend(done, ahead, t);
    PassesOf(gs, caps, k, i);
  }

  lemma NextPass(gs: seq<Group>, caps: map<string, nat>, k: nat)
    ensures Passes(gs, caps, k + 1) == Passes(gs, caps, k) + Layer(gs, caps, k)
  {}

  // ---- turns at the head ----

  predicate AllCapped(caps: map<string, nat>, ts: seq<string>) { forall t <- ts :: Cap(caps, t) > 0 }

  /** The round starts with the tenant the counter points at. */
  lemma Head(queued: seq<Entry>, caps: map<string, nat>, round: nat)
    requires queued != [] && AllCapped(caps, Tenants(queued))
    ensures var (ts, order) := (Tenants(queued), Order(queued, caps, round));
            ts != [] && order != [] && order[0].1 == ts[Turn(round, |ts|)]
  {
    TenantsDistinct(queued);
    var gs, ts := Rotated(queued, round), Tenants(queued);
    assert queued[0].1 in ts;
    RotatedGroups(queued, round);
    hide JobsOf, Tenants, Rotated;
    HasJob(queued, gs[0].tenant);
    QuotaWithin(gs, caps, 0);
    hide Depth, Passes, Layer;
    PassesPrefix(gs, caps, 1, Depth(gs, caps));
    FirstPass(gs, caps);
  }

  lemma FirstPass(gs: seq<Group>, caps: map<string, nat>)
    requires gs != [] && Quota(gs[0], caps) > 0
    ensures Passes(gs, caps, 1) != [] && Passes(gs, caps, 1)[0].1 == gs[0].tenant
  {
    NextPass(gs, caps, 0);
    FirstInLayer(gs, caps);
  }

  lemma {:induction false} FirstInLayer(gs: seq<Group>, caps: map<string, nat>)
    requires gs != [] && Quota(gs[0], caps) > 0
    ensures Layer(gs, caps, 0) != [] && Layer(gs, caps, 0)[0].1 == gs[0].tenant
  {
    if |gs| > 1 { FirstInLayer(gs[..|gs| - 1], caps); }
  }

  lemma {:induction false} HasJob(es: seq<Entry>, t: string)
    requires t in Tenants(es)
    ensures JobsOf(es, t) != []
  {
    var n := |es| - 1;
    if es[n].1 != t { HasJob(es[..n], t); }
  }

  /** The head tenant of the j-th of some consecutive rounds. */
  function HeadOf(queues: seq<seq<Entry>>, caps: map<string, nat>, first: nat, j: nat): Option<string>
    requires j < |queues|
  {
    var order := Order(queues[j], caps, first + j);
    if order == [] then None else Some(order[0].1)
  }

  /** Over T consecutive rounds on one list of T tenants, whatever jobs each of them then has
      queued, every tenant heads exactly one round. */
  lemma HeadsOnce(queues: seq<seq<Entry>>, caps: map<string, nat>, first: nat, ts: seq<string>, t: string)
    returns (j: nat)
    requires |queues| == |ts| && t in ts && AllCapped(caps, ts)
    requires forall k :: 0 <= k < |queues| ==> Tenants(queues[k]) == ts
    ensures j < |queues| && HeadOf(queues, caps, first, j) == Some(t)
    ensures forall k :: 0 <= k < |queues| && k != j ==> HeadOf(queues, caps, first, k) != Some(t)
  {
    hide *;
    var n := |ts|;
    var i :| 0 <= i < n && ts[i] == t;
    j := TurnOf(first, n, i);
    assert Tenants(queues[0]) == ts;
    TenantsDistinct(queues[0]);
    HeadTurn(queues, caps, first, j, ts);
    forall k | 0 <= k < n && k != j ensures HeadOf(queues, caps, first, k) != Some(t) {
      HeadTurn(queues, caps, first, k, ts);
      if Turn(first + k, n) == i { OneTurn(first, n, j, k); }
    }
  }

  lemma HeadTurn(queues: seq<seq<Entry>>, caps: map<string, nat>, first: nat, k: nat, ts: seq<string>)
    requires k < |queues| && Tenants(queues[k]) == ts && ts != [] && AllCapped(caps, ts)
    ensures HeadOf(queues, caps, first, k) == Some(ts[Turn(first + k, |ts|)])
  {
    hide Order, Tenants, AllCapped, Turn;
    var queued := queues[k];
    NobodyQueued(queued);
    Head(queued, caps, first + k);
  }

  lemma NobodyQueued(queued: seq<Entry>)
    ensures queued == [] ==> Tenants(queued) == []
  {}

  lemma Divided(x: nat, n: nat) returns (q: nat)
    requires n > 0
    ensures x == q * n + x % n
  {
    q := x / n;
  }

  lemma AtLeastOne(d: int, n: int)
    requires d >= 1 && n >= 0
    ensures d * n >= n
  {
    assert d * n == (d - 1) * n + n;
  }

  /** Multiples of `n` less than `n` apart are the same. */
  lemma Apart(a: int, b: int, n: int)
    requires n >= 0 && a * n - b * n < n && b * n - a * n < n
    ensures a == b
  {
    assert (a - b) * n == a * n - b * n && (b - a) * n == b * n - a * n;
    if a > b { AtLeastOne(a - b, n); }
    if a < b { AtLeastOne(b - a, n); }
  }

  lemma ModIs(x: nat, n: nat, q: nat, r: nat)
    requires r < n && x == q * n + r
    ensures x % n == r
  {
    var p := Divided(x, n);
    Apart(p, q, n);
  }

  lemma TurnOf(first: nat, n: nat, i: nat) returns (j: nat)
    requires i < n
    ensures j < n && Turn(first + j, n) == i
  {
    j := if i >= first % n then i - first % n else i + n - first % n;
    var q := Divided(first, n);
    assert (q + 1) * n == q * n + n;
    ModIs(first + j, n, if i >= first % n then q else q + 1, i);
  }

  lemma OneTurn(first: nat, n: nat, j: nat, k: nat)
    requires j < n && k < n && Turn(first + j, n) == Turn(first + k, n)
    ensures j == k
  {
    var a := Divided(first + j, n);
    var b := Divided(first + k, n);
    Apart(a, b, n);
  }
}
