/** The per-tenant cache generations of tenant_gen.rs, and the four caches that trust them: the
    session cache (rest.rs), document types and notification rules (broker.rs), hook scripts
    (hooks.rs). Readers load the generation, look in the cache, read the database and insert, with
    anything happening in between; writers write and then bump. */
module Generations {
  import opened Wrappers
  import opened Collections

  datatype Kind = Session | Meta

  /** A tenant's caches of one kind share one generation. */
  datatype Place = Place(kind: Kind, tenant: string)

  // ---- the registry of counters ----

  class Counter {
    var value: nat

    constructor ()
      ensures value == 0
    {
      value := 0;
    }
  }

  class Registry {
    var counters: map<Place, Counter>

    /** Two places never share a counter. */
    ghost predicate Valid()
      reads this
    {
      forall p, q | p in counters && q in counters :: counters[p] == counters[q] ==> p == q
    }

    ghost function Footprint(): set<Counter>
      reads this
    {
      set p | p in counters :: counters[p]
    }

    constructor ()
      ensures Valid() && counters == map[]
    {
      counters := map[];
    }

    /** Handles are shared, never replaced: whoever resolved one before still holds it. */
    method Handle(kind: Kind, tenant: string) returns (c: Counter)
      requires Valid()
      modifies this
      ensures Valid() && counters.Keys == old(counters).Keys + {Place(kind, tenant)} && counters[Place(kind, tenant)] == c
      ensures forall p <- old(counters) :: p in counters && counters[p] == old(counters)[p]
      ensures Place(kind, tenant) !in old(counters) ==> fresh(c) && c.value == 0
    {
      var p := Place(kind, tenant);
      if p in counters { return counters[p]; }
      c := new Counter();
      counters := counters[p := c];
    }

    method ForTenant(tenant: string) returns (session: Counter, meta: Counter)
      requires Valid()
      modifies this
      ensures Valid() && {Place(Session, tenant), Place(Meta, tenant)} <= counters.Keys
      ensures counters[Place(Session, tenant)] == session && counters[Place(Meta, tenant)] == meta && session != meta
      ensures forall p <- old(counters) :: p in counters && counters[p] == old(counters)[p]
    {
      session := Handle(Session, tenant);
      meta := Handle(Meta, tenant);
      assert counters[Place(Session, tenant)] == session;
    }

    /** `invalidate_sessions` and `invalidate_meta`: this place's counter moves on, no other does. */
    method Invalidate(kind: Kind, tenant: string)
      requires Valid()
      modifies this, Footprint()
      ensures Valid() && Place(kind, tenant) in counters
      ensures forall p <- old(counters) :: p in counters && counters[p] == old(counters)[p]
      ensures forall p <- old(counters) :: p in counters && counters[p].value ==
                old(counters[p].value) + if p == Place(kind, tenant) then 1 else 0
    {
      var c := Handle(kind, tenant);
      c.value := c.value + 1;
    }
  }

  // ---- the protocol ----

  type Key = string
  type Data = string
  type Content = map<Key, Data>

  /** A cached value with the generation its reader had loaded; `version` is bookkeeping. */
  datatype Entry = Entry(gen: nat, value: Data, version: nat)

  /** One place: every state its rows ever had, the generation, the cache. `floors[g]` is the newest
      write whose invalidation had returned when the generation became `g`; bookkeeping too. */
  datatype Store = Store(versions: seq<Content>, gen: nat, floors: seq<nat>, cache: map<Key, Entry>)

  const EMPTY: Store := Store([map[]], 0, [0], map[])

  datatype Point =
    | Started
    | Loaded(gen: nat)
    | Missed(gen: nat)
    | Fetched(gen: nat, version: nat, value: Option<Data>)
    | Returned(version: nat, value: Option<Data>)

  /** `since` is the newest invalidated write when the lookup started. */
  datatype Reader = Reader(place: Place, key: Key, since: nat, point: Point)

  /** A write that is committed but not yet followed by its bump. */
  datatype Writer = Writer(place: Place, version: nat)

  datatype State = State(stores: map<Place, Store>, readers: map<nat, Reader>, writers: map<nat, Writer>)

  const INIT: State := State(map[], map[], map[])

  datatype Step =
    | Start(r: nat, place: Place, key: Key)
    | Load(r: nat)
    | Hit(r: nat)
    | Miss(r: nat)
    | Fetch(r: nat)
    | Insert(r: nat)
    | Write(w: nat, place: Place, content: Content)
    | Bump(w: nat)

  function At(s: State, p: Place): Store { if p in s.stores then s.stores[p] else EMPTY }

  function Floor(st: Store): nat
    requires st.floors != []
  {
    st.floors[|st.floors| - 1]
  }

  predicate Shaped(st: Store) { |st.versions| > 0 && |st.floors| > 0 }

  predicate Hits(st: Store, key: Key, gen: nat) { key in st.cache && st.cache[key].gen == gen }

  predicate AtPoint(s: State, r: nat) { r in s.readers && Shaped(At(s, s.readers[r].place)) }

  /** An entry of the session cache may also be out of its time to live. */
  predicate Enabled(s: State, step: Step)
  {
    match step
    case Start(r, place, _) => r !in s.readers && Shaped(At(s, place))
    case Load(r) => AtPoint(s, r) && s.readers[r].point.Started?
    case Hit(r) =>
      AtPoint(s, r) && s.readers[r].point.Loaded?
      && Hits(At(s, s.readers[r].place), s.readers[r].key, s.readers[r].point.gen)
    case Miss(r) =>
      AtPoint(s, r) && s.readers[r].point.Loaded?
      && (Hits(At(s, s.readers[r].place), s.readers[r].key, s.readers[r].point.gen) ==> s.readers[r].place.kind.Session?)
    case Fetch(r) => AtPoint(s, r) && s.readers[r].point.Missed?
    case Insert(r) => AtPoint(s, r) && s.readers[r].point.Fetched?
    case Write(w, place, _) => w !in s.writers && Shaped(At(s, place))
    case Bump(w) => w in s.writers && Shaped(At(s, s.writers[w].place))
  }

  function Moved(s: State, r: nat, point: Point): State
    requires r in s.readers
  {
    s.(readers := s.readers[r := s.readers[r].(point := point)])
  }

  function Begun(s: State, r: nat, place: Place, key: Key): State
    requires Shaped(At(s, place))
  {
    s.(readers := s.readers[r := Reader(place, key, Floor(At(s, place)), Started)])
  }

  function Inserted(s: State, r: nat): State
    requires r in s.readers && s.readers[r].point.Fetched?
  {
    var (p, key, f) := (s.readers[r].place, s.readers[r].key, s.readers[r].point);
    var st := At(s, p);
    var done := Moved(s, r, Returned(f.version, f.value));
    if f.value.None? then done
    else done.(stores := s.stores[p := st.(cache := st.cache[key := Entry(f.gen, f.value.value, f.version)])])
  }

  function Written(s: State, w: nat, place: Place, content: Content): State
  {
    var st := At(s, place);
    s.(stores := s.stores[place := st.(versions := st.versions + [content])],
       writers := s.writers[w := Writer(place, |st.versions|)])
  }

  function Bumped(s: State, w: nat): State
    requires w in s.writers && Shaped(At(s, s.writers[w].place))
  {
    var (p, v) := (s.writers[w].place, s.writers[w].version);
    var st := At(s, p);
    s.(stores := s.stores[p := st.(gen := st.gen + 1, floors := st.floors + [Max(Floor(st), v)])],
       writers := s.writers - {w})
  }

  function Next(s: State, step: Step): State
    requires Enabled(s, step)
  {
    match step
    case Start(r, place, key) => Begun(s, r, place, key)
    case Load(r) => Moved(s, r, Loaded(At(s, s.readers[r].place).gen))
    case Hit(r) =>
      var e := At(s, s.readers[r].place).cache[s.readers[r].key];
      Moved(s, r, Returned(e.version, Some(e.value)))
    case Miss(r) => Moved(s, r, Missed(s.readers[r].point.gen))
    case Fetch(r) =>
      var st := At(s, s.readers[r].place);
      var last := |st.versions| - 1;
      Moved(s, r, Fetched(s.readers[r].point.gen, last, Find(st.versions[last], s.readers[r].key)))
    case Insert(r) => Inserted(s, r)
    case Write(w, place, content) => Written(s, w, place, content)
    case Bump(w) => Bumped(s, w)
  }

  ghost predicate Run(states: seq<State>, steps: seq<Step>)
  {
    && |states| == |steps| + 1 && states[0] == INIT
    && forall i :: 0 <= i < |steps| ==> Enabled(states[i], steps[i]) && states[i + 1] == Next(states[i], steps[i])
  }

  // ---- the invariant ----

  /** `v` is what version `w` says about `key`, and `w` is no older than generation `gen` promises. */
  predicate Backed(st: Store, key: Key, gen: nat, w: nat, v: Option<Data>)
  {
    gen < |st.floors| && st.floors[gen] <= w < |st.versions| && v == Find(st.versions[w], key)
  }

  predicate StoreOk(st: Store)
  {
    && Shaped(st) && |st.floors| == st.gen + 1 && Floor(st) < |st.versions|
    && (forall i, j :: 0 <= i <= j < |st.floors| ==> st.floors[i] <= st.floors[j])
    && (forall k <- st.cache :: Backed(st, k, st.cache[k].gen, st.cache[k].version, Some(st.cache[k].value)))
  }

  predicate ReaderOk(st: Store, r: Reader)
    requires Shaped(st)
  {
    match r.point
    case Started => r.since <= Floor(st)
    case Loaded(g) => g < |st.floors| && r.since <= st.floors[g]
    case Missed(g) => g < |st.floors| && r.since <= st.floors[g]
    case Fetched(g, w, v) => Backed(st, r.key, g, w, v) && r.since <= st.floors[g]
    case Returned(w, v) => r.since <= w < |st.versions| && v == Find(st.versions[w], r.key)
  }

  ghost predicate Inv(s: State)
  {
    && (forall p: Place :: StoreOk(At(s, p)))
    && (forall r <- s.readers :: ReaderOk(At(s, s.readers[r].place), s.readers[r]))
    && (forall w <- s.writers :: s.writers[w].version < |At(s, s.writers[w].place).versions|)
  }

  /** A store that only grew: more versions, more generations. */
  predicate Grown(a: Store, b: Store)
  {
    a.versions <= b.versions && a.floors <= b.floors
  }

  lemma ReaderGrows(a: Store, b: Store, r: Reader)
    requires StoreOk(a) && StoreOk(b) && Grown(a, b) && ReaderOk(a, r)
    ensures ReaderOk(b, r)
  {
    assert Floor(a) == b.floors[|a.floors| - 1] <= Floor(b);
  }

  lemma WriteGrows(st: Store, content: Content)
    requires StoreOk(st)
    ensures var after := st.(versions := st.versions + [content]);
            StoreOk(after) && Grown(st, after)
  {}

  lemma BumpGrows(st: Store, floor: nat)
    requires StoreOk(st) && Floor(st) <= floor < |st.versions|
    ensures var after := st.(gen := st.gen + 1, floors := st.floors + [floor]);
            StoreOk(after) && Grown(st, after)
  {}

  lemma InsertKeeps(st: Store, key: Key, gen: nat, w: nat, v: Data)
    requires StoreOk(st) && Backed(st, key, gen, w, Some(v))
    ensures var after := st.(cache := st.cache[key := Entry(gen, v, w)]);
            StoreOk(after) && Grown(st, after)
  {}

  /** A step that replaces one store by a grown one, and perhaps one reader or writer. */
  lemma StoreKeeps(s: State, t: State, p: Place)
    requires Inv(s) && StoreOk(At(t, p)) && Grown(At(s, p), At(t, p))
    requires forall q: Place :: q != p ==> At(t, q) == At(s, q)
    requires forall r <- t.readers :: (r in s.readers && t.readers[r] == s.readers[r])
                                      || (t.readers[r].place == p && ReaderOk(At(t, p), t.readers[r]))
    requires forall w <- t.writers :: (w in s.writers && t.writers[w] == s.writers[w])
                                      || t.writers[w].version < |At(t, t.writers[w].place).versions|
    ensures Inv(t)
  {
    forall r | r in t.readers ensures ReaderOk(At(t, t.readers[r].place), t.readers[r]) {
      if r in s.readers && t.readers[r] == s.readers[r] && s.readers[r].place == p {
        ReaderGrows(At(s, p), At(t, p), s.readers[r]);
      }
    }
    forall q: Place ensures StoreOk(At(t, q)) { if q != p { assert StoreOk(At(s, q)); } }
  }

  lemma AtPut(s: State, t: State, p: Place, st: Store)
    requires t.stores == s.stores[p := st]
    ensures At(t, p) == st && forall q: Place :: q != p ==> At(t, q) == At(s, q)
  {}

  lemma WriteKeeps(s: State, w: nat, p: Place, content: Content)
    requires Inv(s)
    ensures Inv(Written(s, w, p, content)) && Grown(At(s, p), At(Written(s, w, p, content), p))
  {
    var st, t := At(s, p), Written(s, w, p, content);
    assert StoreOk(st);
    hide StoreOk, ReaderOk, Grown, At;
    WriteGrows(st, content);
    AtPut(s, t, p, st.(versions := st.versions + [content]));
    StoreKeeps(s, t, p);
  }

  lemma BumpKeeps(s: State, w: nat)
    requires Inv(s) && w in s.writers && Shaped(At(s, s.writers[w].place))
    ensures Inv(Bumped(s, w)) && Grown(At(s, s.writers[w].place), At(Bumped(s, w), s.writers[w].place))
  {
    var (p, v) := (s.writers[w].place, s.writers[w].version);
    var st, t := At(s, p), Bumped(s, w);
    assert StoreOk(st);
    BumpGrows(st, Max(Floor(st), v));
    hide StoreOk, ReaderOk, Grown, Floor, Max, At;
    AtPut(s, t, p, st.(gen := st.gen + 1, floors := st.floors + [Max(Floor(st), v)]));
    StoreKeeps(s, t, p);
  }

  lemma InsertStepKeeps(s: State, r: nat)
    requires Inv(s) && r in s.readers && s.readers[r].point.Fetched?
    ensures Inv(Inserted(s, r)) && Grown(At(s, s.readers[r].place), At(Inserted(s, r), s.readers[r].place))
  {
    hide *;
    var p, f := s.readers[r].place, s.readers[r].point;
    var st, t, returned := At(s, p), Inserted(s, r), s.readers[r].(point := Returned(f.version, f.value));
    StoreAt(s, p);
    ReaderAt(s, r);
    FetchedReturns(st, s.readers[r]);
    InsertedIs(s, r);
    if f.value.Some? {
      var after := st.(cache := st.cache[s.readers[r].key := Entry(f.gen, f.value.value, f.version)]);
      ReaderGrows(st, after, returned);
      AtPut(s, t, p, after);
      StoreKeeps(s, t, p);
    } else {
      ReaderMoves(s, r, Returned(f.version, f.value));
      GrownItself(st);
    }
  }

  lemma InsertedIs(s: State, r: nat)
    requires r in s.readers && s.readers[r].point.Fetched?
    ensures var (p, key, f, t) := (s.readers[r].place, s.readers[r].key, s.readers[r].point, Inserted(s, r));
            && (f.value.None? ==> t == Moved(s, r, Returned(f.version, None)) && At(t, p) == At(s, p))
            && (f.value.Some? ==>
                  var cache := At(s, p).cache[key := Entry(f.gen, f.value.value, f.version)];
                  t == State(s.stores[p := At(s, p).(cache := cache)],
                             s.readers[r := s.readers[r].(point := Returned(f.version, f.value))], s.writers))
  {}

  lemma FetchedReturns(st: Store, r: Reader)
    requires Shaped(st) && StoreOk(st) && ReaderOk(st, r) && r.point.Fetched?
    ensures ReaderOk(st, r.(point := Returned(r.point.version, r.point.value)))
    ensures r.point.value.Some? ==>
              var after := st.(cache := st.cache[r.key := Entry(r.point.gen, r.point.value.value, r.point.version)]);
              StoreOk(after) && Grown(st, after)
  {
    if r.point.value.Some? { InsertKeeps(st, r.key, r.point.gen, r.point.version, r.point.value.value); }
  }

  lemma GrownItself(st: Store)
    ensures Grown(st, st)
  {}

  lemma StartKeeps(s: State, r: nat, p: Place, key: Key)
    requires Inv(s) && Shaped(At(s, p))
    ensures Inv(Begun(s, r, p, key))
  {
    var t := Begun(s, r, p, key);
    assert ReaderOk(At(s, p), t.readers[r]);
    hide StoreOk, ReaderOk, Floor, Shaped;
    assert t.stores == s.stores && t.writers == s.writers;
    SameStores(s, t);
    hide At;
  }

  /** A reader that moves on by itself. */
  lemma ReaderMoves(s: State, r: nat, point: Point)
    requires Inv(s) && r in s.readers && Shaped(At(s, s.readers[r].place))
    requires ReaderOk(At(s, s.readers[r].place), s.readers[r].(point := point))
    ensures Inv(Moved(s, r, point))
  {
    hide StoreOk, ReaderOk;
    SameStores(s, Moved(s, r, point));
    hide At;
  }

  lemma SameStores(s: State, t: State)
    requires t.stores == s.stores
    ensures forall q: Place :: At(t, q) == At(s, q)
  {}

  /** What a reader's own steps take from the store keeps it in order. */
  lemma ReadsOk(st: Store, r: Reader)
    requires StoreOk(st) && ReaderOk(st, r)
    ensures r.point.Started? ==> ReaderOk(st, r.(point := Loaded(st.gen)))
    ensures r.point.Loaded? ==> ReaderOk(st, r.(point := Missed(r.point.gen)))
    ensures r.point.Loaded? && Hits(st, r.key, r.point.gen) ==>
              ReaderOk(st, r.(point := Returned(st.cache[r.key].version, Some(st.cache[r.key].value))))
    ensures r.point.Missed? ==>
              var last := |st.versions| - 1;
              ReaderOk(st, r.(point := Fetched(r.point.gen, last, Find(st.versions[last], r.key))))
  {}

  lemma StepKeeps(s: State, step: Step)
    requires Inv(s) && Enabled(s, step)
    ensures Inv(Next(s, step))
  {
    hide StoreOk, ReaderOk, Begun, Inserted, Written, Bumped, Moved;
    match step
    case Write(w, p, content) => WriteKeeps(s, w, p, content);
    case Bump(w) => BumpKeeps(s, w);
    case Insert(r) => InsertStepKeeps(s, r);
    case Start(r, p, key) => StartKeeps(s, r, p, key);
    case Load(r) =>
      ReaderAt(s, r);
      ReaderMoves(s, r, Loaded(At(s, s.readers[r].place).gen));
    case Hit(r) =>
      ReaderAt(s, r);
      var e := At(s, s.readers[r].place).cache[s.readers[r].key];
      ReaderMoves(s, r, Returned(e.version, Some(e.value)));
    case Miss(r) =>
      ReaderAt(s, r);
      ReaderMoves(s, r, Missed(s.readers[r].point.gen));
    case Fetch(r) =>
      ReaderAt(s, r);
      var st := At(s, s.readers[r].place);
      var last := |st.versions| - 1;
      ReaderMoves(s, r, Fetched(s.readers[r].point.gen, last, Find(st.versions[last], s.readers[r].key)));
  }

  lemma ReaderAt(s: State, r: nat)
    requires Inv(s) && r in s.readers
    ensures var (st, reader) := (At(s, s.readers[r].place), s.readers[r]);
            && StoreOk(st) && ReaderOk(st, reader)
            && (reader.point.Started? ==> ReaderOk(st, reader.(point := Loaded(st.gen))))
            && (reader.point.Loaded? ==> ReaderOk(st, reader.(point := Missed(reader.point.gen))))
            && (reader.point.Loaded? && Hits(st, reader.key, reader.point.gen) ==>
                  ReaderOk(st, reader.(point := Returned(st.cache[reader.key].version, Some(st.cache[reader.key].value)))))
            && (reader.point.Missed? ==>
                  var last := |st.versions| - 1;
                  ReaderOk(st, reader.(point := Fetched(reader.point.gen, last, Find(st.versions[last], reader.key)))))
  {
    var st := At(s, s.readers[r].place);
    assert StoreOk(st);
    hide At;
    ReadsOk(st, s.readers[r]);
  }

  lemma {:induction false} RunKeeps(states: seq<State>, steps: seq<Step>, i: nat)
    requires Run(states, steps) && i < |states|
    ensures Inv(states[i])
  {
    if i > 0 {
      hide Inv, Next, Enabled;
      RunKeeps(states, steps, i - 1);
      StepKeeps(states[i - 1], steps[i - 1]);
    }
  }

  // ---- what a lookup may return ----

  /** Whatever slow readers insert and whenever: a lookup returns what some version of the rows says,
      and that version is no older than any write whose invalidation had returned when it started. */
  lemma LookupsFresh(states: seq<State>, steps: seq<Step>, i: nat, r: nat)
    requires Run(states, steps) && i < |states|
    requires r in states[i].readers && states[i].readers[r].point.Returned?
    ensures var (reader, versions) := (states[i].readers[r], At(states[i], states[i].readers[r].place).versions);
            var w := reader.point.version;
            reader.since <= w < |versions| && reader.point.value == Find(versions[w], reader.key)
  {
    RunKeeps(states, steps, i);
  }

  /** An invalidation that has returned raises the floor of every lookup that starts from then on. */
  lemma {:induction false} FloorStays(states: seq<State>, steps: seq<Step>, i: nat, j: nat, p: Place)
    requires Run(states, steps) && i <= j < |states|
    ensures Shaped(At(states[i], p)) && Shaped(At(states[j], p))
    ensures Floor(At(states[i], p)) <= Floor(At(states[j], p))
    ensures At(states[i], p).versions <= At(states[j], p).versions
    decreases j - i
  {
    hide *;
    RunKeeps(states, steps, i);
    RunKeeps(states, steps, j);
    StoreAt(states[i], p);
    StoreAt(states[j], p);
    if i < j {
      FloorStays(states, steps, i, j - 1, p);
      RunKeeps(states, steps, j - 1);
      RunStep(states, steps, j - 1);
      OneFloor(states[j - 1], steps[j - 1], p);
      StoreAt(states[j - 1], p);
      GrownFloor(At(states[j - 1], p), At(states[j], p));
    }
  }

  lemma StoreAt(s: State, p: Place)
    requires Inv(s)
    ensures StoreOk(At(s, p)) && Shaped(At(s, p))
  {}

  lemma RunStep(states: seq<State>, steps: seq<Step>, i: nat)
    requires Run(states, steps) && i + 1 < |states|
    ensures |states| == |steps| + 1 && Enabled(states[i], steps[i]) && states[i + 1] == Next(states[i], steps[i])
  {}

  lemma OneFloor(s: State, step: Step, p: Place)
    requires Inv(s) && Enabled(s, step)
    ensures var (a, b) := (At(s, p), At(Next(s, step), p));
            Grown(a, b) && a.versions <= b.versions
  {
    AllGrow(s, step, p);
    hide Next, Enabled, At, Inv;
  }

  lemma AllGrow(s: State, step: Step, p: Place)
    requires Inv(s) && Enabled(s, step)
    ensures Grown(At(s, p), At(Next(s, step), p))
  {
    hide StoreOk, ReaderOk, Grown, Inv, Floor;
    GrownItself(At(s, p));
    match step
    case Write(w, q, content) => WriteKeeps(s, w, q, content);
    case Bump(w) => BumpKeeps(s, w);
    case Insert(r) => InsertStepKeeps(s, r);
    case _ =>
  }

  lemma GrownFloor(a: Store, b: Store)
    requires StoreOk(a) && StoreOk(b) && Grown(a, b)
    ensures Shaped(a) && Shaped(b) && Floor(a) <= Floor(b)
  {
    assert Floor(a) == b.floors[|a.floors| - 1] <= Floor(b);
  }

  /** A lookup that starts after a write's bump has returned answers from that write's version of the
      rows or a later one, for every key. */
  lemma LookupSeesWrite(states: seq<State>, steps: seq<Step>, b: nat, i: nat, j: nat, r: nat)
    requires Run(states, steps) && b < i < j < |states|
    requires steps[b].Bump? && steps[i].Start? && steps[i].r == r
    requires r in states[j].readers && states[j].readers[r].point.Returned?
    requires steps[b].w in states[b].writers && states[b].writers[steps[b].w].place == steps[i].place
    ensures var (reader, versions) := (states[j].readers[r], At(states[j], steps[i].place).versions);
            var w := reader.point.version;
            && reader.place == steps[i].place && reader.key == steps[i].key
            && states[b].writers[steps[b].w].version <= w < |versions|
            && reader.point.value == Find(versions[w], steps[i].key)
  {
    var p := steps[i].place;
    RunKeeps(states, steps, b);
    assert StoreOk(At(states[b], p));
    FloorStays(states, steps, b + 1, i, p);
    ReaderKept(states, steps, i + 1, j, r);
    LookupsFresh(states, steps, j, r);
  }

  /** Revocation: a key that every version from some write on lacks is refused by every lookup that
      starts after that write's invalidation returned. */
  lemma RevokedStaysOut(states: seq<State>, steps: seq<Step>, b: nat, i: nat, j: nat, r: nat)
    requires Run(states, steps) && b < i < j < |states|
    requires steps[b].Bump? && steps[i].Start? && steps[i].r == r
    requires r in states[j].readers && states[j].readers[r].point.Returned?
    requires steps[b].w in states[b].writers && states[b].writers[steps[b].w].place == steps[i].place
    requires var versions := At(states[j], steps[i].place).versions;
             forall k :: states[b].writers[steps[b].w].version <= k < |versions| ==> steps[i].key !in versions[k]
    ensures states[j].readers[r].point.value == None
  {
    LookupSeesWrite(states, steps, b, i, j, r);
    hide Run, At;
  }

  lemma {:induction false} ReaderKept(states: seq<State>, steps: seq<Step>, i: nat, j: nat, r: nat)
    requires Run(states, steps) && i <= j < |states| && r in states[i].readers
    ensures r in states[j].readers
    ensures states[j].readers[r].(point := Started) == states[i].readers[r].(point := Started)
    decreases j - i
  {
    if i < j {
      ReaderKept(states, steps, i, j - 1, r);
      OneReader(states[j - 1], steps[j - 1], r);
    }
  }

  lemma OneReader(s: State, step: Step, r: nat)
    requires Enabled(s, step) && r in s.readers
    ensures var t := Next(s, step);
            r in t.readers && t.readers[r].(point := Started) == s.readers[r].(point := Started)
  {}

  /** A bump touches nothing of another tenant or kind: what would have hit still hits. */
  lemma BumpsConfined(s: State, w: nat, q: Place)
    requires Enabled(s, Bump(w)) && s.writers[w].place != q
    ensures At(Next(s, Bump(w)), q) == At(s, q)
    ensures Next(s, Bump(w)).readers == s.readers
  {}

  /** The guarantee needs the bump to have returned: between a revoking write and its bump, a lookup
      that starts after the write can still be served the revoked entry. */
  lemma RevocationRace() returns (states: seq<State>, steps: seq<Step>)
    ensures Run(states, steps)
    ensures exists w, r :: 0 <= w < r < |steps| && steps[w].Write? && steps[w].content == map[] && steps[r].Start?
                           && steps[r].place == steps[w].place && steps[r].r in states[|steps|].readers
                           && states[|steps|].readers[steps[r].r].point.Returned?
                           && states[|steps|].readers[steps[r].r].point.value == Some("caller")
  {
    hide Run;
    var p := Place(Session, "t");
    states, steps := CachedRun(p, "tok", "caller");
    states, steps := Extend(states, steps, Write(1, p, map[]));
    states, steps := Extend(states, steps, Start(1, p, "tok"));
    states, steps := Extend(states, steps, Load(1));
    states, steps := Extend(states, steps, Hit(1));
    assert steps[|steps| - 4] == Write(1, p, map[]) && steps[|steps| - 3] == Start(1, p, "tok");
  }

  /** A run that leaves one entry cached at generation 0. */
  lemma CachedRun(p: Place, key: Key, value: Data) returns (states: seq<State>, steps: seq<Step>)
    ensures Run(states, steps)
    ensures var s := states[|steps|];
            s.readers.Keys == {0} && s.writers.Keys == {0} && Shaped(At(s, p)) && At(s, p).gen == 0
            && key in At(s, p).cache && At(s, p).cache[key].gen == 0 && At(s, p).cache[key].value == value
  {
    hide Run;
    states, steps := [INIT], [];
    EmptyRun();
    states, steps := Extend(states, steps, Write(0, p, map[key := value]));
    states, steps := Extend(states, steps, Start(0, p, key));
    states, steps := Extend(states, steps, Load(0));
    states, steps := Extend(states, steps, Miss(0));
    states, steps := Extend(states, steps, Fetch(0));
    states, steps := Extend(states, steps, Insert(0));
  }

  lemma EmptyRun()
    ensures Run([INIT], [])
  {}

  lemma Extend(states: seq<State>, steps: seq<Step>, step: Step) returns (more: seq<State>, all: seq<Step>)
    requires Run(states, steps) && Enabled(states[|steps|], step)
    ensures Run(more, all) && all == steps + [step] && more[|all|] == Next(states[|steps|], step)
  {
    more, all := states + [Next(states[|steps|], step)], steps + [step];
  }
}
