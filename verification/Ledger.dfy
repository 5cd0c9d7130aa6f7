/**
 Any number of requests in flight over one shared store. A check is one atomic step; a settlement is a
 pipeline whose increments land one by one, in between which other requests may be checked, and any of
 which may be lost, because a failed reconcile is only logged. A request whose admission never reached the
 gateway, because the reply was lost, stays held for good. Any bucket may expire at any moment, and
 increments may reach it after that. Events that cannot happen are no-ops.
 */
module Ledgers {
  import opened Buckets
  import opened Script
  import opened Config
  import opened Enforcement
  import opened Runs
  import opened Windows
  import opened Holds

  datatype Caller = Caller(tenant: string, agent: string, task: string)

  /** Increments still queued, and those that reached the store; lost ones are in neither. */
  datatype Phase = Held | Settled(actual: Amount, pending: seq<Increment>, applied: seq<Increment>)

  datatype Request = Request(who: Caller, refs: seq<BucketRef>, est: Amount, phase: Phase)

  /**
   Beside the store: when each bucket was first charged, for how many seconds its refill has been credited,
   and how much each expiry has granted it, added up.
   */
  datatype Ledger = Ledger(store: Store, clock: real, started: map<string, real>, refilled: map<string, real>,
                           granted: map<string, Funds>, requests: seq<Request>)

  datatype Event =
    | Ask(who: Caller, est: Amount, at: real)
    | Settle(i: nat, actual: Amount)
    | Apply(i: nat)
    | Lose(i: nat)
    | Expire(c: ConfigKey, at: real)

  function Started(started: map<string, real>, refs: seq<BucketRef>, at: real): map<string, real> {
    map k | k in started.Keys + Keyed(refs) :: if k in started then started[k] else at
  }

  function Keyed(refs: seq<BucketRef>): (keys: set<string>)
    ensures forall k :: k in keys <==> HasKey(refs, k)
  {
    set i | 0 <= i < |refs| :: refs[i].key
  }

  function Seconds(refilled: map<string, real>, k: string): real {
    if k in refilled then refilled[k] else 0.0
  }

  function SecondsAt(refilled: map<string, real>, store: Store, k: string, at: real): real {
    Seconds(refilled, k) + Elapsed(Lookup(store, k), at)
  }

  function Refilled(refilled: map<string, real>, store: Store, refs: seq<BucketRef>, at: real): map<string, real> {
    map k | k in refilled.Keys + Keyed(refs) :: if k in Keyed(refs) then SecondsAt(refilled, store, k, at)
        else refilled[k]
  }

  function Enrolled(s: Ledger, r: Request, at: real): Ledger {
    Ledger(Checked(s.store, r.refs, r.est, at), at, Started(s.started, r.refs, at),
           Refilled(s.refilled, s.store, r.refs, at), s.granted, s.requests + [r])
  }

  /** What expiries have granted one bucket dimension so far. */
  function Granted(s: Ledger, k: string, d: Dim): real {
    if k in s.granted then s.granted[k].Of(d) else 0.0
  }

  /** Limit minus the balance kept: what a bucket gains by being forgotten now. */
  function Gain(l: Limits, d: Dim, h: Hash, at: real): real {
    l.Cap(d) - Balance(l, d, h, at)
  }

  function Forgotten(s: Ledger, k: string, l: Limits, at: real): Ledger {
    var h := Lookup(s.store, k);
    s.(store := s.store - {k}, clock := at, refilled := s.refilled[k := SecondsAt(s.refilled, s.store, k, at)],
       granted := s.granted[k := Funds(Granted(s, k, Tokens) + Gain(l, Tokens, h, at),
                                       Granted(s, k, Dollars) + Gain(l, Dollars, h, at))])
  }

  function Next(data: Budgets, s: Ledger, e: Event): Ledger {
    match e
    case Ask(who, est, at) =>
      var refs := Resolved(data, who.tenant, who.agent, who.task);
      if at < s.clock || refs == [] then s
      else if !Admits(s.store, refs, est, at) then s.(clock := at)
      else Enrolled(s, Request(who, refs, est, Held), at)
    case Settle(i, actual) =>
      if i < |s.requests| && s.requests[i].phase.Held? then
        var r := s.requests[i];
        s.(requests := s.requests[i := r.(phase := Settled(actual, Plan(r.refs, r.est, actual, |r.refs|), []))])
      else s
    case Apply(i) =>
      if CanMove(s, i) then
        var r := s.requests[i];
        var head := r.phase.pending[0];
        s.(store := Credited(s.store, head.key, head.dim, head.delta),
           requests := s.requests[i := r.(phase := Settled(r.phase.actual, r.phase.pending[1..],
                                                           r.phase.applied + [head]))])
      else s
    case Lose(i) =>
      if CanMove(s, i) then
        var r := s.requests[i];
        s.(requests := s.requests[i := r.(phase := Settled(r.phase.actual, r.phase.pending[1..], r.phase.applied))])
      else s
    case Expire(c, at) =>
      if at >= s.clock && c in data && RedisKey(c) in s.store then Forgotten(s, RedisKey(c), data[c], at)
      else s
  }

  predicate CanMove(s: Ledger, i: nat) {
    i < |s.requests| && s.requests[i].phase.Settled? && s.requests[i].phase.pending != []
  }

  function Play(data: Budgets, events: seq<Event>): Ledger {
    if events == [] then Ledger(map[], 0.0, map[], map[], map[], [])
    else Next(data, Play(data, events[..|events| - 1]), events[|events| - 1])
  }

  /**
   What a request means to one bucket dimension: what it has spent so far (its estimate until it is
   settled, then its actual usage), what the store is still charging it, what was debited beyond its
   estimate, and by how much it overran.
   */
  datatype Meter = Spent | Billed | Debit | Overrun

  function Measure(r: Request, m: Meter, k: string, d: Dim): real {
    match m
    case Spent => Share(r.refs, if r.phase.Held? then r.est else r.phase.actual, k, d)
    case Billed => Share(r.refs, r.est, k, d) - if r.phase.Held? then 0.0 else Queued(r.phase.applied, k, d)
    case Debit => if r.phase.Held? then 0.0 else Max(0.0, -Queued(r.phase.applied, k, d))
    case Overrun => if r.phase.Held? then 0.0
        else Max(0.0, Share(r.refs, r.phase.actual, k, d) - Share(r.refs, r.est, k, d))
  }

  function Sum(rs: seq<Request>, m: Meter, k: string, d: Dim): real {
    if rs == [] then 0.0 else Sum(rs[..|rs| - 1], m, k, d) + Measure(rs[|rs| - 1], m, k, d)
  }

  lemma {:induction false} SumAppend(rs: seq<Request>, r: Request, m: Meter, k: string, d: Dim)
    ensures Sum(rs + [r], m, k, d) == Sum(rs, m, k, d) + Measure(r, m, k, d)
  {
    assert (rs + [r])[..|rs + [r]| - 1] == rs;
  }

  lemma {:induction false} SumUpdate(rs: seq<Request>, i: nat, r: Request, m: Meter, k: string, d: Dim)
    requires i < |rs|
    ensures Sum(rs[i := r], m, k, d) == Sum(rs, m, k, d) - Measure(rs[i], m, k, d) + Measure(r, m, k, d)
  {
    var n := |rs| - 1;
    if i < n {
      SumUpdate(rs[..n], i, r, m, k, d);
      assert rs[i := r][..n] == rs[..n][i := r];
    } else {
      assert rs[i := r][..n] == rs[..n];
    }
  }

  lemma {:induction false} SumZero(rs: seq<Request>, m: Meter, k: string, d: Dim)
    requires forall i :: 0 <= i < |rs| ==> Measure(rs[i], m, k, d) == 0.0
    ensures Sum(rs, m, k, d) == 0.0
  {
    if rs != [] {
      SumZero(rs[..|rs| - 1], m, k, d);
    }
  }

  /** No two increments address the same bucket dimension. */
  ghost predicate Unique(incs: seq<Increment>) {
    forall i, j :: 0 <= i < j < |incs| ==> incs[i].key != incs[j].key || incs[i].dim != incs[j].dim
  }

  /** Every increment is the settlement difference of one of the request's enforced buckets. */
  ghost predicate Owed(cat: Catalog, refs: seq<BucketRef>, est: Amount, actual: Amount, incs: seq<Increment>) {
    forall i :: 0 <= i < |incs| ==>
      HasKey(refs, incs[i].key) && incs[i].key in cat && cat[incs[i].key].Enforced(incs[i].dim)
          && incs[i].delta == Delta(est, actual, incs[i].dim)
  }

  lemma {:induction false} PlanIsOwed(cat: Catalog, refs: seq<BucketRef>, est: Amount, actual: Amount, n: nat)
    requires n <= |refs| && FromCatalog(cat, refs) && DistinctKeys(refs)
    ensures var plan := Plan(refs, est, actual, n);
            Unique(plan) && Owed(cat, refs, est, actual, plan) && forall i :: 0 <= i < |plan|
                                                                    ==> exists j :: 0 <= j < n && plan[i].key
                                                                          == refs[j].key
  {
    if n > 0 {
      PlanIsOwed(cat, refs, est, actual, n - 1);
      assert HasKey(refs, refs[n - 1].key);
    }
  }

  /** Among unique increments a bucket dimension finds its own difference or nothing. */
  lemma {:induction false} QueuedUnique(incs: seq<Increment>, k: string, d: Dim)
    requires Unique(incs)
    ensures (forall i :: 0 <= i < |incs| ==> incs[i].key != k || incs[i].dim != d) ==> Queued(incs, k, d) == 0.0
    ensures forall i :: 0 <= i < |incs| && incs[i].key == k && incs[i].dim == d ==> Queued(incs, k, d) == incs[i].delta
  {
    if incs != [] {
      QueuedUnique(incs[..|incs| - 1], k, d);
    }
  }

  ghost predicate RequestOk(data: Budgets, cat: Catalog, r: Request) {
    && r.refs == Resolved(data, r.who.tenant, r.who.agent, r.who.task)
    && r.est.NonNegative()
    && (r.phase.Settled? ==>
          && Unique(r.phase.applied + r.phase.pending)
          && Owed(cat, r.refs, r.est, r.phase.actual, r.phase.applied + r.phase.pending))
  }

  /** The stored balance of one bucket dimension, before refill; full where nothing is stored. */
  function Standing(cat: Catalog, store: Store, k: string, d: Dim): real
    requires k in cat
  {
    Lookup(store, k).Of(d).GetOr(cat[k].Cap(d))
  }

  ghost predicate BucketOk(cat: Catalog, s: Ledger, k: string)
    requires k in cat
  {
    if k in s.started then
      TimesOk(s, k) && forall d: Dim :: cat[k].Enforced(d) ==> DimOk(cat, s, k, d)
    else
      && k !in s.store && k !in s.refilled && k !in s.granted
      && forall i :: 0 <= i < |s.requests| ==> !HasKey(s.requests[i].refs, k)
  }

  /** Refill is credited only for time that has passed since the first charge. */
  ghost predicate TimesOk(s: Ledger, k: string)
    requires k in s.started
  {
    var last := Lookup(s.store, k).lastRefill.GetOr(s.clock);
    last <= s.clock && Seconds(s.refilled, k) <= last - s.started[k]
  }

  /** One bucket dimension: what stands in the store, and the totals the invariant holds against it. */
  datatype Meters = Meters(standing: real, billed: real, debited: real, refill: real, granted: real)

  function Read(cat: Catalog, s: Ledger, k: string, d: Dim): Meters
    requires k in cat
  {
    Meters(Standing(cat, s.store, k, d), Sum(s.requests, Billed, k, d), Sum(s.requests, Debit, k, d),
           Earned(cat, k, d, Seconds(s.refilled, k)), Granted(s, k, d))
  }

  /** What stands plus what is billed fits in the cap, the refill and the grants; and only debits go below zero. */
  predicate Fits(cap: real, m: Meters) {
    m.standing + m.billed <= cap + m.refill + m.granted && m.standing + m.debited >= 0.0
  }

  ghost predicate DimOk(cat: Catalog, s: Ledger, k: string, d: Dim)
    requires k in cat
  {
    Fits(cat[k].Cap(d), Read(cat, s, k, d))
  }

  ghost predicate Inv(data: Budgets, cat: Catalog, s: Ledger) {
    && (forall i :: 0 <= i < |s.requests| ==> RequestOk(data, cat, s.requests[i]))
    && (forall k :: k in cat ==> BucketOk(cat, s, k))
  }

  lemma {:induction false} SumDebitNonNegative(rs: seq<Request>, k: string, d: Dim)
    ensures Sum(rs, Debit, k, d) >= 0.0
  {
    if rs != [] {
      SumDebitNonNegative(rs[..|rs| - 1], k, d);
    }
  }

  lemma {:induction false} AskKeepsBucket(data: Budgets, cat: Catalog, s: Ledger, r: Request, at: real, k: string)
    requires Inv(data, cat, s) && at >= s.clock && k in cat
    requires FromCatalog(cat, r.refs) && r.phase.Held? && Admits(s.store, r.refs, r.est, at)
    ensures BucketOk(cat, Enrolled(s, r, at), k)
  {
    var t := Enrolled(s, r, at);
    assert BucketOk(cat, s, k);
    if HasKey(r.refs, k) {
      ChargeKeepsTimes(cat, s, r, at, k);
      forall d: Dim | cat[k].Enforced(d) ensures DimOk(cat, t, k, d) {
        DimIsOk(data, cat, s, k, d);
        ChargeKeepsDim(cat, s, r, at, k, d);
      }
    } else {
      Unlisted(cat, s, r, at, k);
      if k in s.started {
        forall d: Dim | cat[k].Enforced(d) ensures DimOk(cat, t, k, d) {
          assert DimOk(cat, s, k, d);
          SumAppend(s.requests, r, Billed, k, d);
          SumAppend(s.requests, r, Debit, k, d);
        }
      } else {
        forall i | 0 <= i < |t.requests| ensures !HasKey(t.requests[i].refs, k) {
          assert i < |s.requests| ==> !HasKey(s.requests[i].refs, k);
        }
      }
    }
  }

  /** A check leaves every bucket it does not list alone. */
  lemma {:induction false} Unlisted(cat: Catalog, s: Ledger, r: Request, at: real, k: string)
    requires Admits(s.store, r.refs, r.est, at) && !HasKey(r.refs, k)
    ensures var t := Enrolled(s, r, at);
            && (k in t.store <==> k in s.store) && Lookup(t.store, k) == Lookup(s.store, k)
            && (k in t.started <==> k in s.started) && (k in s.started ==> t.started[k] == s.started[k])
            && (k in t.refilled <==> k in s.refilled) && Seconds(t.refilled, k) == Seconds(s.refilled, k)
  {
    CheckedAt(s.store, r.refs, r.est, at, k);
  }

  /** What a check does to the times of a bucket it lists. */
  lemma {:induction false} Listed(s: Ledger, r: Request, at: real, k: string)
    requires HasKey(r.refs, k)
    ensures var t := Enrolled(s, r, at);
            && k in t.started && t.started[k] == (if k in s.started then s.started[k] else at)
            && k in t.refilled && t.refilled[k] == SecondsAt(s.refilled, s.store, k, at)
  {
  }

  lemma {:induction false} ChargeKeepsTimes(cat: Catalog, s: Ledger, r: Request, at: real, k: string)
    requires at >= s.clock && k in cat && BucketOk(cat, s, k) && HasKey(r.refs, k)
    requires FromCatalog(cat, r.refs) && Admits(s.store, r.refs, r.est, at)
    ensures k in Enrolled(s, r, at).started && TimesOk(Enrolled(s, r, at), k)
  {
    Listed(s, r, at, k);
    CheckedAt(s.store, r.refs, r.est, at, k);
  }

  lemma {:induction false} DimIsOk(data: Budgets, cat: Catalog, s: Ledger, k: string, d: Dim)
    requires Inv(data, cat, s) && k in cat && cat[k].Enforced(d)
    ensures DimOk(cat, s, k, d)
  {
    assert BucketOk(cat, s, k);
    if k !in s.started {
      NeverListed(data, cat, s, k, d);
    }
  }

  lemma {:induction false} ChargeKeepsDim(cat: Catalog, s: Ledger, r: Request, at: real, k: string, d: Dim)
    requires k in cat && cat[k].Enforced(d) && HasKey(r.refs, k) && DimOk(cat, s, k, d)
    requires FromCatalog(cat, r.refs) && r.phase.Held? && Admits(s.store, r.refs, r.est, at)
    ensures DimOk(cat, Enrolled(s, r, at), k, d)
  {
    SumDebitNonNegative(s.requests, k, d);
    ChargeMeters(cat, s, r, at, k, d);
    ChargeLeaves(cat, s.store, r.refs, r.est, at, k, d);
  }

  /** What a check does to the meters of a bucket it lists. */
  lemma {:induction false} ChargeMeters(cat: Catalog, s: Ledger, r: Request, at: real, k: string, d: Dim)
    requires k in cat && HasKey(r.refs, k) && r.phase.Held?
    ensures var m, n := Read(cat, s, k, d), Read(cat, Enrolled(s, r, at), k, d);
            n.(standing := m.standing)
            == m.(billed := m.billed + r.est.Of(d),
                  refill := m.refill + Earned(cat, k, d, Elapsed(Lookup(s.store, k), at)))
  {
    SumAppend(s.requests, r, Billed, k, d);
    SumAppend(s.requests, r, Debit, k, d);
    Listed(s, r, at, k);
    EarnedMore(cat, k, d, Seconds(s.refilled, k), Elapsed(Lookup(s.store, k), at));
  }

  lemma {:induction false} EarnedMore(cat: Catalog, k: string, d: Dim, x: real, y: real)
    requires k in cat
    ensures Earned(cat, k, d, x + y) == Earned(cat, k, d, x) + Earned(cat, k, d, y)
  {
  }

  /** A charged bucket is left with what stood there plus its refill, at most, less the request. */
  lemma {:induction false} ChargeLeaves(cat: Catalog, store: Store, refs: seq<BucketRef>, ask: Amount, at: real,
                                        k: string, d: Dim)
    requires FromCatalog(cat, refs) && Admits(store, refs, ask, at) && HasKey(refs, k) && cat[k].Enforced(d)
    ensures 0.0 <= Standing(cat, Checked(store, refs, ask, at), k, d)
            <= Standing(cat, store, k, d) + Earned(cat, k, d, Elapsed(Lookup(store, k), at)) - ask.Of(d)
  {
    ChargedStands(cat, store, refs, ask, at, k, d);
    ShownAtMost(cat, store, k, d, at);
  }

  lemma {:induction false} ChargedStands(cat: Catalog, store: Store, refs: seq<BucketRef>, ask: Amount, at: real,
                                         k: string, d: Dim)
    requires FromCatalog(cat, refs) && Admits(store, refs, ask, at) && HasKey(refs, k) && cat[k].Enforced(d)
    ensures 0.0 <= Standing(cat, Checked(store, refs, ask, at), k, d) == Level(cat, store, k, d, at) - ask.Of(d)
  {
    ChargedBucket(cat, store, refs, ask, at, k, d);
    StandsAsStored(cat, Checked(store, refs, ask, at), k, d);
  }

  lemma {:induction false} StandsAsStored(cat: Catalog, store: Store, k: string, d: Dim)
    requires k in cat && k in store && store[k].tokens.Some? && store[k].usd.Some?
    ensures Standing(cat, store, k, d) == Stored(store, k, d)
  {
    match d case Tokens => case Dollars =>
  }

  /** A bucket shows no more than what stands there plus its refill. */
  lemma {:induction false} ShownAtMost(cat: Catalog, store: Store, k: string, d: Dim, at: real)
    requires k in cat && cat[k].Enforced(d)
    ensures Level(cat, store, k, d, at) <= Standing(cat, store, k, d) + Earned(cat, k, d, Elapsed(Lookup(store, k), at))
  {
    BalanceAtMost(cat[k], d, Lookup(store, k), at);
  }

  lemma {:induction false} BalanceAtMost(l: Limits, d: Dim, h: Hash, now: real)
    requires l.Enforced(d)
    ensures Balance(l, d, h, now) <= h.Of(d).GetOr(l.Cap(d)) + Elapsed(h, now) * l.Rate(d)
  {
  }

  /** A bucket no request has listed is full, and nothing has been billed to it. */
  lemma {:induction false} NeverListed(data: Budgets, cat: Catalog, s: Ledger, k: string, d: Dim)
    requires Inv(data, cat, s) && k in cat && k !in s.started && cat[k].Enforced(d)
    ensures DimOk(cat, s, k, d) && forall m: Meter :: Sum(s.requests, m, k, d) == 0.0
  {
    assert BucketOk(cat, s, k);
    forall m: Meter ensures Sum(s.requests, m, k, d) == 0.0 {
      forall i | 0 <= i < |s.requests| ensures Measure(s.requests[i], m, k, d) == 0.0 {
        MeasuresNothing(data, cat, s.requests[i], m, k, d);
      }
      SumZero(s.requests, m, k, d);
    }
  }

  /** A request means nothing to buckets it does not list. */
  lemma {:induction false} MeasuresNothing(data: Budgets, cat: Catalog, r: Request, m: Meter, k: string, d: Dim)
    requires RequestOk(data, cat, r) && !HasKey(r.refs, k)
    ensures Measure(r, m, k, d) == 0.0
  {
    if r.phase.Settled? {
      var incs := r.phase.applied + r.phase.pending;
      assert forall i :: 0 <= i < |r.phase.applied| ==> r.phase.applied[i] == incs[i];
      QueuedUnique(r.phase.applied, k, d);
    }
  }

  lemma {:induction false} AskKeeps(data: Budgets, cat: Catalog, s: Ledger, who: Caller, est: Amount, at: real)
    requires AllWellFormed(data) && IsCatalog(data, cat) && Inv(data, cat, s)
    ensures Inv(data, cat, Next(data, s, Ask(who, est, at)))
  {
    var refs := Resolved(data, who.tenant, who.agent, who.task);
    ResolveIsSound(data, cat, who.tenant, who.agent, who.task);
    if at >= s.clock && refs != [] {
      if Admits(s.store, refs, est, at) {
        AdmissionKeeps(data, cat, s, Request(who, refs, est, Held), at);
      } else {
        ClockMoves(data, cat, s, at);
      }
    }
  }

  lemma {:induction false} AdmissionKeeps(data: Budgets, cat: Catalog, s: Ledger, r: Request, at: real)
    requires Inv(data, cat, s) && at >= s.clock && r.refs == Resolved(data, r.who.tenant, r.who.agent, r.who.task)
    requires FromCatalog(cat, r.refs) && r.phase.Held? && Admits(s.store, r.refs, r.est, at)
    ensures Inv(data, cat, Enrolled(s, r, at))
  {
    AdmitsMeans(s.store, r.refs, r.est, at);
    forall k | k in cat ensures BucketOk(cat, Enrolled(s, r, at), k) {
      AskKeepsBucket(data, cat, s, r, at, k);
    }
  }

  lemma {:induction false} ClockMoves(data: Budgets, cat: Catalog, s: Ledger, at: real)
    requires Inv(data, cat, s) && at >= s.clock
    ensures Inv(data, cat, s.(clock := at))
  {
    forall k | k in cat ensures BucketOk(cat, s.(clock := at), k) {
      assert BucketOk(cat, s, k);
      forall d: Dim | k in s.started && cat[k].Enforced(d) ensures DimOk(cat, s.(clock := at), k, d) {
        assert DimOk(cat, s, k, d);
      }
    }
  }

  /** Replacing one request by another phase of itself, together with increments that explain the difference. */
  lemma {:induction false} RequestMoves(data: Budgets, cat: Catalog, s: Ledger, i: nat, r: Request, store: Store)
    requires Inv(data, cat, s) && i < |s.requests| && RequestOk(data, cat, r) && r.refs == s.requests[i].refs
    requires forall k :: k in cat && k !in s.started ==> k !in store
    requires forall k :: k in cat && k in s.started ==> Lookup(store, k).lastRefill == Lookup(s.store, k).lastRefill
    requires forall k, d: Dim :: k in cat && cat[k].Enforced(d) && DimOk(cat, s, k, d) ==>
               DimOk(cat, s.(store := store, requests := s.requests[i := r]), k, d)
    ensures Inv(data, cat, s.(store := store, requests := s.requests[i := r]))
  {
    var t := s.(store := store, requests := s.requests[i := r]);
    forall j | 0 <= j < |t.requests| ensures RequestOk(data, cat, t.requests[j]) {
      assert j != i ==> t.requests[j] == s.requests[j];
    }
    forall k | k in cat ensures BucketOk(cat, t, k) {
      assert BucketOk(cat, s, k);
      if k in s.started {
        forall d: Dim | cat[k].Enforced(d) ensures DimOk(cat, t, k, d) {
          assert DimOk(cat, s, k, d);
        }
      } else {
        forall j | 0 <= j < |t.requests| ensures !HasKey(t.requests[j].refs, k) {
          assert !HasKey(s.requests[j].refs, k);
        }
      }
    }
  }

  /** A request that moves without an increment landing changes no bill. */
  lemma {:induction false} QuietMove(cat: Catalog, s: Ledger, i: nat, r: Request, k: string, d: Dim)
    requires i < |s.requests| && k in cat && DimOk(cat, s, k, d)
    requires Measure(r, Billed, k, d) == Measure(s.requests[i], Billed, k, d)
    requires Measure(r, Debit, k, d) == Measure(s.requests[i], Debit, k, d)
    ensures DimOk(cat, s.(requests := s.requests[i := r]), k, d)
  {
    SumUpdate(s.requests, i, r, Billed, k, d);
    SumUpdate(s.requests, i, r, Debit, k, d);
  }

  lemma {:induction false} QuietMoves(data: Budgets, cat: Catalog, s: Ledger, i: nat, r: Request)
    requires Inv(data, cat, s) && i < |s.requests| && RequestOk(data, cat, r) && r.refs == s.requests[i].refs
    requires forall k, d: Dim ::
               && Measure(r, Billed, k, d) == Measure(s.requests[i], Billed, k, d)
               && Measure(r, Debit, k, d) == Measure(s.requests[i], Debit, k, d)
    ensures Inv(data, cat, s.(requests := s.requests[i := r]))
  {
    forall k, d: Dim | k in cat && cat[k].Enforced(d) && DimOk(cat, s, k, d)
      ensures DimOk(cat, s.(requests := s.requests[i := r]), k, d)
    {
      QuietMove(cat, s, i, r, k, d);
    }
    assert forall k :: k in cat && k !in s.started ==> BucketOk(cat, s, k);
    RequestMoves(data, cat, s, i, r, s.store);
  }

  lemma {:induction false} SettleKeeps(data: Budgets, cat: Catalog, s: Ledger, i: nat, actual: Amount)
    requires AllWellFormed(data) && IsCatalog(data, cat) && Inv(data, cat, s)
    ensures Inv(data, cat, Next(data, s, Settle(i, actual)))
  {
    if i < |s.requests| && s.requests[i].phase.Held? {
      var held := s.requests[i];
      var plan := Plan(held.refs, held.est, actual, |held.refs|);
      var r := held.(phase := Settled(actual, plan, []));
      ResolveIsSound(data, cat, held.who.tenant, held.who.agent, held.who.task);
      PlanIsOwed(cat, held.refs, held.est, actual, |held.refs|);
      assert [] + plan == plan;
      QuietMoves(data, cat, s, i, r);
    }
  }

  lemma {:induction false} LoseKeeps(data: Budgets, cat: Catalog, s: Ledger, i: nat)
    requires Inv(data, cat, s)
    ensures Inv(data, cat, Next(data, s, Lose(i)))
  {
    if CanMove(s, i) {
      var p := s.requests[i].phase;
      var r := s.requests[i].(phase := Settled(p.actual, p.pending[1..], p.applied));
      Skips(p.applied, p.pending);
      QuietMoves(data, cat, s, i, r);
    }
  }

  /** Dropping one entry keeps the rest, in order. */
  lemma {:induction false} Skips(a: seq<Increment>, b: seq<Increment>)
    requires b != []
    ensures forall i :: 0 <= i < |a| ==> (a + b[1..])[i] == (a + b)[i]
    ensures forall i :: |a| <= i < |a + b[1..]| ==> (a + b[1..])[i] == (a + b)[i + 1]
    ensures Unique(a + b) ==> Unique(a + b[1..])
  {
    var after, before := a + b[1..], a + b;
    forall i, j | 0 <= i < j < |after| && Unique(before)
      ensures after[i].key != after[j].key || after[i].dim != after[j].dim
    {
      var i', j' := if i < |a| then i else i + 1, if j < |a| then j else j + 1;
      assert after[i] == before[i'] && after[j] == before[j'];
    }
  }

  lemma {:induction false} ApplyKeeps(data: Budgets, cat: Catalog, s: Ledger, i: nat)
    requires Inv(data, cat, s)
    ensures Inv(data, cat, Next(data, s, Apply(i)))
  {
    if CanMove(s, i) {
      var p := s.requests[i].phase;
      var head := p.pending[0];
      var r := s.requests[i].(phase := Settled(p.actual, p.pending[1..], p.applied + [head]));
      assert (p.applied + [head]) + p.pending[1..] == p.applied + p.pending;
      assert (p.applied + p.pending)[|p.applied|] == head;
      assert HasKey(s.requests[i].refs, head.key) && BucketOk(cat, s, head.key);
      var store := Credited(s.store, head.key, head.dim, head.delta);
      forall k ensures Lookup(store, k).lastRefill == Lookup(s.store, k).lastRefill {
        match head.dim case Tokens => case Dollars =>
      }
      forall k, d: Dim | k in cat && cat[k].Enforced(d) && DimOk(cat, s, k, d)
        ensures DimOk(cat, s.(store := store, requests := s.requests[i := r]), k, d)
      {
        ApplyKeepsDim(cat, s, i, r, k, d);
      }
      assert forall k :: k in cat && k !in s.started ==> BucketOk(cat, s, k);
      RequestMoves(data, cat, s, i, r, store);
    }
  }

  lemma {:induction false} ApplyKeepsDim(cat: Catalog, s: Ledger, i: nat, r: Request, k: string, d: Dim)
    requires CanMove(s, i) && k in cat && cat[k].Enforced(d) && DimOk(cat, s, k, d)
    requires var p := s.requests[i].phase;
             && Unique(p.applied + p.pending)
             && r == s.requests[i].(phase := Settled(p.actual, p.pending[1..], p.applied + [p.pending[0]]))
    ensures var head := s.requests[i].phase.pending[0];
            DimOk(cat, s.(store := Credited(s.store, head.key, head.dim, head.delta), requests := s.requests[i := r]),
                  k, d)
  {
    var head := s.requests[i].phase.pending[0];
    SumDebitNonNegative(s.requests, k, d);
    IncrementStands(cat, s.store, head, k, d);
    ApplyMeters(s, i, r, k, d);
  }

  /** What a landing increment does to the meters. */
  lemma {:induction false} ApplyMeters(s: Ledger, i: nat, r: Request, k: string, d: Dim)
    requires CanMove(s, i)
    requires var p := s.requests[i].phase;
             && Unique(p.applied + p.pending)
             && r == s.requests[i].(phase := Settled(p.actual, p.pending[1..], p.applied + [p.pending[0]]))
    ensures var head, after := s.requests[i].phase.pending[0], s.requests[i := r];
            var delta := if head.key == k && head.dim == d then head.delta else 0.0;
            && Sum(after, Billed, k, d) == Sum(s.requests, Billed, k, d) - delta
            && Sum(after, Debit, k, d) == Sum(s.requests, Debit, k, d) - if delta < 0.0 then delta else 0.0
  {
    var p := s.requests[i].phase;
    var head := p.pending[0];
    SumUpdate(s.requests, i, r, Billed, k, d);
    SumUpdate(s.requests, i, r, Debit, k, d);
    QueuedConcat(p.applied, [head], k, d);
    QueuedSingle([head], k, d);
    if head.key == k && head.dim == d {
      NotYetApplied(p.applied, p.pending, k, d);
    }
  }

  /** An increment moves what stands by itself, unless it finds nothing there: then it is all that stands. */
  lemma {:induction false} IncrementStands(cat: Catalog, store: Store, inc: Increment, k: string, d: Dim)
    requires k in cat
    ensures Standing(cat, Credited(store, inc.key, inc.dim, inc.delta), k, d)
            == if inc.key != k || inc.dim != d then Standing(cat, store, k, d)
               else inc.delta + if Lookup(store, k).Of(d).Some? then Standing(cat, store, k, d) else 0.0
  {
    match inc.dim case Tokens => case Dollars =>
  }

  lemma {:induction false} NotYetApplied(applied: seq<Increment>, pending: seq<Increment>, k: string, d: Dim)
    requires pending != [] && Unique(applied + pending) && pending[0].key == k && pending[0].dim == d
    ensures Queued(applied, k, d) == 0.0
  {
    var all := applied + pending;
    forall i | 0 <= i < |applied| ensures applied[i].key != k || applied[i].dim != d {
      assert all[i] == applied[i] && all[|applied|] == pending[0];
    }
    forall i, j | 0 <= i < j < |applied| ensures applied[i].key != applied[j].key || applied[i].dim != applied[j].dim {
      assert all[i] == applied[i] && all[j] == applied[j];
    }
    QueuedUnique(applied, k, d);
  }

  lemma {:induction false} ExpireKeeps(data: Budgets, cat: Catalog, s: Ledger, c: ConfigKey, at: real)
    requires AllWellFormed(data) && IsCatalog(data, cat) && Inv(data, cat, s)
    ensures Inv(data, cat, Next(data, s, Expire(c, at)))
  {
    if at >= s.clock && c in data && RedisKey(c) in s.store {
      forall k | k in cat ensures BucketOk(cat, Forgotten(s, RedisKey(c), data[c], at), k) {
        assert BucketOk(cat, s, k) && BucketOk(cat, s, RedisKey(c));
        ForgettingKeeps(cat, s, RedisKey(c), at, k);
      }
    }
  }

  lemma {:induction false} ForgettingKeeps(cat: Catalog, s: Ledger, gone: string, at: real, k: string)
    requires at >= s.clock && gone in cat && gone in s.store && k in cat && BucketOk(cat, s, gone)
             && BucketOk(cat, s, k)
    ensures BucketOk(cat, Forgotten(s, gone, cat[gone], at), k)
  {
    forall d: Dim | k in s.started && cat[k].Enforced(d) ensures DimOk(cat, Forgotten(s, gone, cat[gone], at), k, d) {
      assert DimOk(cat, s, k, d);
      if k == gone {
        ForgettingFits(cat, s, k, d, at);
      }
    }
  }

  lemma {:induction false} ForgettingFits(cat: Catalog, s: Ledger, k: string, d: Dim, at: real)
    requires k in cat && cat[k].Enforced(d) && DimOk(cat, s, k, d)
    ensures DimOk(cat, Forgotten(s, k, cat[k], at), k, d)
  {
    SumDebitNonNegative(s.requests, k, d);
    ForgettingMeters(cat, s, k, d, at);
    BalanceAtMost(cat[k], d, Lookup(s.store, k), at);
  }

  /** An expiry fills the bucket, counts the refill up to it, and grants the difference. */
  lemma {:induction false} ForgettingMeters(cat: Catalog, s: Ledger, k: string, d: Dim, at: real)
    requires k in cat && cat[k].Enforced(d)
    ensures var m, n, h := Read(cat, s, k, d), Read(cat, Forgotten(s, k, cat[k], at), k, d), Lookup(s.store, k);
            n == m.(standing := cat[k].Cap(d), refill := m.refill + Earned(cat, k, d, Elapsed(h, at)),
                    granted := m.granted + Gain(cat[k], d, h, at))
  {
    EarnedMore(cat, k, d, Seconds(s.refilled, k), Elapsed(Lookup(s.store, k), at));
    match d case Tokens => case Dollars =>
  }

  lemma {:induction false} PlayKeeps(data: Budgets, cat: Catalog, events: seq<Event>)
    requires AllWellFormed(data) && IsCatalog(data, cat)
    ensures Inv(data, cat, Play(data, events))
  {
    if events != [] {
      var s, e := Play(data, events[..|events| - 1]), events[|events| - 1];
      PlayKeeps(data, cat, events[..|events| - 1]);
      match e
      case Ask(who, est, at) => AskKeeps(data, cat, s, who, est, at);
      case Settle(i, actual) => SettleKeeps(data, cat, s, i, actual);
      case Apply(i) => ApplyKeeps(data, cat, s, i);
      case Lose(i) => LoseKeeps(data, cat, s, i);
      case Expire(c, at) => ExpireKeeps(data, cat, s, c, at);
    }
  }
}
