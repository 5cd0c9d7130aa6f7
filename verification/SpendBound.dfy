/**
 The guarantees the ledger's invariant buys, over every interleaving of every set of requests.
 */
module SpendBounds {
  import opened Buckets
  import opened Script
  import opened Config
  import opened Enforcement
  import opened Runs
  import opened Windows
  import opened Holds
  import opened Ledgers

  /** One request: what it spent is what the store charges it, give or take an overrun not yet debited. */
  lemma {:induction false} SpentIsBilled(data: Budgets, cat: Catalog, r: Request, k: string, d: Dim)
    requires RequestOk(data, cat, r) && k in cat && cat[k].Enforced(d)
    ensures Measure(r, Spent, k, d) <= Measure(r, Billed, k, d) + Measure(r, Overrun, k, d) - Measure(r, Debit, k, d)
  {
    if r.phase.Settled? {
      AppliedIsDelta(data, cat, r, k, d);
    }
  }

  /** What landed for one bucket dimension is the whole settlement difference or nothing. */
  lemma {:induction false} AppliedIsDelta(data: Budgets, cat: Catalog, r: Request, k: string, d: Dim)
    requires RequestOk(data, cat, r) && r.phase.Settled? && k in cat
    ensures var q := Queued(r.phase.applied, k, d);
            q == 0.0 || (HasKey(r.refs, k) && q == Delta(r.est, r.phase.actual, d))
  {
    var all, applied := r.phase.applied + r.phase.pending, r.phase.applied;
    forall i | 0 <= i < |applied| ensures applied[i] == all[i] {
    }
    assert Unique(applied) by {
      forall i, j | 0 <= i < j < |applied|
        ensures applied[i].key != applied[j].key || applied[i].dim != applied[j].dim
      {
        assert applied[i] == all[i] && applied[j] == all[j];
      }
    }
    QueuedUnique(applied, k, d);
    if i :| 0 <= i < |applied| && applied[i].key == k && applied[i].dim == d {
      assert applied[i] == all[i];
    }
  }

  lemma {:induction false} SpentIsBilledOverall(data: Budgets, cat: Catalog, rs: seq<Request>, k: string, d: Dim)
    requires k in cat && cat[k].Enforced(d) && forall i :: 0 <= i < |rs| ==> RequestOk(data, cat, rs[i])
    ensures Sum(rs, Spent, k, d) <= Sum(rs, Billed, k, d) + Sum(rs, Overrun, k, d) - Sum(rs, Debit, k, d)
  {
    if rs != [] {
      SpentIsBilledOverall(data, cat, rs[..|rs| - 1], k, d);
      SpentIsBilled(data, cat, rs[|rs| - 1], k, d);
    }
  }

  lemma {:induction false} OverrunNonNegative(rs: seq<Request>, k: string, d: Dim)
    ensures Sum(rs, Overrun, k, d) >= 0.0
  {
    if rs != [] {
      OverrunNonNegative(rs[..|rs| - 1], k, d);
    }
  }

  /** The refill a bucket has been credited with: the rate times the seconds that were counted. */
  function Credit(cat: Catalog, s: Ledger, k: string, d: Dim): real
    requires k in cat
  {
    Earned(cat, k, d, Seconds(s.refilled, k))
  }

  ghost predicate WithinBudget(cat: Catalog, s: Ledger, k: string, d: Dim)
    requires k in cat
  {
    && Sum(s.requests, Spent, k, d) <= cat[k].Cap(d) + Credit(cat, s, k, d) + Sum(s.requests, Overrun, k, d)
    + Granted(s, k, d)
    && (cat[k].Rate(d) >= 0.0 && k in s.started ==> Credit(cat, s, k, d) <= Earned(cat, k, d, s.clock - s.started[k]))
  }

  /**
   Spend bound. However checks, settlements, single increments, lost increments and expiries of any
   number of requests and buckets interleave, for every enforced bucket dimension the settled usage plus
   the unsettled reservations never exceeds the cap, plus the refill, plus the total by which calls
   overran their estimates, plus what expiries granted: each the limit less the balance it forgot. With a
   non-negative rate the refill is at most the rate times the time since first use.
   */
  lemma {:induction false} SpendBound(data: Budgets, cat: Catalog, events: seq<Event>, k: string, d: Dim)
    requires AllWellFormed(data) && IsCatalog(data, cat) && k in cat && cat[k].Enforced(d)
    ensures WithinBudget(cat, Play(data, events), k, d)
    ensures NeverExpires(events, k) ==> Granted(Play(data, events), k, d) == 0.0
  {
    PlayKeeps(data, cat, events);
    BoundHere(data, cat, Play(data, events), k, d);
    if NeverExpires(events, k) {
      NothingGranted(data, events, k);
    }
  }

  ghost predicate NeverExpires(events: seq<Event>, k: string) {
    forall i :: 0 <= i < |events| && events[i].Expire? ==> RedisKey(events[i].c) != k
  }

  lemma {:induction false} NothingGranted(data: Budgets, events: seq<Event>, k: string)
    requires NeverExpires(events, k)
    ensures k !in Play(data, events).granted
  {
    if events != [] {
      NothingGranted(data, events[..|events| - 1], k);
    }
  }

  lemma {:induction false} BoundHere(data: Budgets, cat: Catalog, s: Ledger, k: string, d: Dim)
    requires Inv(data, cat, s) && k in cat && cat[k].Enforced(d)
    ensures WithinBudget(cat, s, k, d)
  {
    DimIsOk(data, cat, s, k, d);
    SpentIsBilledOverall(data, cat, s.requests, k, d);
    assert BucketOk(cat, s, k);
    if k in s.started {
      CreditSoFar(cat, s, k, d);
    }
  }

  lemma {:induction false} CreditSoFar(cat: Catalog, s: Ledger, k: string, d: Dim)
    requires k in cat && k in s.started && TimesOk(s, k)
    ensures cat[k].Rate(d) >= 0.0 ==> Credit(cat, s, k, d) <= Earned(cat, k, d, s.clock - s.started[k])
  {
    Sooner(Seconds(s.refilled, k), s.clock - s.started[k], cat[k].Rate(d));
  }

  lemma {:induction false} Sooner(x: real, y: real, r: real)
    requires x <= y
    ensures r >= 0.0 ==> x * r <= y * r
  {
    if r >= 0.0 {
      assert (y - x) * r >= 0.0;
    }
  }

  /** Everything a tenant has spent, across all its agents and tasks. */
  function TenantSpent(rs: seq<Request>, tenant: string, d: Dim): real {
    if rs == [] then 0.0
    else
      var r := rs[|rs| - 1];
      TenantSpent(rs[..|rs| - 1], tenant, d)
      + if r.who.tenant == tenant then (if r.phase.Held? then r.est else r.phase.actual).Of(d) else 0.0
  }

  lemma {:induction false} TenantSpentIsBucketSpent(data: Budgets, cat: Catalog, rs: seq<Request>, tenant: string,
                                                    d: Dim)
    requires AllWellFormed(data) && ConfigKey(tenant, "", "") in data
    requires forall i :: 0 <= i < |rs| ==> RequestOk(data, cat, rs[i])
    ensures TenantSpent(rs, tenant, d) == Sum(rs, Spent, RedisKey(ConfigKey(tenant, "", "")), d)
  {
    if rs != [] {
      TenantSpentIsBucketSpent(data, cat, rs[..|rs| - 1], tenant, d);
      var r := rs[|rs| - 1];
      TenantBucketCovers(data, tenant, r.who.tenant, r.who.agent, r.who.task);
    }
  }

  /** A tenant's ceiling binds the tenant as a whole, whichever agents and tasks its requests name. */
  lemma {:induction false} TenantCeiling(data: Budgets, cat: Catalog, events: seq<Event>, tenant: string, k: string,
                                         d: Dim)
    requires AllWellFormed(data) && IsCatalog(data, cat) && IsTenantBucket(data, tenant, k) && k in cat
             && cat[k].Enforced(d)
    ensures TenantWithin(cat, Play(data, events), tenant, k, d)
    ensures NeverExpires(events, k) ==> Granted(Play(data, events), k, d) == 0.0
  {
    SpendBound(data, cat, events, k, d);
    PlayKeeps(data, cat, events);
    CeilingHere(data, cat, Play(data, events), tenant, k, d);
  }

  /** `k` is the key of the tenant's own bucket, which is configured. */
  ghost predicate IsTenantBucket(data: Budgets, tenant: string, k: string) {
    ConfigKey(tenant, "", "") in data && k == RedisKey(ConfigKey(tenant, "", ""))
  }

  lemma {:induction false} CeilingHere(data: Budgets, cat: Catalog, s: Ledger, tenant: string, k: string, d: Dim)
    requires AllWellFormed(data) && Inv(data, cat, s) && IsTenantBucket(data, tenant, k) && k in cat
             && WithinBudget(cat, s, k, d)
    ensures TenantWithin(cat, s, tenant, k, d)
  {
    TenantSpentIsBucketSpent(data, cat, s.requests, tenant, d);
  }

  /** The tenant's own bucket is `k`: everything the tenant spent is within its budget. */
  ghost predicate TenantWithin(cat: Catalog, s: Ledger, tenant: string, k: string, d: Dim)
    requires k in cat
  {
    && TenantSpent(s.requests, tenant, d)
    <= cat[k].Cap(d) + Credit(cat, s, k, d) + Sum(s.requests, Overrun, k, d) + Granted(s, k, d)
    && (cat[k].Rate(d) >= 0.0 && k in s.started ==> Credit(cat, s, k, d) <= Earned(cat, k, d, s.clock - s.started[k]))
  }

  ghost predicate UsageNonNegative(events: seq<Event>) {
    forall i :: 0 <= i < |events| && events[i].Settle? ==> events[i].actual.NonNegative()
  }

  /** Without refill and expiry the books are exact: stored plus billed is the cap. */
  ghost predicate Balanced(cat: Catalog, s: Ledger, k: string, d: Dim)
    requires k in cat
  {
    && (forall i :: 0 <= i < |s.requests| && s.requests[i].phase.Settled? ==> s.requests[i].phase.actual.NonNegative())
    && (if k in s.store then s.store[k].Of(d).Some?
        && Stored(s.store, k, d) + Sum(s.requests, Billed, k, d) == cat[k].Cap(d)
        else k !in s.started)
  }

  lemma {:induction false} BilledNonNegative(data: Budgets, cat: Catalog, rs: seq<Request>, k: string, d: Dim)
    requires k in cat
    requires forall i :: 0 <= i < |rs| ==>
               RequestOk(data, cat, rs[i]) && (rs[i].phase.Settled? ==> rs[i].phase.actual.NonNegative())
    ensures Sum(rs, Billed, k, d) >= 0.0
  {
    if rs != [] {
      BilledNonNegative(data, cat, rs[..|rs| - 1], k, d);
      var r := rs[|rs| - 1];
      assert r.est.Of(d) >= 0.0;
      if r.phase.Settled? {
        assert r.phase.actual.Of(d) >= 0.0;
        AppliedIsDelta(data, cat, r, k, d);
      }
    }
  }

  lemma {:induction false} BalancedAsk(data: Budgets, cat: Catalog, s: Ledger, who: Caller, est: Amount, at: real,
                                       k: string, d: Dim)
    requires AllWellFormed(data) && IsCatalog(data, cat) && Inv(data, cat, s)
    requires k in cat && cat[k].Enforced(d) && cat[k].Rate(d) == 0.0 && Balanced(cat, s, k, d)
    ensures Balanced(cat, Next(data, s, Ask(who, est, at)), k, d)
  {
    var refs := Resolved(data, who.tenant, who.agent, who.task);
    ResolveIsSound(data, cat, who.tenant, who.agent, who.task);
    if at >= s.clock && refs != [] && Admits(s.store, refs, est, at) {
      BalancedCharge(data, cat, s, Request(who, refs, est, Held), at, k, d);
    }
  }

  lemma {:induction false} BalancedCharge(data: Budgets, cat: Catalog, s: Ledger, r: Request, at: real, k: string,
                                          d: Dim)
    requires Inv(data, cat, s) && FromCatalog(cat, r.refs) && r.phase.Held? && Admits(s.store, r.refs, r.est, at)
    requires k in cat && cat[k].Enforced(d) && cat[k].Rate(d) == 0.0 && Balanced(cat, s, k, d)
    ensures Balanced(cat, Enrolled(s, r, at), k, d)
  {
    BilledNonNegative(data, cat, s.requests, k, d);
    assert BucketOk(cat, s, k);
    if k !in s.store {
      NeverListed(data, cat, s, k, d);
    }
    BalancedEnroll(cat, s, r, at, k, d);
  }

  lemma {:induction false} BalancedEnroll(cat: Catalog, s: Ledger, r: Request, at: real, k: string, d: Dim)
    requires FromCatalog(cat, r.refs) && r.phase.Held? && Admits(s.store, r.refs, r.est, at)
    requires k in cat && cat[k].Enforced(d) && cat[k].Rate(d) == 0.0 && Balanced(cat, s, k, d)
    requires Sum(s.requests, Billed, k, d) >= 0.0 && (k !in s.store ==> Sum(s.requests, Billed, k, d) == 0.0)
    ensures Balanced(cat, Enrolled(s, r, at), k, d)
  {
    HeldBills(s.requests, r, k, d);
    BalancedChargeAt(cat, s.store, r, at, k, d);
    if !HasKey(r.refs, k) {
      Unlisted(cat, s, r, at, k);
    }
  }

  lemma {:induction false} HeldBills(rs: seq<Request>, r: Request, k: string, d: Dim)
    requires r.phase.Held?
    ensures Sum(rs + [r], Billed, k, d) == Sum(rs, Billed, k, d) + Share(r.refs, r.est, k, d)
  {
    SumAppend(rs, r, Billed, k, d);
  }

  lemma {:induction false} BalancedChargeAt(cat: Catalog, store: Store, r: Request, at: real, k: string, d: Dim)
    requires FromCatalog(cat, r.refs) && Admits(store, r.refs, r.est, at) && k in cat && cat[k].Enforced(d)
             && cat[k].Rate(d) == 0.0
    requires k in store ==> store[k].Of(d).Some? && Stored(store, k, d) <= cat[k].Cap(d)
    ensures var before, after := if k in store then Stored(store, k, d) else cat[k].Cap(d),
                                 Checked(store, r.refs, r.est, at);
            if k in after then after[k].Of(d).Some? && Stored(after, k, d) == before - Share(r.refs, r.est, k, d)
            else !HasKey(r.refs, k) && k !in store
  {
    if HasKey(r.refs, k) {
      ChargedBucket(cat, store, r.refs, r.est, at, k, d);
      StillShown(cat, store, k, d, at);
    } else {
      CheckedAt(store, r.refs, r.est, at, k);
    }
  }

  /** A bucket that does not refill shows what it stores. */
  lemma {:induction false} StillShown(cat: Catalog, store: Store, k: string, d: Dim, at: real)
    requires k in cat && cat[k].Enforced(d) && cat[k].Rate(d) == 0.0
    requires k in store ==> store[k].Of(d).Some? && Stored(store, k, d) <= cat[k].Cap(d)
    ensures Level(cat, store, k, d, at) == if k in store then Stored(store, k, d) else cat[k].Cap(d)
  {
  }

  lemma {:induction false} BalancedMove(cat: Catalog, s: Ledger, i: nat, r: Request, store: Store, k: string, d: Dim)
    requires i < |s.requests| && k in cat && Balanced(cat, s, k, d) && (k in store <==> k in s.store)
    requires k in store && s.store[k].Of(d).Some? ==> store[k].Of(d).Some?
    requires r.phase.Settled? && r.phase.actual.NonNegative()
    requires k in store ==>
               Stored(store, k, d) + Measure(r, Billed, k, d)
               == Stored(s.store, k, d) + Measure(s.requests[i], Billed, k, d)
    ensures Balanced(cat, s.(store := store, requests := s.requests[i := r]), k, d)
  {
    SumUpdate(s.requests, i, r, Billed, k, d);
  }

  lemma {:induction false} BalancedStep(data: Budgets, cat: Catalog, s: Ledger, e: Event, k: string, d: Dim)
    requires AllWellFormed(data) && IsCatalog(data, cat) && Inv(data, cat, s)
    requires k in cat && cat[k].Enforced(d) && cat[k].Rate(d) == 0.0 && Balanced(cat, s, k, d)
    requires (e.Settle? ==> e.actual.NonNegative()) && (e.Expire? ==> RedisKey(e.c) != k)
    ensures Balanced(cat, Next(data, s, e), k, d)
  {
    match e
    case Ask(who, est, at) => BalancedAsk(data, cat, s, who, est, at, k, d);
    case Settle(i, actual) => BalancedSettle(data, cat, s, i, actual, k, d);
    case Lose(i) => BalancedLose(data, cat, s, i, k, d);
    case Apply(i) =>
      if CanMove(s, i) {
        BalancedApply(data, cat, s, i, k, d);
      }
    case Expire(c, at) => BalancedExpire(data, cat, s, c, at, k, d);
  }

  lemma {:induction false} BalancedSettle(data: Budgets, cat: Catalog, s: Ledger, i: nat, actual: Amount, k: string,
                                          d: Dim)
    requires k in cat && Balanced(cat, s, k, d) && actual.NonNegative()
    ensures Balanced(cat, Next(data, s, Settle(i, actual)), k, d)
  {
    if i < |s.requests| && s.requests[i].phase.Held? {
      var h := s.requests[i];
      BalancedMove(cat, s, i, h.(phase := Settled(actual, Plan(h.refs, h.est, actual, |h.refs|), [])), s.store, k, d);
    }
  }

  lemma {:induction false} BalancedLose(data: Budgets, cat: Catalog, s: Ledger, i: nat, k: string, d: Dim)
    requires k in cat && Balanced(cat, s, k, d)
    ensures Balanced(cat, Next(data, s, Lose(i)), k, d)
  {
    if CanMove(s, i) {
      var h := s.requests[i];
      var r := h.(phase := Settled(h.phase.actual, h.phase.pending[1..], h.phase.applied));
      BalancedMove(cat, s, i, r, s.store, k, d);
    }
  }

  lemma {:induction false} BalancedExpire(data: Budgets, cat: Catalog, s: Ledger, c: ConfigKey, at: real, k: string,
                                          d: Dim)
    requires k in cat && Balanced(cat, s, k, d) && RedisKey(c) != k
    ensures Balanced(cat, Next(data, s, Expire(c, at)), k, d)
  {
  }

  lemma {:induction false} BalancedApply(data: Budgets, cat: Catalog, s: Ledger, i: nat, k: string, d: Dim)
    requires Inv(data, cat, s) && CanMove(s, i) && k in cat && Balanced(cat, s, k, d)
    ensures Balanced(cat, Next(data, s, Apply(i)), k, d)
  {
    var h := s.requests[i];
    var head := h.phase.pending[0];
    assert (h.phase.applied + h.phase.pending)[|h.phase.applied|] == head;
    assert HasKey(h.refs, head.key) && BucketOk(cat, s, head.key);
    QueuedConcat(h.phase.applied, [head], k, d);
    QueuedSingle([head], k, d);
    CreditMoves(s.store, head, k, d);
    BalancedMove(cat, s, i, h.(phase := Settled(h.phase.actual, h.phase.pending[1..], h.phase.applied + [head])),
                 Credited(s.store, head.key, head.dim, head.delta), k, d);
  }

  lemma {:induction false} CreditMoves(store: Store, inc: Increment, k: string, d: Dim)
    ensures Stored(Credited(store, inc.key, inc.dim, inc.delta), k, d)
            == Stored(store, k, d) + if inc.key == k && inc.dim == d then inc.delta else 0.0
    ensures k in store && store[k].Of(d).Some? ==> Credited(store, inc.key, inc.dim, inc.delta)[k].Of(d).Some?
  {
    match inc.dim case Tokens => case Dollars =>
  }

  lemma {:induction false} BooksBalance(data: Budgets, cat: Catalog, events: seq<Event>, k: string, d: Dim)
    requires AllWellFormed(data) && IsCatalog(data, cat) && UsageNonNegative(events) && NeverExpires(events, k)
    requires k in cat && cat[k].Enforced(d) && cat[k].Rate(d) == 0.0
    ensures Balanced(cat, Play(data, events), k, d)
  {
    if events != [] {
      BooksBalance(data, cat, events[..|events| - 1], k, d);
      PlayKeeps(data, cat, events[..|events| - 1]);
      BalancedStep(data, cat, Play(data, events[..|events| - 1]), events[|events| - 1], k, d);
    }
  }

  /** Settled, with every increment of its reconcile applied. */
  ghost predicate Closed(r: Request) {
    r.phase.Settled? && r.phase.applied == Plan(r.refs, r.est, r.phase.actual, |r.refs|)
  }

  lemma {:induction false} ClosedIsExact(data: Budgets, cat: Catalog, rs: seq<Request>, k: string, d: Dim)
    requires AllWellFormed(data) && IsCatalog(data, cat) && k in cat && cat[k].Enforced(d)
    requires forall i :: 0 <= i < |rs| ==> RequestOk(data, cat, rs[i]) && Closed(rs[i])
    ensures Sum(rs, Billed, k, d) == Sum(rs, Spent, k, d)
  {
    if rs != [] {
      ClosedIsExact(data, cat, rs[..|rs| - 1], k, d);
      ClosedRequest(data, cat, rs[|rs| - 1], k, d);
    }
  }

  lemma {:induction false} ClosedRequest(data: Budgets, cat: Catalog, r: Request, k: string, d: Dim)
    requires AllWellFormed(data) && IsCatalog(data, cat) && k in cat && cat[k].Enforced(d) && RequestOk(data, cat, r)
             && Closed(r)
    ensures Measure(r, Billed, k, d) == Measure(r, Spent, k, d)
  {
    ResolveIsSound(data, cat, r.who.tenant, r.who.agent, r.who.task);
    DeltaIsQueued(cat, r.refs, r.est, r.phase.actual, k, d);
  }

  lemma {:induction false} DeltaIsQueued(cat: Catalog, refs: seq<BucketRef>, est: Amount, actual: Amount, k: string,
                                         d: Dim)
    requires FromCatalog(cat, refs) && DistinctKeys(refs) && k in cat && cat[k].Enforced(d)
    ensures Queued(Plan(refs, est, actual, |refs|), k, d) == if HasKey(refs, k) then Delta(est, actual, d) else 0.0
  {
    PlanQueues(refs, est, actual, |refs|, k, d);
    DistinctCountsOnce(refs, |refs|, k, d);
    if HasKey(refs, k) {
      var i :| 0 <= i < |refs| && refs[i].key == k;
      assert refs[i].limits.Enforced(d);
      assert Times(1, Delta(est, actual, d)) == Times(0, Delta(est, actual, d)) + Delta(est, actual, d);
    }
  }

  /**
   Exact books: where nothing refills, once every request has been settled and every increment has
   landed, each used bucket stores exactly its cap less the actual usage.
   */
  lemma {:induction false} ExactBooks(data: Budgets, cat: Catalog, events: seq<Event>, k: string, d: Dim)
    requires AllWellFormed(data) && IsCatalog(data, cat) && UsageNonNegative(events) && NeverExpires(events, k)
    requires k in cat && cat[k].Enforced(d) && cat[k].Rate(d) == 0.0
    requires forall i :: 0 <= i < |Play(data, events).requests| ==> Closed(Play(data, events).requests[i])
    ensures var s := Play(data, events);
            k in s.store ==> Stored(s.store, k, d) == cat[k].Cap(d) - Sum(s.requests, Spent, k, d)
  {
    BooksBalance(data, cat, events, k, d);
    PlayKeeps(data, cat, events);
    ClosedIsExact(data, cat, Play(data, events).requests, k, d);
  }
}
