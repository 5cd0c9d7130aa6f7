/**
 Lists in which several buckets share a Redis key, each with limits of its own. A task or an agent called
 "-" produces them. What is charged and what is refunded is then decided by the last bucket of the key, and
 here is exactly when that goes unnoticed, for single lists and for the configurations they come from.
 */
module Collisions {
  import opened Options
  import opened Buckets
  import opened Script
  import opened Config
  import opened Holds

  /** The two limits agree wherever the first one enforces anything, so equal hashes show equal balances. */
  predicate Agrees(l: Limits, last: Limits) {
    forall d: Dim :: l.Enforced(d) ==> SameBudget(l, last, d)
  }

  predicate SameBudget(l: Limits, last: Limits, d: Dim) {
    l.Cap(d) == last.Cap(d) && l.Rate(d) == last.Rate(d)
  }

  /** The first limits enforce nothing, save a shared cap of a single token. */
  predicate Yields(l: Limits, last: Limits) {
    forall d: Dim :: l.Enforced(d) ==> OneToken(l, d) && SameBudget(l, last, d)
  }

  predicate OneToken(l: Limits, d: Dim) {
    d == Tokens && l.tokenLimit == 1
  }

  /** Every bucket that is not the last of its key stands in relation `p` to that last one. */
  ghost predicate EachTo(refs: seq<BucketRef>, p: (Limits, Limits) -> bool) {
    forall i :: 0 <= i < |refs| && Decider(refs, i) != i ==> p(refs[i].limits, refs[Decider(refs, i)].limits)
  }

  /** An allowed check lowers every enforced balance by the request, in whatever store it is made. */
  ghost predicate AlwaysLowered(refs: seq<BucketRef>) {
    forall store, ask, now, i, d: Dim :: Admits(store, refs, ask, now) && 0 <= i < |refs| && refs[i].limits.Enforced(d)
      ==> Lowered(store, refs, ask, now, i, d)
  }

  /** A full refund restores every enforced balance, in whatever store the call was made. */
  ghost predicate AlwaysRestored(refs: seq<BucketRef>) {
    forall store, ask, now, i, d: Dim :: Admits(store, refs, ask, now) && 0 <= i < |refs| && refs[i].limits.Enforced(d)
      ==> Restored(store, refs, ask, now, i, d)
  }

  const START: Store := map[]

  /** Half the smallest enforced dollar cap among the first n buckets, or less. */
  function SmallChange(refs: seq<BucketRef>, n: nat): (x: real)
    requires n <= |refs|
    ensures x > 0.0 && forall i :: 0 <= i < n && refs[i].limits.Enforced(Dollars) ==> x < refs[i].limits.dollarLimit
  {
    if n == 0 then 1.0
    else
      var x, l := SmallChange(refs, n - 1), refs[n - 1].limits;
      if l.Enforced(Dollars) && l.dollarLimit / 2.0 < x then l.dollarLimit / 2.0 else x
  }

  /** A positive request in dimension d that every full bucket can pay. */
  function SmallAsk(refs: seq<BucketRef>, d: Dim): Amount {
    match d
    case Tokens => Amount(1, 0.0)
    case Dollars => Amount(0, SmallChange(refs, |refs|))
  }

  lemma {:induction false} SmallAskIsSmall(refs: seq<BucketRef>, d: Dim, i: nat, e: Dim)
    requires i < |refs| && refs[i].limits.Enforced(e)
    ensures SmallAsk(refs, d).NonNegative() && SmallAsk(refs, d).Of(d) > 0.0
    ensures SmallAsk(refs, d).Of(e) <= refs[i].limits.Cap(e) && (e != d ==> SmallAsk(refs, d).Of(e) == 0.0)
    ensures e == d && !OneToken(refs[i].limits, d) ==> SmallAsk(refs, d).Of(d) < refs[i].limits.Cap(d)
  {
    match d case Tokens => case Dollars =>
    match e case Tokens => case Dollars =>
  }

  /** A full store admits the small request. */
  lemma {:induction false} StartAdmits(refs: seq<BucketRef>, d: Dim)
    requires refs != []
    ensures Admits(START, refs, SmallAsk(refs, d), 0.0) && Admits(START, refs, NOTHING, 0.0)
  {
    AdmitsMeans(START, refs, SmallAsk(refs, d), 0.0);
    AdmitsMeans(START, refs, NOTHING, 0.0);
    forall i | 0 <= i < |refs|
      ensures Covers(refs[i].limits, Observe(START, refs[i], 0.0), SmallAsk(refs, d))
              && Covers(refs[i].limits, Observe(START, refs[i], 0.0), NOTHING)
    {
      forall e: Dim | refs[i].limits.Enforced(e) ensures SmallAsk(refs, d).Of(e) <= refs[i].limits.Cap(e) {
        SmallAskIsSmall(refs, d, i, e);
      }
      assert refs[i].limits.Enforced(Tokens) ==> SmallAsk(refs, d).Of(Tokens) <= refs[i].limits.Cap(Tokens);
      assert refs[i].limits.Enforced(Dollars) ==> SmallAsk(refs, d).Of(Dollars) <= refs[i].limits.Cap(Dollars);
    }
    match d case Tokens => case Dollars =>
  }

  lemma {:induction false} StartShows(refs: seq<BucketRef>, i: nat, d: Dim)
    requires i < |refs|
    ensures Observe(START, refs[i], 0.0).Of(d) == refs[i].limits.Cap(d)
  {
    match d case Tokens => case Dollars =>
  }

  /** The sum of all refill rates of the first n buckets, signs dropped. */
  function Rates(refs: seq<BucketRef>, n: nat): (r: real)
    requires n <= |refs|
    ensures r >= 0.0
  {
    if n == 0 then 0.0
    else Rates(refs, n - 1) + Abs(refs[n - 1].limits.Rate(Tokens)) + Abs(refs[n - 1].limits.Rate(Dollars))
  }

  lemma {:induction false} RateWithin(refs: seq<BucketRef>, n: nat, i: nat, d: Dim)
    requires i < n <= |refs|
    ensures -Rates(refs, n) <= refs[i].limits.Rate(d) <= Rates(refs, n)
  {
    if i < n - 1 {
      RateWithin(refs, n - 1, i, d);
    } else {
      match d case Tokens => case Dollars =>
    }
  }

  /** A store with `v` under one key, and a moment so soon after that no rate has moved it by more than `v`. */
  function Soon(refs: seq<BucketRef>, v: real): real {
    v / (1.0 + Rates(refs, |refs|))
  }

  function Half(key: string, v: real): Store {
    map[key := Hash(Some(v), Some(v), Some(0.0))]
  }

  lemma {:induction false} SoonMovesLittle(refs: seq<BucketRef>, v: real, i: nat, d: Dim)
    requires v > 0.0 && i < |refs|
    ensures Soon(refs, v) > 0.0 && -v <= Soon(refs, v) * refs[i].limits.Rate(d) <= v
  {
    RateWithin(refs, |refs|, i, d);
    Shrinks(v, refs[i].limits.Rate(d), Rates(refs, |refs|));
  }

  lemma {:induction false} Shrinks(v: real, r: real, total: real)
    requires v > 0.0 && -total <= r <= total
    ensures v / (1.0 + total) > 0.0 && -v <= v / (1.0 + total) * r <= v
  {
    var t := v / (1.0 + total);
    assert t * (1.0 + total) == v;
    assert t > 0.0;
    assert t * (1.0 + total - r) >= 0.0;
    assert t * (1.0 + total + r) >= 0.0;
  }

  lemma {:induction false} HalfShows(refs: seq<BucketRef>, key: string, v: real, i: nat, d: Dim)
    requires v > 0.0 && i < |refs| && refs[i].limits.Enforced(d)
    ensures var shown := Observe(Half(key, v), refs[i], Soon(refs, v)).Of(d);
            && shown >= 0.0
            && (refs[i].key == key ==> shown == Min(v + Soon(refs, v) * refs[i].limits.Rate(d), refs[i].limits.Cap(d)))
  {
    SoonMovesLittle(refs, v, i, d);
    HalfShowsAt(refs[i], key, v, Soon(refs, v), d);
  }

  lemma {:induction false} HalfShowsAt(ref: BucketRef, key: string, v: real, now: real, d: Dim)
    requires ref.limits.Enforced(d) && now > 0.0 && -v <= now * ref.limits.Rate(d)
    ensures var shown := Observe(Half(key, v), ref, now).Of(d);
            shown >= 0.0 && (ref.key == key ==> shown == Min(v + now * ref.limits.Rate(d), ref.limits.Cap(d)))
  {
    HalfObserved(ref, key, v, now, d);
    NotBelowZero(v, now * ref.limits.Rate(d), ref.limits.Cap(d));
  }

  lemma {:induction false} NotBelowZero(v: real, moved: real, cap: real)
    requires -v <= moved && cap > 0.0
    ensures Min(v + moved, cap) >= 0.0
  {
  }

  lemma {:induction false} HalfObserved(ref: BucketRef, key: string, v: real, now: real, d: Dim)
    requires ref.limits.Enforced(d) && now > 0.0
    ensures Observe(Half(key, v), ref, now).Of(d)
            == if ref.key == key then Min(v + now * ref.limits.Rate(d), ref.limits.Cap(d)) else ref.limits.Cap(d)
  {
    HalfBalance(ref.limits, d, v, now);
    match d case Tokens => case Dollars =>
  }

  lemma {:induction false} HalfBalance(l: Limits, d: Dim, v: real, now: real)
    requires l.Enforced(d) && now > 0.0
    ensures Balance(l, d, Hash(Some(v), Some(v), Some(0.0)), now) == Min(v + now * l.Rate(d), l.Cap(d))
    ensures Balance(l, d, EMPTY_HASH, now) == l.Cap(d)
  {
    match d case Tokens => case Dollars =>
  }

  lemma {:induction false} HalfAdmits(refs: seq<BucketRef>, key: string, v: real)
    requires v > 0.0
    ensures Admits(Half(key, v), refs, NOTHING, Soon(refs, v))
  {
    var store, now := Half(key, v), Soon(refs, v);
    AdmitsMeans(store, refs, NOTHING, now);
    forall i | 0 <= i < |refs| ensures Covers(refs[i].limits, Observe(store, refs[i], now), NOTHING) {
      if refs[i].limits.Enforced(Tokens) {
        HalfShows(refs, key, v, i, Tokens);
      }
      if refs[i].limits.Enforced(Dollars) {
        HalfShows(refs, key, v, i, Dollars);
      }
    }
  }

  /** Different rates under one key show different balances, soon after, of one half-full bucket. */
  lemma {:induction false} RatesShow(refs: seq<BucketRef>, i: nat, j: nat, d: Dim) returns (store: Store, now: real)
    requires i < |refs| && j < |refs| && refs[i].key == refs[j].key && refs[i].limits.Enforced(d)
    requires refs[i].limits.Cap(d) == refs[j].limits.Cap(d) && refs[i].limits.Rate(d) != refs[j].limits.Rate(d)
    ensures Admits(store, refs, NOTHING, now)
    ensures Observe(store, refs[i], now).Of(d) != Observe(store, refs[j], now).Of(d)
    ensures Observe(store, refs[j], now).Of(d) <= refs[i].limits.Cap(d)
  {
    var v := refs[i].limits.Cap(d) / 2.0;
    store, now := Half(refs[i].key, v), Soon(refs, v);
    HalfAdmits(refs, refs[i].key, v);
    HalfShows(refs, refs[i].key, v, i, d);
    HalfShows(refs, refs[i].key, v, j, d);
    RatesDiffer(refs, v, i, j, d);
  }

  lemma {:induction false} RatesDiffer(refs: seq<BucketRef>, v: real, i: nat, j: nat, d: Dim)
    requires v > 0.0 && i < |refs| && j < |refs| && refs[i].limits.Rate(d) != refs[j].limits.Rate(d)
    ensures Min(v + Soon(refs, v) * refs[i].limits.Rate(d), v + v)
            != Min(v + Soon(refs, v) * refs[j].limits.Rate(d), v + v)
  {
    SoonMovesLittle(refs, v, i, d);
    SoonMovesLittle(refs, v, j, d);
    HalvesDiffer(Soon(refs, v), v, refs[i].limits.Rate(d), refs[j].limits.Rate(d), v + v);
  }

  lemma {:induction false} HalvesDiffer(t: real, v: real, r: real, s: real, cap: real)
    requires t > 0.0 && r != s && t * r <= v && t * s <= v && cap == v + v
    ensures Min(v + t * r, cap) != Min(v + t * s, cap)
  {
    assert t * (r - s) != 0.0;
  }

  /** When agreement fails somewhere, some store and request show it. */
  lemma {:induction false} DisagreementShows(refs: seq<BucketRef>, i: nat, d: Dim)
      returns (store: Store, ask: Amount, now: real)
    requires i < |refs| && refs[i].limits.Enforced(d) && !SameBudget(refs[i].limits, refs[Decider(refs, i)].limits, d)
    ensures Admits(store, refs, ask, now) && !Lowered(store, refs, ask, now, i, d)
  {
    var j := Decider(refs, i);
    if refs[i].limits.Cap(d) == refs[j].limits.Cap(d) {
      ask := NOTHING;
      store, now := RatesShow(refs, i, j, d);
    } else {
      store, ask, now := START, SmallAsk(refs, d), 0.0;
      StartAdmits(refs, d);
      StartShows(refs, i, d);
      StartShows(refs, j, d);
      SmallAskIsSmall(refs, d, i, d);
    }
    LoweredExactly(store, refs, ask, now, i, d);
  }

  lemma {:induction false} SameBudgetShowsSame(store: Store, refs: seq<BucketRef>, now: real, i: nat, j: nat, d: Dim)
    requires i < |refs| && j < |refs| && refs[i].key == refs[j].key && SameBudget(refs[i].limits, refs[j].limits, d)
    ensures Observe(store, refs[i], now).Of(d) == Observe(store, refs[j], now).Of(d)
  {
    SameBudgetSameBalance(refs[i].limits, refs[j].limits, d, Lookup(store, refs[i].key), now);
    match d case Tokens => case Dollars =>
  }

  lemma {:induction false} SameBudgetSameBalance(l: Limits, last: Limits, d: Dim, h: Hash, now: real)
    requires SameBudget(l, last, d)
    ensures Balance(l, d, h, now) == Balance(last, d, h, now)
  {
    assert Raw(l, d, h, now) == Raw(last, d, h, now);
  }

  /** All or nothing holds in every store if and only if every bucket agrees with the last one of its key. */
  lemma {:induction false} LoweredAlwaysExactly(refs: seq<BucketRef>)
    ensures AlwaysLowered(refs) <==> EachTo(refs, Agrees)
  {
    if EachTo(refs, Agrees) {
      forall store, ask, now, i, d: Dim | Admits(store, refs, ask, now) && 0 <= i < |refs| && refs[i].limits.Enforced(d)
        ensures Lowered(store, refs, ask, now, i, d)
      {
        SameBudgetShowsSame(store, refs, now, i, Decider(refs, i), d);
        LoweredExactly(store, refs, ask, now, i, d);
      }
    } else {
      var i :| 0 <= i < |refs| && Decider(refs, i) != i && !Agrees(refs[i].limits, refs[Decider(refs, i)].limits);
      var d: Dim :| refs[i].limits.Enforced(d) && !SameBudget(refs[i].limits, refs[Decider(refs, i)].limits, d);
      var store, ask, now := DisagreementShows(refs, i, d);
    }
  }

  lemma {:induction false} AnotherEnforces(refs: seq<BucketRef>, n: nat, i: nat, key: string, d: Dim) returns (p: nat)
    requires n <= |refs| && Multiplicity(refs, n, key, d) >= if i < n then 2 else 1
    ensures p < n && p != i && refs[p].key == key && refs[p].limits.Enforced(d)
  {
    if n - 1 != i && refs[n - 1].key == key && refs[n - 1].limits.Enforced(d) {
      p := n - 1;
    } else {
      p := AnotherEnforces(refs, n - 1, i, key, d);
    }
  }

  lemma {:induction false} TwoEnforce(refs: seq<BucketRef>, n: nat, i: nat, j: nat, d: Dim)
    requires i < j < n <= |refs| && refs[i].key == refs[j].key && refs[i].limits.Enforced(d)
             && refs[j].limits.Enforced(d)
    ensures Multiplicity(refs, n, refs[i].key, d) >= 2
  {
    if j < n - 1 {
      TwoEnforce(refs, n - 1, i, j, d);
    } else {
      CountsAtLeast(refs, n - 1, i, refs[i].key, d);
    }
  }

  /** A bucket enforced twice and holding less than its cap is over-refunded. */
  lemma {:induction false} DoubleShows(refs: seq<BucketRef>, i: nat, d: Dim)
      returns (store: Store, ask: Amount, now: real)
    requires i < |refs| && refs[i].limits.Enforced(d) && !OneToken(refs[i].limits, d)
    requires Multiplicity(refs, |refs|, refs[i].key, d) >= 2
    ensures Admits(store, refs, ask, now) && !Restored(store, refs, ask, now, i, d)
  {
    ask, now := SmallAsk(refs, d), 0.0;
    store := Barely(refs, refs[i].key, d);
    SmallAskIsSmall(refs, d, i, d);
    BarelyAdmits(refs, refs[i].key, d);
    BarelyShows(refs, refs[i].key, d, i, d);
    BarelyShows(refs, refs[i].key, d, Decider(refs, i), d);
    RefundExactly(store, refs, ask, now, i, d);
    TimesAtLeast(Multiplicity(refs, |refs|, refs[i].key, d) - 1, ask.Of(d));
  }

  /** One key stores just the small request in dimension d; everything else is full. */
  function Barely(refs: seq<BucketRef>, key: string, d: Dim): Store {
    var x := SmallAsk(refs, d).Of(d);
    map[key := if d == Tokens then Hash(Some(x), None, None) else Hash(None, Some(x), None)]
  }

  lemma {:induction false} BarelyShows(refs: seq<BucketRef>, key: string, d: Dim, i: nat, e: Dim)
    requires i < |refs|
    ensures Observe(Barely(refs, key, d), refs[i], 0.0).Of(e) == if refs[i].key == key && e == d
            then SmallAsk(refs, d).Of(d) else refs[i].limits.Cap(e)
  {
    if refs[i].limits.Enforced(e) {
      SmallAskIsSmall(refs, d, i, e);
    }
    match d case Tokens => case Dollars =>
    match e case Tokens => case Dollars =>
  }

  lemma {:induction false} BarelyAdmits(refs: seq<BucketRef>, key: string, d: Dim)
    requires refs != []
    ensures Admits(Barely(refs, key, d), refs, SmallAsk(refs, d), 0.0)
  {
    var store, ask := Barely(refs, key, d), SmallAsk(refs, d);
    AdmitsMeans(store, refs, ask, 0.0);
    assert ask.NonNegative() by {
      match d case Tokens => case Dollars =>
    }
    forall i | 0 <= i < |refs| ensures Covers(refs[i].limits, Observe(store, refs[i], 0.0), ask) {
      BarelyShows(refs, key, d, i, Tokens);
      BarelyShows(refs, key, d, i, Dollars);
      if refs[i].limits.Enforced(Tokens) {
        SmallAskIsSmall(refs, d, i, Tokens);
      }
      if refs[i].limits.Enforced(Dollars) {
        SmallAskIsSmall(refs, d, i, Dollars);
      }
    }
  }

  /** Where some bucket does not yield to the last one of its key, some store and request show it. */
  lemma {:induction false} OverpaymentShows(refs: seq<BucketRef>, i: nat, d: Dim)
      returns (store: Store, ask: Amount, now: real, p: nat)
    requires i < |refs| && Decider(refs, i) != i && refs[i].limits.Enforced(d)
    requires !(OneToken(refs[i].limits, d) && SameBudget(refs[i].limits, refs[Decider(refs, i)].limits, d))
    ensures p < |refs| && refs[p].limits.Enforced(d) && Admits(store, refs, ask, now)
            && !Restored(store, refs, ask, now, p, d)
  {
    var j := Decider(refs, i);
    p := i;
    if !refs[j].limits.Enforced(d) {
      store, ask, now := START, NOTHING, 0.0;
      StartAdmits(refs, d);
      StartShows(refs, i, d);
      StartShows(refs, j, d);
      EmptyRefund(store, refs, now, i, d);
    } else {
      TwoEnforce(refs, |refs|, i, j, d);
      if !OneToken(refs[i].limits, d) {
        store, ask, now := DoubleShows(refs, i, d);
      } else if !OneToken(refs[j].limits, d) {
        p := j;
        store, ask, now := DoubleShows(refs, j, d);
      } else {
        ask := NOTHING;
        store, now := RatesShow(refs, i, j, d);
        EmptyRefund(store, refs, now, i, d);
      }
    }
  }

  /** Refunding an empty request leaves a bucket with what the last one of its key showed. */
  lemma {:induction false} EmptyRefund(store: Store, refs: seq<BucketRef>, now: real, i: nat, d: Dim)
    requires Admits(store, refs, NOTHING, now) && i < |refs| && refs[i].limits.Enforced(d)
    requires Observe(store, refs[Decider(refs, i)], now).Of(d) != Observe(store, refs[i], now).Of(d)
    requires Observe(store, refs[Decider(refs, i)], now).Of(d) <= refs[i].limits.Cap(d)
    ensures !Restored(store, refs, NOTHING, now, i, d)
  {
    RefundExactly(store, refs, NOTHING, now, i, d);
    assert NOTHING.Of(d) == 0.0 by {
      match d case Tokens => case Dollars =>
    }
    TimesOfNothing(Multiplicity(refs, |refs|, refs[i].key, d) - 1);
  }

  lemma {:induction false} YieldingRestores(store: Store, refs: seq<BucketRef>, ask: Amount, now: real, i: nat, d: Dim)
    requires EachTo(refs, Yields) && Admits(store, refs, ask, now) && i < |refs| && refs[i].limits.Enforced(d)
    ensures Restored(store, refs, ask, now, i, d)
  {
    var j, m := Decider(refs, i), Multiplicity(refs, |refs|, refs[i].key, d);
    RefundExactly(store, refs, ask, now, i, d);
    assert j != i ==> Yields(refs[i].limits, refs[j].limits);
    SameBudgetShowsSame(store, refs, now, i, j, d);
    if m >= 2 {
      if j == i {
        var p := AnotherEnforces(refs, |refs|, i, refs[i].key, d);
        assert Decider(refs, p) == i && Yields(refs[p].limits, refs[i].limits);
        assert OneToken(refs[p].limits, d) && SameBudget(refs[p].limits, refs[i].limits, d);
      }
      assert OneToken(refs[i].limits, d);
      OneTokenRestores(store, refs, ask, now, i, m - 1);
    }
  }

  /** A bucket of one token is either not asked for any, or was full. */
  lemma {:induction false} OneTokenRestores(store: Store, refs: seq<BucketRef>, ask: Amount, now: real, i: nat, m: nat)
    requires Admits(store, refs, ask, now) && i < |refs| && OneToken(refs[i].limits, Tokens)
    ensures ask.tokens == 0 ==> Times(m, ask.Of(Tokens)) == 0.0
    ensures ask.tokens != 0 ==> Observe(store, refs[i], now).Of(Tokens) == 1.0 && Times(m, ask.Of(Tokens)) >= 0.0
  {
    AdmitsMeans(store, refs, ask, now);
    assert Covers(refs[i].limits, Observe(store, refs[i], now), ask);
    TimesIsProduct(m, ask.Of(Tokens));
    assert ask.tokens >= 0;
    assert m as real * ask.Of(Tokens) >= 0.0;
  }

  /** A refund always restores if and only if every bucket yields to the last one of its key. */
  lemma {:induction false} RestoredAlwaysExactly(refs: seq<BucketRef>)
    ensures AlwaysRestored(refs) <==> EachTo(refs, Yields)
  {
    if EachTo(refs, Yields) {
      forall store, ask, now, i, d: Dim | Admits(store, refs, ask, now) && 0 <= i < |refs| && refs[i].limits.Enforced(d)
        ensures Restored(store, refs, ask, now, i, d)
      {
        YieldingRestores(store, refs, ask, now, i, d);
      }
    } else {
      var i :| 0 <= i < |refs| && Decider(refs, i) != i && !Yields(refs[i].limits, refs[Decider(refs, i)].limits);
      var last := refs[Decider(refs, i)].limits;
      var d: Dim :| refs[i].limits.Enforced(d) && !(OneToken(refs[i].limits, d) && SameBudget(refs[i].limits, last, d));
      var store, ask, now, p := OverpaymentShows(refs, i, d);
    }
  }

  /** Relation `p` between the rows of one request whose keys collide, by identifiers alone. */
  ghost predicate RowsRelated(data: Budgets, tenant: string, agent: string, task: string, p: (Limits, Limits) -> bool) {
    var k, a, t := ConfigKey(tenant, agent, task), ConfigKey(tenant, agent, ""), ConfigKey(tenant, "", "");
    var hasTask, hasAgent, hasTenant := task != "" && k in data, agent != "" && a in data, t in data;
    && (hasTask && hasAgent && task == "-" && !(hasTenant && agent == "-") ==> p(data[k], data[a]))
    && (hasAgent && hasTenant && agent == "-" ==> p(data[a], data[t]))
    && (hasTask && hasTenant && agent == "-" && task == "-" ==> p(data[k], data[t]))
  }

  /** Where the three rows of a request stand in its list, and which of them decides each. */
  ghost predicate Placed(refs: seq<BucketRef>, at: nat, limits: Limits, decider: nat) {
    at < |refs| && refs[at].limits == limits && Decider(refs, at) == decider
  }

  lemma {:induction false} RowsPlaced(data: Budgets, tenant: string, agent: string, task: string)
    ensures var k, a, t := ConfigKey(tenant, agent, task), ConfigKey(tenant, agent, ""), ConfigKey(tenant, "", "");
            var hasTask, hasAgent, hasTenant := task != "" && k in data, agent != "" && a in data, t in data;
            var refs := Resolved(data, tenant, agent, task);
            var at := if hasTask then 1 else 0;
            var tt := if hasAgent then at + 1 else at;
            && |refs| == tt + (if hasTenant then 1 else 0)
            && (hasTask ==> Placed(refs, 0, data[k],
                                   if hasTenant && agent == "-" && task == "-" then tt
                                   else if hasAgent && task == "-" then at else 0))
            && (hasAgent ==> Placed(refs, at, data[a], if hasTenant && agent == "-" then tt else at))
            && (hasTenant ==> Placed(refs, tt, data[t], tt))
  {
    var refs := Resolved(data, tenant, agent, task);
    var k, a, t := ConfigKey(tenant, agent, task), ConfigKey(tenant, agent, ""), ConfigKey(tenant, "", "");
    TaskVersusAgent(tenant, agent, task);
    if agent != "" {
      AgentVersusTenant(tenant, agent);
    }
    if task != "" {
      TaskVersusTenant(tenant, agent, task);
    }
    var hasTask, hasAgent, hasTenant := task != "" && k in data, agent != "" && a in data, t in data;
    var at := if hasTask then 1 else 0;
    var tt := if hasAgent then at + 1 else at;
    if hasTask {
      assert refs[0] == RefOf(data, k);
      DeciderIs(refs, 0,
                if hasTenant && agent == "-" && task == "-" then tt else if hasAgent && task == "-" then at else 0);
    }
    if hasAgent {
      assert refs[at] == RefOf(data, a);
      DeciderIs(refs, at, if hasTenant && agent == "-" then tt else at);
    }
    if hasTenant {
      assert refs[tt] == RefOf(data, t);
      DeciderIs(refs, tt, tt);
    }
  }

  lemma {:induction false} RowsDecide(data: Budgets, tenant: string, agent: string, task: string,
                                      p: (Limits, Limits) -> bool)
    ensures EachTo(Resolved(data, tenant, agent, task), p) <==> RowsRelated(data, tenant, agent, task, p)
  {
    RowsPlaced(data, tenant, agent, task);
  }

  lemma {:induction false} DeciderIs(refs: seq<BucketRef>, i: nat, j: nat)
    requires i <= j < |refs| && refs[j].key == refs[i].key && forall m :: j < m < |refs| ==> refs[m].key != refs[i].key
    ensures Decider(refs, i) == j
  {
  }

  /** By identifiers and row limits: when allowed checks charge every bucket of a request, in every store. */
  lemma {:induction false} ChargesExactly(data: Budgets, tenant: string, agent: string, task: string)
    ensures AlwaysLowered(Resolved(data, tenant, agent, task)) <==> RowsRelated(data, tenant, agent, task, Agrees)
  {
    LoweredAlwaysExactly(Resolved(data, tenant, agent, task));
    RowsDecide(data, tenant, agent, task, Agrees);
  }

  /** By identifiers and row limits: when a failed call leaves no trace, in every store. */
  lemma {:induction false} RefundsExactly(data: Budgets, tenant: string, agent: string, task: string)
    ensures AlwaysRestored(Resolved(data, tenant, agent, task)) <==> RowsRelated(data, tenant, agent, task, Yields)
  {
    RestoredAlwaysExactly(Resolved(data, tenant, agent, task));
    RowsDecide(data, tenant, agent, task, Yields);
  }

  function TokensOnly(limit: int): Limits {
    Limits(limit, 0.0, 0.0, 0.0)
  }

  /** The buckets of task "-" of agent "a", with one token limit for its row and another for the agent's. */
  function DashBuckets(taskLimit: int, agentLimit: int): seq<BucketRef> {
    Resolved(map[ConfigKey("t", "a", "-") := TokensOnly(taskLimit),
                 ConfigKey("t", "a", "") := TokensOnly(agentLimit)], "t", "a", "-")
  }

  const DASH_KEY := "budget:t:a:-"

  lemma {:induction false} DashBucketsAre(taskLimit: int, agentLimit: int)
    ensures DashBuckets(taskLimit, agentLimit)
            == [BucketRef(TaskScope, DASH_KEY, TokensOnly(taskLimit)),
                BucketRef(AgentScope, DASH_KEY, TokensOnly(agentLimit))]
    ensures Decider(DashBuckets(taskLimit, agentLimit), 0) == 1
  {
    assert "-" != "" && "a" != "";
    assert Key("t", "a", "", AgentScope) == DASH_KEY;
    TaskVersusAgent("t", "a", "-");
    DeciderIs(DashBuckets(taskLimit, agentLimit), 0, 1);
  }

  /** A call for ten tokens, refunded in full, leaves a task that had 500 tokens with 110. */
  lemma {:induction false} RefundLosesTokens()
    ensures var refs, store, ask := DashBuckets(1000, 100), HalfFull(), Amount(10, 0.0);
            && Admits(store, refs, ask, 0.0) && |refs| == 2
            && Observe(store, refs[0], 0.0).tokens == 500.0
            && Observe(ReservedAndRefunded(store, refs, ask, 0.0), refs[0], 0.0).tokens == 110.0
  {
    var refs, store, ask := DashBuckets(1000, 100), HalfFull(), Amount(10, 0.0);
    DashBucketsAre(1000, 100);
    AdmitsMeans(store, refs, ask, 0.0);
    RefundedHash(store, refs, ask, 0.0, 0, Tokens);
    TwoListed(refs);
    TimesIsProduct(2, 10.0);
  }

  function HalfFull(): Store {
    map[DASH_KEY := Hash(Some(500.0), Some(0.0), Some(0.0))]
  }

  lemma {:induction false} TwoListed(refs: seq<BucketRef>)
    requires |refs| == 2 && refs[0].key == refs[1].key == DASH_KEY
    requires refs[0].limits.Enforced(Tokens) && refs[1].limits.Enforced(Tokens)
    ensures Multiplicity(refs, 2, DASH_KEY, Tokens) == 2
  {
    assert Multiplicity(refs, 0, DASH_KEY, Tokens) == 0;
    assert Multiplicity(refs, 1, DASH_KEY, Tokens) == 1;
  }

  /** With the limits the other way round an allowed check for ten tokens does not charge that task at all. */
  lemma {:induction false} CheckChargesNothing()
    ensures var refs, ask := DashBuckets(100, 1000), Amount(10, 0.0);
            && Admits(START, refs, ask, 0.0) && |refs| == 2
            && Observe(START, refs[0], 0.0).tokens == 100.0
            && Observe(Checked(START, refs, ask, 0.0), refs[0], 0.0).tokens == 100.0
  {
    var refs, ask := DashBuckets(100, 1000), Amount(10, 0.0);
    DashBucketsAre(100, 1000);
    AdmitsMeans(START, refs, ask, 0.0);
    ShownAfterCheck(START, refs, ask, 0.0, 0, Tokens);
  }
}
