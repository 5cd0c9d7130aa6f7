/**
 What a reservation leaves behind once it is refunded, all at once or increment by increment, measured by
 the levels later checks can see.
 */
module Holds {
  import opened Options
  import opened Buckets
  import opened Script
  import opened Config
  import opened Enforcement
  import opened Runs
  import opened Windows

  /** Sum of the queued increments for one bucket dimension. */
  function Queued(incs: seq<Increment>, key: string, d: Dim): real {
    if incs == [] then 0.0
    else
      var last := incs[|incs| - 1];
      Queued(incs[..|incs| - 1], key, d) + if last.key == key && last.dim == d then last.delta else 0.0
  }

  lemma {:induction false} QueuedConcat(a: seq<Increment>, b: seq<Increment>, key: string, d: Dim)
    ensures Queued(a + b, key, d) == Queued(a, key, d) + Queued(b, key, d)
  {
    if b == [] {
      assert a + b == a;
    } else {
      assert (a + b)[..|a + b| - 1] == a + b[..|b| - 1];
      QueuedConcat(a, b[..|b| - 1], key, d);
    }
  }

  /** How many of the first n buckets live under `key` and enforce `d`. */
  function Multiplicity(refs: seq<BucketRef>, n: nat, key: string, d: Dim): nat
    requires n <= |refs|
  {
    if n == 0 then 0
    else Multiplicity(refs, n - 1, key, d) + if refs[n - 1].key == key && refs[n - 1].limits.Enforced(d) then 1 else 0
  }

  function Delta(est: Amount, actual: Amount, d: Dim): real {
    est.Of(d) - actual.Of(d)
  }

  /** A reconcile queues the settlement difference once for every listed bucket that enforces the dimension. */
  lemma {:induction false} PlanQueues(refs: seq<BucketRef>, est: Amount, actual: Amount, n: nat, key: string, d: Dim)
    requires n <= |refs|
    ensures Queued(Plan(refs, est, actual, n), key, d) == Times(Multiplicity(refs, n, key, d), Delta(est, actual, d))
  {
    if n == 0 {
      assert Plan(refs, est, actual, n) == [];
    } else {
      PlanQueues(refs, est, actual, n - 1, key, d);
      PlanGrows(refs, est, actual, n, key, d);
      MultiplicityGrows(refs, n, key, d, Delta(est, actual, d));
    }
  }

  lemma {:induction false} MultiplicityGrows(refs: seq<BucketRef>, n: nat, key: string, d: Dim, x: real)
    requires 0 < n <= |refs|
    ensures Times(Multiplicity(refs, n, key, d), x)
            == Times(Multiplicity(refs, n - 1, key, d), x) + if refs[n - 1].key == key
                && refs[n - 1].limits.Enforced(d) then x else 0.0
  {
  }

  lemma {:induction false} PlanGrows(refs: seq<BucketRef>, est: Amount, actual: Amount, n: nat, key: string, d: Dim)
    requires 0 < n <= |refs|
    ensures Queued(Plan(refs, est, actual, n), key, d)
            == Queued(Plan(refs, est, actual, n - 1), key, d)
             + if refs[n - 1].key == key && refs[n - 1].limits.Enforced(d) then Delta(est, actual, d) else 0.0
  {
    var r, dt, du := refs[n - 1], est.Of(Tokens) - actual.Of(Tokens), est.Of(Dollars) - actual.Of(Dollars);
    var front := Plan(refs, est, actual, n - 1);
    var one := if r.limits.Enforced(Tokens) && dt != 0.0 then [Increment(r.key, Tokens, dt)] else [];
    var two := if r.limits.Enforced(Dollars) && du != 0.0 then [Increment(r.key, Dollars, du)] else [];
    assert Plan(refs, est, actual, n) == front + one + two;
    QueuedConcat(front, one, key, d);
    QueuedConcat(front + one, two, key, d);
    QueuedSingle(one, key, d);
    QueuedSingle(two, key, d);
    assert d == Tokens || d == Dollars;
  }

  lemma {:induction false} QueuedSingle(incs: seq<Increment>, key: string, d: Dim)
    requires |incs| <= 1
    ensures Queued(incs, key, d) == if |incs| == 1 && incs[0].key == key && incs[0].dim == d then incs[0].delta else 0.0
  {
    if |incs| == 1 {
      assert incs[..0] == [];
      assert Queued(incs[..0], key, d) == 0.0;
    }
  }

  lemma {:induction false} DistinctCountsOnce(refs: seq<BucketRef>, n: nat, key: string, d: Dim)
    requires n <= |refs| && DistinctKeys(refs)
    ensures Multiplicity(refs, n, key, d) == if exists i :: 0 <= i < n && refs[i].key == key
                                                  && refs[i].limits.Enforced(d) then 1 else 0
  {
    if n > 0 {
      DistinctCountsOnce(refs, n - 1, key, d);
    }
  }

  /** Delivering increments moves the stored balance by exactly what is queued and touches nothing else. */
  lemma {:induction false} DeliveredAt(store: Store, incs: seq<Increment>, key: string, d: Dim)
    requires key in store && store[key].Of(d).Some?
    ensures var after := Delivered(store, incs);
            && key in after && after[key].Of(d).Some? && after[key].lastRefill == store[key].lastRefill
            && Stored(after, key, d) == Stored(store, key, d) + Queued(incs, key, d)
  {
    if incs != [] {
      var front, last := incs[..|incs| - 1], incs[|incs| - 1];
      DeliveredAt(store, front, key, d);
      match last.dim case Tokens => case Dollars =>
    }
  }

  /** Increments that add up to a credit raise the level by it, up to the cap. */
  lemma {:induction false} LevelAfterDelivery(cat: Catalog, store: Store, incs: seq<Increment>, key: string, d: Dim,
                                              now: real)
    requires key in cat && cat[key].Enforced(d) && Whole(store, now) && key in store && Queued(incs, key, d) >= 0.0
    ensures Level(cat, Delivered(store, incs), key, d, now)
            == Min(Level(cat, store, key, d, now) + Queued(incs, key, d), Cap(cat, key, d))
  {
    DeliveredAt(store, incs, key, d);
    assert HashWhole(store[key], now);
    RaisedLevel(cat[key], d, store[key], Delivered(store, incs)[key], Queued(incs, key, d), now);
  }

  lemma {:induction false} RaisedLevel(l: Limits, d: Dim, before: Hash, after: Hash, delta: real, now: real)
    requires l.Enforced(d) && delta >= 0.0 && before.lastRefill == after.lastRefill
    requires before.Of(d).Some? && after.Of(d).Some? && after.Of(d).value == before.Of(d).value + delta
    ensures Balance(l, d, after, now) == Min(Balance(l, d, before, now) + delta, l.Cap(d))
  {
  }

  function Share(refs: seq<BucketRef>, ask: Amount, key: string, d: Dim): real {
    if HasKey(refs, key) then ask.Of(d) else 0.0
  }

  const NOTHING := Amount(0, 0.0)

  function Refund(refs: seq<BucketRef>, ask: Amount): seq<Increment> {
    Plan(refs, ask, NOTHING, |refs|)
  }

  /** A full refund queues, per enforced bucket dimension, exactly what the check took. */
  lemma {:induction false} RefundIsShare(cat: Catalog, refs: seq<BucketRef>, ask: Amount, key: string, d: Dim)
    requires FromCatalog(cat, refs) && DistinctKeys(refs) && key in cat && cat[key].Enforced(d)
    ensures Queued(Refund(refs, ask), key, d) == Share(refs, ask, key, d)
  {
    PlanQueues(refs, ask, NOTHING, |refs|, key, d);
    DistinctCountsOnce(refs, |refs|, key, d);
    if HasKey(refs, key) {
      var i :| 0 <= i < |refs| && refs[i].key == key;
      assert refs[i].limits.Enforced(d);
    }
    var m := Multiplicity(refs, |refs|, key, d);
    assert m == if HasKey(refs, key) then 1 else 0;
    assert Delta(ask, NOTHING, d) == ask.Of(d);
    assert Times(1, ask.Of(d)) == Times(0, ask.Of(d)) + ask.Of(d);
  }

  lemma {:induction false} DeliveredKeepsKeys(store: Store, incs: seq<Increment>, now: real)
    requires Whole(store, now) && forall i :: 0 <= i < |incs| ==> incs[i].key in store
    ensures Whole(Delivered(store, incs), now) && Delivered(store, incs).Keys == store.Keys
  {
    if incs != [] {
      DeliveredKeepsKeys(store, incs[..|incs| - 1], now);
    }
  }

  lemma {:induction false} PlanTargets(refs: seq<BucketRef>, est: Amount, actual: Amount, n: nat)
    requires n <= |refs|
    ensures forall i :: 0 <= i < |Plan(refs, est, actual, n)| ==> HasKey(refs, Plan(refs, est, actual, n)[i].key)
  {
    if n > 0 {
      PlanTargets(refs, est, actual, n - 1);
      assert HasKey(refs, refs[n - 1].key);
    }
  }

  lemma {:induction false} ChargedStoreWhole(cat: Catalog, store: Store, refs: seq<BucketRef>, ask: Amount, now: real)
    requires FromCatalog(cat, refs) && Whole(store, now) && Admits(store, refs, ask, now)
    ensures Whole(Checked(store, refs, ask, now), now)
    ensures forall k :: HasKey(refs, k) || k in store ==> k in Checked(store, refs, ask, now)
  {
    StepKeepsWhole(cat, store, Check(refs, ask, now), now);
    CatalogConsistent(cat, refs);
    forall k | HasKey(refs, k) ensures k in Checked(store, refs, ask, now) {
      CheckedInCommon(store, refs, ask, now, k);
    }
  }

  /** The store after a call was reserved, failed, and was refunded in full. */
  function ReservedAndRefunded(store: Store, refs: seq<BucketRef>, ask: Amount, now: real): Store {
    Delivered(Checked(store, refs, ask, now), Refund(refs, ask))
  }

  /** A failed call leaves no trace: right after the refund every level is what it would have been. */
  lemma {:induction false} HoldLeavesNoTrace(cat: Catalog, store: Store, refs: seq<BucketRef>, ask: Amount, now: real)
    requires Refilling(cat) && FromCatalog(cat, refs) && DistinctKeys(refs) && Whole(store, now)
             && Admits(store, refs, ask, now)
    ensures SameLevels(cat, store, ReservedAndRefunded(store, refs, ask, now), now)
    ensures Whole(ReservedAndRefunded(store, refs, ask, now), now)
    ensures forall k :: k in store ==> k in ReservedAndRefunded(store, refs, ask, now)
  {
    var held, after := Checked(store, refs, ask, now), ReservedAndRefunded(store, refs, ask, now);
    ChargedStoreWhole(cat, store, refs, ask, now);
    PlanTargets(refs, ask, NOTHING, |refs|);
    DeliveredKeepsKeys(held, Refund(refs, ask), now);
    forall k, d: Dim | k in cat && cat[k].Enforced(d)
      ensures Level(cat, store, k, d, now) == Level(cat, after, k, d, now)
    {
      RefundRestores(cat, store, refs, ask, now, k, d);
    }
  }

  lemma {:induction false} RefundRestores(cat: Catalog, store: Store, refs: seq<BucketRef>, ask: Amount, now: real,
                                          k: string, d: Dim)
    requires Refilling(cat) && FromCatalog(cat, refs) && DistinctKeys(refs) && Whole(store, now)
             && Admits(store, refs, ask, now)
    requires k in cat && cat[k].Enforced(d)
    ensures Level(cat, ReservedAndRefunded(store, refs, ask, now), k, d, now) == Level(cat, store, k, d, now)
  {
    var held := Checked(store, refs, ask, now);
    ChargedStoreWhole(cat, store, refs, ask, now);
    LevelAfterCheck(cat, store, refs, ask, now, k, d);
    RefundIsShare(cat, refs, ask, k, d);
    LevelAdvances(cat, store, k, d, now, now);
    if k in held {
      LevelAfterDelivery(cat, held, Refund(refs, ask), k, d, now);
    } else {
      PlanTargets(refs, ask, NOTHING, |refs|);
      UntouchedKey(held, Refund(refs, ask), k);
    }
  }

  lemma {:induction false} TimesAtLeast(m: nat, x: real)
    requires m >= 1 && x >= 0.0
    ensures Times(m, x) >= x
    ensures Times(m, x) == x <==> m == 1 || x == 0.0
  {
    if m == 1 {
      assert Times(0, x) == 0.0;
    } else {
      TimesAtLeast(m - 1, x);
    }
  }

  /** What a full refund queues for the key of a bucket listed m times. */
  lemma {:induction false} RefundQueues(refs: seq<BucketRef>, ask: Amount, key: string, d: Dim)
    ensures Queued(Refund(refs, ask), key, d) == Times(Multiplicity(refs, |refs|, key, d), ask.Of(d))
  {
    FullDelta(ask, d);
    PlanQueues(refs, ask, NOTHING, |refs|, key, d);
  }

  /** What bucket i stores once a call was reserved and refunded, colliding keys included. */
  lemma {:induction false} RefundedHash(store: Store, refs: seq<BucketRef>, ask: Amount, now: real, i: nat, d: Dim)
    requires Admits(store, refs, ask, now) && i < |refs|
    ensures var key, after := refs[i].key, ReservedAndRefunded(store, refs, ask, now);
            && key in after && after[key].lastRefill == Some(now)
            && after[key].Of(d) == Some(Observe(store, refs[Decider(refs, i)], now).Of(d) - ask.Of(d)
                                        + Times(Multiplicity(refs, |refs|, key, d), ask.Of(d)))
  {
    var key, held := refs[i].key, Checked(store, refs, ask, now);
    CheckedAt(store, refs, ask, now, key);
    ChargedHash(Observe(store, refs[Decider(refs, i)], now), ask, now, d);
    DeliveredAt(held, Refund(refs, ask), key, d);
    RefundQueues(refs, ask, key, d);
  }

  lemma {:induction false} ChargedHash(f: Funds, ask: Amount, now: real, d: Dim)
    ensures Charged(f, ask, now).Of(d) == Some(f.Of(d) - ask.Of(d)) && Charged(f, ask, now).lastRefill == Some(now)
  {
    match d case Tokens => case Dollars =>
  }

  /** Bucket i shows, right after the refund, what it showed before the call. */
  ghost predicate Restored(store: Store, refs: seq<BucketRef>, ask: Amount, now: real, i: nat, d: Dim)
    requires i < |refs|
  {
    Observe(ReservedAndRefunded(store, refs, ask, now), refs[i], now).Of(d) == Observe(store, refs[i], now).Of(d)
  }

  /**
   Exactly when a full refund restores an enforced balance, whatever the keys and limits of the list. A
   key listed m times is charged once, from the balance of its last bucket, but credited m times: the
   two must agree with the bucket's own balance, or the bucket was full and is full again.
   */
  lemma {:induction false} RefundExactly(store: Store, refs: seq<BucketRef>, ask: Amount, now: real, i: nat, d: Dim)
    requires Admits(store, refs, ask, now) && i < |refs| && refs[i].limits.Enforced(d)
    ensures var m := Multiplicity(refs, |refs|, refs[i].key, d);
            && m >= 1
            && var mine, last := Observe(store, refs[i], now).Of(d), Observe(store, refs[Decider(refs, i)], now).Of(d);
               var back := last + Times(m - 1, ask.Of(d));
               Restored(store, refs, ask, now, i, d) <==> mine == back || refs[i].limits.Cap(d) == mine <= back
  {
    CountsAtLeast(refs, |refs|, i, refs[i].key, d);
    RefundedHash(store, refs, ask, now, i, d);
    var m := Multiplicity(refs, |refs|, refs[i].key, d);
    assert Times(m, ask.Of(d)) == Times(m - 1, ask.Of(d)) + ask.Of(d);
    ShownFresh(refs[i].limits, d, ReservedAndRefunded(store, refs, ask, now)[refs[i].key], now);
    ShownAtMost(store, refs[i], d, now);
  }

  lemma {:induction false} ShownFresh(l: Limits, d: Dim, h: Hash, now: real)
    requires l.Enforced(d) && h.Of(d).Some? && h.lastRefill == Some(now)
    ensures Balance(l, d, h, now) == Min(h.Of(d).value, l.Cap(d))
  {
  }

  lemma {:induction false} ShownAtMost(store: Store, ref: BucketRef, d: Dim, now: real)
    requires ref.limits.Enforced(d)
    ensures Observe(store, ref, now).Of(d) <= ref.limits.Cap(d)
  {
    match d case Tokens => case Dollars =>
  }

  /** Where equal keys mean equal limits this needs a single listing, or an empty request, or a full bucket. */
  lemma {:induction false} RefundExactlyInCatalog(cat: Catalog, store: Store, refs: seq<BucketRef>, ask: Amount,
                                                  now: real, i: nat, d: Dim)
    requires FromCatalog(cat, refs) && Admits(store, refs, ask, now) && i < |refs| && refs[i].limits.Enforced(d)
    ensures Restored(store, refs, ask, now, i, d) <==>
            || Multiplicity(refs, |refs|, refs[i].key, d) == 1
            || ask.Of(d) == 0.0
            || Observe(store, refs[i], now).Of(d) == refs[i].limits.Cap(d)
  {
    RefundExactly(store, refs, ask, now, i, d);
    AdmitsMeans(store, refs, ask, now);
    var m := Multiplicity(refs, |refs|, refs[i].key, d);
    assert ask.Of(d) >= 0.0;
    ShownAtMost(store, refs[i], d, now);
    assert refs[Decider(refs, i)].limits == cat[refs[i].key] == refs[i].limits;
    if m > 1 {
      TimesAtLeast(m - 1, ask.Of(d));
    }
    TimesOfNothing(m - 1);
  }

  lemma {:induction false} TimesOfNothing(m: nat)
    ensures Times(m, 0.0) == 0.0
  {
    if m > 0 {
      TimesOfNothing(m - 1);
    }
  }

  lemma {:induction false} FullDelta(ask: Amount, d: Dim)
    ensures Delta(ask, NOTHING, d) == ask.Of(d)
  {
  }

  lemma {:induction false} CountsAtLeast(refs: seq<BucketRef>, n: nat, i: nat, key: string, d: Dim)
    requires i < n <= |refs| && refs[i].key == key && refs[i].limits.Enforced(d)
    ensures Multiplicity(refs, n, key, d) >= 1
  {
    if i < n - 1 {
      CountsAtLeast(refs, n - 1, i, key, d);
    }
  }

  /** Hence no later run of checks and refunds can tell that the call ever happened. */
  lemma {:induction false} FailedCallIsInvisible(cat: Catalog, store: Store, refs: seq<BucketRef>, ask: Amount,
                                                 now: real, ops: seq<Op>, i: nat)
    requires Refilling(cat) && FromCatalog(cat, refs) && DistinctKeys(refs) && Whole(store, now)
             && Admits(store, refs, ask, now)
    requires Timed(now, ops) && NoDebits(ops) && LegalRun(cat, store, ops)
             && LegalRun(cat, ReservedAndRefunded(store, refs, ask, now), ops)
    requires i < |ops| && ops[i].Check?
    ensures SameDecision(Answer(Run(store, ops[..i]), ops[i].refs, ops[i].ask, ops[i].at),
                         Answer(Run(ReservedAndRefunded(store, refs, ask, now), ops[..i]), ops[i].refs, ops[i].ask,
                                ops[i].at))
  {
    HoldLeavesNoTrace(cat, store, refs, ask, now);
    SameLevelsForever(cat, store, ReservedAndRefunded(store, refs, ask, now), ops, now);
  }

  /**
   A later debit can tell, and exactly when: the check clamps away what earlier refunds had piled above
   the cap, so the levels after the debit agree if and only if nothing was above the cap.
   */
  lemma {:induction false} DebitSeesTheHold(cat: Catalog, store: Store, refs: seq<BucketRef>, ask: Amount, now: real,
                                            key: string, d: Dim, delta: real)
    requires Refilling(cat) && FromCatalog(cat, refs) && DistinctKeys(refs) && Whole(store, now)
             && Admits(store, refs, ask, now)
    requires key in store && HasKey(refs, key) && cat[key].Enforced(d) && delta < 0.0
    ensures Level(cat, Credited(store, key, d, delta), key, d, now)
            == Level(cat, Credited(ReservedAndRefunded(store, refs, ask, now), key, d, delta), key, d, now)
            <==> Raw(cat[key], d, store[key], now) <= Cap(cat, key, d)
  {
    var held, after := Checked(store, refs, ask, now), ReservedAndRefunded(store, refs, ask, now);
    ChargedBucket(cat, store, refs, ask, now, key, d);
    RefundIsShare(cat, refs, ask, key, d);
    DeliveredAt(held, Refund(refs, ask), key, d);
    assert HashWhole(store[key], now);
    var cap, level := Cap(cat, key, d), Level(cat, store, key, d, now);
    DebitedLevel(cat[key], d, store[key], delta, now);
    DebitedLevel(cat[key], d, after[key], delta, now);
    assert Raw(cat[key], d, after[key], now) == level;
  }

  lemma {:induction false} DebitedLevel(l: Limits, d: Dim, h: Hash, delta: real, now: real)
    requires l.Enforced(d) && h.Of(d).Some?
    ensures Balance(l, d, Incremented(h, d, delta), now) == Min(Raw(l, d, h, now) + delta, l.Cap(d))
  {
    assert d == Tokens || d == Dollars;
  }

  /** Store `a` lags store `b` by at most the held amount, and never leads it. */
  ghost predicate Behind(cat: Catalog, a: Store, b: Store, refs: seq<BucketRef>, ask: Amount, now: real) {
    forall k, d: Dim :: k in cat && cat[k].Enforced(d) ==>
      Level(cat, b, k, d, now) - Share(refs, ask, k, d) <= Level(cat, a, k, d, now) <= Level(cat, b, k, d, now)
  }

  lemma {:induction false} BehindLater(cat: Catalog, a: Store, b: Store, refs: seq<BucketRef>, ask: Amount, t: real,
                                       u: real)
    requires Refilling(cat) && Whole(a, t) && Whole(b, t) && t <= u && ask.NonNegative()
             && Behind(cat, a, b, refs, ask, t)
    ensures Behind(cat, a, b, refs, ask, u)
  {
    forall k, d: Dim | k in cat && cat[k].Enforced(d)
      ensures Level(cat, b, k, d, u) - Share(refs, ask, k, d) <= Level(cat, a, k, d, u) <= Level(cat, b, k, d, u)
    {
      LevelAdvances(cat, a, k, d, t, u);
      LevelAdvances(cat, b, k, d, t, u);
      assert ask.Of(d) >= 0.0;
      assert Level(cat, b, k, d, t) - Share(refs, ask, k, d) <= Level(cat, a, k, d, t) <= Level(cat, b, k, d, t);
    }
  }

  lemma {:induction false} BehindAdmits(cat: Catalog, a: Store, b: Store, refs: seq<BucketRef>, ask: Amount, op: Op)
    requires Behind(cat, a, b, refs, ask, op.at) && op.Check? && FromCatalog(cat, op.refs) && Accepts(a, op)
    ensures Accepts(b, op)
  {
    AdmitsByLevels(cat, a, op.refs, op.ask, op.at);
    AdmitsByLevels(cat, b, op.refs, op.ask, op.at);
    forall i, d: Dim | 0 <= i < |op.refs| && op.refs[i].limits.Enforced(d)
      ensures Level(cat, b, op.refs[i].key, d, op.at) >= op.ask.Of(d)
    {
      assert Level(cat, a, op.refs[i].key, d, op.at) <= Level(cat, b, op.refs[i].key, d, op.at);
    }
  }

  lemma {:induction false} BehindStep(cat: Catalog, a: Store, b: Store, refs: seq<BucketRef>, ask: Amount, op: Op,
                                      now: real)
    requires Refilling(cat) && Whole(a, now) && Whole(b, now) && now <= op.at && ask.NonNegative()
             && Behind(cat, a, b, refs, ask, now)
    requires Legal(cat, a, op) && Legal(cat, b, op)
    requires if op.Check? then Accepts(a, op) else op.delta >= 0.0
    ensures op.Check? ==> Accepts(b, op)
    ensures Behind(cat, Step(a, op), Step(b, op), refs, ask, op.at)
  {
    BehindLater(cat, a, b, refs, ask, now, op.at);
    if op.Check? {
      BehindAdmits(cat, a, b, refs, ask, op);
    }
    forall k, d: Dim | k in cat && cat[k].Enforced(d)
      ensures Level(cat, Step(b, op), k, d, op.at) - Share(refs, ask, k, d) <= Level(cat, Step(a, op), k, d, op.at)
              <= Level(cat, Step(b, op), k, d, op.at)
    {
      BehindStepAt(cat, a, b, op, k, d, Share(refs, ask, k, d));
    }
  }

  lemma {:induction false} BehindStepAt(cat: Catalog, a: Store, b: Store, op: Op, k: string, d: Dim, share: real)
    requires Whole(a, op.at) && Whole(b, op.at) && Legal(cat, a, op) && Legal(cat, b, op) && k in cat
             && cat[k].Enforced(d)
    requires if op.Check? then Accepts(a, op) && Accepts(b, op) else op.delta >= 0.0
    requires share >= 0.0 && Level(cat, b, k, d, op.at) - share <= Level(cat, a, k, d, op.at)
             <= Level(cat, b, k, d, op.at)
    ensures Level(cat, Step(b, op), k, d, op.at) - share <= Level(cat, Step(a, op), k, d, op.at)
            <= Level(cat, Step(b, op), k, d, op.at)
  {
    match op
    case Check(refs, ask, at) =>
      LevelAfterCheck(cat, a, refs, ask, at, k, d);
      LevelAfterCheck(cat, b, refs, ask, at, k, d);
    case Credit(key, dim, delta, at) =>
      LevelAfterCredit(cat, a, key, dim, delta, at, k, d);
      LevelAfterCredit(cat, b, key, dim, delta, at, k, d);
  }

  ghost predicate AllAccepted(store: Store, ops: seq<Op>) {
    forall i :: 0 <= i < |ops| && ops[i].Check? ==> AcceptedAt(store, ops, i)
  }

  lemma {:induction false} AllAcceptedPrefix(store: Store, ops: seq<Op>)
    requires |ops| > 0 && AllAccepted(store, ops)
    ensures AllAccepted(store, ops[..|ops| - 1])
    ensures ops[|ops| - 1].Check? ==> Accepts(Run(store, ops[..|ops| - 1]), ops[|ops| - 1])
  {
    var front := ops[..|ops| - 1];
    forall i | 0 <= i < |front| && front[i].Check? ensures AcceptedAt(store, front, i) {
      assert front[..i] == ops[..i] && AcceptedAt(store, ops, i);
    }
    assert ops[|ops| - 1].Check? ==> AcceptedAt(store, ops, |ops| - 1);
  }

  lemma {:induction false} BehindRun(cat: Catalog, a: Store, b: Store, refs: seq<BucketRef>, ask: Amount,
                                     ops: seq<Op>, now: real)
    requires Refilling(cat) && Whole(a, now) && Whole(b, now) && ask.NonNegative() && Behind(cat, a, b, refs, ask, now)
    requires Timed(now, ops) && NoDebits(ops) && LegalRun(cat, a, ops) && LegalRun(cat, b, ops) && AllAccepted(a, ops)
    ensures AllAccepted(b, ops)
    ensures Behind(cat, Run(a, ops), Run(b, ops), refs, ask, Clock(now, ops))
  {
    if |ops| > 0 {
      var front, op := ops[..|ops| - 1], ops[|ops| - 1];
      TimedPrefix(now, ops);
      LegalPrefix(cat, a, ops);
      LegalPrefix(cat, b, ops);
      AllAcceptedPrefix(a, ops);
      BehindRun(cat, a, b, refs, ask, front, now);
      RunKeepsWhole(cat, a, front, now);
      RunKeepsWhole(cat, b, front, now);
      BehindStep(cat, Run(a, front), Run(b, front), refs, ask, op, Clock(now, front));
      AllAcceptedGrows(b, ops);
    }
  }

  lemma {:induction false} AllAcceptedGrows(store: Store, ops: seq<Op>)
    requires |ops| > 0 && AllAccepted(store, ops[..|ops| - 1])
    requires ops[|ops| - 1].Check? ==> Accepts(Run(store, ops[..|ops| - 1]), ops[|ops| - 1])
    ensures AllAccepted(store, ops)
  {
    var front := ops[..|ops| - 1];
    forall i | 0 <= i < |ops| && ops[i].Check? ensures AcceptedAt(store, ops, i) {
      if i < |front| {
        assert front[..i] == ops[..i] && AcceptedAt(store, front, i);
      }
    }
  }

  /**
   A hold that lasts while others are served: whatever checks were accepted and refunds applied
   meanwhile would also have been accepted without the hold, and once the hold is refunded every level
   is at least what it would have been, at most the held amount more, and within the cap.
   */
  lemma {:induction false} HoldWhileOthersRun(cat: Catalog, store: Store, refs: seq<BucketRef>, ask: Amount,
                                              now: real, ops: seq<Op>, key: string, d: Dim)
    requires Refilling(cat) && FromCatalog(cat, refs) && DistinctKeys(refs) && Whole(store, now)
             && Admits(store, refs, ask, now)
    requires key in cat && cat[key].Enforced(d)
    requires var held := Checked(store, refs, ask, now);
             Timed(now, ops) && NoDebits(ops) && LegalRun(cat, store, ops) && LegalRun(cat, held, ops)
                 && AllAccepted(held, ops)
    ensures AllAccepted(store, ops)
    ensures var without, end := Run(store, ops), Clock(now, ops);
            var with := Delivered(Run(Checked(store, refs, ask, now), ops), Refund(refs, ask));
            Level(cat, without, key, d, end) <= Level(cat, with, key, d, end)
            <= Min(Level(cat, without, key, d, end) + Share(refs, ask, key, d), Cap(cat, key, d))
  {
    var held := Checked(store, refs, ask, now);
    AdmitsMeans(store, refs, ask, now);
    ChargedStoreWhole(cat, store, refs, ask, now);
    HoldFallsBehind(cat, store, refs, ask, now);
    ReleasedAfterRun(cat, held, store, refs, ask, ops, now, key, d);
  }

  lemma {:induction false} ReleasedAfterRun(cat: Catalog, a: Store, b: Store, refs: seq<BucketRef>, ask: Amount,
                                            ops: seq<Op>, now: real, key: string, d: Dim)
    requires Refilling(cat) && FromCatalog(cat, refs) && DistinctKeys(refs) && Whole(a, now) && Whole(b, now)
             && ask.NonNegative()
    requires key in cat && cat[key].Enforced(d) && Behind(cat, a, b, refs, ask, now) && (HasKey(refs, key) ==> key in a)
    requires Timed(now, ops) && NoDebits(ops) && LegalRun(cat, a, ops) && LegalRun(cat, b, ops) && AllAccepted(a, ops)
    ensures AllAccepted(b, ops)
    ensures var without, with, end := Run(b, ops), Delivered(Run(a, ops), Refund(refs, ask)), Clock(now, ops);
            Level(cat, without, key, d, end) <= Level(cat, with, key, d, end)
            <= Min(Level(cat, without, key, d, end) + Share(refs, ask, key, d), Cap(cat, key, d))
  {
    BehindRun(cat, a, b, refs, ask, ops, now);
    RunKeepsWhole(cat, a, ops, now);
    RunKeepsWhole(cat, b, ops, now);
    HoldReleased(cat, Run(a, ops), Run(b, ops), refs, ask, Clock(now, ops), key, d);
  }

  lemma {:induction false} HoldFallsBehind(cat: Catalog, store: Store, refs: seq<BucketRef>, ask: Amount, now: real)
    requires FromCatalog(cat, refs) && Admits(store, refs, ask, now)
    ensures Behind(cat, Checked(store, refs, ask, now), store, refs, ask, now)
  {
    var held := Checked(store, refs, ask, now);
    forall k, e: Dim | k in cat && cat[k].Enforced(e)
      ensures Level(cat, store, k, e, now) - Share(refs, ask, k, e) <= Level(cat, held, k, e, now)
              <= Level(cat, store, k, e, now)
    {
      LevelAfterCheck(cat, store, refs, ask, now, k, e);
    }
  }

  lemma {:induction false} HoldReleased(cat: Catalog, a: Store, b: Store, refs: seq<BucketRef>, ask: Amount,
                                        now: real, key: string, d: Dim)
    requires Refilling(cat) && FromCatalog(cat, refs) && DistinctKeys(refs) && Whole(a, now) && Whole(b, now)
             && ask.NonNegative()
    requires key in cat && cat[key].Enforced(d) && Behind(cat, a, b, refs, ask, now)
    requires HasKey(refs, key) ==> key in a
    ensures Level(cat, b, key, d, now) <= Level(cat, Delivered(a, Refund(refs, ask)), key, d, now)
            <= Min(Level(cat, b, key, d, now) + Share(refs, ask, key, d), Cap(cat, key, d))
  {
    RefundIsShare(cat, refs, ask, key, d);
    LevelAdvances(cat, b, key, d, now, now);
    assert ask.Of(d) >= 0.0;
    if key in a {
      LevelAfterDelivery(cat, a, Refund(refs, ask), key, d, now);
    } else {
      PlanTargets(refs, ask, NOTHING, |refs|);
      UntouchedKey(a, Refund(refs, ask), key);
    }
  }

  lemma {:induction false} UntouchedKey(store: Store, incs: seq<Increment>, key: string)
    requires key !in store && forall i :: 0 <= i < |incs| ==> incs[i].key != key
    ensures key !in Delivered(store, incs)
  {
    if incs != [] {
      UntouchedKey(store, incs[..|incs| - 1], key);
    }
  }

  /** One operation while a refund is landing: someone else's, or an increment of the refund. */
  datatype Part = Others(op: Op) | Ours(inc: Increment, at: real)

  function AsOp(p: Part): Op {
    match p
    case Others(op) => op
    case Ours(inc, at) => Credit(inc.key, inc.dim, inc.delta, at)
  }

  function AllOps(parts: seq<Part>): (ops: seq<Op>)
    ensures |ops| == |parts| && forall i :: 0 <= i < |parts| ==> ops[i] == AsOp(parts[i])
  {
    if parts == [] then [] else AllOps(parts[..|parts| - 1]) + [AsOp(parts[|parts| - 1])]
  }

  function OtherOps(parts: seq<Part>): seq<Op> {
    if parts == [] then []
    else
      var last := parts[|parts| - 1];
      OtherOps(parts[..|parts| - 1]) + if last.Others? then [last.op] else []
  }

  /** The increments of the refund that have landed, in order. */
  function Landed(parts: seq<Part>): seq<Increment> {
    if parts == [] then []
    else
      var last := parts[|parts| - 1];
      Landed(parts[..|parts| - 1]) + if last.Ours? then [last.inc] else []
  }

  /** The same operations of others are committed with the hold (on `a`) and without it (on `b`). */
  ghost predicate Parallel(cat: Catalog, a: Store, b: Store, parts: seq<Part>) {
    parts == []
    || (var front, last := parts[..|parts| - 1], parts[|parts| - 1];
        && Parallel(cat, a, b, front)
        && Together(cat, Run(a, AllOps(front)), Run(b, OtherOps(front)), last))
  }

  ghost predicate Together(cat: Catalog, a: Store, b: Store, last: Part) {
    && Legal(cat, a, AsOp(last))
    && (last.Others? ==>
          && Legal(cat, b, last.op)
          && if last.op.Check? then Accepts(a, last.op) && Accepts(b, last.op) else last.op.delta >= 0.0)
  }

  /** Of the amount held on each bucket dimension, `landed` has come back. */
  ghost predicate Lagging(cat: Catalog, a: Store, b: Store, refs: seq<BucketRef>, ask: Amount, landed: seq<Increment>,
                          now: real) {
    forall k, d: Dim :: k in cat && cat[k].Enforced(d) ==>
      LagsBy(Level(cat, a, k, d, now), Level(cat, b, k, d, now), Share(refs, ask, k, d), Queued(landed, k, d),
             Cap(cat, k, d))
  }

  predicate LagsBy(a: real, b: real, share: real, back: real, cap: real) {
    0.0 <= back <= share && b - share + back <= a <= Min(b + back, cap) && b <= cap
  }

  lemma {:induction false} LagsAfterCredit(a: real, b: real, share: real, back: real, cap: real, x: real)
    requires LagsBy(a, b, share, back, cap) && x >= 0.0
    ensures LagsBy(Min(a + x, cap), Min(b + x, cap), share, back, cap)
    ensures back + x <= share ==> LagsBy(Min(a + x, cap), b, share, back + x, cap)
  {
  }

  lemma {:induction false} LagsLater(cat: Catalog, a: Store, b: Store, refs: seq<BucketRef>, ask: Amount,
                                     landed: seq<Increment>, t: real, u: real)
    requires Refilling(cat) && Whole(a, t) && Whole(b, t) && t <= u && Lagging(cat, a, b, refs, ask, landed, t)
    ensures Lagging(cat, a, b, refs, ask, landed, u)
  {
    forall k, d: Dim | k in cat && cat[k].Enforced(d)
      ensures LagsBy(Level(cat, a, k, d, u), Level(cat, b, k, d, u), Share(refs, ask, k, d), Queued(landed, k, d),
                     Cap(cat, k, d))
    {
      LevelAdvances(cat, a, k, d, t, u);
      LevelAdvances(cat, b, k, d, t, u);
      EarnedIsMonotone(cat, k, d, u - t);
      LagsAfterCredit(Level(cat, a, k, d, t), Level(cat, b, k, d, t), Share(refs, ask, k, d), Queued(landed, k, d),
                      Cap(cat, k, d),
                      Earned(cat, k, d, u - t));
    }
  }

  lemma {:induction false} LagsAfterOthers(cat: Catalog, a: Store, b: Store, refs: seq<BucketRef>, ask: Amount,
                                           landed: seq<Increment>, op: Op)
    requires Whole(a, op.at) && Whole(b, op.at) && Lagging(cat, a, b, refs, ask, landed, op.at)
             && Together(cat, a, b, Others(op))
    ensures Lagging(cat, Step(a, op), Step(b, op), refs, ask, landed, op.at)
  {
    forall k, d: Dim | k in cat && cat[k].Enforced(d)
      ensures LagsBy(Level(cat, Step(a, op), k, d, op.at), Level(cat, Step(b, op), k, d, op.at),
                     Share(refs, ask, k, d), Queued(landed, k, d), Cap(cat, k, d))
    {
      LagsAfterOthersAt(cat, a, b, op, k, d, Share(refs, ask, k, d), Queued(landed, k, d));
    }
  }

  lemma {:induction false} LagsAfterOthersAt(cat: Catalog, a: Store, b: Store, op: Op, k: string, d: Dim, share: real,
                                             back: real)
    requires Whole(a, op.at) && Whole(b, op.at) && Together(cat, a, b, Others(op)) && k in cat && cat[k].Enforced(d)
    requires LagsBy(Level(cat, a, k, d, op.at), Level(cat, b, k, d, op.at), share, back, Cap(cat, k, d))
    ensures LagsBy(Level(cat, Step(a, op), k, d, op.at), Level(cat, Step(b, op), k, d, op.at), share, back,
                   Cap(cat, k, d))
  {
    match op
    case Check(others, x, at) =>
      LevelAfterCheck(cat, a, others, x, at, k, d);
      LevelAfterCheck(cat, b, others, x, at, k, d);
    case Credit(key, dim, x, at) =>
      LevelAfterCredit(cat, a, key, dim, x, at, k, d);
      LevelAfterCredit(cat, b, key, dim, x, at, k, d);
      LagsAfterCredit(Level(cat, a, k, d, at), Level(cat, b, k, d, at), share, back, Cap(cat, k, d), x);
  }

  lemma {:induction false} LagsAfterOurs(cat: Catalog, a: Store, b: Store, refs: seq<BucketRef>, ask: Amount,
                                         landed: seq<Increment>, inc: Increment, at: real)
    requires Whole(a, at) && Lagging(cat, a, b, refs, ask, landed, at)
             && Legal(cat, a, Credit(inc.key, inc.dim, inc.delta, at))
    requires inc.delta >= 0.0 && Queued(landed + [inc], inc.key, inc.dim) <= Share(refs, ask, inc.key, inc.dim)
    ensures Lagging(cat, Credited(a, inc.key, inc.dim, inc.delta), b, refs, ask, landed + [inc], at)
  {
    forall k, d: Dim | k in cat && cat[k].Enforced(d)
      ensures LagsBy(Level(cat, Credited(a, inc.key, inc.dim, inc.delta), k, d, at), Level(cat, b, k, d, at),
                     Share(refs, ask, k, d), Queued(landed + [inc], k, d), Cap(cat, k, d))
    {
      LevelAfterCredit(cat, a, inc.key, inc.dim, inc.delta, at, k, d);
      QueuedConcat(landed, [inc], k, d);
      QueuedSingle([inc], k, d);
      LagsAfterCredit(Level(cat, a, k, d, at), Level(cat, b, k, d, at), Share(refs, ask, k, d), Queued(landed, k, d),
                      Cap(cat, k, d), inc.delta);
    }
  }

  lemma {:induction false} PrefixQueues(incs: seq<Increment>, n: nat, key: string, d: Dim)
    requires n <= |incs| && forall i :: 0 <= i < |incs| ==> incs[i].delta >= 0.0
    ensures 0.0 <= Queued(incs[..n], key, d) <= Queued(incs, key, d)
    decreases |incs|
  {
    if n < |incs| {
      var front := incs[..|incs| - 1];
      PrefixQueues(front, n, key, d);
      assert front[..n] == incs[..n];
    } else {
      assert incs[..n] == incs;
      if n > 0 {
        PrefixQueues(incs[..n - 1], n - 1, key, d);
      }
    }
  }

  lemma {:induction false} RefundsArePositive(refs: seq<BucketRef>, ask: Amount, n: nat)
    requires n <= |refs| && ask.NonNegative()
    ensures forall i :: 0 <= i < |Plan(refs, ask, NOTHING, n)| ==> Plan(refs, ask, NOTHING, n)[i].delta >= 0.0
  {
    if n > 0 {
      RefundsArePositive(refs, ask, n - 1);
    }
  }

  /** What has landed of a refund is never more than was held. */
  lemma {:induction false} LandedWithinShare(cat: Catalog, refs: seq<BucketRef>, ask: Amount, landed: seq<Increment>,
                                             key: string, d: Dim)
    requires FromCatalog(cat, refs) && DistinctKeys(refs) && ask.NonNegative() && key in cat && cat[key].Enforced(d)
    requires landed <= Refund(refs, ask)
    ensures 0.0 <= Queued(landed, key, d) <= Share(refs, ask, key, d)
    ensures forall i :: 0 <= i < |landed| ==> landed[i].delta >= 0.0
  {
    RefundsArePositive(refs, ask, |refs|);
    PrefixQueues(Refund(refs, ask), |landed|, key, d);
    assert Refund(refs, ask)[..|landed|] == landed;
    RefundIsShare(cat, refs, ask, key, d);
  }

  ghost predicate InStep(cat: Catalog, a: Store, b: Store, refs: seq<BucketRef>, ask: Amount, landed: seq<Increment>,
                         now: real) {
    Whole(a, now) && Whole(b, now) && Lagging(cat, a, b, refs, ask, landed, now)
  }

  function Landing(last: Part): seq<Increment> {
    if last.Ours? then [last.inc] else []
  }

  function OtherStep(b: Store, last: Part): Store {
    if last.Others? then Step(b, last.op) else b
  }

  lemma {:induction false} LagRun(cat: Catalog, a: Store, b: Store, refs: seq<BucketRef>, ask: Amount,
                                  parts: seq<Part>, now: real)
    requires Refilling(cat) && FromCatalog(cat, refs) && DistinctKeys(refs) && ask.NonNegative()
    requires InStep(cat, a, b, refs, ask, [], now)
    requires Timed(now, AllOps(parts)) && Parallel(cat, a, b, parts) && Landed(parts) <= Refund(refs, ask)
    ensures InStep(cat, Run(a, AllOps(parts)), Run(b, OtherOps(parts)), refs, ask, Landed(parts),
                   Clock(now, AllOps(parts)))
  {
    if parts != [] {
      var front, last := parts[..|parts| - 1], parts[|parts| - 1];
      PartsGrow(a, b, parts);
      TimedPrefix(now, AllOps(parts));
      LagRun(cat, a, b, refs, ask, front, now);
      LagStep(cat, Run(a, AllOps(front)), Run(b, OtherOps(front)), refs, ask, Landed(front), last,
              Clock(now, AllOps(front)));
    }
  }

  lemma {:induction false} PartsGrow(a: Store, b: Store, parts: seq<Part>)
    requires parts != []
    ensures var front, last := parts[..|parts| - 1], parts[|parts| - 1];
            && AllOps(parts)[..|AllOps(parts)| - 1] == AllOps(front) && AllOps(parts)[|AllOps(parts)| - 1] == AsOp(last)
            && Run(a, AllOps(parts)) == Step(Run(a, AllOps(front)), AsOp(last))
            && Run(b, OtherOps(parts)) == OtherStep(Run(b, OtherOps(front)), last)
            && Landed(parts) == Landed(front) + Landing(last)
  {
    var front, last := parts[..|parts| - 1], parts[|parts| - 1];
    RunGrows(a, AllOps(front), AsOp(last));
    if last.Others? {
      RunGrows(b, OtherOps(front), last.op);
    } else {
      assert OtherOps(front) + [] == OtherOps(front);
    }
  }

  lemma {:induction false} RunGrows(store: Store, ops: seq<Op>, op: Op)
    ensures Run(store, ops + [op]) == Step(Run(store, ops), op)
    ensures (ops + [op])[..|ops + [op]| - 1] == ops
  {
    assert (ops + [op])[..|ops + [op]| - 1] == ops;
  }

  lemma {:induction false} LagStep(cat: Catalog, a: Store, b: Store, refs: seq<BucketRef>, ask: Amount,
                                   landed: seq<Increment>, last: Part, now: real)
    requires Refilling(cat) && FromCatalog(cat, refs) && DistinctKeys(refs) && ask.NonNegative()
    requires InStep(cat, a, b, refs, ask, landed, now) && now <= AsOp(last).at
    requires Together(cat, a, b, last) && landed + Landing(last) <= Refund(refs, ask)
    ensures InStep(cat, Step(a, AsOp(last)), OtherStep(b, last), refs, ask, landed + Landing(last), AsOp(last).at)
  {
    var at := AsOp(last).at;
    LagsLater(cat, a, b, refs, ask, landed, now, at);
    StepKeepsWhole(cat, a, AsOp(last), now);
    match last
    case Others(op) =>
      StepKeepsWhole(cat, b, op, now);
      LagsAfterOthers(cat, a, b, refs, ask, landed, op);
      assert landed + [] == landed;
    case Ours(inc, t) =>
      LandedWithinShare(cat, refs, ask, landed + [inc], inc.key, inc.dim);
      assert (landed + [inc])[|landed|] == inc;
      LagsAfterOurs(cat, a, b, refs, ask, landed, inc, t);
  }

  /**
   A hold whose refund lands increment by increment, at different moments of a run that others share.
   At every point each level stays between what it would have been without the hold less what is still
   held, and that plus what has come back, within the cap; so once all of the refund has landed it is at
   least what it would have been, and at most the held amount more.
   */
  lemma {:induction false} HoldWhileRefundLands(cat: Catalog, store: Store, refs: seq<BucketRef>, ask: Amount,
                                                now: real, parts: seq<Part>, key: string, d: Dim)
    requires Refilling(cat) && FromCatalog(cat, refs) && DistinctKeys(refs) && Whole(store, now)
             && Admits(store, refs, ask, now)
    requires key in cat && cat[key].Enforced(d)
    requires Timed(now, AllOps(parts)) && Parallel(cat, Checked(store, refs, ask, now), store, parts)
             && Landed(parts) <= Refund(refs, ask)
    ensures PartlyReleased(cat, Run(Checked(store, refs, ask, now), AllOps(parts)), Run(store, OtherOps(parts)),
                           refs, ask, Landed(parts), Clock(now, AllOps(parts)), key, d)
  {
    HoldStartsLagging(cat, store, refs, ask, now);
    LagRun(cat, Checked(store, refs, ask, now), store, refs, ask, parts, now);
    LagReleases(cat, Run(Checked(store, refs, ask, now), AllOps(parts)), Run(store, OtherOps(parts)),
                refs, ask, Landed(parts), Clock(now, AllOps(parts)), key, d);
  }

  /** The level with the hold, against the one without it, when `landed` has come back of what was held. */
  ghost predicate PartlyReleased(cat: Catalog, with: Store, without: Store, refs: seq<BucketRef>, ask: Amount,
                                 landed: seq<Increment>, now: real, key: string, d: Dim)
    requires key in cat
  {
    var share, back := Share(refs, ask, key, d), Queued(landed, key, d);
    && Level(cat, without, key, d, now) - (share - back) <= Level(cat, with, key, d, now)
       <= Min(Level(cat, without, key, d, now) + back, Cap(cat, key, d))
    && (landed == Refund(refs, ask) ==> back == share)
  }

  lemma {:induction false} LagReleases(cat: Catalog, a: Store, b: Store, refs: seq<BucketRef>, ask: Amount,
                                       landed: seq<Increment>, now: real, key: string, d: Dim)
    requires FromCatalog(cat, refs) && DistinctKeys(refs) && key in cat && cat[key].Enforced(d)
             && Lagging(cat, a, b, refs, ask, landed, now)
    ensures PartlyReleased(cat, a, b, refs, ask, landed, now, key, d)
  {
    RefundIsShare(cat, refs, ask, key, d);
    assert LagsBy(Level(cat, a, key, d, now), Level(cat, b, key, d, now), Share(refs, ask, key, d),
                  Queued(landed, key, d), Cap(cat, key, d));
  }

  lemma {:induction false} HoldStartsLagging(cat: Catalog, store: Store, refs: seq<BucketRef>, ask: Amount, now: real)
    requires Refilling(cat) && FromCatalog(cat, refs) && Whole(store, now) && Admits(store, refs, ask, now)
    ensures ask.NonNegative() && InStep(cat, Checked(store, refs, ask, now), store, refs, ask, [], now)
  {
    AdmitsMeans(store, refs, ask, now);
    ChargedStoreWhole(cat, store, refs, ask, now);
    forall k, e: Dim | k in cat && cat[k].Enforced(e)
      ensures LagsBy(Level(cat, Checked(store, refs, ask, now), k, e, now), Level(cat, store, k, e, now),
                     Share(refs, ask, k, e), Queued([], k, e), Cap(cat, k, e))
    {
      LevelAdvances(cat, store, k, e, now, now);
      LevelAfterCheck(cat, store, refs, ask, now, k, e);
    }
  }
}
