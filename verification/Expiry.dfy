/**
 Idle buckets expire. Redis forgets a key a fixed time after the last check that charged it; here a
 database with expiry is compared with one that never forgets, first at one moment and then over whole
 runs in which keys may expire, come back and expire again.
 */
module Expiry {
  import opened Options
  import opened Buckets
  import opened Script
  import opened Config
  import opened Enforcement
  import opened Runs
  import opened Windows

  /** The hashes of a database none of whose keys ever expire. */
  function Immortal(db: Db): Store {
    map k | k in db :: db[k].hash
  }

  ghost predicate Armed(db: Db, ttl: real) {
    forall k :: k in db ==> db[k].hash.lastRefill.Some? && db[k].deadline == Some(db[k].hash.lastRefill.value + ttl)
  }

  /** Enough refill accrues during one idle period to fill the bucket from where it stands. */
  ghost predicate RefillCovers(cat: Catalog, db: Db, ttl: real, key: string)
    requires key in cat && key in db
  {
    forall d: Dim :: cat[key].Enforced(d) ==> db[key].hash.Of(d).GetOr(0.0) + ttl * cat[key].Rate(d) >= cat[key].Cap(d)
  }

  /** Expiry forgets an idle bucket; what it changes is exactly the distance to the cap. */
  lemma {:induction false} ExpiryGrants(cat: Catalog, db: Db, now: real, key: string, d: Dim)
    requires key in cat && cat[key].Enforced(d)
    ensures Level(cat, Visible(db, now), key, d, now)
            == Level(cat, Immortal(db), key, d, now)
             + if key in db && !Live(db[key], now) then Cap(cat, key, d) - Level(cat, Immortal(db), key, d, now)
                 else 0.0
  {
  }

  /**
   No check at `now` can see that anything expired if and only if every bucket that did had refilled to
   its cap.
   */
  lemma {:induction false} ExpiryIsInvisible(cat: Catalog, db: Db, now: real)
    ensures SameLevels(cat, Immortal(db), Visible(db, now), now) <==> ExpiredAreFull(cat, db, now)
  {
    forall k, d: Dim | k in cat && cat[k].Enforced(d)
      ensures Level(cat, Immortal(db), k, d, now) == Level(cat, Visible(db, now), k, d, now)
              <==> (k in db && !Live(db[k], now) ==> Level(cat, Immortal(db), k, d, now) == Cap(cat, k, d))
    {
      ExpiryGrants(cat, db, now, k, d);
    }
  }

  ghost predicate ExpiredAreFull(cat: Catalog, db: Db, now: real) {
    forall k, d: Dim :: k in cat && cat[k].Enforced(d) && k in db && !Live(db[k], now) ==>
      Level(cat, Immortal(db), k, d, now) == Cap(cat, k, d)
  }

  /** When refill covers every expired bucket they are full, so none of this can be seen. */
  lemma {:induction false} CoveredExpiryIsInvisible(cat: Catalog, db: Db, ttl: real, now: real)
    requires Refilling(cat) && Armed(db, ttl) && Whole(Immortal(db), now)
    requires forall k :: k in cat && k in db && !Live(db[k], now) ==> RefillCovers(cat, db, ttl, k)
    ensures SameLevels(cat, Immortal(db), Visible(db, now), now)
  {
    forall k, d: Dim | k in cat && cat[k].Enforced(d) && k in db && !Live(db[k], now)
      ensures Level(cat, Immortal(db), k, d, now) == Cap(cat, k, d)
    {
      var h := db[k].hash;
      assert HashWhole(Immortal(db)[k], now);
      Faster(now - h.lastRefill.value, ttl, cat[k].Rate(d));
      assert RefillCovers(cat, db, ttl, k);
      assert Raw(cat[k], d, h, now) >= cat[k].Cap(d);
    }
    ExpiryIsInvisible(cat, db, now);
  }

  lemma {:induction false} Faster(x: real, y: real, r: real)
    requires x >= y && r >= 0.0
    ensures x * r >= y * r
  {
    assert (x - y) * r >= 0.0;
  }

  /** `s2` is `s1` with some full buckets forgotten. */
  ghost predicate Forgets(cat: Catalog, s1: Store, s2: Store, now: real) {
    forall k :: k in cat ==> ForgetsKey(cat, s1, s2, k, now)
  }

  ghost predicate ForgetsKey(cat: Catalog, s1: Store, s2: Store, k: string, now: real)
    requires k in cat
  {
    if k in s2 then
      && k in s1 && s1[k].lastRefill == s2[k].lastRefill
      && forall d: Dim :: cat[k].Enforced(d) ==> s1[k].Of(d) == s2[k].Of(d)
    else
      forall d: Dim :: cat[k].Enforced(d) ==> Level(cat, s1, k, d, now) == cat[k].Cap(d)
  }

  lemma {:induction false} ForgetsLevels(cat: Catalog, s1: Store, s2: Store, now: real)
    requires Forgets(cat, s1, s2, now)
    ensures SameLevels(cat, s1, s2, now)
  {
    forall k, d: Dim | k in cat && cat[k].Enforced(d) ensures Level(cat, s1, k, d, now) == Level(cat, s2, k, d, now) {
      assert ForgetsKey(cat, s1, s2, k, now);
    }
  }

  lemma {:induction false} ForgetsLater(cat: Catalog, s1: Store, s2: Store, t: real, u: real)
    requires Refilling(cat) && Whole(s1, t) && t <= u && Forgets(cat, s1, s2, t)
    ensures Forgets(cat, s1, s2, u)
  {
    forall k | k in cat ensures ForgetsKey(cat, s1, s2, k, u) {
      assert ForgetsKey(cat, s1, s2, k, t);
      if k !in s2 {
        forall d: Dim | cat[k].Enforced(d) ensures Level(cat, s1, k, d, u) == cat[k].Cap(d) {
          LevelAdvances(cat, s1, k, d, t, u);
          EarnedIsMonotone(cat, k, d, u - t);
        }
      }
    }
  }

  lemma {:induction false} ForgetsStep(cat: Catalog, s1: Store, s2: Store, op: Op, now: real)
    requires Refilling(cat) && Whole(s1, now) && now <= op.at && Forgets(cat, s1, s2, now)
    requires Legal(cat, s1, op) && Legal(cat, s2, op)
    ensures Forgets(cat, Step(s1, op), Step(s2, op), op.at)
    ensures op.Check? ==> SameDecision(Answer(s1, op.refs, op.ask, op.at), Answer(s2, op.refs, op.ask, op.at))
  {
    ForgetsLater(cat, s1, s2, now, op.at);
    ForgetsLevels(cat, s1, s2, op.at);
    if op.Check? {
      SameLevelsDecide(cat, s1, s2, op.refs, op.ask, op.at);
    }
    forall k | k in cat ensures ForgetsKey(cat, Step(s1, op), Step(s2, op), k, op.at) {
      assert ForgetsKey(cat, s1, s2, k, op.at);
      match op
      case Check(refs, ask, at) =>
        if Accepts(s1, op) {
          ForgetsCharge(cat, s1, s2, refs, ask, at, k);
        }
      case Credit(key, dim, delta, at) =>
        ForgetsCredit(cat, s1, s2, key, dim, delta, k, at);
    }
  }

  lemma {:induction false} ForgetsCharge(cat: Catalog, s1: Store, s2: Store, refs: seq<BucketRef>, ask: Amount,
                                         at: real, k: string)
    requires FromCatalog(cat, refs) && k in cat && Admits(s1, refs, ask, at) && Admits(s2, refs, ask, at)
    requires SameLevels(cat, s1, s2, at) && ForgetsKey(cat, s1, s2, k, at)
    ensures ForgetsKey(cat, Checked(s1, refs, ask, at), Checked(s2, refs, ask, at), k, at)
  {
    CatalogConsistent(cat, refs);
    CheckedInCommon(s1, refs, ask, at, k);
    CheckedInCommon(s2, refs, ask, at, k);
    var a1, a2 := Checked(s1, refs, ask, at), Checked(s2, refs, ask, at);
    if HasKey(refs, k) {
      forall d: Dim | cat[k].Enforced(d) ensures a1[k].Of(d) == a2[k].Of(d) {
        ChargedBucket(cat, s1, refs, ask, at, k, d);
        ChargedBucket(cat, s2, refs, ask, at, k, d);
        assert Level(cat, s1, k, d, at) == Level(cat, s2, k, d, at);
      }
    }
  }

  lemma {:induction false} ForgetsCredit(cat: Catalog, s1: Store, s2: Store, key: string, dim: Dim, delta: real,
                                         k: string, at: real)
    requires k in cat && key in s1 && key in s2 && ForgetsKey(cat, s1, s2, k, at) && cat.Keys >= {key}
             && cat[key].Enforced(dim)
    ensures ForgetsKey(cat, Credited(s1, key, dim, delta), Credited(s2, key, dim, delta), k, at)
  {
    var a1, a2 := Credited(s1, key, dim, delta), Credited(s2, key, dim, delta);
    if k == key {
      forall d: Dim | cat[k].Enforced(d) ensures a1[k].Of(d) == a2[k].Of(d) {
        assert s1[k].Of(d) == s2[k].Of(d) && s1[k].Of(dim) == s2[k].Of(dim);
        match dim case Tokens => case Dollars =>
      }
      assert a1[k].lastRefill == s1[k].lastRefill && a2[k].lastRefill == s2[k].lastRefill by {
        match dim case Tokens => case Dollars =>
      }
    }
  }

  lemma {:induction false} ForgetsForever(cat: Catalog, s1: Store, s2: Store, ops: seq<Op>, now: real)
    requires Refilling(cat) && Whole(s1, now) && Forgets(cat, s1, s2, now)
    requires Timed(now, ops) && LegalRun(cat, s1, ops) && LegalRun(cat, s2, ops)
    ensures Forgets(cat, Run(s1, ops), Run(s2, ops), Clock(now, ops))
  {
    if |ops| > 0 {
      var front, op := ops[..|ops| - 1], ops[|ops| - 1];
      TimedPrefix(now, ops);
      LegalPrefix(cat, s1, ops);
      LegalPrefix(cat, s2, ops);
      ForgetsForever(cat, s1, s2, front, now);
      RunKeepsWhole(cat, s1, front, now);
      ForgetsStep(cat, Run(s1, front), Run(s2, front), op, Clock(now, front));
    }
  }

  /**
   And so every later run, debits included, decides as if nothing had expired, as long as it reconciles
   only buckets that exist.
   */
  lemma {:induction false} ExpiryChangesNoDecision(cat: Catalog, db: Db, ttl: real, now: real, ops: seq<Op>, i: nat)
    requires Refilling(cat) && Armed(db, ttl) && Whole(Immortal(db), now)
    requires forall k :: k in cat && k in db && !Live(db[k], now) ==> RefillCovers(cat, db, ttl, k)
    requires Timed(now, ops) && LegalRun(cat, Immortal(db), ops) && LegalRun(cat, Visible(db, now), ops)
    requires i < |ops| && ops[i].Check?
    ensures SameDecision(Answer(Run(Immortal(db), ops[..i]), ops[i].refs, ops[i].ask, ops[i].at),
                         Answer(Run(Visible(db, now), ops[..i]), ops[i].refs, ops[i].ask, ops[i].at))
  {
    var s1, s2, before := Immortal(db), Visible(db, now), ops[..i];
    CoveredExpiryIsInvisible(cat, db, ttl, now);
    forall k | k in cat ensures ForgetsKey(cat, s1, s2, k, now) {
      assert forall d: Dim :: cat[k].Enforced(d) ==> Level(cat, s1, k, d, now) == Level(cat, s2, k, d, now);
    }
    assert forall j :: 0 <= j < i ==> before[..j] == ops[..j];
    ForgetsForever(cat, s1, s2, before, now);
    RunKeepsWhole(cat, s1, before, now);
    assert Legal(cat, Run(s1, ops[..i]), ops[i]) && Legal(cat, Run(s2, ops[..i]), ops[i]);
    ForgetsStep(cat, Run(s1, before), Run(s2, before), ops[i], Clock(now, before));
  }

  /** One operation on the database that does forget: a check re-arms what it charges, an increment does not. */
  function DbStep(db: Db, op: Op, ttl: real): Db {
    match op
    case Check(refs, ask, at) =>
      if Admits(Visible(db, at), refs, ask, at)
      then Stamped(db, refs, Assess(Visible(db, at), refs, at), ask, ttl, at, |refs|)
      else db
    case Credit(key, dim, delta, at) => Bumped(db, key, dim, delta, at)
  }

  function DbRun(ops: seq<Op>, ttl: real): Db {
    if ops == [] then map[] else DbStep(DbRun(ops[..|ops| - 1], ttl), ops[|ops| - 1], ttl)
  }

  /** Known buckets only, and increments only to buckets that have not expired. */
  ghost predicate LegalDbRun(cat: Catalog, ops: seq<Op>, ttl: real) {
    forall i :: 0 <= i < |ops| ==> Legal(cat, Visible(DbRun(ops[..i], ttl), ops[i].at), ops[i])
  }

  /** From where every bucket stands, one idle period refills it. */
  ghost predicate Covered(cat: Catalog, store: Store, ttl: real) {
    forall k, d: Dim :: k in cat && k in store && cat[k].Enforced(d)
        ==> store[k].Of(d).GetOr(0.0) + ttl * cat[k].Rate(d) >= cat[k].Cap(d)
  }

  ghost predicate AlwaysCovered(cat: Catalog, ops: seq<Op>, ttl: real) {
    forall i :: 0 <= i <= |ops| ==> Covered(cat, Run(map[], ops[..i]), ttl)
  }

  /** The forgetful database against the store that never forgets. */
  ghost predicate Tracks(cat: Catalog, s: Store, db: Db, ttl: real, now: real) {
    && Whole(s, now)
    && Forgets(cat, s, Visible(db, now), now)
    && forall k :: k in cat && k in Visible(db, now) ==> db[k].deadline == Some(s[k].lastRefill.GetOr(0.0) + ttl)
  }

  lemma {:induction false} TracksLater(cat: Catalog, s: Store, db: Db, ttl: real, t: real, u: real)
    requires Refilling(cat) && Tracks(cat, s, db, ttl, t) && Covered(cat, s, ttl) && t <= u
    ensures Tracks(cat, s, db, ttl, u)
  {
    assert forall k :: k in Visible(db, u) ==> k in Visible(db, t);
    forall k | k in cat ensures ForgetsKey(cat, s, Visible(db, u), k, u) {
      assert ForgetsKey(cat, s, Visible(db, t), k, t);
      if k !in Visible(db, u) {
        forall d: Dim | cat[k].Enforced(d) ensures Level(cat, s, k, d, u) == cat[k].Cap(d) {
          if k in Visible(db, t) {
            IdleIsFull(cat, s, ttl, k, d, u);
          } else {
            LevelAdvances(cat, s, k, d, t, u);
            EarnedIsMonotone(cat, k, d, u - t);
          }
        }
      }
    }
  }

  lemma {:induction false} IdleIsFull(cat: Catalog, s: Store, ttl: real, k: string, d: Dim, now: real)
    requires Refilling(cat) && Covered(cat, s, ttl) && Whole(s, now)
    requires k in cat && k in s && cat[k].Enforced(d) && now >= s[k].lastRefill.value + ttl
    ensures Level(cat, s, k, d, now) == cat[k].Cap(d)
  {
    Faster(now - s[k].lastRefill.value, ttl, cat[k].Rate(d));
    assert s[k].Of(d).GetOr(0.0) + ttl * cat[k].Rate(d) >= cat[k].Cap(d);
  }

  lemma {:induction false} DbStepVisible(cat: Catalog, db: Db, op: Op, ttl: real)
    requires Legal(cat, Visible(db, op.at), op)
    ensures Visible(DbStep(db, op, ttl), op.at) == Step(Visible(db, op.at), op)
  {
    match op
    case Check(refs, ask, at) =>
      if Admits(Visible(db, at), refs, ask, at) {
        StampedVisible(db, refs, Assess(Visible(db, at), refs, at), ask, ttl, at, |refs|);
      }
    case Credit(key, dim, delta, at) =>
      BumpedVisible(db, key, dim, delta, at);
  }

  lemma {:induction false} TracksStep(cat: Catalog, s: Store, db: Db, ttl: real, op: Op)
    requires Refilling(cat) && ttl > 0.0 && Tracks(cat, s, db, ttl, op.at) && Legal(cat, Visible(db, op.at), op)
    ensures Tracks(cat, Step(s, op), DbStep(db, op, ttl), ttl, op.at)
    ensures op.Check? ==> SameDecision(Answer(s, op.refs, op.ask, op.at),
                                       Answer(Visible(db, op.at), op.refs, op.ask, op.at))
  {
    var seen := Visible(db, op.at);
    assert op.Credit? ==> ForgetsKey(cat, s, seen, op.key, op.at);
    ForgetsStep(cat, s, seen, op, op.at);
    StepKeepsWhole(cat, s, op, op.at);
    DbStepVisible(cat, db, op, ttl);
    forall k | k in cat && k in Visible(DbStep(db, op, ttl), op.at)
      ensures DbStep(db, op, ttl)[k].deadline == Some(Step(s, op)[k].lastRefill.GetOr(0.0) + ttl)
    {
      DeadlineFollows(cat, s, db, ttl, op, k);
    }
  }

  lemma {:induction false} DeadlineFollows(cat: Catalog, s: Store, db: Db, ttl: real, op: Op, k: string)
    requires Refilling(cat) && ttl > 0.0 && Tracks(cat, s, db, ttl, op.at) && Legal(cat, Visible(db, op.at), op)
    requires op.Check? ==> SameDecision(Answer(s, op.refs, op.ask, op.at),
                                        Answer(Visible(db, op.at), op.refs, op.ask, op.at))
    requires k in cat && k in Visible(DbStep(db, op, ttl), op.at) && k in Step(s, op)
    ensures DbStep(db, op, ttl)[k].deadline == Some(Step(s, op)[k].lastRefill.GetOr(0.0) + ttl)
  {
    match op
    case Check(refs, ask, at) =>
      if Admits(Visible(db, at), refs, ask, at) {
        ChargeSetsDeadline(cat, s, db, ttl, refs, ask, at, k);
      }
    case Credit(key, dim, delta, at) =>
      match dim case Tokens => case Dollars =>
  }

  lemma {:induction false} ChargeSetsDeadline(cat: Catalog, s: Store, db: Db, ttl: real, refs: seq<BucketRef>,
                                              ask: Amount,
                                              at: real, k: string)
    requires FromCatalog(cat, refs) && ttl > 0.0 && Admits(s, refs, ask, at) && Admits(Visible(db, at), refs, ask, at)
    requires var after := DbStep(db, Check(refs, ask, at), ttl); k in after && Live(after[k], at)
    requires k in Checked(s, refs, ask, at)
    requires k in Visible(db, at) ==> k in s && db[k].deadline == Some(s[k].lastRefill.GetOr(0.0) + ttl)
    ensures DbStep(db, Check(refs, ask, at), ttl)[k].deadline
            == Some(Checked(s, refs, ask, at)[k].lastRefill.GetOr(0.0) + ttl)
  {
    StampedAt(db, refs, Assess(Visible(db, at), refs, at), ask, ttl, at, |refs|, k);
    CheckedAt(s, refs, ask, at, k);
  }

  lemma {:induction false} ForgettingTracks(cat: Catalog, ops: seq<Op>, ttl: real, start: real, n: nat)
    requires Refilling(cat) && ttl > 0.0 && Timed(start, ops) && LegalDbRun(cat, ops, ttl)
             && AlwaysCovered(cat, ops, ttl) && n <= |ops|
    ensures Tracks(cat, Run(map[], ops[..n]), DbRun(ops[..n], ttl), ttl, Clock(start, ops[..n]))
  {
    if n > 0 {
      ForgettingTracks(cat, ops, ttl, start, n - 1);
      var front, op := ops[..n - 1], ops[n - 1];
      assert Legal(cat, Visible(DbRun(front, ttl), op.at), op) && Covered(cat, Run(map[], front), ttl);
      TracksNext(cat, Run(map[], front), DbRun(front, ttl), ttl, Clock(start, front), op);
      BothGrow(ops, ttl, n);
    } else {
      TracksFresh(cat, ttl, start);
    }
  }

  lemma {:induction false} BothGrow(ops: seq<Op>, ttl: real, n: nat)
    requires 0 < n <= |ops|
    ensures Run(map[], ops[..n]) == Step(Run(map[], ops[..n - 1]), ops[n - 1])
    ensures DbRun(ops[..n], ttl) == DbStep(DbRun(ops[..n - 1], ttl), ops[n - 1], ttl)
  {
    assert ops[..n][..n - 1] == ops[..n - 1];
  }

  lemma {:induction false} TracksFresh(cat: Catalog, ttl: real, start: real)
    ensures Tracks(cat, map[], map[], ttl, start)
  {
    assert Visible(map[], start) == map[];
  }

  lemma {:induction false} TracksNext(cat: Catalog, s: Store, db: Db, ttl: real, now: real, op: Op)
    requires Refilling(cat) && ttl > 0.0 && Tracks(cat, s, db, ttl, now) && Covered(cat, s, ttl)
    requires now <= op.at && Legal(cat, Visible(db, op.at), op)
    ensures Tracks(cat, Step(s, op), DbStep(db, op, ttl), ttl, op.at)
    ensures op.Check? ==> SameDecision(Answer(s, op.refs, op.ask, op.at),
                                       Answer(Visible(db, op.at), op.refs, op.ask, op.at))
  {
    TracksLater(cat, s, db, ttl, now, op.at);
    TracksStep(cat, s, db, ttl, op);
  }

  /**
   Expiry never matters, over any whole run and however often keys expire and return: as long as one
   idle period refills every bucket from where it stands, each check is decided as it would be had no
   key ever expired.
   */
  lemma {:induction false} ExpiryNeverMatters(cat: Catalog, ops: seq<Op>, ttl: real, start: real, i: nat)
    requires Refilling(cat) && ttl > 0.0 && Timed(start, ops) && LegalDbRun(cat, ops, ttl)
             && AlwaysCovered(cat, ops, ttl)
    requires i < |ops| && ops[i].Check?
    ensures var op := ops[i];
            SameDecision(Answer(Run(map[], ops[..i]), op.refs, op.ask, op.at),
                         Answer(Visible(DbRun(ops[..i], ttl), op.at), op.refs, op.ask, op.at))
  {
    var before, op := ops[..i], ops[i];
    ForgettingTracks(cat, ops, ttl, start, i);
    assert Legal(cat, Visible(DbRun(before, ttl), op.at), op) && Covered(cat, Run(map[], before), ttl);
    TracksNext(cat, Run(map[], before), DbRun(before, ttl), ttl, Clock(start, before), op);
  }

  /** Without debits it is enough that the idle period refills an empty bucket. */
  ghost predicate RefillsFromEmpty(cat: Catalog, ttl: real) {
    forall k, d: Dim :: k in cat && cat[k].Enforced(d) ==> ttl * cat[k].Rate(d) >= cat[k].Cap(d)
  }

  ghost predicate Solvent(cat: Catalog, store: Store) {
    forall k, d: Dim :: k in cat && k in store && cat[k].Enforced(d) ==> store[k].Of(d).GetOr(0.0) >= 0.0
  }

  lemma {:induction false} RefundsKeepSolvent(cat: Catalog, ops: seq<Op>)
    requires NoDebits(ops) && forall i :: 0 <= i < |ops| ==> ops[i].Check? ==> FromCatalog(cat, ops[i].refs)
    ensures Solvent(cat, Run(map[], ops))
  {
    if |ops| > 0 {
      var front, op := ops[..|ops| - 1], ops[|ops| - 1];
      RefundsKeepSolvent(cat, front);
      var s := Run(map[], front);
      forall k, d: Dim | k in cat && k in Step(s, op) && cat[k].Enforced(d)
        ensures Step(s, op)[k].Of(d).GetOr(0.0) >= 0.0
      {
        SolventStep(cat, s, op, k, d);
      }
    }
  }

  lemma {:induction false} SolventStep(cat: Catalog, s: Store, op: Op, k: string, d: Dim)
    requires Solvent(cat, s) && k in cat && k in Step(s, op) && cat[k].Enforced(d)
    requires if op.Check? then FromCatalog(cat, op.refs) else op.delta >= 0.0
    ensures Step(s, op)[k].Of(d).GetOr(0.0) >= 0.0
  {
    match op
    case Check(refs, ask, at) =>
      if Accepts(s, op) {
        CatalogConsistent(cat, refs);
        CheckedInCommon(s, refs, ask, at, k);
        if HasKey(refs, k) {
          ChargedBucket(cat, s, refs, ask, at, k, d);
        }
      }
    case Credit(key, dim, delta, at) =>
      match dim case Tokens => case Dollars =>
  }

  lemma {:induction false} LongIdleCovers(cat: Catalog, ops: seq<Op>, ttl: real)
    requires RefillsFromEmpty(cat, ttl) && NoDebits(ops) && LegalDbRun(cat, ops, ttl)
    ensures AlwaysCovered(cat, ops, ttl)
  {
    forall i | 0 <= i <= |ops| ensures Covered(cat, Run(map[], ops[..i]), ttl) {
      forall j | 0 <= j < i && ops[..i][j].Check? ensures FromCatalog(cat, ops[..i][j].refs) {
        assert Legal(cat, Visible(DbRun(ops[..j], ttl), ops[j].at), ops[j]);
      }
      RefundsKeepSolvent(cat, ops[..i]);
    }
  }
}
