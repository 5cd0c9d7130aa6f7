/**
 Runs of store operations, and the level a bucket dimension shows at an instant. Everything later
 about refill, holds, expiry and windows rests on three facts proved here: how a level moves with
 time, under an admitted check, and under an increment.
 */
module Runs {
  import opened Buckets
  import opened Script
  import opened Config

  datatype Op =
    | Check(refs: seq<BucketRef>, ask: Amount, at: real)
    | Credit(key: string, dim: Dim, delta: real, at: real)

  function Step(store: Store, op: Op): Store {
    match op
    case Check(refs, ask, at) => Checked(store, refs, ask, at)
    case Credit(key, dim, delta, _) => Credited(store, key, dim, delta)
  }

  function Run(store: Store, ops: seq<Op>): Store {
    if ops == [] then store else Step(Run(store, ops[..|ops| - 1]), ops[|ops| - 1])
  }

  predicate Accepts(store: Store, op: Op) {
    op.Check? && Admits(store, op.refs, op.ask, op.at)
  }

  /** What the i-th operation of a run decided. */
  predicate AcceptedAt(store: Store, ops: seq<Op>, i: nat)
    requires i < |ops|
  {
    Accepts(Run(store, ops[..i]), ops[i])
  }

  function Clock(start: real, ops: seq<Op>): real {
    if ops == [] then start else ops[|ops| - 1].at
  }

  ghost predicate Timed(start: real, ops: seq<Op>) {
    && (|ops| > 0 ==> start <= ops[0].at)
    && forall i, j :: 0 <= i < j < |ops| ==> ops[i].at <= ops[j].at
  }

  lemma {:induction false} TimedPrefix(start: real, ops: seq<Op>)
    requires |ops| > 0 && Timed(start, ops)
    ensures Timed(start, ops[..|ops| - 1]) && Clock(start, ops[..|ops| - 1]) <= ops[|ops| - 1].at
    ensures start <= Clock(start, ops)
  {
  }

  /** Every stored hash is complete and was last refilled no later than `now`. */
  ghost predicate Whole(store: Store, now: real) {
    forall k :: k in store ==> HashWhole(store[k], now)
  }

  predicate HashWhole(h: Hash, now: real) {
    h.tokens.Some? && h.usd.Some? && h.lastRefill.Some? && h.lastRefill.value <= now
  }

  ghost predicate Refilling(cat: Catalog) {
    forall k, d: Dim :: k in cat && cat[k].Enforced(d) ==> cat[k].Rate(d) >= 0.0
  }

  /** An operation the system can issue in this store: known buckets, and increments only to buckets that exist. */
  ghost predicate Legal(cat: Catalog, store: Store, op: Op) {
    match op
    case Check(refs, _, _) => FromCatalog(cat, refs)
    case Credit(key, dim, _, _) => key in cat && key in store && cat[key].Enforced(dim)
  }

  ghost predicate LegalRun(cat: Catalog, store: Store, ops: seq<Op>) {
    forall i :: 0 <= i < |ops| ==> Legal(cat, Run(store, ops[..i]), ops[i])
  }

  lemma {:induction false} LegalPrefix(cat: Catalog, store: Store, ops: seq<Op>)
    requires |ops| > 0 && LegalRun(cat, store, ops)
    ensures LegalRun(cat, store, ops[..|ops| - 1])
    ensures Legal(cat, Run(store, ops[..|ops| - 1]), ops[|ops| - 1])
  {
    var front := ops[..|ops| - 1];
    forall i | 0 <= i < |front| ensures Legal(cat, Run(store, front[..i]), front[i]) {
      assert front[..i] == ops[..i];
    }
  }

  lemma {:induction false} CatalogConsistent(cat: Catalog, refs: seq<BucketRef>)
    requires FromCatalog(cat, refs)
    ensures Consistent(refs)
  {
    forall i, j | 0 <= i < |refs| && 0 <= j < |refs| && refs[i].key == refs[j].key
      ensures refs[i].limits == refs[j].limits
    {
      assert cat[refs[i].key] == refs[i].limits && cat[refs[j].key] == refs[j].limits;
    }
  }

  /** The balance of one bucket dimension as a check at `now` would see it. */
  function Level(cat: Catalog, store: Store, key: string, d: Dim, now: real): real
    requires key in cat
  {
    Balance(cat[key], d, Lookup(store, key), now)
  }

  function Cap(cat: Catalog, key: string, d: Dim): real
    requires key in cat
  {
    cat[key].Cap(d)
  }

  function Earned(cat: Catalog, key: string, d: Dim, dt: real): real
    requires key in cat
  {
    dt * cat[key].Rate(d)
  }

  lemma {:induction false} EarnedIsMonotone(cat: Catalog, key: string, d: Dim, dt: real)
    requires key in cat && Refilling(cat) && cat[key].Enforced(d) && dt >= 0.0
    ensures Earned(cat, key, d, dt) >= 0.0
  {
  }

  /** Time only adds earned credit, clamped at the cap, to the level seen before. */
  lemma {:induction false} LevelAdvances(cat: Catalog, store: Store, key: string, d: Dim, t: real, u: real)
    requires key in cat && cat[key].Enforced(d) && Refilling(cat) && Whole(store, t) && t <= u
    ensures Level(cat, store, key, d, u)
            == Min(Level(cat, store, key, d, t) + Earned(cat, key, d, u - t), Cap(cat, key, d))
    ensures Level(cat, store, key, d, t) <= Cap(cat, key, d)
  {
    EarnedIsMonotone(cat, key, d, u - t);
    if key in store {
      var last := store[key].lastRefill.value;
      assert (u - last) * cat[key].Rate(d) == (t - last) * cat[key].Rate(d) + (u - t) * cat[key].Rate(d);
    }
  }

  lemma {:induction false} LevelAfterCheck(cat: Catalog, store: Store, refs: seq<BucketRef>, ask: Amount, now: real,
                                           key: string, d: Dim)
    requires FromCatalog(cat, refs) && key in cat && cat[key].Enforced(d) && Admits(store, refs, ask, now)
    ensures Level(cat, Checked(store, refs, ask, now), key, d, now)
            == Level(cat, store, key, d, now) - (if HasKey(refs, key) then ask.Of(d) else 0.0)
    ensures HasKey(refs, key) ==> Level(cat, store, key, d, now) >= ask.Of(d)
    ensures ask.Of(d) >= 0.0
  {
    CatalogConsistent(cat, refs);
    AdmitsMeans(store, refs, ask, now);
    CheckedInCommon(store, refs, ask, now, key);
    if HasKey(refs, key) {
      var i :| 0 <= i < |refs| && refs[i].key == key;
      assert Covers(refs[i].limits, Observe(store, refs[i], now), ask);
      match d case Tokens => case Dollars =>
    }
  }

  lemma {:induction false} LevelAfterCredit(cat: Catalog, store: Store, key: string, d: Dim, delta: real, now: real,
                                            k: string, e: Dim)
    requires k in cat && cat[k].Enforced(e) && Whole(store, now) && key in store
    ensures var before, after := Level(cat, store, k, e, now), Level(cat, Credited(store, key, d, delta), k, e, now);
            if k == key && e == d then
              && (delta >= 0.0 ==> after == Min(before + delta, Cap(cat, k, e)))
              && (delta <= 0.0 ==> before + delta <= after <= before)
            else after == before
  {
    if k == key {
      RawMoves(cat[k], store[key], d, delta, now, e);
    }
  }

  /** An increment moves the balance before clamping by itself. */
  lemma {:induction false} RawMoves(l: Limits, h: Hash, d: Dim, delta: real, now: real, e: Dim)
    requires h.tokens.Some? && h.usd.Some?
    ensures Raw(l, e, Incremented(h, d, delta), now) == Raw(l, e, h, now) + if d == e then delta else 0.0
  {
    match d case Tokens => case Dollars =>
  }

  lemma {:induction false} StepKeepsWhole(cat: Catalog, store: Store, op: Op, now: real)
    requires Whole(store, now) && now <= op.at && Legal(cat, store, op)
    ensures Whole(Step(store, op), op.at)
    ensures forall k :: k in store ==> k in Step(store, op)
  {
    if op.Check? && Admits(store, op.refs, op.ask, op.at) {
      CatalogConsistent(cat, op.refs);
      forall k ensures k in store ==> k in Step(store, op)
               ensures k in Step(store, op) ==> HashWhole(Step(store, op)[k], op.at) {
        CheckedInCommon(store, op.refs, op.ask, op.at, k);
        if HasKey(op.refs, k) {
          var i :| 0 <= i < |op.refs| && op.refs[i].key == k;
          assert Step(store, op)[k] == Charged(Observe(store, op.refs[i], op.at), op.ask, op.at);
        }
      }
    }
  }

  lemma {:induction false} RunKeepsWhole(cat: Catalog, store: Store, ops: seq<Op>, start: real)
    requires Whole(store, start) && Timed(start, ops) && LegalRun(cat, store, ops)
    ensures Whole(Run(store, ops), Clock(start, ops))
    ensures forall k :: k in store ==> k in Run(store, ops)
  {
    if |ops| > 0 {
      TimedPrefix(start, ops);
      LegalPrefix(cat, store, ops);
      var front := ops[..|ops| - 1];
      RunKeepsWhole(cat, store, front, start);
      StepKeepsWhole(cat, Run(store, front), ops[|ops| - 1], Clock(start, front));
    }
  }

  /** Decisions depend on the levels alone. */
  lemma {:induction false} AdmitsByLevels(cat: Catalog, store: Store, refs: seq<BucketRef>, ask: Amount, now: real)
    requires FromCatalog(cat, refs)
    ensures Admits(store, refs, ask, now) <==>
            && ask.NonNegative()
            && forall i, d: Dim :: 0 <= i < |refs| && refs[i].limits.Enforced(d)
                 ==> Level(cat, store, refs[i].key, d, now) >= ask.Of(d)
  {
    AdmitsMeans(store, refs, ask, now);
    forall i | 0 <= i < |refs|
      ensures Covers(refs[i].limits, Observe(store, refs[i], now), ask) <==>
              forall d: Dim :: refs[i].limits.Enforced(d) ==> Level(cat, store, refs[i].key, d, now) >= ask.Of(d)
    {
      CoversByLevels(cat, store, refs[i], ask, now);
    }
  }

  lemma {:induction false} CoversByLevels(cat: Catalog, store: Store, ref: BucketRef, ask: Amount, now: real)
    requires ref.key in cat && cat[ref.key] == ref.limits
    ensures Covers(ref.limits, Observe(store, ref, now), ask) <==>
            forall d: Dim :: ref.limits.Enforced(d) ==> Level(cat, store, ref.key, d, now) >= ask.Of(d)
  {
    var f := Observe(store, ref, now);
    assert f.tokens == Level(cat, store, ref.key, Tokens, now) && f.usd == Level(cat, store, ref.key, Dollars, now);
    assert ask.Of(Tokens) == ask.tokens as real && ask.Of(Dollars) == ask.usd;
    if Covers(ref.limits, f, ask) {
      forall d: Dim | ref.limits.Enforced(d) ensures Level(cat, store, ref.key, d, now) >= ask.Of(d) {
        match d case Tokens => case Dollars =>
      }
    }
  }

  /** Two stores that no check at or after `now` can tell apart. */
  ghost predicate SameLevels(cat: Catalog, s1: Store, s2: Store, now: real) {
    forall k, d: Dim :: k in cat && cat[k].Enforced(d) ==> Level(cat, s1, k, d, now) == Level(cat, s2, k, d, now)
  }

  lemma {:induction false} SameLevelsLater(cat: Catalog, s1: Store, s2: Store, t: real, u: real)
    requires Refilling(cat) && Whole(s1, t) && Whole(s2, t) && t <= u && SameLevels(cat, s1, s2, t)
    ensures SameLevels(cat, s1, s2, u)
  {
    forall k, d: Dim | k in cat && cat[k].Enforced(d) ensures Level(cat, s1, k, d, u) == Level(cat, s2, k, d, u) {
      LevelAdvances(cat, s1, k, d, t, u);
      LevelAdvances(cat, s2, k, d, t, u);
    }
  }

  /** Same decision, and on rejection the same scope at fault. */
  predicate SameDecision(v: Verdict, w: Verdict) {
    match v
    case Malformed => w.Malformed?
    case Rejected(i, _) => w.Rejected? && w.index == i
    case Allowed(_) => w.Allowed?
  }

  lemma {:induction false} SameLevelsDecide(cat: Catalog, s1: Store, s2: Store, refs: seq<BucketRef>, ask: Amount,
                                            now: real)
    requires FromCatalog(cat, refs) && SameLevels(cat, s1, s2, now)
    ensures SameDecision(Answer(s1, refs, ask, now), Answer(s2, refs, ask, now))
  {
    var f1, f2 := Assess(s1, refs, now), Assess(s2, refs, now);
    forall i | 0 <= i < |refs| ensures Covers(refs[i].limits, f1[i], ask) <==> Covers(refs[i].limits, f2[i], ask) {
      CoversByLevels(cat, s1, refs[i], ask, now);
      CoversByLevels(cat, s2, refs[i], ask, now);
    }
    SameShort(refs, f1, f2, ask, 0);
  }

  lemma {:induction false} SameShort(refs: seq<BucketRef>, f1: seq<Funds>, f2: seq<Funds>, ask: Amount, from: nat)
    requires |f1| == |f2| == |refs| && from <= |refs|
    requires forall i :: 0 <= i < |refs|
               ==> (Covers(refs[i].limits, f1[i], ask) <==> Covers(refs[i].limits, f2[i], ask))
    ensures FirstShort(refs, f1, ask, from) == FirstShort(refs, f2, ask, from)
    decreases |refs| - from
  {
    if from < |refs| {
      SameShort(refs, f1, f2, ask, from + 1);
    }
  }

  ghost predicate NoDebits(ops: seq<Op>) {
    forall i :: 0 <= i < |ops| && ops[i].Credit? ==> ops[i].delta >= 0.0
  }

  lemma {:induction false} SameLevelsStep(cat: Catalog, s1: Store, s2: Store, op: Op, now: real)
    requires Refilling(cat) && Whole(s1, now) && Whole(s2, now) && SameLevels(cat, s1, s2, now) && now <= op.at
    requires Legal(cat, s1, op) && Legal(cat, s2, op) && (op.Credit? ==> op.delta >= 0.0)
    ensures SameLevels(cat, Step(s1, op), Step(s2, op), op.at)
    ensures op.Check? ==> SameDecision(Answer(s1, op.refs, op.ask, op.at), Answer(s2, op.refs, op.ask, op.at))
  {
    SameLevelsLater(cat, s1, s2, now, op.at);
    if op.Check? {
      SameLevelsDecide(cat, s1, s2, op.refs, op.ask, op.at);
    }
    forall k, d: Dim | k in cat && cat[k].Enforced(d)
      ensures Level(cat, Step(s1, op), k, d, op.at) == Level(cat, Step(s2, op), k, d, op.at)
    {
      if op.Credit? {
        LevelAfterCredit(cat, s1, op.key, op.dim, op.delta, op.at, k, d);
        LevelAfterCredit(cat, s2, op.key, op.dim, op.delta, op.at, k, d);
      } else if Accepts(s1, op) {
        LevelAfterCheck(cat, s1, op.refs, op.ask, op.at, k, d);
        LevelAfterCheck(cat, s2, op.refs, op.ask, op.at, k, d);
      }
    }
  }

  /**
   Stores with the same levels stay indistinguishable: any run of checks and refunds decides the same
   way on both, at every step, and leaves the same levels.
   */
  lemma {:induction false} SameLevelsForever(cat: Catalog, s1: Store, s2: Store, ops: seq<Op>, now: real)
    requires Refilling(cat) && Whole(s1, now) && Whole(s2, now) && SameLevels(cat, s1, s2, now)
    requires Timed(now, ops) && NoDebits(ops) && LegalRun(cat, s1, ops) && LegalRun(cat, s2, ops)
    ensures SameLevels(cat, Run(s1, ops), Run(s2, ops), Clock(now, ops))
    ensures forall i :: 0 <= i < |ops| && ops[i].Check? ==>
              SameDecision(Answer(Run(s1, ops[..i]), ops[i].refs, ops[i].ask, ops[i].at),
                           Answer(Run(s2, ops[..i]), ops[i].refs, ops[i].ask, ops[i].at))
  {
    if |ops| > 0 {
      var front, op := ops[..|ops| - 1], ops[|ops| - 1];
      TimedPrefix(now, ops);
      LegalPrefix(cat, s1, ops);
      LegalPrefix(cat, s2, ops);
      SameLevelsForever(cat, s1, s2, front, now);
      RunKeepsWhole(cat, s1, front, now);
      RunKeepsWhole(cat, s2, front, now);
      SameLevelsStep(cat, Run(s1, front), Run(s2, front), op, Clock(now, front));
      forall i | 0 <= i < |ops| && ops[i].Check?
        ensures SameDecision(Answer(Run(s1, ops[..i]), ops[i].refs, ops[i].ask, ops[i].at),
                             Answer(Run(s2, ops[..i]), ops[i].refs, ops[i].ask, ops[i].at))
      {
        if i < |front| {
          assert front[..i] == ops[..i] && front[i] == ops[i];
        }
      }
    }
  }
}
