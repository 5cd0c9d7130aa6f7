/**
 When exactly a request is admitted: the earliest instant for a waiting request, and the exact number
 admitted out of a burst of identical requests.
 */
module Admission {
  import opened Buckets
  import opened Script
  import opened Config
  import opened Runs
  import opened Windows

  /** Seconds until one bucket dimension can pay, from its level at `t0`. */
  function Wait(cat: Catalog, store: Store, key: string, d: Dim, ask: Amount, t0: real): real
    requires key in cat
  {
    var need := ask.Of(d) - Level(cat, store, key, d, t0);
    if !cat[key].Enforced(d) || need <= 0.0 || cat[key].Rate(d) <= 0.0 then 0.0 else need / cat[key].Rate(d)
  }

  /** The longest wait over the first n buckets and both dimensions. */
  function LongestWait(cat: Catalog, store: Store, refs: seq<BucketRef>, ask: Amount, t0: real, n: nat): real
    requires n <= |refs| && forall i :: 0 <= i < |refs| ==> refs[i].key in cat
  {
    if n == 0 then 0.0
    else
      Max(LongestWait(cat, store, refs, ask, t0, n - 1),
          Max(Wait(cat, store, refs[n - 1].key, Tokens, ask, t0), Wait(cat, store, refs[n - 1].key, Dollars, ask, t0)))
  }

  lemma {:induction false} LongestWaitIsMax(cat: Catalog, store: Store, refs: seq<BucketRef>, ask: Amount, t0: real,
                                            n: nat, w: real)
    requires n <= |refs| && forall i :: 0 <= i < |refs| ==> refs[i].key in cat
    ensures LongestWait(cat, store, refs, ask, t0, n) <= w <==>
            0.0 <= w && forall i, d: Dim :: 0 <= i < n ==> Wait(cat, store, refs[i].key, d, ask, t0) <= w
  {
    if n > 0 {
      LongestWaitIsMax(cat, store, refs, ask, t0, n - 1, w);
      forall i, d: Dim | 0 <= i < n && LongestWait(cat, store, refs, ask, t0, n) <= w
        ensures Wait(cat, store, refs[i].key, d, ask, t0) <= w
      {
        match d case Tokens => case Dollars =>
      }
    }
  }

  /** Within every enforced cap, and refilling wherever the level is short. */
  ghost predicate Attainable(cat: Catalog, store: Store, refs: seq<BucketRef>, ask: Amount, t0: real)
    requires FromCatalog(cat, refs)
  {
    && ask.NonNegative()
    && forall i, d: Dim :: 0 <= i < |refs| && refs[i].limits.Enforced(d) ==>
         && ask.Of(d) <= refs[i].limits.Cap(d)
         && (Level(cat, store, refs[i].key, d, t0) < ask.Of(d) ==> refs[i].limits.Rate(d) > 0.0)
  }

  lemma {:induction false} EnoughExactlyAfter(need: real, rate: real, dt: real)
    requires rate > 0.0
    ensures dt * rate >= need <==> dt >= need / rate
  {
    var w := need / rate;
    assert w * rate == need;
    if dt >= w {
      assert (dt - w) * rate >= 0.0;
    } else {
      assert (w - dt) * rate > 0.0;
    }
  }

  lemma {:induction false} PaysExactlyAfter(cat: Catalog, store: Store, ref: BucketRef, d: Dim, ask: Amount, t0: real,
                                            now: real)
    requires Refilling(cat) && Whole(store, t0) && t0 <= now && ref.key in cat && cat[ref.key] == ref.limits
             && ref.limits.Enforced(d)
    requires ask.Of(d) <= ref.limits.Cap(d)
    requires Level(cat, store, ref.key, d, t0) < ask.Of(d) ==> ref.limits.Rate(d) > 0.0
    ensures Level(cat, store, ref.key, d, now) >= ask.Of(d) <==> Wait(cat, store, ref.key, d, ask, t0) <= now - t0
  {
    LevelAdvances(cat, store, ref.key, d, t0, now);
    EarnedIsMonotone(cat, ref.key, d, now - t0);
    var need := ask.Of(d) - Level(cat, store, ref.key, d, t0);
    if need > 0.0 {
      EnoughExactlyAfter(need, ref.limits.Rate(d), now - t0);
    }
  }

  /**
   Exact earliest admission: at every instant from t0 on, the request is admitted if and only if the
   longest wait has passed.
   */
  lemma {:induction false} AdmittedExactlyAfter(cat: Catalog, store: Store, refs: seq<BucketRef>, ask: Amount,
                                                t0: real, now: real)
    requires FromCatalog(cat, refs) && Refilling(cat) && Whole(store, t0) && t0 <= now
             && Attainable(cat, store, refs, ask, t0)
    ensures Admits(store, refs, ask, now) <==> now >= t0 + LongestWait(cat, store, refs, ask, t0, |refs|)
  {
    AdmitsByLevels(cat, store, refs, ask, now);
    LongestWaitIsMax(cat, store, refs, ask, t0, |refs|, now - t0);
    forall i, d: Dim | 0 <= i < |refs|
      ensures (refs[i].limits.Enforced(d) ==> Level(cat, store, refs[i].key, d, now) >= ask.Of(d))
              <==> Wait(cat, store, refs[i].key, d, ask, t0) <= now - t0
    {
      if refs[i].limits.Enforced(d) {
        PaysExactlyAfter(cat, store, refs[i], d, ask, t0, now);
      }
    }
  }

  ghost predicate Repeats(refs: seq<BucketRef>, ask: Amount, ops: seq<Op>) {
    forall i :: 0 <= i < |ops| ==> ops[i].Check? && ops[i].refs == refs && ops[i].ask == ask
  }

  /** However many rejected probes came before, the first probe to be admitted is the first one made late enough. */
  lemma {:induction false} ProbesDoNotMatter(cat: Catalog, store: Store, refs: seq<BucketRef>, ask: Amount, t0: real,
                                             ops: seq<Op>)
    requires FromCatalog(cat, refs) && Refilling(cat) && Whole(store, t0) && Attainable(cat, store, refs, ask, t0)
    requires |ops| > 0 && Timed(t0, ops) && Repeats(refs, ask, ops)
    requires forall j :: 0 <= j < |ops| - 1 ==> ops[j].at < t0 + LongestWait(cat, store, refs, ask, t0, |refs|)
    ensures Run(store, ops[..|ops| - 1]) == store
    ensures AcceptedAt(store, ops, |ops| - 1)
            <==> ops[|ops| - 1].at >= t0 + LongestWait(cat, store, refs, ask, t0, |refs|)
  {
    var front := ops[..|ops| - 1];
    if |front| > 0 {
      ProbesDoNotMatter(cat, store, refs, ask, t0, front);
      assert front[|front| - 1] == ops[|ops| - 2];
    }
    AdmittedExactlyAfter(cat, store, refs, ask, t0, ops[|ops| - 1].at);
  }

  /** m identical requests fit under every enforced cap. */
  ghost predicate Fits(refs: seq<BucketRef>, ask: Amount, m: nat) {
    forall i, d: Dim :: 0 <= i < |refs| && refs[i].limits.Enforced(d) ==> Times(m, ask.Of(d)) <= refs[i].limits.Cap(d)
  }

  /** How many of n requests one bucket dimension lets through on its own. */
  function Through(l: Limits, d: Dim, ask: Amount, n: nat): int {
    if !l.Enforced(d) || ask.Of(d) <= 0.0 then n else Least(n, (l.Cap(d) / ask.Of(d)).Floor)
  }

  /** The minimum of n and floor(cap / request) over the first k buckets and both dimensions. */
  function Room(refs: seq<BucketRef>, ask: Amount, n: nat, k: nat): int
    requires k <= |refs|
  {
    if k == 0 then n
    else Least(Room(refs, ask, n, k - 1),
               Least(Through(refs[k - 1].limits, Tokens, ask, n), Through(refs[k - 1].limits, Dollars, ask, n)))
  }

  lemma {:induction false} FloorCounts(cap: real, ask: real, m: nat)
    requires ask > 0.0
    ensures m as real * ask <= cap <==> m <= (cap / ask).Floor
  {
    var q := cap / ask;
    assert q * ask == cap;
    if m as real <= q {
      assert (q - m as real) * ask >= 0.0;
    } else {
      assert (m as real - q) * ask > 0.0;
    }
  }

  lemma {:induction false} ThroughCounts(l: Limits, d: Dim, ask: Amount, n: nat, m: nat)
    requires m <= n && ask.NonNegative()
    ensures m <= Through(l, d, ask, n) <==> (l.Enforced(d) ==> Times(m, ask.Of(d)) <= l.Cap(d))
  {
    assert ask.Of(d) >= 0.0;
    TimesIsProduct(m, ask.Of(d));
    if ask.Of(d) > 0.0 {
      FloorCounts(l.Cap(d), ask.Of(d), m);
    }
  }

  lemma {:induction false} RoomCounts(refs: seq<BucketRef>, ask: Amount, n: nat, k: nat, m: nat)
    requires m <= n && k <= |refs| && ask.NonNegative()
    ensures m <= Room(refs, ask, n, k) <==> Fits(refs[..k], ask, m)
  {
    if k == 0 {
      assert refs[..k] == [];
    } else {
      RoomCounts(refs, ask, n, k - 1, m);
      ThroughCounts(refs[k - 1].limits, Tokens, ask, n, m);
      ThroughCounts(refs[k - 1].limits, Dollars, ask, n, m);
      FitsGrows(refs, ask, k, m);
    }
  }

  lemma {:induction false} FitsGrows(refs: seq<BucketRef>, ask: Amount, k: nat, m: nat)
    requires 0 < k <= |refs|
    ensures Fits(refs[..k], ask, m) <==> Fits(refs[..k - 1], ask, m) && FitsOne(refs[k - 1].limits, ask, m)
  {
    var a, b := refs[..k], refs[..k - 1];
    assert forall i :: 0 <= i < k - 1 ==> a[i] == b[i];
    assert a[k - 1] == refs[k - 1];
    if Fits(b, ask, m) && FitsOne(refs[k - 1].limits, ask, m) {
      forall i, d: Dim | 0 <= i < k && a[i].limits.Enforced(d) ensures Times(m, ask.Of(d)) <= a[i].limits.Cap(d) {
        match d case Tokens => case Dollars =>
      }
    }
  }

  predicate FitsOne(l: Limits, ask: Amount, m: nat) {
    && (l.Enforced(Tokens) ==> Times(m, ask.Of(Tokens)) <= l.Cap(Tokens))
    && (l.Enforced(Dollars) ==> Times(m, ask.Of(Dollars)) <= l.Cap(Dollars))
  }

  function Count(store: Store, ops: seq<Op>): nat {
    if ops == [] then 0
    else
      var front := ops[..|ops| - 1];
      Count(store, front) + if Accepts(Run(store, front), ops[|ops| - 1]) then 1 else 0
  }

  ghost predicate NoRefill(refs: seq<BucketRef>) {
    forall i, d: Dim :: 0 <= i < |refs| && refs[i].limits.Enforced(d) ==> refs[i].limits.Rate(d) == 0.0
  }

  /** Every listed bucket has been charged exactly `m` times since it was full. */
  ghost predicate ChargedTimes(cat: Catalog, store: Store, refs: seq<BucketRef>, ask: Amount, m: nat)
    requires FromCatalog(cat, refs)
  {
    forall i, d: Dim, now: real :: 0 <= i < |refs| && refs[i].limits.Enforced(d) ==>
      Level(cat, store, refs[i].key, d, now) == refs[i].limits.Cap(d) - Times(m, ask.Of(d))
  }

  lemma {:induction false} IdenticalCheck(cat: Catalog, store: Store, refs: seq<BucketRef>, ask: Amount, m: nat,
                                          at: real)
    requires FromCatalog(cat, refs) && NoRefill(refs) && ask.NonNegative() && ChargedTimes(cat, store, refs, ask, m)
    ensures Admits(store, refs, ask, at) <==> Fits(refs, ask, m + 1)
    ensures ChargedTimes(cat, Checked(store, refs, ask, at), refs, ask,
                         if Admits(store, refs, ask, at) then m + 1 else m)
  {
    AdmitsByLevels(cat, store, refs, ask, at);
    forall i, d: Dim | 0 <= i < |refs| && refs[i].limits.Enforced(d)
      ensures Level(cat, store, refs[i].key, d, at) >= ask.Of(d) <==> Times(m + 1, ask.Of(d)) <= refs[i].limits.Cap(d)
    {
    }
    if Admits(store, refs, ask, at) {
      forall i, d: Dim, now: real | 0 <= i < |refs| && refs[i].limits.Enforced(d)
        ensures Level(cat, Checked(store, refs, ask, at), refs[i].key, d, now)
                == refs[i].limits.Cap(d) - Times(m + 1, ask.Of(d))
      {
        ChargeOnce(cat, store, refs, ask, m, at, i, d, now);
      }
    }
  }

  lemma {:induction false} ChargeOnce(cat: Catalog, store: Store, refs: seq<BucketRef>, ask: Amount, m: nat, at: real,
                                      i: nat, d: Dim, now: real)
    requires FromCatalog(cat, refs) && NoRefill(refs) && ask.NonNegative() && ChargedTimes(cat, store, refs, ask, m)
    requires Admits(store, refs, ask, at) && i < |refs| && refs[i].limits.Enforced(d)
    ensures Level(cat, Checked(store, refs, ask, at), refs[i].key, d, now)
            == refs[i].limits.Cap(d) - Times(m + 1, ask.Of(d))
  {
    var key, after := refs[i].key, Checked(store, refs, ask, at);
    ChargedBucket(cat, store, refs, ask, at, key, d);
    assert Level(cat, store, key, d, at) == refs[i].limits.Cap(d) - Times(m, ask.Of(d));
    StillLevel(cat[key], d, after[key], now);
    assert Stored(after, key, d) == refs[i].limits.Cap(d) - Times(m + 1, ask.Of(d));
    LevelAfterCheck(cat, store, refs, ask, at, key, d);
  }

  lemma {:induction false} StillLevel(l: Limits, d: Dim, h: Hash, now: real)
    requires l.Enforced(d) && l.Rate(d) == 0.0 && h.Of(d).Some? && h.Of(d).value <= l.Cap(d)
    ensures Balance(l, d, h, now) == h.Of(d).value
  {
  }

  /**
   Exact admission count: on fresh buckets that do not refill, n identical requests, made at any times
   in any order, admit exactly the minimum of n and floor(cap / request) over all enforced dimensions
   with a positive request.
   */
  lemma {:induction false} ExactAdmissionCount(cat: Catalog, refs: seq<BucketRef>, ask: Amount, ops: seq<Op>)
    requires FromCatalog(cat, refs) && NoRefill(refs) && ask.NonNegative() && Repeats(refs, ask, ops)
    ensures Count(map[], ops) == Room(refs, ask, |ops|, |refs|)
  {
    CountIsTight(cat, refs, ask, ops);
    MostThatFit(refs, ask, |ops|, Count(map[], ops));
  }

  lemma {:induction false} MostThatFit(refs: seq<BucketRef>, ask: Amount, n: nat, c: nat)
    requires ask.NonNegative() && c <= n && Fits(refs, ask, c) && (c < n ==> !Fits(refs, ask, c + 1))
    ensures c == Room(refs, ask, n, |refs|)
  {
    assert refs[..|refs|] == refs;
    RoomCounts(refs, ask, n, |refs|, c);
    if c < n {
      RoomCounts(refs, ask, n, |refs|, c + 1);
    }
    RoomAtMost(refs, ask, n, |refs|);
  }

  lemma {:induction false} RoomAtMost(refs: seq<BucketRef>, ask: Amount, n: nat, k: nat)
    requires k <= |refs|
    ensures Room(refs, ask, n, k) <= n
  {
    if k > 0 {
      RoomAtMost(refs, ask, n, k - 1);
    }
  }

  /** Of n identical requests c were admitted, as many as fit, and each bucket has been charged that often. */
  ghost predicate Tight(cat: Catalog, store: Store, refs: seq<BucketRef>, ask: Amount, c: nat, n: nat)
    requires FromCatalog(cat, refs)
  {
    c <= n && Fits(refs, ask, c) && (c < n ==> !Fits(refs, ask, c + 1)) && ChargedTimes(cat, store, refs, ask, c)
  }

  lemma {:induction false} CountIsTight(cat: Catalog, refs: seq<BucketRef>, ask: Amount, ops: seq<Op>)
    requires FromCatalog(cat, refs) && NoRefill(refs) && ask.NonNegative() && Repeats(refs, ask, ops)
    ensures Tight(cat, Run(map[], ops), refs, ask, Count(map[], ops), |ops|)
  {
    TightSoFar(cat, refs, ask, ops, |ops|);
    assert ops[..|ops|] == ops;
  }

  lemma {:induction false} TightSoFar(cat: Catalog, refs: seq<BucketRef>, ask: Amount, ops: seq<Op>, n: nat)
    requires FromCatalog(cat, refs) && NoRefill(refs) && ask.NonNegative() && Repeats(refs, ask, ops) && n <= |ops|
    ensures Tight(cat, Run(map[], ops[..n]), refs, ask, Count(map[], ops[..n]), n)
  {
    if n == 0 {
      NothingCharged(cat, refs, ask);
    } else {
      TightSoFar(cat, refs, ask, ops, n - 1);
      CountGrows(ops, n);
      TightStep(cat, Run(map[], ops[..n - 1]), refs, ask, Count(map[], ops[..n - 1]), n - 1, ops[n - 1].at);
    }
  }

  lemma {:induction false} TightStep(cat: Catalog, store: Store, refs: seq<BucketRef>, ask: Amount, c: nat, n: nat,
                                     at: real)
    requires FromCatalog(cat, refs) && NoRefill(refs) && ask.NonNegative() && Tight(cat, store, refs, ask, c, n)
    ensures Tight(cat, Checked(store, refs, ask, at), refs, ask, if Admits(store, refs, ask, at) then c + 1 else c,
                  n + 1)
  {
    IdenticalCheck(cat, store, refs, ask, c, at);
  }

  lemma {:induction false} CountGrows(ops: seq<Op>, n: nat)
    requires 0 < n <= |ops| && ops[n - 1].Check?
    ensures var before, op := Run(map[], ops[..n - 1]), ops[n - 1];
            var admitted := Admits(before, op.refs, op.ask, op.at);
            && Count(map[], ops[..n]) == (if admitted then Count(map[], ops[..n - 1]) + 1
                                          else Count(map[], ops[..n - 1]))
            && Run(map[], ops[..n]) == Checked(before, op.refs, op.ask, op.at)
  {
    assert ops[..n][..n - 1] == ops[..n - 1];
  }

  lemma {:induction false} NothingCharged(cat: Catalog, refs: seq<BucketRef>, ask: Amount)
    requires FromCatalog(cat, refs)
    ensures ChargedTimes(cat, map[], refs, ask, 0) && Fits(refs, ask, 0)
  {
    forall i, d: Dim, now: real | 0 <= i < |refs| && refs[i].limits.Enforced(d)
      ensures Level(cat, map[], refs[i].key, d, now) == refs[i].limits.Cap(d) - Times(0, ask.Of(d))
    {
      match d case Tokens => case Dollars =>
    }
  }
}
