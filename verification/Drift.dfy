/**
 The reconciliation job: drift between what the gateway observed and what a provider reports, per
 tenant, and the mock provider that stands in when no real one is configured. The hash of account and
 window enters only as a fraction per account.
 */
module Drift {
  import opened Buckets

  datatype TenantDrift = TenantDrift(tenant: string, observed: real, reported: real, amount: real, pct: real,
                                     exceeds: bool)

  datatype Report = Report(detected: bool, total: real, perTenant: seq<TenantDrift>)

  /** One entry of the observed-spend dictionary, in its iteration order. */
  datatype Item = Item(tenant: string, observed: real)

  function DetectDrift(tenant: string, observed: real, reported: real, threshold: real): TenantDrift {
    var amount := observed - reported;
    var pct := if reported == 0.0 then (if observed != 0.0 then 1.0 else 0.0) else Abs(amount) / reported;
    TenantDrift(tenant, observed, reported, amount, pct, pct > threshold)
  }

  function DriftOf(x: Item, lookup: string -> real, threshold: real): TenantDrift {
    DetectDrift(x.tenant, x.observed, lookup(x.tenant), threshold)
  }

  function Drifts(items: seq<Item>, lookup: string -> real, threshold: real): (ds: seq<TenantDrift>)
    ensures |ds| == |items| && forall i :: 0 <= i < |items| ==> ds[i] == DriftOf(items[i], lookup, threshold)
  {
    seq(|items|, i requires 0 <= i < |items| => DriftOf(items[i], lookup, threshold))
  }

  /** Total absolute drift over the tenants that exceed the threshold. */
  function Flagged(items: seq<Item>, lookup: string -> real, threshold: real): real {
    if items == [] then 0.0
    else
      var d := DriftOf(items[|items| - 1], lookup, threshold);
      Flagged(items[..|items| - 1], lookup, threshold) + if d.exceeds then Abs(d.amount) else 0.0
  }

  /** Drift, without dividing: the share of a positive report that is missing or too much, or all of a zero one. */
  lemma {:induction false} DriftExactly(tenant: string, observed: real, reported: real, threshold: real)
    ensures var d := DetectDrift(tenant, observed, reported, threshold);
            && d.amount == observed - reported
            && (reported > 0.0 ==> d.pct * reported == if observed >= reported then observed - reported
                else reported - observed)
            && (reported == 0.0 ==> d.pct == if observed == 0.0 then 0.0 else 1.0)
            && (d.exceeds <==> d.pct > threshold)
  {
    if reported > 0.0 {
      var pct := Abs(observed - reported) / reported;
      assert pct * reported == Abs(observed - reported);
    }
  }

  /** The total, from its parts: nothing of no tenants, one tenant's absolute drift if it exceeds, and sums of both. */
  lemma {:induction false} TotalExactly(a: seq<Item>, b: seq<Item>, x: Item, lookup: string -> real, threshold: real)
    ensures Flagged([], lookup, threshold) == 0.0
    ensures var d := DetectDrift(x.tenant, x.observed, lookup(x.tenant), threshold);
            Flagged([x], lookup, threshold)
            == if !d.exceeds then 0.0 else if d.amount < 0.0 then -d.amount else d.amount
    ensures Flagged(a + b, lookup, threshold) == Flagged(a, lookup, threshold) + Flagged(b, lookup, threshold)
  {
    assert [x][..0] == [];
    assert Flagged([x][..0], lookup, threshold) == 0.0;
    FlaggedConcat(a, b, lookup, threshold);
  }

  method ReconcileWindow(items: seq<Item>, lookup: string -> real, threshold: real) returns (r: Report)
    ensures r.perTenant == Drifts(items, lookup, threshold)
    ensures r.detected <==> exists i :: 0 <= i < |items| && DriftOf(items[i], lookup, threshold).exceeds
    ensures r.total == Flagged(items, lookup, threshold)
    ensures |r.perTenant| == |items|
    ensures forall i :: 0 <= i < |items| ==>
              && r.perTenant[i].tenant == items[i].tenant && r.perTenant[i].observed == items[i].observed
              && r.perTenant[i].reported == lookup(items[i].tenant)
              && r.perTenant[i].amount == items[i].observed - lookup(items[i].tenant)
  {
    var perTenant: seq<TenantDrift>, total, anyExceeded := [], 0.0, false;
    for i := 0 to |items|
      invariant |perTenant| == i && forall j :: 0 <= j < i ==> perTenant[j] == DriftOf(items[j], lookup, threshold)
      invariant anyExceeded <==> exists j :: 0 <= j < i && DriftOf(items[j], lookup, threshold).exceeds
      invariant total == Flagged(items[..i], lookup, threshold)
    {
      var reported := lookup(items[i].tenant);
      var drift := DetectDrift("", items[i].observed, reported, threshold);
      drift := drift.(tenant := items[i].tenant);
      perTenant := perTenant + [drift];
      assert items[..i + 1][..i] == items[..i];
      assert drift == DriftOf(items[i], lookup, threshold);
      if drift.exceeds {
        anyExceeded := true;
        total := total + Abs(drift.amount);
      }
    }
    assert items[..|items|] == items;
    r := Report(anyExceeded, total, perTenant);
  }

  ghost predicate Detected(items: seq<Item>, lookup: string -> real, threshold: real) {
    exists i :: 0 <= i < |items| && DriftOf(items[i], lookup, threshold).exceeds
  }

  lemma {:induction false} FlaggedIsPositive(x: Item, lookup: string -> real, threshold: real)
    requires lookup(x.tenant) >= 0.0 && threshold >= 0.0 && DriftOf(x, lookup, threshold).exceeds
    ensures Abs(DriftOf(x, lookup, threshold).amount) > 0.0
  {
  }

  /** With non-negative reports and threshold, drift is detected exactly when the total drift is positive. */
  lemma {:induction false} DetectedIffPositive(items: seq<Item>, lookup: string -> real, threshold: real)
    requires threshold >= 0.0 && forall i :: 0 <= i < |items| ==> lookup(items[i].tenant) >= 0.0
    ensures Flagged(items, lookup, threshold) >= 0.0
    ensures Detected(items, lookup, threshold) <==> Flagged(items, lookup, threshold) > 0.0
  {
    if items != [] {
      var front, last := items[..|items| - 1], items[|items| - 1];
      DetectedIffPositive(front, lookup, threshold);
      DetectedSplits(items, lookup, threshold);
      if DriftOf(last, lookup, threshold).exceeds {
        FlaggedIsPositive(last, lookup, threshold);
      }
    }
  }

  lemma {:induction false} DetectedSplits(items: seq<Item>, lookup: string -> real, threshold: real)
    requires items != []
    ensures Detected(items, lookup, threshold) <==>
            Detected(items[..|items| - 1], lookup, threshold) || DriftOf(items[|items| - 1], lookup, threshold).exceeds
  {
    var front := items[..|items| - 1];
    if Detected(front, lookup, threshold) {
      var i :| 0 <= i < |front| && DriftOf(front[i], lookup, threshold).exceeds;
      assert items[i] == front[i];
    }
    if Detected(items, lookup, threshold) {
      var i :| 0 <= i < |items| && DriftOf(items[i], lookup, threshold).exceeds;
      assert i < |front| ==> front[i] == items[i];
    }
  }

  lemma {:induction false} FlaggedConcat(a: seq<Item>, b: seq<Item>, lookup: string -> real, threshold: real)
    ensures Flagged(a + b, lookup, threshold) == Flagged(a, lookup, threshold) + Flagged(b, lookup, threshold)
  {
    if b == [] {
      assert a + b == a;
    } else {
      assert (a + b)[..|a + b| - 1] == a + b[..|b| - 1];
      FlaggedConcat(a, b[..|b| - 1], lookup, threshold);
    }
  }

  function Without(items: seq<Item>, i: nat): (r: seq<Item>)
    requires i < |items|
    ensures |r| == |items| - 1
    ensures multiset(r) + multiset{items[i]} == multiset(items)
  {
    assert items == items[..i] + [items[i]] + items[i + 1..];
    items[..i] + items[i + 1..]
  }

  lemma {:induction false} RemoveOne(items: seq<Item>, i: nat, lookup: string -> real, threshold: real)
    requires i < |items|
    ensures Flagged(items, lookup, threshold)
            == Flagged(Without(items, i), lookup, threshold) + Flagged([items[i]], lookup, threshold)
  {
    var before, x, after := items[..i], [items[i]], items[i + 1..];
    assert items == before + (x + after);
    FlaggedConcat(before, x + after, lookup, threshold);
    FlaggedConcat(x, after, lookup, threshold);
    FlaggedConcat(before, after, lookup, threshold);
  }

  lemma {:induction false} SameRest(m: multiset<Item>, n: multiset<Item>, x: Item)
    requires m + multiset{x} == n + multiset{x}
    ensures m == n
  {
    assert m == (m + multiset{x}) - multiset{x};
    assert n == (n + multiset{x}) - multiset{x};
  }

  /** The total does not depend on the order of the tenants. */
  lemma {:induction false} TotalIgnoresOrder(a: seq<Item>, b: seq<Item>, lookup: string -> real, threshold: real)
    requires multiset(a) == multiset(b)
    ensures Flagged(a, lookup, threshold) == Flagged(b, lookup, threshold)
    decreases |a|
  {
    if a == [] {
      assert |multiset(b)| == 0;
    } else {
      var x := a[0];
      assert x in multiset(a) && x in multiset(b);
      var i :| 0 <= i < |b| && b[i] == x;
      RemoveOne(a, 0, lookup, threshold);
      RemoveOne(b, i, lookup, threshold);
      SameRest(multiset(Without(a, 0)), multiset(Without(b, i)), x);
      TotalIgnoresOrder(Without(a, 0), Without(b, i), lookup, threshold);
    }
  }

  /** Nor does the verdict. */
  lemma {:induction false} DetectionIgnoresOrder(a: seq<Item>, b: seq<Item>, lookup: string -> real, threshold: real)
    requires multiset(a) == multiset(b) && Detected(a, lookup, threshold)
    ensures Detected(b, lookup, threshold)
  {
    var i :| 0 <= i < |a| && DriftOf(a[i], lookup, threshold).exceeds;
    assert a[i] in multiset(a) && a[i] in multiset(b);
    var j :| 0 <= j < |b| && b[j] == a[i];
  }

  ghost predicate DistinctTenants(items: seq<Item>) {
    forall i, j :: 0 <= i < j < |items| ==> items[i].tenant != items[j].tenant
  }

  /** The index of the first largest spender, as Python's max over a dictionary picks it. */
  method LargestSpender(items: seq<Item>) returns (best: nat)
    requires items != []
    ensures IsLargest(items, best)
  {
    best := 0;
    for i := 1 to |items|
      invariant best < i && (forall j :: 0 <= j < i ==> items[j].observed <= items[best].observed)
      invariant forall j :: 0 <= j < best ==> items[j].observed < items[best].observed
    {
      if items[i].observed > items[best].observed {
        best := i;
      }
    }
  }

  ghost predicate IsLargest(items: seq<Item>, best: nat) {
    && best < |items|
    && (forall j :: 0 <= j < |items| ==> items[j].observed <= items[best].observed)
    && (forall j :: 0 <= j < best ==> items[j].observed < items[best].observed)
  }

  /** The observed spend of an account, zero when it has none. */
  function Reference(items: seq<Item>, account: string): real {
    if items == [] then 0.0
    else if items[0].tenant == account then items[0].observed
    else Reference(items[1..], account)
  }

  function Perturbation(account: string, anomalous: string, fraction: real): real {
    if account == anomalous then 0.08 + fraction * 0.07 else fraction * 0.03
  }

  function MockReported(items: seq<Item>, anomalous: string, fraction: string -> real, account: string): real {
    var reference := Reference(items, account);
    if reference == 0.0 then 0.0 else reference * (1.0 - Perturbation(account, anomalous, fraction(account)))
  }

  function MockLookup(items: seq<Item>, anomalous: string, fraction: string -> real): string -> real {
    account => MockReported(items, anomalous, fraction, account)
  }

  /** What the mock reports: the reference less 8 to 15 percent for the anomalous account, up to 3 for others. */
  lemma {:induction false} ReportedExactly(items: seq<Item>, anomalous: string, fraction: string -> real, i: nat)
    requires DistinctTenants(items) && i < |items|
    ensures var f := fraction(items[i].tenant);
            MockReported(items, anomalous, fraction, items[i].tenant)
            == if items[i].tenant == anomalous then items[i].observed * (1.0 - (0.08 + f * 0.07))
               else items[i].observed * (1.0 - f * 0.03)
  {
    ReferenceAt(items, i);
  }

  lemma {:induction false} ReferenceAt(items: seq<Item>, i: nat)
    requires DistinctTenants(items) && i < |items|
    ensures Reference(items, items[i].tenant) == items[i].observed
  {
    if i > 0 {
      assert items[1..][i - 1] == items[i];
      assert DistinctTenants(items[1..]);
      ReferenceAt(items[1..], i - 1);
    }
  }

  /** A positive spend reported with a share p missing drifts by p/(1-p) of the report. */
  lemma {:induction false} ShareMissing(observed: real, p: real, threshold: real)
    requires observed > 0.0 && 0.0 <= p < 1.0
    ensures var d := DetectDrift("", observed, observed * (1.0 - p), threshold);
            d.amount == observed * p && (d.exceeds <==> p > threshold * (1.0 - p))
  {
    var reported := observed * (1.0 - p);
    var q := 1.0 - p;
    assert observed * q > 0.0;
    assert observed - reported == observed * p;
    assert observed * p >= 0.0;
    Ratio(observed, p, q);
    Threshold(p, q, threshold);
  }

  lemma {:induction false} Ratio(x: real, p: real, q: real)
    requires x > 0.0 && q > 0.0
    ensures x * q > 0.0 && (x * p) / (x * q) == p / q
  {
    assert x * q > 0.0;
    var r := p / q;
    assert r * q == p;
    assert r * (x * q) == x * p;
  }

  lemma {:induction false} Threshold(p: real, q: real, t: real)
    requires q > 0.0
    ensures p / q > t <==> p > t * q
  {
    var r := p / q;
    assert r * q == p;
    if r > t {
      assert (r - t) * q > 0.0;
    } else {
      assert (t - r) * q >= 0.0;
    }
  }

  lemma {:induction false} PerturbationBounds(account: string, anomalous: string, f: real)
    requires 0.0 <= f <= 1.0
    ensures var p := Perturbation(account, anomalous, f);
            if account == anomalous then 0.08 <= p <= 0.15 else 0.0 <= p <= 0.03
  {
  }

  /**
   One tenant under the mock: for any threshold from 3/97 up to (but not including) 8/92, the default 5%
   among them, only the anomalous tenant is flagged, and only if it spent anything.
   */
  lemma {:induction false} MockFlags(items: seq<Item>, anomalous: string, fraction: string -> real, threshold: real,
                                     i: nat)
    requires DistinctTenants(items) && i < |items| && items[i].observed >= 0.0
             && 0.0 <= fraction(items[i].tenant) <= 1.0
    requires 0.03 <= threshold * 0.97 && threshold * 0.92 < 0.08
    ensures var d := DriftOf(items[i], MockLookup(items, anomalous, fraction), threshold);
            d.exceeds <==> items[i].tenant == anomalous && items[i].observed > 0.0
  {
    var x := items[i];
    PerturbationBounds(x.tenant, anomalous, fraction(x.tenant));
    Separates(Perturbation(x.tenant, anomalous, fraction(x.tenant)), threshold);
    MockExceeds(items, anomalous, fraction, threshold, i);
  }

  /** The threshold lies between what the two kinds of perturbation drift by. */
  lemma {:induction false} Separates(p: real, threshold: real)
    requires 0.03 <= threshold * 0.97 && threshold * 0.92 < 0.08
    ensures threshold >= 0.0
    ensures 0.08 <= p <= 0.15 ==> p > threshold * (1.0 - p)
    ensures 0.0 <= p <= 0.03 ==> p <= threshold * (1.0 - p)
  {
    if 0.08 <= p <= 0.15 {
      Shrink(threshold, 1.0 - p, 0.92);
    } else if 0.0 <= p <= 0.03 {
      Shrink(threshold, 0.97, 1.0 - p);
    }
  }

  /** Under the mock an account exceeds the threshold by its perturbation alone, if it spent anything. */
  lemma {:induction false} MockExceeds(items: seq<Item>, anomalous: string, fraction: string -> real, threshold: real,
                                       i: nat)
    requires DistinctTenants(items) && i < |items| && items[i].observed >= 0.0 && threshold >= 0.0
    requires 0.0 <= Perturbation(items[i].tenant, anomalous, fraction(items[i].tenant)) < 1.0
    ensures var p := Perturbation(items[i].tenant, anomalous, fraction(items[i].tenant));
            DriftOf(items[i], MockLookup(items, anomalous, fraction), threshold).exceeds
            <==> items[i].observed > 0.0 && p > threshold * (1.0 - p)
  {
    ReferenceAt(items, i);
    if items[i].observed > 0.0 {
      ShareMissing(items[i].observed, Perturbation(items[i].tenant, anomalous, fraction(items[i].tenant)), threshold);
    }
  }

  lemma {:induction false} Shrink(t: real, a: real, b: real)
    requires t * 0.97 >= 0.0 && a <= b
    ensures t * a <= t * b
  {
    assert t >= 0.0;
    assert t * (b - a) >= 0.0;
  }

  /** Only one term of the total is not zero. */
  lemma {:induction false} FlaggedSingle(items: seq<Item>, lookup: string -> real, threshold: real, best: nat)
    requires best < |items| && DriftOf(items[best], lookup, threshold).exceeds
    requires forall i :: 0 <= i < |items| && i != best ==> !DriftOf(items[i], lookup, threshold).exceeds
    ensures Flagged(items, lookup, threshold) == Abs(DriftOf(items[best], lookup, threshold).amount)
  {
    var n := |items| - 1;
    if best < n {
      FlaggedSingle(items[..n], lookup, threshold, best);
    } else {
      FlaggedNone(items[..n], lookup, threshold);
    }
  }

  lemma {:induction false} FlaggedNone(items: seq<Item>, lookup: string -> real, threshold: real)
    requires forall i :: 0 <= i < |items| ==> !DriftOf(items[i], lookup, threshold).exceeds
    ensures Flagged(items, lookup, threshold) == 0.0
  {
    if items != [] {
      FlaggedNone(items[..|items| - 1], lookup, threshold);
    }
  }

  const DEFAULT_DRIFT_THRESHOLD := 0.05

  /** Inputs of the mock pipeline: distinct tenants, non-negative spends, fractions in [0, 1]. */
  ghost predicate MockInputs(items: seq<Item>, fraction: string -> real) {
    && DistinctTenants(items)
    && forall i :: 0 <= i < |items| ==> items[i].observed >= 0.0 && 0.0 <= fraction(items[i].tenant) <= 1.0
  }

  /**
   The mock flags exactly one tenant: at the default threshold, for any non-negative spends with a
   positive maximum and any fractions in [0, 1], the first largest spender is flagged and nobody else.
   */
  lemma {:induction false} MockFlagsExactlyTheLargest(items: seq<Item>, best: nat, fraction: string -> real, i: nat)
    requires MockInputs(items, fraction) && IsLargest(items, best) && items[best].observed > 0.0 && i < |items|
    ensures DriftOf(items[i], MockLookup(items, items[best].tenant, fraction), DEFAULT_DRIFT_THRESHOLD).exceeds
            <==> i == best
  {
    MockFlags(items, items[best].tenant, fraction, DEFAULT_DRIFT_THRESHOLD, i);
    assert i < best ==> items[i].tenant != items[best].tenant;
  }

  ghost predicate OnlyOneFlagged(items: seq<Item>, lookup: string -> real, threshold: real, best: nat) {
    && best < |items|
    && forall i :: 0 <= i < |items| ==> (DriftOf(items[i], lookup, threshold).exceeds <==> i == best)
  }

  lemma {:induction false} MockFlagsOne(items: seq<Item>, best: nat, fraction: string -> real)
    requires MockInputs(items, fraction) && IsLargest(items, best) && items[best].observed > 0.0
    ensures OnlyOneFlagged(items, MockLookup(items, items[best].tenant, fraction), DEFAULT_DRIFT_THRESHOLD, best)
  {
    forall i | 0 <= i < |items|
      ensures DriftOf(items[i], MockLookup(items, items[best].tenant, fraction), DEFAULT_DRIFT_THRESHOLD).exceeds
              <==> i == best
    {
      MockFlagsExactlyTheLargest(items, best, fraction, i);
    }
  }

  /** So the total drift is that tenant's drift, */
  lemma {:induction false} MockTotal(items: seq<Item>, best: nat, fraction: string -> real)
    requires MockInputs(items, fraction) && IsLargest(items, best) && items[best].observed > 0.0
    ensures var lookup := MockLookup(items, items[best].tenant, fraction);
            Flagged(items, lookup, DEFAULT_DRIFT_THRESHOLD)
                == Abs(DriftOf(items[best], lookup, DEFAULT_DRIFT_THRESHOLD).amount)
  {
    MockFlagsOne(items, best, fraction);
    FlaggedSingle(items, MockLookup(items, items[best].tenant, fraction), DEFAULT_DRIFT_THRESHOLD, best);
  }

  /** which is its spend times its perturbation. */
  lemma {:induction false} MockAmount(items: seq<Item>, anomalous: string, fraction: string -> real, i: nat)
    requires MockInputs(items, fraction) && i < |items| && items[i].observed > 0.0
    ensures Abs(DriftOf(items[i], MockLookup(items, anomalous, fraction), DEFAULT_DRIFT_THRESHOLD).amount)
            == items[i].observed * Perturbation(items[i].tenant, anomalous, fraction(items[i].tenant))
  {
    ReferenceAt(items, i);
    var p, x := Perturbation(items[i].tenant, anomalous, fraction(items[i].tenant)), items[i].observed;
    PerturbationBounds(items[i].tenant, anomalous, fraction(items[i].tenant));
    assert x - x * (1.0 - p) == x * p;
    assert x * p >= 0.0;
  }
}
