/**
 How much a bucket dimension can admit inside any window of any run, whatever its stored balance was
 when the window opened.
 */
module Windows {
  import opened Options
  import opened Buckets
  import opened Script
  import opened Config
  import opened Runs

  /** Estimates admitted through one bucket dimension over a run. */
  function Admitted(store: Store, ops: seq<Op>, key: string, d: Dim): real {
    if ops == [] then 0.0
    else
      var front, op := ops[..|ops| - 1], ops[|ops| - 1];
      Admitted(store, front, key, d) + if Accepts(Run(store, front), op) && HasKey(op.refs, key) then op.ask.Of(d)
          else 0.0
  }

  /** Net increments applied to one bucket dimension over a run. */
  function NetCredit(ops: seq<Op>, key: string, d: Dim): real {
    if ops == [] then 0.0
    else
      var op := ops[|ops| - 1];
      NetCredit(ops[..|ops| - 1], key, d) + if op.Credit? && op.key == key && op.dim == d then op.delta else 0.0
  }

  function Stored(store: Store, key: string, d: Dim): real {
    Lookup(store, key).Of(d).GetOr(0.0)
  }

  /** An admitted check leaves the bucket with its observed level less the request, stamped now. */
  lemma {:induction false} ChargedBucket(cat: Catalog, store: Store, refs: seq<BucketRef>, ask: Amount, at: real,
                                         key: string, d: Dim)
    requires FromCatalog(cat, refs) && Admits(store, refs, ask, at) && HasKey(refs, key) && cat[key].Enforced(d)
    ensures var after := Checked(store, refs, ask, at);
            && key in after && HashWhole(after[key], at) && after[key].lastRefill == Some(at)
            && Stored(after, key, d) == Level(cat, store, key, d, at) - ask.Of(d)
            && 0.0 <= Stored(after, key, d) <= cat[key].Cap(d) - ask.Of(d)
  {
    CatalogConsistent(cat, refs);
    CheckedInCommon(store, refs, ask, at, key);
    LevelAfterCheck(cat, store, refs, ask, at, key, d);
    var i :| 0 <= i < |refs| && refs[i].key == key;
    match d case Tokens => case Dollars =>
  }

  /** What is stored plus what has been spent fits in the cap plus everything earned since `start`. */
  ghost predicate Budgeted(cat: Catalog, store: Store, key: string, d: Dim, start: real, spent: real)
    requires key in cat
  {
    && key in store && store[key].Of(d).Some? && store[key].lastRefill.Some?
    && Stored(store, key, d) + spent <= cat[key].Cap(d) + Earned(cat, key, d, store[key].lastRefill.value - start)
  }

  lemma {:induction false} BudgetedAfterCheck(cat: Catalog, store: Store, key: string, d: Dim, start: real,
                                              spent: real, refs: seq<BucketRef>, ask: Amount, at: real)
    requires key in cat && cat[key].Enforced(d) && FromCatalog(cat, refs) && Admits(store, refs, ask, at)
    requires Budgeted(cat, store, key, d, start, spent) && HashWhole(store[key], at)
    ensures Budgeted(cat, Checked(store, refs, ask, at), key, d, start,
                     spent + if HasKey(refs, key) then ask.Of(d) else 0.0)
  {
    if HasKey(refs, key) {
      ChargedBucket(cat, store, refs, ask, at, key, d);
      EarnedAdds(cat, key, d, start, store[key].lastRefill.value, at);
      assert Level(cat, store, key, d, at)
             <= Stored(store, key, d) + Earned(cat, key, d, at - store[key].lastRefill.value);
    } else {
      CatalogConsistent(cat, refs);
      CheckedInCommon(store, refs, ask, at, key);
    }
  }

  lemma {:induction false} EarnedAdds(cat: Catalog, key: string, d: Dim, t0: real, t1: real, t2: real)
    requires key in cat
    ensures Earned(cat, key, d, t2 - t0) == Earned(cat, key, d, t1 - t0) + Earned(cat, key, d, t2 - t1)
  {
    var r := cat[key].Rate(d);
    assert (t2 - t0) * r == (t1 - t0) * r + (t2 - t1) * r;
  }

  lemma {:induction false} BudgetedAfterCredit(cat: Catalog, store: Store, key: string, d: Dim, start: real,
                                               spent: real, k: string, dim: Dim, delta: real)
    requires key in cat && Budgeted(cat, store, key, d, start, spent)
    ensures Budgeted(cat, Credited(store, k, dim, delta), key, d, start,
                     spent - if k == key && dim == d then delta else 0.0)
  {
    match dim case Tokens => case Dollars =>
  }

  /** How much one operation adds to what a bucket dimension has spent. */
  function Outlay(store: Store, op: Op, key: string, d: Dim): real {
    match op
    case Check(refs, ask, _) => if Accepts(store, op) && HasKey(refs, key) then ask.Of(d) else 0.0
    case Credit(k, dim, delta, _) => if k == key && dim == d then -delta else 0.0
  }

  lemma {:induction false} BudgetedStep(cat: Catalog, store: Store, op: Op, key: string, d: Dim, start: real,
                                        spent: real)
    requires key in cat && cat[key].Enforced(d) && Legal(cat, store, op)
    requires Budgeted(cat, store, key, d, start, spent) && HashWhole(store[key], op.at)
    ensures Budgeted(cat, Step(store, op), key, d, start, spent + Outlay(store, op, key, d))
    ensures HashWhole(Step(store, op)[key], op.at)
  {
    match op
    case Check(refs, ask, at) =>
      if Accepts(store, op) {
        BudgetedAfterCheck(cat, store, key, d, start, spent, refs, ask, at);
        HashStaysWhole(cat, store, refs, ask, at, key);
      }
    case Credit(k, dim, delta, _) =>
      BudgetedAfterCredit(cat, store, key, d, start, spent, k, dim, delta);
      match dim case Tokens => case Dollars =>
  }

  lemma {:induction false} HashStaysWhole(cat: Catalog, store: Store, refs: seq<BucketRef>, ask: Amount, at: real,
                                          key: string)
    requires FromCatalog(cat, refs) && Admits(store, refs, ask, at) && key in store && HashWhole(store[key], at)
    ensures key in Checked(store, refs, ask, at) && HashWhole(Checked(store, refs, ask, at)[key], at)
  {
    CatalogConsistent(cat, refs);
    CheckedInCommon(store, refs, ask, at, key);
    if HasKey(refs, key) {
      var i :| 0 <= i < |refs| && refs[i].key == key;
    }
  }

  lemma {:induction false} BudgetHolds(cat: Catalog, store: Store, ops: seq<Op>, key: string, d: Dim)
    requires |ops| > 0 && key in cat && cat[key].Enforced(d)
    requires Timed(ops[0].at, ops) && LegalRun(cat, store, ops)
    requires AcceptedAt(store, ops, 0) && HasKey(ops[0].refs, key)
    ensures Budgeted(cat, Run(store, ops), key, d, ops[0].at, Admitted(store, ops, key, d) - NetCredit(ops, key, d))
    ensures HashWhole(Run(store, ops)[key], Clock(ops[0].at, ops))
  {
    LegalPrefix(cat, store, ops);
    if |ops| == 1 {
      WindowOpens(cat, store, ops, key, d);
    } else {
      var front := ops[..|ops| - 1];
      assert front[..0] == ops[..0];
      BudgetHolds(cat, store, front, key, d);
      WindowGrows(cat, store, ops, key, d);
    }
  }

  lemma {:induction false} WindowGrows(cat: Catalog, store: Store, ops: seq<Op>, key: string, d: Dim)
    requires |ops| > 1 && key in cat && cat[key].Enforced(d) && Timed(ops[0].at, ops)
    requires var front := ops[..|ops| - 1];
             && Legal(cat, Run(store, front), ops[|ops| - 1])
             && Budgeted(cat, Run(store, front), key, d, ops[0].at,
                         Admitted(store, front, key, d) - NetCredit(front, key, d))
             && HashWhole(Run(store, front)[key], Clock(ops[0].at, front))
    ensures Budgeted(cat, Run(store, ops), key, d, ops[0].at, Admitted(store, ops, key, d) - NetCredit(ops, key, d))
    ensures HashWhole(Run(store, ops)[key], Clock(ops[0].at, ops))
  {
    var front, op := ops[..|ops| - 1], ops[|ops| - 1];
    SpentGrows(store, ops, key, d);
    BudgetedStep(cat, Run(store, front), op, key, d, ops[0].at,
                 Admitted(store, front, key, d) - NetCredit(front, key, d));
  }

  lemma {:induction false} SpentGrows(store: Store, ops: seq<Op>, key: string, d: Dim)
    requires |ops| > 0
    ensures var front, op := ops[..|ops| - 1], ops[|ops| - 1];
            Admitted(store, ops, key, d) - NetCredit(ops, key, d)
            == Admitted(store, front, key, d) - NetCredit(front, key, d) + Outlay(Run(store, front), op, key, d)
  {
  }

  lemma {:induction false} WindowOpens(cat: Catalog, store: Store, ops: seq<Op>, key: string, d: Dim)
    requires |ops| == 1 && key in cat && cat[key].Enforced(d) && LegalRun(cat, store, ops)
    requires AcceptedAt(store, ops, 0) && HasKey(ops[0].refs, key)
    ensures Budgeted(cat, Run(store, ops), key, d, ops[0].at, Admitted(store, ops, key, d) - NetCredit(ops, key, d))
    ensures HashWhole(Run(store, ops)[key], ops[0].at)
  {
    var op := ops[0];
    assert ops[..0] == [] && Legal(cat, Run(store, ops[..0]), op);
    assert Run(store, ops) == Step(store, op);
    ChargedBucket(cat, store, op.refs, op.ask, op.at, key, d);
    assert Admitted(store, ops[..0], key, d) == 0.0 == NetCredit(ops[..0], key, d);
    assert Admitted(store, ops, key, d) - NetCredit(ops, key, d) == op.ask.Of(d);
    NothingEarned(cat, key, d);
  }

  lemma {:induction false} NothingEarned(cat: Catalog, key: string, d: Dim)
    requires key in cat
    ensures Earned(cat, key, d, 0.0) == 0.0
  {
  }

  /**
   Burst bound: between an accepted check and a later one, both included, the admitted estimates sum to
   at most the cap, plus the refill of the time between, plus the net increments applied between. The
   store the window opens on is arbitrary, so this covers every sub-window of every run, even one that
   opens with a balance pushed above the cap.
   */
  lemma {:induction false} BurstBound(cat: Catalog, store: Store, ops: seq<Op>, key: string, d: Dim)
    requires |ops| > 0 && key in cat && cat[key].Enforced(d)
    requires Timed(ops[0].at, ops) && LegalRun(cat, store, ops)
    requires AcceptedAt(store, ops, 0) && HasKey(ops[0].refs, key)
    requires AcceptedAt(store, ops, |ops| - 1) && HasKey(ops[|ops| - 1].refs, key)
    ensures Admitted(store, ops, key, d)
            <= cat[key].Cap(d) + Earned(cat, key, d, ops[|ops| - 1].at - ops[0].at) + NetCredit(ops, key, d)
  {
    BudgetHolds(cat, store, ops, key, d);
    LastCharge(cat, store, ops, key, d);
  }

  /** A run that ends with an accepted check leaves its buckets stamped then, and not in debt. */
  lemma {:induction false} LastCharge(cat: Catalog, store: Store, ops: seq<Op>, key: string, d: Dim)
    requires |ops| > 0 && key in cat && cat[key].Enforced(d) && LegalRun(cat, store, ops)
    requires AcceptedAt(store, ops, |ops| - 1) && HasKey(ops[|ops| - 1].refs, key)
    ensures var after := Run(store, ops);
            key in after && after[key].lastRefill == Some(ops[|ops| - 1].at) && Stored(after, key, d) >= 0.0
  {
    var front, op := ops[..|ops| - 1], ops[|ops| - 1];
    LegalPrefix(cat, store, ops);
    ChargedBucket(cat, Run(store, front), op.refs, op.ask, op.at, key, d);
  }
}
