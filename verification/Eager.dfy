/**
 A bucket kept by an imaginary background worker: it credits and clamps at every instant, so its
 state is the balance itself and no timestamp is needed. The lazy buckets of the script refine it.
 */
module EagerBuckets {
  import opened Buckets
  import opened Script
  import opened Config
  import opened Runs

  type Levels = map<string, Funds>

  datatype Eager = Eager(levels: Levels, clock: real)

  function Tick(l: Limits, d: Dim, x: real, dt: real): real {
    if l.Enforced(d) then Min(x + dt * l.Rate(d), l.Cap(d)) else x
  }

  function TickFunds(l: Limits, f: Funds, dt: real): Funds {
    Funds(Tick(l, Tokens, f.tokens, dt), Tick(l, Dollars, f.usd, dt))
  }

  ghost predicate Covering(cat: Catalog, levels: Levels) {
    levels.Keys == cat.Keys
  }

  function Grown(cat: Catalog, levels: Levels, dt: real): Levels
    requires levels.Keys == cat.Keys
  {
    map k | k in levels :: TickFunds(cat[k], levels[k], dt)
  }

  /** Ticking once or in any number of smaller steps is the same, so "at every instant" is well defined. */
  function Ticks(l: Limits, d: Dim, x: real, dts: seq<real>): real {
    if dts == [] then x else Tick(l, d, Ticks(l, d, x, dts[..|dts| - 1]), dts[|dts| - 1])
  }

  function Total(dts: seq<real>): real {
    if dts == [] then 0.0 else Total(dts[..|dts| - 1]) + dts[|dts| - 1]
  }

  lemma {:induction false} TicksAreOne(l: Limits, d: Dim, x: real, dts: seq<real>)
    requires l.Enforced(d) && l.Rate(d) >= 0.0 && x <= l.Cap(d)
    requires forall i :: 0 <= i < |dts| ==> dts[i] >= 0.0
    ensures Total(dts) >= 0.0
    ensures Ticks(l, d, x, dts) == Tick(l, d, x, Total(dts))
  {
    if dts != [] {
      var front, last := dts[..|dts| - 1], dts[|dts| - 1];
      TicksAreOne(l, d, x, front);
      TickTwice(l, d, x, Total(front), last);
    }
  }

  lemma {:induction false} TickTwice(l: Limits, d: Dim, x: real, a: real, b: real)
    requires l.Enforced(d) && l.Rate(d) >= 0.0 && x <= l.Cap(d) && a >= 0.0 && b >= 0.0
    ensures Tick(l, d, Tick(l, d, x, a), b) == Tick(l, d, x, a + b)
  {
    var r := l.Rate(d);
    assert (a + b) * r == a * r + b * r;
    Product(b, r);
  }

  lemma {:induction false} Product(x: real, y: real)
    requires x >= 0.0 && y >= 0.0
    ensures x * y >= 0.0
  {
  }

  function Spend(levels: Levels, refs: seq<BucketRef>, ask: Amount): Levels {
    map k | k in levels :: if HasKey(refs, k)
        then Funds(levels[k].tokens - ask.Of(Tokens), levels[k].usd - ask.Of(Dollars)) else levels[k]
  }

  function Top(l: Limits, f: Funds, d: Dim, delta: real): Funds {
    match d
    case Tokens => f.(tokens := Min(f.tokens + delta, l.tokenLimit as real))
    case Dollars => f.(usd := Min(f.usd + delta, l.dollarLimit))
  }

  ghost function Advance(cat: Catalog, e: Eager, at: real): Eager
    requires Covering(cat, e.levels)
  {
    Eager(Grown(cat, e.levels, at - e.clock), at)
  }

  /** An operation at the eager clock; a check is charged when `commit` says so. */
  ghost function Committed(cat: Catalog, now: Eager, op: Op, commit: bool): (r: Eager)
    requires Covering(cat, now.levels) && (op.Credit? ==> op.key in cat)
    ensures Covering(cat, r.levels) && r.clock == now.clock
  {
    match op
    case Check(refs, ask, _) => if commit then now.(levels := Spend(now.levels, refs, ask)) else now
    case Credit(key, dim, delta, _) => now.(levels := now.levels[key := Top(cat[key], now.levels[key], dim, delta)])
  }

  ghost function EagerStep(cat: Catalog, e: Eager, op: Op, commit: bool): (r: Eager)
    requires Covering(cat, e.levels) && (op.Credit? ==> op.key in cat)
    ensures Covering(cat, r.levels) && r.clock == op.at
  {
    Committed(cat, Advance(cat, e, op.at), op, commit)
  }

  /** The eager worker's own verdict on a check: the same judgement, over its own balances. */
  ghost function EagerAnswer(cat: Catalog, e: Eager, refs: seq<BucketRef>, ask: Amount, at: real): Verdict
    requires Covering(cat, e.levels) && FromCatalog(cat, refs)
  {
    var now := Advance(cat, e, at);
    Judge(refs, seq(|refs|, i requires 0 <= i < |refs| => now.levels[refs[i].key]), ask)
  }

  ghost predicate Known(cat: Catalog, ops: seq<Op>) {
    forall i :: 0 <= i < |ops| ==> Knows(cat, ops[i])
  }

  ghost predicate Knows(cat: Catalog, op: Op) {
    match op
    case Check(refs, _, _) => FromCatalog(cat, refs)
    case Credit(key, _, _, _) => key in cat
  }

  /** The eager buckets made to commit exactly what the lazy store commits. */
  ghost function Follow(cat: Catalog, e: Eager, store: Store, ops: seq<Op>): (r: Eager)
    requires Covering(cat, e.levels) && Known(cat, ops)
    ensures Covering(cat, r.levels) && r.clock == if ops == [] then e.clock else ops[|ops| - 1].at
  {
    if ops == [] then e
    else
      var front := ops[..|ops| - 1];
      EagerStep(cat, Follow(cat, e, store, front), ops[|ops| - 1], Accepts(Run(store, front), ops[|ops| - 1]))
  }

  /** The eager buckets deciding for themselves. */
  ghost function Own(cat: Catalog, e: Eager, ops: seq<Op>): (r: Eager)
    requires Covering(cat, e.levels) && Known(cat, ops)
    ensures Covering(cat, r.levels)
  {
    if ops == [] then e
    else
      var before, op := Own(cat, e, ops[..|ops| - 1]), ops[|ops| - 1];
      EagerStep(cat, before, op, op.Check? && EagerAnswer(cat, before, op.refs, op.ask, op.at).Allowed?)
  }

  /** Total debited from one bucket dimension by negative increments. */
  function Debited(ops: seq<Op>, key: string, d: Dim): (r: real)
    ensures r >= 0.0
  {
    if ops == [] then 0.0
    else
      var op := ops[|ops| - 1];
      Debited(ops[..|ops| - 1], key, d)
      + if op.Credit? && op.key == key && op.dim == d && op.delta < 0.0 then -op.delta else 0.0
  }

  /** The eager level is never above the lazy one, and below it by at most `slack(k, d)`. */
  ghost predicate Within(cat: Catalog, e: Eager, store: Store, ops: seq<Op>) {
    && Covering(cat, e.levels)
    && forall k, d: Dim :: k in cat && cat[k].Enforced(d) ==>
         e.levels[k].Of(d) <= Level(cat, store, k, d, e.clock) <= e.levels[k].Of(d) + Debited(ops, k, d)
  }

  lemma {:induction false} WithinLater(cat: Catalog, e: Eager, store: Store, ops: seq<Op>, at: real)
    requires Refilling(cat) && Whole(store, e.clock) && e.clock <= at && Within(cat, e, store, ops)
    ensures Within(cat, Advance(cat, e, at), store, ops)
  {
    forall k, d: Dim | k in cat && cat[k].Enforced(d)
      ensures var x := Advance(cat, e, at).levels[k].Of(d); x <= Level(cat, store, k, d, at) <= x + Debited(ops, k, d)
    {
      WithinLaterAt(cat, e, store, at, k, d, Debited(ops, k, d));
    }
  }

  lemma {:induction false} WithinLaterAt(cat: Catalog, e: Eager, store: Store, at: real, k: string, d: Dim, slack: real)
    requires Refilling(cat) && Whole(store, e.clock) && e.clock <= at && Covering(cat, e.levels) && k in cat
             && cat[k].Enforced(d)
    requires slack >= 0.0 && e.levels[k].Of(d) <= Level(cat, store, k, d, e.clock) <= e.levels[k].Of(d) + slack
    ensures var x := Advance(cat, e, at).levels[k].Of(d); x <= Level(cat, store, k, d, at) <= x + slack
  {
    LevelAdvances(cat, store, k, d, e.clock, at);
    AdvanceAt(cat, e, at, k, d);
    TickBrackets(e.levels[k].Of(d), Level(cat, store, k, d, e.clock), slack, Earned(cat, k, d, at - e.clock),
                 Cap(cat, k, d));
  }

  lemma {:induction false} AdvanceAt(cat: Catalog, e: Eager, at: real, k: string, d: Dim)
    requires Covering(cat, e.levels) && k in cat && cat[k].Enforced(d)
    ensures Advance(cat, e, at).levels[k].Of(d)
            == Min(e.levels[k].Of(d) + Earned(cat, k, d, at - e.clock), Cap(cat, k, d))
  {
    assert Advance(cat, e, at).levels[k] == TickFunds(cat[k], e.levels[k], at - e.clock);
    match d
    case Tokens =>
      assert Earned(cat, k, Tokens, at - e.clock) == (at - e.clock) * cat[k].Rate(Tokens);
    case Dollars =>
      assert Earned(cat, k, Dollars, at - e.clock) == (at - e.clock) * cat[k].Rate(Dollars);
  }

  lemma {:induction false} TickBrackets(x: real, y: real, slack: real, earned: real, cap: real)
    requires slack >= 0.0 && x <= y <= x + slack
    ensures Min(x + earned, cap) <= Min(y + earned, cap) <= Min(x + earned, cap) + slack
  {
  }

  lemma {:induction false} WithinStep(cat: Catalog, e: Eager, store: Store, ops: seq<Op>, op: Op)
    requires Refilling(cat) && Whole(store, e.clock) && e.clock <= op.at && Within(cat, e, store, ops)
             && Legal(cat, store, op)
    ensures Within(cat, EagerStep(cat, e, op, Accepts(store, op)), Step(store, op), ops + [op])
  {
    WithinLater(cat, e, store, ops, op.at);
    var after, next := Step(store, op), EagerStep(cat, e, op, Accepts(store, op));
    forall k, d: Dim | k in cat && cat[k].Enforced(d)
      ensures next.levels[k].Of(d) <= Level(cat, after, k, d, op.at) <= next.levels[k].Of(d) + Debited(ops + [op], k, d)
    {
      WithinStepAt(cat, Advance(cat, e, op.at), store, ops, op, k, d);
    }
  }

  lemma {:induction false} WithinStepAt(cat: Catalog, now: Eager, store: Store, ops: seq<Op>, op: Op, k: string, d: Dim)
    requires Whole(store, op.at) && now.clock == op.at && Legal(cat, store, op)
    requires Covering(cat, now.levels) && k in cat && cat[k].Enforced(d)
    requires now.levels[k].Of(d) <= Level(cat, store, k, d, op.at) <= now.levels[k].Of(d) + Debited(ops, k, d)
    ensures var next := Committed(cat, now, op, Accepts(store, op));
            next.levels[k].Of(d) <= Level(cat, Step(store, op), k, d, op.at)
                <= next.levels[k].Of(d) + Debited(ops + [op], k, d)
  {
    assert (ops + [op])[..|ops + [op]| - 1] == ops;
    match op
    case Check(refs, ask, at) =>
      if Accepts(store, op) {
        LevelAfterCheck(cat, store, refs, ask, at, k, d);
        match d case Tokens => case Dollars =>
      }
    case Credit(key, dim, delta, at) =>
      LevelAfterCredit(cat, store, key, dim, delta, at, k, d);
      assert Level(cat, store, k, d, at) <= Cap(cat, k, d);
      match dim case Tokens => case Dollars =>
  }

  /** Every legal run names only known buckets. */
  lemma {:induction false} LegalIsKnown(cat: Catalog, store: Store, ops: seq<Op>)
    requires LegalRun(cat, store, ops)
    ensures Known(cat, ops)
  {
    forall i | 0 <= i < |ops|
      ensures Knows(cat, ops[i])
    {
      assert Legal(cat, Run(store, ops[..i]), ops[i]);
    }
  }

  /**
   Under the same committed operations the lazy level is never below the eager one, and exceeds it by
   at most what has been debited from that bucket dimension.
   */
  lemma {:induction false} LazyBracketsEager(cat: Catalog, e: Eager, store: Store, ops: seq<Op>)
    requires Refilling(cat) && Whole(store, e.clock) && Within(cat, e, store, [])
    requires Timed(e.clock, ops) && LegalRun(cat, store, ops)
    ensures Known(cat, ops) && Within(cat, Follow(cat, e, store, ops), Run(store, ops), ops)
  {
    LegalIsKnown(cat, store, ops);
    if |ops| > 0 {
      var front, op := ops[..|ops| - 1], ops[|ops| - 1];
      TimedPrefix(e.clock, ops);
      LegalPrefix(cat, store, ops);
      LazyBracketsEager(cat, e, store, front);
      RunKeepsWhole(cat, store, front, e.clock);
      WithinStep(cat, Follow(cat, e, store, front), Run(store, front), front, op);
      assert front + [op] == ops;
    }
  }

  lemma {:induction false} NothingDebited(ops: seq<Op>, key: string, d: Dim)
    requires NoDebits(ops)
    ensures Debited(ops, key, d) == 0.0
  {
    if |ops| > 0 {
      NothingDebited(ops[..|ops| - 1], key, d);
    }
  }

  /** The eager buckets hold exactly the levels a check on the lazy store would see. */
  ghost predicate Exact(cat: Catalog, e: Eager, store: Store) {
    && Covering(cat, e.levels)
    && forall k, d: Dim :: k in cat && cat[k].Enforced(d) ==> e.levels[k].Of(d) == Level(cat, store, k, d, e.clock)
  }

  lemma {:induction false} ExactDecides(cat: Catalog, e: Eager, store: Store, refs: seq<BucketRef>, ask: Amount,
                                        at: real)
    requires Refilling(cat) && Whole(store, e.clock) && e.clock <= at && Exact(cat, e, store) && FromCatalog(cat, refs)
    ensures Exact(cat, Advance(cat, e, at), store)
    ensures SameDecision(Answer(store, refs, ask, at), EagerAnswer(cat, e, refs, ask, at))
  {
    assert forall k, d: Dim :: Debited([], k, d) == 0.0;
    WithinLater(cat, e, store, [], at);
    var now := Advance(cat, e, at);
    var f1, f2 := Assess(store, refs, at), seq(|refs|, i requires 0 <= i < |refs| => now.levels[refs[i].key]);
    forall i | 0 <= i < |refs| ensures Covers(refs[i].limits, f1[i], ask) <==> Covers(refs[i].limits, f2[i], ask) {
      assert forall d: Dim :: refs[i].limits.Enforced(d) ==> f2[i].Of(d) == Level(cat, store, refs[i].key, d, at);
      assert f1[i].tokens == Level(cat, store, refs[i].key, Tokens, at)
             && f1[i].usd == Level(cat, store, refs[i].key, Dollars, at);
      assert f2[i].tokens == f2[i].Of(Tokens) && f2[i].usd == f2[i].Of(Dollars);
    }
    SameShort(refs, f1, f2, ask, 0);
  }

  /**
   Lazy refill refines eager refill: on every run of checks and refunds the eager buckets, deciding for
   themselves, stay in the very state the lazy store dictates and hold the balances it would show.
   EagerAnswersAlike reads off that every single check was answered alike, over equal balances.
   */
  lemma {:induction false} LazyRefinesEager(cat: Catalog, e: Eager, store: Store, ops: seq<Op>)
    requires Refilling(cat) && Whole(store, e.clock) && Exact(cat, e, store)
    requires Timed(e.clock, ops) && LegalRun(cat, store, ops) && NoDebits(ops)
    ensures Known(cat, ops) && Own(cat, e, ops) == Follow(cat, e, store, ops)
    ensures Exact(cat, Own(cat, e, ops), Run(store, ops))
  {
    LegalIsKnown(cat, store, ops);
    if |ops| > 0 {
      var front, op := ops[..|ops| - 1], ops[|ops| - 1];
      TimedPrefix(e.clock, ops);
      LegalPrefix(cat, store, ops);
      LazyRefinesEager(cat, e, store, front);
      RunKeepsWhole(cat, store, front, e.clock);
      if op.Check? {
        ExactDecides(cat, Own(cat, e, front), Run(store, front), op.refs, op.ask, op.at);
      }
    }
    LazyIsExact(cat, e, store, ops);
  }

  lemma {:induction false} LazyIsExact(cat: Catalog, e: Eager, store: Store, ops: seq<Op>)
    requires Refilling(cat) && Whole(store, e.clock) && Exact(cat, e, store)
    requires Timed(e.clock, ops) && LegalRun(cat, store, ops) && NoDebits(ops)
    ensures Known(cat, ops) && Exact(cat, Follow(cat, e, store, ops), Run(store, ops))
  {
    LegalIsKnown(cat, store, ops);
    LazyBracketsEager(cat, e, store, ops);
    forall k, d: Dim ensures Debited(ops, k, d) == 0.0 { NothingDebited(ops, k, d); }
  }

  lemma {:induction false} EagerAnswersAlike(cat: Catalog, e: Eager, store: Store, ops: seq<Op>, i: nat)
    requires Refilling(cat) && Whole(store, e.clock) && Exact(cat, e, store)
    requires Timed(e.clock, ops) && LegalRun(cat, store, ops) && NoDebits(ops)
    requires i < |ops| && ops[i].Check?
    ensures var before, op := ops[..i], ops[i];
            && Known(cat, before) && FromCatalog(cat, op.refs)
            && SameDecision(Answer(Run(store, before), op.refs, op.ask, op.at),
                            EagerAnswer(cat, Own(cat, e, before), op.refs, op.ask, op.at))
            && Exact(cat, Advance(cat, Own(cat, e, before), op.at), Run(store, before))
  {
    var before := ops[..i];
    KnownPrefix(cat, e, store, ops, i);
    LazyRefinesEager(cat, e, store, before);
    RunKeepsWhole(cat, store, before, e.clock);
    assert Legal(cat, Run(store, ops[..i]), ops[i]);
    ExactDecides(cat, Own(cat, e, before), Run(store, before), ops[i].refs, ops[i].ask, ops[i].at);
  }

  lemma {:induction false} KnownPrefix(cat: Catalog, e: Eager, store: Store, ops: seq<Op>, i: nat)
    requires Timed(e.clock, ops) && LegalRun(cat, store, ops) && NoDebits(ops) && i < |ops|
    ensures var before := ops[..i];
            Timed(e.clock, before) && LegalRun(cat, store, before) && Known(cat, before) && NoDebits(before)
            && Clock(e.clock, before) <= ops[i].at
  {
    LegalIsKnown(cat, store, ops);
    var before := ops[..i];
    forall j | 0 <= j < i ensures Legal(cat, Run(store, before[..j]), before[j]) {
      assert before[..j] == ops[..j] && Legal(cat, Run(store, ops[..j]), ops[j]);
    }
  }

  /** Fresh buckets are full. */
  ghost function Full(cat: Catalog, clock: real): Eager {
    Eager(map k | k in cat :: Funds(cat[k].Cap(Tokens), cat[k].Cap(Dollars)), clock)
  }

  lemma {:induction false} FreshIsFull(cat: Catalog, clock: real)
    ensures Exact(cat, Full(cat, clock), map[]) && Whole(map[], clock)
  {
    forall k, d: Dim | k in cat && cat[k].Enforced(d)
      ensures Full(cat, clock).levels[k].Of(d) == Level(cat, map[], k, d, clock)
    {
      match d case Tokens => case Dollars =>
    }
  }
}
