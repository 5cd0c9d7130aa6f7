/**
 Budget pressure: what the handler asks for on the second check, and why an admitted second check is
 always smaller than the first, although the policy engine alone promises no such thing.
 */
module Retries {
  import opened Options
  import opened Buckets
  import opened Script
  import opened Enforcement
  import opened Pricing
  import opened Policy

  const DEFAULT_OUTPUT_TOKEN_ESTIMATE := 512

  /** The part of a request the estimate depends on. */
  datatype Call = Call(model: string, tokensIn: int, maxTokens: int)

  function OutputEstimate(maxTokens: int): int {
    if maxTokens <= 0 then DEFAULT_OUTPUT_TOKEN_ESTIMATE else maxTokens
  }

  function Reservation(model: string, tokensIn: int, tokensOut: int): Amount {
    Amount(tokensIn + tokensOut, CostUSD(model, tokensIn, 0, tokensOut))
  }

  function Estimate(c: Call): Amount {
    Reservation(c.model, c.tokensIn, OutputEstimate(c.maxTokens))
  }

  /** The call and the reservation an acting outcome retries with. */
  function RetryOf(c: Call, o: Outcome): (Call, Amount)
    requires !o.action.Reject?
  {
    if o.action.RetryWithModel? then
      var retry := c.(model := o.model);
      (retry, Estimate(retry))
    else
      (c.(maxTokens := o.maxTokens), Reservation(c.model, c.tokensIn, o.maxTokens))
  }

  /** No listed bucket's enforced balance grew between the two checks. */
  ghost predicate NoGrowth(refs: seq<BucketRef>, s1: Store, t1: real, s2: Store, t2: real) {
    forall i, d: Dim :: 0 <= i < |refs| && refs[i].limits.Enforced(d)
        ==> Observe(s2, refs[i], t2).Of(d) <= Observe(s1, refs[i], t1).Of(d)
  }

  /** A request admitted after a rejected one, with no growth between, is smaller in a dimension that was short. */
  lemma {:induction false} SmallerSomewhere(refs: seq<BucketRef>, s1: Store, t1: real, ask1: Amount, s2: Store,
                                            t2: real, ask2: Amount) returns (d: Dim)
    requires Answer(s1, refs, ask1, t1).Rejected? && Admits(s2, refs, ask2, t2) && NoGrowth(refs, s1, t1, s2, t2)
    ensures ask2.Of(d) < ask1.Of(d)
  {
    AdmitsMeans(s2, refs, ask2, t2);
    var f := Assess(s1, refs, t1);
    var i := FirstShort(refs, f, ask1, 0);
    assert !Covers(refs[i].limits, f[i], ask1) && Covers(refs[i].limits, Observe(s2, refs[i], t2), ask2);
    d := if refs[i].limits.Enforced(Tokens) && f[i].tokens < ask1.tokens as real then Tokens else Dollars;
    assert Observe(s2, refs[i], t2).Of(d) <= f[i].Of(d);
  }

  lemma {:induction false} PricesArePositive(name: string)
    requires name in PRICES
    ensures PRICES[name].input > 0.0 && PRICES[name].output > 0.0
  {
  }

  /** At one model and one input size, a lower cost means fewer output tokens. */
  lemma {:induction false} CostOrdersOutput(model: string, tokensIn: int, a: int, b: int)
    requires CostUSD(model, tokensIn, 0, a) < CostUSD(model, tokensIn, 0, b)
    ensures a < b
  {
    PricesArePositive(Normalize(model));
    var p := PriceOf(model).value.output;
    LinearOrders(a, b, p);
  }

  lemma {:induction false} LinearOrders(a: int, b: int, p: real)
    requires p > 0.0 && a as real / 1000000.0 * p < b as real / 1000000.0 * p
    ensures a < b
  {
    Scaling(a as real / 1000000.0, b as real / 1000000.0, p);
  }

  lemma {:induction false} Scaling(x: real, y: real, p: real)
    requires p >= 0.0
    ensures x >= y ==> x * p >= y * p
  {
    if x >= y {
      assert (x - y) * p >= 0.0;
    }
  }

  /**
   An admitted advised retry is strictly smaller: with no growth between the checks, an admitted model
   switch costs strictly less than the rejected request, and an admitted partial allowance caps the
   output strictly below the original output estimate.
   */
  lemma {:induction false} AdmittedRetryIsSmaller(refs: seq<BucketRef>, s1: Store, t1: real, s2: Store, t2: real,
                                                  c: Call, o: Outcome)
    requires !o.action.Reject? && NoGrowth(refs, s1, t1, s2, t2)
    requires Answer(s1, refs, Estimate(c), t1).Rejected? && Admits(s2, refs, RetryOf(c, o).1, t2)
    ensures o.action.RetryWithModel? ==> RetryOf(c, o).1.usd < Estimate(c).usd
    ensures o.action.PartialAllowance? ==> o.maxTokens < OutputEstimate(c.maxTokens)
  {
    var d := SmallerSomewhere(refs, s1, t1, Estimate(c), s2, t2, RetryOf(c, o).1);
    if o.action.PartialAllowance? && d == Dollars {
      CostOrdersOutput(c.model, c.tokensIn, o.maxTokens, OutputEstimate(c.maxTokens));
    }
  }

  /**
   A switch the policy vouches for can cost more than the original model, on some estimate a request can
   have, if and only if the suggested model's input price is higher.
   */
  lemma {:induction false} SwitchCanCostMoreExactly(requested: string, suggested: string)
    requires Verified(requested, suggested)
    ensures PriceOf(requested).Some? && suggested in PRICES
    ensures (exists tokensIn: nat, tokensOut: nat :: DearerEstimate(requested, suggested, tokensIn, tokensOut))
            <==> PRICES[suggested].input > PriceOf(requested).value.input
  {
    SwitchIsSound(requested, suggested);
    CanBeDearerExactly(requested, PriceOf(requested).value, suggested, PRICES[suggested]);
  }

  /** The suggested model costs more on this estimate, which has three input tokens and one output token at least. */
  predicate DearerEstimate(requested: string, suggested: string, tokensIn: nat, tokensOut: nat) {
    && tokensIn >= 3 && tokensOut >= 1
    && CostUSD(suggested, tokensIn, 0, tokensOut) > CostUSD(requested, tokensIn, 0, tokensOut)
  }

  lemma {:induction false} CanBeDearerExactly(a: string, pa: Price, b: string, pb: Price)
    requires PriceOf(a) == Some(pa) && PriceOf(b) == Some(pb) && pb.output <= pa.output
    ensures (exists tokensIn: nat, tokensOut: nat :: DearerEstimate(a, b, tokensIn, tokensOut)) <==> pb.input > pa.input
  {
    if pb.input > pa.input {
      var n := EnoughInput(pa, pb);
      CostIs(a, pa, n, 1);
      CostIs(b, pb, n, 1);
      assert DearerEstimate(a, b, n, 1);
    } else {
      forall tokensIn: nat, tokensOut: nat ensures !DearerEstimate(a, b, tokensIn, tokensOut) {
        CostIs(a, pa, tokensIn, tokensOut);
        CostIs(b, pb, tokensIn, tokensOut);
        NeverDearer(pa, pb, tokensIn, tokensOut);
      }
    }
  }

  /** A bill without cached input, by price. */
  function Bill(p: Price, tokensIn: nat, tokensOut: nat): real {
    (tokensIn as real * p.input + tokensOut as real * p.output) / 1000000.0
  }

  lemma {:induction false} CostIs(model: string, p: Price, tokensIn: nat, tokensOut: nat)
    requires PriceOf(model) == Some(p)
    ensures CostUSD(model, tokensIn, 0, tokensOut) == Bill(p, tokensIn, tokensOut)
  {
  }

  /** With enough input, one output token cannot make up for a higher input price. */
  lemma {:induction false} EnoughInput(pa: Price, pb: Price) returns (n: nat)
    requires pb.input > pa.input && pb.output <= pa.output
    ensures n >= 3 && Bill(pb, n, 1) > Bill(pa, n, 1)
  {
    n := Overtake(pa.output - pb.output, pb.input - pa.input);
    Dearer(n as real, pa, pb);
  }

  lemma {:induction false} Overtake(x: real, y: real) returns (n: nat)
    requires x >= 0.0 && y > 0.0
    ensures n >= 3 && n as real * y > x
  {
    NonNegativeRatio(x, y);
    n := (x / y).Floor + 3;
    Exceeds(n as real, x / y, y);
  }

  lemma {:induction false} Exceeds(m: real, q: real, y: real)
    requires m > q && y > 0.0
    ensures m * y > q * y
  {
    assert (m - q) * y > 0.0;
    assert m * y == q * y + (m - q) * y;
  }

  lemma {:induction false} Dearer(n: real, pa: Price, pb: Price)
    requires n * (pb.input - pa.input) > pa.output - pb.output
    ensures n * pb.input + pb.output > n * pa.input + pa.output
  {
    assert n * (pb.input - pa.input) == n * pb.input - n * pa.input;
  }

  lemma {:induction false} NonNegativeRatio(x: real, y: real)
    requires x >= 0.0 && y > 0.0
    ensures x / y >= 0.0 && x / y * y == x
  {
    var q := x / y;
    assert q * y == x;
    NegativeProduct(q, y);
  }

  lemma {:induction false} NegativeProduct(x: real, y: real)
    requires y > 0.0
    ensures x < 0.0 ==> x * y < 0.0
  {
  }

  lemma {:induction false} NeverDearer(pa: Price, pb: Price, tokensIn: nat, tokensOut: nat)
    requires pb.input <= pa.input && pb.output <= pa.output
    ensures Bill(pb, tokensIn, tokensOut) <= Bill(pa, tokensIn, tokensOut)
  {
    Scaling(pa.input, pb.input, tokensIn as real);
    Scaling(pa.output, pb.output, tokensOut as real);
  }

  /** The policy accepts a switch that raises the estimated cost: it looks at output prices only. */
  lemma {:induction false} PolicyAloneMayRaiseCost()
    ensures Verified("gpt-5", "gpt-4.1") && CostUSD("gpt-4.1", 10000, 0, 100) > CostUSD("gpt-5", 10000, 0, 100)
  {
    BareStays("gpt-5", "gpt-5");
    BareStays("gpt-4.1", "gpt-4.1");
    LongPromptIsDearer("gpt-5", "gpt-4.1");
  }

  lemma {:induction false} LongPromptIsDearer(a: string, b: string)
    requires PriceOf(a) == Some(PRICES["gpt-5"]) && PriceOf(b) == Some(PRICES["gpt-4.1"])
    ensures CostUSD(b, 10000, 0, 100) > CostUSD(a, 10000, 0, 100)
  {
    CostIs(a, PRICES["gpt-5"], 10000, 100);
    CostIs(b, PRICES["gpt-4.1"], 10000, 100);
  }

  /** An allowance cuts the output exactly when the served suggestion or the reported balance is below the estimate. */
  lemma {:induction false} AllowanceCutsExactly(c: Call, ctx: Context, suggestions: seq<Suggestion>,
                                                cfg: PolicyConfig, o: Outcome) returns (i: nat)
    requires Decides(ctx, suggestions, cfg, o) && o.action.PartialAllowance?
    ensures i < |suggestions| && suggestions[i].kind.ReduceMaxTokens? && NoneBefore(ctx, suggestions, cfg, i)
    ensures Acceptable(ctx, suggestions[i], cfg) && o.maxTokens == Allowance(ctx, suggestions[i])
    ensures o.maxTokens < OutputEstimate(c.maxTokens) <==>
            suggestions[i].maxTokens < OutputEstimate(c.maxTokens) || ctx.remainingTokens < OutputEstimate(c.maxTokens)
  {
    i := Served(ctx, suggestions, cfg, o);
  }

  /** Some suggestions make the policy grant at least `level` output tokens. */
  ghost predicate CanGrant(ctx: Context, cfg: PolicyConfig, level: int) {
    exists suggestions, o :: Decides(ctx, suggestions, cfg, o) && Grants(o, level)
  }

  predicate Grants(o: Outcome, level: int) {
    o.action.PartialAllowance? && o.maxTokens >= level
  }

  function Larger(x: int, y: int): int {
    if x < y then y else x
  }

  /** How far the policy can be talked up, exactly, from what is known before it is asked. */
  lemma {:induction false} CanGrantExactly(ctx: Context, cfg: PolicyConfig, level: int)
    ensures CanGrant(ctx, cfg, level) <==>
            Least(ctx.remainingTokens, ctx.requestedTokens - 1) >= Larger(cfg.minPartialAllowanceTokens, level)
  {
    if CanGrant(ctx, cfg, level) {
      var suggestions, o :| Decides(ctx, suggestions, cfg, o) && Grants(o, level);
      var i := Served(ctx, suggestions, cfg, o);
    }
    var most := Least(ctx.remainingTokens, ctx.requestedTokens - 1);
    if most >= Larger(cfg.minPartialAllowanceTokens, level) {
      var s := Suggestion(ReduceMaxTokens, "", most, cfg.minConfidence, "");
      var o := Outcome(PartialAllowance, "", most, NoReason, "");
      assert Allowance(ctx, s) == most;
      assert NoneBefore(ctx, [s], cfg, 0) && Acceptable(ctx, [s][0], cfg);
      assert Decides(ctx, [s], cfg, o) && Grants(o, level);
    }
  }

  /**
   So the policy alone can fail to cut a request's output, or raise it, exactly when both the reported
   balance and the whole request leave room for as much, or for more.
   */
  lemma {:induction false} OutputCanRiseExactly(c: Call, ctx: Context, cfg: PolicyConfig)
    ensures CanGrant(ctx, cfg, OutputEstimate(c.maxTokens)) <==>
            Least(ctx.remainingTokens, ctx.requestedTokens - 1) >= Larger(cfg.minPartialAllowanceTokens,
                                                                            OutputEstimate(c.maxTokens))
    ensures CanGrant(ctx, cfg, OutputEstimate(c.maxTokens) + 1) <==>
            && Least(ctx.remainingTokens, ctx.requestedTokens - 1) >= cfg.minPartialAllowanceTokens
            && Least(ctx.remainingTokens, ctx.requestedTokens - 1) > OutputEstimate(c.maxTokens)
  {
    CanGrantExactly(ctx, cfg, OutputEstimate(c.maxTokens));
    CanGrantExactly(ctx, cfg, OutputEstimate(c.maxTokens) + 1);
  }

  /** The policy grants an allowance above the original output estimate: it compares with the whole request. */
  lemma {:induction false} PolicyAloneMayRaiseOutput(cfg: PolicyConfig)
    requires cfg == PolicyConfig(0.6, 64)
    ensures var c := Call("mock-small", 1000, 100);
            var ctx := Context(c.model, Estimate(c).tokens, 500, 0, Some(TenantScope), OverTenantBudget);
            var s := [Suggestion(ReduceMaxTokens, "", 400, 0.9, "")];
            var o := Outcome(PartialAllowance, "", 400, NoReason, "");
            Decides(ctx, s, cfg, o) && o.maxTokens > OutputEstimate(c.maxTokens)
  {
    var c := Call("mock-small", 1000, 100);
    var ctx := Context(c.model, Estimate(c).tokens, 500, 0, Some(TenantScope), OverTenantBudget);
    var s := [Suggestion(ReduceMaxTokens, "", 400, 0.9, "")];
    assert Acceptable(ctx, s[0], cfg) && NoneBefore(ctx, s, cfg, 0);
  }
}
