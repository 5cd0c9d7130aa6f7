/**
 Where the life of a request meets the buckets it charges. Both of its checks are answered as the enforcer
 answers, each over whatever store it meets and whatever becomes of its reply, and every charge is followed
 to the reconcile that settles it, or to the reason why none does.
 */
module Settlements {
  import opened Options
  import opened Buckets
  import opened Script
  import opened Config
  import opened Enforcement
  import opened Pricing
  import opened Policy
  import opened Retries
  import opened Handlers
  import opened Collisions

  /** What a check meets: the store at that moment, and the fate of the command and its reply. */
  datatype Backend = Backend(store: Store, now: real, link: Link)

  /** The script has run for this check and charged the buckets. */
  predicate Charges(b: Backend, refs: seq<BucketRef>, ask: Amount) {
    refs != [] && !b.link.Down? && Admits(b.store, refs, ask, b.now)
  }

  /** It has, and the gateway was not told. */
  predicate ChargesUnheard(b: Backend, refs: seq<BucketRef>, ask: Amount) {
    Charges(b, refs, ask) && b.link.ReplyLost?
  }

  function ReplyOf(b: Backend, refs: seq<BucketRef>, ask: Amount): CheckResult {
    Reply(b.store, refs, ask, b.now, b.link)
  }

  /** The answers in the environment are those the enforcer gives: to the first check over b1, to the second over b2. */
  ghost predicate Answered(refs: seq<BucketRef>, c: Call, o: Outcome, env: Env, b1: Backend, b2: Backend) {
    && env.first == ReplyOf(b1, refs, Estimate(c))
    && (AsksAgain(env, o) ==> env.second == ReplyOf(b2, refs, RetryOf(c, o).1))
  }

  /** How often the request charges its buckets. */
  function ChargeCount(refs: seq<BucketRef>, c: Call, o: Outcome, env: Env, b1: Backend, b2: Backend): nat {
    (if Charges(b1, refs, Estimate(c)) then 1 else 0)
    + if AsksAgain(env, o) && Charges(b2, refs, RetryOf(c, o).1) then 1 else 0
  }

  /** How often it does so without the gateway being told. */
  function UnheardCount(refs: seq<BucketRef>, c: Call, o: Outcome, env: Env, b1: Backend, b2: Backend): nat {
    (if ChargesUnheard(b1, refs, Estimate(c)) then 1 else 0)
    + if AsksAgain(env, o) && ChargesUnheard(b2, refs, RetryOf(c, o).1) then 1 else 0
  }

  lemma {:induction false} ReplyTells(b: Backend, refs: seq<BucketRef>, ask: Amount)
    ensures var r := ReplyOf(b, refs, ask); r.Ok? && r.decision.allowed <==> Charges(b, refs, ask) && !b.link.ReplyLost?
  {
  }

  function One(b: bool): nat {
    if b then 1 else 0
  }

  /** The reservations in a trace are the checks that were granted. */
  lemma {:induction false} HoldsAreGrants(refs: seq<BucketRef>, c: Call, stream: bool, o: Outcome, env: Env)
    requires refs != []
    ensures CountHolds(Path(refs, c, stream, o, env))
            == One(Granted(env.first)) + One(AsksAgain(env, o) && Granted(env.second))
  {
    var head, rest := Effect.Checked(refs, Estimate(c), env.first), AfterFirstCheck(refs, c, stream, o, env);
    CountsConcat([head], rest);
    CountOne(head);
    if env.first.Err? {
      CountShort(rest);
    } else if env.first.decision.allowed {
      AdmissionSettlesOnce(refs, c.model, Estimate(c), stream, LabelAllowed, env);
    } else if o.action.Reject? {
      CountShort(rest);
    } else {
      RetryHolds(refs, c, stream, env.first.decision, o, env);
    }
  }

  lemma {:induction false} RetryHolds(refs: seq<BucketRef>, c: Call, stream: bool, d: Decision, o: Outcome, env: Env)
    requires !o.action.Reject?
    ensures CountHolds(UnderPressure(refs, c, stream, d, o, env)) == One(Granted(env.second))
  {
    var (retry, ask) := RetryOf(c, o);
    var head := Effect.Checked(refs, ask, env.second);
    var rest := if Granted(env.second) then AfterAdmission(refs, retry.model, ask, stream, LabelAdvisedRetry, env)
        else Turned(d, o);
    CountsConcat([head], rest);
    CountOne(head);
    if Granted(env.second) {
      AdmissionSettlesOnce(refs, retry.model, ask, stream, LabelAdvisedRetry, env);
    } else {
      CountShort(rest);
    }
  }

  /**
   Every charge is accounted for. Whatever the stores, the links, the advisor, the policy engine, the
   provider and the transport do, a request charges its buckets at most once, and each charge is either
   settled by a reconcile, or went unheard because its reply was lost, or was reserved for a stream over a
   transport that cannot flush.
   */
  lemma {:induction false} EveryChargeAccounted(refs: seq<BucketRef>, c: Call, stream: bool, o: Outcome, env: Env,
                                                b1: Backend, b2: Backend)
    requires Answered(refs, c, o, env, b1, b2)
    ensures var t, charges, unheard := Path(refs, c, stream, o, env), ChargeCount(refs, c, o, env, b1, b2),
                                       UnheardCount(refs, c, o, env, b1, b2);
            && unheard <= charges <= 1
            && CountHolds(t) == charges - unheard
            && CountReconciles(t) == if Unstreamable(stream, env) then 0 else charges - unheard
  {
    ReservationsMatch(refs, c, stream, o, env);
    ReplyTells(b1, refs, Estimate(c));
    if AsksAgain(env, o) {
      ReplyTells(b2, refs, RetryOf(c, o).1);
    }
    if refs != [] {
      HoldsAreGrants(refs, c, stream, o, env);
    } else {
      CountShort(Path(refs, c, stream, o, env));
    }
  }

  /** So every charge is settled if and only if none went unheard and none was made for a stream that cannot start. */
  lemma {:induction false} SettledExactly(refs: seq<BucketRef>, c: Call, stream: bool, o: Outcome, env: Env,
                                          b1: Backend, b2: Backend)
    requires Answered(refs, c, o, env, b1, b2)
    ensures var charges := ChargeCount(refs, c, o, env, b1, b2);
            CountReconciles(Path(refs, c, stream, o, env)) == charges <==>
            UnheardCount(refs, c, o, env, b1, b2) == 0 && !(Unstreamable(stream, env) && charges > 0)
  {
    EveryChargeAccounted(refs, c, stream, o, env, b1, b2);
  }

  /** One tenant bucket of a hundred tokens. */
  function TenantOnly(): seq<BucketRef> {
    [BucketRef(TenantScope, "budget:t:-:-", TokensOnly(100))]
  }

  lemma {:induction false} TenantOnlyAdmits(ask: Amount)
    requires 0 <= ask.tokens <= 100 && ask.usd == 0.0
    ensures Admits(START, TenantOnly(), ask, 0.0)
    ensures Observe(Script.Checked(START, TenantOnly(), ask, 0.0), TenantOnly()[0], 0.0).tokens
            == 100.0 - ask.tokens as real
  {
    AdmitsMeans(START, TenantOnly(), ask, 0.0);
    ShownAfterCheck(START, TenantOnly(), ask, 0.0, 0, Tokens);
  }

  /**
   What the client and the books see of a lost reply. On the first check the client gets a 503 and nothing
   is finished; on the second it gets the 429 of a rejection, which is finished as one.
   */
  lemma {:induction false} LostReplyEndings(refs: seq<BucketRef>, c: Call, stream: bool, o: Outcome, env: Env,
                                            b1: Backend, b2: Backend)
    requires Answered(refs, c, o, env, b1, b2) && refs != []
    ensures b1.link.ReplyLost? ==>
              Path(refs, c, stream, o, env)
              == [Effect.Checked(refs, Estimate(c), Err(BackendUnavailable)), Responded(503)]
    ensures AsksAgain(env, o) && b2.link.ReplyLost? ==>
              Path(refs, c, stream, o, env)
              == [Effect.Checked(refs, Estimate(c), env.first),
                  Effect.Checked(refs, RetryOf(c, o).1, Err(BackendUnavailable))] + Turned(env.first.decision, o)
  {
  }

  const NINE_AND_ONE := Call("local", 9, 1)

  /** A call for ten tokens whose reply is lost takes them, and is over. */
  lemma {:induction false} LostReplyLeaks(stream: bool, o: Outcome, env: Env)
    requires env.first == Reply(START, TenantOnly(), Estimate(NINE_AND_ONE), 0.0, ReplyLost)
    ensures Estimate(NINE_AND_ONE) == Amount(10, 0.0)
    ensures Observe(Script.Checked(START, TenantOnly(), Amount(10, 0.0), 0.0), TenantOnly()[0], 0.0).tokens == 90.0
    ensures Path(TenantOnly(), NINE_AND_ONE, stream, o, env)
            == [Effect.Checked(TenantOnly(), Amount(10, 0.0), Err(BackendUnavailable)), Responded(503)]
  {
    LocalIsFree(9, 1);
    TenantOnlyAdmits(Amount(10, 0.0));
  }

  lemma {:induction false} LocalIsFree(tokensIn: int, tokensOut: int)
    ensures CostUSD("local", tokensIn, 0, tokensOut) == 0.0
  {
    BareStays("local", "local");
  }

  const SIXTY_FOUR := Suggestion(ReduceMaxTokens, "", 64, 0.9, "")
  const GRANTED := Outcome(PartialAllowance, "", 64, NoReason, "")
  const CONFIG := PolicyConfig(0.6, 64)

  /** An unpriced call of nine tokens in and a hundred out, or 64 if that is all it is granted. */
  predicate AsksForHundred(c: Call) {
    Estimate(c) == Amount(109, 0.0) && RetryOf(c, GRANTED).1 == Amount(73, 0.0)
  }

  lemma {:induction false} LocalAsksForHundred()
    ensures AsksForHundred(Call("local", 9, 100))
  {
    LocalIsFree(9, 100);
    LocalIsFree(9, 64);
  }

  /** A call for 109 of 100 tokens is granted 64 of output, whose reply is lost: 73 are taken, and it is rejected. */
  lemma {:induction false} LostRetryLeaks(c: Call, stream: bool, env: Env)
    requires AsksForHundred(c) && env.advice == Some([SIXTY_FOUR])
    requires env.first == Reply(START, TenantOnly(), Amount(109, 0.0), 0.0, Up)
    requires env.second == Reply(START, TenantOnly(), Amount(73, 0.0), 0.0, ReplyLost)
    ensures Answers(c, env, CONFIG, GRANTED)
    ensures Observe(Script.Checked(START, TenantOnly(), Amount(73, 0.0), 0.0), TenantOnly()[0], 0.0).tokens == 27.0
    ensures Path(TenantOnly(), c, stream, GRANTED, env)
            == LostRetryTrace(TenantOnly(), Amount(109, 0.0), env.first, Amount(73, 0.0), OverTenantBudget)
  {
    TenantOnlyRejects(Amount(109, 0.0));
    TenantOnlyAdmits(Amount(73, 0.0));
    GrantsSixtyFour(ContextOf(c, env.first.decision));
    LostRetryEnds(TenantOnly(), c, stream, GRANTED, env, Amount(109, 0.0), Amount(73, 0.0));
  }

  /** Two checks, the second unheard, and the rejection the client gets. */
  function LostRetryTrace(refs: seq<BucketRef>, est: Amount, first: CheckResult, ask: Amount,
                          reason: Reason): seq<Effect> {
    [Effect.Checked(refs, est, first), Effect.Checked(refs, ask, Err(BackendUnavailable)),
     Finished(LabelRejected, Budget(reason), NO_USAGE, 0.0), Responded(429)]
  }

  lemma {:induction false} LostRetryEnds(refs: seq<BucketRef>, c: Call, stream: bool, o: Outcome, env: Env,
                                         est: Amount, ask: Amount)
    requires refs != [] && AsksAgain(env, o) && env.second == Err(BackendUnavailable) && o.reason.NoReason?
    requires Estimate(c) == est && RetryOf(c, o).1 == ask
    ensures Path(refs, c, stream, o, env) == LostRetryTrace(refs, est, env.first, ask, env.first.decision.reason)
  {
  }

  lemma {:induction false} GrantsSixtyFour(ctx: Context)
    requires ctx.remainingTokens == 100 && ctx.requestedTokens == 109
    ensures Decides(ctx, [SIXTY_FOUR], CONFIG, GRANTED)
  {
    assert Acceptable(ctx, [SIXTY_FOUR][0], CONFIG) && NoneBefore(ctx, [SIXTY_FOUR], CONFIG, 0);
  }

  lemma {:induction false} TenantOnlyRejects(ask: Amount)
    requires ask.tokens > 100 && ask.usd == 0.0
    ensures Reply(START, TenantOnly(), ask, 0.0, Up) == Ok(Decision(false, OverTenantBudget, Some(TenantScope), 100, 0))
  {
    var funds := Assess(START, TenantOnly(), 0.0);
    assert funds[0] == Funds(100.0, 0.0);
    assert FirstShort(TenantOnly(), funds, ask, 0) == 0;
  }
}
