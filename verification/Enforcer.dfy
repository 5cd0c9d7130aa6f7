/**
 The two sides of one budget call: the Lua script running inside Redis over bucket hashes with
 expiry deadlines, and the Go enforcer that marshals a request into KEYS/ARGV and reads the flat
 reply back. A script run, and each HINCRBYFLOAT of a pipeline, is one atomic step.
 */
module Enforcement {
  import opened Options
  import opened Buckets
  import opened Script

  datatype Reason = NoReason | OverTaskBudget | OverAgentBudget | OverTenantBudget | InvalidRequest

  datatype Decision = Decision(allowed: bool, reason: Reason, failedScope: Option<Scope>, remainingTokens: int,
                               remainingUSD: int)

  datatype CheckError = NoBucketRefs | BackendUnavailable | UnexpectedShape

  /** Whether a command reaches the backend, and its reply the caller. */
  datatype Link = Up | Down | ReplyLost

  datatype CheckResult = Ok(decision: Decision) | Err(error: CheckError)

  /** One queued HINCRBYFLOAT. */
  datatype Increment = Increment(key: string, dim: Dim, delta: real)

  datatype Record = Record(hash: Hash, deadline: Option<real>)

  type Db = map<string, Record>

  predicate Live(r: Record, now: real) {
    r.deadline.None? || now < r.deadline.value
  }

  /** What commands issued at `now` can see: expired keys are gone. */
  function Visible(db: Db, now: real): Store {
    map k | k in db && Live(db[k], now) :: db[k].hash
  }

  /** The deadline a key still carries at `now`. */
  function DeadlineAt(db: Db, key: string, now: real): Option<real> {
    if key in db && Live(db[key], now) then db[key].deadline else None
  }

  /** An increment keeps the deadline of a live key; an expired one starts over, without a deadline. */
  function Bumped(db: Db, key: string, d: Dim, delta: real, now: real): Db {
    db[key := Record(Incremented(Lookup(Visible(db, now), key), d, delta), DeadlineAt(db, key, now))]
  }

  lemma {:induction false} BumpedVisible(db: Db, key: string, d: Dim, delta: real, now: real)
    ensures Visible(Bumped(db, key, d, delta, now), now) == Credited(Visible(db, now), key, d, delta)
  {
    var after := Bumped(db, key, d, delta, now);
    assert Live(after[key], now);
    forall k ensures k in Visible(after, now) <==> k == key || k in Visible(db, now) {
    }
  }

  lemma {:induction false} BumpedDeadline(db: Db, key: string, d: Dim, delta: real, now: real, k: string)
    ensures DeadlineAt(Bumped(db, key, d, delta, now), k, now) == DeadlineAt(db, k, now)
  {
  }

  /** Redis turns a Lua number into an integer by dropping its fraction. */
  function Truncate(x: real): int {
    if x >= 0.0 then x.Floor else -((-x).Floor)
  }

  function Flat(v: Verdict): seq<int> {
    match v
    case Malformed => [0, -1, 0, 0]
    case Rejected(index, f) => [0, index + 1, Truncate(f.tokens), Truncate(f.usd)]
    case Allowed(f) => [1, 0, Truncate(f.tokens), Truncate(f.usd)]
  }

  function Quota(l: Limits): seq<real> {
    [l.tokenLimit as real, l.dollarLimit, l.refillTokensPerSec, l.refillUSDPerSec]
  }

  function Quotas(refs: seq<BucketRef>, n: nat): seq<real>
    requires n <= |refs|
  {
    if n == 0 then [] else Quotas(refs, n - 1) + Quota(refs[n - 1].limits)
  }

  /** The wire protocol between the two sides. */
  function Argv(refs: seq<BucketRef>, ask: Amount, ttl: int): seq<real> {
    [ask.tokens as real, ask.usd, ttl as real] + Quotas(refs, |refs|)
  }

  function Keys(refs: seq<BucketRef>): (keys: seq<string>)
    ensures |keys| == |refs| && forall i :: 0 <= i < |refs| ==> keys[i] == refs[i].key
  {
    seq(|refs|, i requires 0 <= i < |refs| => refs[i].key)
  }

  lemma {:induction false} QuotasAt(refs: seq<BucketRef>, n: nat, i: nat)
    requires i < n <= |refs|
    ensures |Quotas(refs, n)| == 4 * n
    ensures Quotas(refs, n)[4 * i..4 * i + 4] == Quota(refs[i].limits)
    decreases n
  {
    if n > 1 {
      QuotasAt(refs, n - 1, if i < n - 1 then i else 0);
    }
    if i < n - 1 {
      assert Quotas(refs, n)[4 * i..4 * i + 4] == Quotas(refs, n - 1)[4 * i..4 * i + 4];
    }
  }

  /** Unmarshalling reads back exactly the limits that were marshalled. */
  lemma {:induction false} ArgvAt(refs: seq<BucketRef>, ask: Amount, ttl: int, i: nat)
    requires i < |refs|
    ensures var argv, base := Argv(refs, ask, ttl), 3 + 4 * i;
            && |argv| == 3 + 4 * |refs|
            && argv[base] == refs[i].limits.tokenLimit as real
            && argv[base + 1] == refs[i].limits.dollarLimit
            && argv[base + 2] == refs[i].limits.refillTokensPerSec
            && argv[base + 3] == refs[i].limits.refillUSDPerSec
  {
    QuotasAt(refs, |refs|, i);
    var q := Quotas(refs, |refs|);
    var slice := q[4 * i..4 * i + 4];
    assert slice[0] == q[4 * i] && slice[1] == q[4 * i + 1] && slice[2] == q[4 * i + 2] && slice[3] == q[4 * i + 3];
  }

  /** The database after the script has charged and re-armed the first n keys. */
  function Stamped(db: Db, refs: seq<BucketRef>, funds: seq<Funds>, ask: Amount, ttl: real, now: real, n: nat): Db
    requires |funds| == |refs| && n <= |refs|
  {
    if n == 0 then db
    else
      var before, key := Stamped(db, refs, funds, ask, ttl, now, n - 1), refs[n - 1].key;
      before[key := Record(Charged(funds[n - 1], ask, now),
                           if ttl > 0.0 then Some(now + ttl) else DeadlineAt(before, key, now))]
  }

  lemma {:induction false} StampedVisible(db: Db, refs: seq<BucketRef>, funds: seq<Funds>, ask: Amount, ttl: real,
                                          now: real, n: nat)
    requires |funds| == |refs| && n <= |refs|
    ensures Visible(Stamped(db, refs, funds, ask, ttl, now, n), now)
            == Commit(Visible(db, now), refs, funds, ask, now, n)
  {
    if n > 0 {
      StampedVisible(db, refs, funds, ask, ttl, now, n - 1);
      var before, key := Stamped(db, refs, funds, ask, ttl, now, n - 1), refs[n - 1].key;
      var after := Stamped(db, refs, funds, ask, ttl, now, n);
      assert Live(after[key], now);
      assert Visible(after, now) == Visible(before, now)[key := Charged(funds[n - 1], ask, now)];
    }
  }

  predicate Touches(refs: seq<BucketRef>, n: nat, key: string)
    requires n <= |refs|
  {
    exists j :: 0 <= j < n && refs[j].key == key
  }

  lemma {:induction false} StampedAt(db: Db, refs: seq<BucketRef>, funds: seq<Funds>, ask: Amount, ttl: real,
                                     now: real, n: nat, key: string)
    requires |funds| == |refs| && n <= |refs|
    ensures var after := Stamped(db, refs, funds, ask, ttl, now, n);
            if Touches(refs, n, key)
            then key in after && after[key].deadline == if ttl > 0.0 then Some(now + ttl) else DeadlineAt(db, key, now)
            else (key in after <==> key in db) && (key in db ==> after[key] == db[key])
  {
    if n > 0 {
      StampedAt(db, refs, funds, ask, ttl, now, n - 1, key);
      if refs[n - 1].key != key {
        assert Touches(refs, n, key) <==> Touches(refs, n - 1, key);
      }
    }
  }

  /** Every listed key now lives for the configured lifetime, if that is positive, and else as long as before. */
  ghost predicate Armed(before: Db, after: Db, refs: seq<BucketRef>, ttl: int, now: real) {
    forall i :: 0 <= i < |refs| ==>
      && refs[i].key in after
      && after[refs[i].key].deadline == if ttl > 0 then Some(now + ttl as real)
                                        else DeadlineAt(before, refs[i].key, now)
  }

  lemma {:induction false} StampedIsArmed(db: Db, refs: seq<BucketRef>, funds: seq<Funds>, ask: Amount, ttl: int,
                                          now: real)
    requires |funds| == |refs|
    ensures Armed(db, Stamped(db, refs, funds, ask, ttl as real, now, |refs|), refs, ttl, now)
  {
    forall i | 0 <= i < |refs|
      ensures var after := Stamped(db, refs, funds, ask, ttl as real, now, |refs|);
              && refs[i].key in after
              && after[refs[i].key].deadline == if ttl > 0 then Some(now + ttl as real)
                                                else DeadlineAt(db, refs[i].key, now)
    {
      StampedAt(db, refs, funds, ask, ttl as real, now, |refs|, refs[i].key);
    }
  }

  /** The two limit tables the script keeps while it runs. */
  ghost predicate AreCaps(refs: seq<BucketRef>, tokenLimits: seq<real>, usdLimits: seq<real>) {
    && |tokenLimits| == |usdLimits| == |refs|
    && forall i :: 0 <= i < |refs| ==>
         tokenLimits[i] == refs[i].limits.Cap(Tokens) && usdLimits[i] == refs[i].limits.Cap(Dollars)
  }

  class Redis {
    var db: Db

    constructor ()
      ensures db == map[]
    {
      db := map[];
    }

    method HSet(key: string, h: Hash, now: real)
      modifies this
      ensures db == old(db)[key := Record(h, DeadlineAt(old(db), key, now))]
    {
      db := db[key := Record(h, DeadlineAt(db, key, now))];
    }

    method Expire(key: string, ttl: real, now: real)
      requires key in db
      modifies this
      ensures db == old(db)[key := old(db)[key].(deadline := Some(now + ttl))]
    {
      db := db[key := db[key].(deadline := Some(now + ttl))];
    }

    method HIncrByFloat(inc: Increment, now: real)
      modifies this
      ensures db == Bumped(old(db), inc.key, inc.dim, inc.delta, now)
      ensures Visible(db, now) == Credited(Visible(old(db), now), inc.key, inc.dim, inc.delta)
      ensures forall k :: DeadlineAt(db, k, now) == DeadlineAt(old(db), k, now)
    {
      forall k ensures DeadlineAt(Bumped(db, inc.key, inc.dim, inc.delta, now), k, now) == DeadlineAt(db, k, now) {
        BumpedDeadline(db, inc.key, inc.dim, inc.delta, now, k);
      }
      var h := Lookup(Visible(db, now), inc.key);
      BumpedVisible(db, inc.key, inc.dim, inc.delta, now);
      db := db[inc.key := Record(Incremented(h, inc.dim, inc.delta), DeadlineAt(db, inc.key, now))];
    }

    /** checkAndDecrement.lua: three passes over KEYS, the last of which is the only one that writes. */
    method CheckAndDecrement(keys: seq<string>, argv: seq<real>, now: real, ghost refs: seq<BucketRef>,
                             ghost ask: Amount, ghost ttl: int)
      returns (reply: seq<int>)
      requires keys == Keys(refs) && argv == Argv(refs, ask, ttl)
      modifies this
      ensures reply == Flat(Answer(Visible(old(db), now), refs, ask, now))
      ensures Visible(db, now) == Checked(Visible(old(db), now), refs, ask, now)
      ensures !Admits(Visible(old(db), now), refs, ask, now) ==> db == old(db)
      ensures Admits(Visible(old(db), now), refs, ask, now) ==>
                db == Stamped(old(db), refs, Assess(Visible(old(db), now), refs, now), ask, ttl as real, now, |refs|)
    {
      var requestedTokens, requestedUSD, stateTTL := argv[0], argv[1], argv[2];
      if requestedTokens < 0.0 || requestedUSD < 0.0 {
        return [0, -1, 0, 0];
      }
      ghost var assessed := Assess(Visible(db, now), refs, now);
      var computed, tokenLimits, usdLimits := RefillAll(keys, argv, now, refs, ask, ttl);
      var short := FindShort(computed, tokenLimits, usdLimits, requestedTokens, requestedUSD, refs, ask);
      if short < |keys| {
        return [0, short + 1, Truncate(computed[short].tokens), Truncate(computed[short].usd)];
      }
      var minTokens, minUSD := ChargeAll(keys, computed, tokenLimits, usdLimits, requestedTokens, requestedUSD,
                                         stateTTL, now, refs, ask);
      reply := [1, 0, Truncate(minTokens.GetOr(0.0)), Truncate(minUSD.GetOr(0.0))];
    }

    /** A pipeline of increments: each is atomic by itself, and only the first `delivered` may arrive. */
    method Exec(pipe: seq<Increment>, now: real, delivered: nat) returns (ok: bool)
      modifies this
      ensures ok <==> delivered >= |pipe|
      ensures Visible(db, now) == Delivered(Visible(old(db), now), if ok then pipe else pipe[..delivered])
      ensures forall k :: DeadlineAt(db, k, now) == DeadlineAt(old(db), k, now)
    {
      var n := 0;
      while n < |pipe| && n < delivered
        invariant n <= |pipe| && n <= delivered
        invariant Visible(db, now) == Delivered(Visible(old(db), now), pipe[..n])
        invariant forall k :: DeadlineAt(db, k, now) == DeadlineAt(old(db), k, now)
      {
        assert pipe[..n + 1][..n] == pipe[..n];
        HIncrByFloat(pipe[n], now);
        n := n + 1;
      }
      assert pipe[..|pipe|] == pipe;
      ok := n == |pipe|;
    }

    /** Phase 1: post-refill balances of every bucket, writing nothing. */
    method RefillAll(keys: seq<string>, argv: seq<real>, now: real, ghost refs: seq<BucketRef>, ghost ask: Amount,
                     ghost ttl: int)
      returns (computed: seq<Funds>, tokenLimits: seq<real>, usdLimits: seq<real>)
      requires keys == Keys(refs) && argv == Argv(refs, ask, ttl)
      ensures computed == Assess(Visible(db, now), refs, now)
      ensures AreCaps(refs, tokenLimits, usdLimits)
    {
      computed, tokenLimits, usdLimits := [], [], [];
      for i := 0 to |keys|
        invariant |computed| == |tokenLimits| == |usdLimits| == i
        invariant forall j :: 0 <= j < i ==> computed[j] == Observe(Visible(db, now), refs[j], now)
        invariant forall j :: 0 <= j < i ==>
                    tokenLimits[j] == refs[j].limits.Cap(Tokens) && usdLimits[j] == refs[j].limits.Cap(Dollars)
      {
        ArgvAt(refs, ask, ttl, i);
        var base := 3 + 4 * i;
        var funds := Refill(keys[i], argv[base], argv[base + 1], argv[base + 2], argv[base + 3], now, refs[i]);
        tokenLimits, usdLimits := tokenLimits + [argv[base]], usdLimits + [argv[base + 1]];
        computed := computed + [funds];
      }
    }

    /** Phase 2: the first bucket that cannot pay. */
    method FindShort(computed: seq<Funds>, tokenLimits: seq<real>, usdLimits: seq<real>, requestedTokens: real,
                     requestedUSD: real, ghost refs: seq<BucketRef>, ghost ask: Amount)
      returns (short: nat)
      requires |computed| == |refs| && AreCaps(refs, tokenLimits, usdLimits)
      requires requestedTokens == ask.Of(Tokens) && requestedUSD == ask.Of(Dollars)
      ensures short == FirstShort(refs, computed, ask, 0)
    {
      for i := 0 to |computed|
        invariant forall j :: 0 <= j < i ==> Covers(refs[j].limits, computed[j], ask)
      {
        if tokenLimits[i] > 0.0 && computed[i].tokens < requestedTokens {
          FirstShortIs(refs, computed, ask, i);
          return i;
        }
        if usdLimits[i] > 0.0 && computed[i].usd < requestedUSD {
          FirstShortIs(refs, computed, ask, i);
          return i;
        }
      }
      FirstShortIs(refs, computed, ask, |refs|);
      short := |computed|;
    }

    /** Phase 3: charge every bucket and keep the running minima. */
    method ChargeAll(keys: seq<string>, computed: seq<Funds>, tokenLimits: seq<real>, usdLimits: seq<real>,
                     requestedTokens: real, requestedUSD: real,
                     stateTTL: real, now: real, ghost refs: seq<BucketRef>, ghost ask: Amount)
      returns (minTokens: Option<real>, minUSD: Option<real>)
      requires keys == Keys(refs) && |computed| == |refs| && AreCaps(refs, tokenLimits, usdLimits)
      requires requestedTokens == ask.Of(Tokens) && requestedUSD == ask.Of(Dollars)
      modifies this
      ensures Visible(db, now) == Commit(Visible(old(db), now), refs, computed, ask, now, |refs|)
      ensures db == Stamped(old(db), refs, computed, ask, stateTTL, now, |refs|)
      ensures minTokens == Floor(refs, computed, ask, Tokens, |refs|)
              && minUSD == Floor(refs, computed, ask, Dollars, |refs|)
    {
      minTokens, minUSD := None, None;
      for i := 0 to |keys|
        invariant db == Stamped(old(db), refs, computed, ask, stateTTL, now, i)
        invariant minTokens == Floor(refs, computed, ask, Tokens, i) && minUSD == Floor(refs, computed, ask, Dollars, i)
      {
        var finalTokens, finalUSD := computed[i].tokens - requestedTokens, computed[i].usd - requestedUSD;
        ChargeOne(keys[i], Hash(Some(finalTokens), Some(finalUSD), Some(now)), stateTTL, now);
        if tokenLimits[i] > 0.0 && (minTokens.None? || finalTokens < minTokens.value) {
          minTokens := Some(finalTokens);
        }
        if usdLimits[i] > 0.0 && (minUSD.None? || finalUSD < minUSD.value) {
          minUSD := Some(finalUSD);
        }
      }
      StampedVisible(old(db), refs, computed, ask, stateTTL, now, |refs|);
    }

    method ChargeOne(key: string, h: Hash, stateTTL: real, now: real)
      modifies this
      ensures var deadline := if stateTTL > 0.0 then Some(now + stateTTL) else DeadlineAt(old(db), key, now);
              db == old(db)[key := Record(h, deadline)]
    {
      HSet(key, h, now);
      if stateTTL > 0.0 {
        Expire(key, stateTTL, now);
      }
    }

    /** The body of the script's first loop: one bucket's balances as of now. */
    method Refill(key: string, tokenLimit: real, usdLimit: real, tokenRate: real, usdRate: real, now: real,
                  ghost ref: BucketRef)
      returns (funds: Funds)
      requires key == ref.key
      requires tokenLimit == ref.limits.Cap(Tokens) && usdLimit == ref.limits.Cap(Dollars)
      requires tokenRate == ref.limits.Rate(Tokens) && usdRate == ref.limits.Rate(Dollars)
      ensures funds == Observe(Visible(db, now), ref, now)
      ensures var l, h := ref.limits, Lookup(Visible(db, now), key);
              var seconds := if h.lastRefill.Some? && h.lastRefill.value <= now then now - h.lastRefill.value else 0.0;
              var tokens := if h.tokens.Some? then h.tokens.value else l.tokenLimit as real;
              var usd := if h.usd.Some? then h.usd.value else l.dollarLimit;
              && funds.tokens == (if l.tokenLimit <= 0 then tokens
                                  else if tokens + seconds * l.refillTokensPerSec > l.tokenLimit as real
                                  then l.tokenLimit as real
                                  else tokens + seconds * l.refillTokensPerSec)
              && funds.usd == (if l.dollarLimit <= 0.0 then usd
                               else if usd + seconds * l.refillUSDPerSec > l.dollarLimit then l.dollarLimit
                               else usd + seconds * l.refillUSDPerSec)
    {
      funds := RefillBoth(key, tokenLimit, usdLimit, tokenRate, usdRate, now, ref);
      RefillByFields(Visible(db, now), ref, now);
    }

    method RefillBoth(key: string, tokenLimit: real, usdLimit: real, tokenRate: real, usdRate: real, now: real,
                      ghost ref: BucketRef)
      returns (funds: Funds)
      requires key == ref.key
      requires tokenLimit == ref.limits.Cap(Tokens) && usdLimit == ref.limits.Cap(Dollars)
      requires tokenRate == ref.limits.Rate(Tokens) && usdRate == ref.limits.Rate(Dollars)
      ensures funds == Observe(Visible(db, now), ref, now)
    {
      var h := Lookup(Visible(db, now), key);
      var tokens, usd, last := h.tokens.GetOr(tokenLimit), h.usd.GetOr(usdLimit), h.lastRefill.GetOr(now);
      var elapsed := now - last;
      if elapsed < 0.0 {
        elapsed := 0.0;
      }
      if tokenLimit > 0.0 {
        tokens := tokens + elapsed * tokenRate;
        if tokens > tokenLimit {
          tokens := tokenLimit;
        }
      }
      if usdLimit > 0.0 {
        usd := usd + elapsed * usdRate;
        if usd > usdLimit {
          usd := usdLimit;
        }
      }
      funds := Funds(tokens, usd);
    }
  }

  lemma {:induction false} FirstShortFrom(refs: seq<BucketRef>, funds: seq<Funds>, ask: Amount, from: nat, i: nat)
    requires |funds| == |refs| && from <= i <= |refs|
    requires forall j :: from <= j < i ==> Covers(refs[j].limits, funds[j], ask)
    requires i < |refs| ==> !Covers(refs[i].limits, funds[i], ask)
    ensures FirstShort(refs, funds, ask, from) == i
    decreases i - from
  {
    if from < i {
      FirstShortFrom(refs, funds, ask, from + 1, i);
    }
  }

  lemma {:induction false} FirstShortIs(refs: seq<BucketRef>, funds: seq<Funds>, ask: Amount, i: nat)
    requires |funds| == |refs| && i <= |refs|
    requires forall j :: 0 <= j < i ==> Covers(refs[j].limits, funds[j], ask)
    requires i < |refs| ==> !Covers(refs[i].limits, funds[i], ask)
    ensures FirstShort(refs, funds, ask, 0) == i
  {
    FirstShortFrom(refs, funds, ask, 0, i);
  }

  function ReasonFor(s: Scope): Reason {
    match s
    case TaskScope => OverTaskBudget
    case AgentScope => OverAgentBudget
    case TenantScope => OverTenantBudget
  }

  /** How the gateway reads a verdict of the script. */
  function DecisionOf(refs: seq<BucketRef>, v: Verdict): Decision {
    match v
    case Malformed => Decision(false, InvalidRequest, None, 0, 0)
    case Rejected(i, f) =>
      var scope := if i < |refs| then Some(refs[i].scope) else None;
      Decision(false, if scope.Some? then ReasonFor(scope.value) else NoReason, scope, Truncate(f.tokens),
               Truncate(f.usd))
    case Allowed(f) => Decision(true, NoReason, None, Truncate(f.tokens), Truncate(f.usd))
  }

  /** What the gateway is told of a check, given the store it meets and the link it travels. */
  function Reply(store: Store, refs: seq<BucketRef>, ask: Amount, now: real, link: Link): CheckResult {
    if refs == [] then Err(NoBucketRefs)
    else if !link.Up? then Err(BackendUnavailable)
    else Ok(DecisionOf(refs, Answer(store, refs, ask, now)))
  }

  /** The reason of a rejection is that of the scope at fault. */
  lemma {:induction false} ReasonsByScope()
    ensures ReasonFor(TaskScope) == OverTaskBudget && ReasonFor(AgentScope) == OverAgentBudget
    ensures ReasonFor(TenantScope) == OverTenantBudget
  {
  }

  /** Truncation drops the fraction, toward zero. */
  lemma {:induction false} TruncateExactly(x: real, n: int)
    ensures Truncate(x) == n <==> if x >= 0.0 then n as real <= x < n as real + 1.0
            else n as real - 1.0 < x <= n as real
  {
  }

  /** The four numbers of a reply: one or zero, the place in KEYS at fault or minus one, and the two balances. */
  lemma {:induction false} ReplyExactly(v: Verdict)
    ensures |Flat(v)| == 4 && (Flat(v)[0] == 1 <==> v.Allowed?) && (Flat(v)[0] == 0 <==> !v.Allowed?)
    ensures Flat(v)[1] == if v.Rejected? then v.index + 1 else if v.Malformed? then -1 else 0
    ensures v.Rejected? ==> Flat(v)[2] == Truncate(v.funds.tokens) && Flat(v)[3] == Truncate(v.funds.usd)
    ensures v.Allowed? ==> Flat(v)[2] == Truncate(v.floor.tokens) && Flat(v)[3] == Truncate(v.floor.usd)
  {
  }

  /** A key with a deadline can be seen strictly before it, and one without always. */
  lemma {:induction false} SeenUntilDeadline(db: Db, key: string, now: real)
    ensures key in Visible(db, now) <==> key in db && (db[key].deadline.None? || now < db[key].deadline.value)
    ensures key in Visible(db, now) ==> Visible(db, now)[key] == db[key].hash
  {
  }

  /** What one bucket adds to a reconcile's pipeline, by the names of the fields. */
  lemma {:induction false} PlanByFields(refs: seq<BucketRef>, est: Amount, actual: Amount, n: nat)
    requires n < |refs|
    ensures var r := refs[n];
            Plan(refs, est, actual, n + 1)
            == Plan(refs, est, actual, n)
               + (if r.limits.tokenLimit > 0 && est.tokens != actual.tokens
                  then [Increment(r.key, Tokens, (est.tokens - actual.tokens) as real)] else [])
               + (if r.limits.dollarLimit > 0.0 && est.usd != actual.usd
                  then [Increment(r.key, Dollars, est.usd - actual.usd)] else [])
  {
  }

  /** An increment adds to one field, counting a missing one as zero, and leaves the other two. */
  lemma {:induction false} IncrementByFields(h: Hash, delta: real)
    ensures Incremented(h, Tokens, delta)
            == Hash(Some((if h.tokens.Some? then h.tokens.value else 0.0) + delta), h.usd, h.lastRefill)
    ensures Incremented(h, Dollars, delta)
            == Hash(h.tokens, Some((if h.usd.Some? then h.usd.value else 0.0) + delta), h.lastRefill)
  {
  }

  /** The pipeline a reconcile queues for the first n buckets. */
  function Plan(refs: seq<BucketRef>, est: Amount, actual: Amount, n: nat): seq<Increment>
    requires n <= |refs|
  {
    if n == 0 then []
    else
      var r, dt, du := refs[n - 1], est.Of(Tokens) - actual.Of(Tokens), est.Of(Dollars) - actual.Of(Dollars);
      Plan(refs, est, actual, n - 1)
      + (if r.limits.Enforced(Tokens) && dt != 0.0 then [Increment(r.key, Tokens, dt)] else [])
      + (if r.limits.Enforced(Dollars) && du != 0.0 then [Increment(r.key, Dollars, du)] else [])
  }

  function Delivered(store: Store, incs: seq<Increment>): Store {
    if incs == [] then store
    else
      var last := incs[|incs| - 1];
      Credited(Delivered(store, incs[..|incs| - 1]), last.key, last.dim, last.delta)
  }

  class Enforcer {
    const rdb: Redis
    const stateTTL: int

    constructor (rdb: Redis, stateTTLSeconds: int)
      ensures this.rdb == rdb && stateTTL == stateTTLSeconds
    {
      this.rdb := rdb;
      stateTTL := stateTTLSeconds;
    }

    /**
     Marshals the request, runs the script, and maps the failing index back to a scope and a reason. An
     error may come before the script has run or after it: a lost reply leaves its charge in place.
     */
    method CheckAndDecrement(refs: seq<BucketRef>, ask: Amount, now: real, link: Link) returns (res: CheckResult)
      modifies rdb
      ensures res == Reply(Visible(old(rdb.db), now), refs, ask, now, link)
      ensures res.Err? <==> refs == [] || !link.Up?
      ensures res.Err? ==> res.error == if refs == [] then NoBucketRefs else BackendUnavailable
      ensures refs == [] || link.Down? ==> rdb.db == old(rdb.db)
      ensures refs != [] && !link.Down? ==>
                && Visible(rdb.db, now) == Checked(Visible(old(rdb.db), now), refs, ask, now)
                && (!Admits(Visible(old(rdb.db), now), refs, ask, now) ==> rdb.db == old(rdb.db))
      ensures refs != [] && !link.Down? && Admits(Visible(old(rdb.db), now), refs, ask, now) ==>
                Armed(old(rdb.db), rdb.db, refs, stateTTL, now)
      ensures res.Ok? ==> (res.decision.allowed <==> Admits(Visible(old(rdb.db), now), refs, ask, now))
      ensures res.Ok? ==>
                match Answer(Visible(old(rdb.db), now), refs, ask, now)
                case Malformed => res.decision == Decision(false, InvalidRequest, None, 0, 0)
                case Rejected(i, f) =>
                  && i < |refs|
                  && res.decision == Decision(false, ReasonFor(refs[i].scope), Some(refs[i].scope),
                                              Truncate(f.tokens), Truncate(f.usd))
                case Allowed(f) => res.decision == Decision(true, NoReason, None, Truncate(f.tokens), Truncate(f.usd))
    {
      if |refs| == 0 {
        return Err(NoBucketRefs);
      }
      if link.Down? {
        return Err(BackendUnavailable);
      }
      var keys: seq<string>, argv := [], [ask.tokens as real, ask.usd, stateTTL as real];
      for i := 0 to |refs|
        invariant |keys| == i && forall j :: 0 <= j < i ==> keys[j] == refs[j].key
        invariant argv == [ask.tokens as real, ask.usd, stateTTL as real] + Quotas(refs, i)
      {
        var l := refs[i].limits;
        keys := keys + [refs[i].key];
        argv := argv + [l.tokenLimit as real, l.dollarLimit, l.refillTokensPerSec, l.refillUSDPerSec];
      }
      assert keys == Keys(refs);
      ghost var before := rdb.db;
      var arr := rdb.CheckAndDecrement(keys, argv, now, refs, ask, stateTTL);
      if Admits(Visible(before, now), refs, ask, now) {
        StampedIsArmed(before, refs, Assess(Visible(before, now), refs, now), ask, stateTTL, now);
      }
      if link.ReplyLost? {
        return Err(BackendUnavailable);
      }
      if |arr| != 4 {
        return Err(UnexpectedShape);
      }
      var allowed, failedIdx := arr[0] == 1, arr[1];
      var d := Decision(allowed, NoReason, None, arr[2], arr[3]);
      if !allowed {
        if failedIdx == -1 {
          d := d.(reason := InvalidRequest);
        } else if 1 <= failedIdx <= |refs| {
          var scope := refs[failedIdx - 1].scope;
          d := d.(failedScope := Some(scope), reason := ReasonFor(scope));
        }
      }
      res := Ok(d);
    }

    /**
     Queues one increment per enforced bucket dimension that changed, then executes the pipeline, of
     which only the first `delivered` commands may reach Redis.
     */
    method Reconcile(refs: seq<BucketRef>, est: Amount, actual: Amount, now: real, delivered: nat) returns (ok: bool)
      modifies rdb
      ensures var plan := Plan(refs, est, actual, |refs|);
              && (ok <==> delivered >= |plan|)
              && Visible(rdb.db, now) == Delivered(Visible(old(rdb.db), now), if ok then plan else plan[..delivered])
      ensures forall k :: DeadlineAt(rdb.db, k, now) == DeadlineAt(old(rdb.db), k, now)
    {
      var deltaTokens, deltaUSD := (est.tokens - actual.tokens) as real, est.usd - actual.usd;
      ghost var plan := Plan(refs, est, actual, |refs|);
      if deltaTokens == 0.0 && deltaUSD == 0.0 {
        PlanOfNothing(refs, est, actual, |refs|);
        return true;
      }
      var pipe: seq<Increment> := [];
      for i := 0 to |refs|
        invariant pipe == Plan(refs, est, actual, i)
      {
        if refs[i].limits.tokenLimit > 0 && deltaTokens != 0.0 {
          pipe := pipe + [Increment(refs[i].key, Tokens, deltaTokens)];
        }
        if refs[i].limits.dollarLimit > 0.0 && deltaUSD != 0.0 {
          pipe := pipe + [Increment(refs[i].key, Dollars, deltaUSD)];
        }
      }
      ok := rdb.Exec(pipe, now, delivered);
    }
  }

  lemma {:induction false} PlanOfNothing(refs: seq<BucketRef>, est: Amount, actual: Amount, n: nat)
    requires n <= |refs| && est == actual
    ensures Plan(refs, est, actual, n) == []
  {
    if n > 0 {
      PlanOfNothing(refs, est, actual, n - 1);
    }
  }
}
