/**
 The vocabulary of one budget bucket: its limits, its stored hash, and the lazily
 refilled balance a check computes from them. Tokens and dollars follow the same
 arithmetic, so almost everything is stated once per dimension.
 Money, tokens and seconds are exact reals.
 */
module Buckets {
  import opened Options

  datatype Dim = Tokens | Dollars

  datatype Scope = TaskScope | AgentScope | TenantScope

  /** One bucket's configuration; a cap of zero or less means the dimension is not enforced. */
  datatype Limits = Limits(tokenLimit: int, dollarLimit: real, refillTokensPerSec: real, refillUSDPerSec: real) {
    function Cap(d: Dim): real {
      match d
      case Tokens => tokenLimit as real
      case Dollars => dollarLimit
    }

    function Rate(d: Dim): real {
      match d
      case Tokens => refillTokensPerSec
      case Dollars => refillUSDPerSec
    }

    predicate Enforced(d: Dim) {
      Cap(d) > 0.0
    }
  }

  datatype BucketRef = BucketRef(scope: Scope, key: string, limits: Limits)

  /** What a call asks for, or what it turned out to use. */
  datatype Amount = Amount(tokens: int, usd: real) {
    function Of(d: Dim): real {
      match d
      case Tokens => tokens as real
      case Dollars => usd
    }

    predicate NonNegative() {
      tokens >= 0 && usd >= 0.0
    }
  }

  /** A pair of balances, one per dimension. */
  datatype Funds = Funds(tokens: real, usd: real) {
    function Of(d: Dim): real {
      match d
      case Tokens => tokens
      case Dollars => usd
    }
  }

  /** A Redis hash of one bucket; any field may be absent. */
  datatype Hash = Hash(tokens: Option<real>, usd: Option<real>, lastRefill: Option<real>) {
    function Of(d: Dim): Option<real> {
      match d
      case Tokens => tokens
      case Dollars => usd
    }
  }

  const EMPTY_HASH := Hash(None, None, None)

  /** Bucket hashes by Redis key, as visible at one instant. */
  type Store = map<string, Hash>

  function Lookup(store: Store, key: string): Hash {
    if key in store then store[key] else EMPTY_HASH
  }

  function Min(x: real, y: real): real {
    if x > y then y else x
  }

  function Max(x: real, y: real): real {
    if x < y then y else x
  }

  function Least(x: int, y: int): int {
    if x < y then x else y
  }

  function Abs(x: real): (r: real)
    ensures r >= 0.0 && -r <= x <= r
  {
    if x < 0.0 then -x else x
  }

  /** n times x, by repeated addition. */
  function Times(n: nat, x: real): real {
    if n == 0 then 0.0 else Times(n - 1, x) + x
  }

  lemma {:induction false} TimesIsProduct(n: nat, x: real)
    ensures Times(n, x) == n as real * x
  {
    if n > 0 {
      TimesIsProduct(n - 1, x);
      assert n as real * x == (n - 1) as real * x + x;
    }
  }

  function Elapsed(h: Hash, now: real): real {
    match h.lastRefill
    case None => 0.0
    case Some(last) => Max(now - last, 0.0)
  }

  /** The balance before clamping: what is stored plus the credit earned since. */
  function Raw(l: Limits, d: Dim, h: Hash, now: real): real {
    h.Of(d).GetOr(l.Cap(d)) + Elapsed(h, now) * l.Rate(d)
  }

  /** The balance a check at `now` observes. */
  function Balance(l: Limits, d: Dim, h: Hash, now: real): real {
    if l.Enforced(d) then Min(Raw(l, d, h, now), l.Cap(d)) else h.Of(d).GetOr(l.Cap(d))
  }

  function Observe(store: Store, ref: BucketRef, now: real): Funds {
    var h := Lookup(store, ref.key);
    Funds(Balance(ref.limits, Tokens, h, now), Balance(ref.limits, Dollars, h, now))
  }

  predicate Covers(l: Limits, f: Funds, ask: Amount) {
    && (l.Enforced(Tokens) ==> f.tokens >= ask.tokens as real)
    && (l.Enforced(Dollars) ==> f.usd >= ask.usd)
  }
}
