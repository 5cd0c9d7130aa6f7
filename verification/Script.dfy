/**
 The atomic check-and-decrement as a function of the visible store: assess every
 bucket, find the first one that is short, and only then charge them all.
 */
module Script {
  import opened Options
  import opened Buckets

  /** The script's answer, before Redis truncates its numbers. */
  datatype Verdict =
    | Malformed
    | Rejected(index: nat, funds: Funds)
    | Allowed(floor: Funds)

  function Assess(store: Store, refs: seq<BucketRef>, now: real): (funds: seq<Funds>)
    ensures |funds| == |refs|
    ensures forall i :: 0 <= i < |refs| ==> funds[i] == Observe(store, refs[i], now)
  {
    seq(|refs|, i requires 0 <= i < |refs| => Observe(store, refs[i], now))
  }

  /** The most specific bucket at or after `from` that cannot pay, or |refs|. */
  function FirstShort(refs: seq<BucketRef>, funds: seq<Funds>, ask: Amount, from: nat): (r: nat)
    requires |funds| == |refs| && from <= |refs|
    ensures from <= r <= |refs|
    ensures forall j :: from <= j < r ==> Covers(refs[j].limits, funds[j], ask)
    ensures r < |refs| ==> !Covers(refs[r].limits, funds[r], ask)
    decreases |refs| - from
  {
    if from == |refs| || !Covers(refs[from].limits, funds[from], ask) then from
    else FirstShort(refs, funds, ask, from + 1)
  }

  /** The running minimum of what is left after the charge, over the enforced buckets among the first n. */
  function Floor(refs: seq<BucketRef>, funds: seq<Funds>, ask: Amount, d: Dim, n: nat): Option<real>
    requires |funds| == |refs| && n <= |refs|
  {
    if n == 0 then None
    else
      var before := Floor(refs, funds, ask, d, n - 1);
      var left := funds[n - 1].Of(d) - ask.Of(d);
      if refs[n - 1].limits.Enforced(d) && (before.None? || left < before.value) then Some(left) else before
  }

  lemma {:induction false} FloorIsLeast(refs: seq<BucketRef>, funds: seq<Funds>, ask: Amount, d: Dim, n: nat)
    requires |funds| == |refs| && n <= |refs|
    ensures Floor(refs, funds, ask, d, n).None? <==> forall i :: 0 <= i < n ==> !refs[i].limits.Enforced(d)
    ensures Floor(refs, funds, ask, d, n).Some? ==>
              && (exists i :: 0 <= i < n && refs[i].limits.Enforced(d)
                    && Floor(refs, funds, ask, d, n).value == funds[i].Of(d) - ask.Of(d))
              && forall i :: 0 <= i < n && refs[i].limits.Enforced(d)
                   ==> Floor(refs, funds, ask, d, n).value <= funds[i].Of(d) - ask.Of(d)
  {
    if n > 0 {
      FloorIsLeast(refs, funds, ask, d, n - 1);
    }
  }

  /** What one bucket's hash becomes when it is charged. */
  function Charged(f: Funds, ask: Amount, now: real): Hash {
    Hash(Some(f.tokens - ask.tokens as real), Some(f.usd - ask.usd), Some(now))
  }

  /** The store after the first n buckets have been charged. */
  function Commit(store: Store, refs: seq<BucketRef>, funds: seq<Funds>, ask: Amount, now: real, n: nat): Store
    requires |funds| == |refs| && n <= |refs|
  {
    if n == 0 then store
    else Commit(store, refs, funds, ask, now, n - 1)[refs[n - 1].key := Charged(funds[n - 1], ask, now)]
  }

  function Judge(refs: seq<BucketRef>, funds: seq<Funds>, ask: Amount): Verdict
    requires |funds| == |refs|
  {
    if !ask.NonNegative() then Malformed
    else
      var short := FirstShort(refs, funds, ask, 0);
      if short < |refs| then Rejected(short, funds[short])
      else Allowed(Funds(Floor(refs, funds, ask, Tokens, |refs|).GetOr(0.0),
                         Floor(refs, funds, ask, Dollars, |refs|).GetOr(0.0)))
  }

  function Answer(store: Store, refs: seq<BucketRef>, ask: Amount, now: real): Verdict {
    Judge(refs, Assess(store, refs, now), ask)
  }

  predicate Admits(store: Store, refs: seq<BucketRef>, ask: Amount, now: real) {
    Answer(store, refs, ask, now).Allowed?
  }

  function Checked(store: Store, refs: seq<BucketRef>, ask: Amount, now: real): Store {
    if Admits(store, refs, ask, now)
    then Commit(store, refs, Assess(store, refs, now), ask, now, |refs|)
    else store
  }

  /** HINCRBYFLOAT: a missing hash or field counts as zero, and nothing else changes. */
  function Incremented(h: Hash, d: Dim, delta: real): Hash {
    match d
    case Tokens => h.(tokens := Some(h.tokens.GetOr(0.0) + delta))
    case Dollars => h.(usd := Some(h.usd.GetOr(0.0) + delta))
  }

  function Credited(store: Store, key: string, d: Dim, delta: real): Store {
    store[key := Incremented(Lookup(store, key), d, delta)]
  }

  predicate HasKey(refs: seq<BucketRef>, key: string) {
    exists i :: 0 <= i < |refs| && refs[i].key == key
  }

  /** Buckets that share a key share their limits. */
  predicate Consistent(refs: seq<BucketRef>) {
    forall i, j :: 0 <= i < |refs| && 0 <= j < |refs| && refs[i].key == refs[j].key ==> refs[i].limits == refs[j].limits
  }

  lemma {:induction false} AdmitsMeans(store: Store, refs: seq<BucketRef>, ask: Amount, now: real)
    ensures Admits(store, refs, ask, now) <==>
            && ask.NonNegative()
            && forall i :: 0 <= i < |refs| ==> Covers(refs[i].limits, Observe(store, refs[i], now), ask)
  {
    var funds := Assess(store, refs, now);
    var short := FirstShort(refs, funds, ask, 0);
    if short < |refs| {
      assert !Covers(refs[short].limits, Observe(store, refs[short], now), ask);
    } else {
      forall i | 0 <= i < |refs| ensures Covers(refs[i].limits, Observe(store, refs[i], now), ask) {
        assert Covers(refs[i].limits, funds[i], ask);
      }
    }
  }

  /** The last of the first n buckets listed under `key`, or n when there is none. */
  function LastListed(refs: seq<BucketRef>, n: nat, key: string): (r: nat)
    requires n <= |refs|
    ensures r <= n
    ensures r < n ==> refs[r].key == key
    ensures forall j :: 0 <= j < n && refs[j].key == key ==> j <= r < n
  {
    if n == 0 then 0
    else if refs[n - 1].key == key then n - 1
    else
      var r := LastListed(refs, n - 1, key);
      if r == n - 1 then n else r
  }

  /** When several buckets share a key, the last write wins. */
  lemma {:induction false} CommitAt(store: Store, refs: seq<BucketRef>, funds: seq<Funds>, ask: Amount, now: real,
                                    n: nat, key: string)
    requires |funds| == |refs| && n <= |refs|
    ensures var after, last := Commit(store, refs, funds, ask, now, n), LastListed(refs, n, key);
            if last < n then key in after && after[key] == Charged(funds[last], ask, now)
            else (key in after <==> key in store) && Lookup(after, key) == Lookup(store, key)
  {
    if n > 0 {
      CommitAt(store, refs, funds, ask, now, n - 1, key);
    }
  }

  /**
   An admitted check rewrites every listed key from the observed balance of the last bucket listed under
   it, and no other key.
   */
  lemma {:induction false} CheckedAt(store: Store, refs: seq<BucketRef>, ask: Amount, now: real, key: string)
    requires Admits(store, refs, ask, now)
    ensures var after, last := Checked(store, refs, ask, now), LastListed(refs, |refs|, key);
            if HasKey(refs, key) then
              last < |refs| && key in after && after[key] == Charged(Observe(store, refs[last], now), ask, now)
            else
              (key in after <==> key in store) && Lookup(after, key) == Lookup(store, key)
  {
    CommitAt(store, refs, Assess(store, refs, now), ask, now, |refs|, key);
  }

  /** Where equal keys mean equal limits, every listed bucket is rewritten from its own observed balance. */
  lemma {:induction false} CheckedInCommon(store: Store, refs: seq<BucketRef>, ask: Amount, now: real, key: string)
    requires Consistent(refs) && Admits(store, refs, ask, now)
    ensures var after := Checked(store, refs, ask, now);
            && (forall i :: 0 <= i < |refs| && refs[i].key == key ==>
                  key in after && after[key] == Charged(Observe(store, refs[i], now), ask, now))
            && (!HasKey(refs, key) ==> (key in after <==> key in store) && Lookup(after, key) == Lookup(store, key))
  {
    CheckedAt(store, refs, ask, now, key);
  }

  /**
   What a bucket shows, by the names of its fields: what is stored, or the limit where nothing is, plus the
   seconds since the last refill at that dimension's own rate, and no more than its limit where there is one.
   */
  lemma {:induction false} RefillByFields(store: Store, ref: BucketRef, now: real)
    ensures var l, h, f := ref.limits, Lookup(store, ref.key), Observe(store, ref, now);
            var seconds := if h.lastRefill.Some? && h.lastRefill.value <= now then now - h.lastRefill.value else 0.0;
            var tokens := if h.tokens.Some? then h.tokens.value else l.tokenLimit as real;
            var usd := if h.usd.Some? then h.usd.value else l.dollarLimit;
            && f.tokens == (if l.tokenLimit <= 0 then tokens
                            else if tokens + seconds * l.refillTokensPerSec > l.tokenLimit as real
                                then l.tokenLimit as real
                            else tokens + seconds * l.refillTokensPerSec)
            && f.usd == (if l.dollarLimit <= 0.0 then usd
                         else if usd + seconds * l.refillUSDPerSec > l.dollarLimit then l.dollarLimit
                         else usd + seconds * l.refillUSDPerSec)
  {
  }

  /** Admission, by the names of the fields. */
  lemma {:induction false} AdmitsByFields(store: Store, refs: seq<BucketRef>, ask: Amount, now: real)
    ensures Admits(store, refs, ask, now) <==>
            && ask.tokens >= 0 && ask.usd >= 0.0
            && forall i :: 0 <= i < |refs| ==>
                 var l, h := refs[i].limits, Lookup(store, refs[i].key);
                 var seconds := if h.lastRefill.Some? && h.lastRefill.value <= now then now - h.lastRefill.value
                     else 0.0;
                 var tokens := if h.tokens.Some? then h.tokens.value else l.tokenLimit as real;
                 var usd := if h.usd.Some? then h.usd.value else l.dollarLimit;
                 && (l.tokenLimit > 0 ==>
                       ask.tokens <= l.tokenLimit && ask.tokens as real <= tokens + seconds * l.refillTokensPerSec)
                 && (l.dollarLimit > 0.0 ==> ask.usd <= l.dollarLimit && ask.usd <= usd + seconds * l.refillUSDPerSec)
  {
    AdmitsMeans(store, refs, ask, now);
    forall i | 0 <= i < |refs|
      ensures var l, h := refs[i].limits, Lookup(store, refs[i].key);
              var seconds := if h.lastRefill.Some? && h.lastRefill.value <= now then now - h.lastRefill.value else 0.0;
              var tokens := if h.tokens.Some? then h.tokens.value else l.tokenLimit as real;
              var usd := if h.usd.Some? then h.usd.value else l.dollarLimit;
              Covers(l, Observe(store, refs[i], now), ask) <==>
              && (l.tokenLimit > 0 ==>
                    ask.tokens <= l.tokenLimit && ask.tokens as real <= tokens + seconds * l.refillTokensPerSec)
              && (l.dollarLimit > 0.0 ==> ask.usd <= l.dollarLimit && ask.usd <= usd + seconds * l.refillUSDPerSec)
    {
      RefillByFields(store, refs[i], now);
    }
  }

  /** The amounts a hash shows under these limits, by the names of the fields. */
  ghost predicate ShownByFields(l: Limits, h: Hash, now: real, tokens: real, usd: real) {
    var seconds := if h.lastRefill.Some? && h.lastRefill.value <= now then now - h.lastRefill.value else 0.0;
    var storedTokens := if h.tokens.Some? then h.tokens.value else l.tokenLimit as real;
    var storedUSD := if h.usd.Some? then h.usd.value else l.dollarLimit;
    && tokens == (if l.tokenLimit <= 0 then storedTokens
                  else if storedTokens + seconds * l.refillTokensPerSec > l.tokenLimit as real then l.tokenLimit as real
                  else storedTokens + seconds * l.refillTokensPerSec)
    && usd == (if l.dollarLimit <= 0.0 then storedUSD
               else if storedUSD + seconds * l.refillUSDPerSec > l.dollarLimit then l.dollarLimit
               else storedUSD + seconds * l.refillUSDPerSec)
  }

  lemma {:induction false} ShownIsObserved(store: Store, ref: BucketRef, now: real, tokens: real, usd: real)
    requires ShownByFields(ref.limits, Lookup(store, ref.key), now, tokens, usd)
    ensures Observe(store, ref, now) == Funds(tokens, usd)
  {
    RefillByFields(store, ref, now);
  }

  /** What an admitted check leaves in the last bucket of a key: what was shown, by its fields, less the request. */
  lemma {:induction false} ChargeByFields(store: Store, refs: seq<BucketRef>, ask: Amount, now: real, i: nat,
                                          tokens: real, usd: real)
    requires Admits(store, refs, ask, now) && i < |refs| && forall j :: i < j < |refs| ==> refs[j].key != refs[i].key
    requires ShownByFields(refs[i].limits, Lookup(store, refs[i].key), now, tokens, usd)
    ensures var after := Checked(store, refs, ask, now);
            && refs[i].key in after
            && after[refs[i].key] == Hash(Some(tokens - ask.tokens as real), Some(usd - ask.usd), Some(now))
  {
    ShownIsObserved(store, refs[i], now, tokens, usd);
    ChargedLast(store, refs, ask, now, i);
  }

  lemma {:induction false} ChargedLast(store: Store, refs: seq<BucketRef>, ask: Amount, now: real, i: nat)
    requires Admits(store, refs, ask, now) && i < |refs| && forall j :: i < j < |refs| ==> refs[j].key != refs[i].key
    ensures var after, f := Checked(store, refs, ask, now), Observe(store, refs[i], now);
            refs[i].key in after
            && after[refs[i].key] == Hash(Some(f.tokens - ask.tokens as real), Some(f.usd - ask.usd), Some(now))
  {
    CheckedAt(store, refs, ask, now, refs[i].key);
  }

  /** The two balances of an allowed reply: per dimension, the least that is left where it is enforced, or zero. */
  lemma {:induction false} FloorByFields(store: Store, refs: seq<BucketRef>, ask: Amount, now: real)
    requires Admits(store, refs, ask, now)
    ensures var floor := Answer(store, refs, ask, now).floor;
            && (if exists i :: 0 <= i < |refs| && refs[i].limits.tokenLimit > 0 then
                  && (exists i :: 0 <= i < |refs| && refs[i].limits.tokenLimit > 0
                        && floor.tokens == Observe(store, refs[i], now).tokens - ask.tokens as real)
                  && (forall i :: 0 <= i < |refs| && refs[i].limits.tokenLimit > 0 ==>
                        floor.tokens <= Observe(store, refs[i], now).tokens - ask.tokens as real)
                else floor.tokens == 0.0)
            && (if exists i :: 0 <= i < |refs| && refs[i].limits.dollarLimit > 0.0 then
                  && (exists i :: 0 <= i < |refs| && refs[i].limits.dollarLimit > 0.0
                        && floor.usd == Observe(store, refs[i], now).usd - ask.usd)
                  && (forall i :: 0 <= i < |refs| && refs[i].limits.dollarLimit > 0.0 ==>
                        floor.usd <= Observe(store, refs[i], now).usd - ask.usd)
                else floor.usd == 0.0)
  {
    var funds := Assess(store, refs, now);
    FloorIsLeast(refs, funds, ask, Tokens, |refs|);
    FloorIsLeast(refs, funds, ask, Dollars, |refs|);
  }

  /** The bucket whose balance decides what bucket i stores after a check: the last one under its key. */
  function Decider(refs: seq<BucketRef>, i: nat): (j: nat)
    requires i < |refs|
    ensures i <= j < |refs| && refs[j].key == refs[i].key
  {
    LastListed(refs, |refs|, refs[i].key)
  }

  /** What bucket i shows right after an admitted check, colliding keys included. */
  lemma {:induction false} ShownAfterCheck(store: Store, refs: seq<BucketRef>, ask: Amount, now: real, i: nat, d: Dim)
    requires Admits(store, refs, ask, now) && i < |refs|
    ensures var left := Observe(store, refs[Decider(refs, i)], now).Of(d) - ask.Of(d);
            Observe(Checked(store, refs, ask, now), refs[i], now).Of(d)
            == if refs[i].limits.Enforced(d) then Min(left, refs[i].limits.Cap(d)) else left
  {
    CheckedAt(store, refs, ask, now, refs[i].key);
    match d case Tokens => case Dollars =>
  }

  /** Bucket i is charged the request and nothing else. */
  ghost predicate Lowered(store: Store, refs: seq<BucketRef>, ask: Amount, now: real, i: nat, d: Dim)
    requires i < |refs|
  {
    Observe(Checked(store, refs, ask, now), refs[i], now).Of(d) == Observe(store, refs[i], now).Of(d) - ask.Of(d)
  }

  /**
   Exactly when an allowed check lowers a listed bucket by the request: its balance must be that of the
   last bucket under its key, or it is full, nothing is asked and that last bucket holds more.
   */
  lemma {:induction false} LoweredExactly(store: Store, refs: seq<BucketRef>, ask: Amount, now: real, i: nat, d: Dim)
    requires Admits(store, refs, ask, now) && i < |refs|
    ensures var mine, last := Observe(store, refs[i], now).Of(d), Observe(store, refs[Decider(refs, i)], now).Of(d);
            Lowered(store, refs, ask, now, i, d) <==>
            mine == last || (refs[i].limits.Enforced(d) && ask.Of(d) == 0.0 && refs[i].limits.Cap(d) == mine < last)
  {
    ShownAfterCheck(store, refs, ask, now, i, d);
    AdmitsMeans(store, refs, ask, now);
    match d case Tokens => case Dollars =>
  }

  /**
   All or nothing across scopes: an allowed check lowers every listed bucket's balance, in both
   dimensions, by exactly the request, whenever buckets that share a key share their limits (for the
   other lists LoweredExactly says which buckets are charged); any other check leaves the store alone,
   and a rejection names the most specific bucket that could not pay.
   */
  lemma {:induction false} AllOrNothing(store: Store, refs: seq<BucketRef>, ask: Amount, now: real)
    ensures var after, verdict := Checked(store, refs, ask, now), Answer(store, refs, ask, now);
            && (verdict.Allowed? && Consistent(refs) ==>
                  forall i, d: Dim :: 0 <= i < |refs| ==> Lowered(store, refs, ask, now, i, d))
            && (!verdict.Allowed? ==> after == store)
            && (verdict.Malformed? <==> !ask.NonNegative())
            && (verdict.Rejected? ==>
                  && verdict.index < |refs|
                  && verdict.funds == Observe(store, refs[verdict.index], now)
                  && !Covers(refs[verdict.index].limits, verdict.funds, ask)
                  && forall j :: 0 <= j < verdict.index ==> Covers(refs[j].limits, Observe(store, refs[j], now), ask))
  {
    if Admits(store, refs, ask, now) {
      if Consistent(refs) {
        forall i, d: Dim | 0 <= i < |refs| ensures Lowered(store, refs, ask, now, i, d) {
          LoweredExactly(store, refs, ask, now, i, d);
        }
      }
    } else if ask.NonNegative() {
      var funds := Assess(store, refs, now);
      var short := FirstShort(refs, funds, ask, 0);
      forall j | 0 <= j < short ensures Covers(refs[j].limits, Observe(store, refs[j], now), ask) {
        assert Covers(refs[j].limits, funds[j], ask);
      }
    }
  }
}
