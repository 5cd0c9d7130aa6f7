/**
 API-key authentication: a database lookup with a TTL cache in front of it. Hash verification and the
 cache-key hash are parameters; the latter is assumed injective where it matters.
 */
module Auth {
  import opened Options

  datatype Identity = Identity(tenant: string, keyId: string, scopes: set<string>)

  /** A row of api_keys; scopes is None when its JSON does not parse. */
  datatype KeyRecord = KeyRecord(id: string, tenant: string, prefix: string, hashed: string,
                                 scopes: Option<seq<string>>, revoked: bool)

  datatype AuthError = KeyInvalid | KeyNotFound | Backend | BadScopes

  datatype LookupResult = Found(identity: Identity) | Error(error: AuthError)

  const KEY_PREFIX_LEN := 12

  type Verifier = (string, string) -> bool

  /** SELECT ... WHERE key_prefix = $1 AND revoked_at IS NULL, in table order. */
  function Candidates(table: seq<KeyRecord>, prefix: string): seq<KeyRecord> {
    if table == [] then []
    else
      (if table[0].prefix == prefix && !table[0].revoked then [table[0]] else []) + Candidates(table[1..], prefix)
  }

  lemma {:induction false} CandidatesAreActive(table: seq<KeyRecord>, prefix: string)
    ensures forall i :: 0 <= i < |Candidates(table, prefix)| ==>
              var rec := Candidates(table, prefix)[i]; rec in table && rec.prefix == prefix && !rec.revoked
  {
    if table != [] {
      CandidatesAreActive(table[1..], prefix);
      var head, rest := if table[0].prefix == prefix && !table[0].revoked then [table[0]] else [],
                        Candidates(table[1..], prefix);
      forall i | 0 <= i < |head + rest|
        ensures var rec := (head + rest)[i]; rec in table && rec.prefix == prefix && !rec.revoked
      {
        if i >= |head| {
          assert (head + rest)[i] == rest[i - |head|];
        }
      }
    }
  }

  function SetOf(list: seq<string>): set<string> {
    set i | 0 <= i < |list| :: list[i]
  }

  /** The table vouches for this identity: an active row for the key verifies it. */
  ghost predicate Vouched(verify: Verifier, table: seq<KeyRecord>, rawKey: string, identity: Identity) {
    |rawKey| >= KEY_PREFIX_LEN
    && exists rec :: rec in table && !rec.revoked && rec.prefix == rawKey[..KEY_PREFIX_LEN]
         && verify(rec.hashed, rawKey)
                     && rec.scopes.Some? && identity == Identity(rec.tenant, rec.id, SetOf(rec.scopes.value))
  }

  method ParseScopes(raw: Option<seq<string>>) returns (out: Option<set<string>>)
    ensures out == if raw.None? then None else Some(SetOf(raw.value))
    ensures out.Some? ==> raw.Some? && forall x :: x in out.value <==> x in raw.value
  {
    if raw.None? {
      return None;
    }
    var scopes: set<string> := {};
    for i := 0 to |raw.value|
      invariant scopes == SetOf(raw.value[..i])
    {
      assert SetOf(raw.value[..i + 1]) == SetOf(raw.value[..i]) + {raw.value[i]} by {
        assert forall j :: 0 <= j < i ==> raw.value[..i + 1][j] == raw.value[..i][j];
        assert raw.value[..i + 1][i] == raw.value[i];
      }
      scopes := scopes + {raw.value[i]};
    }
    assert raw.value[..|raw.value|] == raw.value;
    out := Some(scopes);
  }

  ghost predicate NoneVerifies(verify: Verifier, rows: seq<KeyRecord>, rawKey: string) {
    forall i :: 0 <= i < |rows| ==> !verify(rows[i].hashed, rawKey)
  }

  ghost predicate FirstVerifies(verify: Verifier, rows: seq<KeyRecord>, rawKey: string, i: nat) {
    i < |rows| && verify(rows[i].hashed, rawKey) && forall j :: 0 <= j < i ==> !verify(rows[j].hashed, rawKey)
  }

  function ResultOf(rec: KeyRecord): LookupResult {
    if rec.scopes.None? then Error(BadScopes) else Found(Identity(rec.tenant, rec.id, SetOf(rec.scopes.value)))
  }

  /** What the first row that verifies the key says. */
  function FirstMatch(verify: Verifier, rows: seq<KeyRecord>, rawKey: string): LookupResult {
    if rows == [] then Error(KeyNotFound)
    else if verify(rows[0].hashed, rawKey) then ResultOf(rows[0])
    else FirstMatch(verify, rows[1..], rawKey)
  }

  /** The lookup as a function of the table it reads. */
  function LookupOf(verify: Verifier, table: seq<KeyRecord>, reachable: bool, rawKey: string): LookupResult {
    if |rawKey| < KEY_PREFIX_LEN then Error(KeyInvalid)
    else if !reachable then Error(Backend)
    else FirstMatch(verify, Candidates(table, rawKey[..KEY_PREFIX_LEN]), rawKey)
  }

  lemma {:induction false} FirstMatchIs(verify: Verifier, rows: seq<KeyRecord>, rawKey: string, i: nat)
    requires i <= |rows| && forall j :: 0 <= j < i ==> !verify(rows[j].hashed, rawKey)
    requires i < |rows| ==> verify(rows[i].hashed, rawKey)
    ensures FirstMatch(verify, rows, rawKey) == if i < |rows| then ResultOf(rows[i]) else Error(KeyNotFound)
  {
    if i > 0 {
      FirstMatchIs(verify, rows[1..], rawKey, i - 1);
    }
  }

  /** A found identity is vouched for by the table that was read. */
  lemma {:induction false} FoundIsVouched(verify: Verifier, table: seq<KeyRecord>, reachable: bool, rawKey: string)
    ensures var r := LookupOf(verify, table, reachable, rawKey); r.Found? ==> Vouched(verify, table, rawKey, r.identity)
  {
    if |rawKey| >= KEY_PREFIX_LEN && reachable {
      var rows, i := Candidates(table, rawKey[..KEY_PREFIX_LEN]), 0;
      CandidatesAreActive(table, rawKey[..KEY_PREFIX_LEN]);
      while i < |rows| && !verify(rows[i].hashed, rawKey)
        invariant i <= |rows| && forall j :: 0 <= j < i ==> !verify(rows[j].hashed, rawKey)
      {
        i := i + 1;
      }
      FirstMatchIs(verify, rows, rawKey, i);
      assert i < |rows| ==> rows[i] in table;
    }
  }

  /** The first row that matches the key, or the table's length when there is none, decides the lookup. */
  lemma {:induction false} FirstMatchOfTable(verify: Verifier, table: seq<KeyRecord>, prefix: string, rawKey: string,
                                             i: nat)
    requires i <= |table|
    requires forall j :: 0 <= j < i ==> !(table[j].prefix == prefix && !table[j].revoked
                                          && verify(table[j].hashed, rawKey))
    requires i < |table| ==> table[i].prefix == prefix && !table[i].revoked && verify(table[i].hashed, rawKey)
    ensures FirstMatch(verify, Candidates(table, prefix), rawKey) == if i < |table| then ResultOf(table[i])
            else Error(KeyNotFound)
  {
    if table != [] {
      var rest := Candidates(table[1..], prefix);
      if table[0].prefix == prefix && !table[0].revoked {
        assert ([table[0]] + rest)[1..] == rest;
      } else {
        assert [] + rest == rest;
      }
      if i > 0 {
        FirstMatchOfTable(verify, table[1..], prefix, rawKey, i - 1);
      }
    }
  }

  lemma {:induction false} LookupByRows(verify: Verifier, table: seq<KeyRecord>, reachable: bool, rawKey: string)
    ensures |rawKey| >= KEY_PREFIX_LEN && reachable ==>
              forall i :: 0 <= i < |table| && IsFirstMatch(verify, table, rawKey, i) ==>
                LookupOf(verify, table, reachable, rawKey) == ResultOf(table[i])
    ensures |rawKey| >= KEY_PREFIX_LEN && reachable
            && (forall i :: 0 <= i < |table| ==> !Matches(verify, table[i], rawKey)) ==>
              LookupOf(verify, table, reachable, rawKey) == Error(KeyNotFound)
  {
    if |rawKey| >= KEY_PREFIX_LEN && reachable {
      forall i | 0 <= i < |table| && IsFirstMatch(verify, table, rawKey, i)
        ensures LookupOf(verify, table, reachable, rawKey) == ResultOf(table[i])
      {
        FirstMatchOfTable(verify, table, rawKey[..KEY_PREFIX_LEN], rawKey, i);
      }
      if forall i :: 0 <= i < |table| ==> !Matches(verify, table[i], rawKey) {
        FirstMatchOfTable(verify, table, rawKey[..KEY_PREFIX_LEN], rawKey, |table|);
      }
    }
  }

  ghost predicate IsFirstMatch(verify: Verifier, table: seq<KeyRecord>, rawKey: string, i: nat)
    requires |rawKey| >= KEY_PREFIX_LEN && i < |table|
  {
    Matches(verify, table[i], rawKey) && forall j :: 0 <= j < i ==> !Matches(verify, table[j], rawKey)
  }

  predicate Matches(verify: Verifier, rec: KeyRecord, rawKey: string)
    requires |rawKey| >= KEY_PREFIX_LEN
  {
    rec.prefix == rawKey[..KEY_PREFIX_LEN] && !rec.revoked && verify(rec.hashed, rawKey)
  }

  method LookupAndVerify(verify: Verifier, table: seq<KeyRecord>, reachable: bool, rawKey: string)
      returns (r: LookupResult)
    ensures r == LookupOf(verify, table, reachable, rawKey)
    ensures r.Found? ==> Vouched(verify, table, rawKey, r.identity)
    ensures |rawKey| < KEY_PREFIX_LEN ==> r == Error(KeyInvalid)
    ensures |rawKey| >= KEY_PREFIX_LEN && !reachable ==> r == Error(Backend)
    ensures |rawKey| >= KEY_PREFIX_LEN && reachable ==>
              var rows := Candidates(table, rawKey[..KEY_PREFIX_LEN]);
              if NoneVerifies(verify, rows, rawKey) then r == Error(KeyNotFound)
              else exists i: nat :: FirstVerifies(verify, rows, rawKey, i) && r == ResultOf(rows[i])
    ensures |rawKey| >= KEY_PREFIX_LEN && reachable ==>
              forall i :: 0 <= i < |table| ==>
                && table[i].prefix == rawKey[..12] && !table[i].revoked && verify(table[i].hashed, rawKey)
                && (forall j :: 0 <= j < i ==>
                      !(table[j].prefix == rawKey[..12] && !table[j].revoked && verify(table[j].hashed, rawKey)))
                ==>
                if table[i].scopes.None? then r == Error(BadScopes)
                else
                  && r.Found? && r.identity.tenant == table[i].tenant && r.identity.keyId == table[i].id
                  && forall x :: x in r.identity.scopes <==> x in table[i].scopes.value
    ensures |rawKey| >= KEY_PREFIX_LEN && reachable
            && (forall i :: 0 <= i < |table| ==>
                  !(table[i].prefix == rawKey[..12] && !table[i].revoked && verify(table[i].hashed, rawKey)))
            ==> r == Error(KeyNotFound)
  {
    FoundIsVouched(verify, table, reachable, rawKey);
    LookupByRows(verify, table, reachable, rawKey);
    if |rawKey| < KEY_PREFIX_LEN {
      return Error(KeyInvalid);
    }
    var prefix := rawKey[..KEY_PREFIX_LEN];
    if !reachable {
      return Error(Backend);
    }
    r := VerifyRows(verify, Candidates(table, prefix), rawKey);
  }

  /** The loop over the rows the query returned. */
  method VerifyRows(verify: Verifier, rows: seq<KeyRecord>, rawKey: string) returns (r: LookupResult)
    ensures r == FirstMatch(verify, rows, rawKey)
    ensures if NoneVerifies(verify, rows, rawKey) then r == Error(KeyNotFound)
            else exists i: nat :: FirstVerifies(verify, rows, rawKey, i) && r == ResultOf(rows[i])
  {
    for i := 0 to |rows|
      invariant forall j :: 0 <= j < i ==> !verify(rows[j].hashed, rawKey)
    {
      var rec := rows[i];
      if verify(rec.hashed, rawKey) {
        assert !NoneVerifies(verify, rows, rawKey) && FirstVerifies(verify, rows, rawKey, i);
        FirstMatchIs(verify, rows, rawKey, i);
        var scopes := ParseScopes(rec.scopes);
        if scopes.None? {
          return Error(BadScopes);
        }
        return Found(Identity(rec.tenant, rec.id, scopes.value));
      }
    }
    FirstMatchIs(verify, rows, rawKey, |rows|);
    r := Error(KeyNotFound);
  }

  /** One finished, successful lookup, and when it read the table. */
  datatype Lookup = Lookup(key: string, started: real, read: real, finished: real, identity: Identity)

  /** A cache entry remembers which lookup it came from. */
  datatype Entry = Entry(identity: Identity, expiresAt: real, source: Lookup)

  type Cache = map<string, Entry>

  predicate Hit(cache: Cache, ck: string, now: real) {
    ck in cache && now < cache[ck].expiresAt
  }

  function Evicted(cache: Cache, now: real): Cache {
    map k | k in cache && !(now > cache[k].expiresAt) :: cache[k]
  }

  function Remember(cache: Cache, ck: string, l: Lookup, ttl: real): Cache {
    cache[ck := Entry(l.identity, l.finished + ttl, l)]
  }

  class Store {
    const ttl: real
    const hash: string -> string
    var cache: Cache

    constructor (ttl: real, hash: string -> string)
      ensures this.ttl == ttl && this.hash == hash && cache == map[]
    {
      this.ttl, this.hash, cache := ttl, hash, map[];
    }

    /**
     One uninterrupted call: `now` at the cache check; if a lookup is needed it reads the table at `read`
     and has returned at `done`.
     */
    method Authenticate(verify: Verifier, table: seq<KeyRecord>, reachable: bool, rawKey: string, now: real,
                        read: real, done: real)
      returns (r: LookupResult, queried: bool)
      modifies this
      ensures queried <==> !Hit(old(cache), hash(rawKey), now)
      ensures hash(rawKey) in old(cache) && now < old(cache)[hash(rawKey)].expiresAt ==>
                !queried && r == Found(old(cache)[hash(rawKey)].identity) && cache == old(cache)
      ensures queried && r.Found? ==>
                && hash(rawKey) in cache && cache[hash(rawKey)].identity == r.identity
                && cache[hash(rawKey)].expiresAt == done + ttl
                && forall k :: k != hash(rawKey) ==>
                     (k in cache <==> k in old(cache)) && (k in cache ==> cache[k] == old(cache)[k])
      ensures r == if queried then LookupOf(verify, table, reachable, rawKey)
              else Found(old(cache)[hash(rawKey)].identity)
      ensures queried && r.Found? ==> Vouched(verify, table, rawKey, r.identity)
      ensures cache == if queried && r.Found?
              then Remember(old(cache), hash(rawKey), Lookup(rawKey, now, read, done, r.identity), ttl)
                       else old(cache)
    {
      var ck := hash(rawKey);
      if ck in cache && now < cache[ck].expiresAt {
        return Found(cache[ck].identity), false;
      }
      queried := true;
      r := AskDatabase(verify, table, reachable, rawKey);
      if r.Error? {
        return;
      }
      cache := cache[ck := Entry(r.identity, done + ttl, Lookup(rawKey, now, read, done, r.identity))];
    }

    method AskDatabase(verify: Verifier, table: seq<KeyRecord>, reachable: bool, rawKey: string)
        returns (r: LookupResult)
      ensures r == LookupOf(verify, table, reachable, rawKey)
      ensures r.Found? ==> Vouched(verify, table, rawKey, r.identity)
    {
      r := LookupAndVerify(verify, table, reachable, rawKey);
    }

    method EvictExpired(now: real)
      modifies this
      ensures cache == Evicted(old(cache), now)
      ensures forall k :: k in cache <==> k in old(cache) && now <= old(cache)[k].expiresAt
      ensures forall k :: k in cache ==> cache[k] == old(cache)[k]
    {
      var keys := cache.Keys;
      while keys != {}
        invariant keys <= old(cache).Keys
        invariant cache == map k | k in old(cache) && (k in keys || !(now > old(cache)[k].expiresAt)) :: old(cache)[k]
        decreases keys
      {
        var k :| k in keys;
        if now > cache[k].expiresAt {
          cache := cache - {k};
        }
        keys := keys - {k};
      }
    }
  }

  /** What stays fixed over a run, and the history of the key table: its rows at every instant. */
  datatype World = World(hash: string -> string, ttl: real, verify: Verifier, tables: real -> seq<KeyRecord>)

  /** A call in progress: it missed the cache and asked the database. */
  datatype Flight = Flight(key: string, started: real, open: bool)

  datatype Outcome = Outcome(key: string, at: real, result: LookupResult, source: Option<Lookup>)

  /** Calls, lookups finishing, and evictions, in any interleaving. A lookup reads the table once on its way. */
  datatype Event =
    | Call(key: string, at: real)
    | Done(i: nat, read: real, reachable: bool, at: real)
    | Evict(at: real)

  /** Every flight is one call that reached the database; `lookups` are those that succeeded. */
  datatype State = State(cache: Cache, flights: seq<Flight>, lookups: seq<Lookup>, outcomes: seq<Outcome>)

  function Next(w: World, s: State, e: Event): State {
    match e
    case Call(key, at) =>
      if Hit(s.cache, w.hash(key), at) then
        var entry := s.cache[w.hash(key)];
        s.(outcomes := s.outcomes + [Outcome(key, at, Found(entry.identity), Some(entry.source))])
      else s.(flights := s.flights + [Flight(key, at, true)])
    case Done(i, read, reachable, at) =>
      if i < |s.flights| && s.flights[i].open && s.flights[i].started <= read <= at then
        Landed(w, s, i, LookupOf(w.verify, w.tables(read), reachable, s.flights[i].key), read, at)
      else s
    case Evict(at) => s.(cache := Evicted(s.cache, at))
  }

  function Landed(w: World, s: State, i: nat, result: LookupResult, read: real, at: real): State
    requires i < |s.flights|
  {
    var f := s.flights[i];
    var closed := s.(flights := s.flights[i := f.(open := false)]);
    match result
    case Error(_) => closed.(outcomes := s.outcomes + [Outcome(f.key, at, result, None)])
    case Found(identity) =>
      var l := Lookup(f.key, f.started, read, at, identity);
      closed.(cache := Remember(s.cache, w.hash(f.key), l, w.ttl), lookups := s.lookups + [l],
              outcomes := s.outcomes + [Outcome(f.key, at, result, Some(l))])
  }

  function Play(w: World, events: seq<Event>): State {
    if events == [] then State(map[], [], [], [])
    else Next(w, Play(w, events[..|events| - 1]), events[|events| - 1])
  }

  ghost predicate Timed(events: seq<Event>) {
    forall i, j :: 0 <= i < j < |events| ==> events[i].at <= events[j].at
  }

  ghost predicate Injective(hash: string -> string) {
    forall x, y :: hash(x) == hash(y) ==> x == y
  }

  ghost predicate EntryOk(w: World, s: State, ck: string, e: Entry) {
    && e.source in s.lookups && w.hash(e.source.key) == ck
    && e.identity == e.source.identity && e.expiresAt == e.source.finished + w.ttl
  }

  /** The lookup read, while it lasted, a table in which an active row verified its key. */
  ghost predicate Sound(w: World, l: Lookup) {
    l.started <= l.read <= l.finished && Vouched(w.verify, w.tables(l.read), l.key, l.identity)
  }

  /** The outcome is backed by a sound lookup of the same key, and that lookup is recent enough. */
  ghost predicate Backed(w: World, s: State, o: Outcome) {
    o.result.Found? ==>
      && o.source.Some? && o.source.value in s.lookups && Sound(w, o.source.value)
      && o.source.value.key == o.key && o.source.value.identity == o.result.identity
      && (o.at == o.source.value.finished
          || o.at - o.source.value.started < w.ttl + (o.source.value.finished - o.source.value.started))
  }

  ghost predicate Inv(w: World, s: State, clock: real) {
    && (forall ck :: ck in s.cache ==> EntryOk(w, s, ck, s.cache[ck]))
    && (forall i :: 0 <= i < |s.outcomes| ==> Backed(w, s, s.outcomes[i]))
    && (forall i :: 0 <= i < |s.flights| ==> s.flights[i].started <= clock)
    && (forall l :: l in s.lookups ==> Sound(w, l))
  }

  lemma {:induction false} StepKeeps(w: World, s: State, clock: real, e: Event)
    requires Injective(w.hash) && Inv(w, s, clock) && clock <= e.at
    ensures Inv(w, Next(w, s, e), e.at)
  {
    match e
    case Call(key, at) =>
      assert w.hash(key) in s.cache ==> EntryOk(w, s, w.hash(key), s.cache[w.hash(key)]);
    case Done(i, read, reachable, at) =>
      if i < |s.flights| && s.flights[i].open && s.flights[i].started <= read <= at {
        FoundIsVouched(w.verify, w.tables(read), reachable, s.flights[i].key);
        LandingKeeps(w, s, i, LookupOf(w.verify, w.tables(read), reachable, s.flights[i].key), read, at, clock);
      }
    case Evict(at) =>
  }

  lemma {:induction false} LandingKeeps(w: World, s: State, i: nat, result: LookupResult, read: real, at: real,
                                        clock: real)
    requires Inv(w, s, clock) && clock <= at && i < |s.flights| && s.flights[i].started <= read <= at
    requires result.Found? ==> Vouched(w.verify, w.tables(read), s.flights[i].key, result.identity)
    ensures Inv(w, Landed(w, s, i, result, read, at), at)
  {
    var t := Landed(w, s, i, result, read, at);
    assert forall l :: l in s.lookups ==> l in t.lookups;
    forall ck | ck in t.cache ensures EntryOk(w, t, ck, t.cache[ck]) {
      assert ck in s.cache ==> EntryOk(w, s, ck, s.cache[ck]);
    }
    forall j | 0 <= j < |t.outcomes| ensures Backed(w, t, t.outcomes[j]) {
      assert j < |s.outcomes| ==> Backed(w, s, s.outcomes[j]);
    }
  }

  /**
   Freshness. In every interleaving, each successful authentication rests on a lookup of that very key
   which found an active row that verifies it, and which is either the call's own or no older than the
   TTL plus the time the lookup itself took.
   */
  lemma {:induction false} SuccessIsBacked(w: World, events: seq<Event>)
    requires Injective(w.hash) && Timed(events)
    ensures forall i :: 0 <= i < |Play(w, events).outcomes| ==> Backed(w, Play(w, events), Play(w, events).outcomes[i])
  {
    if events != [] {
      PlayKeeps(w, events);
    }
  }

  /**
   The cache is used: once a lookup has succeeded at `t`, a call for the same key before `t` plus the TTL is
   answered from it and asks nothing, as long as only calls and evictions come in between.
   */
  lemma {:induction false} SuccessIsServed(w: World, s: State, i: nat, read: real, t: real, between: seq<Event>,
                                           key: string, at: real)
    requires i < |s.flights| && s.flights[i].open && s.flights[i].started <= read <= t && s.flights[i].key == key
    requires LookupOf(w.verify, w.tables(read), true, key).Found? && at < t + w.ttl
    requires forall j :: 0 <= j < |between| ==> !between[j].Done? && between[j].at <= at
    ensures var mid := After(w, Next(w, s, Done(i, read, true, t)), between);
            var end := Next(w, mid, Call(key, at));
            && end.flights == mid.flights && end.lookups == mid.lookups
            && |end.outcomes| == |mid.outcomes| + 1
            && end.outcomes[|mid.outcomes|].result == LookupOf(w.verify, w.tables(read), true, key)
  {
    var landed := Next(w, s, Done(i, read, true, t));
    EntryStays(w, landed, between, w.hash(key), at);
  }

  function After(w: World, s: State, events: seq<Event>): State {
    if events == [] then s else Next(w, After(w, s, events[..|events| - 1]), events[|events| - 1])
  }

  lemma {:induction false} EntryStays(w: World, s: State, events: seq<Event>, ck: string, at: real)
    requires ck in s.cache && at < s.cache[ck].expiresAt
    requires forall j :: 0 <= j < |events| ==> !events[j].Done? && events[j].at <= at
    ensures ck in After(w, s, events).cache && After(w, s, events).cache[ck] == s.cache[ck]
  {
    if events != [] {
      EntryStays(w, s, events[..|events| - 1], ck, at);
    }
  }

  /** From `r` on no table has an active row that verifies the key. */
  ghost predicate RevokedFrom(w: World, key: string, r: real) {
    forall t, identity :: t >= r ==> !Vouched(w.verify, w.tables(t), key, identity)
  }

  /**
   Revocation takes effect: a key revoked at `r` is served by no call at or after `r` plus the TTL plus
   the duration of the lookup that backs the call.
   */
  lemma {:induction false} RevocationTakesEffect(w: World, events: seq<Event>, key: string, r: real, i: nat)
    requires Injective(w.hash) && Timed(events) && RevokedFrom(w, key, r) && i < |Play(w, events).outcomes|
    ensures var o := Play(w, events).outcomes[i];
            o.key == key && o.result.Found? ==>
              && o.source.Some?
              && o.at < r + (if w.ttl > 0.0 then w.ttl else 0.0) + (o.source.value.finished - o.source.value.started)
  {
    SuccessIsBacked(w, events);
    var o := Play(w, events).outcomes[i];
    assert Backed(w, Play(w, events), o);
    if o.key == key && o.result.Found? {
      assert o.source.value.read < r;
    }
  }

  lemma {:induction false} PlayKeeps(w: World, events: seq<Event>)
    requires Injective(w.hash) && Timed(events) && events != []
    ensures Inv(w, Play(w, events), events[|events| - 1].at)
  {
    var front, last := events[..|events| - 1], events[|events| - 1];
    if front == [] {
      assert Play(w, front) == State(map[], [], [], []);
      StepKeeps(w, Play(w, front), last.at, last);
    } else {
      PlayKeeps(w, front);
      StepKeeps(w, Play(w, front), front[|front| - 1].at, last);
    }
  }

  function WithoutEvictions(events: seq<Event>): seq<Event> {
    if events == [] then []
    else
      WithoutEvictions(events[..|events| - 1]) + if events[|events| - 1].Evict? then [] else [events[|events| - 1]]
  }

  /** `s` is `t` with some already expired entries missing. */
  ghost predicate Pruned(s: State, t: State, clock: real) {
    && s.flights == t.flights && s.lookups == t.lookups && s.outcomes == t.outcomes
    && (forall ck :: ck in s.cache ==> ck in t.cache && s.cache[ck] == t.cache[ck])
    && (forall ck :: ck in t.cache && ck !in s.cache ==> t.cache[ck].expiresAt < clock)
  }

  lemma {:induction false} PrunedStep(w: World, s: State, t: State, clock: real, e: Event)
    requires Pruned(s, t, clock) && clock <= e.at
    ensures Pruned(Next(w, s, e), if e.Evict? then t else Next(w, t, e), e.at)
  {
    match e
    case Call(key, at) => assert Hit(s.cache, w.hash(key), at) <==> Hit(t.cache, w.hash(key), at);
    case Done(i, read, reachable, at) =>
    case Evict(at) =>
  }

  /**
   Evictions are invisible: leaving all of them out changes neither what any call returned nor which
   calls reached the database.
   */
  lemma {:induction false} EvictionIsInvisible(w: World, events: seq<Event>)
    requires Timed(events)
    ensures var s, t := Play(w, events), Play(w, WithoutEvictions(events));
            s.outcomes == t.outcomes && s.flights == t.flights && s.lookups == t.lookups
  {
    if events != [] {
      PlayPruned(w, events);
    }
  }

  lemma {:induction false} PlayPruned(w: World, events: seq<Event>)
    requires Timed(events) && events != []
    ensures Pruned(Play(w, events), Play(w, WithoutEvictions(events)), events[|events| - 1].at)
  {
    var front, last := events[..|events| - 1], events[|events| - 1];
    var rest := WithoutEvictions(front);
    if front != [] {
      PlayPruned(w, front);
    }
    PrunedStep(w, Play(w, front), Play(w, rest), if front == [] then last.at else front[|front| - 1].at, last);
    if last.Evict? {
      assert WithoutEvictions(events) == rest;
    } else {
      assert WithoutEvictions(events)[..|rest|] == rest;
    }
  }
}
