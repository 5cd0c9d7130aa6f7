/**
 Budget configuration: which buckets apply to a request, in what order, and under which Redis keys.
 The rows come from the database; reading them is a parameter here.
 */
module Config {
  import opened Options
  import opened Buckets
  import opened Script

  datatype ConfigKey = ConfigKey(tenant: string, agent: string, task: string)

  type Budgets = map<ConfigKey, Limits>

  /** One row of the budgets table; None is SQL NULL. */
  datatype Row = Row(tenant: string, agent: Option<string>, task: Option<string>,
                     tokenLimit: Option<int>, dollarLimit: Option<real>, refillPerMinute: Option<real>)

  /** What scanning the next row yields. */
  datatype Scan = Scanned(row: Row) | ScanFailed

  function RowKey(r: Row): ConfigKey {
    ConfigKey(r.tenant, r.agent.GetOr(""), r.task.GetOr(""))
  }

  function RowLimits(r: Row): Limits {
    var perSec := r.refillPerMinute.GetOr(0.0) / 60.0;
    Limits(r.tokenLimit.GetOr(0),
           r.dollarLimit.GetOr(0.0),
           if r.tokenLimit.Some? then perSec else 0.0,
           if r.dollarLimit.None? then 0.0
           else if r.tokenLimit.Some? && r.tokenLimit.value > 0
               then perSec * (r.dollarLimit.value / r.tokenLimit.value as real)
           else r.dollarLimit.value / 60.0)
  }

  /** Later rows win, as when a map is filled row by row. */
  function Loaded(rows: seq<Row>): Budgets {
    if rows == [] then map[]
    else
      var last := rows[|rows| - 1];
      Loaded(rows[..|rows| - 1])[RowKey(last) := RowLimits(last)]
  }

  function Key(tenant: string, agent: string, task: string, scope: Scope): string {
    match scope
    case TaskScope => "budget:" + tenant + ":" + agent + ":" + task
    case AgentScope => "budget:" + tenant + ":" + agent + ":-"
    case TenantScope => "budget:" + tenant + ":-:-"
  }

  function ScopeOf(c: ConfigKey): Scope {
    if c.task != "" then TaskScope else if c.agent != "" then AgentScope else TenantScope
  }

  /** The Redis key under which the bucket of a configured row lives. */
  function RedisKey(c: ConfigKey): string {
    Key(c.tenant, c.agent, c.task, ScopeOf(c))
  }

  function RefOf(data: Budgets, c: ConfigKey): BucketRef
    requires c in data
  {
    BucketRef(ScopeOf(c), RedisKey(c), data[c])
  }

  /** The buckets that apply to a request, most specific first: the rows that exist for its task, agent and tenant. */
  function Resolved(data: Budgets, tenant: string, agent: string, task: string): seq<BucketRef> {
    var k, a, t := ConfigKey(tenant, agent, task), ConfigKey(tenant, agent, ""), ConfigKey(tenant, "", "");
    (if task != "" && k in data then [RefOf(data, k)] else [])
    + (if agent != "" && a in data then [RefOf(data, a)] else [])
    + (if t in data then [RefOf(data, t)] else [])
  }

  /** The two rows configure the same tenant, agent and task; NULL is as good as blank. */
  predicate SameRow(r: Row, s: Row) {
    && r.tenant == s.tenant
    && (if r.agent.Some? then r.agent.value else "") == (if s.agent.Some? then s.agent.value else "")
    && (if r.task.Some? then r.task.value else "") == (if s.task.Some? then s.task.value else "")
  }

  /** What a row says its limits are, without dividing. */
  predicate LimitsOfRow(r: Row, l: Limits) {
    var perMinute := if r.refillPerMinute.Some? then r.refillPerMinute.value else 0.0;
    && (if r.tokenLimit.None? then l.tokenLimit == 0 && l.refillTokensPerSec == 0.0
        else l.tokenLimit == r.tokenLimit.value && 60.0 * l.refillTokensPerSec == perMinute)
    && (if r.dollarLimit.None? then l.dollarLimit == 0.0 && l.refillUSDPerSec == 0.0
        else
          && l.dollarLimit == r.dollarLimit.value
          && if r.tokenLimit.Some? && r.tokenLimit.value > 0 then
               60.0 * r.tokenLimit.value as real * l.refillUSDPerSec == perMinute * r.dollarLimit.value
             else 60.0 * l.refillUSDPerSec == r.dollarLimit.value)
  }

  lemma {:induction false} RowLimitsByFields(r: Row)
    ensures LimitsOfRow(r, RowLimits(r))
  {
    if r.dollarLimit.Some? && r.tokenLimit.Some? && r.tokenLimit.value > 0 {
      Proportion(r.refillPerMinute.GetOr(0.0), r.dollarLimit.value, r.tokenLimit.value as real);
    }
  }

  /** For example, 60000 tokens refilled by 600 a minute are refilled by ten a second. */
  lemma {:induction false} TenPerSecond(l: Limits)
    requires LimitsOfRow(Row("acme", None, None, Some(60000), None, Some(600.0)), l)
    ensures l == Limits(60000, 0.0, 10.0, 0.0)
  {
  }

  lemma {:induction false} Proportion(m: real, c: real, t: real)
    requires t > 0.0
    ensures 60.0 * t * (m / 60.0 * (c / t)) == m * c
  {
    var q := c / t;
    assert q * t == c;
    assert 60.0 * t * (m / 60.0 * q) == m * (q * t);
  }

  lemma {:induction false} LastRowWins(rows: seq<Row>, i: nat)
    requires i < |rows| && forall j :: i < j < |rows| ==> !SameRow(rows[i], rows[j])
    ensures RowKey(rows[i]) in Loaded(rows) && Loaded(rows)[RowKey(rows[i])] == RowLimits(rows[i])
  {
    var n := |rows| - 1;
    if i < n {
      LastRowWins(rows[..n], i);
      assert !SameRow(rows[i], rows[n]);
    }
  }

  lemma {:induction false} FromSomeRow(rows: seq<Row>, c: ConfigKey) returns (i: nat)
    requires c in Loaded(rows)
    ensures i < |rows| && c == RowKey(rows[i])
  {
    var n := |rows| - 1;
    if c == RowKey(rows[n]) {
      i := n;
    } else {
      i := FromSomeRow(rows[..n], c);
    }
  }

  class ConfigCache {
    var data: Budgets

    constructor ()
      ensures data == map[]
    {
      data := map[];
    }

    method Seed(tenant: string, agent: string, task: string, limits: Limits)
      modifies this
      ensures data == old(data)[ConfigKey(tenant, agent, task) := limits]
    {
      data := data[ConfigKey(tenant, agent, task) := limits];
    }

    /**
     One reload: the snapshot is replaced whole, or kept whole when any row fails. The last row of each key
     gives its limits: its own, a refill per second of a sixtieth of its refill per minute, and for dollars
     that refill in proportion to the two limits, or a sixtieth of the limit when no tokens are limited.
     */
    method Refresh(scans: seq<Scan>) returns (ok: bool)
      modifies this
      ensures ok <==> forall i :: 0 <= i < |scans| ==> scans[i].Scanned?
      ensures ok ==> data == Loaded(seq(|scans|, i requires 0 <= i < |scans| && scans[i].Scanned? => scans[i].row))
      ensures !ok ==> data == old(data)
      ensures ok ==>
                forall i :: 0 <= i < |scans| && scans[i].Scanned?
                            && (forall j :: i < j < |scans| && scans[j].Scanned?
                                  ==> !SameRow(scans[i].row, scans[j].row)) ==>
                  var r := scans[i].row;
                  var c := ConfigKey(r.tenant, if r.agent.Some? then r.agent.value else "",
                                     if r.task.Some? then r.task.value else "");
                  c in data && LimitsOfRow(r, data[c])
      ensures ok ==> forall c :: c in data
                       ==> exists i :: 0 <= i < |scans| && scans[i].Scanned? && c == RowKey(scans[i].row)
    {
      ok := Reload(scans);
      if ok {
        var rows := seq(|scans|, i requires 0 <= i < |scans| && scans[i].Scanned? => scans[i].row);
        forall i | 0 <= i < |scans| && forall j :: i < j < |scans| ==> !SameRow(scans[i].row, scans[j].row)
          ensures RowKey(rows[i]) in data && LimitsOfRow(rows[i], data[RowKey(rows[i])])
        {
          LastRowWins(rows, i);
          RowLimitsByFields(rows[i]);
        }
        forall c | c in data ensures exists i :: 0 <= i < |scans| && scans[i].Scanned? && c == RowKey(scans[i].row) {
          var i := FromSomeRow(rows, c);
          assert rows[i] == scans[i].row;
        }
      }
    }

    /** The loop over the rows, and the swap. */
    method Reload(scans: seq<Scan>) returns (ok: bool)
      modifies this
      ensures ok <==> forall i :: 0 <= i < |scans| ==> scans[i].Scanned?
      ensures ok ==> data == Loaded(seq(|scans|, i requires 0 <= i < |scans| && scans[i].Scanned? => scans[i].row))
      ensures !ok ==> data == old(data)
    {
      var next: Budgets := map[];
      ghost var rows: seq<Row> := [];
      for i := 0 to |scans|
        invariant data == old(data)
        invariant |rows| == i && forall j :: 0 <= j < i ==> scans[j].Scanned? && rows[j] == scans[j].row
        invariant next == Loaded(rows)
      {
        if scans[i].ScanFailed? {
          return false;
        }
        var r := scans[i].row;
        var key := ConfigKey(r.tenant, "", "");
        if r.agent.Some? {
          key := key.(agent := r.agent.value);
        }
        if r.task.Some? {
          key := key.(task := r.task.value);
        }
        var limits := DeriveLimits(r);
        next := next[key := limits];
        assert (rows + [r])[..|rows + [r]| - 1] == rows;
        rows := rows + [r];
      }
      data := next;
      assert rows == seq(|scans|, i requires 0 <= i < |scans| && scans[i].Scanned? => scans[i].row);
      ok := true;
    }

    /** The limits of one row: dollars refill on the schedule of the tokens, scaled to the dollar cap. */
    method DeriveLimits(r: Row) returns (limits: Limits)
      ensures limits == RowLimits(r)
    {
      var refillPerSec := 0.0;
      if r.refillPerMinute.Some? {
        refillPerSec := r.refillPerMinute.value / 60.0;
      }
      limits := Limits(0, 0.0, 0.0, 0.0);
      if r.tokenLimit.Some? {
        limits := limits.(tokenLimit := r.tokenLimit.value, refillTokensPerSec := refillPerSec);
      }
      if r.dollarLimit.Some? {
        limits := limits.(dollarLimit := r.dollarLimit.value);
        if r.tokenLimit.Some? && r.tokenLimit.value > 0 {
          limits := limits.(refillUSDPerSec := refillPerSec * (r.dollarLimit.value / r.tokenLimit.value as real));
        } else {
          limits := limits.(refillUSDPerSec := r.dollarLimit.value / 60.0);
        }
      }
    }

    method Resolve(tenant: string, agent: string, task: string) returns (refs: seq<BucketRef>)
      ensures refs == Resolved(data, tenant, agent, task)
      ensures refs ==
              (if task != "" && ConfigKey(tenant, agent, task) in data then
                 [BucketRef(TaskScope, "budget:" + tenant + ":" + agent + ":" + task,
                            data[ConfigKey(tenant, agent, task)])]
               else [])
              + (if agent != "" && ConfigKey(tenant, agent, "") in data then
                   [BucketRef(AgentScope, "budget:" + tenant + ":" + agent + ":-", data[ConfigKey(tenant, agent, "")])]
                 else [])
              + (if ConfigKey(tenant, "", "") in data then
                   [BucketRef(TenantScope, "budget:" + tenant + ":-:-", data[ConfigKey(tenant, "", "")])]
                 else [])
    {
      refs := [];
      if task != "" {
        var c := ConfigKey(tenant, agent, task);
        if c in data {
          refs := refs + [BucketRef(TaskScope, Key(tenant, agent, task, TaskScope), data[c])];
        }
      }
      if agent != "" {
        var c := ConfigKey(tenant, agent, "");
        if c in data {
          refs := refs + [BucketRef(AgentScope, Key(tenant, agent, "", AgentScope), data[c])];
        }
      }
      var c := ConfigKey(tenant, "", "");
      if c in data {
        refs := refs + [BucketRef(TenantScope, Key(tenant, "", "", TenantScope), data[c])];
      }
    }
  }

  /** A request is looked up under the row `c`. */
  predicate Reaches(c: ConfigKey, tenant: string, agent: string, task: string) {
    || (task != "" && c == ConfigKey(tenant, agent, task))
    || (agent != "" && c == ConfigKey(tenant, agent, ""))
    || c == ConfigKey(tenant, "", "")
  }

  /**
   What installing one entry does to requests: exactly those looked up under it see it, once, among the
   buckets they would have without it and in place of whatever was installed there before.
   */
  lemma {:induction false} SeedReaches(data: Budgets, c: ConfigKey, limits: Limits, tenant: string, agent: string,
                                       task: string)
    ensures var before, after := Resolved(data - {c}, tenant, agent, task),
                                 Resolved(data[c := limits], tenant, agent, task);
            if Reaches(c, tenant, agent, task) then
              exists i :: InsertedAt(before, after, i, BucketRef(ScopeOf(c), RedisKey(c), limits))
            else after == before == Resolved(data, tenant, agent, task)
  {
    var before, after := Resolved(data - {c}, tenant, agent, task), Resolved(data[c := limits], tenant, agent, task);
    var k, a := ConfigKey(tenant, agent, task), ConfigKey(tenant, agent, "");
    var hasTask, hasAgent := task != "" && k in data, agent != "" && a in data;
    if Reaches(c, tenant, agent, task) {
      var i := if task != "" && c == k then 0
               else if agent != "" && c == a then if hasTask then 1 else 0
               else (if hasTask then 1 else 0) + if hasAgent then 1 else 0;
      assert InsertedAt(before, after, i, BucketRef(ScopeOf(c), RedisKey(c), limits));
    }
  }

  ghost predicate InsertedAt(before: seq<BucketRef>, after: seq<BucketRef>, i: int, ref: BucketRef) {
    0 <= i <= |before| && after == before[..i] + [ref] + before[i..]
  }

  /** Every resolved bucket is a configured row, found among the lookups. */
  lemma {:induction false} ResolvedFrom(data: Budgets, tenant: string, agent: string, task: string, i: nat)
      returns (c: ConfigKey)
    requires i < |Resolved(data, tenant, agent, task)|
    ensures c in data && c.tenant == tenant && Resolved(data, tenant, agent, task)[i] == RefOf(data, c)
    ensures c == ConfigKey(tenant, agent, task) || c == ConfigKey(tenant, agent, "") || c == ConfigKey(tenant, "", "")
  {
    var k, a, t := ConfigKey(tenant, agent, task), ConfigKey(tenant, agent, ""), ConfigKey(tenant, "", "");
    var r := Resolved(data, tenant, agent, task)[i];
    if task != "" && k in data && r == RefOf(data, k) { c := k; }
    else if agent != "" && a in data && r == RefOf(data, a) { c := a; }
    else { c := t; }
  }

  predicate Plain(s: string) {
    ':' !in s
  }

  /** Identifiers that cannot be confused inside a Redis key. */
  predicate WellFormed(c: ConfigKey) {
    Plain(c.tenant) && Plain(c.agent) && c.agent != "-" && c.task != "-"
  }

  ghost predicate AllWellFormed(data: Budgets) {
    forall c :: c in data ==> WellFormed(c)
  }

  lemma {:induction false} FirstColon(x: string, xs: string, y: string, ys: string)
    requires Plain(x) && Plain(y) && x + ":" + xs == y + ":" + ys
    ensures x == y && xs == ys
  {
    var left, right := x + ":" + xs, y + ":" + ys;
    assert left[|x|] == ':' && right[|y|] == ':';
    assert forall i :: 0 <= i < |x| ==> left[i] == x[i];
    assert forall i :: 0 <= i < |y| ==> right[i] == y[i];
    assert |x| == |y|;
    assert x == left[..|x|] && y == right[..|y|];
    assert xs == left[|x| + 1..] && ys == right[|y| + 1..];
  }

  function AgentPart(c: ConfigKey): string {
    if ScopeOf(c).TenantScope? then "-" else c.agent
  }

  function TaskPart(c: ConfigKey): string {
    if ScopeOf(c).TaskScope? then c.task else "-"
  }

  lemma {:induction false} KeyParts(c: ConfigKey)
    ensures RedisKey(c) == "budget:" + (c.tenant + ":" + (AgentPart(c) + ":" + TaskPart(c)))
  {
    assert ":" + "-" == ":-" && ":-" + ":-" == ":-:-";
    match ScopeOf(c)
    case TaskScope =>
    case AgentScope => assert c.agent + ":-" == c.agent + ":" + "-";
    case TenantScope => assert c.tenant + ":-:-" == c.tenant + ":" + ("-" + ":" + "-");
  }

  /** Distinct well-formed rows never share a Redis key, whatever tenant, agent or task they belong to. */
  lemma {:induction false} KeyInjective(c1: ConfigKey, c2: ConfigKey)
    requires WellFormed(c1) && WellFormed(c2) && RedisKey(c1) == RedisKey(c2)
    ensures c1 == c2
  {
    KeyParts(c1);
    KeyParts(c2);
    var r1, r2 := AgentPart(c1) + ":" + TaskPart(c1), AgentPart(c2) + ":" + TaskPart(c2);
    assert c1.tenant + ":" + r1 == RedisKey(c1)[7..] == RedisKey(c2)[7..] == c2.tenant + ":" + r2;
    FirstColon(c1.tenant, r1, c2.tenant, r2);
    FirstColon(AgentPart(c1), TaskPart(c1), AgentPart(c2), TaskPart(c2));
  }

  /** The limits behind each Redis key. */
  type Catalog = map<string, Limits>

  ghost predicate IsCatalog(data: Budgets, cat: Catalog) {
    && (forall c :: c in data ==> RedisKey(c) in cat && cat[RedisKey(c)] == data[c])
    && forall key :: key in cat ==> exists c :: c in data && RedisKey(c) == key
  }

  lemma {:induction false} CatalogExists(data: Budgets) returns (cat: Catalog)
    requires AllWellFormed(data)
    ensures IsCatalog(data, cat)
  {
    forall c1, c2 | c1 in data && c2 in data && RedisKey(c1) == RedisKey(c2) ensures c1 == c2 {
      KeyInjective(c1, c2);
    }
    cat := map c | c in data :: RedisKey(c) := data[c];
  }

  ghost predicate FromCatalog(cat: Catalog, refs: seq<BucketRef>) {
    forall i :: 0 <= i < |refs| ==> refs[i].key in cat && cat[refs[i].key] == refs[i].limits
  }

  ghost predicate DistinctKeys(refs: seq<BucketRef>) {
    forall i, j :: 0 <= i < j < |refs| ==> refs[i].key != refs[j].key
  }

  function Rank(s: Scope): nat {
    match s
    case TaskScope => 0
    case AgentScope => 1
    case TenantScope => 2
  }

  /**
   With well-formed identifiers, Resolve yields pairwise distinct keys, most specific scope first,
   each with the limits of its own row.
   */
  lemma {:induction false} ResolveIsSound(data: Budgets, cat: Catalog, tenant: string, agent: string, task: string)
    requires AllWellFormed(data) && IsCatalog(data, cat)
    ensures var refs := Resolved(data, tenant, agent, task);
            && FromCatalog(cat, refs) && Consistent(refs) && DistinctKeys(refs)
            && forall i, j :: 0 <= i < j < |refs| ==> Rank(refs[i].scope) < Rank(refs[j].scope)
  {
    var refs := Resolved(data, tenant, agent, task);
    forall i | 0 <= i < |refs| ensures refs[i].key in cat && cat[refs[i].key] == refs[i].limits {
      var c := ResolvedFrom(data, tenant, agent, task, i);
    }
    forall i, j | 0 <= i < j < |refs|
      ensures Rank(refs[i].scope) < Rank(refs[j].scope) && refs[i].key != refs[j].key
    {
      ResolveOrder(data, tenant, agent, task, i, j);
    }
    forall i, j | 0 <= i < |refs| && 0 <= j < |refs| && refs[i].key == refs[j].key
      ensures refs[i].limits == refs[j].limits
    {
      assert cat[refs[i].key] == refs[i].limits && cat[refs[j].key] == refs[j].limits;
    }
  }

  lemma {:induction false} ResolveOrder(data: Budgets, tenant: string, agent: string, task: string, i: nat, j: nat)
    requires AllWellFormed(data) && i < j < |Resolved(data, tenant, agent, task)|
    ensures var refs := Resolved(data, tenant, agent, task);
            Rank(refs[i].scope) < Rank(refs[j].scope) && refs[i].key != refs[j].key
  {
    var c1 := ResolvedFrom(data, tenant, agent, task, i);
    var c2 := ResolvedFrom(data, tenant, agent, task, j);
    var refs := Resolved(data, tenant, agent, task);
    assert Rank(refs[i].scope) < Rank(refs[j].scope);
    if RedisKey(c1) == RedisKey(c2) {
      KeyInjective(c1, c2);
    }
  }

  /**
   Exactly when one request's buckets collide. Colons are harmless inside one request; the two
   troublemakers are a task or an agent whose identifier is a lone dash.
   */
  lemma {:induction false} DistinctExactly(data: Budgets, tenant: string, agent: string, task: string)
    ensures var k, a, t := task != "" && ConfigKey(tenant, agent, task) in data,
                           agent != "" && ConfigKey(tenant, agent, "") in data, ConfigKey(tenant, "", "") in data;
            DistinctKeys(Resolved(data, tenant, agent, task)) <==>
            && !(k && a && task == "-")
            && !(a && t && agent == "-")
            && !(k && t && agent == "-" && task == "-")
  {
    var refs := Resolved(data, tenant, agent, task);
    var k, a, t := task != "" && ConfigKey(tenant, agent, task) in data,
                   agent != "" && ConfigKey(tenant, agent, "") in data, ConfigKey(tenant, "", "") in data;
    TaskVersusAgent(tenant, agent, task);
    if agent != "" {
      AgentVersusTenant(tenant, agent);
    }
    if task != "" {
      TaskVersusTenant(tenant, agent, task);
    }
    if k && a {
      assert refs[0].key == Key(tenant, agent, task, TaskScope) && refs[1].key == Key(tenant, agent, "", AgentScope);
    }
    if a && t {
      assert refs[|refs| - 2].key == Key(tenant, agent, "", AgentScope)
             && refs[|refs| - 1].key == Key(tenant, "", "", TenantScope);
    }
    if k && t {
      assert refs[0].key == Key(tenant, agent, task, TaskScope)
             && refs[|refs| - 1].key == Key(tenant, "", "", TenantScope);
    }
  }

  lemma {:induction false} TaskVersusAgent(tenant: string, agent: string, task: string)
    ensures Key(tenant, agent, task, TaskScope) == Key(tenant, agent, "", AgentScope) <==> task == "-"
  {
    var prefix := "budget:" + tenant + ":" + agent + ":";
    assert Key(tenant, agent, task, TaskScope) == prefix + task;
    assert Key(tenant, agent, "", AgentScope) == prefix + "-" by {
      assert ":-" == ":" + "-";
    }
    assert (prefix + task)[|prefix|..] == task && (prefix + "-")[|prefix|..] == "-";
  }

  lemma {:induction false} AgentVersusTenant(tenant: string, agent: string)
    ensures Key(tenant, agent, "", AgentScope) == Key(tenant, "", "", TenantScope) <==> agent == "-"
  {
    var prefix := "budget:" + tenant + ":";
    assert Key(tenant, agent, "", AgentScope) == prefix + (agent + ":-");
    assert Key(tenant, "", "", TenantScope) == prefix + "-:-" by {
      assert ":-:-" == ":" + "-:-";
    }
    assert (prefix + (agent + ":-"))[|prefix|..] == agent + ":-" && (prefix + "-:-")[|prefix|..] == "-:-";
    if agent + ":-" == "-:-" {
      assert |agent| == 1 && (agent + ":-")[0] == agent[0];
      assert agent == [agent[0]] == "-";
    }
    assert agent == "-" ==> agent + ":-" == "-:-";
  }

  lemma {:induction false} TaskVersusTenant(tenant: string, agent: string, task: string)
    requires task != ""
    ensures Key(tenant, agent, task, TaskScope) == Key(tenant, "", "", TenantScope) <==> agent == "-" && task == "-"
  {
    var prefix := "budget:" + tenant + ":";
    assert Key(tenant, agent, task, TaskScope) == prefix + (agent + ":" + task);
    assert Key(tenant, "", "", TenantScope) == prefix + "-:-" by {
      assert ":-:-" == ":" + "-:-";
    }
    var mid := agent + ":" + task;
    assert (prefix + mid)[|prefix|..] == mid && (prefix + "-:-")[|prefix|..] == "-:-";
    if mid == "-:-" {
      assert mid[|agent|] == ':';
      assert |agent| == 1 && agent[0] == mid[0] && task[0] == mid[2];
      assert agent == [agent[0]] == "-" && task == [task[0]] == "-";
    }
    assert agent == "-" && task == "-" ==> mid == "-:-";
  }

  /** A configured tenant bucket is charged by every request of that tenant, and by no other tenant's. */
  lemma {:induction false} TenantBucketCovers(data: Budgets, tenant: string, who: string, agent: string, task: string)
    requires AllWellFormed(data) && ConfigKey(tenant, "", "") in data
    ensures HasKey(Resolved(data, who, agent, task), RedisKey(ConfigKey(tenant, "", ""))) <==> who == tenant
  {
    var refs, key := Resolved(data, who, agent, task), RedisKey(ConfigKey(tenant, "", ""));
    if who == tenant {
      assert refs[|refs| - 1].key == key;
    } else if HasKey(refs, key) {
      var i :| 0 <= i < |refs| && refs[i].key == key;
      var c := ResolvedFrom(data, who, agent, task, i);
      KeyInjective(c, ConfigKey(tenant, "", ""));
    }
  }
}
