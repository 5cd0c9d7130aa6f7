/**
 The deterministic policy engine: the only place where an advisor's suggestion becomes an outcome.
 */
module Policy {
  import opened Options
  import opened Buckets
  import opened Enforcement
  import opened Pricing

  datatype SuggestionType =
    SwitchModel | ReduceMaxTokens | SummarizeFirst | ReduceToolCalls | Unrecognized(name: string)

  datatype Suggestion = Suggestion(kind: SuggestionType, model: string, maxTokens: int, confidence: real,
                                   riskNote: string)

  /** The throttled request; the remaining balances are the integers Redis replied with. */
  datatype Context = Context(requestedModel: string, requestedTokens: int, remainingTokens: int, remainingUSD: int,
                             failedScope: Option<Scope>, failReason: Reason)

  datatype PolicyConfig = PolicyConfig(minConfidence: real, minPartialAllowanceTokens: int)

  datatype Action = Reject | RetryWithModel | PartialAllowance

  datatype Outcome = Outcome(action: Action, model: string, maxTokens: int, reason: Reason, advice: string)

  function TypeName(t: SuggestionType): string {
    match t
    case SwitchModel => "switch_model"
    case ReduceMaxTokens => "reduce_max_tokens"
    case SummarizeFirst => "summarize_first"
    case ReduceToolCalls => "reduce_tool_calls"
    case Unrecognized(name) => name
  }

  /** A switch the pricing table itself vouches for. */
  predicate Verified(requested: string, suggested: string) {
    suggested != "" && suggested != requested && suggested in Cheaper(requested)
  }

  function Allowance(ctx: Context, s: Suggestion): int {
    if s.maxTokens > ctx.remainingTokens then ctx.remainingTokens else s.maxTokens
  }

  /** A suggestion the gateway would act on. */
  predicate Acceptable(ctx: Context, s: Suggestion, cfg: PolicyConfig) {
    && s.confidence >= cfg.minConfidence
    && match s.kind
       case SwitchModel => Verified(ctx.requestedModel, s.model)
       case ReduceMaxTokens => cfg.minPartialAllowanceTokens <= Allowance(ctx, s) < ctx.requestedTokens
       case _ => false
  }

  /** A confident suggestion the gateway can only pass on. */
  predicate Notable(s: Suggestion, cfg: PolicyConfig) {
    s.confidence >= cfg.minConfidence && (s.kind.SummarizeFirst? || s.kind.ReduceToolCalls?)
  }

  ghost predicate NoneBefore(ctx: Context, suggestions: seq<Suggestion>, cfg: PolicyConfig, n: nat)
    requires n <= |suggestions|
  {
    forall i :: 0 <= i < n ==> !Acceptable(ctx, suggestions[i], cfg)
  }

  /** The note of the best-ranked suggestion worth passing on, or nothing. */
  ghost predicate IsNote(suggestions: seq<Suggestion>, cfg: PolicyConfig, n: nat, note: string)
    requires n <= |suggestions|
  {
    if note == "" then forall i :: 0 <= i < n ==> !Notable(suggestions[i], cfg)
    else exists i :: 0 <= i < n && Notable(suggestions[i], cfg)
                     && note == TypeName(suggestions[i].kind) + ": " + suggestions[i].riskNote
                     && forall j :: 0 <= j < i ==> !Notable(suggestions[j], cfg)
  }

  /** A right outcome serves the best-ranked acceptable suggestion, or rejects when there is none. */
  ghost predicate Decides(ctx: Context, suggestions: seq<Suggestion>, cfg: PolicyConfig, r: Outcome) {
    match r.action
    case RetryWithModel =>
      exists i :: 0 <= i < |suggestions| && NoneBefore(ctx, suggestions, cfg, i) && Acceptable(ctx, suggestions[i], cfg)
                  && suggestions[i].kind.SwitchModel? && r
                  == Outcome(RetryWithModel, suggestions[i].model, 0, NoReason, suggestions[i].riskNote)
    case PartialAllowance =>
      exists i :: 0 <= i < |suggestions| && NoneBefore(ctx, suggestions, cfg, i) && Acceptable(ctx, suggestions[i], cfg)
                  && suggestions[i].kind.ReduceMaxTokens?
                  && r == Outcome(PartialAllowance, "", Allowance(ctx, suggestions[i]), NoReason,
                                  suggestions[i].riskNote)
    case Reject =>
      NoneBefore(ctx, suggestions, cfg, |suggestions|) && r == Outcome(Reject, "", 0, ctx.failReason, r.advice)
      && IsNote(suggestions, cfg, |suggestions|, r.advice)
  }

  method IsVerifiedCheaperModel(requested: string, suggested: string) returns (ok: bool)
    ensures ok <==> Verified(requested, suggested)
  {
    if suggested == "" || suggested == requested {
      return false;
    }
    var alternatives := CheaperAlternatives(requested);
    for i := 0 to |alternatives|
      invariant forall j :: 0 <= j < i ==> alternatives[j] != suggested
    {
      if alternatives[i] == suggested {
        return true;
      }
    }
    ok := false;
  }

  method Decide(ctx: Context, suggestions: seq<Suggestion>, cfg: PolicyConfig) returns (r: Outcome)
    ensures Decides(ctx, suggestions, cfg, r)
    ensures r.action.RetryWithModel? ==>
              exists i :: 0 <= i < |suggestions| && suggestions[i].confidence >= cfg.minConfidence
                          && suggestions[i].kind.SwitchModel? && suggestions[i].model in PRICES
                          && r == Outcome(RetryWithModel, suggestions[i].model, 0, NoReason, suggestions[i].riskNote)
    ensures r.action.PartialAllowance? ==>
              exists i :: 0 <= i < |suggestions| && suggestions[i].confidence >= cfg.minConfidence
                          && suggestions[i].kind.ReduceMaxTokens?
                          && var least := if suggestions[i].maxTokens < ctx.remainingTokens
                          then suggestions[i].maxTokens
                                          else ctx.remainingTokens;
                             && cfg.minPartialAllowanceTokens <= least < ctx.requestedTokens
                             && r == Outcome(PartialAllowance, "", least, NoReason, suggestions[i].riskNote)
    ensures |suggestions| > 0 && suggestions[0].confidence >= cfg.minConfidence
            && suggestions[0].kind.ReduceMaxTokens? ==>
              var least := if suggestions[0].maxTokens < ctx.remainingTokens then suggestions[0].maxTokens
                           else ctx.remainingTokens;
              cfg.minPartialAllowanceTokens <= least < ctx.requestedTokens ==>
                r == Outcome(PartialAllowance, "", least, NoReason, suggestions[0].riskNote)
    ensures (forall i :: 0 <= i < |suggestions| ==> suggestions[i].confidence < cfg.minConfidence) ==>
              r == Outcome(Reject, "", 0, ctx.failReason, "")
  {
    var advisoryNote := "";
    for i := 0 to |suggestions|
      invariant NoneBefore(ctx, suggestions, cfg, i)
      invariant IsNote(suggestions, cfg, i, advisoryNote)
    {
      var s := suggestions[i];
      if s.confidence < cfg.minConfidence {
        continue;
      }
      match s.kind
      case SwitchModel =>
        var ok := IsVerifiedCheaperModel(ctx.requestedModel, s.model);
        if ok {
          return Outcome(RetryWithModel, s.model, 0, NoReason, s.riskNote);
        }
      case ReduceMaxTokens =>
        var allowance := s.maxTokens;
        if allowance > ctx.remainingTokens {
          allowance := ctx.remainingTokens;
        }
        if allowance >= cfg.minPartialAllowanceTokens && allowance < ctx.requestedTokens {
          return Outcome(PartialAllowance, "", allowance, NoReason, s.riskNote);
        }
      case SummarizeFirst =>
        if advisoryNote == "" {
          advisoryNote := TypeName(s.kind) + ": " + s.riskNote;
        }
      case ReduceToolCalls =>
        if advisoryNote == "" {
          advisoryNote := TypeName(s.kind) + ": " + s.riskNote;
        }
      case Unrecognized(_) =>
    }
    r := Outcome(Reject, "", 0, ctx.failReason, advisoryNote);
  }

  /** When a switch is vouched for, by names and prices alone. */
  lemma {:induction false} VerifiedExactly(requested: string, suggested: string)
    ensures Verified(requested, suggested) <==>
            && suggested in PRICES && suggested != requested && FamilyOf(suggested) == FamilyOf(requested)
            && Normalize(requested) in PRICES && PRICES[suggested].output < PRICES[Normalize(requested)].output
  {
    assert "" !in PRICES;
  }

  /** What the first suggestion in rank, by its own fields, makes of the decision the others lead to. */
  predicate FirstByFields(ctx: Context, s: Suggestion, cfg: PolicyConfig, r: Outcome, rest: Outcome) {
    var least := if s.maxTokens < ctx.remainingTokens then s.maxTokens else ctx.remainingTokens;
    if s.confidence < cfg.minConfidence then r == rest
    else
      match s.kind
      case SwitchModel =>
        r == if Verified(ctx.requestedModel, s.model)
             then Outcome(RetryWithModel, s.model, 0, NoReason, s.riskNote) else rest
      case ReduceMaxTokens =>
        r == if cfg.minPartialAllowanceTokens <= least < ctx.requestedTokens
             then Outcome(PartialAllowance, "", least, NoReason, s.riskNote) else rest
      case SummarizeFirst =>
        r == if rest.action.Reject? then rest.(advice := "summarize_first: " + s.riskNote) else rest
      case ReduceToolCalls =>
        r == if rest.action.Reject? then rest.(advice := "reduce_tool_calls: " + s.riskNote) else rest
      case Unrecognized(_) => r == rest
  }

  /**
   What each suggestion does to the decision. The first in rank is served, noted or passed over; passing
   it over leaves the decision to the others, and noting it replaces their note.
   */
  lemma {:induction false} FirstSuggestion(ctx: Context, suggestions: seq<Suggestion>, cfg: PolicyConfig, r: Outcome,
                                           rest: Outcome)
    requires suggestions != [] && Decides(ctx, suggestions, cfg, r) && Decides(ctx, suggestions[1..], cfg, rest)
    ensures FirstByFields(ctx, suggestions[0], cfg, r, rest)
  {
    if Acceptable(ctx, suggestions[0], cfg) {
      ServedFirst(ctx, suggestions, cfg, r);
    } else {
      FirstIsPassed(ctx, suggestions, cfg, r, rest);
    }
    ByKind(ctx, suggestions[0], cfg, r, rest);
  }

  lemma {:induction false} ByKind(ctx: Context, s: Suggestion, cfg: PolicyConfig, r: Outcome, rest: Outcome)
    requires r == if Acceptable(ctx, s, cfg) then ServedBy(ctx, s)
             else if Notable(s, cfg) && rest.action.Reject? then rest.(advice := TypeName(s.kind) + ": " + s.riskNote)
             else rest
    ensures FirstByFields(ctx, s, cfg, r, rest)
  {
  }

  function ServedBy(ctx: Context, s: Suggestion): Outcome {
    if s.kind.SwitchModel? then Outcome(RetryWithModel, s.model, 0, NoReason, s.riskNote)
    else Outcome(PartialAllowance, "", Allowance(ctx, s), NoReason, s.riskNote)
  }

  lemma {:induction false} FirstIsPassed(ctx: Context, suggestions: seq<Suggestion>, cfg: PolicyConfig, r: Outcome,
                                         rest: Outcome)
    requires suggestions != [] && Decides(ctx, suggestions, cfg, r) && Decides(ctx, suggestions[1..], cfg, rest)
    requires !Acceptable(ctx, suggestions[0], cfg)
    ensures var s := suggestions[0];
            r == if Notable(s, cfg) && rest.action.Reject?
                 then rest.(advice := TypeName(s.kind) + ": " + s.riskNote) else rest
  {
    var s := suggestions[0];
    var note := if Notable(s, cfg) then TypeName(s.kind) + ": " + s.riskNote else rest.advice;
    PassedOver(ctx, suggestions, cfg, rest, note);
    DecisionIsUnique(ctx, suggestions, cfg, r, if rest.action.Reject? then rest.(advice := note) else rest);
  }

  /** With no suggestions the enforcer's rejection stands, without a note. */
  lemma {:induction false} NoSuggestions(ctx: Context, cfg: PolicyConfig, r: Outcome)
    requires Decides(ctx, [], cfg, r)
    ensures r == Outcome(Reject, "", 0, ctx.failReason, "")
  {
  }

  lemma {:induction false} ServedFirst(ctx: Context, suggestions: seq<Suggestion>, cfg: PolicyConfig, r: Outcome)
    requires suggestions != [] && Decides(ctx, suggestions, cfg, r) && Acceptable(ctx, suggestions[0], cfg)
    ensures r == ServedBy(ctx, suggestions[0])
  {
    assert !r.action.Reject?;
    var i := Served(ctx, suggestions, cfg, r);
  }

  lemma {:induction false} PassedOver(ctx: Context, suggestions: seq<Suggestion>, cfg: PolicyConfig, rest: Outcome,
                                      note: string)
    requires suggestions != [] && Decides(ctx, suggestions[1..], cfg, rest) && !Acceptable(ctx, suggestions[0], cfg)
    requires note == if Notable(suggestions[0], cfg)
             then TypeName(suggestions[0].kind) + ": " + suggestions[0].riskNote else rest.advice
    ensures Decides(ctx, suggestions, cfg, if rest.action.Reject? then rest.(advice := note) else rest)
  {
    if rest.action.Reject? {
      forall i | 0 <= i < |suggestions| ensures !Acceptable(ctx, suggestions[i], cfg) {
        assert i > 0 ==> suggestions[1..][i - 1] == suggestions[i];
      }
      NoteOfAll(suggestions, cfg, rest.advice, note);
    } else {
      var i := Served(ctx, suggestions[1..], cfg, rest);
      assert suggestions[i + 1] == suggestions[1..][i];
      forall j | 0 <= j < i + 1 ensures !Acceptable(ctx, suggestions[j], cfg) {
        assert j > 0 ==> suggestions[1..][j - 1] == suggestions[j];
      }
    }
  }

  lemma {:induction false} NoteOfAll(suggestions: seq<Suggestion>, cfg: PolicyConfig, later: string, note: string)
    requires suggestions != [] && IsNote(suggestions[1..], cfg, |suggestions| - 1, later)
    requires note == if Notable(suggestions[0], cfg)
             then TypeName(suggestions[0].kind) + ": " + suggestions[0].riskNote else later
    ensures IsNote(suggestions, cfg, |suggestions|, note)
  {
    if !Notable(suggestions[0], cfg) {
      if note == "" {
        forall i | 0 <= i < |suggestions| ensures !Notable(suggestions[i], cfg) {
          assert i > 0 ==> suggestions[1..][i - 1] == suggestions[i];
        }
      } else {
        var i :| 0 <= i < |suggestions| - 1 && Notable(suggestions[1..][i], cfg)
                 && note == TypeName(suggestions[1..][i].kind) + ": " + suggestions[1..][i].riskNote
                 && forall j :: 0 <= j < i ==> !Notable(suggestions[1..][j], cfg);
        assert suggestions[i + 1] == suggestions[1..][i];
        forall j | 0 <= j < i + 1 ensures !Notable(suggestions[j], cfg) {
          assert j > 0 ==> suggestions[1..][j - 1] == suggestions[j];
        }
      }
    }
  }

  /** The decision is determined: two right outcomes are the same outcome. */
  lemma {:induction false} DecisionIsUnique(ctx: Context, suggestions: seq<Suggestion>, cfg: PolicyConfig,
                                            r1: Outcome, r2: Outcome)
    requires Decides(ctx, suggestions, cfg, r1) && Decides(ctx, suggestions, cfg, r2)
    ensures r1 == r2
  {
    if r1.action.Reject? && r2.action.Reject? {
      NoteIsUnique(suggestions, cfg, |suggestions|, r1.advice, r2.advice);
    } else if !r1.action.Reject? && !r2.action.Reject? {
      var i := Served(ctx, suggestions, cfg, r1);
      var j := Served(ctx, suggestions, cfg, r2);
      assert i == j;
    } else {
      var i := Served(ctx, suggestions, cfg, if r1.action.Reject? then r2 else r1);
    }
  }

  /** The suggestion an acting outcome serves. */
  lemma {:induction false} Served(ctx: Context, suggestions: seq<Suggestion>, cfg: PolicyConfig, r: Outcome)
      returns (i: nat)
    requires Decides(ctx, suggestions, cfg, r) && !r.action.Reject?
    ensures i < |suggestions| && NoneBefore(ctx, suggestions, cfg, i) && Acceptable(ctx, suggestions[i], cfg)
    ensures suggestions[i].kind.SwitchModel? <==> r.action.RetryWithModel?
    ensures r == if r.action.RetryWithModel?
            then Outcome(RetryWithModel, suggestions[i].model, 0, NoReason, suggestions[i].riskNote)
                 else Outcome(PartialAllowance, "", Allowance(ctx, suggestions[i]), NoReason, suggestions[i].riskNote)
  {
    if r.action.RetryWithModel? {
      i :| 0 <= i < |suggestions| && NoneBefore(ctx, suggestions, cfg, i) && Acceptable(ctx, suggestions[i], cfg)
           && suggestions[i].kind.SwitchModel? && r
           == Outcome(RetryWithModel, suggestions[i].model, 0, NoReason, suggestions[i].riskNote);
    } else {
      i :| 0 <= i < |suggestions| && NoneBefore(ctx, suggestions, cfg, i) && Acceptable(ctx, suggestions[i], cfg)
           && suggestions[i].kind.ReduceMaxTokens?
           && r == Outcome(PartialAllowance, "", Allowance(ctx, suggestions[i]), NoReason, suggestions[i].riskNote);
    }
  }

  lemma {:induction false} NoteIsUnique(suggestions: seq<Suggestion>, cfg: PolicyConfig, n: nat, a: string, b: string)
    requires n <= |suggestions| && IsNote(suggestions, cfg, n, a) && IsNote(suggestions, cfg, n, b)
    ensures a == b
  {
    if a != "" && b != "" {
      var i :| 0 <= i < n && Notable(suggestions[i], cfg)
          && a == TypeName(suggestions[i].kind) + ": " + suggestions[i].riskNote
               && forall j :: 0 <= j < i ==> !Notable(suggestions[j], cfg);
      var j :| 0 <= j < n && Notable(suggestions[j], cfg)
          && b == TypeName(suggestions[j].kind) + ": " + suggestions[j].riskNote
               && forall l :: 0 <= l < j ==> !Notable(suggestions[l], cfg);
      assert i == j;
    }
  }

  /** An accepted switch stays with the provider of the original model and strictly lowers the output price. */
  lemma {:induction false} SwitchIsSound(requested: string, suggested: string)
    requires Verified(requested, suggested)
    ensures Select(suggested) == Select(requested)
    ensures suggested in PRICES && FamilyOf(suggested) == FamilyOf(requested)
    ensures PriceOf(requested).Some? && PriceOf(suggested) == Some(PRICES[suggested])
            && PRICES[suggested].output < PriceOf(requested).value.output
  {
    TableNamesAreBare(suggested);
    FamilyDecidesProvider(suggested, requested);
  }

  /** Models reached by one accepted switch after another. */
  ghost predicate Chain(models: seq<string>) {
    forall i :: 0 <= i < |models| - 1 ==> Verified(models[i], models[i + 1])
  }

  function OutputPrice(model: string): Option<real> {
    match PriceOf(model)
    case None => None
    case Some(p) => Some(p.output)
  }

  predicate StepsDown(a: Option<real>, b: Option<real>) {
    a.Some? && b.Some? && b.value < a.value
  }

  lemma {:induction false} ChainStep(models: seq<string>, i: nat)
    requires Chain(models) && i + 1 < |models|
    ensures StepsDown(OutputPrice(models[i]), OutputPrice(models[i + 1]))
            && FamilyOf(models[i + 1]) == FamilyOf(models[i])
  {
    assert Verified(models[i], models[i + 1]);
    SwitchIsSound(models[i], models[i + 1]);
  }

  lemma {:induction false} Descends(prices: seq<Option<real>>, families: seq<Family>, i: nat, j: nat)
    requires |prices| == |families| && i < j < |prices|
    requires forall k :: 0 <= k < |prices| - 1 ==> StepsDown(prices[k], prices[k + 1]) && families[k + 1] == families[k]
    ensures StepsDown(prices[i], prices[j]) && families[j] == families[i]
    decreases j - i
  {
    assert StepsDown(prices[j - 1], prices[j]) && families[j - 1 + 1] == families[j - 1];
    if i < j - 1 {
      Descends(prices, families, i, j - 1);
    }
  }

  lemma {:induction false} ChainDescends(models: seq<string>, i: nat, j: nat)
    requires Chain(models) && i < j < |models|
    ensures StepsDown(OutputPrice(models[i]), OutputPrice(models[j])) && FamilyOf(models[j]) == FamilyOf(models[i])
  {
    var prices := seq(|models|, k requires 0 <= k < |models| => OutputPrice(models[k]));
    var families := seq(|models|, k requires 0 <= k < |models| => FamilyOf(models[k]));
    forall k | 0 <= k < |models| - 1 ensures StepsDown(prices[k], prices[k + 1]) && families[k + 1] == families[k] {
      ChainStep(models, k);
    }
    Descends(prices, families, i, j);
  }

  /** The bare name of a priced model is one of the table's names of its family. */
  lemma {:induction false} PricedIsListed(model: string)
    requires OutputPrice(model).Some?
    ensures Normalize(model) in FamilyNames(FamilyOf(model))
  {
    TableNamesAreBare(Normalize(model));
  }

  lemma {:induction false} SameNameSamePrice(a: string, b: string)
    requires Normalize(a) == Normalize(b)
    ensures OutputPrice(a) == OutputPrice(b)
  {
  }

  function FamilyNames(f: Family): set<string> {
    set name | name in PRICES && FamilyOf(name) == f
  }

  lemma {:induction false} DistinctFit(xs: seq<string>, all: set<string>)
    requires forall i :: 0 <= i < |xs| ==> xs[i] in all
    requires forall i, j :: 0 <= i < j < |xs| ==> xs[i] != xs[j]
    ensures |xs| <= |all|
  {
    if xs != [] {
      var last, front := xs[|xs| - 1], xs[..|xs| - 1];
      DistinctFit(front, all - {last});
    }
  }

  function Names(models: seq<string>): (names: seq<string>)
    ensures |names| == |models| && forall i :: 0 <= i < |models| ==> names[i] == Normalize(models[i])
  {
    seq(|models|, i requires 0 <= i < |models| => Normalize(models[i]))
  }

  /** Chains of accepted switches never return to a model, under any alias. */
  lemma {:induction false} ChainsNeverRepeat(models: seq<string>, i: nat, j: nat)
    requires Chain(models) && i < j < |models|
    ensures Normalize(models[i]) != Normalize(models[j])
  {
    ChainDescends(models, i, j);
    if Normalize(models[i]) == Normalize(models[j]) {
      SameNameSamePrice(models[i], models[j]);
    }
  }

  lemma {:induction false} ChainIsListed(models: seq<string>, i: nat)
    requires Chain(models) && |models| > 1 && i < |models|
    ensures Normalize(models[i]) in FamilyNames(FamilyOf(models[0]))
  {
    ChainDescends(models, 0, if i == 0 then 1 else i);
    PricedIsListed(models[i]);
  }

  /** So a chain is no longer than the family has models. */
  lemma {:induction false} ChainsAreBounded(models: seq<string>)
    requires Chain(models) && |models| > 1
    ensures |models| <= |FamilyNames(FamilyOf(models[0]))|
  {
    var names, all := Names(models), FamilyNames(FamilyOf(models[0]));
    forall i, j | 0 <= i < j < |names| ensures names[i] != names[j] {
      ChainsNeverRepeat(models, i, j);
    }
    forall i | 0 <= i < |names| ensures names[i] in all {
      ChainIsListed(models, i);
    }
    DistinctFit(names, all);
  }
}
