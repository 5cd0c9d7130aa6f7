/**
 The life of one request through the gateway. What the outside world answers (the budget backend, the
 advisor, the provider, the transport) is collected in an environment; what the handler does to the
 outside world is recorded, in order, in a trace.
 */
module Handlers {
  import opened Options
  import opened Buckets
  import opened Config
  import opened Enforcement
  import opened Pricing
  import opened Policy
  import opened Retries
  import opened Tokenizer

  datatype Usage = Usage(tokensIn: int, tokensOut: int)

  /** A provider error may carry an HTTP status. */
  datatype Completion = Failed(status: Option<int>) | Completed(usage: Usage, costUSD: real)

  datatype Chunk = Chunk(done: bool, usage: Usage)

  /** The chunks a stream delivered, and whether (and how) it then failed. */
  datatype Streamed = Streamed(chunks: seq<Chunk>, failure: Option<Option<int>>)

  datatype Env = Env(first: CheckResult, second: CheckResult, advice: Option<seq<Suggestion>>,
                     completion: Completion, flusher: bool, stream: Streamed)

  datatype Body = Body(model: string, system: string, messages: seq<string>, maxTokens: int, stream: bool)

  datatype DecisionLabel = LabelAllowed | LabelAdvisedRetry | LabelRejected

  datatype FinishReason = Blank | NoBudgetConfigured | UpstreamError | Budget(reason: Reason)

  datatype Effect =
    | Checked(refs: seq<BucketRef>, ask: Amount, result: CheckResult)
    | Reconciled(refs: seq<BucketRef>, est: Amount, actual: Amount)
    | Finished(verdict: DecisionLabel, reason: FinishReason, usage: Usage, costUSD: real)
    | Responded(status: int)

  const NO_USAGE := Usage(0, 0)

  function MapProviderStatus(status: int): int {
    if status == 0 then 502 else if status == 429 then 429 else if status >= 500 then 502 else status
  }

  function ErrorStatus(status: Option<int>): int {
    match status
    case None => 502
    case Some(code) => MapProviderStatus(code)
  }

  /** The usage of the last terminal chunk, if any came. */
  function FinalUsage(chunks: seq<Chunk>): Usage {
    if chunks == [] then NO_USAGE
    else if chunks[|chunks| - 1].done then chunks[|chunks| - 1].usage
    else FinalUsage(chunks[..|chunks| - 1])
  }

  class ChunkWriter {
    var wroteHeaders: bool
    var finalUsage: Usage

    constructor ()
      ensures !wroteHeaders && finalUsage == NO_USAGE
    {
      wroteHeaders, finalUsage := false, NO_USAGE;
    }

    method Write(chunk: Chunk)
      modifies this
      ensures wroteHeaders && finalUsage == if chunk.done then chunk.usage else old(finalUsage)
    {
      if !wroteHeaders {
        wroteHeaders := true;
      }
      if chunk.done {
        finalUsage := chunk.usage;
      }
    }
  }

  function CallOf(cls: Classifier, body: Body): Call {
    Call(body.model, RequestTokens(cls, body.system, body.messages), body.maxTokens)
  }

  function ContextOf(c: Call, d: Decision): Context {
    Context(c.model, Estimate(c).tokens, d.remainingTokens, d.remainingUSD, d.failedScope, d.reason)
  }

  /** What follows an admitted check. */
  function AfterAdmission(refs: seq<BucketRef>, model: string, est: Amount, stream: bool, verdict: DecisionLabel,
                          env: Env): seq<Effect> {
    if !stream then
      match env.completion
      case Failed(status) => Refunded(refs, est, status)
      case Completed(usage, costUSD) =>
        [Reconciled(refs, est, Amount(usage.tokensIn + usage.tokensOut, costUSD)),
         Finished(verdict, Blank, usage, costUSD), Responded(200)]
    else if !env.flusher then [Responded(500)]
    else if env.stream.failure.Some? && env.stream.chunks == [] then Refunded(refs, est, env.stream.failure.value)
    else
      var usage := FinalUsage(env.stream.chunks);
      var cost := CostUSD(model, usage.tokensIn, 0, usage.tokensOut);
      [Reconciled(refs, est, Amount(usage.tokensIn + usage.tokensOut, cost)), Finished(verdict, Blank, usage, cost)]
  }

  function Refunded(refs: seq<BucketRef>, est: Amount, status: Option<int>): seq<Effect> {
    [Reconciled(refs, est, Amount(0, 0.0)), Finished(LabelRejected, UpstreamError, NO_USAGE, 0.0),
     Responded(ErrorStatus(status))]
  }

  function Turned(d: Decision, o: Outcome): seq<Effect> {
    [Finished(LabelRejected, Budget(if o.reason.NoReason? then d.reason else o.reason), NO_USAGE, 0.0), Responded(429)]
  }

  /** What follows a rejected check, once the policy engine has spoken. */
  function UnderPressure(refs: seq<BucketRef>, c: Call, stream: bool, d: Decision, o: Outcome, env: Env): seq<Effect> {
    if o.action.Reject? then Turned(d, o)
    else
      var (retry, ask) := RetryOf(c, o);
      AfterSecondCheck(refs, retry.model, ask, stream, d, o, env)
  }

  function AfterSecondCheck(refs: seq<BucketRef>, model: string, ask: Amount, stream: bool, d: Decision, o: Outcome,
                            env: Env): seq<Effect> {
    [Checked(refs, ask, env.second)]
    + if env.second.Ok? && env.second.decision.allowed
        then AfterAdmission(refs, model, ask, stream, LabelAdvisedRetry, env)
      else Turned(d, o)
  }

  /** Everything one request does, given what the policy engine says if it is asked. */
  function Path(refs: seq<BucketRef>, c: Call, stream: bool, o: Outcome, env: Env): seq<Effect> {
    if refs == [] then [Finished(LabelRejected, NoBudgetConfigured, NO_USAGE, 0.0), Responded(403)]
    else
      [Checked(refs, Estimate(c), env.first)] + AfterFirstCheck(refs, c, stream, o, env)
  }

  function AfterFirstCheck(refs: seq<BucketRef>, c: Call, stream: bool, o: Outcome, env: Env): seq<Effect> {
    match env.first
    case Err(_) => [Responded(503)]
    case Ok(d) =>
      if d.allowed then AfterAdmission(refs, c.model, Estimate(c), stream, LabelAllowed, env)
      else UnderPressure(refs, c, stream, d, o, env)
  }

  predicate Granted(r: CheckResult) {
    r.Ok? && r.decision.allowed
  }

  /** The request asks a second time. */
  predicate AsksAgain(env: Env, o: Outcome) {
    env.first.Ok? && !env.first.decision.allowed && !o.action.Reject?
  }

  /** What the first check asks for: the estimated input, and the output allowed or 512, at list price. */
  lemma {:induction false} FirstAsk(cls: Classifier, body: Body)
    ensures var tokensIn := RequestTokens(cls, body.system, body.messages);
            var tokensOut := if body.maxTokens <= 0 then 512 else body.maxTokens;
            Estimate(CallOf(cls, body)) == Amount(tokensIn + tokensOut, CostUSD(body.model, tokensIn, 0, tokensOut))
  {
  }

  /** What the second one asks for: the same of the suggested model, or the granted output of the same model. */
  lemma {:induction false} SecondAsk(c: Call, o: Outcome)
    requires !o.action.Reject?
    ensures var tokensOut := if c.maxTokens <= 0 then 512 else c.maxTokens;
            RetryOf(c, o).1 == if o.action.RetryWithModel?
                               then Amount(c.tokensIn + tokensOut, CostUSD(o.model, c.tokensIn, 0, tokensOut))
                               else Amount(c.tokensIn + o.maxTokens, CostUSD(c.model, c.tokensIn, 0, o.maxTokens))
    ensures RetryOf(c, o).0.model == if o.action.RetryWithModel? then o.model else c.model
  {
  }

  /** A granted call that is not streamed, step by step. */
  lemma {:induction false} GrantedSteps(refs: seq<BucketRef>, c: Call, o: Outcome, env: Env)
    requires refs != [] && Granted(env.first)
    ensures env.completion.Completed? ==>
              Path(refs, c, false, o, env)
              == [Effect.Checked(refs, Estimate(c), env.first),
                  Reconciled(refs, Estimate(c),
                             Amount(env.completion.usage.tokensIn + env.completion.usage.tokensOut,
                                    env.completion.costUSD)),
                  Finished(LabelAllowed, Blank, env.completion.usage, env.completion.costUSD), Responded(200)]
    ensures env.completion.Failed? ==>
              Path(refs, c, false, o, env)
              == [Effect.Checked(refs, Estimate(c), env.first), Reconciled(refs, Estimate(c), Amount(0, 0.0)),
                  Finished(LabelRejected, UpstreamError, Usage(0, 0), 0.0),
                  Responded(ErrorStatus(env.completion.status))]
  {
  }

  /** The same for a retry the second check granted. */
  lemma {:induction false} RetriedSteps(refs: seq<BucketRef>, c: Call, o: Outcome, env: Env)
    requires refs != [] && AsksAgain(env, o) && Granted(env.second)
    ensures var ask := RetryOf(c, o).1;
            env.completion.Completed? ==>
              Path(refs, c, false, o, env)
              == [Effect.Checked(refs, Estimate(c), env.first), Effect.Checked(refs, ask, env.second),
                  Reconciled(refs, ask,
                             Amount(env.completion.usage.tokensIn + env.completion.usage.tokensOut,
                                    env.completion.costUSD)),
                  Finished(LabelAdvisedRetry, Blank, env.completion.usage, env.completion.costUSD), Responded(200)]
    ensures var ask := RetryOf(c, o).1;
            env.completion.Failed? ==>
              Path(refs, c, false, o, env)
              == [Effect.Checked(refs, Estimate(c), env.first), Effect.Checked(refs, ask, env.second),
                  Reconciled(refs, ask, Amount(0, 0.0)), Finished(LabelRejected, UpstreamError, Usage(0, 0), 0.0),
                  Responded(ErrorStatus(env.completion.status))]
  {
  }

  /** A request that is never granted, step by step. */
  lemma {:induction false} RefusedSteps(refs: seq<BucketRef>, c: Call, stream: bool, o: Outcome, env: Env)
    ensures refs == [] ==>
              Path(refs, c, stream, o, env)
              == [Finished(LabelRejected, NoBudgetConfigured, Usage(0, 0), 0.0), Responded(403)]
    ensures refs != [] && env.first.Err? ==>
              Path(refs, c, stream, o, env) == [Effect.Checked(refs, Estimate(c), env.first), Responded(503)]
    ensures refs != [] && env.first.Ok? && !env.first.decision.allowed && o.action.Reject? ==>
              var reason := if o.reason == NoReason then env.first.decision.reason else o.reason;
              Path(refs, c, stream, o, env)
              == [Effect.Checked(refs, Estimate(c), env.first),
                  Finished(LabelRejected, Budget(reason), Usage(0, 0), 0.0), Responded(429)]
    ensures refs != [] && AsksAgain(env, o) && !Granted(env.second) ==>
              var reason := if o.reason == NoReason then env.first.decision.reason else o.reason;
              Path(refs, c, stream, o, env)
              == [Effect.Checked(refs, Estimate(c), env.first), Effect.Checked(refs, RetryOf(c, o).1, env.second),
                  Finished(LabelRejected, Budget(reason), Usage(0, 0), 0.0), Responded(429)]
  {
  }

  /** A granted stream, up to how it is settled. */
  lemma {:induction false} StreamedSteps(refs: seq<BucketRef>, c: Call, o: Outcome, env: Env)
    requires refs != []
    ensures Granted(env.first) && !env.flusher ==>
              Path(refs, c, true, o, env) == [Effect.Checked(refs, Estimate(c), env.first), Responded(500)]
    ensures Granted(env.first) && env.flusher && env.stream.failure.Some? && env.stream.chunks == [] ==>
              Path(refs, c, true, o, env)
              == [Effect.Checked(refs, Estimate(c), env.first), Reconciled(refs, Estimate(c), Amount(0, 0.0)),
                  Finished(LabelRejected, UpstreamError, Usage(0, 0), 0.0),
                      Responded(ErrorStatus(env.stream.failure.value))]
    ensures Granted(env.first) ==>
              Path(refs, c, true, o, env)
              == [Effect.Checked(refs, Estimate(c), env.first)]
                 + AfterAdmission(refs, c.model, Estimate(c), true, LabelAllowed, env)
    ensures AsksAgain(env, o) && Granted(env.second) ==>
              var (retry, ask) := RetryOf(c, o);
              Path(refs, c, true, o, env)
              == [Effect.Checked(refs, Estimate(c), env.first)]
                 + ([Effect.Checked(refs, ask, env.second)]
                    + AfterAdmission(refs, retry.model, ask, true, LabelAdvisedRetry, env))
  {
  }

  /** The statuses of failed provider calls. */
  lemma {:induction false} StatusExactly(status: Option<int>)
    ensures ErrorStatus(status) == if status.None? || status.value == 0 || status.value >= 500 then 502
            else status.value
  {
  }

  /** The outcome is what the policy engine says, if it is asked at all. */
  ghost predicate Answers(c: Call, env: Env, policy: PolicyConfig, o: Outcome) {
    env.first.Ok? ==> Decides(ContextOf(c, env.first.decision), env.advice.GetOr([]), policy, o)
  }

  /** What the policy engine is asked: the model and whole request of the call, and what the first check replied. */
  lemma {:induction false} PolicyIsAsked(c: Call, env: Env, policy: PolicyConfig, o: Outcome)
    requires env.first.Ok? && Answers(c, env, policy, o)
    ensures var d, tokensOut := env.first.decision, if c.maxTokens <= 0 then 512 else c.maxTokens;
            Decides(Context(c.model, c.tokensIn + tokensOut, d.remainingTokens, d.remainingUSD, d.failedScope,
                            d.reason),
                    if env.advice.Some? then env.advice.value else [], policy, o)
  {
    ContextByFields(c, env.first.decision);
    assert env.advice.GetOr([]) == if env.advice.Some? then env.advice.value else [];
  }

  lemma {:induction false} ContextByFields(c: Call, d: Decision)
    ensures var tokensOut := if c.maxTokens <= 0 then 512 else c.maxTokens;
            ContextOf(c, d) == Context(c.model, c.tokensIn + tokensOut, d.remainingTokens, d.remainingUSD,
                                       d.failedScope, d.reason)
  {
  }

  lemma {:induction false} SomeAnswer(c: Call, env: Env, policy: PolicyConfig) returns (o: Outcome)
    ensures Answers(c, env, policy, o)
  {
    if env.first.Ok? {
      o := PolicyAlwaysDecides(ContextOf(c, env.first.decision), env.advice.GetOr([]), policy);
    } else {
      o := Outcome(Reject, "", 0, NoReason, "");
    }
  }

  class Handler {
    const cache: ConfigCache
    const policy: PolicyConfig
    var trace: seq<Effect>

    constructor (cache: ConfigCache, policy: PolicyConfig)
      ensures this.cache == cache && this.policy == policy && trace == []
    {
      this.cache, this.policy, trace := cache, policy, [];
    }

    method ChatCompletions(cls: Classifier, tenant: string, agent: string, task: string, body: Body, env: Env)
        returns (ghost o: Outcome)
      modifies this
      ensures Answers(CallOf(cls, body), env, policy, o)
      ensures trace == old(trace)
                       + Path(Resolved(cache.data, tenant, agent, task), CallOf(cls, body), body.stream, o, env)
      ensures var refs, ask := Resolved(cache.data, tenant, agent, task), Estimate(CallOf(cls, body));
              refs != [] && Granted(env.first) && !body.stream ==>
                match env.completion
                case Completed(u, cost) =>
                  trace == old(trace)
                           + [Effect.Checked(refs, ask, env.first),
                              Reconciled(refs, ask, Amount(u.tokensIn + u.tokensOut, cost)),
                              Finished(LabelAllowed, Blank, u, cost), Responded(200)]
                case Failed(status) =>
                  trace == old(trace)
                           + [Effect.Checked(refs, ask, env.first), Reconciled(refs, ask, Amount(0, 0.0)),
                              Finished(LabelRejected, UpstreamError, Usage(0, 0), 0.0), Responded(ErrorStatus(status))]
      ensures var refs, ask := Resolved(cache.data, tenant, agent, task), Estimate(CallOf(cls, body));
              refs != [] && AsksAgain(env, o) && Granted(env.second) && !body.stream ==>
                var again := RetryOf(CallOf(cls, body), o).1;
                match env.completion
                case Completed(u, cost) =>
                  trace == old(trace)
                           + [Effect.Checked(refs, ask, env.first), Effect.Checked(refs, again, env.second),
                              Reconciled(refs, again, Amount(u.tokensIn + u.tokensOut, cost)),
                              Finished(LabelAdvisedRetry, Blank, u, cost), Responded(200)]
                case Failed(status) =>
                  trace == old(trace)
                           + [Effect.Checked(refs, ask, env.first), Effect.Checked(refs, again, env.second),
                              Reconciled(refs, again, Amount(0, 0.0)),
                              Finished(LabelRejected, UpstreamError, Usage(0, 0), 0.0), Responded(ErrorStatus(status))]
    {
      o := Handle(cls, tenant, agent, task, body, env);
      ghost var refs, c := Resolved(cache.data, tenant, agent, task), CallOf(cls, body);
      if refs != [] && Granted(env.first) {
        GrantedSteps(refs, c, o, env);
      }
      if refs != [] && AsksAgain(env, o) && Granted(env.second) {
        RetriedSteps(refs, c, o, env);
      }
    }

    method Handle(cls: Classifier, tenant: string, agent: string, task: string, body: Body, env: Env)
        returns (ghost o: Outcome)
      modifies this
      ensures Answers(CallOf(cls, body), env, policy, o)
      ensures trace == old(trace)
                       + Path(Resolved(cache.data, tenant, agent, task), CallOf(cls, body), body.stream, o, env)
    {
      var refs := cache.Resolve(tenant, agent, task);
      var estTokensIn := EstimateMessagesTokens(cls, body.system, body.messages);
      o := Serve(refs, Call(body.model, estTokensIn, body.maxTokens), body.stream, env);
    }

    method Serve(refs: seq<BucketRef>, call: Call, stream: bool, env: Env) returns (ghost o: Outcome)
      modifies this
      ensures Answers(call, env, policy, o)
      ensures trace == old(trace) + Path(refs, call, stream, o, env)
    {
      o := SomeAnswer(call, env, policy);
      if |refs| == 0 {
        Finish(LabelRejected, NoBudgetConfigured, NO_USAGE, 0.0);
        Respond(403);
        return;
      }
      var est := Reserve(call);
      Note(Effect.Checked(refs, est, env.first));
      o := Proceed(call, refs, stream, est, env, o);
    }

    method Proceed(call: Call, refs: seq<BucketRef>, stream: bool, est: Amount, env: Env, ghost any: Outcome)
        returns (ghost o: Outcome)
      requires est == Estimate(call) && Answers(call, env, policy, any)
      modifies this
      ensures Answers(call, env, policy, o)
      ensures trace == old(trace) + AfterFirstCheck(refs, call, stream, o, env)
    {
      o := any;
      match env.first
      case Err(_) =>
        Respond(503);
      case Ok(decision) =>
        if decision.allowed {
          DoDispatch(call, refs, est, stream, LabelAllowed, env);
        } else {
          o := HandleBudgetPressure(call, refs, stream, decision, est, env);
        }
    }

    method Reserve(call: Call) returns (est: Amount)
      ensures est == Estimate(call)
    {
      var estTokensOut := call.maxTokens;
      if estTokensOut <= 0 {
        estTokensOut := DEFAULT_OUTPUT_TOKEN_ESTIMATE;
      }
      est := Reservation(call.model, call.tokensIn, estTokensOut);
    }

    method HandleBudgetPressure(call: Call, refs: seq<BucketRef>, stream: bool, decision: Decision, est: Amount,
                                env: Env) returns (outcome: Outcome)
      requires est == Estimate(call)
      modifies this
      ensures Decides(ContextOf(call, decision), env.advice.GetOr([]), policy, outcome)
      ensures trace == old(trace) + UnderPressure(refs, call, stream, decision, outcome, env)
    {
      var suggestions: seq<Suggestion> := [];
      if env.advice.Some? {
        suggestions := env.advice.value;
      }
      outcome := Decide(Context(call.model, est.tokens, decision.remainingTokens, decision.remainingUSD,
                                decision.failedScope, decision.reason),
                        suggestions, policy);
      match outcome.action
      case RetryWithModel =>
        var retryOut := call.maxTokens;
        if retryOut <= 0 {
          retryOut := DEFAULT_OUTPUT_TOKEN_ESTIMATE;
        }
        Retry(call.(model := outcome.model), refs, Reservation(outcome.model, call.tokensIn, retryOut), stream,
              decision, outcome, env);
      case PartialAllowance =>
        Retry(call.(maxTokens := outcome.maxTokens), refs, Reservation(call.model, call.tokensIn, outcome.maxTokens),
              stream, decision, outcome, env);
      case Reject =>
        RejectRequest(decision, outcome);
    }

    method Retry(retry: Call, refs: seq<BucketRef>, ask: Amount, stream: bool, decision: Decision, outcome: Outcome,
                 env: Env)
      modifies this
      ensures trace == old(trace) + AfterSecondCheck(refs, retry.model, ask, stream, decision, outcome, env)
    {
      Note(Effect.Checked(refs, ask, env.second));
      if env.second.Ok? && env.second.decision.allowed {
        DoDispatch(retry, refs, ask, stream, LabelAdvisedRetry, env);
      } else {
        RejectRequest(decision, outcome);
      }
    }

    method DoDispatch(call: Call, refs: seq<BucketRef>, est: Amount, stream: bool, verdict: DecisionLabel, env: Env)
      modifies this
      ensures trace == old(trace) + AfterAdmission(refs, call.model, est, stream, verdict, env)
    {
      if stream {
        StreamDispatch(call, refs, est, verdict, env);
        return;
      }
      match env.completion
      case Failed(status) =>
        HandleProviderError(refs, est, status);
      case Completed(usage, costUSD) =>
        Note(Reconciled(refs, est, Amount(usage.tokensIn + usage.tokensOut, costUSD)));
        Finish(verdict, Blank, usage, costUSD);
        Respond(200);
    }

    method StreamDispatch(call: Call, refs: seq<BucketRef>, est: Amount, verdict: DecisionLabel, env: Env)
      modifies this
      ensures trace == old(trace) + AfterAdmission(refs, call.model, est, true, verdict, env)
    {
      if !env.flusher {
        Respond(500);
        return;
      }
      var writer := new ChunkWriter();
      for i := 0 to |env.stream.chunks|
        invariant fresh(writer) && trace == old(trace)
        invariant writer.wroteHeaders <==> i > 0
        invariant writer.finalUsage == FinalUsage(env.stream.chunks[..i])
      {
        writer.Write(env.stream.chunks[i]);
        assert env.stream.chunks[..i + 1][..i] == env.stream.chunks[..i];
      }
      assert env.stream.chunks[..|env.stream.chunks|] == env.stream.chunks;
      if env.stream.failure.Some? {
        if !writer.wroteHeaders {
          HandleProviderError(refs, est, env.stream.failure.value);
          return;
        }
      }
      var usage := writer.finalUsage;
      var actualUSD := CostUSD(call.model, usage.tokensIn, 0, usage.tokensOut);
      Note(Reconciled(refs, est, Amount(usage.tokensIn + usage.tokensOut, actualUSD)));
      Finish(verdict, Blank, usage, actualUSD);
    }

    method HandleProviderError(refs: seq<BucketRef>, est: Amount, status: Option<int>)
      modifies this
      ensures trace == old(trace) + Refunded(refs, est, status)
    {
      Note(Reconciled(refs, est, Amount(0, 0.0)));
      var code := 502;
      if status.Some? {
        code := MapProviderStatus(status.value);
      }
      Finish(LabelRejected, UpstreamError, NO_USAGE, 0.0);
      Respond(code);
    }

    method RejectRequest(decision: Decision, outcome: Outcome)
      modifies this
      ensures trace == old(trace) + Turned(decision, outcome)
    {
      var reason := outcome.reason;
      if reason.NoReason? {
        reason := decision.reason;
      }
      Finish(LabelRejected, Budget(reason), NO_USAGE, 0.0);
      Respond(429);
    }

    method Finish(verdict: DecisionLabel, reason: FinishReason, usage: Usage, costUSD: real)
      modifies this
      ensures trace == old(trace) + [Finished(verdict, reason, usage, costUSD)]
    {
      trace := trace + [Finished(verdict, reason, usage, costUSD)];
    }

    method Respond(status: int)
      modifies this
      ensures trace == old(trace) + [Responded(status)]
    {
      trace := trace + [Responded(status)];
    }

    method Note(e: Effect)
      modifies this
      ensures trace == old(trace) + [e]
    {
      trace := trace + [e];
    }
  }

  /** The policy engine always has an answer. */
  lemma {:induction false} PolicyAlwaysDecides(ctx: Context, suggestions: seq<Suggestion>, cfg: PolicyConfig)
      returns (o: Outcome)
    ensures Decides(ctx, suggestions, cfg, o)
  {
    var n := 0;
    while n < |suggestions| && !Acceptable(ctx, suggestions[n], cfg)
      invariant n <= |suggestions| && NoneBefore(ctx, suggestions, cfg, n)
    {
      n := n + 1;
    }
    if n < |suggestions| {
      var s := suggestions[n];
      o := if s.kind.SwitchModel? then Outcome(RetryWithModel, s.model, 0, NoReason, s.riskNote)
           else Outcome(PartialAllowance, "", Allowance(ctx, s), NoReason, s.riskNote);
    } else {
      var note := FirstNote(suggestions, cfg);
      o := Outcome(Reject, "", 0, ctx.failReason, note);
    }
  }

  lemma {:induction false} FirstNote(suggestions: seq<Suggestion>, cfg: PolicyConfig) returns (note: string)
    ensures IsNote(suggestions, cfg, |suggestions|, note)
  {
    var n := 0;
    while n < |suggestions| && !Notable(suggestions[n], cfg)
      invariant n <= |suggestions| && forall i :: 0 <= i < n ==> !Notable(suggestions[i], cfg)
    {
      n := n + 1;
    }
    note := if n < |suggestions| then TypeName(suggestions[n].kind) + ": " + suggestions[n].riskNote else "";
  }

  predicate Holds(e: Effect) {
    e.Checked? && e.result.Ok? && e.result.decision.allowed
  }

  function CountHolds(t: seq<Effect>): nat {
    if t == [] then 0 else CountHolds(t[..|t| - 1]) + if Holds(t[|t| - 1]) then 1 else 0
  }

  function CountReconciles(t: seq<Effect>): nat {
    if t == [] then 0 else CountReconciles(t[..|t| - 1]) + if t[|t| - 1].Reconciled? then 1 else 0
  }

  function CountFinishes(t: seq<Effect>): nat {
    if t == [] then 0 else CountFinishes(t[..|t| - 1]) + if t[|t| - 1].Finished? then 1 else 0
  }

  /** Each reconcile settles, with the same buckets and amount, a reservation made before it. */
  ghost predicate Paired(t: seq<Effect>) {
    forall i :: 0 <= i < |t| && t[i].Reconciled? ==> SettlesEarlier(t, i)
  }

  ghost predicate SettlesEarlier(t: seq<Effect>, i: nat)
    requires i < |t| && t[i].Reconciled?
  {
    exists j :: 0 <= j < i && Holds(t[j]) && t[j].refs == t[i].refs && t[j].ask == t[i].est
  }

  lemma {:induction false} CountsConcat(a: seq<Effect>, b: seq<Effect>)
    ensures CountHolds(a + b) == CountHolds(a) + CountHolds(b)
    ensures CountReconciles(a + b) == CountReconciles(a) + CountReconciles(b)
    ensures CountFinishes(a + b) == CountFinishes(a) + CountFinishes(b)
  {
    if b == [] {
      assert a + b == a;
    } else {
      assert (a + b)[..|a + b| - 1] == a + b[..|b| - 1];
      CountsConcat(a, b[..|b| - 1]);
    }
  }

  lemma {:induction false} CountOne(e: Effect)
    ensures CountHolds([e]) == (if Holds(e) then 1 else 0)
    ensures CountReconciles([e]) == (if e.Reconciled? then 1 else 0)
    ensures CountFinishes([e]) == (if e.Finished? then 1 else 0)
  {
    assert [e][..0] == [];
  }

  lemma {:induction false} CountShort(t: seq<Effect>)
    requires |t| <= 3
    ensures CountHolds(t) == (if |t| > 0 && Holds(t[0]) then 1 else 0) + (if |t| > 1 && Holds(t[1]) then 1 else 0)
            + (if |t| > 2 && Holds(t[2]) then 1 else 0)
    ensures CountReconciles(t) == (if |t| > 0 && t[0].Reconciled? then 1 else 0)
            + (if |t| > 1 && t[1].Reconciled? then 1 else 0) + (if |t| > 2 && t[2].Reconciled? then 1 else 0)
    ensures CountFinishes(t) == (if |t| > 0 && t[0].Finished? then 1 else 0)
            + (if |t| > 1 && t[1].Finished? then 1 else 0) + (if |t| > 2 && t[2].Finished? then 1 else 0)
  {
    if |t| == 1 {
      assert t == [t[0]];
      CountOne(t[0]);
    } else if |t| == 2 {
      assert t == [t[0]] + [t[1]];
      CountsConcat([t[0]], [t[1]]);
      CountOne(t[0]);
      CountOne(t[1]);
    } else if |t| == 3 {
      assert t == [t[0]] + [t[1]] + [t[2]];
      CountsConcat([t[0]] + [t[1]], [t[2]]);
      CountsConcat([t[0]], [t[1]]);
      CountOne(t[0]);
      CountOne(t[1]);
      CountOne(t[2]);
    }
  }

  /** The transport that cannot stream is the one exception to everything below. */
  predicate Unstreamable(stream: bool, env: Env) {
    stream && !env.flusher
  }

  lemma {:induction false} AdmissionSettlesOnce(refs: seq<BucketRef>, model: string, est: Amount, stream: bool,
                                                verdict: DecisionLabel, env: Env)
    ensures var t := AfterAdmission(refs, model, est, stream, verdict, env);
            && CountHolds(t) == 0
            && CountReconciles(t) == CountFinishes(t) == (if Unstreamable(stream, env) then 0 else 1)
            && forall i :: 0 <= i < |t| && t[i].Reconciled? ==> t[i].refs == refs && t[i].est == est
  {
    CountShort(AfterAdmission(refs, model, est, stream, verdict, env));
  }

  /**
   Reservations and settlements match. Whatever the backend, the advisor, the policy engine, the
   provider and the transport answer, a request makes at most one successful reservation; each
   reservation gets exactly one reconcile, later, with the same buckets and amount; and a request that
   got a budget decision, or had no budget at all, finishes exactly once. The only exception to the last
   two is a reserved stream over a transport that cannot flush.
   */
  lemma {:induction false} ReservationsMatch(refs: seq<BucketRef>, c: Call, stream: bool, o: Outcome, env: Env)
    ensures var t := Path(refs, c, stream, o, env);
            && CountHolds(t) <= 1
            && CountReconciles(t) == (if Unstreamable(stream, env) then 0 else CountHolds(t))
            && Paired(t)
            && CountFinishes(t) == if refs == [] then 1
                                   else if env.first.Err? then 0
                                   else if Unstreamable(stream, env) && CountHolds(t) == 1 then 0 else 1
  {
    var t := Path(refs, c, stream, o, env);
    if refs == [] {
      CountShort(t);
    } else {
      var head, rest := Effect.Checked(refs, Estimate(c), env.first), t[1..];
      assert t == [head] + rest;
      CountsConcat([head], rest);
      CountOne(head);
      if env.first.Err? {
        CountShort(rest);
      } else if env.first.decision.allowed {
        AdmissionSettlesOnce(refs, c.model, Estimate(c), stream, LabelAllowed, env);
        assert t[0] == head;
      } else {
        PressureMatches(refs, c, stream, env.first.decision, o, env);
        PairedAfter(head, rest);
      }
    }
  }

  lemma {:induction false} PairedAfter(head: Effect, rest: seq<Effect>)
    requires Paired(rest) && !head.Reconciled?
    ensures Paired([head] + rest)
  {
    var t := [head] + rest;
    forall i | 0 <= i < |t| && t[i].Reconciled? ensures SettlesEarlier(t, i) {
      assert t[i] == rest[i - 1] && SettlesEarlier(rest, i - 1);
      var j :| 0 <= j < i - 1 && Holds(rest[j]) && rest[j].refs == rest[i - 1].refs && rest[j].ask == rest[i - 1].est;
      assert t[j + 1] == rest[j];
    }
  }

  lemma {:induction false} PressureMatches(refs: seq<BucketRef>, c: Call, stream: bool, d: Decision, o: Outcome,
                                           env: Env)
    ensures var t := UnderPressure(refs, c, stream, d, o, env);
            && CountHolds(t) <= 1
            && CountReconciles(t) == (if Unstreamable(stream, env) then 0 else CountHolds(t))
            && CountFinishes(t) == (if Unstreamable(stream, env) && CountHolds(t) == 1 then 0 else 1)
            && Paired(t)
  {
    var t := UnderPressure(refs, c, stream, d, o, env);
    if o.action.Reject? {
      CountShort(t);
    } else {
      var (retry, ask) := RetryOf(c, o);
      var head, rest := Effect.Checked(refs, ask, env.second), t[1..];
      assert t == [head] + rest;
      CountsConcat([head], rest);
      CountOne(head);
      if Holds(head) {
        AdmissionSettlesOnce(refs, retry.model, ask, stream, LabelAdvisedRetry, env);
        assert t[0] == head;
      } else {
        CountShort(rest);
      }
    }
  }

  /** Chunk i is the last terminal one. */
  ghost predicate LastTerminal(chunks: seq<Chunk>, i: nat) {
    i < |chunks| && chunks[i].done && forall j :: i < j < |chunks| ==> !chunks[j].done
  }

  predicate NonNegativeUsage(u: Usage) {
    u.tokensIn >= 0 && u.tokensOut >= 0
  }

  /** What a usage costs at list price; models without a price cost nothing. */
  function ListPrice(model: string, u: Usage): real {
    match PriceOf(model)
    case None => 0.0
    case Some(p) => (u.tokensIn as real * p.input + u.tokensOut as real * p.output) / 1000000.0
  }

  /** What a settled stream is charged: the usage of its last terminal chunk at list price, or nothing if none came. */
  ghost predicate ChargedFor(chunks: seq<Chunk>, model: string, actual: Amount) {
    if exists i: nat :: LastTerminal(chunks, i) then
      exists i: nat :: LastTerminal(chunks, i)
                       && actual == Amount(chunks[i].usage.tokensIn + chunks[i].usage.tokensOut,
                                           ListPrice(model, chunks[i].usage))
    else actual == Amount(0, 0.0)
  }

  /**
   What a stream costs, exactly. Settled, and not failed before its first chunk, it is charged the usage
   of its last terminal chunk at list price; so it is free if and only if no terminal chunk came or the
   last one reports no usage, however much was delivered.
   */
  lemma {:induction false} StreamIsFreeExactly(refs: seq<BucketRef>, model: string, est: Amount,
                                               verdict: DecisionLabel, env: Env)
    returns (actual: Amount)
    requires env.flusher && (env.stream.failure.None? || env.stream.chunks != [])
    requires forall i :: 0 <= i < |env.stream.chunks| ==> NonNegativeUsage(env.stream.chunks[i].usage)
    ensures AfterAdmission(refs, model, est, true, verdict, env)
            == [Reconciled(refs, est, actual), Finished(verdict, Blank, FinalUsage(env.stream.chunks), actual.usd)]
    ensures ChargedFor(env.stream.chunks, model, actual)
    ensures actual == Amount(0, 0.0) <==>
            forall i: nat :: LastTerminal(env.stream.chunks, i) ==> env.stream.chunks[i].usage == NO_USAGE
  {
    var chunks := env.stream.chunks;
    var u := FinalUsage(chunks);
    actual := Amount(u.tokensIn + u.tokensOut, CostUSD(model, u.tokensIn, 0, u.tokensOut));
    FinalIsLast(chunks);
    CostIsListPrice(model, u);
    NoUsageIsFree(model);
  }

  lemma {:induction false} FinalIsLast(chunks: seq<Chunk>)
    ensures forall i: nat :: LastTerminal(chunks, i) ==> FinalUsage(chunks) == chunks[i].usage
    ensures (forall i: nat :: !LastTerminal(chunks, i)) ==> FinalUsage(chunks) == NO_USAGE
  {
    if chunks != [] {
      var n := |chunks| - 1;
      FinalIsLast(chunks[..n]);
      if chunks[n].done {
        assert LastTerminal(chunks, n);
      } else {
        assert forall i: nat :: LastTerminal(chunks, i) <==> LastTerminal(chunks[..n], i);
      }
    }
  }

  lemma {:induction false} CostIsListPrice(model: string, u: Usage)
    requires NonNegativeUsage(u)
    ensures CostUSD(model, u.tokensIn, 0, u.tokensOut) == ListPrice(model, u)
  {
  }

  lemma {:induction false} NoUsageIsFree(model: string)
    ensures CostUSD(model, 0, 0, 0) == 0.0
  {
  }
}
