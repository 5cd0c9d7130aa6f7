/**
 The pricing table and what is derived from it: the cost of a call, the family of a model, the cheaper
 alternatives of a model, and the provider that serves it.
 */
module Pricing {
  import opened Options

  /** USD per million tokens. */
  datatype Price = Price(input: real, cachedInput: real, output: real)

  const PRICES: map<string, Price> := map[
    "gpt-5.4" := Price(2.5, 0.25, 15.0),
    "gpt-5.4-mini" := Price(0.75, 0.075, 4.5),
    "gpt-5.4-nano" := Price(0.2, 0.02, 1.25),
    "gpt-5" := Price(1.25, 0.125, 10.0),
    "gpt-5-mini" := Price(0.25, 0.025, 2.0),
    "gpt-5-nano" := Price(0.05, 0.005, 0.4),
    "gpt-4.1" := Price(2.0, 0.5, 8.0),
    "gpt-4.1-mini" := Price(0.4, 0.1, 1.6),
    "gpt-4.1-nano" := Price(0.1, 0.025, 0.4),
    "gpt-4o" := Price(2.5, 1.25, 10.0),
    "gpt-4o-mini" := Price(0.15, 0.075, 0.6),
    "o1" := Price(15.0, 7.5, 60.0),
    "o3" := Price(2.0, 0.5, 8.0),
    "o3-mini" := Price(1.1, 0.55, 4.4),
    "o4-mini" := Price(1.1, 0.275, 4.4),
    "claude-fable-5-1" := Price(10.0, 0.25, 50.0),
    "claude-opus-5" := Price(5.0, 0.5, 25.0),
    "claude-sonnet-5" := Price(2.0, 0.2, 10.0),
    "claude-haiku-4-5" := Price(1.0, 0.1, 5.0),
    "mock-large" := Price(5.0, 0.5, 25.0),
    "mock-medium" := Price(1.0, 0.1, 5.0),
    "mock-small" := Price(0.15, 0.015, 0.6)]

  /** Strips everything up to the first slash, as in "openai/gpt-4o". */
  function Normalize(model: string): string {
    AfterSlash(model, model)
  }

  function AfterSlash(rest: string, whole: string): string {
    if rest == [] then whole
    else if rest[0] == '/' then rest[1..]
    else AfterSlash(rest[1..], whole)
  }

  lemma {:induction false} BareStays(rest: string, whole: string)
    requires '/' !in rest
    ensures AfterSlash(rest, whole) == whole
  {
    if rest != [] {
      BareStays(rest[1..], whole);
    }
  }

  function PriceOf(model: string): Option<Price> {
    if Normalize(model) in PRICES then Some(PRICES[Normalize(model)]) else None
  }

  function CostUSD(model: string, tokensIn: int, cachedInputTokens: int, tokensOut: int): real {
    match PriceOf(model)
    case None => 0.0
    case Some(p) =>
      var uncached := if tokensIn - cachedInputTokens < 0 then 0 else tokensIn - cachedInputTokens;
      uncached as real / 1000000.0 * p.input + cachedInputTokens as real / 1000000.0 * p.cachedInput
          + tokensOut as real / 1000000.0 * p.output
  }

  datatype Family = OpenAIFamily | AnthropicFamily | MockFamily | UnknownFamily

  function FamilyOf(model: string): Family {
    var m := Normalize(model);
    if "gpt-" <= m || "o1" <= m || "o3" <= m || "o4" <= m then OpenAIFamily
    else if "claude-" <= m then AnthropicFamily
    else if "mock-" <= m then MockFamily
    else UnknownFamily
  }

  datatype Provider = OpenAI | Anthropic | Mock

  /** The provider that owns a model; unknown names go to the mock. */
  function Select(model: string): Provider {
    var m := Normalize(model);
    if "mock-" <= m then Mock
    else if "claude-" <= m then Anthropic
    else if "gpt-" <= m || "o1" <= m || "o3" <= m || "o4" <= m then OpenAI
    else Mock
  }

  /** Routing never separates two models of one family. */
  lemma {:induction false} FamilyDecidesProvider(a: string, b: string)
    requires FamilyOf(a) == FamilyOf(b)
    ensures Select(a) == Select(b)
  {
    OnePrefix(Normalize(a));
    OnePrefix(Normalize(b));
  }

  lemma {:induction false} OnePrefix(m: string)
    ensures "mock-" <= m ==> m[0] == 'm'
    ensures "claude-" <= m ==> m[0] == 'c'
    ensures "gpt-" <= m ==> m[0] == 'g'
    ensures "o1" <= m || "o3" <= m || "o4" <= m ==> m[0] == 'o'
  {
  }

  predicate IsCheaper(model: string, base: Price, name: string)
    requires name in PRICES
  {
    name != model && FamilyOf(name) == FamilyOf(model) && PRICES[name].output < base.output
  }

  /** The alternatives as a set; the loop visits the table in no particular order. */
  function Cheaper(model: string): set<string> {
    match PriceOf(model)
    case None => {}
    case Some(base) => set name | name in PRICES && IsCheaper(model, base, name)
  }

  method CheaperAlternatives(model: string) returns (out: seq<string>)
    ensures forall name :: name in out <==> name in Cheaper(model)
    ensures forall i, j :: 0 <= i < j < |out| ==> out[i] != out[j]
  {
    out := [];
    var base := PriceOf(model);
    if base.None? {
      return;
    }
    var family := FamilyOf(model);
    var left := PRICES.Keys;
    while left != {}
      invariant left <= PRICES.Keys
      invariant forall name :: name in out <==> name in Cheaper(model) && name !in left
      invariant forall i, j :: 0 <= i < j < |out| ==> out[i] != out[j]
      decreases left
    {
      var name :| name in left;
      left := left - {name};
      if name == model {
        continue;
      }
      if FamilyOf(name) != family {
        continue;
      }
      if PRICES[name].output < base.value.output {
        out := out + [name];
      }
    }
  }

  lemma {:induction false} TableNamesAreBare(name: string)
    requires name in PRICES
    ensures Normalize(name) == name
  {
    assert '/' !in name;
    BareStays(name, name);
  }

  /** A name with a slash loses everything up to the first one; others stay. */
  lemma {:induction false} NormalizeExactly(provider: string, model: string)
    requires '/' !in provider
    ensures Normalize(provider + "/" + model) == model
    ensures Normalize(provider) == provider
  {
    BareStays(provider, provider);
    SlashFound(provider, model, provider + "/" + model);
  }

  lemma {:induction false} SlashFound(provider: string, model: string, whole: string)
    requires '/' !in provider
    ensures AfterSlash(provider + "/" + model, whole) == model
  {
    var s := provider + "/" + model;
    if provider == [] {
      assert s[0] == '/' && s[1..] == model;
    } else {
      assert s[0] == provider[0] && s[1..] == provider[1..] + "/" + model;
      SlashFound(provider[1..], model, whole);
    }
  }

  /** Which names belong to which provider and family. */
  lemma {:induction false} ByPrefix(rest: string)
    requires '/' !in rest
    ensures Select("mock-" + rest) == Mock && FamilyOf("mock-" + rest) == MockFamily
    ensures Select("claude-" + rest) == Anthropic && FamilyOf("claude-" + rest) == AnthropicFamily
    ensures Select("gpt-" + rest) == OpenAI && FamilyOf("gpt-" + rest) == OpenAIFamily
    ensures Select("o1" + rest) == Select("o3" + rest) == Select("o4" + rest) == OpenAI
    ensures FamilyOf("o1" + rest) == FamilyOf("o3" + rest) == FamilyOf("o4" + rest) == OpenAIFamily
    ensures !("mock-" <= rest) && !("claude-" <= rest) && !("gpt-" <= rest) && !("o1" <= rest) && !("o3" <= rest)
            && !("o4" <= rest) ==>
              Select(rest) == Mock && FamilyOf(rest) == UnknownFamily
  {
    Bare(rest);
    Bare("mock-" + rest);
    Bare("claude-" + rest);
    Bare("gpt-" + rest);
    Bare("o1" + rest);
    Bare("o3" + rest);
    Bare("o4" + rest);
  }

  lemma {:induction false} Bare(m: string)
    requires '/' !in m
    ensures Normalize(m) == m
  {
    BareStays(m, m);
  }

  /** The cost of a call: each kind of token at its own price per million. */
  lemma {:induction false} CostByKind(model: string, p: Price, tokensIn: int, cached: int, tokensOut: int)
    ensures PriceOf(model) == Some(p) ==>
              1000000.0 * CostUSD(model, tokensIn, cached, tokensOut)
              == (if cached <= tokensIn then (tokensIn - cached) as real * p.input else 0.0)
                 + cached as real * p.cachedInput + tokensOut as real * p.output
    ensures PriceOf(model).None? ==> CostUSD(model, tokensIn, cached, tokensOut) == 0.0
  {
    PerMillion(if cached <= tokensIn then (tokensIn - cached) as real else 0.0, p.input);
    PerMillion(cached as real, p.cachedInput);
    PerMillion(tokensOut as real, p.output);
  }

  lemma {:induction false} PerMillion(n: real, price: real)
    ensures 1000000.0 * (n / 1000000.0 * price) == n * price
  {
  }
}
