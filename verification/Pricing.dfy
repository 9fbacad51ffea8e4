/** List prices per thousand tokens and the cost estimate rounded to 1e-8 GBP. */
module Pricing {
  import opened Rounding

  datatype ModelPrice = ModelPrice(prompt: real, completion: real)

  datatype Usage = Usage(prompt: nat, completion: nat)

  type Prices = map<string, ModelPrice>

  const DEFAULT_PRICING: Prices := map[
    "mock-deterministic" := ModelPrice(0.0, 0.0),
    "gpt-4o-mini" := ModelPrice(0.00012, 0.00048),
    "gpt-4o" := ModelPrice(0.0020, 0.0080)]

  const FALLBACK_PRICE := ModelPrice(0.001, 0.002)

  const GRID := 100000000.0

  function PriceOf(prices: Prices, model: string): ModelPrice {
    if model in prices then prices[model] else FALLBACK_PRICE
  }

  function TokenCost(tokens: nat, perThousand: real): real {
    tokens as real / 1000.0 * perThousand
  }

  function Cost(price: ModelPrice, usage: Usage): real {
    TokenCost(usage.prompt, price.prompt) + TokenCost(usage.completion, price.completion)
  }

  function Estimate(prices: Prices, model: string, usage: Usage): real {
    Round(Cost(PriceOf(prices, model), usage), GRID)
  }

  ghost predicate NonNegative(prices: Prices) {
    forall m :: m in prices ==> prices[m].prompt >= 0.0 && prices[m].completion >= 0.0
  }

  predicate Covers(bound: Usage, usage: Usage) {
    usage.prompt <= bound.prompt && usage.completion <= bound.completion
  }

  /** The cost is a thousandth of each token count at its list price, to the nearest 1e-8 GBP; a model that is not
      listed is charged 0.001 and 0.002 GBP. */
  lemma EstimateMeaning(prices: Prices, model: string, usage: Usage)
    ensures
      var price := if model in prices then prices[model] else ModelPrice(0.001, 0.002);
      var exact := usage.prompt as real / 1000.0 * price.prompt + usage.completion as real / 1000.0 * price.completion;
      RoundedTo(Estimate(prices, model, usage), exact, 100000000.0)
  {
    RoundMeaning(Cost(PriceOf(prices, model), usage), GRID);
  }

  lemma ScaleUp(m: nat, n: nat, price: real)
    requires m <= n && price >= 0.0
    ensures 0.0 <= TokenCost(m, price) <= TokenCost(n, price)
  {
    var a, b := m as real / 1000.0, n as real / 1000.0;
    assert 0.0 <= a <= b;
    assert a * price >= 0.0;
    assert (b - a) * price >= 0.0;
  }

  lemma CostIsMonotone(price: ModelPrice, usage: Usage, bound: Usage)
    requires price.prompt >= 0.0 && price.completion >= 0.0 && Covers(bound, usage)
    ensures 0.0 <= Cost(price, usage) <= Cost(price, bound)
  {
    ScaleUp(usage.prompt, bound.prompt, price.prompt);
    ScaleUp(usage.completion, bound.completion, price.completion);
  }

  lemma ZeroRoundsToZero()
    ensures Round(0.0, GRID) == 0.0
  {
    RoundExact(0, 0.0, GRID);
  }

  /** More tokens on the same model never cost less, rounding included, and no cost is negative. */
  lemma EstimateIsMonotone(prices: Prices, model: string, usage: Usage, bound: Usage)
    requires NonNegative(prices) && Covers(bound, usage)
    ensures 0.0 <= Estimate(prices, model, usage) <= Estimate(prices, model, bound)
  {
    var low, high := Cost(PriceOf(prices, model), usage), Cost(PriceOf(prices, model), bound);
    CostIsMonotone(PriceOf(prices, model), usage, bound);
    ZeroRoundsToZero();
    RoundMonotone(0.0, low, GRID);
    RoundMonotone(low, high, GRID);
  }

  /** Units of 1e-8 GBP per token, for each listed price and the fallback. */
  function Units(model: string): (nat, nat) {
    if model == "mock-deterministic" then (0, 0)
    else if model == "gpt-4o-mini" then (12, 48)
    else if model == "gpt-4o" then (200, 800)
    else (100, 200)
  }

  /** On the default list rounding never changes anything: every cost is a whole number of units. */
  lemma DefaultEstimateIsExact(model: string, usage: Usage)
    ensures
      var units := usage.prompt * Units(model).0 + usage.completion * Units(model).1;
      && Estimate(DEFAULT_PRICING, model, usage) == Cost(PriceOf(DEFAULT_PRICING, model), usage)
      && Estimate(DEFAULT_PRICING, model, usage) * GRID == units as real
  {
    var price := PriceOf(DEFAULT_PRICING, model);
    var (p, c) := Units(model);
    var units := usage.prompt * p + usage.completion * c;
    assert price.prompt * 100000.0 == p as real && price.completion * 100000.0 == c as real;
    TokenUnits(usage.prompt, price.prompt, p);
    TokenUnits(usage.completion, price.completion, c);
    RoundExact(units, Cost(price, usage), GRID);
  }

  lemma TokenUnits(tokens: nat, price: real, units: nat)
    requires price * 100000.0 == units as real
    ensures tokens as real / 1000.0 * price * GRID == (tokens * units) as real
  {
    var t := tokens as real;
    assert t / 1000.0 * price * GRID == t * (price * 100000.0);
  }

  /** An unlisted model is free only when nothing was used. */
  lemma UnlistedModelIsNeverFree(model: string, usage: Usage)
    requires model !in DEFAULT_PRICING
    ensures Estimate(DEFAULT_PRICING, model, usage) == 0.0 <==> usage == Usage(0, 0)
  {
    DefaultEstimateIsExact(model, usage);
  }
}
