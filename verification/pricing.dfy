/** The cost model: a weighted sum of the four token counters. Money is exact,
    in units of 10^-8 dollars, so the per-token rates are whole numbers. */
module Pricing {
  import opened LogTypes

  /** $3.00, $15.00, $3.75 and $0.30 per million tokens. */
  const InputRate: nat := 300
  const OutputRate: nat := 1500
  const CacheCreationRate: nat := 375
  const CacheReadRate: nat := 30

  /** `calculateCost`. */
  function CalculateCost(tokens: TokenTotals): (c: nat)
    ensures tokens == ZeroTokens ==> c == 0
    ensures c >= tokens.input * InputRate && c >= tokens.output * OutputRate
    ensures c >= tokens.cacheCreation * CacheCreationRate && c >= tokens.cacheRead * CacheReadRate
  {
    tokens.input * InputRate + tokens.output * OutputRate
    + tokens.cacheCreation * CacheCreationRate + tokens.cacheRead * CacheReadRate
  }

  /** Cost is additive over token totals. */
  lemma CostAdditive(a: TokenTotals, b: TokenTotals)
    ensures CalculateCost(AddTokens(a, b)) == CalculateCost(a) + CalculateCost(b)
  {
  }

  predicate TokensLe(a: TokenTotals, b: TokenTotals) {
    a.input <= b.input && a.output <= b.output
    && a.cacheCreation <= b.cacheCreation && a.cacheRead <= b.cacheRead
  }

  /** Cost is monotone in each counter. */
  lemma CostMonotone(a: TokenTotals, b: TokenTotals)
    requires TokensLe(a, b)
    ensures CalculateCost(a) <= CalculateCost(b)
  {
  }

  /** The cost of a thread's summed counters is the sum of the costs of its
      responses taken one at a time. */
  function SumEntryCosts(rs: seq<LogEntry>): nat {
    if rs == [] then 0 else SumEntryCosts(DropLast(rs)) + CalculateCost(EntryTokens(Last(rs)))
  }

  lemma {:induction false} CostOfSumIsSumOfCosts(rs: seq<LogEntry>)
    ensures CalculateCost(SumTokens(rs)) == SumEntryCosts(rs)
  {
    if rs != [] {
      CostOfSumIsSumOfCosts(DropLast(rs));
      CostAdditive(SumTokens(DropLast(rs)), EntryTokens(Last(rs)));
    }
  }

  /** The worked example: (100, 50, 0, 0) and (200, 0, 10, 5) sum to
      (300, 50, 10, 5), which costs $0.001689. */
  lemma WorkedExample()
    ensures AddTokens(TokenTotals(100, 50, 0, 0), TokenTotals(200, 0, 10, 5)) == TokenTotals(300, 50, 10, 5)
    ensures CalculateCost(TokenTotals(300, 50, 10, 5)) == 168900
  {
  }
}
