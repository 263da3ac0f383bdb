/** Merchant pricing: which rules are accepted, the fee shown by the browser's simulator, and
    the fee PostgreSQL freezes into a transaction. Amounts are integer centavos. */
module Pricing {
  import opened Wrappers

  datatype Rule = Rule(fixed: int, bps: int, min: Option<int>, max: Option<int>)

  datatype RuleFault = NegativeFixed | BpsOutOfRange | NegativeMin | NegativeMax | MinAboveMax

  /** The first fault of a rule, in the order the handler tests them. */
  function ValidateRule(rule: Rule): Option<RuleFault> {
    if rule.fixed < 0 then Some(NegativeFixed)
    else if rule.bps < 0 || rule.bps > 10000 then Some(BpsOutOfRange)
    else if rule.min.Some? && rule.min.value < 0 then Some(NegativeMin)
    else if rule.max.Some? && rule.max.value < 0 then Some(NegativeMax)
    else if rule.min.Some? && rule.max.Some? && rule.min.value > rule.max.value then Some(MinAboveMax)
    else None
  }

  predicate Accepted(rule: Rule) {
    ValidateRule(rule).None?
  }

  const OPERATIONS: seq<string> := ["pix_in", "transfer", "withdrawal"]

  datatype InputFault = WrongCount | MissingRule(operation: string)
                      | BadRule(operation: string, fault: RuleFault) | Unsupported(operation: string)

  lemma ThreeOperations()
    ensures |set op | op in OPERATIONS| == 3
  {
    assert OPERATIONS[0] != OPERATIONS[1] && OPERATIONS[0] != OPERATIONS[2] && OPERATIONS[1] != OPERATIONS[2] by {
      assert |OPERATIONS[0]| == 6 && |OPERATIONS[1]| == 8 && |OPERATIONS[2]| == 10;
    }
    assert (set op | op in OPERATIONS) == {OPERATIONS[0], OPERATIONS[1], OPERATIONS[2]};
  }

  lemma SubsetOfSameSize<T>(small: set<T>, large: set<T>)
    requires small <= large && |small| == |large|
    ensures small == large
  {
    assert large == small + (large - small);
    assert large - small == {};
  }

  /** Three checks: the count, each known operation, then every key that is present. A document
      passes exactly when its keys are the three operations and every rule is accepted; the
      last check never fires. */
  method ValidateInput(rules: map<string, Rule>) returns (fault: Option<InputFault>)
    ensures fault.None? <==>
              rules.Keys == (set op | op in OPERATIONS) && forall op <- rules.Keys :: Accepted(rules[op])
    ensures fault.Some? ==> !fault.value.Unsupported?
  {
    ghost var named := set op | op in OPERATIONS;
    ThreeOperations();
    if |rules| != 3 {
      assert |rules.Keys| == |rules|;
      return Some(WrongCount);
    }
    for i := 0 to |OPERATIONS|
      invariant forall k :: 0 <= k < i ==> OPERATIONS[k] in rules && Accepted(rules[OPERATIONS[k]])
    {
      var op := OPERATIONS[i];
      if op !in rules {
        assert op in named;
        return Some(MissingRule(op));
      }
      var ruleFault := ValidateRule(rules[op]);
      if ruleFault.Some? {
        return Some(BadRule(op, ruleFault.value));
      }
    }
    assert |rules.Keys| == |rules|;
    SubsetOfSameSize(named, rules.Keys);
    var left := rules.Keys;
    while left != {}
      invariant left <= named
      decreases left
    {
      var op :| op in left;
      if op !in OPERATIONS {
        return Some(Unsupported(op));
      }
      left := left - {op};
    }
    return None;
  }

  function PercentPart(amount: int, bps: int): int {
    TruncDiv(amount * bps + 5000, 10000)
  }

  function Clamp(fee: int, rule: Rule): int {
    var raised := if rule.min.Some? && fee < rule.min.value then rule.min.value else fee;
    if rule.max.Some? && raised > rule.max.value then rule.max.value else raised
  }

  /** The simulator of the platform's pricing page. */
  function FeeFor(amount: int, rule: Rule): int {
    Clamp(rule.fixed + PercentPart(amount, rule.bps), rule)
  }

  /** PostgreSQL's round(n / d) on numeric: nearest integer, ties away from zero. */
  function RoundNumeric(n: int, d: int): int
    requires d > 0
  {
    if n >= 0 then (2 * n + d) / (2 * d) else -((-2 * n + d) / (2 * d))
  }

  /** quote_merchant_pricing's fee; None where a bigint cast or sum is out of range. */
  function Quote(rule: Rule, amount: int): Option<int> {
    var percent := RoundNumeric(amount * rule.bps, 10000);
    if !FitsInt64(percent) || !FitsInt64(rule.fixed + percent) then None
    else Some(Clamp(rule.fixed + percent, rule))
  }

  // --- laws ---------------------------------------------------------------

  lemma ProductBounds(amount: int, bps: int)
    requires amount >= 0 && 0 <= bps <= 10000
    ensures 0 <= amount * bps <= 10000 * amount
  {
    assert amount * bps <= amount * 10000;
  }

  /** The percent part is the nearest centavo, halves going up, and never exceeds the amount. */
  lemma PercentIsHalfUp(amount: int, bps: int)
    requires amount >= 0 && 0 <= bps <= 10000
    ensures var error := 10000 * PercentPart(amount, bps) - amount * bps; -5000 < error <= 5000
    ensures 0 <= PercentPart(amount, bps) <= amount
  {
    ProductBounds(amount, bps);
  }

  /** Splitting one payment in two moves the percent part by at most one centavo. */
  lemma SplittingMovesPercentByAtMostOne(a: int, b: int, bps: int)
    requires a >= 0 && b >= 0 && 0 <= bps <= 10000
    ensures -1 <= PercentPart(a + b, bps) - PercentPart(a, bps) - PercentPart(b, bps) <= 1
  {
    PercentIsHalfUp(a, bps);
    PercentIsHalfUp(b, bps);
    PercentIsHalfUp(a + b, bps);
    assert (a + b) * bps == a * bps + b * bps;
  }

  /** The fee of a rule, in words: the fixed part plus the nearest centavo of the percentage, halves
      going up; raised to the minimum, then lowered to the maximum. */
  ghost predicate IsFeeOf(fee: int, rule: Rule, amount: int) {
    exists percent: int ::
      && -5000 < 10000 * percent - amount * rule.bps <= 5000
      && IsClamped(fee, rule.fixed + percent, rule)
  }

  predicate IsClamped(fee: int, sum: int, rule: Rule) {
    && (rule.min.Some? && sum < rule.min.value ==> fee == rule.min.value)
    && (rule.max.Some? && sum > rule.max.value ==> fee == rule.max.value)
    && ((rule.min.Some? ==> sum >= rule.min.value) && (rule.max.Some? ==> sum <= rule.max.value) ==> fee == sum)
  }

  /** The simulator computes that fee, and no other number is one. */
  lemma FeeIsTheClampedSum(amount: int, rule: Rule, fee: int)
    requires amount >= 0 && Accepted(rule)
    ensures IsFeeOf(fee, rule, amount) <==> fee == FeeFor(amount, rule)
  {
    PercentIsHalfUp(amount, rule.bps);
    var percent := PercentPart(amount, rule.bps);
    assert IsClamped(FeeFor(amount, rule), rule.fixed + percent, rule);
    if IsFeeOf(fee, rule, amount) {
      var p: int :| -5000 < 10000 * p - amount * rule.bps <= 5000 && IsClamped(fee, rule.fixed + p, rule);
      assert p == percent;
    }
  }

  lemma FeeIsMonotone(low: int, high: int, rule: Rule)
    requires 0 <= low <= high && Accepted(rule)
    ensures FeeFor(low, rule) <= FeeFor(high, rule)
  {
    ProductBounds(low, rule.bps);
    assert (high - low) * rule.bps >= 0;
    assert low * rule.bps <= high * rule.bps;
  }

  lemma FeeIsWithinItsBounds(amount: int, rule: Rule)
    requires amount >= 0 && Accepted(rule)
    ensures FeeFor(amount, rule) >= 0
    ensures rule.min.Some? ==> FeeFor(amount, rule) >= rule.min.value
    ensures rule.max.Some? ==> FeeFor(amount, rule) <= rule.max.value
  {
    PercentIsHalfUp(amount, rule.bps);
  }

  /** In exact integers the simulator and the database agree on every accepted rule: the quote is
      the simulated fee, and it is refused exactly when the fee before clamping exceeds a bigint. */
  lemma QuoteIsTheSimulatedFee(rule: Rule, amount: int)
    requires amount >= 0 && Accepted(rule)
    ensures Quote(rule, amount) == if rule.fixed + PercentPart(amount, rule.bps) > MAX_INT64 then None
                                   else Some(FeeFor(amount, rule))
  {
    PercentIsHalfUp(amount, rule.bps);
    ProductBounds(amount, rule.bps);
    var n := amount * rule.bps;
    assert RoundNumeric(n, 10000) == TruncDiv(n + 5000, 10000);
  }

  // --- the browser's numbers --------------------------------------------------------------

  /** JavaScript represents every integer up to this magnitude exactly. */
  const MAX_SAFE: int := 0x1F_FFFF_FFFF_FFFF

  /** Rounding to a JavaScript number: anything, as long as safe integers stay what they are. */
  ghost predicate KeepsSafeIntegers(round: int -> int) {
    forall n :: -MAX_SAFE <= n <= MAX_SAFE ==> round(n) == n
  }

  /** The simulator with every Number it computes rounded; the percent part is a BigInt until it is
      converted. */
  function NumberFee(amount: int, rule: Rule, round: int -> int): int {
    Clamp(round(rule.fixed + round(PercentPart(amount, rule.bps))), rule)
  }

  /** While the fixed part and the amount together are a safe integer, the browser shows exactly
      the fee that the database freezes, however larger numbers are rounded. */
  lemma BrowserShowsTheQuote(rule: Rule, amount: int, round: int -> int)
    requires amount >= 0 && Accepted(rule) && rule.fixed + amount <= MAX_SAFE && KeepsSafeIntegers(round)
    ensures Quote(rule, amount) == Some(NumberFee(amount, rule, round))
  {
    PercentIsHalfUp(amount, rule.bps);
    QuoteIsTheSimulatedFee(rule, amount);
  }
}
