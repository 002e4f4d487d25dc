/** Cost and operational metrics of the dashboard
    (`calculate_cost` and `calculate_ops_metrics` in
    src/backend/dashboard/dashboard.py). Amounts are reals. */
module Costs {
  import opened Wrappers
  import opened Commons
  import opened Ratios

  /** US dollars per million input (prompt) tokens. */
  const PricePer1MInput: real := 0.30
  /** US dollars per million output (candidate and thinking) tokens. */
  const PricePer1MOutput: real := 2.50

  /** The thinking-token count, with a missing count read as 0. */
  function ThinkingTokens(u: Usage): nat {
    if u.thoughtsTokenCount.Some? then u.thoughtsTokenCount.value else 0
  }

  /** `calculate_cost`: no usage costs nothing; otherwise input tokens at
      the input price plus candidate and thinking tokens at the output
      price, both per million. */
  function CalculateCost(usage: Option<Usage>): (cost: real)
    ensures usage.None? ==> cost == 0.0
    ensures cost >= 0.0
  {
    match usage
    case None => 0.0
    case Some(u) =>
      var totalOutputTokens := u.candidatesTokenCount + ThinkingTokens(u);
      var inputCost := (u.promptTokenCount as real / 1000000.0) * PricePer1MInput;
      var outputCost := (totalOutputTokens as real / 1000000.0) * PricePer1MOutput;
      inputCost + outputCost
  }

  /** The cost is the rational 3/10^7 per input token plus 25/10^7 per
      output token. */
  lemma CostClosedForm(u: Usage)
    ensures CalculateCost(Some(u))
            == (3 * u.promptTokenCount + 25 * (u.candidatesTokenCount + ThinkingTokens(u))) as real / 10000000.0
  {
  }

  /** Usage that is no larger in any count costs no more. */
  lemma CostMonotone(u: Usage, v: Usage)
    requires u.promptTokenCount <= v.promptTokenCount
    requires u.candidatesTokenCount <= v.candidatesTokenCount
    requires ThinkingTokens(u) <= ThinkingTokens(v)
    ensures CalculateCost(Some(u)) <= CalculateCost(Some(v))
  {
    CostClosedForm(u);
    CostClosedForm(v);
  }

  /** A missing thinking count costs the same as a zero count. */
  lemma MissingThoughtsCountAsZero(prompt: nat, candidates: nat)
    ensures CalculateCost(Some(Usage(prompt, candidates, None)))
            == CalculateCost(Some(Usage(prompt, candidates, Some(0))))
  {
  }

  /** The usage of two calls added together. */
  function AddUsage(u: Usage, v: Usage): Usage {
    Usage(u.promptTokenCount + v.promptTokenCount,
          u.candidatesTokenCount + v.candidatesTokenCount,
          Some(ThinkingTokens(u) + ThinkingTokens(v)))
  }

  /** The cost is linear: two calls cost as much as their summed usage. */
  lemma CostAdditive(u: Usage, v: Usage)
    ensures CalculateCost(Some(AddUsage(u, v))) == CalculateCost(Some(u)) + CalculateCost(Some(v))
  {
    CostClosedForm(u);
    CostClosedForm(v);
    CostClosedForm(AddUsage(u, v));
  }

  /** A million input and a million output tokens cost 0.30 + 2.50 dollars. */
  lemma CostOfOneMillionEach()
    ensures CalculateCost(Some(Usage(1000000, 1000000, None))) == 2.8
    ensures CalculateCost(Some(Usage(1000000, 400000, Some(600000)))) == 2.8
  {
  }

  // ---------------------------------------------------------------------
  // Operational metrics

  /** One processed document: latency, cost and final status. */
  datatype OpsSample = OpsSample(latencySeconds: real, costUsd: real, status: string)

  datatype OpsSummary = OpsSummary(
    costPerDoc: real,
    autoApproveRate: real,
    humanReviewRate: real,
    totalCost: real,
    totalDocs: nat)

  const AutoApproved := "auto_approved"

  /** Samples whose status is `auto_approved`. */
  function AutoApprovedCount(samples: seq<OpsSample>): (n: nat)
    ensures n <= |samples|
    decreases |samples|
  {
    if samples == [] then 0
    else AutoApprovedCount(samples[..|samples| - 1]) + (if samples[|samples| - 1].status == AutoApproved then 1 else 0)
  }

  /** The sum of the costs, added left to right; never negative when no
      cost is. */
  function TotalCost(samples: seq<OpsSample>): (total: real)
    ensures (forall i :: 0 <= i < |samples| ==> samples[i].costUsd >= 0.0) ==> total >= 0.0
    decreases |samples|
  {
    if samples == [] then 0.0 else TotalCost(samples[..|samples| - 1]) + samples[|samples| - 1].costUsd
  }

  /** `calculate_ops_metrics` without the latency percentiles: `None` for no
      samples; otherwise the mean and total cost, the share of
      auto-approved documents, its complement and the document count. */
  function CalculateOpsMetrics(samples: seq<OpsSample>): (r: Option<OpsSummary>)
    ensures r.None? <==> samples == []
    ensures r.Some? ==>
              && r.value.totalDocs == |samples|
              && 0.0 <= r.value.autoApproveRate <= 1.0
              && r.value.autoApproveRate + r.value.humanReviewRate == 1.0
              && r.value.totalCost == TotalCost(samples)
              && r.value.costPerDoc * |samples| as real == r.value.totalCost
              && r.value.autoApproveRate == AutoApprovedCount(samples) as real / |samples| as real
    ensures r.Some? && (forall i :: 0 <= i < |samples| ==> samples[i].costUsd >= 0.0) ==>
              r.value.costPerDoc >= 0.0
  {
    if samples == [] then None
    else
      var n := |samples|;
      var totalCost := TotalCost(samples);
      var autoApproveRate := AutoApprovedCount(samples) as real / n as real;
      CountFraction(AutoApprovedCount(samples), n);
      Some(OpsSummary(totalCost / n as real, autoApproveRate, 1.0 - autoApproveRate, totalCost, n))
  }

  /** The indices of the auto-approved samples. */
  ghost function AutoApprovedIndices(samples: seq<OpsSample>): set<nat> {
    set i: nat | i < |samples| && samples[i].status == AutoApproved
  }

  /** The count is the number of auto-approved positions. */
  lemma {:induction false} AutoApprovedCountIsIndices(samples: seq<OpsSample>)
    ensures AutoApprovedCount(samples) == |AutoApprovedIndices(samples)|
    decreases |samples|
  {
    if samples != [] {
      var n := |samples| - 1;
      var init := samples[..n];
      AutoApprovedCountIsIndices(init);
      var before := AutoApprovedIndices(init);
      if samples[n].status == AutoApproved {
        assert AutoApprovedIndices(samples) == before + {n};
      } else {
        assert AutoApprovedIndices(samples) == before;
      }
    }
  }

  /** The auto-approve rate is the share of positions whose status is
      `auto_approved`. */
  lemma AutoApproveRateIsShare(samples: seq<OpsSample>)
    requires samples != []
    ensures CalculateOpsMetrics(samples).value.autoApproveRate
            == |AutoApprovedIndices(samples)| as real / |samples| as real
  {
    AutoApprovedCountIsIndices(samples);
  }

  /** Every document auto-approved: rate 1 and no human review; none
      auto-approved: rate 0 and everything reviewed. */
  lemma RatesAtExtremes(samples: seq<OpsSample>)
    requires samples != []
    ensures (forall i :: 0 <= i < |samples| ==> samples[i].status == AutoApproved) ==>
              CalculateOpsMetrics(samples).value.autoApproveRate == 1.0
              && CalculateOpsMetrics(samples).value.humanReviewRate == 0.0
    ensures (forall i :: 0 <= i < |samples| ==> samples[i].status != AutoApproved) ==>
              CalculateOpsMetrics(samples).value.autoApproveRate == 0.0
              && CalculateOpsMetrics(samples).value.humanReviewRate == 1.0
  {
    AutoApprovedCountExtremes(samples);
    var n, count := |samples|, AutoApprovedCount(samples);
    var r := CalculateOpsMetrics(samples).value;
    assert r.autoApproveRate == count as real / n as real;
    assert r.humanReviewRate == 1.0 - r.autoApproveRate;
    if forall i :: 0 <= i < |samples| ==> samples[i].status == AutoApproved {
      assert count == n;
      assert count as real / n as real == 1.0;
    }
    if forall i :: 0 <= i < |samples| ==> samples[i].status != AutoApproved {
      assert count == 0;
    }
  }

  lemma {:induction false} AutoApprovedCountExtremes(samples: seq<OpsSample>)
    ensures (forall i :: 0 <= i < |samples| ==> samples[i].status == AutoApproved) ==>
              AutoApprovedCount(samples) == |samples|
    ensures (forall i :: 0 <= i < |samples| ==> samples[i].status != AutoApproved) ==>
              AutoApprovedCount(samples) == 0
    decreases |samples|
  {
    if samples != [] {
      AutoApprovedCountExtremes(samples[..|samples| - 1]);
    }
  }

  /** The total cost of a batch is the sum of the costs of its parts. */
  lemma {:induction false} TotalCostSplit(a: seq<OpsSample>, b: seq<OpsSample>)
    ensures TotalCost(a + b) == TotalCost(a) + TotalCost(b)
    decreases |b|
  {
    if b != [] {
      assert (a + b)[..|a + b| - 1] == a + b[..|b| - 1];
      TotalCostSplit(a, b[..|b| - 1]);
    } else {
      assert a + b == a;
    }
  }
}
