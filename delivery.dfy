/**
 * One delivery cycle to one webhook, and the per-target loop of cycles,
 * with the network replaced by the sequence of answers it gives.
 */
module Delivery {

  /** What the network answers to one POST: an HTTP status, or a request exception. */
  datatype Outcome = Status(code: int) | TransportError

  /** How one call of the sender ends. */
  datatype Verdict = Delivered | Rejected(code: int) | Exhausted

  /** The verdict of a cycle and how many answers (requests) it used. */
  datatype CycleResult = CycleResult(verdict: Verdict, used: nat)

  /** Discord's "accepted, no content" status. */
  const NoContent := 204
  /** Discord's rate-limit status. */
  const TooManyRequests := 429

  /** An answer after which the sender goes on to its next attempt. */
  predicate Retryable(o: Outcome) {
    o == TransportError || o == Status(TooManyRequests)
  }

  /** The same result, one request later. */
  function Later(r: CycleResult): CycleResult {
    r.(used := r.used + 1)
  }

  /**
   * One cycle of the sender with `budget` attempts left: 204 delivers, any
   * other status but 429 rejects at once, and a 429 or a transport error uses
   * up the attempt and goes on.
   */
  function Cycle(outcomes: seq<Outcome>, budget: nat): (r: CycleResult)
    requires budget <= |outcomes|
    ensures r.used <= budget
    ensures r.verdict.Delivered? || r.verdict.Rejected? ==> 0 < r.used
    decreases budget
  {
    if budget == 0 then CycleResult(Exhausted, 0)
    else
      match outcomes[0]
      case Status(code) =>
        if code == NoContent then CycleResult(Delivered, 1)
        else if code == TooManyRequests then Later(Cycle(outcomes[1..], budget - 1))
        else CycleResult(Rejected(code), 1)
      case TransportError => Later(Cycle(outcomes[1..], budget - 1))
  }

  /**
   * From the answers to the verdict: if the first `k` answers are retryable and
   * answer `k` is not (and is within the budget), answer `k` decides the cycle.
   */
  lemma {:induction false} CycleDecidedAt(outcomes: seq<Outcome>, budget: nat, k: nat)
    requires budget <= |outcomes|
    requires k < budget
    requires forall j | 0 <= j < k :: Retryable(outcomes[j])
    requires !Retryable(outcomes[k])
    ensures Cycle(outcomes, budget) ==
      if outcomes[k] == Status(NoContent) then CycleResult(Delivered, k + 1)
      else CycleResult(Rejected(outcomes[k].code), k + 1)
    decreases k
  {
    if k > 0 {
      assert Retryable(outcomes[0]);
      CycleDecidedAt(outcomes[1..], budget - 1, k - 1);
    }
  }

  /** From the answers to the verdict: a budget of retryable answers exhausts the cycle. */
  lemma {:induction false} CycleExhausted(outcomes: seq<Outcome>, budget: nat)
    requires budget <= |outcomes|
    requires forall j | 0 <= j < budget :: Retryable(outcomes[j])
    ensures Cycle(outcomes, budget) == CycleResult(Exhausted, budget)
    decreases budget
  {
    if budget > 0 {
      assert Retryable(outcomes[0]);
      CycleExhausted(outcomes[1..], budget - 1);
    }
  }

  /**
   * From the verdict to the answers: every answer before the last one used was
   * retryable; a delivery ends on a 204, a rejection on its own non-429 status,
   * and an exhausted cycle used the whole budget.
   */
  lemma {:induction false} CycleShape(outcomes: seq<Outcome>, budget: nat)
    requires budget <= |outcomes|
    ensures var r := Cycle(outcomes, budget);
      && (r.verdict.Exhausted? ==> r.used == budget && forall j | 0 <= j < budget :: Retryable(outcomes[j]))
      && (r.verdict.Delivered? ==>
            && 0 < r.used && outcomes[r.used - 1] == Status(NoContent)
            && forall j | 0 <= j < r.used - 1 :: Retryable(outcomes[j]))
      && (r.verdict.Rejected? ==>
            && 0 < r.used && outcomes[r.used - 1] == Status(r.verdict.code)
            && r.verdict.code != NoContent && r.verdict.code != TooManyRequests
            && forall j | 0 <= j < r.used - 1 :: Retryable(outcomes[j]))
    decreases budget
  {
    if budget > 0 && Retryable(outcomes[0]) {
      CycleShape(outcomes[1..], budget - 1);
      var r := Cycle(outcomes, budget);
      var rest := Cycle(outcomes[1..], budget - 1);
      assert r == Later(rest);
      forall j | 1 <= j < r.used && j < budget
        ensures outcomes[j] == outcomes[1..][j - 1]
      {
      }
    }
  }

  /** With no retries configured the sender makes no request and fails. */
  lemma NoRetriesNoRequests(outcomes: seq<Outcome>)
    ensures Cycle(outcomes, 0) == CycleResult(Exhausted, 0)
  {
  }

  /** Where the per-target loop ends: the count it leaves and the cycles it ran. */
  datatype LoopEnd = LoopEnd(count: nat, cycles: nat)

  /** True when every cycle has an answer for every attempt of the budget. */
  predicate Answered(rounds: seq<seq<Outcome>>, budget: nat) {
    forall k | 0 <= k < |rounds| :: budget <= |rounds[k]|
  }

  /**
   * The per-target loop on a running shard: while the count is below the
   * limit, run one cycle on the next round of answers.
   */
  function LoopRun(count: nat, limit: nat, rounds: seq<seq<Outcome>>, budget: nat): (r: LoopEnd)
    requires Answered(rounds, budget)
    ensures r.cycles <= |rounds|
    decreases |rounds|
  {
    if rounds == [] || count >= limit then LoopEnd(count, 0)
    else
      var next := if Cycle(rounds[0], budget).verdict == Delivered then count + 1 else count;
      var rest := LoopRun(next, limit, rounds[1..], budget);
      LoopEnd(rest.count, rest.cycles + 1)
  }

  /** How many of the given rounds end in a delivery. */
  function Deliveries(rounds: seq<seq<Outcome>>, budget: nat): nat
    requires Answered(rounds, budget)
  {
    if rounds == [] then 0
    else (if Cycle(rounds[0], budget).verdict == Delivered then 1 else 0) + Deliveries(rounds[1..], budget)
  }

  /** The loop adds exactly one to the count per delivered cycle it ran; so counts never decrease. */
  lemma {:induction false} LoopCountsDeliveries(count: nat, limit: nat, rounds: seq<seq<Outcome>>, budget: nat)
    requires Answered(rounds, budget)
    ensures var r := LoopRun(count, limit, rounds, budget);
      r.count == count + Deliveries(rounds[..r.cycles], budget) && count <= r.count
    decreases |rounds|
  {
    var r := LoopRun(count, limit, rounds, budget);
    if rounds != [] && count < limit {
      var next := if Cycle(rounds[0], budget).verdict == Delivered then count + 1 else count;
      LoopCountsDeliveries(next, limit, rounds[1..], budget);
      var rest := LoopRun(next, limit, rounds[1..], budget);
      assert rounds[..r.cycles][1..] == rounds[1..][..rest.cycles];
    }
  }

  /** A count that starts at or below the limit never goes above it. */
  lemma {:induction false} LoopCapped(count: nat, limit: nat, rounds: seq<seq<Outcome>>, budget: nat)
    requires Answered(rounds, budget)
    requires count <= limit
    ensures LoopRun(count, limit, rounds, budget).count <= limit
    decreases |rounds|
  {
    if rounds != [] && count < limit {
      var next := if Cycle(rounds[0], budget).verdict == Delivered then count + 1 else count;
      LoopCapped(next, limit, rounds[1..], budget);
    }
  }

  /** The loop leaves rounds unused only because the count reached the limit. */
  lemma {:induction false} LoopStopsAtLimit(count: nat, limit: nat, rounds: seq<seq<Outcome>>, budget: nat)
    requires Answered(rounds, budget)
    ensures var r := LoopRun(count, limit, rounds, budget);
      r.cycles < |rounds| ==> r.count >= limit
    decreases |rounds|
  {
    if rounds != [] && count < limit {
      var next := if Cycle(rounds[0], budget).verdict == Delivered then count + 1 else count;
      LoopStopsAtLimit(next, limit, rounds[1..], budget);
    }
  }

  /**
   * The other direction of the exit test: every cycle the loop runs starts
   * with the count below the limit, so no request is made once it is reached.
   */
  lemma {:induction false} LoopRunsOnlyBelowLimit(count: nat, limit: nat, rounds: seq<seq<Outcome>>, budget: nat)
    requires Answered(rounds, budget)
    ensures var r := LoopRun(count, limit, rounds, budget);
      forall j | 0 <= j < r.cycles :: count + Deliveries(rounds[..j], budget) < limit
    decreases |rounds|
  {
    var r := LoopRun(count, limit, rounds, budget);
    if rounds != [] && count < limit {
      var next := if Cycle(rounds[0], budget).verdict == Delivered then count + 1 else count;
      LoopRunsOnlyBelowLimit(next, limit, rounds[1..], budget);
      forall j | 0 <= j < r.cycles
        ensures count + Deliveries(rounds[..j], budget) < limit
      {
        if j > 0 {
          assert rounds[..j][0] == rounds[0];
          assert rounds[..j][1..] == rounds[1..][..j - 1];
        }
      }
    }
  }
}
