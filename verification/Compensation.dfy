/** Compensation for an order (services/compensation-service/app/core/engine.py). Amounts are in
    paise; the order amount itself need not be whole. */
module CompensationRules {

  import opened Prelude
  import opened MoneyAmounts

  const MAX_COMPENSATION := 500000.0

  datatype Kind = FullRefund | PartialRefund

  datatype Rule = Rule(kind: Kind, percentage: real, autoApprove: bool)

  function RuleFor(reason: string): Rule {
    match reason
    case "SHELF_EXPIRED" => Rule(FullRefund, 100.0, true)
    case "KITCHEN_FAILURE" => Rule(FullRefund, 100.0, true)
    case "PAYMENT_CONFLICT" => Rule(FullRefund, 100.0, true)
    case "EXPIRED_NOT_PICKED" => Rule(FullRefund, 100.0, true)
    case "DELAY_15MIN" => Rule(PartialRefund, 20.0, true)
    case "DELAY_30MIN" => Rule(PartialRefund, 50.0, true)
    case "WRONG_ORDER" => Rule(FullRefund, 100.0, true)
    case "QUALITY_ISSUE" => Rule(PartialRefund, 50.0, false)
    case _ => Rule(PartialRefund, 10.0, false)
  }

  // The rule's share of the order, rounded.
  function RuleAmount(reason: string, order: real): real {
    RoundHalfUp(order * (RuleFor(reason).percentage / 100.0)) as real
  }

  function Cap(order: real): real { Min(order, MAX_COMPENSATION) }

  datatype Compensation = Compensation(amount: real, rule: Rule, absoluteCap: real, capApplied: bool)

  function CalculateCompensation(reason: string, order: real, existing: Option<real>): Compensation {
    var share := RuleAmount(reason, order);
    var capped :=
      if existing.Some? then Min(share, Max(0.0, Cap(order) - existing.value))
      else Min(share, Cap(order));
    var amount := Max(capped, 0.0);
    Compensation(amount, RuleFor(reason), Cap(order), amount < share)
  }

  // A sequence of calls on one order, each told the sum so far.
  function Total(reasons: seq<string>, order: real): real {
    if reasons == [] then 0.0
    else
      var before := Total(reasons[..|reasons| - 1], order);
      before + CalculateCompensation(reasons[|reasons| - 1], order, Some(before)).amount
  }

  function Shares(reasons: seq<string>, order: real): real {
    if reasons == [] then 0.0
    else Shares(reasons[..|reasons| - 1], order) + RuleAmount(reasons[|reasons| - 1], order)
  }

  lemma ShareIsNotNegative(reason: string, order: real)
    requires order >= 0.0
    ensures RuleAmount(reason, order) >= 0.0
  {
  }

  // The part of the order that a reason gives back.
  predicate GivesBack(reason: string, part: real) {
    part ==
    if reason in {"SHELF_EXPIRED", "KITCHEN_FAILURE", "PAYMENT_CONFLICT", "EXPIRED_NOT_PICKED", "WRONG_ORDER"} then 1.0
    else if reason in {"DELAY_30MIN", "QUALITY_ISSUE"} then 0.5
    else if reason == "DELAY_15MIN" then 0.2
    else 0.1
  }

  lemma ShareIsPart(reason: string, order: real, part: real)
    requires order >= 0.0 && GivesBack(reason, part)
    ensures RuleFor(reason).percentage == 100.0 * part && RuleAmount(reason, order) == RoundHalfUp(order * part) as real
    ensures -0.5 <= RuleAmount(reason, order) - order * part <= 0.5
  {
    assert RuleFor(reason).percentage / 100.0 == part;
    RoundIsNearest(order * part);
  }

  /** A first call gives back all of the order, a half, a fifth or a tenth, to the nearest paisa, cut off
      at the order amount and 5000 rupees; and only doubtful reasons wait for an approval. */
  lemma FirstCompensation(reason: string, order: real, part: real)
    requires order >= 0.0 && GivesBack(reason, part)
    ensures var c := CalculateCompensation(reason, order, None);
            && c.amount == Min(RoundHalfUp(order * part) as real, Min(order, 500000.0))
            && c.absoluteCap == Min(order, 500000.0)
            && (c.rule.kind == FullRefund <==> part == 1.0)
            && (c.rule.autoApprove <==> part == 1.0 || reason in {"DELAY_15MIN", "DELAY_30MIN"})
  {
    ShareIsPart(reason, order, part);
    ShareIsNotNegative(reason, order);
  }

  /** The total saturates: it is the sum of the rules' shares, cut off at the order amount and at the
      maximum; so no sequence of reasons ever passes the cap. */
  lemma {:induction false} CompensationSaturates(reasons: seq<string>, order: real)
    requires order >= 0.0
    ensures Shares(reasons, order) >= 0.0
    ensures Total(reasons, order) == Min(Min(order, 500000.0), Shares(reasons, order))
  {
    if reasons != [] {
      CompensationSaturates(reasons[..|reasons| - 1], order);
      ShareIsNotNegative(reasons[|reasons| - 1], order);
    }
  }

  /** On a first call, saying nothing of earlier compensation is the same as saying there was none. */
  lemma FirstCall(reason: string, order: real)
    requires order >= 0.0
    ensures CalculateCompensation(reason, order, None) == CalculateCompensation(reason, order, Some(0.0))
  {
  }

  /** The flag says exactly that something of the rule's share was cut off. */
  lemma CapFlagIsExact(reason: string, order: real, existing: real)
    requires order >= 0.0 && 0.0 <= existing
    ensures var c := CalculateCompensation(reason, order, Some(existing));
            c.capApplied <==> existing + RuleAmount(reason, order) > Cap(order) && RuleAmount(reason, order) > 0.0
  {
  }

  // ---------------------------------------------------------------------------
  // The order of the calls
  // ---------------------------------------------------------------------------

  lemma {:induction false} SharesConcat(a: seq<string>, b: seq<string>, order: real)
    ensures Shares(a + b, order) == Shares(a, order) + Shares(b, order)
    decreases |b|
  {
    if b == [] {
      assert a + b == a;
    } else {
      var b' := b[..|b| - 1];
      assert (a + b)[..|a + b| - 1] == a + b';
      SharesConcat(a, b', order);
    }
  }

  lemma SharesInsert(l: seq<string>, x: string, r: seq<string>, order: real)
    ensures Shares(l + [x] + r, order) == Shares(l + r, order) + RuleAmount(x, order)
  {
    SharesConcat(l, r, order);
    SharesConcat(l + [x], r, order);
    assert (l + [x])[..|l|] == l;
  }

  lemma {:induction false} SharesPermute(a: seq<string>, b: seq<string>, order: real)
    requires multiset(a) == multiset(b)
    ensures Shares(a, order) == Shares(b, order)
    decreases |a|
  {
    if a == [] {
      assert |multiset(b)| == 0;
    } else {
      var x, a' := a[|a| - 1], a[..|a| - 1];
      assert a == a' + [x];
      assert x in multiset(b);
      var k :| 0 <= k < |b| && b[k] == x;
      var l, r := b[..k], b[k + 1..];
      assert b == l + [x] + r;
      assert multiset(a) == multiset(a') + multiset{x};
      assert multiset(b) == multiset(l + r) + multiset{x};
      assert multiset(a') == multiset(a) - multiset{x};
      SharesPermute(a', l + r, order);
      SharesInsert(l, x, r, order);
    }
  }

  /** The total does not depend on the order in which the reasons come. */
  lemma {:induction false} OrderOfCallsIsImmaterial(a: seq<string>, b: seq<string>, order: real)
    requires order >= 0.0 && multiset(a) == multiset(b)
    ensures Total(a, order) == Total(b, order)
  {
    CompensationSaturates(a, order);
    CompensationSaturates(b, order);
    SharesPermute(a, b, order);
  }
}
