/** Amounts of money (shared/money.py): whole paise, rounded half up after every operation, with the
    GST split and the payout built on them. */
module MoneyAmounts {

  datatype Result<+T> = Ok(value: T) | ValueError

  // ROUND_HALF_UP: halves go away from zero.
  function RoundHalfUp(x: real): int {
    if x >= 0.0 then (x + 0.5).Floor else -((-x + 0.5).Floor)
  }

  datatype Money = Money(paise: int, currency: string)

  const INR := "INR"

  // Money(amount) for an amount in paise.
  function Make(paise: real, currency: string, allowNegative: bool): Result<Money> {
    var p := RoundHalfUp(paise);
    if !allowNegative && p < 0 then ValueError else Ok(Money(p, currency))
  }

  // The result keeps the currency of the left operand; the right one's is not looked at.
  function Plus(a: Money, b: Money): Result<Money> {
    Make((a.paise + b.paise) as real, a.currency, false)
  }

  function Minus(a: Money, b: Money): Money {
    Money(a.paise - b.paise, a.currency)
  }

  function Share(n: int, rate: real): real { n as real * rate }

  function Times(a: Money, rate: real): Result<Money> {
    Make(Share(a.paise, rate), a.currency, false)
  }

  lemma RoundIsNearest(x: real)
    ensures -0.5 <= RoundHalfUp(x) as real - x <= 0.5
    ensures x >= 0.0 ==> RoundHalfUp(x) >= 0
    ensures RoundHalfUp(-x) == -RoundHalfUp(x)
  {
  }

  lemma RoundIsExactOnWhole(n: int)
    ensures RoundHalfUp(n as real) == n
  {
  }

  /** Adding and taking away again gives the amount back; a sum below zero is refused. */
  lemma PlusMinus(a: Money, b: Money)
    ensures Plus(a, b).Ok? <==> a.paise + b.paise >= 0
    ensures Plus(a, b).Ok? ==> Minus(Plus(a, b).value, b) == a && Plus(a, b).value.paise == a.paise + b.paise
  {
  }

  // ---------------------------------------------------------------------------
  // GST
  // ---------------------------------------------------------------------------

  datatype Gst = Gst(cgst: Money, sgst: Money, igst: Money, total: Money)

  function CalculateGst(base: Money, rate: real, interstate: bool): Result<Gst> {
    match Times(base, rate)
    case ValueError => ValueError
    case Ok(total) =>
      if interstate then Ok(Gst(Money(0, INR), Money(0, INR), total, total))
      else
        var cgst := RoundHalfUp(total.paise as real / 2.0);
        match Make(cgst as real, INR, false)
        case ValueError => ValueError
        case Ok(c) => Ok(Gst(c, Money(total.paise - cgst, INR), Money(0, INR), total))
  }

  /** The tax is refused only when it rounds below zero; otherwise it is within half a paisa of the
      exact tax, its parts add up to it, and within a state the two halves differ by a paisa at most. */
  lemma GstSplitsExactly(base: Money, rate: real, interstate: bool)
    ensures var g, exact := CalculateGst(base, rate, interstate), Share(base.paise, rate);
            && (g.ValueError? <==> RoundHalfUp(exact) < 0)
            && (g.Ok? ==>
                  var Gst(c, s, i, t) := g.value;
                  && -0.5 <= t.paise as real - exact <= 0.5
                  && c.paise + s.paise + i.paise == t.paise
                  && t.currency == base.currency && c.currency == s.currency == INR
                  && (if interstate then i == t else i.currency == INR)
                  && c.paise >= 0 && s.paise >= 0 && i.paise >= 0
                  && (if interstate then c.paise == s.paise == 0
                      else i.paise == 0 && 0 <= c.paise - s.paise <= 1))
  {
    var t := RoundHalfUp(Share(base.paise, rate));
    RoundIsNearest(Share(base.paise, rate));
    RoundIsExactOnWhole(RoundHalfUp(t as real / 2.0));
    HalfUp(t);
  }

  lemma HalfUp(t: int)
    ensures t >= 0 ==> 0 <= RoundHalfUp(t as real / 2.0) - (t - RoundHalfUp(t as real / 2.0)) <= 1
  {
  }

  // ---------------------------------------------------------------------------
  // Commission and payout
  // ---------------------------------------------------------------------------

  const GST_ON_COMMISSION := 0.18

  datatype Payout = Payout(commission: Money, gst: Money, net: Money)

  // What is left of the revenue once a commission of this exact amount is charged.
  function PayoutAfter(revenue: Money, exact: real): Result<Payout> {
    match Make(exact, revenue.currency, false)
    case ValueError => ValueError
    case Ok(commission) =>
      match Times(commission, GST_ON_COMMISSION)
      case ValueError => ValueError
      case Ok(gst) =>
        // The net payout is made anew, in the default currency.
        Ok(Payout(commission, gst, Money(Minus(Minus(revenue, commission), gst).paise, INR)))
  }

  function CalculateCommission(revenue: Money, rate: real): Result<Payout> {
    PayoutAfter(revenue, Share(revenue.paise, rate))
  }

  lemma ShareIsNotNegative(n: int, rate: real)
    requires n >= 0 && rate >= 0.0
    ensures Share(n, rate) >= 0.0
  {
  }

  // The three parts add up to the revenue, and the net is within 1.09 paise of what it should be.
  ghost predicate Conserves(revenue: Money, net: real, p: Result<Payout>) {
    && p.Ok?
    && p.value.commission.paise + p.value.gst.paise + p.value.net.paise == revenue.paise
    && p.value.commission.paise >= 0 && p.value.gst.paise >= 0
    && -1.09 <= p.value.net.paise as real - net <= 1.09
    && p.value.commission.currency == p.value.gst.currency == revenue.currency
    && p.value.net.currency == INR
  }

  // The two rounding errors: half a paisa for the commission and its tax, half for the tax alone.
  lemma PayoutErrors(revenue: Money, exact: real)
    requires exact >= 0.0
    ensures Conserves(revenue, revenue.paise as real - 1.18 * exact, PayoutAfter(revenue, exact))
  {
    RoundIsNearest(exact);
    RoundIsNearest(Share(RoundHalfUp(exact), GST_ON_COMMISSION));
  }

  /** Each of the two is rounded on its own: the commission is within half a paisa of revenue * rate, and
      its tax within half a paisa of 18 percent of the commission as charged. */
  lemma PartsAreNearest(revenue: Money, rate: real)
    requires revenue.paise >= 0 && rate >= 0.0
    ensures var p := CalculateCommission(revenue, rate);
            && p.Ok?
            && -0.5 <= p.value.commission.paise as real - revenue.paise as real * rate <= 0.5
            && -0.5 <= p.value.gst.paise as real - p.value.commission.paise as real * 0.18 <= 0.5
  {
    ShareIsNotNegative(revenue.paise, rate);
    var exact := Share(revenue.paise, rate);
    RoundIsNearest(exact);
    RoundIsNearest(Share(RoundHalfUp(exact), GST_ON_COMMISSION));
  }

  lemma WhatIsKept(n: int, rate: real)
    ensures n as real * (1.0 - 1.18 * rate) == n as real - 1.18 * Share(n, rate)
  {
  }

  /** For revenue and rate not below zero, commission, its GST and the net payout add up to the revenue
      exactly, and the net is within 1.09 paise of revenue * (1 - 1.18 * rate). */
  lemma PayoutConserves(revenue: Money, rate: real)
    requires revenue.paise >= 0 && rate >= 0.0
    ensures Conserves(revenue, revenue.paise as real * (1.0 - 1.18 * rate), CalculateCommission(revenue, rate))
  {
    ShareIsNotNegative(revenue.paise, rate);
    PayoutErrors(revenue, Share(revenue.paise, rate));
    WhatIsKept(revenue.paise, rate);
  }

  // The payout is made and nothing is overdrawn.
  predicate Covered(p: Result<Payout>) { p.Ok? && p.value.net.paise >= 0 }

  // The bound on the rounding errors settles it from six paise on.
  lemma CoveredFromSix(revenue: Money, exact: real)
    requires revenue.paise >= 6 && 0.0 <= exact && 6.0 * exact < 5.0 * revenue.paise as real
    ensures Covered(PayoutAfter(revenue, exact))
  {
    PayoutErrors(revenue, exact);
  }

  lemma CoveredBelowSix(revenue: Money, exact: real)
    requires 0 < revenue.paise < 6 && 0.0 <= exact && 6.0 * exact < 5.0 * revenue.paise as real
    ensures Covered(PayoutAfter(revenue, exact))
  {
    var c := RoundHalfUp(exact);
    assert 0 <= c <= if revenue.paise <= 2 then revenue.paise else revenue.paise - 1;
    RoundIsNearest(Share(c, GST_ON_COMMISSION));
  }

  lemma ShareBelow(n: int, rate: real)
    requires n > 0 && 0.0 <= rate && 6.0 * rate < 5.0
    ensures 6.0 * Share(n, rate) < 5.0 * n as real
  {
    assert n as real * (5.0 - 6.0 * rate) > 0.0;
  }

  /** Below five sixths of the revenue the commission leaves enough for its own tax. */
  lemma PayoutIsNotNegative(revenue: Money, rate: real)
    requires revenue.paise >= 0 && 0.0 <= rate && 6.0 * rate < 5.0
    ensures Covered(CalculateCommission(revenue, rate))
  {
    ShareIsNotNegative(revenue.paise, rate);
    if revenue.paise > 0 { ShareBelow(revenue.paise, rate); }
    if revenue.paise >= 6 {
      CoveredFromSix(revenue, Share(revenue.paise, rate));
    } else if revenue.paise > 0 {
      CoveredBelowSix(revenue, Share(revenue.paise, rate));
    } else {
      assert Share(0, rate) == 0.0 && Share(0, GST_ON_COMMISSION) == 0.0;
    }
  }

  lemma NegativeRateIsRefused(rate: real) returns (revenue: Money)
    requires rate < 0.0
    ensures revenue.paise >= 0 && CalculateCommission(revenue, rate).ValueError?
  {
    var n: nat := (1.0 / -rate).Floor + 1;
    assert n as real * rate <= -1.0;
    revenue := Money(n, INR);
  }

  lemma ThreePaiseOverdrawn(rate: real)
    requires 6.0 * rate >= 5.0
    ensures !Covered(CalculateCommission(Money(3, INR), rate))
  {
    assert RoundHalfUp(Share(3, rate)) >= 3;
    RoundIsNearest(Share(RoundHalfUp(Share(3, rate)), GST_ON_COMMISSION));
  }

  /** The payout is made and never negative, whatever the revenue, exactly for the rates from zero up
      to, but not including, five sixths. */
  lemma PayoutIsCoveredIff(rate: real)
    ensures (forall revenue: Money | revenue.paise >= 0 :: Covered(CalculateCommission(revenue, rate)))
            <==> 0.0 <= rate && 6.0 * rate < 5.0
  {
    if rate < 0.0 {
      var revenue := NegativeRateIsRefused(rate);
      assert !Covered(CalculateCommission(revenue, rate));
    } else if 6.0 * rate < 5.0 {
      forall revenue: Money | revenue.paise >= 0 ensures Covered(CalculateCommission(revenue, rate)) {
        PayoutIsNotNegative(revenue, rate);
      }
    } else {
      ThreePaiseOverdrawn(rate);
      assert Money(3, INR).paise >= 0;
    }
  }

  // A rate that leaves something exactly may still take more than there is, once rounded.
  lemma HighRateCanOverdraw()
    ensures 1.0 - 1.18 * 0.84 > 0.0
    ensures CalculateCommission(Money(3, INR), 0.84).Ok?
    ensures CalculateCommission(Money(3, INR), 0.84).value.net.paise == -1
  {
  }
}
