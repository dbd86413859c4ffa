/** Priority scores of kitchen orders (PriorityScoreCalculator in the kitchen engine), over reals. */
module PriorityScores {

  import opened Prelude

  datatype QueueType = Immediate | Normal | Batch

  // How urgent a queue is; get_queue lists the most urgent first.
  function Urgency(q: QueueType): nat {
    match q case Immediate => 2 case Normal => 1 case Batch => 0
  }

  function TierWeight(tier: string): int {
    match tier
    case "FREE" => 1
    case "PLUS" => 2
    case "PRO" => 3
    case "VIP" => 4
    case _ => 1
  }

  // Python's round: to the nearest, and to the even neighbour from halfway.
  function RoundHalfEven(x: real): int {
    var f := x.Floor;
    var rest := x - f as real;
    if rest < 0.5 || (rest == 0.5 && f % 2 == 0) then f else f + 1
  }

  function RoundTo2(x: real): real { RoundHalfEven(x * 100.0) as real / 100.0 }

  datatype Factors = Factors(
    tier: string, proximity: real, delayRisk: real, age: int,
    batch: Option<string>, currentBatch: Option<string>, boost: real)
  {
    function Proximity(): real { Max(0.0, Min(40.0, 40.0 * (1.0 - proximity / 500.0))) }
    function Age(): real { Min(20.0, age as real / 900.0 * 20.0) }
    predicate SameBatch() { batch.Some? && batch.value != "" && batch == currentBatch }
    function Total(): real {
      TierWeight(tier) as real * 5.0 + Proximity() + Min(30.0, delayRisk * 30.0) + Age() +
      (if SameBatch() then 10.0 else 0.0) + boost
    }
  }

  function Calculate(f: Factors): real { RoundTo2(Min(200.0, f.Total())) }

  function DetermineQueueType(score: real): QueueType {
    if score >= 80.0 then Immediate else if score >= 50.0 then Normal else Batch
  }

  lemma RoundIsMonotone(x: real, y: real)
    requires x <= y
    ensures RoundHalfEven(x) <= RoundHalfEven(y)
  {
  }

  lemma RoundIsNearest(x: real)
    ensures -0.5 <= RoundHalfEven(x) as real - x <= 0.5
  {
  }

  /** Every factor pulls one way: a higher tier, a nearer customer, more risk, more age, a matching
      batch and more boost never lower the score. */
  lemma ScoreIsMonotone(f: Factors, g: Factors)
    requires TierWeight(f.tier) <= TierWeight(g.tier)
    requires f.proximity >= g.proximity && f.delayRisk <= g.delayRisk
    requires f.age <= g.age && f.boost <= g.boost && (f.SameBatch() ==> g.SameBatch())
    ensures Calculate(f) <= Calculate(g)
  {
    ProximityIsMonotone(f, g);
    AgeIsMonotone(f, g);
    var x, y := Min(200.0, f.Total()), Min(200.0, g.Total());
    RoundIsMonotone(x * 100.0, y * 100.0);
  }

  lemma ProximityIsMonotone(f: Factors, g: Factors)
    requires f.proximity >= g.proximity
    ensures f.Proximity() <= g.Proximity()
  {
  }

  lemma AgeIsMonotone(f: Factors, g: Factors)
    requires f.age <= g.age
    ensures f.Age() <= g.Age()
  {
  }

  /** A higher score is never in a less urgent queue. */
  lemma TypeFollowsScore(a: real, b: real)
    requires a <= b
    ensures Urgency(DetermineQueueType(a)) <= Urgency(DetermineQueueType(b))
  {
  }

  // A whole number of hundredths.
  predicate TwoPlaces(x: real) { (x * 100.0).Floor as real == x * 100.0 }

  /** With factors in their documented ranges the score lies within 0 and 200, has two places, and is
      the capped sum of the factors to the nearest hundredth. */
  lemma ScoreRange(f: Factors)
    requires f.proximity >= 0.0 && f.delayRisk >= 0.0 && f.age >= 0 && f.boost >= 0.0
    ensures 5.0 <= Calculate(f) <= 200.0
    ensures TwoPlaces(Calculate(f))
    ensures -0.005 <= Calculate(f) - Min(200.0, f.Total()) <= 0.005
  {
    var x := Min(200.0, f.Total()) * 100.0;
    RoundIsNearest(x);
    assert Calculate(f) * 100.0 == RoundHalfEven(x) as real;
  }

  // ---------------------------------------------------------------------------
  // The points, factor by factor
  // ---------------------------------------------------------------------------

  // Within half a hundredth.
  predicate About(x: real, y: real) { -0.005 <= x - y <= 0.005 }

  /** The score is the sum of its points, up to 200: five, ten, fifteen or twenty for the tier; forty for
      a customer who is there, eight less for every hundred metres; thirty for a sure delay, in
      proportion below; twenty from fifteen minutes on, one for every 45 seconds before; ten for the batch
      now cooking; and the boost. */
  lemma ScoreOfPoints(f: Factors, tier: real, near: real, risk: real, age: real, batch: real)
    requires tier == if f.tier == "VIP" then 20.0 else if f.tier == "PRO" then 15.0
                     else if f.tier == "PLUS" then 10.0 else 5.0
    requires near == if f.proximity <= 0.0 then 40.0 else if f.proximity >= 500.0 then 0.0
                     else 40.0 - 0.08 * f.proximity
    requires risk == if f.delayRisk >= 1.0 then 30.0 else 30.0 * f.delayRisk
    requires age == if f.age >= 900 then 20.0 else f.age as real / 45.0
    requires batch == if f.batch.Some? && f.batch.value != "" && f.currentBatch == f.batch then 10.0 else 0.0
    ensures var total := tier + near + risk + age + batch + f.boost;
            About(Calculate(f), if total >= 200.0 then 200.0 else total)
  {
    assert f.Proximity() == near;
    assert f.Age() == age;
    assert f.Total() == tier + near + risk + age + batch + f.boost;
    RoundIsNearest(Min(200.0, f.Total()) * 100.0);
  }

  /** A score halfway between two hundredths goes to the even one. */
  lemma HalvesGoToEven(n: int)
    ensures RoundHalfEven(n as real + 0.5) == if n % 2 == 0 then n else n + 1
  {
  }

  /** Immediate from eighty on, normal from fifty on, batch below. */
  lemma TypeOfScore(score: real)
    ensures DetermineQueueType(score) == Immediate <==> score >= 80.0
    ensures DetermineQueueType(score) == Normal <==> 50.0 <= score < 80.0
  {
  }
}
