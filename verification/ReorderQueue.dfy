/** reorder_queue (services/kitchen-service/app/routes/queue.py): rescoring every queued entry in
    place, then numbering the entries by a stable sort on the scores. */
module ReorderQueues {

  import opened Prelude
  import opened PriorityScores

  class QueueEntry {
    const enqueuedAt: Option<real>
    const batchCategory: Option<string>
    const arrivalBoost: real
    var priorityScore: real
    var queueType: QueueType
    var queuePosition: int

    constructor (enqueuedAt: Option<real>, batchCategory: Option<string>, arrivalBoost: real)
      ensures this.enqueuedAt == enqueuedAt && this.batchCategory == batchCategory
      ensures this.arrivalBoost == arrivalBoost
      ensures priorityScore == 50.0 && queueType == Normal && queuePosition == 0
    {
      this.enqueuedAt, this.batchCategory, this.arrivalBoost := enqueuedAt, batchCategory, arrivalBoost;
      priorityScore, queueType, queuePosition := 50.0, Normal, 0;
    }

    function Rescored(now: real): real { Calculate(FactorsAt(enqueuedAt, batchCategory, arrivalBoost, now)) }
  }

  // int(seconds) truncates toward zero; an entry without a time has age zero.
  function AgeSeconds(enqueuedAt: Option<real>, now: real): int {
    if enqueuedAt.None? then 0
    else
      var d := now - enqueuedAt.value;
      if d >= 0.0 then d.Floor else -((-d).Floor)
  }

  function FactorsAt(enqueuedAt: Option<real>, batch: Option<string>, boost: real, now: real): Factors {
    Factors("FREE", 0.0, 0.0, AgeSeconds(enqueuedAt, now), batch, None, boost)
  }

  // ---------------------------------------------------------------------------
  // The order that sorted(..., reverse=True) gives
  // ---------------------------------------------------------------------------

  // Entry a comes before entry b: a higher score, or the same score and an earlier place.
  predicate Before(scores: seq<real>, a: nat, b: nat)
    requires a < |scores| && b < |scores|
  {
    scores[a] > scores[b] || (scores[a] == scores[b] && a < b)
  }

  ghost predicate Indices(order: seq<nat>, n: nat) {
    forall k | 0 <= k < |order| :: order[k] < n
  }

  ghost predicate InOrder(scores: seq<real>, order: seq<nat>) {
    Indices(order, |scores|) && forall j, k | 0 <= j < k < |order| :: Before(scores, order[j], order[k])
  }

  function Insert(scores: seq<real>, order: seq<nat>, i: nat): (r: seq<nat>)
    requires i < |scores| && Indices(order, |scores|)
    ensures |r| == |order| + 1 && Indices(r, |scores|)
  {
    if order == [] || Before(scores, i, order[0]) then [i] + order
    else [order[0]] + Insert(scores, order[1..], i)
  }

  // The indices of the first n scores, highest score first and ties in their old order.
  function StableOrder(scores: seq<real>, n: nat): (order: seq<nat>)
    requires n <= |scores|
    ensures |order| == n && Indices(order, |scores|)
  {
    if n == 0 then [] else Insert(scores, StableOrder(scores, n - 1), n - 1)
  }

  lemma {:induction false} InsertContents(scores: seq<real>, order: seq<nat>, i: nat, x: nat)
    requires i < |scores| && Indices(order, |scores|)
    ensures x in Insert(scores, order, i) <==> x in order || x == i
  {
    if order != [] && !Before(scores, i, order[0]) {
      InsertContents(scores, order[1..], i, x);
      assert order == [order[0]] + order[1..];
    }
  }

  lemma {:induction false} InsertKeepsOrder(scores: seq<real>, order: seq<nat>, i: nat)
    requires i < |scores| && InOrder(scores, order) && i !in order
    ensures InOrder(scores, Insert(scores, order, i))
  {
    if order == [] {
    } else if Before(scores, i, order[0]) {
      var r := [i] + order;
      forall j, k | 0 <= j < k < |r|
        ensures Before(scores, r[j], r[k])
      {
        if j == 0 && k > 1 { assert Before(scores, order[0], order[k - 1]); }
      }
    } else {
      var tail := Insert(scores, order[1..], i);
      InsertKeepsOrder(scores, order[1..], i);
      var r := [order[0]] + tail;
      assert order[0] != i;
      forall j, k | 0 <= j < k < |r|
        ensures Before(scores, r[j], r[k])
      {
        InsertContents(scores, order[1..], i, r[k]);
      }
    }
  }

  lemma {:induction false} StableOrderSorts(scores: seq<real>, n: nat)
    requires n <= |scores|
    ensures InOrder(scores, StableOrder(scores, n))
    ensures forall x: nat :: x in StableOrder(scores, n) <==> x < n
  {
    if n > 0 {
      StableOrderSorts(scores, n - 1);
      var order := StableOrder(scores, n - 1);
      InsertKeepsOrder(scores, order, n - 1);
      forall x: nat
        ensures x in StableOrder(scores, n) <==> x < n
      {
        InsertContents(scores, order, n - 1, x);
      }
    }
  }

  // ---------------------------------------------------------------------------
  // The route
  // ---------------------------------------------------------------------------

  ghost predicate Distinct(entries: seq<QueueEntry>) {
    forall i, j | 0 <= i < j < |entries| :: entries[i] != entries[j]
  }

  function Scores(entries: seq<QueueEntry>): (s: seq<real>)
    reads entries
    ensures |s| == |entries|
  {
    seq(|entries|, i requires 0 <= i < |entries| reads entries => entries[i].priorityScore)
  }

  // What rescoring looks at: every entry's score and type.
  function Ranks(entries: seq<QueueEntry>): (r: seq<(real, QueueType)>)
    reads entries
    ensures |r| == |entries|
  {
    seq(|entries|, i requires 0 <= i < |entries| reads entries => (entries[i].priorityScore, entries[i].queueType))
  }

  function Targets(entries: seq<QueueEntry>, now: real): (r: seq<(real, QueueType)>)
    ensures |r| == |entries|
  {
    seq(|entries|, i requires 0 <= i < |entries| =>
      (entries[i].Rescored(now), DetermineQueueType(entries[i].Rescored(now))))
  }

  /** The score and type that an entry is given, by its own time and boost: 45 points, one more for every 45
      seconds waited up to twenty, and the boost, up to 200; immediate from 80 on and normal from 50. */
  lemma TargetIs(entries: seq<QueueEntry>, now: real, i: nat, waited: int, age: real)
    requires i < |entries|
    requires match entries[i].enqueuedAt
             case None => waited == 0
             case Some(since) => since <= now && waited as real <= now - since < (waited + 1) as real
    requires age == if waited >= 900 then 20.0 else waited as real / 45.0
    ensures var (score, queueType) := Targets(entries, now)[i];
            var total := 45.0 + age + entries[i].arrivalBoost;
            && About(score, if total >= 200.0 then 200.0 else total)
            && queueType == (if score >= 80.0 then Immediate else if score >= 50.0 then Normal else Batch)
  {
    var e := entries[i];
    assert AgeSeconds(e.enqueuedAt, now) == waited;
    ScoreOfPoints(FactorsAt(e.enqueuedAt, e.batchCategory, e.arrivalBoost, now), 5.0, 40.0, 0.0, age, 0.0);
  }

  // In how many of the first n places two lists differ.
  function Differences<T(==)>(a: seq<T>, b: seq<T>, n: nat): nat
    requires n <= |a| == |b|
  {
    if n == 0 then 0 else Differences(a, b, n - 1) + (if a[n - 1] != b[n - 1] then 1 else 0)
  }

  lemma {:induction false} NoDifference<T>(a: seq<T>, n: nat)
    requires n <= |a|
    ensures Differences(a, a, n) == 0
  {
    if n > 0 { NoDifference(a, n - 1); }
  }

  // The loop that rescores; an entry is touched only if its score or its type changes.
  method Rescore(entries: seq<QueueEntry>, now: real) returns (changed: nat)
    requires Distinct(entries)
    modifies entries
    ensures Ranks(entries) == Targets(entries, now)
    ensures changed == Differences(old(Ranks(entries)), Ranks(entries), |entries|)
    ensures Positions(entries) == old(Positions(entries))
  {
    changed := 0;
    ghost var was, target := Ranks(entries), Targets(entries, now);
    for i := 0 to |entries|
      invariant changed == Differences(was, target, i)
      invariant forall k | 0 <= k < |entries| ::
                  (entries[k].priorityScore, entries[k].queueType) == if k < i then target[k] else was[k]
      invariant forall k | 0 <= k < |entries| :: entries[k].queuePosition == old(entries[k].queuePosition)
    {
      var e := entries[i];
      var newScore := e.Rescored(now);
      var newType := DetermineQueueType(newScore);
      if newScore != e.priorityScore || newType != e.queueType {
        e.priorityScore := newScore;
        e.queueType := newType;
        changed := changed + 1;
      }
    }
  }

  // The loop that numbers the sorted entries from one.
  method AssignPositions(entries: seq<QueueEntry>)
    requires Distinct(entries)
    modifies entries`queuePosition
    ensures var order := StableOrder(Scores(entries), |entries|);
            forall k | 0 <= k < |order| :: entries[order[k]].queuePosition == k + 1
  {
    var order := StableOrder(Scores(entries), |entries|);
    StableOrderSorts(Scores(entries), |entries|);
    for p := 0 to |order|
      invariant Scores(entries) == old(Scores(entries))
      invariant forall k | 0 <= k < p :: entries[order[k]].queuePosition == k + 1
    {
      entries[order[p]].queuePosition := p + 1;
    }
  }

  method ReorderQueue(entries: seq<QueueEntry>, recalculate: bool, now: real) returns (changed: nat)
    requires Distinct(entries)
    modifies entries
    ensures Ranks(entries) == if recalculate then Targets(entries, now) else old(Ranks(entries))
    ensures changed == Differences(old(Ranks(entries)), Ranks(entries), |entries|)
    ensures Numbered(Scores(entries), Positions(entries))
  {
    changed := 0;
    NoDifference(Ranks(entries), |entries|);
    if recalculate && entries != [] {
      changed := Rescore(entries, now);
    }
    label rescored:
    AssignPositions(entries);
    assert Ranks(entries) == old@rescored(Ranks(entries));
    NumberedByOrder(Scores(entries), Positions(entries));
  }

  function Positions(entries: seq<QueueEntry>): (s: seq<int>)
    reads entries
    ensures |s| == |entries|
  {
    seq(|entries|, i requires 0 <= i < |entries| reads entries => entries[i].queuePosition)
  }

  /** Positions are numbers from one to n, and one entry is numbered before another exactly when its
      score is higher, or the same and it stood earlier: so no two share a number. */
  ghost predicate Numbered(scores: seq<real>, positions: seq<int>) {
    && |positions| == |scores|
    && (forall i | 0 <= i < |scores| :: 1 <= positions[i] <= |scores|)
    && (forall i, j | 0 <= i < |scores| && 0 <= j < |scores| ::
          positions[i] < positions[j] <==> scores[i] > scores[j] || (scores[i] == scores[j] && i < j))
  }

  lemma Place(scores: seq<real>, i: nat) returns (k: nat)
    requires i < |scores|
    ensures k < |scores| && StableOrder(scores, |scores|)[k] == i
  {
    StableOrderSorts(scores, |scores|);
    var order := StableOrder(scores, |scores|);
    assert i in order;
    k :| 0 <= k < |order| && order[k] == i;
  }

  lemma NumberedByOrder(scores: seq<real>, positions: seq<int>)
    requires |positions| == |scores|
    requires var order := StableOrder(scores, |scores|);
             forall k | 0 <= k < |order| :: positions[order[k]] == k + 1
    ensures Numbered(scores, positions)
  {
    StableOrderSorts(scores, |scores|);
    var order := StableOrder(scores, |scores|);
    forall i | 0 <= i < |scores|
      ensures 1 <= positions[i] <= |scores|
    {
      var k := Place(scores, i);
    }
    forall i, j | 0 <= i < |scores| && 0 <= j < |scores|
      ensures positions[i] < positions[j] <==> Before(scores, i, j)
    {
      var a := Place(scores, i);
      var b := Place(scores, j);
      assert a < b ==> Before(scores, order[a], order[b]);
      assert b < a ==> Before(scores, order[b], order[a]);
    }
  }

  // ---------------------------------------------------------------------------
  // What the numbering means to the kitchen
  // ---------------------------------------------------------------------------

  /** Every position from one to n is taken by exactly one entry. */
  lemma PositionsAreAPermutation(scores: seq<real>, positions: seq<int>, p: int)
    requires Numbered(scores, positions) && 1 <= p <= |scores|
    ensures exists i :: 0 <= i < |scores| && positions[i] == p
    ensures forall i, j | 0 <= i < j < |scores| :: positions[i] != positions[j]
  {
    forall i, j | 0 <= i < j < |scores|
      ensures positions[i] != positions[j]
    {
      assert Before(scores, i, j) || Before(scores, j, i);
    }
    if forall i | 0 <= i < |scores| :: positions[i] != p {
      var taken := set i | 0 <= i < |scores| :: positions[i];
      DistinctCount(positions, |scores|);
      var free := OneTo(|scores|) - {p};
      assert taken <= free;
      SubsetSize(taken, free);
    }
  }

  lemma {:induction false} DistinctCount(xs: seq<int>, n: nat)
    requires n <= |xs| && forall i, j | 0 <= i < j < |xs| :: xs[i] != xs[j]
    ensures |set i | 0 <= i < n :: xs[i]| == n
  {
    var all := set i | 0 <= i < n :: xs[i];
    if n == 0 {
      assert all == {};
    } else {
      DistinctCount(xs, n - 1);
      var rest := set i | 0 <= i < n - 1 :: xs[i];
      assert all == rest + {xs[n - 1]};
    }
  }

  /** After rescoring, nobody in a less urgent queue is numbered before anybody in a more urgent one. */
  lemma UrgentQueuesFirst(scores: seq<real>, positions: seq<int>, i: nat, j: nat)
    requires i < |scores| && j < |scores|
    requires Numbered(scores, positions) && positions[i] < positions[j]
    ensures Urgency(DetermineQueueType(scores[i])) >= Urgency(DetermineQueueType(scores[j]))
  {
  }

  lemma OlderIsOlder(a: real, b: real, now: real)
    requires a <= b
    ensures AgeSeconds(Some(a), now) >= AgeSeconds(Some(b), now)
  {
  }

  /** The age is the seconds waited, cut off towards zero: never a second too much, nor a whole one too
      little, and no more than a second below zero counts for a time that lies ahead. */
  lemma AgeIsCutOff(since: real, now: real)
    ensures var age := AgeSeconds(Some(since), now) as real;
            if since <= now then age <= now - since < age + 1.0 && age >= 0.0
            else age - 1.0 < now - since <= age && age <= 0.0
  {
  }

  /** What rescoring comes to: 45 points, one more for every 45 whole seconds in the queue up to twenty, and
      the boost, up to 200; whatever the entry's tier or distance were. */
  lemma RescoredIs(since: real, batch: Option<string>, boost: real, now: real, waited: int, age: real)
    requires since <= now && waited as real <= now - since < (waited + 1) as real
    requires age == if waited >= 900 then 20.0 else waited as real / 45.0
    ensures About(Calculate(FactorsAt(Some(since), batch, boost, now)),
                  if 45.0 + age + boost >= 200.0 then 200.0 else 45.0 + age + boost)
    ensures About(Calculate(FactorsAt(None, batch, boost, now)), if 45.0 + boost >= 200.0 then 200.0 else 45.0 + boost)
  {
    assert AgeSeconds(Some(since), now) == waited;
    ScoreOfPoints(FactorsAt(Some(since), batch, boost, now), 5.0, 40.0, 0.0, age, 0.0);
    ScoreOfPoints(FactorsAt(None, batch, boost, now), 5.0, 40.0, 0.0, 0.0, 0.0);
  }

  /** An entry at least as old with at least as large a boost never scores lower, so it is numbered
      after the other only on equal scores. */
  lemma OlderNeverScoresLower(
    a: real, b: real, batchA: Option<string>, batchB: Option<string>, boostA: real, boostB: real, now: real)
    requires a <= b && boostA >= boostB
    ensures Calculate(FactorsAt(Some(a), batchA, boostA, now)) >= Calculate(FactorsAt(Some(b), batchB, boostB, now))
  {
    OlderIsOlder(a, b, now);
    ScoreIsMonotone(FactorsAt(Some(b), batchB, boostB, now), FactorsAt(Some(a), batchA, boostA, now));
  }
}
