/** Replaying the fallback log (KafkaRecoveryService in shared/utils/kafka_client.py): each pass
    publishes what it can and writes the rest back. */
module ReplayLog {

  const MAX_REPLAY_ATTEMPTS := 3

  /** A line of the log, as the parser finds it. `Odd` is JSON that the code below cannot read: no
      object, or a replay count that does not compare with a number. */
  datatype Line =
    | Blank
    | Malformed(text: string)
    | Odd(text: string)
    | Entry(eventId: string, topic: string, payload: string, replayCount: int)

  // What publishing one entry comes to.
  datatype Outcome = Published | Refused | Raised

  // A well-formed entry below the limit: the only lines that are ever published.
  predicate Eligible(line: Line) {
    line.Entry? && line.replayCount < MAX_REPLAY_ATTEMPTS
  }

  datatype Result = Result(published: seq<Line>, remaining: seq<Line>, replayed: nat, failed: nat)

  // What one line adds to a pass.
  function Handle(r: Result, line: Line, outcome: Outcome): Result {
    match line
    case Blank => r
    case Malformed(_) => r.(failed := r.failed + 1)
    case Odd(_) => r.(remaining := r.remaining + [line], failed := r.failed + 1)
    case Entry(_, _, _, count) =>
      if count >= MAX_REPLAY_ATTEMPTS then r.(failed := r.failed + 1)
      else if outcome == Published then
        r.(published := r.published + [line], replayed := r.replayed + 1)
      else r.(remaining := r.remaining + [line], failed := r.failed + 1)
  }

  // One pass; outcomes[k] is what publishing line k would come to.
  function Pass(log: seq<Line>, outcomes: seq<Outcome>): Result
    requires |outcomes| == |log|
  {
    if log == [] then Result([], [], 0, 0)
    else
      Handle(Pass(log[..|log| - 1], outcomes[..|log| - 1]), log[|log| - 1], outcomes[|log| - 1])
  }

  datatype Status = NoFallbackLog | ProducerUnavailable | Completed

  class KafkaRecoveryService {
    var logExists: bool
    var log: seq<Line>
    var producerStarted: bool
    var sent: seq<Line>

    // replay_fallback_log; `sent` is what has gone out to Kafka.
    method ReplayFallbackLog(outcomes: seq<Outcome>)
      returns (status: Status, replayed: nat, failed: nat)
      requires |outcomes| == |log|
      modifies this`log, this`sent
      ensures !logExists ==> status == NoFallbackLog
      ensures logExists && !producerStarted ==> status == ProducerUnavailable
      ensures status != Completed ==> log == old(log) && sent == old(sent) && replayed == failed == 0
      ensures logExists && producerStarted ==>
                var r := Pass(old(log), outcomes);
                && status == Completed
                && log == r.remaining && sent == old(sent) + r.published
                && replayed == r.replayed && failed == r.failed
    {
      if !logExists {
        return NoFallbackLog, 0, 0;
      }
      if !producerStarted {
        return ProducerUnavailable, 0, 0;
      }
      replayed, failed := 0, 0;
      var remaining := [];
      for i := 0 to |log|
        invariant log == old(log)
        invariant var r := Pass(log[..i], outcomes[..i]);
                  && remaining == r.remaining && sent == old(sent) + r.published
                  && replayed == r.replayed && failed == r.failed
      {
        assert log[..i + 1][..i] == log[..i] && outcomes[..i + 1][..i] == outcomes[..i];
        var line := log[i];
        match line
        case Blank =>
        case Malformed(_) =>
          failed := failed + 1;
        case Odd(_) =>
          remaining := remaining + [line];
          failed := failed + 1;
        case Entry(_, _, _, replayCount) =>
          if replayCount >= MAX_REPLAY_ATTEMPTS {
            failed := failed + 1;
          } else if outcomes[i] == Published {
            sent := sent + [line];
            replayed := replayed + 1;
          } else {
            // The count is raised in the decoded entry, but the line is kept as it was read.
            var entry := line.(replayCount := replayCount + 1);
            remaining := remaining + [line];
            failed := failed + 1;
          }
      }
      assert log[..|log|] == log && outcomes[..|log|] == outcomes;
      log := remaining;
      status := Completed;
    }
  }

  // ---------------------------------------------------------------------------
  // Conservation
  // ---------------------------------------------------------------------------

  function NonBlank(log: seq<Line>): nat {
    if log == [] then 0 else NonBlank(log[..|log| - 1]) + (if log[|log| - 1].Blank? then 0 else 1)
  }

  // The entries that can still be published, in order.
  function Pending(log: seq<Line>): (p: seq<Line>)
    ensures forall k | 0 <= k < |p| :: Eligible(p[k])
  {
    if log == [] then []
    else Pending(log[..|log| - 1]) + (if Eligible(log[|log| - 1]) then [log[|log| - 1]] else [])
  }

  // a is b with some elements left out.
  ghost predicate Subsequence(a: seq<Line>, b: seq<Line>)
    decreases |b|
  {
    a == [] ||
    (b != [] &&
     (Subsequence(a, b[..|b| - 1]) ||
      (a[|a| - 1] == b[|b| - 1] && Subsequence(a[..|a| - 1], b[..|b| - 1]))))
  }

  /** Each pass accounts for every line that is not blank: replayed + failed. */
  lemma {:induction false} PassCounts(log: seq<Line>, outcomes: seq<Outcome>)
    requires |outcomes| == |log|
    ensures var r := Pass(log, outcomes);
            r.replayed + r.failed == NonBlank(log) && r.replayed == |r.published|
  {
    if log != [] { PassCounts(log[..|log| - 1], outcomes[..|log| - 1]); }
  }

  // Tried fewer than three times.
  predicate Publishable(line: Line) { line.Entry? && line.replayCount < 3 }

  // The lines that a pass publishes, and those it keeps, line by line from the front.
  function Sent(log: seq<Line>, outcomes: seq<Outcome>): seq<Line>
    requires |outcomes| == |log|
  {
    if log == [] then []
    else (if Publishable(log[0]) && outcomes[0] == Published then [log[0]] else []) + Sent(log[1..], outcomes[1..])
  }

  function Left(log: seq<Line>, outcomes: seq<Outcome>): seq<Line>
    requires |outcomes| == |log|
  {
    if log == [] then []
    else
      (if log[0].Odd? || (Publishable(log[0]) && outcomes[0] != Published) then [log[0]] else []) +
      Left(log[1..], outcomes[1..])
  }

  lemma {:induction false} SentSnoc(log: seq<Line>, outcomes: seq<Outcome>, line: Line, o: Outcome)
    requires |outcomes| == |log|
    ensures Sent(log + [line], outcomes + [o]) ==
            Sent(log, outcomes) + if Publishable(line) && o == Published then [line] else []
    ensures Left(log + [line], outcomes + [o]) ==
            Left(log, outcomes) + if line.Odd? || (Publishable(line) && o != Published) then [line] else []
  {
    if log == [] {
      assert log + [line] == [line] && outcomes + [o] == [o];
    } else {
      assert (log + [line])[1..] == log[1..] + [line] && (outcomes + [o])[1..] == outcomes[1..] + [o];
      SentSnoc(log[1..], outcomes[1..], line, o);
    }
  }

  /** A pass publishes exactly the entries below the limit whose publishing succeeds, in order, and they
      leave the log; it keeps exactly those whose publishing failed and the lines it cannot read. */
  lemma {:induction false} PassPublishesExactly(log: seq<Line>, outcomes: seq<Outcome>)
    requires |outcomes| == |log|
    ensures Pass(log, outcomes).published == Sent(log, outcomes)
    ensures Pass(log, outcomes).remaining == Left(log, outcomes)
  {
    if log != [] {
      var n := |log| - 1;
      PassPublishesExactly(log[..n], outcomes[..n]);
      SentSnoc(log[..n], outcomes[..n], log[n], outcomes[n]);
      assert log == log[..n] + [log[n]] && outcomes == outcomes[..n] + [outcomes[n]];
    }
  }

  lemma PendingSnoc(log: seq<Line>, line: Line)
    ensures Pending(log + [line]) == Pending(log) + (if Eligible(line) then [line] else [])
  {
  }

  lemma SubsequenceSkip(a: seq<Line>, b: seq<Line>, x: Line)
    requires Subsequence(a, b)
    ensures Subsequence(a, b + [x])
  {
  }

  lemma SubsequenceTake(a: seq<Line>, b: seq<Line>, x: Line)
    requires Subsequence(a, b)
    ensures Subsequence(a + [x], b + [x])
  {
  }

  lemma {:induction false} SubsequenceSelf(a: seq<Line>)
    ensures Subsequence(a, a)
  {
    if a != [] { SubsequenceSelf(a[..|a| - 1]); }
  }

  lemma {:induction false} SubsequenceTransitive(a: seq<Line>, b: seq<Line>, c: seq<Line>)
    requires Subsequence(a, b) && Subsequence(b, c)
    ensures Subsequence(a, c)
    decreases |c|, |b|
  {
    if a != [] {
      var b', c' := b[..|b| - 1], c[..|c| - 1];
      if Subsequence(b, c') {
        SubsequenceTransitive(a, b, c');
      } else if Subsequence(a, b') {
        SubsequenceTransitive(a, b', c');
      } else {
        SubsequenceTransitive(a[..|a| - 1], b', c');
      }
    }
  }

  ghost predicate Conserves(log: seq<Line>, r: Result) {
    && Subsequence(r.remaining, log)
    && Divides(Pending(log), r.published, Pending(r.remaining))
  }

  // Two parts that together make up the whole, each in its order.
  ghost predicate Divides(whole: seq<Line>, a: seq<Line>, b: seq<Line>) {
    Subsequence(a, whole) && Subsequence(b, whole) && multiset(a) + multiset(b) == multiset(whole)
  }

  lemma DividesLeft(whole: seq<Line>, a: seq<Line>, b: seq<Line>, x: Line)
    requires Divides(whole, a, b)
    ensures Divides(whole + [x], a + [x], b)
  {
  }

  lemma DividesRight(whole: seq<Line>, a: seq<Line>, b: seq<Line>, x: Line)
    requires Divides(whole, a, b)
    ensures Divides(whole + [x], a, b + [x])
  {
  }

  lemma IneligibleIsNotPending(log: seq<Line>, line: Line)
    requires !Eligible(line)
    ensures Pending(log + [line]) == Pending(log)
  {
  }

  lemma KeptConserves(log: seq<Line>, r: Result, line: Line)
    requires Conserves(log, r)
    ensures Conserves(log + [line], r.(remaining := r.remaining + [line]))
  {
    SubsequenceTake(r.remaining, log, line);
    if Eligible(line) {
      PendingSnoc(log, line);
      PendingSnoc(r.remaining, line);
      DividesRight(Pending(log), r.published, Pending(r.remaining), line);
    } else {
      IneligibleIsNotPending(log, line);
      IneligibleIsNotPending(r.remaining, line);
    }
  }

  lemma GoneConserves(log: seq<Line>, r: Result, line: Line)
    requires Conserves(log, r)
    ensures !Eligible(line) ==> Conserves(log + [line], r)
    ensures Eligible(line) ==> Conserves(log + [line], r.(published := r.published + [line]))
  {
    SubsequenceSkip(r.remaining, log, line);
    if Eligible(line) {
      PendingSnoc(log, line);
      DividesLeft(Pending(log), r.published, Pending(r.remaining), line);
    } else {
      IneligibleIsNotPending(log, line);
    }
  }

  // The counts play no part.
  lemma ConservesByContents(log: seq<Line>, r: Result, r': Result)
    requires Conserves(log, r) && r.published == r'.published && r.remaining == r'.remaining
    ensures Conserves(log, r')
  {
  }

  lemma HandleConserves(log: seq<Line>, r: Result, line: Line, outcome: Outcome)
    requires Conserves(log, r)
    ensures Conserves(log + [line], Handle(r, line, outcome))
  {
    var r' := Handle(r, line, outcome);
    if r'.remaining == r.remaining + [line] {
      KeptConserves(log, r, line);
      ConservesByContents(log + [line], r.(remaining := r.remaining + [line]), r');
    } else {
      GoneConserves(log, r, line);
      ConservesByContents(log + [line], r.(published := r'.published), r');
    }
  }

  /** What a pass keeps is the log with some lines left out, each exactly as it was; and the entries
      that can be published are divided between those it published and those it keeps. */
  lemma {:induction false} PassConserves(log: seq<Line>, outcomes: seq<Outcome>)
    requires |outcomes| == |log|
    ensures Conserves(log, Pass(log, outcomes))
  {
    if log != [] {
      var init := log[..|log| - 1];
      PassConserves(init, outcomes[..|log| - 1]);
      HandleConserves(init, Pass(init, outcomes[..|log| - 1]), log[|log| - 1], outcomes[|log| - 1]);
      assert log == init + [log[|log| - 1]];
    }
  }

  // ---------------------------------------------------------------------------
  // Any number of passes
  // ---------------------------------------------------------------------------

  // What publishing would come to, for every pass and every place in its log.
  type Schedule = (nat, nat) -> Outcome

  function Outcomes(schedule: Schedule, pass: nat, n: nat): (os: seq<Outcome>)
    ensures |os| == n
  {
    seq(n, k requires 0 <= k < n => schedule(pass, k))
  }

  function LogAfter(log: seq<Line>, schedule: Schedule, passes: nat): seq<Line> {
    if passes == 0 then log
    else
      var before := LogAfter(log, schedule, passes - 1);
      Pass(before, Outcomes(schedule, passes - 1, |before|)).remaining
  }

  function PublishedBy(log: seq<Line>, schedule: Schedule, passes: nat): seq<Line> {
    if passes == 0 then []
    else
      var before := LogAfter(log, schedule, passes - 1);
      PublishedBy(log, schedule, passes - 1) +
      Pass(before, Outcomes(schedule, passes - 1, |before|)).published
  }

  ghost predicate ConservesSoFar(log: seq<Line>, published: seq<Line>, after: seq<Line>) {
    && Subsequence(after, log)
    && Subsequence(Pending(after), Pending(log))
    && multiset(published) + multiset(Pending(after)) == multiset(Pending(log))
  }

  lemma PassAdds(log: seq<Line>, published: seq<Line>, before: seq<Line>, r: Result)
    requires ConservesSoFar(log, published, before) && Conserves(before, r)
    ensures ConservesSoFar(log, published + r.published, r.remaining)
  {
    SubsequenceTransitive(r.remaining, before, log);
    SubsequenceTransitive(Pending(r.remaining), Pending(before), Pending(log));
    assert multiset(published + r.published) == multiset(published) + multiset(r.published);
  }

  /** Over any number of passes with any outcomes, every well-formed entry below the limit is either
      published, and once only, or still in the log, in its old order and unchanged: so its count never
      rises, and no entry is ever dropped for failing too often. */
  lemma {:induction false} ReplayConserves(log: seq<Line>, schedule: Schedule, passes: nat)
    ensures ConservesSoFar(log, PublishedBy(log, schedule, passes), LogAfter(log, schedule, passes))
  {
    if passes == 0 {
      SubsequenceSelf(log);
      SubsequenceSelf(Pending(log));
    } else {
      ReplayConserves(log, schedule, passes - 1);
      var before := LogAfter(log, schedule, passes - 1);
      var outcomes := Outcomes(schedule, passes - 1, |before|);
      PassConserves(before, outcomes);
      PassAdds(log, PublishedBy(log, schedule, passes - 1), before, Pass(before, outcomes));
    }
  }

  // Kafka stays down.
  ghost predicate AlwaysFails(schedule: Schedule) {
    forall p, k :: schedule(p, k) != Published
  }

  // The lines a pass can keep: blank, malformed and exhausted ones are dropped at once.
  function Keepable(log: seq<Line>): (kept: seq<Line>)
    ensures forall k | 0 <= k < |kept| :: kept[k].Odd? || Eligible(kept[k])
  {
    if log == [] then []
    else
      var line := log[|log| - 1];
      Keepable(log[..|log| - 1]) + (if line.Odd? || Eligible(line) then [line] else [])
  }

  lemma {:induction false} FailingPassKeeps(log: seq<Line>, outcomes: seq<Outcome>)
    requires |outcomes| == |log| && forall k | 0 <= k < |log| :: outcomes[k] != Published
    ensures Pass(log, outcomes).published == [] && Pass(log, outcomes).remaining == Keepable(log)
  {
    if log != [] { FailingPassKeeps(log[..|log| - 1], outcomes[..|log| - 1]); }
  }

  lemma {:induction false} KeepableTwice(log: seq<Line>)
    requires forall k | 0 <= k < |log| :: log[k].Odd? || Eligible(log[k])
    ensures Keepable(log) == log
  {
    if log != [] { KeepableTwice(log[..|log| - 1]); }
  }

  lemma FailingPassSettles(log: seq<Line>, before: seq<Line>, outcomes: seq<Outcome>)
    requires before == log || before == Keepable(log)
    requires |outcomes| == |before| && forall k | 0 <= k < |before| :: outcomes[k] != Published
    ensures Pass(before, outcomes).published == [] && Pass(before, outcomes).remaining == Keepable(log)
  {
    FailingPassKeeps(before, outcomes);
    KeepableTwice(Keepable(log));
  }

  /** While Kafka stays down the first pass drops the lines nobody can publish, and every later pass
      leaves the log as it is: the limit on attempts is never reached by trying. */
  lemma {:induction false} LimitIsNeverReached(log: seq<Line>, schedule: Schedule, passes: nat)
    requires AlwaysFails(schedule)
    ensures LogAfter(log, schedule, passes) == if passes == 0 then log else Keepable(log)
    ensures PublishedBy(log, schedule, passes) == []
  {
    if passes > 0 {
      LimitIsNeverReached(log, schedule, passes - 1);
      var before := LogAfter(log, schedule, passes - 1);
      FailingPassSettles(log, before, Outcomes(schedule, passes - 1, |before|));
    }
  }
}
