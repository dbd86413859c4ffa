/** The sorted-set rate limiter (shared/utils/redis_client.py, check_rate_limit). A call reads the
    time in one round trip and runs its pipeline in a second, so pipelines may run late and in another
    order than the times were read. Whole seconds serve as members and as scores. */
module RateLimiting {

  import opened Prelude

  // Redis keeps time in seconds, and microseconds within the second.
  datatype Instant = Instant(seconds: int, micros: int)
  {
    predicate NotBefore(other: Instant) {
      seconds > other.seconds || (seconds == other.seconds && micros >= other.micros)
    }
    function After(window: int): Instant { Instant(seconds + window, micros) }
  }

  // One instant is not before another exactly when it is no fewer microseconds from the start of time.
  lemma InstantsAreOrdered(a: Instant, b: Instant)
    requires 0 <= a.micros < 1_000_000 && 0 <= b.micros < 1_000_000
    ensures a.NotBefore(b) <==> a.seconds * 1_000_000 + a.micros >= b.seconds * 1_000_000 + b.micros
  {
  }

  // The second that TIME answered, and when the pipeline runs.
  datatype Call = Call(read: int, at: Instant)

  // The sorted set of one identifier, and when its key expires.
  datatype Limiter = Limiter(members: set<int>, expires: Instant)

  const EMPTY := Limiter({}, Instant(0, 0))

  // What the key holds at time t.
  function Present(l: Limiter, t: Instant, expiring: bool): set<int> {
    if expiring && t.NotBefore(l.expires) then {} else l.members
  }

  // ZREMRANGEBYSCORE key 0 windowStart
  function Trim(members: set<int>, windowStart: int): set<int> {
    set m | m in members && !(0 <= m <= windowStart)
  }

  function Remaining(limit: int, count: int): int {
    if limit - count - 1 > 0 then limit - count - 1 else 0
  }

  // What a call leaves of the members it finds, and then counts.
  function Seen(l: Limiter, c: Call, window: int, expiring: bool): set<int> {
    Trim(Present(l, c.at, expiring), c.read - window)
  }

  // One call: the state after it and the count it read. EXPIRE with a window that is not positive
  // deletes the key. `expiring` lets the key's own expiry be switched off for comparison.
  function Check(l: Limiter, c: Call, window: int, expiring: bool): (Limiter, nat) {
    var seen := Seen(l, c, window, expiring);
    (Limiter(if window > 0 then seen + {c.read} else {}, c.at.After(window)), |seen|)
  }

  class RateLimiter {
    var members: set<int>
    var expires: Instant
    var connected: bool

    function View(): Limiter
      reads this
    {
      Limiter(members, expires)
    }

    // check_rate_limit; the pipeline is one atomic step. Without an answer the call is denied, though
    // it counts when only the reply of the pipeline was lost.
    method CheckRateLimit(c: Call, limit: int, window: int, breakerAllows: bool, timed: bool, link: Link)
      returns (allowed: bool, remaining: int)
      modifies this`members, this`expires
      ensures var (l, count) := Check(old(View()), c, window, true);
              var ran := breakerAllows && connected && timed && !link.LostRequest?;
              && View() == (if ran then l else old(View()))
              && (allowed, remaining) ==
                 if ran && link.Answered? then (count < limit, Remaining(limit, count)) else (false, 0)
      ensures !allowed ==> remaining == 0
      ensures allowed ==> Check(old(View()), c, window, true).1 + 1 + remaining == limit
    {
      if !breakerAllows || !connected || !timed || link.LostRequest? {
        return false, 0;
      }
      var now := c.read;
      if c.at.NotBefore(expires) {
        members := {};
      }
      var windowStart := now - window;
      members := set m | m in members && !(0 <= m <= windowStart);
      assert members == Seen(old(View()), c, window, true);
      var count := |members|;
      members := members + {now};
      expires := c.at.After(window);
      if window <= 0 {
        members := {};
      }
      if link.LostReply? {
        return false, 0;
      }
      allowed := count < limit;
      remaining := if limit - count - 1 > 0 then limit - count - 1 else 0;
    }
  }

  /** After an admitted call there is room for so many more seconds, and the answer says so unless the call
      read a second that was counted already: then it is one short. */
  lemma RemainingIs(l: Limiter, c: Call, limit: int, window: int)
    requires window > 0 && Check(l, c, window, true).1 < limit
    ensures var (l', count) := Check(l, c, window, true);
            limit - |l'.members| == Remaining(limit, count) + if c.read in Seen(l, c, window, true) then 1 else 0
  {
    var seen := Seen(l, c, window, true);
    if c.read in seen { assert seen + {c.read} == seen; }
  }

  // ---------------------------------------------------------------------------
  // Runs of calls, in the order in which their pipelines run
  // ---------------------------------------------------------------------------

  function After(calls: seq<Call>, n: nat, window: int, expiring: bool): Limiter
    requires n <= |calls|
  {
    if n == 0 then EMPTY else Check(After(calls, n - 1, window, expiring), calls[n - 1], window, expiring).0
  }

  // The count that call n reads.
  function CountRead(calls: seq<Call>, n: nat, window: int, expiring: bool): nat
    requires n < |calls|
  {
    Check(After(calls, n, window, expiring), calls[n], window, expiring).1
  }

  predicate Admitted(calls: seq<Call>, n: nat, limit: int, window: int)
    requires n < |calls|
  {
    CountRead(calls, n, window, true) < limit
  }

  ghost predicate Reads(calls: seq<Call>) {
    forall i | 0 <= i < |calls| :: calls[i].read >= 0
  }

  // Redis has one clock, and no pipeline runs more than so many seconds after its time was read.
  ghost predicate Within(calls: seq<Call>, delay: nat) {
    && (forall i | 0 <= i < |calls| :: 0 <= calls[i].read <= calls[i].at.seconds <= calls[i].read + delay)
    && (forall i, j | 0 <= i <= j < |calls| :: calls[j].at.NotBefore(calls[i].at))
  }

  // Call j takes away the member of call i: by its trimming, or by finding the key expired.
  ghost predicate Removes(calls: seq<Call>, i: nat, j: nat, window: int, expiring: bool)
    requires i < j < |calls|
  {
    calls[j].read >= calls[i].read + window ||
    (expiring && calls[j].at.NotBefore(calls[j - 1].at.After(window)))
  }

  ghost predicate Lasts(calls: seq<Call>, i: nat, n: nat, window: int, expiring: bool)
    requires i < n <= |calls|
  {
    forall j | i < j < n :: !Removes(calls, i, j, window, expiring)
  }

  // A call that read this second, among the first k, whose member outlasts every call before n.
  ghost predicate Survives(calls: seq<Call>, s: int, k: nat, n: nat, window: int, expiring: bool)
    requires k <= n <= |calls|
  {
    exists i :: 0 <= i < k && calls[i].read == s && Lasts(calls, i, n, window, expiring)
  }

  lemma ExpiresAfterLast(calls: seq<Call>, n: nat, window: int, expiring: bool)
    requires 0 < n <= |calls|
    ensures After(calls, n, window, expiring).expires == calls[n - 1].at.After(window)
  {
  }

  // What call k still finds, if what was there before is known.
  lemma SurvivesOneMore(calls: seq<Call>, s: int, k: nat, n: nat, window: int, expiring: bool)
    requires k < n == k + 1 <= |calls|
    ensures Survives(calls, s, k, n, window, expiring) <==>
            && Survives(calls, s, k, k, window, expiring)
            && calls[k].read < s + window
            && !(expiring && k > 0 && calls[k].at.NotBefore(calls[k - 1].at.After(window)))
  {
    if Survives(calls, s, k, n, window, expiring) {
      var i :| 0 <= i < k && calls[i].read == s && Lasts(calls, i, n, window, expiring);
      assert !Removes(calls, i, k, window, expiring);
      assert Lasts(calls, i, k, window, expiring);
    }
    if Survives(calls, s, k, k, window, expiring) {
      var i :| 0 <= i < k && calls[i].read == s && Lasts(calls, i, k, window, expiring);
      assert Lasts(calls, i, n, window, expiring) <==> !Removes(calls, i, k, window, expiring);
    }
  }

  // And its own second.
  lemma SurvivesOrNew(calls: seq<Call>, s: int, k: nat, n: nat, window: int, expiring: bool)
    requires k < n == k + 1 <= |calls|
    ensures Survives(calls, s, n, n, window, expiring) <==>
            s == calls[k].read || Survives(calls, s, k, n, window, expiring)
  {
    assert Lasts(calls, k, n, window, expiring);
    if Survives(calls, s, n, n, window, expiring) && s != calls[k].read {
      var i :| 0 <= i < n && calls[i].read == s && Lasts(calls, i, n, window, expiring);
    }
  }

  lemma NewMember(calls: seq<Call>, k: nat, n: nat, s: int, window: int, expiring: bool)
    requires k < n == k + 1 <= |calls| && window > 0
    ensures s in After(calls, n, window, expiring).members <==>
            s == calls[k].read || s in Seen(After(calls, k, window, expiring), calls[k], window, expiring)
  {
  }

  // From the members before a call to what it counts, and on to the members after it.
  lemma SeenStep(calls: seq<Call>, k: nat, n: nat, s: int, window: int, expiring: bool)
    requires k < n == k + 1 <= |calls| && Reads(calls) && window > 0
    requires s in After(calls, k, window, expiring).members <==> Survives(calls, s, k, k, window, expiring)
    ensures s in Seen(After(calls, k, window, expiring), calls[k], window, expiring) <==>
            Survives(calls, s, k, n, window, expiring)
  {
    SurvivesOneMore(calls, s, k, n, window, expiring);
    if k > 0 { ExpiresAfterLast(calls, k, window, expiring); }
  }

  lemma MemberStep(calls: seq<Call>, k: nat, n: nat, s: int, window: int, expiring: bool)
    requires k < n == k + 1 <= |calls| && Reads(calls) && window > 0
    requires s in After(calls, k, window, expiring).members <==> Survives(calls, s, k, k, window, expiring)
    ensures s in After(calls, n, window, expiring).members <==> Survives(calls, s, n, n, window, expiring)
  {
    SeenStep(calls, k, n, s, window, expiring);
    NewMember(calls, k, n, s, window, expiring);
    SurvivesOrNew(calls, s, k, n, window, expiring);
  }

  lemma {:induction false} MemberIff(calls: seq<Call>, n: nat, s: int, window: int, expiring: bool)
    requires n <= |calls| && Reads(calls) && window > 0
    ensures s in After(calls, n, window, expiring).members <==> Survives(calls, s, n, n, window, expiring)
  {
    if n > 0 {
      MemberIff(calls, n - 1, s, window, expiring);
      MemberStep(calls, n - 1, n, s, window, expiring);
    }
  }

  lemma SeenIff(calls: seq<Call>, n: nat, s: int, window: int, expiring: bool)
    requires n < |calls| && Reads(calls) && window > 0
    ensures s in Seen(After(calls, n, window, expiring), calls[n], window, expiring) <==>
            Survives(calls, s, n, n + 1, window, expiring)
  {
    MemberIff(calls, n, s, window, expiring);
    SeenStep(calls, n, n + 1, s, window, expiring);
  }

  ghost function Survivors(calls: seq<Call>, n: nat, window: int): (r: set<int>)
    requires n < |calls|
    ensures forall s :: s in r <==> Survives(calls, s, n, n + 1, window, true)
  {
    var r := set i | 0 <= i < n && Lasts(calls, i, n + 1, window, true) :: calls[i].read;
    r
  }

  /** Late or out of order, the count a call reads is the number of seconds whose member is left: no
      call since, this one included, read a time a whole window later or found the key expired. */
  lemma CountIsSurvivors(calls: seq<Call>, n: nat, window: int)
    requires n < |calls| && Reads(calls) && window > 0
    ensures CountRead(calls, n, window, true) == |Survivors(calls, n, window)|
  {
    var seen := Seen(After(calls, n, window, true), calls[n], window, true);
    forall s ensures s in seen <==> s in Survivors(calls, n, window) {
      SeenIff(calls, n, s, window, true);
    }
    assert seen == Survivors(calls, n, window);
  }

  // A member lasts until the clock is a window past the second it was read in.
  lemma YoungLasts(calls: seq<Call>, i: nat, n: nat, window: int, delay: nat, expiring: bool)
    requires i < n < |calls| && Within(calls, delay)
    requires calls[n].at.seconds < calls[i].read + window
    ensures Lasts(calls, i, n + 1, window, expiring)
  {
    forall j | i < j < n + 1 ensures !Removes(calls, i, j, window, expiring) {
      assert calls[n].at.NotBefore(calls[j].at) && calls[j - 1].at.NotBefore(calls[i].at);
    }
  }

  // ---------------------------------------------------------------------------
  // What a call should count
  // ---------------------------------------------------------------------------

  // The distinct seconds that the first n calls read, within (from, to].
  ghost function SecondsIn(calls: seq<Call>, n: nat, from: int, to: int): set<int>
    requires n <= |calls|
  {
    set i | 0 <= i < n && from < calls[i].read <= to :: calls[i].read
  }

  // The same, of the calls that were admitted.
  ghost function AdmittedSeconds(calls: seq<Call>, admitted: seq<bool>, n: nat, from: int, to: int): set<int>
    requires n <= |calls| == |admitted|
  {
    set i | 0 <= i < n && admitted[i] && from < calls[i].read <= to :: calls[i].read
  }

  // Run at once, every call finds just the seconds inside its window, whether keys expire or not.
  lemma SeenIsWindow(calls: seq<Call>, n: nat, window: int, expiring: bool)
    requires n < |calls| && Within(calls, 0) && window > 0
    ensures var now := calls[n].read;
            Seen(After(calls, n, window, expiring), calls[n], window, expiring) ==
            SecondsIn(calls, n, now - window, now)
  {
    var now := calls[n].read;
    var seen := Seen(After(calls, n, window, expiring), calls[n], window, expiring);
    forall s ensures s in seen <==> s in SecondsIn(calls, n, now - window, now) {
      SeenIff(calls, n, s, window, expiring);
      if s in SecondsIn(calls, n, now - window, now) {
        var i :| 0 <= i < n && calls[i].read == s && now - window < s <= now;
        YoungLasts(calls, i, n, window, 0, expiring);
      }
      if s in seen {
        var i :| 0 <= i < n && calls[i].read == s && Lasts(calls, i, n + 1, window, expiring);
        assert calls[n].at.NotBefore(calls[i].at);
      }
    }
  }

  lemma {:induction false} EmptyWithoutWindow(calls: seq<Call>, n: nat, window: int, expiring: bool)
    requires n < |calls| && window <= 0
    ensures CountRead(calls, n, window, expiring) == 0
  {
    assert After(calls, n, window, expiring).members == {};
    assert Seen(After(calls, n, window, expiring), calls[n], window, expiring) == {};
  }

  /** The count of a call that runs at once, as all before it did, is the number of distinct seconds
      with an earlier call inside the window that ends now. */
  lemma CountIsWindow(calls: seq<Call>, n: nat, window: int)
    requires n < |calls| && Within(calls, 0)
    ensures CountRead(calls, n, window, true) ==
            |SecondsIn(calls, n, calls[n].read - window, calls[n].read)|
  {
    if window > 0 {
      SeenIsWindow(calls, n, window, true);
    } else {
      EmptyWithoutWindow(calls, n, window, true);
      assert SecondsIn(calls, n, calls[n].read - window, calls[n].read) == {};
    }
  }

  lemma ExpiryIsInvisible(calls: seq<Call>, n: nat, window: int)
    requires n < |calls| && Within(calls, 0)
    ensures CountRead(calls, n, window, true) == CountRead(calls, n, window, false)
  {
    if window > 0 {
      SeenIsWindow(calls, n, window, true);
      SeenIsWindow(calls, n, window, false);
    } else {
      EmptyWithoutWindow(calls, n, window, true);
      EmptyWithoutWindow(calls, n, window, false);
    }
  }

  ghost predicate CountsWindows(window: int, delay: nat) {
    forall calls: seq<Call>, n: nat | Within(calls, delay) && n < |calls| ::
      CountRead(calls, n, window, true) == |SecondsIn(calls, n, calls[n].read - window, calls[n].read)|
  }

  ghost predicate HidesExpiry(window: int, delay: nat) {
    forall calls: seq<Call>, n: nat | Within(calls, delay) && n < |calls| ::
      CountRead(calls, n, window, true) == CountRead(calls, n, window, false)
  }

  // Two calls: the members after the first, and what the second then finds of them.
  lemma SecondOfTwo(a: Call, b: Call, window: int, expiring: bool)
    requires a.read >= 0 && b.read >= 0 && window > 0
    ensures Reads([a, b])
    ensures var gone := b.read >= a.read + window || (expiring && b.at.NotBefore(a.at.After(window)));
            CountRead([a, b], 1, window, expiring) == if gone then 0 else 1
  {
    var calls := [a, b];
    var seen := Seen(After(calls, 1, window, expiring), b, window, expiring);
    assert Seen(EMPTY, a, window, expiring) == {};
    assert After(calls, 0, window, expiring) == EMPTY;
    assert After(calls, 1, window, expiring).members == {a.read};
    assert b.read >= a.read + window || (expiring && b.at.NotBefore(a.at.After(window))) ==> seen == {};
    assert !(b.read >= a.read + window || (expiring && b.at.NotBefore(a.at.After(window)))) ==> seen == {a.read};
  }

  /** The count is that of the window in every run exactly when no pipeline may run in a later second
      than the one it read: with a delay of one second, a call counts one that read a later time. */
  lemma CountIsWindowIff(window: int, delay: nat)
    ensures CountsWindows(window, delay) <==> delay == 0 || window <= 0
  {
    if window > 0 && delay > 0 {
      var a, b := Call(2, Instant(2, 0)), Call(1, Instant(2, 0));
      var calls := [a, b];
      SecondOfTwo(a, b, window, true);
      assert Within(calls, delay);
      assert SecondsIn(calls, 1, 1 - window, 1) == {};
      assert CountRead(calls, 1, window, true) == 1;
    } else {
      forall calls: seq<Call>, n: nat | Within(calls, delay) && n < |calls|
        ensures CountRead(calls, n, window, true) == |SecondsIn(calls, n, calls[n].read - window, calls[n].read)|
      {
        if delay == 0 {
          CountIsWindow(calls, n, window);
        } else {
          EmptyWithoutWindow(calls, n, window, true);
          assert SecondsIn(calls, n, calls[n].read - window, calls[n].read) == {};
        }
      }
    }
  }

  /** The expiry of the key changes no count in any run exactly then, too. */
  lemma ExpiryIsInvisibleIff(window: int, delay: nat)
    ensures HidesExpiry(window, delay) <==> delay == 0 || window <= 0
  {
    if window > 0 && delay > 0 {
      var a, b := Call(1, Instant(1, 0)), Call(window, Instant(window + 1, 0));
      var calls := [a, b];
      SecondOfTwo(a, b, window, true);
      SecondOfTwo(a, b, window, false);
      assert Within(calls, delay);
      assert CountRead(calls, 1, window, true) != CountRead(calls, 1, window, false);
    } else {
      forall calls: seq<Call>, n: nat | Within(calls, delay) && n < |calls|
        ensures CountRead(calls, n, window, true) == CountRead(calls, n, window, false)
      {
        if delay == 0 {
          ExpiryIsInvisible(calls, n, window);
        } else {
          EmptyWithoutWindow(calls, n, window, true);
          EmptyWithoutWindow(calls, n, window, false);
        }
      }
    }
  }

  // ---------------------------------------------------------------------------
  // The cap on seconds
  // ---------------------------------------------------------------------------

  // The answers of a run, call by call; a call whose reply is lost is denied.
  ghost predicate Answers(calls: seq<Call>, admitted: seq<bool>, limit: int, window: int) {
    |admitted| == |calls| &&
    forall i {:trigger admitted[i]} | 0 <= i < |calls| :: admitted[i] ==> Admitted(calls, i, limit, window)
  }

  // The same, said without the limiter.
  ghost predicate FewSurvivors(calls: seq<Call>, admitted: seq<bool>, limit: int, window: int) {
    |admitted| == |calls| &&
    forall i {:trigger admitted[i]} | 0 <= i < |calls| :: admitted[i] ==> |Survivors(calls, i, window)| < limit
  }

  lemma AnswersBySurvivors(calls: seq<Call>, admitted: seq<bool>, limit: int, window: int)
    requires Reads(calls) && window > 0 && Answers(calls, admitted, limit, window)
    ensures FewSurvivors(calls, admitted, limit, window)
  {
    forall i | 0 <= i < |calls| && admitted[i] ensures |Survivors(calls, i, window)| < limit {
      CountIsSurvivors(calls, i, window);
    }
  }

  lemma SurvivorsAnswer(calls: seq<Call>, admitted: seq<bool>, limit: int, window: int)
    requires Reads(calls) && window > 0 && FewSurvivors(calls, admitted, limit, window)
    ensures Answers(calls, admitted, limit, window)
  {
    forall i | 0 <= i < |calls| && admitted[i] ensures Admitted(calls, i, limit, window) {
      CountIsSurvivors(calls, i, window);
    }
  }

  ghost predicate SecondsCapped(limit: nat, window: int, delay: nat) {
    forall calls: seq<Call>, admitted: seq<bool>, from: int, to: int
      | Within(calls, delay) && Answers(calls, admitted, limit, window) && to <= from + window ::
      |AdmittedSeconds(calls, admitted, |calls|, from, to)| <= limit
  }

  lemma {:induction false} SpanSize(s: set<int>, lo: int, hi: int)
    requires lo <= hi && forall x | x in s :: lo < x <= hi
    ensures |s| <= hi - lo
    decreases hi - lo
  {
    if s != {} {
      var x := SomeElement(s);
      SpanSize(s - {hi}, lo, hi - 1);
      SubsetSize(s, (s - {hi}) + {hi});
    }
  }

  // A second admitted earlier is counted unless it is the first of a span that ends where the late call
  // read, while the clock is one second on.
  lemma SeenUnlessOldest(
    calls: seq<Call>, admitted: seq<bool>, n: nat, window: int, delay: nat, from: int, to: int, s: int)
    requires n < |calls| == |admitted| && window > 0 && Within(calls, delay) && delay <= 1
    requires from < calls[n].read <= to <= from + window
    requires s in AdmittedSeconds(calls, admitted, n, from, to) && s !in Survivors(calls, n, window)
    ensures delay == 1 && to == calls[n].read == s + window - 1 && calls[n].at.seconds == to + 1
  {
    var i :| 0 <= i < n && calls[i].read == s;
    if calls[n].at.seconds < s + window {
      YoungLasts(calls, i, n, window, delay, true);
      assert false;
    }
  }

  // If trimming took it, the call that read the next second is counted in its place.
  lemma ReplacedByLater(
    calls: seq<Call>, admitted: seq<bool>, n: nat, j: nat, window: int, from: int, to: int, s: int)
    requires j <= n < |calls| == |admitted| && window > 0 && Within(calls, 1)
    requires from < calls[n].read == to <= from + window && to == s + window - 1 && calls[n].at.seconds == to + 1
    requires calls[j].read >= s + window
    ensures |AdmittedSeconds(calls, admitted, n, from, to)| <= |Survivors(calls, n, window)|
  {
    var p, seen := AdmittedSeconds(calls, admitted, n, from, to), Survivors(calls, n, window);
    assert calls[n].at.NotBefore(calls[j].at);
    YoungLasts(calls, j, n, window, 1, true);
    assert Survives(calls, to + 1, n, n + 1, window, true);
    forall x | x in p && x != s ensures x in seen - {to + 1} {
      if x !in seen { SeenUnlessOldest(calls, admitted, n, window, 1, from, to, x); }
    }
    SubsetSize(p - {s}, seen - {to + 1});
  }

  // If the key had expired, nothing but that second and the one read now is in the span.
  lemma AloneAfterExpiry(
    calls: seq<Call>, admitted: seq<bool>, n: nat, i: nat, j: nat, window: int, from: int, to: int, s: int)
    requires i < j <= n < |calls| == |admitted| && window > 0 && Within(calls, 1) && calls[i].read == s
    requires from < calls[n].read == to <= from + window && to == s + window - 1 && calls[n].at.seconds == to + 1
    requires calls[j].at.NotBefore(calls[j - 1].at.After(window))
    ensures AdmittedSeconds(calls, admitted, n, from, to) <= {s, to}
  {
    assert calls[n].at.NotBefore(calls[j].at) && calls[j - 1].at.NotBefore(calls[i].at);
    forall k | 0 <= k < n && from < calls[k].read <= to ensures calls[k].read == s || calls[k].read == to {
      if k < j {
        assert calls[j - 1].at.NotBefore(calls[k].at);
      } else {
        assert calls[k].at.NotBefore(calls[j].at);
      }
    }
  }

  lemma LateIsCapped(
    calls: seq<Call>, admitted: seq<bool>, n: nat, limit: nat, window: int, from: int, to: int, s: int)
    requires n < |calls| == |admitted| && window > 0 && Within(calls, 1) && limit >= 2
    requires |Survivors(calls, n, window)| < limit
    requires from < calls[n].read == to <= from + window && to == s + window - 1 && calls[n].at.seconds == to + 1
    requires s in AdmittedSeconds(calls, admitted, n, from, to) && s !in Survivors(calls, n, window)
    ensures |AdmittedSeconds(calls, admitted, n, from, to) + {to}| <= limit
  {
    var p := AdmittedSeconds(calls, admitted, n, from, to);
    var i :| 0 <= i < n && calls[i].read == s;
    assert !Lasts(calls, i, n + 1, window, true);
    var j :| i < j < n + 1 && Removes(calls, i, j, window, true);
    if calls[j].read >= s + window {
      ReplacedByLater(calls, admitted, n, j, window, from, to, s);
    } else {
      AloneAfterExpiry(calls, admitted, n, i, j, window, from, to, s);
      SubsetSize(p + {to}, {s, to});
    }
  }

  // An admitted call leaves the span within the limit, its own second included.
  lemma OneMoreIsCapped(
    calls: seq<Call>, admitted: seq<bool>, n: nat, limit: nat, window: int, delay: nat, from: int, to: int)
    requires n < |calls| == |admitted| && window > 0 && Within(calls, delay)
    requires |Survivors(calls, n, window)| < limit
    requires delay == 0 || (delay == 1 && limit >= 2)
    requires from < calls[n].read <= to <= from + window
    ensures |AdmittedSeconds(calls, admitted, n, from, to) + {calls[n].read}| <= limit
  {
    var p, seen := AdmittedSeconds(calls, admitted, n, from, to), Survivors(calls, n, window);
    if p <= seen {
      SubsetSize(p, seen);
    } else {
      var s :| s in p && s !in seen;
      SeenUnlessOldest(calls, admitted, n, window, delay, from, to, s);
      LateIsCapped(calls, admitted, n, limit, window, from, to, s);
    }
  }

  lemma AdmittedStep(calls: seq<Call>, admitted: seq<bool>, n: nat, from: int, to: int)
    requires n < |calls| == |admitted|
    ensures AdmittedSeconds(calls, admitted, 0, from, to) == {}
    ensures AdmittedSeconds(calls, admitted, n + 1, from, to) ==
            AdmittedSeconds(calls, admitted, n, from, to) +
            if admitted[n] && from < calls[n].read <= to then {calls[n].read} else {}
  {
  }

  lemma CappedStep(
    calls: seq<Call>, admitted: seq<bool>, n: nat, limit: nat, window: int, delay: nat, from: int, to: int)
    requires n < |calls| == |admitted| && window > 0 && Within(calls, delay)
    requires admitted[n] ==> |Survivors(calls, n, window)| < limit
    requires delay == 0 || (delay == 1 && limit >= 2)
    requires to <= from + window && |AdmittedSeconds(calls, admitted, n, from, to)| <= limit
    ensures |AdmittedSeconds(calls, admitted, n + 1, from, to)| <= limit
  {
    AdmittedStep(calls, admitted, n, from, to);
    if admitted[n] && from < calls[n].read <= to {
      OneMoreIsCapped(calls, admitted, n, limit, window, delay, from, to);
    } else {
      assert AdmittedSeconds(calls, admitted, n + 1, from, to) == AdmittedSeconds(calls, admitted, n, from, to);
    }
  }

  lemma {:induction false} CappedSoFar(
    calls: seq<Call>, admitted: seq<bool>, n: nat, limit: nat, window: int, delay: nat, from: int, to: int)
    requires n <= |calls| && window > 0 && Within(calls, delay) && FewSurvivors(calls, admitted, limit, window)
    requires delay == 0 || (delay == 1 && limit >= 2)
    requires to <= from + window
    ensures |AdmittedSeconds(calls, admitted, n, from, to)| <= limit
  {
    if n == 0 {
      assert AdmittedSeconds(calls, admitted, 0, from, to) == {};
    } else {
      CappedSoFar(calls, admitted, n - 1, limit, window, delay, from, to);
      CappedStep(calls, admitted, n - 1, limit, window, delay, from, to);
    }
  }

  /** In such runs any span of one window holds at most `limit` distinct seconds with an admitted call. */
  lemma AdmittedSecondsAreCapped(
    calls: seq<Call>, admitted: seq<bool>, limit: nat, window: int, delay: nat, from: int, to: int)
    requires Within(calls, delay) && Answers(calls, admitted, limit, window) && to <= from + window
    requires delay == 0 || (delay == 1 && limit >= 2) || limit == 0 || limit >= window
    ensures |AdmittedSeconds(calls, admitted, |calls|, from, to)| <= limit
  {
    var p := AdmittedSeconds(calls, admitted, |calls|, from, to);
    if limit == 0 {
      assert p == {};
    } else if from >= to {
      assert p == {};
    } else if limit >= window {
      SpanSize(p, from, to);
    } else {
      AnswersBySurvivors(calls, admitted, limit, window);
      CappedSoFar(calls, admitted, |calls|, limit, window, delay, from, to);
    }
  }

  // What an admitted call adds stands for something in the set.
  lemma IsAdmittedSecond(calls: seq<Call>, admitted: seq<bool>, i: nat, n: nat, from: int, to: int)
    requires i < n <= |calls| == |admitted| && admitted[i] && from < calls[i].read <= to
    ensures calls[i].read in AdmittedSeconds(calls, admitted, n, from, to)
  {
  }

  // Limit one, and a call one second late that finds the key expired.
  lemma TwoOfOne(window: int, delay: nat)
    requires window >= 2 && delay >= 1
    ensures !SecondsCapped(1, window, delay)
  {
    var a, b := Call(1, Instant(1, 0)), Call(window, Instant(window + 1, 0));
    var calls, admitted := [a, b], [true, true];
    SecondOfTwo(a, b, window, true);
    assert Within(calls, delay);
    assert Seen(EMPTY, a, window, true) == {};
    assert Admitted(calls, 0, 1, window) && Admitted(calls, 1, 1, window);
    assert Answers(calls, admitted, 1, window);
    IsAdmittedSecond(calls, admitted, 0, 2, 0, window);
    IsAdmittedSecond(calls, admitted, 1, 2, 0, window);
    SubsetSize({1, window}, AdmittedSeconds(calls, admitted, |calls|, 0, window));
  }

  // The first `limit` seconds, then a call that overtakes, and last the one it overtook by two seconds.
  function Overtaken(limit: nat, window: int): (calls: seq<Call>)
    ensures |calls| == limit + 2
  {
    seq(limit, i requires 0 <= i < limit => Call(i + 1, Instant(i + 1, 0))) +
    [Call(window + 2, Instant(window + 2, 0)), Call(window, Instant(window + 2, 0))]
  }

  lemma OvertakenWithin(limit: nat, window: int, delay: nat)
    requires 2 <= limit < window && delay >= 2
    ensures Within(Overtaken(limit, window), delay)
  {
  }

  lemma {:induction false} OneToIsSmall(s: set<int>, n: nat)
    requires forall x | x in s :: 1 <= x <= n
    ensures |s| <= n
  {
    SubsetSize(s, OneTo(n));
  }

  lemma FirstOnes(limit: nat, window: int, i: nat)
    requires 2 <= limit < window && i < limit
    ensures |Survivors(Overtaken(limit, window), i, window)| < limit
  {
    var left := Survivors(Overtaken(limit, window), i, window);
    forall s | s in left ensures 1 <= s <= i {}
    OneToIsSmall(left, i);
  }

  lemma LastOnes(limit: nat, window: int, i: nat)
    requires 2 <= limit < window && limit <= i < limit + 2
    ensures |Survivors(Overtaken(limit, window), i, window)| < limit
  {
    var left, few := Survivors(Overtaken(limit, window), i, window), OneTo(limit) - {1, 2};
    forall s | s in left ensures s in few + {window + 2} { OutlastsOvertaking(limit, window, i, s); }
    SubsetSize(left, few + {window + 2});
    SizeWithoutTwo(limit);
  }

  lemma SizeWithoutTwo(n: nat)
    requires n >= 2
    ensures |OneTo(n) - {1, 2}| == n - 2
  {
    var a := OneTo(n) - {1};
    assert |a| == n - 1 && OneTo(n) - {1, 2} == a - {2};
  }

  lemma OutlastsOvertaking(limit: nat, window: int, n: nat, s: int)
    requires 2 <= limit < window && limit <= n < limit + 2
    requires Survives(Overtaken(limit, window), s, n, n + 1, window, true)
    ensures 2 < s <= limit || (n == limit + 1 && s == window + 2)
  {
    var calls := Overtaken(limit, window);
    var i :| 0 <= i < n && calls[i].read == s && Lasts(calls, i, n + 1, window, true);
    if i < limit {
      assert !Removes(calls, i, limit, window, true);
    }
  }

  lemma OvertakenSeconds(limit: nat, window: int, admitted: seq<bool>)
    requires 2 <= limit < window && |admitted| == limit + 2 && forall i | 0 <= i < limit + 2 :: admitted[i]
    ensures |AdmittedSeconds(Overtaken(limit, window), admitted, limit + 2, 0, window)| > limit
  {
    var calls := Overtaken(limit, window);
    var p := AdmittedSeconds(calls, admitted, limit + 2, 0, window);
    forall x | x in OneTo(limit) ensures x in p {
      IsAdmittedSecond(calls, admitted, x - 1, limit + 2, 0, window);
    }
    IsAdmittedSecond(calls, admitted, limit + 1, limit + 2, 0, window);
    SubsetSize(OneTo(limit) + {window}, p);
  }

  // Every limit from two up to the window, and a call two seconds late.
  lemma OneTooMany(limit: nat, window: int, delay: nat)
    requires 2 <= limit < window && delay >= 2
    ensures !SecondsCapped(limit, window, delay)
  {
    var calls, admitted := Overtaken(limit, window), seq(limit + 2, _ => true);
    OvertakenWithin(limit, window, delay);
    forall i | 0 <= i < |calls| ensures |Survivors(calls, i, window)| < limit {
      if i < limit { FirstOnes(limit, window, i); } else { LastOnes(limit, window, i); }
    }
    SurvivorsAnswer(calls, admitted, limit, window);
    OvertakenSeconds(limit, window, admitted);
  }

  /** Any span of one window holds at most `limit` distinct seconds with an admitted call, in every run
      with such delays, exactly when pipelines run in the second they read, or one second later with
      a limit of two at least, or the limit is zero or no less than the window. */
  lemma SecondsCappedIff(limit: nat, window: int, delay: nat)
    ensures SecondsCapped(limit, window, delay) <==>
            delay == 0 || (delay == 1 && limit >= 2) || limit == 0 || limit >= window
  {
    if limit >= window || limit == 0 || delay == 0 || (delay == 1 && limit >= 2) {
      forall calls: seq<Call>, admitted: seq<bool>, from: int, to: int
        | Within(calls, delay) && Answers(calls, admitted, limit, window) && to <= from + window
        ensures |AdmittedSeconds(calls, admitted, |calls|, from, to)| <= limit
      {
        AdmittedSecondsAreCapped(calls, admitted, limit, window, delay, from, to);
      }
    } else if limit == 1 {
      TwoOfOne(window, delay);
    } else {
      OneTooMany(limit, window, delay);
    }
  }

  // ---------------------------------------------------------------------------
  // Calls, which the limit is said to bound
  // ---------------------------------------------------------------------------

  // The admitted calls whose time lies in (from, to].
  ghost function AdmittedCalls(calls: seq<Call>, admitted: seq<bool>, from: int, to: int): set<int>
    requires |calls| == |admitted|
  {
    set i | 0 <= i < |calls| && admitted[i] && from < calls[i].read <= to
  }

  ghost predicate CallsCapped(limit: nat, window: int, delay: nat) {
    forall calls: seq<Call>, admitted: seq<bool>, from: int, to: int
      | Within(calls, delay) && Answers(calls, admitted, limit, window) && to <= from + window ::
      |AdmittedCalls(calls, admitted, from, to)| <= limit
  }

  // A call that counts nothing is the first in any span of one window.
  lemma NotBoth(calls: seq<Call>, admitted: seq<bool>, i: nat, j: nat, window: int, from: int, to: int)
    requires window > 0 && Within(calls, 0) && FewSurvivors(calls, admitted, 1, window)
    requires i < j < |calls| && from < calls[i].read && calls[j].read <= to <= from + window
    ensures !admitted[j]
  {
    YoungLasts(calls, i, j, window, 0, true);
    var left := Survivors(calls, j, window);
    assert calls[i].read in left;
    SubsetSize({calls[i].read}, left);
  }

  lemma AtMostOneCall(calls: seq<Call>, admitted: seq<bool>, window: int, from: int, to: int)
    requires window > 0 && Within(calls, 0) && FewSurvivors(calls, admitted, 1, window)
    requires to <= from + window
    ensures |AdmittedCalls(calls, admitted, from, to)| <= 1
  {
    var all := AdmittedCalls(calls, admitted, from, to);
    if all != {} {
      var i := SomeElement(all);
      forall j | j in all ensures j == i {
        if i < j { NotBoth(calls, admitted, i, j, window, from, to); }
        if j < i { NotBoth(calls, admitted, j, i, window, from, to); }
      }
      SubsetSize(all, {i});
    }
  }

  // Calls within one second share one member, so a burst reads counts of zero or one.
  lemma BurstExceeds(limit: nat, window: int, delay: nat)
    requires window > 0 && limit >= 2
    ensures !CallsCapped(limit, window, delay)
  {
    var calls: seq<Call>, admitted: seq<bool> := seq(limit + 1, _ => Call(1, Instant(1, 0))), seq(limit + 1, _ => true);
    assert Within(calls, delay);
    forall i | 0 <= i < |calls| ensures |Survivors(calls, i, window)| < limit {
      SubsetSize(Survivors(calls, i, window), {1});
    }
    SurvivorsAnswer(calls, admitted, limit, window);
    AllTheCalls(calls, admitted, 0, window);
  }

  lemma AllTheCalls(calls: seq<Call>, admitted: seq<bool>, from: int, to: int)
    requires |calls| == |admitted|
    requires forall i | 0 <= i < |calls| :: admitted[i] && from < calls[i].read <= to
    ensures |AdmittedCalls(calls, admitted, from, to)| == |calls|
  {
    assert AdmittedCalls(calls, admitted, from, to) == Below(|calls|);
  }

  lemma LateCallExceeds(window: int, delay: nat)
    requires window > 0 && delay >= 1
    ensures !CallsCapped(1, window, delay)
  {
    var a, b := Call(1, Instant(1, 0)), Call(window, Instant(window + 1, 0));
    var calls, admitted := [a, b], [true, true];
    SecondOfTwo(a, b, window, true);
    assert Within(calls, delay);
    assert Seen(EMPTY, a, window, true) == {};
    assert Admitted(calls, 0, 1, window) && Admitted(calls, 1, 1, window);
    assert Answers(calls, admitted, 1, window);
    AllTheCalls(calls, admitted, 0, window);
  }

  /** The limit bounds the calls admitted in every window exactly when it is zero, or the window is
      empty, or it is one and no pipeline runs late: with a larger limit any number of calls within one
      second is admitted. */
  lemma CallsCappedIff(limit: nat, window: int, delay: nat)
    ensures CallsCapped(limit, window, delay) <==> limit == 0 || window <= 0 || (limit == 1 && delay == 0)
  {
    if limit == 0 || window <= 0 || (limit == 1 && delay == 0) {
      forall calls: seq<Call>, admitted: seq<bool>, from: int, to: int
        | Within(calls, delay) && Answers(calls, admitted, limit, window) && to <= from + window
        ensures |AdmittedCalls(calls, admitted, from, to)| <= limit
      {
        if limit == 0 || window <= 0 {
          assert AdmittedCalls(calls, admitted, from, to) == {};
        } else {
          AnswersBySurvivors(calls, admitted, limit, window);
          AtMostOneCall(calls, admitted, window, from, to);
        }
      }
    } else if limit == 1 {
      LateCallExceeds(window, delay);
    } else {
      BurstExceeds(limit, window, delay);
    }
  }
}
