/** The four-state circuit breaker (shared/circuit_breaker.py). Every clock read is a parameter:
    one call may read the clock several times, and the reads may differ. */
module CircuitBreaking {

  import opened Prelude

  datatype Circuit = Closed | Open | HalfOpen | Stressed

  datatype Config = Config(
    failureThreshold: int, recoveryTimeout: int, successThreshold: int, halfOpenMax: int)
  {
    function Recovery(): real { recoveryTimeout as real }
    // The oscillation window, twice the recovery timeout.
    function Window(): real { 2.0 * Recovery() }
  }

  /** The value of a breaker; its metrics counters are left out. */
  datatype Breaker = Breaker(
    state: Circuit, failureCount: int, successCount: int, lastFailure: Option<real>,
    probes: int, times: seq<real>, timeout: real)

  // [t for t in times if t >= cutoff]
  function Prune(times: seq<real>, cutoff: real): (kept: seq<real>)
    ensures |kept| <= |times|
  {
    if times == [] then []
    else (if times[0] >= cutoff then [times[0]] else []) + Prune(times[1..], cutoff)
  }

  // ---------------------------------------------------------------------------
  // What each operation does to a breaker
  // ---------------------------------------------------------------------------

  predicate Elapsed(b: Breaker, now: real) {
    b.lastFailure.Some? && now - b.lastFailure.value >= b.timeout
  }

  // The `state` property, which only looks: it never stores what it reports.
  function Observed(b: Breaker, now: real): Circuit {
    if (b.state == Open || b.state == Stressed) && Elapsed(b, now) then HalfOpen else b.state
  }

  // The second test, in allow_request; a last failure at clock value 0 counts as absent.
  predicate SecondTest(b: Breaker, now: real) {
    b.lastFailure.Some? && b.lastFailure.value != 0.0 && Elapsed(b, now)
  }

  function TransitionTo(cfg: Config, b: Breaker, target: Circuit, now: real): Breaker {
    if b.state == target then b
    else
      var times := Prune(b.times + [now], now - cfg.Window());
      if |times| > 5 && target != Stressed then
        b.(state := Stressed, times := times, timeout := cfg.Recovery() * 2.0)
      else
        b.(state := target, times := times)
  }

  function Allow(cfg: Config, b: Breaker, t1: real, t2: real, t3: real): (Breaker, bool) {
    match Observed(b, t1)
    case Closed => (b, true)
    case HalfOpen =>
      if b.probes < cfg.halfOpenMax then (b.(probes := b.probes + 1), true) else (b, false)
    case _ =>
      if SecondTest(b, t2) then
        (TransitionTo(cfg, b, HalfOpen, t3).(successCount := 0, probes := 1), true)
      else (b, false)
  }

  // What recovery and reset both do once _transition_to has returned.
  function Cleared(cfg: Config, b: Breaker): Breaker {
    b.(failureCount := 0, successCount := 0, probes := 0, timeout := cfg.Recovery(), times := [])
  }

  function Success(cfg: Config, b: Breaker, t: real): Breaker {
    match b.state
    case HalfOpen =>
      var b' := b.(successCount := b.successCount + 1);
      if b'.successCount >= cfg.successThreshold then
        Cleared(cfg, TransitionTo(cfg, b', Closed, t))
      else b'
    case Closed => b.(failureCount := 0)
    case _ => b
  }

  function Failure(cfg: Config, b: Breaker, t1: real, t2: real): Breaker {
    var b' := b.(failureCount := b.failureCount + 1, lastFailure := Some(t1));
    match b.state
    case HalfOpen => TransitionTo(cfg, b', Open, t2).(probes := 0)
    case Closed =>
      if b'.failureCount >= cfg.failureThreshold then TransitionTo(cfg, b', Open, t2) else b'
    case _ => b'
  }

  function ResetTo(cfg: Config, b: Breaker, t: real): Breaker {
    Cleared(cfg, TransitionTo(cfg, b, Closed, t))
  }

  function ForcedOpen(cfg: Config, b: Breaker, t1: real, t2: real): Breaker {
    TransitionTo(cfg, b, Open, t1).(lastFailure := Some(t2))
  }

  // ---------------------------------------------------------------------------
  // The breaker object
  // ---------------------------------------------------------------------------

  class CircuitBreaker {
    const cfg: Config
    var state: Circuit
    var failureCount: int
    var successCount: int
    var lastFailure: Option<real>
    var halfOpenRequestCount: int
    var transitionTimes: seq<real>
    var effectiveTimeout: real

    function View(): Breaker
      reads this
    {
      Breaker(state, failureCount, successCount, lastFailure,
              halfOpenRequestCount, transitionTimes, effectiveTimeout)
    }

    constructor (cfg: Config)
      ensures this.cfg == cfg && View() == New(cfg)
    {
      this.cfg := cfg;
      state, failureCount, successCount, lastFailure := Closed, 0, 0, None;
      halfOpenRequestCount, transitionTimes := 0, [];
      effectiveTimeout := cfg.Recovery();
    }

    method Transition(target: Circuit, now: real)
      modifies this
      ensures View() == TransitionTo(cfg, old(View()), target, now)
    {
      var oldState := state;
      state := target;
      if oldState != target {
        transitionTimes := transitionTimes + [now];
        var cutoff := now - cfg.Window();
        transitionTimes := Prune(transitionTimes, cutoff);
        if |transitionTimes| > 5 && state != Stressed {
          state := Stressed;
          effectiveTimeout := cfg.Recovery() * 2.0;
        }
      }
    }

    method AllowRequest(t1: real, t2: real, t3: real) returns (allowed: bool)
      modifies this
      ensures (View(), allowed) == Allow(cfg, old(View()), t1, t2, t3)
    {
      var current := Observed(View(), t1);
      if current == Closed {
        return true;
      }
      if current == Open || current == Stressed {
        if SecondTest(View(), t2) {
          Transition(HalfOpen, t3);
          successCount := 0;
          halfOpenRequestCount := 0;
          halfOpenRequestCount := halfOpenRequestCount + 1;
          return true;
        }
        return false;
      }
      if halfOpenRequestCount < cfg.halfOpenMax {
        halfOpenRequestCount := halfOpenRequestCount + 1;
        return true;
      }
      return false;
    }

    method RecordSuccess(t: real)
      modifies this
      ensures View() == Success(cfg, old(View()), t)
    {
      if state == HalfOpen {
        successCount := successCount + 1;
        if successCount >= cfg.successThreshold {
          Transition(Closed, t);
          failureCount := 0;
          successCount := 0;
          halfOpenRequestCount := 0;
          effectiveTimeout := cfg.Recovery();
          transitionTimes := [];
        }
      } else if state == Closed {
        failureCount := 0;
      }
    }

    method RecordFailure(t1: real, t2: real)
      modifies this
      ensures View() == Failure(cfg, old(View()), t1, t2)
    {
      failureCount := failureCount + 1;
      lastFailure := Some(t1);
      if state == HalfOpen {
        Transition(Open, t2);
        halfOpenRequestCount := 0;
      } else if state == Closed {
        if failureCount >= cfg.failureThreshold {
          Transition(Open, t2);
        }
      }
    }

    method Reset(t: real)
      modifies this
      ensures View() == ResetTo(cfg, old(View()), t)
    {
      Transition(Closed, t);
      failureCount := 0;
      successCount := 0;
      halfOpenRequestCount := 0;
      effectiveTimeout := cfg.Recovery();
      transitionTimes := [];
    }

    method ForceOpen(t1: real, t2: real)
      modifies this
      ensures View() == ForcedOpen(cfg, old(View()), t1, t2)
    {
      Transition(Open, t1);
      lastFailure := Some(t2);
    }
  }

  function New(cfg: Config): Breaker {
    Breaker(Closed, 0, 0, None, 0, [], cfg.Recovery())
  }

  // ---------------------------------------------------------------------------
  // Runs and their history
  // ---------------------------------------------------------------------------

  // An operation with the values its clock reads return, in the order it makes them.
  datatype Op =
    | AllowRequest(t1: real, t2: real, t3: real)
    | RecordSuccess(t: real)
    | RecordFailure(t1: real, t2: real)
    | Reset(t: real)
    | ForceOpen(t1: real, t2: real)
  {
    function First(): real {
      match this case AllowRequest(a, _, _) => a case RecordSuccess(a) => a
      case RecordFailure(a, _) => a case Reset(a) => a case ForceOpen(a, _) => a
    }
    function Last(): real {
      match this case AllowRequest(_, _, a) => a case RecordSuccess(a) => a
      case RecordFailure(_, a) => a case Reset(a) => a case ForceOpen(_, a) => a
    }
    predicate Ordered() {
      First() <= Last() && (AllowRequest? ==> t1 <= t2 <= t3)
    }
  }

  function Apply(cfg: Config, b: Breaker, op: Op): Breaker {
    match op
    case AllowRequest(t1, t2, t3) => Allow(cfg, b, t1, t2, t3).0
    case RecordSuccess(t) => Success(cfg, b, t)
    case RecordFailure(t1, t2) => Failure(cfg, b, t1, t2)
    case Reset(t) => ResetTo(cfg, b, t)
    case ForceOpen(t1, t2) => ForcedOpen(cfg, b, t1, t2)
  }

  predicate Admits(cfg: Config, b: Breaker, op: Op) {
    op.AllowRequest? && Allow(cfg, b, op.t1, op.t2, op.t3).1
  }

  // The state this operation asks _transition_to for, and when.
  function Request(cfg: Config, b: Breaker, op: Op): Option<(Circuit, real)> {
    match op
    case AllowRequest(t1, t2, t3) =>
      if Observed(b, t1) in {Open, Stressed} && SecondTest(b, t2) then Some((HalfOpen, t3)) else None
    case RecordSuccess(t) =>
      if b.state == HalfOpen && b.successCount + 1 >= cfg.successThreshold
      then Some((Closed, t)) else None
    case RecordFailure(_, t2) =>
      if b.state == HalfOpen || (b.state == Closed && b.failureCount + 1 >= cfg.failureThreshold)
      then Some((Open, t2)) else None
    case Reset(t) => Some((Closed, t))
    case ForceOpen(t1, _) => Some((Open, t1))
  }

  predicate AsksToClose(cfg: Config, b: Breaker, op: Op) {
    var r := Request(cfg, b, op);
    r.Some? && r.value.0 == Closed
  }

  predicate AsksForChange(cfg: Config, b: Breaker, op: Op) {
    var r := Request(cfg, b, op);
    r.Some? && r.value.0 != b.state
  }

  // The operations that set the probe counter back to zero.
  predicate ZeroesProbes(cfg: Config, b: Breaker, op: Op) {
    || AsksToClose(cfg, b, op)
    || (op.RecordFailure? && b.state == HalfOpen)
    || (op.AllowRequest? && Request(cfg, b, op).Some?)
  }

  /** What an observer of a run knows, whatever the breaker itself remembers. */
  datatype History = History(
    now: real,               // the latest clock read
    changes: seq<real>,      // when state changes were asked for, since the last close
    failures: nat,           // failures since the last success or close
    latestFailure: Option<real>,
    blocked: Option<real>,   // the latest failure or force_open
    successes: nat,          // successes in HALF_OPEN since it was last asked for
    admitted: nat,           // requests let through while not Closed, since probes were last zeroed
    stressed: bool)          // an oscillation since the last close
  {
    // The timeout in force: doubled from an oscillation until the next close.
    function Backoff(cfg: Config): real {
      (if stressed then 2.0 else 1.0) * cfg.recoveryTimeout as real
    }
  }

  datatype System = System(b: Breaker, h: History)

  function Watch(cfg: Config, b: Breaker, h: History, op: Op): History {
    History(
      op.Last(),
      if AsksToClose(cfg, b, op) then []
      else if AsksForChange(cfg, b, op) then h.changes + [Request(cfg, b, op).value.1]
      else h.changes,
      if op.RecordFailure? then h.failures + 1
      else if op.RecordSuccess? || AsksToClose(cfg, b, op) then 0
      else h.failures,
      if op.RecordFailure? then Some(op.t1) else h.latestFailure,
      if op.RecordFailure? then Some(op.t1) else if op.ForceOpen? then Some(op.t2) else h.blocked,
      if op.AllowRequest? && Request(cfg, b, op).Some? then 0
      else if op.RecordSuccess? && b.state == HalfOpen then h.successes + 1
      else h.successes,
      (if ZeroesProbes(cfg, b, op) then 0 else h.admitted) +
      (if Admits(cfg, b, op) && b.state != Closed then 1 else 0),
      !AsksToClose(cfg, b, op) &&
      (h.stressed ||
       (AsksForChange(cfg, b, op) && Oscillates(cfg, h.changes, Request(cfg, b, op).value.1))))
  }

  // Six requested changes, the one made now included, fall inside the window.
  predicate Oscillates(cfg: Config, changes: seq<real>, now: real) {
    |changes| >= 5 && changes[|changes| - 5] >= now - 2.0 * cfg.recoveryTimeout as real
  }

  function Step(cfg: Config, s: System, op: Op): System {
    System(Apply(cfg, s.b, op), Watch(cfg, s.b, s.h, op))
  }

  function Run(cfg: Config, s: System, ops: seq<Op>): System
    decreases |ops|
  {
    if ops == [] then s else Run(cfg, Step(cfg, s, ops[0]), ops[1..])
  }

  // The clock never goes back, within a call or between calls.
  predicate Timed(now: real, ops: seq<Op>)
    decreases |ops|
  {
    ops == [] || (now <= ops[0].First() && ops[0].Ordered() && Timed(ops[0].Last(), ops[1..]))
  }

  function Fresh(cfg: Config, now: real): System {
    System(New(cfg), History(now, [], 0, None, None, 0, 0, false))
  }

  predicate Sane(cfg: Config) {
    cfg.failureThreshold >= 1 && cfg.successThreshold >= 1 && cfg.halfOpenMax >= 1 &&
    cfg.recoveryTimeout >= 0
  }

  // ---------------------------------------------------------------------------
  // The oscillation window
  // ---------------------------------------------------------------------------

  ghost predicate Sorted(ts: seq<real>) {
    forall i, j | 0 <= i < j < |ts| :: ts[i] <= ts[j]
  }

  lemma {:induction false} PruneKeepsOrder(ts: seq<real>, cutoff: real)
    requires Sorted(ts)
    ensures Sorted(Prune(ts, cutoff))
    ensures forall t | t in Prune(ts, cutoff) :: t in ts && t >= cutoff
  {
    if ts != [] {
      var head, rest := if ts[0] >= cutoff then [ts[0]] else [], Prune(ts[1..], cutoff);
      PruneKeepsOrder(ts[1..], cutoff);
      forall t | t in rest ensures t in ts && ts[0] <= t {
        var k :| 0 <= k < |ts[1..]| && ts[1..][k] == t;
        assert ts[k + 1] == t;
      }
      forall i, j | 0 <= i < j < |head + rest| ensures (head + rest)[i] <= (head + rest)[j] {
        if i < |head| { assert rest[j - |head|] in rest; }
      }
    }
  }

  lemma {:induction false} PruneAppend(ts: seq<real>, t: real, cutoff: real)
    ensures Prune(ts + [t], cutoff) == Prune(ts, cutoff) + (if t >= cutoff then [t] else [])
  {
    if ts == [] {
      assert ts + [t] == [t] && [t][1..] == [];
      assert Prune([t], cutoff) == (if t >= cutoff then [t] else []) + Prune([], cutoff);
    } else {
      PruneAppend(ts[1..], t, cutoff);
      assert (ts + [t])[1..] == ts[1..] + [t];
      Regrouped(if ts[0] >= cutoff then [ts[0]] else [], Prune(ts[1..], cutoff), if t >= cutoff then [t] else []);
    }
  }

  // Pruning with an older cutoff first makes no difference.
  lemma {:induction false} PruneTwice(ts: seq<real>, earlier: real, later: real)
    requires earlier <= later
    ensures Prune(Prune(ts, earlier), later) == Prune(ts, later)
  {
    if ts != [] {
      PruneTwice(ts[1..], earlier, later);
      var rest := Prune(ts[1..], earlier);
      if ts[0] >= earlier {
        assert ([ts[0]] + rest)[1..] == rest;
      } else {
        assert [] + rest == rest;
      }
    }
  }

  // The changes still inside the window when the latest of them was made.
  function InWindow(cfg: Config, changes: seq<real>): seq<real> {
    if changes == [] then [] else Prune(changes, changes[|changes| - 1] - cfg.Window())
  }

  lemma PruneAgain(ts: seq<real>, now: real, earlier: real, later: real)
    requires earlier <= later
    ensures Prune(Prune(ts, earlier) + [now], later) == Prune(ts + [now], later)
  {
    PruneAppend(Prune(ts, earlier), now, later);
    PruneAppend(ts, now, later);
    PruneTwice(ts, earlier, later);
  }

  lemma WindowStep(cfg: Config, changes: seq<real>, now: real)
    requires forall t | t in changes :: t <= now
    ensures Prune(InWindow(cfg, changes) + [now], now - cfg.Window()) ==
            InWindow(cfg, changes + [now])
  {
    var cutoff := now - cfg.Window();
    if changes != [] {
      var last := changes[|changes| - 1];
      assert last in changes;
      PruneAgain(changes, now, last - cfg.Window(), cutoff);
    }
  }

  lemma AppendKeepsOrder(ts: seq<real>, now: real)
    requires Sorted(ts) && forall t | t in ts :: t <= now
    ensures Sorted(ts + [now])
  {
    forall i, j | 0 <= i < j < |ts + [now]|
      ensures (ts + [now])[i] <= (ts + [now])[j]
    {
      assert ts[i] in ts;
    }
  }

  // Of a sorted list, pruning keeps exactly the tail that is not before the cutoff.
  lemma {:induction false} PruneIsTail(ts: seq<real>, cutoff: real) returns (k: nat)
    requires Sorted(ts)
    ensures k <= |ts| && Prune(ts, cutoff) == ts[k..]
    ensures forall j | 0 <= j < k :: ts[j] < cutoff
    ensures forall j | k <= j < |ts| :: ts[j] >= cutoff
  {
    if ts == [] {
      k := 0;
    } else {
      var k' := PruneIsTail(ts[1..], cutoff);
      if ts[0] >= cutoff {
        k := 0;
        if |ts| > 1 { assert ts[1..][0] == ts[1] >= ts[0]; }
        assert [ts[0]] + ts[1..] == ts;
      } else {
        k := k' + 1;
        forall j | 0 <= j < k ensures ts[j] < cutoff { if j > 0 { assert ts[1..][j - 1] < cutoff; } }
        forall j | k <= j < |ts| ensures ts[j] >= cutoff { assert ts[1..][j - 1] >= cutoff; }
      }
    }
  }

  lemma OscillatesIffMoreThanFive(cfg: Config, changes: seq<real>, now: real)
    requires Sane(cfg) && Sorted(changes + [now])
    ensures Oscillates(cfg, changes, now) <==> |InWindow(cfg, changes + [now])| > 5
  {
    var cs := changes + [now];
    var cutoff := now - cfg.Window();
    var k := PruneIsTail(cs, cutoff);
    if |changes| >= 5 {
      assert changes[|changes| - 5] == cs[|cs| - 6];
    }
  }

  lemma Landing(cfg: Config, b: Breaker, target: Circuit, now: real, changes: seq<real>)
    requires Sane(cfg) && Sorted(changes) && (forall t | t in changes :: t <= now)
    requires b.times == InWindow(cfg, changes) && target != b.state && target != Stressed
    ensures var b' := TransitionTo(cfg, b, target, now);
            if Oscillates(cfg, changes, now) then
              b'.state == Stressed && b'.timeout == 2.0 * cfg.Recovery()
            else b'.state == target && b'.timeout == b.timeout
  {
    WindowStep(cfg, changes, now);
    AppendKeepsOrder(changes, now);
    OscillatesIffMoreThanFive(cfg, changes, now);
  }

  // ---------------------------------------------------------------------------
  // The invariant of every run
  // ---------------------------------------------------------------------------

  ghost predicate WindowInv(cfg: Config, times: seq<real>, changes: seq<real>, now: real) {
    && Sorted(changes)
    && (forall t | t in changes :: t <= now)
    && times == InWindow(cfg, changes)
  }

  ghost predicate TimesInv(cfg: Config, s: System) {
    WindowInv(cfg, s.b.times, s.h.changes, s.h.now)
  }

  ghost predicate FailuresInv(cfg: Config, s: System) {
    && s.b.failureCount >= 0
    && (s.b.state == Closed ==> s.b.failureCount == s.h.failures < cfg.failureThreshold)
    && (s.b.state == Closed ==> s.h.changes == [])
  }

  ghost predicate ProbesInv(cfg: Config, s: System) {
    && (s.b.state == HalfOpen ==> s.b.successCount == s.h.successes < cfg.successThreshold)
    && s.b.probes == s.h.admitted <= cfg.halfOpenMax
  }

  ghost predicate CountInv(cfg: Config, s: System) {
    FailuresInv(cfg, s) && ProbesInv(cfg, s)
  }

  ghost predicate FailureInv(s: System) {
    && s.b.lastFailure == s.h.blocked
    && (s.b.state != Closed ==> s.b.lastFailure.Some?)
    && (s.b.lastFailure.Some? ==> s.b.lastFailure.value <= s.h.now)
    && (s.h.latestFailure.Some? ==>
          s.b.lastFailure.Some? && s.h.latestFailure.value <= s.b.lastFailure.value)
    && (s.b.state == HalfOpen ==> s.h.now >= s.b.lastFailure.value + s.b.timeout)
  }

  ghost predicate ClockInv(cfg: Config, s: System) {
    s.b.timeout == s.h.Backoff(cfg) && FailureInv(s)
  }

  ghost predicate Inv(cfg: Config, s: System) {
    TimesInv(cfg, s) && CountInv(cfg, s) && ClockInv(cfg, s)
  }

  // State, times and timeout move only through _transition_to and the clearing after a close.
  lemma ChangesOnlyThroughTransition(cfg: Config, b: Breaker, op: Op)
    ensures var b' := Apply(cfg, b, op);
            if AsksForChange(cfg, b, op) then
              var (target, t) := Request(cfg, b, op).value;
              var landed := TransitionTo(cfg, b, target, t);
              && target != Stressed
              && (op.Ordered() ==> op.First() <= t <= op.Last())
              && b'.state == landed.state
              && (!AsksToClose(cfg, b, op) ==> b'.times == landed.times && b'.timeout == landed.timeout)
            else b'.state == b.state &&
                 (!AsksToClose(cfg, b, op) ==> b'.times == b.times && b'.timeout == b.timeout)
    ensures AsksToClose(cfg, b, op) ==>
              Apply(cfg, b, op).times == [] && Apply(cfg, b, op).timeout == cfg.Recovery()
  {
  }

  lemma WindowMoves(cfg: Config, b: Breaker, target: Circuit, changes: seq<real>, now: real, t: real, later: real)
    requires WindowInv(cfg, b.times, changes, now) && now <= t <= later && target != b.state
    ensures WindowInv(cfg, TransitionTo(cfg, b, target, t).times, changes + [t], later)
  {
    WindowStep(cfg, changes, t);
    AppendKeepsOrder(changes, t);
  }

  lemma WindowWaits(cfg: Config, times: seq<real>, changes: seq<real>, now: real, later: real)
    requires WindowInv(cfg, times, changes, now) && now <= later
    ensures WindowInv(cfg, times, changes, later)
    ensures WindowInv(cfg, [], [], later)
  {
  }

  lemma TimesOfStep(cfg: Config, s: System, op: Op)
    requires op.Ordered()
    ensures var s' := Step(cfg, s, op);
            (s'.b.times, s'.h.changes) ==
            if AsksToClose(cfg, s.b, op) then ([], [])
            else if AsksForChange(cfg, s.b, op) then
              var (target, t) := Request(cfg, s.b, op).value;
              (TransitionTo(cfg, s.b, target, t).times, s.h.changes + [t])
            else (s.b.times, s.h.changes)
  {
  }

  lemma TimesStep(cfg: Config, s: System, op: Op)
    requires TimesInv(cfg, s) && op.Ordered() && s.h.now <= op.First()
    ensures TimesInv(cfg, Step(cfg, s, op))
  {
    TimesOfStep(cfg, s, op);
    WindowWaits(cfg, s.b.times, s.h.changes, s.h.now, op.Last());
    if AsksForChange(cfg, s.b, op) {
      var (target, t) := Request(cfg, s.b, op).value;
      WindowMoves(cfg, s.b, target, s.h.changes, s.h.now, t, op.Last());
    }
  }

  // A breaker is Closed only at first and after a close, which clears the changes.
  lemma FailuresStep(cfg: Config, s: System, op: Op)
    requires Sane(cfg) && FailuresInv(cfg, s) && op.Ordered()
    ensures FailuresInv(cfg, Step(cfg, s, op))
  {
    TimesOfStep(cfg, s, op);
  }

  lemma ProbesStep(cfg: Config, s: System, op: Op)
    requires Sane(cfg) && ProbesInv(cfg, s)
    ensures ProbesInv(cfg, Step(cfg, s, op))
  {
  }

  lemma BackoffStep(cfg: Config, s: System, op: Op)
    requires Sane(cfg) && Inv(cfg, s) && op.Ordered() && s.h.now <= op.First()
    ensures Step(cfg, s, op).b.timeout == Step(cfg, s, op).h.Backoff(cfg)
  {
    ChangesOnlyThroughTransition(cfg, s.b, op);
    if AsksForChange(cfg, s.b, op) {
      var (target, t) := Request(cfg, s.b, op).value;
      Landing(cfg, s.b, target, t, s.h.changes);
    }
  }

  lemma FailureStep(cfg: Config, s: System, op: Op)
    requires Sane(cfg) && FailureInv(s) && op.Ordered() && s.h.now <= op.First()
    ensures FailureInv(Step(cfg, s, op))
  {
  }

  lemma {:induction false} RunKeepsInv(cfg: Config, s: System, ops: seq<Op>)
    requires Sane(cfg) && Inv(cfg, s) && Timed(s.h.now, ops)
    ensures Inv(cfg, Run(cfg, s, ops))
    decreases |ops|
  {
    if ops != [] {
      TimesStep(cfg, s, ops[0]);
      FailuresStep(cfg, s, ops[0]);
      ProbesStep(cfg, s, ops[0]);
      BackoffStep(cfg, s, ops[0]);
      FailureStep(cfg, s, ops[0]);
      RunKeepsInv(cfg, Step(cfg, s, ops[0]), ops[1..]);
    }
  }

  lemma FreshIsInv(cfg: Config, now: real)
    requires Sane(cfg)
    ensures Inv(cfg, Fresh(cfg, now))
  {
  }

  // ---------------------------------------------------------------------------
  // Oscillation
  // ---------------------------------------------------------------------------

  // The tail of a sorted list of changes that is inside the window.
  ghost predicate IsWindow(cfg: Config, times: seq<real>, cs: seq<real>, k: nat) {
    && k <= |cs| && times == cs[k..]
    && (forall j | 0 <= j < k :: cs[j] < cs[|cs| - 1] - 2.0 * cfg.recoveryTimeout as real)
    && (forall j | k <= j < |cs| :: cs[j] >= cs[|cs| - 1] - 2.0 * cfg.recoveryTimeout as real)
  }

  lemma WindowIsTail(cfg: Config, times: seq<real>, cs: seq<real>, now: real) returns (k: nat)
    requires WindowInv(cfg, times, cs, now)
    ensures Sorted(times) && IsWindow(cfg, times, cs, k)
  {
    k := 0;
    if cs != [] {
      var cutoff := cs[|cs| - 1] - cfg.Window();
      k := PruneIsTail(cs, cutoff);
      PruneKeepsOrder(cs, cutoff);
    }
  }

  /** In every run the recorded times are sorted and are exactly the requested state changes since
      the last close that lie within twice the recovery timeout of the latest one. */
  lemma WindowIsExact(cfg: Config, now: real, ops: seq<Op>) returns (k: nat)
    requires Sane(cfg) && Timed(now, ops)
    ensures var s := Run(cfg, Fresh(cfg, now), ops);
            Sorted(s.b.times) && IsWindow(cfg, s.b.times, s.h.changes, k)
  {
    FreshIsInv(cfg, now);
    RunKeepsInv(cfg, Fresh(cfg, now), ops);
    var s := Run(cfg, Fresh(cfg, now), ops);
    k := WindowIsTail(cfg, s.b.times, s.h.changes, s.h.now);
  }

  /** STRESSED is entered exactly by a requested change that makes six inside the window, whatever
      state was asked for; every other change lands where it was asked to. */
  lemma StressedExactlyOnOscillation(cfg: Config, now: real, ops: seq<Op>, op: Op)
    requires Sane(cfg) && Timed(now, ops) && op.Ordered()
    requires Run(cfg, Fresh(cfg, now), ops).h.now <= op.First()
    ensures var s := Run(cfg, Fresh(cfg, now), ops);
            var b' := Apply(cfg, s.b, op);
            if AsksForChange(cfg, s.b, op) then
              var (target, t) := Request(cfg, s.b, op).value;
              b'.state == if Oscillates(cfg, s.h.changes, t) then Stressed else target
            else b'.state == s.b.state
  {
    FreshIsInv(cfg, now);
    RunKeepsInv(cfg, Fresh(cfg, now), ops);
    var s := Run(cfg, Fresh(cfg, now), ops);
    ChangesOnlyThroughTransition(cfg, s.b, op);
    if AsksForChange(cfg, s.b, op) {
      var (target, t) := Request(cfg, s.b, op).value;
      Landing(cfg, s.b, target, t, s.h.changes);
    }
  }

  // ---------------------------------------------------------------------------
  // Safety over runs
  // ---------------------------------------------------------------------------

  /** Apart from force_open, CLOSED is left exactly on the failureThreshold-th failure since the
      last success or close. */
  lemma ClosedLeftExactlyAtThreshold(cfg: Config, now: real, ops: seq<Op>, op: Op)
    requires Sane(cfg) && Timed(now, ops) && op.Ordered() && !op.ForceOpen?
    requires Run(cfg, Fresh(cfg, now), ops).h.now <= op.First()
    requires Run(cfg, Fresh(cfg, now), ops).b.state == Closed
    ensures var s := Run(cfg, Fresh(cfg, now), ops);
            Apply(cfg, s.b, op).state != Closed <==>
            op.RecordFailure? && s.h.failures + 1 == cfg.failureThreshold
  {
    FreshIsInv(cfg, now);
    RunKeepsInv(cfg, Fresh(cfg, now), ops);
  }

  /** Apart from reset and force_open, HALF_OPEN is left exactly on a failure or on the
      successThreshold-th success since it was asked for. */
  lemma HalfOpenLeftExactly(cfg: Config, now: real, ops: seq<Op>, op: Op)
    requires Sane(cfg) && Timed(now, ops) && op.Ordered() && !op.ForceOpen? && !op.Reset?
    requires Run(cfg, Fresh(cfg, now), ops).h.now <= op.First()
    requires Run(cfg, Fresh(cfg, now), ops).b.state == HalfOpen
    ensures var s := Run(cfg, Fresh(cfg, now), ops);
            Apply(cfg, s.b, op).state != HalfOpen <==>
            op.RecordFailure? || (op.RecordSuccess? && s.h.successes + 1 == cfg.successThreshold)
  {
    FreshIsInv(cfg, now);
    RunKeepsInv(cfg, Fresh(cfg, now), ops);
  }

  /** A request let through while the stored state is not CLOSED comes at least the recovery
      timeout after the latest failure, and twice that once the breaker has oscillated. */
  lemma AdmittedOnlyAfterRecovery(cfg: Config, now: real, ops: seq<Op>, op: Op)
    requires Sane(cfg) && Timed(now, ops) && op.Ordered()
    requires Run(cfg, Fresh(cfg, now), ops).h.now <= op.First()
    ensures var s := Run(cfg, Fresh(cfg, now), ops);
            Admits(cfg, s.b, op) && s.b.state != Closed && s.h.latestFailure.Some? ==>
              op.Last() >= s.h.latestFailure.value + s.h.Backoff(cfg)
  {
    FreshIsInv(cfg, now);
    RunKeepsInv(cfg, Fresh(cfg, now), ops);
  }

  /** Exactly when a request is let through, in every state. CLOSED admits everything and changes nothing.
      HALF_OPEN admits while probes are left. OPEN and STRESSED admit while probes are left once the
      timeout in force has passed since the latest failure or force_open, and also a request during
      which it passes, unless that was at clock value zero. */
  lemma AdmittedIff(cfg: Config, now: real, ops: seq<Op>, t1: real, t2: real, t3: real)
    requires Sane(cfg) && Timed(now, ops) && t1 <= t2 <= t3
    requires Run(cfg, Fresh(cfg, now), ops).h.now <= t1
    ensures var s, op := Run(cfg, Fresh(cfg, now), ops), AllowRequest(t1, t2, t3);
            match s.b.state
            case Closed => Admits(cfg, s.b, op) && Apply(cfg, s.b, op) == s.b
            case HalfOpen =>
              && (Admits(cfg, s.b, op) <==> s.h.admitted < cfg.halfOpenMax)
              && Apply(cfg, s.b, op) == s.b.(probes := s.h.admitted + if Admits(cfg, s.b, op) then 1 else 0)
            case _ =>
              && s.h.blocked.Some?
              && var over := s.h.blocked.value + s.h.Backoff(cfg);
                 Admits(cfg, s.b, op) <==>
                 if over <= t1 then s.h.admitted < cfg.halfOpenMax else over <= t2 && s.h.blocked != Some(0.0)
  {
    FreshIsInv(cfg, now);
    RunKeepsInv(cfg, Fresh(cfg, now), ops);
  }

  /** Between two zeroings of the probe counter at most halfOpenMax requests get through. */
  lemma ProbesAreBounded(cfg: Config, now: real, ops: seq<Op>)
    requires Sane(cfg) && Timed(now, ops)
    ensures Run(cfg, Fresh(cfg, now), ops).h.admitted <= cfg.halfOpenMax
  {
    FreshIsInv(cfg, now);
    RunKeepsInv(cfg, Fresh(cfg, now), ops);
  }

  // ---------------------------------------------------------------------------
  // Recovery, which the documentation promises after the timeout
  // ---------------------------------------------------------------------------

  // The timeout runs out between the two tests of one allow_request.
  predicate Straddles(b: Breaker, op: Op) {
    op.AllowRequest? && !Elapsed(b, op.t1) && SecondTest(b, op.t2)
  }

  /** allow_request on an open breaker stores a change exactly when the timeout runs out between its two
      clock reads, and then lands in HALF_OPEN unless that makes six changes inside the window;
      otherwise it leaves everything but the probe counter as it was. */
  lemma HalfOpenOnlyBetweenReads(cfg: Config, b: Breaker, t1: real, t2: real, t3: real)
    requires (b.state == Open || b.state == Stressed) && b.lastFailure.Some? && t1 <= t2 <= t3
    ensures var f := b.lastFailure.value;
            var (b', admitted) := Allow(cfg, b, t1, t2, t3);
            if f != 0.0 && t1 < f + b.timeout <= t2 then
              && Straddles(b, AllowRequest(t1, t2, t3)) && admitted && b'.successCount == 0 && b'.probes == 1
              && b'.state == if |Prune(b.times + [t3], t3 - cfg.Window())| > 5 then Stressed else HalfOpen
            else
              !Straddles(b, AllowRequest(t1, t2, t3)) &&
              b' == b.(probes := b'.probes) &&
              (admitted <==> t1 >= f + b.timeout && b.probes < cfg.halfOpenMax)
  {
  }

  function Replay(cfg: Config, b: Breaker, ops: seq<Op>): Breaker
    decreases |ops|
  {
    if ops == [] then b else Replay(cfg, Apply(cfg, b, ops[0]), ops[1..])
  }

  function Admissions(cfg: Config, b: Breaker, ops: seq<Op>): nat
    decreases |ops|
  {
    if ops == [] then 0
    else (if Admits(cfg, b, ops[0]) then 1 else 0) + Admissions(cfg, Apply(cfg, b, ops[0]), ops[1..])
  }

  // Nobody calls reset, and no timeout runs out between the two tests of one allow_request.
  predicate NeverStraddles(cfg: Config, b: Breaker, ops: seq<Op>)
    decreases |ops|
  {
    ops == [] ||
    (!ops[0].Reset? && !Straddles(b, ops[0]) && NeverStraddles(cfg, Apply(cfg, b, ops[0]), ops[1..]))
  }

  /** As long as no timeout runs out between two reads of one call, an open breaker never leaves OPEN or
      STRESSED, however many requests succeed, and it lets through at most halfOpenMax more. */
  lemma {:induction false} OpenUntilStraddled(cfg: Config, b: Breaker, ops: seq<Op>)
    requires b.state == Open || b.state == Stressed
    requires NeverStraddles(cfg, b, ops)
    ensures Replay(cfg, b, ops).state in {Open, Stressed}
    ensures Admissions(cfg, b, ops) <= if b.probes < cfg.halfOpenMax then cfg.halfOpenMax - b.probes else 0
    decreases |ops|
  {
    if ops != [] {
      OpenUntilStraddled(cfg, Apply(cfg, b, ops[0]), ops[1..]);
    }
  }

  // Both tests of every allow_request read the same clock value, and nobody calls reset.
  predicate OneClock(ops: seq<Op>) {
    forall k | 0 <= k < |ops| :: !ops[k].Reset? && (ops[k].AllowRequest? ==> ops[k].t1 == ops[k].t2)
  }

  lemma {:induction false} OneClockNeverStraddles(cfg: Config, b: Breaker, ops: seq<Op>)
    requires OneClock(ops)
    ensures NeverStraddles(cfg, b, ops)
    decreases |ops|
  {
    if ops != [] {
      assert OneClock(ops[1..]);
      OneClockNeverStraddles(cfg, Apply(cfg, b, ops[0]), ops[1..]);
    }
  }

  /** With a clock that stands still within each call an open breaker stays open for ever. */
  lemma OpenIsForeverOnOneClock(cfg: Config, b: Breaker, ops: seq<Op>)
    requires (b.state == Open || b.state == Stressed) && OneClock(ops)
    ensures Replay(cfg, b, ops).state in {Open, Stressed}
    ensures Admissions(cfg, b, ops) <= if b.probes < cfg.halfOpenMax then cfg.halfOpenMax - b.probes else 0
  {
    OneClockNeverStraddles(cfg, b, ops);
    OpenUntilStraddled(cfg, b, ops);
  }

  // A run of probes alone: requests and successes, each success that of a request let through
  // since and not yet answered.
  predicate ProbeRun(cfg: Config, b: Breaker, pending: nat, ops: seq<Op>)
    decreases |ops|
  {
    ops == [] ||
    (match ops[0]
     case AllowRequest(_, _, _) =>
       ProbeRun(cfg, Apply(cfg, b, ops[0]), pending + (if Admits(cfg, b, ops[0]) then 1 else 0), ops[1..])
     case RecordSuccess(_) =>
       pending > 0 && ProbeRun(cfg, Apply(cfg, b, ops[0]), pending - 1, ops[1..])
     case _ => false)
  }

  lemma {:induction false} ProbesCannotClose(cfg: Config, b: Breaker, pending: nat, ops: seq<Op>)
    requires b.state == HalfOpen && cfg.successThreshold > cfg.halfOpenMax
    requires b.successCount + pending <= b.probes <= cfg.halfOpenMax
    requires ProbeRun(cfg, b, pending, ops)
    ensures Replay(cfg, b, ops).state == HalfOpen
    decreases |ops|
  {
    if ops != [] {
      var b' := Apply(cfg, b, ops[0]);
      match ops[0]
      case AllowRequest(_, _, _) =>
        ProbesCannotClose(cfg, b', pending + (if Admits(cfg, b, ops[0]) then 1 else 0), ops[1..]);
      case RecordSuccess(_) => ProbesCannotClose(cfg, b', pending - 1, ops[1..]);
    }
  }

  // The quickest way out: answer the probe in flight, then send the next one.
  lemma {:induction false} ProbesCanClose(cfg: Config, b: Breaker) returns (ops: seq<Op>)
    requires b.state == HalfOpen && 0 <= b.successCount < cfg.successThreshold <= cfg.halfOpenMax
    requires b.probes == b.successCount + 1
    ensures ProbeRun(cfg, b, 1, ops)
    ensures Replay(cfg, b, ops).state != HalfOpen
    decreases cfg.successThreshold - b.successCount
  {
    var op := RecordSuccess(0.0);
    var b1 := Apply(cfg, b, op);
    if b.successCount + 1 == cfg.successThreshold {
      ops := [op];
      assert ops[1..] == [];
      assert Replay(cfg, b1, []) == b1 && ProbeRun(cfg, b1, 0, []);
    } else {
      var next := AllowRequest(0.0, 0.0, 0.0);
      var b2 := Apply(cfg, b1, next);
      var rest := ProbesCanClose(cfg, b2);
      ops := [op, next] + rest;
      assert ops[1..] == [next] + rest && ops[1..][1..] == rest;
      assert ProbeRun(cfg, b1, 0, ops[1..]);
      assert Replay(cfg, b1, ops[1..]) == Replay(cfg, b2, rest);
    }
  }

  /** From a HALF_OPEN state just entered, probes alone can end the trial exactly when the success
      threshold is within the number of probes allowed; with the defaults (2 and 1) they cannot. */
  lemma RecoveryNeedsEnoughProbes(cfg: Config, b: Breaker)
    requires Sane(cfg)
    requires b.state == HalfOpen && b.successCount == 0 && b.probes == 1
    ensures (exists ops :: ProbeRun(cfg, b, 1, ops) && Replay(cfg, b, ops).state != HalfOpen)
            <==> cfg.successThreshold <= cfg.halfOpenMax
  {
    if cfg.successThreshold <= cfg.halfOpenMax {
      var ops := ProbesCanClose(cfg, b);
    } else {
      forall ops | ProbeRun(cfg, b, 1, ops)
        ensures Replay(cfg, b, ops).state == HalfOpen
      {
        ProbesCannotClose(cfg, b, 1, ops);
      }
    }
  }
}
