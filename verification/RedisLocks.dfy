/** Distributed locks on Redis keys with expiry (shared/utils/redis_client.py): SET NX EX to
    acquire, and two scripts that release or extend only for the value that is stored. */
module RedisLocks {

  import opened Prelude

  datatype Entry = Entry(value: string, expires: int)

  type Store = map<string, Entry>

  // GET: a key whose time is up is gone.
  function Get(store: Store, now: int, key: string): Option<string> {
    if key in store && now < store[key].expires then Some(store[key].value) else None
  }

  // SET key value NX EX ttl; Redis refuses a ttl that is not positive.
  function SetNxEx(store: Store, now: int, key: string, value: string, ttl: int): (Store, bool) {
    if ttl > 0 && Get(store, now, key).None? then (store[key := Entry(value, now + ttl)], true)
    else (store, false)
  }

  function ReleaseScript(store: Store, now: int, key: string, value: string): (Store, bool) {
    if Get(store, now, key) == Some(value) then (store - {key}, true) else (store, false)
  }

  // EXPIRE counts from now and replaces what was left; a ttl that is not positive deletes the key.
  function ExtendScript(store: Store, now: int, key: string, value: string, ttl: int): (Store, bool) {
    if Get(store, now, key) == Some(value) then
      (if ttl > 0 then store[key := Entry(value, now + ttl)] else store - {key}, true)
    else (store, false)
  }

  // A command's effect and the answer its caller gets; without a reply the answer is False.
  function Send(link: Link, store: Store, ran: (Store, bool)): (Store, bool) {
    match link
    case Answered => ran
    case LostRequest => (store, false)
    case LostReply => (ran.0, false)
  }

  class RedisClient {
    var store: Store
    var now: int
    var connected: bool

    // The name under which a lock is kept.
    static function LockKey(key: string): string { "lock:" + key }

    method AcquireDistributedLock(
      key: string, value: Option<string>, generated: string, ttl: int, breakerAllows: bool, link: Link)
      returns (acquired: bool)
      modifies this`store
      ensures var owner := if value.Some? && value.value != "" then value.value else generated;
              (store, acquired) ==
              if breakerAllows && connected
              then Send(link, old(store), SetNxEx(old(store), now, LockKey(key), owner, ttl))
              else (old(store), false)
    {
      if !breakerAllows {
        return false;
      }
      if !connected {
        return false;
      }
      var lockValue := generated;
      if value.Some? && value.value != "" {
        lockValue := value.value;
      }
      if link == LostRequest || ttl <= 0 {
        return false;
      }
      if Get(store, now, LockKey(key)).None? {
        store := store[LockKey(key) := Entry(lockValue, now + ttl)];
        acquired := link == Answered;
      } else {
        acquired := false;
      }
    }

    method ReleaseDistributedLock(key: string, value: string, link: Link) returns (released: bool)
      modifies this`store
      ensures (store, released) ==
              if connected
              then Send(link, old(store), ReleaseScript(old(store), now, LockKey(key), value))
              else (old(store), false)
    {
      if !connected || link == LostRequest {
        return false;
      }
      released := false;
      if Get(store, now, LockKey(key)) == Some(value) {
        store := store - {LockKey(key)};
        released := link == Answered;
      }
    }

    method ExtendDistributedLock(key: string, value: string, additionalTtl: int, link: Link)
      returns (extended: bool)
      modifies this`store
      ensures (store, extended) ==
              if connected
              then Send(link, old(store), ExtendScript(old(store), now, LockKey(key), value, additionalTtl))
              else (old(store), false)
    {
      if !connected || link == LostRequest {
        return false;
      }
      extended := false;
      if Get(store, now, LockKey(key)) == Some(value) {
        if additionalTtl > 0 {
          store := store[LockKey(key) := Entry(value, now + additionalTtl)];
        } else {
          store := store - {LockKey(key)};
        }
        extended := link == Answered;
      }
    }
  }

  // Each lock has a key of its own.
  lemma LockKeysDiffer(a: string, b: string)
    ensures RedisClient.LockKey(a) == RedisClient.LockKey(b) <==> a == b
  {
    assert RedisClient.LockKey(a)[5..] == a && RedisClient.LockKey(b)[5..] == b;
  }

  // ---------------------------------------------------------------------------
  // Owners with distinct values, interleaved
  // ---------------------------------------------------------------------------

  // An owner is named by its value. `granted` is what the owners believe: the deadline each was
  // last granted on a key, dropped when it calls release.
  datatype System = System(store: Store, now: int, granted: map<(string, string), int>)

  datatype Step =
    | Acquire(owner: string, key: string, ttl: int, link: Link)
    | Release(owner: string, key: string, link: Link)
    | Extend(owner: string, key: string, ttl: int, link: Link)
    | Tick(seconds: nat)

  function Next(s: System, step: Step): System {
    match step
    case Acquire(o, k, ttl, link) =>
      var (store, ok) := Send(link, s.store, SetNxEx(s.store, s.now, k, o, ttl));
      System(store, s.now, if ok then s.granted[(k, o) := s.now + ttl] else s.granted)
    case Release(o, k, link) =>
      var (store, ok) := Send(link, s.store, ReleaseScript(s.store, s.now, k, o));
      System(store, s.now, s.granted - {(k, o)})
    case Extend(o, k, ttl, link) =>
      var (store, ok) := Send(link, s.store, ExtendScript(s.store, s.now, k, o, ttl));
      System(store, s.now, if ok then s.granted[(k, o) := s.now + ttl] else s.granted)
    case Tick(seconds) => s.(now := s.now + seconds)
  }

  function Run(s: System, steps: seq<Step>): System
    decreases |steps|
  {
    if steps == [] then s else Run(Next(s, steps[0]), steps[1..])
  }

  // Until it expires, the entry of an owner stays as it is.
  predicate Kept(s: System, key: string, e: Entry) {
    s.now < e.expires ==> key in s.store && s.store[key] == e
  }

  lemma OthersKeepIt(s: System, step: Step, key: string, e: Entry)
    requires Kept(s, key, e) && (step.Tick? || step.owner != e.value)
    ensures Kept(Next(s, step), key, e)
  {
  }

  /** Only the stored value acts: while the owner of a lock takes no step, no run of steps by others, under
      whatever values and with requests and replies lost, removes, extends or changes its entry before
      it expires, and nobody acquires the lock before then. */
  lemma {:induction false} OnlyTheStoredValueActs(s: System, steps: seq<Step>, key: string, e: Entry)
    requires Kept(s, key, e)
    requires forall i | 0 <= i < |steps| :: steps[i].Tick? || steps[i].owner != e.value
    ensures Kept(Run(s, steps), key, e)
    ensures var s' := Run(s, steps);
            forall other, ttl :: SetNxEx(s'.store, s'.now, key, other, ttl).1 ==> s'.now >= e.expires
    decreases |steps|
  {
    if steps != [] {
      OthersKeepIt(s, steps[0], key, e);
      OnlyTheStoredValueActs(Next(s, steps[0]), steps[1..], key, e);
    }
  }

  // ---------------------------------------------------------------------------
  // When a lock is free
  // ---------------------------------------------------------------------------

  // A lock that Redis gave, whether or not its owner heard of it.
  datatype Grant = Grant(key: string, owner: string, until: int)

  function Ended(grants: set<Grant>, key: string, owner: string): set<Grant> {
    set g | g in grants && !(g.key == key && g.owner == owner)
  }

  predicate Live(grants: set<Grant>, now: int, key: string, owner: string) {
    exists g :: g in grants && g.key == key && g.owner == owner && now < g.until
  }

  predicate Taken(grants: set<Grant>, now: int, key: string) {
    exists g :: g in grants && g.key == key && now < g.until
  }

  // What an observer of the commands that reach Redis knows: an acquire of a lock that nobody has
  // grants it, and its owner's extension grants it anew and release ends it.
  function Observe(grants: set<Grant>, now: int, step: Step): set<Grant> {
    if step.Tick? || step.link.LostRequest? then grants
    else
      match step
      case Acquire(o, k, ttl, _) =>
        if ttl > 0 && !Taken(grants, now, k) then grants + {Grant(k, o, now + ttl)} else grants
      case Release(o, k, _) => if Live(grants, now, k, o) then Ended(grants, k, o) else grants
      case Extend(o, k, ttl, _) =>
        if Live(grants, now, k, o) then
          Ended(grants, k, o) + (if ttl > 0 then {Grant(k, o, now + ttl)} else {})
        else grants
  }

  function ObserveRun(s: System, grants: set<Grant>, steps: seq<Step>): set<Grant>
    decreases |steps|
  {
    if steps == [] then grants
    else ObserveRun(Next(s, steps[0]), Observe(grants, s.now, steps[0]), steps[1..])
  }

  // The live entries are the live grants.
  ghost predicate Matches(s: System, grants: set<Grant>) {
    && (forall g | g in grants && s.now < g.until ::
          g.key in s.store && s.store[g.key] == Entry(g.owner, g.until))
    && (forall k | k in s.store && s.now < s.store[k].expires ::
          Grant(k, s.store[k].value, s.store[k].expires) in grants)
  }

  lemma MatchesGet(s: System, grants: set<Grant>, key: string, owner: string)
    requires Matches(s, grants)
    ensures Get(s.store, s.now, key).Some? <==> Taken(grants, s.now, key)
    ensures Get(s.store, s.now, key) == Some(owner) <==> Live(grants, s.now, key, owner)
  {
    if key in s.store && s.now < s.store[key].expires {
      assert Grant(key, s.store[key].value, s.store[key].expires) in grants;
    }
  }

  lemma NextMatches(s: System, grants: set<Grant>, step: Step)
    requires Matches(s, grants)
    ensures Matches(Next(s, step), Observe(grants, s.now, step))
  {
    if !step.Tick? { MatchesGet(s, grants, step.key, step.owner); }
  }

  lemma {:induction false} RunMatches(s: System, grants: set<Grant>, steps: seq<Step>)
    requires Matches(s, grants)
    ensures Matches(Run(s, steps), ObserveRun(s, grants, steps))
    decreases |steps|
  {
    if steps != [] {
      NextMatches(s, grants, steps[0]);
      RunMatches(Next(s, steps[0]), Observe(grants, s.now, steps[0]), steps[1..]);
    }
  }

  /** After any run, with requests and replies lost anywhere, an answered acquire succeeds exactly when
      every grant on the key was released or has run out; an answered release or extension succeeds
      exactly for the owner of one that has not. What succeeds counts from now on. */
  lemma AnsweredIff(steps: seq<Step>, start: int, key: string, owner: string, ttl: int)
    ensures var s := Run(System(map[], start, map[]), steps);
            var grants := ObserveRun(System(map[], start, map[]), {}, steps);
            var acquired := SetNxEx(s.store, s.now, key, owner, ttl);
            var extended := ExtendScript(s.store, s.now, key, owner, ttl);
            && (acquired.1 <==> ttl > 0 && !Taken(grants, s.now, key))
            && (ReleaseScript(s.store, s.now, key, owner).1 <==> Live(grants, s.now, key, owner))
            && (extended.1 <==> Live(grants, s.now, key, owner))
            && (acquired.1 ==> acquired.0[key] == Entry(owner, s.now + ttl))
            && (extended.1 && ttl > 0 ==> extended.0[key] == Entry(owner, s.now + ttl))
  {
    RunMatches(System(map[], start, map[]), {}, steps);
    MatchesGet(Run(System(map[], start, map[]), steps), ObserveRun(System(map[], start, map[]), {}, steps), key, owner);
  }

  predicate Active(s: System, owner: string, key: string) {
    (key, owner) in s.granted && s.now < s.granted[(key, owner)]
  }

  ghost predicate Exclusive(s: System) {
    forall k, a, b | Active(s, a, k) && Active(s, b, k) :: a == b
  }

  // An extension whose reply is lost does not end before the deadline its owner goes on trusting.
  predicate Careful(s: System, step: Step) {
    step.Extend? && step.link == LostReply && Active(s, step.owner, step.key) ==>
      s.now + step.ttl >= s.granted[(step.key, step.owner)]
  }

  predicate CarefulRun(s: System, steps: seq<Step>)
    decreases |steps|
  {
    steps == [] || (Careful(s, steps[0]) && CarefulRun(Next(s, steps[0]), steps[1..]))
  }

  // Redis keeps every lock at least as long as its owner trusts it.
  ghost predicate Inv(s: System) {
    forall k, o | Active(s, o, k) ::
      k in s.store && s.store[k].value == o && s.granted[(k, o)] <= s.store[k].expires
  }

  lemma NextKeepsInv(s: System, step: Step)
    requires Inv(s) && Careful(s, step)
    ensures Inv(Next(s, step))
  {
    var s' := Next(s, step);
    forall k, o | Active(s', o, k)
      ensures k in s'.store && s'.store[k].value == o && s'.granted[(k, o)] <= s'.store[k].expires
    {
      if (k, o) in s.granted && s'.granted[(k, o)] == s.granted[(k, o)] {
        assert Active(s, o, k);
      }
    }
  }

  lemma {:induction false} RunKeepsInv(s: System, steps: seq<Step>)
    requires Inv(s) && CarefulRun(s, steps)
    ensures Inv(Run(s, steps))
    decreases |steps|
  {
    if steps != [] {
      NextKeepsInv(s, steps[0]);
      RunKeepsInv(Next(s, steps[0]), steps[1..]);
    }
  }

  /** Mutual exclusion: over any interleaving of acquire, release, extend and time passing, with
      requests and replies lost anywhere, no two owners are active on one key. */
  lemma MutualExclusion(steps: seq<Step>, now: int)
    requires CarefulRun(System(map[], now, map[]), steps)
    ensures Exclusive(Run(System(map[], now, map[]), steps))
  {
    RunKeepsInv(System(map[], now, map[]), steps);
  }

  /** A release by the active owner frees the lock at once: anybody's next acquire succeeds. */
  lemma FreeAfterRelease(s: System, owner: string, key: string, next: string, ttl: int)
    requires Inv(s) && Active(s, owner, key) && ttl > 0
    ensures var s1 := Next(s, Release(owner, key, Answered));
            var s2 := Next(s1, Acquire(next, key, ttl, Answered));
            !Active(s1, owner, key) && Active(s2, next, key)
  {
  }

  lemma StolenAfterLostReply(s: System, owner: string, thief: string, key: string, ttl: int)
    returns (steps: seq<Step>)
    requires Inv(s) && Active(s, owner, key) && thief != owner
    requires s.now + ttl < s.granted[(key, owner)]
    ensures var s' := Next(s, Extend(owner, key, ttl, LostReply));
            CarefulRun(s', steps) && Active(Run(s', steps), owner, key) && Active(Run(s', steps), thief, key)
  {
    var wait: nat := if ttl > 0 then ttl else 0;
    var s' := Next(s, Extend(owner, key, ttl, LostReply));
    var a, b := Tick(wait), Acquire(thief, key, 1, Answered);
    steps := [a, b];
    var s1 := Next(s', a);
    var s2 := Next(s1, b);
    assert steps[1..] == [b] && [b][1..] == [];
    assert Run(s2, []) == s2;
    assert Run(s1, [b]) == s2;
    assert CarefulRun(s2, []) && CarefulRun(s1, [b]);
  }

  /** An extension whose reply is lost leaves exclusion safe for ever after exactly when it does
      not end before the deadline already granted: the script replaces the time left. */
  lemma LostExtensionIsSafeIff(s: System, owner: string, key: string, ttl: int)
    requires Inv(s) && Active(s, owner, key)
    ensures (forall steps | CarefulRun(Next(s, Extend(owner, key, ttl, LostReply)), steps) ::
               Exclusive(Run(Next(s, Extend(owner, key, ttl, LostReply)), steps)))
            <==> s.now + ttl >= s.granted[(key, owner)]
  {
    var step := Extend(owner, key, ttl, LostReply);
    if s.now + ttl >= s.granted[(key, owner)] {
      NextKeepsInv(s, step);
      forall steps | CarefulRun(Next(s, step), steps)
        ensures Exclusive(Run(Next(s, step), steps))
      {
        RunKeepsInv(Next(s, step), steps);
      }
    } else {
      var thief := owner + "'";
      var steps := StolenAfterLostReply(s, owner, thief, key, ttl);
      assert !Exclusive(Run(Next(s, step), steps));
    }
  }
}
