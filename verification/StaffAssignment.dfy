/** Staff of one kitchen (StaffAssignmentEngine in the kitchen engine): a Redis list of available
    staff per role, and a busy key per assigned member that expires on its own. */
module StaffAssignment {

  import opened Prelude

  type StaffId = string
  type OrderId = string
  type Role = string

  type Pools = map<Role, seq<StaffId>>

  const BUSY_SECONDS := 1800

  datatype Busy = Busy(order: OrderId, expires: int)

  function Pool(pools: Pools, role: Role): seq<StaffId> {
    if role in pools then pools[role] else []
  }

  // RPUSH
  function Push(pools: Pools, role: Role, id: StaffId): Pools {
    pools[role := Pool(pools, role) + [id]]
  }

  // LPOP
  function Popped(pools: Pools, role: Role): Pools {
    if Pool(pools, role) == [] then pools else pools[role := Pool(pools, role)[1..]]
  }

  // Whether assign_staff goes on to SETEX: an empty id is popped and then ignored.
  predicate Marks(pools: Pools, role: Role, pop: Link) {
    pop.Answered? && Pool(pools, role) != [] && Pool(pools, role)[0] != ""
  }

  // An id that assign_staff really hands out.
  predicate Taken(pools: Pools, role: Role, pop: Link, mark: Link) {
    Marks(pools, role, pop) && mark.Answered?
  }

  // Each command is answered, lost on its way, or run with its reply lost.
  class StaffAssignmentEngine {
    var pools: Pools
    var busy: map<StaffId, Busy>

    method AssignStaff(order: OrderId, role: Role, now: int, pop: Link, mark: Link)
      returns (id: Option<StaffId>)
      modifies this
      ensures pools == if pop.LostRequest? then old(pools) else Popped(old(pools), role)
      ensures busy == if Marks(old(pools), role, pop) && !mark.LostRequest?
                      then old(busy)[Pool(old(pools), role)[0] := Busy(order, now + BUSY_SECONDS)]
                      else old(busy)
      ensures id == if Taken(old(pools), role, pop, mark) then Some(Pool(old(pools), role)[0]) else None
    {
      if pop.LostRequest? {
        return None;
      }
      var available := Pool(pools, role);
      if available == [] {
        return None;
      }
      var staffId := available[0];
      pools := pools[role := available[1..]];
      if pop.LostReply? || staffId == "" || mark.LostRequest? {
        return None;
      }
      busy := busy[staffId := Busy(order, now + BUSY_SECONDS)];
      if mark.LostReply? {
        return None;
      }
      return Some(staffId);
    }

    method ReleaseStaff(id: StaffId, role: Role, unmark: Link, push: Link) returns (released: bool)
      modifies this
      ensures released <==> unmark.Answered? && push.Answered?
      ensures busy == if unmark.LostRequest? then old(busy) else old(busy) - {id}
      ensures pools == if unmark.Answered? && !push.LostRequest? then Push(old(pools), role, id) else old(pools)
    {
      if unmark.LostRequest? {
        return false;
      }
      busy := busy - {id};
      if unmark.LostReply? || push.LostRequest? {
        return false;
      }
      pools := pools[role := Pool(pools, role) + [id]];
      return push.Answered?;
    }

    method RegisterStaff(id: StaffId, role: Role, push: Link) returns (registered: bool)
      modifies this`pools
      ensures registered <==> push.Answered?
      ensures pools == if push.LostRequest? then old(pools) else Push(old(pools), role, id)
    {
      if push.LostRequest? {
        return false;
      }
      pools := pools[role := Pool(pools, role) + [id]];
      return push.Answered?;
    }
  }

  // ---------------------------------------------------------------------------
  // Runs
  // ---------------------------------------------------------------------------

  datatype Assignment = Assignment(id: StaffId, order: OrderId)

  /** `held` lists the assignments handed out and not yet pushed back. The rest is history: who was
      registered, who was popped and not handed out, and what each pool took in and gave out. */
  datatype System = System(
    pools: Pools, busy: map<StaffId, Busy>, held: seq<Assignment>,
    registered: set<StaffId>, lost: set<StaffId>, pushed: Pools, served: Pools)

  datatype Step =
    | Assign(order: OrderId, role: Role, now: int, pop: Link, mark: Link)
    | Release(order: OrderId, id: StaffId, role: Role, unmark: Link, push: Link)
    | Register(id: StaffId, role: Role, push: Link)
    | BusyKeyExpires(id: StaffId)

  function Remove(held: seq<Assignment>, a: Assignment): seq<Assignment> {
    if held == [] then []
    else if held[0] == a then held[1..]
    else [held[0]] + Remove(held[1..], a)
  }

  function PushBack(s: System, role: Role, id: StaffId): System {
    s.(pools := Push(s.pools, role, id), pushed := Push(s.pushed, role, id))
  }

  function Next(s: System, step: Step): System {
    match step
    case Assign(order, role, now, pop, mark) =>
      if pop.LostRequest? || Pool(s.pools, role) == [] then s
      else
        var id := Pool(s.pools, role)[0];
        var s1 := s.(pools := Popped(s.pools, role), served := Push(s.served, role, id));
        var s2 :=
          if Marks(s.pools, role, pop) && !mark.LostRequest?
          then s1.(busy := s.busy[id := Busy(order, now + BUSY_SECONDS)]) else s1;
        if Taken(s.pools, role, pop, mark) then s2.(held := s.held + [Assignment(id, order)])
        else s2.(lost := s.lost + {id})
    case Release(order, id, role, unmark, push) =>
      if unmark.LostRequest? then s
      else
        var s1 := s.(busy := s.busy - {id});
        if unmark.LostReply? || push.LostRequest? then s1
        else PushBack(s1.(held := Remove(s.held, Assignment(id, order))), role, id)
    case Register(id, role, push) =>
      if push.LostRequest? then s else PushBack(s.(registered := s.registered + {id}), role, id)
    case BusyKeyExpires(id) => s.(busy := s.busy - {id})
  }

  // Each id is registered once and given back only by the order that holds it.
  predicate Proper(s: System, step: Step) {
    match step
    case Register(id, _, _) => id !in s.registered
    case Release(order, id, _, _, _) => Assignment(id, order) in s.held
    case _ => true
  }

  function Run(s: System, steps: seq<Step>): System
    decreases |steps|
  {
    if steps == [] then s else Run(Next(s, steps[0]), steps[1..])
  }

  predicate ProperRun(s: System, steps: seq<Step>)
    decreases |steps|
  {
    steps == [] || (Proper(s, steps[0]) && ProperRun(Next(s, steps[0]), steps[1..]))
  }

  const EMPTY := System(map[], map[], [], {}, {}, map[], map[])

  predicate Held(held: seq<Assignment>, id: StaffId) {
    exists a :: a in held && a.id == id
  }

  predicate Available(pools: Pools, id: StaffId) {
    exists role :: role in pools && id in pools[role]
  }

  ghost predicate NoDuplicates(pools: Pools) {
    && (forall role, i, j | role in pools && 0 <= i < j < |pools[role]| :: pools[role][i] != pools[role][j])
    && (forall r1, r2, id | r1 in pools && r2 in pools && id in pools[r1] && id in pools[r2] :: r1 == r2)
  }

  ghost predicate HeldOnce(held: seq<Assignment>) {
    forall i, j | 0 <= i < j < |held| :: held[i].id != held[j].id
  }

  // Every registered id is in exactly one place.
  ghost predicate Partition(s: System) {
    forall id ::
      && (id in s.registered <==> Available(s.pools, id) || Held(s.held, id) || id in s.lost)
      && !(Available(s.pools, id) && Held(s.held, id))
      && !(Available(s.pools, id) && id in s.lost)
      && !(Held(s.held, id) && id in s.lost)
  }

  // What a pool took in is what it gave out followed by what it still has.
  ghost predicate Fifo(s: System) {
    forall role :: Pool(s.pushed, role) == Pool(s.served, role) + Pool(s.pools, role)
  }

  // A busy key that is still there names the order its member is held for, unless the member was
  // marked by a SETEX whose reply was lost.
  ghost predicate BusyIsHeld(s: System) {
    forall id | id in s.busy :: Assignment(id, s.busy[id].order) in s.held || id in s.lost
  }

  ghost predicate Inv(s: System) {
    NoDuplicates(s.pools) && HeldOnce(s.held) && Partition(s) && Fifo(s) && BusyIsHeld(s)
  }

  lemma PushAvailable(pools: Pools, role: Role, id: StaffId, x: StaffId)
    ensures Available(Push(pools, role, id), x) <==> Available(pools, x) || x == id
  {
    var pools' := Push(pools, role, id);
    if Available(pools, x) {
      var r :| r in pools && x in pools[r];
      assert x in pools'[r];
    }
    assert pools'[role][|pools'[role]| - 1] == id;
  }

  lemma PushKeepsDistinct(pools: Pools, role: Role, id: StaffId)
    requires NoDuplicates(pools) && !Available(pools, id)
    ensures NoDuplicates(Push(pools, role, id))
  {
  }

  lemma PopAvailable(pools: Pools, role: Role, x: StaffId)
    requires NoDuplicates(pools) && Pool(pools, role) != []
    ensures NoDuplicates(Popped(pools, role))
    ensures Available(Popped(pools, role), x) <==> Available(pools, x) && x != Pool(pools, role)[0]
  {
    var pools' := Popped(pools, role);
    var all := pools[role];
    if Available(pools, x) && x != all[0] {
      var r :| r in pools && x in pools[r];
      assert all == [all[0]] + all[1..];
      assert x in pools'[r];
    }
  }

  lemma {:induction false} RemoveContents(held: seq<Assignment>, a: Assignment)
    requires HeldOnce(held)
    ensures HeldOnce(Remove(held, a))
    ensures forall b :: b in Remove(held, a) <==> b in held && b != a
  {
    if held != [] {
      assert held == [held[0]] + held[1..];
      if held[0] != a {
        RemoveContents(held[1..], a);
        var rest := Remove(held[1..], a);
        var r := [held[0]] + rest;
        forall i, j | 0 <= i < j < |r| ensures r[i].id != r[j].id {
          if i == 0 { assert r[j] in rest; }
        }
      }
    }
  }

  lemma RemoveHeld(held: seq<Assignment>, a: Assignment, x: StaffId)
    requires HeldOnce(held) && a in held
    ensures Held(Remove(held, a), x) <==> Held(held, x) && x != a.id
  {
  }

  lemma AppendHeld(held: seq<Assignment>, a: Assignment, x: StaffId)
    ensures Held(held + [a], x) <==> Held(held, x) || x == a.id
  {
  }

  lemma FifoPush(pushed: Pools, served: Pools, pools: Pools, role: Role, id: StaffId, r: Role)
    requires Pool(pushed, r) == Pool(served, r) + Pool(pools, r)
    ensures Pool(Push(pushed, role, id), r) == Pool(served, r) + Pool(Push(pools, role, id), r)
  {
  }

  lemma FifoPop(pushed: Pools, served: Pools, pools: Pools, role: Role, r: Role)
    requires Pool(pools, role) != [] && Pool(pushed, r) == Pool(served, r) + Pool(pools, r)
    ensures Pool(pushed, r) == Pool(Push(served, role, Pool(pools, role)[0]), r) + Pool(Popped(pools, role), r)
  {
  }

  lemma AssignKeepsInv(s: System, step: Step)
    requires Inv(s) && step.Assign?
    ensures Inv(Next(s, step))
  {
    var Assign(order, role, now, pop, mark) := step;
    if !pop.LostRequest? && Pool(s.pools, role) != [] {
      var s' := Next(s, step);
      var id := Pool(s.pools, role)[0];
      var a := Assignment(id, order);
      assert Available(s.pools, id);
      forall x
        ensures Available(s'.pools, x) <==> Available(s.pools, x) && x != id
        ensures Taken(s.pools, role, pop, mark) ==> (Held(s'.held, x) <==> Held(s.held, x) || x == id)
      {
        PopAvailable(s.pools, role, x);
        AppendHeld(s.held, a, x);
      }
      PopAvailable(s.pools, role, id);
      forall r ensures Pool(s'.pushed, r) == Pool(s'.served, r) + Pool(s'.pools, r) {
        FifoPop(s.pushed, s.served, s.pools, role, r);
      }
      if Taken(s.pools, role, pop, mark) {
        HeldOnceAppend(s.held, a);
      }
    }
  }

  lemma HeldOnceAppend(held: seq<Assignment>, a: Assignment)
    requires HeldOnce(held) && !Held(held, a.id)
    ensures HeldOnce(held + [a])
    ensures a in held + [a] && forall b | b in held :: b in held + [a]
  {
  }

  lemma PushKeepsInv(s: System, role: Role, id: StaffId)
    requires NoDuplicates(s.pools) && Fifo(s) && !Available(s.pools, id)
    ensures var s' := PushBack(s, role, id);
            && NoDuplicates(s'.pools) && Fifo(s')
            && (forall x :: Available(s'.pools, x) <==> Available(s.pools, x) || x == id)
  {
    PushKeepsDistinct(s.pools, role, id);
    var s' := PushBack(s, role, id);
    forall x ensures Available(s'.pools, x) <==> Available(s.pools, x) || x == id {
      PushAvailable(s.pools, role, id, x);
    }
    forall r ensures Pool(s'.pushed, r) == Pool(s'.served, r) + Pool(s'.pools, r) {
      FifoPush(s.pushed, s.served, s.pools, role, id, r);
    }
  }

  lemma ReleaseKeepsInv(s: System, step: Step)
    requires Inv(s) && Proper(s, step) && step.Release?
    ensures Inv(Next(s, step))
  {
    var Release(order, id, role, unmark, push) := step;
    if unmark.Answered? && !push.LostRequest? {
      var s' := Next(s, step);
      var a := Assignment(id, order);
      assert Held(s.held, id);
      PushKeepsInv(s, role, id);
      RemoveContents(s.held, a);
      forall x ensures Held(s'.held, x) <==> Held(s.held, x) && x != id {
        RemoveHeld(s.held, a, x);
      }
    }
  }

  lemma NextKeepsInv(s: System, step: Step)
    requires Inv(s) && Proper(s, step)
    ensures Inv(Next(s, step))
  {
    match step
    case Assign(_, _, _, _, _) => AssignKeepsInv(s, step);
    case Release(_, _, _, _, _) => ReleaseKeepsInv(s, step);
    case Register(id, role, push) => if !push.LostRequest? { PushKeepsInv(s, role, id); }
    case BusyKeyExpires(_) =>
  }

  lemma {:induction false} RunKeepsInv(s: System, steps: seq<Step>)
    requires Inv(s) && ProperRun(s, steps)
    ensures Inv(Run(s, steps))
    decreases |steps|
  {
    if steps != [] {
      NextKeepsInv(s, steps[0]);
      RunKeepsInv(Next(s, steps[0]), steps[1..]);
    }
  }

  /** No double booking, over any run, with Redis failing anywhere and busy keys expiring at any time:
      no member is held by two unreleased orders, none is both held and available, and no pool lists a
      member twice; every registered member is held, available or lost, and only one of these. */
  lemma NoDoubleBooking(steps: seq<Step>)
    requires ProperRun(EMPTY, steps)
    ensures var s := Run(EMPTY, steps);
            && (forall i, j | 0 <= i < j < |s.held| :: s.held[i].id != s.held[j].id)
            && NoDuplicates(s.pools)
            && Partition(s)
            && BusyIsHeld(s)
  {
    RunKeepsInv(EMPTY, steps);
  }

  /** Each pool serves first in, first out. */
  lemma PoolsAreFifo(steps: seq<Step>, role: Role)
    requires ProperRun(EMPTY, steps)
    ensures var s := Run(EMPTY, steps);
            Pool(s.pushed, role) == Pool(s.served, role) + Pool(s.pools, role)
  {
    RunKeepsInv(EMPTY, steps);
  }

  // ---------------------------------------------------------------------------
  // Replies that are lost
  // ---------------------------------------------------------------------------

  // A member is popped and not handed out.
  predicate Loses(s: System, step: Step) {
    && step.Assign? && !step.pop.LostRequest? && Pool(s.pools, step.role) != []
    && !Taken(s.pools, step.role, step.pop, step.mark)
  }

  predicate NeverLoses(s: System, steps: seq<Step>)
    decreases |steps|
  {
    steps == [] || (!Loses(s, steps[0]) && NeverLoses(Next(s, steps[0]), steps[1..]))
  }

  lemma {:induction false} LostOnlyGrows(s: System, steps: seq<Step>)
    ensures s.lost <= Run(s, steps).lost
    decreases |steps|
  {
    if steps != [] { LostOnlyGrows(Next(s, steps[0]), steps[1..]); }
  }

  lemma {:induction false} LostIff(s: System, steps: seq<Step>)
    ensures Run(s, steps).lost == {} <==> s.lost == {} && NeverLoses(s, steps)
    decreases |steps|
  {
    if steps != [] {
      LostIff(Next(s, steps[0]), steps[1..]);
    }
  }

  /** A call whose commands are both answered hands out the head of a nonempty pool, and nobody else: the
      member leaves the pool, is held for this order and is marked busy for half an hour. */
  lemma HeadIsHandedOut(s: System, order: OrderId, role: Role, now: int)
    requires role in s.pools && s.pools[role] != [] && s.pools[role][0] != ""
    ensures var s', id := Next(s, Assign(order, role, now, Answered, Answered)), s.pools[role][0];
            && s'.held == s.held + [Assignment(id, order)]
            && s'.pools == s.pools[role := s.pools[role][1..]]
            && s'.busy == s.busy[id := Busy(order, now + 1800)]
            && s'.lost == s.lost
  {
  }

  /** A release that is answered puts the member at the end of the pool, and nobody holds it any more. */
  lemma ReleasedIsAvailable(s: System, order: OrderId, id: StaffId, role: Role)
    requires Inv(s) && Assignment(id, order) in s.held
    ensures var s' := Next(s, Release(order, id, role, Answered, Answered));
            && role in s'.pools && s'.pools[role] != [] && s'.pools[role][|s'.pools[role]| - 1] == id
            && !Held(s'.held, id) && id !in s'.busy
  {
    RemoveHeld(s.held, Assignment(id, order), id);
  }

  /** A member that is popped while the call fails, before or after it is marked busy, is never available
      or held again. */
  lemma LostForGood(s: System, step: Step, later: seq<Step>)
    requires Inv(s) && Loses(s, step) && ProperRun(Next(s, step), later)
    ensures var id := Pool(s.pools, step.role)[0];
            var s' := Run(Next(s, step), later);
            id in s'.registered && !Available(s'.pools, id) && !Held(s'.held, id)
  {
    var s1 := Next(s, step);
    NextKeepsInv(s, step);
    RunKeepsInv(s1, later);
    LostOnlyGrows(s1, later);
    var id := Pool(s.pools, step.role)[0];
    assert id in s1.lost;
    assert id in Run(s1, later).lost;
  }

  /** Over any run, every registered member is available or held exactly when no call popped a member
      that it did not hand out. */
  lemma NobodyLostIff(steps: seq<Step>)
    requires ProperRun(EMPTY, steps)
    ensures var s := Run(EMPTY, steps);
            (forall id :: id in s.registered <==> Available(s.pools, id) || Held(s.held, id))
            <==> NeverLoses(EMPTY, steps)
  {
    RunKeepsInv(EMPTY, steps);
    LostIff(EMPTY, steps);
    var s := Run(EMPTY, steps);
    if s.lost != {} {
      var id := SomeElement(s.lost);
      assert id in s.registered && !(Available(s.pools, id) || Held(s.held, id));
    }
  }

  lemma Twice(pools: Pools, role: Role, id: StaffId)
    ensures !NoDuplicates(Push(Push(pools, role, id), role, id))
  {
    var pool := Pool(pools, role);
    var twice := Push(Push(pools, role, id), role, id)[role];
    assert twice[|pool|] == twice[|pool| + 1];
  }

  /** A release that answers False may be repeated exactly when its RPUSH did not run: otherwise the
      member is already in the pool, which would list it twice. */
  lemma RepeatedReleaseIsSafeIff(s: System, order: OrderId, id: StaffId, role: Role, unmark: Link, push: Link)
    requires Inv(s) && Assignment(id, order) in s.held
    ensures var again := Release(order, id, role, Answered, Answered);
            NoDuplicates(Next(Next(s, Release(order, id, role, unmark, push)), again).pools) <==>
            !unmark.Answered? || push.LostRequest?
  {
    assert Held(s.held, id);
    if unmark.Answered? && !push.LostRequest? {
      Twice(s.pools, role, id);
    } else {
      PushKeepsDistinct(s.pools, role, id);
    }
  }

  /** So may a registration. */
  lemma RepeatedRegistrationIsSafeIff(s: System, id: StaffId, role: Role, push: Link)
    requires Inv(s) && id !in s.registered
    ensures NoDuplicates(Next(Next(s, Register(id, role, push)), Register(id, role, Answered)).pools) <==>
            push.LostRequest?
  {
    if push.LostRequest? {
      PushKeepsDistinct(s.pools, role, id);
    } else {
      Twice(s.pools, role, id);
    }
  }
}
