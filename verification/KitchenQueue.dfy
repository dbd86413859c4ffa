/** The three Redis sorted sets of a kitchen (QueueManager in the kitchen engine) and set_priority,
    which keeps them beside the database rows they speed up. */
module KitchenQueues {

  import opened Prelude
  import opened PriorityScores
  import ReorderQueues

  /** An order id as it is written: the UUID it stands for, which finds the row, and its spelling. The
      sorted sets compare what is written. */
  datatype OrderId = OrderId(uuid: int, spelling: int)
  {
    predicate Before(other: OrderId) {
      uuid < other.uuid || (uuid == other.uuid && spelling < other.spelling)
    }
  }

  /** A member of a sorted set: the encoded order id, score and time, under that same score. */
  datatype Member = Member(order: OrderId, score: real, stamp: real)

  // Redis sorts by score and, for equal scores, by the member itself.
  predicate Less(a: Member, b: Member) {
    a.score < b.score ||
    (a.score == b.score && (a.order.Before(b.order) || (a.order == b.order && a.stamp < b.stamp)))
  }

  // A sorted set, lowest first.
  type SortedSet = seq<Member>

  ghost predicate Ascending(z: SortedSet) {
    forall i, j | 0 <= i < j < |z| :: Less(z[i], z[j])
  }

  // ZADD
  function Add(z: SortedSet, m: Member): SortedSet {
    if z == [] || Less(m, z[0]) then [m] + z
    else if m == z[0] then z
    else [z[0]] + Add(z[1..], m)
  }

  // The place of the first member of an order, or |z|.
  function Find(z: SortedSet, order: OrderId): (i: nat)
    ensures i <= |z|
    ensures forall k | 0 <= k < i :: z[k].order != order
    ensures i < |z| ==> z[i].order == order
  {
    if z == [] || z[0].order == order then 0 else 1 + Find(z[1..], order)
  }

  // Where a member stands.
  function Place(z: SortedSet, m: Member): (i: nat)
    requires m in z
    ensures i < |z| && z[i] == m
  {
    if z[0] == m then 0 else 1 + Place(z[1..], m)
  }

  function Without(z: SortedSet, i: nat): SortedSet
    requires i < |z|
  {
    z[..i] + z[i + 1..]
  }

  function Drop(z: SortedSet, order: OrderId): SortedSet {
    var i := Find(z, order);
    if i < |z| then Without(z, i) else z
  }

  datatype Queues = Queues(immediate: SortedSet, normal: SortedSet, batch: SortedSet)
  {
    function Of(q: QueueType): SortedSet {
      match q case Immediate => immediate case Normal => normal case Batch => batch
    }
    function With(q: QueueType, z: SortedSet): Queues {
      match q
      case Immediate => this.(immediate := z)
      case Normal => this.(normal := z)
      case Batch => this.(batch := z)
    }
  }

  // What get_queue lists for one member.
  datatype Item = Item(order: OrderId, score: real, queueType: QueueType)

  // ZREVRANGE, labelled with its queue.
  function Listed(z: SortedSet, q: QueueType): (items: seq<Item>)
    ensures |items| == |z|
    ensures forall i | 0 <= i < |z| ::
              var m := z[|z| - 1 - i]; items[i] == Item(m.order, m.score, q)
  {
    if z == [] then []
    else
      var m := z[|z| - 1];
      [Item(m.order, m.score, q)] + Listed(z[..|z| - 1], q)
  }

  // What get_queue shows of one set: nothing when its read fails.
  function Shown(qs: Queues, q: QueueType, read: set<QueueType>): seq<Item> {
    if q in read then Listed(qs.Of(q), q) else []
  }

  function Listing(qs: Queues, read: set<QueueType>): seq<Item> {
    Shown(qs, Immediate, read) + Shown(qs, Normal, read) + Shown(qs, Batch, read)
  }

  class QueueManager {
    var queues: Queues

    // enqueue, by ZADD and ZREVRANK: the position counts from the highest score, and is -1 unless
    // both are answered.
    method Enqueue(order: OrderId, q: QueueType, score: real, stamp: real, add: Link, rank: Link)
      returns (position: int)
      modifies this`queues
      ensures var z := Add(old(queues).Of(q), Member(order, score, stamp));
              && queues == (if add.LostRequest? then old(queues) else old(queues).With(q, z))
              && if add.Answered? && rank.Answered?
                 then 1 <= position <= |z| && z[|z| - position] == Member(order, score, stamp)
                 else position == -1
    {
      if add.LostRequest? {
        return -1;
      }
      var member := Member(order, score, stamp);
      var z := Add(queues.Of(q), member);
      AddContains(queues.Of(q), member);
      queues := queues.With(q, z);
      if !add.Answered? || !rank.Answered? {
        return -1;
      }
      position := |z| - Place(z, member);
    }

    // dequeue, by ZRANGE and ZREM: a search for the first member of the order, which is removed.
    method Dequeue(order: OrderId, q: QueueType, range: Link, remove: Link) returns (removed: bool)
      modifies this`queues
      ensures var z := old(queues).Of(q);
              && queues == (if range.Answered? && !remove.LostRequest?
                            then old(queues).With(q, Drop(z, order)) else old(queues))
              && (removed <==> range.Answered? && remove.Answered? && exists m :: m in z && m.order == order)
    {
      if !range.Answered? {
        return false;
      }
      var members := queues.Of(q);
      var i := 0;
      while i < |members|
        invariant 0 <= i <= |members|
        invariant forall k | 0 <= k < i :: members[k].order != order
      {
        if members[i].order == order {
          FindIs(members, order, i);
          if remove.LostRequest? {
            return false;
          }
          queues := queues.With(q, Without(members, i));
          return remove.Answered?;
        }
        i := i + 1;
      }
      FindIs(members, order, |members|);
      removed := false;
    }

    // get_queue: the three sets one after the other, each from its highest score down; a set whose
    // read fails is passed over.
    method GetQueue(read: set<QueueType>) returns (result: seq<Item>)
      ensures result == Listing(queues, read)
    {
      result := [];
      var types := [Immediate, Normal, Batch];
      for t := 0 to 3
        invariant t == 0 ==> result == []
        invariant t == 1 ==> result == Shown(queues, Immediate, read)
        invariant t == 2 ==> result == Shown(queues, Immediate, read) + Shown(queues, Normal, read)
        invariant t == 3 ==> result == Listing(queues, read)
      {
        if types[t] in read {
          var part := List(queues.Of(types[t]), types[t]);
          result := result + part;
        }
      }
    }

    method List(z: SortedSet, q: QueueType) returns (part: seq<Item>)
      ensures part == Listed(z, q)
    {
      part := [];
      for i := 0 to |z|
        invariant part == Listed(z, q)[..i]
      {
        var m := z[|z| - 1 - i];
        part := part + [Item(m.order, m.score, q)];
      }
    }
  }

  lemma {:induction false} FindIs(z: SortedSet, order: OrderId, i: nat)
    requires i <= |z| && (forall k | 0 <= k < i :: z[k].order != order)
    requires i < |z| ==> z[i].order == order
    ensures Find(z, order) == i
  {
  }

  lemma {:induction false} AddContains(z: SortedSet, m: Member)
    ensures forall x :: x in Add(z, m) <==> x in z || x == m
  {
    if z != [] && !Less(m, z[0]) && m != z[0] {
      AddContains(z[1..], m);
      assert z == [z[0]] + z[1..];
    }
  }

  lemma {:induction false} AddKeepsOrder(z: SortedSet, m: Member)
    requires Ascending(z)
    ensures Ascending(Add(z, m))
  {
    if z == [] {
    } else if Less(m, z[0]) {
      var r := [m] + z;
      forall i, j | 0 <= i < j < |r| ensures Less(r[i], r[j]) {
        if i == 0 && j > 1 { assert Less(z[0], z[j - 1]); }
      }
    } else if m != z[0] {
      AddKeepsOrder(z[1..], m);
      AddContains(z[1..], m);
      var r := [z[0]] + Add(z[1..], m);
      forall i, j | 0 <= i < j < |r| ensures Less(r[i], r[j]) {
        if i == 0 { assert r[j] in Add(z[1..], m); }
      }
    }
  }

  // ---------------------------------------------------------------------------
  // set_priority on the rows and the sets
  // ---------------------------------------------------------------------------

  datatype Entry = Entry(
    score: real, queueType: QueueType, boost: real, enqueuedAt: Option<real>, batch: Option<string>,
    queued: bool)   // QUEUED, as against IN_PREP

  // How the four commands of one set_priority fare.
  datatype Net = Net(range: Link, remove: Link, add: Link, rank: Link)
  {
    predicate Removes() { range.Answered? && !remove.LostRequest? }
    predicate Adds() { !add.LostRequest? }
  }

  datatype Request = Request(
    order: OrderId, score: Option<real>, boost: Option<real>, tier: string,
    delayRisk: Option<real>, proximity: Option<real>, now: real, stamp: real, net: Net)

  // The explicit score, or one computed from the factors given and the row's own.
  function RequestedScore(e: Entry, r: Request): real {
    if r.score.Some? then r.score.value
    else
      Calculate(Factors(
        if r.tier != "" then r.tier else "FREE",
        if r.proximity.Some? then r.proximity.value else 0.0,
        if r.delayRisk.Some? then r.delayRisk.value else 0.0,
        ReorderQueues.AgeSeconds(e.enqueuedAt, r.now), e.batch, None,
        if r.boost.Some? then r.boost.value else e.boost))
  }

  datatype State = State(db: map<int, Entry>, queues: Queues)

  function Updated(e: Entry, r: Request): Entry {
    var score := RequestedScore(e, r);
    Entry(score, DetermineQueueType(score), if r.boost.Some? then r.boost.value else e.boost,
          e.enqueuedAt, e.batch, e.queued)
  }

  function Prioritized(s: State, r: Request): State {
    if r.order.uuid !in s.db then s
    else
      var e := s.db[r.order.uuid];
      var e' := Updated(e, r);
      var dropped :=
        if r.net.Removes() then s.queues.With(e.queueType, Drop(s.queues.Of(e.queueType), r.order)) else s.queues;
      State(s.db[r.order.uuid := e'],
            if r.net.Adds()
            then dropped.With(e'.queueType, Add(dropped.Of(e'.queueType), Member(r.order, e'.score, r.stamp)))
            else dropped)
  }

  class Kitchen {
    var db: map<int, Entry>
    const manager: QueueManager

    constructor (db: map<int, Entry>)
      ensures this.db == db && fresh(manager)
      ensures manager.queues == Queues([], [], [])
    {
      this.db := db;
      manager := new QueueManager;
      new;
      manager.queues := Queues([], [], []);
    }

    // False is the route's 404. The row is committed first; the sets follow as far as Redis answers.
    method SetPriority(r: Request) returns (found: bool)
      modifies this, manager`queues
      ensures found <==> r.order.uuid in old(db)
      ensures State(db, manager.queues) == Prioritized(State(old(db), old(manager.queues)), r)
    {
      if r.order.uuid !in db {
        return false;
      }
      var entry := db[r.order.uuid];
      var newScore := RequestedScore(entry, r);
      var newType := DetermineQueueType(newScore);
      var oldType := entry.queueType;
      entry := entry.(score := newScore, queueType := newType);
      if r.boost.Some? {
        entry := entry.(boost := r.boost.value);
      }
      db := db[r.order.uuid := entry];
      var removed := manager.Dequeue(r.order, oldType, r.net.range, r.net.remove);
      var position := manager.Enqueue(r.order, newType, newScore, r.stamp, r.net.add, r.net.rank);
      return true;
    }
  }

  // ---------------------------------------------------------------------------
  // Agreement over runs
  // ---------------------------------------------------------------------------

  // At most one member of each order, in the set and under the score of its row.
  ghost predicate Agrees(s: State) {
    forall q: QueueType :: SetAgrees(s.db, q, s.queues.Of(q))
  }

  ghost predicate OneEach(z: SortedSet) {
    forall i, j | 0 <= i < j < |z| :: z[i].order.uuid != z[j].order.uuid
  }

  ghost predicate Absent(z: SortedSet, uuid: int) {
    forall m | m in z :: m.order.uuid != uuid
  }

  // A member of this order is written as it is here.
  ghost predicate SpelledSo(z: SortedSet, order: OrderId) {
    forall m | m in z && m.order.uuid == order.uuid :: m.order == order
  }

  lemma DropKeepsOrder(z: SortedSet, order: OrderId)
    requires Ascending(z) && OneEach(z)
    ensures Ascending(Drop(z, order)) && OneEach(Drop(z, order))
  {
  }

  lemma DropMembers(z: SortedSet, order: OrderId, m: Member)
    requires OneEach(z)
    ensures m in Drop(z, order) <==> m in z && m.order != order
  {
  }

  lemma {:induction false} AddKeepsOneEach(z: SortedSet, m: Member)
    requires OneEach(z) && Absent(z, m.order.uuid)
    ensures OneEach(Add(z, m))
  {
    if z != [] && !Less(m, z[0]) && m != z[0] {
      AddKeepsOneEach(z[1..], m);
      AddContains(z[1..], m);
      var r := [z[0]] + Add(z[1..], m);
      forall i, j | 0 <= i < j < |r| ensures r[i].order.uuid != r[j].order.uuid {
        if i == 0 {
          assert r[j] in Add(z[1..], m);
          assert z[0] in z;
          if r[j] != m {
            var k :| 0 <= k < |z[1..]| && z[1..][k] == r[j];
            assert z[k + 1] == r[j];
          }
        }
      }
    }
  }

  ghost predicate SetAgrees(db: map<int, Entry>, q: QueueType, z: SortedSet) {
    && Ascending(z)
    && OneEach(z)
    && forall m | m in z ::
         && m.order.uuid in db
         && db[m.order.uuid].queueType == q == DetermineQueueType(m.score)
         && db[m.order.uuid].score == m.score
  }

  lemma DropAgrees(db: map<int, Entry>, q: QueueType, z: SortedSet, order: OrderId)
    requires SetAgrees(db, q, z) && SpelledSo(z, order)
    ensures SetAgrees(db, q, Drop(z, order)) && Absent(Drop(z, order), order.uuid)
  {
    DropKeepsOrder(z, order);
    forall m | m in Drop(z, order) ensures m in z && m.order != order {
      DropMembers(z, order, m);
    }
  }

  // A row matters only to the members of its own order.
  lemma RowAgrees(db: map<int, Entry>, q: QueueType, z: SortedSet, uuid: int, e: Entry)
    requires SetAgrees(db, q, z) && Absent(z, uuid)
    ensures SetAgrees(db[uuid := e], q, z)
  {
  }

  lemma AddAgrees(db: map<int, Entry>, q: QueueType, z: SortedSet, m: Member)
    requires SetAgrees(db, q, z) && Absent(z, m.order.uuid) && m.order.uuid in db
    requires db[m.order.uuid].queueType == q == DetermineQueueType(m.score) && db[m.order.uuid].score == m.score
    ensures SetAgrees(db, q, Add(z, m))
  {
    AddContains(z, m);
    AddKeepsOrder(z, m);
    AddKeepsOneEach(z, m);
  }

  // What set_priority leaves of one set: the old member dropped, the new one added.
  lemma OneSet(s: State, r: Request, q: QueueType)
    requires r.order.uuid in s.db
    ensures var from, e' := s.db[r.order.uuid].queueType, Updated(s.db[r.order.uuid], r);
            var z := if q == from && r.net.Removes() then Drop(s.queues.Of(q), r.order) else s.queues.Of(q);
            Prioritized(s, r).queues.Of(q) ==
            if q == e'.queueType && r.net.Adds() then Add(z, Member(r.order, e'.score, r.stamp)) else z
  {
  }

  // An order has no member outside the set its row names.
  lemma AbsentElsewhere(db: map<int, Entry>, q: QueueType, z: SortedSet, uuid: int)
    requires SetAgrees(db, q, z) && uuid in db && db[uuid].queueType != q
    ensures Absent(z, uuid)
  {
  }

  lemma OneSetAgrees(s: State, r: Request, q: QueueType)
    requires r.order.uuid in s.db && SetAgrees(s.db, q, s.queues.Of(q))
    requires (r.net.Removes() && SpelledSo(s.queues.Of(q), r.order)) || Absent(s.queues.Of(q), r.order.uuid)
    ensures SetAgrees(Prioritized(s, r).db, q, Prioritized(s, r).queues.Of(q))
  {
    OneSet(s, r, q);
    var e, e' := s.db[r.order.uuid], Updated(s.db[r.order.uuid], r);
    var z := if q == e.queueType && r.net.Removes() then Drop(s.queues.Of(q), r.order) else s.queues.Of(q);
    if q == e.queueType {
      if r.net.Removes() { DropAgrees(s.db, q, s.queues.Of(q), r.order); }
    } else {
      AbsentElsewhere(s.db, q, z, r.order.uuid);
    }
    RowAgrees(s.db, q, z, r.order.uuid, e');
    if q == e'.queueType {
      AddAgrees(s.db[r.order.uuid := e'], q, z, Member(r.order, e'.score, r.stamp));
    }
  }

  // Wherever the order has a member, it is written as the request writes it.
  ghost predicate SameSpelling(qs: Queues, order: OrderId) {
    forall q: QueueType :: SpelledSo(qs.Of(q), order)
  }

  /** set_priority keeps the agreement whenever its removal gets through and looks for the id as it was
      written, even if the new member is never added. */
  lemma {:induction false} PrioritizedKeepsAgreement(s: State, r: Request)
    requires Agrees(s) && r.net.Removes() && SameSpelling(s.queues, r.order)
    ensures Agrees(Prioritized(s, r))
  {
    if r.order.uuid in s.db {
      forall q: QueueType ensures SetAgrees(Prioritized(s, r).db, q, Prioritized(s, r).queues.Of(q)) {
        OneSetAgrees(s, r, q);
      }
    }
  }

  lemma {:induction false} AddPresent(z: SortedSet, m: Member)
    requires Ascending(z) && m in z
    ensures Add(z, m) == z
  {
    if m != z[0] {
      assert z == [z[0]] + z[1..];
      var k :| 0 <= k < |z| && z[k] == m;
      assert Less(z[0], z[k]);
      AddPresent(z[1..], m);
    }
  }

  lemma TwoOfOneOrder(z: SortedSet, m: Member, x: Member)
    requires m in z && x in z && m != x && m.order.uuid == x.order.uuid
    ensures !OneEach(z)
  {
    var i :| 0 <= i < |z| && z[i] == m;
    var j :| 0 <= j < |z| && z[j] == x;
    assert i < j || j < i;
  }

  lemma DropNothing(z: SortedSet, x: Member, order: OrderId)
    requires OneEach(z) && x in z && x.order.uuid == order.uuid && x.order != order
    ensures Drop(z, order) == z
  {
    var i := Find(z, order);
    if i < |z| {
      TwoOfOneOrder(z, z[i], x);
    }
  }

  // Without the removal, or looked for under another spelling, x stays where it was.
  lemma StaleMember(s: State, r: Request, x: Member)
    requires Agrees(s) && r.order.uuid in s.db && !(r.net.Removes() && x.order == r.order)
    requires x in s.queues.Of(s.db[r.order.uuid].queueType) && x.order.uuid == r.order.uuid
    ensures var e, e' := s.db[r.order.uuid], Updated(s.db[r.order.uuid], r);
            SetAgrees(Prioritized(s, r).db, e.queueType, Prioritized(s, r).queues.Of(e.queueType)) <==>
            e'.score == e.score && (r.net.Adds() ==> x == Member(r.order, e'.score, r.stamp))
  {
    var e, e' := s.db[r.order.uuid], Updated(s.db[r.order.uuid], r);
    var q, m := e.queueType, Member(r.order, e'.score, r.stamp);
    var z := s.queues.Of(q);
    OneSet(s, r, q);
    assert SetAgrees(s.db, q, z);
    assert x.score == e.score && q == DetermineQueueType(x.score);
    if x.order != r.order { DropNothing(z, x, r.order); }
    AddContains(z, m);
    if r.net.Adds() && e'.score == e.score {
      if x == m {
        AddPresent(z, m);
      } else {
        TwoOfOneOrder(Add(z, m), m, x);
      }
    }
  }

  // The exact case in which a stale member is right all the same.
  predicate StaleIsRight(s: State, r: Request)
    requires r.order.uuid in s.db
  {
    var e, e' := s.db[r.order.uuid], Updated(s.db[r.order.uuid], r);
    e'.score == e.score &&
    (r.net.Adds() ==> Member(r.order, e'.score, r.stamp) in s.queues.Of(e.queueType))
  }

  /** With Redis failing anywhere in it, set_priority keeps the agreement exactly when the removal gets
      through and looks for the id as it was written, or there is no member to remove, or the member
      that stays is right: the score is the same, and no second member is added beside it. */
  lemma {:induction false} AgreementKeptIff(s: State, r: Request)
    requires Agrees(s) && r.order.uuid in s.db
    ensures Agrees(Prioritized(s, r)) <==>
            || (r.net.Removes() && SameSpelling(s.queues, r.order))
            || !Present(s.queues, r.order.uuid) || StaleIsRight(s, r)
  {
    if r.net.Removes() && SameSpelling(s.queues, r.order) {
      PrioritizedKeepsAgreement(s, r);
    } else if !Present(s.queues, r.order.uuid) {
      forall q: QueueType ensures SetAgrees(Prioritized(s, r).db, q, Prioritized(s, r).queues.Of(q)) {
        assert SetAgrees(s.db, q, s.queues.Of(q));
        OneSetAgrees(s, r, q);
      }
    } else if r.net.Removes() {
      var q: QueueType :| !SpelledSo(s.queues.Of(q), r.order);
      var x :| x in s.queues.Of(q) && x.order.uuid == r.order.uuid && x.order != r.order;
      KeptIffRight(s, r, q, x);
    } else {
      var q, x :| x in s.queues.Of(q) && x.order.uuid == r.order.uuid;
      KeptIffRight(s, r, q, x);
    }
  }

  /** So with Redis up, an id written in another way than before always breaks it: the row is found and
      the member is not. */
  lemma OtherSpellingBreaks(s: State, r: Request, q: QueueType, x: Member)
    requires Agrees(s) && r.order.uuid in s.db && r.net.Removes() && r.net.Adds()
    requires x in s.queues.Of(q) && x.order.uuid == r.order.uuid && x.order != r.order
    ensures !Agrees(Prioritized(s, r))
  {
    var e' := Updated(s.db[r.order.uuid], r);
    assert SetAgrees(s.db, q, s.queues.Of(q));
    OnlyMember(s.queues.Of(q), x, Member(r.order, e'.score, r.stamp));
    assert Present(s.queues, r.order.uuid) && !SpelledSo(s.queues.Of(q), r.order);
    AgreementKeptIff(s, r);
  }

  lemma {:induction false} KeptIffRight(s: State, r: Request, q: QueueType, x: Member)
    requires Agrees(s) && r.order.uuid in s.db && !(r.net.Removes() && x.order == r.order)
    requires x in s.queues.Of(q) && x.order.uuid == r.order.uuid
    ensures Agrees(Prioritized(s, r)) <==> StaleIsRight(s, r)
  {
    var e, e' := s.db[r.order.uuid], Updated(s.db[r.order.uuid], r);
    assert SetAgrees(s.db, q, s.queues.Of(q));
    assert q == e.queueType;
    StaleMember(s, r, x);
    OnlyMember(s.queues.Of(q), x, Member(r.order, e'.score, r.stamp));
    if StaleIsRight(s, r) {
      assert e'.queueType == q;
      forall p: QueueType ensures SetAgrees(Prioritized(s, r).db, p, Prioritized(s, r).queues.Of(p)) {
        if p != q {
          assert SetAgrees(s.db, p, s.queues.Of(p));
          AbsentElsewhere(s.db, p, s.queues.Of(p), r.order.uuid);
          OneSetAgrees(s, r, p);
        }
      }
    }
  }

  lemma OnlyMember(z: SortedSet, x: Member, m: Member)
    requires OneEach(z) && x in z && m.order.uuid == x.order.uuid
    ensures m in z <==> m == x
  {
    if m in z && m != x { TwoOfOneOrder(z, m, x); }
  }

  ghost predicate Present(qs: Queues, uuid: int) {
    exists q: QueueType, m: Member :: m in qs.Of(q) && m.order.uuid == uuid
  }

  lemma PrioritizedMembers(s: State, r: Request, q: QueueType, x: Member)
    requires Agrees(s) && r.order.uuid in s.db && r.net.Removes() && SameSpelling(s.queues, r.order)
    ensures var e' := Updated(s.db[r.order.uuid], r);
            x in Prioritized(s, r).queues.Of(q) <==>
            || (x in s.queues.Of(q) && x.order.uuid != r.order.uuid)
            || (q == e'.queueType && r.net.Adds() && x == Member(r.order, e'.score, r.stamp))
  {
    OneSet(s, r, q);
    var e, e' := s.db[r.order.uuid], Updated(s.db[r.order.uuid], r);
    var was := s.queues.Of(q);
    assert SetAgrees(s.db, q, was) && SpelledSo(was, r.order);
    var z := if q == e.queueType then Drop(was, r.order) else was;
    if q == e.queueType {
      DropMembers(was, r.order, x);
    } else {
      AbsentElsewhere(s.db, q, was, r.order.uuid);
    }
    AddContains(z, Member(r.order, e'.score, r.stamp));
  }

  lemma PrioritizedPresence(s: State, r: Request, uuid: int)
    requires Agrees(s) && r.order.uuid in s.db && r.net.Removes() && SameSpelling(s.queues, r.order)
    ensures Present(Prioritized(s, r).queues, uuid) <==>
            if uuid == r.order.uuid then r.net.Adds() else Present(s.queues, uuid)
  {
    var qs' := Prioritized(s, r).queues;
    var e' := Updated(s.db[r.order.uuid], r);
    var m := Member(r.order, e'.score, r.stamp);
    PrioritizedMembers(s, r, e'.queueType, m);
    if Present(s.queues, uuid) && uuid != r.order.uuid {
      var q, x :| x in s.queues.Of(q) && x.order.uuid == uuid;
      PrioritizedMembers(s, r, q, x);
    }
    if Present(qs', uuid) {
      var q, x :| x in qs'.Of(q) && x.order.uuid == uuid;
      PrioritizedMembers(s, r, q, x);
    }
  }

  function Run(s: State, rs: seq<Request>): State
    decreases |rs|
  {
    if rs == [] then s else Run(Prioritized(s, rs[0]), rs[1..])
  }

  // Whether the last set_priority of an order added its member.
  function LastAdds(rs: seq<Request>, uuid: int): Option<bool> {
    if rs == [] then None
    else
      var later := LastAdds(rs[1..], uuid);
      if later.Some? then later else if rs[0].order.uuid == uuid then Some(rs[0].net.Adds()) else None
  }

  // Each order is always written the same way.
  ghost predicate OneSpelling(rs: seq<Request>) {
    forall j, k | 0 <= j < |rs| && 0 <= k < |rs| && rs[j].order.uuid == rs[k].order.uuid :: rs[j].order == rs[k].order
  }

  ghost predicate SpelledAs(qs: Queues, rs: seq<Request>) {
    forall k | 0 <= k < |rs| :: SameSpelling(qs, rs[k].order)
  }

  lemma SpellingKept(s: State, r: Request, order: OrderId)
    requires Agrees(s) && r.net.Removes() && SameSpelling(s.queues, r.order) && SameSpelling(s.queues, order)
    requires r.order.uuid == order.uuid ==> r.order == order
    ensures SameSpelling(Prioritized(s, r).queues, order)
  {
    if r.order.uuid in s.db {
      forall q: QueueType ensures SpelledSo(Prioritized(s, r).queues.Of(q), order) {
        assert SpelledSo(s.queues.Of(q), order);
        forall m | m in Prioritized(s, r).queues.Of(q) && m.order.uuid == order.uuid ensures m.order == order {
          PrioritizedMembers(s, r, q, m);
        }
      }
    }
  }

  lemma SpellingsKept(s: State, rs: seq<Request>)
    requires rs != [] && Agrees(s) && rs[0].net.Removes() && OneSpelling(rs) && SpelledAs(s.queues, rs)
    ensures OneSpelling(rs[1..]) && SpelledAs(Prioritized(s, rs[0]).queues, rs[1..])
  {
    forall k | 0 <= k < |rs[1..]| ensures SameSpelling(Prioritized(s, rs[0]).queues, rs[1..][k].order) {
      SpellingKept(s, rs[0], rs[k + 1].order);
    }
  }

  lemma {:induction false} RunKeepsAgreement(s: State, rs: seq<Request>, uuid: int)
    requires Agrees(s) && OneSpelling(rs) && SpelledAs(s.queues, rs)
    requires forall k | 0 <= k < |rs| :: rs[k].net.Removes()
    ensures var s', last := Run(s, rs), LastAdds(rs, uuid);
            && Agrees(s')
            && s'.db.Keys == s.db.Keys
            && (Present(s'.queues, uuid) <==>
                if uuid in s.db && last.Some? then last.value else Present(s.queues, uuid))
    decreases |rs|
  {
    if rs != [] {
      var s1 := Prioritized(s, rs[0]);
      PrioritizedKeepsAgreement(s, rs[0]);
      if rs[0].order.uuid in s.db { PrioritizedPresence(s, rs[0], uuid); }
      assert s1.db.Keys == s.db.Keys;
      SpellingsKept(s, rs);
      RunKeepsAgreement(s1, rs[1..], uuid);
    }
  }

  lemma {:induction false} LastAddsOfAll(rs: seq<Request>, uuid: int)
    requires forall k | 0 <= k < |rs| :: rs[k].net.Adds()
    ensures LastAdds(rs, uuid) == if exists k :: 0 <= k < |rs| && rs[k].order.uuid == uuid then Some(true) else None
  {
    if rs != [] {
      LastAddsOfAll(rs[1..], uuid);
      if exists k :: 0 <= k < |rs| && rs[k].order.uuid == uuid {
        var k :| 0 <= k < |rs| && rs[k].order.uuid == uuid;
        if k > 0 { assert rs[1..][k - 1].order.uuid == uuid; }
      }
    }
  }

  // What get_queue lists is one priority list of the rows.
  ghost predicate OneList(db: map<int, Entry>, items: seq<Item>) {
    && (forall i | 0 <= i < |items| ::
          && items[i].order.uuid in db
          && items[i].score == db[items[i].order.uuid].score
          && items[i].queueType == db[items[i].order.uuid].queueType)
    && (forall i, j | 0 <= i < j < |items| ::
          items[i].score >= items[j].score && items[i].order.uuid != items[j].order.uuid)
  }

  lemma ListedIsOneList(db: map<int, Entry>, q: QueueType, z: SortedSet)
    requires SetAgrees(db, q, z)
    ensures OneList(db, Listed(z, q))
    ensures forall i | 0 <= i < |z| :: Listed(z, q)[i].queueType == q == DetermineQueueType(Listed(z, q)[i].score)
  {
  }

  // Two lists join when every score of the first belongs to a more urgent queue.
  lemma JoinLists(db: map<int, Entry>, a: seq<Item>, b: seq<Item>)
    requires OneList(db, a) && OneList(db, b)
    requires forall i, j | 0 <= i < |a| && 0 <= j < |b| ::
               a[i].score >= b[j].score && a[i].queueType != b[j].queueType
    ensures OneList(db, a + b)
  {
  }

  lemma ShownIsOneList(s: State, q: QueueType, read: set<QueueType>)
    requires Agrees(s)
    ensures var items := Shown(s.queues, q, read);
            && OneList(s.db, items)
            && forall i | 0 <= i < |items| :: items[i].queueType == q == DetermineQueueType(items[i].score)
  {
    assert SetAgrees(s.db, q, s.queues.Of(q));
    ListedIsOneList(s.db, q, s.queues.Of(q));
  }

  lemma ListingIsOneList(s: State, read: set<QueueType>)
    requires Agrees(s)
    ensures OneList(s.db, Listing(s.queues, read))
  {
    var qs := s.queues;
    var a, b, c := Shown(qs, Immediate, read), Shown(qs, Normal, read), Shown(qs, Batch, read);
    ShownIsOneList(s, Immediate, read);
    ShownIsOneList(s, Normal, read);
    ShownIsOneList(s, Batch, read);
    JoinLists(s.db, a, b);
    JoinLists(s.db, a, c);
    JoinThird(s.db, a, b, c);
  }

  lemma JoinThird(db: map<int, Entry>, a: seq<Item>, b: seq<Item>, c: seq<Item>)
    requires OneList(db, a + b) && OneList(db, a + c) && OneList(db, c)
    requires forall i | 0 <= i < |a| :: a[i].queueType == Immediate
    requires forall i | 0 <= i < |b| :: b[i].queueType == Normal == DetermineQueueType(b[i].score)
    requires forall i | 0 <= i < |c| :: c[i].queueType == Batch == DetermineQueueType(c[i].score)
    ensures OneList(db, a + b + c)
  {
    forall i, j | 0 <= i < |a + b| && 0 <= j < |c|
      ensures (a + b)[i].score >= c[j].score && (a + b)[i].queueType != c[j].queueType
    {
      if i < |a| {
        assert (a + c)[i] == a[i] && (a + c)[|a| + j] == c[j];
      } else {
        assert (a + b)[i] == b[i - |a|];
      }
    }
    JoinLists(db, a + b, c);
  }

  lemma EmptyAgrees(db: map<int, Entry>)
    ensures Agrees(State(db, Queues([], [], [])))
    ensures forall uuid :: !Present(Queues([], [], []), uuid)
    ensures forall rs :: SpelledAs(Queues([], [], []), rs)
  {
  }

  /** The sorted sets refine one priority list. Over any run of set_priority from empty sets in which
      every removal gets through and each order is always written the same way, each order has at most
      one member, in the set and under the score of its row; it has one exactly when the last
      set_priority of it added one; and get_queue lists what it can read of them in nonincreasing score
      across the three sets. */
  lemma {:induction false} QueuesRefineOneList(
    db: map<int, Entry>, rs: seq<Request>, uuid: int, read: set<QueueType>)
    requires OneSpelling(rs) && forall k | 0 <= k < |rs| :: rs[k].net.Removes()
    ensures var s := Run(State(db, Queues([], [], [])), rs);
            && Agrees(s)
            && OneList(s.db, Listing(s.queues, read))
            && (Present(s.queues, uuid) <==> uuid in db && LastAdds(rs, uuid) == Some(true))
  {
    var s := State(db, Queues([], [], []));
    EmptyAgrees(db);
    RunKeepsAgreement(s, rs, uuid);
    ListingIsOneList(Run(s, rs), read);
  }

  /** With Redis up throughout, exactly the orders that were set have a member. */
  lemma {:induction false} ExactlyThoseSet(db: map<int, Entry>, rs: seq<Request>, uuid: int)
    requires OneSpelling(rs) && forall k | 0 <= k < |rs| :: rs[k].net.Removes() && rs[k].net.Adds()
    ensures Present(Run(State(db, Queues([], [], [])), rs).queues, uuid) <==>
            uuid in db && exists k :: 0 <= k < |rs| && rs[k].order.uuid == uuid
  {
    QueuesRefineOneList(db, rs, uuid, {});
    LastAddsOfAll(rs, uuid);
  }

  /** get_queue lists each member of every set that it can read, and nothing else. */
  lemma ListingIsComplete(qs: Queues, read: set<QueueType>, item: Item)
    ensures item in Listing(qs, read) <==>
            && item.queueType in read
            && exists m :: m in qs.Of(item.queueType) && m.order == item.order && m.score == item.score
  {
    ShownIsComplete(qs, Immediate, read, item);
    ShownIsComplete(qs, Normal, read, item);
    ShownIsComplete(qs, Batch, read, item);
  }

  lemma ShownIsComplete(qs: Queues, q: QueueType, read: set<QueueType>, item: Item)
    ensures item in Shown(qs, q, read) <==>
            && q in read && item.queueType == q
            && exists m :: m in qs.Of(q) && m.order == item.order && m.score == item.score
  {
    var z, items := qs.Of(q), Shown(qs, q, read);
    if item in items {
      var i :| 0 <= i < |items| && items[i] == item;
      assert z[|z| - 1 - i] in z;
    }
    if q in read && item.queueType == q && exists m :: m in z && m.order == item.order && m.score == item.score {
      var m :| m in z && m.order == item.order && m.score == item.score;
      var k :| 0 <= k < |z| && z[k] == m;
      assert items[|z| - 1 - k] == item;
    }
  }

  // ---------------------------------------------------------------------------
  // What the requests ask for
  // ---------------------------------------------------------------------------

  function LastRequest(rs: seq<Request>, uuid: int): Option<Request> {
    if rs == [] then None
    else
      var later := LastRequest(rs[1..], uuid);
      if later.Some? then later else if rs[0].order.uuid == uuid then Some(rs[0]) else None
  }

  function LastBoost(rs: seq<Request>, uuid: int): Option<real> {
    if rs == [] then None
    else
      var later := LastBoost(rs[1..], uuid);
      if later.Some? then later else if rs[0].order.uuid == uuid then rs[0].boost else None
  }

  // The score asked for: the explicit one as it is, zero included, or else the points of the factors
  // given, a missing one counting as a free tier, a customer who is there and no risk, with the age of
  // the row and the boost in force.
  ghost predicate Asked(r: Request, since: Option<real>, boost: real, score: real) {
    if r.score.Some? then score == r.score.value
    else
      var tier :=
        if r.tier == "VIP" then 20.0 else if r.tier == "PRO" then 15.0 else if r.tier == "PLUS" then 10.0 else 5.0;
      var near :=
        if r.proximity.None? || r.proximity.value <= 0.0 then 40.0
        else if r.proximity.value >= 500.0 then 0.0 else 40.0 - 0.08 * r.proximity.value;
      var risk :=
        if r.delayRisk.None? then 0.0 else if r.delayRisk.value >= 1.0 then 30.0 else 30.0 * r.delayRisk.value;
      var waited := ReorderQueues.AgeSeconds(since, r.now);
      var age := if waited >= 900 then 20.0 else waited as real / 45.0;
      var total := tier + near + risk + age + boost;
      About(score, if total >= 200.0 then 200.0 else total)
  }

  lemma UpdatedAsAsked(e: Entry, r: Request)
    ensures var e' := Updated(e, r);
            && Asked(r, e.enqueuedAt, e'.boost, e'.score)
            && e'.boost == (if r.boost.Some? then r.boost.value else e.boost)
            && e'.queueType == (if e'.score >= 80.0 then Immediate else if e'.score >= 50.0 then Normal else Batch)
            && (e'.enqueuedAt, e'.batch, e'.queued) == (e.enqueuedAt, e.batch, e.queued)
  {
    var e' := Updated(e, r);
    if r.score.None? {
      var waited := ReorderQueues.AgeSeconds(e.enqueuedAt, r.now);
      var f := Factors(if r.tier != "" then r.tier else "FREE",
                       if r.proximity.Some? then r.proximity.value else 0.0,
                       if r.delayRisk.Some? then r.delayRisk.value else 0.0, waited, e.batch, None, e'.boost);
      ScoreOfPoints(
        f,
        if f.tier == "VIP" then 20.0 else if f.tier == "PRO" then 15.0 else if f.tier == "PLUS" then 10.0 else 5.0,
        if f.proximity <= 0.0 then 40.0 else if f.proximity >= 500.0 then 0.0 else 40.0 - 0.08 * f.proximity,
        if f.delayRisk >= 1.0 then 30.0 else 30.0 * f.delayRisk,
        if waited >= 900 then 20.0 else waited as real / 45.0,
        0.0);
    }
  }

  // What a run of requests leaves of a row.
  ghost predicate Follows(e: Entry, rs: seq<Request>, uuid: int, e': Entry) {
    && (e'.enqueuedAt, e'.batch, e'.queued) == (e.enqueuedAt, e.batch, e.queued)
    && e'.boost == (if LastBoost(rs, uuid).Some? then LastBoost(rs, uuid).value else e.boost)
    && match LastRequest(rs, uuid)
       case None => e' == e
       case Some(r) =>
         && Asked(r, e.enqueuedAt, e'.boost, e'.score)
         && e'.queueType == (if e'.score >= 80.0 then Immediate else if e'.score >= 50.0 then Normal else Batch)
  }

  lemma FollowsFirst(e: Entry, rs: seq<Request>, uuid: int, e1: Entry, e': Entry)
    requires rs != [] && e1 == (if rs[0].order.uuid == uuid then Updated(e, rs[0]) else e)
    requires Follows(e1, rs[1..], uuid, e')
    ensures Follows(e, rs, uuid, e')
  {
    UpdatedAsAsked(e, rs[0]);
  }

  lemma {:induction false} RowsFollowRequests(s: State, rs: seq<Request>, uuid: int)
    requires uuid in s.db
    ensures Run(s, rs).db.Keys == s.db.Keys
    ensures Follows(s.db[uuid], rs, uuid, Run(s, rs).db[uuid])
    decreases |rs|
  {
    if rs != [] {
      var s1 := Prioritized(s, rs[0]);
      assert s1.db.Keys == s.db.Keys;
      RowsFollowRequests(s1, rs[1..], uuid);
      FollowsFirst(s.db[uuid], rs, uuid, s1.db[uuid], Run(s, rs).db[uuid]);
    }
  }

  /** Over any run the last set_priority of an order decides: its row has exactly the score asked for, the
      type of that score and the last boost given; and if that request added a member, the order has one
      in the set of that type with exactly the row's score. */
  lemma {:induction false} LastRequestWins(db: map<int, Entry>, rs: seq<Request>, uuid: int)
    requires uuid in db && OneSpelling(rs) && forall k | 0 <= k < |rs| :: rs[k].net.Removes()
    ensures var s := Run(State(db, Queues([], [], [])), rs);
            && uuid in s.db && Follows(db[uuid], rs, uuid, s.db[uuid])
            && (LastAdds(rs, uuid) == Some(true) ==>
                  exists m ::
                    m in s.queues.Of(s.db[uuid].queueType) && m.order.uuid == uuid && m.score == s.db[uuid].score)
  {
    var start := State(db, Queues([], [], []));
    var s := Run(start, rs);
    RowsFollowRequests(start, rs, uuid);
    QueuesRefineOneList(db, rs, uuid, {});
    if LastAdds(rs, uuid) == Some(true) {
      var q, m :| m in s.queues.Of(q) && m.order.uuid == uuid;
      assert SetAgrees(s.db, q, s.queues.Of(q));
    }
  }

  // ---------------------------------------------------------------------------
  // After reorder_queue, which rewrites the rows and leaves the sets alone
  // ---------------------------------------------------------------------------

  // The members of an order, as it is written, in one set and in all three.
  function Count(z: SortedSet, order: OrderId): nat {
    if z == [] then 0 else (if z[0].order == order then 1 else 0) + Count(z[1..], order)
  }

  function CountAll(qs: Queues, order: OrderId): nat {
    Count(qs.immediate, order) + Count(qs.normal, order) + Count(qs.batch, order)
  }

  lemma {:induction false} CountDrop(z: SortedSet, order: OrderId)
    ensures Count(Drop(z, order), order) == if Count(z, order) == 0 then 0 else Count(z, order) - 1
  {
    if z != [] {
      if z[0].order == order {
        assert Drop(z, order) == z[1..];
      } else {
        CountDrop(z[1..], order);
        var d := Drop(z[1..], order);
        assert Drop(z, order) == [z[0]] + d;
        assert ([z[0]] + d)[1..] == d;
      }
    }
  }

  lemma {:induction false} CountAdd(z: SortedSet, m: Member)
    requires m !in z
    ensures Count(Add(z, m), m.order) == Count(z, m.order) + 1
  {
    if z == [] || Less(m, z[0]) {
      assert ([m] + z)[1..] == z;
    } else {
      CountAdd(z[1..], m);
      assert ([z[0]] + Add(z[1..], m))[1..] == Add(z[1..], m);
    }
  }

  lemma {:induction false} DropIsPart(z: SortedSet, order: OrderId, m: Member)
    requires m !in z
    ensures m !in Drop(z, order)
  {
  }

  lemma CountInOneSet(s: State, r: Request, q: QueueType)
    requires r.order.uuid in s.db
    requires r.net.Removes() && r.net.Adds()
    requires Member(r.order, Updated(s.db[r.order.uuid], r).score, r.stamp) !in s.queues.Of(q)
    ensures var from, to := s.db[r.order.uuid].queueType, Updated(s.db[r.order.uuid], r).queueType;
            var was := Count(s.queues.Of(q), r.order);
            Count(Prioritized(s, r).queues.Of(q), r.order) ==
            (if q == from && was > 0 then was - 1 else was) + (if q == to then 1 else 0)
  {
    OneSet(s, r, q);
    var e, e' := s.db[r.order.uuid], Updated(s.db[r.order.uuid], r);
    var m := Member(r.order, e'.score, r.stamp);
    CountDrop(s.queues.Of(q), r.order);
    DropIsPart(s.queues.Of(q), r.order, m);
    CountAdd(if q == e.queueType then Drop(s.queues.Of(q), r.order) else s.queues.Of(q), m);
  }

  /** set_priority looks only in the set its row names. If an order has one member and the new one
      differs from it, the order still has one afterwards exactly when that member was in that set. */
  lemma OneMemberIff(s: State, r: Request, q: QueueType)
    requires r.order.uuid in s.db && r.net.Removes() && r.net.Adds()
    requires CountAll(s.queues, r.order) == Count(s.queues.Of(q), r.order) == 1
    requires forall q': QueueType ::
               Member(r.order, Updated(s.db[r.order.uuid], r).score, r.stamp) !in s.queues.Of(q')
    ensures CountAll(Prioritized(s, r).queues, r.order) == 1 <==> s.db[r.order.uuid].queueType == q
    ensures CountAll(Prioritized(s, r).queues, r.order) <= 2
  {
    CountInOneSet(s, r, Immediate);
    CountInOneSet(s, r, Normal);
    CountInOneSet(s, r, Batch);
  }

  // reorder_queue as the rows see it; the sets are not touched.
  function Reordered(s: State, now: real): State {
    s.(db := map o | o in s.db ::
         var e := s.db[o];
         var score := Calculate(ReorderQueues.FactorsAt(e.enqueuedAt, e.batch, e.boost, now));
         if e.queued then e.(score := score, queueType := DetermineQueueType(score)) else e)
  }

  lemma {:induction false} CountOneEach(z: SortedSet, order: OrderId)
    requires OneEach(z)
    ensures Count(z, order) == if exists m :: m in z && m.order == order then 1 else 0
  {
    if z != [] {
      CountOneEach(z[1..], order);
      assert z == [z[0]] + z[1..];
      forall m | m in z[1..] ensures m.order != z[0].order {
        var k :| 0 <= k < |z[1..]| && z[1..][k] == m;
        assert z[k + 1] == m;
      }
    }
  }

  lemma CountPresent(s: State, q: QueueType, m: Member, p: QueueType)
    requires Agrees(s) && m in s.queues.Of(q)
    ensures Count(s.queues.Of(p), m.order) == if p == q then 1 else 0
  {
    assert SetAgrees(s.db, p, s.queues.Of(p)) && SetAgrees(s.db, q, s.queues.Of(q));
    CountOneEach(s.queues.Of(p), m.order);
  }

  /** So one reorder_queue breaks the refinement: the next set_priority of an order leaves it twice in
      the sets exactly when rescoring had moved its row to another queue type. */
  lemma DuplicatedAfterReorderIff(s: State, now: real, r: Request, q: QueueType, m: Member)
    requires Agrees(s) && r.order.uuid in s.db && m in s.queues.Of(q) && m.order == r.order
    requires r.net.Removes() && r.net.Adds()
    requires forall q: QueueType, m: Member | m in s.queues.Of(q) :: m.stamp != r.stamp
    ensures var s' := Reordered(s, now);
            CountAll(Prioritized(s', r).queues, r.order) == 2 <==>
            s'.db[r.order.uuid].queueType != s.db[r.order.uuid].queueType
  {
    var s' := Reordered(s, now);
    CountPresent(s, q, m, Immediate);
    CountPresent(s, q, m, Normal);
    CountPresent(s, q, m, Batch);
    assert SetAgrees(s.db, q, s.queues.Of(q));
    OneMemberIff(s', r, q);
    MemberStays(s', r);
  }

  // Rescoring leaves a row under its score, or does not look at it.
  predicate KeepsScore(e: Entry, now: real) {
    e.queued ==> Calculate(ReorderQueues.FactorsAt(e.enqueuedAt, e.batch, e.boost, now)) == e.score
  }

  /** reorder_queue itself keeps the agreement exactly when every queued order that has a member keeps
      its score. */
  lemma {:induction false} ReorderAgreesIff(s: State, now: real)
    requires Agrees(s)
    ensures Agrees(Reordered(s, now)) <==>
            forall uuid | uuid in s.db && Present(s.queues, uuid) :: KeepsScore(s.db[uuid], now)
  {
    var s' := Reordered(s, now);
    if Agrees(s') {
      forall uuid | uuid in s.db && Present(s.queues, uuid) ensures KeepsScore(s.db[uuid], now) {
        var q, m :| m in s.queues.Of(q) && m.order.uuid == uuid;
        assert SetAgrees(s.db, q, s.queues.Of(q)) && SetAgrees(s'.db, q, s'.queues.Of(q));
      }
    }
    if forall uuid | uuid in s.db && Present(s.queues, uuid) :: KeepsScore(s.db[uuid], now) {
      forall q: QueueType ensures SetAgrees(s'.db, q, s'.queues.Of(q)) {
        KeptSetAgrees(s, now, q);
      }
    }
  }

  lemma KeptSetAgrees(s: State, now: real, q: QueueType)
    requires SetAgrees(s.db, q, s.queues.Of(q))
    requires forall uuid | uuid in s.db && Present(s.queues, uuid) :: KeepsScore(s.db[uuid], now)
    ensures SetAgrees(Reordered(s, now).db, q, s.queues.Of(q))
  {
    forall m | m in s.queues.Of(q)
      ensures m.order.uuid in s.db && Reordered(s, now).db[m.order.uuid] == s.db[m.order.uuid]
    {
      assert Present(s.queues, m.order.uuid);
      assert KeepsScore(s.db[m.order.uuid], now);
    }
  }

  // A row set to a hundred by hand, with nothing else to its name.
  function SetByHand(): Entry { Entry(100.0, Immediate, 0.0, Some(0.0), None, true) }

  /** And rows are moved: this one falls from the immediate to the batch queue. */
  lemma ReorderMoves(order: OrderId, stamp: real)
    ensures var s := State(map[order.uuid := SetByHand()], Queues([Member(order, 100.0, stamp)], [], []));
            && Agrees(s)
            && Reordered(s, 0.0).db[order.uuid].score == 45.0
            && Reordered(s, 0.0).db[order.uuid].queueType == Batch
            && !Agrees(Reordered(s, 0.0))
  {
    var m := Member(order, 100.0, stamp);
    var s := State(map[order.uuid := SetByHand()], Queues([m], [], []));
    assert s.queues.Of(Normal) == [] && s.queues.Of(Batch) == [];
    assert Calculate(ReorderQueues.FactorsAt(Some(0.0), None, 0.0, 0.0)) == 45.0;
    assert m in s.queues.Of(Immediate);
    assert !SetAgrees(Reordered(s, 0.0).db, Immediate, s.queues.Of(Immediate));
  }

  // The member just added is there.
  lemma MemberStays(s: State, r: Request)
    requires r.order.uuid in s.db && r.net.Adds()
    ensures CountAll(Prioritized(s, r).queues, r.order) >= 1
  {
    var e' := Updated(s.db[r.order.uuid], r);
    var q, m := e'.queueType, Member(r.order, e'.score, r.stamp);
    OneSet(s, r, q);
    var drops := q == s.db[r.order.uuid].queueType && r.net.Removes();
    var z := if drops then Drop(s.queues.Of(q), r.order) else s.queues.Of(q);
    AddContains(z, m);
    CountPositive(Add(z, m), m);
  }

  lemma {:induction false} CountPositive(z: SortedSet, m: Member)
    requires m in z
    ensures Count(z, m.order) >= 1
  {
    if z[0].order != m.order {
      assert z == [z[0]] + z[1..];
      CountPositive(z[1..], m);
    }
  }
}
