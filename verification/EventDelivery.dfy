/** Event deduplication with lazy expiry and the Kafka consume loop around it
    (shared/utils/kafka_client.py). Every clock read is a parameter. */
module EventDelivery {

  import opened Prelude

  type EventId = string

  // Event ids with the time up to which they count as processed.
  type Store = map<EventId, real>

  // is_duplicate also forgets an entry that it finds expired.
  function Lookup(store: Store, id: EventId, now: real): (Store, bool) {
    if id !in store then (store, false)
    else if now > store[id] then (store - {id}, false)
    else (store, true)
  }

  function Expired(store: Store, now: real): set<EventId> {
    set id | id in store && now > store[id]
  }

  class EventDedupStore {
    const ttl: real
    var store: Store

    constructor (ttl: real)
      ensures this.ttl == ttl && store == map[]
    {
      this.ttl, store := ttl, map[];
    }

    method IsDuplicate(id: EventId, now: real) returns (duplicate: bool)
      modifies this
      ensures (store, duplicate) == Lookup(old(store), id, now)
      ensures duplicate <==> id in old(store) && now <= old(store)[id]
      ensures store == if duplicate then old(store) else old(store) - {id}
    {
      if id !in store {
        return false;
      }
      if now > store[id] {
        store := store - {id};
        return false;
      }
      return true;
    }

    method MarkProcessed(id: EventId, now: real)
      modifies this
      ensures store == old(store)[id := now + ttl]
    {
      store := store[id := now + ttl];
    }

    method CleanupExpired(now: real) returns (removed: nat)
      modifies this
      ensures store == old(store) - Expired(old(store), now)
      ensures removed == |Expired(old(store), now)|
      ensures forall id :: id in store <==> id in old(store) && now <= old(store)[id]
      ensures forall id | id in store :: store[id] == old(store)[id]
    {
      var keys := set id | id in store && now > store[id];
      removed := |keys|;
      ghost var all := keys;
      while keys != {}
        invariant keys <= all && store == old(store) - (all - keys)
        decreases |keys|
      {
        var key := PickElement(keys);
        store := store - {key};
        keys := keys - {key};
      }
    }
  }

  // ---------------------------------------------------------------------------
  // Messages
  // ---------------------------------------------------------------------------

  datatype Position = Position(topic: string, partition: nat, offset: nat)

  datatype Message = Message(at: Position, key: Option<string>, eventId: Option<string>)

  function Digit(n: nat): char
    requires n < 10
  {
    "0123456789"[n]
  }

  function Decimal(n: nat): string {
    if n < 10 then [Digit(n)] else Decimal(n / 10) + [Digit(n % 10)]
  }

  predicate HasOwnId(m: Message) { m.eventId.Some? && m.eventId.value != "" }

  // A missing key is written like any other text.
  function KeyText(m: Message): string { if m.key.Some? then m.key.value else "None" }

  // _extract_event_id: the payload's own id, or else key and offset.
  function ExtractEventId(m: Message): EventId {
    if HasOwnId(m) then m.eventId.value else KeyText(m) + ":" + Decimal(m.at.offset)
  }

  // One message polled: whether the loop is still running, what the handler does with it, and the
  // clock when it is looked up and when it is marked.
  datatype Delivery = Delivery(msg: Message, running: bool, ok: bool, checkAt: real, markAt: real)

  datatype Config = Config(ttl: real, maxRetries: int)

  // A successful handling of a message, and the id it counted under.
  datatype Handling = Handling(msg: Message, id: EventId, startedAt: real, markedAt: real)

  /** The consumer: its store and retry counts, and what it did to the outside. */
  datatype Consumer = Consumer(
    store: Store, retries: map<Position, int>,
    committed: seq<Message>, dlq: seq<Message>, handled: seq<Handling>)

  // _handle_failure
  function Failed(cfg: Config, c: Consumer, m: Message): Consumer {
    var count := (if m.at in c.retries then c.retries[m.at] else 0) + 1;
    if count >= cfg.maxRetries then c.(retries := c.retries - {m.at}, dlq := c.dlq + [m])
    else c.(retries := c.retries[m.at := count])
  }

  predicate IsDuplicate(c: Consumer, d: Delivery) {
    Lookup(c.store, ExtractEventId(d.msg), d.checkAt).1
  }

  // The second half of a turn, once the handler is done.
  function Finish(cfg: Config, c: Consumer, d: Delivery, id: EventId, duplicate: bool): Consumer {
    var c' :=
      if duplicate then c
      else if d.ok then
        c.(store := c.store[id := d.markAt + cfg.ttl],
           handled := c.handled + [Handling(d.msg, id, d.checkAt, d.markAt)])
      else Failed(cfg, c, d.msg);
    c'.(committed := c'.committed + [d.msg])
  }

  // One turn of consume_loop, for a message that counts under this id.
  function ProcessAs(cfg: Config, c: Consumer, d: Delivery, id: EventId): Consumer {
    var (store, duplicate) := Lookup(c.store, id, d.checkAt);
    Finish(cfg, c.(store := store), d, id, duplicate)
  }

  function Process(cfg: Config, c: Consumer, d: Delivery): Consumer {
    ProcessAs(cfg, c, d, ExtractEventId(d.msg))
  }

  // consume_loop stops at the first message polled after the consumer was stopped.
  function Consume(cfg: Config, c: Consumer, ds: seq<Delivery>): Consumer
    decreases |ds|
  {
    if ds == [] || !ds[0].running then c else Consume(cfg, Process(cfg, c, ds[0]), ds[1..])
  }

  class KafkaConsumer {
    const maxRetries: int
    const dedup: EventDedupStore
    var running: bool
    var retryCounts: map<Position, int>
    var committed: seq<Message>
    var dlq: seq<Message>
    ghost var handled: seq<Handling>

    ghost function View(): Consumer
      reads this, dedup
    {
      Consumer(dedup.store, retryCounts, committed, dlq, handled)
    }

    function Cfg(): Config { Config(dedup.ttl, maxRetries) }

    constructor (maxRetries: int, dedup: EventDedupStore)
      ensures this.maxRetries == maxRetries && this.dedup == dedup && running
      ensures View() == Consumer(dedup.store, map[], [], [], [])
    {
      this.maxRetries, this.dedup, running := maxRetries, dedup, true;
      retryCounts, committed, dlq, handled := map[], [], [], [];
    }

    method HandleFailure(m: Message)
      modifies this
      ensures View() == Failed(Cfg(), old(View()), m) && running == old(running)
    {
      var retryCount := (if m.at in retryCounts then retryCounts[m.at] else 0) + 1;
      retryCounts := retryCounts[m.at := retryCount];
      if retryCount >= maxRetries {
        dlq := dlq + [m];
        retryCounts := retryCounts - {m.at};
      }
    }

    method ProcessOne(d: Delivery)
      modifies this, dedup
      ensures View() == Process(Cfg(), old(View()), d) && running == old(running)
    {
      var id := ExtractEventId(d.msg);
      var duplicate := dedup.IsDuplicate(id, d.checkAt);
      if duplicate {
        committed := committed + [d.msg];
        return;
      }
      if d.ok {
        handled := handled + [Handling(d.msg, id, d.checkAt, d.markAt)];
        dedup.MarkProcessed(id, d.markAt);
        committed := committed + [d.msg];
      } else {
        HandleFailure(d.msg);
        committed := committed + [d.msg];
      }
    }

    method ConsumeLoop(ds: seq<Delivery>)
      modifies this, dedup
      ensures View() == Consume(Cfg(), old(View()), ds) && !running
    {
      var i := 0;
      while i < |ds|
        invariant 0 <= i <= |ds|
        invariant Consume(Cfg(), View(), ds[i..]) == Consume(Cfg(), old(View()), ds)
      {
        if !ds[i].running {
          break;
        }
        ProcessOne(ds[i]);
        assert ds[i..][1..] == ds[i + 1..];
        i := i + 1;
      }
      running := false;
    }
  }

  // ---------------------------------------------------------------------------
  // At most once per TTL
  // ---------------------------------------------------------------------------

  // The clock never goes back; a message is marked no earlier than it was looked up.
  predicate Timed(now: real, ds: seq<Delivery>)
    decreases |ds|
  {
    ds == [] || (now <= ds[0].checkAt <= ds[0].markAt && Timed(ds[0].markAt, ds[1..]))
  }

  // The store remembers the handlings of an id for as long as they count.
  ghost predicate Remembers(ttl: real, store: Store, handled: seq<Handling>, now: real) {
    && (forall h | h in handled :: h.markedAt <= now)
    && (forall h | h in handled ::
          now > h.markedAt + ttl || (h.id in store && h.markedAt + ttl <= store[h.id]))
  }

  // It holds nothing that no handling put there.
  ghost predicate NothingElse(ttl: real, store: Store, handled: seq<Handling>) {
    forall id | id in store ::
      exists h :: h in handled && h.id == id && store[id] == h.markedAt + ttl
  }

  ghost predicate Apart(ttl: real, handled: seq<Handling>) {
    forall i, j | 0 <= i < j < |handled| && handled[i].id == handled[j].id ::
      handled[j].startedAt > handled[i].markedAt + ttl
  }

  ghost predicate Inv(cfg: Config, c: Consumer, now: real) {
    && Remembers(cfg.ttl, c.store, c.handled, now)
    && NothingElse(cfg.ttl, c.store, c.handled)
    && Apart(cfg.ttl, c.handled)
  }

  // Each handling counted under its message's own id.
  ghost predicate OwnIds(handled: seq<Handling>) {
    forall h | h in handled :: h.id == ExtractEventId(h.msg)
  }

  // A handling of this id that still counts.
  ghost predicate RecentlyHandled(cfg: Config, handled: seq<Handling>, id: EventId, now: real) {
    exists h :: h in handled && h.id == id && now <= h.markedAt + cfg.ttl
  }

  lemma LookupIsHistory(cfg: Config, c: Consumer, id: EventId, before: real, now: real)
    requires Inv(cfg, c, before) && before <= now
    ensures Lookup(c.store, id, now).1 <==> RecentlyHandled(cfg, c.handled, id, now)
  {
  }

  lemma ProcessAsRemembers(cfg: Config, c: Consumer, d: Delivery, id: EventId, now: real)
    requires Remembers(cfg.ttl, c.store, c.handled, now) && now <= d.checkAt <= d.markAt
    ensures var p := ProcessAs(cfg, c, d, id); Remembers(cfg.ttl, p.store, p.handled, d.markAt)
  {
  }

  lemma ProcessAsAddsItsOwn(cfg: Config, c: Consumer, d: Delivery, id: EventId)
    requires NothingElse(cfg.ttl, c.store, c.handled)
    ensures var p := ProcessAs(cfg, c, d, id); NothingElse(cfg.ttl, p.store, p.handled)
  {
  }

  lemma ProcessAsIsApart(cfg: Config, c: Consumer, d: Delivery, id: EventId, now: real)
    requires Inv(cfg, c, now) && now <= d.checkAt
    ensures Apart(cfg.ttl, ProcessAs(cfg, c, d, id).handled)
  {
  }

  lemma ProcessAsKeepsInv(cfg: Config, c: Consumer, d: Delivery, id: EventId, now: real)
    requires Inv(cfg, c, now) && now <= d.checkAt <= d.markAt
    ensures Inv(cfg, ProcessAs(cfg, c, d, id), d.markAt)
  {
    ProcessAsRemembers(cfg, c, d, id, now);
    ProcessAsAddsItsOwn(cfg, c, d, id);
    ProcessAsIsApart(cfg, c, d, id, now);
  }

  lemma ProcessKeepsInv(cfg: Config, c: Consumer, d: Delivery, now: real)
    requires Inv(cfg, c, now) && now <= d.checkAt <= d.markAt
    ensures Inv(cfg, Process(cfg, c, d), d.markAt)
  {
    ProcessAsKeepsInv(cfg, c, d, ExtractEventId(d.msg), now);
  }

  // The clock when consume_loop is done with these messages.
  function EndOf(now: real, ds: seq<Delivery>): real
    decreases |ds|
  {
    if ds == [] || !ds[0].running then now else EndOf(ds[0].markAt, ds[1..])
  }

  lemma {:induction false} ConsumeKeepsInv(cfg: Config, c: Consumer, ds: seq<Delivery>, now: real)
    requires Inv(cfg, c, now) && Timed(now, ds)
    ensures Inv(cfg, Consume(cfg, c, ds), EndOf(now, ds))
    decreases |ds|
  {
    if ds != [] && ds[0].running {
      ProcessKeepsInv(cfg, c, ds[0], now);
      ConsumeKeepsInv(cfg, Process(cfg, c, ds[0]), ds[1..], ds[0].markAt);
    }
  }

  lemma {:induction false} ConsumeKeepsOwnIds(cfg: Config, c: Consumer, ds: seq<Delivery>)
    requires OwnIds(c.handled)
    ensures OwnIds(Consume(cfg, c, ds).handled)
    decreases |ds|
  {
    if ds != [] && ds[0].running {
      ConsumeKeepsOwnIds(cfg, Process(cfg, c, ds[0]), ds[1..]);
    }
  }

  function Fresh(): Consumer { Consumer(map[], map[], [], [], []) }

  // ---------------------------------------------------------------------------
  // Messages that share an id
  // ---------------------------------------------------------------------------

  // The number that decimal digits write.
  function Read(s: string): int {
    if s == [] then 0 else 10 * Read(s[..|s| - 1]) + (s[|s| - 1] as int - '0' as int)
  }

  lemma {:induction false} DecimalIsRead(n: nat)
    ensures Read(Decimal(n)) == n && ':' !in Decimal(n)
  {
    if n < 10 {
      assert Decimal(n)[..0] == [];
    } else {
      DecimalIsRead(n / 10);
      var s := Decimal(n);
      assert s[..|s| - 1] == Decimal(n / 10);
    }
  }

  lemma EarlierColon(a: string, d: string, b: string, e: string)
    requires ':' !in d && |a| < |b|
    ensures a + ":" + d != b + ":" + e
  {
    var s, t := a + ":" + d, b + ":" + e;
    if |s| == |t| {
      assert t[|b|] == ':' && s[|b|] == d[|b| - |a| - 1];
    }
  }

  lemma LastColon(a: string, d: string, b: string, e: string)
    requires ':' !in d && ':' !in e
    ensures a + ":" + d == b + ":" + e <==> a == b && d == e
  {
    var s, t := a + ":" + d, b + ":" + e;
    if |a| < |b| {
      EarlierColon(a, d, b, e);
    } else if |b| < |a| {
      EarlierColon(b, e, a, d);
    } else {
      assert s[..|a|] == a && t[..|b|] == b;
      assert s[|a| + 1..] == d && t[|b| + 1..] == e;
    }
  }

  // An id that reads like the key and the offset of a message without one.
  predicate ReadsLike(id: EventId, m: Message) { id == KeyText(m) + ":" + Decimal(m.at.offset) }

  // Two messages taken for one event: by their own ids, where an empty one is none, or else by key text
  // and offset. Topic and partition play no part.
  ghost predicate SameEvent(a: Message, b: Message) {
    var own, other := a.eventId.Some? && a.eventId.value != "", b.eventId.Some? && b.eventId.value != "";
    if own && other then a.eventId == b.eventId
    else if own then ReadsLike(a.eventId.value, b)
    else if other then ReadsLike(b.eventId.value, a)
    else KeyText(a) == KeyText(b) && a.at.offset == b.at.offset
  }

  /** Two messages share an id exactly when both carry the same one, or neither carries one and they have
      the same key text and offset, or one carries what the other's key and offset read like. */
  lemma SharedIdIff(a: Message, b: Message)
    ensures ExtractEventId(a) == ExtractEventId(b) <==> SameEvent(a, b)
  {
    if !HasOwnId(a) && !HasOwnId(b) {
      DecimalIsRead(a.at.offset);
      DecimalIsRead(b.at.offset);
      LastColon(KeyText(a), Decimal(a.at.offset), KeyText(b), Decimal(b.at.offset));
    }
  }

  /** A message without id and key counts under the text None and its offset, as one with that key does,
      or with an id written so. */
  lemma KeylessReadsNone(at: Position, other: Position)
    requires at.offset == other.offset
    ensures var id := "None:" + Decimal(at.offset);
            && ExtractEventId(Message(at, None, None)) == id
            && SameEvent(Message(at, None, None), Message(other, Some("None"), None))
            && SameEvent(Message(at, None, None), Message(other, None, Some(id)))
  {
    assert "None" + ":" == "None:";
    assert ("None:" + Decimal(at.offset))[0] == 'N';
  }

  // A handling of this event that still counts.
  ghost predicate HandledRecently(cfg: Config, handled: seq<Handling>, m: Message, now: real) {
    exists h :: h in handled && SameEvent(h.msg, m) && now <= h.markedAt + cfg.ttl
  }

  lemma RecentById(cfg: Config, handled: seq<Handling>, m: Message, now: real)
    requires OwnIds(handled)
    ensures RecentlyHandled(cfg, handled, ExtractEventId(m), now) <==> HandledRecently(cfg, handled, m, now)
  {
    forall h | h in handled ensures h.id == ExtractEventId(m) <==> SameEvent(h.msg, m) {
      SharedIdIff(h.msg, m);
    }
  }

  // ---------------------------------------------------------------------------
  // What a run skips
  // ---------------------------------------------------------------------------

  /** At most once per TTL: two successful handlings of messages that share an id lie more than the TTL
      apart. */
  lemma AtMostOncePerTtl(cfg: Config, ds: seq<Delivery>, now: real, i: nat, j: nat)
    requires Timed(now, ds)
    requires var h := Consume(cfg, Fresh(), ds).handled; i < j < |h| && SameEvent(h[i].msg, h[j].msg)
    ensures var h := Consume(cfg, Fresh(), ds).handled;
            h[j].startedAt > h[i].markedAt + cfg.ttl
  {
    ConsumeKeepsInv(cfg, Fresh(), ds, now);
    ConsumeKeepsOwnIds(cfg, Fresh(), ds);
    var h := Consume(cfg, Fresh(), ds).handled;
    assert h[i] in h && h[j] in h;
    SharedIdIff(h[i].msg, h[j].msg);
  }

  /** After any run a message is skipped exactly when a message that shares its id was handled
      successfully no longer than the TTL ago; so a failed handler never makes its message a duplicate,
      and a new event id on a key used before is never skipped. */
  lemma DuplicateIffRecentlyHandled(cfg: Config, ds: seq<Delivery>, now: real, d: Delivery)
    requires Timed(now, ds) && EndOf(now, ds) <= d.checkAt <= d.markAt
    ensures var c := Consume(cfg, Fresh(), ds);
            var recent := HandledRecently(cfg, c.handled, d.msg, d.checkAt);
            && (IsDuplicate(c, d) <==> recent)
            && Process(cfg, c, d).handled ==
               if d.ok && !recent then c.handled + [Handling(d.msg, ExtractEventId(d.msg), d.checkAt, d.markAt)]
               else c.handled
  {
    ConsumeKeepsInv(cfg, Fresh(), ds, now);
    ConsumeKeepsOwnIds(cfg, Fresh(), ds);
    var c := Consume(cfg, Fresh(), ds);
    LookupIsHistory(cfg, c, ExtractEventId(d.msg), EndOf(now, ds), d.checkAt);
    RecentById(cfg, c.handled, d.msg, d.checkAt);
  }

  lemma RecentAfterOneMore(cfg: Config, handled: seq<Handling>, h: Handling, m: Message, now: real)
    ensures HandledRecently(cfg, handled + [h], m, now) <==>
            HandledRecently(cfg, handled, m, now) || (SameEvent(h.msg, m) && now <= h.markedAt + cfg.ttl)
  {
    var all := handled + [h];
    assert all[|handled|] == h;
    forall x ensures x in all <==> x in handled || x == h {
    }
  }

  /** After any run and then one successful handling, another message is skipped exactly when its event was
      handled before, or it shares the id of the one just handled and comes within the TTL: two
      messages without ids do so from different topics or partitions too. */
  lemma SkippedAfterAnotherIff(cfg: Config, ds: seq<Delivery>, now: real, a: Delivery, b: Delivery)
    requires Timed(now, ds) && EndOf(now, ds) <= a.checkAt <= a.markAt <= b.checkAt
    requires a.ok && !IsDuplicate(Consume(cfg, Fresh(), ds), a)
    ensures var c := Consume(cfg, Fresh(), ds);
            IsDuplicate(Process(cfg, c, a), b) <==>
            || HandledRecently(cfg, c.handled, b.msg, b.checkAt)
            || (SameEvent(a.msg, b.msg) && b.checkAt <= a.markAt + cfg.ttl)
  {
    var c := Consume(cfg, Fresh(), ds);
    ConsumeKeepsInv(cfg, Fresh(), ds, now);
    ConsumeKeepsOwnIds(cfg, Fresh(), ds);
    ProcessKeepsInv(cfg, c, a, EndOf(now, ds));
    var c' := Process(cfg, c, a);
    LookupIsHistory(cfg, c', ExtractEventId(b.msg), a.markAt, b.checkAt);
    var h := Handling(a.msg, ExtractEventId(a.msg), a.checkAt, a.markAt);
    assert c'.handled == c.handled + [h];
    RecentAfterOneMore(cfg, c.handled, h, b.msg, b.checkAt);
    RecentById(cfg, c'.handled, b.msg, b.checkAt);
  }

  // ---------------------------------------------------------------------------
  // Commits and the dead letter queue
  // ---------------------------------------------------------------------------

  // The messages polled while running.
  function Polled(ds: seq<Delivery>): seq<Message>
    decreases |ds|
  {
    if ds == [] || !ds[0].running then [] else [ds[0].msg] + Polled(ds[1..])
  }

  /** Every message polled is committed once, in order, whatever became of it. */
  lemma {:induction false} EachCommittedOnce(cfg: Config, c: Consumer, ds: seq<Delivery>)
    ensures Consume(cfg, c, ds).committed == c.committed + Polled(ds)
    decreases |ds|
  {
    if ds != [] && ds[0].running {
      EachCommittedOnce(cfg, Process(cfg, c, ds[0]), ds[1..]);
      assert c.committed + [ds[0].msg] + Polled(ds[1..]) == c.committed + ([ds[0].msg] + Polled(ds[1..]));
    }
  }

  // Kafka hands out each position once, as every message is committed.
  ghost predicate DistinctPositions(ds: seq<Delivery>) {
    forall i, j | 0 <= i < j < |ds| :: ds[i].msg.at != ds[j].msg.at
  }

  function Failure(c: Consumer, d: Delivery): seq<Message> {
    if !IsDuplicate(c, d) && !d.ok then [d.msg] else []
  }

  // The messages whose handler failed, in order.
  function Failures(cfg: Config, c: Consumer, ds: seq<Delivery>): seq<Message>
    decreases |ds|
  {
    if ds == [] || !ds[0].running then []
    else
      Failure(c, ds[0]) + Failures(cfg, Process(cfg, c, ds[0]), ds[1..])
  }

  lemma DlqStep(cfg: Config, c: Consumer, d: Delivery)
    requires d.msg.at !in c.retries
    ensures Process(cfg, c, d).dlq ==
            if cfg.maxRetries <= 1 then c.dlq + Failure(c, d) else c.dlq
    ensures Process(cfg, c, d).retries.Keys <= c.retries.Keys + {d.msg.at}
  {
  }

  ghost predicate NoneTried(ds: seq<Delivery>, tried: set<Position>) {
    forall k | 0 <= k < |ds| :: ds[k].msg.at !in tried
  }

  lemma RestIsUntried(ds: seq<Delivery>, tried: set<Position>, now: set<Position>)
    requires ds != [] && DistinctPositions(ds) && NoneTried(ds, tried)
    requires now <= tried + {ds[0].msg.at}
    ensures DistinctPositions(ds[1..]) && NoneTried(ds[1..], now)
  {
  }

  lemma {:induction false} DlqFrom(cfg: Config, c: Consumer, ds: seq<Delivery>)
    requires DistinctPositions(ds) && NoneTried(ds, c.retries.Keys)
    ensures Consume(cfg, c, ds).dlq == if cfg.maxRetries <= 1 then c.dlq + Failures(cfg, c, ds) else c.dlq
    decreases |ds|
  {
    if ds != [] && ds[0].running {
      var next, rest := Process(cfg, c, ds[0]), ds[1..];
      DlqStep(cfg, c, ds[0]);
      RestIsUntried(ds, c.retries.Keys, next.retries.Keys);
      DlqFrom(cfg, next, rest);
      Regrouped(c.dlq, Failure(c, ds[0]), Failures(cfg, next, rest));
    }
  }

  /** A failed message is committed, so it is polled only once and its count never passes one: failed
      messages reach the dead letter queue, all of them, exactly when at most one try is allowed. */
  lemma DeadLettersIffOneTry(cfg: Config, ds: seq<Delivery>)
    requires DistinctPositions(ds)
    ensures Consume(cfg, Fresh(), ds).dlq == if cfg.maxRetries <= 1 then Failures(cfg, Fresh(), ds) else []
  {
    DlqFrom(cfg, Fresh(), ds);
  }

  // The same message failing again and again, as it would if it were handed out again.
  function FailedTimes(cfg: Config, c: Consumer, m: Message, n: nat): Consumer {
    if n == 0 then c else Failed(cfg, FailedTimes(cfg, c, m, n - 1), m)
  }

  function Copies(m: Message, n: nat): seq<Message> {
    if n == 0 then [] else Copies(m, n - 1) + [m]
  }

  /** A message that keeps failing goes to the dead letter queue on every max_retries-th failure, counted
      per message, and its count starts anew then: after q rounds of k failures and r more, it is there
      q times and its count is r. */
  lemma {:induction false} DeadLetterEveryMaxRetries(
    cfg: Config, c: Consumer, m: Message, n: nat, k: nat, q: nat, r: nat)
    requires m.at !in c.retries && k == (if cfg.maxRetries <= 1 then 1 else cfg.maxRetries)
    requires n == q * k + r && r < k
    ensures var c' := FailedTimes(cfg, c, m, n);
            && c'.dlq == c.dlq + Copies(m, q)
            && c'.retries == if r == 0 then c.retries else c.retries[m.at := r]
  {
    if r > 0 {
      DeadLetterEveryMaxRetries(cfg, c, m, n - 1, k, q, r - 1);
    } else if q > 0 {
      assert q * k == (q - 1) * k + k;
      DeadLetterEveryMaxRetries(cfg, c, m, n - 1, k, q - 1, k - 1);
    }
  }

  // ---------------------------------------------------------------------------
  // Cleanup is invisible
  // ---------------------------------------------------------------------------

  // A cleanup between two turns, or any number of them while the loop awaits a handler.
  datatype Event = Deliver(d: Delivery, during: seq<real>) | Cleanup(now: real)

  function Cleaned(store: Store, times: seq<real>): Store
    decreases |times|
  {
    if times == [] then store else Cleaned(store - Expired(store, times[0]), times[1..])
  }

  function Interrupted(cfg: Config, c: Consumer, d: Delivery, during: seq<real>): Consumer {
    var id := ExtractEventId(d.msg);
    var (store, duplicate) := Lookup(c.store, id, d.checkAt);
    Finish(cfg, c.(store := Cleaned(store, during)), d, id, duplicate)
  }

  function Apply(cfg: Config, c: Consumer, e: Event): Consumer {
    match e
    case Deliver(d, during) => Interrupted(cfg, c, d, during)
    case Cleanup(now) => c.(store := Cleaned(c.store, [now]))
  }

  function Run(cfg: Config, c: Consumer, es: seq<Event>): Consumer
    decreases |es|
  {
    if es == [] then c else Run(cfg, Apply(cfg, c, es[0]), es[1..])
  }

  // The messages delivered, which are then processed one by one without any cleanup.
  function Delivered(es: seq<Event>): seq<Delivery> {
    if es == [] then []
    else (if es[0].Deliver? then [es[0].d.(running := true)] else []) + Delivered(es[1..])
  }

  predicate InOrder(from: real, times: seq<real>, to: real)
    decreases |times|
  {
    if times == [] then from <= to else from <= times[0] && InOrder(times[0], times[1..], to)
  }

  predicate EventsTimed(now: real, es: seq<Event>)
    decreases |es|
  {
    es == [] ||
    (match es[0]
     case Deliver(d, during) =>
       now <= d.checkAt && InOrder(d.checkAt, during, d.markAt) && EventsTimed(d.markAt, es[1..])
     case Cleanup(at) => now <= at && EventsTimed(at, es[1..]))
  }

  // Equal but for entries that have expired.
  ghost predicate SameLive(a: Store, b: Store, now: real) {
    && (forall id | id in a && now <= a[id] :: id in b && b[id] == a[id])
    && (forall id | id in b && now <= b[id] :: id in a && a[id] == b[id])
  }

  ghost predicate Alike(a: Consumer, b: Consumer, now: real) {
    a == b.(store := a.store) && SameLive(a.store, b.store, now)
  }

  lemma LookupSameLive(a: Store, b: Store, id: EventId, before: real, now: real)
    requires SameLive(a, b, before) && before <= now
    ensures SameLive(Lookup(a, id, now).0, Lookup(b, id, now).0, now)
    ensures Lookup(a, id, now).1 <==> Lookup(b, id, now).1
  {
  }

  lemma OneCleanupSameLive(a: Store, b: Store, before: real, now: real)
    requires SameLive(a, b, before) && before <= now
    ensures SameLive(a - Expired(a, now), b, now)
  {
  }

  lemma {:induction false} CleanedSameLive(a: Store, b: Store, from: real, times: seq<real>, to: real)
    requires SameLive(a, b, from) && InOrder(from, times, to)
    ensures from <= to && SameLive(Cleaned(a, times), b, to)
    decreases |times|
  {
    if times != [] {
      OneCleanupSameLive(a, b, from, times[0]);
      CleanedSameLive(a - Expired(a, times[0]), b, times[0], times[1..], to);
    }
  }

  lemma FinishAlike(cfg: Config, a: Consumer, b: Consumer, d: Delivery, id: EventId, duplicate: bool)
    requires Alike(a, b, d.markAt)
    ensures Alike(Finish(cfg, a, d, id, duplicate), Finish(cfg, b, d, id, duplicate), d.markAt)
  {
  }

  lemma InterruptedAlike(cfg: Config, a: Consumer, b: Consumer, d: Delivery, during: seq<real>, now: real)
    requires Alike(a, b, now) && now <= d.checkAt && InOrder(d.checkAt, during, d.markAt)
    ensures Alike(Interrupted(cfg, a, d, during), Process(cfg, b, d), d.markAt)
    ensures IsDuplicate(a, d) <==> IsDuplicate(b, d)
  {
    var id := ExtractEventId(d.msg);
    var (x, duplicate) := Lookup(a.store, id, d.checkAt);
    var y := Lookup(b.store, id, d.checkAt).0;
    LookupSameLive(a.store, b.store, id, now, d.checkAt);
    CleanedSameLive(x, y, d.checkAt, during, d.markAt);
    FinishAlike(cfg, a.(store := Cleaned(x, during)), b.(store := y), d, id, duplicate);
  }

  lemma ConsumeFirst(cfg: Config, c: Consumer, d: Delivery, rest: seq<Delivery>)
    ensures Consume(cfg, c, [d.(running := true)] + rest) == Consume(cfg, Process(cfg, c, d), rest)
  {
    var d' := d.(running := true);
    assert ([d'] + rest)[1..] == rest;
    assert Process(cfg, c, d') == Process(cfg, c, d);
  }

  lemma {:induction false} RunAlike(cfg: Config, a: Consumer, b: Consumer, es: seq<Event>, now: real)
    requires Alike(a, b, now) && EventsTimed(now, es)
    ensures var x, y := Run(cfg, a, es), Consume(cfg, b, Delivered(es));
            x == y.(store := x.store)
    decreases |es|
  {
    if es != [] {
      match es[0]
      case Deliver(d, during) =>
        InterruptedAlike(cfg, a, b, d, during, now);
        ConsumeFirst(cfg, b, d, Delivered(es[1..]));
        RunAlike(cfg, Apply(cfg, a, es[0]), Process(cfg, b, d), es[1..], d.markAt);
      case Cleanup(at) =>
        CleanedSameLive(a.store, b.store, now, [at], at);
        assert [] + Delivered(es[1..]) == Delivered(es[1..]);
        RunAlike(cfg, Apply(cfg, a, es[0]), b, es[1..], at);
    }
  }

  /** Inserting cleanup_expired anywhere, between turns or while a handler is awaited, changes nothing but
      the store: the same messages are handled, skipped, committed and sent to the dead letter queue as
      in a consume_loop without it. */
  lemma CleanupIsInvisible(cfg: Config, es: seq<Event>, now: real)
    requires EventsTimed(now, es)
    ensures var x, y := Run(cfg, Fresh(), es), Consume(cfg, Fresh(), Delivered(es));
            && x.handled == y.handled && x.committed == y.committed
            && x.dlq == y.dlq && x.retries == y.retries
  {
    RunAlike(cfg, Fresh(), Fresh(), es, now);
  }

  // ---------------------------------------------------------------------------
  // Several loops over one store
  // ---------------------------------------------------------------------------

  // What the loops do to the store, in turn: one looks an id up, marks or gives up the k-th message
  // in some handler's hands, or a cleanup runs.
  datatype Act = Look(id: EventId, at: real) | Mark(k: nat, at: real) | GiveUp(k: nat) | Sweep(at: real)

  // A message in a handler's hands. Acts are numbered; `look` is the number of its lookup.
  datatype Pending = Pending(id: EventId, startedAt: real, look: nat)

  // A successful handling, from its lookup to its mark.
  datatype Span = Span(id: EventId, startedAt: real, look: nat, markedAt: real, mark: nat)

  datatype Loops = Loops(store: Store, pending: seq<Pending>, done: seq<Span>, acts: nat)

  function WithoutPending(pending: seq<Pending>, k: nat): seq<Pending>
    requires k < |pending|
  {
    pending[..k] + pending[k + 1..]
  }

  function NextAct(ttl: real, s: Loops, act: Act): Loops {
    var s1 := s.(acts := s.acts + 1);
    match act
    case Look(id, at) =>
      var (store, duplicate) := Lookup(s.store, id, at);
      s1.(store := store, pending := if duplicate then s.pending else s.pending + [Pending(id, at, s.acts)])
    case Mark(k, at) =>
      if k >= |s.pending| then s1
      else
        var p := s.pending[k];
        s1.(store := s.store[p.id := at + ttl], pending := WithoutPending(s.pending, k),
            done := s.done + [Span(p.id, p.startedAt, p.look, at, s.acts)])
    case GiveUp(k) => if k >= |s.pending| then s1 else s1.(pending := WithoutPending(s.pending, k))
    case Sweep(at) => s1.(store := s.store - Expired(s.store, at))
  }

  function RunActs(ttl: real, s: Loops, acts: seq<Act>): Loops
    decreases |acts|
  {
    if acts == [] then s else RunActs(ttl, NextAct(ttl, s, acts[0]), acts[1..])
  }

  function TimeOf(act: Act, now: real): real { if act.GiveUp? then now else act.at }

  predicate ActsTimed(now: real, acts: seq<Act>)
    decreases |acts|
  {
    acts == [] || (now <= TimeOf(acts[0], now) && ActsTimed(TimeOf(acts[0], now), acts[1..]))
  }

  // A lookup that comes after a mark of the same id is more than the TTL later; one that came before
  // it was no later on the clock.
  predicate Settled(ttl: real, h: Span, look: nat, startedAt: real) {
    if h.mark < look then startedAt > h.markedAt + ttl else startedAt <= h.markedAt
  }

  ghost predicate DoneKept(ttl: real, s: Loops, now: real) {
    forall h | h in s.done ::
      && h.markedAt <= now && h.mark < s.acts
      && (now > h.markedAt + ttl || (h.id in s.store && h.markedAt + ttl <= s.store[h.id]))
  }

  ghost predicate PendingSettled(ttl: real, s: Loops, now: real) {
    forall p | p in s.pending ::
      && p.startedAt <= now && p.look < s.acts
      && forall h | h in s.done && h.id == p.id :: Settled(ttl, h, p.look, p.startedAt)
  }

  ghost predicate DoneSettled(ttl: real, done: seq<Span>) {
    forall i, j | 0 <= i < j < |done| && done[i].id == done[j].id ::
      Settled(ttl, done[i], done[j].look, done[j].startedAt)
  }

  ghost predicate LoopsInv(ttl: real, s: Loops, now: real) {
    DoneKept(ttl, s, now) && PendingSettled(ttl, s, now) && DoneSettled(ttl, s.done)
  }

  lemma ActKeepsDone(ttl: real, s: Loops, act: Act, now: real)
    requires LoopsInv(ttl, s, now) && now <= TimeOf(act, now)
    ensures DoneKept(ttl, NextAct(ttl, s, act), TimeOf(act, now))
  {
  }

  lemma ActSettlesPending(ttl: real, s: Loops, act: Act, now: real)
    requires LoopsInv(ttl, s, now) && now <= TimeOf(act, now)
    ensures PendingSettled(ttl, NextAct(ttl, s, act), TimeOf(act, now))
  {
  }

  lemma ActSettlesDone(ttl: real, s: Loops, act: Act, now: real)
    requires LoopsInv(ttl, s, now)
    ensures DoneSettled(ttl, NextAct(ttl, s, act).done)
  {
    if act.Mark? && act.k < |s.pending| {
      var p := s.pending[act.k];
      assert p in s.pending;
    }
  }

  lemma {:induction false} ActsKeepInv(ttl: real, s: Loops, acts: seq<Act>, now: real) returns (end: real)
    requires LoopsInv(ttl, s, now) && ActsTimed(now, acts)
    ensures LoopsInv(ttl, RunActs(ttl, s, acts), end)
    decreases |acts|
  {
    if acts == [] {
      end := now;
    } else {
      ActKeepsDone(ttl, s, acts[0], now);
      ActSettlesPending(ttl, s, acts[0], now);
      ActSettlesDone(ttl, s, acts[0], now);
      end := ActsKeepInv(ttl, NextAct(ttl, s, acts[0]), acts[1..], TimeOf(acts[0], now));
    }
  }

  /** Several loops share one store. Of two successful handlings of one id, the one marked later starts
      more than the TTL after the other was marked exactly when it was looked up after that mark; so
      two fall within the TTL exactly when their spans from lookup to mark overlap. */
  lemma WithinTtlIffOverlapping(ttl: real, acts: seq<Act>, now: real, i: nat, j: nat)
    requires ttl >= 0.0 && ActsTimed(now, acts)
    requires var done := RunActs(ttl, Loops(map[], [], [], 0), acts).done;
             i < j < |done| && done[i].id == done[j].id
    ensures var done := RunActs(ttl, Loops(map[], [], [], 0), acts).done;
            done[j].startedAt > done[i].markedAt + ttl <==> done[i].mark < done[j].look
  {
    var end := ActsKeepInv(ttl, Loops(map[], [], [], 0), acts, now);
    var done := RunActs(ttl, Loops(map[], [], [], 0), acts).done;
    assert Settled(ttl, done[i], done[j].look, done[j].startedAt);
  }
}
