/** Versioned rows and the compare-and-set on the version column
    (shared/optimistic_locking.py), first as one call on a table, then as any
    number of clients whose reads and conditional updates interleave. */
module OptimisticLocking {

  import opened Prelude

  type RecordId = string
  type TenantId = string
  type Fields = map<string, string>

  // The version column is kept apart from the other columns.
  const VERSION := "version"

  datatype Record = Record(tenant: TenantId, version: int, fields: Fields)

  datatype UpdateResult =
    | Updated(version: int)
    | NotFound
    | Conflict(expected: int)

  // What update_fn returns: the version it saw and the columns to write.
  type UpdateFn = Record -> (int, Fields)

  // The WHERE clause without its version test; an empty tenant is no filter.
  predicate Visible(rows: map<RecordId, Record>, id: RecordId, tenant: TenantId) {
    id in rows && (tenant != "" ==> rows[id].tenant == tenant)
  }

  // The new row: update_data first, then the version on top of it.
  function Put(r: Record, data: Fields): Record {
    Record(r.tenant, r.version + 1, r.fields + (data - {VERSION}))
  }

  // What a row has in a column, if anything.
  function Column(r: Record, col: string): Option<string> {
    if col in r.fields then Some(r.fields[col]) else None
  }

  // A write names a column; what it has for the version column counts for nothing.
  predicate Names(data: Fields, col: string) { col in data && col != VERSION }

  // Every column an update names takes its value, and every other stays as it is.
  ghost predicate Written(r: Record, data: Fields, r': Record) {
    && r'.tenant == r.tenant && r'.version == r.version + 1
    && forall col :: Column(r', col) == if Names(data, col) then Some(data[col]) else Column(r, col)
  }

  lemma PutIsWritten(r: Record, data: Fields)
    ensures Written(r, data, Put(r, data))
  {
  }

  // Every data written to one row, in order.
  function PutAll(r: Record, writes: seq<Fields>): (r': Record)
    ensures r'.version == r.version + |writes| && r'.tenant == r.tenant
    decreases |writes|
  {
    if writes == [] then r
    else Put(PutAll(r, writes[..|writes| - 1]), writes[|writes| - 1])
  }

  lemma {:induction false} PutAllConcat(r: Record, a: seq<Fields>, b: seq<Fields>)
    ensures PutAll(r, a + b) == PutAll(PutAll(r, a), b)
    decreases |b|
  {
    if b == [] {
      assert a + b == a;
    } else {
      var b' := b[..|b| - 1];
      PutAllConcat(r, a, b');
      assert (a + b)[..|a + b| - 1] == a + b';
    }
  }

  // ---------------------------------------------------------------------------
  // One call on a table
  // ---------------------------------------------------------------------------

  // What other clients commit to the row during attempt k, between its read and its UPDATE.
  function During(others: seq<seq<Fields>>, k: nat): seq<Fields> {
    if k < |others| then others[k] else []
  }

  // The row and the answer once attempts k to n are made, whatever update_fn returns. The update is
  // computed from the row an attempt reads and written over the row it finds.
  function Retried(row: Record, fn: UpdateFn, others: seq<seq<Fields>>, k: nat, n: nat): (Record, UpdateResult)
    requires k < n
    decreases n - k
  {
    var found := PutAll(row, During(others, k));
    if fn(row).0 == found.version then (Put(found, fn(row).1), Updated(found.version + 1))
    else if k + 1 == n then (found, Conflict(fn(row).0))
    else Retried(found, fn, others, k + 1, n)
  }

  // The first attempt from k on that nobody disturbs, or n.
  function FirstQuiet(others: seq<seq<Fields>>, k: nat, n: nat): (q: nat)
    requires k <= n
    ensures k <= q <= n && (q < n ==> During(others, q) == [])
    decreases n - k
  {
    if k == n || During(others, k) == [] then k else FirstQuiet(others, k + 1, n)
  }

  // Everything the others commit during attempts k to q.
  function Disturbances(others: seq<seq<Fields>>, k: nat, q: nat): seq<Fields>
    requires k <= q
    decreases q - k
  {
    if k == q then [] else During(others, k) + Disturbances(others, k + 1, q)
  }

  ghost predicate Honestly(fn: UpdateFn) {
    forall rec: Record :: fn(rec).0 == rec.version
  }

  // One update over this row, or none.
  predicate LandsOn(before: Record, fn: UpdateFn, lands: bool, done: (Record, UpdateResult)) {
    if lands then done == (Put(before, fn(before).1), Updated(before.version + 1))
    else done.0 == before && done.1.Conflict?
  }

  lemma RetriedFirst(row: Record, fn: UpdateFn, others: seq<seq<Fields>>, k: nat, n: nat)
    requires k < n && Honestly(fn)
    ensures var found := PutAll(row, During(others, k));
            Retried(row, fn, others, k, n) ==
            if During(others, k) == [] then (Put(row, fn(row).1), Updated(row.version + 1))
            else if k + 1 == n then (found, Conflict(row.version))
            else Retried(found, fn, others, k + 1, n)
  {
    assert fn(row).0 == row.version;
  }

  lemma {:induction false} FirstQuietIsFirst(others: seq<seq<Fields>>, k: nat, n: nat)
    requires k <= n
    ensures forall j | k <= j < FirstQuiet(others, k, n) :: During(others, j) != []
    decreases n - k
  {
    if k < n { FirstQuietIsFirst(others, k + 1, n); }
  }

  ghost predicate LandsFirst(row: Record, fn: UpdateFn, others: seq<seq<Fields>>, k: nat, n: nat)
    requires k < n
  {
    var q := FirstQuiet(others, k, n);
    LandsOn(PutAll(row, Disturbances(others, k, q)), fn, q < n, Retried(row, fn, others, k, n))
  }

  lemma LandsNow(row: Record, fn: UpdateFn, others: seq<seq<Fields>>, k: nat, n: nat)
    requires k < n && Honestly(fn) && (During(others, k) == [] || k + 1 == n)
    ensures LandsFirst(row, fn, others, k, n)
  {
    RetriedFirst(row, fn, others, k, n);
    if During(others, k) != [] {
      assert Disturbances(others, k, n) == During(others, k) + [] == During(others, k);
    }
  }

  lemma LandsLater(row: Record, fn: UpdateFn, others: seq<seq<Fields>>, k: nat, n: nat)
    requires k + 1 < n && Honestly(fn) && During(others, k) != []
    requires LandsFirst(PutAll(row, During(others, k)), fn, others, k + 1, n)
    ensures LandsFirst(row, fn, others, k, n)
  {
    RetriedFirst(row, fn, others, k, n);
    PutAllConcat(row, During(others, k), Disturbances(others, k + 1, FirstQuiet(others, k + 1, n)));
  }

  lemma {:induction false} LandsFrom(row: Record, fn: UpdateFn, others: seq<seq<Fields>>, k: nat, n: nat)
    requires k < n && Honestly(fn)
    ensures LandsFirst(row, fn, others, k, n)
    decreases n - k
  {
    if During(others, k) == [] || k + 1 == n {
      LandsNow(row, fn, others, k, n);
    } else {
      LandsFrom(PutAll(row, During(others, k)), fn, others, k + 1, n);
      LandsLater(row, fn, others, k, n);
    }
  }

  /** An update_fn that returns the version of the record it was given lands on the first attempt that
      no other commit falls into, computed from the row as it is at that moment; with no such attempt
      only the others' writes are in the row. */
  lemma HonestLandsWhenQuiet(row: Record, fn: UpdateFn, others: seq<seq<Fields>>, k: nat, n: nat)
    requires k < n && Honestly(fn)
    ensures var q := FirstQuiet(others, k, n);
            && (forall j | k <= j < q :: During(others, j) != [])
            && (q < n ==> During(others, q) == [])
            && LandsOn(PutAll(row, Disturbances(others, k, q)), fn, q < n, Retried(row, fn, others, k, n))
  {
    FirstQuietIsFirst(others, k, n);
    LandsFrom(row, fn, others, k, n);
  }

  // The row and the answer when attempt q lands, or none does.
  ghost predicate LandsAt(
    row: Record, fn: UpdateFn, others: seq<seq<Fields>>, k: nat, n: nat, q: nat, done: (Record, UpdateResult))
    requires k <= q <= n
  {
    if q == n then done.1.Conflict? && done.0 == PutAll(row, Disturbances(others, k, n))
    else
      var seen, found := PutAll(row, Disturbances(others, k, q)), PutAll(row, Disturbances(others, k, q + 1));
      fn(seen).0 == found.version && done == (Put(found, fn(seen).1), Updated(found.version + 1))
  }

  lemma LandsAtFirst(row: Record, fn: UpdateFn, others: seq<seq<Fields>>, k: nat, n: nat, q: nat)
    requires k < n && (if fn(row).0 == PutAll(row, During(others, k)).version then q == k else k + 1 == n == q)
    ensures LandsAt(row, fn, others, k, n, q, Retried(row, fn, others, k, n))
  {
    assert Disturbances(others, k, k) == [];
    assert Disturbances(others, k, k + 1) == During(others, k) + [] == During(others, k);
  }

  lemma LandsAtLater(
    row: Record, fn: UpdateFn, others: seq<seq<Fields>>, k: nat, n: nat, q: nat, done: (Record, UpdateResult))
    requires k + 1 <= q <= n
    requires LandsAt(PutAll(row, During(others, k)), fn, others, k + 1, n, q, done)
    ensures LandsAt(row, fn, others, k, n, q, done)
  {
    PutAllConcat(row, During(others, k), Disturbances(others, k + 1, q));
    if q < n { PutAllConcat(row, During(others, k), Disturbances(others, k + 1, q + 1)); }
  }

  /** Whatever update_fn returns, a retry loses no write of the others. It lands on an attempt q whose
      returned version is the one the row has by the time of the UPDATE, computed from the row read
      then and written over everything committed until then; or it does not land, and the others' writes
      are all there is. */
  lemma {:induction false} RetryKeepsForeignWrites(
    row: Record, fn: UpdateFn, others: seq<seq<Fields>>, k: nat, n: nat) returns (q: nat)
    requires k < n
    ensures k <= q <= n && LandsAt(row, fn, others, k, n, q, Retried(row, fn, others, k, n))
    decreases n - k
  {
    var found := PutAll(row, During(others, k));
    if fn(row).0 == found.version {
      q := k;
      LandsAtFirst(row, fn, others, k, n, q);
    } else if k + 1 == n {
      q := n;
      LandsAtFirst(row, fn, others, k, n, q);
    } else {
      q := RetryKeepsForeignWrites(found, fn, others, k + 1, n);
      LandsAtLater(row, fn, others, k, n, q, Retried(row, fn, others, k, n));
    }
  }

  class Table {
    var rows: map<RecordId, Record>

    // optimistic_update: the UPDATE carries the version test, and a miss is told apart afterwards.
    method OptimisticUpdate(id: RecordId, data: Fields, expected: int, tenant: TenantId)
      returns (r: UpdateResult)
      modifies this
      ensures !Visible(old(rows), id, tenant) ==> r == NotFound && rows == old(rows)
      ensures Visible(old(rows), id, tenant) && old(rows)[id].version != expected ==>
                r == Conflict(expected) && rows == old(rows)
      ensures Visible(old(rows), id, tenant) && old(rows)[id].version == expected ==>
                r == Updated(expected + 1) && rows == old(rows)[id := Put(old(rows)[id], data)]
      ensures r.Updated? ==> id in rows && Written(old(rows)[id], data, rows[id])
      ensures r.NotFound? <==> id !in old(rows) || (tenant != "" && old(rows)[id].tenant != tenant)
      ensures !r.Updated? ==> rows == old(rows)
      ensures rows.Keys == old(rows).Keys
      ensures forall other | other in rows && other != id :: rows[other] == old(rows)[other]
    {
      if id in rows { PutIsWritten(rows[id], data); }
      if Visible(rows, id, tenant) && rows[id].version == expected {
        var row := rows[id];
        rows := rows[id := Record(row.tenant, expected + 1, row.fields + (data - {VERSION}))];
        r := Updated(rows[id].version);
      } else if !Visible(rows, id, tenant) {
        r := NotFound;
      } else {
        r := Conflict(expected);
      }
    }

    // One turn of the retry loop; the other clients commit between the read and the UPDATE.
    method Attempt(id: RecordId, fn: UpdateFn, tenant: TenantId, meanwhile: seq<Fields>)
      returns (r: UpdateResult)
      modifies this
      ensures !Visible(old(rows), id, tenant) ==> r == NotFound && rows == old(rows)
      ensures Visible(old(rows), id, tenant) ==>
                var rec := old(rows)[id];
                var row := PutAll(rec, meanwhile);
                if fn(rec).0 == row.version then
                  r == Updated(row.version + 1) && rows == old(rows)[id := Put(row, fn(rec).1)]
                else
                  r == Conflict(fn(rec).0) && rows == old(rows)[id := row]
    {
      if !Visible(rows, id, tenant) {
        return NotFound;
      }
      var record := rows[id];
      var (version, data) := fn(record);
      rows := rows[id := PutAll(record, meanwhile)];
      r := OptimisticUpdate(id, data, version, tenant);
    }

    // optimistic_update_with_retry, for any update_fn.
    method OptimisticUpdateWithRetry(
      id: RecordId, fn: UpdateFn, tenant: TenantId, maxRetries: int, others: seq<seq<Fields>>)
      returns (r: UpdateResult)
      modifies this
      ensures maxRetries <= 0 ==> r == Conflict(-1) && rows == old(rows)
      ensures maxRetries > 0 && !Visible(old(rows), id, tenant) ==>
                r == NotFound && rows == old(rows)
      ensures maxRetries > 0 && Visible(old(rows), id, tenant) ==>
                var (row, answer) := Retried(old(rows)[id], fn, others, 0, maxRetries);
                r == answer && rows == old(rows)[id := row]
    {
      if maxRetries <= 0 {
        return Conflict(-1);
      }
      ghost var rows0 := rows;
      var attempt := 0;
      while true
        invariant 0 <= attempt < maxRetries
        invariant Visible(rows, id, tenant) <==> Visible(rows0, id, tenant)
        invariant Visible(rows0, id, tenant) ==>
                    && rows == rows0[id := rows[id]]
                    && Retried(rows[id], fn, others, attempt, maxRetries) ==
                       Retried(rows0[id], fn, others, 0, maxRetries)
        invariant !Visible(rows0, id, tenant) ==> rows == rows0
        decreases maxRetries - attempt
      {
        r := Attempt(id, fn, tenant, During(others, attempt));
        if !r.Conflict? {
          return;
        }
        attempt := attempt + 1;
        if attempt == maxRetries {
          return;
        }
      }
    }
  }

  // ---------------------------------------------------------------------------
  // Any number of clients on one row
  // ---------------------------------------------------------------------------

  /** Where one client is in optimistic_update_with_retry. `since` is history: how many commits
      had been made when the call began. */
  datatype Phase =
    | Idle
    | Ready(attempt: nat, since: nat)
    | Holding(attempt: nat, since: nat, seen: Record)
    | Exhausted(since: nat)

  // `conflicts` is history: every conflict the client ever met, over all its calls.
  datatype Client = Client(phase: Phase, conflicts: nat)

  datatype Commit = Commit(client: nat, seen: Record, data: Fields)

  datatype System = System(row: Record, clients: seq<Client>, log: seq<Commit>)

  datatype Step =
    | Begin(client: nat)
    | Read(client: nat)
    | Write(client: nat, version: int, data: Fields)

  function Initial(row: Record, n: nat): System {
    System(row, seq(n, _ => Client(Idle, 0)), [])
  }

  function Move(s: System, c: nat, p: Phase): System
    requires c < |s.clients|
  {
    s.(clients := s.clients[c := s.clients[c].(phase := p)])
  }

  // One atomic step; a step its client is not ready for changes nothing.
  function Next(s: System, step: Step, maxRetries: nat): System {
    if step.client >= |s.clients| then s else
    var c := step.client;
    match (step, s.clients[c].phase)
    case (Begin(_), Idle) =>
      Move(s, c, if maxRetries == 0 then Exhausted(|s.log|) else Ready(0, |s.log|))
    case (Begin(_), Exhausted(_)) =>
      Move(s, c, if maxRetries == 0 then Exhausted(|s.log|) else Ready(0, |s.log|))
    case (Read(_), Ready(attempt, since)) =>
      Move(s, c, Holding(attempt, since, s.row))
    case (Write(_, version, data), Holding(attempt, since, seen)) =>
      if version == s.row.version then
        Move(s, c, Idle).(row := Put(s.row, data), log := s.log + [Commit(c, seen, data)])
      else
        var p := if attempt + 1 < maxRetries then Ready(attempt + 1, since) else Exhausted(since);
        s.(clients := s.clients[c := Client(p, s.clients[c].conflicts + 1)])
    case _ => s
  }

  // update_fn returned the version of the record it was given.
  predicate Honest(s: System, step: Step) {
    step.Write? && step.client < |s.clients| && s.clients[step.client].phase.Holding? ==>
      step.version == s.clients[step.client].phase.seen.version
  }

  function Run(s: System, steps: seq<Step>, maxRetries: nat): System
    decreases |steps|
  {
    if steps == [] then s else Run(Next(s, steps[0], maxRetries), steps[1..], maxRetries)
  }

  predicate Commits(s: System, step: Step) {
    && step.Write? && step.client < |s.clients| && s.clients[step.client].phase.Holding?
    && step.version == s.row.version
  }

  // Every write that commits was honest, though not every one that conflicts.
  ghost predicate HonestCommits(s: System, steps: seq<Step>, maxRetries: nat)
    decreases |steps|
  {
    steps == [] ||
    ((Commits(s, steps[0]) ==> Honest(s, steps[0])) &&
     HonestCommits(Next(s, steps[0], maxRetries), steps[1..], maxRetries))
  }

  // And the other way round.
  ghost predicate HonestConflicts(s: System, steps: seq<Step>, maxRetries: nat)
    decreases |steps|
  {
    steps == [] ||
    ((!Commits(s, steps[0]) ==> Honest(s, steps[0])) &&
     HonestConflicts(Next(s, steps[0], maxRetries), steps[1..], maxRetries))
  }

  // The row after the first k commits, each applied to the one before it.
  function Replay(init: Record, log: seq<Commit>, k: nat): (r: Record)
    requires k <= |log|
    ensures r.version == init.version + k
  {
    if k == 0 then init else Put(Replay(init, log, k - 1), log[k - 1].data)
  }

  // Commits of clients other than c among log[lo..hi].
  function Foreign(log: seq<Commit>, c: nat, lo: nat, hi: nat): (f: nat)
    requires lo <= hi <= |log|
    ensures f <= hi - lo
    decreases hi
  {
    if hi == lo then 0
    else Foreign(log, c, lo, hi - 1) + (if log[hi - 1].client != c then 1 else 0)
  }

  lemma {:induction false} ReplayFrame(init: Record, log: seq<Commit>, x: Commit, k: nat)
    requires k <= |log|
    ensures Replay(init, log + [x], k) == Replay(init, log, k)
  {
    if k > 0 { ReplayFrame(init, log, x, k - 1); }
  }

  lemma {:induction false} ForeignFrame(log: seq<Commit>, x: Commit, c: nat, lo: nat, hi: nat)
    requires lo <= hi <= |log|
    ensures Foreign(log + [x], c, lo, hi) == Foreign(log, c, lo, hi)
    decreases hi
  {
    if lo < hi { ForeignFrame(log, x, c, lo, hi - 1); }
  }

  lemma {:induction false} ForeignSplit(log: seq<Commit>, c: nat, lo: nat, mid: nat, hi: nat)
    requires lo <= mid <= hi <= |log|
    ensures Foreign(log, c, lo, hi) == Foreign(log, c, lo, mid) + Foreign(log, c, mid, hi)
    decreases hi
  {
    if mid < hi { ForeignSplit(log, c, lo, mid, hi - 1); }
  }

  // The commits that client c's next write can still conflict with are all foreign.
  ghost predicate ClientInv(init: Record, log: seq<Commit>, c: nat, cl: Client, maxRetries: nat) {
    match cl.phase
    case Idle =>
      cl.conflicts <= Foreign(log, c, 0, |log|)
    case Ready(attempt, since) =>
      && since <= |log|
      && attempt <= Foreign(log, c, since, |log|)
      && cl.conflicts <= Foreign(log, c, 0, |log|)
    case Holding(attempt, since, seen) =>
      var at := seen.version - init.version;
      && since <= at <= |log|
      && seen == Replay(init, log, at)
      && Foreign(log, c, at, |log|) == |log| - at
      && attempt <= Foreign(log, c, since, at)
      && cl.conflicts <= Foreign(log, c, 0, at)
    case Exhausted(since) =>
      && since <= |log|
      && maxRetries <= Foreign(log, c, since, |log|)
      && cl.conflicts <= Foreign(log, c, 0, |log|)
  }

  ghost predicate LogInv(init: Record, n: nat, row: Record, log: seq<Commit>) {
    row == Replay(init, log, |log|) && forall k | 0 <= k < |log| :: log[k].client < n
  }

  ghost predicate ClientsInv(init: Record, log: seq<Commit>, clients: seq<Client>, maxRetries: nat) {
    forall c | 0 <= c < |clients| :: ClientInv(init, log, c, clients[c], maxRetries)
  }

  ghost predicate Inv(init: Record, n: nat, s: System, maxRetries: nat) {
    && |s.clients| == n
    && LogInv(init, n, s.row, s.log)
    && ClientsInv(init, s.log, s.clients, maxRetries)
  }

  lemma ClientInvFrame(init: Record, log: seq<Commit>, x: Commit, c: nat, cl: Client, maxRetries: nat)
    requires ClientInv(init, log, c, cl, maxRetries) && x.client != c
    ensures ClientInv(init, log + [x], c, cl, maxRetries)
  {
    ForeignFrame(log, x, c, 0, |log|);
    match cl.phase
    case Idle =>
    case Ready(_, since) => ForeignFrame(log, x, c, since, |log|);
    case Holding(_, since, seen) =>
      var at := seen.version - init.version;
      ReplayFrame(init, log, x, at);
      ForeignFrame(log, x, c, since, at);
      ForeignFrame(log, x, c, at, |log|);
      ForeignFrame(log, x, c, 0, at);
    case Exhausted(since) => ForeignFrame(log, x, c, since, |log|);
  }

  // Whatever it had seen, a client that commits is done.
  lemma WriterGoesIdle(init: Record, log: seq<Commit>, x: Commit, cl: Client, maxRetries: nat)
    requires ClientInv(init, log, x.client, cl, maxRetries) && cl.phase.Holding?
    ensures ClientInv(init, log + [x], x.client, cl.(phase := Idle), maxRetries)
  {
    ForeignFrame(log, x, x.client, 0, |log|);
    ForeignSplit(log, x.client, 0, cl.phase.seen.version - init.version, |log|);
  }

  lemma ClientsGrow(init: Record, log: seq<Commit>, x: Commit, clients: seq<Client>, maxRetries: nat)
    requires ClientsInv(init, log, clients, maxRetries) && x.client < |clients|
    requires clients[x.client].phase.Holding?
    ensures ClientsInv(init, log + [x], clients[x.client := clients[x.client].(phase := Idle)], maxRetries)
  {
    forall d | 0 <= d < |clients| && d != x.client
      ensures ClientInv(init, log + [x], d, clients[d], maxRetries)
    {
      ClientInvFrame(init, log, x, d, clients[d], maxRetries);
    }
    WriterGoesIdle(init, log, x, clients[x.client], maxRetries);
  }

  lemma CommitKeepsInv(init: Record, n: nat, s: System, step: Step, maxRetries: nat)
    requires Inv(init, n, s, maxRetries) && Commits(s, step)
    ensures Inv(init, n, Next(s, step, maxRetries), maxRetries)
  {
    var c := step.client;
    var x := Commit(c, s.clients[c].phase.seen, step.data);
    ReplayFrame(init, s.log, x, |s.log|);
    ClientsGrow(init, s.log, x, s.clients, maxRetries);
  }

  lemma ConflictKeepsClientInv(
    init: Record, log: seq<Commit>, c: nat, cl: Client, maxRetries: nat)
    requires ClientInv(init, log, c, cl, maxRetries)
    requires cl.phase.Holding? && cl.phase.seen.version < init.version + |log|
    ensures var Holding(attempt, since, _) := cl.phase;
            var p := if attempt + 1 < maxRetries then Ready(attempt + 1, since) else Exhausted(since);
            ClientInv(init, log, c, Client(p, cl.conflicts + 1), maxRetries)
  {
    var Holding(attempt, since, seen) := cl.phase;
    var at := seen.version - init.version;
    ForeignSplit(log, c, since, at, |log|);
    ForeignSplit(log, c, 0, at, |log|);
  }

  // A step that makes no commit touches one client only.
  lemma MoveKeepsInv(init: Record, n: nat, s: System, c: nat, cl: Client, maxRetries: nat)
    requires Inv(init, n, s, maxRetries) && c < n
    requires ClientInv(init, s.log, c, cl, maxRetries)
    ensures Inv(init, n, s.(clients := s.clients[c := cl]), maxRetries)
  {
  }

  lemma ConflictKeepsInv(init: Record, n: nat, s: System, step: Step, maxRetries: nat)
    requires Inv(init, n, s, maxRetries) && Honest(s, step)
    requires step.Write? && step.client < n && s.clients[step.client].phase.Holding?
    requires step.version != s.row.version
    ensures Inv(init, n, Next(s, step, maxRetries), maxRetries)
  {
    var c := step.client;
    var cl := s.clients[c];
    var Holding(attempt, since, _) := cl.phase;
    assert ClientInv(init, s.log, c, cl, maxRetries);
    ConflictKeepsClientInv(init, s.log, c, cl, maxRetries);
    var p := if attempt + 1 < maxRetries then Ready(attempt + 1, since) else Exhausted(since);
    MoveKeepsInv(init, n, s, c, Client(p, cl.conflicts + 1), maxRetries);
  }

  lemma BeginKeepsInv(init: Record, n: nat, s: System, c: nat, maxRetries: nat)
    requires Inv(init, n, s, maxRetries)
    ensures Inv(init, n, Next(s, Begin(c), maxRetries), maxRetries)
  {
  }

  lemma ReadKeepsInv(init: Record, n: nat, s: System, c: nat, maxRetries: nat)
    requires Inv(init, n, s, maxRetries)
    ensures Inv(init, n, Next(s, Read(c), maxRetries), maxRetries)
  {
  }

  lemma NextKeepsInv(init: Record, n: nat, s: System, step: Step, maxRetries: nat)
    requires Inv(init, n, s, maxRetries) && (!Commits(s, step) ==> Honest(s, step))
    ensures Inv(init, n, Next(s, step, maxRetries), maxRetries)
  {
    match step
    case Begin(c) => BeginKeepsInv(init, n, s, c, maxRetries);
    case Read(c) => ReadKeepsInv(init, n, s, c, maxRetries);
    case Write(c, version, _) =>
      if c < n && s.clients[c].phase.Holding? {
        if version == s.row.version {
          CommitKeepsInv(init, n, s, step, maxRetries);
        } else {
          ConflictKeepsInv(init, n, s, step, maxRetries);
        }
      }
  }

  lemma {:induction false} RunKeepsInv(
    init: Record, n: nat, s: System, steps: seq<Step>, maxRetries: nat)
    requires Inv(init, n, s, maxRetries) && HonestConflicts(s, steps, maxRetries)
    ensures Inv(init, n, Run(s, steps, maxRetries), maxRetries)
    decreases |steps|
  {
    if steps != [] {
      NextKeepsInv(init, n, s, steps[0], maxRetries);
      RunKeepsInv(init, n, Next(s, steps[0], maxRetries), steps[1..], maxRetries);
    }
  }

  // ---------------------------------------------------------------------------
  // Any update_fn
  // ---------------------------------------------------------------------------

  ghost predicate Serial(init: Record, log: seq<Commit>) {
    forall k | 0 <= k < |log| :: Computed(init, log, k)
  }

  // Commit k was computed from the state just before it.
  ghost predicate Computed(init: Record, log: seq<Commit>, k: nat)
    requires k < |log|
  {
    log[k].seen == Replay(init, log, k)
  }

  // What a client holds is the row as it was at that version.
  ghost predicate HeldInv(init: Record, log: seq<Commit>, cl: Client) {
    cl.phase.Holding? ==>
      var at := cl.phase.seen.version - init.version;
      0 <= at <= |log| && cl.phase.seen == Replay(init, log, at)
  }

  ghost predicate AnyInv(init: Record, s: System) {
    && s.row == Replay(init, s.log, |s.log|)
    && forall c | 0 <= c < |s.clients| :: HeldInv(init, s.log, s.clients[c])
  }

  lemma HeldFrame(init: Record, log: seq<Commit>, x: Commit, cl: Client)
    requires HeldInv(init, log, cl)
    ensures HeldInv(init, log + [x], cl)
  {
    if cl.phase.Holding? {
      ReplayFrame(init, log, x, cl.phase.seen.version - init.version);
    }
  }

  lemma NextKeepsAnyInv(init: Record, s: System, step: Step, maxRetries: nat)
    requires AnyInv(init, s)
    ensures AnyInv(init, Next(s, step, maxRetries))
  {
    if Commits(s, step) {
      var x := Commit(step.client, s.clients[step.client].phase.seen, step.data);
      ReplayFrame(init, s.log, x, |s.log|);
      forall c | 0 <= c < |s.clients| ensures HeldInv(init, s.log + [x], s.clients[c]) {
        HeldFrame(init, s.log, x, s.clients[c]);
      }
    }
  }

  lemma SerialGrows(init: Record, log: seq<Commit>, x: Commit)
    ensures Serial(init, log + [x]) <==> Serial(init, log) && x.seen == Replay(init, log, |log|)
  {
    forall k | 0 <= k < |log| ensures Computed(init, log + [x], k) <==> Computed(init, log, k) {
      ReplayFrame(init, log, x, k);
    }
    ReplayFrame(init, log, x, |log|);
    assert Serial(init, log + [x]) ==> Computed(init, log + [x], |log|);
  }

  // A version names one state of the row, so the commit is serial exactly when the version was honest.
  lemma NextSerial(init: Record, s: System, step: Step, maxRetries: nat)
    requires AnyInv(init, s)
    ensures Serial(init, Next(s, step, maxRetries).log) <==>
            Serial(init, s.log) && (Commits(s, step) ==> Honest(s, step))
  {
    if Commits(s, step) {
      var seen := s.clients[step.client].phase.seen;
      SerialGrows(init, s.log, Commit(step.client, seen, step.data));
      assert HeldInv(init, s.log, s.clients[step.client]);
    }
  }

  lemma {:induction false} RunSerial(init: Record, s: System, steps: seq<Step>, maxRetries: nat)
    requires AnyInv(init, s)
    ensures AnyInv(init, Run(s, steps, maxRetries))
    ensures Serial(init, Run(s, steps, maxRetries).log) <==>
            Serial(init, s.log) && HonestCommits(s, steps, maxRetries)
    decreases |steps|
  {
    if steps != [] {
      NextKeepsAnyInv(init, s, steps[0], maxRetries);
      NextSerial(init, s, steps[0], maxRetries);
      RunSerial(init, Next(s, steps[0], maxRetries), steps[1..], maxRetries);
    }
  }

  /** Whatever the update functions return, the row is the fold of the commits in version order. Each
      was computed from the state just before it exactly when every write that commits returned the
      version of the record it was given. */
  lemma {:induction false} NoLostUpdateIff(init: Record, n: nat, steps: seq<Step>, maxRetries: nat)
    ensures var s := Run(Initial(init, n), steps, maxRetries);
            && s.row == Replay(init, s.log, |s.log|)
            && s.row.version == init.version + |s.log|
            && (Serial(init, s.log) <==> HonestCommits(Initial(init, n), steps, maxRetries))
  {
    RunSerial(init, Initial(init, n), steps, maxRetries);
  }

  // The value that the last of the first k commits to name a column gave it, if any did.
  function LastWrite(log: seq<Commit>, col: string, k: nat): Option<string>
    requires k <= |log|
  {
    if k == 0 then None
    else if Names(log[k - 1].data, col) then Some(log[k - 1].data[col])
    else LastWrite(log, col, k - 1)
  }

  lemma {:induction false} ReplayColumn(init: Record, log: seq<Commit>, col: string, k: nat)
    requires k <= |log|
    ensures Replay(init, log, k).tenant == init.tenant
    ensures Column(Replay(init, log, k), col) ==
            if LastWrite(log, col, k).Some? then LastWrite(log, col, k) else Column(init, col)
  {
    if k > 0 {
      ReplayColumn(init, log, col, k - 1);
      PutIsWritten(Replay(init, log, k - 1), log[k - 1].data);
    }
  }

  /** Over any run of any clients each column of the row holds the value of the last commit that names
      it, or else its initial value; the row stays its tenant's. */
  lemma {:induction false} LastWriterWins(init: Record, n: nat, steps: seq<Step>, maxRetries: nat, col: string)
    ensures var s := Run(Initial(init, n), steps, maxRetries);
            var last := LastWrite(s.log, col, |s.log|);
            && s.row.tenant == init.tenant
            && Column(s.row, col) == if last.Some? then last else Column(init, col)
  {
    NoLostUpdateIff(init, n, steps, maxRetries);
    var s := Run(Initial(init, n), steps, maxRetries);
    ReplayColumn(init, s.log, col, |s.log|);
  }

  /** No lost update. However the clients interleave, if every write that commits is honest, the row is
      the fold of the committed updates in version order, and each was computed from the state just
      before it. */
  lemma {:induction false} NoLostUpdate(init: Record, n: nat, steps: seq<Step>, maxRetries: nat)
    requires HonestCommits(Initial(init, n), steps, maxRetries)
    ensures var s := Run(Initial(init, n), steps, maxRetries);
            && s.row == Replay(init, s.log, |s.log|)
            && s.row.version == init.version + |s.log|
            && Serial(init, s.log)
  {
    NoLostUpdateIff(init, n, steps, maxRetries);
  }

  lemma RunTwo(s: System, a: Step, b: Step, rest: seq<Step>, maxRetries: nat)
    ensures Run(s, [a, b] + rest, maxRetries) ==
            Run(Next(Next(s, a, maxRetries), b, maxRetries), rest, maxRetries)
  {
    assert ([a, b] + rest)[1..] == [b] + rest;
    assert ([b] + rest)[1..] == rest;
  }

  // Without the premise on update_fn an update is lost: client 1 writes from a stale read.
  lemma DishonestUpdateIsLost(init: Record)
    ensures exists steps: seq<Step> ::
              var s := Run(Initial(init, 2), steps, 3);
              |s.log| == 2 && s.log[1].seen != Replay(init, s.log, 1)
  {
    var a, b := map["size" := "S"], map["size" := "M"];
    var s := Initial(init, 2);
    var s2 := Next(Next(s, Begin(0), 3), Begin(1), 3);
    var s4 := Next(Next(s2, Read(0), 3), Read(1), 3);
    assert s4.clients == [Client(Holding(0, 0, init), 0), Client(Holding(0, 0, init), 0)];
    var s5 := Next(s4, Write(0, init.version, a), 3);
    assert s5.log == [Commit(0, init, a)] && s5.clients[1] == s4.clients[1];
    var s6 := Next(s5, Write(1, init.version + 1, b), 3);
    assert s6.log == [Commit(0, init, a), Commit(1, init, b)];
    RunTwo(s4, Write(0, init.version, a), Write(1, init.version + 1, b), [], 3);
    var writes := [Write(0, init.version, a), Write(1, init.version + 1, b)] + [];
    RunTwo(s2, Read(0), Read(1), writes, 3);
    RunTwo(s, Begin(0), Begin(1), [Read(0), Read(1)] + writes, 3);
  }

  // ---------------------------------------------------------------------------
  // Conflict accounting
  // ---------------------------------------------------------------------------

  function TotalConflicts(clients: seq<Client>, n: nat): nat
    requires n <= |clients|
  {
    if n == 0 then 0 else TotalConflicts(clients, n - 1) + clients[n - 1].conflicts
  }

  // Commits among the first k by clients below n.
  function CommitsBelow(log: seq<Commit>, n: nat, k: nat): (f: nat)
    requires k <= |log|
    ensures f <= k
  {
    if k == 0 then 0
    else CommitsBelow(log, n, k - 1) + (if log[k - 1].client < n then 1 else 0)
  }

  lemma {:induction false} CommitsBelowStep(log: seq<Commit>, n: nat, k: nat)
    requires k <= |log|
    ensures CommitsBelow(log, n + 1, k) + Foreign(log, n, 0, k) == CommitsBelow(log, n, k) + k
  {
    if k > 0 { CommitsBelowStep(log, n, k - 1); }
  }

  lemma {:induction false} CommitsBelowZero(log: seq<Commit>, k: nat)
    requires k <= |log|
    ensures CommitsBelow(log, 0, k) == 0
  {
    if k > 0 { CommitsBelowZero(log, k - 1); }
  }

  lemma {:induction false} CommitsBelowAll(log: seq<Commit>, n: nat, k: nat)
    requires k <= |log| && forall j | 0 <= j < k :: log[j].client < n
    ensures CommitsBelow(log, n, k) == k
  {
    if k > 0 { CommitsBelowAll(log, n, k - 1); }
  }

  lemma {:induction false} ConflictsBound(log: seq<Commit>, clients: seq<Client>, n: nat)
    requires n <= |clients|
    requires forall c | 0 <= c < n :: clients[c].conflicts <= Foreign(log, c, 0, |log|)
    ensures TotalConflicts(clients, n) + CommitsBelow(log, n, |log|) <= n * |log|
  {
    if n == 0 {
      CommitsBelowZero(log, |log|);
    } else {
      ConflictsBound(log, clients, n - 1);
      CommitsBelowStep(log, n - 1, |log|);
      calc {
        (n - 1) * |log| + |log|;
        n * |log|;
      }
    }
  }

  lemma ClientConflictsAreForeign(init: Record, log: seq<Commit>, c: nat, cl: Client, maxRetries: nat)
    requires ClientInv(init, log, c, cl, maxRetries)
    ensures cl.conflicts <= Foreign(log, c, 0, |log|)
  {
    if cl.phase.Holding? {
      ForeignSplit(log, c, 0, cl.phase.seen.version - init.version, |log|);
    }
  }

  /** Every conflict is paid for by another client's commit: n clients together meet at most
      (n - 1) conflicts per commit, over any number of calls. */
  lemma ConflictAccounting(init: Record, n: nat, steps: seq<Step>, maxRetries: nat)
    requires HonestConflicts(Initial(init, n), steps, maxRetries)
    ensures var s := Run(Initial(init, n), steps, maxRetries);
            |s.clients| == n && TotalConflicts(s.clients, n) + |s.log| <= n * |s.log|
  {
    RunKeepsInv(init, n, Initial(init, n), steps, maxRetries);
    var s := Run(Initial(init, n), steps, maxRetries);
    forall c | 0 <= c < n
      ensures s.clients[c].conflicts <= Foreign(s.log, c, 0, |s.log|)
    {
      ClientConflictsAreForeign(init, s.log, c, s.clients[c], maxRetries);
    }
    ConflictsBound(s.log, s.clients, n);
    CommitsBelowAll(s.log, n, |s.log|);
  }

  /** A client that ran out of retries saw at least that many foreign commits since its call began. */
  lemma ExhaustedSawForeignCommits(init: Record, n: nat, steps: seq<Step>, maxRetries: nat, c: nat)
    requires c < n && HonestConflicts(Initial(init, n), steps, maxRetries)
    ensures var s := Run(Initial(init, n), steps, maxRetries);
            |s.clients| == n &&
            (s.clients[c].phase.Exhausted? ==>
               s.clients[c].phase.since <= |s.log| &&
               maxRetries <= Foreign(s.log, c, s.clients[c].phase.since, |s.log|))
  {
    RunKeepsInv(init, n, Initial(init, n), steps, maxRetries);
    var s := Run(Initial(init, n), steps, maxRetries);
    assert ClientInv(init, s.log, c, s.clients[c], maxRetries);
  }

  // A client in the middle of a call still has the attempt it is at.
  ghost predicate WithinRetries(s: System, maxRetries: nat) {
    forall c | 0 <= c < |s.clients| ::
      && (s.clients[c].phase.Ready? ==> s.clients[c].phase.attempt < maxRetries)
      && (s.clients[c].phase.Holding? ==> s.clients[c].phase.attempt < maxRetries)
  }

  /** No call makes more attempts than it has retries; without any, nothing is ever committed. */
  lemma {:induction false} AttemptsAreBounded(s: System, steps: seq<Step>, maxRetries: nat)
    requires WithinRetries(s, maxRetries)
    ensures WithinRetries(Run(s, steps, maxRetries), maxRetries)
    ensures maxRetries == 0 ==> Run(s, steps, 0).log == s.log
    decreases |steps|
  {
    if steps != [] {
      AttemptsAreBounded(Next(s, steps[0], maxRetries), steps[1..], maxRetries);
    }
  }

  // Clients in the middle of a call, or out of retries.
  function Active(clients: seq<Client>, n: nat): nat
    requires n <= |clients|
  {
    if n == 0 then 0 else Active(clients, n - 1) + (if clients[n - 1].phase.Idle? then 0 else 1)
  }

  lemma {:induction false} ActiveUpdate(clients: seq<Client>, n: nat, c: nat, cl: Client)
    requires c < |clients| && n <= |clients|
    ensures c >= n ==> Active(clients[c := cl], n) == Active(clients, n)
    ensures c < n && !clients[c].phase.Idle? ==>
              Active(clients[c := cl], n) == Active(clients, n) - (if cl.phase.Idle? then 1 else 0)
    ensures c < n && clients[c].phase.Idle? ==>
              Active(clients[c := cl], n) == Active(clients, n) + (if cl.phase.Idle? then 0 else 1)
  {
    if n > 0 { ActiveUpdate(clients, n - 1, c, cl); }
  }

  lemma {:induction false} ActiveCountsOne(clients: seq<Client>, n: nat, c: nat)
    requires c < n <= |clients| && !clients[c].phase.Idle?
    ensures Active(clients, n) >= 1
  {
    if c < n - 1 { ActiveCountsOne(clients, n - 1, c); }
  }

  function Begins(steps: seq<Step>): nat {
    if steps == [] then 0 else (if steps[0].Begin? then 1 else 0) + Begins(steps[1..])
  }

  lemma NextCommitsAreBegun(s: System, step: Step, maxRetries: nat)
    ensures var s' := Next(s, step, maxRetries);
            && |s'.clients| == |s.clients|
            && |s'.log| + Active(s'.clients, |s'.clients|)
               <= |s.log| + Active(s.clients, |s.clients|) + (if step.Begin? then 1 else 0)
  {
    var c := step.client;
    if c < |s.clients| {
      var s' := Next(s, step, maxRetries);
      ActiveUpdate(s.clients, |s.clients|, c, s'.clients[c]);
      assert s'.clients == s.clients[c := s'.clients[c]];
    }
  }

  lemma {:induction false} CommitsAreBegun(s: System, steps: seq<Step>, maxRetries: nat)
    ensures var s' := Run(s, steps, maxRetries);
            && |s'.clients| == |s.clients|
            && |s'.log| + Active(s'.clients, |s'.clients|)
               <= |s.log| + Active(s.clients, |s.clients|) + Begins(steps)
    decreases |steps|
  {
    if steps != [] {
      NextCommitsAreBegun(s, steps[0], maxRetries);
      CommitsAreBegun(Next(s, steps[0], maxRetries), steps[1..], maxRetries);
    }
  }

  lemma {:induction false} InitialIsQuiet(init: Record, n: nat, k: nat)
    requires k <= n
    ensures Active(Initial(init, n).clients, k) == 0
  {
    if k > 0 { InitialIsQuiet(init, n, k - 1); }
  }

  /** While no more than maxRetries calls have been begun in all, no call runs out of retries. */
  lemma RetriesSufficeForFewCalls(init: Record, n: nat, steps: seq<Step>, maxRetries: nat, c: nat)
    requires c < n && HonestConflicts(Initial(init, n), steps, maxRetries)
    requires Begins(steps) <= maxRetries
    ensures var s := Run(Initial(init, n), steps, maxRetries);
            |s.clients| == n && !s.clients[c].phase.Exhausted?
  {
    var s := Run(Initial(init, n), steps, maxRetries);
    CommitsAreBegun(Initial(init, n), steps, maxRetries);
    InitialIsQuiet(init, n, n);
    ExhaustedSawForeignCommits(init, n, steps, maxRetries, c);
    if s.clients[c].phase.Exhausted? {
      ActiveCountsOne(s.clients, n, c);
    }
  }
}
