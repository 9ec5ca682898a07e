/** One tenant's ledger as a value: rows by id, and the tenant's write counter
    (ledger/upsert.py, ledger/backends/memory.py). */
module Ledgers {
  import opened Common
  import opened Transactions

  datatype Store = Store(rows: map<string, Txn>, seqno: nat)

  datatype EventKind = Added | Removed

  datatype SyncEvent = SyncEvent(kind: EventKind, row: Txn)

  datatype Outcome = Outcome(store: Store, events: seq<SyncEvent>)

  const EMPTY := Store(map[], 0)

  /** Rows sit under their own id; every row carries the number of the write that
      last touched it, and no two rows share one. */
  ghost predicate ValidStore(s: Store) {
    && (forall id | id in s.rows :: s.rows[id].payload.id == id && 1 <= s.rows[id].lastModifiedSeq <= s.seqno)
    && (forall a, b | a in s.rows && b in s.rows && a != b :: s.rows[a].lastModifiedSeq != s.rows[b].lastModifiedSeq)
  }

  /** The row a write stores, and the event that announces it. */
  function Row(s: Store, payload: Payload, removed: bool): Txn {
    Txn(payload, removed, s.seqno + 1)
  }

  function Write(s: Store, id: string, row: Txn): Store {
    Store(s.rows[id := row], s.seqno + 1)
  }

  function Announce(row: Txn): SyncEvent {
    SyncEvent(if row.removed then Removed else Added, row)
  }

  predicate UniqueIds(txns: seq<Txn>) {
    forall i, j | 0 <= i < j < |txns| :: txns[i].payload.id != txns[j].payload.id
  }

  /** Absent, different or removed: the transaction has to be written. */
  predicate Stale(s: Store, txn: Txn) {
    var id := txn.payload.id;
    id !in s.rows || s.rows[id].removed || !PayloadEqual(txn, s.rows[id])
  }

  /** What delivering `txns` one by one leaves behind. */
  function Upserted(s: Store, txns: seq<Txn>): Outcome {
    if txns == [] then Outcome(s, [])
    else
      var done := Upserted(s, txns[..|txns| - 1]);
      var txn := txns[|txns| - 1];
      if Stale(done.store, txn) then
        var row := Row(done.store, txn.payload, false);
        Outcome(Write(done.store, txn.payload.id, row), done.events + [Announce(row)])
      else done
  }

  function Upsert(s: Store, txns: seq<Txn>): Result<Outcome> {
    if UniqueIds(txns) then Ok(Upserted(s, txns)) else Err(ValidationError)
  }

  predicate Known(s: Store, ids: seq<string>) {
    forall k | 0 <= k < |ids| :: ids[k] in s.rows
  }

  function MarkedRemoved(s: Store, ids: seq<string>): (o: Outcome)
    requires Known(s, ids)
    ensures o.store.rows.Keys == s.rows.Keys
  {
    if ids == [] then Outcome(s, [])
    else
      var done := MarkedRemoved(s, ids[..|ids| - 1]);
      var id := ids[|ids| - 1];
      if done.store.rows[id].removed then done
      else
        var row := Row(done.store, done.store.rows[id].payload, true);
        Outcome(Write(done.store, id, row), done.events + [Announce(row)])
  }

  function MarkRemoved(s: Store, ids: seq<string>): Result<Outcome> {
    if Known(s, ids) then Ok(MarkedRemoved(s, ids)) else Err(NotFoundError)
  }

  /** A write keeps the store valid: its number is above every other row's. */
  lemma WriteKeepsValid(s: Store, id: string, payload: Payload, removed: bool)
    requires ValidStore(s) && payload.id == id
    ensures ValidStore(Write(s, id, Row(s, payload, removed)))
  {
  }

  ghost predicate SameAt(a: Store, b: Store, id: string) {
    (id in a.rows <==> id in b.rows) && (id in a.rows ==> a.rows[id] == b.rows[id])
  }

  /** The events of an operation number its writes, without a gap. */
  ghost predicate Numbered(s: Store, o: Outcome) {
    && o.store.seqno == s.seqno + |o.events|
    && forall k | 0 <= k < |o.events| ::
         o.events[k].row.lastModifiedSeq == s.seqno + 1 + k && o.events[k] == Announce(o.events[k].row)
  }

  lemma {:induction false} UpsertedKeeps(s: Store, txns: seq<Txn>)
    requires ValidStore(s)
    ensures ValidStore(Upserted(s, txns).store) && Numbered(s, Upserted(s, txns))
  {
    if txns != [] {
      UpsertedKeeps(s, txns[..|txns| - 1]);
      var txn := txns[|txns| - 1];
      WriteKeepsValid(Upserted(s, txns[..|txns| - 1]).store, txn.payload.id, txn.payload, false);
    }
  }

  lemma {:induction false} MarkedKeeps(s: Store, ids: seq<string>)
    requires ValidStore(s) && Known(s, ids)
    ensures ValidStore(MarkedRemoved(s, ids).store) && Numbered(s, MarkedRemoved(s, ids))
  {
    hide ValidStore;
    if ids != [] {
      MarkedKeeps(s, ids[..|ids| - 1]);
      MarkKeeps(MarkedRemoved(s, ids[..|ids| - 1]).store, ids[|ids| - 1]);
    }
  }

  lemma MarkKeeps(s: Store, id: string)
    requires ValidStore(s) && id in s.rows
    ensures ValidStore(Write(s, id, Row(s, s.rows[id].payload, true)))
  {
    WriteKeepsValid(s, id, s.rows[id].payload, true);
  }

  lemma {:induction false} UpsertedElsewhere(s: Store, txns: seq<Txn>, id: string)
    requires forall k | 0 <= k < |txns| :: txns[k].payload.id != id
    ensures SameAt(s, Upserted(s, txns).store, id)
  {
    if txns != [] {
      UpsertedElsewhere(s, txns[..|txns| - 1], id);
    }
  }

  /** Stored, not removed, and with this very payload. */
  predicate LiveIn(s: Store, txn: Txn) {
    var id := txn.payload.id;
    id in s.rows && !s.rows[id].removed && s.rows[id].payload == txn.payload
  }

  /** What became of one delivered transaction: live with its payload; it keeps its
      number exactly when it already was, and gets one above all given out otherwise. */
  ghost predicate Delivered(s: Store, s': Store, txn: Txn) {
    var id := txn.payload.id;
    && id in s'.rows && s'.rows[id].payload == txn.payload && !s'.rows[id].removed
    && (if id in s.rows && !s.rows[id].removed && s.rows[id].payload == txn.payload then s'.rows[id] == s.rows[id]
        else s'.rows[id].lastModifiedSeq > s.seqno)
  }

  lemma {:induction false} UpsertedAt(s: Store, txns: seq<Txn>, k: nat)
    requires ValidStore(s) && UniqueIds(txns) && k < |txns|
    ensures Delivered(s, Upserted(s, txns).store, txns[k])
    ensures var (id, s') := (txns[k].payload.id, Upserted(s, txns).store);
      && id in s'.rows && s'.rows[id].payload == txns[k].payload && !s'.rows[id].removed
      && ((id in s.rows && s'.rows[id].lastModifiedSeq == s.rows[id].lastModifiedSeq)
          <==> id in s.rows && !s.rows[id].removed && s.rows[id].payload == txns[k].payload)
  {
    var n := |txns| - 1;
    if k < n {
      UpsertedAt(s, txns[..n], k);
    } else {
      UpsertedElsewhere(s, txns[..n], txns[n].payload.id);
      UpsertedKeeps(s, txns[..n]);
    }
  }

  /** An upsert emits nothing exactly when nothing it brings is stale. */
  lemma {:induction false} UpsertQuietIff(s: Store, txns: seq<Txn>)
    requires UniqueIds(txns)
    ensures Upserted(s, txns) == Outcome(s, []) <==> forall k | 0 <= k < |txns| :: LiveIn(s, txns[k])
    ensures |Upserted(s, txns).events| > 0 || Upserted(s, txns).store == s
  {
    if txns != [] {
      var n := |txns| - 1;
      UpsertQuietIff(s, txns[..n]);
      UpsertedElsewhere(s, txns[..n], txns[n].payload.id);
    }
  }

  lemma {:induction false} MarkedElsewhere(s: Store, ids: seq<string>, id: string)
    requires Known(s, ids) && id !in ids
    ensures SameAt(s, MarkedRemoved(s, ids).store, id)
  {
    if ids != [] {
      MarkedElsewhere(s, ids[..|ids| - 1], id);
    }
  }

  /** A marked row is removed with its payload kept; one already removed keeps its
      number too. */
  ghost predicate Retired(s: Store, s': Store, id: string)
    requires id in s.rows
  {
    && id in s'.rows && s'.rows[id].removed && s'.rows[id].payload == s.rows[id].payload
    && (if s.rows[id].removed then SameAt(s, s', id) else s'.rows[id].lastModifiedSeq > s.seqno)
  }

  lemma {:induction false} MarkedAt(s: Store, ids: seq<string>, id: string)
    requires ValidStore(s) && Known(s, ids) && id in ids
    ensures Retired(s, MarkedRemoved(s, ids).store, id)
  {
    hide ValidStore;
    var n := |ids| - 1;
    assert ids == ids[..n] + [ids[n]];
    MarkedKeeps(s, ids[..n]);
    if id in ids[..n] {
      MarkedAt(s, ids[..n], id);
    } else {
      MarkedElsewhere(s, ids[..n], id);
    }
  }

  /** Removing what is already removed emits nothing. */
  lemma {:induction false} MarkQuiet(s: Store, ids: seq<string>)
    requires Known(s, ids) && forall k | 0 <= k < |ids| :: s.rows[ids[k]].removed
    ensures MarkedRemoved(s, ids) == Outcome(s, [])
  {
    if ids != [] {
      MarkQuiet(s, ids[..|ids| - 1]);
    }
  }

  /** An upsert is refused exactly for two transactions under one id, a removal exactly for
      an id that is not stored, whatever else the batch brings. */
  lemma RefusedIff(s: Store, txns: seq<Txn>, ids: seq<string>)
    ensures Upsert(s, txns) == Err(ValidationError) <==>
      exists i, j :: 0 <= i < j < |txns| && txns[i].payload.id == txns[j].payload.id
    ensures MarkRemoved(s, ids) == Err(NotFoundError) <==> exists id :: id in ids && id !in s.rows
    ensures Upsert(s, txns).Ok? || Upsert(s, txns) == Err(ValidationError)
    ensures MarkRemoved(s, ids).Ok? || MarkRemoved(s, ids) == Err(NotFoundError)
  {
    hide Upserted, MarkedRemoved;
  }

  /** What a caller gets back, and what the ledger holds, after an operation. */
  function Reply(r: Result<Outcome>): Result<seq<SyncEvent>> {
    if r.Ok? then Ok(r.value.events) else Err(r.error)
  }

  function Left(s: Store, r: Result<Outcome>): Store {
    if r.Ok? then r.value.store else s
  }

  // Classification

  datatype UpsertPlan = UpsertPlan(added: seq<Txn>, changed: seq<Txn>, same: seq<string>)

  /** `classify`: one pass for duplicate ids, one to sort the batch into buckets. */
  method NoDuplicates(incoming: seq<Txn>) returns (ok: bool)
    ensures ok <==> UniqueIds(incoming)
  {
    var seen: set<string> := {};
    for k := 0 to |incoming|
      invariant UniqueIds(incoming[..k])
      invariant forall j | 0 <= j < k :: incoming[j].payload.id in seen
      invariant forall id | id in seen :: exists j :: 0 <= j < k && incoming[j].payload.id == id
    {
      if incoming[k].payload.id in seen {
        return false;
      }
      seen := seen + {incoming[k].payload.id};
    }
    assert incoming[..|incoming|] == incoming;
    return true;
  }

  method Classify(incoming: seq<Txn>, existing: map<string, Txn>) returns (r: Result<UpsertPlan>)
    ensures r.Ok? <==> UniqueIds(incoming)
    ensures r.Err? ==> r.error == ValidationError
    ensures r.Ok? ==> Buckets(r.value, incoming, existing)
  {
    hide UniqueIds;
    var unique := NoDuplicates(incoming);
    if !unique {
      return Err(ValidationError);
    }
    var plan := UpsertPlan([], [], []);
    for k := 0 to |incoming|
      invariant Buckets(plan, incoming[..k], existing)
    {
      var txn := incoming[k];
      assert incoming[..k + 1][..k] == incoming[..k];
      if txn.payload.id !in existing {
        plan := plan.(added := plan.added + [txn]);
      } else if PayloadEqual(txn, existing[txn.payload.id]) {
        plan := plan.(same := plan.same + [txn.payload.id]);
      } else {
        plan := plan.(changed := plan.changed + [txn]);
      }
    }
    assert incoming[..|incoming|] == incoming;
    return Ok(plan);
  }

  datatype Bucket = Fresh | Changed | Unchanged

  function BucketOf(txn: Txn, existing: map<string, Txn>): Bucket {
    if txn.payload.id !in existing then Fresh
    else if PayloadEqual(txn, existing[txn.payload.id]) then Unchanged
    else Changed
  }

  /** The transactions of one bucket, in the order they came. */
  function Sorted(incoming: seq<Txn>, existing: map<string, Txn>, bucket: Bucket): seq<Txn> {
    if incoming == [] then []
    else
      var rest := Sorted(incoming[..|incoming| - 1], existing, bucket);
      var txn := incoming[|incoming| - 1];
      if BucketOf(txn, existing) == bucket then rest + [txn] else rest
  }

  function IdsOf(txns: seq<Txn>): (ids: seq<string>)
    ensures |ids| == |txns| && forall k | 0 <= k < |txns| :: ids[k] == txns[k].payload.id
  {
    if txns == [] then [] else IdsOf(txns[..|txns| - 1]) + [txns[|txns| - 1].payload.id]
  }

  predicate Buckets(plan: UpsertPlan, incoming: seq<Txn>, existing: map<string, Txn>) {
    && plan.added == Sorted(incoming, existing, Fresh)
    && plan.changed == Sorted(incoming, existing, Changed)
    && plan.same == IdsOf(Sorted(incoming, existing, Unchanged))
  }

  /** The ids an upsert writes: new, changed, and redelivered while removed. */
  function WriteIds(plan: UpsertPlan, existing: map<string, Txn>): set<string>
    requires forall id | id in plan.same :: id in existing
  {
    (set t | t in plan.added :: t.payload.id) + (set t | t in plan.changed :: t.payload.id)
    + (set id | id in plan.same && existing[id].removed)
  }

  lemma {:induction false} SortedAre(incoming: seq<Txn>, existing: map<string, Txn>, bucket: Bucket)
    ensures forall t :: t in Sorted(incoming, existing, bucket) <==> t in incoming && BucketOf(t, existing) == bucket
  {
    if incoming != [] {
      SortedAre(incoming[..|incoming| - 1], existing, bucket);
      assert incoming == incoming[..|incoming| - 1] + [incoming[|incoming| - 1]];
    }
  }

  /** They are exactly the ids of the transactions that are not live with their payload. */
  lemma WriteIdsAreStale(plan: UpsertPlan, incoming: seq<Txn>, s: Store)
    requires Buckets(plan, incoming, s.rows) && UniqueIds(incoming)
    ensures forall id | id in plan.same :: id in s.rows
    ensures forall t | t in incoming :: t.payload.id in WriteIds(plan, s.rows) <==> !LiveIn(s, t)
  {
    SortedAre(incoming, s.rows, Fresh);
    SortedAre(incoming, s.rows, Changed);
    SortedAre(incoming, s.rows, Unchanged);
    var kept := Sorted(incoming, s.rows, Unchanged);
    forall id | id in plan.same
      ensures id in s.rows
    {
      var k :| 0 <= k < |kept| && IdsOf(kept)[k] == id;
      assert kept[k] in kept;
    }
    forall t | t in incoming
      ensures t.payload.id in WriteIds(plan, s.rows) <==> !LiveIn(s, t)
    {
      OneBucket(plan, incoming, s, t);
    }
  }

  lemma OneBucket(plan: UpsertPlan, incoming: seq<Txn>, s: Store, t: Txn)
    requires Buckets(plan, incoming, s.rows) && UniqueIds(incoming) && t in incoming
    requires forall id | id in plan.same :: id in s.rows
    ensures t.payload.id in WriteIds(plan, s.rows) <==> !LiveIn(s, t)
  {
    var id := t.payload.id;
    SortedAre(incoming, s.rows, Fresh);
    SortedAre(incoming, s.rows, Changed);
    SortedAre(incoming, s.rows, Unchanged);
    forall u | u in incoming && u.payload.id == id
      ensures u == t
    {
      var i :| 0 <= i < |incoming| && incoming[i] == t;
      var j :| 0 <= j < |incoming| && incoming[j] == u;
    }
    var kept := Sorted(incoming, s.rows, Unchanged);
    if t in kept {
      var k :| 0 <= k < |kept| && kept[k] == t;
      assert plan.same[k] == id;
    }
    if id in plan.same {
      var k :| 0 <= k < |plan.same| && plan.same[k] == id;
      assert kept[k] in kept && kept[k].payload.id == id;
    }
  }
}
