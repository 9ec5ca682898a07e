/** The in-memory backend (ledger/backends/memory.py), and the reader that drains
    its feed (embed/facade.py `_account_transactions`). */
module MemoryLedgers {
  import opened Common
  import opened Transactions
  import opened Ledgers
  import opened Reorgs
  import opened Cursors
  import opened Feed

  /** `str.isspace` of one code point: the Unicode white space and the four separators. */
  predicate Space(c: char) {
    var n := c as int;
    || 0x9 <= n <= 0xd || 0x1c <= n <= 0x20 || n == 0x85 || n == 0xa0 || n == 0x1680
    || 0x2000 <= n <= 0x200a || n == 0x2028 || n == 0x2029 || n == 0x202f || n == 0x205f || n == 0x3000
  }

  /** `not tenant_id.strip()`. */
  predicate Blank(tenant: string) {
    forall k | 0 <= k < |tenant| :: Space(tenant[k])
  }

  /** A tenant is blank exactly when it has no character but these. */
  lemma BlankMeans(tenant: string)
    ensures Blank(tenant) <==> forall c | c in tenant :: Space(c)
    ensures forall c: char :: Space(c) <==>
      c as int in {9, 10, 11, 12, 13, 28, 29, 30, 31, 32, 133, 160, 5760, 8192, 8193, 8194, 8195, 8196, 8197, 8198,
        8199,
                   8200, 8201, 8202, 8232, 8233, 8239, 8287, 12288}
  {
    if forall c | c in tenant :: Space(c) {
      assert forall k | 0 <= k < |tenant| :: tenant[k] in tenant;
    }
  }

  function RowsOf(stores: map<string, map<string, Txn>>, tenant: string): map<string, Txn> {
    if tenant in stores then stores[tenant] else map[]
  }

  function SeqOf(seqs: map<string, nat>, tenant: string): nat {
    if tenant in seqs then seqs[tenant] else 0
  }

  class MemoryLedger {
    var stores: map<string, map<string, Txn>>
    var seqs: map<string, nat>

    constructor ()
      ensures Valid() && forall t: string :: Tenant(t) == EMPTY
    {
      stores, seqs := map[], map[];
    }

    function Tenant(tenant: string): Store
      reads this
    {
      Store(RowsOf(stores, tenant), SeqOf(seqs, tenant))
    }

    ghost predicate Valid()
      reads this
    {
      forall t: string :: ValidStore(Tenant(t))
    }

    /** One tenant's write: `_next_seq`, then the row. */
    method WriteRow(tenant: string, id: string, payload: Payload, removed: bool) returns (row: Txn)
      requires tenant in stores
      modifies this
      ensures row == Row(old(Tenant(tenant)), payload, removed)
      ensures Tenant(tenant) == Write(old(Tenant(tenant)), id, row)
      ensures tenant in stores && forall t: string :: t != tenant ==> Tenant(t) == old(Tenant(t))
    {
      seqs := seqs[tenant := SeqOf(seqs, tenant) + 1];
      row := Txn(payload, removed, seqs[tenant]);
      stores := stores[tenant := stores[tenant][id := row]];
    }

    method Upsert(tenant: string, txns: seq<Txn>) returns (r: Result<seq<SyncEvent>>)
      requires Valid()
      modifies this
      ensures Valid() && forall t: string :: t != tenant ==> Tenant(t) == old(Tenant(t))
      ensures Blank(tenant) ==> r == Err(TenantIsolationError) && Tenant(tenant) == old(Tenant(tenant))
      ensures !Blank(tenant) ==>
        && r == Reply(Ledgers.Upsert(old(Tenant(tenant)), txns))
        && Tenant(tenant) == Left(old(Tenant(tenant)), Ledgers.Upsert(old(Tenant(tenant)), txns))
    {
      hide ValidStore, WriteIds, Buckets;
      if Blank(tenant) {
        return Err(TenantIsolationError);
      }
      if tenant !in stores {
        stores := stores[tenant := map[]];
      }
      ghost var before := old(Tenant(tenant));
      var classified := Classify(txns, stores[tenant]);
      forall t: string
        ensures Tenant(t) == old(Tenant(t)) && ValidStore(Tenant(t))
      {
        assert ValidStore(old(Tenant(t)));
      }
      if classified.Err? {
        return Err(classified.error);
      }
      WriteIdsAreStale(classified.value, txns, before);
      var writeIds := WriteIds(classified.value, stores[tenant]);
      var events := [];
      for k := 0 to |txns|
        invariant tenant in stores && Tenant(tenant) == Upserted(before, txns[..k]).store
        invariant events == Upserted(before, txns[..k]).events
        invariant forall t: string :: t != tenant ==> Tenant(t) == old(Tenant(t))
      {
        assert txns[k] in txns && txns[..k + 1][..k] == txns[..k];
        UpsertedElsewhere(before, txns[..k], txns[k].payload.id);
        if txns[k].payload.id in writeIds {
          var row := WriteRow(tenant, txns[k].payload.id, txns[k].payload, false);
          events := events + [Announce(row)];
        }
      }
      assert txns[..|txns|] == txns;
      UpsertedKeeps(before, txns);
      return Ok(events);
    }

    method MarkRemoved(tenant: string, ids: seq<string>) returns (r: Result<seq<SyncEvent>>)
      requires Valid()
      modifies this
      ensures Valid() && forall t: string :: t != tenant ==> Tenant(t) == old(Tenant(t))
      ensures Blank(tenant) ==> r == Err(TenantIsolationError) && Tenant(tenant) == old(Tenant(tenant))
      ensures !Blank(tenant) ==>
        && r == Reply(Ledgers.MarkRemoved(old(Tenant(tenant)), ids))
        && Tenant(tenant) == Left(old(Tenant(tenant)), Ledgers.MarkRemoved(old(Tenant(tenant)), ids))
    {
      hide ValidStore;
      if Blank(tenant) {
        return Err(TenantIsolationError);
      }
      ghost var before := Tenant(tenant);
      for k := 0 to |ids|
        invariant forall j | 0 <= j < k :: ids[j] in before.rows
      {
        if ids[k] !in RowsOf(stores, tenant) {
          return Err(NotFoundError);
        }
      }
      var events := [];
      assert ids != [] ==> ids[0] in before.rows;
      for k := 0 to |ids|
        invariant ids != [] ==> tenant in stores
        invariant Tenant(tenant) == MarkedRemoved(before, ids[..k]).store
        invariant events == MarkedRemoved(before, ids[..k]).events
        invariant forall t: string :: t != tenant ==> Tenant(t) == old(Tenant(t))
      {
        assert ids[..k + 1][..k] == ids[..k];
        var row := stores[tenant][ids[k]];
        if !row.removed {
          row := WriteRow(tenant, ids[k], row.payload, true);
          events := events + [Announce(row)];
        }
      }
      assert ids[..|ids|] == ids;
      MarkedKeeps(before, ids);
      return Ok(events);
    }

    /** A plan is applied whole or not at all. */
    method ApplyReorg(tenant: string, plan: ReorgPlan) returns (r: Result<seq<SyncEvent>>)
      requires Valid()
      modifies this
      ensures Valid() && forall t: string :: t != tenant ==> Tenant(t) == old(Tenant(t))
      ensures Blank(tenant) ==> r == Err(TenantIsolationError) && Tenant(tenant) == old(Tenant(tenant))
      ensures !Blank(tenant) ==>
        && r == Reply(Reorgs.ApplyReorg(old(Tenant(tenant)), plan))
        && Tenant(tenant) == Left(old(Tenant(tenant)), Reorgs.ApplyReorg(old(Tenant(tenant)), plan))
    {
      if Blank(tenant) {
        return Err(TenantIsolationError);
      }
      var seen: set<string> := {};
      for k := 0 to |plan.add|
        invariant forall j | 0 <= j < k :: plan.add[j].payload.id in seen
        invariant forall id | id in seen :: exists j :: 0 <= j < k && plan.add[j].payload.id == id
        invariant UniqueIds(plan.add[..k])
      {
        if plan.add[k].payload.id in seen {
          return Err(ValidationError);
        }
        seen := seen + {plan.add[k].payload.id};
      }
      assert plan.add[..|plan.add|] == plan.add;
      var gone := MarkRemoved(tenant, plan.removeIds);
      if gone.Err? {
        return gone;
      }
      var back := Upsert(tenant, plan.add);
      if back.Err? {
        return back;
      }
      return Ok(gone.value + back.value);
    }

    method Sync(tenant: string, cursor: Option<string>, limit: int) returns (r: Result<SyncPage>)
      requires Valid()
      ensures r == if Blank(tenant) then Err(TenantIsolationError) else Feed.Sync(Tenant(tenant), cursor, limit)
    {
      if Blank(tenant) {
        return Err(TenantIsolationError);
      }
      if limit < 1 {
        return Err(ValidationError);
      }
      var since := DecodeCursor(cursor);
      if since.Err? {
        return Err(since.error);
      }
      assert ValidStore(Tenant(tenant));
      var rows := SortedChanges(Tenant(tenant).rows, since.value);
      SameChanges(Tenant(tenant), since.value, rows);
      return Ok(PageOf(rows, since.value, limit));
    }

    method Get(tenant: string, id: string) returns (r: Result<Txn>)
      ensures r == if Blank(tenant) then Err(TenantIsolationError)
                   else if id in Tenant(tenant).rows then Ok(Tenant(tenant).rows[id])
                   else Err(NotFoundError)
    {
      if Blank(tenant) {
        return Err(TenantIsolationError);
      }
      if id !in RowsOf(stores, tenant) {
        return Err(NotFoundError);
      }
      return Ok(RowsOf(stores, tenant)[id]);
    }
  }

  lemma SameChanges(s: Store, since: nat, rows: seq<Txn>)
    requires ValidStore(s) && ChangesOf(s, since, rows)
    ensures rows == Changes(s, since)
  {
    OneOrder(rows, Changes(s, since));
  }

  /** `sorted(..., key=last_modified_seq)` over the rows past `since`. */
  method SortedChanges(rows: map<string, Txn>, since: nat) returns (list: seq<Txn>)
    requires forall id | id in rows :: rows[id].payload.id == id
    requires forall a, b | a in rows && b in rows && a != b :: rows[a].lastModifiedSeq != rows[b].lastModifiedSeq
    ensures Ascending(list)
    ensures forall row ::
      row in list <==> row.payload.id in rows && rows[row.payload.id] == row && row.lastModifiedSeq > since
  {
    list := [];
    var left := rows.Keys;
    while left != {}
      invariant left <= rows.Keys && Ascending(list)
      invariant forall row :: row in list <==>
        row.payload.id in rows && row.payload.id !in left && rows[row.payload.id] == row && row.lastModifiedSeq > since
      decreases left
    {
      var id :| id in left;
      left := left - {id};
      if rows[id].lastModifiedSeq > since {
        Placed(list, rows[id]);
        list := Place(list, rows[id]);
      }
    }
  }

  function Place(list: seq<Txn>, row: Txn): seq<Txn> {
    if list == [] || list[|list| - 1].lastModifiedSeq < row.lastModifiedSeq then list + [row]
    else Place(list[..|list| - 1], row) + [list[|list| - 1]]
  }

  lemma {:induction false} Placed(list: seq<Txn>, row: Txn)
    requires Ascending(list) && forall r | r in list :: r.lastModifiedSeq != row.lastModifiedSeq
    ensures Ascending(Place(list, row))
    ensures forall r :: r in Place(list, row) <==> r in list || r == row
  {
    if list != [] {
      var n := |list| - 1;
      assert list == list[..n] + [list[n]] && list[n] in list;
      if list[n].lastModifiedSeq > row.lastModifiedSeq {
        Placed(list[..n], row);
        PlacedBelow(Place(list[..n], row), list[n]);
      }
    }
  }

  lemma PlacedBelow(list: seq<Txn>, last: Txn)
    requires Ascending(list) && forall r | r in list :: r.lastModifiedSeq < last.lastModifiedSeq
    ensures Ascending(list + [last])
  {
  }

  // Draining the feed

  /** The rows of one account that are live, in feed order. */
  function Own(rows: seq<Txn>, account: string): seq<Txn> {
    if rows == [] then []
    else
      var rest := Own(rows[..|rows| - 1], account);
      var row := rows[|rows| - 1];
      if !row.removed && row.payload.accountId == account then rest + [row] else rest
  }

  lemma {:induction false} OwnJoins(a: seq<Txn>, b: seq<Txn>, account: string)
    ensures Own(a + b, account) == Own(a, account) + Own(b, account)
  {
    if b == [] {
      assert a + b == a;
    } else {
      assert (a + b)[..|a + b| - 1] == a + b[..|b| - 1];
      OwnJoins(a, b[..|b| - 1], account);
    }
  }

  lemma {:induction false} OwnAre(rows: seq<Txn>, account: string)
    requires Ascending(rows)
    ensures Ascending(Own(rows, account))
    ensures forall row :: row in Own(rows, account) <==> row in rows && !row.removed && row.payload.accountId == account
  {
    if rows != [] {
      var n := |rows| - 1;
      OwnAre(rows[..n], account);
      assert rows == rows[..n] + [rows[n]];
      forall row | row in rows[..n]
        ensures row.lastModifiedSeq < rows[n].lastModifiedSeq
      {
        var i :| 0 <= i < n && rows[i] == row;
      }
      LastAscends(Own(rows[..n], account), rows[n]);
    }
  }

  lemma LastAscends(rows: seq<Txn>, last: Txn)
    requires Ascending(rows)
    ensures (forall r | r in rows :: r.lastModifiedSeq < last.lastModifiedSeq) ==> Ascending(rows + [last])
  {
  }

  /** A drained account is exactly its live rows, once each, in write order. */
  lemma DrainedAccount(s: Store, account: string)
    requires ValidStore(s)
    ensures var own := Own(Changes(s, 0), account);
      && Ascending(own)
      && forall row :: row in own <==> Stored(s, row) && !row.removed && row.payload.accountId == account
  {
    hide Own;
    OwnAre(Changes(s, 0), account);
  }

  method OwnOf(events: seq<SyncEvent>, ghost rows: seq<Txn>, account: string) returns (found: seq<Txn>)
    requires |events| == |rows| && forall k | 0 <= k < |rows| :: events[k] == Announce(rows[k])
    ensures found == Own(rows, account)
  {
    found := [];
    for k := 0 to |events|
      invariant found == Own(rows[..k], account)
    {
      assert rows[..k + 1][..k] == rows[..k];
      var row := events[k].row;
      if events[k].kind == Added && !row.removed && row.payload.accountId == account {
        found := found + [row];
      }
    }
    assert rows[..|events|] == rows;
  }

  /** What follows a change in the change list is the change list after it. */
  lemma ChangesAfter(s: Store, since: nat, k: nat)
    requires ValidStore(s) && k <= |Changes(s, since)|
    ensures Changes(s, LastOf(Changes(s, since)[..k], since)) == Changes(s, since)[k..]
  {
    hide ValidStore;
    var rows := Changes(s, since);
    RestOfChanges(s, since, rows, k);
    SameChanges(s, LastOf(rows[..k], since), rows[k..]);
  }

  lemma RestOfChanges(s: Store, since: nat, rows: seq<Txn>, k: nat)
    requires ChangesOf(s, since, rows) && k <= |rows|
    ensures ChangesOf(s, LastOf(rows[..k], since), rows[k..])
  {
    var last, rest := LastOf(rows[..k], since), rows[k..];
    if k > 0 {
      assert rows[..k][k - 1] == rows[k - 1] && rows[k - 1] in rows;
    }
    forall row
      ensures row in rest <==> row in rows && row.lastModifiedSeq > last
    {
      AfterFirst(rows, k, row);
    }
  }

  /** In an ascending list the rows above the k-th number are the rest of it. */
  lemma AfterFirst(rows: seq<Txn>, k: nat, row: Txn)
    requires Ascending(rows) && k <= |rows|
    ensures row in rows[k..] ==> row in rows && (k > 0 ==> row.lastModifiedSeq > rows[k - 1].lastModifiedSeq)
    ensures row in rows && (k > 0 ==> row.lastModifiedSeq > rows[k - 1].lastModifiedSeq) ==> row in rows[k..]
  {
    if row in rows {
      var j :| 0 <= j < |rows| && rows[j] == row;
      if j >= k {
        assert rows[k..][j - k] == row;
      }
    }
    if row in rows[k..] {
      var j :| 0 <= j < |rows| - k && rows[k..][j] == row;
      assert rows[k + j] == row;
    }
  }

  function Shown(left: nat, limit: nat): nat {
    if left <= limit then left else limit
  }

  /** One page of the drain, after `done` of the changes `all`. */
  lemma DrainStep(s: Store, cursor: Option<string>, limit: nat, all: seq<Txn>, done: nat, account: string)
    requires ValidStore(s) && limit >= 1 && all == Changes(s, 0) && done <= |all|
      && StandsFor(cursor, LastOf(all[..done], 0))
    ensures var r, k := Feed.Sync(s, cursor, limit), Shown(|all| - done, limit);
      if r.Err? then s.seqno >= PowerOfTen(TOKEN_LENGTH)
      else
        && |r.value.events| == k && (forall i | 0 <= i < k :: r.value.events[i] == Announce(all[done..done + k][i]))
        && (r.value.hasMore <==> done + k < |all|)
        && StandsFor(Some(r.value.nextCursor), LastOf(all[..done + k], 0))
        && Own(all[..done + k], account) == Own(all[..done], account) + Own(all[done..done + k], account)
  {
    hide ValidStore, Own, ChangesOf, Padded, PowerOfTen, LastOf, PageOf;
    var since, rest, k := LastOf(all[..done], 0), all[done..], Shown(|all| - done, limit);
    DecodesTo(cursor, since);
    WithinWrites(s, done);
    ChangesAfter(s, 0, done);
    DrainPage(rest, since, limit);
    DrainSlices(all, done, k);
    OwnJoins(all[..done], all[done..done + k], account);
  }

  lemma DrainSlices(all: seq<Txn>, done: nat, k: nat)
    requires done + k <= |all|
    ensures all[done..][..k] == all[done..done + k]
    ensures all[..done] + all[done..done + k] == all[..done + k]
    ensures LastOf(all[done..][..k], LastOf(all[..done], 0)) == LastOf(all[..done + k], 0)
  {
  }

  lemma DrainPage(rest: seq<Txn>, since: nat, limit: nat)
    requires limit >= 1
    ensures var page, k := PageOf(rest, since, limit), Shown(|rest|, limit);
      && |page.events| == k && (forall i | 0 <= i < k :: page.events[i] == Announce(rest[..k][i]))
      && (page.hasMore <==> k < |rest|)
      && page.nextCursor == EncodeCursor(LastOf(rest[..k], since)).value
  {
    PageIs(rest, since, limit);
  }

  /** `_account_transactions`: page the feed from the start until it is drained.  The
      account's live rows come back once each, in feed order, over pages of any
      size; the walk ends because every page moves the cursor. */
  method AccountTransactions(ledger: MemoryLedger, tenant: string, account: string,
      limit: nat) returns (r: Result<seq<Txn>>)
    requires ledger.Valid() && limit >= 1
    ensures r.Ok? ==> r.value == Own(Changes(ledger.Tenant(tenant), 0), account)
    ensures r.Err? ==> Blank(tenant) || ledger.Tenant(tenant).seqno >= PowerOfTen(TOKEN_LENGTH)
  {
    hide Feed.Sync, StandsFor, Own, Announce, LastOf, ValidStore;
    ghost var s := ledger.Tenant(tenant);
    assert ValidStore(s);
    ghost var all := Changes(s, 0);
    ghost var done: nat := 0;
    var found: seq<Txn> := [];
    var cursor: Option<string> := None;
    DrainStart(all, account);
    while true
      invariant done <= |all| && found == Own(all[..done], account)
      invariant StandsFor(cursor, LastOf(all[..done], 0))
      decreases |all| - done
    {
      var page := ledger.Sync(tenant, cursor, limit);
      if Blank(tenant) {
        return Err(TenantIsolationError);
      }
      DrainStep(s, cursor, limit, all, done, account);
      if page.Err? {
        return Err(page.error);
      }
      ghost var k := Shown(|all| - done, limit);
      var own := OwnOf(page.value.events, all[done..done + k], account);
      found := found + own;
      done := done + k;
      if !page.value.hasMore {
        assert all[..done] == all;
        return Ok(found);
      }
      cursor := Some(page.value.nextCursor);
    }
  }

  lemma DrainStart(all: seq<Txn>, account: string)
    ensures Own(all[..0], account) == [] && StandsFor(None, LastOf(all[..0], 0))
  {
  }

  lemma WithinWrites(s: Store, k: nat)
    requires ValidStore(s) && k <= |Changes(s, 0)|
    ensures LastOf(Changes(s, 0)[..k], 0) <= s.seqno
  {
    var rows := Changes(s, 0);
    if k > 0 {
      assert rows[..k][k - 1] in rows;
    }
  }
}
