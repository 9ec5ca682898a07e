/** The cursor feed and the client that follows it (ledger/backends/memory.py `sync`). */
module Feed {
  import opened Common
  import opened Transactions
  import opened Ledgers
  import opened Cursors
  import opened Reorgs

  datatype SyncPage = SyncPage(events: seq<SyncEvent>, nextCursor: string, hasMore: bool)

  ghost predicate Stored(s: Store, row: Txn) {
    row.payload.id in s.rows && s.rows[row.payload.id] == row
  }

  ghost predicate Ascending(rows: seq<Txn>) {
    forall i, j | 0 <= i < j < |rows| :: rows[i].lastModifiedSeq < rows[j].lastModifiedSeq
  }

  /** The rows touched after write `since`, in write order. */
  ghost predicate ChangesOf(s: Store, since: nat, rows: seq<Txn>) {
    Ascending(rows) && forall row :: row in rows <==> Stored(s, row) && row.lastModifiedSeq > since
  }

  ghost function Changes(s: Store, since: nat): (rows: seq<Txn>)
    requires ValidStore(s)
    ensures ChangesOf(s, since, rows)
  {
    ChangesExist(s, since);
    var rows :| ChangesOf(s, since, rows);
    rows
  }

  /** A page of `limit` changes, whose cursor is the last one it shows. */
  function PageOf(rows: seq<Txn>, since: nat, limit: nat): SyncPage {
    var page := if |rows| <= limit then rows else rows[..limit];
    SyncPage(seq(|page|, k requires 0 <= k < |page| => Announce(page[k])),
             EncodeCursor(LastOf(page, since)).value, |rows| > limit)
  }

  function LastOf(page: seq<Txn>, since: nat): nat {
    if page == [] then since else page[|page| - 1].lastModifiedSeq
  }

  ghost function Sync(s: Store, cursor: Option<string>, limit: int): Result<SyncPage>
    requires ValidStore(s)
  {
    if limit < 1 then Err(ValidationError)
    else
      match DecodeCursor(cursor)
      case Err(e) => Err(e)
      case Ok(since) => Ok(PageOf(Changes(s, since), since, limit))
  }

  /** The rows touched after write `since` and up to write `upto`, in write order. */
  ghost predicate ChangesUpTo(s: Store, since: nat, upto: nat, rows: seq<Txn>) {
    Ascending(rows) && forall row :: row in rows <==> Stored(s, row) && since < row.lastModifiedSeq <= upto
  }

  lemma ChangesExist(s: Store, since: nat)
    requires ValidStore(s)
    ensures exists rows :: ChangesOf(s, since, rows)
  {
    ChangesExistUpTo(s, since, s.seqno);
    var rows :| ChangesUpTo(s, since, s.seqno, rows);
    assert ChangesOf(s, since, rows);
  }

  lemma {:induction false} ChangesExistUpTo(s: Store, since: nat, upto: nat)
    requires ValidStore(s)
    ensures exists rows :: ChangesUpTo(s, since, upto, rows)
    decreases upto
  {
    hide ChangesUpTo, ValidStore;
    if upto <= since {
      NoChanges(s, since, upto);
    } else {
      ChangesExistUpTo(s, since, upto - 1);
      var rows :| ChangesUpTo(s, since, upto - 1, rows);
      if id :| id in s.rows && s.rows[id].lastModifiedSeq == upto {
        OneMoreChange(s, since, upto, rows, id);
      } else {
        NoChangeAt(s, since, upto, rows);
      }
    }
  }

  lemma NoChanges(s: Store, since: nat, upto: nat)
    requires upto <= since
    ensures ChangesUpTo(s, since, upto, [])
  {
  }

  lemma OneMoreChange(s: Store, since: nat, upto: nat, rows: seq<Txn>, id: string)
    requires ValidStore(s) && upto > since && ChangesUpTo(s, since, upto - 1, rows)
    requires id in s.rows && s.rows[id].lastModifiedSeq == upto
    ensures ChangesUpTo(s, since, upto, rows + [s.rows[id]])
  {
    LatestLast(rows, s.rows[id]);
  }

  lemma LatestLast(rows: seq<Txn>, row: Txn)
    requires Ascending(rows) && forall r | r in rows :: r.lastModifiedSeq < row.lastModifiedSeq
    ensures Ascending(rows + [row])
  {
  }

  lemma NoChangeAt(s: Store, since: nat, upto: nat, rows: seq<Txn>)
    requires upto > since && ChangesUpTo(s, since, upto - 1, rows)
    requires forall id | id in s.rows :: s.rows[id].lastModifiedSeq != upto
    ensures ChangesUpTo(s, since, upto, rows)
  {
  }

  /** The change list is one list, however it was sorted. */
  lemma {:induction false} OneOrder(a: seq<Txn>, b: seq<Txn>)
    requires Ascending(a) && Ascending(b) && forall row :: row in a <==> row in b
    ensures a == b
  {
    if b != [] {
      assert b[0] in b;
    }
    if a != [] {
      assert a[0] in a;
      SameLast(a, b);
      var n, m := |a| - 1, |b| - 1;
      OneOrder(a[..n], b[..m]);
      assert a == a[..n] + [a[n]] && b == b[..m] + [b[m]];
    }
  }

  lemma SameLast(a: seq<Txn>, b: seq<Txn>)
    requires Ascending(a) && Ascending(b) && a != [] && b != [] && forall row :: row in a <==> row in b
    ensures a[|a| - 1] == b[|b| - 1]
    ensures var a', b' := a[..|a| - 1], b[..|b| - 1]; forall row :: row in a' <==> row in b'
  {
    var n, m := |a| - 1, |b| - 1;
    assert a[n] in b && b[m] in a;
    var i :| 0 <= i < |b| && b[i] == a[n];
    var j :| 0 <= j < |a| && a[j] == b[m];
    AllButLast(a);
    AllButLast(b);
    var a', b' := a[..n], b[..m];
    forall row
      ensures row in a' <==> row in b'
    {
      assert row in a <==> row in b;
    }
  }

  lemma AllButLast(a: seq<Txn>)
    requires Ascending(a) && a != []
    ensures forall row :: row in a[..|a| - 1] <==> row in a && row != a[|a| - 1]
  {
    var n := |a| - 1;
    assert a == a[..n] + [a[n]];
    forall row | row in a[..n]
      ensures row != a[n]
    {
      var i :| 0 <= i < n && a[i] == row;
    }
  }

  // The client

  /** One event, applied to what the client holds. */
  function Apply(view: map<string, Payload>, event: SyncEvent): map<string, Payload> {
    if event.kind == Removed then view - {event.row.payload.id} else view[event.row.payload.id := event.row.payload]
  }

  function ApplyAll(view: map<string, Payload>, events: seq<SyncEvent>): map<string, Payload> {
    if events == [] then view else Apply(ApplyAll(view, events[..|events| - 1]), events[|events| - 1])
  }

  predicate Shows(view: map<string, Payload>, row: Txn) {
    var id := row.payload.id;
    if row.removed then id !in view else id in view && view[id] == row.payload
  }

  /** The client is right about every row last touched by write `since` or before,
      and holds nothing the ledger never had. */
  ghost predicate Agrees(s: Store, view: map<string, Payload>, since: nat) {
    && (forall id | id in view :: id in s.rows)
    && (forall row | Stored(s, row) && row.lastModifiedSeq <= since :: Shows(view, row))
  }

  /** It shows exactly the live rows. */
  ghost predicate ShowsAll(s: Store, view: map<string, Payload>) {
    forall id :: (id in view <==> id in s.rows && !s.rows[id].removed)
      && (id in view ==> view[id] == s.rows[id].payload)
  }

  lemma {:induction false} ChangesApply(s: Store, view: map<string, Payload>, since: nat, rows: seq<Txn>, k: nat)
    requires ValidStore(s) && ChangesOf(s, since, rows) && Agrees(s, view, since) && k <= |rows|
    ensures Agrees(s, ApplyAll(view, seq(k, i requires 0 <= i < k => Announce(rows[i]))), LastOf(rows[..k], since))
  {
    hide ValidStore, ChangesOf, Shows;
    var events := seq(k, i requires 0 <= i < k => Announce(rows[i]));
    if k > 0 {
      ChangesApply(s, view, since, rows, k - 1);
      assert events[..k - 1] == seq(k - 1, i requires 0 <= i < k - 1 => Announce(rows[i]));
      assert rows[..k][..k - 1] == rows[..k - 1];
      assert rows[k - 1] in rows;
      OneChange(s, ApplyAll(view, events[..k - 1]), since, rows, k - 1);
    }
  }

  /** The next change in the list is the only row written since the one before it. */
  lemma OneChange(s: Store, view: map<string, Payload>, since: nat, rows: seq<Txn>, k: nat)
    requires ValidStore(s) && ChangesOf(s, since, rows) && k < |rows| && Agrees(s, view, LastOf(rows[..k], since))
    ensures Agrees(s, Apply(view, Announce(rows[k])), rows[k].lastModifiedSeq)
  {
    assert rows[k] in rows;
    var after := Apply(view, Announce(rows[k]));
    forall row | Stored(s, row) && row.lastModifiedSeq <= rows[k].lastModifiedSeq
      ensures Shows(after, row)
    {
      assert row.payload.id == rows[k].payload.id ==> row == rows[k];
      if row.lastModifiedSeq > LastOf(rows[..k], since) {
        if k > 0 {
          assert rows[..k][k - 1] in rows;
        }
        assert row in rows;
        var j :| 0 <= j < |rows| && rows[j] == row;
        assert j == k;
      } else if k > 0 {
        assert LastOf(rows[..k], since) == rows[k - 1].lastModifiedSeq < rows[k].lastModifiedSeq;
      }
    }
  }

  /** Rows only ever change by getting a number above all numbers given out. */
  ghost predicate MovedOn(s: Store, s': Store) {
    && s.seqno <= s'.seqno
    && (forall id | id in s.rows :: id in s'.rows)
    && (forall id | id in s'.rows :: s'.rows[id].lastModifiedSeq > s.seqno || SameAt(s, s', id))
  }

  /** Whatever the ledger does between two polls, the client stays right about what
      it has already seen. */
  lemma MovingOnAgrees(s: Store, s': Store, view: map<string, Payload>, since: nat)
    requires ValidStore(s) && ValidStore(s') && MovedOn(s, s') && Agrees(s, view, since) && since <= s.seqno
    ensures Agrees(s', view, since)
  {
    forall row | Stored(s', row) && row.lastModifiedSeq <= since
      ensures Shows(view, row)
    {
      assert SameAt(s, s', row.payload.id);
      assert Stored(s, row);
    }
  }

  lemma MovedOnTwice(a: Store, b: Store, c: Store)
    requires MovedOn(a, b) && MovedOn(b, c)
    ensures MovedOn(a, c)
  {
    forall id | id in c.rows
      ensures c.rows[id].lastModifiedSeq > a.seqno || SameAt(a, c, id)
    {
      assert c.rows[id].lastModifiedSeq > b.seqno || SameAt(b, c, id);
    }
  }

  lemma WriteMovesOn(s: Store, id: string, row: Txn)
    requires row.lastModifiedSeq == s.seqno + 1
    ensures MovedOn(s, Write(s, id, row))
  {
  }

  lemma {:induction false} UpsertMovesOn(s: Store, txns: seq<Txn>)
    ensures MovedOn(s, Upserted(s, txns).store)
  {
    hide MovedOn;
    if txns == [] {
      StandingStill(s);
    } else {
      UpsertMovesOn(s, txns[..|txns| - 1]);
      var done, txn := Upserted(s, txns[..|txns| - 1]).store, txns[|txns| - 1];
      WriteMovesOn(done, txn.payload.id, Row(done, txn.payload, false));
      if Stale(done, txn) {
        MovedOnTwice(s, done, Upserted(s, txns).store);
      }
    }
  }

  lemma {:induction false} RemovalMovesOn(s: Store, ids: seq<string>)
    requires Known(s, ids)
    ensures MovedOn(s, MarkedRemoved(s, ids).store)
  {
    hide MovedOn;
    if ids == [] {
      StandingStill(s);
    } else {
      RemovalMovesOn(s, ids[..|ids| - 1]);
      var done, id := MarkedRemoved(s, ids[..|ids| - 1]).store, ids[|ids| - 1];
      WriteMovesOn(done, id, Row(done, done.rows[id].payload, true));
      if !done.rows[id].removed {
        MovedOnTwice(s, done, MarkedRemoved(s, ids).store);
      }
    }
  }

  lemma StandingStill(s: Store)
    ensures MovedOn(s, s)
  {
  }

  lemma ReorgMovesOn(s: Store, plan: ReorgPlan)
    requires ValidStore(s) && ApplyReorg(s, plan).Ok?
    ensures ValidStore(ApplyReorg(s, plan).value.store) && MovedOn(s, ApplyReorg(s, plan).value.store)
  {
    hide ValidStore, MovedOn, Known, UniqueIds;
    MarkedKeeps(s, plan.removeIds);
    UpsertedKeeps(MarkedRemoved(s, plan.removeIds).store, plan.add);
    RemovalMovesOn(s, plan.removeIds);
    var gone := MarkedRemoved(s, plan.removeIds).store;
    UpsertMovesOn(gone, plan.add);
    MovedOnTwice(s, gone, Upserted(gone, plan.add).store);
  }

  // Runs of writers and one client

  datatype Move = Upserts(txns: seq<Txn>) | Removes(ids: seq<string>) | Reorgs(plan: ReorgPlan) | Poll(limit: int)

  /** A ledger and a client that started at no cursor. */
  datatype World = World(store: Store, view: map<string, Payload>, cursor: Option<string>)

  const GENESIS := World(EMPTY, map[], None)

  ghost function Written(s: Store, move: Move): Result<Outcome>
    requires !move.Poll?
  {
    match move
    case Upserts(txns) => Upsert(s, txns)
    case Removes(ids) => MarkRemoved(s, ids)
    case Reorgs(plan) => ApplyReorg(s, plan)
  }

  /** A refused write or poll changes nothing. */
  ghost function Next(w: World, move: Move): World
    requires ValidStore(w.store)
  {
    if move.Poll? then
      match Sync(w.store, w.cursor, move.limit)
      case Err(_) => w
      case Ok(page) => World(w.store, ApplyAll(w.view, page.events), Some(page.nextCursor))
    else
      match Written(w.store, move)
      case Err(_) => w
      case Ok(o) => w.(store := o.store)
  }

  /** The number a cursor stands for, whether or not its token still decodes. */
  ghost predicate StandsFor(cursor: Option<string>, since: nat) {
    cursor == if since == 0 && cursor.None? then None else Some(EncodeCursor(since).value)
  }

  ghost predicate Follows(w: World, since: nat) {
    ValidStore(w.store) && since <= w.store.seqno && StandsFor(w.cursor, since) && Agrees(w.store, w.view, since)
  }

  lemma WritesFollow(w: World, move: Move, since: nat)
    requires Follows(w, since) && !move.Poll?
    ensures Follows(Next(w, move), since)
  {
    hide ValidStore, Agrees, StandsFor;
    var next := Written(w.store, move);
    if next.Ok? {
      match move {
        case Upserts(txns) => UpsertMovesOn(w.store, txns); UpsertedKeeps(w.store, txns);
        case Removes(ids) => RemovalMovesOn(w.store, ids); MarkedKeeps(w.store, ids);
        case Reorgs(plan) => ReorgMovesOn(w.store, plan);
      }
      MovingOnAgrees(w.store, next.value.store, w.view, since);
    }
  }

  /** One poll: the new cursor's number. */
  ghost function Advance(w: World, limit: int, since: nat): nat
    requires Follows(w, since)
  {
    if limit < 1 || since >= PowerOfTen(TOKEN_LENGTH) then since
    else
      var rows := Changes(w.store, since);
      LastOf(if |rows| <= limit then rows else rows[..limit], since)
  }

  lemma DecodesTo(cursor: Option<string>, since: nat)
    requires StandsFor(cursor, since)
    ensures DecodeCursor(cursor) == if since < PowerOfTen(TOKEN_LENGTH) then Ok(since) else Err(CursorError)
  {
    TokenRoundTrip(since);
  }

  lemma LastIsBetween(s: Store, since: nat, rows: seq<Txn>, k: nat)
    requires ValidStore(s) && ChangesOf(s, since, rows) && since <= s.seqno && k <= |rows|
    ensures since <= LastOf(rows[..k], since) <= s.seqno
    ensures k > 0 ==> LastOf(rows[..k], since) > since
    ensures k == |rows| ==> rows[..k] == rows
  {
    if k > 0 {
      assert rows[..k][k - 1] in rows;
    }
  }

  /** What a page that ends at write `last` shows: every row touched after the cursor and up
      to there, once, in write order, as what it now is; it is full while more follows. */
  ghost predicate PageTo(s: Store, since: nat, limit: int, page: SyncPage, last: nat) {
    && EncodeCursor(last) == Ok(page.nextCursor) && since <= last
    && |page.events| <= limit && (page.hasMore ==> |page.events| == limit)
    && (page.hasMore <==> exists id :: id in s.rows && s.rows[id].lastModifiedSeq > last)
    && (forall i, j | 0 <= i < j < |page.events| ::
          page.events[i].row.lastModifiedSeq < page.events[j].row.lastModifiedSeq)
    && (forall e :: e in page.events <==>
          && e.row.payload.id in s.rows && s.rows[e.row.payload.id] == e.row
          && since < e.row.lastModifiedSeq <= last && e.kind == if e.row.removed then Removed else Added)
  }

  lemma PageShows(s: Store, cursor: Option<string>, limit: int)
    requires ValidStore(s) && Sync(s, cursor, limit).Ok?
    ensures DecodeCursor(cursor).Ok?
    ensures exists last: nat :: PageTo(s, DecodeCursor(cursor).value, limit, Sync(s, cursor, limit).value, last)
  {
    hide ValidStore, ChangesOf, LastOf, EncodeCursor, DecodeCursor, Announce;
    var since, page := DecodeCursor(cursor).value, Sync(s, cursor, limit).value;
    var rows := Changes(s, since);
    var k := if |rows| <= limit then |rows| else limit;
    PageIs(rows, since, limit);
    var last := LastOf(rows[..k], since);
    FirstChanges(s, since, rows, k);
    EventsShow(s, since, last, rows[..k], page.events);
    assert EncodeCursor(last) == Ok(page.nextCursor) by {
      Encodes(last);
    }
    assert PageTo(s, since, limit, page, last);
  }

  lemma Encodes(n: nat)
    ensures EncodeCursor(n) == Ok(EncodeCursor(n).value)
  {
  }

  /** The first `k` changes are those up to the last of them; more follow exactly when some
      row was touched later. */
  lemma FirstChanges(s: Store, since: nat, rows: seq<Txn>, k: nat)
    requires ValidStore(s) && ChangesOf(s, since, rows) && k <= |rows|
    ensures var last := LastOf(rows[..k], since);
      && since <= last && ChangesUpTo(s, since, last, rows[..k])
      && (k < |rows| <==> exists id :: id in s.rows && s.rows[id].lastModifiedSeq > last)
  {
    hide ValidStore;
    var last := LastOf(rows[..k], since);
    SplitAt(rows, since, k);
    assert forall row | row in rows :: Stored(s, row) && row.lastModifiedSeq > since;
    if k < |rows| {
      assert rows[k] in rows;
      assert s.rows[rows[k].payload.id].lastModifiedSeq > last;
    }
    forall id | id in s.rows && s.rows[id].lastModifiedSeq > last
      ensures k < |rows|
    {
      StoredUnderItsId(s, id);
      assert s.rows[id] in rows;
    }
    assert k > 0 ==> rows[k - 1] in rows;
  }

  lemma StoredUnderItsId(s: Store, id: string)
    requires ValidStore(s) && id in s.rows
    ensures Stored(s, s.rows[id])
  {
  }

  /** The first `k` of ascending rows are those up to the last of them. */
  lemma SplitAt(rows: seq<Txn>, since: nat, k: nat)
    requires Ascending(rows) && k <= |rows| && forall row | row in rows :: row.lastModifiedSeq > since
    ensures Ascending(rows[..k])
    ensures forall row :: row in rows[..k] <==> row in rows && row.lastModifiedSeq <= LastOf(rows[..k], since)
    ensures forall j | k <= j < |rows| :: rows[j].lastModifiedSeq > LastOf(rows[..k], since)
  {
    forall j | k <= j < |rows|
      ensures rows[j].lastModifiedSeq > LastOf(rows[..k], since)
    {
      assert rows[j] in rows;
    }
  }

  lemma EventsShow(s: Store, since: nat, last: nat, rows: seq<Txn>, events: seq<SyncEvent>)
    requires ChangesUpTo(s, since, last, rows)
    requires |events| == |rows| && forall k | 0 <= k < |rows| :: events[k] == Announce(rows[k])
    ensures forall i, j | 0 <= i < j < |events| :: events[i].row.lastModifiedSeq < events[j].row.lastModifiedSeq
    ensures forall e :: e in events <==>
      && e.row.payload.id in s.rows && s.rows[e.row.payload.id] == e.row
      && since < e.row.lastModifiedSeq <= last && e.kind == if e.row.removed then Removed else Added
  {
    forall e
      ensures e in events <==> e.row in rows && e.kind == if e.row.removed then Removed else Added
    {
      if e.row in rows && e.kind == if e.row.removed then Removed else Added {
        var k :| 0 <= k < |rows| && rows[k] == e.row;
        assert events[k] == e;
      }
    }
  }

  /** A poll keeps the client right; it advances strictly while there is more, and
      when there is not the client shows exactly the live rows. */
  lemma PollFollows(w: World, limit: int, since: nat)
    requires Follows(w, since)
    ensures Follows(Next(w, Poll(limit)), Advance(w, limit, since))
    ensures var r := Sync(w.store, w.cursor, limit); r.Ok? ==>
      && (r.value.hasMore ==> Advance(w, limit, since) > since)
      && (!r.value.hasMore ==> ShowsAll(w.store, Next(w, Poll(limit)).view))
  {
    hide Agrees, ShowsAll, PowerOfTen, PageOf, Shows, ChangesOf, LastOf, ValidStore;
    DecodesTo(w.cursor, since);
    if limit >= 1 && since < PowerOfTen(TOKEN_LENGTH) {
      var rows := Changes(w.store, since);
      var k := if |rows| <= limit then |rows| else limit;
      ChangesApply(w.store, w.view, since, rows, k);
      PageIs(rows, since, limit);
      LastIsBetween(w.store, since, rows, k);
      if k == |rows| {
        AllSeen(w.store, ApplyAll(w.view, PageOf(rows, since, limit).events), since, rows);
      }
    }
  }

  lemma PageIs(rows: seq<Txn>, since: nat, limit: nat)
    ensures var k := if |rows| <= limit then |rows| else limit;
      PageOf(rows, since, limit) ==
        SyncPage(seq(k, i requires 0 <= i < k => Announce(rows[i])), EncodeCursor(LastOf(rows[..k], since)).value,
                 |rows| > limit)
  {
    var k := if |rows| <= limit then |rows| else limit;
    assert rows[..|rows|] == rows;
    assert PageOf(rows, since, limit).events == seq(k, i requires 0 <= i < k => Announce(rows[i]));
  }

  lemma AllSeen(s: Store, view: map<string, Payload>, since: nat, rows: seq<Txn>)
    requires ValidStore(s) && ChangesOf(s, since, rows) && Agrees(s, view, LastOf(rows, since))
    ensures ShowsAll(s, view)
  {
    forall id | id in s.rows
      ensures Shows(view, s.rows[id])
    {
      assert Stored(s, s.rows[id]);
      if s.rows[id].lastModifiedSeq > since {
        assert s.rows[id] in rows;
      }
    }
  }

  /** Where a run of moves leads. */
  ghost function After(moves: seq<Move>): (w: World)
    ensures exists since :: Follows(w, since)
  {
    if moves == [] then
      assert Follows(GENESIS, 0);
      GENESIS
    else
      var before := After(moves[..|moves| - 1]);
      var move := moves[|moves| - 1];
      assert exists since :: Follows(Next(before, move), since) by {
        MoveFollows(before, move);
      }
      Next(before, move)
  }

  lemma MoveFollows(w: World, move: Move)
    requires exists since :: Follows(w, since)
    ensures exists since :: Follows(Next(w, move), since)
  {
    hide Next, Sync;
    var since :| Follows(w, since);
    if move.Poll? {
      PollFollows(w, move.limit, since);
    } else {
      WritesFollow(w, move, since);
    }
  }

  /** However writes and polls were interleaved, a client that started at no cursor
      ends a poll with no more to come showing exactly the live rows; while there
      is more its cursor strictly advances; and it is refused only for asking for
      no rows or once the write counter it has reached needs more than 20 digits. */
  lemma FeedConverges(moves: seq<Move>, limit: int)
    ensures var w := After(moves);
      var r := Sync(w.store, w.cursor, limit);
      if r.Ok? then
        && (!r.value.hasMore ==> ShowsAll(w.store, ApplyAll(w.view, r.value.events)))
        && (r.value.hasMore ==> Advances(w.cursor, r.value.nextCursor))
      else
        if limit < 1 then r.error == ValidationError
        else r.error == CursorError && w.store.seqno >= PowerOfTen(TOKEN_LENGTH)
  {
    hide ValidStore, Agrees, ShowsAll, PowerOfTen, Padded, ApplyAll;
    var w := After(moves);
    var since :| Follows(w, since);
    DecodesTo(w.cursor, since);
    PollFollows(w, limit, since);
    var r := Sync(w.store, w.cursor, limit);
    if r.Ok? && r.value.hasMore {
      var after := Advance(w, limit, since);
      assert DecodeCursor(w.cursor) == Ok(since) && EncodeCursor(after) == Ok(r.value.nextCursor) && since < after;
    }
  }

  ghost predicate Advances(cursor: Option<string>, next: string) {
    exists before: nat, after: nat ::
      DecodeCursor(cursor) == Ok(before) && EncodeCursor(after) == Ok(next) && before < after
  }
}
