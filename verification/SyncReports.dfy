/** Sync reports and their validators (embed/models.py). */
module SyncReports {
  import opened Common
  import opened SyncSafety

  datatype ConnectionSyncReport = ConnectionSyncReport(
    connectionId: string, noOp: bool, pagesFetched: int, livePages: int, backfillPages: int, ingested: int,
    liveCursor: nat, backfillCursor: Option<nat>, backfillComplete: bool, failed: bool)

  datatype SyncReport = SyncReport(
    noOp: bool, pagesFetched: int, livePages: int, backfillPages: int, ingested: int,
    connections: seq<ConnectionSyncReport>)

  /** `_validate_report_counts`. */
  predicate ValidCounts(noOp: bool, pagesFetched: int, livePages: int, backfillPages: int, ingested: int) {
    && pagesFetched >= 0 && livePages >= 0 && backfillPages >= 0 && ingested >= 0
    && (noOp ==> pagesFetched == livePages == backfillPages == ingested == 0)
    && pagesFetched == livePages + backfillPages
  }

  predicate ValidReport(r: ConnectionSyncReport) {
    !(r.failed && r.noOp) && ValidCounts(r.noOp, r.pagesFetched, r.livePages, r.backfillPages, r.ingested)
  }

  /** The row of a connection whose sync raised: no work claimed, cursors echoed. */
  function Failure(connectionId: string, st: SyncState): (r: ConnectionSyncReport)
    ensures ValidReport(r) && r.failed && Echoes(r, st)
  {
    ConnectionSyncReport(connectionId, false, 0, 0, 0, 0, st.liveCursor, st.backfillCursor, st.backfillComplete, true)
  }

  predicate Echoes(r: ConnectionSyncReport, st: SyncState) {
    r.liveCursor == st.liveCursor && r.backfillCursor == st.backfillCursor && r.backfillComplete == st.backfillComplete
  }

  datatype Count = Pages | Live | Backfill | Ingested

  function Get(row: ConnectionSyncReport, count: Count): int {
    match count
    case Pages => row.pagesFetched
    case Live => row.livePages
    case Backfill => row.backfillPages
    case Ingested => row.ingested
  }

  function Total(rows: seq<ConnectionSyncReport>, count: Count): int {
    if rows == [] then 0 else Total(rows[..|rows| - 1], count) + Get(rows[|rows| - 1], count)
  }

  predicate AllNoOp(rows: seq<ConnectionSyncReport>) {
    forall k | 0 <= k < |rows| :: rows[k].noOp
  }

  /** What `SyncReport.__post_init__` accepts. */
  predicate ValidSyncReport(r: SyncReport) {
    && ValidCounts(r.noOp, r.pagesFetched, r.livePages, r.backfillPages, r.ingested)
    && (r.connections != [] ==>
          && r.pagesFetched == Total(r.connections, Pages) && r.livePages == Total(r.connections, Live)
          && r.backfillPages == Total(r.connections, Backfill) && r.ingested == Total(r.connections, Ingested)
          && r.noOp == AllNoOp(r.connections))
  }

  function Assemble(rows: seq<ConnectionSyncReport>): SyncReport {
    SyncReport(AllNoOp(rows), Total(rows, Pages), Total(rows, Live), Total(rows, Backfill), Total(rows, Ingested), rows)
  }

  /** Valid rows always assemble into a valid aggregate. */
  lemma {:induction false} AssembleIsValid(rows: seq<ConnectionSyncReport>)
    requires forall k | 0 <= k < |rows| :: ValidReport(rows[k])
    ensures ValidSyncReport(Assemble(rows))
    ensures rows == [] ==> Assemble(rows).noOp
  {
    TotalsAgree(rows);
  }

  lemma {:induction false} TotalsAgree(rows: seq<ConnectionSyncReport>)
    requires forall k | 0 <= k < |rows| :: ValidReport(rows[k])
    ensures forall c :: Total(rows, c) >= 0
    ensures Total(rows, Pages) == Total(rows, Live) + Total(rows, Backfill)
    ensures AllNoOp(rows) ==> forall c :: Total(rows, c) == 0
  {
    if rows != [] {
      TotalsAgree(rows[..|rows| - 1]);
    }
  }

  /** One more row adds its own counts to the aggregate's, and leaves it a no-op only if it
      was one and the row is; nothing at all is a no-op with no counts. */
  lemma AssembledIs(rows: seq<ConnectionSyncReport>, row: ConnectionSyncReport)
    ensures Assemble([]) == SyncReport(true, 0, 0, 0, 0, [])
    ensures var (sum, more) := (Assemble(rows), Assemble(rows + [row]));
      && more.pagesFetched == sum.pagesFetched + row.pagesFetched
      && more.livePages == sum.livePages + row.livePages
      && more.backfillPages == sum.backfillPages + row.backfillPages
      && more.ingested == sum.ingested + row.ingested
      && (more.noOp <==> sum.noOp && row.noOp) && more.connections == rows + [row]
  {
    assert (rows + [row])[..|rows|] == rows;
    if AllNoOp(rows) && row.noOp {
      assert forall k | 0 <= k < |rows + [row]| :: (rows + [row])[k] == if k < |rows| then rows[k] else row;
    } else if !AllNoOp(rows) {
      var k :| 0 <= k < |rows| && !rows[k].noOp;
      assert (rows + [row])[k] == rows[k];
    } else {
      assert (rows + [row])[|rows|] == row;
    }
  }

  /** A valid aggregate is the one its rows assemble into; it and they count nothing below
      zero, their pages are their live and backfill pages, a no-op counts nothing, and no row
      both failed and did nothing. */
  lemma ReportsAddUp(sum: SyncReport, k: nat)
    requires k < |sum.connections| && ValidSyncReport(sum) && ValidReport(sum.connections[k])
    ensures sum == Assemble(sum.connections)
    ensures var row := sum.connections[k];
      && 0 <= sum.livePages && 0 <= sum.backfillPages && sum.pagesFetched == sum.livePages + sum.backfillPages
      && 0 <= sum.ingested && (sum.noOp ==> sum.pagesFetched == 0 && sum.ingested == 0)
      && 0 <= row.livePages && 0 <= row.backfillPages && row.pagesFetched == row.livePages + row.backfillPages
      && 0 <= row.ingested && (row.noOp ==> row.pagesFetched == 0 && row.ingested == 0 && !row.failed)
      && (sum.noOp ==> row.noOp)
  {
    hide Total;
  }

  /** What one row costs the shared budget. */
  function Cost(row: ConnectionSyncReport): int {
    if row.failed then 1 else row.pagesFetched
  }

  function Costs(rows: seq<ConnectionSyncReport>): int {
    if rows == [] then 0 else Costs(rows[..|rows| - 1]) + Cost(rows[|rows| - 1])
  }

  function Failures(rows: seq<ConnectionSyncReport>): nat {
    if rows == [] then 0 else Failures(rows[..|rows| - 1]) + (if rows[|rows| - 1].failed then 1 else 0)
  }

  /** The budget goes to the pages reported, and one unit to each failure. */
  lemma {:induction false} CostsAre(rows: seq<ConnectionSyncReport>)
    requires forall k | 0 <= k < |rows| :: rows[k].failed ==> rows[k].pagesFetched == 0
    ensures Costs(rows) == Assemble(rows).pagesFetched + Failures(rows)
  {
    if rows != [] {
      CostsAre(rows[..|rows| - 1]);
    }
  }

  /** A failed row reports no page, so the pages reported never exceed the budget spent. */
  lemma {:induction false} PagesWithinCosts(rows: seq<ConnectionSyncReport>)
    requires forall k | 0 <= k < |rows| :: rows[k].failed ==> rows[k].pagesFetched == 0
    ensures Total(rows, Pages) <= Costs(rows)
  {
    if rows != [] {
      PagesWithinCosts(rows[..|rows| - 1]);
    }
  }
}
