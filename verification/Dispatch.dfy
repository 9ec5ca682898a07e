/** One tick's shared budget over many connections (embed/dispatch.py). */
module Dispatch {
  import opened Common
  import opened SyncReports
  import opened SyncSafety
  import opened Sync

  /** The most requests a budget can lead to when every visit fails: each costs one
      unit yet may have spent all that was left. */
  function Worst(budget: nat): nat {
    if budget == 0 then 0 else Worst(budget - 1) + budget
  }

  lemma {:induction false} WorstIsTriangular(budget: nat)
    ensures 2 * Worst(budget) == budget * (budget + 1)
  {
    if budget > 0 {
      WorstIsTriangular(budget - 1);
      assert (budget - 1) * budget + 2 * budget == budget * (budget + 1);
    }
  }

  lemma {:induction false} WorstGrows(a: nat, b: nat)
    requires a <= b
    ensures Worst(a) + (b - a) <= Worst(b) && b <= Worst(b)
  {
    if a < b {
      WorstGrows(a, b - 1);
    } else if b > 0 {
      WorstGrows(b - 1, b - 1);
    }
  }

  /** The errors a tick files as one connection's failure row. */
  predicate Contained(error: Error) {
    !error.CassetteError? && !error.HostError?
  }

  /** The connections' walks are independent, and share one transport. */
  ghost predicate Ready(pairs: seq<SyncEngine>, wire: Wire)
    reads pairs, set e | e in pairs :: e.explorer
  {
    && (forall e | e in pairs :: e.explorer.wire == wire && e.Inv())
    && (forall e, f | e in pairs && f in pairs :: e != f ==> e.explorer != f.explorer)
  }

  /** Row `k` speaks of pair `k`. */
  predicate InOrder(rows: seq<ConnectionSyncReport>, pairs: seq<SyncEngine>) {
    && |rows| <= |pairs|
    && forall k | 0 <= k < |rows| :: ValidReport(rows[k]) && rows[k].connectionId == pairs[k].connectionId
  }

  /** What each connection has persisted. */
  ghost function Cursors(pairs: seq<SyncEngine>): (stored: seq<SyncState>)
    reads pairs
    ensures |stored| == |pairs| && forall k | 0 <= k < |pairs| :: stored[k] == pairs[k].stored
  {
    seq(|pairs|, k requires 0 <= k < |pairs| reads pairs => pairs[k].stored)
  }

  /** Each row echoes the cursors its connection has persisted. */
  ghost predicate Echoed(rows: seq<ConnectionSyncReport>, pairs: seq<SyncEngine>)
    requires |rows| <= |pairs|
    reads pairs
  {
    forall k | 0 <= k < |rows| :: Echoes(rows[k], pairs[k].stored)
  }

  ghost predicate Distinct(pairs: seq<SyncEngine>) {
    forall i, j | 0 <= i < j < |pairs| :: pairs[i] != pairs[j]
  }

  predicate AnyFailed(rows: seq<ConnectionSyncReport>) {
    exists k | 0 <= k < |rows| :: rows[k].failed
  }

  ghost predicate Undisturbed(pairs: seq<SyncEngine>)
    reads pairs, set e | e in pairs :: e.explorer
  {
    forall e | e in pairs :: e.explorer.turns == []
  }

  /** `run_sync`.  `nowMs[k]` is what the clock shows when pair `k` is visited. */
  method RunSync(pairs: seq<SyncEngine>, wire: Wire, nowMs: seq<int>, budget: int) returns (r: Result<SyncReport>)
    requires Ready(pairs, wire) && |nowMs| == |pairs|
    modifies pairs, set e | e in pairs :: e.explorer, wire
    ensures Ready(pairs, wire)
    ensures budget < 1 ==> r == Err(ValidationError) && wire.requests == old(wire.requests)
    // however many connections fail
    ensures budget >= 1 ==> 2 * (wire.requests - old(wire.requests)) <= budget * (budget + 1)
    ensures r.Ok? ==>
      && r.value == Assemble(r.value.connections) && ValidSyncReport(r.value) && |r.value.connections| <= |pairs|
      && (forall k | 0 <= k < |r.value.connections| ::
            ValidReport(r.value.connections[k]) && r.value.connections[k].connectionId == pairs[k].connectionId)
      && r.value.pagesFetched <= Costs(r.value.connections) <= budget
      // only an exhausted budget leaves a connection unvisited
      && (|r.value.connections| < |pairs| ==> Costs(r.value.connections) == budget)
      // what no failure hid is reported to the page
      && (!AnyFailed(r.value.connections) ==> r.value.pagesFetched == wire.requests - old(wire.requests))
    ensures r.Ok? && Distinct(pairs) ==> Echoed(r.value.connections, pairs)
    // a tick raises nothing of its connections' but these
    ensures budget >= 1 && r.Err? ==> r.error in {CassetteError, HostError}
    ensures old(Undisturbed(pairs)) && budget >= 1 ==> r.Ok? && !AnyFailed(r.value.connections)
  {
    hide Books, Ready, Undisturbed, Assemble, ValidSyncReport, Total, Costs, Worst, Echoes, AnyFailed, InOrder,
      Distinct, Cost, Contained;
    if budget < 1 {
      return Err(ValidationError);
    }
    hide Books, Ready, Undisturbed, Assemble, ValidSyncReport, Total, Costs, Worst, Echoes, AnyFailed, InOrder,
      Distinct;
    var remaining := budget;
    var rows: seq<ConnectionSyncReport> := [];
    NoBooksYet(budget);
    for k := 0 to |pairs|
      invariant Ready(pairs, wire) && |rows| == k && InOrder(rows, pairs)
      invariant remaining >= 0 && wire.requests >= old(wire.requests)
      invariant Books(rows, budget, remaining, wire.requests - old(wire.requests))
      invariant Distinct(pairs) ==> Echoed(rows, pairs)
      invariant old(Undisturbed(pairs)) ==> Undisturbed(pairs) && !AnyFailed(rows)
    {
      if remaining < 1 {
        break;
      }
      ghost var before, cursors := wire.requests, Cursors(pairs);
      var row := FileVisit(pairs, wire, k, nowMs[k], remaining);
      BooksGrow(rows, budget, remaining, before - old(wire.requests), row, wire.requests - before);
      if row.Err? {
        return Err(row.error);
      }
      RowsGrow(rows, row.value, pairs);
      EchoesStand(rows, row.value, pairs, cursors);
      remaining := remaining - Cost(row.value);
      rows := rows + [row.value];
    }
    BooksBalance(rows, budget, remaining, wire.requests - old(wire.requests));
    RowsOfPairs(rows, pairs);
    return Ok(Assemble(rows));
  }

  /** What a tick has filed and spent so far. */
  ghost predicate Books(rows: seq<ConnectionSyncReport>, budget: nat, remaining: nat, requests: nat) {
    && (forall k | 0 <= k < |rows| :: ValidReport(rows[k]) && (rows[k].failed ==> rows[k].pagesFetched == 0))
    && Costs(rows) == budget - remaining && requests + Worst(remaining) <= Worst(budget)
    && (!AnyFailed(rows) ==> Total(rows, Pages) == requests)
  }

  lemma RowsGrow(rows: seq<ConnectionSyncReport>, row: ConnectionSyncReport, pairs: seq<SyncEngine>)
    requires InOrder(rows, pairs) && |rows| < |pairs| && ValidReport(row)
    requires row.connectionId == pairs[|rows|].connectionId
    ensures InOrder(rows + [row], pairs)
  {
  }

  lemma RowsOfPairs(rows: seq<ConnectionSyncReport>, pairs: seq<SyncEngine>)
    requires InOrder(rows, pairs)
    ensures |rows| <= |pairs|
    ensures forall k | 0 <= k < |rows| :: ValidReport(rows[k]) && rows[k].connectionId == pairs[k].connectionId
  {
  }

  /** A visit to another connection does not make a row's echo stale. */
  lemma EchoesStand(rows: seq<ConnectionSyncReport>, row: ConnectionSyncReport, pairs: seq<SyncEngine>,
                    before: seq<SyncState>)
    requires |rows| < |pairs| == |before| && Echoes(row, pairs[|rows|].stored)
    requires forall k | 0 <= k < |pairs| && pairs[k] != pairs[|rows|] :: pairs[k].stored == before[k]
    ensures Distinct(pairs) && (forall k | 0 <= k < |rows| :: Echoes(rows[k], before[k])) ==>
      Echoed(rows + [row], pairs)
  {
  }

  lemma NoBooksYet(budget: nat)
    ensures Books([], budget, budget, 0) && !AnyFailed([]) && forall pairs :: InOrder([], pairs)
  {
  }

  /** A visit within the budget left keeps the books, and one that ends the tick stays
      within the worst case. */
  lemma BooksGrow(rows: seq<ConnectionSyncReport>, budget: nat, remaining: nat, requests: nat,
      row: Result<ConnectionSyncReport>, made: nat)
    requires Books(rows, budget, remaining, requests) && made <= remaining && remaining >= 1
    requires row.Ok? ==> ValidReport(row.value) && row.value.pagesFetched == if row.value.failed then 0 else made
    ensures 2 * (requests + made) <= budget * (budget + 1)
    ensures row.Ok? ==>
      && Cost(row.value) <= remaining && Books(rows + [row.value], budget, remaining - Cost(row.value), requests + made)
      && (AnyFailed(rows + [row.value]) <==> AnyFailed(rows) || row.value.failed)
  {
    WorstIsTriangular(budget);
    WorstGrows(remaining - 1, remaining);
    if row.Ok? {
      WorstGrows(remaining - Cost(row.value), remaining);
      FileRow(rows, row.value);
    }
  }

  /** At the end of a tick the books bound what was reported and what was requested. */
  lemma BooksBalance(rows: seq<ConnectionSyncReport>, budget: nat, remaining: nat, requests: nat)
    requires Books(rows, budget, remaining, requests)
    ensures 2 * requests <= budget * (budget + 1)
    ensures ValidSyncReport(Assemble(rows)) && Assemble(rows).connections == rows
    ensures Assemble(rows).pagesFetched <= Costs(rows) == budget - remaining
    ensures !AnyFailed(rows) ==> Assemble(rows).pagesFetched == requests
  {
    hide Worst;
    WorstIsTriangular(budget);
    WorstGrows(0, remaining);
    AssembleIsValid(rows);
    PagesWithinCosts(rows);
  }

  lemma FileRow(rows: seq<ConnectionSyncReport>, row: ConnectionSyncReport)
    ensures Costs(rows + [row]) == Costs(rows) + Cost(row)
    ensures Total(rows + [row], Pages) == Total(rows, Pages) + row.pagesFetched
    ensures AnyFailed(rows + [row]) <==> AnyFailed(rows) || row.failed
  {
    assert (rows + [row])[..|rows|] == rows;
    assert (rows + [row])[|rows|] == row;
    forall k | 0 <= k < |rows|
      ensures (rows + [row])[k] == rows[k]
    {
    }
  }

  /** The row a visit is filed as: a contained error becomes a failure row. */
  function Filed(row: Result<ConnectionSyncReport>, connectionId: string, st: SyncState): Result<ConnectionSyncReport> {
    if row.Err? && Contained(row.error) then Ok(Failure(connectionId, st)) else row
  }

  /** A missing cassette and the host's own errors end the tick; any other error is a row
      that claims no work and echoes the cursors. */
  lemma FiledIs(row: Result<ConnectionSyncReport>, connectionId: string, st: SyncState)
    ensures var filed := Filed(row, connectionId, st);
      && (filed.Err? <==> row.Err? && row.error in {CassetteError, HostError})
      && (row.Ok? || filed.Err? ==> filed == row)
      && (row.Err? && filed.Ok? ==>
            && filed.value.connectionId == connectionId && filed.value.failed && !filed.value.noOp
            && filed.value.pagesFetched == filed.value.livePages == filed.value.backfillPages == 0
            && filed.value.ingested == 0 && filed.value.liveCursor == st.liveCursor
            && filed.value.backfillCursor == st.backfillCursor
            && filed.value.backfillComplete == st.backfillComplete)
  {
  }

  /** One visit, filed. */
  method FileVisit(pairs: seq<SyncEngine>, wire: Wire, k: nat, nowMs: int, remaining: nat)
    returns (filed: Result<ConnectionSyncReport>)
    requires Ready(pairs, wire) && k < |pairs| && remaining >= 1
    modifies pairs, set e | e in pairs :: e.explorer, wire
    ensures Ready(pairs, wire)
    ensures 0 <= wire.requests - old(wire.requests) <= remaining
    ensures filed.Err? ==> filed.error in {CassetteError, HostError}
    ensures filed.Ok? ==>
      && ValidReport(filed.value) && filed.value.connectionId == pairs[k].connectionId
      && filed.value.pagesFetched == (if filed.value.failed then 0 else wire.requests - old(wire.requests))
      && Echoes(filed.value, pairs[k].stored)
    ensures forall e | e in pairs && e != pairs[k] :: e.stored == old(e.stored)
    ensures old(Undisturbed(pairs)) ==> filed.Ok? && !filed.value.failed && Undisturbed(pairs)
  {
    hide Ready, Undisturbed;
    var row := Visit(pairs, wire, k, nowMs, remaining);
    return Filed(row, pairs[k].connectionId, pairs[k].stored);
  }

  /** One connection's turn leaves the others' promises and cursors standing. */
  method Visit(pairs: seq<SyncEngine>, wire: Wire, k: nat, nowMs: int, remaining: nat)
    returns (row: Result<ConnectionSyncReport>)
    requires Ready(pairs, wire) && k < |pairs| && remaining >= 1
    modifies pairs, set e | e in pairs :: e.explorer, wire
    ensures Ready(pairs, wire)
    ensures 0 <= wire.requests - old(wire.requests) <= remaining
    ensures row.Ok? ==>
      && ValidReport(row.value) && !row.value.failed && row.value.connectionId == pairs[k].connectionId
      && row.value.pagesFetched == wire.requests - old(wire.requests)
      && Echoes(row.value, pairs[k].stored)
    ensures forall e | e in pairs && e != pairs[k] :: e.stored == old(e.stored)
    ensures old(Undisturbed(pairs)) ==> row.Ok? && Undisturbed(pairs)
  {
    row := pairs[k].SyncConnection(nowMs, remaining);
  }
}
