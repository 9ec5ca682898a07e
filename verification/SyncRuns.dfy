/** Whole backfills: one connection called again and again with nothing in its way
    (embed/sync.py). */
module SyncRuns {
  import opened Chains
  import opened SyncSafety
  import opened Sync

  /** What a call found or left: the cursors, and what they are a promise about. */
  datatype Snapshot = Snapshot(st: SyncState, have: set<Row>, served: int)

  datatype Call = Call(budget: nat, spent: nat)

  /** The window a call's live phase walks. */
  function LiveWindow(chain: seq<Row>, head: int, st: SyncState): seq<Row> {
    Window(chain, st.liveCursor + 1, head)
  }

  /** How many pages that phase takes to drain it. */
  function LivePages(chain: seq<Row>, head: int, size: nat, st: SyncState): nat
    requires size >= 1
  {
    |LiveWindow(chain, head, st)| / size + 1
  }

  /** An undisturbed call, and the promise before and after it. */
  ghost predicate Steps(chain: seq<Row>, head: int, size: nat, before: Snapshot, after: Snapshot, call: Call)
    requires size >= 1
  {
    && Safe(chain, before.served, before.have, before.st, size) && Safe(chain, after.served, after.have, after.st, size)
    && CallOutcome(LiveWindow(chain, head, before.st), size, call.budget, call.spent, before.st, after.st)
  }

  /** Some undisturbed calls, each from where the one before it stopped. */
  ghost predicate IsRun(chain: seq<Row>, head: int, size: nat, history: seq<Snapshot>, calls: seq<Call>)
    requires size >= 1
  {
    && |history| == |calls| + 1
    && (forall k | 0 <= k < |calls| :: Steps(chain, head, size, history[k], history[k + 1], calls[k]))
  }

  function Budgets(calls: seq<Call>): nat {
    if calls == [] then 0 else Budgets(calls[..|calls| - 1]) + calls[|calls| - 1].budget
  }

  function Requests(calls: seq<Call>): nat {
    if calls == [] then 0 else Requests(calls[..|calls| - 1]) + calls[|calls| - 1].spent
  }

  /** How many pages the fixed window of a backfill takes, the short one included. */
  function PagesToWalk(chain: seq<Row>, size: nat, end: nat): nat
    requires size >= 1
  {
    |Window(chain, 0, end)| / size + 1
  }

  /** A state's page count is that of its window once complete, and below it before. */
  lemma SafeIsPaged(chain: seq<Row>, served: int, have: set<Row>, st: SyncState, size: nat)
    requires size >= 1 && Safe(chain, served, have, st, size) && st.backfillCursor.Some? && st.backfillEnd.Some?
    ensures var m := PagesToWalk(chain, size, st.backfillEnd.value);
      if st.backfillComplete then st.backfillPage == m else st.backfillPage < m
  {
    hide Covers, FirstIn;
    var m := |Listing(chain, 0, st.backfillEnd.value, Desc)|;
    if st.backfillComplete {
      PagesOfWindow(m, size, st.backfillPage);
    } else {
      FullPages(m, size, st.backfillPage);
    }
  }

  /** Once its live window has drained, a connection has none until rows arrive. */
  lemma DrainedIsEmpty(chain: seq<Row>, head: int, cursor: nat, cursor': nat)
    requires var w := Window(chain, cursor + 1, head); cursor' == if w != [] then MaxBlock(w) else cursor
    ensures Window(chain, cursor' + 1, head) == []
  {
    var after := Window(chain, cursor' + 1, head);
    WindowHas(chain, cursor + 1, head);
    WindowHas(chain, cursor' + 1, head);
    assert forall r :: r !in after;
    if after != [] {
      HasFirst(after);
      assert false;
    }
  }

  lemma HasFirst(rows: seq<Row>)
    requires rows != []
    ensures exists r :: r in rows
  {
    assert rows[0] in rows;
  }

  /** One such call, its window of `m` pages half walked or done. */
  lemma CallReaches(w: seq<Row>, size: nat, budget: nat, spent: nat, st: SyncState, st': SyncState, m: nat)
    requires size >= 1 && budget > |w| / size && CallOutcome(w, size, budget, spent, st, st')
    requires if st.backfillComplete then st.backfillPage == m else st.backfillPage < m
    requires if st'.backfillComplete then st'.backfillPage == m else st'.backfillPage < m
    ensures var reach := st.backfillPage + budget - (|w| / size + 1);
      && st'.backfillEnd == st.backfillEnd
      && (st'.backfillComplete <==> reach >= m)
      && st'.backfillPage == (if reach >= m then m else reach)
      && spent == |w| / size + 1 + (st'.backfillPage - st.backfillPage)
      && st'.liveCursor == if w != [] then MaxBlock(w) else st.liveCursor
  {
  }

  /** Calls that each drain the live window move the backfill by what their budgets leave
      after one live page each, and the first one's full pages: it is complete exactly
      when that reaches the pages its window takes, and no page is asked for beyond them. */
  lemma {:induction false} RunFinishesIff(chain: seq<Row>, head: int, size: nat, history: seq<Snapshot>,
                                          calls: seq<Call>)
    requires size >= 1 && IsRun(chain, head, size, history, calls) && calls != []
    requires history[0].st.backfillEnd.Some?
    requires calls[0].budget >= LivePages(chain, head, size, history[0].st)
    requires forall k | 0 < k < |calls| :: calls[k].budget >= 1
    ensures var (first, last) := (history[0].st, history[|calls|].st);
      var (m, live) := (PagesToWalk(chain, size, first.backfillEnd.value),
                        LivePages(chain, head, size, first) + |calls| - 1);
      var reach := first.backfillPage + Budgets(calls) - live;
      && last.backfillCursor.Some? && last.backfillEnd == first.backfillEnd
      && (last.backfillComplete <==> reach >= m)
      && last.backfillPage == (if reach >= m then m else reach)
      && Requests(calls) == live + (last.backfillPage - first.backfillPage)
      && LivePages(chain, head, size, last) == 1
    decreases |calls|
  {
    hide Safe, Window, CallOutcome, IsRun, LivePages, PagesToWalk, Budgets, Requests, Steps;
    var n := |calls| - 1;
    SumsStep(calls);
    LastCall(chain, head, size, history, calls);
    var (before, after, call) := (history[n], history[n + 1], calls[n]);
    if n == 0 {
      assert calls[..0] == [];
    } else {
      assert history[..n + 1][0] == history[0] && history[..n + 1][n] == before && calls[..n][0] == calls[0];
      RunFinishesIff(chain, head, size, history[..n + 1], calls[..n]);
    }
    CallFinishes(chain, head, size, before, after, call);
  }

  lemma SumsStep(calls: seq<Call>)
    requires calls != []
    ensures var n := |calls| - 1;
      && Budgets(calls) == Budgets(calls[..n]) + calls[n].budget
      && Requests(calls) == Requests(calls[..n]) + calls[n].spent
    ensures Budgets([]) == Requests([]) == 0
  {
  }

  lemma LastCall(chain: seq<Row>, head: int, size: nat, history: seq<Snapshot>, calls: seq<Call>)
    requires size >= 1 && IsRun(chain, head, size, history, calls) && calls != []
    ensures var n := |calls| - 1;
      && |history| == n + 2 && IsRun(chain, head, size, history[..n + 1], calls[..n])
      && Steps(chain, head, size, history[n], history[n + 1], calls[n])
  {
    hide Safe, CallOutcome;
  }

  lemma CallFinishes(chain: seq<Row>, head: int, size: nat, before: Snapshot, after: Snapshot, call: Call)
    requires size >= 1 && Steps(chain, head, size, before, after, call) && before.st.backfillEnd.Some?
    requires call.budget >= LivePages(chain, head, size, before.st)
    ensures var (m, live) := (PagesToWalk(chain, size, before.st.backfillEnd.value),
                              LivePages(chain, head, size, before.st));
      var reach := before.st.backfillPage + call.budget - live;
      && after.st.backfillCursor.Some? && after.st.backfillEnd == before.st.backfillEnd
      && (after.st.backfillComplete <==> reach >= m)
      && after.st.backfillPage == (if reach >= m then m else reach)
      && call.spent == live + (after.st.backfillPage - before.st.backfillPage)
      && LivePages(chain, head, size, after.st) == 1
  {
    hide Safe, Window, CallOutcome, PagesToWalk;
    var w := LiveWindow(chain, head, before.st);
    CallKeepsEnd(w, size, call.budget, call.spent, before.st, after.st);
    SafeHasCursor(chain, before.served, before.have, before.st, size);
    SafeHasCursor(chain, after.served, after.have, after.st, size);
    SafeIsPaged(chain, before.served, before.have, before.st, size);
    SafeIsPaged(chain, after.served, after.have, after.st, size);
    CallReaches(w, size, call.budget, call.spent, before.st, after.st,
                PagesToWalk(chain, size, before.st.backfillEnd.value));
    DrainedIsEmpty(chain, head, before.st.liveCursor, after.st.liveCursor);
    OnePage(chain, head, size, after.st);
  }

  lemma CallKeepsEnd(w: seq<Row>, size: nat, budget: nat, spent: nat, st: SyncState, st': SyncState)
    requires size >= 1 && CallOutcome(w, size, budget, spent, st, st')
    ensures st'.backfillEnd == st.backfillEnd
  {
  }

  lemma SafeHasCursor(chain: seq<Row>, served: int, have: set<Row>, st: SyncState, size: nat)
    requires Safe(chain, served, have, st, size) && st.backfillEnd.Some?
    ensures st.backfillCursor.Some?
  {
  }

  /** The newest page holds the highest block there is to fetch. */
  lemma AnchorIsEmpty(chain: seq<Row>, head: nat, size: nat, rows: seq<Row>, cursor: nat)
    requires size >= 1 && Sorted(chain) && rows == Page(Listing(chain, 0, head, Desc), 1, size)
    requires cursor == if rows == [] then 0 else MaxBlock(rows)
    ensures Window(chain, cursor + 1, head) == []
  {
    hide Page, Listing;
    var all, after := Listing(chain, 0, head, Desc), Window(chain, cursor + 1, head);
    ListingHas(chain, 0, head, Desc);
    WindowHas(chain, cursor + 1, head);
    DescendingListing(chain, 0, head);
    FirstOfPage(all, size);
    forall r | r in all
      ensures r.block <= cursor
    {
      var k :| 0 <= k < |all| && all[k] == r;
      assert all[k].block <= all[0].block && rows[0] in rows;
    }
    assert forall r :: r !in after;
    if after != [] {
      HasFirst(after);
      assert false;
    }
  }

  lemma FirstOfPage(all: seq<Row>, size: nat)
    requires size >= 1
    ensures all != [] ==> Page(all, 1, size) != [] && Page(all, 1, size)[0] == all[0]
  {
  }

  /** From a first call on a connection with more than one page: complete exactly when the
      budgets less one live page a call reach the pages at or below the newest one. */
  lemma FirstRunFinishesIff(chain: seq<Row>, head: nat, size: nat, first: Call, history: seq<Snapshot>,
                            calls: seq<Call>)
    requires size >= 1 && Sorted(chain) && first.budget >= 1 && IsRun(chain, head, size, history, calls)
    requires Safe(chain, history[0].served, history[0].have, history[0].st, size)
    requires forall k | 0 <= k < |calls| :: calls[k].budget >= 1
    requires var rows := Page(Listing(chain, 0, head, Desc), 1, size);
      |rows| >= size && AnchorOutcome(rows, size, first.budget, first.spent, history[0].st)
    ensures history[0].st.backfillEnd.Some?
    ensures var (m, last) := (PagesToWalk(chain, size, history[0].st.backfillEnd.value), history[|calls|].st);
      var reach := first.budget + Budgets(calls) - (1 + |calls|);
      && (last.backfillComplete <==> reach >= m)
      && last.backfillPage == (if reach >= m then m else reach)
      && first.spent + Requests(calls) == 1 + |calls| + last.backfillPage
  {
    hide Safe, Window, Page, Listing, IsRun, AnchorOutcome, PagesToWalk, LivePages, Budgets, Requests;
    BudgetsAtLeast(calls);
    RunLength(chain, head, size, history, calls);
    var (rows, start) := (Page(Listing(chain, 0, head, Desc), 1, size), history[0]);
    AnchorLeavesWindow(rows, size, first.budget, first.spent, start.st);
    SafeHasCursor(chain, start.served, start.have, start.st, size);
    SafeIsPaged(chain, start.served, start.have, start.st, size);
    AnchorReaches(rows, size, first.budget, first.spent, start.st,
                  PagesToWalk(chain, size, start.st.backfillEnd.value));
    if calls != [] {
      AnchorIsEmpty(chain, head, size, rows, start.st.liveCursor);
      OnePage(chain, head, size, start.st);
      RunFinishesIff(chain, head, size, history, calls);
    }
  }

  lemma {:induction false} BudgetsAtLeast(calls: seq<Call>)
    requires forall k | 0 <= k < |calls| :: calls[k].budget >= 1
    ensures Budgets(calls) >= |calls|
    ensures calls == [] ==> Budgets(calls) == 0 && Requests(calls) == 0
  {
    if calls != [] {
      BudgetsAtLeast(calls[..|calls| - 1]);
    }
  }

  lemma OnePage(chain: seq<Row>, head: int, size: nat, st: SyncState)
    requires size >= 1 && Window(chain, st.liveCursor + 1, head) == []
    ensures LivePages(chain, head, size, st) == 1
  {
  }

  lemma RunLength(chain: seq<Row>, head: int, size: nat, history: seq<Snapshot>, calls: seq<Call>)
    requires size >= 1 && IsRun(chain, head, size, history, calls)
    ensures |history| == |calls| + 1
  {
  }

  lemma AnchorLeavesWindow(rows: seq<Row>, size: nat, budget: nat, spent: nat, st: SyncState)
    requires |rows| >= size >= 1 && AnchorOutcome(rows, size, budget, spent, st)
    ensures st.backfillEnd.Some? && st.liveCursor == MaxBlock(rows)
  {
  }

  lemma AnchorReaches(rows: seq<Row>, size: nat, budget: nat, spent: nat, st: SyncState, m: nat)
    requires |rows| >= size >= 1 && AnchorOutcome(rows, size, budget, spent, st)
    requires if st.backfillComplete then st.backfillPage == m else st.backfillPage < m
    ensures (st.backfillComplete <==> budget - 1 >= m)
    ensures st.backfillPage == (if budget - 1 >= m then m else budget - 1) && spent == 1 + st.backfillPage
  {
  }

  // ------------------------------------------------------------ the engine

  /** The clock at each call is past the throttle of the one before it. */
  predicate Spaced(minIntervalMs: int, lastMs: int, nowMs: seq<int>) {
    forall k: nat | k < |nowMs| :: nowMs[k] - ClockBefore(lastMs, nowMs, k) >= minIntervalMs
  }

  function ClockBefore(lastMs: int, nowMs: seq<int>, k: nat): int
    requires k <= |nowMs|
  {
    if k == 0 then lastMs else nowMs[k - 1]
  }

  lemma CallKeepsCursor(chain: seq<Row>, head: int, size: nat, before: Snapshot, after: Snapshot, call: Call)
    requires size >= 1 && Steps(chain, head, size, before, after, call) && before.st.backfillCursor.Some?
    ensures after.st.backfillCursor.Some?
  {
    hide Window, CallOutcome;
    CallKeepsEnd(LiveWindow(chain, head, before.st), size, call.budget, call.spent, before.st, after.st);
    if before.st.backfillEnd.None? {
      DoneStaysDone(LiveWindow(chain, head, before.st), size, call.budget, call.spent, before.st, after.st);
    }
  }

  lemma DoneStaysDone(w: seq<Row>, size: nat, budget: nat, spent: nat, st: SyncState, st': SyncState)
    requires size >= 1 && CallOutcome(w, size, budget, spent, st, st') && st.backfillComplete
    ensures SameBackfill(st', st)
  {
  }

  lemma OneMoreCall(chain: seq<Row>, head: int, size: nat, history: seq<Snapshot>, calls: seq<Call>, after: Snapshot,
                    call: Call)
    requires size >= 1 && IsRun(chain, head, size, history, calls)
    requires Steps(chain, head, size, history[|calls|], after, call)
    ensures IsRun(chain, head, size, history + [after], calls + [call])
    ensures Requests(calls + [call]) == Requests(calls) + call.spent
  {
    hide Steps;
    assert (calls + [call])[..|calls|] == calls;
  }

  /** Unthrottled calls with nothing in their way are such a run, so their budgets alone
      say whether they complete the backfill and how many requests they make. */
  method CallAll(engine: SyncEngine, nowMs: seq<int>, budgets: seq<nat>)
    returns (ghost history: seq<Snapshot>, ghost calls: seq<Call>)
    requires engine.Inv() && engine.explorer.turns == [] && engine.stored.backfillCursor.Some?
    requires |nowMs| == |budgets| && (forall k | 0 <= k < |budgets| :: budgets[k] >= 1)
    requires Spaced(engine.minIntervalMs, engine.stored.lastSyncAtMs, nowMs)
    modifies engine, engine.explorer, engine.explorer.wire
    ensures engine.Inv() && engine.explorer.turns == [] && engine.explorer.chain == old(engine.explorer.chain)
    ensures IsRun(engine.explorer.chain, engine.headBlock, engine.pageSize, history, calls)
    ensures |calls| == |budgets| && forall k | 0 <= k < |calls| :: calls[k].budget == budgets[k]
    ensures history[0].st == old(engine.stored) && history[|calls|].st == engine.stored
    ensures engine.explorer.wire.requests == old(engine.explorer.wire.requests) + Requests(calls)
    ensures
      var (chain, head, size, st) := (engine.explorer.chain, engine.headBlock, engine.pageSize, old(engine.stored));
      budgets != [] && st.backfillEnd.Some? && budgets[0] >= LivePages(chain, head, size, st) ==>
        (engine.stored.backfillComplete <==>
           st.backfillPage + Budgets(calls) - (LivePages(chain, head, size, st) + |calls| - 1)
           >= PagesToWalk(chain, size, st.backfillEnd.value))
  {
    hide Safe, Window, IsRun, CallOutcome, Sorted, AnchorOutcome, LivePages, PagesToWalk;
    history, calls := [Snapshot(engine.stored, engine.ledger, engine.explorer.served)], [];
    NoCalls(engine.explorer.chain, engine.headBlock, engine.pageSize, history[0]);
    ghost var lastMs := engine.stored.lastSyncAtMs;
    for k := 0 to |budgets|
      invariant engine.Inv() && engine.explorer.turns == [] && engine.stored.backfillCursor.Some?
      invariant engine.explorer.chain == old(engine.explorer.chain)
      invariant IsRun(engine.explorer.chain, engine.headBlock, engine.pageSize, history, calls)
      invariant |calls| == k && |history| == k + 1 && forall j | 0 <= j < k :: calls[j].budget == budgets[j]
      invariant history[0].st == old(engine.stored)
      invariant history[k] == Snapshot(engine.stored, engine.ledger, engine.explorer.served)
      invariant engine.stored.lastSyncAtMs == ClockBefore(lastMs, nowMs, k)
      invariant engine.explorer.wire.requests == old(engine.explorer.wire.requests) + Requests(calls)
    {
      assert !engine.Throttled(nowMs[k], engine.stored);
      var report := engine.SyncConnection(nowMs[k], budgets[k]);
      ghost var (after, call) := (Snapshot(engine.stored, engine.ledger, engine.explorer.served),
                                  Call(budgets[k], report.value.pagesFetched));
      assert Steps(engine.explorer.chain, engine.headBlock, engine.pageSize, history[k], after, call);
      OneMoreCall(engine.explorer.chain, engine.headBlock, engine.pageSize, history, calls, after, call);
      CallKeepsCursor(engine.explorer.chain, engine.headBlock, engine.pageSize, history[k], after, call);
      history, calls := history + [after], calls + [call];
    }
    if budgets != [] && history[0].st.backfillEnd.Some?
       && budgets[0] >= LivePages(engine.explorer.chain, engine.headBlock, engine.pageSize, history[0].st) {
      RunFinishesIff(engine.explorer.chain, engine.headBlock, engine.pageSize, history, calls);
    }
  }

  lemma NoCalls(chain: seq<Row>, head: int, size: nat, start: Snapshot)
    requires size >= 1
    ensures IsRun(chain, head, size, [start], []) && Requests([]) == 0
  {
  }
}
