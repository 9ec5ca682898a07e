/** The budgeted, resumable two-phase walk of one connection (embed/sync.py). */
module Sync {
  import opened Common
  import opened Chains
  import opened SyncReports
  import opened SyncSafety
  import Decoding
  import Ledgers
  import SyncLedger

  /** What becomes of one page: everything works; the fetch (or the parsing of its
      block numbers) raises; the decoder or the ledger raises with some of the
      rows already written; or the process is lost after the ingest and before
      the cursors are persisted. */
  datatype Fate = Fine | FetchRaises(error: Error) | IngestRaises(error: Error, written: set<Row>) | LostBeforePersist

  /** The environment's move before one request: rows that arrive, then its fate. */
  datatype Turn = Turn(arrivals: seq<Row>, fate: Fate)

  /** The shared transport: every page request of every connection goes through it. */
  class Wire {
    var requests: nat

    constructor ()
      ensures requests == 0
    {
      requests := 0;
    }
  }

  /** One address as the transport serves it: a chain that only grows. */
  class Explorer {
    const wire: Wire
    var chain: seq<Row>
    var served: int          // the highest block any answer has covered
    var turns: seq<Turn>     // the environment's script; quiet once it runs out

    constructor (wire: Wire, turns: seq<Turn>)
      ensures chain == [] && served == -1 && this.turns == turns && this.wire == wire
    {
      this.wire, this.turns := wire, turns;
      chain, served := [], -1;
    }

    /** `fetch_txlist`.  Arrivals that would not land above everything served are
        not arrivals. */
    method Fetch(lo: int, hi: int, page: nat, size: nat, sort: Order) returns (rows: seq<Row>, fate: Fate)
      requires page >= 1 && Sorted(chain)
      modifies this, wire
      ensures wire.requests == old(wire.requests) + 1 && Sorted(chain) && old(served) <= served
      ensures exists more :: Admissible(old(chain), old(served), more) && chain == old(chain) + more
      ensures !fate.FetchRaises? ==>
        && rows == Page(Listing(chain, lo, hi, sort), page, size)
        && 0 <= served && forall r :: r in rows ==> r.block <= served
      ensures old(turns) == [] ==> turns == [] && fate.Fine? && chain == old(chain)
    {
      wire.requests := wire.requests + 1;
      var more := [];
      fate := Fine;
      if turns != [] {
        if Admissible(chain, served, turns[0].arrivals) {
          more := turns[0].arrivals;
        }
        fate := turns[0].fate;
        turns := turns[1..];
      }
      GrowthKeepsSorted(chain, served, more);
      assert Admissible(old(chain), old(served), more);
      chain := chain + more;
      if fate.FetchRaises? {
        return [], fate;
      }
      rows := Page(Listing(chain, lo, hi, sort), page, size);
      var seen := if rows == [] then 0 else MaxBlock(rows);
      if served < seen {
        served := seen;
      }
    }
  }

  /** The rows of a page among those written before an ingest raised. */
  function Only(rows: seq<Row>, written: set<Row>): seq<Row> {
    if rows == [] then []
    else Only(rows[..|rows| - 1], written) + (if rows[|rows| - 1] in written then [rows[|rows| - 1]] else [])
  }

  /** The mutable per-call scratch: the budget being spent, and the cursors the next
      persist writes. */
  class Run {
    const nowMs: int
    var remaining: nat
    var livePages: nat
    var backfillPages: nat
    var ingested: nat
    var cursors: SyncState

    constructor (nowMs: int, budget: nat, stored: SyncState)
      ensures remaining == budget && livePages == backfillPages == ingested == 0
      ensures this.nowMs == nowMs && cursors == stored.(lastSyncAtMs := nowMs)
    {
      this.nowMs := nowMs;
      remaining, livePages, backfillPages, ingested := budget, 0, 0, 0;
      cursors := stored.(lastSyncAtMs := nowMs);
    }
  }

  class SyncEngine {
    const connectionId: string
    const explorer: Explorer
    const pageSize: nat
    const headBlock: nat
    const minIntervalMs: int
    const account: Decoding.Account
    const read: SyncLedger.Reading
    var ledger: set<Row>       // the rows decoded and upserted so far
    ghost var store: Ledgers.Store // what that made of the transaction ledger
    var stored: SyncState      // what the durable store holds
    ghost var asked: seq<nat>  // the backfill pages asked for since the anchor
    ghost var smooth: bool     // nothing has raised or been lost so far

    constructor (connectionId: string, account: Decoding.Account, read: SyncLedger.Reading, explorer: Explorer,
                 pageSize: nat, headBlock: nat, minIntervalMs: int)
      requires pageSize >= 1 && Sorted(explorer.chain)
      ensures Inv() && stored == FRESH && this.explorer == explorer && this.pageSize == pageSize
      ensures stored.backfillCursor.None? && stored.liveCursor == stored.lastSyncAtMs == 0
      ensures this.account == account && this.read == read
    {
      this.account, this.read, store := account, read, Ledgers.EMPTY;
      this.connectionId, this.explorer := connectionId, explorer;
      this.pageSize, this.headBlock, this.minIntervalMs := pageSize, headBlock, minIntervalMs;
      ledger, stored := {}, FRESH;
      asked, smooth := [], true;
      new;
      SyncLedger.EmptyReflects(account, read);
    }

    /** Binding the ports: a page size no page can be shorter than is refused. */
    static method Bind(connectionId: string, account: Decoding.Account, read: SyncLedger.Reading, explorer: Explorer,
                       pageSize: int, headBlock: nat, minIntervalMs: int)
      returns (r: Result<SyncEngine>)
      requires Sorted(explorer.chain)
      ensures r.Ok? <==> pageSize >= 1
      ensures r.Err? ==> r.error == ValidationError
      ensures r.Ok? ==> fresh(r.value) && r.value.Inv() && r.value.stored == FRESH && r.value.pageSize == pageSize
    {
      if pageSize < 1 {
        return Err(ValidationError);
      }
      var engine := new SyncEngine(connectionId, account, read, explorer, pageSize, headBlock, minIntervalMs);
      return Ok(engine);
    }

    /** The persisted state keeps its promise... */
    ghost predicate Kept()
      reads this, explorer
    {
      && pageSize >= 1 && Sorted(explorer.chain)
      && Safe(explorer.chain, explorer.served, ledger, stored, pageSize)
      && Mirrored()
    }

    /** ... the transaction ledger shows the rows ingested ... */
    ghost predicate Mirrored()
      reads this`ledger, this`store
    {
      SyncLedger.Reflects(account, read, store, ledger)
    }

    /** ... and in a history without failures each backfill page was asked for once,
        in order. */
    ghost predicate Inv()
      reads this, explorer
    {
      Kept() && (smooth ==> AskedInOrder(asked, stored.backfillPage))
    }

    /** `_page`. */
    method Fetch(run: Run, lo: int, hi: int, page: nat, sort: Order) returns (rows: seq<Row>, fate: Fate)
      requires Kept() && page >= 1 && run.remaining > 0
      modifies explorer, explorer.wire, run`remaining, this`smooth
      ensures Kept() && explorer.wire.requests == old(explorer.wire.requests) + 1
      ensures run.remaining == old(run.remaining) - (if fate.FetchRaises? then 0 else 1)
      ensures smooth == (old(smooth) && fate.Fine?)
      ensures AppendsOnly(old(explorer.chain), explorer.chain) && old(explorer.served) <= explorer.served
      ensures !fate.FetchRaises? ==>
        && rows == Page(Listing(explorer.chain, lo, hi, sort), page, pageSize)
        && 0 <= explorer.served && forall r :: r in rows ==> r.block <= explorer.served
      ensures old(explorer.turns) == [] ==> explorer.turns == [] && fate.Fine? && explorer.chain == old(explorer.chain)
    {
      hide Mirrored, Safe, Page, Listing, Sorted;
      rows, fate := explorer.Fetch(lo, hi, page, pageSize, sort);
      smooth := smooth && fate.Fine?;
      ghost var more :| Admissible(old(explorer.chain), old(explorer.served), more)
        && explorer.chain == old(explorer.chain) + more;
      SafeGrows(old(explorer.chain), old(explorer.served), ledger, stored, pageSize, more, explorer.served, ledger);
      if !fate.FetchRaises? {
        run.remaining := run.remaining - 1;
      }
    }

    /** The page was decoded and upserted. */
    ghost predicate Took(before: Ledgers.Store, rows: seq<Row>)
      reads this`store
    {
      store == SyncLedger.Ingested(account, read, before, rows)
    }

    /** `_ingest`: decode and upsert a page; returns how many rows were new. */
    method Ingest(rows: seq<Row>, fate: Fate) returns (added: nat)
      requires Kept()
      modifies this`ledger, this`store
      ensures Kept() && old(ledger) <= ledger
      ensures !fate.IngestRaises? ==> Took(old(store), rows)
      ensures !fate.IngestRaises? ==> ledger == old(ledger) + (set r | r in rows) && |ledger| == |old(ledger)| + added
    {
      hide SyncLedger.Reflects, SyncLedger.Ingested, Safe, Sorted;
      var written := if fate.IngestRaises? then Only(rows, fate.written) else rows;
      var page := set r | r in written;
      added := |page - ledger|;
      assert ledger + page == ledger + (page - ledger);
      ledger := ledger + page;
      store := SyncLedger.Ingested(account, read, store, written);
      SyncLedger.IngestReflects(account, read, old(store), old(ledger), written);
      SafeGrows(explorer.chain, explorer.served, old(ledger), stored, pageSize, [], explorer.served, ledger);
      assert explorer.chain + [] == explorer.chain;
    }

    /** The run's cursors are the persisted ones. */
    ghost predicate Synced(run: Run)
      reads this, run
    {
      run.cursors == stored.(lastSyncAtMs := run.nowMs)
    }

    ghost predicate Persisted(run: Run)
      reads this, run
    {
      Synced(run) && stored.lastSyncAtMs == run.nowMs
    }

    /** `_persist`. */
    method Persist(run: Run)
      requires Sorted(explorer.chain) && pageSize >= 1 && Mirrored()
      requires Safe(explorer.chain, explorer.served, ledger, run.cursors, pageSize)
      requires run.cursors.lastSyncAtMs == run.nowMs
      requires smooth ==> AskedInOrder(asked, run.cursors.backfillPage)
      modifies this`stored
      ensures Inv() && Persisted(run) && stored == run.cursors
    {
      stored := run.cursors;
    }

    /** The cursors the anchor page fixes. */
    method Settle(run: Run, rows: seq<Row>)
      requires pageSize >= 1 && Sorted(explorer.chain) && 0 <= explorer.served
      requires rows == Page(Listing(explorer.chain, 0, headBlock, Desc), 1, pageSize)
      requires forall r :: r in rows ==> r in ledger && r.block <= explorer.served
      requires run.cursors.backfillEnd.None? && run.cursors.backfillPage == 0
      modifies run`cursors
      ensures run.cursors == Anchored(rows, pageSize, old(run.cursors.lastSyncAtMs))
      ensures Safe(explorer.chain, explorer.served, ledger, run.cursors, pageSize)
    {
      hide Mirrored;
      run.cursors := run.cursors.(liveCursor := if rows == [] then 0 else MaxBlock(rows));
      run.cursors := run.cursors.(backfillCursor := Some(if rows == [] then 0 else MinBlock(rows)));
      run.cursors := run.cursors.(backfillComplete := |rows| < pageSize);
      if !run.cursors.backfillComplete {
        run.cursors := run.cursors.(backfillEnd := run.cursors.backfillCursor);
        run.cursors := run.cursors.(backfillPage := 0);
      }
      AnchorIsSafe(explorer.chain, explorer.served, ledger, headBlock, rows, pageSize, run.cursors.lastSyncAtMs);
    }

    /** `_anchor`: the newest page is the first live window. */
    method Anchor(run: Run) returns (fault: Option<Error>)
      requires Inv() && Synced(run) && stored.backfillCursor.None? && run.remaining > 0
      modifies this`ledger, this`store, this`stored, this`smooth, explorer, explorer.wire, run
      ensures Inv() && AppendsOnly(old(explorer.chain), explorer.chain)
      ensures Spent(run, explorer.wire.requests - old(explorer.wire.requests), old(run.remaining), fault)
      ensures Quiet(old(explorer.turns), explorer, old(explorer.chain), fault)
      ensures smooth == (old(smooth) && fault.None?)
      ensures fault.None? ==>
        && Persisted(run) && stored.backfillCursor.Some?
        && run.remaining == old(run.remaining) - 1
        && run.livePages == old(run.livePages) + 1 && run.backfillPages == old(run.backfillPages)
        && run.ingested - old(run.ingested) == |ledger| - |old(ledger)|
        && stored == Anchored(Page(Listing(explorer.chain, 0, headBlock, Desc), 1, pageSize), pageSize, run.nowMs)
    {
      hide Safe, Page, Listing, Sorted, MaxBlock, MinBlock, Mirrored, Took;
      FreshState(explorer.chain, explorer.served, ledger, stored, pageSize);
      var rows, fate := Fetch(run, 0, headBlock, 1, Desc);
      if fate.FetchRaises? {
        return Some(fate.error);
      }
      run.livePages := run.livePages + 1;
      var added := Ingest(rows, fate);
      if fate.IngestRaises? {
        return Some(fate.error);
      }
      run.ingested := run.ingested + added;
      Settle(run, rows);
      if fate.LostBeforePersist? {
        return Some(HostError);
      }
      Persist(run);
      return None;
    }

    /** The cursor after one more live page: it moves only when the page is short. */
    method Absorb(run: Run, page: nat, highest: Option<nat>, rows: seq<Row>,
        ghost seen: seq<Row>, ghost chain: seq<Row>, ghost served: int, ghost have: set<Row>)
      returns (drained: bool, highest': Option<nat>)
      requires Kept() && Synced(run) && stored.backfillCursor.Some? && page >= 1
      requires AppendsOnly(chain, explorer.chain) && served <= explorer.served && have <= ledger
      requires LiveSeen(chain, served, have, stored.liveCursor + 1, headBlock, seen, page, pageSize, highest)
      requires rows == Page(Listing(explorer.chain, stored.liveCursor + 1, headBlock, Asc), page, pageSize)
      requires forall r :: r in rows ==> r in ledger && r.block <= explorer.served
      modifies run`cursors
      ensures drained <==> |rows| < pageSize
      ensures run.cursors == stored.(lastSyncAtMs := run.nowMs,
        liveCursor := if drained && highest'.Some? then highest'.value else stored.liveCursor)
      ensures Safe(explorer.chain, explorer.served, ledger, run.cursors, pageSize)
      ensures !drained ==>
        LiveSeen(explorer.chain, explorer.served, ledger, stored.liveCursor + 1, headBlock, seen + rows, page + 1,
                 pageSize, highest')
      ensures drained ==>
        LiveDrained(explorer.chain, explorer.served, ledger, stored.liveCursor + 1, headBlock, seen + rows, page,
                    pageSize, highest')
    {
      hide Safe, Page, Listing, Sorted, LiveSeen, LiveDrained, AppendsOnly, MaxBlock, Mirrored;
      LiveSees(chain, explorer.chain, served, have, explorer.served, ledger,
               stored.liveCursor + 1, headBlock, seen, page, pageSize, highest, rows);
      highest' := highest;
      if rows != [] {
        highest' := Some(if highest.None? || MaxBlock(rows) > highest.value then MaxBlock(rows) else highest.value);
      }
      drained := |rows| < pageSize;
      ClockAside(explorer.chain, explorer.served, ledger, stored, pageSize, run.nowMs);
      if drained {
        if highest'.Some? {
          run.cursors := run.cursors.(liveCursor := highest'.value);
        }
        DrainedIsSafe(explorer.chain, explorer.served, ledger, headBlock, seen + rows, page, pageSize, highest', stored,
                      run.cursors);
      }
    }

    /** One turn of `_live`. */
    method LivePage(run: Run, page: nat, highest: Option<nat>, ghost seen: seq<Row>)
      returns (fault: Option<Error>, drained: bool, highest': Option<nat>, ghost seen': seq<Row>)
      requires Inv() && Synced(run) && stored.backfillCursor.Some? && page >= 1 && run.remaining > 0
      requires LiveSeen(explorer.chain, explorer.served, ledger, run.cursors.liveCursor + 1, headBlock, seen, page,
                        pageSize, highest)
      modifies this`ledger, this`store, this`stored, this`smooth, explorer, explorer.wire,
               run`remaining, run`livePages, run`ingested, run`cursors
      ensures Inv() && AppendsOnly(old(explorer.chain), explorer.chain)
      ensures explorer.wire.requests == old(explorer.wire.requests) + 1
      ensures Quiet(old(explorer.turns), explorer, old(explorer.chain), fault)
      ensures smooth == (old(smooth) && fault.None?)
      ensures fault.None? ==>
        && Persisted(run) && SameBackfill(stored, old(stored))
        && run.remaining == old(run.remaining) - 1 && run.livePages == old(run.livePages) + 1
        && run.ingested - old(run.ingested) == |ledger| - |old(ledger)|
      ensures fault.None? && !drained ==>
        && stored.liveCursor == old(stored.liveCursor)
        && LiveSeen(explorer.chain, explorer.served, ledger, run.cursors.liveCursor + 1, headBlock, seen', page + 1,
                    pageSize, highest')
      ensures fault.None? && drained ==>
        && LiveDrained(explorer.chain, explorer.served, ledger, old(run.cursors.liveCursor) + 1, headBlock, seen', page,
                       pageSize, highest')
        && stored.liveCursor == if highest'.Some? then highest'.value else old(stored.liveCursor)
    {
      hide Safe, Page, Listing, Sorted, LiveSeen, LiveDrained, AskedInOrder, AppendsOnly, Mirrored, Took;
      highest', seen' := highest, seen;
      var rows, fate := Fetch(run, run.cursors.liveCursor + 1, headBlock, page, Asc);
      if fate.FetchRaises? {
        return Some(fate.error), false, highest', seen';
      }
      run.livePages := run.livePages + 1;
      var added := Ingest(rows, fate);
      if fate.IngestRaises? {
        return Some(fate.error), false, highest', seen';
      }
      run.ingested := run.ingested + added;
      drained, highest' := Absorb(run, page, highest, rows, seen, old(explorer.chain), old(explorer.served),
                                  old(ledger));
      seen' := seen + rows;
      if fate.LostBeforePersist? {
        return Some(HostError), false, highest', seen';
      }
      Persist(run);
      return None, drained, highest', seen';
    }

    /** `_live`: walk the window above the live cursor; `drained` says whether it
        was exhausted within the budget. */
    method Live(run: Run) returns (fault: Option<Error>, drained: bool)
      requires Inv() && Synced(run) && stored.backfillCursor.Some? && run.remaining > 0
      modifies this`ledger, this`store, this`stored, this`smooth, explorer, explorer.wire, run
      ensures Inv() && AppendsOnly(old(explorer.chain), explorer.chain)
      ensures Spent(run, explorer.wire.requests - old(explorer.wire.requests), old(run.remaining), fault)
      ensures Quiet(old(explorer.turns), explorer, old(explorer.chain), fault)
      ensures smooth == (old(smooth) && fault.None?)
      ensures fault.None? ==>
        && Persisted(run) && SameBackfill(stored, old(stored)) && run.backfillPages == old(run.backfillPages)
        && run.livePages - old(run.livePages) == old(run.remaining) - run.remaining
        && run.ingested - old(run.ingested) == |ledger| - |old(ledger)|
      // it drains exactly when the budget exceeds its full pages; a cut window
      // moves no cursor, a drained one moves it to the highest row it held
      ensures fault.None? ==> LiveOutcome(
        Window(explorer.chain, old(stored.liveCursor) + 1, headBlock), pageSize, old(run.remaining),
        old(stored.liveCursor), stored.liveCursor, drained)
      ensures fault.None? && !drained ==> run.remaining == 0
      ensures fault.None? && drained ==>
        old(run.remaining) - run.remaining
          == |Window(explorer.chain, old(stored.liveCursor) + 1, headBlock)| / pageSize + 1
      ensures explorer.wire.requests > old(explorer.wire.requests)
    {
      hide Safe, Listing, Sorted, MaxBlock, Mirrored;
      var page, highest := 1, None;
      ghost var seen := [];
      while run.remaining > 0
        invariant Inv() && Synced(run) && page >= 1 && AppendsOnly(old(explorer.chain), explorer.chain)
        invariant page > 1 ==> Persisted(run)
        invariant SameBackfill(stored, old(stored)) && stored.liveCursor == old(stored.liveCursor)
        invariant run.backfillPages == old(run.backfillPages) && smooth == old(smooth)
        invariant run.livePages - old(run.livePages) == old(run.remaining) - run.remaining == page - 1
        invariant explorer.wire.requests - old(explorer.wire.requests) == page - 1
        invariant run.ingested - old(run.ingested) == |ledger| - |old(ledger)|
        invariant LiveSeen(explorer.chain, explorer.served, ledger, run.cursors.liveCursor + 1, headBlock, seen, page,
                           pageSize, highest)
        invariant Quiet(old(explorer.turns), explorer, old(explorer.chain), None)
        decreases run.remaining
      {
        fault, drained, highest, seen := LivePage(run, page, highest, seen);
        if fault.Some? {
          return fault, false;
        }
        if drained {
          PagesOfWindow(|seen|, pageSize, page);
          return None, true;
        }
        page := page + 1;
      }
      FullPages(|Window(explorer.chain, run.cursors.liveCursor + 1, headBlock)|, pageSize, page - 1);
      return None, false;
    }

    /** The cursors after one more backfill page. */
    method Extend(run: Run, rows: seq<Row>)
      requires Kept() && stored.backfillCursor.Some? && stored.backfillEnd.Some? && !stored.backfillComplete
      requires run.cursors == stored.(lastSyncAtMs := run.nowMs, backfillPage := stored.backfillPage + 1)
      requires rows == Page(Listing(explorer.chain, 0, stored.backfillEnd.value, Desc), stored.backfillPage + 1,
                            pageSize)
      requires forall r :: r in rows ==> r in ledger
      modifies run`cursors
      ensures run.cursors == Backfilled(stored, rows, pageSize, run.nowMs)
      ensures run.cursors.liveCursor == stored.liveCursor && run.cursors.backfillEnd == stored.backfillEnd
      ensures run.cursors.backfillPage == stored.backfillPage + 1 && run.cursors.lastSyncAtMs == run.nowMs
        && run.cursors.backfillCursor.Some?
      ensures Safe(explorer.chain, explorer.served, ledger, run.cursors, pageSize)
    {
      hide Safe, Page, Listing, Sorted, MinBlock, Mirrored;
      BackfillIsSafe(explorer.chain, explorer.served, ledger, pageSize, rows, stored, run.nowMs);
      if rows != [] {
        run.cursors := run.cursors.(backfillCursor := Some(MinBlock(rows)));
      }
      run.cursors := run.cursors.(backfillComplete := |rows| < pageSize);
    }

    /** One turn of `_backfill`. */
    method BackfillPage(run: Run) returns (fault: Option<Error>)
      requires Inv() && Synced(run) && stored.backfillCursor.Some? && stored.backfillEnd.Some?
      requires run.remaining > 0 && !run.cursors.backfillComplete
      modifies this`ledger, this`store, this`stored, this`smooth, this`asked, explorer, explorer.wire,
               run`remaining, run`backfillPages, run`ingested, run`cursors
      ensures Inv() && AppendsOnly(old(explorer.chain), explorer.chain)
      ensures explorer.wire.requests == old(explorer.wire.requests) + 1
      ensures Quiet(old(explorer.turns), explorer, old(explorer.chain), fault)
      ensures smooth == (old(smooth) && fault.None?)
      ensures stored.liveCursor == old(stored.liveCursor)
      ensures fault.None? ==>
        && Persisted(run) && stored.backfillCursor.Some? && stored.backfillEnd == old(stored.backfillEnd)
        && stored.backfillPage == old(stored.backfillPage) + 1
        && run.remaining == old(run.remaining) - 1 && run.backfillPages == old(run.backfillPages) + 1
        && run.ingested - old(run.ingested) == |ledger| - |old(ledger)|
        && stored == Backfilled(
             old(stored),
             Page(Listing(explorer.chain, 0, old(stored).backfillEnd.value, Desc), old(stored).backfillPage + 1,
                  pageSize),
             pageSize, run.nowMs)
    {
      hide Safe, Page, Listing, Sorted, MinBlock, AppendsOnly, Span, AskedInOrder, Mirrored, Took, Backfilled;
      var page := run.cursors.backfillPage + 1;
      asked := asked + [page];
      AskedNext(old(asked), old(stored.backfillPage));
      var rows, fate := Fetch(run, 0, run.cursors.backfillEnd.value, page, Desc);
      if fate.FetchRaises? {
        return Some(fate.error);
      }
      run.backfillPages := run.backfillPages + 1;
      run.cursors := run.cursors.(backfillPage := page);
      var added := Ingest(rows, fate);
      if fate.IngestRaises? {
        return Some(fate.error);
      }
      run.ingested := run.ingested + added;
      Extend(run, rows);
      if fate.LostBeforePersist? {
        return Some(HostError);
      }
      Persist(run);
      return None;
    }

    /** `_backfill`: page one fixed window backwards until it drains or the budget
        runs out. */
    method Backfill(run: Run) returns (fault: Option<Error>)
      requires Inv() && Persisted(run) && stored.backfillCursor.Some?
      modifies this`ledger, this`store, this`stored, this`smooth, this`asked, explorer, explorer.wire, run
      ensures Inv() && AppendsOnly(old(explorer.chain), explorer.chain)
      ensures Spent(run, explorer.wire.requests - old(explorer.wire.requests), old(run.remaining), fault)
      ensures Quiet(old(explorer.turns), explorer, old(explorer.chain), fault)
      ensures smooth == (old(smooth) && fault.None?)
      ensures stored.liveCursor == old(stored.liveCursor)
      ensures fault.None? ==>
        && SameProgress(run, stored) && stored.lastSyncAtMs == run.nowMs
        && run.livePages == old(run.livePages)
        && run.backfillPages - old(run.backfillPages) == old(run.remaining) - run.remaining
        && run.ingested - old(run.ingested) == |ledger| - |old(ledger)|
        // every unit of budget left goes into the window until it drains
        && BackfillOutcome(old(run.remaining), old(run.remaining) - run.remaining, old(stored), stored)
    {
      hide Mirrored;
      if run.cursors.backfillEnd.None? {
        run.cursors := run.cursors.(backfillEnd :=
          Some(if run.cursors.backfillCursor.None? then 0 else run.cursors.backfillCursor.value));
        return None; // there is no window: the anchor page was short
      }
      while run.remaining > 0 && !run.cursors.backfillComplete
        invariant Inv() && Persisted(run) && AppendsOnly(old(explorer.chain), explorer.chain)
        invariant stored.backfillCursor.Some? && stored.backfillEnd.Some? && stored.liveCursor == old(stored.liveCursor)
        invariant stored.backfillEnd == old(stored.backfillEnd)
          && (old(stored.backfillComplete) ==> stored == old(stored))
        invariant run.livePages == old(run.livePages) && smooth == old(smooth)
        invariant stored.backfillPage - old(stored.backfillPage) == run.backfillPages - old(run.backfillPages)
        invariant run.backfillPages - old(run.backfillPages) == old(run.remaining) - run.remaining
        invariant run.ingested - old(run.ingested) == |ledger| - |old(ledger)|
        invariant explorer.wire.requests - old(explorer.wire.requests) == old(run.remaining) - run.remaining
        invariant Quiet(old(explorer.turns), explorer, old(explorer.chain), None)
        decreases run.remaining
      {
        fault := BackfillPage(run);
        if fault.Some? {
          return fault;
        }
      }
      return None;
    }

    /** `_report`. */
    function Report(run: Run): (r: ConnectionSyncReport)
      reads run
      ensures r.ingested == run.ingested && r.pagesFetched == run.livePages + run.backfillPages
      ensures r.livePages == run.livePages && r.backfillPages == run.backfillPages
      ensures ValidReport(r) && !r.failed && !r.noOp && r.connectionId == connectionId
    {
      ConnectionSyncReport(connectionId, false, run.livePages + run.backfillPages, run.livePages, run.backfillPages,
                           run.ingested, run.cursors.liveCursor, run.cursors.backfillCursor,
                           run.cursors.backfillComplete, false)
    }

    predicate Throttled(nowMs: int, st: SyncState) {
      nowMs - st.lastSyncAtMs < minIntervalMs
    }

    ghost predicate Untouched(chain: seq<Row>, requests: nat, st: SyncState, have: set<Row>, s: Ledgers.Store)
      reads this, explorer, explorer.wire
    {
      explorer.chain == chain && explorer.wire.requests == requests && stored == st && ledger == have && store == s
    }

    /** Where each row has a hash of its own, every row the persisted cursors promise is a
        live transaction of the ledger with its own payload. */
    ghost predicate PromisesAreLive()
      reads this, explorer
    {
      SyncLedger.OneHashEach(read) ==>
        forall row | SyncLedger.Promised(explorer.chain, stored, pageSize, row) ::
          Ledgers.LiveIn(store, SyncLedger.TxnOf(account, read, row))
    }

    lemma InvIsLive()
      requires Inv()
      ensures PromisesAreLive()
    {
      if SyncLedger.OneHashEach(read) {
        SyncLedger.PromisedRowsAreLive(explorer.chain, explorer.served, ledger, stored, pageSize, account, read, store);
      }
    }

    /** The phases of one run. */
    method Phases(run: Run) returns (fault: Option<Error>)
      requires Inv() && Synced(run) && run.remaining > 0 && run.livePages == run.backfillPages == run.ingested == 0
      modifies this`ledger, this`store, this`stored, this`smooth, this`asked, explorer, explorer.wire, run
      ensures Inv() && AppendsOnly(old(explorer.chain), explorer.chain)
      ensures stored.backfillComplete ==> forall row :: row in explorer.chain && row.block <= stored.liveCursor ==>
        row in ledger
      ensures 1 <= explorer.wire.requests - old(explorer.wire.requests) <= old(run.remaining)
      ensures Quiet(old(explorer.turns), explorer, old(explorer.chain), fault)
      ensures fault.None? ==>
        && SameProgress(run, stored) && stored.lastSyncAtMs == run.nowMs
        && run.livePages + run.backfillPages == explorer.wire.requests - old(explorer.wire.requests)
        && run.backfillPages == stored.backfillPage - old(stored).backfillPage
        && run.ingested == |ledger| - |old(ledger)|
      ensures old(explorer.turns) == [] && old(stored).backfillCursor.Some? ==>
        CallOutcome(Window(explorer.chain, old(stored.liveCursor) + 1, headBlock), pageSize, old(run.remaining),
                    explorer.wire.requests - old(explorer.wire.requests), old(stored), stored)
      ensures old(explorer.turns) == [] && old(stored).backfillCursor.None? ==>
        AnchorOutcome(Page(Listing(explorer.chain, 0, headBlock, Desc), 1, pageSize), pageSize, old(run.remaining),
                      explorer.wire.requests - old(explorer.wire.requests), stored)
    {
      hide Safe, Sorted, Window, MaxBlock, Page, Listing, MinBlock, Mirrored;
      if run.cursors.backfillCursor.None? {
        FreshState(explorer.chain, explorer.served, ledger, stored, pageSize);
        fault := Anchor(run);
        SafeMeansAll(explorer.chain, explorer.served, ledger, stored, pageSize);
        if fault.Some? {
          return fault;
        }
      } else {
        var drained: bool;
        fault, drained := Live(run);
        SafeMeansAll(explorer.chain, explorer.served, ledger, stored, pageSize);
        if fault.Some? || !drained {
          return fault;
        }
      }
      fault := Backfill(run);
      SafeMeansAll(explorer.chain, explorer.served, ledger, stored, pageSize);
    }

    /** `sync_connection`. */
    method SyncConnection(nowMs: int, budget: int) returns (r: Result<ConnectionSyncReport>)
      requires Inv()
      modifies this`ledger, this`store, this`stored, this`smooth, this`asked, explorer, explorer.wire
      // in every outcome the promise of the persisted cursors stands
      ensures Inv() && AppendsOnly(old(explorer.chain), explorer.chain)
      ensures stored.backfillComplete ==> forall row :: row in explorer.chain && row.block <= stored.liveCursor ==>
        row in ledger
      ensures PromisesAreLive()
      // refused and throttled calls touch nothing
      ensures budget < 1 ==> r == Err(ValidationError)
      ensures budget >= 1 && nowMs - old(stored).lastSyncAtMs < minIntervalMs ==> r.Ok? && r.value.noOp
      ensures budget < 1 || nowMs - old(stored).lastSyncAtMs < minIntervalMs ==>
        Untouched(old(explorer.chain), old(explorer.wire.requests), old(stored), old(ledger), old(store))
      ensures explorer.wire.requests >= old(explorer.wire.requests)
      // any other call makes between one request and its budget of them
      ensures budget >= 1 && nowMs - old(stored).lastSyncAtMs >= minIntervalMs ==>
        1 <= explorer.wire.requests - old(explorer.wire.requests) <= budget
      ensures r.Ok? ==>
        && ValidReport(r.value) && !r.value.failed && r.value.connectionId == connectionId && Echoes(r.value, stored)
        && r.value.pagesFetched == explorer.wire.requests - old(explorer.wire.requests)
        && r.value.ingested == |ledger| - |old(ledger)|
        && (r.value.noOp <==> nowMs - old(stored).lastSyncAtMs < minIntervalMs)
        && r.value.pagesFetched == r.value.livePages + r.value.backfillPages
        && r.value.backfillPages == stored.backfillPage - old(stored).backfillPage
        && (!r.value.noOp ==> stored.lastSyncAtMs == nowMs)
      // undisturbed, a call drains the live window or moves no cursor at all
      ensures old(explorer.turns) == [] && budget >= 1 ==>
        r.Ok? && explorer.turns == [] && explorer.chain == old(explorer.chain)
      ensures old(explorer.turns) == [] && r.Ok? && !r.value.noOp && old(stored).backfillCursor.Some? ==>
        CallOutcome(Window(explorer.chain, old(stored.liveCursor) + 1, headBlock), pageSize, budget,
                    r.value.pagesFetched, old(stored), stored)
      ensures old(explorer.turns) == [] && r.Ok? && !r.value.noOp && old(stored).backfillCursor.None? ==>
        AnchorOutcome(Page(Listing(explorer.chain, 0, headBlock, Desc), 1, pageSize), pageSize, budget,
                      r.value.pagesFetched, stored)
    {
      hide Safe, Sorted, Window, MaxBlock, Page, Listing, MinBlock;
      SafeMeansAll(explorer.chain, explorer.served, ledger, stored, pageSize);
      InvIsLive();
      if budget < 1 {
        return Err(ValidationError);
      }
      if Throttled(nowMs, stored) {
        return Ok(ConnectionSyncReport(connectionId, true, 0, 0, 0, 0, stored.liveCursor, stored.backfillCursor,
                                       stored.backfillComplete, false));
      }
      var run := new Run(nowMs, budget, stored);
      var fault := Phases(run);
      InvIsLive();
      if fault.Some? {
        return Err(fault.value);
      }
      return Ok(Report(run));
    }
  }


  /** Requests made against budget spent: equal, unless the call raised. */
  predicate Spent(run: Run, requests: int, budget: int, fault: Option<Error>)
    reads run
  {
    && requests <= budget
    && (if fault.None? then requests == budget - run.remaining else requests >= 1)
  }

  /** With nothing left in the environment's script nothing raises or grows. */
  predicate Quiet(before: seq<Turn>, explorer: Explorer, chain: seq<Row>, fault: Option<Error>)
    reads explorer
  {
    before == [] ==> explorer.turns == [] && explorer.chain == chain && fault.None?
  }

  /** The run's cursors, its window aside, are those of `st`. */
  predicate SameProgress(run: Run, st: SyncState)
    reads run
  {
    && run.cursors.liveCursor == st.liveCursor && run.cursors.backfillCursor == st.backfillCursor
    && run.cursors.backfillComplete == st.backfillComplete && run.cursors.backfillPage == st.backfillPage
  }
}
