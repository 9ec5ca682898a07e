/** What the persisted cursors of one connection promise about the ledger
    (embed/sync.py, embed/models.py SyncState). */
module SyncSafety {
  import opened Common
  import opened Chains

  datatype SyncState = SyncState(
    liveCursor: nat, backfillCursor: Option<nat>, backfillComplete: bool,
    lastSyncAtMs: int, backfillEnd: Option<nat>, backfillPage: nat)

  const FRESH := SyncState(0, None, false, 0, None, 0)

  /** Every row of blocks above `above` up to `upto` is in the ledger. */
  ghost predicate Covers(chain: seq<Row>, have: set<Row>, above: int, upto: int) {
    forall r :: r in chain && above < r.block <= upto ==> r in have
  }

  /** The first `page` pages of the fixed descending window are in the ledger;
      while the walk goes on they were all full, and it ends on the first short
      one. */
  ghost predicate Walked(chain: seq<Row>, have: set<Row>, end: nat, page: nat, complete: bool, size: nat) {
    var rows := Listing(chain, 0, end, Desc);
    && FirstIn(rows, Span(page, size), have)
    && (if complete then page >= 1 && Span(page - 1, size) <= |rows| < Span(page, size) else Span(page, size) <= |rows|)
  }

  /** The promise of a persisted state. */
  ghost predicate Safe(chain: seq<Row>, served: int, have: set<Row>, st: SyncState, size: nat) {
    if st.backfillCursor.None? then
      st.liveCursor == 0 && !st.backfillComplete && st.backfillEnd.None? && st.backfillPage == 0
    else
      && st.liveCursor <= served
      && (match st.backfillEnd
          case None => st.backfillComplete && Covers(chain, have, -1, st.liveCursor)
          case Some(end) =>
            && end <= st.liveCursor
            && Covers(chain, have, end, st.liveCursor)
            && Walked(chain, have, end, st.backfillPage, st.backfillComplete, size))
  }

  /** New rows land strictly above every block already served. */
  predicate Admissible(chain: seq<Row>, served: int, more: seq<Row>) {
    && (forall r :: r in more ==> r.block > served)
    && (forall i, j | 0 <= i < j < |more| :: more[i].block <= more[j].block)
    && (chain != [] && more != [] ==> chain[|chain| - 1].block <= more[0].block)
  }

  /** What can arrive: rows above everything served that leave the chain in block order. */
  lemma AdmissibleIff(chain: seq<Row>, served: int, more: seq<Row>)
    requires Sorted(chain)
    ensures Admissible(chain, served, more) <==> Sorted(chain + more) && forall r :: r in more ==> r.block > served
  {
    if Admissible(chain, served, more) {
      GrowthKeepsSorted(chain, served, more);
    }
    if Sorted(chain + more) {
      forall i, j | 0 <= i < j < |more|
        ensures more[i].block <= more[j].block
      {
        assert (chain + more)[|chain| + i] == more[i] && (chain + more)[|chain| + j] == more[j];
      }
      if chain != [] && more != [] {
        assert (chain + more)[|chain| - 1] == chain[|chain| - 1] && (chain + more)[|chain|] == more[0];
      }
    }
  }

  lemma GrowthKeepsSorted(chain: seq<Row>, served: int, more: seq<Row>)
    requires Sorted(chain) && Admissible(chain, served, more)
    ensures Sorted(chain + more)
  {
    if chain != [] && more != [] {
      forall i, j | 0 <= i < j < |chain + more|
        ensures (chain + more)[i].block <= (chain + more)[j].block
      {
        if i < |chain| <= j {
          assert chain[i].block <= chain[|chain| - 1].block <= more[0].block <= more[j - |chain|].block;
        }
      }
    }
  }

  /** Growth above everything served, and anything more in the ledger, keep every
      promise already made. */
  lemma SafeGrows(chain: seq<Row>, served: int, have: set<Row>, st: SyncState, size: nat,
                  more: seq<Row>, served': int, have': set<Row>)
    requires Safe(chain, served, have, st, size)
    requires Admissible(chain, served, more) && served <= served' && have <= have'
    ensures Safe(chain + more, served', have', st, size)
  {
    if st.backfillCursor.Some? && st.backfillEnd.Some? {
      GrowthAbove(chain, more, 0, st.backfillEnd.value);
    }
  }

  /** A finished backfill means no row at or below the live cursor is missing, and
      an unfinished one says exactly which rows it has. */
  lemma SafeMeansNothingLost(chain: seq<Row>, served: int, have: set<Row>, st: SyncState, size: nat)
    requires Safe(chain, served, have, st, size) && st.backfillCursor.Some?
    ensures st.backfillComplete ==> forall r :: r in chain && r.block <= st.liveCursor ==> r in have
    ensures st.backfillEnd.Some? ==>
      && (forall r :: r in chain && st.backfillEnd.value < r.block <= st.liveCursor ==> r in have)
      && FirstIn(Listing(chain, 0, st.backfillEnd.value, Desc), Span(st.backfillPage, size), have)
  {
    if st.backfillComplete && st.backfillEnd.Some? {
      var end := st.backfillEnd.value;
      var rows := Listing(chain, 0, end, Desc);
      ListingHas(chain, 0, end, Desc);
      forall r | r in chain && r.block <= st.liveCursor
        ensures r in have
      {
        if r.block <= end {
          assert r in rows;
          var k :| 0 <= k < |rows| && rows[k] == r;
        }
      }
    }
  }

  /** The number of requests a window of `m` rows takes is `m / size + 1`. */
  lemma PagesOfWindow(m: nat, size: nat, page: nat)
    requires size > 0 && page >= 1 && Span(page - 1, size) <= m < Span(page, size)
    ensures page == m / size + 1
  {
    FullPages(m, size, page - 1);
    SpanIsProduct(page, size);
    FewerPages(m / size, page, size);
  }

  /** A window with `pages` full pages in it. */
  lemma FullPages(m: nat, size: nat, pages: nat)
    requires size >= 1 && Span(pages, size) <= m
    ensures pages <= m / size
  {
    SpanIsProduct(pages, size);
    assert (m / size + 1) * size == (m / size) * size + size;
    FewerPages(pages, m / size + 1, size);
  }

  lemma FewerPages(a: nat, b: nat, size: nat)
    ensures a * size < b * size ==> a < b
  {
    if a >= b {
      assert a * size == b * size + (a - b) * size;
    }
  }

  /** The backfill's part of a state. */
  predicate SameBackfill(a: SyncState, b: SyncState) {
    a.backfillCursor == b.backfillCursor && a.backfillComplete == b.backfillComplete
    && a.backfillEnd == b.backfillEnd && a.backfillPage == b.backfillPage
  }

  ghost predicate AppendsOnly(before: seq<Row>, after: seq<Row>) {
    before <= after
  }

  /** What a live phase over window `w` did to the live cursor. */
  ghost predicate LiveOutcome(w: seq<Row>, size: nat, budget: int, cursor: nat, cursor': nat, drained: bool)
    requires size >= 1
  {
    && (drained <==> budget > |w| / size)
    && cursor' == if drained && w != [] then MaxBlock(w) else cursor
  }

  /** The live phase before page `page`: the earlier pages were the window's first
      rows, all full and all in the ledger. */
  ghost predicate LiveSeen(chain: seq<Row>, served: int, have: set<Row>, floor: int, head: int,
                           seen: seq<Row>, page: nat, size: nat, highest: Option<nat>)
    requires page >= 1
  {
    && seen <= Window(chain, floor, head) && |seen| == Span(page - 1, size)
    && (forall r :: r in seen ==> r in have && r.block <= served)
    && highest == (if seen == [] then None else Some(MaxBlock(seen)))
  }

  /** Everything past a full first descending page is at or below its least block. */
  lemma BeyondFirstPage(all: seq<Row>, size: nat, k: nat)
    requires 1 <= size <= k < |all|
    requires forall i, j | 0 <= i < j < |all| :: all[j].block <= all[i].block
    ensures all[k].block <= MinBlock(all[..size])
  {
    var first := all[..size];
    var m := MinBlock(first);
    var least :| least in first && least.block == m;
    var j :| 0 <= j < size && first[j] == least;
  }

  lemma DescendingListing(chain: seq<Row>, lo: int, hi: int)
    requires Sorted(chain)
    ensures forall i, j | 0 <= i < j < |Listing(chain, lo, hi, Desc)| ::
      Listing(chain, lo, hi, Desc)[j].block <= Listing(chain, lo, hi, Desc)[i].block
  {
    WindowSorted(chain, lo, hi);
  }

  /** What the newest page of a listing leaves out is at or below its least block. */
  lemma NewestPage(all: seq<Row>, size: nat, above: int)
    requires size >= 1 && forall i, j | 0 <= i < j < |all| :: all[j].block <= all[i].block
    requires var rows := Page(all, 1, size); |rows| >= size ==> above >= MinBlock(rows)
    ensures var rows := Page(all, 1, size);
      && |rows| <= |all| && (forall k | 0 <= k < |rows| :: rows[k] == all[k])
      && (forall k | |rows| <= k < |all| :: all[k].block <= above)
  {
    hide MinBlock;
    if size < |all| {
      assert Page(all, 1, size) == all[..size];
      forall k | size <= k < |all|
        ensures all[k].block <= above
      {
        BeyondFirstPage(all, size, k);
      }
    } else {
      assert Page(all, 1, size) == all;
    }
  }

  lemma AnchorCovers(chain: seq<Row>, have: set<Row>, head: nat, rows: seq<Row>, size: nat, above: int, upto: int)
    requires Sorted(chain) && size >= 1
    requires rows == Page(Listing(chain, 0, head, Desc), 1, size)
    requires forall r :: r in rows ==> r in have
    requires upto <= head && (|rows| >= size ==> above >= MinBlock(rows))
    ensures Covers(chain, have, above, upto)
  {
    hide Listing, Page, MinBlock;
    var all := Listing(chain, 0, head, Desc);
    ListingHas(chain, 0, head, Desc);
    DescendingListing(chain, 0, head);
    NewestPage(all, size, above);
    forall r | r in chain && above < r.block <= upto
      ensures r in have
    {
      var k :| 0 <= k < |all| && all[k] == r;
      assert rows[k] in rows;
    }
  }

  /** The state the anchor page fixes. */
  function Anchored(rows: seq<Row>, size: nat, nowMs: int): SyncState {
    var least := if rows == [] then 0 else MinBlock(rows);
    SyncState(if rows == [] then 0 else MaxBlock(rows), Some(least), |rows| < size, nowMs,
              if |rows| < size then None else Some(least), 0)
  }

  /** `block` is the block of one of the rows, and no row of them lies beyond it. */
  ghost predicate Lowest(rows: seq<Row>, block: nat) {
    (exists r :: r in rows && r.block == block) && forall r :: r in rows ==> block <= r.block
  }

  ghost predicate HighestOf(rows: seq<Row>, block: nat) {
    (exists r :: r in rows && r.block == block) && forall r :: r in rows ==> r.block <= block
  }

  /** The anchor sets the live cursor to the highest block of its page and the backfill cursor
      to the lowest; a short page ends the backfill, a full one fixes its window there. */
  lemma AnchoredIs(rows: seq<Row>, size: nat, nowMs: int)
    ensures var st := Anchored(rows, size, nowMs);
      && st.backfillCursor.Some? && st.lastSyncAtMs == nowMs && st.backfillPage == 0
      && (if rows == [] then st.liveCursor == 0 == st.backfillCursor.value
          else HighestOf(rows, st.liveCursor) && Lowest(rows, st.backfillCursor.value))
      && (st.backfillComplete <==> |rows| < size)
      && st.backfillEnd == if st.backfillComplete then None else st.backfillCursor
  {
  }

  /** What the anchor page establishes. */
  lemma AnchorIsSafe(chain: seq<Row>, served: int, have: set<Row>, head: nat, rows: seq<Row>, size: nat, nowMs: int)
    requires Sorted(chain) && size >= 1 && 0 <= served
    requires rows == Page(Listing(chain, 0, head, Desc), 1, size)
    requires forall r :: r in rows ==> r in have && r.block <= served
    ensures Safe(chain, served, have, Anchored(rows, size, nowMs), size)
  {
    var st := Anchored(rows, size, nowMs);
    ListingHas(chain, 0, head, Desc);
    if rows != [] {
      var top := TopOf(rows);
      assert top in Listing(chain, 0, head, Desc);
    }
    var above := if st.backfillComplete then -1 else st.backfillEnd.value;
    AnchorCovers(chain, have, head, rows, size, above, st.liveCursor);
  }

  ghost predicate AskedInOrder(asked: seq<nat>, pages: nat) {
    |asked| == pages && forall k | 0 <= k < pages :: asked[k] == k + 1
  }

  lemma AskedNext(asked: seq<nat>, pages: nat)
    ensures AskedInOrder(asked, pages) ==> AskedInOrder(asked + [pages + 1], pages + 1)
  {
  }

  /** The highest block seen once one more page is. */
  function Highest(highest: Option<nat>, rows: seq<Row>): Option<nat> {
    if rows == [] then highest
    else Some(if highest.None? || MaxBlock(rows) > highest.value then MaxBlock(rows) else highest.value)
  }

  /** One live page more is the next rows of the window, and the last of them when
      it is short. */
  lemma LiveSees(before: seq<Row>, chain: seq<Row>, served: int, have: set<Row>, served': int, have': set<Row>,
                 floor: int, head: int, seen: seq<Row>, page: nat, size: nat, highest: Option<nat>, rows: seq<Row>)
    requires page >= 1 && size >= 1 && AppendsOnly(before, chain) && served <= served' && have <= have'
    requires LiveSeen(before, served, have, floor, head, seen, page, size, highest)
    requires rows == Page(Listing(chain, floor, head, Asc), page, size)
    requires forall r :: r in rows ==> r in have' && r.block <= served'
    ensures |rows| <= size
    ensures |rows| == size ==>
      LiveSeen(chain, served', have', floor, head, seen + rows, page + 1, size, Highest(highest, rows))
    ensures |rows| < size ==>
      LiveDrained(chain, served', have', floor, head, seen + rows, page, size, Highest(highest, rows))
  {
    var w := Window(chain, floor, head);
    WindowGrows(before, chain, floor, head);
    PrefixOfPrefix(seen, Window(before, floor, head), w);
    NextPage(w, page, size);
    assert seen == w[..|seen|];
    MaxBlockOf(seen, rows);
    forall r | r in seen + rows
      ensures r in have' && r.block <= served'
    {
    }
  }

  /** The live phase at its end: the pages it saw are the whole window. */
  ghost predicate LiveDrained(chain: seq<Row>, served: int, have: set<Row>, floor: int, head: int,
                              seen: seq<Row>, page: nat, size: nat, highest: Option<nat>)
    requires page >= 1
  {
    && seen == Window(chain, floor, head) && Span(page - 1, size) <= |seen| < Span(page, size)
    && (forall r :: r in seen ==> r in have && r.block <= served)
    && highest == (if seen == [] then None else Some(MaxBlock(seen)))
  }

  lemma WindowGrows(before: seq<Row>, chain: seq<Row>, lo: int, hi: int)
    requires AppendsOnly(before, chain)
    ensures Window(before, lo, hi) <= Window(chain, lo, hi)
  {
    assert chain == before + chain[|before|..];
    GrowthExtends(before, chain[|before|..], lo, hi);
  }

  /** What a page adds to the pages before it. */
  lemma NextPage(w: seq<Row>, page: nat, size: nat)
    requires page >= 1 && size >= 1 && Span(page - 1, size) <= |w|
    ensures var seen, rows := w[..Span(page - 1, size)], Page(w, page, size);
      && |rows| <= size && seen + rows <= w
      && (|rows| == size ==> |seen + rows| == Span(page, size))
      && (|rows| < size ==> seen + rows == w && |w| < Span(page, size))
  {
    var from := Span(page - 1, size);
    if from + size < |w| {
      JoinAt(w, from, from + size);
    } else {
      JoinAt(w, from, |w|);
    }
  }

  lemma JoinAt(w: seq<Row>, from: nat, upto: nat)
    requires from <= upto <= |w|
    ensures w[..from] + w[from..upto] == w[..upto] <= w
  {
  }

  lemma PrefixOfPrefix(a: seq<Row>, b: seq<Row>, c: seq<Row>)
    requires a <= b && b <= c
    ensures a <= c && a == c[..|a|]
  {
  }

  ghost function TopOf(rows: seq<Row>): (r: Row)
    requires rows != []
    ensures r in rows && r.block == MaxBlock(rows)
  {
    var m := MaxBlock(rows);
    var r :| r in rows && r.block == m;
    r
  }

  lemma MaxBlockOf(a: seq<Row>, b: seq<Row>)
    ensures a == [] && b != [] ==> MaxBlock(a + b) == MaxBlock(b)
    ensures a != [] && b == [] ==> MaxBlock(a + b) == MaxBlock(a)
    ensures a != [] && b != [] ==> MaxBlock(a + b) == if MaxBlock(b) > MaxBlock(a) then MaxBlock(b) else MaxBlock(a)
  {
    if a == [] {
      assert a + b == b;
    } else if b == [] {
      assert a + b == a;
    } else {
      var m := MaxBlock(a + b);
      var top :| top in a + b && top.block == m;
      var inA, inB := TopOf(a), TopOf(b);
      assert inA in a + b && inB in a + b;
    }
  }

  /** A drained window carries the promise up to the highest row it held. */
  lemma DrainedIsSafe(chain: seq<Row>, served: int, have: set<Row>, head: int, seen: seq<Row>, page: nat,
                      size: nat, highest: Option<nat>, st: SyncState, st': SyncState)
    requires page >= 1 && Safe(chain, served, have, st, size) && st.backfillCursor.Some?
    requires LiveDrained(chain, served, have, st.liveCursor + 1, head, seen, page, size, highest)
    requires SameBackfill(st', st) && st'.liveCursor == if highest.Some? then highest.value else st.liveCursor
    ensures Safe(chain, served, have, st', size)
  {
    WindowHas(chain, st.liveCursor + 1, head);
    if highest.Some? {
      var top := TopOf(seen);
      assert top.block <= head;
      forall r | r in chain && st.liveCursor < r.block <= st'.liveCursor
        ensures r in have
      {
        assert r in seen;
      }
    }
  }

  /** A state before its anchor has nothing to resume from. */
  lemma FreshState(chain: seq<Row>, served: int, have: set<Row>, st: SyncState, size: nat)
    requires Safe(chain, served, have, st, size) && st.backfillCursor.None?
    ensures st.backfillEnd.None? && st.backfillPage == 0 && !st.backfillComplete
  {
  }

  /** The throttle clock is no part of the promise. */
  lemma ClockAside(chain: seq<Row>, served: int, have: set<Row>, st: SyncState, size: nat, nowMs: int)
    requires Safe(chain, served, have, st, size)
    ensures Safe(chain, served, have, st.(lastSyncAtMs := nowMs), size)
  {
  }

  /** The state after one more backfill page. */
  function Backfilled(st: SyncState, rows: seq<Row>, size: nat, nowMs: int): SyncState {
    SyncState(st.liveCursor, if rows == [] then st.backfillCursor else Some(MinBlock(rows)), |rows| < size,
              nowMs, st.backfillEnd, st.backfillPage + 1)
  }

  lemma BackfilledIs(st: SyncState, rows: seq<Row>, size: nat, nowMs: int)
    ensures var st' := Backfilled(st, rows, size, nowMs);
      && st'.liveCursor == st.liveCursor && st'.backfillEnd == st.backfillEnd && st'.backfillPage == st.backfillPage + 1
      && st'.lastSyncAtMs == nowMs && (st.backfillCursor.Some? ==> st'.backfillCursor.Some?)
      && (st'.backfillComplete <==> |rows| < size)
      && (if rows == [] then st'.backfillCursor == st.backfillCursor
          else st'.backfillCursor.Some? && Lowest(rows, st'.backfillCursor.value))
  {
  }

  /** The next backfill page, in hand, carries the walk one page on. */
  lemma BackfillIsSafe(chain: seq<Row>, served: int, have: set<Row>, size: nat, rows: seq<Row>, st: SyncState,
      nowMs: int)
    requires Safe(chain, served, have, st, size) && st.backfillEnd.Some? && !st.backfillComplete && size >= 1
    requires st.backfillCursor.Some?
    requires rows == Page(Listing(chain, 0, st.backfillEnd.value, Desc), st.backfillPage + 1, size)
    requires forall r :: r in rows ==> r in have
    ensures Safe(chain, served, have, Backfilled(st, rows, size, nowMs), size)
  {
    hide Listing, Covers;
    var all := Listing(chain, 0, st.backfillEnd.value, Desc);
    PageExtends(all, st.backfillPage + 1, size, have);
    ShortPageDrains(all, st.backfillPage + 1, size);
  }

  /** What a backfill of at most `budget` pages did: it moved one page a request, and
      ended on the short one or with the budget. */
  predicate BackfillOutcome(budget: int, spent: int, st: SyncState, st': SyncState) {
    && st'.backfillEnd == st.backfillEnd && 0 <= spent <= budget && st'.backfillPage == st.backfillPage + spent
    && (st.backfillComplete ==> SameBackfill(st', st))
    && (st'.backfillComplete || spent == budget)
  }

  /** What an undisturbed call over live window `w` did to the persisted cursors. */
  ghost predicate CallOutcome(w: seq<Row>, size: nat, budget: nat, spent: nat, st: SyncState, st': SyncState)
    requires size >= 1
  {
    var live := |w| / size + 1;
    && LiveOutcome(w, size, budget, st.liveCursor, st'.liveCursor, budget >= live)
    && (if budget >= live then BackfillOutcome(budget - live, spent - live, st, st')
        else SameBackfill(st', st) && spent == budget)
  }

  /** What an undisturbed first call did, `rows` being the newest page. */
  ghost predicate AnchorOutcome(rows: seq<Row>, size: nat, budget: nat, spent: nat, st': SyncState) {
    var st := Anchored(rows, size, st'.lastSyncAtMs);
    BackfillOutcome(budget - 1, spent - 1, st, st') && st'.liveCursor == st.liveCursor
  }

  /** `SafeMeansNothingLost` on every state. */
  lemma SafeMeansAll(chain: seq<Row>, served: int, have: set<Row>, st: SyncState, size: nat)
    requires Safe(chain, served, have, st, size)
    ensures st.backfillComplete ==> forall r :: r in chain && r.block <= st.liveCursor ==> r in have
  {
    if st.backfillCursor.Some? {
      SafeMeansNothingLost(chain, served, have, st, size);
    }
  }

  /** A whole backfill, over any number of undisturbed calls, costs `m / size + 1`
      requests for its `m` rows and asks for no page twice. */
  lemma BackfillCost(chain: seq<Row>, served: int, have: set<Row>, st: SyncState, size: nat, asked: seq<nat>)
    requires size >= 1 && Safe(chain, served, have, st, size) && AskedInOrder(asked, st.backfillPage)
    requires st.backfillComplete && st.backfillEnd.Some?
    ensures |asked| == |Window(chain, 0, st.backfillEnd.value)| / size + 1
    ensures forall i, j | 0 <= i < j < |asked| :: asked[i] != asked[j]
  {
    PagesOfWindow(|Listing(chain, 0, st.backfillEnd.value, Desc)|, size, st.backfillPage);
  }
}
