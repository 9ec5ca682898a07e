/** A sync's rows in the ledger: what the cursors promise, as live transactions
    (embed/sync.py, decode/pipeline.py, ledger/backends/memory.py). */
module SyncLedger {
  import opened Transactions
  import opened Ledgers
  import opened Decoding
  import opened SyncSafety
  import Chains

  /** What the explorer serves for a chain row: here, one record under a hash of its own. */
  type Reading = Chains.Row -> NormalRow

  ghost predicate OneHashEach(read: Reading) {
    forall r, q :: read(r).head.txHash == read(q).head.txHash ==> r == q
  }

  function RowsOf(read: Reading, page: seq<Chains.Row>): (rows: Rows)
    ensures |rows.normal| == |page| && rows.tokens == []
    ensures forall k | 0 <= k < |page| :: rows.normal[k] == read(page[k])
  {
    if page == [] then Rows([], [])
    else Rows(RowsOf(read, page[..|page| - 1]).normal + [read(page[|page| - 1])], [])
  }

  /** The transaction of one row. */
  function DecodedRow(account: Account, read: Reading, r: Chains.Row): Transaction {
    DecodeOne(account, read(r).head.txHash, Rows([read(r)], []))
  }

  function TxnOf(account: Account, read: Reading, r: Chains.Row): Txn {
    ToLedger(DecodedRow(account, read, r))
  }

  /** The live ledger is the decode of exactly these rows. */
  ghost predicate Mirrors(account: Account, read: Reading, s: Store, have: set<Chains.Row>) {
    && (forall r | r in have :: LiveIn(s, TxnOf(account, read, r)))
    && (forall id | id in s.rows && !s.rows[id].removed ::
          exists r :: r in have && TxnOf(account, read, r).payload.id == id)
  }

  /** The rows of a page under one hash are copies of one row. */
  lemma GroupOfRow(read: Reading, page: seq<Chains.Row>, r: Chains.Row)
    requires OneHashEach(read)
    ensures var group := GroupOf(RowsOf(read, page), read(r).head.txHash);
      && group.tokens == []
      && (forall n | n in group.normal :: n == read(r))
      && (group.normal != [] <==> r in page)
  {
    var rows, h := RowsOf(read, page), read(r).head.txHash;
    NormalAre(rows.normal, h);
    forall n | n in NormalOf(rows.normal, h)
      ensures n == read(r)
    {
      var k :| 0 <= k < |page| && rows.normal[k] == n;
      assert read(page[k]).head.txHash == h;
    }
    if r in page {
      var k :| 0 <= k < |page| && page[k] == r;
      assert rows.normal[k] in rows.normal;
    } else {
      forall n | n in rows.normal
        ensures n.head.txHash != h
      {
        var k :| 0 <= k < |page| && rows.normal[k] == n;
        assert page[k] in page;
      }
    }
  }

  lemma CopiesDecodeAlike(account: Account, txHash: string, group: Rows, n: NormalRow)
    requires group.tokens == [] && group.normal != [] && forall m | m in group.normal :: m == n
    ensures DecodeOne(account, txHash, group) == DecodeOne(account, txHash, Rows([n], []))
  {
    hide TokenParts, SubtypeOf;
    assert group.normal[0] in group.normal;
  }

  /** A row of a page decodes as it would alone. */
  lemma RowDecodes(account: Account, read: Reading, page: seq<Chains.Row>, r: Chains.Row)
    requires OneHashEach(read)
    ensures var group := GroupOf(RowsOf(read, page), read(r).head.txHash);
      && (!Empty(group) <==> r in page)
      && (r in page ==> DecodeOne(account, read(r).head.txHash, group) == DecodedRow(account, read, r))
  {
    hide DecodeOne, GroupOf;
    GroupOfRow(read, page, r);
    if r in page {
      CopiesDecodeAlike(account, read(r).head.txHash, GroupOf(RowsOf(read, page), read(r).head.txHash), read(r));
    }
  }

  /** A page decodes to the transactions of its rows. */
  lemma PageDecodes(account: Account, read: Reading, page: seq<Chains.Row>, t: Transaction)
    requires OneHashEach(read)
    ensures Decodes(account, RowsOf(read, page), t) <==> exists r :: r in page && t == DecodedRow(account, read, r)
  {
    hide DecodeOne, GroupOf, OneHashEach, DecodedRow;
    var rows := RowsOf(read, page);
    if !Empty(GroupOf(rows, t.txHash)) {
      GroupHas(rows, t.txHash);
      var h :| h in Heads(rows) && h.txHash == t.txHash;
      var k :| 0 <= k < |page| && rows.normal[k].head == h;
      RowDecodes(account, read, page, page[k]);
      assert page[k] in page;
    }
    if r :| r in page && t == DecodedRow(account, read, r) {
      RowUnderItsHash(account, read, r);
      RowDecodes(account, read, page, r);
    }
  }

  lemma RowUnderItsHash(account: Account, read: Reading, r: Chains.Row)
    ensures DecodedRow(account, read, r).txHash == read(r).head.txHash
    ensures TxnOf(account, read, r).payload.id == TransactionId(account, read(r).head.txHash)
  {
    hide PartsOf, EntriesOf, SubtypeOf;
  }

  lemma IdsTellRows(account: Account, read: Reading, r: Chains.Row, q: Chains.Row)
    requires OneHashEach(read) && TxnOf(account, read, r).payload.id == TxnOf(account, read, q).payload.id
    ensures r == q
  {
    hide TxnOf;
    RowUnderItsHash(account, read, r);
    RowUnderItsHash(account, read, q);
    IdsApart(account, read(r).head.txHash, read(q).head.txHash);
  }

  /** The ledger rows of a page are its rows' transactions. */
  lemma BatchIs(account: Account, read: Reading, page: seq<Chains.Row>, txs: seq<Transaction>, x: Txn)
    requires OneHashEach(read) && IsDecode(account, RowsOf(read, page), txs)
    ensures x in AllToLedger(txs) <==> exists r :: r in page && x == TxnOf(account, read, r)
  {
    hide Decodes, DecodedRow, OneHashEach, InOrder, ToLedger;
    if k :| 0 <= k < |txs| && AllToLedger(txs)[k] == x {
      assert txs[k] in txs;
      PageDecodes(account, read, page, txs[k]);
    }
    if r :| r in page && x == TxnOf(account, read, r) {
      PageDecodes(account, read, page, DecodedRow(account, read, r));
      assert DecodedRow(account, read, r) in txs;
      var k :| 0 <= k < |txs| && txs[k] == DecodedRow(account, read, r);
      assert AllToLedger(txs)[k] == x;
    }
  }

  /** Decoding a page and upserting it is accepted, and leaves the live ledger the decode
      of the rows it was of and the page's. */
  lemma IngestMirrors(account: Account, read: Reading, s: Store, have: set<Chains.Row>, page: seq<Chains.Row>,
                      txs: seq<Transaction>)
    requires ValidStore(s) && OneHashEach(read) && Mirrors(account, read, s, have)
    requires IsDecode(account, RowsOf(read, page), txs)
    ensures Upsert(s, AllToLedger(txs)).Ok?
    ensures var after := Upsert(s, AllToLedger(txs)).value.store;
      ValidStore(after) && Mirrors(account, read, after, have + set r | r in page)
  {
    hide ValidStore, IsDecode, OneHashEach, TxnOf, Upserted, LiveIn;
    var batch := AllToLedger(txs);
    var after := Upserted(s, batch).store;
    DecodedIdsUnique(account, RowsOf(read, page), txs);
    UpsertedKeeps(s, batch);
    forall r | r in have || r in page
      ensures LiveIn(after, TxnOf(account, read, r))
    {
      RowIngested(account, read, s, have, page, txs, r);
    }
    forall id | id in after.rows && !after.rows[id].removed
      ensures exists r :: (r in have || r in page) && TxnOf(account, read, r).payload.id == id
    {
      LiveAfterIngest(account, read, s, page, txs, id);
    }
  }

  lemma RowIngested(account: Account, read: Reading, s: Store, have: set<Chains.Row>, page: seq<Chains.Row>,
                    txs: seq<Transaction>, r: Chains.Row)
    requires ValidStore(s) && OneHashEach(read) && IsDecode(account, RowsOf(read, page), txs)
    requires UniqueIds(AllToLedger(txs)) && (r in page || LiveIn(s, TxnOf(account, read, r)))
    ensures LiveIn(Upserted(s, AllToLedger(txs)).store, TxnOf(account, read, r))
  {
    hide ValidStore, IsDecode, OneHashEach, TxnOf, Upserted;
    var batch := AllToLedger(txs);
    if r in page {
      BatchIs(account, read, page, txs, TxnOf(account, read, r));
      var k :| 0 <= k < |batch| && batch[k] == TxnOf(account, read, r);
      UpsertedAt(s, batch, k);
    } else {
      forall k | 0 <= k < |batch|
        ensures batch[k].payload.id != TxnOf(account, read, r).payload.id
      {
        BatchIs(account, read, page, txs, batch[k]);
        assert batch[k] in batch;
        var q :| q in page && batch[k] == TxnOf(account, read, q);
        if batch[k].payload.id == TxnOf(account, read, r).payload.id {
          IdsTellRows(account, read, q, r);
        }
      }
      UpsertedElsewhere(s, batch, TxnOf(account, read, r).payload.id);
    }
  }

  lemma LiveAfterIngest(account: Account, read: Reading, s: Store, page: seq<Chains.Row>, txs: seq<Transaction>,
                        id: string)
    requires OneHashEach(read) && IsDecode(account, RowsOf(read, page), txs)
    requires var after := Upserted(s, AllToLedger(txs)).store; id in after.rows && !after.rows[id].removed
    ensures (id in s.rows && !s.rows[id].removed) || exists r :: r in page && TxnOf(account, read, r).payload.id == id
  {
    hide IsDecode, OneHashEach, TxnOf, Upserted;
    var batch := AllToLedger(txs);
    if k :| 0 <= k < |batch| && batch[k].payload.id == id {
      BatchIs(account, read, page, txs, batch[k]);
      assert batch[k] in batch;
    } else {
      UpsertedElsewhere(s, batch, id);
    }
  }

  // ------------------------------------------------- the ledger of a sync

  /** Every page of such rows has a decode. */
  lemma PageHasDecode(account: Account, read: Reading, page: seq<Chains.Row>)
    returns (txs: seq<Transaction>)
    requires OneHashEach(read)
    ensures IsDecode(account, RowsOf(read, page), txs)
  {
    txs := [];
    for k := 0 to |page|
      invariant InOrder(txs)
      invariant forall t :: t in txs <==> exists r :: r in page[..k] && t == DecodedRow(account, read, r)
    {
      txs := OneMoreRow(account, read, page[..k], page[k], txs);
      assert page[..k + 1] == page[..k] + [page[k]];
    }
    assert page[..|page|] == page;
    forall t
      ensures t in txs <==> Decodes(account, RowsOf(read, page), t)
    {
      PageDecodes(account, read, page, t);
    }
  }

  lemma OneMoreRow(account: Account, read: Reading, page: seq<Chains.Row>, r: Chains.Row, txs: seq<Transaction>)
    returns (more: seq<Transaction>)
    requires OneHashEach(read) && InOrder(txs)
    requires forall t :: t in txs <==> exists q :: q in page && t == DecodedRow(account, read, q)
    ensures InOrder(more)
    ensures forall t :: t in more <==> exists q :: q in page + [r] && t == DecodedRow(account, read, q)
  {
    hide DecodedRow, Before;
    if r in page {
      more := txs;
    } else {
      var one := [DecodedRow(account, read, r)];
      forall t, u | t in txs && u in one
        ensures t.txHash != u.txHash
      {
        var q :| q in page && t == DecodedRow(account, read, q);
        RowUnderItsHash(account, read, q);
        RowUnderItsHash(account, read, r);
      }
      MergeIsOrdered(txs, one);
      more := Merge(txs, one);
    }
  }

  /** The ledger once a page is decoded and upserted; a page that has no decode, or that
      the ledger refuses, leaves it as it was. */
  ghost function Ingested(account: Account, read: Reading, s: Store, page: seq<Chains.Row>): Store {
    if exists txs :: Accepts(account, read, s, page, txs) then
      var txs :| Accepts(account, read, s, page, txs);
      Upsert(s, AllToLedger(txs)).value.store
    else s
  }

  ghost predicate Accepts(account: Account, read: Reading, s: Store, page: seq<Chains.Row>, txs: seq<Transaction>) {
    IsDecode(account, RowsOf(read, page), txs) && Upsert(s, AllToLedger(txs)).Ok?
  }

  /** The ledger is in order, and live in it are exactly the rows ingested. */
  ghost predicate Reflects(account: Account, read: Reading, s: Store, have: set<Chains.Row>) {
    ValidStore(s) && (OneHashEach(read) ==> Mirrors(account, read, s, have))
  }

  lemma EmptyReflects(account: Account, read: Reading)
    ensures Reflects(account, read, EMPTY, {})
  {
  }

  lemma IngestReflects(account: Account, read: Reading, s: Store, have: set<Chains.Row>, page: seq<Chains.Row>)
    requires Reflects(account, read, s, have)
    ensures Reflects(account, read, Ingested(account, read, s, page), have + set r | r in page)
  {
    hide IsDecode, OneHashEach, Mirrors, ValidStore;
    if OneHashEach(read) {
      var txs := PageHasDecode(account, read, page);
      IngestMirrors(account, read, s, have, page, txs);
      assert Accepts(account, read, s, page, txs);
    }
    if exists txs :: Accepts(account, read, s, page, txs) {
      var txs :| Accepts(account, read, s, page, txs)
        && Ingested(account, read, s, page) == Upsert(s, AllToLedger(txs)).value.store;
      UpsertedKeeps(s, AllToLedger(txs));
      if OneHashEach(read) {
        IngestMirrors(account, read, s, have, page, txs);
      }
    }
  }

  /** What the persisted cursors promise of a row: all up to the live cursor once the
      backfill is complete, and until then all above its window and its first pages. */
  ghost predicate Promised(chain: seq<Chains.Row>, st: SyncState, size: nat, r: Chains.Row) {
    && st.backfillCursor.Some? && r in chain && r.block <= st.liveCursor
    && (st.backfillComplete
        || (st.backfillEnd.Some? && AboveOrWalked(chain, st.backfillEnd.value, st.backfillPage, size, r)))
  }

  ghost predicate AboveOrWalked(chain: seq<Chains.Row>, end: nat, page: nat, size: nat, r: Chains.Row) {
    var rows := Chains.Listing(chain, 0, end, Chains.Desc);
    end < r.block || exists k :: 0 <= k < Chains.Span(page, size) && k < |rows| && rows[k] == r
  }

  /** So after any call, every such row is a live transaction of the ledger with its own
      payload. */
  lemma PromisedRowsAreLive(chain: seq<Chains.Row>, served: int, have: set<Chains.Row>, st: SyncState, size: nat,
                            account: Account, read: Reading, s: Store)
    requires Safe(chain, served, have, st, size) && Mirrors(account, read, s, have)
    ensures forall r | Promised(chain, st, size, r) :: LiveIn(s, TxnOf(account, read, r))
  {
    hide Safe, LiveIn, TxnOf, Chains.Listing;
    if st.backfillCursor.Some? {
      SafeMeansNothingLost(chain, served, have, st, size);
    }
  }
}
