/** Reorg planning and its effect on the ledger (ledger/reorg.py). */
module Reorgs {
  import opened Common
  import opened Transactions
  import opened Ledgers

  datatype ReorgPlan = ReorgPlan(removeIds: seq<string>, add: seq<Txn>)

  function Ids(txns: seq<Txn>): set<string> {
    set t | t in txns :: t.payload.id
  }

  function Chains(txns: seq<Txn>): set<string> {
    set t | t in txns :: t.payload.chainId
  }

  predicate OneChain(existing: seq<Txn>, canonical: seq<Txn>) {
    forall a, b | a in existing + canonical && b in existing + canonical :: a.payload.chainId == b.payload.chainId
  }

  /** At or above the fork; a pending row never is. */
  predicate Forked(txn: Txn, fromBlock: int) {
    txn.payload.blockNumber.Some? && txn.payload.blockNumber.value >= fromBlock
  }

  function Orphans(existing: seq<Txn>, canonical: set<string>, fromBlock: int): seq<string> {
    if existing == [] then []
    else
      var rest := Orphans(existing[..|existing| - 1], canonical, fromBlock);
      var txn := existing[|existing| - 1];
      if Forked(txn, fromBlock) && txn.payload.id !in canonical then rest + [txn.payload.id] else rest
  }

  /** Nothing live and identical is stored for it. */
  predicate Missing(existing: seq<Txn>, txn: Txn) {
    forall e | e in existing && e.payload.id == txn.payload.id :: e.removed || !PayloadEqual(txn, e)
  }

  function Readds(existing: seq<Txn>, canonical: seq<Txn>): seq<Txn> {
    if canonical == [] then []
    else
      var rest := Readds(existing, canonical[..|canonical| - 1]);
      var txn := canonical[|canonical| - 1];
      if Missing(existing, txn) then rest + [txn] else rest
  }

  function PlanReorg(existing: seq<Txn>, canonical: seq<Txn>, fromBlock: int): Result<ReorgPlan> {
    if !UniqueIds(existing) || !UniqueIds(canonical) || !OneChain(existing, canonical) then Err(ValidationError)
    else Ok(ReorgPlan(Orphans(existing, Ids(canonical), fromBlock), Readds(existing, canonical)))
  }

  function ApplyReorg(s: Store, plan: ReorgPlan): Result<Outcome> {
    if !UniqueIds(plan.add) then Err(ValidationError)
    else if !Known(s, plan.removeIds) then Err(NotFoundError)
    else
      var gone := MarkedRemoved(s, plan.removeIds);
      var back := Upserted(gone.store, plan.add);
      Ok(Outcome(back.store, gone.events + back.events))
  }

  lemma {:induction false} OrphansAre(existing: seq<Txn>, canonical: set<string>, fromBlock: int)
    ensures forall id :: id in Orphans(existing, canonical, fromBlock) <==>
      id !in canonical && exists e ::
        && e in existing && e.payload.id == id
        && e.payload.blockNumber.Some? && e.payload.blockNumber.value >= fromBlock
  {
    if existing != [] {
      var n := |existing| - 1;
      OrphansAre(existing[..n], canonical, fromBlock);
      assert existing == existing[..n] + [existing[n]];
    }
  }

  lemma {:induction false} ReaddsAre(existing: seq<Txn>, canonical: seq<Txn>)
    ensures forall t :: t in Readds(existing, canonical) <==>
      t in canonical && !exists e :: e in existing && !e.removed && e.payload == t.payload
  {
    if canonical != [] {
      var n := |canonical| - 1;
      ReaddsAre(existing, canonical[..n]);
      assert canonical == canonical[..n] + [canonical[n]];
    }
  }

  lemma {:induction false} ReaddsUnique(existing: seq<Txn>, canonical: seq<Txn>)
    requires UniqueIds(canonical)
    ensures UniqueIds(Readds(existing, canonical))
  {
    hide Missing;
    if canonical != [] {
      var n := |canonical| - 1;
      ReaddsUnique(existing, canonical[..n]);
      ReaddsAre(existing, canonical[..n]);
      var rest := Readds(existing, canonical[..n]);
      forall k | 0 <= k < |rest|
        ensures rest[k].payload.id != canonical[n].payload.id
      {
        assert rest[k] in rest && rest[k] in canonical[..n];
      }
    }
  }

  /** A plan is refused exactly when either view holds two rows under one id, or the two
      views together speak of more than one chain. */
  lemma PlanRefusedIff(existing: seq<Txn>, canonical: seq<Txn>, fromBlock: int)
    ensures PlanReorg(existing, canonical, fromBlock).Ok?
      || PlanReorg(existing, canonical, fromBlock) == Err(ValidationError)
    ensures PlanReorg(existing, canonical, fromBlock).Err? <==>
      || (exists i, j :: 0 <= i < j < |existing| && existing[i].payload.id == existing[j].payload.id)
      || (exists i, j :: 0 <= i < j < |canonical| && canonical[i].payload.id == canonical[j].payload.id)
      || (exists a, b :: (a in existing || a in canonical) && (b in existing || b in canonical)
                         && a.payload.chainId != b.payload.chainId)
  {
    hide Orphans, Readds;
    forall t
      ensures t in existing + canonical <==> t in existing || t in canonical
    {
    }
  }

  /** Applying one is refused exactly when it brings two transactions under one id, or else
      when it removes an id that is not stored. */
  lemma ApplyRefusedIff(s: Store, plan: ReorgPlan)
    ensures ApplyReorg(s, plan) == Err(ValidationError) <==>
      exists i, j :: 0 <= i < j < |plan.add| && plan.add[i].payload.id == plan.add[j].payload.id
    ensures ApplyReorg(s, plan).Err? ==>
      ApplyReorg(s, plan).error == ValidationError || ApplyReorg(s, plan).error == NotFoundError
    ensures ApplyReorg(s, plan).Ok? ==> forall id | id in plan.removeIds :: id in s.rows
    ensures ApplyReorg(s, plan) == Err(NotFoundError) ==> exists id :: id in plan.removeIds && id !in s.rows
  {
    hide MarkedRemoved, Upserted;
  }

  /** `existing` lists the rows of chain `chain` that the tenant has. */
  ghost predicate ChainView(s: Store, chain: string, existing: seq<Txn>) {
    && UniqueIds(existing)
    && forall t :: t in existing <==> t.payload.id in s.rows && s.rows[t.payload.id] == t && t.payload.chainId == chain
  }

  /** One stored row after the reorg. */
  ghost predicate RowReorged(s: Store, s': Store, chain: string, canonical: seq<Txn>, fromBlock: int, id: string)
    requires id in s.rows && id !in Ids(canonical)
  {
    var row := s.rows[id];
    if row.payload.chainId == chain && row.payload.blockNumber.Some? && row.payload.blockNumber.value >= fromBlock then
      Retired(s, s', id)
    else id in s'.rows && s'.rows[id] == row
  }

  /** The state a reorg must reach: every canonical transaction is live with its
      payload, every orphan is removed, and no other row moved. */
  ghost predicate Reorged(s: Store, s': Store, chain: string, canonical: seq<Txn>, fromBlock: int) {
    && (forall t | t in canonical :: Delivered(s, s', t))
    && (forall id | id in s.rows && id !in Ids(canonical) :: RowReorged(s, s', chain, canonical, fromBlock, id))
    && (forall id | id in s'.rows && id !in Ids(canonical) :: id in s.rows)
  }

  /** A plan over one chain's rows is always applied, and reaches the state a reorg
      must reach. */
  lemma ReorgConverges(s: Store, chain: string, existing: seq<Txn>, canonical: seq<Txn>, fromBlock: int)
    requires ValidStore(s) && ChainView(s, chain, existing)
    requires PlanReorg(existing, canonical, fromBlock).Ok?
    ensures ApplyReorg(s, PlanReorg(existing, canonical, fromBlock).value).Ok?
    ensures Reorged(s, ApplyReorg(s, PlanReorg(existing, canonical, fromBlock).value).value.store, chain, canonical,
                    fromBlock)
  {
    hide UniqueIds, OneChain, Missing, RowReorged;
    var plan := PlanReorg(existing, canonical, fromBlock).value;
    PlanFits(s, chain, existing, canonical, fromBlock);
    var gone := MarkedRemoved(s, plan.removeIds).store;
    var s' := Upserted(gone, plan.add).store;
    MarkedKeeps(s, plan.removeIds);
    forall t | t in canonical
      ensures Delivered(s, s', t)
    {
      CanonicalDelivered(s, chain, existing, canonical, fromBlock, t);
    }
    forall id | id !in Ids(canonical)
      ensures id in s'.rows ==> id in s.rows
      ensures id in s.rows ==> RowReorged(s, s', chain, canonical, fromBlock, id)
    {
      OthersReorged(s, chain, existing, canonical, fromBlock, id);
    }
  }

  lemma PlanFits(s: Store, chain: string, existing: seq<Txn>, canonical: seq<Txn>, fromBlock: int)
    requires ChainView(s, chain, existing) && UniqueIds(canonical)
    ensures UniqueIds(Readds(existing, canonical)) && Known(s, Orphans(existing, Ids(canonical), fromBlock))
    ensures forall t :: t in Readds(existing, canonical) ==> t in canonical
  {
    ReaddsAre(existing, canonical);
    ReaddsUnique(existing, canonical);
    OrphansAre(existing, Ids(canonical), fromBlock);
    var ids := Orphans(existing, Ids(canonical), fromBlock);
    forall k | 0 <= k < |ids|
      ensures ids[k] in s.rows
    {
      assert ids[k] in ids;
    }
  }

  lemma CanonicalDelivered(s: Store, chain: string, existing: seq<Txn>, canonical: seq<Txn>, fromBlock: int, txn: Txn)
    requires ValidStore(s) && ChainView(s, chain, existing) && UniqueIds(canonical) && txn in canonical
    requires Known(s, Orphans(existing, Ids(canonical), fromBlock)) && UniqueIds(Readds(existing, canonical))
    ensures Delivered(s, Upserted(MarkedRemoved(s, Orphans(existing, Ids(canonical), fromBlock)).store,
                                  Readds(existing, canonical)).store, txn)
  {
    var removed, add := Orphans(existing, Ids(canonical), fromBlock), Readds(existing, canonical);
    var id := txn.payload.id;
    OrphansAre(existing, Ids(canonical), fromBlock);
    ReaddsAre(existing, canonical);
    ReaddsUnique(existing, canonical);
    MarkedElsewhere(s, removed, id);
    var gone := MarkedRemoved(s, removed).store;
    MarkedKeeps(s, removed);
    if txn in add {
      var k :| 0 <= k < |add| && add[k] == txn;
      UpsertedAt(gone, add, k);
    } else {
      NotReadded(canonical, add, txn);
      UpsertedElsewhere(gone, add, id);
      assert s.rows[id] in existing;
    }
  }

  lemma NotReadded(canonical: seq<Txn>, add: seq<Txn>, txn: Txn)
    requires UniqueIds(canonical) && txn in canonical && txn !in add && forall t :: t in add ==> t in canonical
    ensures forall k | 0 <= k < |add| :: add[k].payload.id != txn.payload.id
  {
    var i :| 0 <= i < |canonical| && canonical[i] == txn;
    forall k | 0 <= k < |add|
      ensures add[k].payload.id != txn.payload.id
    {
      assert add[k] in add;
      var j :| 0 <= j < |canonical| && canonical[j] == add[k];
    }
  }

  lemma OthersReorged(s: Store, chain: string, existing: seq<Txn>, canonical: seq<Txn>, fromBlock: int, id: string)
    requires ValidStore(s) && ChainView(s, chain, existing) && id !in Ids(canonical)
    requires Known(s, Orphans(existing, Ids(canonical), fromBlock))
    requires forall t :: t in Readds(existing, canonical) ==> t in canonical
    ensures var s' := Upserted(MarkedRemoved(s, Orphans(existing, Ids(canonical), fromBlock)).store,
                               Readds(existing, canonical)).store;
      && (id in s'.rows ==> id in s.rows)
      && (id in s.rows ==> RowReorged(s, s', chain, canonical, fromBlock, id))
  {
    var removed, add := Orphans(existing, Ids(canonical), fromBlock), Readds(existing, canonical);
    var gone := MarkedRemoved(s, removed).store;
    forall k | 0 <= k < |add|
      ensures add[k].payload.id != id
    {
      assert add[k] in add;
    }
    UpsertedElsewhere(gone, add, id);
    OrphansAre(existing, Ids(canonical), fromBlock);
    if id in removed {
      MarkedAt(s, removed, id);
      var e :| e in existing && e.payload.id == id && Forked(e, fromBlock);
      assert s.rows[id] == e;
    } else {
      MarkedElsewhere(s, removed, id);
      if id in s.rows && s.rows[id].payload.chainId == chain {
        assert s.rows[id] in existing;
      }
    }
  }

  /** So a row of the chain at or above the fork is live only inside the canonical view. */
  lemma OrphansAreRemoved(s: Store, s': Store, chain: string, canonical: seq<Txn>, fromBlock: int, id: string)
    requires Reorged(s, s', chain, canonical, fromBlock)
    requires id in s'.rows && id !in Ids(canonical) && s'.rows[id].payload.chainId == chain
    requires s'.rows[id].payload.blockNumber.Some? && s'.rows[id].payload.blockNumber.value >= fromBlock
    ensures s'.rows[id].removed
  {
    assert RowReorged(s, s', chain, canonical, fromBlock, id);
  }

  /** Planning and applying once more is accepted and does nothing at all. */
  lemma ReorgIsFinal(s: Store, s': Store, chain: string, existing: seq<Txn>, canonical: seq<Txn>, fromBlock: int)
    requires Reorged(s, s', chain, canonical, fromBlock) && ValidStore(s') && UniqueIds(canonical)
    requires forall t | t in canonical :: t.payload.chainId == chain
    requires ChainView(s', chain, existing)
    ensures PlanReorg(existing, canonical, fromBlock).Ok?
    ensures ApplyReorg(s', PlanReorg(existing, canonical, fromBlock).value) == Ok(Outcome(s', []))
  {
    PlanFits(s', chain, existing, canonical, fromBlock);
    var removed, add := Orphans(existing, Ids(canonical), fromBlock), Readds(existing, canonical);
    OrphansAre(existing, Ids(canonical), fromBlock);
    forall k | 0 <= k < |removed|
      ensures s'.rows[removed[k]].removed
    {
      assert removed[k] in removed;
      OrphanIsRetired(s, s', chain, existing, canonical, fromBlock, removed[k]);
    }
    MarkQuiet(s', removed);
    forall k | 0 <= k < |add|
      ensures !Stale(s', add[k])
    {
      assert add[k] in add;
      assert Delivered(s, s', add[k]);
    }
    UpsertQuietIff(s', add);
    var plan, none: seq<SyncEvent> := PlanReorg(existing, canonical, fromBlock).value, [];
    assert plan == ReorgPlan(removed, add) && none + none == none;
    assert MarkedRemoved(s', plan.removeIds) == Outcome(s', none) && Upserted(s', plan.add) == Outcome(s', none);
  }

  lemma OrphanIsRetired(s: Store, s': Store, chain: string, existing: seq<Txn>, canonical: seq<Txn>,
      fromBlock: int, id: string)
    requires Reorged(s, s', chain, canonical, fromBlock) && ChainView(s', chain, existing) && id !in Ids(canonical)
    requires exists e :: e in existing && e.payload.id == id && Forked(e, fromBlock)
    ensures id in s'.rows && s'.rows[id].removed
  {
    var e :| e in existing && e.payload.id == id && Forked(e, fromBlock);
    assert s'.rows[id] == e;
    OrphansAreRemoved(s, s', chain, canonical, fromBlock, id);
  }
}
