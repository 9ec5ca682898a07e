/** `plan_reorg` as the loops it is, against the plan it means (ledger/reorg.py). */
module ReorgPlanner {
  import opened Common
  import opened Transactions
  import opened Ledgers
  import opened Reorgs

  method RequireUniqueIds(txns: seq<Txn>) returns (ok: bool)
    ensures ok == UniqueIds(txns)
  {
    var seen: set<string> := {};
    for k := 0 to |txns|
      invariant UniqueIds(txns[..k])
      invariant forall j | 0 <= j < k :: txns[j].payload.id in seen
      invariant forall id | id in seen :: exists j :: 0 <= j < k && txns[j].payload.id == id
    {
      if txns[k].payload.id in seen {
        return false;
      }
      seen := seen + {txns[k].payload.id};
    }
    assert txns[..|txns|] == txns;
    return true;
  }

  method RequireOneChain(existing: seq<Txn>, canonical: seq<Txn>) returns (ok: bool)
    ensures ok == OneChain(existing, canonical)
  {
    var chains := Chains(existing) + Chains(canonical);
    ok := |chains| <= 1;
    var all := existing + canonical;
    forall t | t in all
      ensures t.payload.chainId in chains
    {
    }
    if ok {
      forall a, b | a in all && b in all
        ensures a.payload.chainId == b.payload.chainId
      {
        AtMostOne(chains, a.payload.chainId, b.payload.chainId);
      }
    } else {
      TwoOf(chains);
      var c, d :| c in chains && d in chains && c != d;
      var a :| a in all && a.payload.chainId == c;
      var b :| b in all && b.payload.chainId == d;
    }
  }

  lemma AtMostOne(names: set<string>, a: string, b: string)
    requires |names| <= 1 && a in names && b in names
    ensures a == b
  {
    assert |names - {a}| == 0;
  }

  lemma TwoOf(names: set<string>)
    requires |names| > 1
    ensures exists a, b :: a in names && b in names && a != b
  {
    var a :| a in names;
    assert |names - {a}| > 0;
    var b :| b in names - {a};
  }

  method Plan(existing: seq<Txn>, canonical: seq<Txn>, fromBlock: int) returns (r: Result<ReorgPlan>)
    ensures r == PlanReorg(existing, canonical, fromBlock)
  {
    var ok := RequireUniqueIds(existing);
    if !ok {
      return Err(ValidationError);
    }
    ok := RequireUniqueIds(canonical);
    if !ok {
      return Err(ValidationError);
    }
    ok := RequireOneChain(existing, canonical);
    if !ok {
      return Err(ValidationError);
    }
    var canonicalIds := Ids(canonical);
    var removeIds: seq<string> := [];
    for k := 0 to |existing|
      invariant removeIds == Orphans(existing[..k], canonicalIds, fromBlock)
    {
      assert existing[..k + 1][..k] == existing[..k];
      var txn := existing[k];
      if txn.payload.blockNumber.None? || txn.payload.blockNumber.value < fromBlock {
        continue;
      }
      if txn.payload.id in canonicalIds {
        continue;
      }
      removeIds := removeIds + [txn.payload.id];
    }
    var storedById := ById(existing);
    var add: seq<Txn> := [];
    for k := 0 to |canonical|
      invariant add == Readds(existing, canonical[..k])
    {
      assert canonical[..k + 1][..k] == canonical[..k];
      var txn := canonical[k];
      MissingById(existing, txn);
      if txn.payload.id !in storedById || storedById[txn.payload.id].removed
        || !PayloadEqual(txn, storedById[txn.payload.id]) {
        add := add + [txn];
      }
    }
    assert existing[..|existing|] == existing && canonical[..|canonical|] == canonical;
    return Ok(ReorgPlan(removeIds, add));
  }

  /** `{txn.id: txn for txn in existing}`. */
  function ById(existing: seq<Txn>): map<string, Txn> {
    if existing == [] then map[]
    else ById(existing[..|existing| - 1])[existing[|existing| - 1].payload.id := existing[|existing| - 1]]
  }

  lemma {:induction false} ByIdHas(existing: seq<Txn>, id: string)
    requires UniqueIds(existing)
    ensures forall t | t in existing && t.payload.id == id :: id in ById(existing) && ById(existing)[id] == t
    ensures id in ById(existing) ==> ById(existing)[id] in existing && ById(existing)[id].payload.id == id
  {
    if existing != [] {
      var n := |existing| - 1;
      ByIdHas(existing[..n], id);
      assert existing == existing[..n] + [existing[n]];
    }
  }

  lemma MissingById(existing: seq<Txn>, txn: Txn)
    requires UniqueIds(existing)
    ensures var id, byId := txn.payload.id, ById(existing);
      Missing(existing, txn) <==> id !in byId || byId[id].removed || !PayloadEqual(txn, byId[id])
  {
    ByIdHas(existing, txn.payload.id);
  }
}
