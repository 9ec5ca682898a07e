/** Explorer rows of one account, grouped by hash into transactions
    (decode/pipeline.py, ledger/bridge.py). */
module Decoding {
  import opened Common
  import opened Lots
  import opened Strings
  import opened Transactions
  import opened Ledgers

  /** What every explorer row carries. */
  datatype Head = Head(txHash: string, block: nat, timeStamp: nat, from: string, to: string, gasUsed: nat,
      gasPriceWei: nat)

  datatype NormalRow = NormalRow(head: Head, valueWei: nat, isError: bool)

  datatype TokenRow = TokenRow(head: Head, contract: string, valueRaw: nat, tokenDecimal: nat)

  datatype Rows = Rows(normal: seq<NormalRow>, tokens: seq<TokenRow>)

  datatype Chain = Chain(nativeCaip19: string, nativeDecimals: nat)

  datatype Account = Account(chainId: string, accountId: string, address: string, chain: Chain)

  datatype TxStatus = Confirmed | Failed

  datatype TxSubtype = Swap | Transfer | Unknown

  datatype Part = Part(direction: Direction, assetId: string, quantity: Quantity, from: string, to: string)

  datatype Fee = Fee(assetId: string, quantity: Quantity, borneBySelf: bool)

  datatype Transaction = Transaction(
    id: string, chainId: string, txHash: string, accountId: string, status: TxStatus, block: nat,
    timestampMs: nat, subtype: TxSubtype, parts: seq<Part>, fee: Fee)

  // One hash

  function NormalOf(rows: seq<NormalRow>, txHash: string): seq<NormalRow> {
    if rows == [] then []
    else
      var rest := NormalOf(rows[..|rows| - 1], txHash);
      if rows[|rows| - 1].head.txHash == txHash then rest + [rows[|rows| - 1]] else rest
  }

  function TokensOf(rows: seq<TokenRow>, txHash: string): seq<TokenRow> {
    if rows == [] then []
    else
      var rest := TokensOf(rows[..|rows| - 1], txHash);
      if rows[|rows| - 1].head.txHash == txHash then rest + [rows[|rows| - 1]] else rest
  }

  /** The rows of one hash, each kind in its own order. */
  function GroupOf(rows: Rows, txHash: string): Rows {
    Rows(NormalOf(rows.normal, txHash), TokensOf(rows.tokens, txHash))
  }

  predicate Empty(group: Rows) {
    group.normal == [] && group.tokens == []
  }

  function Heads(group: Rows): set<Head> {
    (set r | r in group.normal :: r.head) + (set r | r in group.tokens :: r.head)
  }

  /** `_any_record`: the gas row. */
  function AnyRecord(group: Rows): Head
    requires !Empty(group)
  {
    if group.normal != [] then group.normal[0].head else group.tokens[0].head
  }

  /** What `_validate` accepts of one hash's rows. */
  predicate Agrees(group: Rows, address: string) {
    && (forall a, b | a in Heads(group) && b in Heads(group) :: a.block == b.block && a.timeStamp == b.timeStamp)
    && (forall a | a in Heads(group) :: a.from == address || a.to == address)
  }

  function DirectionOf(head: Head, address: string): Direction {
    if head.from == address then (if head.to == address then Self else Out) else In
  }

  function TokenParts(account: Account, rows: seq<TokenRow>): (parts: seq<Part>)
    ensures |parts| == |rows|
  {
    if rows == [] then []
    else
      var row := rows[|rows| - 1];
      TokenParts(account, rows[..|rows| - 1]) +
      [Part(DirectionOf(row.head, account.address), account.chainId + "/erc20:" + row.contract,
            Quantity(row.valueRaw, row.tokenDecimal), row.head.from, row.head.to)]
  }

  predicate FailedGroup(group: Rows) {
    group.normal != [] && group.normal[0].isError
  }

  /** `_decode_parts`. */
  function PartsOf(account: Account, group: Rows): seq<Part> {
    if FailedGroup(group) then []
    else
      var tokens := TokenParts(account, group.tokens);
      if group.normal != [] && group.normal[0].valueWei > 0 then
        var row := group.normal[0];
        [Part(DirectionOf(row.head, account.address), account.chain.nativeCaip19,
              Quantity(row.valueWei, account.chain.nativeDecimals), row.head.from, row.head.to)] + tokens
      else tokens
  }

  function SubtypeOf(parts: seq<Part>): TxSubtype {
    if (exists p | p in parts :: p.direction == In) && (exists p | p in parts :: p.direction == Out) then Swap
    else if parts != [] then Transfer
    else Unknown
  }

  /** `transaction_id`: the digest's own preimage. */
  function TransactionId(account: Account, txHash: string): string {
    account.chainId + "|" + txHash + "|" + account.accountId
  }

  /** `_decode_one`. */
  function DecodeOne(account: Account, txHash: string, group: Rows): Transaction
    requires !Empty(group)
  {
    var gas, parts := AnyRecord(group), PartsOf(account, group);
    Transaction(TransactionId(account, txHash), account.chainId, txHash, account.accountId,
                if FailedGroup(group) then TxStatus.Failed else TxStatus.Confirmed, gas.block, gas.timeStamp * 1000,
                SubtypeOf(parts), parts,
                Fee(account.chain.nativeCaip19, Quantity(gas.gasUsed * gas.gasPriceWei, account.chain.nativeDecimals),
                    gas.from == account.address))
  }

  // The whole history

  predicate Accepted(rows: Rows, address: string) {
    forall h | h in Heads(rows) :: Agrees(GroupOf(rows, h.txHash), address)
  }

  predicate Before(t: Transaction, u: Transaction) {
    t.block < u.block || (t.block == u.block && Precedes(t.txHash, u.txHash))
  }

  ghost predicate InOrder(txs: seq<Transaction>) {
    forall i, j | 0 <= i < j < |txs| :: Before(txs[i], txs[j])
  }

  /** Some row has this hash, and this is what its rows decode to. */
  ghost predicate Decodes(account: Account, rows: Rows, t: Transaction) {
    !Empty(GroupOf(rows, t.txHash)) && t == DecodeOne(account, t.txHash, GroupOf(rows, t.txHash))
  }

  /** The decode of a history: one transaction per hash, in (block, hash) order. */
  ghost predicate IsDecode(account: Account, rows: Rows, txs: seq<Transaction>) {
    InOrder(txs) && forall t :: t in txs <==> Decodes(account, rows, t)
  }

  lemma BeforeIsOrder(t: Transaction, u: Transaction, v: Transaction)
    ensures !Before(t, t)
    ensures t.txHash != u.txHash ==> Before(t, u) || Before(u, t)
    ensures Before(t, u) && Before(u, v) ==> Before(t, v)
  {
    PrecedesIsOrder(t.txHash, u.txHash, v.txHash);
  }

  lemma {:induction false} NormalJoins(a: seq<NormalRow>, b: seq<NormalRow>, txHash: string)
    ensures NormalOf(a + b, txHash) == NormalOf(a, txHash) + NormalOf(b, txHash)
  {
    if b == [] {
      assert a + b == a;
    } else {
      assert (a + b)[..|a + b| - 1] == a + b[..|b| - 1];
      NormalJoins(a, b[..|b| - 1], txHash);
    }
  }

  lemma {:induction false} TokensJoin(a: seq<TokenRow>, b: seq<TokenRow>, txHash: string)
    ensures TokensOf(a + b, txHash) == TokensOf(a, txHash) + TokensOf(b, txHash)
  {
    if b == [] {
      assert a + b == a;
    } else {
      assert (a + b)[..|a + b| - 1] == a + b[..|b| - 1];
      TokensJoin(a, b[..|b| - 1], txHash);
    }
  }

  lemma {:induction false} NormalAre(rows: seq<NormalRow>, txHash: string)
    ensures forall r :: r in NormalOf(rows, txHash) <==> r in rows && r.head.txHash == txHash
    ensures NormalOf(rows, txHash) != [] <==> exists r :: r in rows && r.head.txHash == txHash
  {
    if rows != [] {
      NormalAre(rows[..|rows| - 1], txHash);
      assert rows == rows[..|rows| - 1] + [rows[|rows| - 1]];
    }
    if NormalOf(rows, txHash) != [] {
      assert NormalOf(rows, txHash)[0] in NormalOf(rows, txHash);
    }
  }

  lemma {:induction false} TokensAre(rows: seq<TokenRow>, txHash: string)
    ensures forall r :: r in TokensOf(rows, txHash) <==> r in rows && r.head.txHash == txHash
    ensures TokensOf(rows, txHash) != [] <==> exists r :: r in rows && r.head.txHash == txHash
  {
    if rows != [] {
      TokensAre(rows[..|rows| - 1], txHash);
      assert rows == rows[..|rows| - 1] + [rows[|rows| - 1]];
    }
    if TokensOf(rows, txHash) != [] {
      assert TokensOf(rows, txHash)[0] in TokensOf(rows, txHash);
    }
  }

  /** A hash has rows exactly when some row carries it, and they are those rows. */
  lemma GroupHas(rows: Rows, txHash: string)
    ensures !Empty(GroupOf(rows, txHash)) <==> exists h :: h in Heads(rows) && h.txHash == txHash
    ensures forall h :: h in Heads(GroupOf(rows, txHash)) <==> h in Heads(rows) && h.txHash == txHash
  {
    NormalAre(rows.normal, txHash);
    TokensAre(rows.tokens, txHash);
    var group := GroupOf(rows, txHash);
    if !Empty(group) {
      var h := AnyRecord(group);
      assert h in Heads(rows) && h.txHash == txHash;
    }
    if h :| h in Heads(rows) && h.txHash == txHash {
      assert (exists r :: r in rows.normal && r.head == h) || exists r :: r in rows.tokens && r.head == h;
    }
  }

  /** A history is accepted exactly when every row touches the account, and rows of one hash
      agree on their block and its time. */
  lemma AcceptedIff(rows: Rows, address: string)
    ensures Accepted(rows, address) <==>
      && (forall h | h in Heads(rows) :: h.from == address || h.to == address)
      && (forall a, b | a in Heads(rows) && b in Heads(rows) && a.txHash == b.txHash ::
            a.block == b.block && a.timeStamp == b.timeStamp)
  {
    hide GroupOf, Heads;
    forall h
      ensures forall g :: g in Heads(GroupOf(rows, h)) <==> g in Heads(rows) && g.txHash == h
    {
      GroupHas(rows, h);
    }
  }

  // What grouping by hash makes irrelevant

  /** The same rows for every hash: only the interleaving of different hashes differs. */
  ghost predicate Rearranged(a: Rows, b: Rows) {
    forall txHash :: GroupOf(a, txHash) == GroupOf(b, txHash)
  }

  lemma AcceptedByGroups(a: Rows, b: Rows, address: string)
    requires Rearranged(a, b) && Accepted(a, address)
    ensures Accepted(b, address)
  {
    forall h | h in Heads(b)
      ensures Agrees(GroupOf(b, h.txHash), address)
    {
      GroupHas(b, h.txHash);
      GroupHas(a, h.txHash);
      assert h in Heads(GroupOf(b, h.txHash));
    }
  }

  /** The decode does not see how different hashes were interleaved. */
  lemma OrderOfHashesIrrelevant(account: Account, a: Rows, b: Rows, txs: seq<Transaction>)
    requires Rearranged(a, b)
    ensures Accepted(a, account.address) <==> Accepted(b, account.address)
    ensures IsDecode(account, a, txs) <==> IsDecode(account, b, txs)
  {
    if Accepted(a, account.address) {
      AcceptedByGroups(a, b, account.address);
    }
    if Accepted(b, account.address) {
      AcceptedByGroups(b, a, account.address);
    }
    forall t
      ensures Decodes(account, a, t) <==> Decodes(account, b, t)
    {
    }
  }

  function Joined(a: Rows, b: Rows): Rows {
    Rows(a.normal + b.normal, a.tokens + b.tokens)
  }

  ghost predicate HashDisjoint(a: Rows, b: Rows) {
    forall h, k | h in Heads(a) && k in Heads(b) :: h.txHash != k.txHash
  }

  lemma GroupOfJoined(a: Rows, b: Rows, txHash: string)
    requires HashDisjoint(a, b)
    ensures Empty(GroupOf(b, txHash)) ==> GroupOf(Joined(a, b), txHash) == GroupOf(a, txHash)
    ensures Empty(GroupOf(a, txHash)) ==> GroupOf(Joined(a, b), txHash) == GroupOf(b, txHash)
    ensures Empty(GroupOf(a, txHash)) || Empty(GroupOf(b, txHash))
  {
    NormalJoins(a.normal, b.normal, txHash);
    TokensJoin(a.tokens, b.tokens, txHash);
    GroupHas(a, txHash);
    GroupHas(b, txHash);
  }

  /** The (block, hash)-ordered merge. */
  function Merge(a: seq<Transaction>, b: seq<Transaction>): seq<Transaction> {
    if a == [] then b
    else if b == [] then a
    else if Before(a[|a| - 1], b[|b| - 1]) then Merge(a, b[..|b| - 1]) + [b[|b| - 1]]
    else Merge(a[..|a| - 1], b) + [a[|a| - 1]]
  }

  ghost predicate Foreign(a: seq<Transaction>, b: seq<Transaction>) {
    forall t, u | t in a && u in b :: t.txHash != u.txHash
  }

  lemma {:induction false} MergeIsOrdered(a: seq<Transaction>, b: seq<Transaction>)
    requires InOrder(a) && InOrder(b) && Foreign(a, b)
    ensures InOrder(Merge(a, b)) && forall t :: t in Merge(a, b) <==> t in a || t in b
    decreases |a| + |b|
  {
    hide InOrder, Before;
    if a != [] && b != [] {
      FrontInOrder(a);
      FrontInOrder(b);
      var la, lb := a[|a| - 1], b[|b| - 1];
      BeforeIsOrder(la, lb, lb);
      if Before(la, lb) {
        MergeIsOrdered(a, b[..|b| - 1]);
        forall t | t in Merge(a, b[..|b| - 1])
          ensures Before(t, lb)
        {
          BeforeIsOrder(t, la, lb);
        }
        LastInOrder(Merge(a, b[..|b| - 1]), lb);
      } else {
        MergeIsOrdered(a[..|a| - 1], b);
        forall t | t in Merge(a[..|a| - 1], b)
          ensures Before(t, la)
        {
          BeforeIsOrder(t, lb, la);
        }
        LastInOrder(Merge(a[..|a| - 1], b), la);
      }
    }
  }

  lemma FrontInOrder(txs: seq<Transaction>)
    requires InOrder(txs) && txs != []
    ensures var front, last := txs[..|txs| - 1], txs[|txs| - 1];
      InOrder(front) && txs == front + [last] && last in txs && forall t | t in front :: t in txs && Before(t, last)
  {
  }

  lemma LastInOrder(txs: seq<Transaction>, last: Transaction)
    requires InOrder(txs) && forall t | t in txs :: Before(t, last)
    ensures InOrder(txs + [last])
  {
  }

  /** Decoding a concatenation of histories with no hash in common is merging their
      decodes, and it is accepted exactly when both are. */
  lemma PagesDecodeAlike(account: Account, a: Rows, b: Rows, ta: seq<Transaction>, tb: seq<Transaction>)
    requires HashDisjoint(a, b) && IsDecode(account, a, ta) && IsDecode(account, b, tb)
    ensures IsDecode(account, Joined(a, b), Merge(ta, tb)) && Foreign(ta, tb)
  {
    hide InOrder, DecodeOne, GroupOf;
    forall t, u | t in ta && u in tb
      ensures t.txHash != u.txHash
    {
      assert Decodes(account, a, t) && Decodes(account, b, u);
      GroupOfJoined(a, b, t.txHash);
    }
    MergeIsOrdered(ta, tb);
    forall t
      ensures t in Merge(ta, tb) <==> Decodes(account, Joined(a, b), t)
    {
      GroupOfJoined(a, b, t.txHash);
      assert t in ta <==> Decodes(account, a, t);
      assert t in tb <==> Decodes(account, b, t);
    }
  }

  lemma PagesAcceptedAlike(a: Rows, b: Rows, address: string)
    requires HashDisjoint(a, b)
    ensures Accepted(Joined(a, b), address) <==> Accepted(a, address) && Accepted(b, address)
  {
    forall h
      ensures h in Heads(Joined(a, b)) <==> h in Heads(a) || h in Heads(b)
      ensures h in Heads(a) ==> GroupOf(Joined(a, b), h.txHash) == GroupOf(a, h.txHash)
      ensures h in Heads(b) ==> GroupOf(Joined(a, b), h.txHash) == GroupOf(b, h.txHash)
    {
      GroupOfJoined(a, b, h.txHash);
      GroupHas(a, h.txHash);
      GroupHas(b, h.txHash);
    }
  }

  /** A history has one decode, with one transaction for each hash. */
  lemma DecodeIsUnique(account: Account, rows: Rows, a: seq<Transaction>, b: seq<Transaction>)
    requires IsDecode(account, rows, a) && IsDecode(account, rows, b)
    ensures a == b
    ensures forall i, j | 0 <= i < j < |a| :: a[i].txHash != a[j].txHash
    ensures forall i, j | 0 <= i < j < |a| ::
      a[i].block < a[j].block || (a[i].block == a[j].block && Precedes(a[i].txHash, a[j].txHash))
    ensures forall h | h in Heads(rows) :: exists t :: t in a && t.txHash == h.txHash
  {
    hide DecodeOne;
    SameOrder(a, b);
    forall i, j | 0 <= i < j < |a|
      ensures a[i].txHash != a[j].txHash
    {
      assert a[i] in a && a[j] in a;
      assert Decodes(account, rows, a[i]) && Decodes(account, rows, a[j]);
      BeforeIsOrder(a[i], a[j], a[j]);
    }
    forall h | h in Heads(rows)
      ensures exists t :: t in a && t.txHash == h.txHash
    {
      GroupHas(rows, h.txHash);
      var t := DecodeOne(account, h.txHash, GroupOf(rows, h.txHash));
      UnderItsHash(account, h.txHash, GroupOf(rows, h.txHash));
      assert Decodes(account, rows, t);
    }
  }

  lemma UnderItsHash(account: Account, txHash: string, group: Rows)
    requires !Empty(group)
    ensures DecodeOne(account, txHash, group).txHash == txHash
    ensures DecodeOne(account, txHash, group).id == TransactionId(account, txHash)
  {
  }

  lemma {:induction false} SameOrder(a: seq<Transaction>, b: seq<Transaction>)
    requires InOrder(a) && InOrder(b) && forall t :: t in a <==> t in b
    ensures a == b
  {
    hide InOrder, Before;
    if a != [] {
      assert a[0] in b;
    }
    if b != [] {
      assert b[0] in a;
      FrontInOrder(a);
      FrontInOrder(b);
      var la, lb := a[|a| - 1], b[|b| - 1];
      BeforeIsOrder(la, lb, la);
      var a', b' := a[..|a| - 1], b[..|b| - 1];
      forall t
        ensures t in a' <==> t in b'
      {
        assert t in a <==> t in b;
        BeforeIsOrder(t, la, lb);
      }
      SameOrder(a', b');
    }
  }

  // The pipeline

  /** `_group_by_hash` so far. */
  ghost predicate Grouped(groups: map<string, Rows>, rows: Rows) {
    && (forall txHash :: txHash in groups <==> !Empty(GroupOf(rows, txHash)))
    && (forall txHash | txHash in groups :: groups[txHash] == GroupOf(rows, txHash))
  }

  function At(groups: map<string, Rows>, txHash: string): Rows {
    if txHash in groups then groups[txHash] else Rows([], [])
  }

  lemma GroupsNormal(groups: map<string, Rows>, rows: Rows, row: NormalRow)
    requires Grouped(groups, rows)
    ensures var was := At(groups, row.head.txHash);
      Grouped(groups[row.head.txHash := Rows(was.normal + [row], was.tokens)], Rows(rows.normal + [row], rows.tokens))
  {
    assert (rows.normal + [row])[..|rows.normal|] == rows.normal;
    var was := At(groups, row.head.txHash);
    assert was == GroupOf(rows, row.head.txHash);
    var rows' := Rows(rows.normal + [row], rows.tokens);
    forall txHash
      ensures GroupOf(rows', txHash) == if txHash == row.head.txHash then Rows(was.normal + [row], was.tokens)
        else GroupOf(rows, txHash)
    {
    }
  }

  lemma GroupsToken(groups: map<string, Rows>, rows: Rows, row: TokenRow)
    requires Grouped(groups, rows)
    ensures var was := At(groups, row.head.txHash);
      Grouped(groups[row.head.txHash := Rows(was.normal, was.tokens + [row])], Rows(rows.normal, rows.tokens + [row]))
  {
    assert (rows.tokens + [row])[..|rows.tokens|] == rows.tokens;
    var was := At(groups, row.head.txHash);
    assert was == GroupOf(rows, row.head.txHash);
    var rows' := Rows(rows.normal, rows.tokens + [row]);
    forall txHash
      ensures GroupOf(rows', txHash) == if txHash == row.head.txHash then Rows(was.normal, was.tokens + [row])
        else GroupOf(rows, txHash)
    {
    }
  }

  method GroupByHash(rows: Rows) returns (groups: map<string, Rows>)
    ensures Grouped(groups, rows)
  {
    hide Grouped;
    groups := map[];
    NothingGrouped();
    for k := 0 to |rows.normal|
      invariant Grouped(groups, Rows(rows.normal[..k], []))
    {
      var row := rows.normal[k];
      GroupsNormal(groups, Rows(rows.normal[..k], []), row);
      assert rows.normal[..k + 1] == rows.normal[..k] + [row];
      var group := At(groups, row.head.txHash);
      groups := groups[row.head.txHash := Rows(group.normal + [row], group.tokens)];
    }
    assert rows.normal[..|rows.normal|] == rows.normal;
    for k := 0 to |rows.tokens|
      invariant Grouped(groups, Rows(rows.normal, rows.tokens[..k]))
    {
      var row := rows.tokens[k];
      GroupsToken(groups, Rows(rows.normal, rows.tokens[..k]), row);
      assert rows.tokens[..k + 1] == rows.tokens[..k] + [row];
      var group := At(groups, row.head.txHash);
      groups := groups[row.head.txHash := Rows(group.normal, group.tokens + [row])];
    }
    assert rows.tokens[..|rows.tokens|] == rows.tokens;
  }

  lemma NothingGrouped()
    ensures Grouped(map[], Rows([], []))
  {
  }

  lemma AcceptedGroups(groups: map<string, Rows>, rows: Rows, address: string)
    requires Grouped(groups, rows)
    ensures Accepted(rows, address) <==> forall txHash | txHash in groups :: Agrees(groups[txHash], address)
  {
    forall txHash | txHash in groups
      ensures exists h :: h in Heads(rows) && h.txHash == txHash
    {
      GroupHas(rows, txHash);
    }
    forall h | h in Heads(rows)
      ensures h.txHash in groups
    {
      GroupHas(rows, h.txHash);
    }
  }

  function Place(txs: seq<Transaction>, t: Transaction): seq<Transaction> {
    if txs == [] || Before(txs[|txs| - 1], t) then txs + [t]
    else Place(txs[..|txs| - 1], t) + [txs[|txs| - 1]]
  }

  lemma {:induction false} PlacedInOrder(txs: seq<Transaction>, t: Transaction)
    requires InOrder(txs) && forall u | u in txs :: u.txHash != t.txHash
    ensures InOrder(Place(txs, t)) && forall u :: u in Place(txs, t) <==> u in txs || u == t
  {
    hide InOrder, Before;
    if txs == [] {
      LastInOrder([], t);
    } else {
      var n := |txs| - 1;
      FrontInOrder(txs);
      BeforeIsOrder(txs[n], t, t);
      forall u | u in txs
        ensures Before(u, txs[n]) && Before(txs[n], t) ==> Before(u, t)
      {
        BeforeIsOrder(u, txs[n], t);
      }
      if Before(txs[n], t) {
        LastInOrder(txs, t);
      } else {
        PlacedInOrder(txs[..n], t);
        LastInOrder(Place(txs[..n], t), txs[n]);
      }
    }
  }

  /** `decode_account`.  It refuses an unknown chain and any history with a hash whose
      rows disagree or miss the account, before any output; otherwise the output is
      the decode. */
  method DecodeAccount(registry: map<string, Chain>, chainId: string, accountId: string, address: string, rows: Rows)
    returns (r: Result<seq<Transaction>>)
    ensures chainId !in registry ==> r == Err(UnknownChainError)
    ensures chainId in registry && !Accepted(rows, address) ==> r == Err(DecodeError)
    ensures chainId in registry && Accepted(rows, address) ==>
      r.Ok? && IsDecode(Account(chainId, accountId, address, registry[chainId]), rows, r.value)
  {
    hide Accepted, Agrees, DecodeOne, InOrder, GroupOf;
    if chainId !in registry {
      return Err(UnknownChainError);
    }
    var account := Account(chainId, accountId, address, registry[chainId]);
    var groups := GroupByHash(rows);
    AcceptedGroups(groups, rows, address);
    if exists txHash | txHash in groups :: !Agrees(groups[txHash], address) {
      return Err(DecodeError);
    }
    var txs: seq<Transaction> := [];
    var left := groups.Keys;
    LastlyInOrder();
    while left != {}
      invariant left <= groups.Keys && InOrder(txs)
      invariant forall t :: t in txs <==> Decodes(account, rows, t) && t.txHash !in left
      decreases left
    {
      var txHash :| txHash in left;
      left := left - {txHash};
      var t := DecodeOne(account, txHash, groups[txHash]);
      UnderItsHash(account, txHash, groups[txHash]);
      PlacedInOrder(txs, t);
      txs := Place(txs, t);
    }
    return Ok(txs);
  }

  lemma LastlyInOrder()
    ensures InOrder([])
  {
  }

  // Into the ledger

  /** `to_ledger_transaction`: fees never become entries. */
  function ToLedger(t: Transaction): Txn {
    Txn(Payload(t.id, t.chainId, t.txHash, t.accountId, Some(t.block), t.timestampMs, Some(t.timestampMs),
                EntriesOf(t.parts)), false, 0)
  }

  function EntriesOf(parts: seq<Part>): (entries: seq<Entry>)
    ensures |entries| == |parts|
    ensures forall k | 0 <= k < |parts| :: entries[k] == Entry(parts[k].assetId, parts[k].quantity, parts[k].direction)
  {
    if parts == [] then []
    else
      var last := parts[|parts| - 1];
      EntriesOf(parts[..|parts| - 1]) + [Entry(last.assetId, last.quantity, last.direction)]
  }

  function AllToLedger(txs: seq<Transaction>): (rows: seq<Txn>)
    ensures |rows| == |txs| && forall k | 0 <= k < |txs| :: rows[k] == ToLedger(txs[k])
  {
    if txs == [] then [] else AllToLedger(txs[..|txs| - 1]) + [ToLedger(txs[|txs| - 1])]
  }

  lemma TokensMove(account: Account, rows: seq<TokenRow>)
    ensures TokenParts(account, rows) == [] <==> rows == []
  {
  }

  /** What a decoded hash brings to the ledger: no entry at all exactly when its normal row
      failed, whatever its tokens, or when nothing moved; and never one for the fee, which a
      failed hash still owes. */
  lemma MovesNothingIff(account: Account, rows: Rows, t: Transaction)
    requires Decodes(account, rows, t)
    ensures var group := GroupOf(rows, t.txHash);
      && (ToLedger(t).payload.entries == [] <==>
            FailedGroup(group) || (group.tokens == [] && (group.normal == [] || group.normal[0].valueWei == 0)))
      && t.fee.quantity.raw == AnyRecord(group).gasUsed * AnyRecord(group).gasPriceWei
      && (t.status == TxStatus.Failed <==> FailedGroup(group))
  {
    hide GroupOf, SubtypeOf, TokenParts;
    TokensMove(account, GroupOf(rows, t.txHash).tokens);
  }

  /** The same row but for the number of the write that stored it. */
  predicate SameLive(a: Store, b: Store, id: string) {
    && (id in a.rows <==> id in b.rows)
    && (id in a.rows ==> a.rows[id].payload == b.rows[id].payload && a.rows[id].removed == b.rows[id].removed)
  }

  /** Upserting batch after batch. */
  function UpsertPages(s: Store, pages: seq<seq<Txn>>): Store {
    if pages == [] then s else Upserted(UpsertPages(s, pages[..|pages| - 1]), pages[|pages| - 1]).store
  }

  /** Batches without an id in common, within or across. */
  ghost predicate Apart(pages: seq<seq<Txn>>) {
    && (forall p | 0 <= p < |pages| :: UniqueIds(pages[p]))
    && (forall p, q, t, u | 0 <= p < q < |pages| && t in pages[p] && u in pages[q] :: t.payload.id != u.payload.id)
  }

  lemma {:induction false} PagesElsewhere(s: Store, pages: seq<seq<Txn>>, id: string)
    requires forall p, t | 0 <= p < |pages| && t in pages[p] :: t.payload.id != id
    ensures SameAt(s, UpsertPages(s, pages), id)
  {
    if pages != [] {
      var n := |pages| - 1;
      PagesElsewhere(s, pages[..n], id);
      NotAmong(pages[n], id);
      UpsertedElsewhere(UpsertPages(s, pages[..n]), pages[n], id);
    }
  }

  lemma {:induction false} PagesKeepValid(s: Store, pages: seq<seq<Txn>>)
    requires ValidStore(s)
    ensures ValidStore(UpsertPages(s, pages))
  {
    if pages != [] {
      PagesKeepValid(s, pages[..|pages| - 1]);
      UpsertedKeeps(UpsertPages(s, pages[..|pages| - 1]), pages[|pages| - 1]);
    }
  }

  lemma {:induction false} PageBrings(s: Store, pages: seq<seq<Txn>>, p: nat, t: Txn)
    requires ValidStore(s) && Apart(pages) && p < |pages| && t in pages[p]
    ensures LiveIn(UpsertPages(s, pages), t)
  {
    hide ValidStore, Stale;
    var n := |pages| - 1;
    PagesKeepValid(s, pages[..n]);
    if p < n {
      PageBrings(s, pages[..n], p, t);
      NotAmong(pages[n], t.payload.id);
      UpsertedElsewhere(UpsertPages(s, pages[..n]), pages[n], t.payload.id);
    } else {
      var k :| 0 <= k < |pages[n]| && pages[n][k] == t;
      UpsertedAt(UpsertPages(s, pages[..n]), pages[n], k);
    }
  }

  /** Upserting page by page leaves the live ledger one upsert of the whole leaves. */
  lemma PagedUpsert(s: Store, pages: seq<seq<Txn>>, full: seq<Txn>, id: string)
    requires ValidStore(s) && Apart(pages) && UniqueIds(full)
    requires forall t :: t in full <==> exists p :: 0 <= p < |pages| && t in pages[p]
    ensures SameLive(UpsertPages(s, pages), Upserted(s, full).store, id)
  {
    hide ValidStore, Apart;
    if t :| t in full && t.payload.id == id {
      var k :| 0 <= k < |full| && full[k] == t;
      UpsertedAt(s, full, k);
      var p :| 0 <= p < |pages| && t in pages[p];
      PageBrings(s, pages, p, t);
    } else {
      forall k | 0 <= k < |full|
        ensures full[k].payload.id != id
      {
        assert full[k] in full;
      }
      UpsertedElsewhere(s, full, id);
      PagesElsewhere(s, pages, id);
    }
  }

  lemma NotAmong(txns: seq<Txn>, id: string)
    requires forall t | t in txns :: t.payload.id != id
    ensures forall k | 0 <= k < |txns| :: txns[k].payload.id != id
  {
  }

  function Concat(pages: seq<Rows>): Rows {
    if pages == [] then Rows([], []) else Joined(Concat(pages[..|pages| - 1]), pages[|pages| - 1])
  }

  /** No hash is split over two pages. */
  ghost predicate NoSplitHash(pages: seq<Rows>) {
    forall p, q | 0 <= p < q < |pages| :: HashDisjoint(pages[p], pages[q])
  }

  lemma {:induction false} ConcatHeads(pages: seq<Rows>)
    ensures forall h :: h in Heads(Concat(pages)) <==> exists p :: 0 <= p < |pages| && h in Heads(pages[p])
  {
    if pages != [] {
      var n := |pages| - 1;
      ConcatHeads(pages[..n]);
      JoinedHeads(Concat(pages[..n]), pages[n]);
    }
  }

  lemma JoinedHeads(a: Rows, b: Rows)
    ensures Heads(Joined(a, b)) == Heads(a) + Heads(b)
  {
  }

  lemma {:induction false} ConcatDecodes(account: Account, pages: seq<Rows>, t: Transaction)
    requires NoSplitHash(pages)
    ensures Decodes(account, Concat(pages), t) <==> exists p :: 0 <= p < |pages| && Decodes(account, pages[p], t)
  {
    hide Decodes;
    if pages == [] {
      NothingDecodes(account, t);
    } else {
      var n := |pages| - 1;
      ConcatDecodes(account, pages[..n], t);
      ConcatHeads(pages[..n]);
      JoinedDecodes(account, Concat(pages[..n]), pages[n], t);
    }
  }

  lemma NothingDecodes(account: Account, t: Transaction)
    ensures !Decodes(account, Rows([], []), t)
  {
  }

  lemma JoinedDecodes(account: Account, a: Rows, b: Rows, t: Transaction)
    requires HashDisjoint(a, b)
    ensures Decodes(account, Joined(a, b), t) <==> Decodes(account, a, t) || Decodes(account, b, t)
  {
    hide DecodeOne;
    GroupOfJoined(a, b, t.txHash);
  }

  lemma IdsApart(account: Account, h: string, k: string)
    ensures TransactionId(account, h) == TransactionId(account, k) ==> h == k
  {
    var a, b := TransactionId(account, h), TransactionId(account, k);
    var n := |account.chainId| + 1;
    if a == b {
      assert a[n..n + |h|] == h;
      assert |a| == |b|;
      assert b[n..n + |k|] == k;
    }
  }

  /** A decode's ledger rows have distinct ids. */
  lemma DecodedIdsUnique(account: Account, rows: Rows, txs: seq<Transaction>)
    requires IsDecode(account, rows, txs)
    ensures UniqueIds(AllToLedger(txs))
  {
    hide DecodeOne, GroupOf;
    DecodeIsUnique(account, rows, txs, txs);
    forall i, j | 0 <= i < j < |txs|
      ensures txs[i].id != txs[j].id
    {
      assert txs[i] in txs && txs[j] in txs;
      DecodedId(account, rows, txs[i]);
      DecodedId(account, rows, txs[j]);
      IdsApart(account, txs[i].txHash, txs[j].txHash);
    }
  }

  lemma DecodedId(account: Account, rows: Rows, t: Transaction)
    requires Decodes(account, rows, t)
    ensures t.id == TransactionId(account, t.txHash)
  {
  }

  /** Decoding and ingesting a history page by page, no hash split over two pages,
      leaves the live ledger that ingesting its whole decode leaves. */
  lemma PagedIngestionAgrees(account: Account, s: Store, pages: seq<Rows>, decoded: seq<seq<Transaction>>,
                             full: seq<Transaction>, id: string)
    requires ValidStore(s) && NoSplitHash(pages) && |decoded| == |pages|
    requires forall p | 0 <= p < |pages| :: IsDecode(account, pages[p], decoded[p])
    requires IsDecode(account, Concat(pages), full)
    ensures SameLive(UpsertPages(s, seq(|decoded|, p requires 0 <= p < |decoded| => AllToLedger(decoded[p]))),
                     Upserted(s, AllToLedger(full)).store, id)
  {
    hide ValidStore, IsDecode, NoSplitHash, SameLive, Upserted, Apart, AllToLedger;
    var batches := seq(|decoded|, p requires 0 <= p < |decoded| => AllToLedger(decoded[p]));
    BatchesApart(account, pages, decoded, batches);
    DecodedIdsUnique(account, Concat(pages), full);
    forall t
      ensures t in AllToLedger(full) <==> exists p :: 0 <= p < |batches| && t in batches[p]
    {
      BatchesCover(account, pages, decoded, full, batches, t);
    }
    PagedUpsert(s, batches, AllToLedger(full), id);
  }

  lemma BatchesApart(account: Account, pages: seq<Rows>, decoded: seq<seq<Transaction>>, batches: seq<seq<Txn>>)
    requires NoSplitHash(pages) && |batches| == |decoded| == |pages|
    requires forall p | 0 <= p < |pages| :: IsDecode(account, pages[p], decoded[p])
    requires forall p | 0 <= p < |pages| :: batches[p] == AllToLedger(decoded[p])
    ensures Apart(batches)
  {
    hide IsDecode, UniqueIds, NoSplitHash;
    forall p | 0 <= p < |batches|
      ensures UniqueIds(batches[p])
    {
      DecodedIdsUnique(account, pages[p], decoded[p]);
    }
    forall p, q, t, u | 0 <= p < q < |batches| && t in batches[p] && u in batches[q]
      ensures t.payload.id != u.payload.id
    {
      PagesSplit(pages, p, q);
      TwoBatches(account, pages[p], pages[q], decoded[p], decoded[q], t, u);
    }
  }

  lemma PagesSplit(pages: seq<Rows>, p: nat, q: nat)
    requires NoSplitHash(pages) && p < q < |pages|
    ensures HashDisjoint(pages[p], pages[q])
  {
  }

  lemma TwoBatches(account: Account, a: Rows, b: Rows, ta: seq<Transaction>, tb: seq<Transaction>, t: Txn, u: Txn)
    requires HashDisjoint(a, b) && IsDecode(account, a, ta) && IsDecode(account, b, tb)
    requires t in AllToLedger(ta) && u in AllToLedger(tb)
    ensures t.payload.id != u.payload.id
  {
    hide InOrder, DecodeOne, GroupOf;
    var i :| 0 <= i < |ta| && AllToLedger(ta)[i] == t;
    var j :| 0 <= j < |tb| && AllToLedger(tb)[j] == u;
    assert ta[i] in ta && tb[j] in tb;
    PagesDecodeAlike(account, a, b, ta, tb);
    DecodedId(account, a, ta[i]);
    DecodedId(account, b, tb[j]);
    IdsApart(account, ta[i].txHash, tb[j].txHash);
  }

  lemma BatchesCover(account: Account, pages: seq<Rows>, decoded: seq<seq<Transaction>>, full: seq<Transaction>,
                     batches: seq<seq<Txn>>, t: Txn)
    requires NoSplitHash(pages) && |batches| == |decoded| == |pages|
    requires forall p | 0 <= p < |pages| :: IsDecode(account, pages[p], decoded[p])
    requires forall p | 0 <= p < |pages| :: batches[p] == AllToLedger(decoded[p])
    requires IsDecode(account, Concat(pages), full)
    ensures t in AllToLedger(full) <==> exists p :: 0 <= p < |batches| && t in batches[p]
  {
    hide InOrder, Decodes, NoSplitHash, ToLedger;
    if k :| 0 <= k < |full| && AllToLedger(full)[k] == t {
      assert full[k] in full;
      ConcatDecodes(account, pages, full[k]);
      var p :| 0 <= p < |pages| && Decodes(account, pages[p], full[k]);
      assert full[k] in decoded[p];
      var j :| 0 <= j < |decoded[p]| && decoded[p][j] == full[k];
      assert batches[p][j] == t;
    }
    if p :| 0 <= p < |batches| && t in batches[p] {
      var j :| 0 <= j < |batches[p]| && batches[p][j] == t;
      assert decoded[p][j] in decoded[p];
      ConcatDecodes(account, pages, decoded[p][j]);
      assert decoded[p][j] in full;
      var k :| 0 <= k < |full| && full[k] == decoded[p][j];
      assert AllToLedger(full)[k] == t;
    }
  }
}
