/** What a decoded transaction moves, in terms of the explorer's rows
    (decode/pipeline.py, ledger/bridge.py). */
module Movements {
  import opened Common
  import opened Lots
  import opened Transactions
  import opened Decoding

  /** Units received less units sent, an own transfer cancelling out. */
  function Net(raw: nat, from: string, to: string, address: string): int {
    (if to == address then raw else 0) - (if from == address then raw else 0)
  }

  /** What the token rows of one hash moved of one asset. */
  function TokensNet(rows: seq<TokenRow>, txHash: string, account: Account, assetId: string): int {
    if rows == [] then 0
    else
      var row := rows[|rows| - 1];
      TokensNet(rows[..|rows| - 1], txHash, account, assetId)
      + (if row.head.txHash == txHash && account.chainId + "/erc20:" + row.contract == assetId
         then Net(row.valueRaw, row.head.from, row.head.to, account.address) else 0)
  }

  /** What ledger entries move of one asset: in less out. */
  function EntriesNet(entries: seq<Entry>, assetId: string): int {
    if entries == [] then 0
    else
      var e := entries[|entries| - 1];
      EntriesNet(entries[..|entries| - 1], assetId)
      + (if e.assetId != assetId then 0
         else match e.direction case In => e.quantity.raw case Out => -e.quantity.raw case Self => 0)
  }

  lemma {:induction false} EntriesJoin(a: seq<Entry>, b: seq<Entry>, assetId: string)
    ensures EntriesNet(a + b, assetId) == EntriesNet(a, assetId) + EntriesNet(b, assetId)
  {
    if b == [] {
      assert a + b == a;
    } else {
      assert (a + b)[..|a + b| - 1] == a + b[..|b| - 1];
      EntriesJoin(a, b[..|b| - 1], assetId);
    }
  }

  lemma OneEntry(e: Entry, assetId: string)
    ensures EntriesNet([e], assetId)
         == if e.assetId != assetId then 0
            else match e.direction case In => e.quantity.raw case Out => -e.quantity.raw case Self => 0
  {
    assert [e][..0] == [];
    assert EntriesNet([], assetId) == 0;
  }

  lemma OneMoreEntry(entries: seq<Entry>, e: Entry, assetId: string)
    ensures EntriesNet(entries + [e], assetId) == EntriesNet(entries, assetId) + EntriesNet([e], assetId)
  {
    EntriesJoin(entries, [e], assetId);
  }

  /** One token row's entry. */
  lemma TokenEntry(account: Account, rest: seq<TokenRow>, row: TokenRow, assetId: string)
    requires row.head.from == account.address || row.head.to == account.address
    ensures EntriesNet(EntriesOf(TokenParts(account, rest + [row])), assetId)
         == EntriesNet(EntriesOf(TokenParts(account, rest)), assetId)
            + (if account.chainId + "/erc20:" + row.contract == assetId
               then Net(row.valueRaw, row.head.from, row.head.to, account.address) else 0)
  {
    assert (rest + [row])[..|rest|] == rest;
    var (before, after) := (TokenParts(account, rest), TokenParts(account, rest + [row]));
    var last := after[|rest|];
    assert after == before + [last] && after[..|rest|] == before;
    var e := Entry(last.assetId, last.quantity, last.direction);
    assert EntriesOf(after) == EntriesOf(before) + [e];
    OneMoreEntry(EntriesOf(before), e, assetId);
    OneEntry(e, assetId);
  }

  lemma {:induction false} TokenEntriesNet(account: Account, rows: seq<TokenRow>, txHash: string, assetId: string)
    requires forall r | r in rows && r.head.txHash == txHash ::
      r.head.from == account.address || r.head.to == account.address
    ensures EntriesNet(EntriesOf(TokenParts(account, TokensOf(rows, txHash))), assetId)
         == TokensNet(rows, txHash, account, assetId)
  {
    hide TokenParts, EntriesOf, Net;
    if rows == [] {
      NoTokens(account, assetId);
    } else {
      var (n, row) := (|rows| - 1, rows[|rows| - 1]);
      assert rows == rows[..n] + [row];
      TokenEntriesNet(account, rows[..n], txHash, assetId);
      if row.head.txHash == txHash {
        TokenEntry(account, TokensOf(rows[..n], txHash), row, assetId);
      }
    }
  }

  lemma NoTokens(account: Account, assetId: string)
    ensures EntriesNet(EntriesOf(TokenParts(account, [])), assetId) == 0
  {
  }

  // ------------------------------------------------------ one transaction

  /** The first normal row of a hash, and its first token row. */
  function FirstNormal(rows: seq<NormalRow>, txHash: string): Option<NormalRow> {
    if rows == [] then None else if rows[0].head.txHash == txHash then Some(rows[0]) else FirstNormal(rows[1..], txHash)
  }

  function FirstToken(rows: seq<TokenRow>, txHash: string): Option<TokenRow> {
    if rows == [] then None else if rows[0].head.txHash == txHash then Some(rows[0]) else FirstToken(rows[1..], txHash)
  }

  lemma {:induction false} FirstOfGroup(rows: seq<NormalRow>, txHash: string)
    ensures FirstNormal(rows, txHash) == if NormalOf(rows, txHash) == [] then None else Some(NormalOf(rows, txHash)[0])
  {
    if rows != [] {
      assert rows == [rows[0]] + rows[1..];
      NormalJoins([rows[0]], rows[1..], txHash);
      assert [rows[0]][..0] == [];
      FirstOfGroup(rows[1..], txHash);
    }
  }

  lemma {:induction false} FirstTokenOfGroup(rows: seq<TokenRow>, txHash: string)
    ensures FirstToken(rows, txHash) == if TokensOf(rows, txHash) == [] then None else Some(TokensOf(rows, txHash)[0])
  {
    if rows != [] {
      assert rows == [rows[0]] + rows[1..];
      TokensJoin([rows[0]], rows[1..], txHash);
      assert [rows[0]][..0] == [];
      FirstTokenOfGroup(rows[1..], txHash);
    }
  }

  /** What the first normal row moved of one asset. */
  function NativeNet(first: Option<NormalRow>, account: Account, assetId: string): int {
    if first.None? || assetId != account.chain.nativeCaip19 then 0
    else Net(first.value.valueWei, first.value.head.from, first.value.head.to, account.address)
  }

  lemma AcceptedTouch(rows: Rows, address: string, txHash: string)
    requires Accepted(rows, address)
    ensures forall r | r in rows.normal && r.head.txHash == txHash :: r.head.from == address || r.head.to == address
    ensures forall r | r in rows.tokens && r.head.txHash == txHash :: r.head.from == address || r.head.to == address
  {
    hide GroupOf;
    forall h | h in Heads(rows) && h.txHash == txHash
      ensures h.from == address || h.to == address
    {
      GroupHas(rows, txHash);
      assert Agrees(GroupOf(rows, h.txHash), address);
    }
    assert forall r | r in rows.normal :: r.head in Heads(rows);
    assert forall r | r in rows.tokens :: r.head in Heads(rows);
  }

  /** The native part's entry, when there is one. */
  lemma NativeEntry(account: Account, group: Rows, assetId: string)
    requires group.normal != [] && !group.normal[0].isError
    requires group.normal[0].head.from == account.address || group.normal[0].head.to == account.address
    ensures EntriesNet(EntriesOf(PartsOf(account, group)), assetId)
         == NativeNet(Some(group.normal[0]), account, assetId)
            + EntriesNet(EntriesOf(TokenParts(account, group.tokens)), assetId)
  {
    hide TokenParts, EntriesNet, EntriesOf;
    var (tokens, parts, row) := (TokenParts(account, group.tokens), PartsOf(account, group), group.normal[0]);
    if row.valueWei > 0 {
      var e := Entry(parts[0].assetId, parts[0].quantity, parts[0].direction);
      assert parts == [parts[0]] + tokens;
      assert EntriesOf(parts) == [e] + EntriesOf(tokens);
      EntriesJoin([e], EntriesOf(tokens), assetId);
      OneEntry(e, assetId);
    }
  }

  /** Of every asset, the entries a decoded hash brings to the ledger move in less out exactly
      what its rows received less what they sent: nothing at all when its first normal row
      failed, and otherwise that row's value and every token row. */
  lemma EntriesMoveWhatRowsMoved(account: Account, rows: Rows, t: Transaction, assetId: string)
    requires Accepted(rows, account.address) && Decodes(account, rows, t)
    ensures var (first, moved) := (FirstNormal(rows.normal, t.txHash),
                                   EntriesNet(ToLedger(t).payload.entries, assetId));
      if first.Some? && first.value.isError then moved == 0 && ToLedger(t).payload.entries == []
      else moved == NativeNet(first, account, assetId) + TokensNet(rows.tokens, t.txHash, account, assetId)
  {
    hide TokenParts, SubtypeOf, NormalOf, TokensOf;
    var group := GroupOf(rows, t.txHash);
    FirstOfGroup(rows.normal, t.txHash);
    AcceptedTouch(rows, account.address, t.txHash);
    if !FailedGroup(group) {
      TokenEntriesNet(account, rows.tokens, t.txHash, assetId);
      if group.normal != [] {
        NormalAre(rows.normal, t.txHash);
        assert group.normal[0] in group.normal;
        NativeEntry(account, group, assetId);
      }
    }
  }

  /** Which way a part goes: to itself exactly when the account is both ends, out exactly when
      it is the sender alone. */
  ghost predicate GoesAsItSays(p: Part, address: string) {
    && (p.direction == Self <==> p.from == address && p.to == address)
    && (p.direction == Out <==> p.from == address && p.to != address)
    && (p.direction == In <==> p.from != address)
  }

  lemma {:induction false} TokenPartsAre(account: Account, rows: seq<TokenRow>)
    ensures forall k | 0 <= k < |rows| ::
      var (p, row) := (TokenParts(account, rows)[k], rows[k]);
      && GoesAsItSays(p, account.address) && p.from == row.head.from && p.to == row.head.to
      && p.assetId == account.chainId + "/erc20:" + row.contract
      && p.quantity == Quantity(row.valueRaw, row.tokenDecimal)
  {
    if rows != [] {
      TokenPartsAre(account, rows[..|rows| - 1]);
    }
  }

  /** The parts of a decoded hash: one for its first normal row when that moved something, one
      for each token row in order, none at all when the first normal row failed. */
  lemma PartsAreRows(account: Account, rows: Rows, t: Transaction)
    requires Decodes(account, rows, t)
    ensures var (first, tokens) := (FirstNormal(rows.normal, t.txHash), TokensOf(rows.tokens, t.txHash));
      if first.Some? && first.value.isError then t.parts == []
      else
        var natives := if first.Some? && first.value.valueWei > 0 then 1 else 0;
        && |t.parts| == natives + |tokens|
        && (natives == 1 ==>
              var p := t.parts[0];
              && GoesAsItSays(p, account.address) && p.from == first.value.head.from && p.to == first.value.head.to
              && p.assetId == account.chain.nativeCaip19
              && p.quantity == Quantity(first.value.valueWei, account.chain.nativeDecimals))
        && (forall k | 0 <= k < |tokens| ::
              var (p, row) := (t.parts[natives + k], tokens[k]);
              && GoesAsItSays(p, account.address) && p.from == row.head.from && p.to == row.head.to
              && p.assetId == account.chainId + "/erc20:" + row.contract
              && p.quantity == Quantity(row.valueRaw, row.tokenDecimal))
  {
    hide NormalOf, TokensOf, SubtypeOf, TokenParts;
    FirstOfGroup(rows.normal, t.txHash);
    TokenPartsAre(account, TokensOf(rows.tokens, t.txHash));
  }

  /** A swap is a transaction in which the account both received from and sent to others. */
  lemma SwapIff(account: Account, rows: Rows, t: Transaction)
    requires Decodes(account, rows, t)
    ensures t.subtype == Swap <==>
      && (exists p :: p in t.parts && p.from != account.address)
      && (exists p :: p in t.parts && p.from == account.address && p.to != account.address)
    ensures t.subtype == Unknown <==> t.parts == []
  {
    hide NormalOf, TokensOf, TokenParts;
    PartsAreRows(account, rows, t);
    forall p | p in t.parts
      ensures GoesAsItSays(p, account.address)
    {
      var k :| 0 <= k < |t.parts| && t.parts[k] == p;
      PartAt(account, rows, t, k);
    }
    assert t.parts != [] ==> t.parts[0] in t.parts;
  }

  lemma PartAt(account: Account, rows: Rows, t: Transaction, k: nat)
    requires Decodes(account, rows, t) && k < |t.parts|
    ensures GoesAsItSays(t.parts[k], account.address)
  {
    hide NormalOf, TokensOf, TokenParts, SubtypeOf, GoesAsItSays, DecodeOne;
    PartsAreRows(account, rows, t);
    var (first, tokens) := (FirstNormal(rows.normal, t.txHash), TokensOf(rows.tokens, t.txHash));
    var natives := if first.Some? && first.value.valueWei > 0 then 1 else 0;
    if k >= natives {
      var j := k - natives;
      var row := tokens[j];
      assert t.parts[natives + j] == t.parts[k];
    }
  }

  /** Everything else a decoded hash says, and what of it reaches the ledger: its block and
      time are those of every row, its status the first normal row's, and its fee that row's
      gas, or the first token row's where there is none. */
  lemma DecodedIs(account: Account, rows: Rows, t: Transaction)
    requires Accepted(rows, account.address) && Decodes(account, rows, t)
    ensures t.id == account.chainId + "|" + t.txHash + "|" + account.accountId
    ensures t.chainId == account.chainId && t.accountId == account.accountId
    ensures forall h | h in Heads(rows) && h.txHash == t.txHash ::
      t.block == h.block && t.timestampMs == h.timeStamp * 1000
    ensures var (first, token) := (FirstNormal(rows.normal, t.txHash), FirstToken(rows.tokens, t.txHash));
      && (t.status == TxStatus.Failed <==> first.Some? && first.value.isError)
      && (first.Some? || token.Some?)
      && var gas := if first.Some? then first.value.head else token.value.head;
      && t.fee.assetId == account.chain.nativeCaip19
      && t.fee.quantity == Quantity(gas.gasUsed * gas.gasPriceWei, account.chain.nativeDecimals)
      && (t.fee.borneBySelf <==> gas.from == account.address)
    ensures var row := ToLedger(t);
      && !row.removed && row.payload.id == t.id && row.payload.chainId == t.chainId && row.payload.txHash == t.txHash
      && row.payload.accountId == t.accountId && row.payload.blockNumber == Some(t.block)
      && row.payload.initiatedAt == t.timestampMs && row.payload.confirmedAt == Some(t.timestampMs)
  {
    hide NormalOf, TokensOf, TokenParts, SubtypeOf, PartsOf;
    FirstOfGroup(rows.normal, t.txHash);
    FirstTokenOfGroup(rows.tokens, t.txHash);
    var group := GroupOf(rows, t.txHash);
    GroupHas(rows, t.txHash);
    var gas := AnyRecord(group);
    assert gas in Heads(group);
    assert Agrees(group, account.address);
  }
}
