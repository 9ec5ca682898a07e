/** Ledger transactions (ledger/models.py). */
module Transactions {
  import opened Common
  import opened Lots

  datatype Direction = In | Out | Self

  datatype Entry = Entry(assetId: string, quantity: Quantity, direction: Direction)

  /** Every field but the backend's own bookkeeping. */
  datatype Payload = Payload(
    id: string, chainId: string, txHash: string, accountId: string, blockNumber: Option<int>,
    initiatedAt: int, confirmedAt: Option<int>, entries: seq<Entry>)

  datatype Txn = Txn(payload: Payload, removed: bool, lastModifiedSeq: nat)

  /** `payload_equal`: the bookkeeping never makes two payloads different. */
  predicate PayloadEqual(a: Txn, b: Txn) {
    a.payload == b.payload
  }
}
