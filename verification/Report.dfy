/** The reporting projection over replayed state (accounting/report.py). */
module Report {
  import opened Common
  import opened Decimals
  import opened Lots
  import opened Selection
  import opened Pnl
  import opened Rounding
  import opened Accounts

  type Marks = map<string, Money>

  function MarkOf(marks: Marks, assetId: string): Option<Money> {
    if assetId in marks then Some(marks[assetId]) else None
  }

  function MarkValue(mark: Option<Money>, units: int, scale: nat): real {
    if mark.None? then 0.0 else mark.value.amount * Value(AsDecimal(units, scale))
  }

  /** The basis `report` subtracts: the pool's cost under ACB, else the exact sum
      over the open lots, unknown as soon as one is unpriced. */
  function HeldBasis(how: Method, a: Account): Option<real> {
    if how.Acb? && a.pool.None? then None else BasisLeft(how, a)
  }

  /** An asset's unrealised amount, or `None` when units are held without a mark
      or without a complete basis. */
  function Gap(how: Method, a: Account, mark: Option<Money>): Option<real> {
    if UnitsLeft(a) == 0 then Some(0.0)
    else if mark.None? || HeldBasis(how, a).None? then None
    else Some(MarkValue(mark, UnitsLeft(a), a.scale) - HeldBasis(how, a).value)
  }

  /** What the asset adds to the reported basis. */
  function Costed(how: Method, a: Account): real {
    if UnitsLeft(a) == 0 || HeldBasis(how, a).None? then 0.0 else HeldBasis(how, a).value
  }

  /** The whole-portfolio unrealised amount over the first-seen assets: unknown
      as soon as one asset's is. */
  function TotalGap(s: State, assets: seq<string>, marks: Marks): Option<real>
    requires forall a :: a in assets ==> a in s.accounts
  {
    if |assets| == 0 then Some(0.0)
    else
      var last := assets[|assets| - 1];
      var rest := TotalGap(s, assets[..|assets| - 1], marks);
      var gap := Gap(s.how, s.accounts[last], MarkOf(marks, last));
      if rest.None? || gap.None? then None else Some(rest.value + gap.value)
  }

  function TotalCosted(s: State, assets: seq<string>): real
    requires forall a :: a in assets ==> a in s.accounts
  {
    if |assets| == 0 then 0.0
    else TotalCosted(s, assets[..|assets| - 1]) + Costed(s.how, s.accounts[assets[|assets| - 1]])
  }

  /** The sum of the known realised amounts. */
  function RealizedSum(records: seq<DisposalRecord>): real {
    if |records| == 0 then 0.0
    else
      var last := records[|records| - 1];
      RealizedSum(records[..|records| - 1]) + (if last.realized.Some? then last.realized.value.amount else 0.0)
  }

  /** The same, for one asset. */
  function RealizedOf(records: seq<DisposalRecord>, assetId: string): real {
    if |records| == 0 then 0.0
    else
      var last := records[|records| - 1];
      RealizedOf(records[..|records| - 1], assetId)
      + (if last.assetId == assetId && last.realized.Some? then last.realized.value.amount else 0.0)
  }

  function MissingCount(records: seq<DisposalRecord>): nat {
    if |records| == 0 then 0
    else MissingCount(records[..|records| - 1]) + (if records[|records| - 1].realized.None? then 1 else 0)
  }

  datatype AssetPnL = AssetPnL(realized: Money, unrealized: Option<Money>, held: Quantity, rounded: bool)

  datatype TaxLot = TaxLot(
    lotId: LotId, openedAtMs: int, quantity: Quantity,
    price: Option<Money>, costBasis: Option<Money>, value: Option<Money>, rounded: bool)

  datatype PnLReport = PnLReport(
    asOfMs: int, how: Method, realized: Money, missing: nat, unrealized: Option<Money>,
    perAsset: map<string, AssetPnL>, openLots: seq<TaxLot>, rounded: bool, unrealizedBasis: Option<Money>)

  function Cross(fx: Boundary, value: Option<real>, currency: string): Option<Money> {
    if value.None? then None else Some(Money(fx(value.value).amount, currency))
  }

  predicate Inexact(fx: Boundary, value: Option<real>) {
    value.Some? && !fx(value.value).exact
  }

  /** `cost_total / quantity_original`, which does not move as the lot is drawn. */
  function Price(l: Lot): Option<real> {
    if l.costTotal.None? then None
    else
      ScaleKeepsSign(-l.original.raw as real, 0 - l.original.decimals);
      ScaleNegates(l.original.raw as real, 0 - l.original.decimals);
      Some(l.costTotal.value.amount / Value(AsDecimal(l.original.raw, l.original.decimals)))
  }

  function ToTaxLot(fx: Boundary, l: Lot, mark: Option<Money>, currency: string): TaxLot {
    TaxLot(l.lotId, l.openedAtMs, l.remaining,
           Cross(fx, Price(l), currency), Cross(fx, l.costRemaining, currency),
           if mark.None? then None
           else Some(Money(MarkValue(mark, l.remaining.raw, l.remaining.decimals), currency)),
           Inexact(fx, Price(l)) || Inexact(fx, l.costRemaining))
  }

  function TaxLots(fx: Boundary, lots: seq<Lot>, mark: Option<Money>, currency: string): seq<TaxLot> {
    if |lots| == 0 then []
    else TaxLots(fx, lots[..|lots| - 1], mark, currency) + [ToTaxLot(fx, lots[|lots| - 1], mark, currency)]
  }

  predicate AnyRounded(rows: seq<TaxLot>) {
    exists k | 0 <= k < |rows| :: rows[k].rounded
  }

  function Rows(fx: Boundary, s: State, assetId: string, marks: Marks): seq<TaxLot>
    requires assetId in s.accounts
  {
    TaxLots(fx, OpenLots(s.accounts[assetId].ledger.lots), MarkOf(marks, assetId), CurrencyOf(s))
  }

  function AssetSlice(fx: Boundary, s: State, assetId: string, marks: Marks): AssetPnL
    requires assetId in s.accounts
  {
    var a := s.accounts[assetId];
    var gap := Gap(s.how, a, MarkOf(marks, assetId));
    AssetPnL(Money(RealizedOf(s.disposals, assetId), CurrencyOf(s)), Cross(fx, gap, CurrencyOf(s)),
             Quantity(UnitsLeft(a), a.scale),
             Inexact(fx, gap) || AnyRounded(Rows(fx, s, assetId, marks)))
  }

  function AllRows(fx: Boundary, s: State, assets: seq<string>, marks: Marks): seq<TaxLot>
    requires forall a :: a in assets ==> a in s.accounts
  {
    if |assets| == 0 then []
    else AllRows(fx, s, assets[..|assets| - 1], marks) + Rows(fx, s, assets[|assets| - 1], marks)
  }

  function PerAsset(fx: Boundary, s: State, assets: seq<string>, marks: Marks): map<string, AssetPnL>
    requires forall a :: a in assets ==> a in s.accounts
  {
    if |assets| == 0 then map[]
    else
      var last := assets[|assets| - 1];
      PerAsset(fx, s, assets[..|assets| - 1], marks)[last := AssetSlice(fx, s, last, marks)]
  }

  predicate AnyAssetRounded(perAsset: map<string, AssetPnL>) {
    exists a :: a in perAsset && perAsset[a].rounded
  }

  /** A mark in another currency than the report's. */
  predicate ForeignMark(marks: Marks, currency: string) {
    exists a :: a in marks && marks[a].currency != currency
  }

  /** `report`: reads the state, never advances it. */
  function ReportOf(fx: Boundary, s: State, asOfMs: int, marks: Marks): Result<PnLReport>
    requires forall a :: a in s.assets ==> a in s.accounts
  {
    var currency := CurrencyOf(s);
    if ForeignMark(marks, currency) then Err(CurrencyMismatchError)
    else
      var total := TotalGap(s, s.assets, marks);
      var perAsset := PerAsset(fx, s, s.assets, marks);
      Ok(PnLReport(
        asOfMs, s.how, Money(RealizedSum(s.disposals), currency), MissingCount(s.disposals),
        Cross(fx, total, currency), perAsset, AllRows(fx, s, s.assets, marks),
        Inexact(fx, total) || AnyAssetRounded(perAsset),
        Cross(fx, if total.None? then None else Some(TotalCosted(s, s.assets)), currency)))
  }
}
