# Auradefi: accounting, sync, ledger and delivery, verified

Auradefi reads on-chain histories into a per-tenant transaction ledger, replays
them into profit and loss under four costing methods, values DeFi positions, and
delivers webhooks. This project models the parts whose correctness is a property
of whole runs and proves those properties with Dafny. `dafny verify dfyconfig.toml`
checks all of it.

The modules, in the order they build on each other:

- **Accounting.** `Lots` is one asset's lot ledger as a value, in both forms the
  engine has (the full `LotLedger` and the pruning `_ReplayLedger`); `LotLedgers` is
  the same ledger as mutable lot objects decremented in place. `Refinement` proves
  the fast form refines the simple one, and on which plans it does not. `Selection`
  and `SelectionSpec` hold the four selectors and the one contract they meet. `Basis`
  holds the exact-basis and conservation laws of a ledger, `Pools` the ACB pool.
  `Pnl`, `Accounts`, `Report` and `Replay` are the replay engine as a function, its
  invariants and its report; `PnlStates` is the engine in place, over mutable ledgers
  and pools. About whole replays, `Conservation` follows the cost, `Scales` the units,
  `Independence` what does not depend on the method, `HifoOptimal` and `HifoReplay`
  what HIFO gains over every other method, `Currencies` what is booked in which currency
  and `LotIds` what the lots of a ledger share and what tells them apart. `ReportFacts`,
  `ReportRows` and `Reported` say what a report contains in terms of the stream and its
  lots, and `LotBasis` with `LotBasisWitnesses` is its lot-side basis. `Derive` turns
  ledger transactions into the event stream and splits replays.
- **Exact arithmetic.** `Decimals` and `Fiats` (sign, coefficient and exponent),
  `Rounding` (what a 28-digit decimal nearest to a number is) and `Fractions` (the one
  rounding boundary).
- **Sync.** `Chains` is a growing, block-sorted chain served in pages; `SyncSafety` is
  the promise a persisted cursor makes; `Sync` is the two-phase engine against an
  environment that grows the chain, fails requests and loses the process between
  ingest and persist, `SyncRuns` its whole backfills; `SyncReports` and `Dispatch` share
  one budget over connections.
- **Ledger.** `Ledgers` and `MemoryLedgers` (value and mutable backend), `Cursors`,
  `Feed` (the cursor feed and a client that follows it), `Reorgs` and `ReorgPlanner`.
- **Decoding.** `Decoding` groups explorer rows by hash into transactions, `Movements` says
  what they move in terms of the rows, and `SyncLedger` carries the cursors' promise
  through decoding into the ledger, where `Sync` keeps it.
- **Webhooks.** `Hooks`, `Webhooks` and `Deliverers` are the delivery state machine, and
  `DeliveryRuns` its whole runs.
- **Positions.** `Drilling` values positions and projects holdings.

Amounts of money in the accounting modules are exact reals, as the engine keeps them
as fractions. Where they become decimals the conversion is `Rounding.Boundary`: exact when
the expansion terminates, otherwise the nearest decimal of 28 digits and flagged. There
is one such conversion, and `Fractions.FractionToMoney` computes it. Where the code
adds decimals in the ambient context the sum is rounded by a `Rounding.Context`, which
leaves alone exactly the sums that fit 28 digits. Ids that are digests of some fields
are those fields, so two ids are equal exactly when the fields are. Lots handed to a
selector are referred to by position, or, when a selector names something else, as a
spent lot of the ledger or a foreign one, because the source keys its budgets on object
identity. Exceptions are `Err` values and a call that raises leaves exactly the state
the source leaves.

## Where the code and its documentation differ

- `_ReplayLedger` is documented to validate and raise as `LotLedger` does. Over a plan
  that names a lot it did not hand out, it need not: `Refinement.FullAcceptsIff` is the
  exact condition for every plan, `Refinement.ForeignLotDiverges` and
  `Refinement.SpentLotDiverges` are its closed forms for one pick, and
  `Refinement.ForeignLotAccepted` is an instance. For every selector that plans only over
  the handed lots, all four shipped methods among them, the two agree on whole streams
  (`Refinement.ReplayLedgerRefinesLotLedger`).
- `derive_events` gives a stream in time order and `process` is documented to ask for no
  more, but a fresh replay refuses an event dated before the epoch, which precedes the
  initial watermark 0. `Derive.DerivedStreamPassesGuard` is the exact condition on the
  transactions, `Derive.EarlyTransactionIsRefused` an instance.
- `open_lots_basis` is documented to equal `unrealized_basis` under every lot-tracking
  method. It adds rounded rows in the ambient context, so it can fail in three ways:
  a sum past 28 digits (`LotBasisWitnesses.LongBasisDiffers`), rows that each rounded
  (`RoundedLotsDiffer`), and an asset without a mark, where the report withholds its
  figure and the rows still sum (`UnmarkedDiffers`). `LotBasis.LotBasisIsReportedBasis`
  proves it otherwise: in an unflagged report with a figure, in whatever order the rows
  stand, the two can only be equal when the basis fits 28 digits, and are when the
  running totals do too. With one open lot, flagged or not, they are equal exactly when
  the basis fits (`LotBasis.OneLotBasisIff`). `LotBasis.BasesKnownAlike` says exactly when
  only one is known.
- `quantity_held` is documented to carry the asset's own scale, taken from the last event
  seen for it. The two need not be one: `process` notes the scale before the event can be
  refused, so a refused event of another scale leaves five units at 18 decimals reported,
  and marked, as five at 6 (`Scales.RefusedEventMovesScale`). `Scales.StepKeepsScaleIff` is
  the exact condition for one event and `Scales.ReplayKeepsScalesIff` for a replay;
  `Scales.RowsAddUpToHeld` says what it means for the report, and
  `Scales.ErrorFreeAtOwnScale` that a replay that raised nothing is not affected.
- The first price fixes a stream's currency, and pools opened before it are documented to
  adopt it so that no denominations are mixed. Records booked before it do not: a disposal
  of nothing held books a zero basis in dollars, and keeps it when the stream then turns out
  to be in euros (`Currencies.BasisStaysInDollars`). `Currencies.BookedInCurrency` and
  `Currencies.BooksInBoundCurrency` prove that a replay books nothing else in another
  currency than its own.
- Token order is documented to equal sequence order. It does up to 20 digits
  (`Cursors.FittingTokenOrder`); `Cursors.TokenOrder` is the exact condition for sequences
  of any size, and 2 * 10^19 and 10^20 break it (`Cursors.LongTokenComesFirst`). A sequence
  past 20 digits encodes to a token that decoding refuses (`Cursors.TokenRoundTrip`), so
  the feed stops rather than restarts (`Feed.FeedConverges`).

## Model

| member | source | states |
|---|---|---|
| `LotLedgers.MutableLot.Draw` | src/auradefi/accounting/lots.py:291-297 | drawing units in place leaves the lot `Drawn` by them and returns their exact pro-rata basis, none when unpriced |
| `LotLedgers.LotLedger.constructor` | src/auradefi/accounting/lots.py:172-178 | a new ledger is the empty one of its asset |
| `LotLedgers.LotLedger.Open` | src/auradefi/accounting/lots.py:196-233 | appends one fresh lot with the next ordinal of its transaction, or refuses with the right error and changes nothing |
| `LotLedgers.LotLedger.Handed` | src/auradefi/accounting/lots.py:191-194 | hands out exactly the live lot objects, once each, in open order |
| `LotLedgers.LotLedger.Validate` | src/auradefi/accounting/lots.py:235-257 | either validation loop accepts a plan exactly when the specification of that ledger kind does, with the same total or the same error, before anything is drawn |
| `LotLedgers.LotLedger.Draw` | src/auradefi/accounting/lots.py:291-299 | one pick changes its own lot object and no other, and yields its piece |
| `LotLedgers.LotLedger.Execute` | src/auradefi/accounting/lots.py:287-300 | the loop drains the handed objects in place exactly as the plan says and returns its pieces in plan order |
| `LotLedgers.LotLedger.PlanAndExecute` | src/auradefi/accounting/lots.py:235-300 | a refused plan draws nothing; an accepted one is executed whole, shortfall being the rest of the need |
| `LotLedgers.LotLedger.ConsumePruning` | src/auradefi/accounting/pnl.py:194-226 | the replay ledger keeps exactly the lots that were open, drained, also when the plan is refused |
| `LotLedgers.LotLedger.ConsumeFull` | src/auradefi/accounting/lots.py:259-300 | the plain ledger keeps every lot ever opened, with the open ones drained in place |
| `LotLedgers.LotLedger.Consume` | src/auradefi/accounting/lots.py:259-300 | the whole new state and the answer of a disposal, for both ledger kinds, refused or not |
| `LotLedgers.InPlaceIsWriteBack` | src/auradefi/accounting/lots.py:259-300 | drawing the open lot objects in place is writing the drained lots back among the spent ones |
| `Refinement.WriteBackOpens` | src/auradefi/accounting/pnl.py:208-208 | writing drained lots back leaves the same lots open as pruning to the drained lots |
| `Refinement.ChecksAgree` | src/auradefi/accounting/pnl.py:210-226 | eager budgets over every lot held and lazy budgets filled on first use accept the same plans with the same totals and errors |
| `Refinement.ConsumeRefines` | src/auradefi/accounting/pnl.py:194-226 | one disposal gives the same pieces, shortfall and exception in both ledgers and keeps them equivalent |
| `Refinement.OpenLotRefines` | src/auradefi/accounting/lots.py:196-233 | one acquisition gets the same lot id or the same exception in both ledgers and keeps them equivalent |
| `Refinement.ReplayLedgerRefinesLotLedger` | src/auradefi/accounting/pnl.py:175-226 | over every event stream, continued past every exception, and every selector that plans over the lots it is handed, the pruning ledger answers every call as the plain one does and holds the same open lots |
| `Refinement.FullAcceptsIff` | src/auradefi/accounting/pnl.py:208-226 | on every plan, need and partly used budgets, the plain ledger accepts exactly the plans that the pruning one accepts and that name only lots it handed out, and then with the same total |
| `Refinement.AcceptanceDivergesIff` | src/auradefi/accounting/lots.py:242-257 | so on a whole plan the two ledgers part on acceptance exactly when a lot that was not handed out is named and accepted |
| `Refinement.ForeignLotDiverges` | src/auradefi/accounting/pnl.py:212-226 | one pick of a foreign lot, whatever is taken and needed: the plain ledger refuses it as invalid, and the pruning one answers otherwise if and only if the lot is live and of its asset and the take is at another scale or within both the lot and the need |
| `Refinement.SpentLotDiverges` | src/auradefi/accounting/lots.py:240-249 | one pick of a spent lot is refused by both ledgers, and with another error if and only if the take is at another scale |
| `Refinement.ForeignLotAccepted` | src/auradefi/accounting/pnl.py:213-214 | an instance: one unit of a foreign lot of two, for a need of two, is refused by the plain ledger and accepted by the pruning one |
| `Basis.ExhaustedHoldsNothing` | src/auradefi/accounting/lots.py:287-300 | an exhausted priced lot holds exactly zero basis |
| `Basis.DrawKeepsExact` | src/auradefi/accounting/lots.py:291-297 | after any draw `cost_remaining * original == cost_total * remaining` still holds and the portion is exactly what left |
| `Basis.DrainConserves` | src/auradefi/accounting/lots.py:287-300 | a validated plan moves basis and units from lots to pieces with nothing lost, whichever order it names lots in |
| `Basis.CheckedTotal` | src/auradefi/accounting/lots.py:242-256 | the total a validated plan reports is what it takes, and no class of lots loses more than it holds |
| `Basis.OpenConserves` | src/auradefi/accounting/lots.py:196-233 | an acquisition adds exactly its units and its cost and keeps the ledger sound |
| `Basis.ConsumeConserves` | src/auradefi/accounting/lots.py:259-300 | a disposal removes exactly what it took, its shortfall is never negative, and a refused one removes nothing, under both ledger kinds |
| `Basis.RunConserves` | src/auradefi/accounting/lots.py:259-300 | over any stream and any selector: every lot stays exact, units held are units acquired less units disposed of (shortfalls aside), and remaining basis plus consumed portions is all cost acquired |
| `LotIds.OpenedLotIs` | src/auradefi/accounting/lots.py:196-233 | an accepted acquisition adds one lot, opened at its own time, for its own units and cost, all of both still there |
| `LotIds.OpenRefusedIff` | src/auradefi/accounting/lots.py:203-218 | an acquisition is refused exactly for another asset, another scale or another currency than the ledger's, and for the first of these |
| `LotIds.IdsAreDistinct` | src/auradefi/accounting/lots.py:149-159 | over any stream, past every refusal and every lot dropped when spent, no lot id is given out twice |
| `LotIds.LotsAreAlike` | src/auradefi/accounting/lots.py:162-233 | over any stream all lots a ledger opens are of one scale, and all their costs in one currency |
| `Selection.WalkLoop` | src/auradefi/accounting/fifo.py:72-90 | the walking loop takes what is unmet from each lot in order and stops, refusing a lot of another scale where the source does |
| `SelectionSpec.OrderIsSorted` | src/auradefi/accounting/hifo.py:122-144 | each method orders the live positions strictly, ties included: oldest first, its exact reverse, or dearest first with unpriced last and age breaking ties, written out in the lots' own times and costs |
| `SelectionSpec.OrderCoversUnits` | src/auradefi/accounting/hifo.py:112-144 | no method's order loses or repeats a unit held |
| `SelectionSpec.MethodsMeetSpec` | src/auradefi/accounting/hifo.py:77-162 | fifo, lifo, hifo and acb meet one contract: distinct live lots in that order, none skipped, every take positive and within its lot, only the last partial, total exactly `min(needed, held)` |
| `SelectionSpec.TakesInOrder` | src/auradefi/accounting/hifo.py:122-144 | of two picks of a plan the earlier is of the lot opened earlier under fifo and acb, and later under lifo, position deciding within an instant; under hifo of a priced lot before an unpriced one, then of the dearer per unit, then of the older, then by position |
| `SelectionSpec.TakesAllBefore` | src/auradefi/accounting/fifo.py:63-90 | and no live lot that comes before a taken one, older, newer or dearer as the method has it, is left out or taken in part |
| `SelectionSpec.SelectRefusesIff` | src/auradefi/accounting/fifo.py:72-90 | a method refuses to plan if and only if, going down its order, it comes to a live lot of another scale before the need is met, and then with `DecimalsMismatchError` |
| `SelectionSpec.WalkEmptiesAll` | src/auradefi/accounting/fifo.py:72-90 | a need that covers everything held takes every live lot whole |
| `SelectionSpec.FullDrainReversesFifo` | src/auradefi/accounting/lifo.py:62-92 | over a full drain the LIFO plan is the FIFO plan reversed |
| `SelectionSpec.MethodsPlanOverHanded` | src/auradefi/accounting/acb.py:219-281 | no method plans over a lot it was not handed, on any input |
| `SelectionSpec.MethodPlansPass` | src/auradefi/accounting/lots.py:235-257 | every plan of the four methods passes the validation of either ledger, with the total `min(needed, held)`, for every need; only a negative need, for which every plan is empty, is refused |
| `SelectionSpec.ConsumeNeverRaises` | src/auradefi/accounting/lots.py:259-300 | on matching scales a disposal raises exactly for a negative need, under either ledger, and its shortfall is exactly the units nobody held |
| `HifoOptimal.FewerUnitsLessExcess` | src/auradefi/accounting/hifo.py:47-75 | holding no more units above any unit cost means holding no more basis above any: the exchange argument, over all cost levels at once |
| `HifoOptimal.DominatingHoldsLessBasis` | src/auradefi/accounting/hifo.py:66-162 | of two holdings with equal units, the one with no more units at or above every cost holds no more basis |
| `HifoOptimal.HifoTakesDearest` | src/auradefi/accounting/hifo.py:136-162 | a HIFO disposal takes as much as it can from every class of dear lots |
| `HifoOptimal.HifoStaysAhead` | src/auradefi/accounting/hifo.py:136-162 | event by event, HIFO holds no more units at or above any unit cost than any sequence of valid plans |
| `HifoOptimal.HifoMinimisesRealisedGain` | src/auradefi/accounting/hifo.py:1-45 | on every fully priced stream of one ledger no sequence of valid lot plans consuming `min(needed, held)` at each disposal has consumed more basis than HIFO |
| `HifoReplay.HifoTakesItsShare` | src/auradefi/accounting/hifo.py:136-162 | a HIFO disposal leaves no more basis per unit than there was: it charges at least what a pooled average would |
| `HifoReplay.SaleDominates` | src/auradefi/accounting/hifo.py:136-162 | where HIFO held no more units above every unit cost than another method, it still does after both sell the same |
| `HifoReplay.StepBeside` | src/auradefi/accounting/pnl.py:266-283 | event by event, a HIFO replay and one of any method, the pooled average included, raise alike, hold the same units, and HIFO holds no more basis |
| `HifoReplay.HifoLeavesLeast` | src/auradefi/accounting/acb.py:169-216 | after any priced stream HIFO has no more of any asset's cost left than fifo, lifo or acb has |
| `HifoReplay.HifoChargesMost` | src/auradefi/accounting/hifo.py:1-45 | on every stream whose acquisitions are priced, and after each of its events, also past one that raised, no method has charged more exact basis for any asset than HIFO |
| `HifoReplay.HifoRealizesLeast` | src/auradefi/accounting/hifo.py:1-45 | so on a fully priced stream that rounds nothing no method, acb included, has booked less realised gain |
| `Pools.DisposeConserves` | src/auradefi/accounting/acb.py:169-216 | a pool disposal moves cost out exactly, and an emptied unpoisoned pool costs exactly zero |
| `Pools.PoolContract` | src/auradefi/accounting/acb.py:120-216 | an acquisition is refused exactly when it is negative, at another scale or in another currency, a disposal exactly when it is negative, at another scale or an overdraw; an accepted one moves exactly its units, a priced acquisition adds exactly its cost, an unpriced one poisons the pool, and nothing unpoisons it |
| `Pools.DisposesAtAverage` | src/auradefi/accounting/acb.py:196-216 | the basis of a disposal is the pool's average: times the units held it is the cost times the units disposed of |
| `Pools.PoolRefusals` | src/auradefi/accounting/acb.py:120-216 | what each refusal says, and which comes first: a negative quantity, another scale, another currency, an overdraw |
| `Pools.AcbPool.Acquire` | src/auradefi/accounting/acb.py:131-168 | the accumulator after an acquisition, unchanged when it is refused |
| `Pools.AcbPool.Dispose` | src/auradefi/accounting/acb.py:169-216 | the accumulator after a disposal and the basis returned, unchanged when it is refused |
| `Accounts.OpenKeepsValid` | src/auradefi/accounting/pnl.py:276-280 | after an acquisition the pool still holds exactly the units of the open lots, and only the ledger's own scale check can refuse |
| `Accounts.OpenAddsCost` | src/auradefi/accounting/pnl.py:276-280 | a priced acquisition adds exactly its cost to what is left to charge |
| `Accounts.SellKeepsValid` | src/auradefi/accounting/pnl.py:342-355 | a disposal keeps pool and lots in step, never overdraws the pool, raises only on a scale mismatch, and covers `min(needed, held)` |
| `Accounts.SellMovesBasis` | src/auradefi/accounting/pnl.py:342-355 | the basis a disposal charges is exactly what leaves the lots or the pool |
| `Accounts.FlatHoldsNoBasis` | src/auradefi/accounting/report.py:294-297 | an account with no units has no basis left under any method |
| `PnlStates.PnLState.constructor` | src/auradefi/accounting/pnl.py:160-172 | a fresh state owns nothing but itself and has the value of an empty replay |
| `PnlStates.PnLState.FindLedger` | src/auradefi/accounting/pnl.py:272-274 | the asset's ledger object, or a fresh empty one added under its name |
| `PnlStates.PnLState.Touch` | src/auradefi/accounting/pnl.py:272-275 | finds the asset's ledger object or adds a fresh one, and notes the scale; no other object changes |
| `PnlStates.PnLState.RetagPools` | src/auradefi/accounting/pnl.py:299-300 | the loop retags each pool object, no two assets sharing one, and changes nothing else of it |
| `PnlStates.PnLState.FixCurrency` | src/auradefi/accounting/pnl.py:287-306 | binds the first currency and retags every pool object in place, refuses another one, and touches nothing when unpriced |
| `PnlStates.PnLState.PoolFor` | src/auradefi/accounting/pnl.py:310-318 | the asset's pool object, or a fresh one in the stream's currency |
| `PnlStates.PnLState.OpenLedger` | src/auradefi/accounting/pnl.py:278-278 | the ledger object opens the specified lot or refuses unchanged, and only it changes |
| `PnlStates.PnLState.JoinPool` | src/auradefi/accounting/pnl.py:279-280 | the pool object after the acquisition, opened even when it is then refused |
| `PnlStates.PnLState.Acquire` | src/auradefi/accounting/pnl.py:276-280 | the ledger object opens its lot and, under acb, the pool object is joined; no other asset's ledger, lot or pool changes, and the account is what the specification opens |
| `PnlStates.PnLState.SellFrom` | src/auradefi/accounting/pnl.py:342-342 | the disposal drains the ledger's own lot objects to exactly what the specification leaves, also when it is refused |
| `PnlStates.PnLState.BasisLoop` | src/auradefi/accounting/pnl.py:350-355 | the loop is the exact sum of the portions, unknown at the first unpriced one |
| `PnlStates.PnLState.DrawPool` | src/auradefi/accounting/pnl.py:345-348 | the pool object gives up the average basis of what it holds of the need |
| `PnlStates.PnLState.Charge` | src/auradefi/accounting/pnl.py:343-355 | the basis is the pool's average under acb and the pieces' portions otherwise |
| `PnlStates.PnLState.Dispose` | src/auradefi/accounting/pnl.py:342-355 | lot objects are drained in place and, under acb, the pool object is drawn on; no other asset's object changes, and account and basis are what the specification sells |
| `PnlStates.PnLState.Moved` | src/auradefi/accounting/pnl.py:266-283 | after one asset moved, the assets still share no object and the state is the old one with that account replaced |
| `PnlStates.PnLState.Settle` | src/auradefi/accounting/pnl.py:282-283 | the booked record and the watermark, and nothing else |
| `PnlStates.PnLState.Turn` | src/auradefi/accounting/pnl.py:276-283 | one asset's half of the turn is the specified step, and the exception if there was one |
| `PnlStates.PnLState.One` | src/auradefi/accounting/pnl.py:266-283 | one turn over the ledger and pool objects: the state it leaves and the exception that ended it are the specified ones, and ledgers, lots and pools stay disjoint |
| `PnlStates.PnLState.Process` | src/auradefi/accounting/pnl.py:229-284 | the loop over the objects advances them in place to exactly the specified replay, stopping at the first exception with everything before it kept, and owns no object but its own and fresh ones |
| `PnlStates.PnLState.Resume` | src/auradefi/accounting/pnl.py:257-264 | a state asked to replay under another method refuses and changes nothing; under its own it goes on as `process` |
| `Replay.ProcessKeepsValid` | src/auradefi/accounting/pnl.py:229-284 | in every reachable state, also after an exception, pools are in step with their lots and every ledger is sound |
| `Currencies.BookedInCurrency` | src/auradefi/accounting/pnl.py:287-373 | in every state a replay reaches, raised or not, proceeds and gains booked are in the stream's currency, and so is every basis but one booked in dollars without proceeds |
| `Currencies.BooksInBoundCurrency` | src/auradefi/accounting/pnl.py:342-362 | once the currency is bound, every basis booked is in it too: an exception was booked before anything was priced |
| `Currencies.OneCurrency` | src/auradefi/accounting/pnl.py:287-306 | a stream that raised nothing has the currency of every price in it, and none while nothing is priced |
| `Currencies.BasisStaysInDollars` | src/auradefi/accounting/pnl.py:344-362 | an instance of the exception: a unit nobody held is disposed of without a price, and then one for ten euros |
| `Conservation.ChargesAreBooked` | src/auradefi/accounting/pnl.py:349-373 | a replay books one record for each exact basis it charged, in order, and each record says what its charge came to: the converted amount, its rounding, or that it is unknown |
| `Conservation.StepBooks` | src/auradefi/accounting/pnl.py:356-373 | a disposal that went through books one record, of its own time, asset, units and proceeds, short if and only if more was asked for than was held |
| `Conservation.StepMovesBasis` | src/auradefi/accounting/pnl.py:266-283 | one event, raised or not, moves what is left of an asset's cost by its own cost in and its exact charge out, under every method |
| `Conservation.ProcessConserves` | src/auradefi/accounting/pnl.py:229-373 | over any replay, also one that raised, under every method and from every valid state, for an asset whose own acquisitions are priced: what is left of its cost is what it was, plus all cost acquired, less all exact bases charged, with nothing assumed about rounding or proceeds |
| `Conservation.PoolConserves` | src/auradefi/accounting/acb.py:120-216 | in every state a fresh acb replay reaches, the bases consumed and the pool's cost add up to all cost ever acquired |
| `Conservation.ProcessConservesAll` | src/auradefi/accounting/pnl.py:229-373 | the same over all assets together |
| `Conservation.ProcessRealizes` | src/auradefi/accounting/pnl.py:356-373 | on a fully priced, unrounded replay realised gains are proceeds less exact bases charged |
| `Conservation.ProcessRealizesOn` | src/auradefi/accounting/pnl.py:356-373 | and the same for each asset |
| `Conservation.ProcessBalances` | src/auradefi/accounting/pnl.py:342-373 | on a fully priced, unrounded replay realised less basis left follows the proceeds and costs exactly |
| `Conservation.PoisonedIff` | src/auradefi/accounting/acb.py:131-168 | under acb a pool's cost is unknown after a replay if and only if it was before or an unpriced acquisition of the asset went through |
| `Conservation.PoisonIsForever` | src/auradefi/accounting/acb.py:169-216 | once a pool's cost is unknown it is in every later state, and every later disposal of the asset is booked without cost or gain and flagged `missing_cost` |
| `Scales.StepKeepsScaleIff` | src/auradefi/accounting/pnl.py:275-280 | an asset whose noted scale is its lots' keeps it across an event, raised or not, if and only if the event is not an in-time one of another scale for it, and such an event is always refused |
| `Scales.ErrorFreeAtOwnScale` | src/auradefi/accounting/pnl.py:266-284 | a replay that raised nothing holds every asset it acquired at its lots' scale |
| `Scales.ReplayKeepsScalesIff` | src/auradefi/accounting/pnl.py:266-284 | a replay from a state at its own scales, raised or not, ends at its own scales if and only if it did not stop on an in-time event of another scale |
| `Scales.RefusedEventMovesScale` | src/auradefi/accounting/report.py:279-279 | an instance: after five units at 18 decimals and a refused event at 6, the slice holds five units at 6 and its row five at 18 |
| `Independence.ExactGain` | src/auradefi/accounting/report.py:277-297 | whatever rounded and whatever was asked for a disposal, what is unrealised less the exact bases charged is the marked value of the units held less all cost acquired |
| `Independence.TotalGain` | src/auradefi/accounting/report.py:277-297 | realised plus unrealised is total proceeds less total acquisition cost plus the marked value of the units held, each asset's at the scale it was acquired at, shortfalls included |
| `Replay.ProcessFrames` | src/auradefi/accounting/pnl.py:266-283 | the exception a stream raises, the event it raises it at, and the assets seen, currency, clock, scales and lot counters it leaves are a function of the stream alone, not of the method |
| `Independence.RaisesAlike` | src/auradefi/accounting/pnl.py:266-283 | fifo, lifo, hifo and acb raise the same exception at the same event of the same streams, and leave the same frame |
| `Independence.ExactIndependence` | src/auradefi/accounting/report.py:277-297 | on every priced and marked stream that no method refuses, proceeds less exact bases charged plus what is unrealised is one number under fifo, lifo, hifo and acb |
| `Independence.MethodIndependence` | src/auradefi/accounting/report.py:277-297 | and where no method rounded, all four agree on the realised plus unrealised they book |
| `Derive.ReplaySplits` | src/auradefi/accounting/pnl.py:236-242 | replaying a head and then a tail is replaying the whole, exceptions included, wherever the split falls |
| `Derive.PnlAtIsPrefix` | src/auradefi/accounting/pnl.py:397-398 | on a stream in time order `pnl_at` replays exactly the prefix up to the instant, ties included, and resuming it with the rest is the whole replay |
| `Derive.DeriveLoop` | src/auradefi/accounting/lots.py:328-343 | the loops of `derive_events` compute the specified stream or the first entry's error |
| `Derive.SortIsStable` | src/auradefi/accounting/lots.py:342-343 | the derived stream is in time order, adds and loses nothing, and keeps arrival order within an instant |
| `Derive.DerivedEventsAre` | src/auradefi/accounting/lots.py:309-341 | the stream holds exactly one kind of event for each entry of a transaction that is neither removed nor internal, in or out as the entry says, at its confirmation if it has one and its initiation if not; nothing for a movement to oneself |
| `Derive.OneEventEach` | src/auradefi/accounting/lots.py:328-343 | as many events as the taxed transactions have entries that move something: none is derived twice |
| `Derive.DeriveRefusesIff` | src/auradefi/accounting/lots.py:52-60 | deriving fails exactly on a taxed movement of nothing |
| `Derive.DerivedStreamPassesGuard` | src/auradefi/accounting/lots.py:328-343 | a fresh replay of a derived stream raises `ValidationError`, under any method, if and only if some taxed movement of the transactions is dated before the epoch |
| `Derive.EarlyTransactionIsRefused` | src/auradefi/accounting/lots.py:328-343 | an instance: a coin received one millisecond before the epoch is derived and then refused |
| `Derive.GuardIsTheOnlyTimeCheck` | src/auradefi/accounting/pnl.py:267-271 | what a replay got through was in time order from the watermark on, and it ended in `ValidationError` if and only if the next event was older than the one before it |
| `Derive.OnlyLateIsInvalid` | src/auradefi/accounting/pnl.py:267-271 | in every reachable state an event raises `ValidationError` if and only if it is older than the watermark |
| `Derive.InTimeIsNeverInvalid` | src/auradefi/accounting/pnl.py:267-271 | a stream in time order from the watermark on never raises it |
| `PnlStates.PnLState.SumDisposals` | src/auradefi/accounting/report.py:261-270 | the loop's total, count of unknowns and per-asset sums are those of the booked disposals |
| `PnlStates.PnLState.SumAccounts` | src/auradefi/accounting/report.py:273-297 | the loop's totals are unknown together, as soon as one asset's is |
| `PnlStates.PnLState.SliceOne` | src/auradefi/accounting/report.py:302-317 | one asset's slice and open-lot rows |
| `PnlStates.PnLState.SliceAccounts` | src/auradefi/accounting/report.py:271-317 | the per-asset slices and open-lot rows the loop builds |
| `PnlStates.PnLState.Report` | src/auradefi/accounting/report.py:221-341 | what it returns is the specified report of the state, of which the rows of `ReportFacts`, `ReportRows` and `Reported` speak, and nothing is modified |
| `Conservation.BookingIsHonest` | src/auradefi/accounting/pnl.py:356-373 | the record is of its event; a gain is booked exactly when both sides are known; and every flag says exactly what it is for |
| `ReportFacts.SlicesSumToRealized` | src/auradefi/accounting/report.py:261-270 | per-asset realised amounts add up to the realised total |
| `ReportFacts.ReportedSlicesAddUp` | src/auradefi/accounting/report.py:261-316 | in the report of every replay, also one that raised, no disposal is missing from the slices or counted twice |
| `Reported.ReportAddsUp` | src/auradefi/accounting/report.py:255-336 | in the report of every replay, also one that raised: it is refused exactly for a mark in another currency; the realised figure is its slices' added up, every asset seen has a slice holding its units, and the missing count is the number of disposals booked without a gain |
| `Reported.ReportedGain` | src/auradefi/accounting/report.py:266-337 | of the report of a priced stream with everything held marked: the unrealised figure crosses to money from the marked value of the units held less the cost not yet charged; where nothing rounded the realised one is proceeds less exact bases, and the two are proceeds and marked value less cost |
| `Reported.ReportedSlice` | src/auradefi/accounting/report.py:277-317 | and the same for each asset's slice, which holds the units the stream leaves at the scale of the asset's last event |
| `Reported.ReportedBasis` | src/auradefi/accounting/report.py:298-335 | and the basis it names is the cost acquired that no disposal was charged |
| `ReportRows.RowIs` | src/auradefi/accounting/report.py:368-400 | a row has its lot's id, time and remaining units, the price per unit it was bought at however much is left, the basis left in it and its units at the mark; it is flagged if and only if the price or the basis does not terminate, and its figures are then nearest ones |
| `ReportRows.RowsAreOpenLots` | src/auradefi/accounting/report.py:308-318 | the rows are those of the lots with units left, of every asset seen, and of no other, one each |
| `ReportRows.SliceKnownIff` | src/auradefi/accounting/report.py:280-289 | a slice's unrealised figure is withheld if and only if units are held without a mark, or without a complete basis: the pool's cost under acb, that of every open lot otherwise |
| `ReportRows.ReportKnownIff` | src/auradefi/accounting/report.py:289-335 | the whole figure, and its basis with it, is withheld if and only if a slice's is |
| `ReportRows.ReportFlaggedIff` | src/auradefi/accounting/report.py:303-330 | a report is flagged if and only if its own figure does not terminate, or an asset's, or a row is flagged |
| `ReportFacts.UnrealizedKnownIff` | src/auradefi/accounting/report.py:284-293 | the unrealised total is withheld exactly when some asset held lacks a mark or a complete basis |
| `LotBasis.SumOpenLots` | src/auradefi/accounting/report.py:202-218 | the loop is the running sum of the rows, each step rounded by the ambient context, unknown as soon as one row is |
| `LotBasis.KnownTogether` | src/auradefi/accounting/report.py:212-218 | the loop is known exactly when every row's basis is, and what it returns has at most 28 digits |
| `LotBasis.ExactIffFits` | src/auradefi/accounting/report.py:214-218 | while the running totals fit, the loop is exact if and only if the total fits |
| `LotBasis.AnyOrder` | src/auradefi/accounting/report.py:318-318 | the exact sum of the rows does not depend on the order they are sorted in |
| `LotBasis.UnflaggedBasis` | src/auradefi/accounting/report.py:294-335 | an unflagged report with an unrealised figure subtracted exactly the sum of its rows' bases |
| `LotBasis.LotBasisIsReportedBasis` | src/auradefi/accounting/report.py:202-218 | under every lot-tracking method, in an unflagged report with an unrealised figure, `open_lots_basis` over the rows in any order equals `unrealized_basis` only if that fits 28 digits, and does if the running totals fit too |
| `LotBasis.OneLotBasisIff` | src/auradefi/accounting/report.py:202-218 | with one open lot, in a flagged report too, the two are equal if and only if `unrealized_basis` fits 28 digits |
| `LotBasis.BasesKnownAlike` | src/auradefi/accounting/report.py:287-335 | where `unrealized_basis` is known `open_lots_basis` is; only the latter is known if and only if every open lot is priced and some asset held has no mark |
| `LotBasisWitnesses.LongBasisDiffers` | src/auradefi/accounting/report.py:214-218 | lots bought for 10^28 and for 1: the report subtracts their sum, and the rows add up to it in no order |
| `LotBasisWitnesses.RoundedLotsDiffer` | src/auradefi/accounting/report.py:331-335 | two lots with a third of a dollar left each: the report says 0.666...667 and the rows 0.666...666 in either order |
| `LotBasisWitnesses.UnmarkedDiffers` | src/auradefi/accounting/report.py:289-291 | one priced lot without a mark: the report says nothing and the rows sum |
| `Scales.RowsAddUpToHeld` | src/auradefi/accounting/report.py:308-316 | an asset's open-lot rows add up, as quantities, to the units its slice holds if and only if the noted scale is the lots' own; then their values add up to the mark's worth of them |
| `Decimals.ExactMulIsProduct` | src/auradefi/accounting/lots.py:346-363 | the context-free product denotes the product of the operands, at any magnitude and sign |
| `Decimals.ExactSumIsSum` | src/auradefi/money/fiat.py:23-40 | the context-free sum denotes the sum of the operands, at any exponents and signs |
| `Decimals.UnitsDivided` | src/auradefi/accounting/lots.py:346-363 | a quantity denotes its raw units over the power of ten of its decimals |
| `Decimals.Negate` | src/auradefi/money/fiat.py:111-113 | `copy_negate` negates the value |
| `Fiats.ArithmeticIsExact` | src/auradefi/money/fiat.py:82-109 | money adds and subtracts exactly within a currency and is refused exactly across two |
| `Fiats.BelowZeroIsNegative` | src/auradefi/positions/drill.py:171-174 | the sign test on a decimal is the sign of its value, negative zero included |
| `Rounding.NearestExists` | src/auradefi/accounting/lots.py:390-393 | every number has a nearest decimal of 28 digits |
| `Rounding.NearestIsUnique` | src/auradefi/accounting/lots.py:390-393 | a number whose expansion does not terminate has only one, so no tie rule is ever needed |
| `Rounding.CrossingIsUnique` | src/auradefi/accounting/lots.py:389-398 | the boundary is one function: exact where the expansion terminates, nearest and flagged where not |
| `Rounding.ExactMeansUnchanged` | src/auradefi/accounting/lots.py:389-398 | the flag says exact if and only if the expansion terminates, and then the amount is the number |
| `Rounding.ContextKeeps` | src/auradefi/accounting/report.py:214-218 | a 28-digit context returns a number that fits, and the sum itself if and only if the sum fits |
| `Fractions.TerminatesIffTwosAndFives` | src/auradefi/accounting/lots.py:366-389 | a fraction has a finite decimal expansion if and only if its lowest-terms denominator has no prime but 2 and 5 |
| `Fractions.MaxIsShortest` | src/auradefi/accounting/lots.py:395-396 | no shorter expansion exists than `max(twos, fives)` places |
| `Fractions.StripTwos` | src/auradefi/accounting/lots.py:385-386 | the first loop terminates with the power of two divided out |
| `Fractions.StripFives` | src/auradefi/accounting/lots.py:387-388 | the second loop terminates with the power of five divided out, the residual still odd |
| `Fractions.AtScale` | src/auradefi/accounting/lots.py:395-398 | the floor division is exact for either sign: the coefficient at that scale denotes the fraction |
| `Fractions.FractionToMoney` | src/auradefi/accounting/lots.py:366-398 | the amount and flag are those of the one boundary at the fraction; exact if and only if the expansion terminates, then equal to the fraction at the smallest possible scale |
| `Chains.GrowthAbove` | src/auradefi/embed/sync.py:303-313 | rows landing above a fixed window leave it, and so its page numbers, as they were |
| `Chains.PageExtends` | src/auradefi/embed/sync.py:81-89 | one more page in hand extends the first run of a listing by its size |
| `Chains.ShortPageDrains` | src/auradefi/embed/sync.py:81-89 | a page is short exactly when the listing ends on it |
| `SyncSafety.SafeGrows` | src/auradefi/embed/sync.py:251-381 | growth above everything served, and anything more in the ledger, keeps every promise of the persisted cursors |
| `SyncSafety.AdmissibleIff` | src/auradefi/embed/sync.py:80-91 | what may arrive between two requests, in this environment: rows above everything served that leave the chain in block order |
| `SyncSafety.AnchorIsSafe` | src/auradefi/embed/sync.py:258-276 | the anchor's cursors promise only rows that are in the ledger, also when one block spans many pages |
| `SyncSafety.AnchoredIs` | src/auradefi/embed/sync.py:258-276 | the anchor sets the live cursor to the highest block of its page and the backfill cursor to the lowest, both 0 for an empty one; a short page ends the backfill, a full one fixes its window at the lowest block |
| `SyncSafety.LiveSees` | src/auradefi/embed/sync.py:278-301 | successive live pages are the window's first rows, and all of it once a page is short, while the chain grows under them |
| `SyncSafety.DrainedIsSafe` | src/auradefi/embed/sync.py:294-299 | advancing the live cursor to the highest row of a drained window leaves no row behind it |
| `SyncSafety.BackfillIsSafe` | src/auradefi/embed/sync.py:316-327 | one more backfill page keeps the promise, and completion means the window drained |
| `SyncSafety.BackfilledIs` | src/auradefi/embed/sync.py:317-327 | one more page moves the page count by one and the backfill cursor to its lowest block, leaves the live cursor and the window, and ends the backfill if and only if it is short |
| `SyncSafety.SafeMeansNothingLost` | src/auradefi/embed/sync.py:251-381 | a persisted state means every row of `backfill_end < block <= live_cursor` and the first `backfill_page * page_size` rows of the descending window are in the ledger; a complete one, every row up to the live cursor |
| `SyncSafety.PagesOfWindow` | src/auradefi/embed/sync.py:303-327 | a window of m rows ends on page `m / page_size + 1` |
| `SyncSafety.BackfillCost` | src/auradefi/embed/sync.py:303-327 | a whole backfill, over any number of undisturbed calls, makes exactly `m / page_size + 1` requests and asks for no page twice |
| `SyncRuns.RunFinishesIff` | src/auradefi/embed/sync.py:278-327 | over undisturbed calls that each drain the live window: the backfill is complete if and only if the budgets, less one live page a call and the first window's full pages, reach `m / page_size + 1`; it moves exactly that far and asks for no page beyond, so the number of requests is known too |
| `SyncRuns.FirstRunFinishesIff` | src/auradefi/embed/sync.py:258-327 | the same from the first call on a fresh connection whose newest page is full |
| `SyncRuns.CallAll` | src/auradefi/embed/sync.py:182-256 | unthrottled calls of the engine with nothing in their way are such a run, and make its requests |
| `Sync.Explorer.Fetch` | src/auradefi/embed/sync.py:63-91 | the transport as its contract demands: a page of the window as it stands, over a chain that only grows above what was served |
| `Sync.SyncEngine.constructor` | src/auradefi/embed/sync.py:171-180 | a fresh engine's state keeps the promise |
| `Sync.SyncEngine.Bind` | src/auradefi/embed/sync.py:154-180 | a page size below one is refused, since no page could ever be short of it; any other binds a fresh engine |
| `Sync.SyncEngine.Fetch` | src/auradefi/embed/sync.py:329-349 | one request, one unit of budget unless it raised |
| `Sync.SyncEngine.Ingest` | src/auradefi/embed/sync.py:351-366 | exactly the page's rows join those ingested, the transaction ledger takes their decode by one upsert, and the count is how many rows were new; an ingest that raises may leave any part of them |
| `Sync.SyncEngine.Persist` | src/auradefi/embed/sync.py:368-381 | the state is written only where the run's cursors keep the promise |
| `Sync.SyncEngine.Settle` | src/auradefi/embed/sync.py:265-275 | the cursors are the newest page's highest and lowest block, complete exactly when it was short, and keep the promise |
| `Sync.SyncEngine.Anchor` | src/auradefi/embed/sync.py:258-276 | one request, one live page, the state the newest page fixes, or an exception that leaves the old one |
| `Sync.SyncEngine.Absorb` | src/auradefi/embed/sync.py:292-296 | the cursor moves to the highest row of the window exactly when the page was short |
| `Sync.SyncEngine.LivePage` | src/auradefi/embed/sync.py:282-300 | one live page: the window's next rows are in the ledger before the state is written, and every new row is counted |
| `Sync.SyncEngine.Live` | src/auradefi/embed/sync.py:278-301 | a live window of n rows drains in a call if and only if the budget exceeds `n / page_size`; a cut window moves neither the live cursor nor any backfill field |
| `Sync.SyncEngine.Extend` | src/auradefi/embed/sync.py:324-326 | the cursors after the next backfill page: its lowest block, complete exactly when it was short |
| `Sync.SyncEngine.BackfillPage` | src/auradefi/embed/sync.py:316-327 | one request for exactly the next page of the fixed window, and the state that page leaves |
| `Sync.SyncEngine.Backfill` | src/auradefi/embed/sync.py:303-327 | every unit of budget left goes into the next pages of the fixed window until it drains |
| `Sync.SyncEngine.Report` | src/auradefi/embed/sync.py:383-399 | the pages are the live and the backfill pages of the run, none more; the report passes the validators |
| `Sync.SyncEngine.Phases` | src/auradefi/embed/sync.py:251-256 | the phases of one run: the promise kept in every outcome, between one request and the budget of them, and the backfill waits when the live window was cut |
| `Sync.SyncEngine.SyncConnection` | src/auradefi/embed/sync.py:182-256 | after every call, with any budget, failures, a lost process and growth: the persisted state keeps the promise and a complete one means no row up to the live cursor is missing; where each row has a hash of its own every row promised is a live transaction of the ledger; a budget below one is refused and a call within `min_interval_ms` of the last is a no-op, and both touch nothing; any other call makes between one request and its budget of them, and reports exactly those, live and backfill, and exactly the rows that are new; undisturbed, it says how far the backfill moved |
| `Sync.SyncEngine.InvIsLive` | src/auradefi/embed/sync.py:351-366 | the engine's invariant keeps the transaction ledger a mirror of the rows ingested, so every promised row is live in it with its own payload |
| `SyncLedger.PageDecodes` | src/auradefi/embed/sync.py:351-366 | where every row has a hash of its own, a page decodes to exactly its rows' transactions |
| `SyncLedger.IngestMirrors` | src/auradefi/embed/sync.py:351-366 | decoding a page and upserting it is accepted, and the live rows of the ledger are again exactly the transactions of the rows ingested |
| `SyncLedger.IngestReflects` | src/auradefi/embed/sync.py:351-366 | ingesting any page keeps the ledger in order, and a mirror of the rows where each has a hash of its own; such a page always has a decode |
| `SyncLedger.PromisedRowsAreLive` | src/auradefi/embed/sync.py:251-381 | so every row the persisted cursors promise is a live transaction of the ledger with its own payload |
| `SyncReports.Failure` | src/auradefi/embed/models.py:246-270 | a failure row claims no work, echoes the persisted cursors and passes the validators |
| `SyncReports.AssembleIsValid` | src/auradefi/embed/models.py:358-386 | valid rows always assemble into an aggregate that passes the count and breakdown validators |
| `SyncReports.AssembledIs` | src/auradefi/embed/models.py:358-386 | one more row adds its own counts to the aggregate's, which is a no-op if and only if all rows are |
| `SyncReports.ReportsAddUp` | src/auradefi/embed/models.py:106-145 | a report that passes the validators is the one its rows assemble into; it and they count nothing below zero, pages are live and backfill pages, a no-op counts nothing and no row both failed and did nothing |
| `SyncReports.CostsAre` | src/auradefi/embed/dispatch.py:54-72 | the budget goes to the pages reported and one unit to each failure |
| `SyncReports.PagesWithinCosts` | src/auradefi/embed/dispatch.py:54-72 | the pages reported never exceed the budget the rows cost |
| `Dispatch.WorstIsTriangular` | src/auradefi/embed/dispatch.py:54-72 | when every visit fails a budget of B leads to at most B(B+1)/2 requests |
| `Dispatch.RunSync` | src/auradefi/embed/dispatch.py:54-72 | one tick of budget B reports at most B pages, makes at most B(B+1)/2 requests however many connections fail, visits the pairs in order and each at most once, leaves one unvisited only when the budget is spent, lets only exempt errors through, reports every page no failure hid, echoes the persisted cursors, and leaves every connection's promise standing |
| `Dispatch.FileVisit` | src/auradefi/embed/dispatch.py:61-71 | one visit, filed: a failure row claims no page, and what is let through is a missing cassette or the host's own error |
| `Dispatch.FiledIs` | src/auradefi/embed/dispatch.py:61-71 | a missing cassette and the host's own errors, and no others, end the tick; any other error is a row that claims no work and echoes the cursors |
| `Dispatch.BooksGrow` | src/auradefi/embed/dispatch.py:54-72 | a visit within the budget left never takes the tick past its worst case |
| `Dispatch.Visit` | src/auradefi/embed/dispatch.py:58-71 | one connection's turn leaves every other connection's promise standing |
| `Ledgers.WriteKeepsValid` | src/auradefi/ledger/backends/memory.py:203-206 | a write takes a number above every other row's, so numbers stay unique and bounded by the counter |
| `Ledgers.Classify` | src/auradefi/ledger/upsert.py:32-68 | refuses exactly the batches with a duplicate id and sorts every other into new, changed and unchanged, in order |
| `Ledgers.WriteIdsAreStale` | src/auradefi/ledger/backends/memory.py:68-75 | the ids to write are exactly those absent, different or stored as removed |
| `Ledgers.UpsertedAt` | src/auradefi/ledger/backends/memory.py:66-85 | every delivered transaction ends live with its very payload, and keeps its number if and only if it was stored, not removed, with that payload |
| `Ledgers.UpsertedElsewhere` | src/auradefi/ledger/backends/memory.py:66-85 | every other row is untouched |
| `Ledgers.UpsertedKeeps` | src/auradefi/ledger/backends/memory.py:66-85 | events number the writes without a gap, ascending |
| `Ledgers.UpsertQuietIff` | src/auradefi/ledger/upsert.py:59-68 | a redelivery emits nothing if and only if nothing in it is stale |
| `Ledgers.MarkedAt` | src/auradefi/ledger/backends/memory.py:157-173 | a marked row is removed with its payload kept, and one already removed keeps its number |
| `Ledgers.RefusedIff` | src/auradefi/ledger/backends/memory.py:50-173 | an upsert is refused exactly for two transactions under one id, a removal exactly for an id that is not stored, each with its error |
| `MemoryLedgers.MemoryLedger.constructor` | src/auradefi/ledger/backends/memory.py:46-48 | every tenant starts empty with counter 0 |
| `MemoryLedgers.BlankMeans` | src/auradefi/ledger/backends/memory.py:196-201 | a tenant is refused as blank exactly when it has no character but the 29 that `str.isspace` holds of |
| `MemoryLedgers.MemoryLedger.Upsert` | src/auradefi/ledger/backends/memory.py:50-85 | the tenant's new rows and counter and the events, all or nothing, and no other tenant's row touched |
| `MemoryLedgers.MemoryLedger.MarkRemoved` | src/auradefi/ledger/backends/memory.py:145-173 | an unknown id refuses before any write; otherwise the tenant's new state and events, and no other tenant touched |
| `MemoryLedgers.MemoryLedger.ApplyReorg` | src/auradefi/ledger/backends/memory.py:175-194 | removals then additions, or a refusal that leaves the tenant exactly as it was |
| `MemoryLedgers.MemoryLedger.Sync` | src/auradefi/ledger/backends/memory.py:87-130 | sorting and slicing the dict gives the specified page whatever order the dict is in |
| `MemoryLedgers.MemoryLedger.Get` | src/auradefi/ledger/backends/memory.py:132-143 | finds exactly this tenant's rows |
| `MemoryLedgers.SortedChanges` | src/auradefi/ledger/backends/memory.py:107-114 | the rows past the cursor, all of them, in strictly ascending write order |
| `MemoryLedgers.AccountTransactions` | src/auradefi/embed/facade.py:261-278 | paging from the start to the end, over pages of any size, terminates and returns the account's live rows once each in feed order |
| `MemoryLedgers.DrainedAccount` | src/auradefi/embed/facade.py:261-278 | what such a drain returns is exactly the account's live rows, once each, in write order |
| `Cursors.TokenRoundTrip` | src/auradefi/ledger/cursors.py:18-43 | a sequence survives encoding and decoding if and only if it is below 10^20; a longer one is refused, never read as another; only a negative one has no token |
| `Strings.PrecedesIff` | src/auradefi/ledger/cursors.py:1-8 | the order strings are compared in: the first place where two differ decides, and a prefix comes first |
| `Cursors.TokenIsCanonical` | src/auradefi/ledger/cursors.py:30-43 | every token that decodes is the encoding of what it decodes to |
| `Cursors.TokenOrder` | src/auradefi/ledger/cursors.py:1-8 | for any two sequences, the lower one's token comes first if and only if the lower is at most the higher without the places by which its token is longer |
| `Cursors.FittingTokenOrder` | src/auradefi/ledger/cursors.py:1-8 | so for all that fit 20 digits lexicographic order of tokens is numeric order of sequences |
| `Cursors.LongTokenComesFirst` | src/auradefi/ledger/cursors.py:1-8 | an instance where it is not: 2 * 10^19 and 10^20 |
| `Feed.OneOrder` | src/auradefi/ledger/backends/memory.py:107-114 | the change list after a cursor is one list |
| `Feed.PageShows` | src/auradefi/ledger/backends/memory.py:107-130 | a page shows every row touched after the cursor and up to its own, once, in write order, as what it now is; it says there is more if and only if some row was touched later, and is full then |
| `Feed.ChangesApply` | src/auradefi/ledger/backends/memory.py:107-129 | applying a page makes the client right about every row up to the page's last number |
| `Feed.MovingOnAgrees` | src/auradefi/ledger/backends/memory.py:66-85 | no write between two polls makes the client wrong about what it has seen |
| `Feed.ReorgMovesOn` | src/auradefi/ledger/backends/memory.py:175-194 | a reorg only ever touches rows by giving them numbers above all given out |
| `Feed.PollFollows` | src/auradefi/ledger/backends/memory.py:87-130 | a poll keeps the client right, strictly advances while `has_more`, and without it leaves the client showing exactly the live rows |
| `Feed.FeedConverges` | src/auradefi/ledger/backends/memory.py:87-130 | however upserts, removals, reorgs and polls interleave, a client that started at no cursor shows exactly the live rows once a page says there is no more; it is refused only for a limit below one or a counter past 20 digits |
| `Reorgs.OrphansAre` | src/auradefi/ledger/reorg.py:68-75 | the ids to remove are exactly those of stored rows whose block is at or above the fork outside the canonical view, pending rows never |
| `Reorgs.ReaddsAre` | src/auradefi/ledger/reorg.py:77-82 | the transactions to add are exactly the canonical ones with no stored row, not removed, of the same payload |
| `Reorgs.PlanRefusedIff` | src/auradefi/ledger/reorg.py:86-113 | a plan is refused exactly when either view holds two rows under one id, or the two together speak of more than one chain |
| `Reorgs.ApplyRefusedIff` | src/auradefi/ledger/backends/memory.py:175-194 | applying one is refused exactly when it brings two transactions under one id, or else when it removes an id that is not stored, each with its error |
| `Reorgs.ReorgConverges` | src/auradefi/ledger/reorg.py:26-83 | applying the plan of one chain's rows always succeeds, leaves every canonical transaction live with its payload, removes every orphan, and moves no other row |
| `Reorgs.OrphansAreRemoved` | src/auradefi/ledger/reorg.py:26-83 | so no live row of the chain at or above the fork is outside the canonical view |
| `Reorgs.ReorgIsFinal` | src/auradefi/ledger/reorg.py:46-49 | planning and applying once more is accepted, emits no event and changes nothing |
| `ReorgPlanner.RequireUniqueIds` | src/auradefi/ledger/reorg.py:103-113 | refuses exactly the lists with a duplicate id |
| `ReorgPlanner.RequireOneChain` | src/auradefi/ledger/reorg.py:86-100 | refuses exactly the views that name two chains |
| `ReorgPlanner.Plan` | src/auradefi/ledger/reorg.py:26-83 | the loops over dict and lists compute the plan or refuse, as specified |
| `Decoding.DecodeAccount` | src/auradefi/decode/pipeline.py:52-124 | refuses an unknown chain, and a history with a hash whose rows disagree or miss the account, before any output; otherwise the output is the one decode, of which the rows of `Movements` speak |
| `Decoding.GroupByHash` | src/auradefi/decode/pipeline.py:127-137 | the dict of groups holds every hash's rows of each kind in input order |
| `Decoding.DecodeIsUnique` | src/auradefi/decode/pipeline.py:67-70 | there is one decode, with exactly one transaction per hash, by block and within a block by hash |
| `Decoding.AcceptedIff` | src/auradefi/decode/pipeline.py:152-171 | a history is accepted if and only if every row touches the account and rows of one hash agree on their block and its time |
| `Movements.EntriesMoveWhatRowsMoved` | src/auradefi/decode/pipeline.py:174-223 | of every asset, the units of a transaction's incoming ledger entries less its outgoing ones are the units the account received less those it sent, over the hash's first native row and its token rows; a failed hash has no entries |
| `Movements.PartsAreRows` | src/auradefi/decode/pipeline.py:181-223 | the parts are the first native row, if it moved anything, and then the token rows in order, each with its row's ends, asset and units; one is to oneself if and only if both ends are the account, outgoing if and only if only its sender is, incoming otherwise |
| `Movements.SwapIff` | src/auradefi/decode/pipeline.py:226-233 | a transaction is a swap if and only if the account got something from another and sent something to another, and unknown if and only if it has no part |
| `Movements.DecodedIs` | src/auradefi/decode/pipeline.py:236-278 | its block and time are its rows', it failed if and only if its first native row did, its fee is the gas of that row or else of the first token row, borne by the account if and only if that row is from it; and the ledger row carries all of it |
| `Decoding.OrderOfHashesIrrelevant` | src/auradefi/decode/pipeline.py:114-137 | neither acceptance nor the decode depends on how different hashes are interleaved |
| `Decoding.PagesAcceptedAlike` | src/auradefi/decode/pipeline.py:152-171 | a hash-disjoint concatenation is accepted exactly when both parts are |
| `Decoding.PagesDecodeAlike` | src/auradefi/decode/pipeline.py:114-124 | decoding a hash-disjoint concatenation is the (block, hash)-ordered merge of the decodes |
| `Decoding.MovesNothingIff` | src/auradefi/decode/pipeline.py:181-223 | a hash brings no entry to the ledger if and only if its normal row failed, whatever its tokens, or nothing moved; its fee is the gas it used either way |
| `Decoding.PagedUpsert` | src/auradefi/ledger/backends/memory.py:66-85 | upserting batches with no id in common leaves the live rows one upsert of their union leaves |
| `Decoding.PagedIngestionAgrees` | src/auradefi/embed/facade.py:306-316 | decoding and ingesting a history page by page, no hash split over two pages, leaves the live ledger that its whole decode leaves |
| `Decoding.EntriesOf` | src/auradefi/ledger/bridge.py:40-47 | one entry per part, in part order, and none for a fee |
| `Hooks.ParsesItsText` | src/auradefi/webhooks/models.py:230-240 | the seven event names parse to themselves and nothing else parses |
| `Hooks.ScheduleIs` | src/auradefi/webhooks/models.py:82-87 | a pending row that failed so often is due so long after its creation: at once, then after 1, 5, 30, 120 and 1440 minutes |
| `Hooks.RecordedKeepsLifecycle` | src/auradefi/webhooks/deliver.py:282-304 | an attempt of a pending row leaves it pending with its next slot on the schedule, delivered if and only if it was answered 200 to 299, or dead at the sixth failure, with the status code or the exception it got |
| `Hooks.RecordingFinishedRows` | src/auradefi/webhooks/deliver.py:261-304 | recording on a finished row stays in the lifecycle if and only if it is answered 200 to 299 within the six attempts |
| `Hooks.SixTicksDrain` | src/auradefi/webhooks/models.py:82-87 | six ticks at one instant, whatever the receivers answer, leave nothing due |
| `Hooks.NextOrdinalKeepsGapless` | src/auradefi/webhooks/deliver.py:320-330 | one past the highest ordinal is free and keeps the pair's ordinals gapless |
| `Webhooks.WebhookStore.constructor` | src/auradefi/webhooks/deliver.py:78-84 | the empty store is sound |
| `Webhooks.WebhookStore.RegisterEndpoint` | src/auradefi/webhooks/deliver.py:110-129 | refused exactly on a URL that fails the structural check, an unknown event name or a repeat of the project's URL, with the source's error and nothing changed, the first secret included; otherwise exactly one endpoint and secret are added |
| `Webhooks.WebhookStore.Emit` | src/auradefi/webhooks/deliver.py:183-199 | records the event and adds exactly one fresh original per subscribed endpoint that has none, hands back the rows on file in registration order, and moves no existing row |
| `Webhooks.ReceiversAre` | src/auradefi/webhooks/deliver.py:183-199 | an event goes to exactly the endpoints its project registered for all events or for that one |
| `Webhooks.FanOutAdds` | src/auradefi/webhooks/deliver.py:52-66 | each of them that had none gets its original, pending, unattempted and due at once, and nobody else anything |
| `Webhooks.FanOutIsIdempotent` | src/auradefi/webhooks/deliver.py:172-174 | emitting the same event again changes nothing |
| `Webhooks.WebhookStore.Due` | src/auradefi/webhooks/deliver.py:244-259 | exactly the pending rows whose time has come, across projects, once each, ordered by time and then by id |
| `Webhooks.DueAre` | src/auradefi/webhooks/deliver.py:244-259 | due are exactly the pending rows whose next attempt is not in the future, the longest waiting first and by id where they wait alike |
| `Webhooks.WebhookStore.RecordAttempt` | src/auradefi/webhooks/deliver.py:261-304 | the one row rewritten, every other untouched, and the store sound when the row was pending |
| `Webhooks.WebhookStore.CreateReplay` | src/auradefi/webhooks/deliver.py:320-330 | adds one fresh row at the first free ordinal of the pair and leaves the original as it was |
| `Webhooks.WebhookStore.DeadLetters` | src/auradefi/webhooks/deliver.py:232-242 | the project's dead rows in creation order |
| `Webhooks.DeadAre` | src/auradefi/webhooks/deliver.py:232-242 | exactly the project's rows that are dead, as the store lists them |
| `Webhooks.WebhookStore.ReplayDeadLetters` | src/auradefi/webhooks/replay.py:72-91 | one new pending row for each dead letter, in order, and every original as it was |
| `Deliverers.Deliverer.Attempt` | src/auradefi/webhooks/deliver.py:369-397 | the endpoint, event and secret are always found, one request is made, and its outcome recorded |
| `Deliverers.Deliverer.Tick` | src/auradefi/webhooks/deliver.py:345-367 | every due row is attempted exactly once in due order, no finished or future row moves, posts per row equal its `attempts`, and no lookup fails |
| `Deliverers.DrainPosts` | src/auradefi/webhooks/deliver.py:345-397 | a drain posts each due row once, in order: to its endpoint, the body its event and id determine, signed at that instant with the endpoint's secret; and records on the row what that very post was answered |
| `Deliverers.StoreMovesKeepPosts` | src/auradefi/webhooks/deliver.py:183-212 | emitting and replaying post nothing: posts still equal attempts for every row |
| `Deliverers.RetriesAreIdentical` | src/auradefi/webhooks/models.py:280-296 | every retry goes to the same URL with the same body, and a replay's body differs in the delivery id alone |
| `DeliveryRuns.Perform` | src/auradefi/webhooks/deliver.py:67-397 | every call of the store and of the deliverer is one step of the runs below |
| `DeliveryRuns.StepKeeps` | src/auradefi/webhooks/deliver.py:67-397 | every call keeps every promise below, loses no row and changes no finished one |
| `DeliveryRuns.RunKeeps` | src/auradefi/webhooks/deliver.py:67-397 | over every run of registering, emitting, replaying and ticking: rows in their lifecycle and backed by an endpoint, secret and event, ordinals without a gap, posts equal to attempts and with the one body; between any two states no row is lost, no attempt forgotten and no finished row changed |
| `DeliveryRuns.TickPosts` | src/auradefi/webhooks/deliver.py:345-397 | in any state of a run a tick does so for exactly the rows due |
| `DeliveryRuns.RunRows` | src/auradefi/webhooks/deliver.py:261-397 | what that says of a row: pending on the schedule with fewer than six attempts, delivered, or dead at six, posted exactly once an attempt, every earlier ordinal on file |
| `DeliveryRuns.RunDrains` | src/auradefi/webhooks/models.py:82-87 | in every run six consecutive ticks at one instant leave nothing due |
| `Drilling.ValueAndTally` | src/auradefi/positions/drill.py:161-174 | every position is valued or the first missing or foreign price is the error; gross and debt are exactly the positive and negative parts |
| `Drilling.Tally` | src/auradefi/positions/drill.py:170-174 | the inner loop adds each value to the side of its sign, exactly |
| `Drilling.MakeGroup` | src/auradefi/positions/models.py:269-299 | refused when empty or mixed, on a currency clash within a position, when a position is unvalued, and on a clash between positions, in that order and with the source's error; otherwise the total is the sum of its positions, which for a drilled group is exactly their worth |
| `Drilling.UnvaluedIff` | src/auradefi/positions/models.py:199-210 | a position is unvalued if and only if one of its underlyings is |
| `Drilling.PositionIsWorth` | src/auradefi/positions/models.py:199-210 | a drilled position's value is the exact sum of its underlyings |
| `Drilling.MergedGroupInfo` | src/auradefi/positions/drill.py:123-137 | fails exactly when two members' infos conflict, else returns the one they agree on |
| `Drilling.GroupsPartition` | src/auradefi/positions/drill.py:175-181 | grouping by id partitions the positions: the groups' worth is the whole worth |
| `Drilling.Grouped` | src/auradefi/positions/drill.py:175-181 | the groups in id order, each exactly its members, or the conflict |
| `Drilling.Drill` | src/auradefi/positions/drill.py:140-188 | fails exactly on the first unusable price or else on conflicting infos; otherwise every underlying is valued and the triple and groups are exact |
| `Drilling.ValuedIff` | src/auradefi/positions/drill.py:100-120 | every position is valued if and only if each underlying has a price in dollars; otherwise the error is that of the first that has none: unknown if it has no price, a mismatch if in another currency |
| `Drilling.ValuedKeeps` | src/auradefi/positions/drill.py:113-120 | valuing keeps every position and underlying in its place and changes only price and value |
| `Drilling.WorthIs` | src/auradefi/positions/drill.py:113-120 | a valued underlying is worth raw * 10^-decimals * price, negated if and only if it is borrowed |
| `Drilling.DrillComesTo` | src/auradefi/positions/drill.py:158-188 | with no price and no quantity below zero, the gross assets are the sum of that over the underlyings not borrowed, the debt over those borrowed, and the net worth the one less the other |
| `Drilling.ProjectToSyntheticHoldings` | src/auradefi/positions/drill.py:191-222 | one holding per valued underlying, in order |
| `Drilling.HoldingComesTo` | src/auradefi/positions/drill.py:205-222 | a holding has the underlying's asset, units and price, and is worth units times price; its quantity is below zero if and only if the underlying is borrowed with units above zero |
| `Drilling.ProjectedInOrder` | src/auradefi/positions/drill.py:205-222 | the holdings come position by position and in each position's own order |
| `Drilling.HoldingIsValue` | src/auradefi/positions/drill.py:209-213 | negating the quantity gives the drilled value to the last digit |
| `Drilling.ProjectionInvariant` | src/auradefi/positions/drill.py:203-205 | projected institution values, group totals and `gross_assets - total_debt` are one number, with gross and debt never negative |

## Left out

- The HTTP shell, routes, clients, cassettes, sandbox and scripts: I/O and presentation.
- The SQL ledger backend: it rests on a database session that cannot be seen.
- Digests, signatures and secrets: ids stand for the fields they hash, a signature for the
  secret, timestamp and body it covers. Where rows are ordered by id the order is that of
  an unknown one-to-one digest.
- URL, CAIP and address grammars, case folding, and JSON snapshots of payloads:
  the URL check is a parameter, other strings are taken as already checked, and a webhook
  payload is an opaque string.
- Type guards such as bool before int: Dafny's types discharge them.
- Decimal exponents are unbounded, so the decimal context's overflow and underflow are not
  modelled. How a context breaks a tie between two nearest decimals is left open: every
  statement about `Rounding.Context` holds whichever it takes.
- The order of a report's open-lot rows by asset, time and lot id: the model lists them ledger by
  ledger, and what is said of their sum holds in any order.
- HifoReplay.HifoRealizesLeast: compares booked gains only where no basis rounded, because a booked gain is of the rounded basis; HifoReplay.HifoChargesMost compares the exact bases without that.
- Independence.MethodIndependence: the same, for booked gains; Independence.ExactIndependence is about the exact bases.
- Drilling.Drill: a position's adapter, chain, contract, kind, module, APY and range are not carried, because no computation reads them.
- Sync.SyncEngine.Ingest: each chain row is read as one normal record, and what it counts as new are rows. That live transactions are exactly the rows ingested is promised where each row has a hash of its own, because rows of one hash split over two pages decode apart.
- Dispatch.RunSync: each pair is an engine with its own stored state over one shared transport, in place of one engine with a store keyed by tenant and connection.
- `MemorySyncState` beyond reading and writing one connection's state: one-step dictionary facts.
- Decoding.DecodeAccount: addresses are taken as already lowercased.
- Display fields, data quality, scalar metrics, quotas, prices, asset registries, redemption of receipt
  tokens, and tenancy: one-step facts beside the cores above.
