/** The two bases a report gives: what its unrealised figure subtracted, and what its
    open-lot rows add up to (accounting/report.py open_lots_basis). */
module LotBasis {
  import opened Common
  import opened Decimals
  import opened Lots
  import opened Selection
  import opened SelectionSpec
  import opened Basis
  import opened Pnl
  import opened Rounding
  import opened Accounts
  import opened Report
  import opened Replay
  import opened ReportFacts
  import Refinement

  /** The exact sum of the rows' bases: unknown as soon as one row's is. */
  function ExactBasis(rows: seq<TaxLot>): Option<real> {
    if rows == [] then Some(0.0)
    else
      var rest := ExactBasis(rows[..|rows| - 1]);
      var last := rows[|rows| - 1].costBasis;
      if rest.None? || last.None? then None else Some(rest.value + last.value.amount)
  }

  /** `open_lots_basis`: every addition is rounded by the ambient context. */
  function OpenLotsBasis(add: Context, rows: seq<TaxLot>): Option<real> {
    if rows == [] then Some(0.0)
    else
      var rest := OpenLotsBasis(add, rows[..|rows| - 1]);
      var last := rows[|rows| - 1].costBasis;
      if rest.None? || last.None? then None else Some(add(rest.value + last.value.amount))
  }

  method SumOpenLots(add: Context, rows: seq<TaxLot>) returns (total: Option<real>)
    ensures total == OpenLotsBasis(add, rows)
  {
    hide Rounds;
    var sum := 0.0;
    for k := 0 to |rows|
      invariant OpenLotsBasis(add, rows[..k]) == Some(sum)
    {
      assert rows[..k + 1][..k] == rows[..k];
      if rows[k].costBasis.None? {
        UnknownStays(add, rows, k + 1);
        return None;
      }
      sum := add(sum + rows[k].costBasis.value.amount);
    }
    assert rows[..|rows|] == rows;
    return Some(sum);
  }

  lemma {:induction false} UnknownStays(add: Context, rows: seq<TaxLot>, k: nat)
    requires k <= |rows| && OpenLotsBasis(add, rows[..k]).None?
    ensures OpenLotsBasis(add, rows).None?
    decreases |rows|
  {
    if k == |rows| {
      assert rows[..k] == rows;
    } else {
      assert rows[..|rows| - 1][..k] == rows[..k];
      UnknownStays(add, rows[..|rows| - 1], k);
    }
  }

  lemma {:induction false} BasisJoins(a: seq<TaxLot>, b: seq<TaxLot>)
    ensures ExactBasis(a + b).Some? <==> ExactBasis(a).Some? && ExactBasis(b).Some?
    ensures ExactBasis(a + b).Some? ==> ExactBasis(a + b).value == ExactBasis(a).value + ExactBasis(b).value
  {
    if b == [] {
      assert a + b == a;
    } else {
      assert (a + b)[..|a + b| - 1] == a + b[..|b| - 1];
      BasisJoins(a, b[..|b| - 1]);
    }
  }

  predicate Unflagged(rows: seq<TaxLot>) {
    forall k | 0 <= k < |rows| :: !rows[k].rounded
  }

  lemma UnflaggedFront(rest: seq<TaxLot>, row: TaxLot)
    requires Unflagged(rest + [row])
    ensures Unflagged(rest) && !row.rounded
  {
    forall k | 0 <= k < |rest|
      ensures !rest[k].rounded
    {
      assert (rest + [row])[k] == rest[k];
    }
    assert (rest + [row])[|rest|] == row;
  }

  lemma BasisOneMore(rest: seq<TaxLot>, row: TaxLot)
    requires ExactBasis(rest).Some? && row.costBasis.Some?
    ensures ExactBasis(rest + [row]) == Some(ExactBasis(rest).value + row.costBasis.value.amount)
  {
    assert (rest + [row])[..|rest|] == rest;
  }

  /** The rows of some lots carry their exact basis when none is flagged. */
  lemma {:induction false} RowsCarryBasis(fx: Boundary, lots: seq<Lot>, mark: Option<Money>, currency: string)
    requires forall k | 0 <= k < |lots| :: Live(lots[k]) && lots[k].costRemaining.Some?
    requires Unflagged(TaxLots(fx, lots, mark, currency))
    ensures ExactBasis(TaxLots(fx, lots, mark, currency)) == Some(BasisOf(lots))
  {
    hide Live, ToTaxLot, BasisIn, Unflagged, ExactBasis;
    if lots == [] {
      NoRowsNoBasis();
    } else {
      var n := |lots| - 1;
      var rest, row := TaxLots(fx, lots[..n], mark, currency), ToTaxLot(fx, lots[n], mark, currency);
      UnflaggedFront(rest, row);
      RowsCarryBasis(fx, lots[..n], mark, currency);
      RowCarriesBasis(fx, lots[n], mark, currency);
      BasisOneMore(rest, row);
    }
  }

  lemma RowCarriesBasis(fx: Boundary, l: Lot, mark: Option<Money>, currency: string)
    requires Live(l) && l.costRemaining.Some? && !ToTaxLot(fx, l, mark, currency).rounded
    ensures ToTaxLot(fx, l, mark, currency).costBasis.Some?
    ensures ToTaxLot(fx, l, mark, currency).costBasis.value.amount == BasisIn(l)
  {
  }

  /** One asset's rows sum to the basis its unrealised amount subtracts. */
  lemma AssetBasisAgrees(fx: Boundary, s: State, a: string, marks: Marks)
    requires ValidState(s) && !s.how.Acb? && a in s.accounts && Unflagged(Rows(fx, s, a, marks))
    requires UnitsLeft(s.accounts[a]) == 0 || HeldBasis(s.how, s.accounts[a]).Some?
    ensures ExactBasis(Rows(fx, s, a, marks)) == Some(Costed(s.how, s.accounts[a]))
  {
    hide MarkOf, TaxLots, ValidState;
    var lots := s.accounts[a].ledger.lots;
    var open := OpenLots(lots);
    Refinement.OpenLotsAreLive(lots);
    OpenKeepsTotals(lots, Any);
    if UnitsLeft(s.accounts[a]) == 0 {
      NoneOpen(open);
    } else {
      forall k | 0 <= k < |open|
        ensures open[k].costRemaining.Some?
      {
        assert open[k] in lots;
      }
    }
    RowsCarryBasis(fx, open, MarkOf(marks, a), CurrencyOf(s));
  }

  lemma {:induction false} NoneOpen(open: seq<Lot>)
    requires UnitsHeld(open) == 0 && forall k | 0 <= k < |open| :: Live(open[k])
    ensures open == []
  {
  }

  lemma {:induction false} BasesAgreeOver(fx: Boundary, s: State, assets: seq<string>, marks: Marks)
    requires ValidState(s) && !s.how.Acb? && forall a :: a in assets ==> a in s.accounts
    requires forall a | a in assets :: Unflagged(Rows(fx, s, a, marks))
    requires forall a | a in assets :: UnitsLeft(s.accounts[a]) == 0 || HeldBasis(s.how, s.accounts[a]).Some?
    ensures ExactBasis(AllRows(fx, s, assets, marks)) == Some(TotalCosted(s, assets))
  {
    hide Rows, Unflagged, Costed, UnitsLeft, HeldBasis, ValidState, ExactBasis;
    if assets == [] {
      NoRowsNoBasis();
    } else {
      var n := |assets| - 1;
      assert assets[n] in assets;
      BasesAgreeOver(fx, s, assets[..n], marks);
      AssetBasisAgrees(fx, s, assets[n], marks);
      BasisJoins(AllRows(fx, s, assets[..n], marks), Rows(fx, s, assets[n], marks));
    }
  }

  lemma NoRowsNoBasis()
    ensures ExactBasis([]) == Some(0.0)
  {
  }

  lemma {:induction false} SlicesAre(fx: Boundary, s: State, assets: seq<string>, marks: Marks)
    requires forall a :: a in assets ==> a in s.accounts
    ensures forall a :: a in PerAsset(fx, s, assets, marks) <==> a in assets
    ensures forall a | a in assets :: PerAsset(fx, s, assets, marks)[a] == AssetSlice(fx, s, a, marks)
  {
    hide AssetSlice;
    if assets != [] {
      SlicesAre(fx, s, assets[..|assets| - 1], marks);
      assert assets == assets[..|assets| - 1] + [assets[|assets| - 1]];
    }
  }

  lemma AssetsHaveAccounts(s: State)
    requires ValidState(s)
    ensures forall a | a in s.assets :: a in s.accounts
  {
  }

  lemma UnflaggedSlice(fx: Boundary, s: State, a: string, marks: Marks)
    requires a in s.accounts && !AssetSlice(fx, s, a, marks).rounded
    ensures Unflagged(Rows(fx, s, a, marks))
  {
  }

  // ------------------------------------------------- what the rounding does

  /** Every running total but the last is one the context keeps. */
  ghost predicate RunningFits(rows: seq<TaxLot>) {
    forall k | 0 <= k < |rows| :: ExactBasis(rows[..k]).Some? ==> Fits(ExactBasis(rows[..k]).value)
  }

  lemma ZeroFits()
    ensures Fits(0.0)
  {
    assert Value(ZERO) == 0.0;
  }

  /** Both sums are known on the same rows, and what the loop returns always fits. */
  lemma {:induction false} KnownTogether(add: Context, rows: seq<TaxLot>)
    ensures OpenLotsBasis(add, rows).Some? <==> ExactBasis(rows).Some?
    ensures OpenLotsBasis(add, rows).Some? ==> Fits(OpenLotsBasis(add, rows).value)
  {
    hide Rounds, Fits;
    ZeroFits();
    if rows != [] {
      var n := |rows| - 1;
      KnownTogether(add, rows[..n]);
      if OpenLotsBasis(add, rows).Some? {
        ContextKeeps(add, OpenLotsBasis(add, rows[..n]).value + rows[n].costBasis.value.amount);
      }
    }
  }

  /** While the running totals fit, the loop is exact if and only if the total fits. */
  lemma {:induction false} ExactIffFits(add: Context, rows: seq<TaxLot>)
    requires ExactBasis(rows).Some? && RunningFits(rows)
    ensures OpenLotsBasis(add, rows) == ExactBasis(rows) <==> Fits(ExactBasis(rows).value)
  {
    hide Rounds, Fits;
    ZeroFits();
    if rows != [] {
      var n := |rows| - 1;
      var init := rows[..n];
      forall k | 0 <= k < |init|
        ensures ExactBasis(init[..k]).Some? ==> Fits(ExactBasis(init[..k]).value)
      {
        assert init[..k] == rows[..k];
      }
      ExactIffFits(add, init);
      assert Fits(ExactBasis(rows[..n]).value);
      ContextKeeps(add, ExactBasis(rows).value);
    }
  }

  // ----------------------------------------------------- the order of rows

  lemma {:induction false} BasisWithout(rows: seq<TaxLot>, k: nat)
    requires k < |rows|
    ensures ExactBasis(rows).Some? <==> ExactBasis(rows[..k] + rows[k + 1..]).Some? && rows[k].costBasis.Some?
    ensures ExactBasis(rows).Some? ==>
      ExactBasis(rows).value == ExactBasis(rows[..k] + rows[k + 1..]).value + rows[k].costBasis.value.amount
  {
    var n := |rows| - 1;
    var without := rows[..k] + rows[k + 1..];
    if k == n {
      assert without == rows[..n];
    } else {
      BasisWithout(rows[..n], k);
      assert without[..|without| - 1] == rows[..n][..k] + rows[..n][k + 1..];
    }
  }

  /** Taking an element out of a sequence takes one copy of it out of its multiset. */
  lemma WithoutOne<T>(s: seq<T>, k: nat)
    requires k < |s|
    ensures multiset(s[..k] + s[k + 1..]) == multiset(s) - multiset{s[k]}
  {
    assert s == s[..k] + [s[k]] + s[k + 1..];
  }

  /** A permutation of a sequence holds its last element somewhere. */
  lemma SomewhereInOther<T>(a: seq<T>, b: seq<T>) returns (k: nat)
    requires multiset(a) == multiset(b) && a != []
    ensures k < |b| && b[k] == a[|a| - 1] && multiset(b[..k] + b[k + 1..]) == multiset(a[..|a| - 1])
  {
    var n := |a| - 1;
    assert a[n] in multiset(b);
    k :| 0 <= k < |b| && b[k] == a[n];
    WithoutOne(b, k);
    WithoutOne(a, n);
    assert a[..n] + a[n + 1..] == a[..n];
  }

  /** The exact sum does not depend on the order of the rows. */
  lemma {:induction false} AnyOrder(a: seq<TaxLot>, b: seq<TaxLot>)
    requires multiset(a) == multiset(b)
    ensures ExactBasis(a) == ExactBasis(b)
    decreases |a|
  {
    if a == [] {
      assert |multiset(b)| == 0;
    } else {
      var k := SomewhereInOther(a, b);
      AnyOrder(a[..|a| - 1], b[..k] + b[k + 1..]);
      BasisWithout(b, k);
    }
  }

  // -------------------------------------------------------- the agreement

  ghost predicate AllTerminate(rows: seq<TaxLot>) {
    forall k | 0 <= k < |rows| && rows[k].costBasis.Some? :: Terminates(rows[k].costBasis.value.amount)
  }

  lemma {:induction false} SumOfTerminating(rows: seq<TaxLot>)
    requires ExactBasis(rows).Some? && AllTerminate(rows)
    ensures Terminates(ExactBasis(rows).value)
  {
    if rows == [] {
      assert Value(ZERO) == 0.0;
    } else {
      var n := |rows| - 1;
      SumOfTerminating(rows[..n]);
      SumTerminates(ExactBasis(rows[..n]).value, rows[n].costBasis.value.amount);
    }
  }

  /** An unflagged row's basis crossed exactly. */
  lemma {:induction false} UnflaggedTerminate(fx: Boundary, lots: seq<Lot>, mark: Option<Money>, currency: string)
    requires Unflagged(TaxLots(fx, lots, mark, currency))
    ensures AllTerminate(TaxLots(fx, lots, mark, currency))
  {
    hide Price, MarkValue, Faithful;
    if lots != [] {
      var n := |lots| - 1;
      UnflaggedFront(TaxLots(fx, lots[..n], mark, currency), ToTaxLot(fx, lots[n], mark, currency));
      UnflaggedTerminate(fx, lots[..n], mark, currency);
      if lots[n].costRemaining.Some? {
        ExactMeansUnchanged(fx, lots[n].costRemaining.value);
      }
    }
  }

  lemma {:induction false} AllUnflaggedTerminate(fx: Boundary, s: State, assets: seq<string>, marks: Marks)
    requires forall a :: a in assets ==> a in s.accounts
    requires forall a | a in assets :: Unflagged(Rows(fx, s, a, marks))
    ensures AllTerminate(AllRows(fx, s, assets, marks))
  {
    hide Unflagged;
    if assets != [] {
      var n := |assets| - 1;
      AllUnflaggedTerminate(fx, s, assets[..n], marks);
      assert assets[n] in assets;
      UnflaggedTerminate(fx, OpenLots(s.accounts[assets[n]].ledger.lots), MarkOf(marks, assets[n]), CurrencyOf(s));
    }
  }

  /** An unflagged report with an unrealised figure subtracted the exact sum of its rows. */
  lemma UnflaggedBasis(fx: Boundary, s: State, asOfMs: int, marks: Marks)
    requires ValidState(s) && !s.how.Acb? && ReportOf(fx, s, asOfMs, marks).Ok?
    requires var r := ReportOf(fx, s, asOfMs, marks).value; r.unrealized.Some? && !r.rounded
    ensures var r := ReportOf(fx, s, asOfMs, marks).value;
      r.unrealizedBasis.Some? && ExactBasis(r.openLots) == Some(r.unrealizedBasis.value.amount)
  {
    hide ValidState, AssetSlice, Rows, HeldBasis, UnitsLeft, ExactBasis, Faithful, Unflagged, AllTerminate, Terminates;
    AssetsHaveAccounts(s);
    SlicesAre(fx, s, s.assets, marks);
    UnrealizedKnownIff(s, s.assets, marks);
    forall a | a in s.assets
      ensures Unflagged(Rows(fx, s, a, marks))
    {
      assert !PerAsset(fx, s, s.assets, marks)[a].rounded;
      UnflaggedSlice(fx, s, a, marks);
    }
    BasesAgreeOver(fx, s, s.assets, marks);
    AllUnflaggedTerminate(fx, s, s.assets, marks);
    SumOfTerminating(AllRows(fx, s, s.assets, marks));
    ExactMeansUnchanged(fx, TotalCosted(s, s.assets));
  }

  /** Under every lot-tracking method, in an unflagged report with an unrealised figure
      and in whatever order the rows stand, `open_lots_basis` can only equal
      `unrealized_basis` when that has at most 28 digits; and when every running total
      before it has too, it does. */
  lemma LotBasisIsReportedBasis(fx: Boundary, add: Context, s: State, asOfMs: int, marks: Marks, rows: seq<TaxLot>)
    requires ValidState(s) && !s.how.Acb? && ReportOf(fx, s, asOfMs, marks).Ok?
    requires var r := ReportOf(fx, s, asOfMs, marks).value;
      r.unrealized.Some? && !r.rounded && multiset(rows) == multiset(r.openLots)
    ensures var r := ReportOf(fx, s, asOfMs, marks).value;
      && OpenLotsBasis(add, rows).Some? && r.unrealizedBasis.Some?
      && (OpenLotsBasis(add, rows).value == r.unrealizedBasis.value.amount ==> Fits(r.unrealizedBasis.value.amount))
      && (RunningFits(rows) && Fits(r.unrealizedBasis.value.amount) ==>
            OpenLotsBasis(add, rows).value == r.unrealizedBasis.value.amount)
  {
    hide ReportOf, OpenLotsBasis, ExactBasis, Fits, RunningFits;
    AssetsHaveAccounts(s);
    var r := ReportOf(fx, s, asOfMs, marks).value;
    UnflaggedBasis(fx, s, asOfMs, marks);
    AnyOrder(rows, r.openLots);
    KnownTogether(add, rows);
    if RunningFits(rows) {
      ExactIffFits(add, rows);
    }
  }

  // ------------------------------------------------------ one open lot

  /** One lot's row carries what its asset's unrealised amount subtracts, rounded or not. */
  lemma OneLotCosted(fx: Boundary, s: State, a: string, marks: Marks)
    requires ValidState(s) && !s.how.Acb? && a in s.accounts && |Rows(fx, s, a, marks)| <= 1
    requires UnitsLeft(s.accounts[a]) == 0 || HeldBasis(s.how, s.accounts[a]).Some?
    ensures Rows(fx, s, a, marks) == [] ==> Costed(s.how, s.accounts[a]) == 0.0
    ensures Rows(fx, s, a, marks) != [] ==>
      Rows(fx, s, a, marks)[0].costBasis == Cross(fx, Some(Costed(s.how, s.accounts[a])), CurrencyOf(s))
  {
    hide MarkOf, ValidState, Price, MarkValue, Faithful;
    var lots := s.accounts[a].ledger.lots;
    var open := OpenLots(lots);
    Refinement.OpenLotsAreLive(lots);
    OpenKeepsTotals(lots, Any);
    RowPerLot(fx, open, MarkOf(marks, a), CurrencyOf(s));
    if open != [] {
      assert open == [open[0]] && open[0] in lots;
      assert open[..0] == [];
    }
  }

  lemma {:induction false} RowPerLot(fx: Boundary, lots: seq<Lot>, mark: Option<Money>, currency: string)
    ensures |TaxLots(fx, lots, mark, currency)| == |lots|
  {
    if lots != [] {
      RowPerLot(fx, lots[..|lots| - 1], mark, currency);
    }
  }

  lemma {:induction false} OneRowCosted(fx: Boundary, s: State, assets: seq<string>, marks: Marks)
    requires ValidState(s) && !s.how.Acb? && forall a :: a in assets ==> a in s.accounts
    requires forall a | a in assets :: UnitsLeft(s.accounts[a]) == 0 || HeldBasis(s.how, s.accounts[a]).Some?
    requires |AllRows(fx, s, assets, marks)| <= 1
    ensures AllRows(fx, s, assets, marks) == [] ==> TotalCosted(s, assets) == 0.0
    ensures AllRows(fx, s, assets, marks) != [] ==>
      AllRows(fx, s, assets, marks)[0].costBasis == Cross(fx, Some(TotalCosted(s, assets)), CurrencyOf(s))
  {
    hide Rows, Costed, UnitsLeft, HeldBasis, ValidState, Cross;
    if assets != [] {
      var n := |assets| - 1;
      assert assets[n] in assets;
      OneRowCosted(fx, s, assets[..n], marks);
      OneLotCosted(fx, s, assets[n], marks);
    }
  }

  lemma OneRowSum(add: Context, row: TaxLot)
    requires row.costBasis.Some?
    ensures OpenLotsBasis(add, [row]) == Some(add(row.costBasis.value.amount))
  {
    hide Rounds;
    assert [row][..0] == [];
  }

  /** With one open lot, flagged or not, the two are equal exactly when the basis fits. */
  lemma OneLotBasisIff(fx: Boundary, add: Context, s: State, asOfMs: int, marks: Marks)
    requires ValidState(s) && !s.how.Acb? && ReportOf(fx, s, asOfMs, marks).Ok?
    requires var r := ReportOf(fx, s, asOfMs, marks).value; r.unrealized.Some? && |r.openLots| == 1
    ensures var r := ReportOf(fx, s, asOfMs, marks).value;
      && OpenLotsBasis(add, r.openLots).Some? && r.unrealizedBasis.Some?
      && (OpenLotsBasis(add, r.openLots).value == r.unrealizedBasis.value.amount
          <==> Fits(r.unrealizedBasis.value.amount))
  {
    hide ValidState, AssetSlice, Rows, HeldBasis, UnitsLeft, Faithful, Fits, Rounds, OpenLotsBasis;
    AssetsHaveAccounts(s);
    UnrealizedKnownIff(s, s.assets, marks);
    OneRowCosted(fx, s, s.assets, marks);
    var r := ReportOf(fx, s, asOfMs, marks).value;
    assert r.openLots == [r.openLots[0]];
    OneRowSum(add, r.openLots[0]);
    ContextKeeps(add, r.unrealizedBasis.value.amount);
  }

  // ------------------------------------------------- when either is unknown

  ghost predicate PricedLots(lots: seq<Lot>) {
    forall l | l in lots :: l.costRemaining.Some?
  }

  lemma {:induction false} RowsKnownIff(fx: Boundary, lots: seq<Lot>, mark: Option<Money>, currency: string)
    ensures ExactBasis(TaxLots(fx, lots, mark, currency)).Some? <==> PricedLots(lots)
  {
    hide Price, MarkValue, Faithful;
    if lots != [] {
      var n := |lots| - 1;
      RowsKnownIff(fx, lots[..n], mark, currency);
      assert lots == lots[..n] + [lots[n]];
      var rest, row := TaxLots(fx, lots[..n], mark, currency), ToTaxLot(fx, lots[n], mark, currency);
      assert (rest + [row])[..|rest|] == rest;
    }
  }

  /** An account's rows have a known sum exactly when it knows what it has left. */
  lemma AccountKnownIff(fx: Boundary, s: State, a: string, marks: Marks)
    requires a in s.accounts && !s.how.Acb?
    ensures ExactBasis(Rows(fx, s, a, marks)).Some? <==> BasisLeft(s.how, s.accounts[a]).Some?
  {
    hide TaxLots, MarkOf, ExactBasis;
    var lots := s.accounts[a].ledger.lots;
    RowsKnownIff(fx, OpenLots(lots), MarkOf(marks, a), CurrencyOf(s));
    OpenLotsAre(lots);
  }

  lemma {:induction false} OpenLotsAre(lots: seq<Lot>)
    ensures forall l :: l in OpenLots(lots) <==> l in lots && Live(l)
  {
    if lots != [] {
      var n := |lots| - 1;
      OpenLotsAre(lots[..n]);
      assert lots == lots[..n] + [lots[n]];
    }
  }

  lemma {:induction false} AllKnownIff(fx: Boundary, s: State, assets: seq<string>, marks: Marks)
    requires !s.how.Acb? && forall a :: a in assets ==> a in s.accounts
    ensures ExactBasis(AllRows(fx, s, assets, marks)).Some? <==>
      forall a | a in assets :: BasisLeft(s.how, s.accounts[a]).Some?
  {
    hide Rows, BasisLeft, ExactBasis;
    if assets == [] {
      NoRowsNoBasis();
    } else {
      var n := |assets| - 1;
      AllKnownIff(fx, s, assets[..n], marks);
      AccountKnownIff(fx, s, assets[n], marks);
      BasisJoins(AllRows(fx, s, assets[..n], marks), Rows(fx, s, assets[n], marks));
      assert assets == assets[..n] + [assets[n]];
    }
  }

  lemma FlatIsKnown(how: Method, a: Account)
    requires UnitsLeft(a) == 0 && !how.Acb?
    ensures BasisLeft(how, a).Some?
  {
    var lots := a.ledger.lots;
    OpenKeepsTotals(lots, Any);
    OpenLotsAre(lots);
    NoneOpen(OpenLots(lots));
    assert OpenLots(lots) == [];
  }

  /** The two are known together but for one case: every open lot is priced and some asset
      held has no mark, where the report withholds its figure and the rows still sum. */
  lemma BasesKnownAlike(fx: Boundary, add: Context, s: State, asOfMs: int, marks: Marks, rows: seq<TaxLot>)
    requires (forall a | a in s.assets :: a in s.accounts) && !s.how.Acb? && ReportOf(fx, s, asOfMs, marks).Ok?
    requires multiset(rows) == multiset(ReportOf(fx, s, asOfMs, marks).value.openLots)
    ensures var r := ReportOf(fx, s, asOfMs, marks).value;
      && (r.unrealizedBasis.Some? ==> OpenLotsBasis(add, rows).Some?)
      && (OpenLotsBasis(add, rows).Some? && r.unrealizedBasis.None? <==>
            && (forall a | a in s.assets :: BasisLeft(s.how, s.accounts[a]).Some?)
            && (exists a :: a in s.assets && UnitsLeft(s.accounts[a]) > 0 && a !in marks))
  {
    hide UnitsLeft, BasisLeft, ExactBasis, OpenLotsBasis, AllRows, PerAsset;
    UnrealizedKnownIff(s, s.assets, marks);
    AllKnownIff(fx, s, s.assets, marks);
    AnyOrder(rows, AllRows(fx, s, s.assets, marks));
    KnownTogether(add, rows);
    forall a | a in s.assets && UnitsLeft(s.accounts[a]) == 0
      ensures BasisLeft(s.how, s.accounts[a]).Some?
    {
      FlatIsKnown(s.how, s.accounts[a]);
    }
  }
}
