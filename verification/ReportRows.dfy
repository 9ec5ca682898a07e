/** The open-lot rows, flags and known figures of a report, each in terms of the lots
    (accounting/report.py). */
module ReportRows {
  import opened Common
  import opened Decimals
  import opened Lots
  import opened Selection
  import opened Pnl
  import opened Rounding
  import opened Accounts
  import opened Report
  import opened Replay
  import opened ReportFacts
  import LotBasis

  // --------------------------------------------------------------- one row

  /** A figure crosses to money: itself when it terminates, otherwise a nearest 28 digits. */
  ghost predicate CrossedFrom(money: Option<Money>, v: real, currency: string) {
    && money.Some? && money.value.currency == currency
    && (Terminates(v) ==> money.value.amount == v) && (!Terminates(v) ==> Nearest(v, money.value.amount))
  }

  /** What one lot originally cost per whole unit. */
  ghost predicate UnitPrice(l: Lot, v: real) {
    && l.costTotal.Some?
    && v * l.original.raw as real == l.costTotal.value.amount * PowInt(10, l.original.decimals) as real
  }

  /** A lot's row: its own id, day and units; the price per unit it was bought at, however much
      of it is left; the basis left in it; and its units at the mark.  It is flagged exactly
      when the price or the basis had no finite expansion. */
  lemma RowIs(fx: Boundary, l: Lot, mark: Option<Money>, currency: string)
    ensures var row := ToTaxLot(fx, l, mark, currency);
      && row.lotId == l.lotId && row.openedAtMs == l.openedAtMs && row.quantity == l.remaining
      && (row.price.None? <==> l.costTotal.None?) && (row.costBasis.None? <==> l.costRemaining.None?)
      && (row.value.None? <==> mark.None?)
    ensures var row := ToTaxLot(fx, l, mark, currency);
      l.costTotal.Some? ==> exists v :: UnitPrice(l, v) && CrossedFrom(row.price, v, currency)
    ensures var row := ToTaxLot(fx, l, mark, currency);
      && (l.costRemaining.Some? ==> CrossedFrom(row.costBasis, l.costRemaining.value, currency))
      && (mark.Some? ==>
            row.value.value.currency == currency
            && row.value.value.amount
               == mark.value.amount * (l.remaining.raw as real / PowInt(10, l.remaining.decimals) as real))
      && (row.rounded <==>
            || (exists v :: UnitPrice(l, v) && !Terminates(v))
            || (l.costRemaining.Some? && !Terminates(l.costRemaining.value)))
  {
    hide Value, AsDecimal, Terminates, Nearest, UnitPrice;
    Crosses(fx, l.costRemaining, currency);
    UnitsDivided(l.remaining.raw, l.remaining.decimals);
    Crosses(fx, Price(l), currency);
    PriceIs(l);
  }

  lemma Crosses(fx: Boundary, v: Option<real>, currency: string)
    ensures v.Some? ==> CrossedFrom(Cross(fx, v, currency), v.value, currency)
    ensures Inexact(fx, v) <==> v.Some? && !Terminates(v.value)
  {
    if v.Some? {
      assert CrossesTo(v.value, fx(v.value));
    }
  }

  lemma PriceIs(l: Lot)
    ensures Price(l).Some? <==> l.costTotal.Some?
    ensures Price(l).Some? ==> UnitPrice(l, Price(l).value)
    ensures forall v :: UnitPrice(l, v) ==> Price(l) == Some(v)
  {
    if l.costTotal.Some? {
      UnitsDivided(l.original.raw, l.original.decimals);
      forall v
        ensures UnitPrice(l, v) <==> Price(l) == Some(v)
      {
        PerUnit(v, l.costTotal.value.amount, l.original.raw as real, PowInt(10, l.original.decimals) as real);
      }
    }
  }

  lemma PerUnit(v: real, cost: real, units: real, p: real)
    requires units > 0.0 && p > 0.0
    ensures v == cost / (units / p) <==> v * units == cost * p
  {
    var q := units / p;
    assert q * p == units;
    Positive(q, p);
    assert v == cost / q <==> v * q == cost by {
      DividesBack(v, cost, q);
    }
    assert v * units == (v * q) * p by {
      Reassociate(v, q, p);
    }
    SameTimes(v * q, cost, p);
  }

  lemma Positive(q: real, p: real)
    requires p > 0.0 && q * p > 0.0
    ensures q > 0.0
  {
  }

  lemma DividesBack(v: real, cost: real, q: real)
    requires q > 0.0
    ensures v == cost / q <==> v * q == cost
  {
  }

  lemma Reassociate(v: real, q: real, p: real)
    ensures v * (q * p) == (v * q) * p
  {
  }

  lemma SameTimes(x: real, y: real, p: real)
    requires p > 0.0
    ensures x * p == y * p <==> x == y
  {
  }

  // ------------------------------------------------------------- all rows

  /** The rows are those of the lots still open, of every asset seen, and nothing else. */
  lemma {:induction false} RowsAreOpenLots(fx: Boundary, s: State, assets: seq<string>, marks: Marks)
    requires forall a :: a in assets ==> a in s.accounts
    ensures forall row :: row in AllRows(fx, s, assets, marks) <==> exists a, l ::
      && a in assets && l in s.accounts[a].ledger.lots && l.remaining.raw > 0
      && row == ToTaxLot(fx, l, MarkOf(marks, a), CurrencyOf(s))
    ensures |AllRows(fx, s, assets, marks)| == OpenCount(s, assets)
  {
    hide ToTaxLot, MarkOf;
    if assets != [] {
      var n := |assets| - 1;
      RowsAreOpenLots(fx, s, assets[..n], marks);
      assert assets == assets[..n] + [assets[n]];
      var lots := s.accounts[assets[n]].ledger.lots;
      RowPerOpenLot(fx, OpenLots(lots), MarkOf(marks, assets[n]), CurrencyOf(s));
      LotBasis.OpenLotsAre(lots);
      OpenLotsCounted(lots);
    }
  }

  /** How many lots are open. */
  function OpenIn(lots: seq<Lot>): nat {
    if lots == [] then 0 else OpenIn(lots[..|lots| - 1]) + (if lots[|lots| - 1].remaining.raw > 0 then 1 else 0)
  }

  function OpenCount(s: State, assets: seq<string>): nat
    requires forall a :: a in assets ==> a in s.accounts
  {
    if assets == [] then 0
    else OpenCount(s, assets[..|assets| - 1]) + OpenIn(s.accounts[assets[|assets| - 1]].ledger.lots)
  }

  lemma {:induction false} OpenLotsCounted(lots: seq<Lot>)
    ensures |OpenLots(lots)| == OpenIn(lots)
  {
    if lots != [] {
      OpenLotsCounted(lots[..|lots| - 1]);
    }
  }

  lemma {:induction false} RowPerOpenLot(fx: Boundary, lots: seq<Lot>, mark: Option<Money>, currency: string)
    ensures |TaxLots(fx, lots, mark, currency)| == |lots|
    ensures forall row :: row in TaxLots(fx, lots, mark, currency) <==>
      exists l :: l in lots && row == ToTaxLot(fx, l, mark, currency)
  {
    hide ToTaxLot;
    if lots != [] {
      var n := |lots| - 1;
      RowPerOpenLot(fx, lots[..n], mark, currency);
      assert lots == lots[..n] + [lots[n]];
    }
  }

  // ------------------------------------------------------ flags and figures

  /** A slice is withheld exactly when units are held without a mark or without a complete
      basis: a pool's cost under ACB, every open lot's otherwise. */
  lemma SliceKnownIff(fx: Boundary, s: State, a: string, marks: Marks)
    requires a in s.accounts
    ensures var account := s.accounts[a];
      AssetSlice(fx, s, a, marks).unrealized.None? <==>
        && AssetSlice(fx, s, a, marks).held.raw > 0
        && (a !in marks
            || if s.how.Acb? then account.pool.None? || account.pool.value.cost.None?
               else exists l :: l in account.ledger.lots && l.remaining.raw > 0 && l.costRemaining.None?)
  {
    hide UnitsLeft, Rows, MarkValue, RealizedOf, Faithful;
  }

  /** The whole figure is withheld exactly when a slice is; so is its basis. */
  lemma ReportKnownIff(fx: Boundary, s: State, asOfMs: int, marks: Marks)
    requires (forall a :: a in s.assets ==> a in s.accounts) && ReportOf(fx, s, asOfMs, marks).Ok?
    ensures var r := ReportOf(fx, s, asOfMs, marks).value;
      && (r.unrealized.None? <==> exists a :: a in s.assets && a in r.perAsset && r.perAsset[a].unrealized.None?)
      && (r.unrealizedBasis.None? <==> r.unrealized.None?)
  {
    hide TotalGap, TotalCosted, AllRows, Rows, Gap, RealizedSum, RealizedOf, MissingCount, UnitsLeft, HeldBasis,
      Faithful;
    LotBasis.SlicesAre(fx, s, s.assets, marks);
    UnrealizedKnownIff(s, s.assets, marks);
    forall a | a in s.assets
      ensures AssetSlice(fx, s, a, marks).unrealized.None? <==>
        !(UnitsLeft(s.accounts[a]) == 0 || (a in marks && HeldBasis(s.how, s.accounts[a]).Some?))
    {
      GapKnownIff(s, a, marks);
    }
  }

  lemma GapKnownIff(s: State, a: string, marks: Marks)
    requires a in s.accounts
    ensures Gap(s.how, s.accounts[a], MarkOf(marks, a)).Some? <==>
      UnitsLeft(s.accounts[a]) == 0 || (a in marks && HeldBasis(s.how, s.accounts[a]).Some?)
  {
    hide UnitsLeft, HeldBasis, MarkValue;
  }

  /** A report is flagged exactly when its own figure was rounded, or a slice's, or a row's. */
  lemma ReportFlaggedIff(fx: Boundary, s: State, asOfMs: int, marks: Marks)
    requires (forall a :: a in s.assets ==> a in s.accounts) && ReportOf(fx, s, asOfMs, marks).Ok?
    ensures var r := ReportOf(fx, s, asOfMs, marks).value;
      r.rounded <==>
        || (TotalGap(s, s.assets, marks).Some? && !Terminates(TotalGap(s, s.assets, marks).value))
        || (exists a :: a in s.assets && Gap(s.how, s.accounts[a], MarkOf(marks, a)).Some?
                        && !Terminates(Gap(s.how, s.accounts[a], MarkOf(marks, a)).value))
        || exists row :: row in r.openLots && row.rounded
  {
    hide TotalGap, TotalCosted, Rows, Gap, RealizedSum, RealizedOf, MissingCount, UnitsLeft, Faithful, Terminates,
      MarkOf;
    var r := ReportOf(fx, s, asOfMs, marks).value;
    Crosses(fx, TotalGap(s, s.assets, marks), CurrencyOf(s));
    LotBasis.SlicesAre(fx, s, s.assets, marks);
    RowsRounded(fx, s, s.assets, marks);
    forall a | a in s.assets
      ensures r.perAsset[a].rounded <==>
        || (Gap(s.how, s.accounts[a], MarkOf(marks, a)).Some?
            && !Terminates(Gap(s.how, s.accounts[a], MarkOf(marks, a)).value))
        || AnyRounded(Rows(fx, s, a, marks))
    {
      Crosses(fx, Gap(s.how, s.accounts[a], MarkOf(marks, a)), CurrencyOf(s));
    }
  }

  lemma {:induction false} RowsRounded(fx: Boundary, s: State, assets: seq<string>, marks: Marks)
    requires forall a :: a in assets ==> a in s.accounts
    ensures (exists row :: row in AllRows(fx, s, assets, marks) && row.rounded) <==>
      exists a :: a in assets && AnyRounded(Rows(fx, s, a, marks))
  {
    hide Rows;
    if assets != [] {
      var n := |assets| - 1;
      RowsRounded(fx, s, assets[..n], marks);
      assert assets == assets[..n] + [assets[n]];
      var own := Rows(fx, s, assets[n], marks);
      if k :| 0 <= k < |own| && own[k].rounded {
        assert own[k] in AllRows(fx, s, assets, marks);
      }
      if row :| row in own && row.rounded {
        var k :| 0 <= k < |own| && own[k] == row;
      }
    }
  }
}
