/** Replays after which `open_lots_basis` is not `unrealized_basis`
    (accounting/report.py). */
module LotBasisWitnesses {
  import opened Common
  import opened Decimals
  import opened Lots
  import opened Selection
  import opened SelectionSpec
  import opened Basis
  import opened Pnl
  import opened Rounding
  import opened Accounts
  import opened Report
  import opened Replay
  import opened LotBasis
  import Derive
  import Fractions

  function Usd(amount: real): Money {
    Money(amount, "USD")
  }

  function Buy(assetId: string, tx: string, raw: int, cost: real): Event
    requires raw > 0
  {
    Acquisition(0, assetId, Quantity(raw, 0), Some(Usd(cost)), tx)
  }

  /** The lot such an acquisition opens first. */
  function Bought(assetId: string, tx: string, raw: int, cost: real): Lot
    requires raw > 0
  {
    NewLot(EmptyLedger(assetId).book, Buy(assetId, tx, raw, cost))
  }

  function LedgerOf(s: State, assetId: string): Ledger {
    if assetId in s.accounts then s.accounts[assetId].ledger else EmptyLedger(assetId)
  }

  /** Ready for more events of a stream in dollars that no pool serves. */
  predicate InDollars(s: State) {
    && s.how == Fifo && s.lastAtMs == 0 && (s.currency == None || s.currency == Some("USD"))
    && forall a | a in s.accounts :: a in s.assets
  }

  /** Its ledger opens one more lot, and nothing else moves. */
  lemma BuyOpens(fx: Boundary, s: State, e: Event)
    requires e.Acquisition? && s.how == Fifo && e.assetId in s.accounts
    requires OpenLot(s.accounts[e.assetId].ledger, e).Ok?
    ensures StepAccount(fx, s, e)
         == Stepped(s.(accounts := s.accounts[e.assetId := s.accounts[e.assetId].(
                                                             ledger := OpenLot(s.accounts[e.assetId].ledger, e).value)],
                       lastAtMs := e.atMs),
                    None)
  {
    hide OpenLot;
  }

  /** Before that the account is open and the currency bound, and no ledger has moved. */
  lemma BuyReady(s: State, e: Event)
    requires e.Acquisition? && InDollars(s) && e.cost.Some? && e.cost.value.currency == "USD"
    ensures var r := FixCurrency(Touch(s, e), e.cost);
      && r.Ok? && InDollars(r.value) && r.value.currency == Some("USD")
      && r.value.assets == (if e.assetId in s.accounts then s.assets else s.assets + [e.assetId])
      && r.value.accounts.Keys == s.accounts.Keys + {e.assetId}
      && forall a :: LedgerOf(r.value, a) == LedgerOf(s, a)
  {
  }

  /** What an accepted acquisition does to such a state. */
  lemma BuyStep(fx: Boundary, s: State, assetId: string, tx: string, raw: int, cost: real)
    requires raw > 0 && InDollars(s)
    requires var l := LedgerOf(s, assetId);
      l.book.assetId == assetId && l.book.decimals in {None, Some(0)} && l.book.currency in {None, Some("USD")}
    ensures var r := ProcessOne(fx, s, Buy(assetId, tx, raw, cost));
      && r.error.None? && InDollars(r.state) && r.state.currency == Some("USD")
      && r.state.assets == (if assetId in s.accounts then s.assets else s.assets + [assetId])
      && Ok(LedgerOf(r.state, assetId)) == OpenLot(LedgerOf(s, assetId), Buy(assetId, tx, raw, cost))
      && assetId in r.state.accounts
      && (forall a | a != assetId ::
            LedgerOf(r.state, a) == LedgerOf(s, a) && (a in r.state.accounts <==> a in s.accounts))
  {
    hide StepAccount, EmptyLedger, Touch, FixCurrency, Booked;
    var e := Buy(assetId, tx, raw, cost);
    BuyReady(s, e);
    var next := FixCurrency(Touch(s, e), e.cost).value;
    assert next.accounts[assetId].ledger == LedgerOf(next, assetId) == LedgerOf(s, assetId);
    BuyOpens(fx, next, e);
  }

  lemma Onwards(fx: Boundary, s: State, events: seq<Event>)
    requires events != [] && ProcessOne(fx, s, events[0]).error.None?
    ensures Process(fx, s, events) == Process(fx, ProcessOne(fx, s, events[0]).state, events[1..])
  {
  }

  lemma Finished(fx: Boundary, s: State)
    ensures Process(fx, s, []) == Stepped(s, None)
  {
  }

  // ------------------------------------------------------- past 28 digits

  function TwoBuys(): seq<Event> {
    [Buy("eth", "a", 1, TEN_28 as real), Buy("eth", "b", 1, 1.0)]
  }

  lemma TwoBuysLeave(fx: Boundary)
    ensures var r := Process(fx, NewState(Fifo), TwoBuys());
      && r.error.None? && InDollars(r.state) && r.state.currency == Some("USD")
      && r.state.assets == ["eth"] && "eth" in r.state.accounts
      && r.state.accounts["eth"].ledger.lots == [Bought("eth", "a", 1, TEN_28 as real), Bought("eth", "b", 1, 1.0)]
  {
    hide Process, ProcessOne;
    var events := TwoBuys();
    BuyStep(fx, NewState(Fifo), "eth", "a", 1, TEN_28 as real);
    Onwards(fx, NewState(Fifo), events);
    var s := ProcessOne(fx, NewState(Fifo), events[0]).state;
    BuyStep(fx, s, "eth", "b", 1, 1.0);
    Onwards(fx, s, events[1..]);
    Finished(fx, ProcessOne(fx, s, events[1]).state);
    assert events[1..][1..] == [];
  }

  lemma TenDivides(n: int, k: nat)
    requires k > 0
    ensures (n * PowInt(10, k)) % 10 == 0
  {
    var p := PowInt(10, k - 1);
    assert n * (10 * p) == 10 * (n * p);
  }

  lemma OddDoesNotFit()
    ensures !Fits((TEN_28 + 1) as real)
  {
    forall d: Decimal | d.coefficient < TEN_28
      ensures Value(d) != (TEN_28 + 1) as real
    {
      if d.exponent > 0 {
        ScaleByPower(Signed(d), d.exponent);
        TenDivides(Signed(d), d.exponent);
      } else {
        SmallerYet(Signed(d) as real, d.exponent);
      }
    }
  }

  lemma {:induction false} SmallerYet(x: real, e: int)
    requires e <= 0
    ensures Scale(x, e) <= x || Scale(x, e) <= 0.0
    decreases -e
  {
    if e < 0 {
      SmallerYet(x / 10.0, e + 1);
    }
  }

  lemma IntegersTerminate(n: int)
    ensures Terminates(n as real)
  {
    assert Value(DecimalOf(n, 0)) == n as real;
  }

  /** The report of a state that has seen one asset and holds some of it. */
  lemma OneAssetReport(fx: Boundary, s: State, assetId: string)
    requires InDollars(s) && s.assets == [assetId] && assetId in s.accounts
    requires CurrencyOf(s) == "USD" && UnitsLeft(s.accounts[assetId]) > 0 && HeldBasis(s.how, s.accounts[assetId]).Some?
    ensures var r := ReportOf(fx, s, 0, map[assetId := Usd(1.0)]);
      r.Ok? && r.value.unrealizedBasis == Cross(fx, HeldBasis(s.how, s.accounts[assetId]), "USD")
  {
    hide UnitsLeft, HeldBasis, PerAsset, AllRows, MarkValue;
    var marks := map[assetId := Usd(1.0)];
    assert s.assets[..0] == [];
    assert TotalGap(s, s.assets, marks).Some?;
    assert TotalCosted(s, s.assets) == 0.0 + Costed(s.how, s.accounts[assetId]);
  }

  lemma TwoLotTotals(a: Lot, b: Lot)
    requires Live(a) && Live(b) && a.costRemaining.Some? && b.costRemaining.Some?
    ensures BasisOf([a, b]) == a.costRemaining.value + b.costRemaining.value
    ensures UnitsHeld([a, b]) == a.remaining.raw + b.remaining.raw
  {
    var both, one := [a, b], [a];
    assert both[..1] == one && one[..0] == [];
    assert BasisOf(one) == BasisOf([]) + BasisIn(a) && BasisOf(both) == BasisOf(one) + BasisIn(b);
    assert UnitsHeld(one) == UnitsHeld([]) + Counted(a, Any) && UnitsHeld(both) == UnitsHeld(one) + Counted(b, Any);
  }

  /** Units bought for 10**28 and for 1: the report subtracts their sum, which the rows
      of no order can add up to in 28 digits. */
  lemma LongBasisDiffers(fx: Boundary, add: Context, rows: seq<TaxLot>)
    ensures var s := Process(fx, NewState(Fifo), TwoBuys()).state;
      && ValidState(s)
      && var r := ReportOf(fx, s, 0, map["eth" := Usd(1.0)]);
      && r.Ok? && r.value.unrealizedBasis == Some(Usd((TEN_28 + 1) as real))
      && OpenLotsBasis(add, rows) != Some((TEN_28 + 1) as real)
  {
    hide Process, Fits, Faithful, ReportOf, OpenLotsBasis, BasisOf, UnitsHeld;
    var s := Process(fx, NewState(Fifo), TwoBuys()).state;
    TwoBuysLeave(fx);
    ProcessKeepsValid(fx, NewState(Fifo), TwoBuys());
    IntegersTerminate(TEN_28 + 1);
    ExactMeansUnchanged(fx, (TEN_28 + 1) as real);
    OddDoesNotFit();
    KnownTogether(add, rows);
    TwoLotTotals(Bought("eth", "a", 1, TEN_28 as real), Bought("eth", "b", 1, 1.0));
    OneAssetReport(fx, s, "eth");
  }

  // ------------------------------------------------------- rounded per lot

  function Sell(assetId: string, raw: int): Event
    requires raw > 0
  {
    Disposal(0, assetId, Quantity(raw, 0), Some(Usd(1.0)), "")
  }

  lemma SelectOne(lot: Lot, needed: Quantity)
    requires lot.remaining.decimals == needed.decimals && 0 < needed.raw < lot.remaining.raw
    ensures Select(Fifo)([lot], needed) == Ok([Pick(Held(0), needed)])
  {
    assert Positions(1) == [0];
    assert Positions(1)[..0] == [];
    assert OldestFirst([lot]) == [0];
  }

  lemma ConsumeOne(l: Ledger, lot: Lot, needed: Quantity)
    requires l.lots == [lot] && lot.remaining.decimals == needed.decimals && 0 < needed.raw < lot.remaining.raw
    requires !WrongScale(l.book, needed) && lot.assetId == l.book.assetId
    ensures Consume(Pruning, l, needed, Select(Fifo))
         == Consumption(l.(lots := [Drawn(lot, needed.raw)]),
                        Ok(Consumed([Piece(lot.lotId, needed, Portion(lot, needed.raw))],
                                    Quantity(0, needed.decimals))))
  {
    hide Select;
    var open, plan := [lot], [Pick(Held(0), needed)];
    SelectOne(lot, needed);
    assert l.lots[..0] == [];
    assert OpenLots(l.lots) == open;
    assert plan[1..] == [];
    assert Drain(open, plan) == [Drawn(lot, needed.raw)];
    assert Pieces(open, plan) == [Piece(lot.lotId, needed, Portion(lot, needed.raw))];
    assert CheckPruning(l.book.assetId, open, map[], plan, needed, 0) == Ok(needed.raw);
  }

  lemma SellStep(fx: Boundary, s: State, lot: Lot, raw: int)
    requires InDollars(s) && s.currency == Some("USD") && lot.assetId in s.accounts
    requires s.accounts[lot.assetId].ledger.lots == [lot] && 0 < raw < lot.remaining.raw && lot.remaining.decimals == 0
    requires s.accounts[lot.assetId].ledger.book.assetId == lot.assetId
      && s.accounts[lot.assetId].ledger.book.decimals == Some(0)
    ensures var r := ProcessOne(fx, s, Sell(lot.assetId, raw));
      && r.error.None? && InDollars(r.state) && r.state.currency == Some("USD") && r.state.assets == s.assets
      && r.state.accounts.Keys == s.accounts.Keys
      && LedgerOf(r.state, lot.assetId) == s.accounts[lot.assetId].ledger.(lots := [Drawn(lot, raw)])
      && (forall a | a != lot.assetId :: LedgerOf(r.state, a) == LedgerOf(s, a))
  {
    hide Consume, BookDisposal, SumPortions, Drawn;
    ConsumeOne(s.accounts[lot.assetId].ledger, lot, Quantity(raw, 0));
  }

  /** Three units bought for 1 and two of them sold, of one asset and then another. */
  function Thirds(): seq<Event> {
    [Buy("a", "t", 3, 1.0), Sell("a", 2), Buy("b", "t", 3, 1.0), Sell("b", 2)]
  }

  /** What is left of such a lot: a third of the basis. */
  function Third(assetId: string): Lot {
    Drawn(Bought(assetId, "t", 3, 1.0), 2)
  }

  lemma OneThird(fx: Boundary, s: State, assetId: string)
    requires InDollars(s) && assetId !in s.accounts
    ensures var r := Process(fx, s, [Buy(assetId, "t", 3, 1.0), Sell(assetId, 2)]);
      && r.error.None? && InDollars(r.state) && r.state.currency == Some("USD")
         && r.state.assets == s.assets + [assetId]
      && r.state.accounts.Keys == s.accounts.Keys + {assetId} && LedgerOf(r.state, assetId).lots == [Third(assetId)]
      && (forall a | a != assetId :: LedgerOf(r.state, a) == LedgerOf(s, a))
  {
    hide Process, ProcessOne;
    var events := [Buy(assetId, "t", 3, 1.0), Sell(assetId, 2)];
    BuyStep(fx, s, assetId, "t", 3, 1.0);
    Onwards(fx, s, events);
    var one := ProcessOne(fx, s, events[0]).state;
    SellStep(fx, one, Bought(assetId, "t", 3, 1.0), 2);
    Onwards(fx, one, events[1..]);
    Finished(fx, ProcessOne(fx, one, events[1]).state);
    assert events[1..][1..] == [];
  }

  lemma ThirdsLeave(fx: Boundary)
    ensures var r := Process(fx, NewState(Fifo), Thirds());
      && r.error.None? && InDollars(r.state) && r.state.currency == Some("USD") && r.state.assets == ["a", "b"]
      && r.state.accounts.Keys == {"a", "b"}
      && LedgerOf(r.state, "a").lots == [Third("a")] && LedgerOf(r.state, "b").lots == [Third("b")]
  {
    hide Process, ProcessOne, Third;
    var head, tail := [Buy("a", "t", 3, 1.0), Sell("a", 2)], [Buy("b", "t", 3, 1.0), Sell("b", 2)];
    assert Thirds() == head + tail;
    Derive.ReplaySplits(fx, NewState(Fifo), head, tail);
    OneThird(fx, NewState(Fifo), "a");
    OneThird(fx, Process(fx, NewState(Fifo), head).state, "b");
  }

  lemma NoNearer(v: real, w: real, u: real)
    requires Nearest(v, w) && Fits(u)
    ensures Fits(w) && Distance(w, v) <= Distance(u, v)
  {
  }

  /** Seen at 28 places, a 28-digit decimal this near an integer is that integer. */
  lemma OnlyInteger(d: Decimal, x: real, n: int)
    requires d.coefficient < TEN_28 && (TEN_27 + 1) as real <= x && Distance(n as real, x) < 0.5
    requires Distance(Scale(Signed(d) as real, d.exponent + 28), x) < 0.5
    ensures Scale(Signed(d) as real, d.exponent + 28) == n as real
  {
    hide Scale, PowInt;
    var y := Scale(Signed(d) as real, d.exponent + 28);
    if d.exponent >= -28 {
      ScaleByPower(Signed(d), d.exponent + 28);
      SameInteger(Signed(d) * PowInt(10, d.exponent + 28), n, x);
    } else {
      FewDigitsAreSmall(Signed(d), d.exponent + 28);
    }
  }

  lemma SameInteger(m: int, n: int, x: real)
    requires Distance(m as real, x) < 0.5 && Distance(n as real, x) < 0.5
    ensures m == n
  {
    assert -1.0 < m as real - n as real < 1.0;
  }

  /** The 28-digit decimal nearest a number between a tenth and one is its nearest integer
      at 28 places. */
  lemma NearestAt28(v: real, w: real, n: int)
    requires Nearest(v, w) && 0 < n < TEN_28
    requires (TEN_27 + 1) as real <= Scale(v, 28) && Distance(n as real, Scale(v, 28)) < 0.5
    ensures w == Scale(n as real, -28)
  {
    hide Nearest, Scale, Distance;
    var u := Scale(n as real, -28);
    assert Value(DecimalOf(n, -28)) == u;
    NoNearer(v, w, u);
    var d: Decimal :| d.coefficient < TEN_28 && Value(d) == w;
    ScaleInverts(n as real, -28);
    NearerScales(w, u, v, 28);
    ValueAt(d, -28);
    OnlyInteger(d, Scale(v, 28), n);
    ScaleInverts(w, 28);
  }

  const THIRD: int := 3333333333333333333333333333
  const TWO_THIRDS: int := 6666666666666666666666666667

  lemma {:induction false} TensLeaveOne(k: nat)
    ensures PowInt(10, k) % 3 == 1
  {
    if k > 0 {
      TensLeaveOne(k - 1);
      TenThreesAndOne(PowInt(10, k - 1));
    }
  }

  lemma TenThreesAndOne(p: nat)
    requires p % 3 == 1
    ensures (10 * p) % 3 == 1
  {
    var q := p / 3;
    assert p == 3 * q + 1;
    assert 10 * p == 3 * (10 * q + 3) + 1;
  }

  /** No decimal is a third or two thirds. */
  lemma ThirdsDoNotTerminate()
    ensures !Terminates(1.0 / 3.0) && !Terminates(2.0 / 3.0)
  {
    forall n, k: nat | n == 1 || n == 2
      ensures !Fractions.TerminatesBy(Fractions.Ratio(n, 3), k)
    {
      TensLeaveOne(k);
      if q: int :| n * PowInt(10, k) == 3 * q {
        assert false;
      }
    }
    Fractions.TerminatesIffExpands(Fractions.Ratio(1, 3));
    Fractions.TerminatesIffExpands(Fractions.Ratio(2, 3));
  }

  lemma ScaledThirds()
    ensures Scale(1.0 / 3.0, 28) == TEN_28 as real / 3.0 && Scale(2.0 / 3.0, 28) == 2.0 * TEN_28 as real / 3.0
  {
    TenTo28();
    ScaleOfProduct(1.0, 1.0 / 3.0, 28);
    ScaleOfProduct(1.0, 2.0 / 3.0, 28);
  }

  lemma TenTo28()
    ensures Scale(1.0, 28) == TEN_28 as real
  {
    assert Scale(1.0, 28) == Scale(10000000.0, 21);
    assert Scale(10000000.0, 21) == Scale(100000000000000.0, 14);
    assert Scale(100000000000000.0, 14) == Scale(1000000000000000000000.0, 7);
  }

  /** What a third and two thirds cross to. */
  lemma CrossedThirds(fx: Boundary)
    ensures fx(1.0 / 3.0) == Crossed(Scale(THIRD as real, -28), false)
    ensures fx(2.0 / 3.0) == Crossed(Scale(TWO_THIRDS as real, -28), false)
  {
    hide Terminates, Nearest, Scale;
    assert CrossesTo(1.0 / 3.0, fx(1.0 / 3.0)) && CrossesTo(2.0 / 3.0, fx(2.0 / 3.0));
    ThirdsDoNotTerminate();
    ScaledThirds();
    NearestAt28(1.0 / 3.0, fx(1.0 / 3.0).amount, THIRD);
    NearestAt28(2.0 / 3.0, fx(2.0 / 3.0).amount, TWO_THIRDS);
  }

  /** The loop over two rows of a rounded third each. */
  lemma ThirdsAddUp(add: Context, rows: seq<TaxLot>)
    requires |rows| == 2 && forall k | 0 <= k < 2 :: rows[k].costBasis == Some(Usd(Scale(THIRD as real, -28)))
    ensures OpenLotsBasis(add, rows) == Some(Scale((2 * THIRD) as real, -28))
    ensures Scale((2 * THIRD) as real, -28) != Scale(TWO_THIRDS as real, -28)
  {
    hide Rounds, Scale;
    var w := Scale(THIRD as real, -28);
    var one := rows[..1];
    ScaleAdds(THIRD as real, THIRD as real, -28);
    assert Value(DecimalOf(THIRD, -28)) == w && Value(DecimalOf(2 * THIRD, -28)) == w + w;
    ContextKeeps(add, w);
    ContextKeeps(add, w + w);
    assert one[..0] == [] && one[0] == rows[0];
    assert OpenLotsBasis(add, one) == Some(add(0.0 + w));
    ScaleCompares((2 * THIRD) as real, TWO_THIRDS as real, -28);
    ScaleCompares(TWO_THIRDS as real, (2 * THIRD) as real, -28);
  }

  /** A lot drawn down to a third of its basis. */
  lemma ThirdIs(assetId: string)
    ensures Live(Third(assetId)) && Third(assetId).remaining == Quantity(1, 0)
      && Third(assetId).costRemaining == Some(1.0 / 3.0)
  {
  }

  lemma OneLot(l: Lot)
    requires Live(l) && l.costRemaining.Some?
    ensures BasisOf([l]) == l.costRemaining.value && UnitsHeld([l]) == l.remaining.raw && OpenLots([l]) == [l]
  {
    var one := [l];
    assert one[..0] == [];
    assert BasisOf(one) == BasisOf([]) + BasisIn(l);
    assert UnitsHeld(one) == UnitsHeld([]) + Counted(l, Any);
    assert OpenLots(one) == OpenLots([]) + [l];
  }

  /** One asset's part of the report of such a state. */
  lemma ThirdReported(fx: Boundary, s: State, assetId: string, marks: Marks)
    requires InDollars(s) && CurrencyOf(s) == "USD" && assetId in s.accounts && assetId in marks
    requires s.accounts[assetId].ledger.lots == [Third(assetId)]
    ensures UnitsLeft(s.accounts[assetId]) == 1
    ensures Gap(s.how, s.accounts[assetId], MarkOf(marks, assetId)).Some?
    ensures Costed(s.how, s.accounts[assetId]) == 1.0 / 3.0
    ensures var rows := Rows(fx, s, assetId, marks);
      |rows| == 1 && rows[0].costBasis == Some(Usd(fx(1.0 / 3.0).amount))
  {
    hide Third, OpenLots, BasisOf, UnitsHeld, Faithful, MarkValue, Price;
    ThirdIs(assetId);
    OneLot(Third(assetId));
    var open := [Third(assetId)];
    assert open[..0] == [];
    assert Rows(fx, s, assetId, marks)
        == TaxLots(fx, [], MarkOf(marks, assetId), "USD") + [ToTaxLot(fx, open[0], MarkOf(marks, assetId), "USD")];
  }

  lemma TwoAssetReport(fx: Boundary, s: State, a: string, b: string, marks: Marks)
    requires InDollars(s) && s.assets == [a, b] && a in s.accounts && b in s.accounts
      && !ForeignMark(marks, CurrencyOf(s))
    requires Gap(s.how, s.accounts[a], MarkOf(marks, a)).Some? && Gap(s.how, s.accounts[b], MarkOf(marks, b)).Some?
    ensures var r := ReportOf(fx, s, 0, marks);
      && r.Ok? && r.value.openLots == Rows(fx, s, a, marks) + Rows(fx, s, b, marks)
      && r.value.unrealizedBasis
         == Cross(fx, Some(Costed(s.how, s.accounts[a]) + Costed(s.how, s.accounts[b])), CurrencyOf(s))
  {
    hide Rows, Gap, Costed, Faithful, PerAsset, MarkOf;
    var one := s.assets[..1];
    assert one == [a] && one[..0] == [] && s.assets[1] == b && s.assets[..|s.assets| - 1] == one;
    assert TotalGap(s, [], marks) == Some(0.0);
    assert TotalGap(s, one, marks).Some?;
    assert TotalGap(s, s.assets, marks).Some?;
    assert TotalCosted(s, one) == 0.0 + Costed(s.how, s.accounts[a]);
    assert AllRows(fx, s, one, marks) == [] + Rows(fx, s, a, marks);
  }

  lemma SameRows(fx: Boundary, rows: seq<TaxLot>, a: TaxLot, b: TaxLot, basis: Option<Money>)
    requires multiset(rows) == multiset([a, b]) && a.costBasis == b.costBasis == basis
    ensures |rows| == 2 && rows[0].costBasis == rows[1].costBasis == basis
  {
    assert |multiset(rows)| == |rows| && |multiset([a, b])| == 2;
    forall k | 0 <= k < |rows|
      ensures rows[k].costBasis == basis
    {
      assert rows[k] in multiset([a, b]);
    }
  }

  /** Two lots with a third of a dollar left in each: every row rounds, the report rounds
      their exact sum, and in no order do the rows add up to it. */
  lemma RoundedLotsDiffer(fx: Boundary, add: Context, rows: seq<TaxLot>)
    ensures var s := Process(fx, NewState(Fifo), Thirds()).state;
      && ValidState(s)
      && var r := ReportOf(fx, s, 0, map["a" := Usd(1.0), "b" := Usd(1.0)]);
      && r.Ok? && r.value.unrealizedBasis == Some(Usd(Scale(TWO_THIRDS as real, -28)))
      && (multiset(rows) == multiset(r.value.openLots) ==>
            && OpenLotsBasis(add, rows) == Some(Scale((2 * THIRD) as real, -28))
            && OpenLotsBasis(add, rows) != Some(Scale(TWO_THIRDS as real, -28)))
  {
    hide Process, Scale, OpenLotsBasis, ReportOf, Faithful, Rows, Gap, Costed, Third, UnitsLeft;
    var s := Process(fx, NewState(Fifo), Thirds()).state;
    var marks := map["a" := Usd(1.0), "b" := Usd(1.0)];
    ThirdsLeave(fx);
    ProcessKeepsValid(fx, NewState(Fifo), Thirds());
    ThirdReported(fx, s, "a", marks);
    ThirdReported(fx, s, "b", marks);
    TwoAssetReport(fx, s, "a", "b", marks);
    CrossedThirds(fx);
    var x, y := Rows(fx, s, "a", marks)[0], Rows(fx, s, "b", marks)[0];
    if multiset(rows) == multiset(ReportOf(fx, s, 0, marks).value.openLots) {
      assert Rows(fx, s, "a", marks) + Rows(fx, s, "b", marks) == [x, y];
      SameRows(fx, rows, x, y, Some(Usd(Scale(THIRD as real, -28))));
      ThirdsAddUp(add, rows);
    }
  }

  // ------------------------------------------------------------ no mark

  lemma OneBuyLeaves(fx: Boundary)
    ensures var r := Process(fx, NewState(Fifo), [Buy("eth", "a", 1, 1.0)]);
      && r.error.None? && InDollars(r.state) && r.state.assets == ["eth"] && "eth" in r.state.accounts
      && r.state.accounts["eth"].ledger.lots == [Bought("eth", "a", 1, 1.0)]
  {
    hide Process, ProcessOne;
    var events := [Buy("eth", "a", 1, 1.0)];
    BuyStep(fx, NewState(Fifo), "eth", "a", 1, 1.0);
    Onwards(fx, NewState(Fifo), events);
    Finished(fx, ProcessOne(fx, NewState(Fifo), events[0]).state);
    assert events[1..] == [];
  }

  lemma UnmarkedReport(fx: Boundary, add: Context, s: State)
    requires InDollars(s) && s.assets == ["eth"] && "eth" in s.accounts
    requires s.accounts["eth"].ledger.lots == [Bought("eth", "a", 1, 1.0)]
    ensures var r := ReportOf(fx, s, 0, map[]);
      r.Ok? && r.value.unrealizedBasis == None && OpenLotsBasis(add, r.value.openLots).Some?
  {
    hide OpenLotsBasis, Faithful, UnitsHeld, BasisOf, PerAsset, AllRows, TotalGap;
    OneLot(Bought("eth", "a", 1, 1.0));
    assert UnitsLeft(s.accounts["eth"]) > 0 && BasisLeft(s.how, s.accounts["eth"]).Some?;
    assert ReportOf(fx, s, 0, map[]).Ok?;
    BasesKnownAlike(fx, add, s, 0, map[], ReportOf(fx, s, 0, map[]).value.openLots);
    assert "eth" in s.assets;
  }

  /** One unit bought for 1 and never marked: the rows sum to 1, the report to nothing. */
  lemma UnmarkedDiffers(fx: Boundary, add: Context)
    ensures var s := Process(fx, NewState(Fifo), [Buy("eth", "a", 1, 1.0)]).state;
      && ValidState(s)
      && var r := ReportOf(fx, s, 0, map[]);
      && r.Ok? && r.value.unrealizedBasis == None && OpenLotsBasis(add, r.value.openLots).Some?
  {
    hide Process, OpenLotsBasis, Faithful, ReportOf, Bought;
    OneBuyLeaves(fx);
    ProcessKeepsValid(fx, NewState(Fifo), [Buy("eth", "a", 1, 1.0)]);
    UnmarkedReport(fx, add, Process(fx, NewState(Fifo), [Buy("eth", "a", 1, 1.0)]).state);
  }
}
