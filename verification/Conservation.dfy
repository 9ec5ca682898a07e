/** Cost is conserved along a replay: what was acquired is what is left plus what the
    disposals were charged (accounting/pnl.py, accounting/acb.py). */
module Conservation {
  import opened Common
  import opened Lots
  import opened Selection
  import opened Pnl
  import opened Rounding
  import opened Accounts
  import opened Report
  import opened Replay

  // ------------------------------------------------------------- charges

  /** The exact basis a disposal was booked with, before it crosses to money. */
  datatype Charge = Charge(assetId: string, basis: Option<real>)

  /** The charge of a disposal that has been found its account. */
  function ChargesAt(s: State, e: Event): seq<Charge>
    requires e.assetId in s.accounts
  {
    if e.Acquisition? then []
    else
      match Sell(s.how, s.accounts[e.assetId], CurrencyOf(s), e).outcome
      case Err(_) => []
      case Ok(sold) => [Charge(e.assetId, sold.basis)]
  }

  /** What one event is charged: nothing unless it is a disposal that goes through. */
  function ChargesOne(s: State, e: Event): seq<Charge> {
    if e.Acquisition? || e.atMs < s.lastAtMs then []
    else
      match FixCurrency(Touch(s, e), e.proceeds)
      case Err(_) => []
      case Ok(t) => ChargesAt(t, e)
  }

  /** The charges of a replay, in booking order. */
  function Charges(fx: Boundary, s: State, events: seq<Event>): seq<Charge>
    decreases |events|
  {
    if events == [] then []
    else
      var one := ProcessOne(fx, s, events[0]);
      ChargesOne(s, events[0]) + (if one.error.Some? then [] else Charges(fx, one.state, events[1..]))
  }

  function BasisOn(c: Charge, assetId: string): real {
    if c.assetId == assetId && c.basis.Some? then c.basis.value else 0.0
  }

  /** The known charges of one asset. */
  function ChargedOn(charges: seq<Charge>, assetId: string): real {
    if charges == [] then 0.0 else BasisOn(charges[0], assetId) + ChargedOn(charges[1..], assetId)
  }

  /** All known charges. */
  function Charged(charges: seq<Charge>): real {
    if charges == [] then 0.0 else BasisOn(charges[0], charges[0].assetId) + Charged(charges[1..])
  }

  lemma {:induction false} ChargesJoin(a: seq<Charge>, b: seq<Charge>, assetId: string)
    ensures ChargedOn(a + b, assetId) == ChargedOn(a, assetId) + ChargedOn(b, assetId)
    ensures Charged(a + b) == Charged(a) + Charged(b)
  {
    if a == [] {
      assert a + b == b;
    } else {
      assert (a + b)[1..] == a[1..] + b;
      ChargesJoin(a[1..], b, assetId);
    }
  }

  /** The record says what the charge came to in money. */
  predicate Carries(fx: Boundary, r: DisposalRecord, c: Charge) {
    && r.assetId == c.assetId
    && (r.costBasis.Some? <==> c.basis.Some?)
    && (c.basis.Some? ==> r.costBasis.value.amount == fx(c.basis.value).amount)
    && (MissingCost in r.flags <==> c.basis.None?)
    && (RoundedBasis in r.flags <==> c.basis.Some? && !fx(c.basis.value).exact)
    && (r.realized.Some? <==> r.proceeds.Some? && c.basis.Some?)
    && (r.realized.Some? ==> r.realized.value.amount == r.proceeds.value.amount - r.costBasis.value.amount)
  }

  /** The record is of its event; a gain is booked exactly when both sides are known; and
      every flag says exactly what it is for. */
  lemma BookingIsHonest(fx: Boundary, currency: string, e: Event, sold: Sold)
    requires e.Disposal?
    ensures var r := BookDisposal(fx, currency, e, sold);
      && r.atMs == e.atMs && r.assetId == e.assetId && r.quantity == e.quantity && r.proceeds == e.proceeds
      && (r.realized.Some? <==> e.proceeds.Some? && sold.basis.Some?)
      && (MissingBasis in r.flags <==> r.missingBasis) && (r.missingBasis <==> sold.shortfall.raw > 0)
      && (MissingCost in r.flags <==> sold.basis.None?)
      && (MissingProceeds in r.flags <==> e.proceeds.None?)
      && (RoundedBasis in r.flags <==> sold.basis.Some? && !fx(sold.basis.value).exact)
  {
    hide Faithful;
    var flags := BookDisposal(fx, currency, e, sold).flags;
    var a: seq<Flag> := if sold.shortfall.raw > 0 then [MissingBasis] else [];
    var b: seq<Flag> :=
      if sold.basis.None? then [MissingCost] else if !fx(sold.basis.value).exact then [RoundedBasis] else [];
    var c: seq<Flag> := if e.proceeds.None? then [MissingProceeds] else [];
    assert flags == a + b + c;
  }

  lemma BookingCarries(fx: Boundary, currency: string, e: Event, sold: Sold)
    requires e.Disposal?
    ensures Carries(fx, BookDisposal(fx, currency, e, sold), Charge(e.assetId, sold.basis))
  {
    hide Faithful;
    BookingIsHonest(fx, currency, e, sold);
  }

  lemma OneChargeBooked(fx: Boundary, s: State, e: Event)
    ensures var (before, after) := (s.disposals, ProcessOne(fx, s, e).state.disposals);
      && |after| == |before| + |ChargesOne(s, e)| && after[..|before|] == before
      && (forall k | 0 <= k < |ChargesOne(s, e)| :: Carries(fx, after[|before| + k], ChargesOne(s, e)[k]))
      && (forall k | |before| <= k < |after| :: e.Disposal? && after[k].proceeds == e.proceeds)
  {
    hide Sell, Open, Faithful, BookDisposal, Carries;
    if e.Disposal? && e.atMs >= s.lastAtMs && FixCurrency(Touch(s, e), e.proceeds).Ok? {
      var t := FixCurrency(Touch(s, e), e.proceeds).value;
      var sale := Sell(t.how, t.accounts[e.assetId], CurrencyOf(t), e).outcome;
      if sale.Ok? {
        BookingCarries(fx, CurrencyOf(t), e, sale.value);
        BookingIsHonest(fx, CurrencyOf(t), e, sale.value);
      }
    }
  }

  /** A replay books one record a charge, and each says what the charge came to. */
  lemma {:induction false} ChargesAreBooked(fx: Boundary, s: State, events: seq<Event>)
    ensures var (before, after, charges) :=
      (s.disposals, Process(fx, s, events).state.disposals, Charges(fx, s, events));
      && |after| == |before| + |charges| && after[..|before|] == before
      && (forall k | 0 <= k < |charges| :: Carries(fx, after[|before| + k], charges[k]))
    decreases |events|
  {
    hide ProcessOne, ChargesOne, Carries;
    if events != [] {
      OneChargeBooked(fx, s, events[0]);
      var one := ProcessOne(fx, s, events[0]);
      if one.error.None? {
        ChargesAreBooked(fx, one.state, events[1..]);
        var after := Process(fx, s, events).state.disposals;
        assert forall k | 0 <= k < |one.state.disposals| :: after[k] == one.state.disposals[k];
      }
    }
  }

  // -------------------------------------------------------- conservation

  /** The cost an event brings in. */
  function CostOf(e: Event, assetId: string): real {
    if e.Acquisition? && e.assetId == assetId && e.cost.Some? then e.cost.value.amount else 0.0
  }

  predicate CostKnown(e: Event, assetId: string) {
    e.Acquisition? && e.assetId == assetId ==> e.cost.Some?
  }

  lemma OtherAccountMoves(fx: Boundary, s: State, e: Event, a: string)
    requires e.assetId in s.accounts && a != e.assetId && AssetPriced(s, a)
    ensures var t := StepAccount(fx, s, e).state;
      AssetPriced(t, a) && Left(t, a) == Left(s, a) && ChargedOn(ChargesAt(s, e), a) == 0.0
  {
    hide Open, Sell, BookDisposal, BasisLeft, Accounts.Priced, Faithful;
  }

  lemma AcquireMoves(fx: Boundary, s: State, e: Event)
    requires ValidState(s) && e.assetId in s.accounts && AssetPriced(s, e.assetId) && e.Acquisition? && e.cost.Some?
    requires s.currency == Some(e.cost.value.currency)
    ensures var r := StepAccount(fx, s, e);
      && AssetPriced(r.state, e.assetId)
      && Left(r.state, e.assetId) == Left(s, e.assetId) + (if r.error.None? then e.cost.value.amount else 0.0)
  {
    hide Open, BookDisposal, BasisLeft, Accounts.Priced, Faithful;
    var a := s.accounts[e.assetId];
    OpenKeepsValid(s.how, a, e.assetId, s.currency, e);
    if Open(s.how, a, s.currency.value, e).outcome.Ok? {
      OpenAddsCost(s.how, a, e.assetId, s.currency.value, e);
    }
  }

  lemma RefusedSale(how: Method, a: Account, currency: string, e: Event)
    requires WrongScale(a.ledger.book, e.quantity)
    ensures Sell(how, a, currency, e) == Change(a, Err(DecimalsMismatchError))
  {
  }

  lemma DisposeMoves(fx: Boundary, s: State, e: Event)
    requires ValidState(s) && e.assetId in s.accounts && AssetPriced(s, e.assetId) && e.Disposal?
    ensures var r := StepAccount(fx, s, e);
      && AssetPriced(r.state, e.assetId)
      && Left(r.state, e.assetId) == Left(s, e.assetId) - ChargedOn(ChargesAt(s, e), e.assetId)
      && (forall c | c in ChargesAt(s, e) :: c.basis.Some?)
  {
    hide Sell, BookDisposal, BasisLeft, Accounts.Priced, Faithful;
    var a := s.accounts[e.assetId];
    OneAccount(s, e.assetId);
    if WrongScale(a.ledger.book, e.quantity) {
      RefusedSale(s.how, a, CurrencyOf(s), e);
    } else {
      SellMovesBasis(s.how, a, e.assetId, s.currency, e);
      var one := ChargesAt(s, e);
      assert one[1..] == [];
    }
  }

  /** One event, raised or not, moves what is left of an asset's cost by its own cost in
      and by its exact charge out, under every method. */
  lemma StepMovesBasis(fx: Boundary, s: State, e: Event, a: string)
    requires ValidState(s) && AssetPriced(s, a) && CostKnown(e, a)
    ensures var r := ProcessOne(fx, s, e);
      && AssetPriced(r.state, a)
      && Left(r.state, a) == Left(s, a) + (if r.error.None? then CostOf(e, a) else 0.0) - ChargedOn(ChargesOne(s, e), a)
      && (forall c | c in ChargesOne(s, e) && c.assetId == a :: c.basis.Some?)
  {
    hide ValidState, StepAccount, FixCurrency, Touch, Left, AssetPriced, Sell, Faithful;
    if e.atMs >= s.lastAtMs {
      TouchKeepsValid(s, e);
      TouchKeepsAccount(s, e, a);
      var fixed := FixCurrency(Touch(s, e), PricedBy(e));
      if fixed.Ok? {
        var t := fixed.value;
        FixKeeps(Touch(s, e), PricedBy(e));
        FixKeepsAsset(Touch(s, e), PricedBy(e), a);
        if a != e.assetId {
          OtherAccountMoves(fx, t, e, a);
        } else if e.Acquisition? {
          AcquireMoves(fx, t, e);
        } else {
          DisposeMoves(fx, t, e);
        }
      }
    }
  }

  lemma FixKeepsAsset(s: State, priced: Option<Money>, a: string)
    requires ValidState(s) && FixCurrency(s, priced).Ok? && AssetPriced(s, a)
    ensures AssetPriced(FixCurrency(s, priced).value, a)
  {
    FixKeepsRest(s, priced);
    if a in s.accounts {
      FixKeepsAccount(s, priced, a);
    }
  }

  // -------------------------------------------------------- whole streams

  function CostsOn(events: seq<Event>, assetId: string): real {
    if events == [] then 0.0 else CostOf(events[0], assetId) + CostsOn(events[1..], assetId)
  }

  /** Over any replay, as far as it got and whatever it was asked for: what is left of an
      asset's cost is what it was, plus all cost acquired, less all cost charged.  Only the
      asset's own acquisitions must be priced, and nothing has to be unrounded. */
  lemma {:induction false} ProcessConserves(fx: Boundary, s: State, events: seq<Event>, a: string)
    requires ValidState(s) && AssetPriced(s, a)
    requires forall k | 0 <= k < |events| :: CostKnown(events[k], a)
    ensures Replayed(fx, s, events) <= |events|
    ensures var t := Process(fx, s, events).state;
      && AssetPriced(t, a)
      && Left(t, a) == Left(s, a) + CostsOn(events[..Replayed(fx, s, events)], a) - ChargedOn(Charges(fx, s, events), a)
      && (forall c | c in Charges(fx, s, events) && c.assetId == a :: c.basis.Some?)
    decreases |events|
  {
    hide ProcessOne, ValidState, AssetPriced, ChargesOne, Left;
    if events != [] {
      var e, one, rest := events[0], ProcessOne(fx, s, events[0]), events[1..];
      StepMovesBasis(fx, s, e, a);
      if one.error.None? {
        StepKeepsValid(fx, s, e);
        ProcessConserves(fx, one.state, rest, a);
        ChargesJoin(ChargesOne(s, e), Charges(fx, one.state, rest), a);
        var n := Replayed(fx, one.state, rest);
        assert events[..n + 1][1..] == rest[..n];
      } else {
        ChargesJoin(ChargesOne(s, e), [], a);
        assert ChargesOne(s, e) + [] == ChargesOne(s, e);
      }
    }
  }

  /** Under ACB what is left is the pool's cost: in every state a fresh replay reaches,
      consumed bases plus pool cost are all the cost ever acquired. */
  lemma PoolConserves(fx: Boundary, events: seq<Event>, a: string)
    requires forall k | 0 <= k < |events| :: CostKnown(events[k], a)
    ensures Replayed(fx, NewState(Acb), events) <= |events|
    ensures var t := Process(fx, NewState(Acb), events).state;
      a in t.accounts && t.accounts[a].pool.Some? ==>
        && t.accounts[a].pool.value.cost.Some?
        && t.accounts[a].pool.value.cost.value + ChargedOn(Charges(fx, NewState(Acb), events), a)
           == CostsOn(events[..Replayed(fx, NewState(Acb), events)], a)
  {
    hide Process, Charges;
    ProcessConserves(fx, NewState(Acb), events, a);
    ProcessKeepsHow(fx, NewState(Acb), events);
  }

  lemma {:induction false} ProcessKeepsHow(fx: Boundary, s: State, events: seq<Event>)
    ensures Process(fx, s, events).state.how == s.how
    decreases |events|
  {
    if events != [] {
      StepKeepsHow(fx, s, events[0]);
      ProcessKeepsHow(fx, ProcessOne(fx, s, events[0]).state, events[1..]);
    }
  }

  lemma StepKeepsHow(fx: Boundary, s: State, e: Event)
    ensures ProcessOne(fx, s, e).state.how == s.how
  {
  }

  // ----------------------------------------------------- the whole portfolio

  function LeftSum(s: State, assets: seq<string>): real {
    if |assets| == 0 then 0.0 else LeftSum(s, assets[..|assets| - 1]) + Left(s, assets[|assets| - 1])
  }

  lemma {:induction false} LeftSumFrame(s: State, t: State, assets: seq<string>)
    requires forall a :: a in assets ==> Left(s, a) == Left(t, a)
    ensures LeftSum(s, assets) == LeftSum(t, assets)
  {
    if |assets| > 0 {
      LeftSumFrame(s, t, assets[..|assets| - 1]);
    }
  }

  lemma {:induction false} LeftSumChange(s: State, t: State, assets: seq<string>, b: string)
    requires b in assets
    requires forall i, j | 0 <= i < j < |assets| :: assets[i] != assets[j]
    requires forall a :: a in assets && a != b ==> Left(s, a) == Left(t, a)
    ensures LeftSum(t, assets) == LeftSum(s, assets) - Left(s, b) + Left(t, b)
  {
    var n := |assets| - 1;
    if assets[n] == b {
      LeftSumFrame(s, t, assets[..n]);
    } else {
      LeftSumChange(s, t, assets[..n], b);
    }
  }

  lemma AssetsStep(fx: Boundary, s: State, e: Event)
    requires ValidState(s)
    ensures var (before, after) := (s.assets, ProcessOne(fx, s, e).state.assets);
      if e.atMs < s.lastAtMs || e.assetId in s.accounts then after == before else after == before + [e.assetId]
  {
    hide ValidState, Open, Sell, BookDisposal, Faithful;
  }

  lemma NewAssetAddsNothing(s: State, assetId: string)
    requires assetId !in s.accounts
    ensures LeftSum(s, s.assets + [assetId]) == LeftSum(s, s.assets)
  {
    assert (s.assets + [assetId])[..|s.assets|] == s.assets;
  }

  lemma NoCharge(s: State, e: Event, a: string)
    ensures a != e.assetId ==> ChargedOn(ChargesOne(s, e), a) == 0.0
    ensures Charged(ChargesOne(s, e)) == ChargedOn(ChargesOne(s, e), e.assetId)
  {
    hide Sell, Touch, FixCurrency;
    var charges := ChargesOne(s, e);
    if charges != [] {
      assert charges[1..] == [];
    }
  }

  lemma StepMovesTotal(fx: Boundary, s: State, e: Event)
    requires ValidState(s) && PricedState(s) && CostKnown(e, e.assetId)
    ensures var r := ProcessOne(fx, s, e);
      && PricedState(r.state)
      && LeftSum(r.state, r.state.assets) == LeftSum(s, s.assets)
           + (if r.error.None? then CostOf(e, e.assetId) else 0.0) - Charged(ChargesOne(s, e))
  {
    hide ProcessOne, Left, AssetPriced, ChargesOne;
    var r := ProcessOne(fx, s, e);
    forall a
      ensures AssetPriced(r.state, a)
      ensures a != e.assetId ==> Left(r.state, a) == Left(s, a)
    {
      UnseenIsPriced(s, a);
      StepMovesBasis(fx, s, e, a);
      NoCharge(s, e, a);
    }
    UnseenIsPriced(s, e.assetId);
    StepMovesBasis(fx, s, e, e.assetId);
    NoCharge(s, e, e.assetId);
    StepKeepsValid(fx, s, e);
    AssetsStep(fx, s, e);
    if e.assetId !in s.accounts {
      NewAssetAddsNothing(s, e.assetId);
    }
    if e.assetId in r.state.assets {
      LeftSumChange(s, r.state, r.state.assets, e.assetId);
    } else {
      LateEventChangesNothing(fx, s, e);
    }
  }

  lemma LateEventChangesNothing(fx: Boundary, s: State, e: Event)
    requires e.atMs < s.lastAtMs
    ensures ProcessOne(fx, s, e) == Stepped(s, Some(ValidationError)) && ChargesOne(s, e) == []
  {
  }

  lemma UnseenIsPriced(s: State, a: string)
    requires PricedState(s)
    ensures AssetPriced(s, a)
  {
  }

  predicate CostsKnown(events: seq<Event>) {
    forall k | 0 <= k < |events| :: CostKnown(events[k], events[k].assetId)
  }

  function Costs(events: seq<Event>): real {
    if events == [] then 0.0 else CostOf(events[0], events[0].assetId) + Costs(events[1..])
  }

  /** The same over all assets together. */
  lemma {:induction false} ProcessConservesAll(fx: Boundary, s: State, events: seq<Event>)
    requires ValidState(s) && PricedState(s) && CostsKnown(events)
    ensures Replayed(fx, s, events) <= |events|
    ensures var t := Process(fx, s, events).state;
      && PricedState(t)
      && LeftSum(t, t.assets)
         == LeftSum(s, s.assets) + Costs(events[..Replayed(fx, s, events)]) - Charged(Charges(fx, s, events))
    decreases |events|
  {
    hide ProcessOne, ValidState, PricedState, ChargesOne, LeftSum;
    if events != [] {
      var e, one, rest := events[0], ProcessOne(fx, s, events[0]), events[1..];
      StepMovesTotal(fx, s, e);
      if one.error.None? {
        StepKeepsValid(fx, s, e);
        ProcessConservesAll(fx, one.state, rest);
        ChargesJoin(ChargesOne(s, e), Charges(fx, one.state, rest), "");
        var n := Replayed(fx, one.state, rest);
        assert events[..n + 1][1..] == rest[..n];
      } else {
        assert ChargesOne(s, e) + [] == ChargesOne(s, e);
      }
    }
  }

  // ------------------------------------------------------ what is realised

  predicate Unrounded(records: seq<DisposalRecord>) {
    forall k | 0 <= k < |records| :: RoundedBasis !in records[k].flags
  }

  predicate FullyPriced(events: seq<Event>) {
    forall k | 0 <= k < |events| :: PricedBy(events[k]).Some?
  }

  function ProceedsOf(e: Event): real {
    if e.Disposal? && e.proceeds.Some? then e.proceeds.value.amount else 0.0
  }

  function Proceeds(events: seq<Event>): real {
    if events == [] then 0.0 else ProceedsOf(events[0]) + Proceeds(events[1..])
  }

  /** A disposal with known sides and no rounding realises its proceeds less its charge. */
  lemma StepRealizes(fx: Boundary, s: State, e: Event)
    requires PricedBy(e).Some? && ProcessOne(fx, s, e).error.None? && Unrounded(ProcessOne(fx, s, e).state.disposals)
    requires forall c | c in ChargesOne(s, e) :: c.basis.Some?
    ensures RealizedSum(ProcessOne(fx, s, e).state.disposals)
         == RealizedSum(s.disposals) + ProceedsOf(e) - Charged(ChargesOne(s, e))
  {
    hide ProcessOne, ChargesOne, Faithful;
    var (before, after, charges) := (s.disposals, ProcessOne(fx, s, e).state.disposals, ChargesOne(s, e));
    OneChargeBooked(fx, s, e);
    ChargeCount(fx, s, e);
    if charges != [] {
      var c, r := charges[0], after[|before|];
      assert Carries(fx, after[|before| + 0], c) && charges[1..] == [];
      assert after[..|after| - 1] == before && after[|after| - 1] == r;
      ExactMeansUnchanged(fx, c.basis.value);
    } else {
      assert after == before;
    }
  }

  /** A disposal that goes through is charged once, an acquisition never. */
  lemma ChargeCount(fx: Boundary, s: State, e: Event)
    requires ProcessOne(fx, s, e).error.None?
    ensures |ChargesOne(s, e)| == if e.Disposal? then 1 else 0
  {
    hide Sell, Open, Faithful, BookDisposal;
  }

  // -------------------------------------------------------- asset by asset

  /** What the disposals of one asset brought in. */
  function ProceedsOn(events: seq<Event>, assetId: string): real {
    if events == [] then 0.0
    else (if events[0].assetId == assetId then ProceedsOf(events[0]) else 0.0) + ProceedsOn(events[1..], assetId)
  }

  lemma StepRealizesOn(fx: Boundary, s: State, e: Event, a: string)
    requires PricedBy(e).Some? && ProcessOne(fx, s, e).error.None? && Unrounded(ProcessOne(fx, s, e).state.disposals)
    requires forall c | c in ChargesOne(s, e) :: c.basis.Some?
    ensures RealizedOf(ProcessOne(fx, s, e).state.disposals, a)
         == RealizedOf(s.disposals, a) + (if e.assetId == a then ProceedsOf(e) else 0.0)
            - ChargedOn(ChargesOne(s, e), a)
  {
    hide ProcessOne, ChargesOne, Faithful;
    var (before, after, charges) := (s.disposals, ProcessOne(fx, s, e).state.disposals, ChargesOne(s, e));
    OneChargeBooked(fx, s, e);
    ChargeCount(fx, s, e);
    OnlyItsAsset(s, e);
    if charges != [] {
      var c, r := charges[0], after[|before|];
      assert c in charges && Carries(fx, after[|before| + 0], c) && charges[1..] == [];
      assert after[..|after| - 1] == before && after[|after| - 1] == r;
      ExactMeansUnchanged(fx, c.basis.value);
    } else {
      assert after == before;
    }
  }

  /** On a fully priced, unrounded replay each asset's gains are its own proceeds less its
      own exact bases. */
  lemma {:induction false} ProcessRealizesOn(fx: Boundary, s: State, events: seq<Event>, a: string)
    requires ValidState(s) && PricedState(s) && FullyPriced(events)
    requires Process(fx, s, events).error.None? && Unrounded(Process(fx, s, events).state.disposals)
    ensures RealizedOf(Process(fx, s, events).state.disposals, a)
         == RealizedOf(s.disposals, a) + ProceedsOn(events, a) - ChargedOn(Charges(fx, s, events), a)
    decreases |events|
  {
    hide ProcessOne, ValidState, PricedState, ChargesOne, RealizedOf, Faithful;
    if events != [] {
      var e, one, rest := events[0], ProcessOne(fx, s, events[0]), events[1..];
      RecordsGrow(fx, one.state, rest);
      var final := Process(fx, s, events).state.disposals;
      assert forall k | 0 <= k < |one.state.disposals| :: one.state.disposals[k] == final[k];
      AssetChargesKnown(fx, s, e);
      StepRealizesOn(fx, s, e, a);
      StepKeepsValid(fx, s, e);
      StepMovesTotal(fx, s, e);
      ProcessRealizesOn(fx, one.state, rest, a);
      ChargesJoin(ChargesOne(s, e), Charges(fx, one.state, rest), a);
    }
  }

  /** A disposal that goes through books one record: its own time, asset, quantity and
      proceeds, and short exactly when it asked for more than was held. */
  lemma StepBooks(fx: Boundary, s: State, e: Event)
    requires ValidState(s) && e.Disposal? && ProcessOne(fx, s, e).error.None?
    ensures var (before, after) := (s.disposals, ProcessOne(fx, s, e).state.disposals);
      && |after| == |before| + 1 && after[..|before|] == before
      && var r := after[|before|];
      && r.atMs == e.atMs && r.assetId == e.assetId && r.quantity == e.quantity && r.proceeds == e.proceeds
      && (r.missingBasis <==> e.quantity.raw > Units(s, e.assetId))
      && (MissingBasis in r.flags <==> r.missingBasis) && (MissingProceeds in r.flags <==> r.proceeds.None?)
  {
    hide Sell, Faithful, BookDisposal, ValidState, FixCurrency, Touch, Units;
    var t := FixCurrency(Touch(s, e), e.proceeds).value;
    TouchKeeps(s, e);
    FixKeeps(Touch(s, e), e.proceeds);
    SaleIsShort(t, e);
    BookingIsHonest(fx, CurrencyOf(t), e, Sell(t.how, t.accounts[e.assetId], CurrencyOf(t), e).outcome.value);
    assert t.disposals == s.disposals by {
      FixKeepsRest(Touch(s, e), e.proceeds);
      TouchKeepsRecords(s, e);
    }
  }

  lemma TouchKeepsRecords(s: State, e: Event)
    ensures Touch(s, e).disposals == s.disposals
  {
  }

  lemma SaleIsShort(s: State, e: Event)
    requires ValidState(s) && e.assetId in s.accounts && e.Disposal?
    requires Sell(s.how, s.accounts[e.assetId], CurrencyOf(s), e).outcome.Ok?
    ensures var sold := Sell(s.how, s.accounts[e.assetId], CurrencyOf(s), e).outcome.value;
      sold.shortfall.raw > 0 <==> e.quantity.raw > Units(s, e.assetId)
  {
    SellKeepsValid(s.how, s.accounts[e.assetId], e.assetId, s.currency, e);
  }

  // --------------------------------------------------------- the portfolio

  /** On a fully priced, unrounded replay the gains realised are the proceeds less the
      exact bases charged. */
  lemma {:induction false} ProcessRealizes(fx: Boundary, s: State, events: seq<Event>)
    requires ValidState(s) && PricedState(s) && FullyPriced(events)
    requires Process(fx, s, events).error.None? && Unrounded(Process(fx, s, events).state.disposals)
    ensures RealizedSum(Process(fx, s, events).state.disposals)
         == RealizedSum(s.disposals) + Proceeds(events) - Charged(Charges(fx, s, events))
    decreases |events|
  {
    hide ProcessOne, ValidState, PricedState, ChargesOne, RealizedSum, Faithful;
    if events != [] {
      var e, one, rest := events[0], ProcessOne(fx, s, events[0]), events[1..];
      RecordsGrow(fx, one.state, rest);
      var final := Process(fx, s, events).state.disposals;
      assert forall k | 0 <= k < |one.state.disposals| :: one.state.disposals[k] == final[k];
      AssetChargesKnown(fx, s, e);
      StepRealizes(fx, s, e);
      StepKeepsValid(fx, s, e);
      StepMovesTotal(fx, s, e);
      ProcessRealizes(fx, one.state, rest);
      ChargesJoin(ChargesOne(s, e), Charges(fx, one.state, rest), "");
    }
  }

  lemma AssetChargesKnown(fx: Boundary, s: State, e: Event)
    requires ValidState(s) && PricedState(s) && CostKnown(e, e.assetId)
    ensures forall c | c in ChargesOne(s, e) :: c.basis.Some?
  {
    hide ValidState, AssetPriced, Left, ProcessOne;
    UnseenIsPriced(s, e.assetId);
    StepMovesBasis(fx, s, e, e.assetId);
    OnlyItsAsset(s, e);
  }

  lemma OnlyItsAsset(s: State, e: Event)
    ensures forall c | c in ChargesOne(s, e) :: c.assetId == e.assetId
  {
    hide Sell, Touch, FixCurrency;
  }

  /** So realised less basis left follows proceeds less costs, under every method. */
  lemma ProcessBalances(fx: Boundary, s: State, events: seq<Event>)
    requires ValidState(s) && PricedState(s) && FullyPriced(events)
    requires Process(fx, s, events).error.None? && Unrounded(Process(fx, s, events).state.disposals)
    ensures var t := Process(fx, s, events).state;
      && ValidState(t) && PricedState(t)
      && RealizedSum(t.disposals) - LeftSum(t, t.assets)
         == RealizedSum(s.disposals) - LeftSum(s, s.assets) + Proceeds(events) - Costs(events)
      && (forall a :: Units(t, a) == UnitsAfter(Units(s, a), events, a))
  {
    hide Process, ValidState, PricedState, LeftSum, RealizedSum, Units, Faithful;
    ProcessKeepsValid(fx, s, events);
    ProcessRealizes(fx, s, events);
    ProcessConservesAll(fx, s, events);
    AllReplayed(fx, s, events);
    assert events[..|events|] == events;
    forall a
      ensures Units(Process(fx, s, events).state, a) == UnitsAfter(Units(s, a), events, a)
    {
      ProcessUnits(fx, s, events, a);
    }
  }

  lemma {:induction false} AllReplayed(fx: Boundary, s: State, events: seq<Event>)
    requires Process(fx, s, events).error.None?
    ensures Replayed(fx, s, events) == |events|
    decreases |events|
  {
    hide ProcessOne;
    if events != [] {
      AllReplayed(fx, ProcessOne(fx, s, events[0]).state, events[1..]);
    }
  }

  // --------------------------------------------------------------- poison

  /** The asset's pool has lost its cost. */
  predicate Poisoned(s: State, a: string) {
    a in s.accounts && s.accounts[a].pool.Some? && s.accounts[a].pool.value.cost.None?
  }

  predicate Poisons(e: Event, a: string) {
    e.Acquisition? && e.assetId == a && e.cost.None?
  }

  lemma TouchKeepsPoison(s: State, e: Event, a: string)
    ensures Poisoned(Touch(s, e), a) <==> Poisoned(s, a)
  {
  }

  lemma FixKeepsPoison(s: State, priced: Option<Money>, a: string)
    requires FixCurrency(s, priced).Ok?
    ensures Poisoned(FixCurrency(s, priced).value, a) <==> Poisoned(s, a)
  {
  }

  lemma OpenPoisons(s: State, e: Event)
    requires s.how.Acb? && ValidState(s) && e.assetId in s.accounts && e.Acquisition?
    requires e.cost.Some? ==> s.currency == Some(e.cost.value.currency)
    ensures var c := Open(Acb, s.accounts[e.assetId], CurrencyOf(s), e);
      (c.account.pool.Some? && c.account.pool.value.cost.None?)
      <==> Poisoned(s, e.assetId) || (c.outcome.Ok? && e.cost.None?)
  {
    OneAccount(s, e.assetId);
    OpenKeepsValid(Acb, s.accounts[e.assetId], e.assetId, s.currency, e);
  }

  lemma SellPoisons(s: State, e: Event)
    requires s.how.Acb? && ValidState(s) && e.assetId in s.accounts && e.Disposal?
    ensures var c := Sell(Acb, s.accounts[e.assetId], CurrencyOf(s), e);
      && (c.account.pool.Some? && c.account.pool.value.cost.None? <==> Poisoned(s, e.assetId))
      && (c.outcome.Ok? ==> (c.outcome.value.basis.None? <==> Poisoned(s, e.assetId)))
  {
    hide Lots.Consume;
  }

  lemma AccountStepPoison(fx: Boundary, s: State, e: Event, a: string)
    requires s.how.Acb? && ValidState(s) && e.assetId in s.accounts
    requires PricedBy(e).Some? ==> s.currency == Some(PricedBy(e).value.currency)
    ensures var r := StepAccount(fx, s, e);
      && (Poisoned(r.state, a) <==> Poisoned(s, a) || (r.error.None? && Poisons(e, a)))
      && (forall c | c in ChargesAt(s, e) :: c.basis.None? <==> Poisoned(s, c.assetId))
  {
    hide Open, Sell, BookDisposal, ValidState, Faithful;
    if e.Acquisition? {
      OpenPoisons(s, e);
    } else {
      SellPoisons(s, e);
    }
  }

  lemma StepPoison(fx: Boundary, s: State, e: Event, a: string)
    requires s.how.Acb? && ValidState(s)
    ensures var r := ProcessOne(fx, s, e);
      && (Poisoned(r.state, a) <==> Poisoned(s, a) || (r.error.None? && Poisons(e, a)))
      && (forall c | c in ChargesOne(s, e) :: c.basis.None? <==> Poisoned(s, c.assetId))
  {
    hide ValidState, StepAccount, FixCurrency, Touch, Poisoned, ChargesAt, Faithful;
    if e.atMs >= s.lastAtMs {
      TouchKeepsValid(s, e);
      TouchKeepsHow(s, e);
      var fixed := FixCurrency(Touch(s, e), PricedBy(e));
      forall b
        ensures Poisoned(Touch(s, e), b) <==> Poisoned(s, b)
        ensures fixed.Ok? ==> (Poisoned(fixed.value, b) <==> Poisoned(s, b))
      {
        TouchKeepsPoison(s, e, b);
        if fixed.Ok? {
          FixKeepsPoison(Touch(s, e), PricedBy(e), b);
        }
      }
      if fixed.Ok? {
        FixKeeps(Touch(s, e), PricedBy(e));
        FixKeepsRest(Touch(s, e), PricedBy(e));
        AccountStepPoison(fx, fixed.value, e, a);
      }
    }
  }

  lemma TouchKeepsHow(s: State, e: Event)
    ensures Touch(s, e).how == s.how
  {
  }

  /** Under ACB a pool has lost its cost after a replay exactly when it had before, or an
      unpriced acquisition of the asset went through: nothing ever brings a cost back. */
  lemma {:induction false} PoisonedIff(fx: Boundary, s: State, events: seq<Event>, a: string)
    requires s.how.Acb? && ValidState(s)
    ensures Replayed(fx, s, events) <= |events|
    ensures Poisoned(Process(fx, s, events).state, a)
      <==> Poisoned(s, a) || exists k :: 0 <= k < Replayed(fx, s, events) && Poisons(events[k], a)
    decreases |events|
  {
    hide ProcessOne, ValidState, Poisoned, Poisons;
    if events != [] {
      var one, rest := ProcessOne(fx, s, events[0]), events[1..];
      StepPoison(fx, s, events[0], a);
      StepKeepsHow(fx, s, events[0]);
      StepKeepsValid(fx, s, events[0]);
      if one.error.None? {
        PoisonedIff(fx, one.state, rest, a);
        var n := Replayed(fx, one.state, rest);
        assert forall k | 0 <= k < n :: rest[k] == events[k + 1];
        if k :| 0 <= k < n + 1 && Poisons(events[k], a) && k > 0 {
          assert rest[k - 1] == events[k];
        }
      }
    }
  }

  /** And from then on every disposal of the asset is booked without a cost, and says so. */
  lemma {:induction false} PoisonIsForever(fx: Boundary, s: State, events: seq<Event>, a: string)
    requires s.how.Acb? && ValidState(s) && Poisoned(s, a)
    ensures var t := Process(fx, s, events).state;
      && Poisoned(t, a)
      && |s.disposals| <= |t.disposals|
      && (forall k | |s.disposals| <= k < |t.disposals| && t.disposals[k].assetId == a ::
            t.disposals[k].costBasis.None? && t.disposals[k].realized.None? && MissingCost in t.disposals[k].flags)
  {
    hide Process, ValidState, Poisoned, Charges;
    PoisonedIff(fx, s, events, a);
    PoisonedCharges(fx, s, events, a);
    ChargesAreBooked(fx, s, events);
    var (before, after, charges) := (s.disposals, Process(fx, s, events).state.disposals, Charges(fx, s, events));
    forall k | |before| <= k < |after| && after[k].assetId == a
      ensures after[k].costBasis.None? && after[k].realized.None? && MissingCost in after[k].flags
    {
      assert Carries(fx, after[|before| + (k - |before|)], charges[k - |before|]);
    }
  }

  lemma {:induction false} PoisonedCharges(fx: Boundary, s: State, events: seq<Event>, a: string)
    requires s.how.Acb? && ValidState(s) && Poisoned(s, a)
    ensures forall c | c in Charges(fx, s, events) && c.assetId == a :: c.basis.None?
    decreases |events|
  {
    hide ProcessOne, ValidState, Poisoned, ChargesOne;
    if events != [] {
      StepPoison(fx, s, events[0], a);
      StepKeepsHow(fx, s, events[0]);
      StepKeepsValid(fx, s, events[0]);
      if ProcessOne(fx, s, events[0]).error.None? {
        PoisonedCharges(fx, ProcessOne(fx, s, events[0]).state, events[1..], a);
      }
    }
  }
}
