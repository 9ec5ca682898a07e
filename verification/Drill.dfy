/** Raw positions times prices, and the holdings projected from them
    (positions/drill.py, positions/models.py). */
module Drilling {
  import opened Common
  import opened Decimals
  import opened Fiats
  import opened Lots
  import opened Strings

  datatype MetaType = Wallet | Supplied | Borrowed | Claimable | Vesting | Locked | Nft

  datatype Underlying = Underlying(assetId: string, quantity: Quantity, metaType: MetaType, price: Option<Fiat>,
      value: Option<Fiat>)

  datatype GroupInfo = GroupInfo(healthFactor: Option<Decimal>, ltv: Option<Decimal>, liquidationPrice: Option<Fiat>)

  datatype Position = Position(id: string, groupId: string, underlyings: seq<Underlying>, groupInfo: Option<GroupInfo>)

  datatype PositionGroup = PositionGroup(groupId: string, positions: seq<Position>, totalValue: Fiat, info: GroupInfo)

  datatype DrillResult = DrillResult(
    positions: seq<Position>, groups: seq<PositionGroup>, grossAssets: Fiat, totalDebt: Fiat, netWorth: Fiat)

  datatype SyntheticHolding = SyntheticHolding(assetId: string, quantity: Decimal, institutionPrice: Fiat,
      institutionValue: Fiat)

  type Prices = map<string, Fiat>

  function Direct(d: Decimal, metaType: MetaType): Decimal {
    if metaType.Borrowed? then Negate(d) else d
  }

  /** `_priced`. */
  function PriceOf(assetId: string, prices: Prices): Result<Fiat> {
    if assetId !in prices then Err(UnknownAssetError)
    else if prices[assetId].currency != "USD" then Err(CurrencyMismatchError)
    else Ok(prices[assetId])
  }

  /** `_valued`. */
  function Valued(u: Underlying, prices: Prices): Result<Underlying> {
    match PriceOf(u.assetId, prices)
    case Err(e) => Err(e)
    case Ok(price) =>
      var worth := ExactMul(AsDecimal(u.quantity.raw, u.quantity.decimals), price.amount);
      Ok(u.(price := Some(price), value := Some(Fiat(Direct(worth, u.metaType), "USD"))))
  }

  function ValuedAll(us: seq<Underlying>, prices: Prices): (r: Result<seq<Underlying>>)
    ensures r.Ok? ==> |r.value| == |us| && forall k | 0 <= k < |us| :: Valued(us[k], prices) == Ok(r.value[k])
  {
    if us == [] then Ok([])
    else
      match ValuedAll(us[..|us| - 1], prices)
      case Err(e) => Err(e)
      case Ok(done) =>
        match Valued(us[|us| - 1], prices)
        case Err(e) => Err(e)
        case Ok(u) => Ok(done + [u])
  }

  /** Every position re-valued, or the first price that is missing or foreign. */
  function ValuedPositions(ps: seq<Position>, prices: Prices): Result<seq<Position>> {
    if ps == [] then Ok([])
    else
      match ValuedPositions(ps[..|ps| - 1], prices)
      case Err(e) => Err(e)
      case Ok(done) =>
        match ValuedAll(ps[|ps| - 1].underlyings, prices)
        case Err(e) => Err(e)
        case Ok(us) => Ok(done + [ps[|ps| - 1].(underlyings := us)])
  }

  /** It carries the value a drill gives it, in dollars. */
  predicate Drilled(u: Underlying) {
    && u.price.Some? && u.value.Some?
    && u.value.value == Fiat(Direct(ExactMul(AsDecimal(u.quantity.raw, u.quantity.decimals), u.price.value.amount),
                                    u.metaType), "USD")
  }

  predicate AllDrilled(ps: seq<Position>) {
    forall p | p in ps :: p.underlyings != [] && forall u | u in p.underlyings :: Drilled(u)
  }

  lemma {:induction false} ValuedAreDrilled(ps: seq<Position>, prices: Prices)
    requires ValuedPositions(ps, prices).Ok? && forall p | p in ps :: p.underlyings != []
    ensures AllDrilled(ValuedPositions(ps, prices).value)
    ensures |ValuedPositions(ps, prices).value| == |ps|
  {
    hide ExactMul, Direct;
    if ps != [] {
      ValuedAreDrilled(ps[..|ps| - 1], prices);
    }
  }

  // Exact worth

  function Worth(u: Underlying): real {
    if u.value.Some? then Value(u.value.value.amount) else 0.0
  }

  function WorthOf(us: seq<Underlying>): real {
    if us == [] then 0.0 else WorthOf(us[..|us| - 1]) + Worth(us[|us| - 1])
  }

  function TotalWorth(ps: seq<Position>): real {
    if ps == [] then 0.0 else TotalWorth(ps[..|ps| - 1]) + WorthOf(ps[|ps| - 1].underlyings)
  }

  /** The positive and the negative part of what some underlyings are worth. */
  function Assets(us: seq<Underlying>): (r: real)
    ensures r >= 0.0
  {
    if us == [] then 0.0
    else Assets(us[..|us| - 1]) + (if Worth(us[|us| - 1]) < 0.0 then 0.0 else Worth(us[|us| - 1]))
  }

  function Debts(us: seq<Underlying>): (r: real)
    ensures r >= 0.0
  {
    if us == [] then 0.0
    else Debts(us[..|us| - 1]) + (if Worth(us[|us| - 1]) < 0.0 then -Worth(us[|us| - 1]) else 0.0)
  }

  lemma {:induction false} AssetsLessDebts(us: seq<Underlying>)
    ensures Assets(us) - Debts(us) == WorthOf(us)
  {
    if us != [] {
      AssetsLessDebts(us[..|us| - 1]);
    }
  }

  function TotalAssets(ps: seq<Position>): (r: real)
    ensures r >= 0.0
  {
    if ps == [] then 0.0 else TotalAssets(ps[..|ps| - 1]) + Assets(ps[|ps| - 1].underlyings)
  }

  function TotalDebts(ps: seq<Position>): (r: real)
    ensures r >= 0.0
  {
    if ps == [] then 0.0 else TotalDebts(ps[..|ps| - 1]) + Debts(ps[|ps| - 1].underlyings)
  }

  lemma {:induction false} TotalsLess(ps: seq<Position>)
    ensures TotalAssets(ps) - TotalDebts(ps) == TotalWorth(ps)
  {
    if ps != [] {
      TotalsLess(ps[..|ps| - 1]);
      AssetsLessDebts(ps[|ps| - 1].underlyings);
    }
  }

  // Groups

  function Members(ps: seq<Position>, groupId: string): seq<Position> {
    if ps == [] then []
    else
      var rest := Members(ps[..|ps| - 1], groupId);
      if ps[|ps| - 1].groupId == groupId then rest + [ps[|ps| - 1]] else rest
  }

  function GroupsWorth(ps: seq<Position>, ids: seq<string>): real {
    if ids == [] then 0.0 else GroupsWorth(ps, ids[..|ids| - 1]) + TotalWorth(Members(ps, ids[|ids| - 1]))
  }

  lemma {:induction false} GroupsWorthAdds(ps: seq<Position>, p: Position, ids: seq<string>)
    requires forall i, j | 0 <= i < j < |ids| :: ids[i] != ids[j]
    ensures GroupsWorth(ps + [p], ids)
      == GroupsWorth(ps, ids) + (if p.groupId in ids then WorthOf(p.underlyings) else 0.0)
  {
    if ids != [] {
      var n := |ids| - 1;
      GroupsWorthAdds(ps, p, ids[..n]);
      assert ids == ids[..n] + [ids[n]];
      assert (ps + [p])[..|ps|] == ps;
      MembersWorthAdds(ps, p, ids[n]);
    }
  }

  lemma MembersWorthAdds(ps: seq<Position>, p: Position, id: string)
    ensures TotalWorth(Members(ps + [p], id))
      == TotalWorth(Members(ps, id)) + (if p.groupId == id then WorthOf(p.underlyings) else 0.0)
  {
    assert (ps + [p])[..|ps|] == ps;
    var rest := Members(ps, id);
    assert (rest + [p])[..|rest|] == rest;
  }

  /** Groups partition the positions, so their totals add up to the whole. */
  lemma {:induction false} GroupsPartition(ps: seq<Position>, ids: seq<string>)
    requires forall i, j | 0 <= i < j < |ids| :: ids[i] != ids[j]
    requires forall p | p in ps :: p.groupId in ids
    ensures GroupsWorth(ps, ids) == TotalWorth(ps)
  {
    if ps == [] {
      NoMembers(ids);
    } else {
      var n := |ps| - 1;
      assert ps == ps[..n] + [ps[n]];
      GroupsPartition(ps[..n], ids);
      GroupsWorthAdds(ps[..n], ps[n], ids);
    }
  }

  lemma {:induction false} NoMembers(ids: seq<string>)
    ensures GroupsWorth([], ids) == 0.0
  {
    if ids != [] {
      NoMembers(ids[..|ids| - 1]);
    }
  }

  // Sums of money, as the code folds them

  function SumFiats(vs: seq<Fiat>): Result<Fiat>
    requires vs != []
  {
    if |vs| == 1 then Ok(vs[0])
    else
      match SumFiats(vs[..|vs| - 1])
      case Err(e) => Err(e)
      case Ok(total) => Plus(total, vs[|vs| - 1])
  }

  method FoldFiats(vs: seq<Fiat>) returns (r: Result<Fiat>)
    requires vs != []
    ensures r == SumFiats(vs)
  {
    hide Plus;
    var total := vs[0];
    for k := 1 to |vs|
      invariant SumFiats(vs[..k]) == Ok(total)
    {
      assert vs[..k + 1][..k] == vs[..k];
      var next := Plus(total, vs[k]);
      if next.Err? {
        assert SumFiats(vs[..k + 1]) == next;
        FailsOn(vs, k + 1);
        return next;
      }
      total := next.value;
    }
    assert vs[..|vs|] == vs;
    return Ok(total);
  }

  lemma {:induction false} FailsOn(vs: seq<Fiat>, k: nat)
    requires 1 <= k <= |vs| && SumFiats(vs[..k]).Err?
    ensures SumFiats(vs) == SumFiats(vs[..k])
    decreases |vs|
  {
    hide Plus;
    if k == |vs| {
      assert vs[..k] == vs;
    } else {
      assert vs[..|vs| - 1][..k] == vs[..k];
      FailsOn(vs[..|vs| - 1], k);
    }
  }

  function Amounts(vs: seq<Fiat>): real {
    if vs == [] then 0.0 else Amounts(vs[..|vs| - 1]) + Value(vs[|vs| - 1].amount)
  }

  lemma {:induction false} DollarsSum(vs: seq<Fiat>)
    requires vs != [] && forall v | v in vs :: v.currency == "USD"
    ensures SumFiats(vs).Ok? && SumFiats(vs).value.currency == "USD" && Value(SumFiats(vs).value.amount) == Amounts(vs)
  {
    hide Plus, Value;
    if |vs| == 1 {
      assert Amounts(vs[..0]) == 0.0;
    } else {
      DollarsSum(vs[..|vs| - 1]);
      ArithmeticIsExact(SumFiats(vs[..|vs| - 1]).value, vs[|vs| - 1]);
      PlusKeepsCurrency(SumFiats(vs[..|vs| - 1]).value, vs[|vs| - 1]);
    }
  }

  lemma PlusKeepsCurrency(a: Fiat, b: Fiat)
    ensures Plus(a, b).Ok? ==> Plus(a, b).value.currency == a.currency
  {
  }

  /** `Position.value`: nothing if any underlying has none, else the signed sum. */
  function PositionValue(p: Position): Result<Option<Fiat>> {
    if p.underlyings == [] || exists u | u in p.underlyings :: u.value.None? then Ok(None)
    else
      match SumFiats(ValuesOf(p.underlyings))
      case Err(e) => Err(e)
      case Ok(total) => Ok(Some(total))
  }

  function ValuesOf(us: seq<Underlying>): (vs: seq<Fiat>)
    requires forall u | u in us :: u.value.Some?
    ensures |vs| == |us|
  {
    if us == [] then [] else ValuesOf(us[..|us| - 1]) + [us[|us| - 1].value.value]
  }

  lemma {:induction false} ValuesAmount(us: seq<Underlying>)
    requires forall u | u in us :: u.value.Some? && Drilled(u)
    ensures Amounts(ValuesOf(us)) == WorthOf(us) && forall v | v in ValuesOf(us) :: v.currency == "USD"
  {
    hide Value, ExactMul, Direct;
    if us != [] {
      assert us[|us| - 1] in us;
      ValuesAmount(us[..|us| - 1]);
      var rest := ValuesOf(us[..|us| - 1]);
      assert (rest + [us[|us| - 1].value.value])[..|rest|] == rest;
    }
  }

  lemma PositionIsWorth(p: Position)
    requires p.underlyings != [] && forall u | u in p.underlyings :: Drilled(u)
    ensures PositionValue(p).Ok? && PositionValue(p).value.Some?
    ensures PositionValue(p).value.value.currency == "USD"
      && Value(PositionValue(p).value.value.amount) == WorthOf(p.underlyings)
  {
    hide Value;
    assert forall u | u in p.underlyings :: u.value.Some? && Drilled(u);
    ValuesAmount(p.underlyings);
    DollarsSum(ValuesOf(p.underlyings));
  }

  /** The values of some positions, or the first currency clash among one's underlyings. */
  function PositionValues(ps: seq<Position>): (r: Result<seq<Option<Fiat>>>)
    ensures r.Ok? ==> |r.value| == |ps|
  {
    if ps == [] then Ok([])
    else
      match PositionValues(ps[..|ps| - 1])
      case Err(e) => Err(e)
      case Ok(done) =>
        match PositionValue(ps[|ps| - 1])
        case Err(e) => Err(e)
        case Ok(v) => Ok(done + [v])
  }

  function Present(vs: seq<Option<Fiat>>): (r: seq<Fiat>)
    requires forall v | v in vs :: v.Some?
    ensures |r| == |vs| && forall k | 0 <= k < |vs| :: r[k] == vs[k].value
  {
    if vs == [] then [] else Present(vs[..|vs| - 1]) + [vs[|vs| - 1].value]
  }

  /** A position is unvalued exactly when one of its underlyings is. */
  lemma UnvaluedIff(p: Position)
    requires p.underlyings != []
    ensures PositionValue(p) == Ok(None) <==> exists u | u in p.underlyings :: u.value.None?
  {
  }

  /** `make_group`: the total is computed, never given. */
  method MakeGroup(ps: seq<Position>, info: Option<GroupInfo>) returns (r: Result<PositionGroup>)
    // refused when empty or mixed, on a currency clash within a position, when one is
    // unvalued, or on a clash between positions, in that order
    ensures ps == [] || (exists p | p in ps :: p.groupId != ps[0].groupId) ==> r == Err(ValidationError)
    ensures ps != [] && (forall p | p in ps :: p.groupId == ps[0].groupId) ==>
      match PositionValues(ps)
      case Err(e) => r == Err(e)
      case Ok(values) =>
        if exists v | v in values :: v.None? then r == Err(ValidationError)
        else if SumFiats(Present(values)).Err? then r == Err(SumFiats(Present(values)).error)
        else r.Ok? && r.value.totalValue == SumFiats(Present(values)).value
    ensures r.Ok? ==> ps != [] && r.value.groupId == ps[0].groupId && r.value.positions == ps
    ensures r.Ok? ==> r.value.info == if info.Some? then info.value else GroupInfo(None, None, None)
    ensures r.Ok? ==> forall p | p in ps :: p.groupId == ps[0].groupId
    // a drilled group is always built, and is worth exactly its positions
    ensures ps != [] && AllDrilled(ps) && (forall p | p in ps :: p.groupId == ps[0].groupId) ==>
      r.Ok? && r.value.totalValue.currency == "USD" && Value(r.value.totalValue.amount) == TotalWorth(ps)
  {
    hide Value, Drilled;
    if ps == [] {
      return Err(ValidationError);
    }
    if exists p | p in ps :: p.groupId != ps[0].groupId {
      return Err(ValidationError);
    }
    var values := PositionValues(ps);
    if AllDrilled(ps) {
      DrilledValues(ps);
    }
    if values.Err? {
      return Err(values.error);
    }
    if exists v | v in values.value :: v.None? {
      return Err(ValidationError);
    }
    var total := FoldFiats(Present(values.value));
    if total.Err? {
      return Err(total.error);
    }
    return Ok(PositionGroup(ps[0].groupId, ps, total.value,
                            if info.Some? then info.value else GroupInfo(None, None, None)));
  }

  lemma DrilledValues(ps: seq<Position>)
    requires ps != [] && AllDrilled(ps)
    ensures PositionValues(ps).Ok? && forall v | v in PositionValues(ps).value :: v.Some?
    ensures SumFiats(Present(PositionValues(ps).value)).Ok?
    ensures var total := SumFiats(Present(PositionValues(ps).value)).value;
      && total.currency == "USD" && Value(total.amount) == TotalWorth(ps)
  {
    hide Value, Drilled;
    ValuesPresent(ps);
    DollarsSum(Present(PositionValues(ps).value));
  }

  lemma {:induction false} ValuesPresent(ps: seq<Position>)
    requires AllDrilled(ps)
    ensures PositionValues(ps).Ok? && forall v | v in PositionValues(ps).value :: v.Some?
    ensures var vs := Present(PositionValues(ps).value);
      && Amounts(vs) == TotalWorth(ps) && forall v | v in vs :: v.currency == "USD"
  {
    hide Value, Drilled, PositionValue;
    if ps != [] {
      var n := |ps| - 1;
      ValuesPresent(ps[..n]);
      assert ps[n] in ps;
      PositionIsWorth(ps[n]);
      var rest, v := PositionValues(ps[..n]).value, PositionValue(ps[n]).value;
      assert (rest + [v])[..|rest|] == rest;
      var fiats := Present(rest);
      assert Present(rest + [v]) == fiats + [v.value];
      assert (fiats + [v.value])[..|fiats|] == fiats;
    }
  }

  // The drill

  /** `_merged_group_info`: the one info the members agree on. */
  method MergedGroupInfo(members: seq<Position>) returns (r: Result<Option<GroupInfo>>)
    ensures r.Err? <==> Conflicted(members)
    ensures r.Err? ==> r.error == ValidationError
    ensures r.Ok? ==> forall p | p in members && p.groupInfo.Some? :: r.value == p.groupInfo
    ensures r.Ok? && r.value.Some? ==> exists p :: p in members && p.groupInfo == r.value
  {
    var merged: Option<GroupInfo> := None;
    for k := 0 to |members|
      invariant forall j | 0 <= j < k && members[j].groupInfo.Some? :: merged == members[j].groupInfo
      invariant merged.Some? ==> exists j :: 0 <= j < k && members[j].groupInfo == merged
    {
      var info := members[k].groupInfo;
      if info.None? {
        continue;
      }
      if merged.None? {
        merged := info;
      } else if info != merged {
        var j :| 0 <= j < k && members[j].groupInfo == merged;
        assert members[j] in members && members[k] in members;
        return Err(ValidationError);
      }
    }
    return Ok(merged);
  }

  predicate Conflicted(members: seq<Position>) {
    exists p, q | p in members && q in members :: p.groupInfo.Some? && q.groupInfo.Some? && p.groupInfo != q.groupInfo
  }

  predicate InIdOrder(ids: seq<string>) {
    forall i, j | 0 <= i < j < |ids| :: Precedes(ids[i], ids[j])
  }

  function PlaceId(ids: seq<string>, id: string): seq<string> {
    if ids == [] || Precedes(ids[|ids| - 1], id) then ids + [id]
    else PlaceId(ids[..|ids| - 1], id) + [ids[|ids| - 1]]
  }

  lemma {:induction false} PlacedId(ids: seq<string>, id: string)
    requires InIdOrder(ids) && id !in ids
    ensures InIdOrder(PlaceId(ids, id)) && forall x :: x in PlaceId(ids, id) <==> x in ids || x == id
  {
    hide InIdOrder;
    if ids == [] {
      LastId([], id);
    } else {
      var n := |ids| - 1;
      FrontIds(ids);
      forall x | x in ids
        ensures Precedes(x, ids[n]) && Precedes(ids[n], id) ==> Precedes(x, id)
      {
        PrecedesIsOrder(x, ids[n], id);
      }
      PrecedesIsOrder(ids[n], id, id);
      if Precedes(ids[n], id) {
        LastId(ids, id);
      } else {
        PlacedId(ids[..n], id);
        LastId(PlaceId(ids[..n], id), ids[n]);
      }
    }
  }

  lemma FrontIds(ids: seq<string>)
    requires InIdOrder(ids) && ids != []
    ensures var front, last := ids[..|ids| - 1], ids[|ids| - 1];
      && InIdOrder(front) && ids == front + [last] && last in ids
      && forall x | x in front :: x in ids && Precedes(x, last)
  {
  }

  lemma LastId(ids: seq<string>, id: string)
    requires (ids == [] || InIdOrder(ids)) && forall x | x in ids :: Precedes(x, id)
    ensures InIdOrder(ids + [id])
  {
  }

  lemma OrderedAreDistinct(ids: seq<string>)
    requires InIdOrder(ids)
    ensures forall i, j | 0 <= i < j < |ids| :: ids[i] != ids[j]
  {
    forall i, j | 0 <= i < j < |ids|
      ensures ids[i] != ids[j]
    {
      PrecedesIsOrder(ids[i], ids[j], ids[j]);
    }
  }

  /** The keys of the grouping dict, sorted. */
  method SortedGroupIds(ps: seq<Position>) returns (ids: seq<string>)
    ensures InIdOrder(ids) && forall id :: id in ids <==> exists p :: p in ps && p.groupId == id
  {
    ids := [];
    for k := 0 to |ps|
      invariant InIdOrder(ids) && forall id :: id in ids <==> exists p :: p in ps[..k] && p.groupId == id
    {
      assert ps[..k + 1] == ps[..k] + [ps[k]];
      ghost var was := ids;
      if ps[k].groupId !in ids {
        PlacedId(ids, ps[k].groupId);
        ids := PlaceId(ids, ps[k].groupId);
      }
      assert forall id :: id in ids <==> id in was || id == ps[k].groupId;
    }
    assert ps[..|ps|] == ps;
  }

  /** What a drill promises about its result: every underlying valued in dollars, the
      explicit triple exact, and the groups, in id order, a partition of the
      positions each worth exactly its members. */
  ghost predicate IsDrill(d: DrillResult) {
    && AllDrilled(d.positions)
    && d.grossAssets.currency == d.totalDebt.currency == d.netWorth.currency == "USD"
    && Value(d.grossAssets.amount) == TotalAssets(d.positions)
    && Value(d.totalDebt.amount) == TotalDebts(d.positions)
    && Value(d.netWorth.amount) == Value(d.grossAssets.amount) - Value(d.totalDebt.amount)
    && IsGrouping(d.positions, d.groups, IdsOf(d.groups))
    && (forall p | p in d.positions :: p.groupId in IdsOf(d.groups))
  }

  function IdsOf(groups: seq<PositionGroup>): (ids: seq<string>)
    ensures |ids| == |groups| && forall k | 0 <= k < |groups| :: ids[k] == groups[k].groupId
  {
    if groups == [] then [] else IdsOf(groups[..|groups| - 1]) + [groups[|groups| - 1].groupId]
  }

  ghost predicate IsGrouping(ps: seq<Position>, groups: seq<PositionGroup>, ids: seq<string>) {
    && InIdOrder(ids) && |groups| == |ids|
    && forall k | 0 <= k < |groups| :: IsGroup(ps, groups[k], ids[k])
  }

  ghost predicate IsGroup(ps: seq<Position>, group: PositionGroup, id: string) {
    && group.groupId == id && group.positions == Members(ps, id) && group.positions != []
    && group.totalValue.currency == "USD" && Value(group.totalValue.amount) == TotalWorth(Members(ps, id))
  }

  /** The inner loop of the drill: debts and assets, each kept non-negative. */
  method Tally(us: seq<Underlying>, gross: Fiat, debt: Fiat) returns (gross': Fiat, debt': Fiat)
    requires gross.currency == debt.currency == "USD"
      && forall u | u in us :: u.value.Some? && u.value.value.currency == "USD"
    ensures gross'.currency == debt'.currency == "USD"
    ensures Value(gross'.amount) == Value(gross.amount) + Assets(us)
    ensures Value(debt'.amount) == Value(debt.amount) + Debts(us)
  {
    hide Value, Signed;
    gross', debt' := gross, debt;
    for k := 0 to |us|
      invariant gross'.currency == debt'.currency == "USD"
      invariant Value(gross'.amount) == Value(gross.amount) + Assets(us[..k])
      invariant Value(debt'.amount) == Value(debt.amount) + Debts(us[..k])
    {
      assert us[..k + 1][..k] == us[..k] && us[k] in us;
      var value := us[k].value.value;
      BelowZeroIsNegative(value.amount);
      if BelowZero(value.amount) {
        var owed := Fiat(Negate(value.amount), value.currency);
        ArithmeticIsExact(debt', owed);
        debt' := Plus(debt', owed).value;
      } else {
        ArithmeticIsExact(gross', value);
        gross' := Plus(gross', value).value;
      }
    }
    assert us[..|us|] == us;
  }

  lemma {:induction false} PositionsFailOn(ps: seq<Position>, k: nat, prices: Prices)
    requires k <= |ps| && ValuedPositions(ps[..k], prices).Err?
    ensures ValuedPositions(ps, prices) == ValuedPositions(ps[..k], prices)
    decreases |ps|
  {
    if k == |ps| {
      assert ps[..k] == ps;
    } else {
      assert ps[..|ps| - 1][..k] == ps[..k];
      PositionsFailOn(ps[..|ps| - 1], k, prices);
    }
  }

  lemma {:induction false} ValuedAllDrilled(us: seq<Underlying>, prices: Prices)
    requires ValuedAll(us, prices).Ok?
    ensures forall u | u in ValuedAll(us, prices).value ::
      u.value.Some? && u.value.value.currency == "USD" && Drilled(u)
  {
    var r := ValuedAll(us, prices).value;
    forall u | u in r
      ensures u.value.Some? && u.value.value.currency == "USD" && Drilled(u)
    {
      var k :| 0 <= k < |r| && r[k] == u;
      assert Valued(us[k], prices) == Ok(u);
    }
  }

  /** One position more, or the price that stops the drill. */
  lemma OneMorePosition(raw: seq<Position>, k: nat, prices: Prices, valued: seq<Position>)
    requires k < |raw| && ValuedPositions(raw[..k], prices) == Ok(valued)
    ensures ValuedAll(raw[k].underlyings, prices).Err? ==>
      ValuedPositions(raw, prices) == Err(ValuedAll(raw[k].underlyings, prices).error)
    ensures ValuedAll(raw[k].underlyings, prices).Ok? ==>
      ValuedPositions(raw[..k + 1], prices)
        == Ok(valued + [raw[k].(underlyings := ValuedAll(raw[k].underlyings, prices).value)])
  {
    hide Valued;
    assert raw[..k + 1][..k] == raw[..k];
    if ValuedAll(raw[k].underlyings, prices).Err? {
      PositionsFailOn(raw, k + 1, prices);
    }
  }

  lemma OneMoreTallied(valued: seq<Position>, p: Position)
    ensures TotalAssets(valued + [p]) == TotalAssets(valued) + Assets(p.underlyings)
    ensures TotalDebts(valued + [p]) == TotalDebts(valued) + Debts(p.underlyings)
  {
    assert (valued + [p])[..|valued|] == valued;
  }

  /** The first loop: value every position and tally what it holds and owes. */
  method ValueAndTally(raw: seq<Position>, prices: Prices) returns (r: Result<seq<Position>>, gross: Fiat, debt: Fiat)
    ensures r == ValuedPositions(raw, prices)
    ensures r.Ok? ==>
      && gross.currency == debt.currency == "USD"
      && Value(gross.amount) == TotalAssets(r.value) && Value(debt.amount) == TotalDebts(r.value)
  {
    hide Value, Drilled, Valued, TotalAssets, TotalDebts;
    var valued: seq<Position> := [];
    gross, debt := Fiat(ZERO, "USD"), Fiat(ZERO, "USD");
    NothingTallied();
    for k := 0 to |raw|
      invariant ValuedPositions(raw[..k], prices) == Ok(valued)
      invariant gross.currency == debt.currency == "USD"
      invariant Value(gross.amount) == TotalAssets(valued) && Value(debt.amount) == TotalDebts(valued)
    {
      OneMorePosition(raw, k, prices, valued);
      var us := ValuedAll(raw[k].underlyings, prices);
      if us.Err? {
        return Err(us.error), gross, debt;
      }
      ValuedAllDrilled(raw[k].underlyings, prices);
      var position := raw[k].(underlyings := us.value);
      OneMoreTallied(valued, position);
      valued := valued + [position];
      gross, debt := Tally(us.value, gross, debt);
    }
    assert raw[..|raw|] == raw;
    return Ok(valued), gross, debt;
  }

  lemma NothingTallied()
    ensures Value(ZERO) == TotalAssets([]) == TotalDebts([])
  {
  }

  /** The groups, in id order. */
  method Grouped(ps: seq<Position>) returns (r: Result<seq<PositionGroup>>)
    requires AllDrilled(ps)
    ensures r.Err? <==> AnyConflict(ps)
    ensures r.Err? ==> r.error == ValidationError
    ensures r.Ok? ==> IsGrouping(ps, r.value, IdsOf(r.value)) && forall p | p in ps :: p.groupId in IdsOf(r.value)
  {
    hide Value, Drilled, TotalWorth, Conflicted, InIdOrder, PositionValues, SumFiats, Present;
    var ids := SortedGroupIds(ps);
    var groups: seq<PositionGroup> := [];
    for k := 0 to |ids|
      invariant |groups| == k
      invariant forall j | 0 <= j < k :: IsGroup(ps, groups[j], ids[j]) && !Conflicted(Members(ps, ids[j]))
    {
      var members := Members(ps, ids[k]);
      assert ids[k] in ids;
      MembersAre(ps, ids[k]);
      var info := MergedGroupInfo(members);
      if info.Err? {
        return Err(info.error);
      }
      var group := MakeGroup(members, info.value);
      groups := groups + [group.value];
    }
    assert IdsOf(groups) == ids;
    forall id
      ensures !Conflicted(Members(ps, id))
    {
      MembersAre(ps, id);
      if id in ids {
        var k :| 0 <= k < |ids| && ids[k] == id;
      } else {
        NoConflict(Members(ps, id));
      }
    }
    return Ok(groups);
  }

  /** Some group's members carry infos that disagree. */
  ghost predicate AnyConflict(ps: seq<Position>) {
    exists id :: Conflicted(Members(ps, id))
  }

  lemma NoConflict(members: seq<Position>)
    requires members == []
    ensures !Conflicted(members)
  {
  }

  lemma {:induction false} MembersAre(ps: seq<Position>, id: string)
    ensures forall p :: p in Members(ps, id) <==> p in ps && p.groupId == id
    ensures Members(ps, id) != [] <==> exists p :: p in ps && p.groupId == id
    ensures AllDrilled(ps) ==> AllDrilled(Members(ps, id))
  {
    if ps != [] {
      var n := |ps| - 1;
      assert ps == ps[..n] + [ps[n]];
      MembersAre(ps[..n], id);
    }
    if Members(ps, id) != [] {
      assert Members(ps, id)[0] in Members(ps, id);
    }
  }

  /** `drill`.  It fails exactly on the first price that is missing or not in dollars,
      or else on a group whose members' infos conflict. */
  method Drill(raw: seq<Position>, prices: Prices) returns (r: Result<DrillResult>)
    requires forall p | p in raw :: p.underlyings != []
    ensures ValuedPositions(raw, prices).Err? ==> r == Err(ValuedPositions(raw, prices).error)
    ensures ValuedPositions(raw, prices).Ok? ==>
      if AnyConflict(ValuedPositions(raw, prices).value) then r == Err(ValidationError)
      else r.Ok? && r.value.positions == ValuedPositions(raw, prices).value && IsDrill(r.value)
  {
    hide Value, Drilled, AnyConflict, IsGrouping, TotalAssets, TotalDebts;
    var valued, gross, debt := ValueAndTally(raw, prices);
    if valued.Err? {
      return Err(valued.error);
    }
    ValuedAreDrilled(raw, prices);
    var groups := Grouped(valued.value);
    if groups.Err? {
      return Err(groups.error);
    }
    ArithmeticIsExact(gross, debt);
    return Ok(DrillResult(valued.value, groups.value, gross, debt, Minus(gross, debt).value));
  }

  // The projection

  function HoldingOf(u: Underlying): SyntheticHolding
    requires u.price.Some?
  {
    var quantity := Direct(AsDecimal(u.quantity.raw, u.quantity.decimals), u.metaType);
    SyntheticHolding(u.assetId, quantity, u.price.value, Fiat(ExactMul(quantity, u.price.value.amount), "USD"))
  }

  function HoldingsOf(us: seq<Underlying>): seq<SyntheticHolding>
    requires forall u | u in us :: u.price.Some?
  {
    if us == [] then [] else HoldingsOf(us[..|us| - 1]) + [HoldingOf(us[|us| - 1])]
  }

  function Projected(ps: seq<Position>): seq<SyntheticHolding>
    requires forall p | p in ps :: forall u | u in p.underlyings :: u.price.Some?
  {
    if ps == [] then [] else Projected(ps[..|ps| - 1]) + HoldingsOf(ps[|ps| - 1].underlyings)
  }

  method ProjectToSyntheticHoldings(result: DrillResult) returns (holdings: seq<SyntheticHolding>)
    requires forall p | p in result.positions :: forall u | u in p.underlyings :: u.price.Some?
    ensures holdings == Projected(result.positions)
  {
    var ps := result.positions;
    holdings := [];
    for k := 0 to |ps|
      invariant holdings == Projected(ps[..k])
    {
      assert ps[..k + 1][..k] == ps[..k] && ps[k] in ps;
      var us := ps[k].underlyings;
      ghost var before := holdings;
      for j := 0 to |us|
        invariant holdings == before + HoldingsOf(us[..j])
      {
        assert us[..j + 1][..j] == us[..j] && us[j] in us;
        holdings := holdings + [HoldingOf(us[j])];
      }
      assert us[..|us|] == us;
    }
    assert ps[..|ps|] == ps;
  }

  function InstitutionTotal(holdings: seq<SyntheticHolding>): real {
    if holdings == [] then 0.0
    else InstitutionTotal(holdings[..|holdings| - 1]) + Value(holdings[|holdings| - 1].institutionValue.amount)
  }

  lemma {:induction false} InstitutionTotalAdds(a: seq<SyntheticHolding>, b: seq<SyntheticHolding>)
    ensures InstitutionTotal(a + b) == InstitutionTotal(a) + InstitutionTotal(b)
  {
    hide Value;
    if b == [] {
      assert a + b == a;
    } else {
      assert (a + b)[..|a + b| - 1] == a + b[..|b| - 1];
      InstitutionTotalAdds(a, b[..|b| - 1]);
    }
  }

  /** Negating the quantity is negating the value, to the last digit. */
  lemma HoldingIsValue(u: Underlying)
    requires Drilled(u)
    ensures HoldingOf(u).institutionValue == u.value.value
  {
  }

  lemma {:induction false} HoldingsWorth(us: seq<Underlying>)
    requires forall u | u in us :: u.price.Some? && Drilled(u)
    ensures InstitutionTotal(HoldingsOf(us)) == WorthOf(us)
  {
    hide Value, ExactMul, Direct, HoldingOf;
    if us != [] {
      var n := |us| - 1;
      assert us[n] in us;
      HoldingsWorth(us[..n]);
      HoldingIsValue(us[n]);
      var rest := HoldingsOf(us[..n]);
      assert (rest + [HoldingOf(us[n])])[..|rest|] == rest;
    }
  }

  lemma {:induction false} ProjectedWorth(ps: seq<Position>)
    requires AllDrilled(ps) && forall p | p in ps :: forall u | u in p.underlyings :: u.price.Some?
    ensures InstitutionTotal(Projected(ps)) == TotalWorth(ps)
  {
    hide Value, Drilled;
    if ps != [] {
      var n := |ps| - 1;
      assert ps[n] in ps;
      ProjectedWorth(ps[..n]);
      HoldingsWorth(ps[n].underlyings);
      InstitutionTotalAdds(Projected(ps[..n]), HoldingsOf(ps[n].underlyings));
    }
  }

  function GroupTotals(groups: seq<PositionGroup>): real {
    if groups == [] then 0.0 else GroupTotals(groups[..|groups| - 1]) + Value(groups[|groups| - 1].totalValue.amount)
  }

  lemma {:induction false} GroupTotalsAre(ps: seq<Position>, groups: seq<PositionGroup>, ids: seq<string>)
    requires |groups| == |ids| && forall k | 0 <= k < |groups| :: IsGroup(ps, groups[k], ids[k])
    ensures GroupTotals(groups) == GroupsWorth(ps, ids)
  {
    hide Value;
    if groups != [] {
      GroupTotalsAre(ps, groups[..|groups| - 1], ids[..|ids| - 1]);
    }
  }

  /** One number: what the projected holdings sum to, what the groups sum to, and the
      net worth, assets less debt with neither below zero. */
  lemma ProjectionInvariant(d: DrillResult)
    requires IsDrill(d) && forall p | p in d.positions :: forall u | u in p.underlyings :: u.price.Some?
    ensures InstitutionTotal(Projected(d.positions)) == GroupTotals(d.groups) == Value(d.netWorth.amount)
    ensures Value(d.netWorth.amount) == Value(d.grossAssets.amount) - Value(d.totalDebt.amount)
    ensures Value(d.grossAssets.amount) >= 0.0 && Value(d.totalDebt.amount) >= 0.0
  {
    hide Value, Drilled;
    ProjectedWorth(d.positions);
    TotalsLess(d.positions);
    var ids := IdsOf(d.groups);
    OrderedAreDistinct(ids);
    GroupTotalsAre(d.positions, d.groups, ids);
    GroupsPartition(d.positions, ids);
  }

  // What the figures come to, from the raw positions and the prices

  predicate Payable(u: Underlying, prices: Prices) {
    u.assetId in prices && prices[u.assetId].currency == "USD"
  }

  /** Underlying `k` is the first whose price is missing, or else not in dollars. */
  ghost predicate StopsAt(us: seq<Underlying>, prices: Prices, k: int, error: Error) {
    && 0 <= k < |us| && !Payable(us[k], prices) && (forall j | 0 <= j < k :: Payable(us[j], prices))
    && error == if us[k].assetId in prices then CurrencyMismatchError else UnknownAssetError
  }

  lemma {:induction false} ValuedAllStops(us: seq<Underlying>, prices: Prices)
    ensures ValuedAll(us, prices).Ok? <==> forall u | u in us :: Payable(u, prices)
    ensures ValuedAll(us, prices).Err? ==> exists k :: StopsAt(us, prices, k, ValuedAll(us, prices).error)
  {
    hide ExactMul, Direct;
    if us != [] {
      var n := |us| - 1;
      assert us == us[..n] + [us[n]];
      ValuedAllStops(us[..n], prices);
      if ValuedAll(us[..n], prices).Err? {
        var k :| StopsAt(us[..n], prices, k, ValuedAll(us[..n], prices).error);
        assert StopsAt(us, prices, k, ValuedAll(us, prices).error);
      } else if ValuedAll(us, prices).Err? {
        assert forall j | 0 <= j < n :: us[j] in us[..n];
        assert StopsAt(us, prices, n, ValuedAll(us, prices).error);
      }
    }
  }

  /** A drill values every position when each underlying has a price in dollars, and otherwise
      says what is wrong with the first that has none. */
  lemma {:induction false} ValuedIff(ps: seq<Position>, prices: Prices)
    ensures ValuedPositions(ps, prices).Ok?
      <==> forall p | p in ps :: forall u | u in p.underlyings :: Payable(u, prices)
    ensures ValuedPositions(ps, prices).Err? ==> exists i, k ::
      && 0 <= i < |ps| && StopsAt(ps[i].underlyings, prices, k, ValuedPositions(ps, prices).error)
      && forall h | 0 <= h < i :: forall u | u in ps[h].underlyings :: Payable(u, prices)
  {
    hide ValuedAll, Payable, StopsAt;
    if ps != [] {
      var n := |ps| - 1;
      assert ps == ps[..n] + [ps[n]];
      ValuedIff(ps[..n], prices);
      ValuedAllStops(ps[n].underlyings, prices);
      if ValuedPositions(ps[..n], prices).Err? {
        var i, k :| 0 <= i < n && StopsAt(ps[..n][i].underlyings, prices, k, ValuedPositions(ps[..n], prices).error)
          && forall h | 0 <= h < i :: forall u | u in ps[..n][h].underlyings :: Payable(u, prices);
        assert forall h | 0 <= h < i :: ps[..n][h] == ps[h];
      } else if ValuedPositions(ps, prices).Err? {
        assert forall h | 0 <= h < n :: ps[h] in ps[..n];
        var k :| StopsAt(ps[n].underlyings, prices, k, ValuedPositions(ps, prices).error);
      }
    }
  }

  /** Valuing keeps every position and underlying in its place, and changes only price and value. */
  lemma {:induction false} ValuedKeeps(ps: seq<Position>, prices: Prices, i: nat, k: nat)
    requires ValuedPositions(ps, prices).Ok? && i < |ps| && k < |ps[i].underlyings|
    ensures |ValuedPositions(ps, prices).value| == |ps|
    ensures var p := ValuedPositions(ps, prices).value[i];
      && p.id == ps[i].id && p.groupId == ps[i].groupId && p.groupInfo == ps[i].groupInfo
      && |p.underlyings| == |ps[i].underlyings|
      && p.underlyings[k].assetId == ps[i].underlyings[k].assetId
      && p.underlyings[k].quantity == ps[i].underlyings[k].quantity
      && p.underlyings[k].metaType == ps[i].underlyings[k].metaType
  {
    hide ExactMul, Direct, ValuedAll;
    var n := |ps| - 1;
    ValuedCount(ps[..n], prices);
    if i < n {
      ValuedKeeps(ps[..n], prices, i, k);
    } else {
      assert Valued(ps[n].underlyings[k], prices) == Ok(ValuedAll(ps[n].underlyings, prices).value[k]);
    }
  }

  lemma {:induction false} ValuedCount(ps: seq<Position>, prices: Prices)
    requires ValuedPositions(ps, prices).Ok?
    ensures |ValuedPositions(ps, prices).value| == |ps|
  {
    if ps != [] {
      ValuedCount(ps[..|ps| - 1], prices);
    }
  }

  /** The holdings are projected position by position, and within one in its own order. */
  lemma {:induction false} ProjectedInOrder(ps: seq<Position>, p: Position, k: nat)
    requires forall q | q in ps + [p] :: forall u | u in q.underlyings :: u.price.Some?
    requires k < |p.underlyings|
    ensures |Projected(ps + [p])| == |Projected(ps)| + |p.underlyings|
    ensures Projected(ps + [p])[..|Projected(ps)|] == Projected(ps)
    ensures p in ps + [p] && Projected(ps + [p])[|Projected(ps)| + k] == HoldingOf(p.underlyings[k])
  {
    hide HoldingOf;
    assert (ps + [p])[..|ps|] == ps && (ps + [p])[|ps|] == p;
    HoldingsInOrder(p.underlyings);
  }

  lemma {:induction false} HoldingsInOrder(us: seq<Underlying>)
    requires forall u | u in us :: u.price.Some?
    ensures |HoldingsOf(us)| == |us| && forall k | 0 <= k < |us| :: HoldingsOf(us)[k] == HoldingOf(us[k])
  {
    hide HoldingOf;
    if us != [] {
      HoldingsInOrder(us[..|us| - 1]);
    }
  }

  /** What units of an underlying are worth before anyone asks who owes them. */
  function Amount(u: Underlying, prices: Prices): real
    requires u.assetId in prices
  {
    u.quantity.raw as real / PowInt(10, u.quantity.decimals) as real * Value(prices[u.assetId].amount)
  }

  predicate AllPriced(ps: seq<Position>, prices: Prices) {
    forall p | p in ps :: forall u | u in p.underlyings :: u.assetId in prices
  }

  /** The amounts of the underlyings of one kind: those borrowed, or those that are not. */
  function AmountsOf(us: seq<Underlying>, prices: Prices, borrowed: bool): real
    requires forall u | u in us :: u.assetId in prices
  {
    if us == [] then 0.0
    else
      var u := us[|us| - 1];
      AmountsOf(us[..|us| - 1], prices, borrowed)
        + (if (u.metaType == Borrowed) == borrowed then Amount(u, prices) else 0.0)
  }

  function TotalAmounts(ps: seq<Position>, prices: Prices, borrowed: bool): real
    requires AllPriced(ps, prices)
  {
    if ps == [] then 0.0
    else TotalAmounts(ps[..|ps| - 1], prices, borrowed) + AmountsOf(ps[|ps| - 1].underlyings, prices, borrowed)
  }

  /** A valued underlying is worth its amount, less than nothing when it is borrowed. */
  lemma WorthIs(u: Underlying, prices: Prices)
    requires Valued(u, prices).Ok?
    ensures u.assetId in prices && prices[u.assetId].currency == "USD"
    ensures Valued(u, prices).value.price == Some(prices[u.assetId])
    ensures Worth(Valued(u, prices).value) == if u.metaType == Borrowed then -Amount(u, prices) else Amount(u, prices)
  {
    hide Value, ExactMul, AsDecimal;
    var (q, p) := (AsDecimal(u.quantity.raw, u.quantity.decimals), prices[u.assetId].amount);
    ExactMulIsProduct(q, p);
    UnitsDivided(u.quantity.raw, u.quantity.decimals);
    NegateNegates(ExactMul(q, p));
  }

  lemma NegateNegates(d: Decimal)
    ensures Value(Negate(d)) == -Value(d)
  {
  }

  lemma AmountIsPositive(u: Underlying, prices: Prices)
    requires u.assetId in prices && u.quantity.raw >= 0 && Value(prices[u.assetId].amount) >= 0.0
    ensures Amount(u, prices) >= 0.0
  {
    hide Value;
    Positive(u.quantity.raw as real / PowInt(10, u.quantity.decimals) as real, Value(prices[u.assetId].amount));
  }

  lemma Positive(x: real, y: real)
    requires x >= 0.0 && y >= 0.0
    ensures x * y >= 0.0
  {
  }

  lemma {:induction false} AssetsAreHeld(us: seq<Underlying>, prices: Prices)
    requires ValuedAll(us, prices).Ok?
    requires forall u | u in us :: u.quantity.raw >= 0
    requires forall a | a in prices :: Value(prices[a].amount) >= 0.0
    ensures forall u | u in us :: u.assetId in prices
    ensures Assets(ValuedAll(us, prices).value) == AmountsOf(us, prices, false)
    ensures Debts(ValuedAll(us, prices).value) == AmountsOf(us, prices, true)
  {
    hide Value, Valued, Worth, Amount, Assets, Debts;
    if us == [] {
      NothingHeld();
    } else {
      var (n, last) := (|us| - 1, us[|us| - 1]);
      assert us == us[..n] + [last];
      AssetsAreHeld(us[..n], prices);
      WorthIs(last, prices);
      AmountIsPositive(last, prices);
      OneMoreHeld(ValuedAll(us[..n], prices).value, Valued(last, prices).value);
    }
  }

  lemma NothingHeld()
    ensures Assets([]) == Debts([]) == 0.0
  {
  }

  lemma OneMoreHeld(us: seq<Underlying>, u: Underlying)
    ensures Assets(us + [u]) == Assets(us) + (if Worth(u) < 0.0 then 0.0 else Worth(u))
    ensures Debts(us + [u]) == Debts(us) + (if Worth(u) < 0.0 then -Worth(u) else 0.0)
  {
    hide Worth;
    assert (us + [u])[..|us|] == us;
  }

  lemma {:induction false} TotalsAreHeld(ps: seq<Position>, prices: Prices)
    requires ValuedPositions(ps, prices).Ok?
    requires forall a | a in prices :: Value(prices[a].amount) >= 0.0
    requires forall p | p in ps :: forall u | u in p.underlyings :: u.quantity.raw >= 0
    ensures AllPriced(ps, prices)
    ensures TotalAssets(ValuedPositions(ps, prices).value) == TotalAmounts(ps, prices, false)
    ensures TotalDebts(ValuedPositions(ps, prices).value) == TotalAmounts(ps, prices, true)
  {
    hide Value, Valued, ValuedAll, Assets, Debts;
    if ps != [] {
      var n := |ps| - 1;
      assert ps == ps[..n] + [ps[n]];
      TotalsAreHeld(ps[..n], prices);
      AssetsAreHeld(ps[n].underlyings, prices);
      OneMoreTallied(ValuedPositions(ps[..n], prices).value,
                     ps[n].(underlyings := ValuedAll(ps[n].underlyings, prices).value));
    }
  }

  /** Where no price is below zero and nobody holds or owes a negative quantity, the gross
      assets are what is held and not borrowed, at its price, the debt what is
      borrowed, and the net worth the one less the other. */
  lemma DrillComesTo(raw: seq<Position>, prices: Prices, d: DrillResult)
    requires ValuedPositions(raw, prices) == Ok(d.positions) && IsDrill(d)
    requires forall a | a in prices :: Value(prices[a].amount) >= 0.0
    requires forall p | p in raw :: forall u | u in p.underlyings :: u.quantity.raw >= 0
    ensures AllPriced(raw, prices)
    ensures Value(d.grossAssets.amount) == TotalAmounts(raw, prices, false)
    ensures Value(d.totalDebt.amount) == TotalAmounts(raw, prices, true)
    ensures Value(d.netWorth.amount) == TotalAmounts(raw, prices, false) - TotalAmounts(raw, prices, true)
  {
    hide Value, AllDrilled, IsGrouping;
    TotalsAreHeld(raw, prices);
  }

  /** A projected holding has the underlying's units, below zero exactly when some are
      borrowed, at its price. */
  lemma HoldingComesTo(u: Underlying)
    requires u.price.Some?
    ensures var h := HoldingOf(u);
      && h.assetId == u.assetId && h.institutionPrice == u.price.value && h.institutionValue.currency == "USD"
      && Value(h.quantity) == (if u.metaType == Borrowed then -1.0 else 1.0)
                              * (u.quantity.raw as real / PowInt(10, u.quantity.decimals) as real)
      && Value(h.institutionValue.amount) == Value(h.quantity) * Value(u.price.value.amount)
      && (u.quantity.raw >= 0 ==> (Value(h.quantity) < 0.0 <==> u.metaType == Borrowed && u.quantity.raw > 0))
  {
    hide Value, ExactMul, AsDecimal;
    var q := AsDecimal(u.quantity.raw, u.quantity.decimals);
    UnitsDivided(u.quantity.raw, u.quantity.decimals);
    NegateNegates(q);
    ExactMulIsProduct(HoldingOf(u).quantity, u.price.value.amount);
  }
}
