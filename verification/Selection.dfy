/** The four costing methods: consumption-order plans over one asset's lots
    (accounting/fifo.py, lifo.py, hifo.py, acb.py). */
module Selection {
  import opened Common
  import opened Lots

  // ----------------------------------------------------------- ordering

  /** A sort key compared as a tuple. */
  datatype Rank = Rank(group: int, cost: real, at: int)

  predicate Below(a: Rank, b: Rank) {
    a.group < b.group ||
    (a.group == b.group && (a.cost < b.cost || (a.cost == b.cost && a.at < b.at)))
  }

  type Key = Lot -> Rank

  function Age(l: Lot): Rank {
    Rank(0, 0.0, l.openedAtMs)
  }

  /** `hifo.unit_cost`: the basis per original base unit. */
  function UnitCost(l: Lot): Option<real> {
    if l.costTotal.None? then None
    else Some(l.costTotal.value.amount / l.original.raw as real)
  }

  /** `hifo._rank`: unpriced last, then dearest first, then oldest first. */
  function Dearness(l: Lot): Rank {
    match UnitCost(l)
    case None => Rank(1, 0.0, l.openedAtMs)
    case Some(cost) => Rank(0, -cost, l.openedAtMs)
  }

  ghost predicate InRange(lots: seq<Lot>, order: seq<nat>) {
    forall k | 0 <= k < |order| :: order[k] < |lots|
  }

  function Insert(lots: seq<Lot>, key: Key, order: seq<nat>, i: nat): (r: seq<nat>)
    requires InRange(lots, order) && i < |lots|
    ensures InRange(lots, r)
    ensures |r| == |order| + 1
  {
    if order == [] then [i]
    else if Below(key(lots[i]), key(lots[order[0]])) then [i] + order
    else [order[0]] + Insert(lots, key, order[1..], i)
  }

  /** The positions `idx` stably sorted by `key`. */
  function Sort(lots: seq<Lot>, key: Key, idx: seq<nat>): (r: seq<nat>)
    requires InRange(lots, idx)
    ensures InRange(lots, r)
    ensures |r| == |idx|
  {
    if |idx| == 0 then []
    else Insert(lots, key, Sort(lots, key, idx[..|idx| - 1]), idx[|idx| - 1])
  }

  function Positions(n: nat): (idx: seq<nat>)
    ensures |idx| == n
    ensures forall k | 0 <= k < n :: idx[k] == k
  {
    if n == 0 then [] else Positions(n - 1) + [n - 1]
  }

  function LivePositions(lots: seq<Lot>, idx: seq<nat>): (r: seq<nat>)
    requires InRange(lots, idx)
    ensures InRange(lots, r)
  {
    if idx == [] then []
    else if Live(lots[idx[0]]) then [idx[0]] + LivePositions(lots, idx[1..])
    else LivePositions(lots, idx[1..])
  }

  /** `plan` followed by the rest of the walk, unless the rest raises. */
  function After(plan: seq<Pick>, rest: Result<seq<Pick>>): Result<seq<Pick>> {
    match rest
    case Err(e) => Err(e)
    case Ok(picks) => Ok(plan + picks)
  }

  lemma AfterUnit(plan: seq<Pick>, rest: Result<seq<Pick>>)
    ensures After([], rest) == rest && After(plan, Ok([])) == Ok(plan)
  {
    assert plan + [] == plan;
    if rest.Ok? {
      assert [] + rest.value == rest.value;
    }
  }

  lemma AfterAppend(plan: seq<Pick>, pick: Pick, rest: Result<seq<Pick>>)
    ensures After(plan + [pick], rest) == After(plan, After([pick], rest))
  {
    if rest.Ok? {
      assert plan + [pick] + rest.value == plan + ([pick] + rest.value);
    }
  }

  /** `_walk`: take what is still needed down the order, skipping spent lots. */
  function Walk(lots: seq<Lot>, order: seq<nat>, unmet: Quantity): Result<seq<Pick>>
    requires InRange(lots, order)
    decreases |order|
  {
    if order == [] then Ok([])
    else
      var available := lots[order[0]].remaining;
      if available.raw <= 0 then Walk(lots, order[1..], unmet)
      else if available.decimals != unmet.decimals then Err(DecimalsMismatchError)
      else
        var take := if available.raw < unmet.raw then available else unmet;
        var pick := Pick(Held(order[0]), take);
        if unmet.raw - take.raw == 0 then Ok([pick])
        else
          After([pick], Walk(lots, order[1..], Quantity(unmet.raw - take.raw, unmet.decimals)))
  }

  function OldestFirst(lots: seq<Lot>): seq<nat>
    ensures InRange(lots, OldestFirst(lots))
  {
    Sort(lots, Age, Positions(|lots|))
  }

  function DearestFirst(lots: seq<Lot>): seq<nat>
    ensures InRange(lots, DearestFirst(lots))
  {
    Sort(lots, Dearness, LivePositions(lots, Positions(|lots|)))
  }

  datatype Method = Fifo | Lifo | Hifo | Acb

  /** The consumption order of each method. */
  function OrderOf(how: Method, lots: seq<Lot>): (order: seq<nat>)
    ensures InRange(lots, order)
  {
    match how
    case Fifo => OldestFirst(lots)
    case Lifo => Reversed(OldestFirst(lots))
    case Hifo => DearestFirst(lots)
    case Acb => OldestFirst(lots)
  }

  /** `METHODS[method]`. */
  function Select(how: Method): Selector {
    (lots: seq<Lot>, needed: Quantity) =>
      if needed.raw <= 0 then Ok([]) else Walk(lots, OrderOf(how, lots), needed)
  }

  /** The loop of `_walk`. */
  method WalkLoop(lots: seq<Lot>, order: seq<nat>, needed: Quantity) returns (r: Result<seq<Pick>>)
    requires InRange(lots, order)
    ensures r == Walk(lots, order, needed)
  {
    var unmet := needed;
    var plan := [];
    var k := 0;
    assert order[0..] == order;
    AfterUnit(plan, Walk(lots, order, unmet));
    while k < |order|
      invariant 0 <= k <= |order|
      invariant Walk(lots, order, needed) == After(plan, Walk(lots, order[k..], unmet))
    {
      assert order[k..][1..] == order[k + 1..];
      var available := lots[order[k]].remaining;
      if available.raw <= 0 {
        k := k + 1;
        continue;
      }
      if available.decimals != unmet.decimals {
        return Err(DecimalsMismatchError);
      }
      var take := if available.raw < unmet.raw then available else unmet;
      var pick := Pick(Held(order[k]), take);
      AfterAppend(plan, pick, Walk(lots, order[k + 1..], Quantity(unmet.raw - take.raw, unmet.decimals)));
      plan := plan + [pick];
      unmet := Quantity(unmet.raw - take.raw, unmet.decimals);
      if unmet.raw == 0 {
        AfterUnit(plan, Ok([]));
        return Ok(plan);
      }
      k := k + 1;
    }
    AfterUnit(plan, Ok([]));
    return Ok(plan);
  }
}
