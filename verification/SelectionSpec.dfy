/** What every costing method's plan is, independently of how it is computed. */
module SelectionSpec {
  import opened Common
  import opened Lots
  import opened Selection
  import Refinement

  // --------------------------------------------------------------- units

  function Counted(l: Lot, w: Lot -> bool): (units: nat) {
    if Live(l) && w(l) then l.remaining.raw else 0
  }

  /** Units remaining in the live lots that satisfy `w`. */
  function UnitsWhere(lots: seq<Lot>, w: Lot -> bool): nat {
    if |lots| == 0 then 0
    else UnitsWhere(lots[..|lots| - 1], w) + Counted(lots[|lots| - 1], w)
  }

  predicate Any(l: Lot) {
    true
  }

  function UnitsHeld(lots: seq<Lot>): nat {
    UnitsWhere(lots, Any)
  }

  /** The same, along a list of positions. */
  function UnitsAt(lots: seq<Lot>, order: seq<nat>, w: Lot -> bool): nat
    requires InRange(lots, order)
  {
    if order == [] then 0 else Counted(lots[order[0]], w) + UnitsAt(lots, order[1..], w)
  }

  /** Units a plan takes from lots that satisfy `w`. */
  function TakenWhere(lots: seq<Lot>, plan: seq<Pick>, w: Lot -> bool): int {
    if plan == [] then 0
    else
      (match Deref(lots, plan[0].lot)
       case None => 0
       case Some(l) => if w(l) then plan[0].take.raw else 0) + TakenWhere(lots, plan[1..], w)
  }

  lemma {:induction false} UnitsAtConcat(lots: seq<Lot>, a: seq<nat>, b: seq<nat>, w: Lot -> bool)
    requires InRange(lots, a) && InRange(lots, b)
    ensures UnitsAt(lots, a + b, w) == UnitsAt(lots, a, w) + UnitsAt(lots, b, w)
  {
    if a == [] {
      assert a + b == b;
    } else {
      assert (a + b)[1..] == a[1..] + b;
      UnitsAtConcat(lots, a[1..], b, w);
    }
  }

  lemma {:induction false} InsertKeepsUnits(lots: seq<Lot>, key: Key, order: seq<nat>, i: nat, w: Lot -> bool)
    requires InRange(lots, order) && i < |lots|
    ensures UnitsAt(lots, Insert(lots, key, order, i), w) == UnitsAt(lots, order, w) + Counted(lots[i], w)
  {
    if order != [] && !Below(key(lots[i]), key(lots[order[0]])) {
      InsertKeepsUnits(lots, key, order[1..], i, w);
    }
  }

  lemma {:induction false} SortKeepsUnits(lots: seq<Lot>, key: Key, idx: seq<nat>, w: Lot -> bool)
    requires InRange(lots, idx)
    ensures UnitsAt(lots, Sort(lots, key, idx), w) == UnitsAt(lots, idx, w)
  {
    if |idx| > 0 {
      var init, last := idx[..|idx| - 1], idx[|idx| - 1];
      SortKeepsUnits(lots, key, init, w);
      InsertKeepsUnits(lots, key, Sort(lots, key, init), last, w);
      UnitsAtConcat(lots, init, [last], w);
      assert idx == init + [last];
    }
  }

  lemma {:induction false} PositionsCoverUnits(lots: seq<Lot>, n: nat, w: Lot -> bool)
    requires n <= |lots|
    ensures UnitsAt(lots, Positions(n), w) == UnitsWhere(lots[..n], w)
  {
    if n > 0 {
      PositionsCoverUnits(lots, n - 1, w);
      UnitsAtConcat(lots, Positions(n - 1), [n - 1], w);
      assert lots[..n][..n - 1] == lots[..n - 1];
    }
  }

  lemma {:induction false} LivePositionsKeepUnits(lots: seq<Lot>, idx: seq<nat>, w: Lot -> bool)
    requires InRange(lots, idx)
    ensures UnitsAt(lots, LivePositions(lots, idx), w) == UnitsAt(lots, idx, w)
  {
    if idx != [] {
      LivePositionsKeepUnits(lots, idx[1..], w);
    }
  }

  lemma {:induction false} ReverseKeepsUnits(lots: seq<Lot>, order: seq<nat>, w: Lot -> bool)
    requires InRange(lots, order)
    ensures UnitsAt(lots, Reversed(order), w) == UnitsAt(lots, order, w)
  {
    if order != [] {
      ReverseKeepsUnits(lots, order[1..], w);
      UnitsAtConcat(lots, Reversed(order[1..]), [order[0]], w);
    }
  }

  /** Every method's order passes over exactly the units held. */
  lemma OrderCoversUnits(how: Method, lots: seq<Lot>, w: Lot -> bool)
    ensures UnitsAt(lots, OrderOf(how, lots), w) == UnitsWhere(lots, w)
  {
    var all := Positions(|lots|);
    PositionsCoverUnits(lots, |lots|, w);
    assert lots[..|lots|] == lots;
    if how.Hifo? {
      LivePositionsKeepUnits(lots, all, w);
      SortKeepsUnits(lots, Dearness, LivePositions(lots, all), w);
    } else {
      SortKeepsUnits(lots, Age, all, w);
      ReverseKeepsUnits(lots, OldestFirst(lots), w);
    }
  }

  // --------------------------------------------------------------- order

  /** The strict order a stable sort by `key` puts positions in. */
  predicate Comes(lots: seq<Lot>, key: Key, i: nat, j: nat)
    requires i < |lots| && j < |lots|
  {
    Below(key(lots[i]), key(lots[j])) || (key(lots[i]) == key(lots[j]) && i < j)
  }

  ghost predicate SortedBy(lots: seq<Lot>, key: Key, order: seq<nat>)
    requires InRange(lots, order)
  {
    forall a, b | 0 <= a < b < |order| :: Comes(lots, key, order[a], order[b])
  }

  ghost predicate Ascending(idx: seq<nat>) {
    forall a, b | 0 <= a < b < |idx| :: idx[a] < idx[b]
  }

  lemma {:induction false} InsertSorts(lots: seq<Lot>, key: Key, order: seq<nat>, i: nat)
    requires InRange(lots, order) && i < |lots|
    requires SortedBy(lots, key, order) && forall k | 0 <= k < |order| :: order[k] < i
    ensures SortedBy(lots, key, Insert(lots, key, order, i))
    ensures forall x :: x in Insert(lots, key, order, i) <==> x in order || x == i
  {
    if order != [] && !Below(key(lots[i]), key(lots[order[0]])) {
      InsertSorts(lots, key, order[1..], i);
      var rest := Insert(lots, key, order[1..], i);
      forall b | 0 <= b < |rest|
        ensures Comes(lots, key, order[0], rest[b])
      {
        assert rest[b] in rest;
      }
    }
  }

  lemma {:induction false} SortSorts(lots: seq<Lot>, key: Key, idx: seq<nat>)
    requires InRange(lots, idx) && Ascending(idx)
    ensures SortedBy(lots, key, Sort(lots, key, idx))
    ensures forall x :: x in Sort(lots, key, idx) <==> x in idx
  {
    if |idx| > 0 {
      var init, last := idx[..|idx| - 1], idx[|idx| - 1];
      SortSorts(lots, key, init);
      var order := Sort(lots, key, init);
      forall k | 0 <= k < |order|
        ensures order[k] < last
      {
        assert order[k] in init;
      }
      InsertSorts(lots, key, order, last);
      assert idx == init + [last];
    }
  }

  lemma {:induction false} LivePositionsAre(lots: seq<Lot>, idx: seq<nat>)
    requires InRange(lots, idx)
    ensures forall x :: x in LivePositions(lots, idx) <==> x in idx && Live(lots[x])
    ensures Ascending(idx) ==> Ascending(LivePositions(lots, idx))
  {
    if idx != [] {
      LivePositionsAre(lots, idx[1..]);
      var rest := LivePositions(lots, idx[1..]);
      forall k | 0 <= k < |rest|
        ensures rest[k] in idx[1..]
      {
        assert rest[k] in rest;
      }
    }
  }

  predicate Older(lots: seq<Lot>, i: nat, j: nat)
    requires i < |lots| && j < |lots|
  {
    lots[i].openedAtMs < lots[j].openedAtMs || (lots[i].openedAtMs == lots[j].openedAtMs && i < j)
  }

  /** Priced before unpriced, then the dearer per original unit, then the older. */
  predicate Dearer(lots: seq<Lot>, i: nat, j: nat)
    requires i < |lots| && j < |lots|
  {
    var (a, b) := (lots[i], lots[j]);
    if a.costTotal.None? || b.costTotal.None? then
      a.costTotal.Some? || (b.costTotal.None? && Older(lots, i, j))
    else
      var (x, y) := (a.costTotal.value.amount / a.original.raw as real,
                     b.costTotal.value.amount / b.original.raw as real);
      x > y || (x == y && Older(lots, i, j))
  }

  /** `i` is consumed before `j`: FIFO and ACB oldest first and earlier position
      on a tie, LIFO the exact reverse, HIFO the dearest. */
  predicate Precedes(how: Method, lots: seq<Lot>, i: nat, j: nat)
    requires i < |lots| && j < |lots|
  {
    match how
    case Fifo => Older(lots, i, j)
    case Lifo => Older(lots, j, i)
    case Hifo => Dearer(lots, i, j)
    case Acb => Older(lots, i, j)
  }

  /** The sort keys rank lots so. */
  lemma KeysRank(lots: seq<Lot>, i: nat, j: nat)
    requires i < |lots| && j < |lots|
    ensures Comes(lots, Age, i, j) <==> Older(lots, i, j)
    ensures Comes(lots, Dearness, i, j) <==> Dearer(lots, i, j)
  {
  }

  lemma OrderIsSorted(how: Method, lots: seq<Lot>)
    ensures var order := OrderOf(how, lots);
      forall a, b | 0 <= a < b < |order| :: Precedes(how, lots, order[a], order[b])
  {
    hide Sort, LivePositions, Comes, Positions;
    var all := Positions(|lots|);
    AllAscend(|lots|);
    if how.Hifo? {
      LivePositionsAre(lots, all);
      SortSorts(lots, Dearness, LivePositions(lots, all));
    } else {
      SortSorts(lots, Age, all);
    }
    var order := OrderOf(how, lots);
    forall a, b | 0 <= a < b < |order|
      ensures Precedes(how, lots, order[a], order[b])
    {
      KeysRank(lots, order[a], order[b]);
      KeysRank(lots, order[b], order[a]);
    }
  }

  lemma AllAscend(n: nat)
    ensures Ascending(Positions(n))
  {
  }

  lemma {:induction false} ReverseHasSame(s: seq<nat>)
    ensures forall x :: x in Reversed(s) <==> x in s
  {
    if s != [] {
      ReverseHasSame(s[1..]);
    }
  }

  lemma OrderHasLive(how: Method, lots: seq<Lot>)
    ensures forall i: nat | i < |lots| && Live(lots[i]) :: i in OrderOf(how, lots)
  {
    var all := Positions(|lots|);
    forall i: nat | i < |lots|
      ensures i in all
    {
      assert all[i] == i;
    }
    if how.Hifo? {
      LivePositionsAre(lots, all);
      SortSorts(lots, Dearness, LivePositions(lots, all));
    } else {
      SortSorts(lots, Age, all);
      ReverseHasSame(OldestFirst(lots));
    }
  }

  // ---------------------------------------------------------------- walk

  /** Every live lot carries the scale of the need. */
  ghost predicate AtScale(lots: seq<Lot>, decimals: nat) {
    forall k | 0 <= k < |lots| && Live(lots[k]) :: lots[k].remaining.decimals == decimals
  }

  /** The plan that takes everything in the listed lots. */
  function WholeLots(lots: seq<Lot>, live: seq<nat>): seq<Pick>
    requires InRange(lots, live)
  {
    if live == [] then []
    else [Pick(Held(live[0]), lots[live[0]].remaining)] + WholeLots(lots, live[1..])
  }

  lemma {:induction false} NoLiveUnits(lots: seq<Lot>, order: seq<nat>)
    requires InRange(lots, order) && UnitsAt(lots, order, Any) == 0
    ensures LivePositions(lots, order) == []
  {
    if order != [] {
      NoLiveUnits(lots, order[1..]);
    }
  }

  /** `picks` takes, from a first run of `live`, everything but possibly part of
      the last lot. */
  ghost predicate TakesRun(lots: seq<Lot>, live: seq<nat>, plan: seq<Pick>, decimals: nat)
    requires InRange(lots, live)
  {
    && |plan| <= |live|
    && (forall k | 0 <= k < |plan| ::
          && plan[k].lot == Held(live[k])
          && plan[k].take.decimals == decimals
          && 0 < plan[k].take.raw <= lots[live[k]].remaining.raw)
    && (forall k | 0 <= k < |plan| - 1 :: plan[k].take.raw == lots[live[k]].remaining.raw)
  }

  lemma {:induction false} WalkTakesRun(lots: seq<Lot>, order: seq<nat>, unmet: Quantity)
    requires InRange(lots, order) && AtScale(lots, unmet.decimals) && unmet.raw > 0
    ensures Walk(lots, order, unmet).Ok?
    ensures TakesRun(lots, LivePositions(lots, order), Walk(lots, order, unmet).value, unmet.decimals)
    decreases |order|
  {
    if order != [] {
      var available := lots[order[0]].remaining;
      if available.raw <= 0 {
        WalkTakesRun(lots, order[1..], unmet);
      } else if available.raw < unmet.raw {
        WalkTakesRun(lots, order[1..], Quantity(unmet.raw - available.raw, unmet.decimals));
      }
    }
  }

  /** A need that covers everything empties every live lot. */
  lemma {:induction false} WalkEmptiesAll(lots: seq<Lot>, order: seq<nat>, unmet: Quantity)
    requires InRange(lots, order) && AtScale(lots, unmet.decimals) && unmet.raw > 0
    requires unmet.raw >= UnitsAt(lots, order, Any)
    ensures Walk(lots, order, unmet) == Ok(WholeLots(lots, LivePositions(lots, order)))
    decreases |order|
  {
    if order != [] {
      var available := lots[order[0]].remaining;
      if available.raw <= 0 {
        WalkEmptiesAll(lots, order[1..], unmet);
      } else if available.raw < unmet.raw {
        WalkEmptiesAll(lots, order[1..], Quantity(unmet.raw - available.raw, unmet.decimals));
      } else {
        NoLiveUnits(lots, order[1..]);
        assert available == unmet;
        assert WholeLots(lots, LivePositions(lots, order)) == [Pick(Held(order[0]), available)];
      }
    }
  }

  /** A set of lots that the order drains before any other. */
  ghost predicate DrainedFirst(lots: seq<Lot>, order: seq<nat>, w: Lot -> bool)
    requires InRange(lots, order)
  {
    forall a, b | 0 <= a < b < |order| && w(lots[order[b]]) :: w(lots[order[a]])
  }

  lemma {:induction false} NoneCounted(lots: seq<Lot>, order: seq<nat>, w: Lot -> bool)
    requires InRange(lots, order) && forall k | 0 <= k < |order| :: !w(lots[order[k]])
    ensures UnitsAt(lots, order, w) == 0
  {
    if order != [] {
      NoneCounted(lots, order[1..], w);
    }
  }

  /** The walk takes as many units from such a set as it can. */
  lemma {:induction false} WalkTakesFirst(lots: seq<Lot>, order: seq<nat>, unmet: Quantity, w: Lot -> bool)
    requires InRange(lots, order) && AtScale(lots, unmet.decimals) && unmet.raw > 0
    requires DrainedFirst(lots, order, w)
    requires Walk(lots, order, unmet).Ok?
    ensures TakenWhere(lots, Walk(lots, order, unmet).value, w) == Min(unmet.raw, UnitsAt(lots, order, w))
    decreases |order|
  {
    if order != [] {
      var available := lots[order[0]].remaining;
      var tail := order[1..];
      assert forall a, b | 0 <= a < b < |tail| :: tail[a] == order[a + 1] && tail[b] == order[b + 1];
      if !w(lots[order[0]]) {
        NoneCounted(lots, tail, w);
      }
      if available.raw <= 0 {
        WalkTakesFirst(lots, tail, unmet, w);
      } else if available.raw < unmet.raw {
        var rest := Quantity(unmet.raw - available.raw, unmet.decimals);
        WalkTakesFirst(lots, tail, rest, w);
        assert Walk(lots, order, unmet).value[1..] == Walk(lots, tail, rest).value;
      } else {
        assert [Pick(Held(order[0]), unmet)][1..] == [];
      }
    }
  }

  // ---------------------------------------------------------------- spec

  /** Every live lot that comes before one the plan takes from is taken from before it. */
  ghost predicate SkipsNone(how: Method, lots: seq<Lot>, plan: seq<Pick>)
    requires Refinement.PlansHeld(lots, plan)
  {
    forall i: nat, k: nat | i < |lots| && Live(lots[i]) && k < |plan| && Precedes(how, lots, i, plan[k].lot.at) ::
      exists j | 0 <= j < k :: plan[j].lot.at == i
  }

  /** The one contract all four methods meet. */
  ghost predicate MeetsSpec(how: Method, lots: seq<Lot>, needed: Quantity, plan: seq<Pick>) {
    && Refinement.PlansHeld(lots, plan)
    && (forall k | 0 <= k < |plan| ::
          && plan[k].take.decimals == needed.decimals
          && 0 < plan[k].take.raw <= lots[plan[k].lot.at].remaining.raw)
    // in the stated stable order, so no lot twice
    && (forall a, b | 0 <= a < b < |plan| :: Precedes(how, lots, plan[a].lot.at, plan[b].lot.at))
    && SkipsNone(how, lots, plan)
    // only the last take may be partial
    && (forall k | 0 <= k < |plan| - 1 :: plan[k].take.raw == lots[plan[k].lot.at].remaining.raw)
    // and the total is all there is, up to the need
    && TakenWhere(lots, plan, Any) == Min(if needed.raw > 0 then needed.raw else 0, UnitsHeld(lots))
  }

  lemma {:induction false} LiveRunSorted(how: Method, lots: seq<Lot>, order: seq<nat>)
    requires InRange(lots, order)
    requires forall a, b | 0 <= a < b < |order| :: Precedes(how, lots, order[a], order[b])
    ensures forall a, b | 0 <= a < b < |LivePositions(lots, order)| ::
      Precedes(how, lots, LivePositions(lots, order)[a], LivePositions(lots, order)[b])
  {
    if order != [] {
      var tail := order[1..];
      assert forall a | 0 <= a < |tail| :: tail[a] == order[a + 1];
      LiveRunSorted(how, lots, tail);
      LivePositionsAre(lots, tail);
      var rest := LivePositions(lots, tail);
      forall k | 0 <= k < |rest|
        ensures Precedes(how, lots, order[0], rest[k])
      {
        assert rest[k] in tail;
      }
    }
  }

  lemma PrecedesIsStrict(how: Method, lots: seq<Lot>, i: nat, j: nat)
    requires i < |lots| && j < |lots| && Precedes(how, lots, i, j)
    ensures !Precedes(how, lots, j, i) && i != j
  {
  }

  ghost predicate Sequenced(how: Method, lots: seq<Lot>, live: seq<nat>)
    requires InRange(lots, live)
  {
    && (forall a, b | 0 <= a < b < |live| :: Precedes(how, lots, live[a], live[b]))
    && (forall i: nat | i < |lots| && Live(lots[i]) :: i in live)
  }

  lemma PlanTakesItsShare(how: Method, lots: seq<Lot>, needed: Quantity)
    requires AtScale(lots, needed.decimals) && needed.raw > 0
    ensures var walked := Walk(lots, OrderOf(how, lots), needed);
      walked.Ok? && TakenWhere(lots, walked.value, Any) == Min(needed.raw, UnitsHeld(lots))
  {
    var order := OrderOf(how, lots);
    WalkTakesRun(lots, order, needed);
    WalkTakesFirst(lots, order, needed, Any);
    OrderCoversUnits(how, lots, Any);
  }

  lemma OrderIsSequenced(how: Method, lots: seq<Lot>)
    ensures Sequenced(how, lots, LivePositions(lots, OrderOf(how, lots)))
  {
    hide LivePositions, OrderOf, Precedes;
    var order := OrderOf(how, lots);
    OrderIsSorted(how, lots);
    LiveRunSorted(how, lots, order);
    OrderHasLive(how, lots);
    LivePositionsAre(lots, order);
  }

  /** A sorted run of positions holds, before each of its members, every member
      that precedes it. */
  lemma NoneSkipped(how: Method, lots: seq<Lot>, live: seq<nat>, i: nat, k: nat) returns (j: nat)
    requires InRange(lots, live) && Sequenced(how, lots, live) && i < |lots| && Live(lots[i]) && k < |live|
    requires Precedes(how, lots, i, live[k])
    ensures j < k && live[j] == i
  {
    j :| 0 <= j < |live| && live[j] == i;
    PrecedesIsStrict(how, lots, i, live[k]);
    assert j < k;
  }

  lemma RunIsOrdered(how: Method, lots: seq<Lot>, live: seq<nat>, plan: seq<Pick>, decimals: nat)
    requires InRange(lots, live) && Sequenced(how, lots, live) && TakesRun(lots, live, plan, decimals)
    ensures Refinement.PlansHeld(lots, plan)
    ensures forall a, b | 0 <= a < b < |plan| :: Precedes(how, lots, plan[a].lot.at, plan[b].lot.at)
  {
    hide Precedes;
  }

  lemma RunSkipsNone(how: Method, lots: seq<Lot>, live: seq<nat>, plan: seq<Pick>)
    requires InRange(lots, live) && Sequenced(how, lots, live) && |plan| <= |live|
    requires forall k | 0 <= k < |plan| :: plan[k].lot == Held(live[k])
    ensures SkipsNone(how, lots, plan)
  {
    hide Precedes, Sequenced;
    forall i: nat, k: nat | i < |lots| && Live(lots[i]) && k < |plan| && Precedes(how, lots, i, plan[k].lot.at)
      ensures exists j | 0 <= j < k :: plan[j].lot.at == i
    {
      var j := NoneSkipped(how, lots, live, i, k);
      assert plan[j].lot.at == i;
    }
  }

  /** A run along such a sequence is what the specification asks for. */
  lemma RunMeetsSpec(how: Method, lots: seq<Lot>, live: seq<nat>, needed: Quantity, plan: seq<Pick>)
    requires InRange(lots, live) && Sequenced(how, lots, live) && TakesRun(lots, live, plan, needed.decimals)
    requires TakenWhere(lots, plan, Any) == Min(if needed.raw > 0 then needed.raw else 0, UnitsHeld(lots))
    ensures MeetsSpec(how, lots, needed, plan)
  {
    hide Precedes, TakenWhere, UnitsHeld, Sequenced, SkipsNone;
    RunIsOrdered(how, lots, live, plan, needed.decimals);
    RunSkipsNone(how, lots, live, plan);
  }

  lemma SelectIs(how: Method, lots: seq<Lot>, needed: Quantity)
    ensures Select(how)(lots, needed) == if needed.raw <= 0 then Ok([]) else Walk(lots, OrderOf(how, lots), needed)
  {
    hide Walk, OrderOf;
  }

  lemma NoNeedMeetsSpec(how: Method, lots: seq<Lot>, needed: Quantity)
    requires needed.raw <= 0
    ensures MeetsSpec(how, lots, needed, [])
  {
    hide Precedes, UnitsHeld;
  }

  /** FIFO, LIFO, HIFO and ACB all meet the contract on lots of the need's
      scale, whatever is drained, tied or short. */
  lemma MethodsMeetSpec(how: Method, lots: seq<Lot>, needed: Quantity)
    requires AtScale(lots, needed.decimals)
    ensures Select(how)(lots, needed).Ok?
    ensures MeetsSpec(how, lots, needed, Select(how)(lots, needed).value)
  {
    hide Select, AtScale, OrderOf, LivePositions, Walk, TakesRun, Sequenced, MeetsSpec, TakenWhere, UnitsHeld;
    SelectIs(how, lots, needed);
    if needed.raw <= 0 {
      NoNeedMeetsSpec(how, lots, needed);
    } else {
      var order := OrderOf(how, lots);
      WalkTakesRun(lots, order, needed);
      PlanTakesItsShare(how, lots, needed);
      OrderIsSequenced(how, lots);
      RunMeetsSpec(how, lots, LivePositions(lots, order), needed, Walk(lots, order, needed).value);
    }
  }

  /** Of two lots a plan takes from, the one it takes from first. */
  lemma TakesInOrder(how: Method, lots: seq<Lot>, needed: Quantity, k: nat, m: nat)
    requires AtScale(lots, needed.decimals) && Select(how)(lots, needed).Ok?
    requires k < m < |Select(how)(lots, needed).value|
    ensures var (first, later) := (Select(how)(lots, needed).value[k].lot, Select(how)(lots, needed).value[m].lot);
      && first.Held? && later.Held? && first.at < |lots| && later.at < |lots|
      && var (i, j, a, b) := (first.at, later.at, lots[first.at], lots[later.at]);
      match how
      case Fifo => a.openedAtMs <= b.openedAtMs && (a.openedAtMs == b.openedAtMs ==> i < j)
      case Acb => a.openedAtMs <= b.openedAtMs && (a.openedAtMs == b.openedAtMs ==> i < j)
      case Lifo => a.openedAtMs >= b.openedAtMs && (a.openedAtMs == b.openedAtMs ==> i > j)
      case Hifo =>
        && (b.costTotal.Some? ==> a.costTotal.Some?)
        && (a.costTotal.Some? && b.costTotal.Some? ==>
              && a.costTotal.value.amount / a.original.raw as real >= b.costTotal.value.amount / b.original.raw as real)
        && ((a.costTotal.None? && b.costTotal.None?)
            || (a.costTotal.Some? && b.costTotal.Some?
                && a.costTotal.value.amount / a.original.raw as real
                   == b.costTotal.value.amount / b.original.raw as real)
            ==> a.openedAtMs <= b.openedAtMs && (a.openedAtMs == b.openedAtMs ==> i < j))
  {
    hide Select, AtScale, TakenWhere, UnitsHeld, SkipsNone;
    MethodsMeetSpec(how, lots, needed);
    var plan := Select(how)(lots, needed).value;
    assert Precedes(how, lots, plan[k].lot.at, plan[m].lot.at);
  }

  /** And what it has taken whole before it takes from a lot: every live lot older than
      that one under FIFO and ACB, every one opened later under LIFO, every dearer one
      under HIFO. */
  lemma TakesAllBefore(how: Method, lots: seq<Lot>, needed: Quantity, i: nat, m: nat)
    requires AtScale(lots, needed.decimals) && Select(how)(lots, needed).Ok?
    requires m < |Select(how)(lots, needed).value| && i < |lots| && lots[i].remaining.raw > 0
    requires var taken := Select(how)(lots, needed).value[m].lot;
      taken.Held? && taken.at < |lots| &&
      var (a, b) := (lots[i], lots[taken.at]);
      match how
      case Fifo => a.openedAtMs < b.openedAtMs
      case Acb => a.openedAtMs < b.openedAtMs
      case Lifo => a.openedAtMs > b.openedAtMs
      case Hifo =>
        a.costTotal.Some? && (b.costTotal.Some? ==>
          a.costTotal.value.amount / a.original.raw as real > b.costTotal.value.amount / b.original.raw as real)
    ensures exists k :: 0 <= k < m && Select(how)(lots, needed).value[k] == Pick(Held(i), lots[i].remaining)
  {
    hide Select, AtScale, TakenWhere, UnitsHeld;
    MethodsMeetSpec(how, lots, needed);
    var plan := Select(how)(lots, needed).value;
    assert Live(lots[i]) && Precedes(how, lots, i, plan[m].lot.at);
    var k :| 0 <= k < m && plan[k].lot.at == i;
    assert plan[k].take.decimals == needed.decimals == lots[i].remaining.decimals by {
      ScaleOfLive(lots, needed.decimals, i);
    }
    assert plan[k].take.raw == lots[i].remaining.raw;
  }

  lemma ScaleOfLive(lots: seq<Lot>, decimals: nat, i: nat)
    requires AtScale(lots, decimals) && i < |lots| && Live(lots[i])
    ensures lots[i].remaining.decimals == decimals
  {
  }

  // ------------------------------------------------- consequences of the spec

  lemma {:induction false} WholeLotsReversed(lots: seq<Lot>, a: seq<nat>, b: seq<nat>)
    requires InRange(lots, a) && InRange(lots, b)
    ensures WholeLots(lots, a + b) == WholeLots(lots, a) + WholeLots(lots, b)
  {
    if a == [] {
      assert a + b == b;
    } else {
      assert (a + b)[1..] == a[1..] + b;
      WholeLotsReversed(lots, a[1..], b);
    }
  }

  lemma {:induction false} LiveConcat(lots: seq<Lot>, a: seq<nat>, b: seq<nat>)
    requires InRange(lots, a) && InRange(lots, b)
    ensures LivePositions(lots, a + b) == LivePositions(lots, a) + LivePositions(lots, b)
  {
    if a == [] {
      assert a + b == b;
    } else {
      assert (a + b)[1..] == a[1..] + b;
      LiveConcat(lots, a[1..], b);
    }
  }

  lemma LiveStep(lots: seq<Lot>, order: seq<nat>)
    requires InRange(lots, order) && order != []
    ensures LivePositions(lots, order)
         == (if Live(lots[order[0]]) then [order[0]] else []) + LivePositions(lots, order[1..])
    ensures LivePositions(lots, [order[0]]) == if Live(lots[order[0]]) then [order[0]] else []
  {
  }

  lemma {:induction false} WholeLotsOfReverse(lots: seq<Lot>, order: seq<nat>)
    requires InRange(lots, order)
    ensures WholeLots(lots, LivePositions(lots, Reversed(order)))
         == Reversed(WholeLots(lots, LivePositions(lots, order)))
  {
    if order != [] {
      hide LivePositions;
      var tail := order[1..];
      WholeLotsOfReverse(lots, tail);
      LiveConcat(lots, Reversed(tail), [order[0]]);
      LiveStep(lots, order);
      if Live(lots[order[0]]) {
        WholeLotsReversed(lots, LivePositions(lots, Reversed(tail)), [order[0]]);
      } else {
        assert LivePositions(lots, Reversed(tail)) + [] == LivePositions(lots, Reversed(tail));
      }
    }
  }

  /** Over a full drain the LIFO plan is the FIFO plan reversed. */
  lemma FullDrainReversesFifo(lots: seq<Lot>, needed: Quantity)
    requires AtScale(lots, needed.decimals) && needed.raw >= UnitsHeld(lots)
    ensures Select(Fifo)(lots, needed).Ok? && Select(Lifo)(lots, needed).Ok?
    ensures Select(Lifo)(lots, needed).value == Reversed(Select(Fifo)(lots, needed).value)
  {
    if needed.raw > 0 {
      OrderCoversUnits(Fifo, lots, Any);
      OrderCoversUnits(Lifo, lots, Any);
      WalkEmptiesAll(lots, OldestFirst(lots), needed);
      WalkEmptiesAll(lots, Reversed(OldestFirst(lots)), needed);
      WholeLotsOfReverse(lots, OldestFirst(lots));
    }
  }

  lemma {:induction false} WalkPlansHeld(lots: seq<Lot>, order: seq<nat>, unmet: Quantity)
    requires InRange(lots, order)
    ensures Walk(lots, order, unmet).Ok? ==> Refinement.PlansHeld(lots, Walk(lots, order, unmet).value)
    decreases |order|
  {
    if order != [] {
      var available := lots[order[0]].remaining;
      if available.raw <= 0 {
        WalkPlansHeld(lots, order[1..], unmet);
      } else {
        WalkPlansHeld(lots, order[1..],
                      Quantity(unmet.raw - Min(available.raw, unmet.raw), unmet.decimals));
      }
    }
  }

  /** No method ever plans over a lot it was not handed, on any input. */
  lemma MethodsPlanOverHanded(how: Method)
    ensures Refinement.PlansOverHanded(Select(how))
  {
    forall open: seq<Lot>, needed: Quantity | Select(how)(open, needed).Ok?
      ensures Refinement.PlansHeld(open, Select(how)(open, needed).value)
    {
      if needed.raw > 0 {
        WalkPlansHeld(open, OrderOf(how, open), needed);
      }
    }
  }

  ghost predicate Checkable(open: seq<Lot>, budgets: map<LotRef, int>, plan: seq<Pick>, needed: Quantity) {
    && Refinement.PlansHeld(open, plan)
    && (forall k | 0 <= k < |plan| ::
          && plan[k].take.decimals == needed.decimals
          && plan[k].lot in budgets && 0 < plan[k].take.raw <= budgets[plan[k].lot])
    && (forall a, b | 0 <= a < b < |plan| :: plan[a].lot != plan[b].lot)
  }

  /** A plan of distinct, in-budget takes passes validation with its total. */
  lemma {:induction false} CheckAccepts(open: seq<Lot>, budgets: map<LotRef, int>, plan: seq<Pick>,
                                        needed: Quantity, total: int)
    requires Checkable(open, budgets, plan, needed)
    requires total + TakenWhere(open, plan, Any) <= needed.raw
    ensures CheckFull(budgets, plan, needed, total) == Ok(total + TakenWhere(open, plan, Any))
    decreases |plan|
  {
    if plan != [] {
      var p := plan[0];
      var rest := plan[1..];
      assert forall k | 0 <= k < |rest| :: rest[k] == plan[k + 1];
      CheckAccepts(open, budgets[p.lot := budgets[p.lot] - p.take.raw], rest, needed, total + p.take.raw);
    }
  }

  lemma SpecNamesNoLotTwice(how: Method, lots: seq<Lot>, needed: Quantity, plan: seq<Pick>)
    requires MeetsSpec(how, lots, needed, plan)
    ensures forall a, b | 0 <= a < b < |plan| :: plan[a].lot != plan[b].lot
  {
    forall a, b | 0 <= a < b < |plan|
      ensures plan[a].lot != plan[b].lot
    {
      PrecedesIsStrict(how, lots, plan[a].lot.at, plan[b].lot.at);
    }
  }

  lemma SpecWithinBudgets(how: Method, lots: seq<Lot>, needed: Quantity, plan: seq<Pick>)
    requires MeetsSpec(how, lots, needed, plan)
    ensures forall k | 0 <= k < |plan| ::
      plan[k].lot in Budgets(lots) && 0 < plan[k].take.raw <= Budgets(lots)[plan[k].lot]
  {
    forall k | 0 <= k < |plan|
      ensures plan[k].lot in Budgets(lots) && 0 < plan[k].take.raw <= Budgets(lots)[plan[k].lot]
    {
      assert plan[k].lot == Held(plan[k].lot.at);
    }
  }

  lemma PlanIsCheckable(how: Method, open: seq<Lot>, needed: Quantity)
    requires AtScale(open, needed.decimals) && needed.raw > 0
    ensures Select(how)(open, needed).Ok?
    ensures Checkable(open, Budgets(open), Select(how)(open, needed).value, needed)
    ensures TakenWhere(open, Select(how)(open, needed).value, Any) == Min(needed.raw, UnitsHeld(open))
  {
    MethodsMeetSpec(how, open, needed);
    var plan := Select(how)(open, needed).value;
    SpecNamesNoLotTwice(how, open, needed, plan);
    SpecWithinBudgets(how, open, needed, plan);
  }

  /** Every method's plan passes the plain ledger's validation with its own total. */
  lemma PlanPassesFull(how: Method, open: seq<Lot>, needed: Quantity)
    requires AtScale(open, needed.decimals) && needed.raw > 0
    ensures Select(how)(open, needed).Ok?
    ensures CheckFull(Budgets(open), Select(how)(open, needed).value, needed, 0) == Ok(Min(needed.raw, UnitsHeld(open)))
  {
    hide MeetsSpec, Select, Walk, Budgets, Checkable, AtScale, TakenWhere, UnitsHeld, CheckFull;
    PlanIsCheckable(how, open, needed);
    CheckAccepts(open, Budgets(open), Select(how)(open, needed).value, needed, 0);
  }

  /** The lots a ledger hands out: live, and all of its asset. */
  ghost predicate HandedOut(assetId: string, open: seq<Lot>) {
    forall k | 0 <= k < |open| :: open[k].assetId == assetId && Live(open[k])
  }

  lemma PlanPassesPruning(how: Method, assetId: string, open: seq<Lot>, needed: Quantity)
    requires AtScale(open, needed.decimals) && HandedOut(assetId, open) && needed.raw > 0
    ensures Select(how)(open, needed).Ok?
    ensures CheckPruning(assetId, open, map[], Select(how)(open, needed).value, needed, 0)
         == Ok(Min(needed.raw, UnitsHeld(open)))
  {
    hide Select, UnitsHeld, CheckFull, CheckPruning;
    PlanPassesFull(how, open, needed);
    MethodsPlanOverHanded(how);
    assert Refinement.SameBudgets(open, Budgets(open), map[]);
    Refinement.ChecksAgree(assetId, open, Budgets(open), map[], Select(how)(open, needed).value, needed, 0);
  }

  /** And either ledger's, for any need; only a negative need, for which every plan is
      empty, is refused. */
  lemma MethodPlansPass(how: Method, kind: Kind, assetId: string, open: seq<Lot>, needed: Quantity)
    requires AtScale(open, needed.decimals) && HandedOut(assetId, open)
    ensures Select(how)(open, needed).Ok?
    ensures Check(kind, assetId, open, Select(how)(open, needed).value, needed)
         == if needed.raw < 0 then Err(ValidationError) else Ok(Min(needed.raw, UnitsHeld(open)))
  {
    if needed.raw > 0 {
      hide Select, UnitsHeld, CheckFull, CheckPruning, HandedOut;
      PlanPassesFull(how, open, needed);
      PlanPassesPruning(how, assetId, open, needed);
    }
  }

  /** On matching scales a disposal never raises but for a negative need, under any method
      and either ledger, and its shortfall is exactly the units nobody held. */
  lemma ConsumeNeverRaises(how: Method, kind: Kind, l: Ledger, needed: Quantity)
    requires Refinement.OneAsset(l) && AtScale(OpenLots(l.lots), needed.decimals)
    requires !WrongScale(l.book, needed)
    ensures var outcome := Consume(kind, l, needed, Select(how)).outcome;
      && (outcome.Ok? <==> needed.raw >= 0)
      && (outcome.Err? ==> outcome.error == ValidationError)
      && (outcome.Ok? ==> outcome.value.shortfall
                          == Quantity(needed.raw - Min(needed.raw, UnitsHeld(OpenLots(l.lots))), needed.decimals))
  {
    hide Select, Check, Drain, Pieces, AtScale, OpenLots, UnitsHeld;
    var open := OpenLots(l.lots);
    Refinement.OpenLotsAreLive(l.lots);
    MethodPlansPass(how, kind, l.book.assetId, open, needed);
  }

  // ------------------------------------------------------------ a plan refused

  /** The walk comes to a live lot of another scale while units are still needed. */
  ghost predicate MeetsOtherScale(lots: seq<Lot>, order: seq<nat>, needed: Quantity, k: int)
    requires InRange(lots, order)
  {
    && 0 <= k < |order| && lots[order[k]].remaining.raw > 0
    && lots[order[k]].remaining.decimals != needed.decimals && UnitsAt(lots, order[..k], Any) < needed.raw
  }

  lemma {:induction false} WalkRefusesIff(lots: seq<Lot>, order: seq<nat>, needed: Quantity)
    requires InRange(lots, order) && needed.raw > 0
    ensures Walk(lots, order, needed).Err? <==> exists k :: MeetsOtherScale(lots, order, needed, k)
    ensures Walk(lots, order, needed).Err? ==> Walk(lots, order, needed).error == DecimalsMismatchError
    decreases |order|
  {
    if order != [] {
      var available := lots[order[0]].remaining;
      forall k | 0 < k < |order|
        ensures UnitsAt(lots, order[..k], Any) == Counted(lots[order[0]], Any) + UnitsAt(lots, order[1..][..k - 1], Any)
      {
        assert order[..k][1..] == order[1..][..k - 1];
      }
      var rest := Quantity(needed.raw - Counted(lots[order[0]], Any), needed.decimals);
      forall k | 0 < k < |order|
        ensures MeetsOtherScale(lots, order, needed, k) <==> MeetsOtherScale(lots, order[1..], rest, k - 1)
      {
      }
      forall k | MeetsOtherScale(lots, order[1..], rest, k)
        ensures MeetsOtherScale(lots, order, needed, k + 1)
      {
      }
      if available.raw > 0 && available.decimals != needed.decimals {
        assert order[..0] == [] && MeetsOtherScale(lots, order, needed, 0);
      } else if rest.raw > 0 {
        WalkRefusesIff(lots, order[1..], rest);
      }
    }
  }

  /** A method refuses to plan exactly when, going down its order, it comes to a live lot of
      another scale before the need is met. */
  lemma SelectRefusesIff(how: Method, lots: seq<Lot>, needed: Quantity)
    ensures Select(how)(lots, needed).Err? <==>
      needed.raw > 0 && exists k :: MeetsOtherScale(lots, OrderOf(how, lots), needed, k)
    ensures Select(how)(lots, needed).Err? ==> Select(how)(lots, needed).error == DecimalsMismatchError
  {
    if needed.raw > 0 {
      WalkRefusesIff(lots, OrderOf(how, lots), needed);
    }
  }
}
