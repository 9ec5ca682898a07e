/** What a report's figures have to do with one another (accounting/report.py). */
module ReportFacts {
  import opened Lots
  import opened Selection
  import opened Pnl
  import opened Rounding
  import opened Accounts
  import opened Report
  import opened Replay

  // The total and its parts

  function RealizedAcross(records: seq<DisposalRecord>, assets: seq<string>): real {
    if assets == [] then 0.0
    else RealizedAcross(records, assets[..|assets| - 1]) + RealizedOf(records, assets[|assets| - 1])
  }

  lemma {:induction false} OneRecordAcross(records: seq<DisposalRecord>, assets: seq<string>)
    requires records != [] && forall i, j | 0 <= i < j < |assets| :: assets[i] != assets[j]
    ensures var n := |records| - 1;
      RealizedAcross(records, assets) == RealizedAcross(records[..n], assets) +
        (if records[n].assetId in assets && records[n].realized.Some? then records[n].realized.value.amount else 0.0)
  {
    if assets != [] {
      var m := |assets| - 1;
      OneRecordAcross(records, assets[..m]);
      assert assets == assets[..m] + [assets[m]];
    }
  }

  /** The realised total is the sum of the per-asset slices: no disposal is counted
      twice or lost between them. */
  lemma {:induction false} SlicesSumToRealized(records: seq<DisposalRecord>, assets: seq<string>)
    requires forall i, j | 0 <= i < j < |assets| :: assets[i] != assets[j]
    requires forall r | r in records :: r.assetId in assets
    ensures RealizedAcross(records, assets) == RealizedSum(records)
  {
    if records == [] {
      NothingRealized(assets);
    } else {
      var n := |records| - 1;
      assert records == records[..n] + [records[n]];
      SlicesSumToRealized(records[..n], assets);
      OneRecordAcross(records, assets);
    }
  }

  lemma {:induction false} NothingRealized(assets: seq<string>)
    ensures RealizedAcross([], assets) == 0.0
  {
    if assets != [] {
      NothingRealized(assets[..|assets| - 1]);
    }
  }

  ghost predicate RecordsSeen(s: State) {
    && (forall r | r in s.disposals :: r.assetId in s.assets)
    && (forall a | a in s.accounts :: a in s.assets)
  }

  lemma AccountStepSees(fx: Boundary, s: State, e: Event)
    requires RecordsSeen(s) && e.assetId in s.accounts
    ensures RecordsSeen(StepAccount(fx, s, e).state)
  {
    hide Open, Sell;
  }

  /** No disposal is ever booked for an asset the stream has not seen. */
  lemma StepSees(fx: Boundary, s: State, e: Event)
    requires RecordsSeen(s)
    ensures RecordsSeen(ProcessOne(fx, s, e).state)
  {
    hide StepAccount, Retagged, EmptyLedger;
    if e.atMs >= s.lastAtMs {
      var next := FixCurrency(Touch(s, e), if e.Acquisition? then e.cost else e.proceeds);
      if next.Ok? {
        AccountStepSees(fx, next.value, e);
      }
    }
  }

  lemma {:induction false} ProcessSees(fx: Boundary, s: State, events: seq<Event>)
    requires RecordsSeen(s)
    ensures RecordsSeen(Process(fx, s, events).state)
    decreases |events|
  {
    hide ProcessOne, RecordsSeen;
    if events != [] {
      StepSees(fx, s, events[0]);
      ProcessSees(fx, ProcessOne(fx, s, events[0]).state, events[1..]);
    }
  }

  /** So in every report of a replay the per-asset amounts add up to the total. */
  lemma ReportedSlicesAddUp(fx: Boundary, how: Method, events: seq<Event>)
    ensures var s := Process(fx, NewState(how), events).state;
      RealizedAcross(s.disposals, s.assets) == RealizedSum(s.disposals)
  {
    hide Process;
    ProcessKeepsValid(fx, NewState(how), events);
    ProcessSees(fx, NewState(how), events);
    var s := Process(fx, NewState(how), events).state;
    SlicesSumToRealized(s.disposals, s.assets);
  }

  // When the unrealised figure is known

  /** It is withheld exactly when some asset still held has no mark or no complete basis. */
  lemma {:induction false} UnrealizedKnownIff(s: State, assets: seq<string>, marks: Marks)
    requires forall a :: a in assets ==> a in s.accounts
    ensures TotalGap(s, assets, marks).Some? <==>
      forall a | a in assets :: UnitsLeft(s.accounts[a]) == 0 || (a in marks && HeldBasis(s.how, s.accounts[a]).Some?)
  {
    hide UnitsLeft, HeldBasis;
    if assets != [] {
      UnrealizedKnownIff(s, assets[..|assets| - 1], marks);
      assert assets == assets[..|assets| - 1] + [assets[|assets| - 1]];
    }
  }
}
