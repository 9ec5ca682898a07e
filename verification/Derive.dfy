/** The taxable event stream of a ledger, and replay up to an arbitrary instant
    (accounting/lots.py derive_events, accounting/pnl.py pnl_at). */
module Derive {
  import opened Common
  import opened Lots
  import opened Selection
  import opened Transactions
  import opened Pnl
  import opened Rounding
  import opened Replay

  /** The instant a transaction is taxed at. */
  function TaxedAt(t: Txn): int {
    if t.payload.confirmedAt.Some? then t.payload.confirmedAt.value else t.payload.initiatedAt
  }

  /** An entry's event: none for SELF, an error for a movement of nothing. */
  function EventOf(t: Txn, entry: Entry): Result<Option<Event>> {
    if entry.direction.Self? then Ok(None)
    else if entry.quantity.raw <= 0 then Err(ValidationError)
    else if entry.direction.In? then
      Ok(Some(Acquisition(TaxedAt(t), entry.assetId, entry.quantity, None, t.payload.id)))
    else
      Ok(Some(Disposal(TaxedAt(t), entry.assetId, entry.quantity, None, t.payload.id)))
  }

  function EntryEvents(t: Txn, entries: seq<Entry>): Result<seq<Event>> {
    if |entries| == 0 then Ok([])
    else
      var rest := EntryEvents(t, entries[..|entries| - 1]);
      var last := EventOf(t, entries[|entries| - 1]);
      if rest.Err? then rest
      else if last.Err? then Err(last.error)
      else Ok(if last.value.Some? then rest.value + [last.value.value] else rest.value)
  }

  /** Reorg-removed transactions and internal transfers yield nothing at all. */
  predicate Taxed(t: Txn, internal: set<string>) {
    !t.removed && t.payload.id !in internal
  }

  function Collected(txns: seq<Txn>, internal: set<string>): Result<seq<Event>> {
    if |txns| == 0 then Ok([])
    else
      var rest := Collected(txns[..|txns| - 1], internal);
      var last := txns[|txns| - 1];
      if rest.Err? || !Taxed(last, internal) then rest
      else
        var own := EntryEvents(last, last.payload.entries);
        if own.Err? then own else Ok(rest.value + own.value)
  }

  function InsertByTime(events: seq<Event>, e: Event): seq<Event> {
    if |events| == 0 || events[|events| - 1].atMs <= e.atMs then events + [e]
    else InsertByTime(events[..|events| - 1], e) + [events[|events| - 1]]
  }

  function SortByTime(events: seq<Event>): seq<Event> {
    if |events| == 0 then [] else InsertByTime(SortByTime(events[..|events| - 1]), events[|events| - 1])
  }

  /** `derive_events`. */
  function DeriveEvents(txns: seq<Txn>, internal: set<string>): Result<seq<Event>> {
    var collected := Collected(txns, internal);
    if collected.Err? then collected else Ok(SortByTime(collected.value))
  }

  /** The loops of `derive_events`. */
  method DeriveLoop(txns: seq<Txn>, internal: set<string>) returns (r: Result<seq<Event>>)
    ensures r == DeriveEvents(txns, internal)
  {
    var events: seq<Event> := [];
    for i := 0 to |txns|
      invariant Collected(txns[..i], internal) == Ok(events)
      invariant Collected(txns[..i], internal).Err? ==> Collected(txns, internal) == Collected(txns[..i], internal)
    {
      assert txns[..i + 1][..i] == txns[..i];
      var t := txns[i];
      if !t.removed && t.payload.id !in internal {
        var own: seq<Event> := [];
        var entries := t.payload.entries;
        for j := 0 to |entries|
          invariant EntryEvents(t, entries[..j]) == Ok(own)
        {
          assert entries[..j + 1][..j] == entries[..j];
          var built := EventOf(t, entries[j]);
          if built.Err? {
            EntryErrorPersists(t, entries, j + 1);
            CollectErrorPersists(txns, internal, i + 1);
            return Err(built.error);
          }
          if built.value.Some? {
            own := own + [built.value.value];
          }
        }
        assert entries[..|entries|] == entries;
        events := events + own;
      }
    }
    assert txns[..|txns|] == txns;
    return Ok(SortByTime(events));
  }

  lemma {:induction false} EntryErrorPersists(t: Txn, entries: seq<Entry>, j: nat)
    requires j <= |entries| && EntryEvents(t, entries[..j]).Err?
    ensures EntryEvents(t, entries) == EntryEvents(t, entries[..j])
  {
    if j < |entries| {
      assert entries[..|entries| - 1][..j] == entries[..j];
      EntryErrorPersists(t, entries[..|entries| - 1], j);
    } else {
      assert entries[..j] == entries;
    }
  }

  lemma {:induction false} CollectErrorPersists(txns: seq<Txn>, internal: set<string>, i: nat)
    requires i <= |txns| && Collected(txns[..i], internal).Err?
    ensures Collected(txns, internal) == Collected(txns[..i], internal)
  {
    if i < |txns| {
      assert txns[..|txns| - 1][..i] == txns[..i];
      CollectErrorPersists(txns[..|txns| - 1], internal, i);
    } else {
      assert txns[..i] == txns;
    }
  }

  // --------------------------------------------------------- the sort

  ghost predicate InTime(events: seq<Event>) {
    forall i, j | 0 <= i < j < |events| :: events[i].atMs <= events[j].atMs
  }

  /** The events of one instant, in stream order. */
  function AtInstant(events: seq<Event>, t: int): seq<Event> {
    if |events| == 0 then []
    else
      var rest := AtInstant(events[..|events| - 1], t);
      if events[|events| - 1].atMs == t then rest + [events[|events| - 1]] else rest
  }

  lemma {:induction false} InsertKeepsEvents(events: seq<Event>, e: Event)
    ensures multiset(InsertByTime(events, e)) == multiset(events) + multiset{e}
  {
    var n := |events| - 1;
    if n >= 0 && events[n].atMs > e.atMs {
      InsertKeepsEvents(events[..n], e);
      assert events == events[..n] + [events[n]];
    }
  }

  lemma {:induction false} InsertHas(events: seq<Event>, e: Event)
    ensures forall x | x in InsertByTime(events, e) :: x in events || x == e
  {
    var n := |events| - 1;
    if n >= 0 && events[n].atMs > e.atMs {
      InsertHas(events[..n], e);
    }
  }

  lemma LastInTime(events: seq<Event>, last: Event)
    requires InTime(events) && forall x | x in events :: x.atMs <= last.atMs
    ensures InTime(events + [last])
  {
  }

  lemma FrontInTime(events: seq<Event>)
    requires InTime(events) && events != []
    ensures var n := |events| - 1;
      InTime(events[..n]) && forall x | x in events[..n] :: x.atMs <= events[n].atMs
  {
  }

  lemma {:induction false} InsertKeepsTime(events: seq<Event>, e: Event)
    requires InTime(events)
    ensures InTime(InsertByTime(events, e))
  {
    hide InTime;
    if events == [] {
      NoneInTime();
      LastInTime([], e);
    } else {
      var n := |events| - 1;
      FrontInTime(events);
      if events[n].atMs <= e.atMs {
        assert events == events[..n] + [events[n]];
        LastInTime(events, e);
      } else {
        InsertKeepsTime(events[..n], e);
        InsertHas(events[..n], e);
        LastInTime(InsertByTime(events[..n], e), events[n]);
      }
    }
  }

  lemma NoneInTime()
    ensures InTime([])
  {
  }

  lemma {:induction false} InsertKeepsInstants(events: seq<Event>, e: Event, t: int)
    requires InTime(events)
    ensures AtInstant(InsertByTime(events, e), t) ==
      if e.atMs == t then AtInstant(events, t) + [e] else AtInstant(events, t)
  {
    var n := |events| - 1;
    if n < 0 || events[n].atMs <= e.atMs {
      assert (events + [e])[..|events|] == events;
    } else {
      InsertKeepsInstants(events[..n], e, t);
      var inner := InsertByTime(events[..n], e);
      assert (inner + [events[n]])[..|inner|] == inner;
    }
  }

  lemma {:induction false} SortKeepsEvents(events: seq<Event>)
    ensures multiset(SortByTime(events)) == multiset(events)
  {
    hide InsertByTime;
    if |events| > 0 {
      var n := |events| - 1;
      SortKeepsEvents(events[..n]);
      InsertKeepsEvents(SortByTime(events[..n]), events[n]);
      assert events == events[..n] + [events[n]];
    }
  }

  lemma {:induction false} SortOrders(events: seq<Event>)
    ensures InTime(SortByTime(events))
  {
    hide InsertByTime;
    if |events| > 0 {
      SortOrders(events[..|events| - 1]);
      InsertKeepsTime(SortByTime(events[..|events| - 1]), events[|events| - 1]);
    }
  }

  /** The stream is in time order, loses and adds nothing, and keeps the arrival
      order of the events of every instant. */
  lemma {:induction false} SortIsStable(events: seq<Event>, t: int)
    ensures InTime(SortByTime(events))
    ensures multiset(SortByTime(events)) == multiset(events)
    ensures AtInstant(SortByTime(events), t) == AtInstant(events, t)
  {
    hide InsertByTime, InTime;
    SortOrders(events);
    SortKeepsEvents(events);
    if |events| > 0 {
      var n := |events| - 1;
      SortIsStable(events[..n], t);
      InsertKeepsInstants(SortByTime(events[..n]), events[n], t);
    }
  }

  // ------------------------------------------------- splitting a replay

  /** Replaying a head and then a tail is replaying the whole in one pass, errors
      included, wherever the split falls. */
  lemma {:induction false} ReplaySplits(fx: Boundary, s: State, head: seq<Event>, tail: seq<Event>)
    ensures Process(fx, s, head + tail) ==
      if Process(fx, s, head).error.Some? then Process(fx, s, head)
      else Process(fx, Process(fx, s, head).state, tail)
    decreases |head|
  {
    if head == [] {
      assert head + tail == tail;
    } else {
      assert (head + tail)[1..] == head[1..] + tail;
      ReplaySplits(fx, ProcessOne(fx, s, head[0]).state, head[1..], tail);
    }
  }

  /** The generator of `pnl_at`. */
  function Admitted(events: seq<Event>, atMs: int): seq<Event> {
    if events == [] then []
    else if events[0].atMs <= atMs then [events[0]] + Admitted(events[1..], atMs)
    else Admitted(events[1..], atMs)
  }

  /** How many events of a stream happened at or before an instant. */
  function CountUpTo(events: seq<Event>, atMs: int): (n: nat)
    ensures n <= |events|
  {
    if events == [] then 0 else (if events[0].atMs <= atMs then 1 else 0) + CountUpTo(events[1..], atMs)
  }

  lemma {:induction false} AdmittedIsPrefix(events: seq<Event>, atMs: int)
    requires InTime(events)
    ensures Admitted(events, atMs) == events[..CountUpTo(events, atMs)]
    ensures forall k | 0 <= k < |events| :: events[k].atMs <= atMs <==> k < CountUpTo(events, atMs)
  {
    if events != [] {
      AdmittedIsPrefix(events[1..], atMs);
      forall k | 0 <= k < |events|
        ensures events[k].atMs <= atMs <==> k < CountUpTo(events, atMs)
      {
        if k > 0 {
          assert events[k] == events[1..][k - 1];
        }
      }
    }
  }

  /** `pnl_at`. */
  function PnlAt(fx: Boundary, events: seq<Event>, how: Method, atMs: int): Stepped {
    Process(fx, NewState(how), Admitted(events, atMs))
  }

  /** On a stream in time order, `pnl_at` is the replay of exactly the prefix up
      to the instant, ties included, and resuming it with the rest is the replay
      of the whole stream. */
  lemma PnlAtIsPrefix(fx: Boundary, events: seq<Event>, how: Method, atMs: int)
    requires InTime(events)
    ensures var k := CountUpTo(events, atMs);
      && PnlAt(fx, events, how, atMs) == Process(fx, NewState(how), events[..k])
      && (forall i | 0 <= i < |events| :: events[i].atMs <= atMs <==> i < k)
      && (PnlAt(fx, events, how, atMs).error.None? ==>
            Process(fx, PnlAt(fx, events, how, atMs).state, events[k..]) == Process(fx, NewState(how), events))
  {
    AdmittedIsPrefix(events, atMs);
    var k := CountUpTo(events, atMs);
    assert events == events[..k] + events[k..];
    ReplaySplits(fx, NewState(how), events[..k], events[k..]);
  }

  // What is in the stream

  /** The event is this movement of this transaction, at its time, unpriced. */
  ghost predicate Records(e: Event, t: Txn, entry: Entry) {
    && entry in t.payload.entries && entry.quantity.raw > 0
    && e.atMs == (if t.payload.confirmedAt.Some? then t.payload.confirmedAt.value else t.payload.initiatedAt)
    && e.assetId == entry.assetId && e.quantity == entry.quantity && e.sourceTxId == t.payload.id
    && (if e.Acquisition? then entry.direction.In? && e.cost.None? else entry.direction.Out? && e.proceeds.None?)
  }

  lemma {:induction false} EntryEventsAre(t: Txn, entries: seq<Entry>)
    requires EntryEvents(t, entries).Ok? && forall entry | entry in entries :: entry in t.payload.entries
    ensures forall e :: e in EntryEvents(t, entries).value <==> exists entry :: entry in entries && Records(e, t, entry)
  {
    if entries != [] {
      var n := |entries| - 1;
      EntryEventsAre(t, entries[..n]);
      assert entries == entries[..n] + [entries[n]];
      assert entries[n] in entries;
    }
  }

  /** The stream records every movement of every live, taxed transaction, and nothing
      else: not one's own coins moved, not an internal transfer, not a removed row. */
  lemma {:induction false} CollectedAre(txns: seq<Txn>, internal: set<string>)
    requires Collected(txns, internal).Ok?
    ensures forall e :: e in Collected(txns, internal).value <==>
      exists t, entry :: t in txns && !t.removed && t.payload.id !in internal && Records(e, t, entry)
  {
    if txns != [] {
      var n := |txns| - 1;
      CollectedAre(txns[..n], internal);
      assert txns == txns[..n] + [txns[n]];
      if Taxed(txns[n], internal) {
        EntryEventsAre(txns[n], txns[n].payload.entries);
      }
    }
  }

  lemma DerivedEventsAre(txns: seq<Txn>, internal: set<string>)
    requires DeriveEvents(txns, internal).Ok?
    ensures forall e :: e in DeriveEvents(txns, internal).value <==>
      exists t, entry :: t in txns && !t.removed && t.payload.id !in internal && Records(e, t, entry)
  {
    hide Collected, SortByTime, Records;
    CollectedAre(txns, internal);
    var raw := Collected(txns, internal).value;
    SortIsStable(raw, 0);
    forall e
      ensures e in SortByTime(raw) <==> e in raw
    {
      assert e in multiset(SortByTime(raw)) <==> e in multiset(raw);
    }
  }

  /** The movements of some entries and of some transactions that are taxed. */
  function Moving(entries: seq<Entry>): nat {
    if entries == [] then 0
    else Moving(entries[..|entries| - 1]) + (if entries[|entries| - 1].direction == Self then 0 else 1)
  }

  function TaxedMovements(txns: seq<Txn>, internal: set<string>): nat {
    if txns == [] then 0
    else
      var t := txns[|txns| - 1];
      TaxedMovements(txns[..|txns| - 1], internal)
      + (if t.removed || t.payload.id in internal then 0 else Moving(t.payload.entries))
  }

  /** One event each: none is derived twice. */
  lemma OneEventEach(txns: seq<Txn>, internal: set<string>)
    requires DeriveEvents(txns, internal).Ok?
    ensures |DeriveEvents(txns, internal).value| == TaxedMovements(txns, internal)
  {
    hide Collected, SortByTime;
    CollectedCount(txns, internal);
    var raw := Collected(txns, internal).value;
    SortIsStable(raw, 0);
    assert |multiset(SortByTime(raw))| == |multiset(raw)|;
  }

  lemma {:induction false} EntryCount(t: Txn, entries: seq<Entry>)
    requires EntryEvents(t, entries).Ok?
    ensures |EntryEvents(t, entries).value| == Moving(entries)
  {
    if entries != [] {
      EntryCount(t, entries[..|entries| - 1]);
    }
  }

  lemma {:induction false} CollectedCount(txns: seq<Txn>, internal: set<string>)
    requires Collected(txns, internal).Ok?
    ensures |Collected(txns, internal).value| == TaxedMovements(txns, internal)
  {
    if txns != [] {
      var n := |txns| - 1;
      CollectedCount(txns[..n], internal);
      if Taxed(txns[n], internal) {
        EntryCount(txns[n], txns[n].payload.entries);
      }
    }
  }

  /** Deriving fails exactly on a taxed movement of nothing. */
  lemma {:induction false} DeriveRefusesIff(txns: seq<Txn>, internal: set<string>)
    ensures Collected(txns, internal).Err? <==>
      exists t, entry :: t in txns && !t.removed && t.payload.id !in internal && entry in t.payload.entries
        && !entry.direction.Self?
        && entry.quantity.raw <= 0
    ensures Collected(txns, internal).Err? ==> Collected(txns, internal).error == ValidationError
  {
    if txns != [] {
      var n := |txns| - 1;
      DeriveRefusesIff(txns[..n], internal);
      assert txns == txns[..n] + [txns[n]];
      EntriesRefuseIff(txns[n], txns[n].payload.entries);
    }
  }

  lemma {:induction false} EntriesRefuseIff(t: Txn, entries: seq<Entry>)
    ensures EntryEvents(t, entries).Err?
      <==> exists entry :: entry in entries && !entry.direction.Self? && entry.quantity.raw <= 0
    ensures EntryEvents(t, entries).Err? ==> EntryEvents(t, entries).error == ValidationError
  {
    if entries != [] {
      EntriesRefuseIff(t, entries[..|entries| - 1]);
      assert entries == entries[..|entries| - 1] + [entries[|entries| - 1]];
    }
  }

  // ---------------------------------------------- the monotonic guard

  /** No event of the stream is older than the one replayed before it. */
  ghost predicate GuardAccepts(lastAtMs: int, events: seq<Event>) {
    && InTime(events)
    && (events != [] ==> lastAtMs <= events[0].atMs)
  }

  /** On any reachable state the guard is the only thing that raises `ValidationError`. */
  lemma OnlyLateIsInvalid(fx: Boundary, s: State, e: Event)
    requires ValidState(s)
    ensures ProcessOne(fx, s, e).error == Some(ValidationError) <==> e.atMs < s.lastAtMs
    ensures ProcessOne(fx, s, e).error.None? ==> ProcessOne(fx, s, e).state.lastAtMs == e.atMs
  {
    hide ProcessOne, ValidState;
    StepFrames(fx, s, e);
  }

  lemma GuardOneMore(lastAtMs: int, e: Event, rest: seq<Event>)
    ensures GuardAccepts(lastAtMs, [e] + rest) <==> lastAtMs <= e.atMs && GuardAccepts(e.atMs, rest)
  {
    var all := [e] + rest;
    if lastAtMs <= e.atMs && GuardAccepts(e.atMs, rest) {
      forall i, j | 0 <= i < j < |all|
        ensures all[i].atMs <= all[j].atMs
      {
        assert rest[0].atMs <= rest[j - 1].atMs;
      }
    }
    if GuardAccepts(lastAtMs, all) {
      forall i, j | 0 <= i < j < |rest|
        ensures rest[i].atMs <= rest[j].atMs
      {
        assert all[i + 1].atMs <= all[j + 1].atMs;
      }
      assert rest != [] ==> all[0].atMs <= all[1].atMs;
    }
  }

  /** The clock the event after `n` others is held to. */
  function ClockBefore(lastAtMs: int, events: seq<Event>, n: nat): int
    requires n <= |events|
  {
    if n == 0 then lastAtMs else events[n - 1].atMs
  }

  /** What a replay got through was in time order from the watermark on, and it ended in
      `ValidationError` exactly when the next event was older than the one before it. */
  lemma {:induction false} GuardIsTheOnlyTimeCheck(fx: Boundary, s: State, events: seq<Event>)
    requires ValidState(s)
    ensures Replayed(fx, s, events) <= |events|
    ensures var n := Replayed(fx, s, events);
      && GuardAccepts(s.lastAtMs, events[..n])
      && (Process(fx, s, events).error == Some(ValidationError) <==>
            n < |events| && events[n].atMs < ClockBefore(s.lastAtMs, events, n))
    decreases |events|
  {
    hide ProcessOne, ValidState, GuardAccepts;
    NothingIsAccepted(s.lastAtMs);
    if events != [] {
      var e, rest := events[0], events[1..];
      var one := ProcessOne(fx, s, e);
      OnlyLateIsInvalid(fx, s, e);
      if one.error.None? {
        StepKeepsValid(fx, s, e);
        GuardIsTheOnlyTimeCheck(fx, one.state, rest);
        var n := Replayed(fx, one.state, rest);
        GuardOneMore(s.lastAtMs, e, rest[..n]);
        assert events[..n + 1] == [e] + rest[..n];
      }
    }
  }

  lemma NothingIsAccepted(lastAtMs: int)
    ensures GuardAccepts(lastAtMs, [])
  {
  }

  /** So a stream the guard accepts never raises it. */
  lemma InTimeIsNeverInvalid(fx: Boundary, s: State, events: seq<Event>)
    requires ValidState(s) && GuardAccepts(s.lastAtMs, events)
    ensures Process(fx, s, events).error != Some(ValidationError)
  {
    hide Process, ValidState, Replayed;
    GuardIsTheOnlyTimeCheck(fx, s, events);
  }

  /** A movement that is taxed before the epoch. */
  ghost predicate BeforeEpoch(t: Txn, entry: Entry, internal: set<string>) {
    && !t.removed && t.payload.id !in internal && entry in t.payload.entries && !entry.direction.Self?
    && (if t.payload.confirmedAt.Some? then t.payload.confirmedAt.value else t.payload.initiatedAt) < 0
  }

  /** The event of a movement that deriving did not refuse is in the stream. */
  lemma MovementIsDerived(txns: seq<Txn>, internal: set<string>, t: Txn, entry: Entry)
    requires DeriveEvents(txns, internal).Ok? && t in txns && Taxed(t, internal)
    requires entry in t.payload.entries && !entry.direction.Self?
    ensures exists e :: e in DeriveEvents(txns, internal).value && e.atMs == TaxedAt(t)
  {
    hide Collected, SortByTime;
    DeriveRefusesIff(txns, internal);
    DerivedEventsAre(txns, internal);
    assert entry.quantity.raw > 0;
    var e := EventOf(t, entry).value.value;
    assert Records(e, t, entry);
    assert e in DeriveEvents(txns, internal).value;
  }

  /** In a stream in time order, one event before the epoch is enough to refuse the first. */
  lemma EarlyIsRefused(fx: Boundary, how: Method, events: seq<Event>, e: Event)
    requires InTime(events) && e in events && e.atMs < 0
    ensures Process(fx, NewState(how), events).error == Some(ValidationError)
  {
    hide ProcessOne;
    var k :| 0 <= k < |events| && events[k] == e;
    assert events[0].atMs < 0;
    OnlyLateIsInvalid(fx, NewState(how), events[0]);
  }

  /** A fresh replay of a derived stream raises `ValidationError` exactly when some taxed
      movement of the transactions is dated before the epoch. */
  lemma DerivedStreamPassesGuard(fx: Boundary, how: Method, txns: seq<Txn>, internal: set<string>)
    requires DeriveEvents(txns, internal).Ok?
    ensures Process(fx, NewState(how), DeriveEvents(txns, internal).value).error == Some(ValidationError)
      <==> exists t, entry :: t in txns && BeforeEpoch(t, entry, internal)
  {
    hide Collected, SortByTime, Records, Process, Taxed, BeforeEpoch;
    var events := DeriveEvents(txns, internal).value;
    SortIsStable(Collected(txns, internal).value, 0);
    if t, entry :| t in txns && BeforeEpoch(t, entry, internal) {
      EarlyMovementIsDerived(txns, internal, t, entry);
      var e :| e in events && e.atMs < 0;
      EarlyIsRefused(fx, how, events, e);
    } else {
      DerivedEventsAre(txns, internal);
      if events != [] {
        assert events[0] in events;
        RecordedAfterEpoch(txns, internal, events[0]);
      }
      InTimeIsNeverInvalid(fx, NewState(how), events);
    }
  }

  lemma EarlyMovementIsDerived(txns: seq<Txn>, internal: set<string>, t: Txn, entry: Entry)
    requires DeriveEvents(txns, internal).Ok? && t in txns && BeforeEpoch(t, entry, internal)
    ensures exists e :: e in DeriveEvents(txns, internal).value && e.atMs < 0
  {
    hide Collected, SortByTime;
    MovementIsDerived(txns, internal, t, entry);
    var e :| e in DeriveEvents(txns, internal).value && e.atMs == TaxedAt(t);
  }

  lemma RecordedAfterEpoch(txns: seq<Txn>, internal: set<string>, e: Event)
    requires exists t, entry :: t in txns && !t.removed && t.payload.id !in internal && Records(e, t, entry)
    requires forall t, entry :: t in txns ==> !BeforeEpoch(t, entry, internal)
    ensures e.atMs >= 0
  {
    var t, entry :| t in txns && !t.removed && t.payload.id !in internal && Records(e, t, entry);
    assert !BeforeEpoch(t, entry, internal);
  }

  /** One coin received a millisecond before the epoch. */
  lemma EarlyTransactionIsRefused(fx: Boundary, how: Method)
    ensures var t := Txn(Payload("t", "c", "h", "a", None, -1, None, [Entry("eth", Quantity(1, 18), In)]), false, 1);
      && DeriveEvents([t], {}).Ok?
      && Process(fx, NewState(how), DeriveEvents([t], {}).value).error == Some(ValidationError)
  {
    hide Collected, SortByTime, EntryEvents, Process, Faithful;
    var entry := Entry("eth", Quantity(1, 18), In);
    var t := Txn(Payload("t", "c", "h", "a", None, -1, None, [entry]), false, 1);
    DeriveRefusesIff([t], {});
    assert BeforeEpoch(t, entry, {});
    DerivedStreamPassesGuard(fx, how, [t], {});
  }
}
