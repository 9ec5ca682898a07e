/** Whole runs of registering, emitting, replaying and ticking
    (webhooks/deliver.py). */
module DeliveryRuns {
  import opened Common
  import opened Hooks
  import opened Webhooks
  import opened Deliverers

  datatype Move =
    | Register(project: string, url: string, names: seq<string>, atMs: int, entropy: string)
    | Emit(project: string, name: EventName, payload: string, atMs: int)
    | Replay(project: string, id: DeliveryId, atMs: int)
    | Tick(atMs: int)

  ghost predicate Registers(w: World, m: Move, w': World, wellFormed: string -> bool)
    requires m.Register?
  {
    var id := EndpointId(m.project, m.url);
    if !wellFormed(m.url) || ParseEventNames(m.names).Err? || id in w.endpoints then w' == w
    else
      w' == w.(endpoints := w.endpoints[id := Endpoint(id, m.project, m.url, ParseEventNames(m.names).value, m.atMs)],
               registered := w.registered + [id], secrets := w.secrets[id := m.entropy])
  }

  ghost predicate Emits(w: World, m: Move, w': World)
    requires m.Emit?
  {
    var event := EventId(m.project, m.name, m.atMs, m.payload);
    && (forall id | id in w.registered :: id in w.endpoints)
    && w' == w.(events := w.events[event := HookEvent(event, m.project, m.name, m.payload, m.atMs)],
                ds := FannedOut(w.ds, m.project, Receivers(w.endpoints, w.registered, m.project, m.name), event,
                                m.atMs))
  }

  ghost predicate Replays(w: World, m: Move, w': World)
    requires m.Replay?
  {
    if m.id !in w.ds.rows || w.ds.rows[m.id].projectId != m.project then w' == w
    else
      exists ordinal: nat ::
        && FirstFree(w.ds.rows, m.id, ordinal)
        && w' == w.(ds := Insert(w.ds, NewDelivery(m.project, m.id.(ordinal := ordinal), m.atMs)))
  }

  ghost predicate Ticks(w: World, m: Move, w': World, digest: Digest, answer: nat -> Reply)
    requires m.Tick?
  {
    exists ready :: DueList(digest, w.ds.rows, m.atMs, ready) && w' == Drained(w, ready, m.atMs, answer)
  }

  /** What one call may do. */
  ghost predicate Step(host: Host, w: World, m: Move, w': World) {
    match m
    case Register(_, _, _, _, _) => Registers(w, m, w', host.wellFormed)
    case Emit(_, _, _, _) => Emits(w, m, w')
    case Replay(_, _, _) => Replays(w, m, w')
    case Tick(_) => Ticks(w, m, w', host.digest, host.answer)
  }

  /** What the store and the deliverer were built with: ids, the URL check, and what the
      receivers will answer. */
  datatype Host = Host(digest: Digest, wellFormed: string -> bool, answer: nat -> Reply)

  /** Everything the protocol promises of a state. */
  ghost predicate Good(w: World) {
    && Filed(w.endpoints, w.registered, w.events) && w.secrets.Keys == w.endpoints.Keys
    && Sound(w.ds, w.endpoints.Keys, w.events.Keys)
    && Counted(w.log, w.ds.rows) && Faithful(w.log, w.events)
  }

  /** What no call undoes: a row stays on file, its attempts only grow, and once it is
      finished it never changes. */
  ghost predicate Kept(rows: Table, rows': Table) {
    forall id | id in rows :: id in rows' && RowKept(rows[id], rows'[id])
  }

  predicate RowKept(d: Delivery, d': Delivery) {
    && d'.id == d.id && d'.projectId == d.projectId && d'.createdAtMs == d.createdAtMs && d'.attempts >= d.attempts
    && (d.status != Pending ==> d' == d)
  }

  lemma JoinedIsKept(rows: Table, rows': Table)
    requires Joined(rows, rows')
    ensures Kept(rows, rows')
  {
  }

  lemma TickedIsKept(rows: Table, rows': Table, nowMs: int)
    requires Ticked(rows, rows', nowMs)
    ensures Kept(rows, rows')
  {
    forall id | id in rows
      ensures id in rows' && RowKept(rows[id], rows'[id])
    {
      assert TickedRow(rows[id], rows'[id], nowMs);
    }
  }

  lemma RegisterKeeps(w: World, m: Move, w': World, wellFormed: string -> bool)
    requires Good(w) && m.Register? && Registers(w, m, w', wellFormed)
    ensures Good(w') && Kept(w.ds.rows, w'.ds.rows)
  {
    hide Sound, Filed, Counted, ParseEventNames, Kept;
    SelfKept(w.ds.rows);
    if w' != w {
      FiledMore(w.endpoints, w.registered, w.events, w.ds, w'.endpoints[EndpointId(m.project, m.url)]);
    }
  }

  lemma {:induction false} FanOutIsSound(ds: Deliveries, endpoints: set<EndpointId>, events: set<EventId>,
                                         project: string, receivers: seq<EndpointId>, event: EventId, atMs: int)
    requires Sound(ds, endpoints, events) && event in events && event.project == project
    requires forall id | id in receivers :: id in endpoints && id.project == project
    ensures Sound(FannedOut(ds, project, receivers, event, atMs), endpoints, events)
    ensures Joined(ds.rows, FannedOut(ds, project, receivers, event, atMs).rows)
  {
    hide Sound, Joined, Armed;
    if receivers == [] {
      NothingJoined(ds.rows, event);
    } else {
      var n := |receivers| - 1;
      FanOutIsSound(ds, endpoints, events, project, receivers[..n], event, atMs);
      var before := FannedOut(ds, project, receivers[..n], event, atMs);
      assert receivers[n] in receivers;
      ArmedIsSound(before, endpoints, events, project, receivers[n], event, atMs);
      JoinedTwice(ds.rows, before.rows, Armed(before, project, receivers[n], event, atMs).rows);
    }
  }

  lemma MoreEvents(ds: Deliveries, endpoints: map<EndpointId, Endpoint>, registered: seq<EndpointId>,
                   events: map<EventId, HookEvent>, e: EventId)
    requires Filed(endpoints, registered, events) && Sound(ds, endpoints.Keys, events.Keys)
    ensures var more := events[e := HookEvent(e, e.project, e.name, e.payload, e.createdAtMs)];
      Filed(endpoints, registered, more) && Sound(ds, endpoints.Keys, more.Keys)
  {
    hide WellOrdered, AllLive, Gapless;
  }

  lemma EmitKeeps(w: World, m: Move, w': World)
    requires Good(w) && m.Emit? && Emits(w, m, w')
    ensures Good(w') && Kept(w.ds.rows, w'.ds.rows)
  {
    hide Sound, Filed, Counted, Faithful, Joined, FannedOut, Receivers, Kept;
    var event := EventId(m.project, m.name, m.atMs, m.payload);
    MoreEvents(w.ds, w.endpoints, w.registered, w.events, event);
    FiledEndpoints(w.endpoints, w.registered, w.events);
    ReceiversAre(w.endpoints, w.registered, m.project, m.name);
    var to := Receivers(w.endpoints, w.registered, m.project, m.name);
    FanOutIsSound(w.ds, w.endpoints.Keys, w'.events.Keys, m.project, to, event, m.atMs);
    JoinedIsKept(w.ds.rows, w'.ds.rows);
    StoreMovesKeepPosts(w.log, w.ds.rows, w'.ds.rows, w.endpoints, w.registered, w.events, event);
  }

  lemma ReplayKeeps(w: World, m: Move, w': World)
    requires Good(w) && m.Replay? && Replays(w, m, w')
    ensures Good(w') && Kept(w.ds.rows, w'.ds.rows)
  {
    hide Sound, Filed, Counted, Faithful, Joined, Kept, Insert, FirstFree;
    NothingJoined(w.ds.rows, m.id.event);
    if m.id in w.ds.rows && w.ds.rows[m.id].projectId == m.project {
      var ordinal: nat :|
        && FirstFree(w.ds.rows, m.id, ordinal)
        && w' == w.(ds := Insert(w.ds, NewDelivery(m.project, m.id.(ordinal := ordinal), m.atMs)));
      BelowFirstFree(w.ds.rows, m.id, ordinal);
      ReplayIsSound(w.ds, w.endpoints.Keys, w.events.Keys, m.id, ordinal - 1, m.atMs);
      SameEvents(w.events, m.id.event, w.endpoints, w.registered, w.ds);
      StoreMovesKeepPosts(w.log, w.ds.rows, w'.ds.rows, w.endpoints, w.registered, w.events, m.id.event);
    }
    JoinedIsKept(w.ds.rows, w'.ds.rows);
  }

  lemma SameEvents(events: map<EventId, HookEvent>, e: EventId, endpoints: map<EndpointId, Endpoint>,
                   registered: seq<EndpointId>, ds: Deliveries)
    requires Filed(endpoints, registered, events)
    ensures e in events ==> events[e := HookEvent(e, e.project, e.name, e.payload, e.createdAtMs)] == events
  {
  }

  /** Part-way through a drain everything still holds. */
  lemma {:induction false} DrainKeeps(digest: Digest, w: World, ready: seq<Delivery>, k: nat, nowMs: int,
                                      answer: nat -> Reply)
    requires Good(w) && DueList(digest, w.ds.rows, nowMs, ready) && k <= |ready|
    ensures var t := Drained(w, ready[..k], nowMs, answer);
      && Good(t) && Midway(w.ds.rows, t.ds.rows, ready, k, nowMs)
      && t.endpoints == w.endpoints && t.registered == w.registered && t.secrets == w.secrets && t.events == w.events
      && |t.log| == |w.log| + k
    decreases k
  {
    hide Good, DueList, Midway, Attempted;
    if k == 0 {
      StartsMidway(w.ds.rows, ready, nowMs);
    } else {
      DrainKeeps(digest, w, ready, k - 1, nowMs, answer);
      assert ready[..k][..k - 1] == ready[..k - 1];
      var t := Drained(w, ready[..k - 1], nowMs, answer);
      NotYet(digest, w.ds.rows, t.ds.rows, ready, k - 1, nowMs);
      AttemptKeeps(t, ready[k - 1], nowMs, answer);
      OneMore(digest, w.ds.rows, t.ds.rows, ready, k - 1, nowMs, answer(|t.log|));
    }
  }

  lemma AttemptKeeps(w: World, d: Delivery, nowMs: int, answer: nat -> Reply)
    requires Good(w) && d.id in w.ds.rows && w.ds.rows[d.id] == d && DueNow(d, nowMs)
    ensures var t := Attempted(w, d, nowMs, answer);
      && Good(t) && t.ds.rows == w.ds.rows[d.id := Recorded(d, nowMs, answer(|w.log|))]
      && t.endpoints == w.endpoints && t.registered == w.registered && t.secrets == w.secrets && t.events == w.events
      && |t.log| == |w.log| + 1
  {
    hide Recorded, Faithful, Counted, WellOrdered, AllLive, Gapless;
    OnFile(w.ds, w.endpoints, w.registered, w.events, d);
    RecordIsSound(w.ds, w.endpoints.Keys, w.events.Keys, d.id, nowMs, answer(|w.log|));
    PostedOnce(w.log, w.ds.rows, w.events, PostFor(w, d.id, nowMs), nowMs, answer(|w.log|));
  }

  lemma TickKeeps(host: Host, w: World, m: Move, w': World)
    requires Good(w) && m.Tick? && Ticks(w, m, w', host.digest, host.answer)
    ensures Good(w') && Ticked(w.ds.rows, w'.ds.rows, m.atMs) && Kept(w.ds.rows, w'.ds.rows)
  {
    hide Good, DueList, Midway, Drained, Ticked, Kept;
    var ready :| DueList(host.digest, w.ds.rows, m.atMs, ready) && w' == Drained(w, ready, m.atMs, host.answer);
    DrainKeeps(host.digest, w, ready, |ready|, m.atMs, host.answer);
    assert ready[..|ready|] == ready;
    GoodRows(w);
    AllDone(host.digest, w.ds.rows, w'.ds.rows, ready, m.atMs);
    TickedIsKept(w.ds.rows, w'.ds.rows, m.atMs);
  }

  lemma GoodRows(w: World)
    requires Good(w)
    ensures forall id | id in w.ds.rows :: w.ds.rows[id].id == id
  {
  }

  /** Each due row was posted once, in order, and holds the answer its own post got. */
  ghost predicate PostedEach(w: World, w': World, ready: seq<Delivery>, nowMs: int, answer: nat -> Reply) {
    && DrainedLog(w, w', |ready|)
    && forall k | 0 <= k < |ready| ::
         && OnRecord(w, ready[k].id) && PostIs(w'.log[|w.log| + k], w, ready[k].id, nowMs)
         && ready[k].id in w'.ds.rows && RecordIs(w'.ds.rows[ready[k].id], ready[k], nowMs, answer(|w.log| + k))
  }

  /** What a tick sends and what it writes down. */
  lemma TickPosts(host: Host, w: World, m: Move, w': World)
    requires Good(w) && m.Tick? && Ticks(w, m, w', host.digest, host.answer)
    ensures exists ready: seq<Delivery> ::
      DueList(host.digest, w.ds.rows, m.atMs, ready) && PostedEach(w, w', ready, m.atMs, host.answer)
  {
    hide Good, Drained, PostIs, RecordIs, OnRecord, DueList;
    var ready: seq<Delivery> :| DueList(host.digest, w.ds.rows, m.atMs, ready)
      && w' == Drained(w, ready, m.atMs, host.answer);
    DueOnRecord(host.digest, w, ready, m.atMs);
    DrainFiles(w, ready, m.atMs, host.answer);
    forall k | 0 <= k < |ready|
      ensures PostIs(w'.log[|w.log| + k], w, ready[k].id, m.atMs)
      ensures ready[k].id in w'.ds.rows
      ensures RecordIs(w'.ds.rows[ready[k].id], ready[k], m.atMs, host.answer(|w.log| + k))
    {
      DrainPosts(w, ready, m.atMs, host.answer, k);
    }
    assert PostedEach(w, w', ready, m.atMs, host.answer);
  }

  lemma DueOnRecord(digest: Digest, w: World, ready: seq<Delivery>, nowMs: int)
    requires Good(w) && DueList(digest, w.ds.rows, nowMs, ready)
    ensures forall k | 0 <= k < |ready| :: OnRecord(w, ready[k].id)
    ensures forall i, j | 0 <= i < j < |ready| :: ready[i].id != ready[j].id
  {
    hide WellOrdered, AllLive, Gapless, Counted, Faithful, NoLater;
    forall k | 0 <= k < |ready|
      ensures OnRecord(w, ready[k].id)
    {
      assert ready[k] in ready;
      OnFile(w.ds, w.endpoints, w.registered, w.events, ready[k]);
    }
  }

  /** Every call keeps every promise. */
  lemma StepKeeps(host: Host, w: World, m: Move, w': World)
    requires Good(w) && Step(host, w, m, w')
    ensures Good(w') && Kept(w.ds.rows, w'.ds.rows)
  {
    hide Good, Kept, Registers, Emits, Replays, Ticks;
    match m {
      case Register(_, _, _, _, _) => RegisterKeeps(w, m, w', host.wellFormed);
      case Emit(_, _, _, _) => EmitKeeps(w, m, w');
      case Replay(_, _, _) => ReplayKeeps(w, m, w');
      case Tick(_) => TickKeeps(host, w, m, w');
    }
  }

  const EMPTY := World(map[], [], map[], map[], Deliveries(map[], []), [])

  /** A run: the states a fresh store passes through under some calls. */
  ghost predicate IsRun(host: Host, history: seq<World>, moves: seq<Move>) {
    && |history| == |moves| + 1 && history[0] == EMPTY
    && forall k | 0 <= k < |moves| :: Step(host, history[k], moves[k], history[k + 1])
  }

  lemma KeptTwice(a: Table, b: Table, c: Table)
    requires Kept(a, b) && Kept(b, c)
    ensures Kept(a, c)
  {
    forall id | id in a
      ensures id in c && RowKept(a[id], c[id])
    {
      assert RowKept(a[id], b[id]) && RowKept(b[id], c[id]);
    }
  }

  /** Over every run of registering, emitting, replaying and ticking: each row is pending
      with its next slot on the schedule and fewer than six attempts, delivered, or dead at
      six; posts equal attempts and carry the one body; every endpoint, secret and event is
      on file; ordinals have no gap; and between any two states no row is lost and no
      finished row has changed. */
  lemma {:induction false} RunKeeps(host: Host, history: seq<World>, moves: seq<Move>, i: nat, j: nat)
    requires IsRun(host, history, moves) && i <= j < |history|
    ensures Good(history[j])
    ensures Kept(history[i].ds.rows, history[j].ds.rows)
    decreases j
  {
    hide Good, Kept, Step;
    if j == 0 {
      EmptyIsGood();
    } else {
      RunKeeps(host, history, moves, if i < j then i else j - 1, j - 1);
      StepKeeps(host, history[j - 1], moves[j - 1], history[j]);
      if i < j {
        KeptTwice(history[i].ds.rows, history[j - 1].ds.rows, history[j].ds.rows);
      } else {
        SelfKept(history[j].ds.rows);
      }
    }
  }

  lemma EmptyIsGood()
    ensures Good(EMPTY) && Kept(EMPTY.ds.rows, EMPTY.ds.rows)
  {
  }

  lemma SelfKept(rows: Table)
    ensures Kept(rows, rows)
  {
  }

  lemma GoodRow(w: World, id: DeliveryId)
    requires Good(w) && id in w.ds.rows
    ensures var d := w.ds.rows[id];
      && (d.status == Pending <==> d.nextAttemptAtMs.Some?)
      && (d.status == Pending ==>
            d.attempts < MAX_ATTEMPTS && d.nextAttemptAtMs == Some(d.createdAtMs + RETRY_SCHEDULE_MS[d.attempts]))
      && (d.status == DeadLetter ==> d.attempts == MAX_ATTEMPTS)
      && Sent(w.log)[id] == d.attempts
      && OnRecord(w, id)
  {
    hide WellOrdered, Gapless, Faithful;
  }

  lemma GoodEarlier(w: World, id: DeliveryId)
    requires Good(w) && id in w.ds.rows
    ensures forall k: nat | k <= id.ordinal :: id.(ordinal := k) in w.ds.rows
  {
    hide WellOrdered, AllLive, Backed, Filed, Counted, Faithful;
    forall k: nat | k <= id.ordinal
      ensures id.(ordinal := k) in w.ds.rows
    {
      assert id.(ordinal := k) == DeliveryId(id.endpoint, id.event, k);
    }
  }

  /** What that says of a row. */
  lemma RunRows(host: Host, history: seq<World>, moves: seq<Move>, j: nat, id: DeliveryId)
    requires IsRun(host, history, moves) && j < |history| && id in history[j].ds.rows
    ensures var (w, d) := (history[j], history[j].ds.rows[id]);
      && (d.status == Pending <==> d.nextAttemptAtMs.Some?)
      && (d.status == Pending ==>
            d.attempts < MAX_ATTEMPTS && d.nextAttemptAtMs == Some(d.createdAtMs + RETRY_SCHEDULE_MS[d.attempts]))
      && (d.status == DeadLetter ==> d.attempts == MAX_ATTEMPTS)
      && Sent(w.log)[id] == d.attempts
      && OnRecord(w, id)
      && (forall k: nat | k <= id.ordinal :: id.(ordinal := k) in w.ds.rows)
  {
    hide IsRun, Good, Kept, OnRecord, Sent;
    RunKeeps(host, history, moves, j, j);
    GoodRow(history[j], id);
    GoodEarlier(history[j], id);
  }

  ghost predicate NothingDue(rows: Table, nowMs: int) {
    forall id | id in rows :: !DueNow(rows[id], nowMs)
  }

  /** And six ticks at one instant, with no other call between them, leave nothing due. */
  lemma RunDrains(host: Host, history: seq<World>, moves: seq<Move>, j: nat, nowMs: int)
    requires IsRun(host, history, moves) && j + MAX_ATTEMPTS < |history|
    requires forall k | j <= k < j + MAX_ATTEMPTS :: moves[k] == Tick(nowMs)
    ensures NothingDue(history[j + MAX_ATTEMPTS].ds.rows, nowMs)
  {
    hide Good, Kept, Ticked;
    var tables := seq(MAX_ATTEMPTS + 1, k requires 0 <= k <= MAX_ATTEMPTS => history[j + k].ds.rows);
    forall k | 0 <= k < MAX_ATTEMPTS
      ensures Ticked(tables[k], tables[k + 1], nowMs)
    {
      RunKeeps(host, history, moves, j + k, j + k);
      assert Step(host, history[j + k], moves[j + k], history[j + k + 1]);
      TickKeeps(host, history[j + k], moves[j + k], history[j + k + 1]);
    }
    RunKeeps(host, history, moves, j, j);
    GoodIsLive(history[j]);
    SixTicksDrain(tables, nowMs);
    assert tables[MAX_ATTEMPTS] == history[j + MAX_ATTEMPTS].ds.rows;
  }

  lemma GoodIsLive(w: World)
    requires Good(w)
    ensures AllLive(w.ds.rows)
  {
  }

  function HostOf(d: Deliverer): Host {
    Host(d.store.digest, d.store.wellFormed, d.client.answer)
  }

  /** The calls of the store and the deliverer are exactly such steps. */
  method Perform(d: Deliverer, m: Move)
    requires d.Inv()
    modifies d.store, d.client
    ensures d.Inv() && Step(HostOf(d), old(d.View()), m, d.View())
  {
    hide Sound, Filed, Counted, Faithful, FannedOut, Receivers, Drained, DueList, Ticked, Insert, ParseEventNames;
    ghost var w := d.View();
    match m {
      case Register(project, url, names, atMs, entropy) =>
        var _ := d.store.RegisterEndpoint(project, url, names, atMs, entropy);
        assert Registers(w, m, d.View(), d.store.wellFormed);
      case Emit(project, name, payload, atMs) =>
        var _ := d.store.Emit(project, name, payload, atMs);
        assert Emits(w, m, d.View());
        EmitKeeps(w, m, d.View());
      case Replay(project, id, atMs) =>
        var _ := d.store.CreateReplay(project, id, atMs);
        assert Replays(w, m, d.View());
        ReplayKeeps(w, m, d.View());
      case Tick(atMs) =>
        var _ := d.Tick(atMs);
        assert Ticks(w, m, d.View(), d.store.digest, d.client.answer);
    }
  }
}
