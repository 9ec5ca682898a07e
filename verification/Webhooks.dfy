/** The webhook store and the host-scheduled deliverer (webhooks/deliver.py,
    webhooks/replay.py). */
module Webhooks {
  import opened Common
  import opened Hooks
  import opened Strings

  /** A dict in insertion order. */
  datatype Deliveries = Deliveries(rows: Table, order: seq<DeliveryId>)

  ghost predicate WellOrdered(ds: Deliveries) {
    && (forall id :: id in ds.order <==> id in ds.rows)
    && (forall i, j | 0 <= i < j < |ds.order| :: ds.order[i] != ds.order[j])
  }

  function Insert(ds: Deliveries, row: Delivery): Deliveries {
    Deliveries(ds.rows[row.id := row], if row.id in ds.rows then ds.order else ds.order + [row.id])
  }

  /** Every delivery's endpoint, secret and event are on file, all of one project. */
  ghost predicate Backed(rows: Table, endpoints: set<EndpointId>, events: set<EventId>) {
    forall id | id in rows ::
      id.endpoint in endpoints && id.event in events && rows[id].projectId == id.endpoint.project == id.event.project
  }

  ghost predicate Filed(endpoints: map<EndpointId, Endpoint>, registered: seq<EndpointId>,
      events: map<EventId, HookEvent>) {
    && (forall id | id in endpoints ::
          endpoints[id].id == id && endpoints[id].projectId == id.project && endpoints[id].url == id.url)
    && (forall id :: id in registered <==> id in endpoints)
    && (forall id | id in events :: events[id] == HookEvent(id, id.project, id.name, id.payload, id.createdAtMs))
  }

  /** The delivery protocol's invariant on the rows. */
  ghost predicate Sound(ds: Deliveries, endpoints: set<EndpointId>, events: set<EventId>) {
    WellOrdered(ds) && AllLive(ds.rows) && Gapless(ds.rows) && Backed(ds.rows, endpoints, events)
  }

  /** No row on file moved; whatever joined is fresh. */
  ghost predicate Joined(rows: Table, rows': Table) {
    && (forall id | id in rows :: id in rows' && rows'[id] == rows[id])
    && (forall id | id in rows' && id !in rows :: rows'[id].status == Pending && rows'[id].attempts == 0)
  }

  /** Putting one more endpoint on file leaves every delivery backed. */
  lemma FiledMore(endpoints: map<EndpointId, Endpoint>, registered: seq<EndpointId>, events: map<EventId, HookEvent>,
                  ds: Deliveries, e: Endpoint)
    requires Filed(endpoints, registered, events) && Sound(ds, endpoints.Keys, events.Keys)
    requires e.id == EndpointId(e.projectId, e.url)
    ensures Filed(endpoints[e.id := e], registered + [e.id], events)
    ensures Sound(ds, endpoints[e.id := e].Keys, events.Keys)
  {
    hide WellOrdered, AllLive, Gapless;
  }

  lemma InsertIsOrdered(ds: Deliveries, row: Delivery)
    requires WellOrdered(ds) && row.id !in ds.rows
    ensures WellOrdered(Insert(ds, row))
  {
    assert Insert(ds, row).order == ds.order + [row.id];
  }

  lemma InsertIsLive(rows: Table, id: DeliveryId, atMs: int)
    requires AllLive(rows)
    ensures AllLive(rows[id := NewDelivery(id.endpoint.project, id, atMs)])
  {
  }

  lemma InsertIsBacked(rows: Table, endpoints: set<EndpointId>, events: set<EventId>, row: Delivery)
    requires Backed(rows, endpoints, events) && row.id.endpoint in endpoints && row.id.event in events
    requires row.projectId == row.id.endpoint.project == row.id.event.project
    ensures Backed(rows[row.id := row], endpoints, events)
  {
  }

  lemma InsertIsSound(ds: Deliveries, endpoints: set<EndpointId>, events: set<EventId>, id: DeliveryId, atMs: int)
    requires Sound(ds, endpoints, events) && id.endpoint in endpoints && id.event in events
    requires id !in ds.rows && id.endpoint.project == id.event.project
    requires Gapless(ds.rows[id := NewDelivery(id.endpoint.project, id, atMs)])
    ensures Sound(Insert(ds, NewDelivery(id.endpoint.project, id, atMs)), endpoints, events)
    ensures Joined(ds.rows, Insert(ds, NewDelivery(id.endpoint.project, id, atMs)).rows)
  {
    hide Gapless, AllLive, WellOrdered, Backed;
    var row := NewDelivery(id.endpoint.project, id, atMs);
    InsertIsOrdered(ds, row);
    InsertIsLive(ds.rows, id, atMs);
    assert Backed(ds.rows[id := row], endpoints, events) by {
      InsertIsBacked(ds.rows, endpoints, events, row);
    }
  }

  lemma OriginalIsGapless(rows: Table, id: DeliveryId, row: Delivery)
    requires Gapless(rows) && id.ordinal == 0
    ensures Gapless(rows[id := row])
  {
  }

  /** One endpoint's share of a fan-out: an original delivery, unless it is there. */
  function Armed(ds: Deliveries, project: string, endpoint: EndpointId, event: EventId, atMs: int): Deliveries {
    var id := DeliveryId(endpoint, event, 0);
    if id in ds.rows then ds else Insert(ds, NewDelivery(project, id, atMs))
  }

  predicate Subscribed(endpoint: Endpoint, project: string, name: EventName) {
    endpoint.projectId == project && (endpoint.events == {} || name in endpoint.events)
  }

  /** The receivers of an event, in registration order. */
  function Receivers(endpoints: map<EndpointId, Endpoint>, registered: seq<EndpointId>, project: string,
      name: EventName): seq<EndpointId>
    requires forall id | id in registered :: id in endpoints
  {
    if registered == [] then []
    else
      var rest := Receivers(endpoints, registered[..|registered| - 1], project, name);
      var id := registered[|registered| - 1];
      if Subscribed(endpoints[id], project, name) then rest + [id] else rest
  }

  function FannedOut(ds: Deliveries, project: string, receivers: seq<EndpointId>, event: EventId,
      atMs: int): Deliveries {
    if receivers == [] then ds
    else Armed(FannedOut(ds, project, receivers[..|receivers| - 1], event, atMs), project, receivers[|receivers| - 1],
               event, atMs)
  }

  lemma JoinedTwice(a: Table, b: Table, c: Table)
    requires Joined(a, b) && Joined(b, c)
    ensures Joined(a, c)
  {
  }

  lemma ArmedIsSound(ds: Deliveries, endpoints: set<EndpointId>, events: set<EventId>, project: string,
      endpoint: EndpointId, event: EventId, atMs: int)
    requires Sound(ds, endpoints, events) && endpoint in endpoints && event in events
    requires endpoint.project == event.project == project
    ensures Sound(Armed(ds, project, endpoint, event, atMs), endpoints, events)
    ensures Joined(ds.rows, Armed(ds, project, endpoint, event, atMs).rows)
    ensures DeliveryId(endpoint, event, 0) in Armed(ds, project, endpoint, event, atMs).rows
  {
    var id := DeliveryId(endpoint, event, 0);
    if id !in ds.rows {
      OriginalIsGapless(ds.rows, id, NewDelivery(project, id, atMs));
      InsertIsSound(ds, endpoints, events, id, atMs);
    }
  }

  lemma FiledEndpoints(endpoints: map<EndpointId, Endpoint>, registered: seq<EndpointId>,
      events: map<EventId, HookEvent>)
    requires Filed(endpoints, registered, events)
    ensures forall id | id in registered :: id in endpoints && endpoints[id].projectId == id.project
  {
  }

  lemma NothingJoined(rows: Table, event: EventId)
    ensures Joined(rows, rows) && FansTo([], rows, [], event)
  {
  }

  /** The rows handed back are the rows on file, in the receivers' order. */
  ghost predicate FansTo(fanned: seq<Delivery>, rows: Table, receivers: seq<EndpointId>, event: EventId) {
    && |fanned| == |receivers|
    && forall k | 0 <= k < |fanned| ::
         DeliveryId(receivers[k], event, 0) in rows && fanned[k] == rows[DeliveryId(receivers[k], event, 0)]
  }

  lemma FanGrows(fanned: seq<Delivery>, rows: Table, rows': Table, receivers: seq<EndpointId>, next: EndpointId,
      event: EventId)
    requires FansTo(fanned, rows, receivers, event) && Joined(rows, rows') && DeliveryId(next, event, 0) in rows'
    ensures FansTo(fanned + [rows'[DeliveryId(next, event, 0)]], rows', receivers + [next], event)
  {
  }

  /** Re-emitting changes nothing. */
  lemma {:induction false} FanOutIsIdempotent(ds: Deliveries, project: string, receivers: seq<EndpointId>,
      event: EventId, atMs: int)
    requires forall k | 0 <= k < |receivers| :: DeliveryId(receivers[k], event, 0) in ds.rows
    ensures FannedOut(ds, project, receivers, event, atMs) == ds
  {
    if receivers != [] {
      FanOutIsIdempotent(ds, project, receivers[..|receivers| - 1], event, atMs);
    }
  }

  /** Who receives an event: every endpoint the project registered for all events or for
      this one. */
  lemma {:induction false} ReceiversAre(endpoints: map<EndpointId, Endpoint>, registered: seq<EndpointId>,
                                        project: string, name: EventName)
    requires forall id | id in registered :: id in endpoints
    ensures forall id :: id in Receivers(endpoints, registered, project, name) <==>
      && id in registered && endpoints[id].projectId == project
      && (endpoints[id].events == {} || name in endpoints[id].events)
  {
    if registered != [] {
      var n := |registered| - 1;
      assert registered == registered[..n] + [registered[n]];
      ReceiversAre(endpoints, registered[..n], project, name);
    }
  }

  /** What a fan-out adds: each receiver's original, pending and due at once, if it had none. */
  lemma {:induction false} FanOutAdds(ds: Deliveries, project: string, receivers: seq<EndpointId>, event: EventId,
                                      atMs: int)
    ensures var rows := FannedOut(ds, project, receivers, event, atMs).rows;
      && (forall id | id in ds.rows :: id in rows && rows[id] == ds.rows[id])
      && (forall id :: id in rows && id !in ds.rows <==>
            id !in ds.rows && id.endpoint in receivers && id == DeliveryId(id.endpoint, event, 0))
      && (forall id | id in rows && id !in ds.rows ::
            rows[id] == Delivery(id, project, Pending, 0, atMs, Some(atMs), None, None, None))
  {
    if receivers != [] {
      var n := |receivers| - 1;
      assert receivers == receivers[..n] + [receivers[n]];
      FanOutAdds(ds, project, receivers[..n], event, atMs);
    }
  }

  class WebhookStore {
    /** The id a delivery goes by, and the structural check a URL must pass. */
    const digest: DeliveryId -> string
    const wellFormed: string -> bool
    var endpoints: map<EndpointId, Endpoint>
    var registered: seq<EndpointId>
    var secrets: map<EndpointId, string>
    var events: map<EventId, HookEvent>
    var deliveries: Deliveries

    constructor (digest: DeliveryId -> string, wellFormed: string -> bool)
      ensures Inv() && deliveries == Deliveries(map[], []) && endpoints == map[] && registered == [] && events == map[]
      ensures this.digest == digest && this.wellFormed == wellFormed
    {
      this.digest, this.wellFormed := digest, wellFormed;
      endpoints, registered, secrets, events := map[], [], map[], map[];
      deliveries := Deliveries(map[], []);
    }

    ghost predicate Inv()
      reads this
    {
      && Filed(endpoints, registered, events) && secrets.Keys == endpoints.Keys
      && Sound(deliveries, endpoints.Keys, events.Keys)
    }

    /** A malformed URL or an unknown event name is refused, and so is a repeat of a
        project's URL; the first secret stays. */
    method RegisterEndpoint(project: string, url: string, names: seq<string>, nowMs: int, entropy: string)
      returns (r: Result<(Endpoint, string)>)
      requires Inv()
      modifies this`endpoints, this`registered, this`secrets
      ensures Inv() && deliveries == old(deliveries)
      ensures r.Err? <==> !wellFormed(url) || ParseEventNames(names).Err? || EndpointId(project, url) in old(endpoints)
      ensures r.Err? ==>
        && r.error == (if !wellFormed(url) || ParseEventNames(names).Err? then ValidationError else ConflictError)
        && endpoints == old(endpoints) && registered == old(registered) && secrets == old(secrets)
      ensures r.Ok? ==>
        var e := Endpoint(EndpointId(project, url), project, url, ParseEventNames(names).value, nowMs);
        && r.value == (e, entropy) && endpoints == old(endpoints)[e.id := e] && registered == old(registered) + [e.id]
        && secrets == old(secrets)[e.id := entropy]
    {
      hide Sound, Filed, ParseEventNames;
      var parsed := ParseEventNames(names);
      if !wellFormed(url) || parsed.Err? {
        return Err(ValidationError);
      }
      var id := EndpointId(project, url);
      if id in endpoints {
        return Err(ConflictError);
      }
      var endpoint := Endpoint(id, project, url, parsed.value, nowMs);
      FiledMore(endpoints, registered, events, deliveries, endpoint);
      endpoints := endpoints[id := endpoint];
      registered := registered + [id];
      secrets := secrets[id := entropy];
      return Ok((endpoint, entropy));
    }

    method GetEndpoint(project: string, id: EndpointId) returns (r: Result<Endpoint>)
      ensures r == if id in endpoints && endpoints[id].projectId == project then Ok(endpoints[id])
        else Err(NotFoundError)
    {
      r := if id in endpoints && endpoints[id].projectId == project then Ok(endpoints[id]) else Err(NotFoundError);
    }

    method GetEvent(project: string, id: EventId) returns (r: Result<HookEvent>)
      ensures r == if id in events && events[id].projectId == project then Ok(events[id]) else Err(NotFoundError)
    {
      r := if id in events && events[id].projectId == project then Ok(events[id]) else Err(NotFoundError);
    }

    method GetDelivery(project: string, id: DeliveryId) returns (r: Result<Delivery>)
      ensures r == Find(project, id)
    {
      r := Find(project, id);
    }

    function Find(project: string, id: DeliveryId): Result<Delivery>
      reads this
    {
      if id in deliveries.rows && deliveries.rows[id].projectId == project then Ok(deliveries.rows[id])
      else Err(NotFoundError)
    }

    /** Record the event and fan it out; a repeat at the same instant hands back the
        rows as they now stand. */
    method Emit(project: string, name: EventName, payload: string, nowMs: int) returns (fanned: seq<Delivery>)
      requires Inv()
      modifies this`events, this`deliveries
      ensures Inv() && Joined(old(deliveries).rows, deliveries.rows)
      ensures EventId(project, name, nowMs, payload) in events
      ensures events == old(events)[EventId(project, name, nowMs, payload) :=
        HookEvent(EventId(project, name, nowMs, payload), project, name, payload, nowMs)]
      ensures forall id | id in registered :: id in endpoints
      ensures var to := Receivers(endpoints, registered, project, name);
        && deliveries == FannedOut(old(deliveries), project, to, EventId(project, name, nowMs, payload), nowMs)
        && FansTo(fanned, deliveries.rows, to, EventId(project, name, nowMs, payload))
    {
      hide Sound, Filed, Joined, FansTo, Armed;
      var event := EventId(project, name, nowMs, payload);
      RecordEvent(event);
      fanned := [];
      FiledEndpoints(endpoints, registered, events);
      NothingJoined(deliveries.rows, event);
      for k := 0 to |registered|
        invariant Inv() && Joined(old(deliveries).rows, deliveries.rows) && event in events
        invariant events == old(events)[event := HookEvent(event, project, name, payload, nowMs)]
        invariant deliveries == FannedOut(old(deliveries), project,
                                          Receivers(endpoints, registered[..k], project, name), event, nowMs)
        invariant FansTo(fanned, deliveries.rows, Receivers(endpoints, registered[..k], project, name), event)
      {
        assert registered[..k + 1][..k] == registered[..k] && registered[k] in registered;
        ghost var to := Receivers(endpoints, registered[..k], project, name);
        if Subscribed(endpoints[registered[k]], project, name) {
          ghost var before := deliveries.rows;
          var row := Arm(project, registered[k], event, nowMs);
          JoinedTwice(old(deliveries).rows, before, deliveries.rows);
          FanGrows(fanned, before, deliveries.rows, to, registered[k], event);
          assert (to + [registered[k]])[..|to|] == to;
          fanned := fanned + [row];
        }
      }
      assert registered[..|registered|] == registered;
    }

    /** `_record_event`. */
    method RecordEvent(id: EventId)
      requires Inv()
      modifies this`events
      ensures Inv() && events == old(events)[id := HookEvent(id, id.project, id.name, id.payload, id.createdAtMs)]
    {
      hide WellOrdered, AllLive, Gapless;
      if id !in events {
        events := events[id := HookEvent(id, id.project, id.name, id.payload, id.createdAtMs)];
      }
    }

    /** One endpoint's turn in a fan-out. */
    method Arm(project: string, endpoint: EndpointId, event: EventId, atMs: int) returns (row: Delivery)
      requires Inv() && endpoint in endpoints && event in events && endpoint.project == event.project == project
      modifies this`deliveries
      ensures Inv() && Joined(old(deliveries).rows, deliveries.rows)
      ensures deliveries == Armed(old(deliveries), project, endpoint, event, atMs)
      ensures DeliveryId(endpoint, event, 0) in deliveries.rows
        && row == deliveries.rows[DeliveryId(endpoint, event, 0)]
    {
      hide Sound, Filed, Joined;
      ArmedIsSound(deliveries, endpoints.Keys, events.Keys, project, endpoint, event, atMs);
      var id := DeliveryId(endpoint, event, 0);
      if id !in deliveries.rows {
        deliveries := Insert(deliveries, NewDelivery(project, id, atMs));
      }
      row := deliveries.rows[id];
    }

    /** Every pending row whose time has come, across projects, earliest first and by id
        within an instant. */
    method Due(nowMs: int) returns (ready: seq<Delivery>)
      requires Inv()
      ensures DueList(digest, deliveries.rows, nowMs, ready)
    {
      hide Filed, Gapless, Backed;
      ready := [];
      for k := 0 to |deliveries.order|
        invariant DueAmong(digest, deliveries, nowMs, ready, k)
      {
        var row := deliveries.rows[deliveries.order[k]];
        NextDue(digest, deliveries, nowMs, ready, k);
        if DueNow(row, nowMs) {
          ready := InsertDue(digest, ready, row);
        }
      }
    }

    method RecordAttempt(project: string, id: DeliveryId, nowMs: int, reply: Reply) returns (r: Result<Delivery>)
      requires Inv()
      modifies this`deliveries
      ensures r == (match old(Find(project, id)) case Ok(d) => Ok(Recorded(d, nowMs, reply)) case Err(e) => Err(e))
      ensures deliveries == if r.Ok? then Deliveries(old(deliveries).rows[id := r.value], old(deliveries).order)
        else old(deliveries)
      // the delivery protocol records attempts of pending rows only
      ensures old(Find(project, id)).Ok? && old(deliveries).rows[id].status == Pending ==> Inv()
    {
      var current := GetDelivery(project, id);
      if current.Err? {
        return Err(current.error);
      }
      hide WellOrdered, AllLive, Gapless, Backed, Filed;
      if current.value.status == Pending {
        RecordIsSound(deliveries, endpoints.Keys, events.Keys, id, nowMs, reply);
      }
      var updated := Recorded(current.value, nowMs, reply);
      deliveries := Deliveries(deliveries.rows[updated.id := updated], deliveries.order);
      return Ok(updated);
    }

    /** A fresh row for the same pair, one past its highest ordinal; the original is
        left as it was. */
    method CreateReplay(project: string, id: DeliveryId, nowMs: int) returns (r: Result<Delivery>)
      requires Inv()
      modifies this`deliveries
      ensures Inv() && Joined(old(deliveries).rows, deliveries.rows)
      ensures r.Ok? <==> old(Find(project, id)).Ok?
      ensures r.Err? ==> r.error == NotFoundError && deliveries == old(deliveries)
      ensures r.Ok? ==> exists ordinal: nat ::
        && r.value == NewDelivery(project, id.(ordinal := ordinal), nowMs)
        && deliveries == Insert(old(deliveries), r.value) && r.value.id !in old(deliveries).rows
        && FirstFree(old(deliveries).rows, id, ordinal)
    {
      hide WellOrdered, AllLive, Gapless, Insert, Joined;
      var original := GetDelivery(project, id);
      if original.Err? {
        NothingJoined(deliveries.rows, id.event);
        return Err(original.error);
      }
      var top := TopOrdinal(id);
      var next := id.(ordinal := top + 1);
      var row := NewDelivery(project, next, nowMs);
      ReplayIsSound(deliveries, endpoints.Keys, events.Keys, id, top, nowMs);
      deliveries := Insert(deliveries, row);
      return Ok(row);
    }

    method TopOrdinal(id: DeliveryId) returns (top: nat)
      requires Inv() && id in deliveries.rows
      ensures id.(ordinal := top) in deliveries.rows
      ensures forall other | other in deliveries.rows && SamePair(other, id) :: other.ordinal <= top
    {
      hide Filed, Gapless, Backed, AllLive;
      top := id.ordinal;
      for k := 0 to |deliveries.order|
        invariant id.(ordinal := top) in deliveries.rows
        invariant forall j | 0 <= j < k && SamePair(deliveries.order[j], id) :: deliveries.order[j].ordinal <= top
        invariant top >= id.ordinal
      {
        var other := deliveries.order[k];
        if other.endpoint == id.endpoint && other.event == id.event && other.ordinal > top {
          top := other.ordinal;
        }
      }
    }

    /** The dead letters of a project, in creation order. */
    method DeadLetters(project: string) returns (dead: seq<DeliveryId>)
      requires Inv()
      ensures dead == DeadOf(deliveries, project, |deliveries.order|)
    {
      hide Filed, Gapless, Backed, AllLive;
      dead := [];
      for k := 0 to |deliveries.order|
        invariant dead == DeadOf(deliveries, project, k)
      {
        var row := deliveries.rows[deliveries.order[k]];
        if row.projectId == project && row.status == DeadLetter {
          dead := dead + [deliveries.order[k]];
        }
      }
    }

    /** `replay_dead_letter`: one new row for each, and every original as it was. */
    method ReplayDeadLetters(project: string, nowMs: int) returns (replayed: seq<Delivery>)
      requires Inv()
      modifies this`deliveries
      ensures Inv() && Joined(old(deliveries).rows, deliveries.rows)
      ensures |replayed| == |DeadOf(old(deliveries), project, |old(deliveries).order|)|
      ensures forall k | 0 <= k < |replayed| ::
        && SamePair(replayed[k].id, DeadOf(old(deliveries), project, |old(deliveries).order|)[k])
        && replayed[k].id !in old(deliveries).rows
        && replayed[k] == NewDelivery(project, replayed[k].id, nowMs)
    {
      hide Sound, Filed, Joined;
      var dead := DeadLetters(project);
      DeadAreOnFile(deliveries, endpoints.Keys, events.Keys, project, |deliveries.order|);
      NothingJoined(deliveries.rows, EventId("", SyncStarted, 0, ""));
      replayed := [];
      for k := 0 to |dead|
        invariant Inv() && Joined(old(deliveries).rows, deliveries.rows) && |replayed| == k
        invariant forall j | 0 <= j < k ::
          && SamePair(replayed[j].id, dead[j]) && replayed[j].id !in old(deliveries).rows
          && replayed[j] == NewDelivery(project, replayed[j].id, nowMs)
      {
        ghost var before := deliveries.rows;
        StillOnFile(old(deliveries).rows, before, dead[k]);
        var row := CreateReplay(project, dead[k], nowMs);
        JoinedTwice(old(deliveries).rows, before, deliveries.rows);
        StillAbsent(old(deliveries).rows, before, row.value.id);
        replayed := replayed + [row.value];
      }
    }
  }

  /** The project's dead letters among the first `n` rows. */
  function DeadOf(ds: Deliveries, project: string, n: nat): seq<DeliveryId>
    requires n <= |ds.order| && forall id | id in ds.order :: id in ds.rows
  {
    if n == 0 then []
    else
      var rest := DeadOf(ds, project, n - 1);
      var row := ds.rows[ds.order[n - 1]];
      if row.projectId == project && row.status == DeadLetter then rest + [ds.order[n - 1]] else rest
  }

  lemma {:induction false} DeadAreOnFile(ds: Deliveries, endpoints: set<EndpointId>, events: set<EventId>,
      project: string, n: nat)
    requires Sound(ds, endpoints, events) && n <= |ds.order|
    ensures forall id | id in DeadOf(ds, project, n) :: id in ds.rows && ds.rows[id].projectId == project
  {
    if n > 0 {
      DeadAreOnFile(ds, endpoints, events, project, n - 1);
    }
  }

  /** A dead letter is a row of the project that ran out of attempts; they are listed in the
      order of creation, `at` being where each stands in it. */
  lemma {:induction false} DeadAre(ds: Deliveries, project: string, n: nat) returns (at: seq<nat>)
    requires n <= |ds.order| && forall id | id in ds.order :: id in ds.rows
    ensures forall id :: id in DeadOf(ds, project, n) <==>
      id in ds.order[..n] && id in ds.rows && ds.rows[id].projectId == project && ds.rows[id].status == DeadLetter
    ensures |at| == |DeadOf(ds, project, n)|
    ensures forall k | 0 <= k < |at| :: at[k] < n && DeadOf(ds, project, n)[k] == ds.order[at[k]]
    ensures forall i, j | 0 <= i < j < |at| :: at[i] < at[j]
  {
    at := [];
    if n > 0 {
      at := DeadAre(ds, project, n - 1);
      assert ds.order[..n] == ds.order[..n - 1] + [ds.order[n - 1]];
      assert ds.order[n - 1] in ds.order;
      var row := ds.rows[ds.order[n - 1]];
      if row.projectId == project && row.status == DeadLetter {
        at := at + [n - 1];
      }
    }
  }

  lemma StillOnFile(rows: Table, rows': Table, id: DeliveryId)
    requires Joined(rows, rows') && id in rows
    ensures id in rows' && rows'[id] == rows[id]
  {
  }

  lemma StillAbsent(rows: Table, rows': Table, id: DeliveryId)
    requires Joined(rows, rows') && id !in rows'
    ensures id !in rows
  {
  }

  lemma RecordIsSound(ds: Deliveries, endpoints: set<EndpointId>, events: set<EventId>, id: DeliveryId,
      nowMs: int, reply: Reply)
    requires Sound(ds, endpoints, events) && id in ds.rows && ds.rows[id].status == Pending
    ensures Sound(Deliveries(ds.rows[id := Recorded(ds.rows[id], nowMs, reply)], ds.order), endpoints, events)
  {
    RecordedKeepsLifecycle(ds.rows[id], nowMs, reply);
  }

  lemma ReplayIsSound(ds: Deliveries, endpoints: set<EndpointId>, events: set<EventId>, id: DeliveryId, top: nat,
      atMs: int)
    requires Sound(ds, endpoints, events) && id in ds.rows && id.(ordinal := top) in ds.rows
    requires forall other | other in ds.rows && SamePair(other, id) :: other.ordinal <= top
    ensures var next := id.(ordinal := top + 1);
      && next !in ds.rows
      && Sound(Insert(ds, NewDelivery(id.endpoint.project, next, atMs)), endpoints, events)
      && Joined(ds.rows, Insert(ds, NewDelivery(id.endpoint.project, next, atMs)).rows)
    ensures id.endpoint.project == ds.rows[id].projectId
    ensures FirstFree(ds.rows, id, top + 1)
  {
    hide Gapless, WellOrdered, AllLive, Joined, Insert, FirstFree;
    var next := id.(ordinal := top + 1);
    NextOrdinalKeepsGapless(ds.rows, id, top, NewDelivery(id.endpoint.project, next, atMs));
    InsertIsSound(ds, endpoints, events, next, atMs);
    TopIsFirstFree(ds.rows, id, top);
  }

  // What is due

  function NextMs(d: Delivery): int {
    if d.nextAttemptAtMs.Some? then d.nextAttemptAtMs.value else 0
  }

  type Digest = DeliveryId -> string

  /** The drain order: by due time, then by id. */
  predicate NoLater(digest: Digest, a: Delivery, b: Delivery) {
    NextMs(a) < NextMs(b) || (NextMs(a) == NextMs(b) && !Precedes(digest(b.id), digest(a.id)))
  }

  lemma NoLaterIsOrder(digest: Digest, a: Delivery, b: Delivery, c: Delivery)
    ensures NoLater(digest, a, b) || NoLater(digest, b, a)
    ensures NoLater(digest, a, b) && NoLater(digest, b, c) ==> NoLater(digest, a, c)
  {
    PrecedesIsOrder(digest(a.id), digest(b.id), digest(a.id));
    PrecedesIsOrder(digest(c.id), digest(a.id), digest(b.id));
    PrecedesIsOrder(digest(b.id), digest(c.id), digest(a.id));
    PrecedesIsOrder(digest(c.id), digest(b.id), digest(a.id));
  }

  ghost predicate InOrder(digest: Digest, list: seq<Delivery>) {
    forall i, j | 0 <= i < j < |list| :: NoLater(digest, list[i], list[j]) && list[i].id != list[j].id
  }

  ghost predicate DueList(digest: Digest, rows: Table, nowMs: int, list: seq<Delivery>) {
    InOrder(digest, list) && forall d :: d in list <==> d.id in rows && rows[d.id] == d && DueNow(d, nowMs)
  }

  /** Due are the pending rows whose next attempt is not in the future, each once, the
      longest waiting first and by id where they wait alike. */
  lemma DueAre(digest: Digest, rows: Table, nowMs: int, list: seq<Delivery>)
    requires DueList(digest, rows, nowMs, list)
    ensures forall d :: d in list <==>
      && d.id in rows && rows[d.id] == d && d.status == Pending
      && d.nextAttemptAtMs.Some? && d.nextAttemptAtMs.value <= nowMs
    ensures forall i, j | 0 <= i < j < |list| ::
      && list[i].id != list[j].id && list[i].nextAttemptAtMs.Some? && list[j].nextAttemptAtMs.Some?
      && list[i].nextAttemptAtMs.value <= list[j].nextAttemptAtMs.value
      && (list[i].nextAttemptAtMs == list[j].nextAttemptAtMs ==> !Precedes(digest(list[j].id), digest(list[i].id)))
  {
    forall i, j | 0 <= i < j < |list|
      ensures list[i].nextAttemptAtMs.Some? && list[j].nextAttemptAtMs.Some?
      ensures list[i].nextAttemptAtMs.value <= list[j].nextAttemptAtMs.value
      ensures list[i].nextAttemptAtMs == list[j].nextAttemptAtMs ==> !Precedes(digest(list[j].id), digest(list[i].id))
    {
      assert list[i] in list && list[j] in list;
    }
  }

  /** The rows due among the first `n`. */
  ghost predicate DueAmong(digest: Digest, ds: Deliveries, nowMs: int, list: seq<Delivery>, n: nat) {
    && n <= |ds.order| && InOrder(digest, list)
    && forall d :: d in list <==> d.id in ds.order[..n] && d.id in ds.rows && ds.rows[d.id] == d && DueNow(d, nowMs)
  }

  function InsertDue(digest: Digest, list: seq<Delivery>, d: Delivery): seq<Delivery> {
    if list == [] || NoLater(digest, list[|list| - 1], d) then list + [d]
    else InsertDue(digest, list[..|list| - 1], d) + [list[|list| - 1]]
  }

  lemma {:induction false} InsertedDue(digest: Digest, list: seq<Delivery>, d: Delivery)
    requires InOrder(digest, list) && forall e | e in list :: e.id != d.id
    ensures InOrder(digest, InsertDue(digest, list, d))
    ensures forall e :: e in InsertDue(digest, list, d) <==> e in list || e == d
  {
    hide InOrder, NoLater;
    if list == [] {
      LaterLast(digest, [], d);
    } else {
      var n := |list| - 1;
      FrontInOrder(digest, list);
      if NoLater(digest, list[n], d) {
        forall e | e in list
          ensures NoLater(digest, e, d)
        {
          NoLaterIsOrder(digest, e, list[n], d);
        }
        LaterLast(digest, list, d);
      } else {
        InsertedDue(digest, list[..n], d);
        NoLaterIsOrder(digest, list[n], d, d);
        LaterLast(digest, InsertDue(digest, list[..n], d), list[n]);
      }
    }
  }

  lemma FrontInOrder(digest: Digest, list: seq<Delivery>)
    requires InOrder(digest, list) && list != []
    ensures var front, last := list[..|list| - 1], list[|list| - 1];
      && InOrder(digest, front) && last in list && list == front + [last]
      && forall e | e in front :: e in list && NoLater(digest, e, last) && e.id != last.id
  {
    hide NoLater;
  }

  lemma LaterLast(digest: Digest, list: seq<Delivery>, last: Delivery)
    requires (list == [] || InOrder(digest, list))
      && forall e | e in list :: NoLater(digest, e, last) && e.id != last.id
    ensures InOrder(digest, list + [last])
  {
    hide NoLater;
  }

  lemma NextDue(digest: Digest, ds: Deliveries, nowMs: int, list: seq<Delivery>, k: nat)
    requires WellOrdered(ds) && AllLive(ds.rows) && k < |ds.order| && DueAmong(digest, ds, nowMs, list, k)
    ensures var row := ds.rows[ds.order[k]];
      DueAmong(digest, ds, nowMs, if DueNow(row, nowMs) then InsertDue(digest, list, row) else list, k + 1)
  {
    hide InOrder, NoLater;
    var id := ds.order[k];
    var row := ds.rows[id];
    assert ds.order[..k + 1] == ds.order[..k] + [id];
    forall d | d in list
      ensures d.id != id
    {
      var j :| 0 <= j < k && ds.order[j] == d.id;
    }
    if DueNow(row, nowMs) {
      InsertedDue(digest, list, row);
    }
  }
}
