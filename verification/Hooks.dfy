/** Webhook deliveries as values: identity, schedule and lifecycle
    (webhooks/models.py, webhooks/deliver.py). */
module Hooks {
  import opened Common

  datatype EventName =
    | ConnectionCreated | ConnectionDeleted | HoldingsUpdated | TransactionsAvailable
    | SyncStarted | SyncFailed | ReorgDetected

  /** `parse_event_name`. */
  function ParseEventName(name: string): Result<EventName> {
    if name == "connection.created" then Ok(ConnectionCreated)
    else if name == "connection.deleted" then Ok(ConnectionDeleted)
    else if name == "holdings.updated" then Ok(HoldingsUpdated)
    else if name == "transactions.available" then Ok(TransactionsAvailable)
    else if name == "sync.started" then Ok(SyncStarted)
    else if name == "sync.failed" then Ok(SyncFailed)
    else if name == "reorg.detected" then Ok(ReorgDetected)
    else Err(ValidationError)
  }

  /** The seven names on the wire. */
  function EventText(name: EventName): string {
    match name
    case ConnectionCreated => "connection.created"
    case ConnectionDeleted => "connection.deleted"
    case HoldingsUpdated => "holdings.updated"
    case TransactionsAvailable => "transactions.available"
    case SyncStarted => "sync.started"
    case SyncFailed => "sync.failed"
    case ReorgDetected => "reorg.detected"
  }

  /** Parsing inverts them, and nothing else parses. */
  lemma ParsesItsText(name: EventName, text: string)
    ensures ParseEventName(EventText(name)) == Ok(name)
    ensures ParseEventName(text).Ok? ==> EventText(ParseEventName(text).value) == text
    ensures ParseEventName(text).Err? ==> ParseEventName(text).error == ValidationError
  {
  }

  /** A subscription list: one unknown name refuses it. */
  function ParseEventNames(names: seq<string>): (r: Result<set<EventName>>)
    ensures r.Ok? <==> forall name | name in names :: ParseEventName(name).Ok?
    ensures r.Err? ==> r.error == ValidationError
    ensures r.Ok? ==> r.value == set name | name in names :: ParseEventName(name).value
  {
    if names == [] then Ok({})
    else
      var rest := ParseEventNames(names[1..]);
      var first := ParseEventName(names[0]);
      assert names == [names[0]] + names[1..];
      if first.Err? then Err(first.error)
      else if rest.Err? then rest
      else Ok({first.value} + rest.value)
  }

  // Ids are digests of exactly these fields, so they are these fields.
  datatype EndpointId = EndpointId(project: string, url: string)

  datatype EventId = EventId(project: string, name: EventName, createdAtMs: int, payload: string)

  datatype DeliveryId = DeliveryId(endpoint: EndpointId, event: EventId, ordinal: nat)

  datatype Endpoint = Endpoint(id: EndpointId, projectId: string, url: string, events: set<EventName>, createdAtMs: int)

  datatype HookEvent = HookEvent(id: EventId, projectId: string, name: EventName, payload: string, createdAtMs: int)

  datatype Status = Pending | Delivered | DeadLetter

  datatype Delivery = Delivery(
    id: DeliveryId, projectId: string, status: Status, attempts: nat, createdAtMs: int,
    nextAttemptAtMs: Option<int>, deliveredAtMs: Option<int>, lastStatusCode: Option<int>, lastError: Option<string>)

  const RETRY_SCHEDULE_MS: seq<int> := [0, 60000, 300000, 1800000, 7200000, 86400000]

  const MAX_ATTEMPTS: nat := |RETRY_SCHEDULE_MS|

  function DueAt(createdAtMs: int, attempt: nat): Option<int> {
    if attempt >= MAX_ATTEMPTS then None else Some(createdAtMs + RETRY_SCHEDULE_MS[attempt])
  }

  /** `_nextdelivery`. */
  function NewDelivery(project: string, id: DeliveryId, atMs: int): Delivery {
    Delivery(id, project, Pending, 0, atMs, Some(atMs), None, None, None)
  }

  /** What a POST comes back with: a status code, or the client's exception. */
  datatype Reply = Answered(code: int) | Failed(error: string)

  predicate Receipt(reply: Reply) {
    reply.Answered? && 200 <= reply.code < 300
  }

  /** The row `record_attempt` stores. */
  function Recorded(d: Delivery, nowMs: int, reply: Reply): Delivery {
    var attempts := d.attempts + 1;
    var next := if Receipt(reply) then None else DueAt(d.createdAtMs, attempts);
    d.(status := if Receipt(reply) then Delivered else if next.None? then DeadLetter else Pending,
       attempts := attempts,
       deliveredAtMs := if Receipt(reply) then Some(nowMs) else d.deliveredAtMs,
       nextAttemptAtMs := next,
       lastStatusCode := if reply.Answered? then Some(reply.code) else None,
       lastError := if reply.Failed? then Some(reply.error) else None)
  }

  /** Where a row can be: pending with its next slot on the schedule, delivered by one
      of six attempts, or dead after all six. */
  predicate Lifecycle(d: Delivery) {
    match d.status
    case Pending =>
      && d.attempts < MAX_ATTEMPTS
      && d.nextAttemptAtMs == Some(d.createdAtMs + RETRY_SCHEDULE_MS[d.attempts]) && d.deliveredAtMs.None?
    case Delivered => 1 <= d.attempts <= MAX_ATTEMPTS && d.nextAttemptAtMs.None? && d.deliveredAtMs.Some?
    case DeadLetter => d.attempts == MAX_ATTEMPTS && d.nextAttemptAtMs.None? && d.deliveredAtMs.None?
  }

  /** Recording an attempt of a pending row keeps it in its lifecycle, finishing it on
      a receipt or at the sixth failure. */
  lemma RecordedKeepsLifecycle(d: Delivery, nowMs: int, reply: Reply)
    requires Lifecycle(d) && d.status == Pending
    ensures Lifecycle(Recorded(d, nowMs, reply))
    ensures Recorded(d, nowMs, reply).status == Delivered <==> reply.Answered? && 200 <= reply.code <= 299
    ensures Recorded(d, nowMs, reply).attempts == d.attempts + 1
    ensures Recorded(d, nowMs, reply).status == Delivered ==> Recorded(d, nowMs, reply).deliveredAtMs == Some(nowMs)
    ensures Recorded(d, nowMs, reply).status == DeadLetter <==>
      !(reply.Answered? && 200 <= reply.code <= 299) && d.attempts == 5
    ensures match reply
      case Answered(code) => Recorded(d, nowMs, reply).lastStatusCode == Some(code)
      case Failed(_) => Recorded(d, nowMs, reply).lastStatusCode == None
    ensures match reply
      case Answered(_) => Recorded(d, nowMs, reply).lastError == None
      case Failed(error) => Recorded(d, nowMs, reply).lastError == Some(error)
    ensures Recorded(d, nowMs, reply).id == d.id && Recorded(d, nowMs, reply).projectId == d.projectId
    ensures Recorded(d, nowMs, reply).createdAtMs == d.createdAtMs
  {
  }

  /** A pending row that has failed so many times is due again so long after it was created:
      at once, then after a minute, five, half an hour, two hours and a day. */
  lemma ScheduleIs(d: Delivery)
    requires Lifecycle(d) && d.status == Pending
    ensures d.nextAttemptAtMs.Some?
    ensures var minutes := (d.nextAttemptAtMs.value - d.createdAtMs) / 60000;
      && d.nextAttemptAtMs.value == d.createdAtMs + minutes * 60000
      && (match d.attempts
          case 0 => minutes == 0
          case 1 => minutes == 1
          case 2 => minutes == 5
          case 3 => minutes == 30
          case 4 => minutes == 120
          case 5 => minutes == 1440
          case _ => false)
  {
  }

  /** On a finished row the same call leaves the lifecycle unless it is a further
      receipt within the six attempts: the protocol never makes it. */
  lemma RecordingFinishedRows(d: Delivery, nowMs: int, reply: Reply)
    requires Lifecycle(d) && d.status != Pending
    ensures Lifecycle(Recorded(d, nowMs, reply)) <==>
      reply.Answered? && 200 <= reply.code <= 299 && d.attempts < MAX_ATTEMPTS
  {
  }

  predicate DueNow(d: Delivery, nowMs: int) {
    d.status == Pending && d.nextAttemptAtMs.Some? && d.nextAttemptAtMs.value <= nowMs
  }

  type Table = map<DeliveryId, Delivery>

  predicate AllLive(rows: Table) {
    forall id | id in rows :: rows[id].id == id && Lifecycle(rows[id])
  }

  /** What one tick does to the rows, whatever the receivers answer. */
  ghost predicate Ticked(rows: Table, rows': Table, nowMs: int) {
    && rows.Keys == rows'.Keys
    && (forall id | id in rows :: TickedRow(rows[id], rows'[id], nowMs))
  }

  ghost predicate TickedRow(d: Delivery, d': Delivery, nowMs: int) {
    if DueNow(d, nowMs) then exists reply :: d' == Recorded(d, nowMs, reply) else d' == d
  }

  /** Ticks at one instant: a row still due after `n` of them has `n` attempts behind it. */
  lemma {:induction false} StillDue(history: seq<Table>, nowMs: int, n: nat, id: DeliveryId)
    requires n < |history| && AllLive(history[0]) && forall k | 0 <= k < n :: Ticked(history[k], history[k + 1], nowMs)
    requires id in history[n]
    ensures id in history[0] && Lifecycle(history[n][id])
    ensures DueNow(history[n][id], nowMs) ==> history[n][id].attempts >= n
  {
    if n > 0 {
      assert Ticked(history[n - 1], history[n], nowMs);
      assert id in history[n - 1];
      StillDue(history, nowMs, n - 1, id);
      assert TickedRow(history[n - 1][id], history[n][id], nowMs);
    }
  }

  /** So six ticks at one instant leave nothing due. */
  lemma SixTicksDrain(history: seq<Table>, nowMs: int)
    requires |history| == MAX_ATTEMPTS + 1 && AllLive(history[0])
    requires forall k | 0 <= k < MAX_ATTEMPTS :: Ticked(history[k], history[k + 1], nowMs)
    ensures forall id | id in history[MAX_ATTEMPTS] :: !DueNow(history[MAX_ATTEMPTS][id], nowMs)
  {
    forall id | id in history[MAX_ATTEMPTS]
      ensures !DueNow(history[MAX_ATTEMPTS][id], nowMs)
    {
      StillDue(history, nowMs, MAX_ATTEMPTS, id);
    }
  }

  /** The signed body: five fields, and no attempt counter. */
  datatype Body = Body(createdAtMs: int, payload: string, deliveryId: DeliveryId, eventId: EventId, kind: EventName)

  function DeliveryBody(event: HookEvent, id: DeliveryId): Body {
    Body(event.createdAtMs, event.payload, id, event.id, event.name)
  }

  /** Replays of a pair are numbered from its original on, without a gap. */
  ghost predicate Gapless(rows: Table) {
    forall id | id in rows :: forall k: nat | k < id.ordinal :: DeliveryId(id.endpoint, id.event, k) in rows
  }

  ghost predicate SamePair(a: DeliveryId, b: DeliveryId) {
    a.endpoint == b.endpoint && a.event == b.event
  }

  /** The pair's rows are those below `ordinal`. */
  ghost predicate FirstFree(rows: Table, id: DeliveryId, ordinal: nat) {
    forall k: nat :: id.(ordinal := k) in rows <==> k < ordinal
  }

  lemma TopIsFirstFree(rows: Table, id: DeliveryId, top: nat)
    requires Gapless(rows) && id.(ordinal := top) in rows
    requires forall other | other in rows && SamePair(other, id) :: other.ordinal <= top
    ensures FirstFree(rows, id, top + 1)
  {
    var last := id.(ordinal := top);
    forall k: nat
      ensures id.(ordinal := k) in rows <==> k < top + 1
    {
      assert SamePair(id.(ordinal := k), id);
      assert k < last.ordinal ==> DeliveryId(last.endpoint, last.event, k) in rows;
      assert DeliveryId(last.endpoint, last.event, k) == id.(ordinal := k);
    }
  }

  lemma BelowFirstFree(rows: Table, id: DeliveryId, ordinal: nat)
    requires id in rows && FirstFree(rows, id, ordinal)
    ensures ordinal > 0 && id.(ordinal := ordinal - 1) in rows
    ensures forall other | other in rows && SamePair(other, id) :: other.ordinal <= ordinal - 1
  {
    assert id.(ordinal := id.ordinal) in rows;
    forall other | other in rows && SamePair(other, id)
      ensures other.ordinal <= ordinal - 1
    {
      assert id.(ordinal := other.ordinal) == other;
    }
  }

  lemma NextOrdinalKeepsGapless(rows: Table, id: DeliveryId, top: nat, row: Delivery)
    requires Gapless(rows) && id in rows && id.(ordinal := top) in rows
    requires forall other | other in rows && SamePair(other, id) :: other.ordinal <= top
    ensures id.(ordinal := top + 1) !in rows
    ensures Gapless(rows[id.(ordinal := top + 1) := row])
  {
    var next := id.(ordinal := top + 1);
    if next in rows {
      assert SamePair(next, id);
    }
    forall k: nat | k < next.ordinal
      ensures DeliveryId(next.endpoint, next.event, k) in rows
    {
      assert DeliveryId(next.endpoint, next.event, top) == id.(ordinal := top);
    }
  }
}
