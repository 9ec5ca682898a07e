/** The host-scheduled drain (webhooks/deliver.py `Deliverer`). */
module Deliverers {
  import opened Common
  import opened Hooks
  import opened Webhooks

  /** An HMAC over exactly these. */
  datatype Signature = Signature(secret: string, timestampMs: int, body: Body)

  datatype Post = Post(url: string, deliveryId: DeliveryId, body: Body, signature: Signature)

  /** The host's HTTP client: whatever it answers, and every request it was handed. */
  class Client {
    const answer: nat -> Reply
    var log: seq<Post>

    constructor (answer: nat -> Reply)
      ensures log == []
    {
      this.answer := answer;
      log := [];
    }

    method Send(post: Post) returns (reply: Reply)
      modifies this
      ensures log == old(log) + [post] && reply == answer(|old(log)|)
    {
      reply := answer(|log|);
      log := log + [post];
    }
  }

  /** How often each delivery has been posted. */
  function Sent(log: seq<Post>): multiset<DeliveryId> {
    if log == [] then multiset{} else Sent(log[..|log| - 1]) + multiset{log[|log| - 1].deliveryId}
  }

  /** Every row has been posted once per attempt it counts, and nothing else has. */
  ghost predicate Counted(log: seq<Post>, rows: Table) {
    && (forall id | id in rows :: Sent(log)[id] == rows[id].attempts)
    && (forall id | id !in rows :: Sent(log)[id] == 0)
  }

  /** Every request went to the delivery's own endpoint with the one body its event
      and its id determine. */
  ghost predicate Faithful(log: seq<Post>, events: map<EventId, HookEvent>) {
    forall k | 0 <= k < |log| ::
      var id := log[k].deliveryId;
      && log[k].url == id.endpoint.url && id.event in events
      && var event := events[id.event];
      && log[k].body == Body(event.createdAtMs, event.payload, id, event.id, event.name)
      && log[k].signature.body == log[k].body
  }

  lemma SentOnceMore(log: seq<Post>, post: Post)
    ensures Sent(log + [post]) == Sent(log) + multiset{post.deliveryId}
  {
    assert (log + [post])[..|log|] == log;
  }

  /** Emitting and replaying post nothing: what was posted still accounts for every row. */
  lemma StoreMovesKeepPosts(log: seq<Post>, rows: Table, rows': Table, endpoints: map<EndpointId, Endpoint>,
                            registered: seq<EndpointId>, events: map<EventId, HookEvent>, e: EventId)
    requires Counted(log, rows) && Faithful(log, events) && Filed(endpoints, registered, events) && Joined(rows, rows')
    ensures Counted(log, rows')
    ensures Faithful(log, events[e := HookEvent(e, e.project, e.name, e.payload, e.createdAtMs)])
  {
  }

  /** A retry is byte-identical: two posts of a delivery differ at most in when they
      were signed; a replay's body differs from its original's in the id alone. */
  lemma RetriesAreIdentical(log: seq<Post>, events: map<EventId, HookEvent>, i: nat, j: nat)
    requires Faithful(log, events) && i < |log| && j < |log|
    ensures log[i].deliveryId == log[j].deliveryId ==> log[i].url == log[j].url && log[i].body == log[j].body
    ensures SamePair(log[i].deliveryId, log[j].deliveryId) ==>
      log[i].url == log[j].url && log[i].body.(deliveryId := log[j].deliveryId) == log[j].body
  {
  }

  /** The rows part-way through a drain: those before `k` recorded, the rest as they were. */
  ghost predicate Midway(rows: Table, rows': Table, ready: seq<Delivery>, k: nat, nowMs: int) {
    && k <= |ready| && rows.Keys == rows'.Keys
    && (forall id | id in rows ::
          if Among(ready, k, id) then TickedRow(rows[id], rows'[id], nowMs) else rows'[id] == rows[id])
  }

  ghost predicate Among(ready: seq<Delivery>, k: nat, id: DeliveryId)
    requires k <= |ready|
  {
    exists j :: 0 <= j < k && ready[j].id == id
  }

  lemma NotYet(digest: Digest, rows: Table, rows': Table, ready: seq<Delivery>, k: nat, nowMs: int)
    requires Midway(rows, rows', ready, k, nowMs) && DueList(digest, rows, nowMs, ready) && k < |ready|
    ensures ready[k].id in rows' && rows'[ready[k].id] == ready[k] && DueNow(ready[k], nowMs)
  {
    assert ready[k] in ready;
  }

  lemma OneMore(digest: Digest, rows: Table, rows': Table, ready: seq<Delivery>, k: nat, nowMs: int, reply: Reply)
    requires Midway(rows, rows', ready, k, nowMs) && DueList(digest, rows, nowMs, ready) && k < |ready|
    ensures Midway(rows, rows'[ready[k].id := Recorded(ready[k], nowMs, reply)], ready, k + 1, nowMs)
  {
    hide Recorded, InOrder;
    NotYet(digest, rows, rows', ready, k, nowMs);
    assert ready[k] in ready;
    var d := ready[k];
    assert rows[d.id] == d;
    var next := rows'[d.id := Recorded(d, nowMs, reply)];
    assert TickedRow(rows[d.id], next[d.id], nowMs);
    forall id | id in rows
      ensures if Among(ready, k + 1, id) then TickedRow(rows[id], next[id], nowMs) else next[id] == rows[id]
    {
      assert Among(ready, k + 1, id) <==> Among(ready, k, id) || id == d.id;
    }
  }

  lemma AllDone(digest: Digest, rows: Table, rows': Table, ready: seq<Delivery>, nowMs: int)
    requires Midway(rows, rows', ready, |ready|, nowMs) && DueList(digest, rows, nowMs, ready)
    requires forall id | id in rows :: rows[id].id == id
    ensures Ticked(rows, rows', nowMs)
  {
    forall id | id in rows
      ensures TickedRow(rows[id], rows'[id], nowMs)
    {
      if DueNow(rows[id], nowMs) {
        assert rows[id] in ready;
      }
    }
  }

  /** The store's dictionaries and the requests made so far, as one value. */
  datatype World = World(
    endpoints: map<EndpointId, Endpoint>, registered: seq<EndpointId>, secrets: map<EndpointId, string>,
    events: map<EventId, HookEvent>, ds: Deliveries, log: seq<Post>)

  /** Endpoint, secret and event of a delivery are on file. */
  predicate OnRecord(w: World, id: DeliveryId) {
    id.endpoint in w.endpoints && id.endpoint in w.secrets && id.event in w.events
  }

  /** The request for a delivery. */
  function PostFor(w: World, id: DeliveryId, nowMs: int): Post
    requires OnRecord(w, id)
  {
    var body := DeliveryBody(w.events[id.event], id);
    Post(w.endpoints[id.endpoint].url, id, body, Signature(w.secrets[id.endpoint], nowMs, body))
  }

  /** One attempt: its request sent, and the answer recorded. */
  function Attempted(w: World, d: Delivery, nowMs: int, answer: nat -> Reply): World {
    if !OnRecord(w, d.id) then w
    else
      w.(ds := Deliveries(w.ds.rows[d.id := Recorded(d, nowMs, answer(|w.log|))], w.ds.order),
         log := w.log + [PostFor(w, d.id, nowMs)])
  }

  /** The attempts of a drain, one after another. */
  function Drained(w: World, ready: seq<Delivery>, nowMs: int, answer: nat -> Reply): World {
    if ready == [] then w
    else Attempted(Drained(w, ready[..|ready| - 1], nowMs, answer), ready[|ready| - 1], nowMs, answer)
  }

  /** A drain posts each due row once, in order: to its endpoint, the body its event and id
      determine, signed at that instant with the endpoint's secret; and it records on the row
      what that very post was answered. */
  lemma {:induction false} DrainPosts(w: World, ready: seq<Delivery>, nowMs: int, answer: nat -> Reply, k: nat)
    requires forall j | 0 <= j < |ready| :: OnRecord(w, ready[j].id)
    requires forall i, j | 0 <= i < j < |ready| :: ready[i].id != ready[j].id
    requires k < |ready|
    ensures var w', d := Drained(w, ready, nowMs, answer), ready[k];
      && DrainedLog(w, w', |ready|)
      && PostIs(w'.log[|w.log| + k], w, d.id, nowMs)
      && d.id in w'.ds.rows && RecordIs(w'.ds.rows[d.id], d, nowMs, answer(|w.log| + k))
  {
    hide OnRecord, PostIs, RecordIs, Drained, Attempted;
    var n := |ready| - 1;
    DrainStep(w, ready, nowMs, answer);
    DrainFiles(w, ready[..n], nowMs, answer);
    DrainFiles(w, ready, nowMs, answer);
    var before, after := Drained(w, ready[..n], nowMs, answer), Drained(w, ready, nowMs, answer);
    assert DrainedLog(w, before, n);
    if k < n {
      DrainPosts(w, ready[..n], nowMs, answer, k);
      AttemptIs(before, ready[n], nowMs, answer);
      assert after.log[..|before.log|][|w.log| + k] == before.log[|w.log| + k];
    } else {
      AttemptIs(before, ready[n], nowMs, answer);
      SameOnFile(w, before, ready[n].id, nowMs);
    }
  }

  lemma DrainStep(w: World, ready: seq<Delivery>, nowMs: int, answer: nat -> Reply)
    requires ready != []
    ensures Drained(w, ready, nowMs, answer)
         == Attempted(Drained(w, ready[..|ready| - 1], nowMs, answer), ready[|ready| - 1], nowMs, answer)
  {
  }

  ghost predicate DrainedLog(w: World, w': World, n: nat) {
    |w'.log| == |w.log| + n && w'.log[..|w.log|] == w.log
  }

  ghost predicate PostIs(post: Post, w: World, id: DeliveryId, nowMs: int)
    requires OnRecord(w, id)
  {
    var event := w.events[id.event];
    && post.url == w.endpoints[id.endpoint].url && post.deliveryId == id
    && post.body == Body(event.createdAtMs, event.payload, id, event.id, event.name)
    && post.signature == Signature(w.secrets[id.endpoint], nowMs, post.body)
  }

  ghost predicate RecordIs(d': Delivery, d: Delivery, nowMs: int, reply: Reply) {
    && d'.attempts == d.attempts + 1
    && (d'.status == Delivered <==> reply.Answered? && 200 <= reply.code <= 299)
    && (d'.status == Delivered ==> d'.deliveredAtMs == Some(nowMs))
    && (match reply
        case Answered(code) => d'.lastStatusCode == Some(code) && d'.lastError == None
        case Failed(error) => d'.lastStatusCode == None && d'.lastError == Some(error))
  }

  /** Draining files nothing new: endpoints, secrets and events stay. */
  lemma {:induction false} DrainFiles(w: World, ready: seq<Delivery>, nowMs: int, answer: nat -> Reply)
    ensures var w' := Drained(w, ready, nowMs, answer);
      && w'.endpoints == w.endpoints && w'.secrets == w.secrets && w'.events == w.events
      && (forall id :: OnRecord(w', id) <==> OnRecord(w, id))
      && ((forall j | 0 <= j < |ready| :: OnRecord(w, ready[j].id)) ==> DrainedLog(w, w', |ready|))
  {
    hide Recorded, PostFor;
    if ready != [] {
      var before := Drained(w, ready[..|ready| - 1], nowMs, answer);
      DrainFiles(w, ready[..|ready| - 1], nowMs, answer);
      if forall j | 0 <= j < |ready| :: OnRecord(w, ready[j].id) {
        assert DrainedLog(w, before, |ready| - 1);
      }
    }
  }

  lemma AttemptIs(w: World, d: Delivery, nowMs: int, answer: nat -> Reply)
    requires OnRecord(w, d.id)
    ensures var w' := Attempted(w, d, nowMs, answer);
      && DrainedLog(w, w', 1) && PostIs(w'.log[|w.log|], w, d.id, nowMs)
      && d.id in w'.ds.rows && RecordIs(w'.ds.rows[d.id], d, nowMs, answer(|w.log|))
      && (forall id | id in w.ds.rows && id != d.id :: id in w'.ds.rows && w'.ds.rows[id] == w.ds.rows[id])
  {
  }

  lemma SameOnFile(w: World, w': World, id: DeliveryId, nowMs: int)
    requires OnRecord(w, id) && w'.endpoints == w.endpoints && w'.secrets == w.secrets && w'.events == w.events
    ensures OnRecord(w', id) && forall post :: PostIs(post, w', id, nowMs) <==> PostIs(post, w, id, nowMs)
  {
  }

  class Deliverer {
    const store: WebhookStore
    const client: Client

    constructor (store: WebhookStore, client: Client)
      ensures this.store == store && this.client == client
    {
      this.store, this.client := store, client;
    }

    function View(): World
      reads store, client
    {
      World(store.endpoints, store.registered, store.secrets, store.events, store.deliveries, client.log)
    }

    ghost predicate Inv()
      reads store, client
    {
      store.Inv() && Counted(client.log, store.deliveries.rows) && Faithful(client.log, store.events)
    }

    /** `_attempt`: the lookups it makes cannot fail. */
    method Attempt(d: Delivery, nowMs: int) returns (updated: Delivery)
      requires Inv() && d.status == Pending && d.id in store.deliveries.rows && store.deliveries.rows[d.id] == d
      modifies store`deliveries, client
      ensures Inv()
      ensures store.deliveries == Deliveries(old(store.deliveries).rows[d.id := updated], old(store.deliveries).order)
      ensures updated == Recorded(d, nowMs, client.answer(|old(client.log)|))
      ensures |client.log| == |old(client.log)| + 1
      ensures OnRecord(old(View()), d.id) && View() == Attempted(old(View()), d, nowMs, client.answer)
    {
      hide Recorded, Faithful, Counted, WellOrdered, AllLive, Gapless;
      OnFile(store.deliveries, store.endpoints, store.registered, store.events, d);
      var endpoint := store.GetEndpoint(d.projectId, d.id.endpoint);
      var event := store.GetEvent(d.projectId, d.id.event);
      assert endpoint.Ok? && event.Ok?;
      var secret := store.secrets[d.id.endpoint];
      var body := DeliveryBody(event.value, d.id);
      var post := Post(endpoint.value.url, d.id, body, Signature(secret, nowMs, body));
      var reply := client.Send(post);
      var recorded := store.RecordAttempt(d.projectId, d.id, nowMs, reply);
      updated := recorded.value;
      PostedOnce(old(client.log), old(store.deliveries).rows, store.events, post, nowMs, reply);
    }

    /** `tick`: every due row is attempted once, nothing else moves, no lookup fails. */
    method Tick(nowMs: int) returns (updated: seq<Delivery>)
      requires Inv()
      modifies store`deliveries, client
      ensures Inv()
      ensures Ticked(old(store.deliveries).rows, store.deliveries.rows, nowMs)
      // one request per due row, in due order, and none when nothing is due
      ensures |client.log| == |old(client.log)| + |updated|
      ensures exists ready: seq<Delivery> ::
        && DueList(store.digest, old(store.deliveries).rows, nowMs, ready) && SameIds(updated, ready)
        && View() == Drained(old(View()), ready, nowMs, client.answer)
    {
      hide Recorded, Sound, Filed, Counted, Faithful, Midway, DueList, TickedRow, Attempted;
      var ready := store.Due(nowMs);
      updated := [];
      ghost var rows := store.deliveries.rows;
      StartsMidway(rows, ready, nowMs);
      RowsUnderTheirIds(store.deliveries, store.endpoints.Keys, store.events.Keys);
      for k := 0 to |ready|
        invariant Inv() && Midway(rows, store.deliveries.rows, ready, k, nowMs) && |updated| == k
        invariant |client.log| == |old(client.log)| + k
        invariant SameIds(updated, ready[..k])
        invariant View() == Drained(old(View()), ready[..k], nowMs, client.answer)
      {
        assert ready[..k + 1][..k] == ready[..k];
        ghost var before := store.deliveries.rows;
        NotYet(store.digest, rows, before, ready, k, nowMs);
        var d := Attempt(ready[k], nowMs);
        ghost var reply := client.answer(|client.log| - 1);
        OneMore(store.digest, rows, before, ready, k, nowMs, reply);
        RecordedKeepsId(ready[k], nowMs, reply);
        updated := updated + [d];
      }
      AllDone(store.digest, rows, store.deliveries.rows, ready, nowMs);
      assert ready[..|ready|] == ready;
    }
  }

  ghost predicate SameIds(a: seq<Delivery>, b: seq<Delivery>) {
    |a| == |b| && forall k | 0 <= k < |a| :: a[k].id == b[k].id
  }

  lemma StartsMidway(rows: Table, ready: seq<Delivery>, nowMs: int)
    ensures Midway(rows, rows, ready, 0, nowMs)
  {
  }

  lemma RecordedKeepsId(d: Delivery, nowMs: int, reply: Reply)
    ensures Recorded(d, nowMs, reply).id == d.id
  {
  }

  lemma RowsUnderTheirIds(ds: Deliveries, endpoints: set<EndpointId>, events: set<EventId>)
    requires Sound(ds, endpoints, events)
    ensures forall id | id in ds.rows :: ds.rows[id].id == id
  {
  }

  lemma OnFile(ds: Deliveries, endpoints: map<EndpointId, Endpoint>, registered: seq<EndpointId>,
      events: map<EventId, HookEvent>, d: Delivery)
    requires Sound(ds, endpoints.Keys, events.Keys) && Filed(endpoints, registered, events)
    requires d.id in ds.rows && ds.rows[d.id] == d
    ensures d.id.endpoint in endpoints && endpoints[d.id.endpoint].projectId == d.projectId
    ensures endpoints[d.id.endpoint].url == d.id.endpoint.url
    ensures d.id.event in events && events[d.id.event].projectId == d.projectId
  {
  }

  lemma PostedFaithfully(log: seq<Post>, events: map<EventId, HookEvent>, post: Post)
    requires Faithful(log, events) && post.url == post.deliveryId.endpoint.url && post.deliveryId.event in events
    requires post.body == DeliveryBody(events[post.deliveryId.event], post.deliveryId)
      && post.signature.body == post.body
    ensures Faithful(log + [post], events)
  {
  }

  lemma PostedOnce(log: seq<Post>, rows: Table, events: map<EventId, HookEvent>, post: Post, nowMs: int, reply: Reply)
    requires Counted(log, rows) && Faithful(log, events) && post.deliveryId in rows
    requires post.url == post.deliveryId.endpoint.url && post.deliveryId.event in events
    requires post.body == DeliveryBody(events[post.deliveryId.event], post.deliveryId)
      && post.signature.body == post.body
    ensures Counted(log + [post], rows[post.deliveryId := Recorded(rows[post.deliveryId], nowMs, reply)])
    ensures Faithful(log + [post], events)
  {
    hide Faithful;
    SentOnceMore(log, post);
    assert Faithful(log + [post], events) by {
      PostedFaithfully(log, events, post);
    }
  }
}
