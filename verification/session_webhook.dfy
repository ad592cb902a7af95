/** The in-memory CloudEvents webhook (`webhook_server.py`).

    The state is the store of the latest record per service id, kept in
    the insertion order of a Python `dict`, and the set of event ids
    already processed. Ingestion passes an event through four gates in a
    fixed order: the event type must be the conversation-message type; the
    event id must not have been processed; the id is then marked as
    processed; the message must be of data type "text". Only an event that
    passes all four overwrites the record of its service id.

    The HTTP layer has already validated the envelope, so an event is a
    well-formed `CloudEventMessage`. The receive timestamp is a parameter.
 */
module SessionWebhook {
  import opened JsonTree

  /** The only event type that is stored. */
  const MessageEventType: string := "amber.service:conversation:message"

  /** The only message data type that is stored. */
  const TextDataType: string := "text"

  /** Reason given when an event id has been seen before. */
  const DuplicateReason: string := "duplicate event"

  /** Backend name in the success reply. */
  const Backend: string := "legacy"

  /** Default and bounds of the `limit` query parameter of the listing. */
  const DefaultListLimit: int := 50
  const MinListLimit: int := 1
  const MaxListLimit: int := 500

  // ---------------------------------------------------------------------
  // Data
  // ---------------------------------------------------------------------

  /** `MessageData`: the `data` part of the envelope. */
  datatype MessageData = MessageData(
    id: string,
    dataType: string,
    createdAt: string,
    sentAt: string,
    sentBy: string,
    serviceId: string,
    text: Option<string>)

  /** `CloudEventMessage`: the envelope. */
  datatype CloudEventMessage = CloudEventMessage(
    specversion: string,
    id: string,
    eventType: string,
    source: string,
    subject: string,
    time: string,
    datacontenttype: string,
    data: MessageData)

  /** The record stored per service id, with the raw envelope attached. */
  datatype Record = Record(
    serviceId: string,
    eventId: string,
    messageId: string,
    text: string,
    sentBy: string,
    createdAt: string,
    sentAt: string,
    receivedAt: string,
    raw: CloudEventMessage)

  /** `WEBHOOK_STORE` (its mapping and its key order) and
      `PROCESSED_EVENT_IDS`. */
  datatype State = State(store: map<string, Record>, order: seq<string>, processed: set<string>)

  const Initial: State := State(map[], [], {})

  /** The key order lists every stored key exactly once. */
  ghost predicate Valid(s: State) {
    && NoDup(s.order)
    && forall k :: k in s.order <==> k in s.store
  }

  /** `r` is `xs` with `key` taken out: exactly the other elements remain;
      a duplicate-free sequence stays duplicate-free; an absent key changes
      nothing; and in a duplicate-free sequence the key's one position is
      cut out, the rest keeping their order. */
  ghost predicate IsWithout(xs: seq<string>, key: string, r: seq<string>) {
    && (forall x :: x in r <==> x in xs && x != key)
    && (NoDup(xs) ==> NoDup(r))
    && (key !in xs ==> r == xs)
    && (NoDup(xs) && key in xs ==>
          exists i :: 0 <= i < |xs| && xs[i] == key && r == xs[..i] + xs[i + 1..])
  }

  /** When the head is the key, dropping it from the tail's answer is the
      answer for the whole sequence. */
  lemma WithoutAtHead(xs: seq<string>, key: string, rest: seq<string>)
    requires |xs| > 0 && xs[0] == key
    requires IsWithout(xs[1..], key, rest)
    ensures IsWithout(xs, key, rest)
  {
    assert xs == [xs[0]] + xs[1..];
    if NoDup(xs) {
      NoDupTail(xs);
      assert rest == xs[..0] + xs[0 + 1..];
    }
  }

  lemma ConsMembers(xs: seq<string>, key: string, rest: seq<string>)
    requires |xs| > 0 && xs[0] != key
    requires forall x :: x in rest <==> x in xs[1..] && x != key
    ensures forall x :: x in [xs[0]] + rest <==> x in xs && x != key
  {
    assert xs == [xs[0]] + xs[1..];
  }

  lemma ConsNoDup(xs: seq<string>, rest: seq<string>)
    requires |xs| > 0 && NoDup(xs) && NoDup(rest)
    requires forall x :: x in rest ==> x in xs[1..]
    ensures NoDup([xs[0]] + rest)
  {
    NoDupTail(xs);
    var r := [xs[0]] + rest;
    forall i, j | 0 <= i < j < |r| ensures r[i] != r[j] {
      assert r[j] == rest[j - 1];
      if i > 0 {
        assert r[i] == rest[i - 1];
      }
    }
  }

  lemma ConsCut(xs: seq<string>, key: string, rest: seq<string>, j: int)
    requires 0 <= j < |xs| - 1 && xs[1..][j] == key
    requires rest == xs[1..][..j] + xs[1..][j + 1..]
    ensures xs[j + 1] == key && [xs[0]] + rest == xs[..j + 1] + xs[j + 1 + 1..]
  {
    assert [xs[0]] + xs[1..][..j] == xs[..j + 1];
    assert xs[1..][j + 1..] == xs[j + 1 + 1..];
  }

  /** When the head is another key, keeping it in front of the tail's
      answer is the answer for the whole sequence. */
  lemma WithoutPastHead(xs: seq<string>, key: string, rest: seq<string>)
    requires |xs| > 0 && xs[0] != key
    requires IsWithout(xs[1..], key, rest)
    ensures IsWithout(xs, key, [xs[0]] + rest)
  {
    var tail := xs[1..];
    ConsMembers(xs, key, rest);
    if key !in xs {
      assert key !in tail;
      assert xs == [xs[0]] + tail;
    }
    if NoDup(xs) {
      NoDupTail(xs);
      ConsNoDup(xs, rest);
      if key in xs {
        assert key in tail;
        var j :| 0 <= j < |tail| && tail[j] == key && rest == tail[..j] + tail[j + 1..];
        ConsCut(xs, key, rest, j);
      }
    }
  }

  /** `xs` with `key` taken out, the rest in its original order. */
  function Without(xs: seq<string>, key: string): (r: seq<string>)
    ensures IsWithout(xs, key, r)
  {
    if |xs| == 0 then []
    else
      var rest := Without(xs[1..], key);
      if xs[0] == key then
        WithoutAtHead(xs, key, rest);
        rest
      else
        WithoutPastHead(xs, key, rest);
        [xs[0]] + rest
  }

  /** `d[key] = rec` on a dict: a new key goes to the end, an existing key
      keeps its place. */
  function Assign(s: State, key: string, rec: Record): State {
    State(s.store[key := rec], if key in s.store then s.order else s.order + [key], s.processed)
  }

  // ---------------------------------------------------------------------
  // Ingestion
  // ---------------------------------------------------------------------

  /** Reply of `tech4_webhook`: `{"status": "ok", "backend": ...}` or
      `{"status": "ignored"}`, the latter with a reason only for a
      duplicate. */
  datatype Ack = Ok(backend: string) | Ignored(reason: Option<string>)

  /** The record built for an accepted event. */
  function MakeRecord(ev: CloudEventMessage, receivedAt: string): Record {
    Record(
      ev.data.serviceId,
      ev.id,
      ev.data.id,
      match ev.data.text case Some(t) => t case None => "",
      ev.data.sentBy,
      ev.data.createdAt,
      ev.data.sentAt,
      receivedAt,
      ev)
  }

  /** Every gate an event must pass to be stored. */
  predicate Accepts(s: State, ev: CloudEventMessage) {
    ev.eventType == MessageEventType && ev.id !in s.processed && ev.data.dataType == TextDataType
  }

  /** `tech4_webhook`. */
  function IngestEvent(s: State, ev: CloudEventMessage, receivedAt: string): (r: (State, Ack))
    // gate 1: wrong event type, nothing changes
    ensures ev.eventType != MessageEventType ==> r == (s, Ignored(None))
    // gate 2: duplicate id, nothing changes
    ensures ev.eventType == MessageEventType && ev.id in s.processed
            ==> r == (s, Ignored(Some(DuplicateReason)))
    // gate 3: past the first two gates the id is marked, whatever follows
    ensures ev.eventType == MessageEventType && ev.id !in s.processed
            ==> r.0.processed == s.processed + {ev.id}
    // gate 4: non-text data is not stored
    ensures ev.data.dataType != TextDataType ==> r.0.store == s.store && r.0.order == s.order
    ensures r.1.Ok? <==> Accepts(s, ev)
    ensures r.1.Ok? ==> r.1.backend == Backend
    ensures r.1.Ignored? ==> r.0.store == s.store && r.0.order == s.order
    // an accepted event fills its service id's record from the envelope
    ensures r.1.Ok? ==>
              && ev.data.serviceId in r.0.store
              && var rec := r.0.store[ev.data.serviceId];
              && rec.serviceId == ev.data.serviceId
              && rec.eventId == ev.id
              && rec.messageId == ev.data.id
              && rec.sentBy == ev.data.sentBy
              && (ev.data.text.Some? ==> rec.text == ev.data.text.value)
              && (ev.data.text.None? ==> rec.text == "")
              && rec.createdAt == ev.data.createdAt
              && rec.sentAt == ev.data.sentAt
              && rec.receivedAt == receivedAt
              && rec.raw == ev
    // and leaves every other service id as it was
    ensures forall k :: k != ev.data.serviceId ==>
              (k in r.0.store <==> k in s.store) && (k in s.store ==> r.0.store[k] == s.store[k])
  {
    if ev.eventType != MessageEventType then (s, Ignored(None))
    else if ev.id in s.processed then (s, Ignored(Some(DuplicateReason)))
    else
      var marked := s.(processed := s.processed + {ev.id});
      if ev.data.dataType != TextDataType then (marked, Ignored(None))
      else (Assign(marked, ev.data.serviceId, MakeRecord(ev, receivedAt)), Ok(Backend))
  }

  // ---------------------------------------------------------------------
  // Queries
  // ---------------------------------------------------------------------

  /** Reply of `GET /sessions/{id}/latest`: the record, or 404. */
  datatype LatestReply = Latest(record: Record) | NoMessagesFound

  /** `get_latest_event_or_404`. A stored record is never an empty dict, so
      "not data" means the id is absent. */
  function GetLatest(s: State, serviceId: string): (r: LatestReply)
    ensures r.Latest? <==> serviceId in s.store
    ensures r.Latest? ==> r.record == s.store[serviceId]
  {
    if serviceId in s.store then Latest(s.store[serviceId]) else NoMessagesFound
  }

  /** Reply of `DELETE /sessions/{id}`: "deleted", or 404. */
  datatype DeleteReply = Deleted(serviceId: string) | ServiceIdNotFound

  /** `delete_session`: removes exactly that id, or reports it absent. */
  function DeleteSession(s: State, serviceId: string): (r: (State, DeleteReply))
    ensures r.1 == (if serviceId in s.store then Deleted(serviceId) else ServiceIdNotFound)
    ensures serviceId !in r.0.store
    ensures forall k :: k != serviceId ==>
              (k in r.0.store <==> k in s.store) && (k in s.store ==> r.0.store[k] == s.store[k])
    ensures serviceId in s.store ==> forall k :: k in r.0.order <==> k in s.order && k != serviceId
    ensures serviceId in s.store ==> r.0.order == Without(s.order, serviceId)
    ensures serviceId !in s.store ==> r.0 == s
    ensures r.0.processed == s.processed
  {
    if serviceId in s.store then
      (State(s.store - {serviceId}, Without(s.order, serviceId), s.processed), Deleted(serviceId))
    else (s, ServiceIdNotFound)
  }

  /** `max(1, min(limit, 500))`. */
  function ClampLimit(limit: int): (n: int)
    ensures MinListLimit <= n <= MaxListLimit
    ensures MinListLimit <= limit <= MaxListLimit ==> n == limit
    ensures limit < MinListLimit ==> n == MinListLimit
    ensures limit > MaxListLimit ==> n == MaxListLimit
  {
    var capped := if limit < MaxListLimit then limit else MaxListLimit;
    if capped < MinListLimit then MinListLimit else capped
  }

  /** Reply of `GET /sessions`. */
  datatype Listing = Listing(count: int, serviceIds: seq<string>)

  /** `list_sessions`: the first `max(1, min(limit, 500))` keys in insertion
      order, with their count. */
  function ListSessions(s: State, limit: int): (r: Listing)
    ensures r.count == |r.serviceIds|
    ensures |r.serviceIds| <= ClampLimit(limit)
    ensures |r.serviceIds| == ClampLimit(limit) || r.serviceIds == s.order
    ensures r.serviceIds <= s.order
  {
    var n := ClampLimit(limit);
    var ids := if |s.order| <= n then s.order else s.order[..n];
    Listing(|ids|, ids)
  }

  // ---------------------------------------------------------------------
  // Request sequences
  // ---------------------------------------------------------------------

  datatype Request =
    | Webhook(event: CloudEventMessage, receivedAt: string)
    | GetLatestRequest(serviceId: string)
    | DeleteRequest(serviceId: string)
    | ListRequest(limit: int)

  /** The state after serving one request. */
  function Step(s: State, req: Request): State {
    match req
    case Webhook(ev, at) => IngestEvent(s, ev, at).0
    case GetLatestRequest(_) => s
    case DeleteRequest(id) => DeleteSession(s, id).0
    case ListRequest(_) => s
  }

  /** The state after serving `reqs` in order. */
  function Run(s: State, reqs: seq<Request>): State
    decreases |reqs|
  {
    if |reqs| == 0 then s else Run(Step(s, reqs[0]), reqs[1..])
  }

  // ---------------------------------------------------------------------
  // Properties
  // ---------------------------------------------------------------------

  lemma IngestPreservesValid(s: State, ev: CloudEventMessage, receivedAt: string)
    requires Valid(s)
    ensures Valid(IngestEvent(s, ev, receivedAt).0)
  {
  }

  lemma DeletePreservesValid(s: State, serviceId: string)
    requires Valid(s)
    ensures Valid(DeleteSession(s, serviceId).0)
  {
  }

  /** Every state reachable from a consistent one is consistent. */
  lemma {:induction false} RunPreservesValid(s: State, reqs: seq<Request>)
    requires Valid(s)
    ensures Valid(Run(s, reqs))
    decreases |reqs|
  {
    if |reqs| > 0 {
      match reqs[0] {
        case Webhook(ev, at) => IngestPreservesValid(s, ev, at);
        case DeleteRequest(id) => DeletePreservesValid(s, id);
        case _ =>
      }
      RunPreservesValid(Step(s, reqs[0]), reqs[1..]);
    }
  }

  /** From start-up (no records, no processed ids), every reachable state
      is consistent. */
  lemma RunFromStartValid(reqs: seq<Request>)
    ensures Valid(Run(Initial, reqs))
  {
    RunPreservesValid(Initial, reqs);
  }

  /** No request ever removes a processed event id. */
  lemma {:induction false} ProcessedOnlyGrows(s: State, reqs: seq<Request>)
    ensures s.processed <= Run(s, reqs).processed
    decreases |reqs|
  {
    if |reqs| > 0 {
      ProcessedOnlyGrows(Step(s, reqs[0]), reqs[1..]);
    }
  }

  /** Once an id is processed, any later delivery of a message event with
      that id, after any requests at all, is ignored as a duplicate and
      changes nothing. */
  lemma {:induction false} ProcessedIdStaysDuplicate(s: State, reqs: seq<Request>, ev: CloudEventMessage, at: string)
    requires ev.id in s.processed && ev.eventType == MessageEventType
    ensures IngestEvent(Run(s, reqs), ev, at) == (Run(s, reqs), Ignored(Some(DuplicateReason)))
  {
    ProcessedOnlyGrows(s, reqs);
  }

  /** The id is marked before the data-type check: a non-text message is
      not stored, yet delivering it again is reported as a duplicate. */
  lemma NonTextEventStillMarked(s: State, ev: CloudEventMessage, at1: string, at2: string)
    requires ev.eventType == MessageEventType && ev.id !in s.processed
    requires ev.data.dataType != TextDataType
    ensures var (s1, ack1) := IngestEvent(s, ev, at1);
            && ack1 == Ignored(None)
            && s1.store == s.store
            && ev.id in s1.processed
            && IngestEvent(s1, ev, at2) == (s1, Ignored(Some(DuplicateReason)))
  {
  }

  /** Two events with the same id but different data: the second one is
      ignored as a duplicate and the store reflects only the first. */
  lemma SameIdSecondIgnored(s: State, e1: CloudEventMessage, e2: CloudEventMessage, at1: string, at2: string)
    requires e1.eventType == MessageEventType && e2.eventType == MessageEventType
    requires e1.id == e2.id
    ensures var (s1, _) := IngestEvent(s, e1, at1);
            IngestEvent(s1, e2, at2) == (s1, Ignored(Some(DuplicateReason)))
  {
  }

  /** Overwriting a stored service id keeps the listing order as it was,
      that key included. */
  lemma OverwriteKeepsPosition(s: State, ev: CloudEventMessage, at: string)
    requires Accepts(s, ev) && ev.data.serviceId in s.store
    ensures IngestEvent(s, ev, at).0.order == s.order
  {
  }

  /** A first write for a service id appends it to the listing order. */
  lemma NewKeyGoesLast(s: State, ev: CloudEventMessage, at: string)
    requires Accepts(s, ev) && ev.data.serviceId !in s.store
    ensures IngestEvent(s, ev, at).0.order == s.order + [ev.data.serviceId]
  {
  }

  /** Deleting a service id and storing it again moves it to the end of
      the listing order, behind every key that stayed. */
  lemma DeleteThenReinsertMovesToEnd(s: State, ev: CloudEventMessage, at: string)
    requires Valid(s)
    requires ev.data.serviceId in s.store
    requires Accepts(DeleteSession(s, ev.data.serviceId).0, ev)
    ensures var key := ev.data.serviceId;
            var s2 := IngestEvent(DeleteSession(s, key).0, ev, at).0;
            && s2.order == Without(s.order, key) + [key]
            && s2.order[|s2.order| - 1] == key
  {
  }

  /** Deleting a stored id cuts it out of the key order; every other id
      keeps its place relative to the rest, so a limited listing after the
      delete is the old order with that one id skipped. */
  lemma DeleteKeepsRelativeOrder(s: State, i: int)
    requires Valid(s)
    requires 0 <= i < |s.order|
    ensures DeleteSession(s, s.order[i]).0.order == s.order[..i] + s.order[i + 1..]
  {
  }

  /** Round trip: after an accepted event, reading its service id returns
      the record built from that event; after an ignored one, every read
      returns what it returned before. */
  lemma IngestThenGetLatest(s: State, ev: CloudEventMessage, at: string, other: string)
    ensures var (s', ack) := IngestEvent(s, ev, at);
            && (ack.Ok? ==> GetLatest(s', ev.data.serviceId) == Latest(MakeRecord(ev, at)))
            && (ack.Ok? && other != ev.data.serviceId ==> GetLatest(s', other) == GetLatest(s, other))
            && (ack.Ignored? ==> GetLatest(s', other) == GetLatest(s, other))
  {
  }

  /** A set of distinct strings listed by a duplicate-free sequence has as
      many elements as the sequence. */
  lemma {:induction false} NoDupCardinality(xs: seq<string>)
    requires NoDup(xs)
    ensures |set x | x in xs| == |xs|
  {
    if |xs| > 0 {
      var tail := xs[1..];
      NoDupTail(xs);
      NoDupCardinality(tail);
      assert (set x | x in xs) == (set x | x in tail) + {xs[0]} by {
        assert xs == [xs[0]] + tail;
      }
    }
  }

  /** In a consistent state the listing holds distinct, stored ids, and
      when the clamped limit is at least the number of stored ids it
      lists all of them. */
  lemma ListingShowsStoredIds(s: State, limit: int)
    requires Valid(s)
    ensures var ids := ListSessions(s, limit).serviceIds;
            && NoDup(ids)
            && (forall k :: k in ids ==> k in s.store)
            && (|s.store| <= ClampLimit(limit) ==> forall k :: k in s.store <==> k in ids)
  {
    var ids := ListSessions(s, limit).serviceIds;
    assert forall i :: 0 <= i < |ids| ==> ids[i] == s.order[i];
    NoDupCardinality(s.order);
    assert (set x | x in s.order) == s.store.Keys;
  }

  /** Without a `limit` the listing holds the first fifty ids, or all of
      them when there are fewer. */
  lemma DefaultListingLength(s: State)
    ensures var ids := ListSessions(s, DefaultListLimit).serviceIds;
            |ids| == if |s.order| < 50 then |s.order| else 50
  {
  }

  /** The structured example: a text message for "svc1" is stored with its
      text, and delivering it again is ignored with the state unchanged. */
  lemma StructuredExampleScenario(at1: string, at2: string)
    ensures var ev := CloudEventMessage(
              "1.0", "e1", MessageEventType, "source", "subject", "time", "application/json",
              MessageData("m1", "text", "created", "sent", "user", "svc1", Some("hi")));
            var (s1, ack1) := IngestEvent(Initial, ev, at1);
            && ack1 == Ok(Backend)
            && GetLatest(s1, "svc1").Latest?
            && GetLatest(s1, "svc1").record.text == "hi"
            && IngestEvent(s1, ev, at2) == (s1, Ignored(Some(DuplicateReason)))
  {
  }
}
