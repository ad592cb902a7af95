/** The open ingestion endpoint backed by Redis (`redis_webhook_server.py`).

    Any JSON body that `json.loads` decodes, except `null`, reaches the
    handler (the framework answers a `null` body as missing). A body whose root is not an object is
    wrapped as `{"payload": body}`; the correlation value is the body's
    `to` member when that is truthy and `"unknown"` otherwise; the body is
    written under `tech4:to:<to>` with a time-to-live, replacing whatever
    was there. Reads return the stored body or not-found, and a delete
    reports whether a live entry was removed.

    Redis is modelled as a map from key to the stored value and the instant
    it expires, read against an abstract clock `now` (seconds). A value is
    the decoded JSON tree itself: `json.dumps` on write followed by
    `json.loads` on read is taken as the identity.
 */
module RedisWebhook {
  import opened JsonTree
  import PyFormat

  /** Namespace of every key this endpoint writes. */
  const KeyPrefix: string := "tech4:to:"

  /** Correlation value used when the body has no truthy `to`. */
  const UnknownTo: string := "unknown"

  /** Default of `REDIS_TTL_SECONDS` (one day). */
  const DefaultTtlSeconds: int := 86400

  // ---------------------------------------------------------------------
  // Keys
  // ---------------------------------------------------------------------

  /** `k_to`: the storage key of a correlation value. */
  function KTo(to: string): (key: string)
    ensures |key| == |KeyPrefix| + |to|
    ensures key[..|KeyPrefix|] == KeyPrefix
    ensures key[|KeyPrefix|..] == to
  {
    KeyPrefix + to
  }

  /** The correlation value a storage key belongs to, if it is one of ours. */
  function ToOfKey(key: string): Option<string> {
    if |KeyPrefix| <= |key| && key[..|KeyPrefix|] == KeyPrefix then Some(key[|KeyPrefix|..])
    else None
  }

  lemma KToRoundTrip(to: string)
    ensures ToOfKey(KTo(to)) == Some(to)
  {
  }

  /** Different correlation values never share a storage key. */
  lemma KToInjective(a: string, b: string)
    ensures KTo(a) == KTo(b) <==> a == b
  {
  }

  // ---------------------------------------------------------------------
  // Body and correlation value
  // ---------------------------------------------------------------------

  /** The body that gets stored: an object payload as it is, anything else
      wrapped as the single member `payload`. */
  function Normalise(payload: Json): (body: Json)
    ensures body.JObj?
    ensures body == payload <==> payload.JObj?
    ensures !payload.JObj? ==> body.fields == [("payload", payload)]
  {
    if payload.JObj? then payload else JObj([("payload", payload)])
  }

  /** Wrapping loses the distinction between a bare value and an object
      whose only member is `payload`: both are stored as the same body. */
  lemma WrappedLikeExplicitPayload(p: Json)
    requires !p.JObj?
    ensures Normalise(p) == Normalise(JObj([("payload", p)]))
  {
  }

  /** `body.get("to") or "unknown"`: the value of `to` when it is present
      and truthy, otherwise the string "unknown". The body is a decoded
      dict, so its member names are distinct and `Lookup` finds the only
      `to` there is (`LookupFindsMember`). */
  function DeriveTo(body: Json): (to: Json)
    requires body.JObj?
    ensures Truthy(to)
    ensures Lookup(body.fields, "to").Some? && Truthy(Lookup(body.fields, "to").value)
            ==> to == Lookup(body.fields, "to").value
    ensures Lookup(body.fields, "to").None? || !Truthy(Lookup(body.fields, "to").value)
            ==> to == JStr(UnknownTo)
  {
    match Lookup(body.fields, "to")
    case Some(v) => if Truthy(v) then v else JStr(UnknownTo)
    case None => JStr(UnknownTo)
  }

  /** The storage key a body is written under: `k_to(to)` with the
      correlation value formatted by the f-string, i.e. `str(to)`. */
  function BodyKey(body: Json): (key: string)
    requires body.JObj?
    ensures |key| > |KeyPrefix|
    ensures ToOfKey(key) == Some(PyFormat.PyStr(DeriveTo(body)))
  {
    PyFormat.TruthyRendersNonEmpty(DeriveTo(body));
    KToRoundTrip(PyFormat.PyStr(DeriveTo(body)));
    KTo(PyFormat.PyStr(DeriveTo(body)))
  }

  /** The derived correlation value never formats to empty text, so no body
      is ever written under the bare namespace `tech4:to:`. */
  lemma DerivedKeyNeverEmpty(payload: Json)
    ensures |PyFormat.PyStr(DeriveTo(Normalise(payload)))| > 0
    ensures BodyKey(Normalise(payload)) != KTo("")
  {
  }

  // ---------------------------------------------------------------------
  // Redis with expiry
  // ---------------------------------------------------------------------

  datatype Entry = Entry(value: Json, expiresAt: int)

  type Db = map<string, Entry>

  /** A key holds a value that has not expired at `now`. The deadline
      itself counts as expired: a value written at `t` with time-to-live
      `ttl` is gone at `t + ttl`. Redis compares milliseconds and still
      serves the value at the exact deadline; on a whole-second clock that
      boundary second could go either way. */
  predicate Live(db: Db, key: string, now: int) {
    key in db && now < db[key].expiresAt
  }

  /** `GET key`: the value while it lives; an expired key reads as absent. */
  function Get(db: Db, key: string, now: int): (r: Option<Json>)
    ensures r.Some? <==> Live(db, key, now)
    ensures r.Some? ==> r.value == db[key].value
  {
    if Live(db, key, now) then Some(db[key].value) else None
  }

  /** `SETEX key ttl value`: replaces the key's value and lifetime. */
  function SetEx(db: Db, key: string, ttl: int, value: Json, now: int): (db': Db)
    requires ttl > 0
    ensures forall t :: Get(db', key, t) == (if t < now + ttl then Some(value) else None)
    ensures forall k, t :: k != key ==> Get(db', k, t) == Get(db, k, t)
  {
    db[key := Entry(value, now + ttl)]
  }

  /** `DEL key`: removes the key and answers how many live keys went away
      (an expired key is dropped too but does not count). */
  function Del(db: Db, key: string, now: int): (r: (Db, nat))
    ensures r.1 == (if Live(db, key, now) then 1 else 0)
    ensures forall t :: Get(r.0, key, t) == None
    ensures forall k, t :: k != key ==> Get(r.0, k, t) == Get(db, k, t)
  {
    (db - {key}, if Live(db, key, now) then 1 else 0)
  }

  // ---------------------------------------------------------------------
  // Endpoints
  // ---------------------------------------------------------------------

  /** Reply of the webhook: status "stored", the correlation value and the
      TTL it was stored with. */
  datatype StoredReply = Stored(to: Json, ttlSeconds: int)

  /** Reply of `GET /messages/{to}/latest`: the stored body, or 404. */
  datatype LatestReply = Latest(body: Json) | NoPayloadFound

  /** Reply of `DELETE /messages/{to}`: status "deleted", or 404. */
  datatype DeleteReply = Deleted(to: string) | ToNotFound

  /** `tech4_webhook_open`: normalise, derive the key, `SETEX`, reply. The
      stored body is readable under its key for exactly `ttl` seconds and
      no other key is touched. */
  function IngestOpen(db: Db, payload: Json, ttl: int, now: int): (r: (Db, StoredReply))
    requires ttl > 0
    ensures r.1 == Stored(DeriveTo(Normalise(payload)), ttl)
    ensures forall t :: Get(r.0, BodyKey(Normalise(payload)), t)
                        == (if t < now + ttl then Some(Normalise(payload)) else None)
    ensures forall k, t :: k != BodyKey(Normalise(payload)) ==> Get(r.0, k, t) == Get(db, k, t)
  {
    var body := Normalise(payload);
    var to := DeriveTo(body);
    (SetEx(db, BodyKey(body), ttl, body, now), Stored(to, ttl))
  }

  /** `get_latest_by_to`: the body stored for `to` while it lives, else 404. */
  function GetLatestByTo(db: Db, to: string, now: int): (r: LatestReply)
    ensures r.Latest? <==> Live(db, KTo(to), now)
    ensures r.Latest? ==> r.body == db[KTo(to)].value
  {
    match Get(db, KTo(to), now)
    case Some(body) => Latest(body)
    case None => NoPayloadFound
  }

  /** `delete_by_to`: "deleted" exactly when a live entry for `to` existed;
      afterwards nothing is stored for `to` and every other key reads as
      before. */
  function DeleteByTo(db: Db, to: string, now: int): (r: (Db, DeleteReply))
    ensures r.1 == (if Live(db, KTo(to), now) then Deleted(to) else ToNotFound)
    ensures forall t :: GetLatestByTo(r.0, to, t) == NoPayloadFound
    ensures forall k, t :: k != KTo(to) ==> Get(r.0, k, t) == Get(db, k, t)
  {
    var (db', count) := Del(db, KTo(to), now);
    (db', if count > 0 then Deleted(to) else ToNotFound)
  }

  // ---------------------------------------------------------------------
  // Properties
  // ---------------------------------------------------------------------

  /** Round trip: right after ingestion, reading the latest body for the
      derived correlation value returns the stored body exactly. */
  lemma IngestThenGetLatest(db: Db, payload: Json, ttl: int, now: int)
    requires ttl > 0
    ensures var body := Normalise(payload);
            GetLatestByTo(IngestOpen(db, payload, ttl, now).0, PyFormat.PyStr(DeriveTo(body)), now)
            == Latest(body)
  {
  }

  /** An object that carries a non-empty string `to` is stored verbatim and
      read back verbatim under that `to`. */
  lemma ObjectWithToRoundTrip(db: Db, payload: Json, to: string, ttl: int, now: int)
    requires payload.JObj? && DistinctNames(payload.fields)
    requires ("to", JStr(to)) in payload.fields && to != ""
    requires ttl > 0
    ensures IngestOpen(db, payload, ttl, now).1 == Stored(JStr(to), ttl)
    ensures GetLatestByTo(IngestOpen(db, payload, ttl, now).0, to, now) == Latest(payload)
  {
  }

  /** A body with no truthy `to` is filed under "unknown". */
  lemma MissingToFiledUnderUnknown(db: Db, payload: Json, ttl: int, now: int)
    requires ttl > 0
    requires var f := Normalise(payload).fields;
             Lookup(f, "to").None? || !Truthy(Lookup(f, "to").value)
    ensures IngestOpen(db, payload, ttl, now).1 == Stored(JStr(UnknownTo), ttl)
    ensures GetLatestByTo(IngestOpen(db, payload, ttl, now).0, UnknownTo, now)
            == Latest(Normalise(payload))
  {
  }

  /** With the abstract clock: an entry written at `now` reads back at any
      later instant before `now + ttl` and is not-found from then on. */
  lemma ReadableUntilExpiry(db: Db, payload: Json, ttl: int, now: int, later: int)
    requires ttl > 0 && now <= later
    ensures var to := PyFormat.PyStr(DeriveTo(Normalise(payload)));
            var db' := IngestOpen(db, payload, ttl, now).0;
            GetLatestByTo(db', to, later)
            == if later < now + ttl then Latest(Normalise(payload)) else NoPayloadFound
  {
  }

  /** A second ingestion for the same correlation value replaces the first
      body; reads under any other correlation value are unaffected by
      either write. */
  lemma SecondIngestOverwrites(db: Db, p1: Json, p2: Json, ttl: int, t1: int, t2: int, other: string)
    requires ttl > 0 && t1 <= t2
    requires DeriveTo(Normalise(p1)) == DeriveTo(Normalise(p2))
    requires other != PyFormat.PyStr(DeriveTo(Normalise(p1)))
    ensures var to := PyFormat.PyStr(DeriveTo(Normalise(p1)));
            var db2 := IngestOpen(IngestOpen(db, p1, ttl, t1).0, p2, ttl, t2).0;
            && GetLatestByTo(db2, to, t2) == Latest(Normalise(p2))
            && forall t :: GetLatestByTo(db2, other, t) == GetLatestByTo(db, other, t)
  {
  }

  /** Deleting reports "deleted" iff something live was stored; afterwards
      the read is not-found and a second delete is not-found too. */
  lemma DeleteTwice(db: Db, to: string, now: int)
    ensures DeleteByTo(db, to, now).1.Deleted? <==> GetLatestByTo(db, to, now).Latest?
    ensures var db' := DeleteByTo(db, to, now).0;
            && GetLatestByTo(db', to, now) == NoPayloadFound
            && DeleteByTo(db', to, now).1 == ToNotFound
  {
  }

  /** Ingesting then deleting the same correlation value leaves nothing
      readable for it. */
  lemma IngestThenDelete(db: Db, payload: Json, ttl: int, now: int)
    requires ttl > 0
    ensures var to := PyFormat.PyStr(DeriveTo(Normalise(payload)));
            var (db1, _) := IngestOpen(db, payload, ttl, now);
            var (db2, reply) := DeleteByTo(db1, to, now);
            reply == Deleted(to) && GetLatestByTo(db2, to, now) == NoPayloadFound
  {
  }

  /** The open example: `{"to": "555", "message": {"text": "hey"}}` is
      read back verbatim, `to` member included, under "555". */
  lemma OpenExampleScenario(db: Db, now: int)
    ensures var payload := JObj([("to", JStr("555")),
                                 ("message", JObj([("text", JStr("hey"))]))]);
            var (db', reply) := IngestOpen(db, payload, DefaultTtlSeconds, now);
            reply == Stored(JStr("555"), DefaultTtlSeconds)
            && GetLatestByTo(db', "555", now) == Latest(payload)
  {
  }
}
