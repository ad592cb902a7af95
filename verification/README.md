# Tech4 webhook receiver, modelled in Dafny

This project models the two webhook stores of the Tech4 webhook receiver. Each one is written as a pure state machine.

* **Open ingestion with Redis** (`src/webhook/redis_webhook_server.py`). Any JSON body that `json.loads` decodes, except `null`, reaches the handler; the framework answers a `null` body as missing. A body whose root is not an object is wrapped as `{"payload": body}`. The correlation value is the body's `to` member when that member is truthy, and `"unknown"` otherwise. The body is written with `SETEX` under `tech4:to:<to>`, replacing any earlier value. Reads by `to` return the stored body or not-found. A delete answers "deleted" only when a live entry was removed. Redis is a map from key to `Entry(value, expiresAt)`, read against an abstract clock (`now`, in seconds). `json.dumps` on write and `json.loads` on read together act as the identity on the `Json` tree.
* **Event-gated in-memory store** (`src/webhook/webhook_server.py`). CloudEvents-shaped messages pass four gates in a fixed order:
  1. the event type must be `amber.service:conversation:message`;
  2. the event id must not have been processed before;
  3. the id is then marked as processed;
  4. the data type must be `"text"`.

  Only an event that passes all four gates overwrites the record of its `serviceId`. The state has three parts: the record map, the map's key order (Python `dict` insertion order) and the set of processed ids. The store also offers get and delete by service id, and a listing that clamps `limit` to `[1, 500]`.

Files:

* `json_tree.dfy` (module `JsonTree`): decoded JSON values, Python truthiness and `dict.get`.
* `py_format.dfy` (module `PyFormat`): Python's `str()`/`repr()` of a decoded value. `k_to` formats whatever truthy `to` arrives, so a storage key is `tech4:to:` followed by `str(to)`.
* `redis_webhook.dfy` (module `RedisWebhook`): the open endpoint and Redis with expiry.
* `session_webhook.dfy` (module `SessionWebhook`): the gated store, its queries, and runs of many requests.

Replies of the gated store:

* An event rejected for its event type or its data type gets `{"status": "ignored"}` with no reason. Only a duplicate carries the reason `"duplicate event"`.
* An accepted event gets `{"status": "ok", "backend": "legacy"}`.
* The id is marked before the data-type check. A non-text event is therefore remembered as processed.

## Model

| member | source | states |
|---|---|---|
| JsonTree.Lookup | src/webhook/redis_webhook_server.py:71 | `body.get(name)` is absent exactly when no member has that name, and a present result is the value of a member with that name |
| JsonTree.LookupFindsMember | src/webhook/redis_webhook_server.py:71 | in an object with distinct names (any decoded dict), `get(name)` yields `v` iff the member `(name, v)` is present |
| PyFormat.DecimalRoundTrip | src/webhook/redis_webhook_server.py:31-32 | an integer `to` is formatted as its decimal numeral, and the integer is recovered from it, so different integers get different keys |
| PyFormat.ReprRoundTrip | src/webhook/redis_webhook_server.py:31-32 | a string nested inside a list or dict `to` is formatted with Python's quoting and escaping, and the string is recovered from it |
| PyFormat.PyRepr | src/webhook/redis_webhook_server.py:31-32 | a non-string `to` is formatted as Python's `repr`: `None`, `True`/`False`, the decimal numeral of an integer, the quoted and escaped `repr` of a string, and a list or dict display delimited by `[`…`]` or `{`…`}` (`[]` and `{}` when empty) |
| PyFormat.PyStr | src/webhook/redis_webhook_server.py:31-32 | formatting a string `to` gives the string itself, and only the empty string formats to empty text |
| PyFormat.TruthyRendersNonEmpty | src/webhook/redis_webhook_server.py:71 | a truthy correlation value always formats to non-empty text |
| PyFormat.NumberAndStringRenderAlike | src/webhook/redis_webhook_server.py:31-32 | every integer formats like the string of its decimal numeral, so an integer `to` shares its storage key with that string |
| RedisWebhook.KTo | src/webhook/redis_webhook_server.py:31-32 | the key is the `tech4:to:` namespace followed by exactly the correlation text |
| RedisWebhook.KToRoundTrip | src/webhook/redis_webhook_server.py:31-32 | the correlation text is recovered from its storage key |
| RedisWebhook.KToInjective | src/webhook/redis_webhook_server.py:31-32 | two correlation texts share a storage key iff they are equal |
| RedisWebhook.Normalise | src/webhook/redis_webhook_server.py:66 | the stored body is always an object; it equals the payload iff the payload is an object, and otherwise it is `{"payload": payload}` |
| RedisWebhook.WrappedLikeExplicitPayload | src/webhook/redis_webhook_server.py:66 | a bare value and the object `{"payload": value}` are stored as the same body |
| RedisWebhook.DeriveTo | src/webhook/redis_webhook_server.py:71 | the correlation value is always truthy: it is the `to` member when that is present and truthy, and "unknown" otherwise |
| RedisWebhook.BodyKey | src/webhook/redis_webhook_server.py:71-77 | the storage key is strictly longer than the namespace, and it decodes back to `str(to)` of the derived value |
| RedisWebhook.DerivedKeyNeverEmpty | src/webhook/redis_webhook_server.py:71 | the derived correlation text is never empty, so nothing is written under the bare namespace |
| RedisWebhook.Get | src/webhook/redis_webhook_server.py:96 | `GET` yields a value iff the key is present and not expired, and that value is the stored one |
| RedisWebhook.SetEx | src/webhook/redis_webhook_server.py:76-80 | after `SETEX`, the key reads as the new value until `now + ttl` and as absent from then on; every other key reads as before at every instant |
| RedisWebhook.Del | src/webhook/redis_webhook_server.py:114 | `DEL` counts 1 iff a live value was removed; afterwards the key reads as absent forever, and other keys are unaffected |
| RedisWebhook.IngestOpen | src/webhook/redis_webhook_server.py:53-86 | the reply is "stored" and echoes the derived `to` and the TTL; the normalised body is readable under its key for exactly `ttl` seconds; no other key changes |
| RedisWebhook.GetLatestByTo | src/webhook/redis_webhook_server.py:95-104 | the reply carries a body iff a live entry exists for `k_to(to)`, and the body is exactly the stored one; otherwise the reply is 404 |
| RedisWebhook.DeleteByTo | src/webhook/redis_webhook_server.py:113-124 | the reply is "deleted" (echoing `to`) iff a live entry existed; afterwards `to` reads as not-found at every instant; other keys are unaffected |
| RedisWebhook.IngestThenGetLatest | src/webhook/redis_webhook_server.py:76-104 | round trip: right after ingestion, reading by the derived correlation text returns the normalised body exactly |
| RedisWebhook.ObjectWithToRoundTrip | src/webhook/redis_webhook_server.py:66-104 | an object with a non-empty string `to` is acknowledged with that `to` and read back verbatim, `to` member included |
| RedisWebhook.MissingToFiledUnderUnknown | src/webhook/redis_webhook_server.py:71-86 | a body without a truthy `to` is acknowledged as "unknown" and readable under "unknown" |
| RedisWebhook.ReadableUntilExpiry | src/webhook/redis_webhook_server.py:76-80 | an entry written at `t` is readable at every later instant before `t + ttl` and is not-found from `t + ttl` on; the deadline second itself counts as expired, where Redis, comparing milliseconds, still serves the value at the exact deadline |
| RedisWebhook.SecondIngestOverwrites | src/webhook/redis_webhook_server.py:76-80 | a second ingestion for the same correlation value replaces the first body; reads for every other correlation value are unchanged at every instant |
| RedisWebhook.DeleteTwice | src/webhook/redis_webhook_server.py:113-124 | delete says "deleted" iff a read would have found a body; afterwards the read is not-found and a second delete is not-found |
| RedisWebhook.IngestThenDelete | src/webhook/redis_webhook_server.py:113-124 | deleting a freshly ingested correlation value reports "deleted" and leaves it not-found |
| RedisWebhook.OpenExampleScenario | src/webhook/redis_webhook_server.py:53-104 | `{"to": "555", "message": {"text": "hey"}}` is acknowledged as "555" and read back verbatim under "555" |
| SessionWebhook.Without | src/webhook/webhook_server.py:104 | deleting a dict key keeps exactly the other keys; distinct keys stay distinct; an absent key changes nothing; in a duplicate-free order the result is the order with that key's one position cut out, the others keeping their relative order |
| SessionWebhook.IngestEvent | src/webhook/webhook_server.py:66-93 | a wrong event type or a duplicate id changes nothing; otherwise the id is marked; non-text data is not stored; the reply is "ok" iff all gates pass; an accepted event writes its service id's record from the envelope (text `""` when absent); other ids keep their records |
| SessionWebhook.GetLatest | src/webhook/webhook_server.py:39-43 | yields a record iff the service id is stored, and then exactly the stored record |
| SessionWebhook.IngestThenGetLatest | src/webhook/webhook_server.py:79-98 | after an accepted event, reading its service id returns the record built from that event and other ids read as before; after an ignored event every read is unchanged |
| SessionWebhook.DeleteKeepsRelativeOrder | src/webhook/webhook_server.py:104-111 | deleting the id at position `i` of the key order leaves exactly the order with position `i` cut out, so a limited listing skips only that id |
| SessionWebhook.DeleteSession | src/webhook/webhook_server.py:101-106 | "deleted" iff the id was stored; afterwards it is absent; every other id keeps its record; the key order is the old one with that id taken out and the rest in their relative order; processed ids are untouched; a missing id changes nothing |
| SessionWebhook.ClampLimit | src/webhook/webhook_server.py:111 | the clamped limit lies in [1, 500], equals `limit` inside that range, and is 1 below it and 500 above it |
| SessionWebhook.ListSessions | src/webhook/webhook_server.py:109-112 | the ids are a prefix of the key order; there are at most the clamped limit of them, and fewer only when all keys are listed; `count` is their number |
| SessionWebhook.DefaultListingLength | src/webhook/webhook_server.py:110-111 | without a `limit` the listing holds `min(50, number of keys)` ids |
| SessionWebhook.ListingShowsStoredIds | src/webhook/webhook_server.py:110-112 | listed ids are distinct and stored; when the clamped limit covers the store, every stored id is listed |
| SessionWebhook.IngestPreservesValid | src/webhook/webhook_server.py:81 | after ingestion the key order still lists every stored id exactly once |
| SessionWebhook.DeletePreservesValid | src/webhook/webhook_server.py:104 | after a delete the key order still lists every stored id exactly once |
| SessionWebhook.RunFromStartValid | src/webhook/webhook_server.py:11-12 | starting from the empty store and empty processed set, after any sequence of requests the key order lists every stored id exactly once |
| SessionWebhook.RunPreservesValid | src/webhook/webhook_server.py:66-112 | after any sequence of requests the key order still lists every stored id exactly once |
| SessionWebhook.ProcessedOnlyGrows | src/webhook/webhook_server.py:74 | no sequence of requests removes a processed event id |
| SessionWebhook.ProcessedIdStaysDuplicate | src/webhook/webhook_server.py:71-74 | once an id is processed, a later delivery of a message event with that id is a duplicate and changes nothing, whatever requests came in between |
| SessionWebhook.NonTextEventStillMarked | src/webhook/webhook_server.py:74-77 | a first non-text event is ignored and not stored, but its id is marked, so replaying it is reported as a duplicate |
| SessionWebhook.SameIdSecondIgnored | src/webhook/webhook_server.py:71-74 | of two message events with the same id, the second is ignored as a duplicate and the state is left as the first one made it |
| SessionWebhook.OverwriteKeepsPosition | src/webhook/webhook_server.py:81 | overwriting a stored service id leaves the key order unchanged |
| SessionWebhook.NewKeyGoesLast | src/webhook/webhook_server.py:81 | a first write for a service id appends it to the key order |
| SessionWebhook.DeleteThenReinsertMovesToEnd | src/webhook/webhook_server.py:81-104 | delete followed by re-insertion moves the id behind every other key |
| SessionWebhook.StructuredExampleScenario | src/webhook/webhook_server.py:66-98 | the example text event for "svc1" is accepted and read back with text "hi"; delivering it again is a duplicate and changes nothing |

## Left out

- HTTP wiring (FastAPI routers, decorators, `HTTPException`) and the `health` and `home` endpoints are not modelled. Status codes appear as reply constructors: `Stored`, `Latest`/404, `Deleted`/404, `Ok`/`Ignored`.
- Request validation by pydantic is not modelled. A structured event is assumed to be a well-formed `CloudEventMessage`.
- Redis connectivity and backend errors are not modelled. Redis is a map with expiry times.
- Environment configuration (`REDIS_URL`, `REDIS_TTL_SECONDS`) is not read. The TTL is a positive parameter, and its default `86400` is the constant `DefaultTtlSeconds`.
- Clocks are parameters: `now` (an integer number of seconds) for Redis expiry, and `receivedAt` (an opaque string) for `utc_now_iso`.
- `json.dumps`/`json.loads` are treated as the identity on `Json`. JSON floating-point numbers are not modelled; numbers are integers.
- PyFormat.PyRepr: the contract fixes the delimiters of a list or dict display, not the `, `-separated items between them; the items are the element `repr`s and `name: value` pairs that the body builds, but no lemma states them.
- PyFormat.PyStr: characters at U+0100 and above inside a list or dict `to` are treated as printable. Python's `repr` escapes the non-printable ones among them (for example U+2028) as `\u`/`\U`, and the model does not.
- Concurrency is not modelled. This includes the race between the duplicate check and the mark.
- Bounded per-key history, the `session_id`/`id` key fallbacks and expiry of idempotency marks are not modelled, because they are not part of these two files.
- `main.py` is not modelled. It only mounts the two routers.
- Three fields are renamed because their names are Dafny keywords: `by` of the message data is `sentBy`, `type` of the envelope is `eventType`, and `type` of the message data is `dataType`.
- RedisWebhook.IngestOpen: a body of `null` is answered by FastAPI as a missing required body (status 422) before the handler runs. `Normalise` and `IngestOpen` do not exclude `JNull`; for it they store `{"payload": null}` under "unknown", which the service never does.
- RedisWebhook.IngestOpen: bodies that `json.loads` refuses never reach the handler. These are an integer literal longer than 4300 digits (Python's default limit on integer string conversion) and nesting deeper than the recursion limit; FastAPI answers both with 400. `Json` has neither an integer-size nor a depth bound, so `IngestOpen` and the lemmas about it also cover such bodies.
- Strings are sequences of Unicode scalar values, so a string holding a lone surrogate (which `json.loads` accepts from `"\ud800"`) cannot be expressed. For a top-level string `to` holding one, `redis.setex` fails to encode the key, the request fails, and nothing is stored.
- JSON objects with a repeated member name are not modelled: the handlers receive Python dicts, whose names are distinct. For such a value `Lookup` answers with the first member, whereas `json.loads` keeps the last.
