# Ceryx route store, modelled in Dafny

Ceryx is a dynamic reverse proxy. It keeps its routing table in Redis.
`RedisClient` in `api/ceryx/db.py` is the route store. It writes one route
(a source host, a target, proxy settings, upstream headers, an optional
validation cookie and a time-to-live) as up to five Redis entries. Each key
has the form `prefix:kind:source`. The store reads a route back from those
entries, deletes it, and enumerates the hosts that have a route by asking
Redis for the keys that match `prefix:routes:*`.

The model has six modules.

- `Results` (`results.dfy`) holds the `Option` and `Result` types. The
  store's `NotFound` exception is the `Err(NotFound)` result.
- `Redis` (`redis.dfy`) models the backend as a map from key to entry. An
  entry is a string or a string-to-string hash, plus an expiry in seconds
  (0 means the key persists). The module gives the semantics of GET,
  HGETALL, SET, HMSET, EXPIRE, DEL and KEYS. A sequence of backend calls is a
  `seq<Command>`, and `Run` applies the calls one after the other.
- `KeySpace` (`keyspace.dfy`) derives the keys and proves that the
  derivation is injective.
- `Routes` (`routes.dfy`) holds the validated route as the store receives
  it, and its flat encoding for the backend.
- `RouteStore` (`route_store.dfy`) holds the store:
  - each private write or delete helper, as the list of backend calls it
    issues;
  - the lookups, `get_route`, `lookup_hosts` and `list_routes`;
  - `create_route`, `update_route` and `delete_route`;
  - the effect of `_set_route` on the backend, proved one step at a time.
- `RouteStoreProperties` (`route_store_properties.dfy`) relates operations
  to each other: read-after-write, round trip, idempotence, last writer wins,
  the delete asymmetry, entry shapes preserved, and the host set after a
  create or a delete.

Redis behaviour the contracts depend on:

- SET discards a key's expiry.
- HMSET merges fields into an existing hash and keeps that hash's expiry.
- EXPIRE on a missing key does nothing.

Because of the HMSET rule, an update with ttl 0 does not clear an earlier
expiry on the settings or headers hash. `RouteStore.SetRouteZeroTtl` states
this: no key gains an expiry, and a settings or headers hash that was stored
before the update is still stored afterwards with the same expiry.

`_set_settings` issues the HMSET even when the settings mapping is empty
(`api/ceryx/db.py:106-110`). The model treats an empty HMSET as leaving the
backend unchanged; see "## Left out".

## Model

Each private helper of `RedisClient` is the like-named function of
`RouteStore`, and each key helper is the like-named function of `KeySpace`:

- `_set_target` is `SetTarget`, and `_delete_target` is `DeleteTarget`.
- `_lookup_settings` is `LookupSettings`, and so on for the other helpers.
- `_prefixed_key` is `PrefixedKey`, and `_route_key` is `RouteKey`.
- `_set_route` is `SetRoute`.

A write or delete helper is the list of backend calls it issues. Its contract
is the `…Calls` or `…Effect` lemma in the row that cites its lines. The
lookups' contract is the read-back lemma in the row that cites their lines.

| member | source | states |
|---|---|---|
| KeySpace.RouteKey | api/ceryx/db.py:35-36 | a route key starts with `prefix:routes:` and the source follows that prefix |
| KeySpace.KeyInjective | api/ceryx/db.py:32-48 | two kind/source pairs give the same key exactly when both kind and source are equal |
| KeySpace.KeyInSourceKeys | api/ceryx/db.py:35-48 | a derived key is one of the five keys of a source exactly when it was derived from that source |
| KeySpace.RoutePrefixedIsRouteKey | api/ceryx/db.py:94-98 | every key that starts with the route prefix is the route key of what follows the prefix |
| Redis.LiteralStarMatchesPrefixes | api/ceryx/db.py:95-97 | a pattern without glob metacharacters followed by `*` matches exactly the keys that start with it |
| RouteStore.RoutePatternMatches | api/ceryx/db.py:95-97 | under a prefix without glob metacharacters, the lookup pattern `prefix:routes:*` matches exactly the keys that start with `prefix:routes:` |
| RouteStore.RouteHostsMembership | api/ceryx/db.py:94-98 | a host is in the reference set of routed hosts exactly when its route key is present |
| RouteStore.LookupHosts | api/ceryx/db.py:94-98 | each host is its listed key with `len(prefix:routes:pattern) - 1` characters cut off; for `*` and a prefix without glob metacharacters, the hosts are exactly those with a route key, with no repeats |
| RouteStore.SetValidationCookieCalls | api/ceryx/db.py:121-133 | the cookie calls touch only the two cookie keys; when both strings are non-empty they SET both; each SET is followed by an EXPIRE exactly when ttl is set |
| RouteStore.SetRouteCalls | api/ceryx/db.py:135-145 | `_set_route` calls only the route's own keys, starting with the SET of the target; it makes no headers call when the headers are empty; it calls both cookie keys or neither; it issues no EXPIRE when ttl is 0, and otherwise an EXPIRE for ttl after every write |
| RouteStore.SetTargetEffect | api/ceryx/db.py:100-104 | the route key ends up holding the target with the ttl as its expiry, and no other key changes |
| RouteStore.SetSettingsFrame | api/ceryx/db.py:106-110 | writing settings changes no key other than the settings key, and with ttl 0 it sets no new expiry |
| RouteStore.SetSettingsEffect | api/ceryx/db.py:106-110 | the stored settings become the old fields overridden by the new ones; the key exists afterwards exactly when it existed before or settings are non-empty; a positive ttl becomes its expiry, and with ttl 0 a stored hash keeps its expiry |
| RouteStore.SetUpstreamHeadersEffect | api/ceryx/db.py:112-119 | empty headers leave the backend unchanged; otherwise the headers hash is the merge, and its expiry is the ttl when set and the old expiry otherwise |
| RouteStore.SetValidationCookieEffect | api/ceryx/db.py:121-133 | when the name or the value is empty the backend is unchanged; otherwise both keys hold their strings, with the same expiry |
| RouteStore.SetRouteCookieEffect | api/ceryx/db.py:142-144 | the cookie step writes both cookie keys when the route carries both non-empty fields, and otherwise changes nothing |
| RouteStore.SetRouteWritesTarget | api/ceryx/db.py:135-137 | after `_set_route` the route key holds the new target with the route's ttl |
| RouteStore.SetRouteMergesHashes | api/ceryx/db.py:135-140 | after `_set_route` the settings are merged over the stored ones; non-empty headers are merged too; empty headers leave the headers key untouched |
| RouteStore.SetRouteHashesStayHashes | api/ceryx/db.py:135-140 | after `_set_route` each hash key holds a hash or keeps the value it had |
| RouteStore.SetRouteCookieBothOrNeither | api/ceryx/db.py:142-144 | after `_set_route` both cookie keys hold the route's cookie with its ttl, or neither cookie key changed |
| RouteStore.SetRoutePositiveTtl | api/ceryx/db.py:100-145 | with a positive ttl, every key `_set_route` writes (and an existing settings hash) expires after that ttl |
| RouteStore.SetRouteZeroTtl | api/ceryx/db.py:100-145 | with ttl 0 no key gains an expiry: each is persistent or keeps the expiry it had; a stored settings or headers hash stays stored with its earlier expiry |
| RouteStore.SetRouteFrame | api/ceryx/db.py:135-145 | `_set_route` changes no key outside the five keys of the route's source |
| RouteStore.DeleteCallsEffect | api/ceryx/db.py:50-56 | the target and settings deletes remove exactly the route key and the settings key |
| RouteStore.UnusedDeletesEffect | api/ceryx/db.py:58-67 | the headers delete removes exactly the headers key; the cookie delete removes exactly both cookie keys |
| RouteStore.LookupTarget | api/ceryx/db.py:69-76 | the result is NotFound exactly when an exception is asked for and no target is stored; otherwise it is the stored target, and None exactly when no target is stored |
| RouteStore.LookupUpstreamHeaders | api/ceryx/db.py:82-84 | a missing headers hash reads as no headers |
| RouteStore.GetRoute | api/ceryx/db.py:147-162 | NotFound exactly when the route key holds no target; otherwise a route whose source is the host and whose target is the stored one |
| RouteStore.ReadRoutes | api/ceryx/db.py:166 | `get_route` of each host in turn, in order; a failure is NotFound and comes from some host that `get_route` rejects |
| RouteStore.ListRoutes | api/ceryx/db.py:164-167 | one route per listed key, in the order of the KEYS reply: the i-th route's source is the i-th key with the route prefix cut off, and each route equals `get_route` of its source; under a prefix without glob metacharacters it succeeds exactly when every listed key holds a target, and then the sources are exactly the routed hosts |
| RouteStore.CreateRoute | api/ceryx/db.py:169-171 | returns the route, changes only that source's keys, and the route then reads back with its target |
| RouteStore.UpdateRoute | api/ceryx/db.py:173-176 | the saved route is the data with its source forced to the host; only the host's keys change, and the host then reads back with the new target |
| RouteStore.DeleteRoute | api/ceryx/db.py:178-180 | afterwards the host reads as NotFound; only the route and settings keys are removed; headers and cookie stay; deleting an absent route changes nothing |
| RouteStoreProperties.CreateRouteReadsHashes | api/ceryx/db.py:78-84 | after a create, the settings and headers lookups return the stored fields merged with the written ones |
| RouteStoreProperties.CreateRouteReadsCookie | api/ceryx/db.py:86-92 | after a create, the cookie lookups return the written cookie, or the stored one when none was written |
| RouteStoreProperties.GetAfterCreateRoute | api/ceryx/db.py:135-162 | reading a created route gives its target, the merged settings and headers, the cookie as written or as stored, and ttl 0 |
| RouteStoreProperties.GetAfterUpdateRoute | api/ceryx/db.py:173-176 | reading the host after an update gives the written target; the settings and headers are merged over the ones stored for the host; the cookie reads as written, or as stored when none is written; ttl reads as 0 |
| RouteStoreProperties.UpdateIgnoresDataSource | api/ceryx/db.py:173-176 | an update under one host leaves the route of the source named in its data unchanged |
| RouteStoreProperties.RoundTrip | api/ceryx/db.py:135-162 | on a source with no entries, and with a cookie that is written or absent, a created route reads back as itself except that its ttl is 0 |
| RouteStoreProperties.CreateRouteIdempotentOnRead | api/ceryx/db.py:169-171 | creating the same route twice reads back as creating it once |
| RouteStoreProperties.SecondCreateWins | api/ceryx/db.py:169-171 | after two creates for one source, the second target wins and the settings are the stored ones, then the first call's, then the second's |
| RouteStoreProperties.RecreateAfterDeleteKeepsHeaders | api/ceryx/db.py:178-180 | re-creating a deleted route without headers reads back the headers of the deleted route |
| RouteStoreProperties.DeleteRouteTwice | api/ceryx/db.py:178-180 | after a delete the host reads as NotFound, and a second delete changes nothing |
| RouteStoreProperties.CreateRoutePreservesShape | api/ceryx/db.py:135-145 | if every key of the prefix holds the value kind its key kind calls for, that still holds after a create |
| RouteStoreProperties.DeleteRoutePreservesShape | api/ceryx/db.py:178-180 | a delete keeps every key holding the value kind its key kind calls for |
| RouteStoreProperties.NotFoundIffRouteKeyMissing | api/ceryx/db.py:69-76 | when every key holds the value kind its key kind calls for, `get_route` is NotFound exactly when the route key is missing |
| RouteStoreProperties.RouteHostsAfterCreateRoute | api/ceryx/db.py:169-171 | a create adds exactly its source to the routed hosts |
| RouteStoreProperties.RouteHostsAfterDeleteRoute | api/ceryx/db.py:178-180 | a delete removes exactly its host from the routed hosts |
| RouteStoreProperties.ListingMatchesOnlyRouteKeys | api/ceryx/db.py:94-98 | under a prefix without glob metacharacters, the host listing matches route keys only, never settings, headers or cookie keys |

## Left out

- Validation and the route schema (`schemas.Route.validate`, `to_redis`, `from_redis`) are not part of this model. The route arrives already validated. Its encoding is a projection, and its decoding supplies ttl 0.
- `from_config`, `__init__` and `isHealthy` only set up the connection and ping it. They have no routing logic.
- The `_str` helper: keys arrive as bytes, and the model takes them as already decoded text. The helper's branch for values that are not bytes returns `str(bytes)`, not the value itself. That branch is not modelled.
- `_lookup_upstream_headers` returns an empty list, not an empty dict, when there are no headers. The model reads this as the empty map.
- Errors Redis would raise are not modelled: WRONGTYPE, redis-py's rejection of an HMSET with an empty mapping, and connection errors. A GET on a hash reads as None, an HGETALL on a string reads as the empty map, an HMSET over a string starts a new hash, and an empty HMSET changes nothing. `RouteStoreProperties.WellShaped` describes the stores where the type mismatches never happen.
- Time does not pass: an expiry is recorded on the entry and never acted on.
- Concurrency is not modelled. The calls of one operation run one after the other, with nothing interleaved.
- The KEYS matcher covers `*` and `?` only. Character classes and backslash escapes are not modelled, so the properties that need a literal prefix exclude `[`, `]` and `\` as well as `*` and `?`. KEYS returns keys in an order Redis leaves unspecified, so the order is a parameter.
- RouteStore.LookupHosts: the exact-set and no-repeat properties are stated only for the default pattern `*` and a prefix without glob metacharacters. For any other pattern only the slicing is stated.
- RouteStore.ListRoutes: the success condition and the coverage of the routed hosts are stated only for a prefix without glob metacharacters.
- `update_route` writes the host into the caller's own `data` dict (`api/ceryx/db.py:174`). The model builds a new route value instead, so the caller-visible mutation is not modelled.
