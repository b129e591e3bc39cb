/** Properties that relate several route store operations to each other. */
module RouteStoreProperties {
  import opened Results
  import opened Redis
  import opened KeySpace
  import opened Routes
  import opened RouteStore

  /** What reading `route.source` yields after `route` was written over `store`. */
  function ReadBack(prefix: string, store: Store, route: Route): Route
  {
    var host := route.source;
    var cookieWritten := WritesValidationCookie(ToRedis(route));
    Route(
      host, route.target, 0,
      HashGetAll(store, SettingsKey(prefix, host)) + route.settings,
      HashGetAll(store, UpstreamHeadersKey(prefix, host)) + route.upstreamHeaders,
      if cookieWritten then route.validationCookieName else Get(store, ValidationCookieNameKey(prefix, host)),
      if cookieWritten then route.validationCookieValue else Get(store, ValidationCookieValueKey(prefix, host)))
  }

  /** After a create, settings and headers read as merged over what was stored. */
  lemma CreateRouteReadsHashes(prefix: string, store: Store, route: Route)
    ensures var r := CreateRoute(prefix, store, route).store;
            && LookupSettings(prefix, r, route.source) == ReadBack(prefix, store, route).settings
            && LookupUpstreamHeaders(prefix, r, route.source) == ReadBack(prefix, store, route).upstreamHeaders
  {
    var headersKey := UpstreamHeadersKey(prefix, route.source);
    SetRouteMergesHashes(prefix, store, route);
    if |route.upstreamHeaders| == 0 {
      assert HashGetAll(store, headersKey) + route.upstreamHeaders == HashGetAll(store, headersKey);
    }
  }

  /** After a create, the cookie reads as written, or as stored when it was not written. */
  lemma CreateRouteReadsCookie(prefix: string, store: Store, route: Route)
    ensures var r := CreateRoute(prefix, store, route).store;
            && LookupValidationCookieName(prefix, r, route.source) == ReadBack(prefix, store, route).validationCookieName
            && LookupValidationCookieValue(prefix, r, route.source) == ReadBack(prefix, store, route).validationCookieValue
  {
    SetRouteCookieBothOrNeither(prefix, store, route);
  }

  /**
   Reading a route back after creating it: target and cookie as written (an
   unwritten cookie reads as whatever was stored), settings and headers merged
   over what was stored, ttl not read back.
   */
  lemma GetAfterCreateRoute(prefix: string, store: Store, route: Route)
    ensures GetRoute(prefix, CreateRoute(prefix, store, route).store, route.source) == Ok(ReadBack(prefix, store, route))
  {
    SetRouteWritesTarget(prefix, store, route);
    CreateRouteReadsHashes(prefix, store, route);
    CreateRouteReadsCookie(prefix, store, route);
  }

  /**
   Reading `host` after an update under `host` gives the written target, the
   written settings and headers merged over those stored for `host`, the
   cookie as written or as stored, and ttl 0.
   */
  lemma GetAfterUpdateRoute(prefix: string, store: Store, host: string, data: Route)
    ensures GetRoute(prefix, UpdateRoute(prefix, store, host, data).store, host) == Ok(ReadBack(prefix, store, data.(source := host)))
  {
    GetAfterCreateRoute(prefix, store, data.(source := host));
  }

  /** An update ignores the source carried in its data: that source's route is not touched. */
  lemma UpdateIgnoresDataSource(prefix: string, store: Store, host: string, data: Route)
    requires data.source != host
    ensures GetRoute(prefix, UpdateRoute(prefix, store, host, data).store, data.source) == GetRoute(prefix, store, data.source)
  {
    var r := UpdateRoute(prefix, store, host, data).store;
    var other := data.source;
    KeyInSourceKeys(prefix, Routes, other, host);
    KeyInSourceKeys(prefix, Settings, other, host);
    KeyInSourceKeys(prefix, UpstreamHeaders, other, host);
    KeyInSourceKeys(prefix, ValidationCookieName, other, host);
    KeyInSourceKeys(prefix, ValidationCookieValue, other, host);
    assert SameAt(store, r, RouteKey(prefix, other)) && SameAt(store, r, SettingsKey(prefix, other));
    assert SameAt(store, r, UpstreamHeadersKey(prefix, other));
    assert SameAt(store, r, ValidationCookieNameKey(prefix, other)) && SameAt(store, r, ValidationCookieValueKey(prefix, other));
  }

  /** No entry of `host` exists yet. */
  predicate Fresh(prefix: string, store: Store, host: string)
  {
    forall key :: key in SourceKeys(prefix, host) ==> key !in store
  }

  /** A cookie pair that survives the round trip: written, or absent altogether. */
  predicate CookieRoundTrips(route: Route)
  {
    WritesValidationCookie(ToRedis(route)) ||
    (route.validationCookieName.None? && route.validationCookieValue.None?)
  }

  /**
   Round trip on a source with no earlier entries: the route reads back as
   written except for its ttl.
   */
  lemma RoundTrip(prefix: string, store: Store, route: Route)
    requires Fresh(prefix, store, route.source)
    requires CookieRoundTrips(route)
    ensures GetRoute(prefix, CreateRoute(prefix, store, route).store, route.source) == Ok(route.(ttl := 0))
  {
    var host := route.source;
    GetAfterCreateRoute(prefix, store, route);
    assert ReadBack(prefix, store, route) == route.(ttl := 0) by {
      assert SettingsKey(prefix, host) in SourceKeys(prefix, host);
      assert UpstreamHeadersKey(prefix, host) in SourceKeys(prefix, host);
      assert ValidationCookieNameKey(prefix, host) in SourceKeys(prefix, host);
      assert ValidationCookieValueKey(prefix, host) in SourceKeys(prefix, host);
      assert map[] + route.settings == route.settings;
      assert map[] + route.upstreamHeaders == route.upstreamHeaders;
    }
  }

  /** Merging the same fields a second time changes nothing. */
  lemma MergeTwice(stored: map<string, string>, fields: map<string, string>)
    ensures stored + fields + fields == stored + fields
  {
  }

  /** Creating the same route twice reads back as creating it once. */
  lemma CreateRouteIdempotentOnRead(prefix: string, store: Store, route: Route)
    ensures var once := CreateRoute(prefix, store, route).store;
            GetRoute(prefix, CreateRoute(prefix, once, route).store, route.source) == GetRoute(prefix, once, route.source)
  {
    var host := route.source;
    var once := CreateRoute(prefix, store, route).store;
    GetAfterCreateRoute(prefix, store, route);
    GetAfterCreateRoute(prefix, once, route);
    SetRouteMergesHashes(prefix, store, route);
    SetRouteCookieBothOrNeither(prefix, store, route);
    MergeTwice(HashGetAll(store, SettingsKey(prefix, host)), route.settings);
    MergeTwice(HashGetAll(store, UpstreamHeadersKey(prefix, host)), route.upstreamHeaders);
    if |route.upstreamHeaders| == 0 {
      assert HashGetAll(once, UpstreamHeadersKey(prefix, host)) == HashGetAll(store, UpstreamHeadersKey(prefix, host));
    }
  }

  /**
   Creating twice with the same source: the second target wins and the
   settings of both calls are merged, later fields overriding earlier ones.
   */
  lemma SecondCreateWins(prefix: string, store: Store, first: Route, second: Route)
    requires first.source == second.source
    ensures var after := CreateRoute(prefix, CreateRoute(prefix, store, first).store, second).store;
            && GetRoute(prefix, after, second.source).Ok?
            && GetRoute(prefix, after, second.source).value.target == second.target
            && GetRoute(prefix, after, second.source).value.settings ==
               HashGetAll(store, SettingsKey(prefix, second.source)) + first.settings + second.settings
  {
    var middle := CreateRoute(prefix, store, first).store;
    GetAfterCreateRoute(prefix, middle, second);
    SetRouteMergesHashes(prefix, store, first);
  }

  /**
   The delete asymmetry: after a delete, a re-create without headers reads
   back the headers of the deleted route.
   */
  lemma RecreateAfterDeleteKeepsHeaders(prefix: string, store: Store, route: Route)
    requires |route.upstreamHeaders| == 0
    ensures var recreated := CreateRoute(prefix, DeleteRoute(prefix, store, route.source), route).store;
            && GetRoute(prefix, recreated, route.source).Ok?
            && GetRoute(prefix, recreated, route.source).value.upstreamHeaders ==
               HashGetAll(store, UpstreamHeadersKey(prefix, route.source))
  {
    var deleted := DeleteRoute(prefix, store, route.source);
    var headersKey := UpstreamHeadersKey(prefix, route.source);
    GetAfterCreateRoute(prefix, deleted, route);
    assert ReadBack(prefix, deleted, route).upstreamHeaders == HashGetAll(store, headersKey) by {
      assert SameAt(store, deleted, headersKey);
      assert HashGetAll(deleted, headersKey) + route.upstreamHeaders == HashGetAll(deleted, headersKey);
    }
  }

  /** After a delete the route reads as NotFound, and deleting it again changes nothing. */
  lemma DeleteRouteTwice(prefix: string, store: Store, host: string)
    ensures var once := DeleteRoute(prefix, store, host);
            && GetRoute(prefix, once, host) == Err(NotFound)
            && DeleteRoute(prefix, once, host) == once
  {
  }

  /** Every entry of this prefix holds the kind of value its key's kind calls for. */
  ghost predicate WellShaped(prefix: string, store: Store)
  {
    forall kind: Kind, source: string :: Key(prefix, kind, source) in store ==>
      store[Key(prefix, kind, source)].value.Hash? == kind.IsHash()
  }

  /** The keys of the written source keep the shape their kind calls for. */
  lemma CreateRouteShapesOwnKeys(prefix: string, store: Store, route: Route, kind: Kind)
    requires WellShaped(prefix, store)
    ensures var r := CreateRoute(prefix, store, route).store;
            var key := Key(prefix, kind, route.source);
            key in r ==> r[key].value.Hash? == kind.IsHash()
  {
    var host := route.source;
    var key := Key(prefix, kind, host);
    match kind
    case Routes =>
      SetRouteWritesTarget(prefix, store, route);
    case Settings =>
      SetRouteHashesStayHashes(prefix, store, route);
    case UpstreamHeaders =>
      SetRouteHashesStayHashes(prefix, store, route);
    case ValidationCookieName =>
      SetRouteCookieBothOrNeither(prefix, store, route);
    case ValidationCookieValue =>
      SetRouteCookieBothOrNeither(prefix, store, route);
  }

  lemma CreateRoutePreservesShape(prefix: string, store: Store, route: Route)
    requires WellShaped(prefix, store)
    ensures WellShaped(prefix, CreateRoute(prefix, store, route).store)
  {
    var r := CreateRoute(prefix, store, route).store;
    forall kind: Kind, source: string | Key(prefix, kind, source) in r
      ensures r[Key(prefix, kind, source)].value.Hash? == kind.IsHash()
    {
      KeyInSourceKeys(prefix, kind, source, route.source);
      if source == route.source {
        CreateRouteShapesOwnKeys(prefix, store, route, kind);
      } else {
        assert SameAt(store, r, Key(prefix, kind, source));
      }
    }
  }

  lemma DeleteRoutePreservesShape(prefix: string, store: Store, host: string)
    requires WellShaped(prefix, store)
    ensures WellShaped(prefix, DeleteRoute(prefix, store, host))
  {
    var r := DeleteRoute(prefix, store, host);
    forall kind: Kind, source: string | Key(prefix, kind, source) in r
      ensures r[Key(prefix, kind, source)].value.Hash? == kind.IsHash()
    {
      assert SameAt(store, r, Key(prefix, kind, source));
    }
  }

  /** In a well-shaped store a route is NotFound exactly when its route key is missing. */
  lemma NotFoundIffRouteKeyMissing(prefix: string, store: Store, host: string)
    requires WellShaped(prefix, store)
    ensures GetRoute(prefix, store, host).Err? <==> RouteKey(prefix, host) !in store
  {
    var key := Key(prefix, Routes, host);
    assert key == RouteKey(prefix, host);
    if key in store {
      assert !store[key].value.Hash?;
    }
  }

  /** Creating a route adds its source to the hosts that have a route, and nothing else. */
  lemma RouteHostsAfterCreateRoute(prefix: string, store: Store, route: Route)
    ensures RouteHosts(prefix, CreateRoute(prefix, store, route).store) == RouteHosts(prefix, store) + {route.source}
  {
    var r := CreateRoute(prefix, store, route).store;
    RouteHostsMembership(prefix, store);
    RouteHostsMembership(prefix, r);
    forall host
      ensures host in RouteHosts(prefix, r) <==> host in RouteHosts(prefix, store) + {route.source}
    {
      KeyInSourceKeys(prefix, Routes, host, route.source);
      assert host != route.source ==> SameAt(store, r, RouteKey(prefix, host));
    }
  }

  /** Deleting a route removes its source from the hosts that have a route, and nothing else. */
  lemma RouteHostsAfterDeleteRoute(prefix: string, store: Store, host: string)
    ensures RouteHosts(prefix, DeleteRoute(prefix, store, host)) == RouteHosts(prefix, store) - {host}
  {
    var r := DeleteRoute(prefix, store, host);
    RouteHostsMembership(prefix, store);
    RouteHostsMembership(prefix, r);
    forall other
      ensures other in RouteHosts(prefix, r) <==> other in RouteHosts(prefix, store) - {host}
    {
      KeyInjective(prefix, Routes, other, Routes, host);
      KeyInjective(prefix, Routes, other, Settings, host);
      assert other != host ==> SameAt(store, r, RouteKey(prefix, other));
    }
  }

  /** The keys matched by the host listing are route keys, never settings, header or cookie keys. */
  lemma ListingMatchesOnlyRouteKeys(prefix: string, store: Store, kind: Kind, source: string)
    requires Literal(prefix)
    requires Key(prefix, kind, source) in Keys(store, RouteKey(prefix, "*"))
    ensures kind == Routes
  {
    var key := Key(prefix, kind, source);
    RoutePatternMatches(prefix, key);
    RoutePrefixedIsRouteKey(prefix, key);
    KeyInjective(prefix, kind, source, Routes, key[|RoutePrefix(prefix)|..]);
  }
}
