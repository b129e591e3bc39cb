/**
 The route store: one route is written as up to five backend entries under
 keys derived from its source host, read back, deleted and enumerated. Each
 private write or delete step is the list of backend calls it issues; a
 public operation runs its calls against the backend's contents in order.
 */
module RouteStore {
  import opened Results
  import opened Redis
  import opened KeySpace
  import opened Routes

  /** The backend after a create or update, and the route the call returns. */
  datatype Saved = Saved(store: Store, route: Route)

  /** The five keys of one source are pairwise different. */
  lemma SourceKeysDistinct(prefix: string, source: string)
    ensures RouteKey(prefix, source) != SettingsKey(prefix, source)
    ensures RouteKey(prefix, source) != UpstreamHeadersKey(prefix, source)
    ensures RouteKey(prefix, source) != ValidationCookieNameKey(prefix, source)
    ensures RouteKey(prefix, source) != ValidationCookieValueKey(prefix, source)
    ensures SettingsKey(prefix, source) != UpstreamHeadersKey(prefix, source)
    ensures SettingsKey(prefix, source) != ValidationCookieNameKey(prefix, source)
    ensures SettingsKey(prefix, source) != ValidationCookieValueKey(prefix, source)
    ensures UpstreamHeadersKey(prefix, source) != ValidationCookieNameKey(prefix, source)
    ensures UpstreamHeadersKey(prefix, source) != ValidationCookieValueKey(prefix, source)
    ensures ValidationCookieNameKey(prefix, source) != ValidationCookieValueKey(prefix, source)
  {
    KeyInjective(prefix, Routes, source, Settings, source);
    KeyInjective(prefix, Routes, source, UpstreamHeaders, source);
    KeyInjective(prefix, Routes, source, ValidationCookieName, source);
    KeyInjective(prefix, Routes, source, ValidationCookieValue, source);
    KeyInjective(prefix, Settings, source, UpstreamHeaders, source);
    KeyInjective(prefix, Settings, source, ValidationCookieName, source);
    KeyInjective(prefix, Settings, source, ValidationCookieValue, source);
    KeyInjective(prefix, UpstreamHeaders, source, ValidationCookieName, source);
    KeyInjective(prefix, UpstreamHeaders, source, ValidationCookieValue, source);
    KeyInjective(prefix, ValidationCookieName, source, ValidationCookieValue, source);
  }

  // ---------------------------------------------------------------- writes

  /** An EXPIRE after a write when the ttl is set, nothing otherwise. */
  function ExpireIfSet(key: string, ttl: nat): seq<Command>
  {
    if ttl != 0 then [ExpireCmd(key, ttl)] else []
  }

  function SetTarget(prefix: string, host: string, target: string, ttl: nat): seq<Command>
  {
    var key := RouteKey(prefix, host);
    [SetCmd(key, target)] + ExpireIfSet(key, ttl)
  }

  function SetSettings(prefix: string, host: string, settings: map<string, string>, ttl: nat): seq<Command>
  {
    var key := SettingsKey(prefix, host);
    [HashSetCmd(key, settings)] + ExpireIfSet(key, ttl)
  }

  /** No call at all when there are no headers. */
  function SetUpstreamHeaders(prefix: string, host: string, headers: map<string, string>, ttl: nat): seq<Command>
  {
    if |headers| == 0 then []
    else
      var key := UpstreamHeadersKey(prefix, host);
      [HashSetCmd(key, headers)] + ExpireIfSet(key, ttl)
  }

  /** No call at all unless both name and value are non-empty. */
  function SetValidationCookie(prefix: string, host: string, name: string, value: string, ttl: nat): seq<Command>
  {
    if |name| == 0 || |value| == 0 then []
    else
      var nameKey := ValidationCookieNameKey(prefix, host);
      var valueKey := ValidationCookieValueKey(prefix, host);
      [SetCmd(nameKey, name)] + ExpireIfSet(nameKey, ttl) + [SetCmd(valueKey, value)] + ExpireIfSet(valueKey, ttl)
  }

  /** The cookie calls of `_set_route`: made only when both cookie fields are present. */
  function SetRouteCookie(prefix: string, route: Route): seq<Command>
  {
    var data := ToRedis(route);
    if data.validationCookieName.Some? && data.validationCookieValue.Some? then
      SetValidationCookie(prefix, route.source, data.validationCookieName.value, data.validationCookieValue.value, route.ttl)
    else []
  }

  /** The calls that write one route: target, settings, headers, then the cookie pair. */
  function SetRoute(prefix: string, route: Route): seq<Command>
  {
    var data := ToRedis(route);
    SetTarget(prefix, route.source, data.target, route.ttl)
    + SetSettings(prefix, route.source, data.settings, route.ttl)
    + SetUpstreamHeaders(prefix, route.source, data.upstreamHeaders, route.ttl)
    + SetRouteCookie(prefix, route)
  }

  /** Whether the encoded route carries a cookie pair that `SetRoute` writes. */
  predicate WritesValidationCookie(data: RedisData)
  {
    && data.validationCookieName.Some? && data.validationCookieValue.Some?
    && |data.validationCookieName.value| > 0 && |data.validationCookieValue.value| > 0
  }

  // ---------------------------------------------------------------- the calls each write step issues

  /** Every call names one of the given keys. */
  predicate TouchesOnly(commands: seq<Command>, keys: set<string>)
  {
    forall i :: 0 <= i < |commands| ==> commands[i].key in keys
  }

  predicate NoExpire(commands: seq<Command>)
  {
    forall i :: 0 <= i < |commands| ==> !commands[i].ExpireCmd?
  }

  /** Every SET or HMSET is immediately followed by an EXPIRE of the same key for `ttl` seconds. */
  predicate ExpiresEachWrite(commands: seq<Command>, ttl: nat)
  {
    forall i :: 0 <= i < |commands| && commands[i].Writes() ==>
      i + 1 < |commands| && commands[i + 1] == ExpireCmd(commands[i].key, ttl)
  }

  /** The three properties above survive concatenation. */
  lemma CallsAppend(first: seq<Command>, second: seq<Command>, keys: set<string>, ttl: nat)
    ensures TouchesOnly(first, keys) && TouchesOnly(second, keys) ==> TouchesOnly(first + second, keys)
    ensures NoExpire(first) && NoExpire(second) ==> NoExpire(first + second)
    ensures ExpiresEachWrite(first, ttl) && ExpiresEachWrite(second, ttl) ==> ExpiresEachWrite(first + second, ttl)
  {
    var both := first + second;
    if ExpiresEachWrite(first, ttl) && ExpiresEachWrite(second, ttl) {
      forall i | 0 <= i < |both| && both[i].Writes()
        ensures i + 1 < |both| && both[i + 1] == ExpireCmd(both[i].key, ttl)
      {
        if i >= |first| {
          assert both[i] == second[i - |first|];
        }
      }
    }
  }

  lemma WriteStepCalls(key: string, write: Command, ttl: nat, keys: set<string>)
    requires write.Writes() && write.key == key && key in keys
    ensures TouchesOnly([write] + ExpireIfSet(key, ttl), keys)
    ensures ttl == 0 ==> NoExpire([write] + ExpireIfSet(key, ttl))
    ensures ttl > 0 ==> ExpiresEachWrite([write] + ExpireIfSet(key, ttl), ttl)
  {
  }

  /** The cookie calls, when made, are the name's SET (and EXPIRE) followed by the value's. */
  lemma SetValidationCookieCalls(prefix: string, host: string, name: string, value: string, ttl: nat, keys: set<string>)
    requires ValidationCookieNameKey(prefix, host) in keys && ValidationCookieValueKey(prefix, host) in keys
    ensures var calls := SetValidationCookie(prefix, host, name, value, ttl);
            && TouchesOnly(calls, keys)
            && (ttl == 0 ==> NoExpire(calls))
            && (ttl > 0 ==> ExpiresEachWrite(calls, ttl))
            && (|name| > 0 && |value| > 0 ==>
                  SetCmd(ValidationCookieNameKey(prefix, host), name) in calls &&
                  SetCmd(ValidationCookieValueKey(prefix, host), value) in calls)
  {
    if |name| > 0 && |value| > 0 {
      var nameKey, valueKey := ValidationCookieNameKey(prefix, host), ValidationCookieValueKey(prefix, host);
      var namePart := [SetCmd(nameKey, name)] + ExpireIfSet(nameKey, ttl);
      var valuePart := [SetCmd(valueKey, value)] + ExpireIfSet(valueKey, ttl);
      assert SetValidationCookie(prefix, host, name, value, ttl) == namePart + valuePart;
      WriteStepCalls(nameKey, SetCmd(nameKey, name), ttl, keys);
      WriteStepCalls(valueKey, SetCmd(valueKey, value), ttl, keys);
      CallsAppend(namePart, valuePart, keys, ttl);
      assert (namePart + valuePart)[0] == SetCmd(nameKey, name);
      assert (namePart + valuePart)[|namePart|] == SetCmd(valueKey, value);
    }
  }

  /** The four steps of `_set_route`, each measured against one key set. */
  lemma SetRouteStepCalls(prefix: string, route: Route, keys: set<string>)
    requires RouteKey(prefix, route.source) in keys && SettingsKey(prefix, route.source) in keys
    requires |route.upstreamHeaders| > 0 ==> UpstreamHeadersKey(prefix, route.source) in keys
    requires |SetRouteCookie(prefix, route)| > 0 ==>
               ValidationCookieNameKey(prefix, route.source) in keys && ValidationCookieValueKey(prefix, route.source) in keys
    ensures TouchesOnly(SetRoute(prefix, route), keys)
    ensures route.ttl == 0 ==> NoExpire(SetRoute(prefix, route))
    ensures route.ttl > 0 ==> ExpiresEachWrite(SetRoute(prefix, route), route.ttl)
  {
    var host, ttl := route.source, route.ttl;
    var routeKey, settingsKey, headersKey := RouteKey(prefix, host), SettingsKey(prefix, host), UpstreamHeadersKey(prefix, host);
    var target := SetTarget(prefix, host, route.target, ttl);
    var settings := SetSettings(prefix, host, route.settings, ttl);
    var headers := SetUpstreamHeaders(prefix, host, route.upstreamHeaders, ttl);
    var cookie := SetRouteCookie(prefix, route);
    assert SetRoute(prefix, route) == target + settings + headers + cookie;
    WriteStepCalls(routeKey, SetCmd(routeKey, route.target), ttl, keys);
    WriteStepCalls(settingsKey, HashSetCmd(settingsKey, route.settings), ttl, keys);
    if |route.upstreamHeaders| > 0 {
      WriteStepCalls(headersKey, HashSetCmd(headersKey, route.upstreamHeaders), ttl, keys);
    }
    if |cookie| > 0 {
      SetValidationCookieCalls(prefix, host, route.validationCookieName.value, route.validationCookieValue.value, ttl, keys);
    }
    CallsAppend(target, settings, keys, ttl);
    CallsAppend(target + settings, headers, keys, ttl);
    CallsAppend(target + settings + headers, cookie, keys, ttl);
  }

  /**
   What `_set_route` sends: calls on the route's own keys only, the target
   first, nothing on the headers key when there are no headers, the cookie
   keys both or neither, and an EXPIRE for `ttl` after every write exactly
   when `ttl` is set.
   */
  lemma SetRouteCalls(prefix: string, route: Route)
    ensures TouchesOnly(SetRoute(prefix, route), SourceKeys(prefix, route.source))
    ensures SetRoute(prefix, route)[0] == SetCmd(RouteKey(prefix, route.source), route.target)
    ensures route.ttl == 0 ==> NoExpire(SetRoute(prefix, route))
    ensures route.ttl > 0 ==> ExpiresEachWrite(SetRoute(prefix, route), route.ttl)
    ensures |route.upstreamHeaders| == 0 ==>
              TouchesOnly(SetRoute(prefix, route), SourceKeys(prefix, route.source) - {UpstreamHeadersKey(prefix, route.source)})
    ensures WritesValidationCookie(ToRedis(route)) ==>
              && SetCmd(ValidationCookieNameKey(prefix, route.source), route.validationCookieName.value) in SetRoute(prefix, route)
              && SetCmd(ValidationCookieValueKey(prefix, route.source), route.validationCookieValue.value) in SetRoute(prefix, route)
    ensures !WritesValidationCookie(ToRedis(route)) ==>
              TouchesOnly(SetRoute(prefix, route),
                          SourceKeys(prefix, route.source)
                          - {ValidationCookieNameKey(prefix, route.source), ValidationCookieValueKey(prefix, route.source)})
  {
    var host := route.source;
    SourceKeysDistinct(prefix, host);
    var all := SourceKeys(prefix, host);
    SetRouteStepCalls(prefix, route, all);
    if |route.upstreamHeaders| == 0 {
      SetRouteStepCalls(prefix, route, all - {UpstreamHeadersKey(prefix, host)});
    }
    var cookie := SetRouteCookie(prefix, route);
    if WritesValidationCookie(ToRedis(route)) {
      SetValidationCookieCalls(prefix, host, route.validationCookieName.value, route.validationCookieValue.value, route.ttl, all);
      assert SetRoute(prefix, route) == SetTarget(prefix, host, route.target, route.ttl)
        + SetSettings(prefix, host, route.settings, route.ttl)
        + SetUpstreamHeaders(prefix, host, route.upstreamHeaders, route.ttl) + cookie;
    } else {
      assert |cookie| == 0;
      SetRouteStepCalls(prefix, route, all - {ValidationCookieNameKey(prefix, host), ValidationCookieValueKey(prefix, host)});
    }
  }

  // ---------------------------------------------------------------- what each write step does to the backend

  lemma SetTargetEffect(prefix: string, store: Store, host: string, target: string, ttl: nat)
    ensures Run(store, SetTarget(prefix, host, target, ttl)) == store[RouteKey(prefix, host) := Entry(Str(target), ttl)]
  {
    var key := RouteKey(prefix, host);
    RunAppend(store, [SetCmd(key, target)], ExpireIfSet(key, ttl));
    RunSingle(store, SetCmd(key, target));
    if ttl != 0 {
      RunSingle(Set(store, key, target), ExpireCmd(key, ttl));
    }
  }

  /** Writing settings changes the settings key only, and with no ttl sets no expiry. */
  lemma SetSettingsFrame(prefix: string, store: Store, host: string, settings: map<string, string>, ttl: nat)
    ensures var r := Run(store, SetSettings(prefix, host, settings, ttl));
            && SameOutside(store, r, {SettingsKey(prefix, host)})
            && (ttl == 0 ==> NoNewExpiry(store, r))
  {
    var key := SettingsKey(prefix, host);
    WriteStepCalls(key, HashSetCmd(key, settings), ttl, {key});
    RunFrame(store, SetSettings(prefix, host, settings, ttl), {key});
    if ttl == 0 {
      RunWithoutExpire(store, SetSettings(prefix, host, settings, ttl));
    }
  }

  /** Settings are merged into the stored hash; its expiry is replaced only when ttl is set. */
  lemma SetSettingsEffect(prefix: string, store: Store, host: string, settings: map<string, string>, ttl: nat)
    ensures var r := Run(store, SetSettings(prefix, host, settings, ttl));
            var key := SettingsKey(prefix, host);
            && HashGetAll(r, key) == HashGetAll(store, key) + settings
            && (key in r <==> key in store || |settings| > 0)
            && (|settings| > 0 ==> r[key].value.Hash?)
            && (|settings| == 0 && key in r ==> r[key].value == store[key].value)
            && (ttl > 0 && key in r ==> r[key].ttl == ttl)
            && (ttl == 0 && key in store && store[key].value.Hash? ==> key in r && r[key].ttl == store[key].ttl)
  {
    var key := SettingsKey(prefix, host);
    var written := HashSet(store, key, settings);
    RunAppend(store, [HashSetCmd(key, settings)], ExpireIfSet(key, ttl));
    RunSingle(store, HashSetCmd(key, settings));
    if ttl != 0 {
      RunSingle(written, ExpireCmd(key, ttl));
    } else {
      assert Run(written, []) == written;
    }
    if |settings| == 0 {
      assert HashGetAll(store, key) + settings == HashGetAll(store, key);
    }
  }

  /** Headers are merged into the stored hash when there are any; otherwise nothing changes. */
  lemma SetUpstreamHeadersEffect(prefix: string, store: Store, host: string, headers: map<string, string>, ttl: nat)
    ensures var r := Run(store, SetUpstreamHeaders(prefix, host, headers, ttl));
            var key := UpstreamHeadersKey(prefix, host);
            && (|headers| == 0 ==> r == store)
            && (|headers| > 0 ==>
                  r == store[key := Entry(Hash(HashGetAll(store, key) + headers), if ttl > 0 then ttl else HashTtl(store, key))])
  {
    if |headers| > 0 {
      var key := UpstreamHeadersKey(prefix, host);
      var calls := [HashSetCmd(key, headers)] + ExpireIfSet(key, ttl);
      assert SetUpstreamHeaders(prefix, host, headers, ttl) == calls;
      var merged := Entry(Hash(HashGetAll(store, key) + headers), HashTtl(store, key));
      var written := HashSet(store, key, headers);
      assert written == store[key := merged];
      RunAppend(store, [HashSetCmd(key, headers)], ExpireIfSet(key, ttl));
      RunSingle(store, HashSetCmd(key, headers));
      if ttl != 0 {
        RunSingle(written, ExpireCmd(key, ttl));
        assert Expire(written, key, ttl) == store[key := merged.(ttl := ttl)];
      } else {
        assert Run(written, []) == written;
      }
    }
  }

  /** Both cookie keys are written, with the same expiry, or neither is touched. */
  lemma SetValidationCookieEffect(prefix: string, store: Store, host: string, name: string, value: string, ttl: nat)
    ensures var r := Run(store, SetValidationCookie(prefix, host, name, value, ttl));
            && (|name| == 0 || |value| == 0 ==> r == store)
            && (|name| > 0 && |value| > 0 ==>
                  r == store[ValidationCookieNameKey(prefix, host) := Entry(Str(name), ttl)]
                            [ValidationCookieValueKey(prefix, host) := Entry(Str(value), ttl)])
  {
    if |name| > 0 && |value| > 0 {
      var nameKey, valueKey := ValidationCookieNameKey(prefix, host), ValidationCookieValueKey(prefix, host);
      var namePart := [SetCmd(nameKey, name)] + ExpireIfSet(nameKey, ttl);
      var valuePart := [SetCmd(valueKey, value)] + ExpireIfSet(valueKey, ttl);
      assert SetValidationCookie(prefix, host, name, value, ttl) == namePart + valuePart;
      RunAppend(store, namePart, valuePart);
      var withName := Run(store, namePart);
      RunAppend(store, [SetCmd(nameKey, name)], ExpireIfSet(nameKey, ttl));
      RunSingle(store, SetCmd(nameKey, name));
      if ttl != 0 {
        RunSingle(Set(store, nameKey, name), ExpireCmd(nameKey, ttl));
      }
      assert withName == store[nameKey := Entry(Str(name), ttl)];
      RunAppend(withName, [SetCmd(valueKey, value)], ExpireIfSet(valueKey, ttl));
      RunSingle(withName, SetCmd(valueKey, value));
      if ttl != 0 {
        RunSingle(Set(withName, valueKey, value), ExpireCmd(valueKey, ttl));
      }
    }
  }

  // ---------------------------------------------------------------- what `_set_route` does to the backend

  /** The backend after the target and settings calls of `_set_route`. */
  function TargetAndSettingsWritten(prefix: string, store: Store, route: Route): Store
  {
    var withTarget := Run(store, SetTarget(prefix, route.source, route.target, route.ttl));
    Run(withTarget, SetSettings(prefix, route.source, route.settings, route.ttl))
  }

  /** The backend after the target, settings and headers calls of `_set_route`. */
  function WrittenUpToHeaders(prefix: string, store: Store, route: Route): Store
  {
    Run(TargetAndSettingsWritten(prefix, store, route), SetUpstreamHeaders(prefix, route.source, route.upstreamHeaders, route.ttl))
  }

  /** The target and settings calls leave every other key as it was. */
  lemma TargetAndSettingsKeep(prefix: string, store: Store, route: Route, key: string)
    requires key != RouteKey(prefix, route.source) && key != SettingsKey(prefix, route.source)
    ensures SameAt(store, TargetAndSettingsWritten(prefix, store, route), key)
  {
    var withTarget := Run(store, SetTarget(prefix, route.source, route.target, route.ttl));
    SetTargetEffect(prefix, store, route.source, route.target, route.ttl);
    SetSettingsFrame(prefix, withTarget, route.source, route.settings, route.ttl);
    assert SameAt(withTarget, TargetAndSettingsWritten(prefix, store, route), key);
  }

  /** Running the calls of `_set_route` is running its four steps one after the other. */
  lemma SetRouteStages(prefix: string, store: Store, route: Route)
    ensures Run(store, SetRoute(prefix, route)) == Run(WrittenUpToHeaders(prefix, store, route), SetRouteCookie(prefix, route))
  {
    var host, ttl := route.source, route.ttl;
    var target := SetTarget(prefix, host, route.target, ttl);
    var settings := SetSettings(prefix, host, route.settings, ttl);
    var headers := SetUpstreamHeaders(prefix, host, route.upstreamHeaders, ttl);
    var cookie := SetRouteCookie(prefix, route);
    assert SetRoute(prefix, route) == target + settings + headers + cookie;
    RunAppend(store, target + settings + headers, cookie);
    RunAppend(store, target + settings, headers);
    RunAppend(store, target, settings);
  }

  /** The cookie step of `_set_route` writes both keys or leaves the backend as it was. */
  lemma SetRouteCookieEffect(prefix: string, store: Store, route: Route)
    ensures var r := Run(store, SetRouteCookie(prefix, route));
            && (WritesValidationCookie(ToRedis(route)) ==>
                  r == store[ValidationCookieNameKey(prefix, route.source) := Entry(Str(route.validationCookieName.value), route.ttl)]
                            [ValidationCookieValueKey(prefix, route.source) := Entry(Str(route.validationCookieValue.value), route.ttl)])
            && (!WritesValidationCookie(ToRedis(route)) ==> r == store)
  {
    if route.validationCookieName.Some? && route.validationCookieValue.Some? {
      SetValidationCookieEffect(prefix, store, route.source, route.validationCookieName.value,
                                route.validationCookieValue.value, route.ttl);
    } else {
      assert SetRouteCookie(prefix, route) == [];
    }
  }

  /** The target and settings calls write the target and merge the settings. */
  lemma TargetAndSettingsWrite(prefix: string, store: Store, route: Route)
    ensures var ws := TargetAndSettingsWritten(prefix, store, route);
            var routeKey, settingsKey := RouteKey(prefix, route.source), SettingsKey(prefix, route.source);
            && routeKey in ws && ws[routeKey] == Entry(Str(route.target), route.ttl)
            && HashGetAll(ws, settingsKey) == HashGetAll(store, settingsKey) + route.settings
            && (|route.settings| > 0 ==> settingsKey in ws)
            && (route.ttl > 0 && settingsKey in ws ==> ws[settingsKey].ttl == route.ttl)
            && (settingsKey in ws ==> ws[settingsKey].value.Hash? || (settingsKey in store && ws[settingsKey].value == store[settingsKey].value))
  {
    var host, ttl := route.source, route.ttl;
    var routeKey, settingsKey := RouteKey(prefix, host), SettingsKey(prefix, host);
    SourceKeysDistinct(prefix, host);
    var withTarget := Run(store, SetTarget(prefix, host, route.target, ttl));
    SetTargetEffect(prefix, store, host, route.target, ttl);
    SetSettingsEffect(prefix, withTarget, host, route.settings, ttl);
    SetSettingsFrame(prefix, withTarget, host, route.settings, ttl);
    assert SameAt(withTarget, TargetAndSettingsWritten(prefix, store, route), routeKey);
    assert SameAt(store, withTarget, settingsKey);
  }

  /** The headers call leaves every key but the headers key as it was. */
  lemma HeadersStepKeeps(prefix: string, store: Store, route: Route, key: string)
    requires key != UpstreamHeadersKey(prefix, route.source)
    ensures SameAt(TargetAndSettingsWritten(prefix, store, route), WrittenUpToHeaders(prefix, store, route), key)
  {
    SetUpstreamHeadersEffect(prefix, TargetAndSettingsWritten(prefix, store, route), route.source, route.upstreamHeaders, route.ttl);
  }

  /** The target and settings steps: the target is written and the settings merged. */
  lemma UpToHeadersWritesTargetAndSettings(prefix: string, store: Store, route: Route)
    ensures var w := WrittenUpToHeaders(prefix, store, route);
            var routeKey, settingsKey := RouteKey(prefix, route.source), SettingsKey(prefix, route.source);
            && routeKey in w && w[routeKey] == Entry(Str(route.target), route.ttl)
            && HashGetAll(w, settingsKey) == HashGetAll(store, settingsKey) + route.settings
            && (|route.settings| > 0 ==> settingsKey in w)
            && (route.ttl > 0 && settingsKey in w ==> w[settingsKey].ttl == route.ttl)
            && (settingsKey in w ==> w[settingsKey].value.Hash? || (settingsKey in store && w[settingsKey].value == store[settingsKey].value))
  {
    SourceKeysDistinct(prefix, route.source);
    TargetAndSettingsWrite(prefix, store, route);
    HeadersStepKeeps(prefix, store, route, RouteKey(prefix, route.source));
    HeadersStepKeeps(prefix, store, route, SettingsKey(prefix, route.source));
  }

  /** The headers step merges non-empty headers and otherwise leaves the headers key alone. */
  lemma UpToHeadersWritesHeaders(prefix: string, store: Store, route: Route)
    ensures var w := WrittenUpToHeaders(prefix, store, route);
            var headersKey := UpstreamHeadersKey(prefix, route.source);
            && (|route.upstreamHeaders| == 0 ==> SameAt(store, w, headersKey))
            && (|route.upstreamHeaders| > 0 ==>
                  && headersKey in w && w[headersKey].value.Hash?
                  && HashGetAll(w, headersKey) == HashGetAll(store, headersKey) + route.upstreamHeaders
                  && (route.ttl > 0 ==> w[headersKey].ttl == route.ttl))
  {
    var headersKey := UpstreamHeadersKey(prefix, route.source);
    var ws := TargetAndSettingsWritten(prefix, store, route);
    SourceKeysDistinct(prefix, route.source);
    TargetAndSettingsKeep(prefix, store, route, headersKey);
    SetUpstreamHeadersEffect(prefix, ws, route.source, route.upstreamHeaders, route.ttl);
    if |route.upstreamHeaders| > 0 {
      assert HashGetAll(ws, headersKey) == HashGetAll(store, headersKey);
      var merged := Hash(HashGetAll(store, headersKey) + route.upstreamHeaders);
      assert WrittenUpToHeaders(prefix, store, route)[headersKey].value == merged;
    }
  }

  /** The target, settings and headers steps leave the cookie keys alone. */
  lemma UpToHeadersKeepsCookie(prefix: string, store: Store, route: Route)
    ensures var w := WrittenUpToHeaders(prefix, store, route);
            && SameAt(store, w, ValidationCookieNameKey(prefix, route.source))
            && SameAt(store, w, ValidationCookieValueKey(prefix, route.source))
  {
    SourceKeysDistinct(prefix, route.source);
    TargetAndSettingsKeep(prefix, store, route, ValidationCookieNameKey(prefix, route.source));
    TargetAndSettingsKeep(prefix, store, route, ValidationCookieValueKey(prefix, route.source));
    HeadersStepKeeps(prefix, store, route, ValidationCookieNameKey(prefix, route.source));
    HeadersStepKeeps(prefix, store, route, ValidationCookieValueKey(prefix, route.source));
  }

  /** The route key holds the new target, with the route's ttl as its expiry. */
  lemma SetRouteWritesTarget(prefix: string, store: Store, route: Route)
    ensures var r := Run(store, SetRoute(prefix, route));
            RouteKey(prefix, route.source) in r && r[RouteKey(prefix, route.source)] == Entry(Str(route.target), route.ttl)
  {
    SourceKeysDistinct(prefix, route.source);
    SetRouteStages(prefix, store, route);
    UpToHeadersWritesTargetAndSettings(prefix, store, route);
    SetRouteCookieEffect(prefix, WrittenUpToHeaders(prefix, store, route), route);
  }

  /** Settings and headers are merged field by field into what was stored; empty headers write nothing. */
  lemma SetRouteMergesHashes(prefix: string, store: Store, route: Route)
    ensures var r := Run(store, SetRoute(prefix, route));
            var settingsKey := SettingsKey(prefix, route.source);
            HashGetAll(r, settingsKey) == HashGetAll(store, settingsKey) + route.settings
    ensures var r := Run(store, SetRoute(prefix, route));
            |route.upstreamHeaders| == 0 ==> SameAt(store, r, UpstreamHeadersKey(prefix, route.source))
    ensures var r := Run(store, SetRoute(prefix, route));
            var headersKey := UpstreamHeadersKey(prefix, route.source);
            |route.upstreamHeaders| > 0 ==>
              HashGetAll(r, headersKey) == HashGetAll(store, headersKey) + route.upstreamHeaders
  {
    var host := route.source;
    var w := WrittenUpToHeaders(prefix, store, route);
    var r := Run(store, SetRoute(prefix, route));
    SourceKeysDistinct(prefix, host);
    SetRouteStages(prefix, store, route);
    UpToHeadersWritesTargetAndSettings(prefix, store, route);
    UpToHeadersWritesHeaders(prefix, store, route);
    SetRouteCookieEffect(prefix, w, route);
    assert SameAt(w, r, SettingsKey(prefix, host)) && SameAt(w, r, UpstreamHeadersKey(prefix, host));
  }

  /** Both hash keys hold a hash after the write, unless they keep the value they had. */
  lemma SetRouteHashesStayHashes(prefix: string, store: Store, route: Route)
    ensures var r := Run(store, SetRoute(prefix, route));
            var settingsKey := SettingsKey(prefix, route.source);
            settingsKey in r ==> r[settingsKey].value.Hash? || (settingsKey in store && r[settingsKey].value == store[settingsKey].value)
    ensures var r := Run(store, SetRoute(prefix, route));
            var headersKey := UpstreamHeadersKey(prefix, route.source);
            headersKey in r ==> r[headersKey].value.Hash? || (headersKey in store && r[headersKey].value == store[headersKey].value)
  {
    var host := route.source;
    var w := WrittenUpToHeaders(prefix, store, route);
    var r := Run(store, SetRoute(prefix, route));
    SourceKeysDistinct(prefix, host);
    SetRouteStages(prefix, store, route);
    UpToHeadersWritesTargetAndSettings(prefix, store, route);
    UpToHeadersWritesHeaders(prefix, store, route);
    SetRouteCookieEffect(prefix, w, route);
    assert SameAt(w, r, SettingsKey(prefix, host)) && SameAt(w, r, UpstreamHeadersKey(prefix, host));
  }

  /** The cookie name and value are written together, or neither key is touched. */
  lemma SetRouteCookieBothOrNeither(prefix: string, store: Store, route: Route)
    ensures var r := Run(store, SetRoute(prefix, route));
            var nameKey, valueKey := ValidationCookieNameKey(prefix, route.source), ValidationCookieValueKey(prefix, route.source);
            WritesValidationCookie(ToRedis(route)) ==>
              && nameKey in r && r[nameKey] == Entry(Str(route.validationCookieName.value), route.ttl)
              && valueKey in r && r[valueKey] == Entry(Str(route.validationCookieValue.value), route.ttl)
    ensures var r := Run(store, SetRoute(prefix, route));
            !WritesValidationCookie(ToRedis(route)) ==>
              && SameAt(store, r, ValidationCookieNameKey(prefix, route.source))
              && SameAt(store, r, ValidationCookieValueKey(prefix, route.source))
  {
    SourceKeysDistinct(prefix, route.source);
    SetRouteStages(prefix, store, route);
    UpToHeadersKeepsCookie(prefix, store, route);
    SetRouteCookieEffect(prefix, WrittenUpToHeaders(prefix, store, route), route);
  }

  /** A positive ttl becomes the expiry of every key `_set_route` writes, and of an existing settings hash. */
  lemma SetRoutePositiveTtl(prefix: string, store: Store, route: Route)
    requires route.ttl > 0
    ensures var r := Run(store, SetRoute(prefix, route));
            var routeKey, settingsKey := RouteKey(prefix, route.source), SettingsKey(prefix, route.source);
            && routeKey in r && r[routeKey].ttl == route.ttl
            && (settingsKey in r ==> r[settingsKey].ttl == route.ttl)
            && (|route.settings| > 0 ==> settingsKey in r)
    ensures var r := Run(store, SetRoute(prefix, route));
            var headersKey := UpstreamHeadersKey(prefix, route.source);
            |route.upstreamHeaders| > 0 ==> headersKey in r && r[headersKey].ttl == route.ttl
    ensures var r := Run(store, SetRoute(prefix, route));
            var nameKey, valueKey := ValidationCookieNameKey(prefix, route.source), ValidationCookieValueKey(prefix, route.source);
            WritesValidationCookie(ToRedis(route)) ==>
              nameKey in r && r[nameKey].ttl == route.ttl && valueKey in r && r[valueKey].ttl == route.ttl
  {
    var host := route.source;
    var w := WrittenUpToHeaders(prefix, store, route);
    var r := Run(store, SetRoute(prefix, route));
    SetRouteWritesTarget(prefix, store, route);
    SetRouteCookieBothOrNeither(prefix, store, route);
    SourceKeysDistinct(prefix, host);
    SetRouteStages(prefix, store, route);
    UpToHeadersWritesTargetAndSettings(prefix, store, route);
    UpToHeadersWritesHeaders(prefix, store, route);
    SetRouteCookieEffect(prefix, w, route);
    assert SameAt(w, r, SettingsKey(prefix, host)) && SameAt(w, r, UpstreamHeadersKey(prefix, host));
  }

  /** With ttl 0 the settings hash keeps the expiry it had, since HMSET does not touch it. */
  lemma ZeroTtlKeepsSettingsExpiry(prefix: string, store: Store, route: Route)
    requires route.ttl == 0
    ensures var r := Run(store, SetRoute(prefix, route));
            var key := SettingsKey(prefix, route.source);
            key in store && store[key].value.Hash? ==> key in r && r[key].ttl == store[key].ttl
  {
    var host, key := route.source, SettingsKey(prefix, route.source);
    var withTarget := Run(store, SetTarget(prefix, host, route.target, route.ttl));
    var w := WrittenUpToHeaders(prefix, store, route);
    SourceKeysDistinct(prefix, host);
    SetRouteStages(prefix, store, route);
    SetTargetEffect(prefix, store, host, route.target, route.ttl);
    assert SameAt(store, withTarget, key);
    SetSettingsEffect(prefix, withTarget, host, route.settings, route.ttl);
    HeadersStepKeeps(prefix, store, route, key);
    SetRouteCookieEffect(prefix, w, route);
    assert SameAt(w, Run(store, SetRoute(prefix, route)), key);
  }

  /** With ttl 0 the headers hash keeps the expiry it had, whether or not there are headers to merge. */
  lemma ZeroTtlKeepsHeadersExpiry(prefix: string, store: Store, route: Route)
    requires route.ttl == 0
    ensures var r := Run(store, SetRoute(prefix, route));
            var key := UpstreamHeadersKey(prefix, route.source);
            key in store && store[key].value.Hash? ==> key in r && r[key].ttl == store[key].ttl
  {
    var host, key := route.source, UpstreamHeadersKey(prefix, route.source);
    var ws := TargetAndSettingsWritten(prefix, store, route);
    var w := WrittenUpToHeaders(prefix, store, route);
    SourceKeysDistinct(prefix, host);
    SetRouteStages(prefix, store, route);
    TargetAndSettingsKeep(prefix, store, route, key);
    SetUpstreamHeadersEffect(prefix, ws, host, route.upstreamHeaders, route.ttl);
    SetRouteCookieEffect(prefix, w, route);
    assert SameAt(w, Run(store, SetRoute(prefix, route)), key);
  }

  /**
   A zero ttl sets no expiry: every key is persistent or keeps the expiry it
   had, and an existing settings or headers hash keeps its expiry, so an
   update with ttl 0 does not make an expiring route's hashes persistent.
   */
  lemma SetRouteZeroTtl(prefix: string, store: Store, route: Route)
    requires route.ttl == 0
    ensures NoNewExpiry(store, Run(store, SetRoute(prefix, route)))
    ensures var r := Run(store, SetRoute(prefix, route));
            var settingsKey := SettingsKey(prefix, route.source);
            settingsKey in store && store[settingsKey].value.Hash? ==>
              settingsKey in r && r[settingsKey].ttl == store[settingsKey].ttl
    ensures var r := Run(store, SetRoute(prefix, route));
            var headersKey := UpstreamHeadersKey(prefix, route.source);
            headersKey in store && store[headersKey].value.Hash? ==>
              headersKey in r && r[headersKey].ttl == store[headersKey].ttl
  {
    SetRouteCalls(prefix, route);
    RunWithoutExpire(store, SetRoute(prefix, route));
    ZeroTtlKeepsSettingsExpiry(prefix, store, route);
    ZeroTtlKeepsHeadersExpiry(prefix, store, route);
  }

  /** Only the keys of the route's source change. */
  lemma SetRouteFrame(prefix: string, store: Store, route: Route)
    ensures SameOutside(store, Run(store, SetRoute(prefix, route)), SourceKeys(prefix, route.source))
  {
    SetRouteCalls(prefix, route);
    RunFrame(store, SetRoute(prefix, route), SourceKeys(prefix, route.source));
  }

  // ---------------------------------------------------------------- deletes

  function DeleteTarget(prefix: string, host: string): seq<Command>
  {
    [DeleteCmd(RouteKey(prefix, host))]
  }

  function DeleteSettings(prefix: string, host: string): seq<Command>
  {
    [DeleteCmd(SettingsKey(prefix, host))]
  }

  function DeleteUpstreamHeaders(prefix: string, host: string): seq<Command>
  {
    [DeleteCmd(UpstreamHeadersKey(prefix, host))]
  }

  /** Removes the cookie name and the cookie value. */
  function DeleteValidationCookie(prefix: string, host: string): seq<Command>
  {
    [DeleteCmd(ValidationCookieNameKey(prefix, host)), DeleteCmd(ValidationCookieValueKey(prefix, host))]
  }

  /** The calls of the two delete helpers `delete_route` does not use remove exactly their keys. */
  lemma UnusedDeletesEffect(prefix: string, store: Store, host: string)
    ensures Run(store, DeleteUpstreamHeaders(prefix, host)) == store - {UpstreamHeadersKey(prefix, host)}
    ensures Run(store, DeleteValidationCookie(prefix, host)) ==
            store - {ValidationCookieNameKey(prefix, host), ValidationCookieValueKey(prefix, host)}
  {
    var nameKey, valueKey := ValidationCookieNameKey(prefix, host), ValidationCookieValueKey(prefix, host);
    RunSingle(store, DeleteCmd(UpstreamHeadersKey(prefix, host)));
    RunAppend(store, [DeleteCmd(nameKey)], [DeleteCmd(valueKey)]);
    assert DeleteValidationCookie(prefix, host) == [DeleteCmd(nameKey)] + [DeleteCmd(valueKey)];
    RunSingle(store, DeleteCmd(nameKey));
    RunSingle(Delete(store, nameKey), DeleteCmd(valueKey));
  }

  // ---------------------------------------------------------------- lookups

  /** The stored target of `host`; with `raiseException` a missing target is NotFound. */
  function LookupTarget(prefix: string, store: Store, host: string, raiseException: bool): (r: Result<Option<string>>)
    ensures r.Err? <==> raiseException && (RouteKey(prefix, host) !in store || !store[RouteKey(prefix, host)].value.Str?)
    ensures r.Err? ==> r.error == NotFound
    ensures r.Ok? && r.value.Some? ==> RouteKey(prefix, host) in store && store[RouteKey(prefix, host)].value == Str(r.value.value)
    ensures r.Ok? && r.value.None? ==> !raiseException
    ensures !raiseException ==>
              r.Ok? && (r.value.None? <==> RouteKey(prefix, host) !in store || !store[RouteKey(prefix, host)].value.Str?)
  {
    var target := Get(store, RouteKey(prefix, host));
    if target.None? && raiseException then Err(NotFound) else Ok(target)
  }

  function LookupSettings(prefix: string, store: Store, host: string): map<string, string>
  {
    HashGetAll(store, SettingsKey(prefix, host))
  }

  /** The upstream headers of `host`; a missing headers hash reads as no headers. */
  function LookupUpstreamHeaders(prefix: string, store: Store, host: string): (headers: map<string, string>)
    ensures UpstreamHeadersKey(prefix, host) !in store ==> headers == map[]
  {
    HashGetAll(store, UpstreamHeadersKey(prefix, host))
  }

  function LookupValidationCookieName(prefix: string, store: Store, host: string): Option<string>
  {
    Get(store, ValidationCookieNameKey(prefix, host))
  }

  function LookupValidationCookieValue(prefix: string, store: Store, host: string): Option<string>
  {
    Get(store, ValidationCookieValueKey(prefix, host))
  }

  /** GET one route: NotFound when `host` has no target, else the route reassembled from its entries. */
  function GetRoute(prefix: string, store: Store, host: string): (r: Result<Route>)
    ensures r.Err? <==> RouteKey(prefix, host) !in store || !store[RouteKey(prefix, host)].value.Str?
    ensures r.Err? ==> r.error == NotFound
    ensures r.Ok? ==> r.value.source == host && store[RouteKey(prefix, host)].value == Str(r.value.target)
  {
    var target := LookupTarget(prefix, store, host, true);
    if target.Err? then Err(target.error)
    else
      Ok(FromRedis(host, target.value.value,
                   LookupSettings(prefix, store, host),
                   LookupUpstreamHeaders(prefix, store, host),
                   LookupValidationCookieName(prefix, store, host),
                   LookupValidationCookieValue(prefix, store, host)))
  }

  // ---------------------------------------------------------------- enumeration

  /** The hosts that have a route: the reference the enumeration is measured against. */
  function RouteHosts(prefix: string, store: Store): set<string>
  {
    set key | key in store && RoutePrefix(prefix) <= key :: key[|RoutePrefix(prefix)|..]
  }

  lemma RouteHostsMembership(prefix: string, store: Store)
    ensures forall host :: host in RouteHosts(prefix, store) <==> RouteKey(prefix, host) in store
  {
    forall host
      ensures host in RouteHosts(prefix, store) <==> RouteKey(prefix, host) in store
    {
      if RouteKey(prefix, host) in store {
        var key := RouteKey(prefix, host);
        assert key[|RoutePrefix(prefix)|..] == host;
      }
      if host in RouteHosts(prefix, store) {
        var key :| key in store && RoutePrefix(prefix) <= key && key[|RoutePrefix(prefix)|..] == host;
        RoutePrefixedIsRouteKey(prefix, key);
      }
    }
  }

  /** Under a prefix without glob metacharacters the pattern `prefix:routes:*` matches exactly the route keys. */
  lemma RoutePatternMatches(prefix: string, key: string)
    requires Literal(prefix)
    ensures GlobMatch(RouteKey(prefix, "*"), key) <==> RoutePrefix(prefix) <= key
  {
    assert RouteKey(prefix, "*") == RoutePrefix(prefix) + "*";
    assert Literal(RoutePrefix(prefix));
    LiteralStarMatchesPrefixes(RoutePrefix(prefix), key);
  }

  /** Python's `s[n:]`: empty when `n` is past the end. */
  function DropFirst(s: string, n: nat): string
  {
    if n <= |s| then s[n..] else []
  }

  /**
   Enumerates hosts by asking the backend for the keys that match the route
   key of `pattern` (their order is the `listing`). It then cuts the length of
   that lookup pattern, less one character for the final `*`, off the front of
   each key. With the default pattern `*` and a prefix without glob metacharacters, this
   yields exactly the hosts that have a route.
   */
  method LookupHosts(prefix: string, store: Store, pattern: string, listing: seq<string>) returns (hosts: seq<string>)
    requires IsListing(listing, Keys(store, RouteKey(prefix, pattern)))
    ensures |hosts| == |listing|
    ensures forall i :: 0 <= i < |hosts| ==> hosts[i] == DropFirst(listing[i], |prefix| + |":routes:"| + |pattern| - 1)
    ensures pattern == "*" && Literal(prefix) ==> forall i :: 0 <= i < |hosts| ==> RouteKey(prefix, hosts[i]) == listing[i]
    ensures pattern == "*" && Literal(prefix) ==> forall host :: host in hosts <==> RouteKey(prefix, host) in store
    ensures pattern == "*" && Literal(prefix) ==> forall i, j :: 0 <= i < j < |hosts| ==> hosts[i] != hosts[j]
  {
    var lookupPattern := RouteKey(prefix, pattern);
    var leftPadding := |lookupPattern| - 1;
    hosts := [];
    var i := 0;
    while i < |listing|
      invariant 0 <= i <= |listing|
      invariant |hosts| == i
      invariant forall j :: 0 <= j < i ==> hosts[j] == DropFirst(listing[j], leftPadding)
    {
      hosts := hosts + [DropFirst(listing[i], leftPadding)];
      i := i + 1;
    }
    if pattern == "*" && Literal(prefix) {
      forall i | 0 <= i < |hosts|
        ensures RouteKey(prefix, hosts[i]) == listing[i]
      {
        assert listing[i] in Keys(store, lookupPattern);
        RoutePatternMatches(prefix, listing[i]);
        RoutePrefixedIsRouteKey(prefix, listing[i]);
      }
      forall host | RouteKey(prefix, host) in store
        ensures host in hosts
      {
        var key := RouteKey(prefix, host);
        RoutePatternMatches(prefix, key);
        assert key in Keys(store, lookupPattern);
        var i :| 0 <= i < |listing| && listing[i] == key;
        assert RouteKey(prefix, hosts[i]) == key;
        assert hosts[i] == key[|RoutePrefix(prefix)|..];
      }
      forall host | host in hosts
        ensures RouteKey(prefix, host) in store
      {
        var i :| 0 <= i < |hosts| && hosts[i] == host;
        assert listing[i] in Keys(store, lookupPattern);
      }
    }
  }

  /** The sources of a list of routes. */
  function Sources(routes: seq<Route>): set<string>
  {
    set route | route in routes :: route.source
  }

  /** What `ListRoutes` has once every enumerated host was read without error. */
  lemma ListedRoutesCoverHosts(prefix: string, store: Store, listing: seq<string>, hosts: seq<string>, routes: seq<Route>)
    requires IsListing(listing, Keys(store, RouteKey(prefix, "*")))
    requires |hosts| == |listing| == |routes|
    requires forall i :: 0 <= i < |hosts| ==> RouteKey(prefix, hosts[i]) == listing[i]
    requires forall host :: host in hosts <==> RouteKey(prefix, host) in store
    requires forall j :: 0 <= j < |hosts| ==> GetRoute(prefix, store, hosts[j]) == Ok(routes[j])
    ensures forall key :: key in listing ==> key in store && store[key].value.Str?
    ensures Sources(routes) == RouteHosts(prefix, store)
  {
    forall key | key in listing
      ensures key in store && store[key].value.Str?
    {
      var j :| 0 <= j < |listing| && listing[j] == key;
      assert GetRoute(prefix, store, hosts[j]).Ok?;
    }
    RouteHostsMembership(prefix, store);
    forall host
      ensures host in Sources(routes) <==> host in RouteHosts(prefix, store)
    {
      if host in hosts {
        var j :| 0 <= j < |hosts| && hosts[j] == host;
        assert routes[j] in routes;
      }
    }
  }

  /** The routes read for the enumerated hosts come in the order of the KEYS reply. */
  lemma ListedRoutesFollowListing(prefix: string, store: Store, listing: seq<string>, hosts: seq<string>, routes: seq<Route>)
    requires |hosts| == |listing| == |routes|
    requires forall i :: 0 <= i < |hosts| ==> hosts[i] == DropFirst(listing[i], |prefix| + |":routes:"| + |"*"| - 1)
    requires forall j :: 0 <= j < |hosts| ==> GetRoute(prefix, store, hosts[j]) == Ok(routes[j])
    ensures forall i :: 0 <= i < |routes| ==> routes[i].source == DropFirst(listing[i], |RoutePrefix(prefix)|)
  {
    forall i | 0 <= i < |routes|
      ensures routes[i].source == DropFirst(listing[i], |RoutePrefix(prefix)|)
    {
      assert GetRoute(prefix, store, hosts[i]).Ok?;
    }
  }

  /** `GetRoute` of each host in turn; the first failure aborts the whole read. */
  method ReadRoutes(prefix: string, store: Store, hosts: seq<string>) returns (r: Result<seq<Route>>)
    ensures r.Err? ==> r.error == NotFound
    ensures r.Err? ==> exists i :: 0 <= i < |hosts| && GetRoute(prefix, store, hosts[i]).Err?
    ensures r.Ok? ==> |r.value| == |hosts|
    ensures r.Ok? ==> forall j :: 0 <= j < |hosts| ==> GetRoute(prefix, store, hosts[j]) == Ok(r.value[j])
  {
    var routes: seq<Route> := [];
    var i := 0;
    while i < |hosts|
      invariant 0 <= i <= |hosts|
      invariant |routes| == i
      invariant forall j :: 0 <= j < i ==> GetRoute(prefix, store, hosts[j]) == Ok(routes[j])
    {
      var route := GetRoute(prefix, store, hosts[i]);
      if route.Err? {
        return Err(route.error);
      }
      routes := routes + [route.value];
      i := i + 1;
    }
    return Ok(routes);
  }

  /** Every route, one `GetRoute` per enumerated host, in the order of the KEYS reply. */
  method ListRoutes(prefix: string, store: Store, listing: seq<string>) returns (r: Result<seq<Route>>)
    requires IsListing(listing, Keys(store, RouteKey(prefix, "*")))
    ensures r.Err? ==> r.error == NotFound
    ensures r.Ok? ==> |r.value| == |listing|
    ensures r.Ok? ==> forall i :: 0 <= i < |r.value| ==> r.value[i].source == DropFirst(listing[i], |RoutePrefix(prefix)|)
    ensures r.Ok? ==> forall i :: 0 <= i < |r.value| ==> GetRoute(prefix, store, r.value[i].source) == Ok(r.value[i])
    ensures Literal(prefix) ==> (r.Ok? <==> forall key :: key in listing ==> key in store && store[key].value.Str?)
    ensures Literal(prefix) && r.Ok? ==> Sources(r.value) == RouteHosts(prefix, store)
  {
    var hosts := LookupHosts(prefix, store, "*", listing);
    r := ReadRoutes(prefix, store, hosts);
    if r.Err? {
      if Literal(prefix) {
        var i :| 0 <= i < |hosts| && GetRoute(prefix, store, hosts[i]).Err?;
        assert RouteKey(prefix, hosts[i]) == listing[i];
        assert listing[i] in listing;
      }
      return;
    }
    ListedRoutesFollowListing(prefix, store, listing, hosts, r.value);
    if Literal(prefix) {
      ListedRoutesCoverHosts(prefix, store, listing, hosts, r.value);
    }
  }

  // ---------------------------------------------------------------- public operations

  /** Create: an upsert; an existing route of the same source is overwritten, not refused. */
  function CreateRoute(prefix: string, store: Store, route: Route): (r: Saved)
    ensures r.route == route
    ensures SameOutside(store, r.store, SourceKeys(prefix, route.source))
    ensures GetRoute(prefix, r.store, route.source).Ok?
    ensures GetRoute(prefix, r.store, route.source).value.target == route.target
  {
    SetRouteFrame(prefix, store, route);
    SetRouteWritesTarget(prefix, store, route);
    Saved(Run(store, SetRoute(prefix, route)), route)
  }

  /** Update: the route's source is forced to `host`, then it is written as by create. */
  function UpdateRoute(prefix: string, store: Store, host: string, data: Route): (r: Saved)
    ensures r.route.source == host
    ensures r.route == data.(source := host)
    ensures SameOutside(store, r.store, SourceKeys(prefix, host))
    ensures GetRoute(prefix, r.store, host).Ok?
    ensures GetRoute(prefix, r.store, host).value.target == data.target
  {
    var route := data.(source := host);
    SetRouteFrame(prefix, store, route);
    SetRouteWritesTarget(prefix, store, route);
    Saved(Run(store, SetRoute(prefix, route)), route)
  }

  /** The calls of `delete_route` remove the route key and the settings key. */
  lemma DeleteCallsEffect(prefix: string, store: Store, host: string)
    ensures Run(store, DeleteTarget(prefix, host) + DeleteSettings(prefix, host))
            == store - {RouteKey(prefix, host)} - {SettingsKey(prefix, host)}
  {
    var routeKey, settingsKey := RouteKey(prefix, host), SettingsKey(prefix, host);
    RunAppend(store, DeleteTarget(prefix, host), DeleteSettings(prefix, host));
    RunSingle(store, DeleteCmd(routeKey));
    RunSingle(Delete(store, routeKey), DeleteCmd(settingsKey));
  }

  /**
   Delete: removes the target and the settings of `host` only; its upstream
   headers and validation cookie stay behind. Deleting a missing route is not
   an error.
   */
  function DeleteRoute(prefix: string, store: Store, host: string): (r: Store)
    ensures GetRoute(prefix, r, host) == Err(NotFound)
    ensures RouteKey(prefix, host) !in r && SettingsKey(prefix, host) !in r
    ensures SameOutside(store, r, {RouteKey(prefix, host), SettingsKey(prefix, host)})
    ensures SameAt(store, r, UpstreamHeadersKey(prefix, host))
    ensures SameAt(store, r, ValidationCookieNameKey(prefix, host))
    ensures SameAt(store, r, ValidationCookieValueKey(prefix, host))
    ensures RouteKey(prefix, host) !in store && SettingsKey(prefix, host) !in store ==> r == store
  {
    SourceKeysDistinct(prefix, host);
    DeleteCallsEffect(prefix, store, host);
    Run(store, DeleteTarget(prefix, host) + DeleteSettings(prefix, host))
  }
}
