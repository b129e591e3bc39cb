/**
 The route entity as the store receives it (already validated) and the flat
 field set it is written as.
 */
module Routes {
  import opened Results

  /**
   One routing rule: requests for `source` go to `target`, with proxy
   settings, headers added toward the upstream, an optional validation
   cookie and a time-to-live in seconds (0: no expiry).
   */
  datatype Route = Route(
    source: string,
    target: string,
    ttl: nat,
    settings: map<string, string>,
    upstreamHeaders: map<string, string>,
    validationCookieName: Option<string>,
    validationCookieValue: Option<string>)

  /** The fields written to the backend; an absent cookie field is None. */
  datatype RedisData = RedisData(
    target: string,
    settings: map<string, string>,
    upstreamHeaders: map<string, string>,
    validationCookieName: Option<string>,
    validationCookieValue: Option<string>)

  /** Encoding for the backend: a projection of the route's stored fields. */
  function ToRedis(route: Route): RedisData
  {
    RedisData(route.target, route.settings, route.upstreamHeaders,
              route.validationCookieName, route.validationCookieValue)
  }

  /** Decoding from the backend; the read path supplies no ttl, so the default 0 applies. */
  function FromRedis(source: string, target: string, settings: map<string, string>,
                     upstreamHeaders: map<string, string>,
                     validationCookieName: Option<string>,
                     validationCookieValue: Option<string>): Route
  {
    Route(source, target, 0, settings, upstreamHeaders, validationCookieName, validationCookieValue)
  }
}
