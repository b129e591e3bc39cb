/**
 Key derivation: every backend key of a route is the configured prefix, a
 kind tag and the route's source host, joined by colons.
 */
module KeySpace {

  /** The five kinds of entry one route is split into. */
  datatype Kind = Routes | Settings | UpstreamHeaders | ValidationCookieName | ValidationCookieValue
  {
    function Tag(): string
    {
      match this
      case Routes => "routes"
      case Settings => "settings"
      case UpstreamHeaders => "upstream-headers"
      case ValidationCookieName => "validation-cookie-name"
      case ValidationCookieValue => "validation-cookie-value"
    }

    /** Kinds stored as hashes (HMSET); the others are plain strings (SET). */
    predicate IsHash()
    {
      this == Settings || this == UpstreamHeaders
    }
  }

  /** The prefix-qualified form of a key. */
  function PrefixedKey(prefix: string, key: string): string
  {
    prefix + ":" + key
  }

  function Key(prefix: string, kind: Kind, source: string): string
  {
    PrefixedKey(prefix, kind.Tag() + ":" + source)
  }

  /** The common start of every route key; listing hosts strips exactly this much. */
  function RoutePrefix(prefix: string): string
  {
    prefix + ":routes:"
  }

  function RouteKey(prefix: string, source: string): (key: string)
    ensures RoutePrefix(prefix) <= key
    ensures key[|RoutePrefix(prefix)|..] == source
  {
    var key := Key(prefix, Routes, source);
    assert key == RoutePrefix(prefix) + source;
    key
  }

  function SettingsKey(prefix: string, source: string): string
  {
    Key(prefix, Settings, source)
  }

  function UpstreamHeadersKey(prefix: string, source: string): string
  {
    Key(prefix, UpstreamHeaders, source)
  }

  function ValidationCookieNameKey(prefix: string, source: string): string
  {
    Key(prefix, ValidationCookieName, source)
  }

  function ValidationCookieValueKey(prefix: string, source: string): string
  {
    Key(prefix, ValidationCookieValue, source)
  }

  /** All keys that can belong to the route of `source`. */
  function SourceKeys(prefix: string, source: string): set<string>
  {
    { RouteKey(prefix, source), SettingsKey(prefix, source), UpstreamHeadersKey(prefix, source),
      ValidationCookieNameKey(prefix, source), ValidationCookieValueKey(prefix, source) }
  }

  /** The part of a string before its first colon: the kind tag of `tag:source`. */
  function UpToColon(s: string): string
  {
    if |s| == 0 || s[0] == ':' then [] else [s[0]] + UpToColon(s[1..])
  }

  lemma {:induction false} UpToColonOfJoin(tag: string, source: string)
    requires ':' !in tag
    ensures UpToColon(tag + ":" + source) == tag
    decreases |tag|
  {
    var joined := tag + ":" + source;
    if |tag| > 0 {
      assert joined[0] == tag[0];
      assert joined[1..] == tag[1..] + ":" + source;
      UpToColonOfJoin(tag[1..], source);
    } else {
      assert joined[0] == ':';
    }
  }

  /** No tag contains the separator and no two kinds share a tag. */
  lemma TagsAreDistinct(kind1: Kind, kind2: Kind)
    ensures ':' !in kind1.Tag()
    ensures kind1.Tag() == kind2.Tag() <==> kind1 == kind2
  {
  }

  /** Different kinds or different sources always give different keys. */
  lemma KeyInjective(prefix: string, kind1: Kind, source1: string, kind2: Kind, source2: string)
    ensures Key(prefix, kind1, source1) == Key(prefix, kind2, source2) <==> kind1 == kind2 && source1 == source2
  {
    var key1, key2 := Key(prefix, kind1, source1), Key(prefix, kind2, source2);
    if key1 == key2 {
      var n := |prefix| + 1;
      var rest1, rest2 := kind1.Tag() + ":" + source1, kind2.Tag() + ":" + source2;
      assert key1[n..] == rest1;
      assert key2[n..] == rest2;
      TagsAreDistinct(kind1, kind2);
      TagsAreDistinct(kind2, kind1);
      UpToColonOfJoin(kind1.Tag(), source1);
      UpToColonOfJoin(kind2.Tag(), source2);
      var m := |kind1.Tag()| + 1;
      assert source1 == rest1[m..];
      assert source2 == rest2[m..];
    }
  }

  /** A key belongs to the keys of `source` exactly when it was derived from `source`. */
  lemma KeyInSourceKeys(prefix: string, kind: Kind, source: string, other: string)
    ensures Key(prefix, kind, source) in SourceKeys(prefix, other) <==> source == other
  {
    KeyInjective(prefix, kind, source, Routes, other);
    KeyInjective(prefix, kind, source, Settings, other);
    KeyInjective(prefix, kind, source, UpstreamHeaders, other);
    KeyInjective(prefix, kind, source, ValidationCookieName, other);
    KeyInjective(prefix, kind, source, ValidationCookieValue, other);
  }

  /** Every key that starts with the route prefix is the route key of what follows. */
  lemma RoutePrefixedIsRouteKey(prefix: string, key: string)
    requires RoutePrefix(prefix) <= key
    ensures key == RouteKey(prefix, key[|RoutePrefix(prefix)|..])
  {
    var source := key[|RoutePrefix(prefix)|..];
    assert key == RoutePrefix(prefix) + source;
    assert RouteKey(prefix, source) == RoutePrefix(prefix) + source;
  }
}
