/**
 The key-value backend as the route store uses it: a single key space whose
 entries are plain strings or string-to-string hashes, each with an optional
 expiry. Time does not pass in this model, so an expiry is recorded as an
 attribute of the entry rather than acted upon.
 */
module Redis {
  import opened Results

  /** What one key holds: a string (SET/GET) or a hash (HMSET/HGETALL). */
  datatype Value = Str(text: string) | Hash(fields: map<string, string>)

  /** One entry; `ttl` is the expiry in seconds last set by EXPIRE, 0 meaning the key persists. */
  datatype Entry = Entry(value: Value, ttl: nat)

  type Store = map<string, Entry>

  /** GET: the string stored at `key`, or None when there is none. */
  function Get(store: Store, key: string): Option<string>
  {
    if key in store && store[key].value.Str? then Some(store[key].value.text) else None
  }

  /** HGETALL: the fields of the hash at `key`; a missing key reads as the empty hash. */
  function HashGetAll(store: Store, key: string): map<string, string>
  {
    if key in store && store[key].value.Hash? then store[key].value.fields else map[]
  }

  /** The expiry a hash at `key` carries into an HMSET (a new hash starts without one). */
  function HashTtl(store: Store, key: string): nat
  {
    if key in store && store[key].value.Hash? then store[key].ttl else 0
  }

  /** SET: replaces whatever `key` held by a string and discards its expiry. */
  function Set(store: Store, key: string, text: string): Store
  {
    store[key := Entry(Str(text), 0)]
  }

  /**
   HMSET: adds `fields` to the hash at `key`, overwriting fields of the same
   name and keeping the others and the hash's expiry; a missing key becomes a
   new hash.
   */
  function HashSet(store: Store, key: string, fields: map<string, string>): Store
  {
    if |fields| == 0 then store
    else store[key := Entry(Hash(HashGetAll(store, key) + fields), HashTtl(store, key))]
  }

  /** EXPIRE: sets the expiry of an existing key; a non-positive expiry deletes it at once. */
  function Expire(store: Store, key: string, seconds: int): Store
  {
    if key !in store then store
    else if seconds <= 0 then store - {key}
    else store[key := store[key].(ttl := seconds)]
  }

  /** DEL: removes `key`; deleting a missing key is not an error. */
  function Delete(store: Store, key: string): Store
  {
    store - {key}
  }

  /** One call to the backend that changes it. */
  datatype Command =
    | SetCmd(key: string, text: string)
    | HashSetCmd(key: string, fields: map<string, string>)
    | ExpireCmd(key: string, seconds: int)
    | DeleteCmd(key: string)
  {
    /** SET and HMSET write a value; EXPIRE and DEL do not. */
    predicate Writes()
    {
      SetCmd? || HashSetCmd?
    }
  }

  function Exec(store: Store, command: Command): Store
  {
    match command
    case SetCmd(key, text) => Set(store, key, text)
    case HashSetCmd(key, fields) => HashSet(store, key, fields)
    case ExpireCmd(key, seconds) => Expire(store, key, seconds)
    case DeleteCmd(key) => Delete(store, key)
  }

  /** Issues the calls one after the other, with no transaction around them. */
  function Run(store: Store, commands: seq<Command>): Store
    decreases |commands|
  {
    if |commands| == 0 then store else Run(Exec(store, commands[0]), commands[1..])
  }

  /** `key` holds the same entry in both stores, or is missing from both. */
  predicate SameAt(before: Store, after: Store, key: string)
  {
    (key in before <==> key in after) && (key in before ==> before[key] == after[key])
  }

  /** Nothing outside `keys` differs between the two stores. */
  ghost predicate SameOutside(before: Store, after: Store, keys: set<string>)
  {
    forall key :: key !in keys ==> SameAt(before, after, key)
  }

  /** No key gained an expiry: each is persistent or kept the expiry it had. */
  ghost predicate NoNewExpiry(before: Store, after: Store)
  {
    forall key :: key in after ==> after[key].ttl == 0 || (key in before && after[key].ttl == before[key].ttl)
  }

  lemma {:induction false} RunAppend(store: Store, first: seq<Command>, second: seq<Command>)
    ensures Run(store, first + second) == Run(Run(store, first), second)
    decreases |first|
  {
    if |first| > 0 {
      assert (first + second)[0] == first[0];
      assert (first + second)[1..] == first[1..] + second;
      RunAppend(Exec(store, first[0]), first[1..], second);
    } else {
      assert first + second == second;
    }
  }

  lemma RunSingle(store: Store, command: Command)
    ensures Run(store, [command]) == Exec(store, command)
  {
    assert [command][1..] == [];
  }

  /** Calls that only name keys in `keys` leave every other key alone. */
  lemma {:induction false} RunFrame(store: Store, commands: seq<Command>, keys: set<string>)
    requires forall i :: 0 <= i < |commands| ==> commands[i].key in keys
    ensures SameOutside(store, Run(store, commands), keys)
    decreases |commands|
  {
    if |commands| > 0 {
      RunFrame(Exec(store, commands[0]), commands[1..], keys);
    }
  }

  /** Without an EXPIRE no key gains an expiry: SET clears it and HMSET keeps the hash's own. */
  lemma {:induction false} RunWithoutExpire(store: Store, commands: seq<Command>)
    requires forall i :: 0 <= i < |commands| ==> !commands[i].ExpireCmd?
    ensures NoNewExpiry(store, Run(store, commands))
    decreases |commands|
  {
    if |commands| > 0 {
      var next := Exec(store, commands[0]);
      assert NoNewExpiry(store, next);
      RunWithoutExpire(next, commands[1..]);
    }
  }

  /**
   Glob matching as KEYS uses it, for the wildcards `*` (any run of
   characters) and `?` (exactly one character); every other character
   matches itself.
   */
  predicate GlobMatch(pattern: string, key: string)
    decreases |pattern| + |key|
  {
    if |pattern| == 0 then |key| == 0
    else if pattern[0] == '*' then GlobMatch(pattern[1..], key) || (|key| > 0 && GlobMatch(pattern, key[1..]))
    else |key| > 0 && (pattern[0] == '?' || pattern[0] == key[0]) && GlobMatch(pattern[1..], key[1..])
  }

  /** KEYS: every key of the store that the pattern matches. */
  function Keys(store: Store, pattern: string): set<string>
  {
    set key | key in store && GlobMatch(pattern, key)
  }

  /**
   A string with none of the glob metacharacters of KEYS (`*`, `?`, `[`, `]`
   and the escape `\`), so that as a pattern it matches only itself.
   */
  predicate Literal(s: string)
  {
    forall i :: 0 <= i < |s| ==> s[i] !in "*?[]\\"
  }

  /** A KEYS reply: each matching key exactly once, in an order Redis leaves unspecified. */
  ghost predicate IsListing(listing: seq<string>, keys: set<string>)
  {
    && (forall key :: key in listing <==> key in keys)
    && (forall i, j :: 0 <= i < j < |listing| ==> listing[i] != listing[j])
  }

  lemma {:induction false} StarMatchesEverything(key: string)
    ensures GlobMatch("*", key)
    decreases |key|
  {
    if |key| > 0 {
      StarMatchesEverything(key[1..]);
    }
  }

  /** A literal followed by `*` matches exactly the keys that start with the literal. */
  lemma {:induction false} LiteralStarMatchesPrefixes(lit: string, key: string)
    requires Literal(lit)
    ensures GlobMatch(lit + "*", key) <==> lit <= key
    decreases |lit|
  {
    if |lit| == 0 {
      assert lit + "*" == "*";
      StarMatchesEverything(key);
    } else {
      var pattern := lit + "*";
      assert pattern[0] == lit[0];
      assert pattern[1..] == lit[1..] + "*";
      if |key| > 0 {
        LiteralStarMatchesPrefixes(lit[1..], key[1..]);
        assert lit <= key <==> lit[0] == key[0] && lit[1..] <= key[1..];
      }
    }
  }
}
