/**
 * The Redis data the services share, as a value: plain string keys, lists,
 * hashes, sets, sorted sets and key expiries, and the Redis commands the
 * services issue, each as a function from the old data to the new.
 */
module RedisState {
  import opened Wrappers
  import opened Values

  /**
   * What a string slot holds: text written as it is (a `str` or `int` argument,
   * which redis-py sends as its decimal text) or `json.dumps(v)` of a value.
   */
  datatype Cell = Raw(text: string) | Doc(doc: Value)

  datatype Db = Db(
    strings: map<string, Cell>,
    lists: map<string, seq<Cell>>,
    hashes: map<string, map<string, Cell>>,
    sets: map<string, set<string>>,
    zsets: map<string, map<string, int>>,
    ttl: map<string, int>)

  const EmptyDb := Db(map[], map[], map[], map[], map[], map[])

  predicate Exists(db: Db, k: string)
  {
    k in db.strings || k in db.lists || k in db.hashes || k in db.sets || k in db.zsets
  }

  /** Everything outside key `k` is the same in `a` and `b`. */
  predicate SameExcept(a: Db, b: Db, k: string)
  {
    a.strings - {k} == b.strings - {k} && a.lists - {k} == b.lists - {k}
    && a.hashes - {k} == b.hashes - {k} && a.sets - {k} == b.sets - {k}
    && a.zsets - {k} == b.zsets - {k} && a.ttl - {k} == b.ttl - {k}
  }

  // ---------------------------------------------------------------------------
  // Strings
  // ---------------------------------------------------------------------------

  /** SET: overwrites the value and clears any expiry. */
  function Set(db: Db, k: string, v: Cell): Db
  {
    db.(strings := db.strings[k := v], ttl := db.ttl - {k})
  }

  /** GET. */
  function Get(db: Db, k: string): Option<Cell>
  {
    if k in db.strings then Some(db.strings[k]) else None
  }

  /** EXPIRE: sets the time to live of an existing key; a missing key is left alone. */
  function Expire(db: Db, k: string, seconds: int): Db
  {
    if Exists(db, k) then db.(ttl := db.ttl[k := seconds]) else db
  }

  // ---------------------------------------------------------------------------
  // Lists
  // ---------------------------------------------------------------------------

  /** LRANGE k 0 -1: the whole list, empty when the key is missing. */
  function List(db: Db, k: string): seq<Cell>
  {
    if k in db.lists then db.lists[k] else []
  }

  /** RPUSH with one element. */
  function Rpush(db: Db, k: string, v: Cell): Db
  {
    db.(lists := db.lists[k := List(db, k) + [v]])
  }

  /**
   * The part of `s` that LTRIM start stop keeps: negative indices count from
   * the end, out-of-range indices are clamped, an empty range keeps nothing.
   */
  function TrimRange<T>(s: seq<T>, start: int, stop: int): (r: seq<T>)
    ensures |r| <= |s|
  {
    var n := |s|;
    var first := if start < 0 then n + start else start;
    var last := if stop < 0 then n + stop else stop;
    var first' := if first < 0 then 0 else first;
    if first' > last || first' >= n then []
    else
      var last' := if last >= n then n - 1 else last;
      s[first'..last' + 1]
  }

  /** LTRIM: a list trimmed to nothing is deleted. */
  function Ltrim(db: Db, k: string, start: int, stop: int): Db
  {
    if k !in db.lists then db
    else
      var kept := TrimRange(db.lists[k], start, stop);
      if kept == [] then db.(lists := db.lists - {k}, ttl := db.ttl - {k})
      else db.(lists := db.lists[k := kept])
  }

  /** The last `n` elements of `s` (all of them when there are fewer). */
  function Last<T>(s: seq<T>, n: nat): (r: seq<T>)
    ensures |r| == if |s| <= n then |s| else n
    ensures forall i :: 0 <= i < |r| ==> r[i] == s[|s| - |r| + i]
  {
    if |s| <= n then s else s[|s| - n..]
  }

  /** LTRIM -n -1 keeps exactly the last `n` elements when `n` is positive. */
  lemma TrimKeepsLast<T>(s: seq<T>, n: int)
    requires n > 0
    ensures TrimRange(s, -n, -1) == Last(s, n)
  {
  }

  /** LTRIM -0 -1 is LTRIM 0 -1, which keeps the whole list. */
  lemma TrimZeroKeepsAll<T>(s: seq<T>)
    ensures TrimRange(s, -0, -1) == s
  {
  }

  // ---------------------------------------------------------------------------
  // Hashes
  // ---------------------------------------------------------------------------

  /** HGETALL: an empty map when the key is missing. */
  function Hgetall(db: Db, k: string): map<string, Cell>
  {
    if k in db.hashes then db.hashes[k] else map[]
  }

  /** HGET. */
  function Hget(db: Db, k: string, field: string): Option<Cell>
  {
    var h := Hgetall(db, k);
    if field in h then Some(h[field]) else None
  }

  /** HSET with one or more field/value pairs; fields not given keep their values. */
  function Hset(db: Db, k: string, fields: map<string, Cell>): Db
  {
    db.(hashes := db.hashes[k := Hgetall(db, k) + fields])
  }

  // ---------------------------------------------------------------------------
  // Sets and sorted sets
  // ---------------------------------------------------------------------------

  /** SMEMBERS: empty when the key is missing. */
  function Smembers(db: Db, k: string): set<string>
  {
    if k in db.sets then db.sets[k] else {}
  }

  /** SCARD. */
  function Scard(db: Db, k: string): nat
  {
    |Smembers(db, k)|
  }

  /** SADD with one member. */
  function Sadd(db: Db, k: string, m: string): Db
  {
    db.(sets := db.sets[k := Smembers(db, k) + {m}])
  }

  /** SREM with one member: a set emptied this way is deleted. */
  function Srem(db: Db, k: string, m: string): Db
  {
    if k !in db.sets then db
    else
      var rest := db.sets[k] - {m};
      if rest == {} then db.(sets := db.sets - {k}, ttl := db.ttl - {k})
      else db.(sets := db.sets[k := rest])
  }

  /** ZADD with one member: a member already present only gets its new score. */
  function Zadd(db: Db, k: string, m: string, score: int): Db
  {
    var z := if k in db.zsets then db.zsets[k] else map[];
    db.(zsets := db.zsets[k := z[m := score]])
  }

  /** DEL: the key disappears whatever its type. */
  function Delete(db: Db, k: string): Db
  {
    Db(db.strings - {k}, db.lists - {k}, db.hashes - {k}, db.sets - {k}, db.zsets - {k}, db.ttl - {k})
  }

  // ---------------------------------------------------------------------------
  // What each command leaves of the other keys
  // ---------------------------------------------------------------------------

  lemma SaddMembers(db: Db, k: string, m: string, k': string)
    ensures Smembers(Sadd(db, k, m), k') == if k' == k then Smembers(db, k) + {m} else Smembers(db, k')
    ensures Sadd(db, k, m).hashes == db.hashes
  {
  }

  lemma SremMembers(db: Db, k: string, m: string, k': string)
    ensures Smembers(Srem(db, k, m), k') == if k' == k then Smembers(db, k) - {m} else Smembers(db, k')
    ensures Srem(db, k, m).hashes == db.hashes
  {
  }

  lemma DeleteHash(db: Db, k: string, k': string)
    ensures Hgetall(Delete(db, k), k') == if k' == k then map[] else Hgetall(db, k')
    ensures Smembers(Delete(db, k), k') == if k' == k then {} else Smembers(db, k')
  {
  }

  lemma HsetHash(db: Db, k: string, fields: map<string, Cell>, k': string)
    ensures Hgetall(Hset(db, k, fields), k') == if k' == k then Hgetall(db, k) + fields else Hgetall(db, k')
    ensures Hset(db, k, fields).sets == db.sets
  {
  }
}
