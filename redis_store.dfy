/**
 * The Redis server as the services see it through redis-py: one object whose
 * data each command replaces with the command's result.
 */
module RedisStore {
  import opened Wrappers
  import S = RedisState

  class Store {
    var db: S.Db

    constructor (initial: S.Db)
      ensures db == initial
    {
      db := initial;
    }

    method Set(k: string, v: S.Cell)
      modifies this
      ensures db == S.Set(old(db), k, v)
    {
      db := S.Set(db, k, v);
    }

    method Get(k: string) returns (r: Option<S.Cell>)
      ensures r == S.Get(db, k)
    {
      r := S.Get(db, k);
    }

    method Expire(k: string, seconds: int)
      modifies this
      ensures db == S.Expire(old(db), k, seconds)
    {
      db := S.Expire(db, k, seconds);
    }

    method Rpush(k: string, v: S.Cell)
      modifies this
      ensures db == S.Rpush(old(db), k, v)
    {
      db := S.Rpush(db, k, v);
    }

    method Ltrim(k: string, start: int, stop: int)
      modifies this
      ensures db == S.Ltrim(old(db), k, start, stop)
    {
      db := S.Ltrim(db, k, start, stop);
    }

    method Hset(k: string, fields: map<string, S.Cell>)
      modifies this
      ensures db == S.Hset(old(db), k, fields)
    {
      db := S.Hset(db, k, fields);
    }

    method Hget(k: string, field: string) returns (r: Option<S.Cell>)
      ensures r == S.Hget(db, k, field)
    {
      r := S.Hget(db, k, field);
    }

    method Hgetall(k: string) returns (r: map<string, S.Cell>)
      ensures r == S.Hgetall(db, k)
    {
      r := S.Hgetall(db, k);
    }

    method Sadd(k: string, m: string)
      modifies this
      ensures db == S.Sadd(old(db), k, m)
    {
      db := S.Sadd(db, k, m);
    }

    method Srem(k: string, m: string)
      modifies this
      ensures db == S.Srem(old(db), k, m)
    {
      db := S.Srem(db, k, m);
    }

    method Smembers(k: string) returns (r: set<string>)
      ensures r == S.Smembers(db, k)
    {
      r := S.Smembers(db, k);
    }

    method Scard(k: string) returns (r: nat)
      ensures r == S.Scard(db, k)
    {
      r := S.Scard(db, k);
    }

    method Zadd(k: string, m: string, score: int)
      modifies this
      ensures db == S.Zadd(old(db), k, m, score)
    {
      db := S.Zadd(db, k, m, score);
    }

    method Delete(k: string)
      modifies this
      ensures db == S.Delete(old(db), k)
    {
      db := S.Delete(db, k);
    }

    /** KEYS prefix*: the keys of every type that start with `prefix`. */
    method KeysWithPrefix(prefix: string) returns (r: set<string>)
      ensures forall k :: k in r <==> S.Exists(db, k) && |prefix| <= |k| && k[..|prefix|] == prefix
    {
      var all := db.strings.Keys + db.lists.Keys + db.hashes.Keys + db.sets.Keys + db.zsets.Keys;
      r := set k | k in all && |prefix| <= |k| && k[..|prefix|] == prefix;
    }
  }
}
