/**
 * The user-data service's Redis client: an object over the Redis store that
 * also caches, in two counters, how many symbols have an open long and an open
 * short position.
 */
module UserDataCache {
  import opened Wrappers
  import opened Values
  import opened RedisState
  import RedisStore
  import opened UserDataPositions
  import opened UserDataOrders

  class RedisClient {
    const store: RedisStore.Store
    var longCount: int
    var shortCount: int

    /** The counters hold the sizes of the open sets. */
    predicate CountersCurrent()
      reads this, store
    {
      longCount == Scard(store.db, OpenLong) && shortCount == Scard(store.db, OpenShort)
    }

    constructor (store: RedisStore.Store)
      ensures this.store == store
      ensures longCount == 0 && shortCount == 0
    {
      this.store := store;
      longCount := 0;
      shortCount := 0;
    }

    // -------------------------------------------------------------------------
    // Positions
    // -------------------------------------------------------------------------

    /** `set_position`: a success refreshes both counters from the open sets; a raise leaves them alone. */
    method SetPosition(symbol: Value, data: map<string, Value>) returns (r: Result<(), Exc>)
      modifies store, this`longCount, this`shortCount
      ensures (store.db, r) == UserDataPositions.SetPositionOf(old(store.db), symbol, data)
      ensures r.Success? ==> CountersCurrent()
      ensures r.Failure? ==> longCount == old(longCount) && shortCount == old(shortCount)
    {
      var side := GetOr(data, "positionSide", VNone);
      if !Truthy(side) {
        return Failure(ValueError);
      }
      var field := Encode(side);
      if field.Failure? {
        return Failure(field.error);
      }
      if !IsScalar(symbol) {
        return Failure(Unsupported);
      }
      store.Hset(PositionKey(Render(symbol)), map[field.value := Doc(VDict(data))]);
      if !side.VStr? {
        return Failure(AttributeError);
      }
      var open := AmountIsNonZero(GetOr(data, "positionAmt", VStr("0")));
      var k := SideSet(side.s);
      if k.Some? {
        var member := Encode(symbol);
        if member.Failure? {
          return Failure(member.error);
        }
        if open {
          store.Sadd(k.value, member.value);
        } else {
          store.Srem(k.value, member.value);
        }
      }
      longCount := store.Scard(OpenLong);
      shortCount := store.Scard(OpenShort);
      r := Success(());
    }

    /** `get_position`: each stored side decoded, an undecodable one as None. */
    method GetPosition(symbol: string) returns (r: map<string, Value>)
      ensures r == PositionOf(store.db, symbol)
    {
      var h := store.Hgetall(PositionKey(symbol));
      r := map[];
      var remaining := h.Keys;
      while remaining != {}
        invariant remaining <= h.Keys
        invariant r == map f | f in h.Keys - remaining :: Loads(h[f])
        decreases remaining
      {
        var f :| f in remaining;
        r := r[f := Loads(h[f])];
        remaining := remaining - {f};
      }
    }

    /**
     * `get_all_positions`: the decoded positions of every symbol with a
     * non-empty position hash; a side `json.loads` rejects makes it raise.
     */
    method GetAllPositions() returns (r: Result<map<string, map<string, Value>>, Exc>)
      ensures r.Success? <==> AllDecodable(store.db)
      ensures r.Success? ==> r.value == AllPositions(store.db)
      ensures r.Failure? ==> r.error == ValueError
    {
      var keys := store.KeysWithPrefix("positions:");
      r := PositionsUnder(keys);
      PositionsOverSame(store.db, keys, store.db.hashes.Keys);
      assert DecodableOver(store.db, keys) == AllDecodable(store.db);
    }

    /** The listing loop of `get_all_positions` over the given keys. */
    method PositionsUnder(keys: set<string>) returns (r: Result<map<string, map<string, Value>>, Exc>)
      requires forall k :: k in keys ==> IsPositionKey(k)
      ensures r.Success? <==> DecodableOver(store.db, keys)
      ensures r.Success? ==> r.value == PositionsOver(store.db, keys)
      ensures r.Failure? ==> r.error == ValueError
    {
      ghost var db := store.db;
      var positions: map<string, map<string, Value>> := map[];
      var remaining := keys;
      while remaining != {}
        invariant remaining <= keys
        invariant DecodableOver(db, keys - remaining)
        invariant positions == PositionsOver(db, keys - remaining)
        decreases remaining
      {
        var key :| key in remaining;
        var data := store.Hgetall(key);
        if exists f :: f in data && data[f].Raw? {
          PositionsUndecodable(db, keys, key);
          return Failure(ValueError);
        }
        ghost var done := keys - remaining;
        PositionsStep(db, done, key, positions);
        if data != map[] {
          positions := positions[key[10..] := map f | f in data :: Loads(data[f])];
        }
        remaining := remaining - {key};
        assert done + {key} == keys - remaining;
      }
      r := Success(positions);
    }

    /** The open sides of one decoded position, each once. */
    static method OpenSides(pos: map<string, Value>) returns (r: seq<Value>, ghost sides: seq<string>)
      ensures OpenSidesOf(pos, r, sides)
    {
      r, sides := [], [];
      var remaining := pos.Keys;
      while remaining != {}
        invariant remaining <= pos.Keys
        invariant |r| == |sides|
        invariant forall i :: 0 <= i < |sides| ==> sides[i] in pos.Keys - remaining && r[i] == pos[sides[i]] && IsOpenPosition(r[i])
        invariant forall f :: f in pos.Keys - remaining && IsOpenPosition(pos[f]) ==> f in sides
        invariant forall i, j :: 0 <= i < j < |sides| ==> sides[i] != sides[j]
        decreases remaining
      {
        var f :| f in remaining;
        if IsOpenPosition(pos[f]) {
          r, sides := r + [pos[f]], sides + [f];
        }
        remaining := remaining - {f};
      }
    }

    /**
     * `get_all_open_positions`: over the symbols in either open set, every
     * stored side whose amount is non-zero, each (symbol, side) once.
     */
    method GetAllOpenPositions() returns (r: seq<Value>, ghost sources: seq<(string, string)>)
      ensures OpenListing(store.db, Smembers(store.db, OpenLong) + Smembers(store.db, OpenShort), r, sources)
    {
      var openLong := store.Smembers(OpenLong);
      var openShort := store.Smembers(OpenShort);
      var symbols := openLong + openShort;
      r, sources := [], [];
      OpenListingEmpty(store.db);
      var remaining := symbols;
      while remaining != {}
        invariant remaining <= symbols
        invariant OpenListing(store.db, symbols - remaining, r, sources)
        decreases remaining
      {
        var symbol :| symbol in remaining;
        var pos := GetPosition(symbol);
        var found, sides := OpenSides(pos);
        OpenListingStep(store.db, symbols - remaining, r, sources, symbol, found, sides);
        r, sources := r + found, sources + Pairs(symbol, sides);
        assert symbols - remaining + {symbol} == symbols - (remaining - {symbol});
        remaining := remaining - {symbol};
      }
    }

    /** Walks one open set, keeping the stored, decodable, open position of `side` of each symbol. */
    method OpenOfSide(setKey: string, side: string) returns (r: seq<Value>, ghost symbols: seq<string>)
      ensures SideListing(store.db, side, Smembers(store.db, setKey), r, symbols)
      ensures (forall s :: s in Smembers(store.db, setKey) ==> OpenSideDoc(store.db, s, side).Some?) ==> |r| == Scard(store.db, setKey)
    {
      var members := store.Smembers(setKey);
      r, symbols := [], [];
      SideListingEmpty(store.db, side);
      var remaining := members;
      while remaining != {}
        invariant remaining <= members
        invariant SideListing(store.db, side, members - remaining, r, symbols)
        invariant (forall s :: s in members ==> OpenSideDoc(store.db, s, side).Some?) ==> |symbols| == |members - remaining|
        decreases remaining
      {
        var symbol :| symbol in remaining;
        var data := store.Hget(PositionKey(symbol), side);
        var doc := if data.Some? && data.value != Raw("") && IsOpenPosition(Loads(data.value)) then Some(Loads(data.value)) else None;
        assert doc == OpenSideDoc(store.db, symbol, side);
        SideListingStep(store.db, side, members - remaining, r, symbols, symbol);
        if doc.Some? {
          r, symbols := r + [doc.value], symbols + [symbol];
        }
        assert members - remaining + {symbol} == members - (remaining - {symbol});
        remaining := remaining - {symbol};
      }
    }

    /** `get_all_open_long_positions`: the open LONG positions of the symbols in `open_long_positions`. */
    method GetAllOpenLongPositions() returns (r: seq<Value>, ghost symbols: seq<string>)
      ensures SideListing(store.db, "LONG", Smembers(store.db, OpenLong), r, symbols)
      ensures PositionsConsistent(store.db) ==> |r| == Scard(store.db, OpenLong)
    {
      r, symbols := OpenOfSide(OpenLong, "LONG");
      if PositionsConsistent(store.db) {
        ConsistentSetsAreOpen(store.db);
      }
    }

    /** `get_all_open_short_positions`: the open SHORT positions of the symbols in `open_short_positions`. */
    method GetAllOpenShortPositions() returns (r: seq<Value>, ghost symbols: seq<string>)
      ensures SideListing(store.db, "SHORT", Smembers(store.db, OpenShort), r, symbols)
      ensures PositionsConsistent(store.db) ==> |r| == Scard(store.db, OpenShort)
    {
      r, symbols := OpenOfSide(OpenShort, "SHORT");
      if PositionsConsistent(store.db) {
        ConsistentSetsAreOpen(store.db);
      }
    }

    /** `get_open_long_count`: the cached count, which is the size of `open_long_positions` while current. */
    method GetOpenLongCount() returns (r: int)
      ensures CountersCurrent() ==> r == Scard(store.db, OpenLong)
      ensures r == longCount
    {
      r := longCount;
    }

    method GetOpenShortCount() returns (r: int)
      ensures CountersCurrent() ==> r == Scard(store.db, OpenShort)
      ensures r == shortCount
    {
      r := shortCount;
    }

    /** `get_all_open_count`: both cached counts together. */
    method GetAllOpenCount() returns (r: int)
      ensures CountersCurrent() ==> r == Scard(store.db, OpenLong) + Scard(store.db, OpenShort)
      ensures r == longCount + shortCount
    {
      r := longCount + shortCount;
    }

    // -------------------------------------------------------------------------
    // Orders
    // -------------------------------------------------------------------------

    /** `set_order`. */
    method SetOrder(order: map<string, Value>) returns (r: Result<(), Exc>)
      modifies store
      ensures (store.db, r) == UserDataOrders.SetOrder(old(store.db), order)
    {
      var id := GetOr(order, "orderId", VNone);
      if !Truthy(id) {
        return Failure(ValueError);
      }
      var fields := OrderFields(order);
      if fields.Failure? {
        return Failure(fields.error);
      }
      EncodedFieldsAreScalar(order, "orderId", VNone);
      EncodedFieldsAreScalar(order, "symbol", VStr(""));
      store.Hset(OrderKey(Render(id)), fields.value);
      var member := Encode(id);
      if member.Failure? {
        return Failure(member.error);
      }
      var symbol := GetOr(order, "symbol", VStr(""));
      var open := IsOpenStatus(GetOr(order, "status", VNone));
      if open {
        store.Sadd(OpenOrders, member.value);
      } else {
        store.Srem(OpenOrders, member.value);
      }
      if Truthy(symbol) {
        if open {
          store.Sadd(SymbolOrdersKey(Render(symbol)), member.value);
        } else {
          store.Srem(SymbolOrdersKey(Render(symbol)), member.value);
        }
      }
      r := Success(());
    }

    /** `update_order`: the same as `set_order`. */
    method UpdateOrder(order: map<string, Value>) returns (r: Result<(), Exc>)
      modifies store
      ensures (store.db, r) == UserDataOrders.SetOrder(old(store.db), order)
    {
      r := SetOrder(order);
    }

    /** The non-empty order hashes of the ids in one index set, in the order the set is walked. */
    method OrdersIn(setKey: string) returns (r: seq<map<string, Cell>>, ghost ids: seq<string>)
      ensures Enumerates(ids, Smembers(store.db, setKey))
      ensures r == OrdersOf(store.db, ids)
    {
      var members := store.Smembers(setKey);
      r, ids := [], [];
      var remaining := members;
      while remaining != {}
        invariant remaining <= members
        invariant forall i, j :: 0 <= i < j < |ids| ==> ids[i] != ids[j]
        invariant forall x :: x in members - remaining <==> x in ids
        invariant r == OrdersOf(store.db, ids)
        decreases remaining
      {
        var id :| id in remaining;
        var order := store.Hgetall(OrderKey(id));
        assert id !in ids;
        assert (ids + [id])[..|ids|] == ids;
        if order != map[] {
          r := r + [order];
        }
        ids := ids + [id];
        remaining := remaining - {id};
      }
    }

    /** `get_open_orders`. */
    method GetOpenOrders() returns (r: seq<map<string, Cell>>, ghost ids: seq<string>)
      ensures Enumerates(ids, Smembers(store.db, OpenOrders))
      ensures r == OrdersOf(store.db, ids)
    {
      r, ids := OrdersIn(OpenOrders);
    }

    /** `get_open_orders_by_symbol`. */
    method GetOpenOrdersBySymbol(symbol: string) returns (r: seq<map<string, Cell>>, ghost ids: seq<string>)
      ensures Enumerates(ids, Smembers(store.db, SymbolOrdersKey(symbol)))
      ensures r == OrdersOf(store.db, ids)
    {
      r, ids := OrdersIn(SymbolOrdersKey(symbol));
    }

    /** The first phase of `sync_open_orders`: `set_order` for each API order with an id; their ids on success. */
    method SetApiOrders(apiOrders: seq<map<string, Value>>) returns (r: Result<set<string>, Exc>)
      modifies store
      ensures (store.db, r) == SetOrders(old(store.db), apiOrders)
    {
      var apiIds: set<string> := {};
      var i := 0;
      while i < |apiOrders|
        invariant 0 <= i <= |apiOrders|
        invariant SetOrders(old(store.db), apiOrders[..i]) == (store.db, Success(apiIds))
      {
        var order := apiOrders[i];
        var id := GetOr(order, "orderId", VNone);
        assert apiOrders[..i + 1][..i] == apiOrders[..i];
        if Truthy(id) {
          var done := SetOrder(order);
          if done.Failure? {
            PrefixFails(old(store.db), apiOrders, i + 1);
            return Failure(done.error);
          }
          apiIds := apiIds + {Render(id)};
        }
        i := i + 1;
      }
      assert apiOrders[..i] == apiOrders;
      r := Success(apiIds);
    }

    /** The second phase: every stored open id not in `apiIds` whose hash exists is dropped with it. */
    method RemoveStaleOrders(apiIds: set<string>) returns (ghost visit: seq<string>)
      modifies store
      ensures Enumerates(visit, Smembers(old(store.db), OpenOrders))
      ensures store.db == RemoveAllStale(old(store.db), visit, apiIds)
    {
      var stored := store.Smembers(OpenOrders);
      var remaining := stored;
      visit := [];
      while remaining != {}
        invariant remaining <= stored
        invariant forall i, j :: 0 <= i < j < |visit| ==> visit[i] != visit[j]
        invariant forall x :: x in stored - remaining <==> x in visit
        invariant store.db == RemoveAllStale(old(store.db), visit, apiIds)
        decreases remaining
      {
        var id :| id in remaining;
        assert id !in visit;
        assert (visit + [id])[..|visit|] == visit;
        if id !in apiIds {
          var order := store.Hgetall(OrderKey(id));
          if order != map[] {
            var symbol := if "symbol" in order then CellText(order["symbol"]) else "";
            store.Delete(OrderKey(id));
            store.Srem(OpenOrders, id);
            if symbol != "" {
              store.Srem(SymbolOrdersKey(symbol), id);
            }
          }
        }
        visit := visit + [id];
        remaining := remaining - {id};
      }
    }

    /**
     * `sync_open_orders`: `set_order` for each API order with an id, then every
     * stored open id the API did not report is dropped with its hash.
     */
    method SyncOpenOrders(apiOrders: seq<map<string, Value>>) returns (r: Result<(), Exc>, ghost visit: seq<string>)
      modifies store
      ensures SetOrders(old(store.db), apiOrders).1.Success? ==> Enumerates(visit, Smembers(SetOrders(old(store.db), apiOrders).0, OpenOrders))
      ensures (store.db, r) == Sync(old(store.db), apiOrders, visit)
    {
      var apiIds := SetApiOrders(apiOrders);
      if apiIds.Failure? {
        return Failure(apiIds.error), [];
      }
      visit := RemoveStaleOrders(apiIds.value);
      r := Success(());
    }

    /**
     * `get_filtered_orders(symbol=..., **filters)`: the open orders (of the
     * symbol, when one is given) whose fields, as text, equal every filter.
     */
    method GetFilteredOrders(symbol: string, filters: seq<(string, string)>) returns (r: seq<map<string, Cell>>, ghost ids: seq<string>)
      ensures Enumerates(ids, Smembers(store.db, if symbol != "" then SymbolOrdersKey(symbol) else OpenOrders))
      ensures r == Select(OrdersOf(store.db, ids), filters)
    {
      var orders;
      if symbol != "" {
        orders, ids := GetOpenOrdersBySymbol(symbol);
      } else {
        orders, ids := GetOpenOrders();
      }
      r := orders;
      var i := 0;
      while i < |filters|
        invariant 0 <= i <= |filters|
        invariant r == FilterAll(orders, filters[..i])
      {
        assert filters[..i + 1][..i] == filters[..i];
        r := FilterBy(r, filters[i]);
        i := i + 1;
      }
      assert filters[..i] == filters;
      FilterAllIsSelect(orders, filters);
    }
  }

  /** A `set_order` that raises within the first `n` API orders ends the first phase with that failure. */
  lemma PrefixFails(db: Db, orders: seq<map<string, Value>>, n: nat)
    requires 0 < n <= |orders|
    requires SetOrders(db, orders[..n]).1.Failure?
    ensures SetOrders(db, orders) == (SetOrders(db, orders[..n]).0, SetOrders(db, orders[..n]).1)
    decreases |orders| - n
  {
    if n < |orders| {
      assert orders[..n + 1][..n] == orders[..n];
      PrefixFails(db, orders, n + 1);
    } else {
      assert orders[..n] == orders;
    }
  }

  lemma PositionsUndecodable(db: Db, keys: set<string>, key: string)
    requires key in keys && IsPositionKey(key)
    requires exists f :: f in Hgetall(db, key) && Hgetall(db, key)[f].Raw?
    ensures !DecodableOver(db, keys)
  {
    var f :| f in Hgetall(db, key) && Hgetall(db, key)[f].Raw?;
    assert key in db.hashes && db.hashes[key][f].Raw?;
  }
}
