/**
 * Order bookkeeping of the user-data service's Redis client, as functions on
 * the Redis data: each order is a hash `orders:{orderId}` of text fields;
 * the ids of orders whose status is NEW or PARTIALLY_FILLED are indexed in the
 * set `open_orders` and in `symbol_orders:{symbol}`.
 */
module UserDataOrders {
  import opened Wrappers
  import opened Text
  import opened Values
  import opened RedisState

  const OpenOrders := "open_orders"

  function OrderKey(id: string): string
  {
    "orders:" + id
  }

  function SymbolOrdersKey(symbol: string): string
  {
    "symbol_orders:" + symbol
  }

  /** The text of a stored hash field; order hashes only ever hold plain text. */
  function CellText(c: Cell): string
  {
    match c
    case Raw(t) => t
    case Doc(_) => ""
  }

  predicate IsOpenStatus(status: Value)
  {
    status == VStr("NEW") || status == VStr("PARTIALLY_FILLED")
  }

  /** `str(v)` for Decimal and bool values, every other value as it is. */
  function Stringified(v: Value): Value
  {
    if v.VDec? || v.VBool? then VStr(Render(v)) else v
  }

  /** The HSET mapping of an order: every value after `Stringified`, as redis-py encodes it. */
  function OrderFields(order: map<string, Value>): (r: Result<map<string, Cell>, Exc>)
    ensures r.Success? <==> forall k :: k in order ==> Encode(Stringified(order[k])).Success?
    ensures r.Success? ==> r.value.Keys == order.Keys
  {
    if forall k :: k in order ==> Encode(Stringified(order[k])).Success? then
      Success(map k | k in order :: Raw(Encode(Stringified(order[k])).value))
    else Failure(DataError)
  }

  /** Adds to or removes from one open index, by status. */
  function Index(db: Db, open: bool, setKey: string, member: string): Db
  {
    if open then Sadd(db, setKey, member) else Srem(db, setKey, member)
  }

  /**
   * The index updates `set_order` makes once the hash is written: `open_orders`,
   * then the symbol's set. The symbol went into the HSET mapping, so it is a
   * value redis-py encodes once stringified.
   */
  function IndexOrder(db: Db, member: string, open: bool, symbol: Value): Db
    requires IsScalar(symbol)
  {
    var indexed := Index(db, open, OpenOrders, member);
    if !Truthy(symbol) then indexed
    else Index(indexed, open, SymbolOrdersKey(Render(symbol)), member)
  }

  /** Every value of an order whose HSET mapping encodes, the default of a missing one included, is a scalar. */
  lemma EncodedFieldsAreScalar(order: map<string, Value>, k: string, missing: Value)
    requires OrderFields(order).Success? && IsScalar(missing)
    ensures IsScalar(GetOr(order, k, missing))
  {
    if k in order {
      assert Encode(Stringified(order[k])).Success?;
    }
  }

  /**
   * `set_order(order)`: the store afterwards and the outcome. An id that is
   * missing or falsy raises ValueError before any write; a value redis-py
   * cannot encode in the HSET mapping (None, a list or a dict, as id or symbol
   * too) raises DataError before any write; a boolean or Decimal id is written
   * under its `str()` and then raises DataError at SADD or SREM, the hash
   * written.
   */
  function SetOrder(db: Db, order: map<string, Value>): (r: (Db, Result<(), Exc>))
    ensures r.1 == Failure(ValueError) <==> !Truthy(GetOr(order, "orderId", VNone))
    ensures r.1.Failure? ==> r.1.error == ValueError || r.1.error == DataError
    ensures !Truthy(GetOr(order, "orderId", VNone)) || OrderFields(order).Failure? ==> r.0 == db
  {
    var id := GetOr(order, "orderId", VNone);
    if !Truthy(id) then (db, Failure(ValueError))
    else
      match OrderFields(order)
      case Failure(e) => (db, Failure(e))
      case Success(fields) =>
        EncodedFieldsAreScalar(order, "orderId", VNone);
        var written := Hset(db, OrderKey(Render(id)), fields);
        match Encode(id)
        case Failure(e) => (written, Failure(e))
        case Success(member) =>
          var symbol := GetOr(order, "symbol", VStr(""));
          EncodedFieldsAreScalar(order, "symbol", VStr(""));
          (IndexOrder(written, member, IsOpenStatus(GetOr(order, "status", VNone)), symbol), Success(()))
  }

  /**
   * The first phase of `sync_open_orders`: `set_order` for every API order with
   * a truthy id, in order, stopping at the first that raises; on success the
   * set of `str(orderId)` of those orders.
   */
  function SetOrders(db: Db, orders: seq<map<string, Value>>): (r: (Db, Result<set<string>, Exc>))
    ensures r.1.Failure? ==> r.1.error == DataError
    ensures r.1.Success? ==> |r.1.value| <= |orders|
  {
    if |orders| == 0 then (db, Success({}))
    else
      var (before, r) := SetOrders(db, orders[..|orders| - 1]);
      var order := orders[|orders| - 1];
      var id := GetOr(order, "orderId", VNone);
      if r.Failure? || !Truthy(id) then (before, r)
      else
        var (after, r') := SetOrder(before, order);
        if r'.Failure? then (after, Failure(r'.error))
        else (after, Success(r.value + {Render(id)}))
  }

  /** Deleting an order: its hash, its `open_orders` entry and, given a symbol, its symbol-set entry. */
  function DropOrder(db: Db, id: string, symbol: string): Db
  {
    var dropped := Srem(Delete(db, OrderKey(id)), OpenOrders, id);
    if symbol != "" then Srem(dropped, SymbolOrdersKey(symbol), id) else dropped
  }

  /** The symbol recorded in an order's hash, "" when it has none. */
  function StoredSymbol(db: Db, id: string): string
  {
    var h := Hgetall(db, OrderKey(id));
    if "symbol" in h then CellText(h["symbol"]) else ""
  }

  /** The second phase for one stored open id: an id unknown to the API whose hash exists is dropped. */
  function RemoveStale(db: Db, id: string, apiIds: set<string>): Db
  {
    if id in apiIds || Hgetall(db, OrderKey(id)) == map[] then db
    else DropOrder(db, id, StoredSymbol(db, id))
  }

  /**
   * The second phase over the stored open ids, in order. It only drops: the
   * open index loses ids, and every id the API reported keeps its hash.
   */
  function RemoveAllStale(db: Db, ids: seq<string>, apiIds: set<string>): (r: Db)
    ensures Smembers(r, OpenOrders) <= Smembers(db, OpenOrders)
    ensures forall id :: id in apiIds ==> Hgetall(r, OrderKey(id)) == Hgetall(db, OrderKey(id))
  {
    if |ids| == 0 then db
    else
      var before := RemoveAllStale(db, ids[..|ids| - 1], apiIds);
      RemoveStaleKeepsApiIds(before, ids[|ids| - 1], apiIds);
      RemoveStale(before, ids[|ids| - 1], apiIds)
  }

  /** One step of the second phase only drops, and never an id the API reported. */
  lemma RemoveStaleKeepsApiIds(db: Db, id: string, apiIds: set<string>)
    ensures Smembers(RemoveStale(db, id, apiIds), OpenOrders) <= Smembers(db, OpenOrders)
    ensures forall x :: x in apiIds ==> Hgetall(RemoveStale(db, id, apiIds), OrderKey(x)) == Hgetall(db, OrderKey(x))
  {
    RemoveStaleEffect(db, id, apiIds, id, "");
    forall x | x in apiIds
      ensures Hgetall(RemoveStale(db, id, apiIds), OrderKey(x)) == Hgetall(db, OrderKey(x))
    {
      RemoveStaleEffect(db, id, apiIds, x, "");
    }
  }

  /** Every indexed open id has its order hash, recording an open status. */
  ghost predicate OpenOrdersIndexed(db: Db)
  {
    forall id :: id in Smembers(db, OpenOrders) ==> OpenStatusStored(db, id)
  }

  predicate OpenStatusStored(db: Db, id: string)
  {
    Hget(db, OrderKey(id), "status") == Some(Raw("NEW")) || Hget(db, OrderKey(id), "status") == Some(Raw("PARTIALLY_FILLED"))
  }

  lemma OrderKeyInjective(a: string, b: string)
    ensures OrderKey(a) == OrderKey(b) ==> a == b
  {
    PrefixInjective("orders:", a, b);
  }

  lemma KeysDistinct(id: string, symbol: string)
    ensures SymbolOrdersKey(symbol) != OpenOrders
    ensures OrderKey(id) != OpenOrders
    ensures OrderKey(id) != SymbolOrdersKey(symbol)
  {
    assert SymbolOrdersKey(symbol)[1] == 'y';
    assert OrderKey(id)[1] == 'r';
  }

  /** Order bookkeeping never touches a set outside its own keys. */
  lemma SetOrderKeepsOtherSets(db: Db, order: map<string, Value>, k: string)
    requires k != OpenOrders && (|k| < 14 || k[..14] != "symbol_orders:")
    ensures Smembers(SetOrder(db, order).0, k) == Smembers(db, k)
  {
    var id := GetOr(order, "orderId", VNone);
    if Truthy(id) && OrderFields(order).Success? {
      EncodedFieldsAreScalar(order, "orderId", VNone);
      EncodedFieldsAreScalar(order, "symbol", VStr(""));
      var written := Hset(db, OrderKey(Render(id)), OrderFields(order).value);
      HsetHash(db, OrderKey(Render(id)), OrderFields(order).value, k);
      if Encode(id).Success? {
        var open := IsOpenStatus(GetOr(order, "status", VNone));
        var symbol := GetOr(order, "symbol", VStr(""));
        assert SetOrder(db, order).0 == IndexOrder(written, Encode(id).value, open, symbol);
        IndexOrderKeepsOtherSets(written, Encode(id).value, open, symbol, k);
      }
    }
  }

  /** The index updates touch `open_orders` and the symbol sets only. */
  lemma IndexOrderKeepsOtherSets(db: Db, member: string, open: bool, symbol: Value, k: string)
    requires IsScalar(symbol)
    requires k != OpenOrders && (|k| < 14 || k[..14] != "symbol_orders:")
    ensures Smembers(IndexOrder(db, member, open, symbol), k) == Smembers(db, k)
  {
    var indexed := Index(db, open, OpenOrders, member);
    SaddMembers(db, OpenOrders, member, k);
    SremMembers(db, OpenOrders, member, k);
    if Truthy(symbol) {
      var sk := SymbolOrdersKey(Render(symbol));
      assert sk[..14] == "symbol_orders:";
      SaddMembers(indexed, sk, member, k);
      SremMembers(indexed, sk, member, k);
    }
  }

  /** A missing or falsy order id raises ValueError and writes nothing. */
  lemma MissingIdRaises(db: Db, order: map<string, Value>)
    requires "orderId" !in order || !Truthy(order["orderId"])
    ensures SetOrder(db, order) == (db, Failure(ValueError))
  {
  }

  /**
   * A value redis-py cannot encode (None, a list, a dict), the id or the symbol
   * among them, makes `set_order` raise DataError before any write.
   */
  lemma UnencodableFieldRaises(db: Db, order: map<string, Value>, k: string)
    requires Truthy(GetOr(order, "orderId", VNone))
    requires k in order && Encode(Stringified(order[k])).Failure?
    ensures SetOrder(db, order) == (db, Failure(DataError))
  {
  }

  /**
   * A boolean or Decimal id, which only the set commands refuse, still has its
   * hash written under its `str()` before `set_order` raises DataError.
   */
  lemma SetOrderRaises(db: Db, order: map<string, Value>)
    ensures var id := GetOr(order, "orderId", VNone);
      (id.VBool? || id.VDec?) && Truthy(id) && OrderFields(order).Success? ==>
        SetOrder(db, order) == (Hset(db, OrderKey(Render(id)), OrderFields(order).value), Failure(DataError))
  {
    var id := GetOr(order, "orderId", VNone);
    if Truthy(id) && OrderFields(order).Success? {
      EncodedFieldsAreScalar(order, "orderId", VNone);
    }
  }

  /** The index updates leave the hashes alone and put `member` in or out of both sets. */
  lemma IndexOrderEffect(db: Db, member: string, open: bool, symbol: Value)
    requires IsScalar(symbol)
    ensures IndexOrder(db, member, open, symbol).hashes == db.hashes
    ensures Smembers(IndexOrder(db, member, open, symbol), OpenOrders)
      == if open then Smembers(db, OpenOrders) + {member} else Smembers(db, OpenOrders) - {member}
    ensures symbol.VStr? && symbol.s != "" ==>
      var k := SymbolOrdersKey(symbol.s);
      Smembers(IndexOrder(db, member, open, symbol), k)
        == if open then Smembers(db, k) + {member} else Smembers(db, k) - {member}
  {
    var indexed := Index(db, open, OpenOrders, member);
    if open {
      SaddMembers(db, OpenOrders, member, OpenOrders);
    } else {
      SremMembers(db, OpenOrders, member, OpenOrders);
    }
    if Truthy(symbol) {
      var k := SymbolOrdersKey(Render(symbol));
      KeysDistinct(member, Render(symbol));
      if open {
        SaddMembers(indexed, k, member, OpenOrders);
        SaddMembers(indexed, k, member, k);
        SaddMembers(db, OpenOrders, member, k);
      } else {
        SremMembers(indexed, k, member, OpenOrders);
        SremMembers(indexed, k, member, k);
        SremMembers(db, OpenOrders, member, k);
      }
    }
  }

  /** What `set_order` does for a text or integer id whose fields all encode. */
  lemma SetOrderUnfolds(db: Db, order: map<string, Value>)
    requires var id := GetOr(order, "orderId", VNone); Truthy(id) && (id.VStr? || id.VInt?)
    requires OrderFields(order).Success?
    ensures IsScalar(GetOr(order, "symbol", VStr("")))
    ensures var id := Render(GetOr(order, "orderId", VNone));
      SetOrder(db, order) == (IndexOrder(Hset(db, OrderKey(id), OrderFields(order).value), id,
        IsOpenStatus(GetOr(order, "status", VNone)), GetOr(order, "symbol", VStr(""))), Success(()))
  {
    EncodedFieldsAreScalar(order, "symbol", VStr(""));
  }

  /**
   * An order with a text or integer id and a NEW or PARTIALLY_FILLED status is
   * indexed in `open_orders` (and under its symbol when one is given); any
   * other status removes it from both.
   */
  lemma SetOrderIndexes(db: Db, order: map<string, Value>, symbol: string)
    requires var id := GetOr(order, "orderId", VNone); Truthy(id) && (id.VStr? || id.VInt?)
    requires OrderFields(order).Success?
    requires GetOr(order, "symbol", VStr("")) == VStr(symbol)
    ensures var id := Render(GetOr(order, "orderId", VNone));
      var after := SetOrder(db, order);
      && after.1.Success?
      && (id in Smembers(after.0, OpenOrders) <==> IsOpenStatus(GetOr(order, "status", VNone)))
      && (symbol != "" ==> (id in Smembers(after.0, SymbolOrdersKey(symbol)) <==> IsOpenStatus(GetOr(order, "status", VNone))))
  {
    var id := Render(GetOr(order, "orderId", VNone));
    var written := Hset(db, OrderKey(id), OrderFields(order).value);
    SetOrderUnfolds(db, order);
    IndexOrderEffect(written, id, IsOpenStatus(GetOr(order, "status", VNone)), VStr(symbol));
  }

  /** The status field `set_order` writes for an open order. */
  lemma OpenStatusWritten(order: map<string, Value>)
    requires OrderFields(order).Success?
    requires IsOpenStatus(GetOr(order, "status", VNone))
    ensures "status" in OrderFields(order).value
    ensures OrderFields(order).value["status"] == Raw("NEW") || OrderFields(order).value["status"] == Raw("PARTIALLY_FILLED")
  {
    assert "status" in order;
  }

  /** With text or integer ids, `set_order` keeps every indexed open id backed by an open order hash. */
  lemma SetOrderKeepsIndexed(db: Db, order: map<string, Value>)
    requires OpenOrdersIndexed(db)
    requires var id := GetOr(order, "orderId", VNone); id.VStr? || id.VInt?
    ensures OpenOrdersIndexed(SetOrder(db, order).0)
  {
    var id := GetOr(order, "orderId", VNone);
    if Truthy(id) && OrderFields(order).Success? {
      var member := Render(id);
      var fields := OrderFields(order).value;
      var written := Hset(db, OrderKey(member), fields);
      var open := IsOpenStatus(GetOr(order, "status", VNone));
      var after := SetOrder(db, order).0;
      SetOrderUnfolds(db, order);
      IndexOrderEffect(written, member, open, GetOr(order, "symbol", VStr("")));
      HsetHash(db, OrderKey(member), fields, OrderKey(member));
      if open {
        OpenStatusWritten(order);
      }
      forall x | x in Smembers(after, OpenOrders) ensures OpenStatusStored(after, x) {
        OrderKeyInjective(x, member);
        HsetHash(db, OrderKey(member), fields, OrderKey(x));
        assert Hgetall(after, OrderKey(x)) == Hgetall(written, OrderKey(x));
        if x == member {
          assert open;
          assert Hgetall(written, OrderKey(x))["status"] == fields["status"];
        } else {
          assert x in Smembers(written, OpenOrders);
          assert x in Smembers(db, OpenOrders);
          assert OpenStatusStored(db, x);
        }
      }
    }
  }

  lemma {:induction false} SetOrdersKeepsIndexed(db: Db, orders: seq<map<string, Value>>)
    requires OpenOrdersIndexed(db)
    requires forall i :: 0 <= i < |orders| ==> var id := GetOr(orders[i], "orderId", VNone); !Truthy(id) || id.VStr? || id.VInt?
    ensures OpenOrdersIndexed(SetOrders(db, orders).0)
  {
    if |orders| > 0 {
      var init := orders[..|orders| - 1];
      assert forall i :: 0 <= i < |init| ==> init[i] == orders[i];
      SetOrdersKeepsIndexed(db, init);
      var (before, r) := SetOrders(db, init);
      var order := orders[|orders| - 1];
      if r.Success? && Truthy(GetOr(order, "orderId", VNone)) {
        SetOrderKeepsIndexed(before, order);
      }
    }
  }

  /**
   * Dropping an order removes its hash, its `open_orders` entry and, given a
   * symbol, its entry in that symbol's set; it touches no other order's hash
   * and no other symbol's set.
   */
  lemma DropOrderEffect(db: Db, id: string, symbol: string, other: string, s: string)
    ensures Smembers(DropOrder(db, id, symbol), OpenOrders) == Smembers(db, OpenOrders) - {id}
    ensures Hgetall(DropOrder(db, id, symbol), OrderKey(id)) == map[]
    ensures other != id ==> Hgetall(DropOrder(db, id, symbol), OrderKey(other)) == Hgetall(db, OrderKey(other))
    ensures Smembers(DropOrder(db, id, symbol), SymbolOrdersKey(s))
      == if symbol != "" && s == symbol then Smembers(db, SymbolOrdersKey(s)) - {id} else Smembers(db, SymbolOrdersKey(s))
  {
    var deleted := Delete(db, OrderKey(id));
    var dropped := Srem(deleted, OpenOrders, id);
    KeysDistinct(id, symbol);
    KeysDistinct(id, s);
    PrefixInjective("symbol_orders:", s, symbol);
    DeleteHash(db, OrderKey(id), SymbolOrdersKey(s));
    SremMembers(deleted, OpenOrders, id, SymbolOrdersKey(s));
    DeleteHash(db, OrderKey(id), OpenOrders);
    DeleteHash(db, OrderKey(id), OrderKey(id));
    DeleteHash(db, OrderKey(id), OrderKey(other));
    OrderKeyInjective(id, other);
    SremMembers(deleted, OpenOrders, id, OpenOrders);
    if symbol != "" {
      SremMembers(dropped, SymbolOrdersKey(symbol), id, OpenOrders);
      SremMembers(dropped, SymbolOrdersKey(symbol), id, SymbolOrdersKey(s));
    }
  }

  /**
   * One step of the second phase: the open index and the symbol sets only
   * shrink, a dropped id leaves the set of its stored symbol, other ids keep
   * their hashes and entries.
   */
  lemma RemoveStaleEffect(db: Db, id: string, apiIds: set<string>, other: string, s: string)
    ensures Smembers(RemoveStale(db, id, apiIds), OpenOrders) <= Smembers(db, OpenOrders)
    ensures id !in apiIds && Hgetall(db, OrderKey(id)) != map[] ==>
      id !in Smembers(RemoveStale(db, id, apiIds), OpenOrders) && Hgetall(RemoveStale(db, id, apiIds), OrderKey(id)) == map[]
    ensures other != id ==>
      && Hgetall(RemoveStale(db, id, apiIds), OrderKey(other)) == Hgetall(db, OrderKey(other))
      && (other in Smembers(RemoveStale(db, id, apiIds), OpenOrders) <==> other in Smembers(db, OpenOrders))
    ensures Smembers(RemoveStale(db, id, apiIds), SymbolOrdersKey(s)) <= Smembers(db, SymbolOrdersKey(s))
    ensures id !in apiIds && StoredSymbol(db, id) == s && s != "" ==> id !in Smembers(RemoveStale(db, id, apiIds), SymbolOrdersKey(s))
  {
    if !(id in apiIds || Hgetall(db, OrderKey(id)) == map[]) {
      DropOrderEffect(db, id, StoredSymbol(db, id), other, s);
    }
  }

  /** An id that is not among those processed keeps its hash. */
  lemma {:induction false} RemoveAllStaleKeepsHash(db: Db, ids: seq<string>, apiIds: set<string>, id: string)
    requires id !in ids
    ensures Hgetall(RemoveAllStale(db, ids, apiIds), OrderKey(id)) == Hgetall(db, OrderKey(id))
  {
    if |ids| > 0 {
      var init := ids[..|ids| - 1];
      assert id !in init;
      RemoveAllStaleKeepsHash(db, init, apiIds, id);
      RemoveStaleEffect(RemoveAllStale(db, init, apiIds), ids[|ids| - 1], apiIds, id, "");
    }
  }

  /**
   * After the second phase of `sync_open_orders` over distinct stored ids, no
   * id unknown to the API that had a hash is still indexed as open or in the
   * set of the symbol its hash recorded, and the index and the symbol sets only
   * lost ids.
   */
  lemma {:induction false} RemoveAllStaleEffect(db: Db, ids: seq<string>, apiIds: set<string>)
    requires forall i, j :: 0 <= i < j < |ids| ==> ids[i] != ids[j]
    ensures Smembers(RemoveAllStale(db, ids, apiIds), OpenOrders) <= Smembers(db, OpenOrders)
    ensures forall i :: 0 <= i < |ids| && ids[i] !in apiIds && Hgetall(db, OrderKey(ids[i])) != map[] ==>
      ids[i] !in Smembers(RemoveAllStale(db, ids, apiIds), OpenOrders)
    ensures forall s :: Smembers(RemoveAllStale(db, ids, apiIds), SymbolOrdersKey(s)) <= Smembers(db, SymbolOrdersKey(s))
    ensures forall i :: 0 <= i < |ids| && ids[i] !in apiIds && StoredSymbol(db, ids[i]) != "" ==>
      ids[i] !in Smembers(RemoveAllStale(db, ids, apiIds), SymbolOrdersKey(StoredSymbol(db, ids[i])))
  {
    if |ids| > 0 {
      var init := ids[..|ids| - 1];
      var last := ids[|ids| - 1];
      var before := RemoveAllStale(db, init, apiIds);
      var after := RemoveAllStale(db, ids, apiIds);
      RemoveAllStaleEffect(db, init, apiIds);
      RemoveStaleEffect(before, last, apiIds, last, "");
      assert last !in init;
      RemoveAllStaleKeepsHash(db, init, apiIds, last);
      forall i | 0 <= i < |ids| && ids[i] !in apiIds && Hgetall(db, OrderKey(ids[i])) != map[]
        ensures ids[i] !in Smembers(after, OpenOrders)
      {
        if i < |ids| - 1 {
          assert init[i] == ids[i];
          RemoveStaleEffect(before, last, apiIds, ids[i], "");
        }
      }
      forall s ensures Smembers(after, SymbolOrdersKey(s)) <= Smembers(db, SymbolOrdersKey(s)) {
        RemoveStaleEffect(before, last, apiIds, last, s);
      }
      forall i | 0 <= i < |ids| && ids[i] !in apiIds && StoredSymbol(db, ids[i]) != ""
        ensures ids[i] !in Smembers(after, SymbolOrdersKey(StoredSymbol(db, ids[i])))
      {
        var s := StoredSymbol(db, ids[i]);
        RemoveStaleEffect(before, last, apiIds, last, s);
        if i < |ids| - 1 {
          assert init[i] == ids[i];
        } else {
          assert StoredSymbol(before, last) == s;
        }
      }
    }
  }

  /** Dropping stale ids keeps every remaining indexed id backed by its open order hash. */
  lemma {:induction false} RemoveAllStaleKeepsIndexed(db: Db, ids: seq<string>, apiIds: set<string>)
    requires OpenOrdersIndexed(db)
    ensures OpenOrdersIndexed(RemoveAllStale(db, ids, apiIds))
  {
    if |ids| > 0 {
      var init := ids[..|ids| - 1];
      var last := ids[|ids| - 1];
      var before := RemoveAllStale(db, init, apiIds);
      RemoveAllStaleKeepsIndexed(db, init, apiIds);
      RemoveStaleEffect(before, last, apiIds, last, "");
      var after := RemoveAllStale(db, ids, apiIds);
      forall x | x in Smembers(after, OpenOrders) ensures OpenStatusStored(after, x) {
        RemoveStaleEffect(before, last, apiIds, x, "");
      }
    }
  }

  /**
   * Reconciliation: when every indexed id has its hash, after the second phase
   * over the stored open ids only ids the API reported remain indexed as open,
   * and each of them is still backed by its open order hash.
   */
  lemma ReconciledIndexOnlyHoldsApiIds(db: Db, ids: seq<string>, apiIds: set<string>)
    requires OpenOrdersIndexed(db)
    requires forall i, j :: 0 <= i < j < |ids| ==> ids[i] != ids[j]
    requires forall id :: id in Smembers(db, OpenOrders) ==> id in ids
    ensures Smembers(RemoveAllStale(db, ids, apiIds), OpenOrders) <= apiIds
    ensures OpenOrdersIndexed(RemoveAllStale(db, ids, apiIds))
  {
    RemoveAllStaleEffect(db, ids, apiIds);
    RemoveAllStaleKeepsIndexed(db, ids, apiIds);
    forall x | x in Smembers(RemoveAllStale(db, ids, apiIds), OpenOrders) ensures x in apiIds {
      assert OpenStatusStored(db, x);
      var i :| 0 <= i < |ids| && ids[i] == x;
    }
  }

  /** `ids` lists the members of `s`, each once, in some order: one iteration over a Redis set. */
  ghost predicate Enumerates(ids: seq<string>, s: set<string>)
  {
    && (forall i, j :: 0 <= i < j < |ids| ==> ids[i] != ids[j])
    && (forall x :: x in s <==> x in ids)
  }

  /** `sync_open_orders(api_orders)`, given the order in which it walks the stored open ids. */
  function Sync(db: Db, orders: seq<map<string, Value>>, visit: seq<string>): (Db, Result<(), Exc>)
  {
    var (written, r) := SetOrders(db, orders);
    if r.Failure? then (written, Failure(r.error))
    else (RemoveAllStale(written, visit, r.value), Success(()))
  }

  /**
   * Reconciliation end to end: starting from a store whose open index is backed
   * by order hashes, with text or integer ids from the API, a successful sync
   * leaves indexed as open only ids the API reported, still backed by hashes.
   */
  lemma SyncLeavesOnlyApiIds(db: Db, orders: seq<map<string, Value>>, visit: seq<string>)
    requires OpenOrdersIndexed(db)
    requires forall i :: 0 <= i < |orders| ==> var id := GetOr(orders[i], "orderId", VNone); !Truthy(id) || id.VStr? || id.VInt?
    requires Enumerates(visit, Smembers(SetOrders(db, orders).0, OpenOrders))
    ensures var (after, r) := Sync(db, orders, visit);
      r.Success? ==> Smembers(after, OpenOrders) <= SetOrders(db, orders).1.value && OpenOrdersIndexed(after)
  {
    SetOrdersKeepsIndexed(db, orders);
    var (written, r) := SetOrders(db, orders);
    if r.Success? {
      ReconciledIndexOnlyHoldsApiIds(written, visit, r.value);
    }
  }

  /** What `get_open_orders` collects: the non-empty hashes of `ids`, in that order. */
  function OrdersOf(db: Db, ids: seq<string>): (r: seq<map<string, Cell>>)
    ensures |r| <= |ids|
  {
    if |ids| == 0 then []
    else
      var h := Hgetall(db, OrderKey(ids[|ids| - 1]));
      OrdersOf(db, ids[..|ids| - 1]) + (if h != map[] then [h] else [])
  }

  /** Every listed order is the stored hash of one of the ids. */
  lemma {:induction false} OrdersOfMembers(db: Db, ids: seq<string>)
    ensures forall o :: o in OrdersOf(db, ids) ==> o != map[] && exists i :: 0 <= i < |ids| && o == Hgetall(db, OrderKey(ids[i]))
  {
    if |ids| > 0 {
      var init := ids[..|ids| - 1];
      var before := OrdersOf(db, init);
      OrdersOfMembers(db, init);
      forall o | o in before
        ensures exists i :: 0 <= i < |ids| && o == Hgetall(db, OrderKey(ids[i]))
      {
        var i :| 0 <= i < |init| && o == Hgetall(db, OrderKey(init[i]));
        assert init[i] == ids[i];
      }
    }
  }

  /** When every id has a hash, none is skipped and the i-th order is the hash of the i-th id. */
  lemma {:induction false} OrdersOfAllStored(db: Db, ids: seq<string>)
    requires forall i :: 0 <= i < |ids| ==> Hgetall(db, OrderKey(ids[i])) != map[]
    ensures |OrdersOf(db, ids)| == |ids|
    ensures forall i :: 0 <= i < |ids| ==> OrdersOf(db, ids)[i] == Hgetall(db, OrderKey(ids[i]))
  {
    if |ids| > 0 {
      var init := ids[..|ids| - 1];
      assert forall i :: 0 <= i < |init| ==> init[i] == ids[i];
      OrdersOfAllStored(db, init);
    }
  }

  /**
   * `get_open_orders` on an indexed store lists one order per open id, each
   * recording a NEW or PARTIALLY_FILLED status.
   */
  lemma OpenOrdersAreOpen(db: Db, ids: seq<string>)
    requires OpenOrdersIndexed(db)
    requires Enumerates(ids, Smembers(db, OpenOrders))
    ensures |OrdersOf(db, ids)| == |ids| == |Smembers(db, OpenOrders)|
    ensures forall o :: o in OrdersOf(db, ids) ==> "status" in o && (o["status"] == Raw("NEW") || o["status"] == Raw("PARTIALLY_FILLED"))
  {
    forall i | 0 <= i < |ids| ensures Hgetall(db, OrderKey(ids[i])) != map[] {
      assert OpenStatusStored(db, ids[i]);
    }
    OrdersOfAllStored(db, ids);
    OrdersOfMembers(db, ids);
    forall o | o in OrdersOf(db, ids)
      ensures "status" in o && (o["status"] == Raw("NEW") || o["status"] == Raw("PARTIALLY_FILLED"))
    {
      var i :| 0 <= i < |ids| && o == Hgetall(db, OrderKey(ids[i]));
      assert OpenStatusStored(db, ids[i]);
    }
    EnumeratedCard(ids, Smembers(db, OpenOrders));
  }

  lemma {:induction false} EnumeratedCard(ids: seq<string>, s: set<string>)
    requires Enumerates(ids, s)
    ensures |ids| == |s|
  {
    if |ids| > 0 {
      var init := ids[..|ids| - 1];
      var last := ids[|ids| - 1];
      assert forall x :: x in init ==> x in ids;
      assert last !in init by {
        forall i | 0 <= i < |init| ensures init[i] != last {
          assert init[i] == ids[i];
        }
      }
      assert forall x :: x in s - {last} <==> x in init;
      EnumeratedCard(init, s - {last});
    }
  }

  // ---------------------------------------------------------------------------
  // get_filtered_orders
  // ---------------------------------------------------------------------------

  /** `str(order.get(k)) == v`: a missing field reads as "None". */
  predicate Matches(order: map<string, Cell>, filter: (string, string))
  {
    (if filter.0 in order then CellText(order[filter.0]) else "None") == filter.1
  }

  predicate MatchesAll(order: map<string, Cell>, filters: seq<(string, string)>)
  {
    forall i :: 0 <= i < |filters| ==> Matches(order, filters[i])
  }

  /** One filter pass: `[o for o in orders if str(o.get(k)) == v]`. */
  function FilterBy(orders: seq<map<string, Cell>>, filter: (string, string)): seq<map<string, Cell>>
  {
    if |orders| == 0 then []
    else (if Matches(orders[0], filter) then [orders[0]] else []) + FilterBy(orders[1..], filter)
  }

  /** The passes of `get_filtered_orders`, one per filter, in order. */
  function FilterAll(orders: seq<map<string, Cell>>, filters: seq<(string, string)>): seq<map<string, Cell>>
  {
    if |filters| == 0 then orders else FilterBy(FilterAll(orders, filters[..|filters| - 1]), filters[|filters| - 1])
  }

  /** The orders that match every filter at once, in their original order. */
  function Select(orders: seq<map<string, Cell>>, filters: seq<(string, string)>): (r: seq<map<string, Cell>>)
    ensures forall o :: o in r <==> o in orders && MatchesAll(o, filters)
  {
    if |orders| == 0 then []
    else
      assert forall o :: o in orders <==> o == orders[0] || o in orders[1..];
      (if MatchesAll(orders[0], filters) then [orders[0]] else []) + Select(orders[1..], filters)
  }

  lemma {:induction false} FilterBySelect(orders: seq<map<string, Cell>>, filters: seq<(string, string)>, f: (string, string))
    ensures FilterBy(Select(orders, filters), f) == Select(orders, filters + [f])
  {
    if |orders| > 0 {
      FilterBySelect(orders[1..], filters, f);
      var o := orders[0];
      assert MatchesAll(o, filters + [f]) <==> MatchesAll(o, filters) && Matches(o, f) by {
        assert forall i :: 0 <= i < |filters| ==> (filters + [f])[i] == filters[i];
        assert (filters + [f])[|filters|] == f;
      }
      var s := Select(orders, filters);
      if MatchesAll(o, filters) {
        assert s == [o] + Select(orders[1..], filters);
        FilterByCons(o, Select(orders[1..], filters), f);
      } else {
        assert s == Select(orders[1..], filters);
      }
    }
  }

  lemma FilterByCons(o: map<string, Cell>, rest: seq<map<string, Cell>>, f: (string, string))
    ensures FilterBy([o] + rest, f) == (if Matches(o, f) then [o] else []) + FilterBy(rest, f)
  {
    assert ([o] + rest)[1..] == rest;
  }

  lemma SelectNoFilters(orders: seq<map<string, Cell>>)
    ensures Select(orders, []) == orders
  {
    if |orders| > 0 {
      SelectNoFilters(orders[1..]);
    }
  }

  /** Applying the filters one after another keeps exactly the orders matching all of them. */
  lemma {:induction false} FilterAllIsSelect(orders: seq<map<string, Cell>>, filters: seq<(string, string)>)
    ensures FilterAll(orders, filters) == Select(orders, filters)
  {
    if |filters| == 0 {
      SelectNoFilters(orders);
    } else {
      var init := filters[..|filters| - 1];
      FilterAllIsSelect(orders, init);
      FilterBySelect(orders, init, filters[|filters| - 1]);
      assert init + [filters[|filters| - 1]] == filters;
    }
  }

  /** The result does not depend on the order (or repetition) of the filters. */
  lemma {:induction false} FilterOrderIrrelevant(orders: seq<map<string, Cell>>, fs: seq<(string, string)>, gs: seq<(string, string)>)
    requires forall f :: f in fs <==> f in gs
    ensures FilterAll(orders, fs) == FilterAll(orders, gs)
  {
    FilterAllIsSelect(orders, fs);
    FilterAllIsSelect(orders, gs);
    SelectSameFilters(orders, fs, gs);
  }

  lemma {:induction false} SelectSameFilters(orders: seq<map<string, Cell>>, fs: seq<(string, string)>, gs: seq<(string, string)>)
    requires forall f :: f in fs <==> f in gs
    ensures Select(orders, fs) == Select(orders, gs)
  {
    if |orders| > 0 {
      SelectSameFilters(orders[1..], fs, gs);
      var o := orders[0];
      if MatchesAll(o, fs) {
        forall i | 0 <= i < |gs| ensures Matches(o, gs[i]) {
          assert gs[i] in fs;
        }
      }
      if MatchesAll(o, gs) {
        forall i | 0 <= i < |fs| ensures Matches(o, fs[i]) {
          assert fs[i] in gs;
        }
      }
    }
  }
}
