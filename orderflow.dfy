/**
 * Building the request parameters of a new futures order: the fixed
 * parameters in order, then price and time in force for a LIMIT order, then
 * the stop price when one is given, and last the signature over everything
 * before it. Signing (HMAC-SHA256 over the url-encoded parameters) is a
 * parameter of the model; the HTTP request is not part of it.
 */
module OrderFlow {
  import opened Wrappers
  import opened Values
  import Text

  /** Request parameters in insertion order, as a Python dict keeps them. */
  type Params = seq<(string, Value)>

  /** The value stored under `k`, if any (the latest insertion wins). */
  function Lookup(ps: Params, k: string): (r: Option<Value>)
    ensures r.None? <==> forall i :: 0 <= i < |ps| ==> ps[i].0 != k
  {
    if |ps| == 0 then None
    else if ps[|ps| - 1].0 == k then Some(ps[|ps| - 1].1)
    else
      var r := Lookup(ps[..|ps| - 1], k);
      assert forall i :: 0 <= i < |ps| - 1 ==> ps[..|ps| - 1][i] == ps[i];
      r
  }

  /** No key occurs twice. */
  predicate KeysDistinct(ps: Params)
  {
    forall i, j :: 0 <= i < j < |ps| ==> ps[i].0 != ps[j].0
  }

  /** Inserting a new key: it maps to its value and every other key keeps its own. */
  lemma Insert(ps: Params, k: string, v: Value)
    requires KeysDistinct(ps) && Lookup(ps, k).None?
    ensures KeysDistinct(ps + [(k, v)])
    ensures Lookup(ps + [(k, v)], k) == Some(v)
  {
    var ps' := ps + [(k, v)];
    assert ps'[..|ps'| - 1] == ps;
  }

  /** Inserting a key leaves what every other key holds. */
  lemma InsertKeeps(ps: Params, k: string, v: Value, q: string)
    requires q != k
    ensures Lookup(ps + [(k, v)], q) == Lookup(ps, q)
  {
    var ps' := ps + [(k, v)];
    assert ps'[..|ps'| - 1] == ps;
  }

  /** The parameters every order starts with. */
  function BaseParams(symbol: Value, side: string, positionSide: Value, orderType: string,
                      quantity: Value, timestamp: int): Params
  {
    [("symbol", symbol), ("side", VStr(Text.Upper(side))), ("positionSide", positionSide),
     ("type", VStr(Text.Upper(orderType))), ("quantity", quantity), ("timestamp", VInt(timestamp))]
  }

  lemma BaseKeys(base: Params)
    requires |base| == 6
    requires base[0].0 == "symbol" && base[1].0 == "side" && base[2].0 == "positionSide"
    requires base[3].0 == "type" && base[4].0 == "quantity" && base[5].0 == "timestamp"
    ensures KeysDistinct(base)
    ensures Lookup(base, "price").None? && Lookup(base, "timeInForce").None?
    ensures Lookup(base, "stopPrice").None? && Lookup(base, "signature").None?
  {
  }

  /** A LIMIT order, whatever the case the caller wrote it in. */
  predicate IsLimit(orderType: string)
  {
    Text.Upper(orderType) == "LIMIT"
  }

  /**
   * `new_order` up to the request: the signed parameters, or ValueError for a
   * LIMIT order without a price. `timestamp` is the clock in milliseconds and
   * `sign` the signature of a parameter list.
   */
  method NewOrder(symbol: Value, side: string, positionSide: Value, orderType: string, quantity: Value,
                  price: Value, stopPrice: Value, timeInForce: Value, timestamp: int,
                  sign: Params -> string)
    returns (r: Result<Params, Exc>)
    ensures r.Failure? <==> IsLimit(orderType) && price == VNone
    ensures r.Failure? ==> r.error == ValueError
    ensures r.Success? ==>
              var ps := r.value;
              && |ps| >= 7
              && ps[..6] == BaseParams(symbol, side, positionSide, orderType, quantity, timestamp)
              && KeysDistinct(ps)
              && Lookup(ps, "price") == (if IsLimit(orderType) then Some(price) else None)
              && Lookup(ps, "timeInForce")
                 == (if !IsLimit(orderType) then None
                     else if Truthy(timeInForce) then Some(timeInForce)
                     else Some(VStr("GTC")))
              && (Lookup(ps, "stopPrice") == if stopPrice == VNone then None else Some(stopPrice))
              && ps[|ps| - 1] == ("signature", VStr(sign(ps[..|ps| - 1])))
              && Lookup(ps[..|ps| - 1], "signature").None?
  {
    var params := BaseParams(symbol, side, positionSide, orderType, quantity, timestamp);
    BaseKeys(params);
    ghost var base := params;
    if IsLimit(orderType) {
      if price == VNone {
        return Failure(ValueError);
      }
      var tif := timeInForce;
      if !Truthy(tif) {
        tif := VStr("GTC");
      }
      Insert(params, "price", price);
      InsertKeeps(params, "price", price, "timeInForce");
      InsertKeeps(params, "price", price, "stopPrice");
      InsertKeeps(params, "price", price, "signature");
      params := params + [("price", price)];
      Insert(params, "timeInForce", tif);
      InsertKeeps(params, "timeInForce", tif, "price");
      InsertKeeps(params, "timeInForce", tif, "stopPrice");
      InsertKeeps(params, "timeInForce", tif, "signature");
      params := params + [("timeInForce", tif)];
    }
    if stopPrice != VNone {
      Insert(params, "stopPrice", stopPrice);
      InsertKeeps(params, "stopPrice", stopPrice, "price");
      InsertKeeps(params, "stopPrice", stopPrice, "timeInForce");
      InsertKeeps(params, "stopPrice", stopPrice, "signature");
      params := params + [("stopPrice", stopPrice)];
    }
    assert params[..6] == base;
    var unsigned := params;
    var signature := VStr(sign(unsigned));
    Insert(unsigned, "signature", signature);
    InsertKeeps(unsigned, "signature", signature, "price");
    InsertKeeps(unsigned, "signature", signature, "timeInForce");
    InsertKeeps(unsigned, "signature", signature, "stopPrice");
    params := unsigned + [("signature", signature)];
    assert params[..|params| - 1] == unsigned;
    assert params[..6] == base;
    r := Success(params);
  }
}
