/**
 * The user-data service's event handling: each user-data stream event is
 * mapped to position records (ACCOUNT_UPDATE) or to an order record
 * (ORDER_TRADE_UPDATE) and handed to the Redis client; a message that raises
 * is logged and the next one is processed.
 */
module UserDataApp {
  import opened Wrappers
  import opened Text
  import opened Values
  import opened RedisState
  import opened UserDataPositions
  import opened UserDataOrders
  import UserDataCache

  /** `Decimal(0.0)`, the default of a missing price, average price or quantity. */
  const Zero := Decimal(false, 0, 0)

  /** `for row in positions`: the rows of a list; iterating a non-empty dict or text yields keys or characters, which `row["s"]` rejects. */
  function Rows(v: Value): (r: Result<seq<Value>, Exc>)
    ensures v.VList? ==> r == Success(v.items)
    ensures r.Failure? ==> r.error == TypeError
  {
    match v
    case VList(items) => Success(items)
    case VDict(m) => if |m| == 0 then Success([]) else Failure(TypeError)
    case VStr(s) => if s == "" then Success([]) else Failure(TypeError)
    case _ => Failure(TypeError)
  }

  /** The position record of one ACCOUNT_UPDATE row, its entries read in the order the source reads them. */
  function PositionRecord(row: Value, res: map<string, Value>): (r: Result<map<string, Value>, Exc>)
    ensures r.Success? <==> row.VDict? && "s" in row.fields && "pa" in row.fields && "ep" in row.fields
                            && "up" in row.fields && "ps" in row.fields && "T" in res
    ensures !row.VDict? ==> r == Failure(TypeError)
  {
    var s :- Item(row, "s");
    var pa :- Item(row, "pa");
    var ep :- Item(row, "ep");
    var up :- Item(row, "up");
    var t :- Item(VDict(res), "T");
    var ps :- Item(row, "ps");
    Success(map["symbol" := s, "positionAmt" := pa, "entryPrice" := ep, "unrealizedProfit" := up,
                "updateTime" := t, "positionSide" := ps])
  }

  /** One row: build the record, then `set_position(row["s"], record)`. */
  function ApplyRow(db: Db, row: Value, res: map<string, Value>): (Db, Result<(), Exc>)
  {
    match PositionRecord(row, res)
    case Failure(e) => (db, Failure(e))
    case Success(record) =>
      SetPositionOf(db, record["symbol"], record)
  }

  /** The rows in order, stopping at the first that raises; earlier rows stay written. */
  function ApplyRows(db: Db, rows: seq<Value>, res: map<string, Value>): (Db, Result<(), Exc>)
  {
    if |rows| == 0 then (db, Success(()))
    else
      var (before, r) := ApplyRows(db, rows[..|rows| - 1], res);
      if r.Failure? then (before, r) else ApplyRow(before, rows[|rows| - 1], res)
  }

  /** `price * origQty if price > 0 else avgPrice * origQty`. */
  function CumQuote(price: Decimal, avgPrice: Decimal, origQty: Decimal): Decimal
  {
    if IsPositive(price) then Mul(price, origQty) else Mul(avgPrice, origQty)
  }

  /** `cumQuote` is exactly price × quantity when the price is above zero, average price × quantity otherwise. */
  lemma CumQuoteExact(price: Decimal, avgPrice: Decimal, origQty: Decimal)
    ensures Real(price) > 0.0 ==> Real(CumQuote(price, avgPrice, origQty)) == Real(price) * Real(origQty)
    ensures Real(price) <= 0.0 ==> Real(CumQuote(price, avgPrice, origQty)) == Real(avgPrice) * Real(origQty)
  {
    IsPositiveIffGreaterThanZero(price);
    if IsPositive(price) {
      MulExact(price, origQty);
    } else {
      MulExact(avgPrice, origQty);
    }
  }

  /** The sixteen fields of an order record, from the order `o`, the event `res` and the three decimals. */
  function OrderFieldsOf(res: map<string, Value>, o: map<string, Value>, price: Decimal, avgPrice: Decimal, origQty: Decimal): map<string, Value>
  {
    map[
      "orderId" := GetOr(o, "i", VStr("")),
      "symbol" := GetOr(o, "s", VStr("")),
      "status" := GetOr(o, "X", VStr("")),
      "clientOrderId" := GetOr(o, "c", VStr("")),
      "price" := VDec(price),
      "avgPrice" := VDec(avgPrice),
      "origQty" := VDec(origQty),
      "cumQuote" := VDec(CumQuote(price, avgPrice, origQty)),
      "type" := GetOr(o, "o", VStr("")),
      "side" := GetOr(o, "S", VStr("")),
      "positionSide" := GetOr(o, "ps", VStr("")),
      "stopPrice" := GetOr(o, "sp", VStr("0.0")),
      "workingType" := GetOr(o, "wt", VStr("")),
      "updateTime" := GetOr(res, "T", VStr("")),
      "goodTillDate" := GetOr(res, "gtd", VStr("")),
      "timeInForce" := GetOr(res, "f", VStr(""))]
  }

  /** The order record of an ORDER_TRADE_UPDATE: `Decimal()` of price, average price and quantity, then the fields. */
  function OrderRecord(res: map<string, Value>, o: map<string, Value>): (r: Result<map<string, Value>, Exc>)
    ensures r.Success? <==> DecimalOf(GetOr(o, "p", VDec(Zero))).Success? && DecimalOf(GetOr(o, "ap", VDec(Zero))).Success?
                            && DecimalOf(GetOr(o, "q", VDec(Zero))).Success?
    ensures r.Success? ==> r.value == OrderFieldsOf(res, o, DecimalOf(GetOr(o, "p", VDec(Zero))).value,
                                                    DecimalOf(GetOr(o, "ap", VDec(Zero))).value, DecimalOf(GetOr(o, "q", VDec(Zero))).value)
  {
    var price :- DecimalOf(GetOr(o, "p", VDec(Zero)));
    var avgPrice :- DecimalOf(GetOr(o, "ap", VDec(Zero)));
    var origQty :- DecimalOf(GetOr(o, "q", VDec(Zero)));
    Success(OrderFieldsOf(res, o, price, avgPrice, origQty))
  }

  /** The ACCOUNT_UPDATE branch: `res["a"]["P"]`, then each row. */
  function AccountUpdate(db: Db, res: map<string, Value>): (Db, Result<(), Exc>)
  {
    match Item(VDict(res), "a")
    case Failure(e) => (db, Failure(e))
    case Success(a) =>
      match Item(a, "P")
      case Failure(e) => (db, Failure(e))
      case Success(positions) =>
        match Rows(positions)
        case Failure(e) => (db, Failure(e))
        case Success(rows) => ApplyRows(db, rows, res)
  }

  /** The ORDER_TRADE_UPDATE branch: `res["o"]`, its record, then `update_order`. */
  function OrderUpdate(db: Db, res: map<string, Value>): (Db, Result<(), Exc>)
  {
    match Item(VDict(res), "o")
    case Failure(e) => (db, Failure(e))
    case Success(o) =>
      if !o.VDict? then (db, Failure(AttributeError))
      else
        match OrderRecord(res, o.fields)
        case Failure(e) => (db, Failure(e))
        case Success(record) => SetOrder(db, record)
  }

  /** `process_user_data_event(res)`: the store afterwards and the outcome. */
  function EventSpec(db: Db, res: Value): (r: (Db, Result<(), Exc>))
    ensures !res.VDict? ==> r == (db, Failure(AttributeError))
    ensures res.VDict? && GetOr(res.fields, "e", VStr("")) != VStr("ACCOUNT_UPDATE") ==>
      Smembers(r.0, OpenLong) == Smembers(db, OpenLong) && Smembers(r.0, OpenShort) == Smembers(db, OpenShort)
  {
    if !res.VDict? then (db, Failure(AttributeError))
    else if GetOr(res.fields, "e", VStr("")) == VStr("ACCOUNT_UPDATE") then AccountUpdate(db, res.fields)
    else if GetOr(res.fields, "e", VStr("")) == VStr("ORDER_TRADE_UPDATE") then
      OrderUpdateKeepsPositionSets(db, res.fields);
      OrderUpdate(db, res.fields)
    else (db, Success(()))
  }

  /** An order event never touches the open position sets. */
  lemma OrderUpdateKeepsPositionSets(db: Db, res: map<string, Value>)
    ensures Smembers(OrderUpdate(db, res).0, OpenLong) == Smembers(db, OpenLong)
    ensures Smembers(OrderUpdate(db, res).0, OpenShort) == Smembers(db, OpenShort)
  {
    match Item(VDict(res), "o")
    case Failure(_) =>
    case Success(o) =>
      if o.VDict? {
        match OrderRecord(res, o.fields)
        case Failure(_) =>
        case Success(record) =>
          PositionSetsAreNotOrderSets();
          SetOrderKeepsOtherSets(db, record, OpenLong);
          SetOrderKeepsOtherSets(db, record, OpenShort);
      }
  }

  /** `receive_user_data_messages`: every message in turn, an undecodable one or one that raises only logged. */
  function ReceiveAll(db: Db, messages: seq<Option<Value>>): Db
  {
    if |messages| == 0 then db
    else
      var before := ReceiveAll(db, messages[..|messages| - 1]);
      match messages[|messages| - 1]
      case None => before
      case Some(res) => EventSpec(before, res).0
  }

  /**
   * The USD size the ACCOUNT_UPDATE log line shows: entry price times amount,
   * or 0 when either does not convert. The log line itself is left out; the
   * size is kept because its `try`/`except` is why a row whose price or amount
   * `Decimal()` rejects does not stop the loop over the rows.
   */
  function LoggedSize(position: map<string, Value>): (r: Decimal)
    requires "entryPrice" in position && "positionAmt" in position
    ensures DecimalOf(position["entryPrice"]).Failure? || DecimalOf(position["positionAmt"]).Failure? ==> r == Zero
  {
    match (DecimalOf(position["entryPrice"]), DecimalOf(position["positionAmt"]))
    case (Success(ep), Success(pa)) => Mul(ep, pa)
    case _ => Zero
  }

  /** When both convert, the logged size is exactly entry price × amount. */
  lemma LoggedSizeIsProduct(position: map<string, Value>, entryPrice: Decimal, amount: Decimal)
    requires "entryPrice" in position && "positionAmt" in position
    requires DecimalOf(position["entryPrice"]) == Success(entryPrice)
    requires DecimalOf(position["positionAmt"]) == Success(amount)
    ensures Real(LoggedSize(position)) == Real(entryPrice) * Real(amount)
  {
    assert LoggedSize(position) == Mul(entryPrice, amount);
    MulExact(entryPrice, amount);
  }

  // ---------------------------------------------------------------------------
  // Properties
  // ---------------------------------------------------------------------------

  /** An ACCOUNT_UPDATE row becomes the record symbol=s, positionAmt=pa, entryPrice=ep, unrealizedProfit=up, updateTime=T, positionSide=ps. */
  lemma PositionRecordFields(row: map<string, Value>, res: map<string, Value>)
    requires "s" in row && "pa" in row && "ep" in row && "up" in row && "ps" in row && "T" in res
    ensures PositionRecord(VDict(row), res).Success?
    ensures var rec := PositionRecord(VDict(row), res).value;
      && rec.Keys == {"symbol", "positionAmt", "entryPrice", "unrealizedProfit", "updateTime", "positionSide"}
      && rec["symbol"] == row["s"] && rec["positionAmt"] == row["pa"] && rec["entryPrice"] == row["ep"]
      && rec["unrealizedProfit"] == row["up"] && rec["updateTime"] == res["T"] && rec["positionSide"] == row["ps"]
  {
  }

  /** A row that carries a text symbol and a non-empty text side. */
  predicate WellFormedRow(row: Value, res: map<string, Value>)
  {
    && row.VDict? && "s" in row.fields && "pa" in row.fields && "ep" in row.fields && "up" in row.fields
    && "ps" in row.fields && "T" in res
    && row.fields["s"].VStr? && row.fields["ps"].VStr? && row.fields["ps"].s != ""
  }

  /** The symbol text of a row, "" when it has none. */
  function RowSymbol(row: Value): string
  {
    if row.VDict? && "s" in row.fields && row.fields["s"].VStr? then row.fields["s"].s else ""
  }

  /** The side text of a row, "" when it has none. */
  function RowSide(row: Value): string
  {
    if row.VDict? && "ps" in row.fields && row.fields["ps"].VStr? then row.fields["ps"].s else ""
  }

  /** The record of a row, empty when the row lacks an entry. */
  function RowRecord(row: Value, res: map<string, Value>): map<string, Value>
  {
    match PositionRecord(row, res)
    case Success(record) => record
    case Failure(_) => map[]
  }

  /** A well-formed row is `set_position` of its symbol text and its record, whose side is the row's side. */
  lemma ApplyRowIsSetPosition(db: Db, row: Value, res: map<string, Value>)
    requires WellFormedRow(row, res)
    ensures ApplyRow(db, row, res) == SetPosition(db, RowSymbol(row), RowRecord(row, res))
    ensures GetOr(RowRecord(row, res), "positionSide", VNone) == VStr(RowSide(row))
  {
    PositionRecordFields(row.fields, res);
    SetPositionOfText(db, row.fields["s"], RowRecord(row, res));
  }

  /** A well-formed row is stored as its record under its symbol and side; no other stored side moves. */
  lemma ApplyRowStores(db: Db, row: Value, res: map<string, Value>, symbol: string, side: string)
    requires WellFormedRow(row, res)
    ensures ApplyRow(db, row, res).1.Success?
    ensures StoredRow(ApplyRow(db, row, res).0, row, res)
    ensures RowKey(row) != (symbol, side) ==>
      Hget(ApplyRow(db, row, res).0, PositionKey(symbol), side) == Hget(db, PositionKey(symbol), side)
  {
    ApplyRowIsSetPosition(db, row, res);
    var record := RowRecord(row, res);
    SetPositionWritesOnlyItsSide(db, RowSymbol(row), record, RowSide(row), symbol, side);
    SetPositionWritesOnlyItsSide(db, RowSymbol(row), record, RowSide(row), RowSymbol(row), side);
    PositionKeyInjective(symbol, RowSymbol(row));
  }

  /** The symbol and side a row is stored under. */
  function RowKey(row: Value): (string, string)
  {
    (RowSymbol(row), RowSide(row))
  }

  /** The record of `row` is the one stored under its symbol and side. */
  ghost predicate StoredRow(db: Db, row: Value, res: map<string, Value>)
  {
    Hget(db, PositionKey(RowSymbol(row)), RowSide(row)) == Some(Doc(VDict(RowRecord(row, res))))
  }

  /** No row after row `i` has the same symbol and side. */
  ghost predicate LastOfItsKey(rows: seq<Value>, i: int)
    requires 0 <= i < |rows|
  {
    forall j :: i < j < |rows| ==> RowKey(rows[j]) != RowKey(rows[i])
  }

  /**
   * After an ACCOUNT_UPDATE whose rows are all well formed, every row's
   * record is stored under its symbol and side unless a later row of the same
   * symbol and side replaced it.
   */
  lemma {:induction false} LastRowWins(db: Db, rows: seq<Value>, res: map<string, Value>)
    requires forall i :: 0 <= i < |rows| ==> WellFormedRow(rows[i], res)
    ensures ApplyRows(db, rows, res).1.Success?
    ensures forall i :: 0 <= i < |rows| && LastOfItsKey(rows, i) ==> StoredRow(ApplyRows(db, rows, res).0, rows[i], res)
  {
    if |rows| > 0 {
      var n := |rows| - 1;
      var init := rows[..n];
      assert forall i :: 0 <= i < n ==> init[i] == rows[i];
      LastRowWins(db, init, res);
      var before := ApplyRows(db, init, res).0;
      ApplyRowStores(before, rows[n], res, "", "");
      assert ApplyRows(db, rows, res) == ApplyRow(before, rows[n], res);
      LastRowStep(rows, res, before);
    }
  }

  /** The final row keeps every earlier last-of-its-key record stored and stores its own. */
  lemma LastRowStep(rows: seq<Value>, res: map<string, Value>, before: Db)
    requires |rows| > 0 && WellFormedRow(rows[|rows| - 1], res)
    requires forall i :: 0 <= i < |rows| - 1 && LastOfItsKey(rows[..|rows| - 1], i) ==> StoredRow(before, rows[i], res)
    ensures forall i :: 0 <= i < |rows| && LastOfItsKey(rows, i) ==> StoredRow(ApplyRow(before, rows[|rows| - 1], res).0, rows[i], res)
  {
    var n := |rows| - 1;
    ApplyRowStores(before, rows[n], res, "", "");
    forall i | 0 <= i < |rows| && LastOfItsKey(rows, i)
      ensures StoredRow(ApplyRow(before, rows[n], res).0, rows[i], res)
    {
      if i < n {
        LastOfItsKeyInit(rows, i);
        KeepsStored(before, rows[n], res, rows[i]);
      }
    }
  }

  /** A well-formed row leaves the record stored for a row of another symbol or side in place. */
  lemma KeepsStored(db: Db, row: Value, res: map<string, Value>, other: Value)
    requires WellFormedRow(row, res) && StoredRow(db, other, res)
    requires RowKey(row) != RowKey(other)
    ensures StoredRow(ApplyRow(db, row, res).0, other, res)
  {
    ApplyRowStores(db, row, res, RowSymbol(other), RowSide(other));
  }

  /** A row that is last of its key among all rows is so among all rows but the final one, and differs from the final one. */
  lemma LastOfItsKeyInit(rows: seq<Value>, i: int)
    requires 0 <= i < |rows| - 1 && LastOfItsKey(rows, i)
    ensures LastOfItsKey(rows[..|rows| - 1], i)
    ensures RowKey(rows[|rows| - 1]) != RowKey(rows[i])
  {
  }

  /** `cumQuote` is price × quantity when the price is above zero, average price × quantity otherwise, exactly. */
  lemma CumQuoteRule(res: map<string, Value>, o: map<string, Value>, price: Decimal, avgPrice: Decimal, origQty: Decimal)
    requires DecimalOf(GetOr(o, "p", VDec(Zero))) == Success(price)
    requires DecimalOf(GetOr(o, "ap", VDec(Zero))) == Success(avgPrice)
    requires DecimalOf(GetOr(o, "q", VDec(Zero))) == Success(origQty)
    ensures OrderRecord(res, o).Success?
    ensures var cumQuote := OrderRecord(res, o).value["cumQuote"];
      && cumQuote.VDec?
      && (Real(price) > 0.0 ==> Real(cumQuote.d) == Real(price) * Real(origQty))
      && (Real(price) <= 0.0 ==> Real(cumQuote.d) == Real(avgPrice) * Real(origQty))
  {
    OrderFieldsValues(res, o, price, avgPrice, origQty);
    CumQuoteExact(price, avgPrice, origQty);
  }

  /** The decimal fields of the record. */
  lemma OrderFieldsValues(res: map<string, Value>, o: map<string, Value>, price: Decimal, avgPrice: Decimal, origQty: Decimal)
    ensures var rec := OrderFieldsOf(res, o, price, avgPrice, origQty);
      && rec["price"] == VDec(price) && rec["avgPrice"] == VDec(avgPrice) && rec["origQty"] == VDec(origQty)
      && rec["cumQuote"] == VDec(CumQuote(price, avgPrice, origQty))
  {
  }

  /** Missing price, average price and quantity read as zero, and so does `cumQuote`. */
  lemma MissingAmountsAreZero(res: map<string, Value>, o: map<string, Value>)
    requires "p" !in o && "ap" !in o && "q" !in o
    ensures OrderRecord(res, o).Success?
    ensures var rec := OrderRecord(res, o).value;
      rec["price"] == VDec(Zero) && rec["avgPrice"] == VDec(Zero) && rec["origQty"] == VDec(Zero)
      && rec["cumQuote"] == VDec(Zero)
  {
    assert DecimalOf(VDec(Zero)) == Success(Zero);
    assert GetOr(o, "p", VDec(Zero)) == GetOr(o, "ap", VDec(Zero)) == GetOr(o, "q", VDec(Zero)) == VDec(Zero);
    assert OrderRecord(res, o) == Success(OrderFieldsOf(res, o, Zero, Zero, Zero));
    assert CumQuote(Zero, Zero, Zero) == Zero;
    OrderFieldsValues(res, o, Zero, Zero, Zero);
  }

  /** Identity fields of the order record: "" when `o` lacks them. */
  lemma OrderIdentityDefaults(res: map<string, Value>, o: map<string, Value>, price: Decimal, avgPrice: Decimal, origQty: Decimal)
    ensures var rec := OrderFieldsOf(res, o, price, avgPrice, origQty);
      && ("i" !in o ==> rec["orderId"] == VStr(""))
      && ("s" !in o ==> rec["symbol"] == VStr(""))
      && ("X" !in o ==> rec["status"] == VStr(""))
  {
  }

  /** Kind fields of the order record: "" when `o` lacks them. */
  lemma OrderKindDefaults(res: map<string, Value>, o: map<string, Value>, price: Decimal, avgPrice: Decimal, origQty: Decimal)
    ensures var rec := OrderFieldsOf(res, o, price, avgPrice, origQty);
      && ("c" !in o ==> rec["clientOrderId"] == VStr(""))
      && ("o" !in o ==> rec["type"] == VStr(""))
      && ("S" !in o ==> rec["side"] == VStr(""))
  {
  }

  /** Trigger fields of the order record: "" when `o` lacks them, the stop price "0.0". */
  lemma OrderTriggerDefaults(res: map<string, Value>, o: map<string, Value>, price: Decimal, avgPrice: Decimal, origQty: Decimal)
    ensures var rec := OrderFieldsOf(res, o, price, avgPrice, origQty);
      && ("ps" !in o ==> rec["positionSide"] == VStr(""))
      && ("sp" !in o ==> rec["stopPrice"] == VStr("0.0"))
      && ("wt" !in o ==> rec["workingType"] == VStr(""))
  {
  }

  /** The update time, good-till date and time in force come from the event itself, whatever `o` holds. */
  lemma OrderEventFields(res: map<string, Value>, o: map<string, Value>, price: Decimal, avgPrice: Decimal, origQty: Decimal)
    ensures var rec := OrderFieldsOf(res, o, price, avgPrice, origQty);
      && rec["updateTime"] == GetOr(res, "T", VStr(""))
      && rec["goodTillDate"] == GetOr(res, "gtd", VStr(""))
      && rec["timeInForce"] == GetOr(res, "f", VStr(""))
  {
  }

  /** The record always has the same sixteen fields. */
  lemma OrderFieldsKeys(res: map<string, Value>, o: map<string, Value>, price: Decimal, avgPrice: Decimal, origQty: Decimal)
    ensures OrderFieldsOf(res, o, price, avgPrice, origQty).Keys
      == {"orderId", "symbol", "status", "clientOrderId", "price", "avgPrice", "origQty", "cumQuote",
          "type", "side", "positionSide", "stopPrice", "workingType", "updateTime", "goodTillDate", "timeInForce"}
  {
  }

  /** An order event without an order id raises at `set_order` and changes nothing. */
  lemma OrderWithoutIdRaises(db: Db, res: map<string, Value>, o: map<string, Value>)
    requires "o" in res && res["o"] == VDict(o)
    requires "i" !in o && OrderRecord(res, o).Success?
    ensures OrderUpdate(db, res) == (db, Failure(ValueError))
  {
    var rec := OrderRecord(res, o).value;
    assert rec["orderId"] == VStr("");
  }

  /** Any other event type changes nothing. */
  lemma OtherEventsNoop(db: Db, res: map<string, Value>)
    requires GetOr(res, "e", VStr("")) != VStr("ACCOUNT_UPDATE") && GetOr(res, "e", VStr("")) != VStr("ORDER_TRADE_UPDATE")
    ensures EventSpec(db, VDict(res)) == (db, Success(()))
  {
  }

  /** Receiving two runs of messages is receiving the first run, then the second. */
  lemma {:induction false} ReceiveAllAppend(db: Db, a: seq<Option<Value>>, b: seq<Option<Value>>)
    ensures ReceiveAll(db, a + b) == ReceiveAll(ReceiveAll(db, a), b)
  {
    if |b| == 0 {
      assert a + b == a;
    } else {
      ReceiveAllAppend(db, a, b[..|b| - 1]);
      assert (a + b)[..|a + b| - 1] == a + b[..|b| - 1];
      assert (a + b)[|a + b| - 1] == b[|b| - 1];
    }
  }

  /**
   * A message that raises keeps what it wrote before raising, and the
   * messages after it are processed as usual.
   */
  lemma FailureIsolated(db: Db, a: seq<Option<Value>>, res: Value, b: seq<Option<Value>>)
    ensures ReceiveAll(db, a + [Some(res)] + b) == ReceiveAll(EventSpec(ReceiveAll(db, a), res).0, b)
  {
    ReceiveAllAppend(db, a + [Some(res)], b);
    assert (a + [Some(res)])[..|a|] == a;
  }

  /** An undecodable message changes nothing. */
  lemma UndecodableSkipped(db: Db, a: seq<Option<Value>>, b: seq<Option<Value>>)
    ensures ReceiveAll(db, a + [None] + b) == ReceiveAll(db, a + b)
  {
    ReceiveAllAppend(db, a + [None], b);
    ReceiveAllAppend(db, a, b);
    assert (a + [None])[..|a|] == a;
  }

  // ---------------------------------------------------------------------------
  // The handlers
  // ---------------------------------------------------------------------------

  /** The first `i + 1` rows: the first `i`, then row `i` unless one of those raised. */
  lemma ApplyRowsNext(db: Db, rows: seq<Value>, res: map<string, Value>, i: nat)
    requires i < |rows|
    ensures var (before, r) := ApplyRows(db, rows[..i], res);
      ApplyRows(db, rows[..i + 1], res) == if r.Failure? then (before, r) else ApplyRow(before, rows[i], res)
  {
    assert rows[..i + 1][..i] == rows[..i];
  }

  /** A row that raises within the first `n` rows ends the update with that failure. */
  lemma RowsStop(db: Db, rows: seq<Value>, res: map<string, Value>, n: nat)
    requires 0 < n <= |rows|
    requires ApplyRows(db, rows[..n], res).1.Failure?
    ensures ApplyRows(db, rows, res) == ApplyRows(db, rows[..n], res)
    decreases |rows| - n
  {
    if n < |rows| {
      assert rows[..n + 1][..n] == rows[..n];
      RowsStop(db, rows, res, n + 1);
    } else {
      assert rows[..n] == rows;
    }
  }

  /** Row `i` applied after the first `i` succeeded: the first `i + 1` rows, or the whole update when it raises. */
  lemma RowStep(db: Db, rows: seq<Value>, res: map<string, Value>, i: nat, before: Db, after: Db, r: Result<(), Exc>)
    requires i < |rows|
    requires ApplyRows(db, rows[..i], res) == (before, Success(()))
    requires (after, r) == ApplyRow(before, rows[i], res)
    ensures r.Success? ==> ApplyRows(db, rows[..i + 1], res) == (after, Success(()))
    ensures r.Failure? ==> ApplyRows(db, rows, res) == (after, r)
  {
    ApplyRowsNext(db, rows, res, i);
    if r.Failure? {
      RowsStop(db, rows, res, i + 1);
    }
  }

  lemma PositionSetsAreNotOrderSets()
    ensures OpenLong != OpenOrders && OpenLong[..14] != "symbol_orders:"
    ensures OpenShort != OpenOrders && OpenShort[..14] != "symbol_orders:"
  {
    assert OpenLong[5] != OpenOrders[5] && OpenShort[5] != OpenOrders[5];
    assert OpenLong[..14][0] != "symbol_orders:"[0] && OpenShort[..14][0] != "symbol_orders:"[0];
  }

  /** One ACCOUNT_UPDATE row: its record, then `set_position`. */
  method ProcessRow(client: UserDataCache.RedisClient, row: Value, res: map<string, Value>) returns (r: Result<(), Exc>)
    modifies client.store, client`longCount, client`shortCount
    ensures (client.store.db, r) == ApplyRow(old(client.store.db), row, res)
    ensures old(client.CountersCurrent()) ==> client.CountersCurrent()
  {
    var record := PositionRecord(row, res);
    if record.Failure? {
      return Failure(record.error);
    }
    r := client.SetPosition(record.value["symbol"], record.value);
    if r.Failure? {
      SetPositionOfFailureKeepsSets(old(client.store.db), record.value["symbol"], record.value);
    }
  }

  /** The ACCOUNT_UPDATE branch: `set_position` for each row, stopping at the first that raises. */
  method ProcessAccountUpdate(client: UserDataCache.RedisClient, res: map<string, Value>) returns (r: Result<(), Exc>)
    modifies client.store, client`longCount, client`shortCount
    ensures (client.store.db, r) == AccountUpdate(old(client.store.db), res)
    ensures old(client.CountersCurrent()) ==> client.CountersCurrent()
  {
    var a := Item(VDict(res), "a");
    if a.Failure? {
      return Failure(a.error);
    }
    var positions := Item(a.value, "P");
    if positions.Failure? {
      return Failure(positions.error);
    }
    var rows := Rows(positions.value);
    if rows.Failure? {
      return Failure(rows.error);
    }
    r := ProcessRows(client, rows.value, res);
  }

  /** `for row in positions`: each row in turn, stopping at the first that raises. */
  method ProcessRows(client: UserDataCache.RedisClient, rows: seq<Value>, res: map<string, Value>) returns (r: Result<(), Exc>)
    modifies client.store, client`longCount, client`shortCount
    ensures (client.store.db, r) == ApplyRows(old(client.store.db), rows, res)
    ensures old(client.CountersCurrent()) ==> client.CountersCurrent()
  {
    ghost var db := old(client.store.db);
    var i := 0;
    while i < |rows|
      invariant 0 <= i <= |rows|
      invariant ApplyRows(db, rows[..i], res) == (client.store.db, Success(()))
      invariant old(client.CountersCurrent()) ==> client.CountersCurrent()
    {
      ghost var before := client.store.db;
      r := ProcessRow(client, rows[i], res);
      RowStep(db, rows, res, i, before, client.store.db, r);
      if r.Failure? {
        return r;
      }
      i := i + 1;
    }
    assert rows[..i] == rows;
    r := Success(());
  }

  /** The ORDER_TRADE_UPDATE branch: the order record goes to `update_order`. */
  method ProcessOrderUpdate(client: UserDataCache.RedisClient, res: map<string, Value>) returns (r: Result<(), Exc>)
    modifies client.store
    ensures (client.store.db, r) == OrderUpdate(old(client.store.db), res)
    ensures Smembers(client.store.db, OpenLong) == Smembers(old(client.store.db), OpenLong)
    ensures Smembers(client.store.db, OpenShort) == Smembers(old(client.store.db), OpenShort)
  {
    var o := Item(VDict(res), "o");
    if o.Failure? {
      return Failure(o.error);
    }
    if !o.value.VDict? {
      return Failure(AttributeError);
    }
    var record := OrderRecord(res, o.value.fields);
    if record.Failure? {
      return Failure(record.error);
    }
    r := client.UpdateOrder(record.value);
    OrderUpdateKeepsPositionSets(old(client.store.db), res);
  }

  /** `process_user_data_event`: the client's counters stay the sizes of the open sets when they were. */
  method ProcessUserDataEvent(client: UserDataCache.RedisClient, res: Value) returns (r: Result<(), Exc>)
    modifies client.store, client`longCount, client`shortCount
    ensures (client.store.db, r) == EventSpec(old(client.store.db), res)
    ensures old(client.CountersCurrent()) ==> client.CountersCurrent()
  {
    if !res.VDict? {
      return Failure(AttributeError);
    }
    var eventType := GetOr(res.fields, "e", VStr(""));
    if eventType == VStr("ACCOUNT_UPDATE") {
      r := ProcessAccountUpdate(client, res.fields);
    } else if eventType == VStr("ORDER_TRADE_UPDATE") {
      r := ProcessOrderUpdate(client, res.fields);
    } else {
      r := Success(());
    }
  }

  /** `receive_user_data_messages`: every message is processed; one that raises is only logged. */
  method ReceiveUserDataMessages(client: UserDataCache.RedisClient, messages: seq<Option<Value>>)
    modifies client.store, client`longCount, client`shortCount
    ensures client.store.db == ReceiveAll(old(client.store.db), messages)
    ensures old(client.CountersCurrent()) ==> client.CountersCurrent()
  {
    var i := 0;
    while i < |messages|
      invariant 0 <= i <= |messages|
      invariant client.store.db == ReceiveAll(old(client.store.db), messages[..i])
      invariant old(client.CountersCurrent()) ==> client.CountersCurrent()
    {
      assert messages[..i + 1][..i] == messages[..i];
      match messages[i] {
        case None =>
        case Some(res) =>
          var _ := ProcessUserDataEvent(client, res);
      }
      i := i + 1;
    }
    assert messages[..i] == messages;
  }
}
