/**
 * The candle relay: each stream message's kline is renamed into a candle
 * record; a closed candle goes to the series list (last five kept), an open
 * one to the current slot. A message that raises is logged and stores
 * nothing more than it had written.
 */
module MarketApp {
  import opened Wrappers
  import opened Values
  import opened RedisState
  import opened Candles
  import MarketCache

  /** `process_message(message)`: the store afterwards and what was logged, if anything. */
  function Processed(db: Db, message: Option<Value>): (r: (Db, Result<(), Exc>))
    ensures r.1.Success? <==> DecodeCandle(message, StartTime).Success? && SeriesKey("candles:", DecodeCandle(message, StartTime).value).Success?
    ensures r.1.Failure? ==> r.0 == db
  {
    match DecodeCandle(message, StartTime)
    case Failure(e) => (db, Failure(e))
    case Success(candle) =>
      if IsClosed(candle) then AppendClosed(db, "candles:", candle, Some(MarketCache.ListKeep))
      else SetCurrent(db, "candle_current:", candle)
  }

  method ProcessMessage(message: Option<Value>, client: MarketCache.RedisClient) returns (r: Result<(), Exc>)
    modifies client.store
    ensures (client.store.db, r) == Processed(old(client.store.db), message)
  {
    var candle := DecodeCandle(message, StartTime);
    if candle.Failure? {
      return Failure(candle.error);
    }
    if IsClosed(candle.value) {
      r := client.SaveClosedCandleInList(candle.value);
    } else {
      r := client.SaveCurrentCandle(candle.value);
    }
  }

  /** A message without a kline object stores nothing. */
  lemma MalformedStoresNothing(db: Db, message: Option<Value>)
    requires DecodeCandle(message, StartTime).Failure?
    ensures Processed(db, message) == (db, Failure(DecodeCandle(message, StartTime).error))
  {
  }

  /**
   * A closed candle ends up last in its series list, which keeps at most five;
   * nothing else changes.
   */
  lemma ClosedCandleToList(db: Db, message: Option<Value>)
    requires DecodeCandle(message, StartTime).Success?
    requires IsClosed(DecodeCandle(message, StartTime).value)
    requires SeriesKey("candles:", DecodeCandle(message, StartTime).value).Success?
    ensures var candle := DecodeCandle(message, StartTime).value;
            var k := SeriesKey("candles:", candle).value;
            var (db', r) := Processed(db, message);
            && r.Success?
            && List(db', k) == Last(List(db, k) + [DocOf(candle)], MarketCache.ListKeep)
            && 1 <= |List(db', k)| <= MarketCache.ListKeep
            && SameExcept(db', db, k)
  {
    var candle := DecodeCandle(message, StartTime).value;
    AppendKeepsLast(db, "candles:", candle, MarketCache.ListKeep);
  }

  /** An open candle replaces the current slot of its series; nothing else changes. */
  lemma OpenCandleToCurrent(db: Db, message: Option<Value>)
    requires DecodeCandle(message, StartTime).Success?
    requires !IsClosed(DecodeCandle(message, StartTime).value)
    requires SeriesKey("candle_current:", DecodeCandle(message, StartTime).value).Success?
    ensures var candle := DecodeCandle(message, StartTime).value;
            var k := SeriesKey("candle_current:", candle).value;
            var (db', r) := Processed(db, message);
            r.Success? && Get(db', k) == Some(DocOf(candle)) && SameExcept(db', db, k)
  {
    CurrentHoldsLatest(db, "candle_current:", DecodeCandle(message, StartTime).value);
  }
}
