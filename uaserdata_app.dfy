/**
 * The user-data relay variant of the candle relay, with its own Redis client:
 * the same renaming and routing, but the current slot is `current:{symbol}:{interval}`.
 * A message that raises is printed and never propagates.
 */
module UaserdataApp {
  import opened Wrappers
  import opened Values
  import opened RedisState
  import opened Candles
  import Text
  import RedisStore

  const ListKeep := 5

  class RedisClient {
    const store: RedisStore.Store

    constructor (store: RedisStore.Store)
      ensures this.store == store
    {
      this.store := store;
    }

    /** `save_closed_candle_in_list`: RPUSH then LTRIM -5 -1 on `candles:{symbol}:{interval}`. */
    method SaveClosedCandleInList(candle: map<string, Value>) returns (r: Result<(), Exc>)
      modifies store
      ensures (store.db, r) == AppendClosed(old(store.db), "candles:", candle, Some(ListKeep))
    {
      var key := SeriesKey("candles:", candle);
      if key.Failure? {
        return Failure(key.error);
      }
      store.Rpush(key.value, DocOf(candle));
      store.Ltrim(key.value, -ListKeep, -1);
      r := Success(());
    }

    /** `save_closed_candle`: SET, EXPIRE 1600, then ZADD into `candles_index:{symbol}:{interval}`. */
    method SaveClosedCandle(candle: map<string, Value>) returns (r: Result<(), Exc>)
      modifies store
      ensures (store.db, r) == IndexClosed(old(store.db), candle)
    {
      var candleKey := CandleKey(candle);
      if candleKey.Failure? {
        return Failure(candleKey.error);
      }
      store.Set(candleKey.value, DocOf(candle));
      store.Expire(candleKey.value, CandleTtl);
      var index := SeriesKey("candles_index:", candle).value;
      var score := Score(candle["close_time"]);
      if score.Failure? {
        return Failure(score.error);
      }
      store.Zadd(index, candleKey.value, score.value);
      r := Success(());
    }

    /** `save_current_candle`: SET `current:{symbol}:{interval}`. */
    method SaveCurrentCandle(candle: map<string, Value>) returns (r: Result<(), Exc>)
      modifies store
      ensures (store.db, r) == SetCurrent(old(store.db), "current:", candle)
    {
      var key := SeriesKey("current:", candle);
      if key.Failure? {
        return Failure(key.error);
      }
      store.Set(key.value, DocOf(candle));
      r := Success(());
    }
  }

  /** `process_message(message)`: the store afterwards and what was printed, if anything. */
  function Processed(db: Db, message: Option<Value>): (r: (Db, Result<(), Exc>))
    ensures r.1.Success? <==> DecodeCandle(message, StartTime).Success? && SeriesKey("candles:", DecodeCandle(message, StartTime).value).Success?
    ensures r.1.Failure? ==> r.0 == db
  {
    match DecodeCandle(message, StartTime)
    case Failure(e) => (db, Failure(e))
    case Success(candle) =>
      if IsClosed(candle) then AppendClosed(db, "candles:", candle, Some(ListKeep))
      else SetCurrent(db, "current:", candle)
  }

  method ProcessMessage(message: Option<Value>, client: RedisClient) returns (r: Result<(), Exc>)
    modifies client.store
    ensures (client.store.db, r) == Processed(old(client.store.db), message)
  {
    var candle := DecodeCandle(message, StartTime);
    if candle.Failure? {
      return Failure(candle.error);
    }
    if IsClosed(candle.value) {
      r := client.SaveClosedCandleInList(candle.value);
    } else {
      r := client.SaveCurrentCandle(candle.value);
    }
  }

  /**
   * The two routes: a closed candle ends up last in its series list of at most
   * five, an open one in `current:{symbol}:{interval}`; a malformed message
   * stores nothing.
   */
  lemma Routing(db: Db, message: Option<Value>)
    ensures DecodeCandle(message, StartTime).Failure? ==> Processed(db, message).0 == db
    ensures DecodeCandle(message, StartTime).Success? ==>
              var candle := DecodeCandle(message, StartTime).value;
              var (db', r) := Processed(db, message);
              && (IsClosed(candle) && SeriesKey("candles:", candle).Success? ==>
                    var k := SeriesKey("candles:", candle).value;
                    r.Success? && List(db', k) == Last(List(db, k) + [DocOf(candle)], ListKeep)
                    && SameExcept(db', db, k))
              && (!IsClosed(candle) && SeriesKey("current:", candle).Success? ==>
                    var k := SeriesKey("current:", candle).value;
                    r.Success? && Get(db', k) == Some(DocOf(candle)) && SameExcept(db', db, k))
  {
    if DecodeCandle(message, StartTime).Success? {
      var candle := DecodeCandle(message, StartTime).value;
      if IsClosed(candle) {
        AppendKeepsLast(db, "candles:", candle, ListKeep);
      } else {
        CurrentHoldsLatest(db, "current:", candle);
      }
    }
  }

  /** The current slot of this relay is never the list or the index of a series. */
  lemma CurrentSlotIsItsOwnKey(a: string, b: string)
    ensures "current:" + a != "candles:" + b
    ensures "current:" + a != "candles_index:" + b
    ensures "current:" + a != "candle:" + b
  {
    Text.PrefixesDiffer("current:", "candles:", a, b, 1);
    Text.PrefixesDiffer("current:", "candles_index:", a, b, 1);
    Text.PrefixesDiffer("current:", "candle:", a, b, 1);
  }
}
