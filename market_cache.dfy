/**
 * The candle relay's Redis client: a closed candle is appended to its series
 * list, which is trimmed to the last five; a closed candle can also be kept
 * under its own key for 1600 s and indexed by close time; an open candle
 * overwrites the series' `candle_current` slot.
 */
module MarketCache {
  import opened Wrappers
  import opened Values
  import opened RedisState
  import opened Candles
  import RedisStore

  /** How many closed candles `save_closed_candle_in_list` keeps per series. */
  const ListKeep := 5

  class RedisClient {
    const store: RedisStore.Store

    constructor (store: RedisStore.Store)
      ensures this.store == store
    {
      this.store := store;
    }

    /** `save_closed_candle_in_list`: RPUSH then LTRIM -5 -1 on `candles:{symbol}:{interval}`. */
    method SaveClosedCandleInList(candle: map<string, Value>) returns (r: Result<(), Exc>)
      modifies store
      ensures (store.db, r) == AppendClosed(old(store.db), "candles:", candle, Some(ListKeep))
    {
      var key := SeriesKey("candles:", candle);
      if key.Failure? {
        return Failure(key.error);
      }
      store.Rpush(key.value, DocOf(candle));
      store.Ltrim(key.value, -ListKeep, -1);
      r := Success(());
    }

    /** `save_closed_candle`: SET, EXPIRE 1600, then ZADD into `candles_index:{symbol}:{interval}`. */
    method SaveClosedCandle(candle: map<string, Value>) returns (r: Result<(), Exc>)
      modifies store
      ensures (store.db, r) == IndexClosed(old(store.db), candle)
    {
      var candleKey := CandleKey(candle);
      if candleKey.Failure? {
        return Failure(candleKey.error);
      }
      store.Set(candleKey.value, DocOf(candle));
      store.Expire(candleKey.value, CandleTtl);
      var index := SeriesKey("candles_index:", candle).value;
      var score := Score(candle["close_time"]);
      if score.Failure? {
        return Failure(score.error);
      }
      store.Zadd(index, candleKey.value, score.value);
      r := Success(());
    }

    /** `save_current_candle`: SET `candle_current:{symbol}:{interval}`. */
    method SaveCurrentCandle(candle: map<string, Value>) returns (r: Result<(), Exc>)
      modifies store
      ensures (store.db, r) == SetCurrent(old(store.db), "candle_current:", candle)
    {
      var key := SeriesKey("candle_current:", candle);
      if key.Failure? {
        return Failure(key.error);
      }
      store.Set(key.value, DocOf(candle));
      r := Success(());
    }
  }
}
