/**
 * What the four candle relays share: the kline payload of a Binance stream
 * message, its renaming into a candle record, the Redis key names built from
 * a candle, and the three ways a relay stores a candle (appended to a list,
 * kept in a "current" slot, or saved under its own key and indexed by close
 * time), each as a function from the old Redis data to the new.
 */
module Candles {
  import opened Wrappers
  import opened Text
  import opened Values
  import opened RedisState

  // ---------------------------------------------------------------------------
  // rename_candle_keys
  // ---------------------------------------------------------------------------

  /** The name the relays give the kline's `t` field: `start_time` or `open_time`. */
  datatype FirstKey = StartTime | OpenTime

  function FirstName(first: FirstKey): string
  {
    match first
    case StartTime => "start_time"
    case OpenTime => "open_time"
  }

  /** The kline fields every relay reads, in the order it reads them. */
  const WireKeys: seq<string> := ["t", "T", "s", "i", "f", "L", "o", "c", "h", "l", "v", "n", "x", "q", "V", "Q"]

  /** The record name of each wire field, position for position. */
  function RecordKeys(first: FirstKey): seq<string>
  {
    [FirstName(first), "close_time", "symbol", "interval", "first_trade_id", "last_trade_id",
     "open", "close", "high", "low", "volume", "number_of_trades", "is_closed",
     "quote_volume", "taker_buy_base_volume", "taker_buy_quote_volume"]
  }

  /** `rename_candle_keys(raw)`: the record's fields are the kline's, under their long names; a missing field is `None`. */
  function Rename(raw: map<string, Value>, first: FirstKey): (r: map<string, Value>)
    ensures "symbol" in r && "interval" in r && "close_time" in r && "is_closed" in r
  {
    map[
      FirstName(first) := GetOr(raw, "t", VNone),
      "close_time" := GetOr(raw, "T", VNone),
      "symbol" := GetOr(raw, "s", VNone),
      "interval" := GetOr(raw, "i", VNone),
      "first_trade_id" := GetOr(raw, "f", VNone),
      "last_trade_id" := GetOr(raw, "L", VNone),
      "open" := GetOr(raw, "o", VNone),
      "close" := GetOr(raw, "c", VNone),
      "high" := GetOr(raw, "h", VNone),
      "low" := GetOr(raw, "l", VNone),
      "volume" := GetOr(raw, "v", VNone),
      "number_of_trades" := GetOr(raw, "n", VNone),
      "is_closed" := GetOr(raw, "x", VNone),
      "quote_volume" := GetOr(raw, "q", VNone),
      "taker_buy_base_volume" := GetOr(raw, "V", VNone),
      "taker_buy_quote_volume" := GetOr(raw, "Q", VNone)
    ]
  }

  /** The record names are sixteen distinct texts. */
  lemma RecordKeysDistinct(first: FirstKey)
    ensures |RecordKeys(first)| == |WireKeys| == 16
    ensures forall i, j :: 0 <= i < j < 16 ==> RecordKeys(first)[i] != RecordKeys(first)[j]
  {
  }

  /**
   * Field `i` of the record is wire field `i` of the kline (`None` when the
   * kline lacks it), and the record has exactly the sixteen record names.
   */
  lemma RenameTable(raw: map<string, Value>, first: FirstKey, i: nat)
    requires i < 16
    ensures RecordKeys(first)[i] in Rename(raw, first)
    ensures Rename(raw, first)[RecordKeys(first)[i]] == GetOr(raw, WireKeys[i], VNone)
    ensures WireKeys[i] !in raw ==> Rename(raw, first)[RecordKeys(first)[i]] == VNone
  {
    RecordKeysDistinct(first);
  }

  lemma RenameKeys(raw: map<string, Value>, first: FirstKey, k: string)
    ensures k in Rename(raw, first) <==> k in RecordKeys(first)
  {
  }

  /** Two klines carrying every wire field and nothing else rename to the same record only when they are equal. */
  lemma RenameLossless(a: map<string, Value>, b: map<string, Value>, first: FirstKey)
    requires forall k :: k in a <==> k in WireKeys
    requires forall k :: k in b <==> k in WireKeys
    requires Rename(a, first) == Rename(b, first)
    ensures a == b
  {
    forall k | k in a ensures a[k] == b[k] {
      var i :| 0 <= i < |WireKeys| && WireKeys[i] == k;
      RenameTable(a, first, i);
      RenameTable(b, first, i);
    }
  }

  // ---------------------------------------------------------------------------
  // The message and the candle
  // ---------------------------------------------------------------------------

  /**
   * `rename_candle_keys(json.loads(message)['data']['k'])`: `None` stands for a
   * message `json.loads` rejects; a kline that is not an object has no `.get`.
   */
  function DecodeCandle(message: Option<Value>, first: FirstKey): (r: Result<map<string, Value>, Exc>)
    ensures message.None? ==> r == Failure(ValueError)
    ensures r.Success? <==> message.Some? && Item(message.value, "data").Success?
                            && Item(Item(message.value, "data").value, "k").Success?
                            && Item(Item(message.value, "data").value, "k").value.VDict?
    ensures r.Success? ==> r.value == Rename(Item(Item(message.value, "data").value, "k").value.fields, first)
  {
    match message
    case None => Failure(ValueError)
    case Some(data) =>
      var payload :- Item(data, "data");
      var raw :- Item(payload, "k");
      if raw.VDict? then Success(Rename(raw.fields, first)) else Failure(AttributeError)
  }

  /** `candle["is_closed"]` is truthy: the kline is final. */
  predicate IsClosed(candle: map<string, Value>)
  {
    "is_closed" in candle && Truthy(candle["is_closed"])
  }

  /** A decoded candle is closed exactly when the kline's `x` is truthy. */
  lemma IsClosedIsX(raw: map<string, Value>, first: FirstKey)
    ensures IsClosed(Rename(raw, first)) <==> "x" in raw && Truthy(raw["x"])
  {
  }

  // ---------------------------------------------------------------------------
  // Key names
  // ---------------------------------------------------------------------------

  /** `candle[k]` formatted into a key: missing raises KeyError; a list or object is not modelled. */
  function Field(candle: map<string, Value>, k: string): (r: Result<string, Exc>)
    ensures k !in candle ==> r == Failure(KeyError)
    ensures r.Success? <==> k in candle && IsScalar(candle[k])
    ensures r.Success? ==> r.value == Render(candle[k])
  {
    if k !in candle then Failure(KeyError)
    else if !IsScalar(candle[k]) then Failure(Unsupported)
    else Success(Render(candle[k]))
  }

  /** `f"{prefix}{candle['symbol']}:{candle['interval']}"`. */
  function SeriesKey(prefix: string, candle: map<string, Value>): (r: Result<string, Exc>)
    ensures r.Success? <==> Field(candle, "symbol").Success? && Field(candle, "interval").Success?
  {
    var symbol :- Field(candle, "symbol");
    var interval :- Field(candle, "interval");
    Success(prefix + symbol + ":" + interval)
  }

  /** `f"candle:{symbol}:{interval}:{close_time}"`, the key of one closed candle. */
  function CandleKey(candle: map<string, Value>): (r: Result<string, Exc>)
    ensures r.Success? ==> SeriesKey("candle:", candle).Success?
  {
    var series :- SeriesKey("candle:", candle);
    var closeTime :- Field(candle, "close_time");
    Success(series + ":" + closeTime)
  }

  /** The key of a series is its symbol and interval, after the prefix. */
  lemma SeriesKeyParts(prefix: string, candle: map<string, Value>)
    requires SeriesKey(prefix, candle).Success?
    ensures var k := SeriesKey(prefix, candle).value;
            |prefix| <= |k| && k[..|prefix|] == prefix
            && k[|prefix|..] == Render(candle["symbol"]) + ":" + Render(candle["interval"])
  {
    var k := SeriesKey(prefix, candle).value;
    assert k == prefix + (Render(candle["symbol"]) + ":" + Render(candle["interval"]));
  }

  /** Candles of the same symbol and interval share their series key, whatever else differs. */
  lemma SeriesKeySameSeries(prefix: string, a: map<string, Value>, b: map<string, Value>)
    requires "symbol" in a && "symbol" in b && a["symbol"] == b["symbol"]
    requires "interval" in a && "interval" in b && a["interval"] == b["interval"]
    ensures SeriesKey(prefix, a) == SeriesKey(prefix, b)
  {
  }

  // ---------------------------------------------------------------------------
  // The three store operations
  // ---------------------------------------------------------------------------

  function DocOf(candle: map<string, Value>): Cell
  {
    Doc(VDict(candle))
  }

  /**
   * RPUSH of `json.dumps(candle)` onto the series list, then, when `keep` is
   * given, LTRIM to the last `keep` elements.
   */
  function AppendClosed(db: Db, prefix: string, candle: map<string, Value>, keep: Option<nat>): (r: (Db, Result<(), Exc>))
    ensures r.1.Success? <==> SeriesKey(prefix, candle).Success?
    ensures r.1.Failure? ==> r.0 == db && r.1.error == SeriesKey(prefix, candle).error
    ensures r.1.Success? ==> SameExcept(r.0, db, SeriesKey(prefix, candle).value)
  {
    match SeriesKey(prefix, candle)
    case Failure(e) => (db, Failure(e))
    case Success(k) =>
      var pushed := Rpush(db, k, DocOf(candle));
      (if keep.Some? then Ltrim(pushed, k, -(keep.value as int), -1) else pushed, Success(()))
  }

  /** SET of `json.dumps(candle)` in the series' current slot. */
  function SetCurrent(db: Db, prefix: string, candle: map<string, Value>): (r: (Db, Result<(), Exc>))
    ensures r.1.Success? <==> SeriesKey(prefix, candle).Success?
    ensures r.1.Failure? ==> r.0 == db && r.1.error == SeriesKey(prefix, candle).error
    ensures r.1.Success? ==> Get(r.0, SeriesKey(prefix, candle).value) == Some(DocOf(candle))
  {
    match SeriesKey(prefix, candle)
    case Failure(e) => (db, Failure(e))
    case Success(k) => (Set(db, k, DocOf(candle)), Success(()))
  }

  /** The lifetime `save_closed_candle` gives a candle's own key, in seconds. */
  const CandleTtl := 1600

  /**
   * `float(close_time)` as a score. Scores are integers here: an integer, a
   * boolean or an integer text; another text raises ValueError.
   */
  function Score(v: Value): (r: Result<int, Exc>)
    ensures v.VInt? ==> r == Success(v.i)
  {
    match v
    case VInt(i) => Success(i)
    case VBool(b) => Success(if b then 1 else 0)
    case VStr(s) => (match ParseInt(s) case Some(i) => Success(i) case None => Failure(ValueError))
    case VNone | VList(_) | VDict(_) => Failure(TypeError)
    case VDec(_) => Failure(Unsupported)
  }

  /**
   * `save_closed_candle`: SET the candle under its own key, EXPIRE it after
   * 1600 s, then ZADD the key to `candles_index:{symbol}:{interval}` scored by
   * its close time. A close time that is no number raises after the first two
   * writes.
   */
  function IndexClosed(db: Db, candle: map<string, Value>): (r: (Db, Result<(), Exc>))
    ensures CandleKey(candle).Failure? ==> r == (db, Failure(CandleKey(candle).error))
    ensures CandleKey(candle).Success? ==>
      && "close_time" in candle
      && Get(r.0, CandleKey(candle).value) == Some(DocOf(candle))
      && (r.1.Success? <==> Score(candle["close_time"]).Success?)
      && (r.1.Failure? ==> r.1 == Failure(Score(candle["close_time"]).error))
  {
    match CandleKey(candle)
    case Failure(e) => (db, Failure(e))
    case Success(ck) =>
      var written := Expire(Set(db, ck, DocOf(candle)), ck, CandleTtl);
      var index := SeriesKey("candles_index:", candle).value;
      match Score(candle["close_time"])
      case Failure(e) => (written, Failure(e))
      case Success(score) => (Zadd(written, index, ck, score), Success(()))
  }

  // ---------------------------------------------------------------------------
  // What the operations promise
  // ---------------------------------------------------------------------------

  /** A failed append writes nothing; a successful one appends exactly the candle. */
  lemma AppendUnbounded(db: Db, prefix: string, candle: map<string, Value>)
    ensures var (db', r) := AppendClosed(db, prefix, candle, None);
            && (r.Success? <==> SeriesKey(prefix, candle).Success?)
            && (r.Failure? ==> db' == db)
            && (r.Success? ==> var k := SeriesKey(prefix, candle).value;
                  List(db', k) == List(db, k) + [DocOf(candle)] && SameExcept(db', db, k))
  {
  }

  /** With a bound, the list becomes the last `n` of the old list and the new candle. */
  lemma AppendKeepsLast(db: Db, prefix: string, candle: map<string, Value>, n: nat)
    requires n > 0
    ensures AppendClosed(db, prefix, candle, Some(n)).1.Success? <==> SeriesKey(prefix, candle).Success?
    ensures AppendClosed(db, prefix, candle, Some(n)).1.Failure? ==> AppendClosed(db, prefix, candle, Some(n)).0 == db
    ensures SeriesKey(prefix, candle).Success? ==>
              var k := SeriesKey(prefix, candle).value;
              var db' := AppendClosed(db, prefix, candle, Some(n)).0;
              List(db', k) == Last(List(db, k) + [DocOf(candle)], n) && SameExcept(db', db, k)
  {
    if SeriesKey(prefix, candle).Success? {
      var k := SeriesKey(prefix, candle).value;
      PushTrim(db, k, DocOf(candle), n);
      assert AppendClosed(db, prefix, candle, Some(n)).0 == Ltrim(Rpush(db, k, DocOf(candle)), k, -(n as int), -1);
    }
  }

  /** RPUSH then LTRIM -n -1 on one list. */
  lemma PushTrim(db: Db, k: string, c: Cell, n: nat)
    requires n > 0
    ensures var db' := Ltrim(Rpush(db, k, c), k, -(n as int), -1);
            List(db', k) == Last(List(db, k) + [c], n) && SameExcept(db', db, k)
  {
    var pushed := Rpush(db, k, c);
    assert List(pushed, k) == List(db, k) + [c];
    TrimKeepsLast(List(pushed, k), n);
  }

  /** With a bound, the list never holds more than `n` candles and ends with the one just appended. */
  lemma AppendBoundNewestLast(db: Db, prefix: string, candle: map<string, Value>, n: nat)
    requires n > 0 && SeriesKey(prefix, candle).Success?
    ensures var l := List(AppendClosed(db, prefix, candle, Some(n)).0, SeriesKey(prefix, candle).value);
            1 <= |l| <= n && l[|l| - 1] == DocOf(candle)
  {
    AppendKeepsLast(db, prefix, candle, n);
  }

  /** The current slot holds the candle; nothing else changes but the slot's expiry. */
  lemma CurrentHoldsLatest(db: Db, prefix: string, candle: map<string, Value>)
    ensures var (db', r) := SetCurrent(db, prefix, candle);
            && (r.Success? <==> SeriesKey(prefix, candle).Success?)
            && (r.Failure? ==> db' == db)
            && (r.Success? ==> var k := SeriesKey(prefix, candle).value;
                  Get(db', k) == Some(DocOf(candle)) && SameExcept(db', db, k))
  {
  }

  /** Of two candles of one series, the later write wins: the first leaves no trace. */
  lemma CurrentLatestWins(db: Db, prefix: string, a: map<string, Value>, b: map<string, Value>)
    requires SeriesKey(prefix, a).Success? && SeriesKey(prefix, a) == SeriesKey(prefix, b)
    ensures SetCurrent(SetCurrent(db, prefix, a).0, prefix, b) == SetCurrent(db, prefix, b)
  {
    var k := SeriesKey(prefix, a).value;
    assert db.strings[k := DocOf(a)][k := DocOf(b)] == db.strings[k := DocOf(b)];
    assert db.ttl - {k} - {k} == db.ttl - {k};
  }

  predicate SameOutside(a: Db, b: Db, keys: set<string>)
  {
    a.strings - keys == b.strings - keys && a.lists - keys == b.lists - keys
    && a.hashes - keys == b.hashes - keys && a.sets - keys == b.sets - keys
    && a.zsets - keys == b.zsets - keys && a.ttl - keys == b.ttl - keys
  }

  /**
   * A saved candle is stored under its key with a 1600 s lifetime and indexed
   * by its close time; only those two keys change.
   */
  lemma IndexClosedStores(db: Db, candle: map<string, Value>)
    requires CandleKey(candle).Success? && Score(candle["close_time"]).Success?
    ensures var (db', r) := IndexClosed(db, candle);
            var ck := CandleKey(candle).value;
            var index := SeriesKey("candles_index:", candle).value;
            && r.Success?
            && Get(db', ck) == Some(DocOf(candle))
            && db'.ttl[ck] == CandleTtl
            && index in db'.zsets && db'.zsets[index][ck] == Score(candle["close_time"]).value
            && SameOutside(db', db, {ck, index})
  {
  }

  /** Saving the same closed candle again changes nothing: the index has one member per candle key. */
  lemma IndexClosedIdempotent(db: Db, candle: map<string, Value>)
    requires IndexClosed(db, candle).1.Success?
    ensures IndexClosed(IndexClosed(db, candle).0, candle) == IndexClosed(db, candle)
  {
    var ck := CandleKey(candle).value;
    var index := SeriesKey("candles_index:", candle).value;
    var once := IndexClosed(db, candle).0;
    var twice := IndexClosed(once, candle).0;
    assert Exists(Set(once, ck, DocOf(candle)), ck);
    assert Exists(Set(db, ck, DocOf(candle)), ck);
    assert twice.strings == once.strings;
    assert twice.ttl == once.ttl;
    var z := once.zsets[index];
    assert z[ck := Score(candle["close_time"]).value] == z;
    assert twice.zsets == once.zsets;
  }

  // ---------------------------------------------------------------------------
  // The stream URL
  // ---------------------------------------------------------------------------

  const StreamBase := "wss://fstream.binance.com/stream?streams="

  /** `f"wss://fstream.binance.com/stream?streams={'/'.join(streams)}"`. */
  function StreamUrl(streams: seq<string>): string
  {
    StreamBase + Join(streams, '/')
  }

  /** The URL is the base followed by the stream names, which splitting at '/' gives back. */
  lemma StreamUrlLists(streams: seq<string>)
    requires |streams| >= 1
    requires forall i :: 0 <= i < |streams| ==> '/' !in streams[i]
    ensures var url := StreamUrl(streams);
            |StreamBase| <= |url| && url[..|StreamBase|] == StreamBase
            && Split(url[|StreamBase|..], '/') == streams
  {
    var url := StreamUrl(streams);
    assert url[|StreamBase|..] == Join(streams, '/');
    SplitJoin(streams, '/');
  }
}
