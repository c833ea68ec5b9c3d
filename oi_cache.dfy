/**
 * The open-interest service's Redis client: per symbol, the timestamp of the
 * newest sample already collected, and a window of the most recent samples
 * kept as a list of JSON documents.
 */
module OpenInterestCache {
  import opened Wrappers
  import opened Text
  import opened Values
  import opened RedisState
  import RedisStore

  /** The window length `push_open_interest_list` uses when none is given. */
  const DefaultMaxLength := 10

  function LastTsKey(symbol: string): string
  {
    "open_interest_last_ts:" + symbol
  }

  function ListKey(symbol: string): string
  {
    "open_interest:" + symbol
  }

  /** The two keys of one symbol never coincide with each other or with another symbol's keys. */
  lemma KeysDistinct(a: string, b: string)
    ensures LastTsKey(a) != ListKey(b)
    ensures LastTsKey(a) == LastTsKey(b) ==> a == b
    ensures ListKey(a) == ListKey(b) ==> a == b
  {
    PrefixesDiffer("open_interest_last_ts:", "open_interest:", a, b, 13);
    PrefixInjective("open_interest_last_ts:", a, b);
    PrefixInjective("open_interest:", a, b);
  }

  /** `get_last_timestamp`: nothing when never saved, else `int()` of the stored text. */
  function LastTimestamp(db: Db, symbol: string): Result<Option<int>, Exc>
  {
    match Get(db, LastTsKey(symbol))
    case None => Success(None)
    case Some(Raw(t)) =>
      (match ParseInt(t)
       case Some(i) => Success(Some(i))
       case None => Failure(ValueError))
    case Some(Doc(v)) => if v.VInt? then Success(Some(v.i)) else Failure(ValueError)
  }

  /** `save_last_timestamp`: redis-py sends the integer as its decimal text. */
  function SaveLastTs(db: Db, symbol: string, timestamp: int): Db
  {
    Set(db, LastTsKey(symbol), Raw(IntToString(timestamp)))
  }

  /**
   * `save_last_timestamp` of any value: redis-py sends an int or a str as its
   * text and refuses everything else with DataError, writing nothing.
   */
  function SaveLast(db: Db, symbol: string, timestamp: Value): (Db, Result<(), Exc>)
  {
    match Encode(timestamp)
    case Failure(e) => (db, Failure(e))
    case Success(t) => (Set(db, LastTsKey(symbol), Raw(t)), Success(()))
  }

  /** Saving an integer is `SaveLastTs`; a bool, None or Decimal is refused and nothing is written. */
  lemma SaveLastKinds(db: Db, symbol: string, timestamp: Value)
    ensures timestamp.VInt? ==> SaveLast(db, symbol, timestamp) == (SaveLastTs(db, symbol, timestamp.i), Success(()))
    ensures !timestamp.VInt? && !timestamp.VStr? ==> SaveLast(db, symbol, timestamp) == (db, Failure(DataError))
  {
  }

  /** A saved text reads back through `int()`: a text that is not an integer makes the next read raise ValueError. */
  lemma SaveTextThenGet(db: Db, symbol: string, text: string)
    ensures var saved := SaveLast(db, symbol, VStr(text)).0;
            LastTimestamp(saved, symbol) == if ParseInt(text).Some? then Success(Some(ParseInt(text).value)) else Failure(ValueError)
  {
  }

  /** `json.dumps(item)` for each record, in order. */
  function Docs(items: seq<map<string, Value>>): (cells: seq<Cell>)
    ensures |cells| == |items|
    ensures forall i :: 0 <= i < |items| ==> cells[i] == Doc(VDict(items[i]))
  {
    seq(|items|, i requires 0 <= i < |items| => Doc(VDict(items[i])))
  }

  /** One RPUSH per cell, in order. */
  function RpushAll(db: Db, k: string, cells: seq<Cell>): Db
  {
    if |cells| == 0 then db else Rpush(RpushAll(db, k, cells[..|cells| - 1]), k, cells[|cells| - 1])
  }

  lemma {:induction false} RpushAllAppends(db: Db, k: string, cells: seq<Cell>)
    ensures List(RpushAll(db, k, cells), k) == List(db, k) + cells
    ensures SameExcept(RpushAll(db, k, cells), db, k)
    ensures |cells| > 0 ==> k in RpushAll(db, k, cells).lists
  {
    if |cells| > 0 {
      var init := cells[..|cells| - 1];
      RpushAllAppends(db, k, init);
      assert List(db, k) + init + [cells[|cells| - 1]] == List(db, k) + cells;
    }
  }

  /** The store after `push_open_interest_list(symbol, items, maxLength)`. */
  function Pushed(db: Db, symbol: string, items: seq<map<string, Value>>, maxLength: int): (r: Db)
    ensures SameExcept(r, db, ListKey(symbol))
  {
    if |items| == 0 then db
    else
      var key := ListKey(symbol);
      RpushAllAppends(db, key, Docs(items));
      Ltrim(RpushAll(db, key, Docs(items)), key, -maxLength, -1)
  }

  /** Pushing nothing leaves the store as it was. */
  lemma PushEmptyIsNoop(db: Db, symbol: string, maxLength: int)
    ensures Pushed(db, symbol, [], maxLength) == db
  {
  }

  /** After a push the list is the last `maxLength` of the old list followed by the new records. */
  lemma PushKeepsWindow(db: Db, symbol: string, items: seq<map<string, Value>>, maxLength: int)
    requires maxLength > 0 && |items| > 0
    ensures List(Pushed(db, symbol, items, maxLength), ListKey(symbol))
         == Last(List(db, ListKey(symbol)) + Docs(items), maxLength)
  {
    var key := ListKey(symbol);
    var all := List(db, key) + Docs(items);
    RpushAllAppends(db, key, Docs(items));
    TrimKeepsLast(all, maxLength);
  }

  /** The window never holds more than `maxLength` records, and the newest record is last. */
  lemma PushBoundAndNewestLast(db: Db, symbol: string, items: seq<map<string, Value>>, maxLength: int)
    requires maxLength > 0 && |items| > 0
    ensures |List(Pushed(db, symbol, items, maxLength), ListKey(symbol))| <= maxLength
    ensures var l := List(Pushed(db, symbol, items, maxLength), ListKey(symbol));
            |l| > 0 && l[|l| - 1] == Doc(VDict(items[|items| - 1]))
  {
    PushKeepsWindow(db, symbol, items, maxLength);
  }

  /** When the old and new records fit in the window, nothing is dropped. */
  lemma PushDropsNothingWhenFits(db: Db, symbol: string, items: seq<map<string, Value>>, maxLength: int)
    requires |List(db, ListKey(symbol))| + |items| <= maxLength
    ensures List(Pushed(db, symbol, items, maxLength), ListKey(symbol)) == List(db, ListKey(symbol)) + Docs(items)
  {
    if |items| > 0 {
      PushKeepsWindow(db, symbol, items, maxLength);
    }
  }

  /** A push touches only the symbol's list key. */
  lemma PushTouchesOnlyItsList(db: Db, symbol: string, items: seq<map<string, Value>>, maxLength: int)
    ensures SameExcept(Pushed(db, symbol, items, maxLength), db, ListKey(symbol))
  {
    if |items| > 0 {
      RpushAllAppends(db, ListKey(symbol), Docs(items));
    }
  }

  /** A push leaves every symbol's last timestamp as it was. */
  lemma PushKeepsLastTimestamps(db: Db, symbol: string, items: seq<map<string, Value>>, maxLength: int, other: string)
    ensures LastTimestamp(Pushed(db, symbol, items, maxLength), other) == LastTimestamp(db, other)
  {
    PushTouchesOnlyItsList(db, symbol, items, maxLength);
    KeysDistinct(other, symbol);
    var k := LastTsKey(other);
    assert k in (Pushed(db, symbol, items, maxLength).strings - {ListKey(symbol)}) <==> k in db.strings - {ListKey(symbol)};
  }

  /** A saved timestamp reads back exactly. */
  lemma SaveThenGet(db: Db, symbol: string, timestamp: int)
    ensures LastTimestamp(SaveLastTs(db, symbol, timestamp), symbol) == Success(Some(timestamp))
  {
    IntRoundTrip(timestamp);
  }

  /** Saving one symbol's timestamp changes neither another symbol's timestamp nor any list. */
  lemma SaveTouchesOnlyItsSymbol(db: Db, symbol: string, timestamp: int, other: string)
    requires other != symbol
    ensures LastTimestamp(SaveLastTs(db, symbol, timestamp), other) == LastTimestamp(db, other)
    ensures List(SaveLastTs(db, symbol, timestamp), ListKey(other)) == List(db, ListKey(other))
  {
    KeysDistinct(other, symbol);
  }

  class RedisClient {
    const store: RedisStore.Store

    constructor (store: RedisStore.Store)
      ensures this.store == store
    {
      this.store := store;
    }

    method GetLastTimestamp(symbol: string) returns (r: Result<Option<int>, Exc>)
      ensures r == LastTimestamp(store.db, symbol)
      ensures Get(store.db, LastTsKey(symbol)) == None ==> r == Success(None)
    {
      var value := store.Get(LastTsKey(symbol));
      match value {
        case None =>
          r := Success(None);
        case Some(Raw(t)) =>
          var parsed := ParseInt(t);
          r := if parsed.Some? then Success(Some(parsed.value)) else Failure(ValueError);
        case Some(Doc(v)) =>
          r := if v.VInt? then Success(Some(v.i)) else Failure(ValueError);
      }
    }

    /** `save_last_timestamp` of whatever `max` produced. */
    method SaveLastTimestamp(symbol: string, timestamp: Value) returns (r: Result<(), Exc>)
      modifies store
      ensures (store.db, r) == SaveLast(old(store.db), symbol, timestamp)
    {
      var text := Encode(timestamp);
      if text.Failure? {
        return Failure(text.error);
      }
      store.Set(LastTsKey(symbol), Raw(text.value));
      r := Success(());
    }

    /** RPUSH each record, then LTRIM to the last `maxLength`; an empty batch sends nothing. */
    method PushOpenInterestList(symbol: string, oiList: seq<map<string, Value>>, maxLength: int)
      modifies store
      ensures store.db == Pushed(old(store.db), symbol, oiList, maxLength)
    {
      if |oiList| == 0 {
        return;
      }
      var key := ListKey(symbol);
      var cells := Docs(oiList);
      var i := 0;
      while i < |oiList|
        invariant 0 <= i <= |oiList|
        invariant store.db == RpushAll(old(store.db), key, cells[..i])
      {
        store.Rpush(key, Doc(VDict(oiList[i])));
        assert cells[..i + 1][..i] == cells[..i];
        i := i + 1;
      }
      assert cells[..i] == cells;
      store.Ltrim(key, -maxLength, -1);
    }
  }
}
