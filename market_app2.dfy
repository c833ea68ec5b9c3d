/**
 * The queue-based candle relay: messages are queued and handled by workers;
 * each handled message counts its symbol in a set of symbols seen since the
 * last report, which is reported and cleared once 300 s have passed; closed
 * candles are appended, unbounded, to the series list and open candles
 * overwrite the current slot. The websocket is reconnected after a failure
 * with a delay of `min(2^attempt, 30)` seconds.
 */
module MarketApp2 {
  import opened Wrappers
  import opened Values
  import opened RedisState
  import opened Candles
  import RedisStore

  // ---------------------------------------------------------------------------
  // The Redis client
  // ---------------------------------------------------------------------------

  /** What PING produced: a reply value, or an exception. */
  datatype PingReply = Pong(v: Value) | PingFailed

  class RedisClient {
    const store: RedisStore.Store

    constructor (store: RedisStore.Store)
      ensures this.store == store
    {
      this.store := store;
    }

    /** `check_connection`: true exactly when PING answered `True`; an exception reads as false. */
    method CheckConnection(reply: PingReply) returns (ok: bool)
      ensures ok <==> reply.Pong? && reply.v == VBool(true)
    {
      match reply {
        case Pong(v) => ok := v == VBool(true);
        case PingFailed => ok := false;
      }
    }

    /** `save_closed_candle`: RPUSH onto `candles:{symbol}:{interval}`, never trimmed. */
    method SaveClosedCandle(candle: map<string, Value>) returns (r: Result<(), Exc>)
      modifies store
      ensures (store.db, r) == AppendClosed(old(store.db), "candles:", candle, None)
    {
      var key := SeriesKey("candles:", candle);
      if key.Failure? {
        return Failure(key.error);
      }
      store.Rpush(key.value, DocOf(candle));
      r := Success(());
    }

    /** `save_current_candle`: SET `current:{symbol}:{interval}`. */
    method SaveCurrentCandle(candle: map<string, Value>) returns (r: Result<(), Exc>)
      modifies store
      ensures (store.db, r) == SetCurrent(old(store.db), "current:", candle)
    {
      var key := SeriesKey("current:", candle);
      if key.Failure? {
        return Failure(key.error);
      }
      store.Set(key.value, DocOf(candle));
      r := Success(());
    }
  }

  // ---------------------------------------------------------------------------
  // The unique-symbol report
  // ---------------------------------------------------------------------------

  /** Seconds between two reports of the unique-symbol count. */
  const ReportInterval: real := 300.0

  /**
   * The symbols seen and the time of the last report after one message of
   * `symbol` at `now`: the symbol is added first, and when the interval has
   * passed the set is reported and cleared and the report time becomes `now`.
   * The set is a `set<Value>`, so `True`, `1` and `Decimal(1)` stay three
   * members where Python's set holds one; only the logged count can see this.
   */
  function Tally(symbols: set<Value>, lastReport: real, symbol: Value, now: real): (r: (set<Value>, real))
    ensures now - r.1 < ReportInterval
    ensures r.0 == {} || (symbol in r.0 && r.0 - {symbol} <= symbols)
  {
    var seen := symbols + {symbol};
    if now - lastReport >= ReportInterval then ({}, now) else (seen, lastReport)
  }

  /**
   * The report time never lags more than the interval behind the latest
   * message, and never moves back while the clock does not. A report is due
   * exactly when the interval has passed: then the set is emptied and the
   * report time is `now`; otherwise the set gains the symbol and the report
   * time stays.
   */
  lemma TallyWindow(symbols: set<Value>, lastReport: real, symbol: Value, now: real)
    ensures var (seen, last) := Tally(symbols, lastReport, symbol, now);
            && now - last < ReportInterval
            && (lastReport <= now ==> lastReport <= last <= now)
            && (now - lastReport >= ReportInterval ==> seen == {} && last == now)
            && (now - lastReport < ReportInterval ==> seen == symbols + {symbol} && last == lastReport)
  {
  }

  /** The tally over a run of messages, each a symbol and its arrival time. */
  function TallyAll(symbols: set<Value>, lastReport: real, events: seq<(Value, real)>): (r: (set<Value>, real))
    ensures r.1 == lastReport || exists i :: 0 <= i < |events| && r.1 == events[i].1
  {
    if |events| == 0 then (symbols, lastReport)
    else
      var (s, t) := TallyAll(symbols, lastReport, events[..|events| - 1]);
      Tally(s, t, events[|events| - 1].0, events[|events| - 1].1)
  }

  /** Arrival times that do not go back, starting no earlier than `from`. */
  predicate Ordered(events: seq<(Value, real)>, from: real)
  {
    (forall i :: 0 <= i < |events| ==> from <= events[i].1)
    && (forall i, j :: 0 <= i < j < |events| ==> events[i].1 <= events[j].1)
  }

  /**
   * Over a run of messages whose clock does not go back, the report time only
   * moves forward, and after the run it lies within the interval before the
   * last message; every symbol held was seen in the run or held before.
   */
  lemma {:induction false} TallyAllWindow(symbols: set<Value>, lastReport: real, events: seq<(Value, real)>)
    requires Ordered(events, lastReport)
    ensures var (seen, last) := TallyAll(symbols, lastReport, events);
            && lastReport <= last
            && (|events| > 0 ==> last <= events[|events| - 1].1 && events[|events| - 1].1 - last < ReportInterval)
            && (forall s :: s in seen ==> s in symbols || exists i :: 0 <= i < |events| && events[i].0 == s)
  {
    if |events| > 0 {
      var init := events[..|events| - 1];
      var e := events[|events| - 1];
      assert Ordered(init, lastReport);
      TallyAllWindow(symbols, lastReport, init);
      var (s, t) := TallyAll(symbols, lastReport, init);
      if |init| > 0 {
        assert init[|init| - 1].1 <= e.1;
      }
      TallyWindow(s, t, e.0, e.1);
      forall x | x in TallyAll(symbols, lastReport, events).0
        ensures x in symbols || exists i :: 0 <= i < |events| && events[i].0 == x
      {
        if x != e.0 {
          assert x in s;
          if !(x in symbols) {
            var i :| 0 <= i < |init| && init[i].0 == x;
            assert events[i] == init[i];
          }
        }
      }
    }
  }

  /** The module-level `unique_symbols` and `last_print_time`. */
  class SymbolReport {
    var uniqueSymbols: set<Value>
    var lastPrintTime: real

    constructor (startedAt: real)
      ensures uniqueSymbols == {} && lastPrintTime == startedAt
    {
      uniqueSymbols := {};
      lastPrintTime := startedAt;
    }
  }

  // ---------------------------------------------------------------------------
  // process_message
  // ---------------------------------------------------------------------------

  /** The store after `process_message`: nothing for a malformed message or an unhashable symbol. */
  function Processed(db: Db, message: Option<Value>): (r: (Db, Result<(), Exc>))
    ensures r.1.Success? <==> DecodeCandle(message, OpenTime).Success? && SeriesKey("candles:", DecodeCandle(message, OpenTime).value).Success?
    ensures r.1.Failure? ==> r.0 == db
  {
    match DecodeCandle(message, OpenTime)
    case Failure(e) => (db, Failure(e))
    case Success(candle) =>
      if !IsScalar(candle["symbol"]) then (db, Failure(TypeError))
      else if IsClosed(candle) then AppendClosed(db, "candles:", candle, None)
      else SetCurrent(db, "current:", candle)
  }

  /** The report state after `process_message`: a message that reaches the tally is counted. */
  function Reported(symbols: set<Value>, lastReport: real, message: Option<Value>, now: real): (set<Value>, real)
  {
    match DecodeCandle(message, OpenTime)
    case Failure(_) => (symbols, lastReport)
    case Success(candle) =>
      if !IsScalar(candle["symbol"]) then (symbols, lastReport)
      else Tally(symbols, lastReport, candle["symbol"], now)
  }

  /** `process_message(message)` at time `now`. */
  method ProcessMessage(message: Option<Value>, client: RedisClient, report: SymbolReport, now: real)
    returns (r: Result<(), Exc>)
    modifies client.store, report
    ensures (client.store.db, r) == Processed(old(client.store.db), message)
    ensures (report.uniqueSymbols, report.lastPrintTime)
         == Reported(old(report.uniqueSymbols), old(report.lastPrintTime), message, now)
  {
    var candle := DecodeCandle(message, OpenTime);
    if candle.Failure? {
      return Failure(candle.error);
    }
    var symbol := candle.value["symbol"];
    if !IsScalar(symbol) {
      return Failure(TypeError);
    }
    report.uniqueSymbols := report.uniqueSymbols + {symbol};
    if now - report.lastPrintTime >= ReportInterval {
      report.uniqueSymbols := {};
      report.lastPrintTime := now;
    }
    if IsClosed(candle.value) {
      r := client.SaveClosedCandle(candle.value);
    } else {
      r := client.SaveCurrentCandle(candle.value);
    }
  }

  /** A closed candle is appended to its series list and nothing is dropped; an open one replaces the current slot. */
  lemma Routing(db: Db, message: Option<Value>)
    requires DecodeCandle(message, OpenTime).Success?
    ensures var candle := DecodeCandle(message, OpenTime).value;
            var (db', r) := Processed(db, message);
            && (IsClosed(candle) && SeriesKey("candles:", candle).Success? ==>
                  var k := SeriesKey("candles:", candle).value;
                  r.Success? && List(db', k) == List(db, k) + [DocOf(candle)] && SameExcept(db', db, k))
            && (!IsClosed(candle) && SeriesKey("current:", candle).Success? ==>
                  var k := SeriesKey("current:", candle).value;
                  r.Success? && Get(db', k) == Some(DocOf(candle)) && SameExcept(db', db, k))
  {
    var candle := DecodeCandle(message, OpenTime).value;
    AppendUnbounded(db, "candles:", candle);
    CurrentHoldsLatest(db, "current:", candle);
  }

  // ---------------------------------------------------------------------------
  // The queue and its workers
  // ---------------------------------------------------------------------------

  const MaxQueueSize := 1000
  const WorkersCount := 5

  /** `asyncio.Queue`: the queued messages and the count of tasks not yet marked done. */
  class MessageQueue {
    var items: seq<Option<Value>>
    var unfinished: nat

    /** Every queued message is an unfinished task. */
    predicate Valid()
      reads this
    {
      |items| <= unfinished
    }

    constructor ()
      ensures Valid() && items == [] && unfinished == 0
    {
      items := [];
      unfinished := 0;
    }

    /** `put`: the caller waits while the queue is full, so it returns only once there is room. */
    method Put(m: Option<Value>)
      requires Valid() && |items| < MaxQueueSize
      modifies this
      ensures Valid() && items == old(items) + [m] && unfinished == old(unfinished) + 1
    {
      items := items + [m];
      unfinished := unfinished + 1;
    }

    /** `get`: the caller waits while the queue is empty, so it returns only once there is a message. */
    method Get() returns (m: Option<Value>)
      requires Valid() && |items| > 0
      modifies this
      ensures unfinished == old(unfinished) && m == old(items)[0] && items == old(items)[1..]
      ensures unfinished >= |items| + 1
    {
      m := items[0];
      items := items[1..];
    }

    /** `task_done`: one more task finished; more calls than tasks raise ValueError. */
    method TaskDone() returns (r: Result<(), Exc>)
      modifies this
      ensures old(unfinished) == 0 ==> r == Failure(ValueError) && unfinished == 0
      ensures old(unfinished) > 0 ==> r.Success? && unfinished == old(unfinished) - 1
      ensures items == old(items)
    {
      if unfinished == 0 {
        return Failure(ValueError);
      }
      unfinished := unfinished - 1;
      r := Success(());
    }
  }

  /**
   * One turn of `worker`: take a message, process it, and mark the task done
   * whether processing succeeded or not.
   */
  method WorkerStep(queue: MessageQueue, client: RedisClient, report: SymbolReport, now: real)
    requires queue.Valid() && |queue.items| > 0
    modifies queue, client.store, report
    ensures queue.Valid()
    ensures queue.items == old(queue.items)[1..] && queue.unfinished == old(queue.unfinished) - 1
    ensures client.store.db == Processed(old(client.store.db), old(queue.items)[0]).0
    ensures (report.uniqueSymbols, report.lastPrintTime)
         == Reported(old(report.uniqueSymbols), old(report.lastPrintTime), old(queue.items)[0], now)
  {
    var message := queue.Get();
    var _ := ProcessMessage(message, client, report, now);
    var done := queue.TaskDone();
    assert done.Success?;
  }

  /** The store after processing the messages in queue order. */
  function ProcessedAll(db: Db, messages: seq<Option<Value>>): Db
  {
    if |messages| == 0 then db
    else Processed(ProcessedAll(db, messages[..|messages| - 1]), messages[|messages| - 1]).0
  }

  /** Draining one queue and then another leaves the store as draining both in one run. */
  lemma {:induction false} ProcessedAllAppend(db: Db, a: seq<Option<Value>>, b: seq<Option<Value>>)
    ensures ProcessedAll(db, a + b) == ProcessedAll(ProcessedAll(db, a), b)
  {
    if |b| == 0 {
      assert a + b == a;
    } else {
      var init := b[..|b| - 1];
      assert (a + b)[..|a + b| - 1] == a + init;
      assert (a + b)[|a + b| - 1] == b[|b| - 1];
      ProcessedAllAppend(db, a, init);
    }
  }

  /** The report state after processing the messages in queue order, all at `now`. */
  function ReportedAll(symbols: set<Value>, lastReport: real, messages: seq<Option<Value>>, now: real): (set<Value>, real)
  {
    if |messages| == 0 then (symbols, lastReport)
    else
      var (s, t) := ReportedAll(symbols, lastReport, messages[..|messages| - 1], now);
      Reported(s, t, messages[|messages| - 1], now)
  }

  /** The symbols the messages that reach the tally carry, each paired with its arrival time `now`. */
  function Counted(messages: seq<Option<Value>>, now: real): seq<(Value, real)>
  {
    if |messages| == 0 then []
    else
      var m := messages[|messages| - 1];
      var rest := Counted(messages[..|messages| - 1], now);
      match DecodeCandle(m, OpenTime)
      case Failure(_) => rest
      case Success(candle) => if IsScalar(candle["symbol"]) then rest + [(candle["symbol"], now)] else rest
  }

  /**
   * The report state after a run of messages is the tally over the symbols of
   * the messages that reached it, in order; a message that raised before the
   * tally is not counted.
   */
  lemma {:induction false} ReportedAllIsTally(symbols: set<Value>, lastReport: real, messages: seq<Option<Value>>, now: real)
    ensures ReportedAll(symbols, lastReport, messages, now) == TallyAll(symbols, lastReport, Counted(messages, now))
  {
    if |messages| > 0 {
      var init := messages[..|messages| - 1];
      ReportedAllIsTally(symbols, lastReport, init, now);
      var rest := Counted(init, now);
      match DecodeCandle(messages[|messages| - 1], OpenTime)
      case Failure(_) =>
      case Success(candle) =>
        if IsScalar(candle["symbol"]) {
          var events := rest + [(candle["symbol"], now)];
          assert events[..|events| - 1] == rest;
        }
    }
  }

  /**
   * Workers taking every queued message in turn: afterwards the queue is empty,
   * the unfinished count has dropped by the number of messages, so a queue
   * with no message in flight is fully joined, and the store and the report
   * state are those of processing the messages in queue order.
   */
  method Drain(queue: MessageQueue, client: RedisClient, report: SymbolReport, now: real)
    requires queue.Valid()
    modifies queue, client.store, report
    ensures queue.Valid() && queue.items == []
    ensures queue.unfinished == old(queue.unfinished) - |old(queue.items)|
    ensures old(queue.unfinished) == |old(queue.items)| ==> queue.unfinished == 0
    ensures client.store.db == ProcessedAll(old(client.store.db), old(queue.items))
    ensures (report.uniqueSymbols, report.lastPrintTime)
         == ReportedAll(old(report.uniqueSymbols), old(report.lastPrintTime), old(queue.items), now)
  {
    ghost var messages := queue.items;
    ghost var k := 0;
    while |queue.items| > 0
      invariant queue.Valid()
      invariant queue.unfinished - |queue.items| == old(queue.unfinished) - |old(queue.items)|
      invariant 0 <= k <= |messages| && queue.items == messages[k..]
      invariant client.store.db == ProcessedAll(old(client.store.db), messages[..k])
      invariant (report.uniqueSymbols, report.lastPrintTime)
             == ReportedAll(old(report.uniqueSymbols), old(report.lastPrintTime), messages[..k], now)
      decreases |queue.items|
    {
      WorkerStep(queue, client, report, now);
      assert messages[..k + 1][..k] == messages[..k];
      k := k + 1;
    }
    assert messages[..k] == messages;
  }

  // ---------------------------------------------------------------------------
  // Reconnecting
  // ---------------------------------------------------------------------------

  /** How one pass of the connection loop ended. */
  datatype Session =
    | ConnectFailed           // connecting raised
    | DroppedAfterConnect     // connected, then reading raised
    | ClosedAfterConnect      // connected, and the stream ended without an error

  /** `2 ** n`, which outgrows `n`. */
  function Pow2(n: nat): (p: nat)
    ensures p >= n + 1
  {
    if n == 0 then 1 else 2 * Pow2(n - 1)
  }

  /** The longest wait between reconnection attempts, in seconds. */
  const MaxDelay := 30

  /** The sleep before a pass: none on the first try, `min(2^attempt, 30)` after failures. */
  function DelayBefore(attempt: nat): (d: nat)
    ensures attempt == 0 <==> d == 0
    ensures attempt > 0 ==> 2 <= d <= MaxDelay
  {
    if attempt == 0 then 0 else if Pow2(attempt) < MaxDelay then Pow2(attempt) else MaxDelay
  }

  /** The attempt counter after a pass: reset on connecting, then one more on an exception. */
  function NextAttempt(attempt: nat, s: Session): (r: nat)
    ensures r <= attempt + 1
    ensures r == 0 <==> s == ClosedAfterConnect
  {
    match s
    case ConnectFailed => attempt + 1
    case DroppedAfterConnect => 1
    case ClosedAfterConnect => 0
  }

  function AttemptAfter(sessions: seq<Session>): nat
  {
    if |sessions| == 0 then 0 else NextAttempt(AttemptAfter(sessions[..|sessions| - 1]), sessions[|sessions| - 1])
  }

  /** A delay, when there is one, is between 2 and 30 seconds, and it never shrinks as the attempts grow. */
  lemma DelayBounds(attempt: nat, more: nat)
    ensures attempt == 0 <==> DelayBefore(attempt) == 0
    ensures attempt > 0 ==> 2 <= DelayBefore(attempt) <= MaxDelay
    ensures attempt > 0 && attempt <= more ==> DelayBefore(attempt) <= DelayBefore(more)
  {
    if attempt > 0 {
      Pow2Monotone(1, attempt);
      if attempt <= more {
        Pow2Monotone(attempt, more);
      }
    }
  }

  lemma {:induction false} Pow2Monotone(a: nat, b: nat)
    requires a <= b
    ensures Pow2(a) <= Pow2(b)
    decreases b
  {
    if a < b {
      Pow2Monotone(a, b - 1);
    }
  }

  /** From five failed attempts on the delay is the 30 s cap. */
  lemma DelayCapped(attempt: nat)
    requires attempt >= 5
    ensures DelayBefore(attempt) == MaxDelay
  {
    Pow2Monotone(5, attempt);
  }

  /** After `k` failed connections in a row following a successful one, the counter is `k`. */
  lemma {:induction false} FailuresCount(prefix: seq<Session>, k: nat)
    requires |prefix| > 0 && prefix[|prefix| - 1] == ClosedAfterConnect
    ensures AttemptAfter(prefix + seq(k, _ => ConnectFailed)) == k
  {
    if k == 0 {
      assert prefix + seq(0, _ => ConnectFailed) == prefix;
    } else {
      var s := prefix + seq(k, _ => ConnectFailed);
      assert s[..|s| - 1] == prefix + seq(k - 1, _ => ConnectFailed);
      FailuresCount(prefix, k - 1);
    }
  }

  /**
   * The connection loop of `subscribe_kline_streams` over a run of passes: the
   * sleep taken before each pass (0 for none) and the counter afterwards.
   */
  method Reconnects(sessions: seq<Session>) returns (delays: seq<nat>, attempt: nat)
    ensures |delays| == |sessions| && attempt == AttemptAfter(sessions)
    ensures forall i :: 0 <= i < |sessions| ==> delays[i] == DelayBefore(AttemptAfter(sessions[..i]))
    ensures forall i :: 0 <= i < |sessions| ==> delays[i] == 0 || 2 <= delays[i] <= MaxDelay
  {
    delays := [];
    attempt := 0;
    var i := 0;
    while i < |sessions|
      invariant 0 <= i <= |sessions| && |delays| == i
      invariant attempt == AttemptAfter(sessions[..i])
      invariant forall j :: 0 <= j < i ==> delays[j] == DelayBefore(AttemptAfter(sessions[..j]))
      invariant forall j :: 0 <= j < i ==> delays[j] == 0 || 2 <= delays[j] <= MaxDelay
    {
      var delay := 0;
      if attempt > 0 {
        delay := if Pow2(attempt) < MaxDelay then Pow2(attempt) else MaxDelay;
      }
      DelayBounds(attempt, attempt);
      delays := delays + [delay];
      match sessions[i] {
        case ConnectFailed => attempt := attempt + 1;
        case DroppedAfterConnect => attempt := 0; attempt := attempt + 1;
        case ClosedAfterConnect => attempt := 0;
      }
      assert sessions[..i + 1][..i] == sessions[..i];
      i := i + 1;
    }
    assert sessions[..i] == sessions;
  }
}
