/**
 * The single-connection candle relay: one websocket is read message by
 * message; closed candles are appended, unbounded, to `candles1:` lists and
 * open candles overwrite `current1:` slots. The first message that raises
 * ends the loop for good: there is no reconnection.
 */
module MarketApp1 {
  import opened Wrappers
  import opened Values
  import opened RedisState
  import opened Candles
  import RedisStore

  class RedisClient {
    const store: RedisStore.Store

    constructor (store: RedisStore.Store)
      ensures this.store == store
    {
      this.store := store;
    }

    /** `save_closed_candle`: RPUSH onto `candles1:{symbol}:{interval}`, never trimmed. */
    method SaveClosedCandle(candle: map<string, Value>) returns (r: Result<(), Exc>)
      modifies store
      ensures (store.db, r) == AppendClosed(old(store.db), "candles1:", candle, None)
    {
      var key := SeriesKey("candles1:", candle);
      if key.Failure? {
        return Failure(key.error);
      }
      store.Rpush(key.value, DocOf(candle));
      r := Success(());
    }

    /** `save_current_candle`: SET `current1:{symbol}:{interval}`. */
    method SaveCurrentCandle(candle: map<string, Value>) returns (r: Result<(), Exc>)
      modifies store
      ensures (store.db, r) == SetCurrent(old(store.db), "current1:", candle)
    {
      var key := SeriesKey("current1:", candle);
      if key.Failure? {
        return Failure(key.error);
      }
      store.Set(key.value, DocOf(candle));
      r := Success(());
    }
  }

  /** One pass of the loop body on a received message. */
  function Processed(db: Db, message: Option<Value>): (r: (Db, Result<(), Exc>))
    ensures r.1.Success? <==> DecodeCandle(message, OpenTime).Success? && SeriesKey("candles1:", DecodeCandle(message, OpenTime).value).Success?
    ensures r.1.Failure? ==> r.0 == db
  {
    match DecodeCandle(message, OpenTime)
    case Failure(e) => (db, Failure(e))
    case Success(candle) =>
      if IsClosed(candle) then AppendClosed(db, "candles1:", candle, None)
      else SetCurrent(db, "current1:", candle)
  }

  /** Where the loop ended: the store, how many messages were taken, and whether one raised. */
  datatype Outcome = Outcome(db: Db, taken: nat, stopped: bool)

  /** An outcome preceded by `k` messages that went through. */
  function After(o: Outcome, k: nat): Outcome
  {
    o.(taken := o.taken + k)
  }

  /** A loop body: the store afterwards and whether the message raised. */
  type Step = (Db, Option<Value>) -> (Db, Result<(), Exc>)

  /** The loop with body `step`: it runs until the messages run out or one raises. */
  function RunWith(step: Step, db: Db, messages: seq<Option<Value>>): (r: Outcome)
    ensures r.taken <= |messages|
    ensures r.stopped ==> r.taken >= 1
    ensures !r.stopped ==> r.taken == |messages|
    decreases |messages|
  {
    if |messages| == 0 then Outcome(db, 0, false)
    else
      var (db1, res) := step(db, messages[0]);
      if res.Failure? then Outcome(db1, 1, true)
      else After(RunWith(step, db1, messages[1..]), 1)
  }

  /**
   * The loop over the messages received before the connection ends; a
   * message that raises ends it.
   */
  function Run(db: Db, messages: seq<Option<Value>>): (r: Outcome)
    ensures r.taken <= |messages|
    ensures r.stopped ==> r.taken >= 1
    ensures !r.stopped ==> r.taken == |messages|
  {
    RunWith(Processed, db, messages)
  }

  /** One message that goes through, then the rest. */
  lemma RunStep(db: Db, messages: seq<Option<Value>>)
    requires |messages| > 0 && Processed(db, messages[0]).1.Success?
    ensures Run(db, messages) == After(Run(Processed(db, messages[0]).0, messages[1..]), 1)
  {
  }

  /** `RunStopsAtFirstFailure` for any loop body. */
  lemma {:induction false} StopsAtFirstFailure(step: Step, db: Db, messages: seq<Option<Value>>)
    requires RunWith(step, db, messages).stopped
    ensures var n := RunWith(step, db, messages).taken;
            && step(RunWith(step, db, messages[..n - 1]).db, messages[n - 1]).1.Failure?
            && !RunWith(step, db, messages[..n - 1]).stopped
            && RunWith(step, db, messages).db == step(RunWith(step, db, messages[..n - 1]).db, messages[n - 1]).0
    decreases |messages|
  {
    var (db1, res) := step(db, messages[0]);
    var n := RunWith(step, db, messages).taken;
    if res.Failure? {
      assert messages[..0] == [];
    } else {
      var rest := messages[1..];
      StopsAtFirstFailure(step, db1, rest);
      var prefix := messages[..n - 1];
      assert rest[..n - 2] == prefix[1..];
      assert rest[n - 2] == messages[n - 1];
      assert prefix[0] == messages[0];
    }
  }

  /** The message that stopped the loop is the one that raised; all before it went through. */
  lemma RunStopsAtFirstFailure(db: Db, messages: seq<Option<Value>>)
    requires Run(db, messages).stopped
    ensures var n := Run(db, messages).taken;
            && Processed(Run(db, messages[..n - 1]).db, messages[n - 1]).1.Failure?
            && !Run(db, messages[..n - 1]).stopped
            && Run(db, messages).db == Processed(Run(db, messages[..n - 1]).db, messages[n - 1]).0
  {
    var n := Run(db, messages).taken;
    var before := Run(db, messages[..n - 1]);
    var last := Processed(before.db, messages[n - 1]);
    assert last.1.Failure? && !before.stopped && Run(db, messages).db == last.0 by {
      StopsAtFirstFailure(Processed, db, messages);
    }
  }

  /** `LaterMessagesIgnored` for any loop body. */
  lemma {:induction false} LaterIgnored(step: Step, db: Db, messages: seq<Option<Value>>, later: seq<Option<Value>>)
    requires RunWith(step, db, messages).stopped
    ensures RunWith(step, db, messages + later) == RunWith(step, db, messages)
    decreases |messages|
  {
    var (db1, res) := step(db, messages[0]);
    assert (messages + later)[0] == messages[0];
    if res.Success? {
      assert (messages + later)[1..] == messages[1..] + later;
      LaterIgnored(step, db1, messages[1..], later);
    }
  }

  /** Once a message has raised, whatever would have arrived afterwards is never stored. */
  lemma LaterMessagesIgnored(db: Db, messages: seq<Option<Value>>, later: seq<Option<Value>>)
    requires Run(db, messages).stopped
    ensures Run(db, messages + later) == Run(db, messages)
  {
    LaterIgnored(Processed, db, messages, later);
  }

  /** `RunSplits` for any loop body. */
  lemma {:induction false} Splits(step: Step, db: Db, messages: seq<Option<Value>>, later: seq<Option<Value>>)
    requires !RunWith(step, db, messages).stopped
    ensures RunWith(step, db, messages + later) == After(RunWith(step, RunWith(step, db, messages).db, later), |messages|)
    decreases |messages|
  {
    if |messages| > 0 {
      var (db1, res) := step(db, messages[0]);
      assert (messages + later)[0] == messages[0];
      assert (messages + later)[1..] == messages[1..] + later;
      Splits(step, db1, messages[1..], later);
    } else {
      assert messages + later == later;
    }
  }

  /** A run with no failure is the runs of its parts one after the other. */
  lemma RunSplits(db: Db, messages: seq<Option<Value>>, later: seq<Option<Value>>)
    requires !Run(db, messages).stopped
    ensures Run(db, messages + later) == After(Run(Run(db, messages).db, later), |messages|)
  {
    Splits(Processed, db, messages, later);
  }

  /** The loop body on one received message. */
  method ProcessMessage(message: Option<Value>, client: RedisClient) returns (r: Result<(), Exc>)
    modifies client.store
    ensures (client.store.db, r) == Processed(old(client.store.db), message)
  {
    var candle := DecodeCandle(message, OpenTime);
    if candle.Failure? {
      return Failure(candle.error);
    }
    if IsClosed(candle.value) {
      r := client.SaveClosedCandle(candle.value);
    } else {
      r := client.SaveCurrentCandle(candle.value);
    }
  }

  /** The receive loop of `subscribe_kline_streams` over the messages the connection delivers. */
  method ReceiveLoop(messages: seq<Option<Value>>, client: RedisClient) returns (taken: nat, stopped: bool)
    modifies client.store
    ensures Outcome(client.store.db, taken, stopped) == Run(old(client.store.db), messages)
  {
    taken := 0;
    stopped := false;
    var i := 0;
    while i < |messages|
      invariant 0 <= i <= |messages| && taken == i
      invariant Run(old(client.store.db), messages) == After(Run(client.store.db, messages[i..]), i)
    {
      ghost var before := client.store.db;
      var r := ProcessMessage(messages[i], client);
      taken := taken + 1;
      if r.Failure? {
        stopped := true;
        return;
      }
      assert messages[i..][1..] == messages[i + 1..];
      RunStep(before, messages[i..]);
      i := i + 1;
    }
  }
}
