/**
 * The open-interest history table and its manager: `init_pool` provisions the
 * database, the table and the unique `(symbol, timestamp)` index;
 * `save_open_interest` inserts a batch with INSERT IGNORE, one row at a time,
 * carrying on past rows that fail.
 */
module OpenInterestDb {
  import opened Wrappers
  import opened Values

  /** One row of `open_interest_history` (the auto-increment id and creation time are left out). */
  datatype Record = Record(symbol: string, timestamp: int, sumOpenInterest: Value, sumOpenInterestValue: Value)

  /** What exists on the server: the database, the table, and the unique index on `(symbol, timestamp)`. */
  datatype Schema = Schema(database: bool, table: bool, uniqueIndex: bool)

  /**
   * How the server answers `init_pool`'s statements: whether it can be reached
   * at all, and whether it accepts CREATE DATABASE IF NOT EXISTS, CREATE TABLE
   * IF NOT EXISTS and the CREATE UNIQUE INDEX IF NOT EXISTS syntax.
   */
  datatype Server = Server(reachable: bool, createDatabaseAccepted: bool, createTableAccepted: bool,
                           indexStatementAccepted: bool)

  /** What `init_pool` leaves behind: the schema, whether `self.pool` was assigned, and whether it returned normally. */
  datatype Provisioned = Provisioned(schema: Schema, pool: bool, ok: bool)

  /**
   * `init_pool`. A failed CREATE DATABASE is only logged; creating the pool
   * then fails when the database does not exist. The pool is assigned before
   * CREATE TABLE runs, so a refused CREATE TABLE raises with the pool in place.
   * A failed index statement is only logged.
   */
  function Provision(s: Schema, server: Server): (r: Provisioned)
    ensures !server.reachable ==> r == Provisioned(s, false, false)
    ensures r.ok <==> r.pool && r.schema.table && server.createTableAccepted
    ensures r.pool ==> r.schema.database
    ensures (s.database ==> r.schema.database) && (s.table ==> r.schema.table) && (s.uniqueIndex ==> r.schema.uniqueIndex)
  {
    var database := s.database || (server.reachable && server.createDatabaseAccepted);
    if !server.reachable || !database then Provisioned(s.(database := database), false, false)
    else if !server.createTableAccepted then Provisioned(s.(database := true), true, false)
    else Provisioned(Schema(true, true, s.uniqueIndex || server.indexStatementAccepted), true, true)
  }

  /** Provisioning again against the same server changes nothing. */
  lemma ProvisionIdempotent(s: Schema, server: Server)
    ensures Provision(Provision(s, server).schema, server) == Provision(s, server)
  {
  }

  /** An existing database makes a refused CREATE DATABASE harmless, and a refused index statement is never fatal. */
  lemma ProvisionFailuresNonFatal(s: Schema, server: Server)
    requires s.database && server.reachable && server.createTableAccepted
    ensures Provision(s, server).ok
    ensures Provision(s, server.(createDatabaseAccepted := false, indexStatementAccepted := false))
         == Provisioned(Schema(true, true, s.uniqueIndex), true, true)
  {
  }

  /** A refused CREATE TABLE raises, but only after the pool was created: the pool stays, the table is as before. */
  lemma TableRefusedKeepsPool(s: Schema, server: Server)
    requires server.reachable && (s.database || server.createDatabaseAccepted) && !server.createTableAccepted
    ensures Provision(s, server) == Provisioned(s.(database := true), true, false)
  {
  }

  // ---------------------------------------------------------------------------
  // Rows and the INSERT IGNORE batch
  // ---------------------------------------------------------------------------

  /**
   * How the server stores a value bound to the BIGINT `timestamp` column that is
   * neither an int nor a bool (a numeric text, None, a Decimal, ...): the number
   * it converts it to under INSERT IGNORE, or None when the row fails.
   */
  type Conversion = Value -> Option<int>

  /** `oi.get("timestamp", 0)`. */
  function RowTimestamp(oi: map<string, Value>): Value
  {
    GetOr(oi, "timestamp", VInt(0))
  }

  /** The number the column receives: the driver sends an int as it is and a bool as 1 or 0; anything else is converted by the server. */
  function StoredTimestamp(v: Value, convert: Conversion): (r: Option<int>)
    ensures v.VInt? ==> r == Some(v.i)
    ensures v.VBool? ==> r == Some(if v.b then 1 else 0)
  {
    match v
    case VInt(i) => Some(i)
    case VBool(b) => Some(if b then 1 else 0)
    case _ => convert(v)
  }

  function RowTs(oi: map<string, Value>, convert: Conversion): Option<int>
  {
    StoredTimestamp(RowTimestamp(oi), convert)
  }

  /** The row inserted for one record: missing sums default to the empty text. */
  function RecordOf(symbol: string, oi: map<string, Value>, convert: Conversion): Record
    requires RowTs(oi, convert).Some?
  {
    Record(symbol, RowTs(oi, convert).value, GetOr(oi, "sumOpenInterest", VStr("")), GetOr(oi, "sumOpenInterestValue", VStr("")))
  }

  /** Missing fields default: the timestamp to 0 and both sums to "". */
  lemma MissingFieldsDefault(symbol: string, oi: map<string, Value>, convert: Conversion)
    requires "timestamp" !in oi && "sumOpenInterest" !in oi && "sumOpenInterestValue" !in oi
    ensures RowTimestamp(oi) == VInt(0)
    ensures RecordOf(symbol, oi, convert) == Record(symbol, 0, VStr(""), VStr(""))
  {
  }

  predicate HasKey(h: seq<Record>, symbol: string, timestamp: int)
  {
    exists i :: 0 <= i < |h| && h[i].symbol == symbol && h[i].timestamp == timestamp
  }

  /** At most one row per `(symbol, timestamp)`. */
  predicate UniqueKeys(h: seq<Record>)
  {
    forall i, j :: 0 <= i < j < |h| ==> h[i].symbol != h[j].symbol || h[i].timestamp != h[j].timestamp
  }

  /**
   * One INSERT IGNORE: a row whose timestamp the column refuses fails (and is
   * logged); with the unique index, a row whose key exists is ignored.
   */
  function Insert(h: seq<Record>, symbol: string, oi: map<string, Value>, uniqueIndex: bool, convert: Conversion): seq<Record>
  {
    if RowTs(oi, convert).None? then h
    else if uniqueIndex && HasKey(h, symbol, RowTs(oi, convert).value) then h
    else h + [RecordOf(symbol, oi, convert)]
  }

  /** The table after `save_open_interest(symbol, data)`: the rows inserted in order. */
  function Saved(h: seq<Record>, symbol: string, data: seq<map<string, Value>>, uniqueIndex: bool, convert: Conversion): (r: seq<Record>)
    ensures |h| <= |r| <= |h| + |data|
    ensures forall i :: |h| <= i < |r| ==> r[i].symbol == symbol
  {
    if |data| == 0 then h
    else Insert(Saved(h, symbol, data[..|data| - 1], uniqueIndex, convert), symbol, data[|data| - 1], uniqueIndex, convert)
  }

  /** A record of the batch whose timestamp the column stores as `timestamp`. */
  predicate InBatch(data: seq<map<string, Value>>, timestamp: int, convert: Conversion)
  {
    exists j :: 0 <= j < |data| && RowTs(data[j], convert) == Some(timestamp)
  }

  /** Saving two batches one after the other is saving their concatenation. */
  lemma {:induction false} SavedAppend(h: seq<Record>, symbol: string, a: seq<map<string, Value>>, b: seq<map<string, Value>>,
                                       u: bool, convert: Conversion)
    ensures Saved(h, symbol, a + b, u, convert) == Saved(Saved(h, symbol, a, u, convert), symbol, b, u, convert)
  {
    if |b| == 0 {
      assert a + b == a;
    } else {
      var b' := b[..|b| - 1];
      assert (a + b)[..|a + b| - 1] == a + b';
      assert (a + b)[|a + b| - 1] == b[|b| - 1];
      SavedAppend(h, symbol, a, b', u, convert);
    }
  }

  /** Existing rows are never changed or removed: the table only grows at its end. */
  lemma {:induction false} SavedExtends(h: seq<Record>, symbol: string, data: seq<map<string, Value>>, u: bool, convert: Conversion)
    ensures |Saved(h, symbol, data, u, convert)| >= |h|
    ensures Saved(h, symbol, data, u, convert)[..|h|] == h
  {
    if |data| > 0 {
      SavedExtends(h, symbol, data[..|data| - 1], u, convert);
    }
  }

  /** After the batch, the table holds a key exactly when it held it before or the batch brought it. */
  lemma {:induction false} SavedKeys(h: seq<Record>, symbol: string, data: seq<map<string, Value>>, u: bool, convert: Conversion,
                                     s: string, t: int)
    ensures HasKey(Saved(h, symbol, data, u, convert), s, t) <==> HasKey(h, s, t) || (s == symbol && InBatch(data, t, convert))
  {
    if |data| > 0 {
      var init := data[..|data| - 1];
      var last := data[|data| - 1];
      var before := Saved(h, symbol, init, u, convert);
      SavedKeys(h, symbol, init, u, convert, s, t);
      if InBatch(data, t, convert) {
        var j :| 0 <= j < |data| && RowTs(data[j], convert) == Some(t);
        if j < |data| - 1 {
          assert init[j] == data[j];
        }
      }
      if InBatch(init, t, convert) {
        var j :| 0 <= j < |init| && RowTs(init[j], convert) == Some(t);
        assert data[j] == init[j];
      }
      if Saved(h, symbol, data, u, convert) != before {
        var after := before + [RecordOf(symbol, last, convert)];
        assert Saved(h, symbol, data, u, convert) == after;
        if HasKey(after, s, t) && !HasKey(before, s, t) {
          assert after[|before|].symbol == s && after[|before|].timestamp == t;
        }
        if HasKey(before, s, t) {
          var i :| 0 <= i < |before| && before[i].symbol == s && before[i].timestamp == t;
          assert after[i] == before[i];
        }
      }
    }
  }

  /** With the unique index, the table keeps at most one row per key. */
  lemma {:induction false} SavedKeepsKeysUnique(h: seq<Record>, symbol: string, data: seq<map<string, Value>>, convert: Conversion)
    requires UniqueKeys(h)
    ensures UniqueKeys(Saved(h, symbol, data, true, convert))
  {
    if |data| > 0 {
      SavedKeepsKeysUnique(h, symbol, data[..|data| - 1], convert);
    }
  }

  /** A batch whose keys are all present already changes nothing. */
  lemma {:induction false} SavedNoNewKeys(h: seq<Record>, symbol: string, data: seq<map<string, Value>>, convert: Conversion)
    requires forall t :: InBatch(data, t, convert) ==> HasKey(h, symbol, t)
    ensures Saved(h, symbol, data, true, convert) == h
  {
    if |data| > 0 {
      var init := data[..|data| - 1];
      forall t | InBatch(init, t, convert) ensures HasKey(h, symbol, t) {
        var j :| 0 <= j < |init| && RowTs(init[j], convert) == Some(t);
        assert data[j] == init[j];
      }
      SavedNoNewKeys(h, symbol, init, convert);
      var last := data[|data| - 1];
      if RowTs(last, convert).Some? {
        assert InBatch(data, RowTs(last, convert).value, convert);
      }
    }
  }

  /** With the unique index, saving the same batch twice leaves the table as saving it once. */
  lemma SavedIdempotent(h: seq<Record>, symbol: string, data: seq<map<string, Value>>, convert: Conversion)
    ensures Saved(Saved(h, symbol, data, true, convert), symbol, data, true, convert) == Saved(h, symbol, data, true, convert)
  {
    var once := Saved(h, symbol, data, true, convert);
    forall t | InBatch(data, t, convert) ensures HasKey(once, symbol, t) {
      SavedKeys(h, symbol, data, true, convert, symbol, t);
    }
    SavedNoNewKeys(once, symbol, data, convert);
  }

  /**
   * With the unique index, of several records with the same new timestamp the
   * first one is the row kept.
   */
  lemma FirstOccurrenceWins(h: seq<Record>, symbol: string, data: seq<map<string, Value>>, convert: Conversion, j: nat)
    requires j < |data| && RowTs(data[j], convert).Some?
    requires !HasKey(h, symbol, RowTs(data[j], convert).value)
    requires forall k :: 0 <= k < j ==> RowTs(data[k], convert) != RowTs(data[j], convert)
    ensures RecordOf(symbol, data[j], convert) in Saved(h, symbol, data, true, convert)
  {
    var t := RowTs(data[j], convert).value;
    var prefix, rest := data[..j], data[j + 1..];
    assert data == prefix + [data[j]] + rest;
    var before := Saved(h, symbol, prefix, true, convert);
    SavedKeys(h, symbol, prefix, true, convert, symbol, t);
    assert forall k :: 0 <= k < |prefix| ==> prefix[k] == data[k];
    assert !InBatch(prefix, t, convert);
    assert [data[j]][..0] == [];
    var mid := Saved(h, symbol, prefix + [data[j]], true, convert);
    SavedAppend(h, symbol, prefix, [data[j]], true, convert);
    assert mid == before + [RecordOf(symbol, data[j], convert)];
    SavedAppend(h, symbol, prefix + [data[j]], rest, true, convert);
    SavedExtends(mid, symbol, rest, true, convert);
    assert Saved(h, symbol, data, true, convert)[|before|] == mid[|before|];
  }

  /** The table after `save_open_interest` with a pool: without the table every INSERT fails and is logged. */
  function Stored(h: seq<Record>, schema: Schema, symbol: string, data: seq<map<string, Value>>, convert: Conversion): seq<Record>
  {
    if schema.table then Saved(h, symbol, data, schema.uniqueIndex, convert) else h
  }

  class DBManager {
    var poolReady: bool
    var schema: Schema
    var history: seq<Record>
    /** The server's conversion of values bound to the BIGINT `timestamp` column. */
    const convert: Conversion

    /** A manager for a server whose schema and table contents are given; no pool yet. */
    constructor (schema: Schema, history: seq<Record>, convert: Conversion)
      ensures !poolReady && this.schema == schema && this.history == history && this.convert == convert
    {
      poolReady := false;
      this.schema := schema;
      this.history := history;
      this.convert := convert;
    }

    method InitPool(server: Server) returns (r: Result<(), Exc>)
      modifies this`poolReady, this`schema
      ensures var p := Provision(old(schema), server);
              schema == p.schema && r.Success? == p.ok && poolReady == (old(poolReady) || p.pool)
      ensures r.Failure? ==> r.error == OperationalError
    {
      if server.reachable && server.createDatabaseAccepted {
        schema := schema.(database := true);
      }
      if !server.reachable || !schema.database {
        return Failure(OperationalError);
      }
      poolReady := true;
      if !server.createTableAccepted {
        return Failure(OperationalError);
      }
      schema := schema.(table := true);
      if server.indexStatementAccepted {
        schema := schema.(uniqueIndex := true);
      }
      r := Success(());
    }

    /**
     * `save_open_interest`: nothing for an empty batch; without a pool the
     * attribute lookup on `None` raises; otherwise every record is attempted.
     */
    method SaveOpenInterest(symbol: string, oiData: seq<map<string, Value>>) returns (r: Result<(), Exc>)
      modifies this`history
      ensures r.Success? <==> |oiData| == 0 || poolReady
      ensures r.Failure? ==> r.error == AttributeError
      ensures history == if r.Success? then Stored(old(history), schema, symbol, oiData, convert) else old(history)
    {
      if |oiData| == 0 {
        return Success(());
      }
      if !poolReady {
        return Failure(AttributeError);
      }
      var i := 0;
      while i < |oiData|
        invariant 0 <= i <= |oiData|
        invariant history == Stored(old(history), schema, symbol, oiData[..i], convert)
      {
        var oi := oiData[i];
        var ts := GetOr(oi, "timestamp", VInt(0));
        var sumOi := GetOr(oi, "sumOpenInterest", VStr(""));
        var sumOiVal := GetOr(oi, "sumOpenInterestValue", VStr(""));
        var stored := StoredTimestamp(ts, convert);
        if schema.table && stored.Some? {
          if !(schema.uniqueIndex && HasKey(history, symbol, stored.value)) {
            history := history + [Record(symbol, stored.value, sumOi, sumOiVal)];
          }
        }
        assert oiData[..i + 1][..i] == oiData[..i];
        i := i + 1;
      }
      assert oiData[..i] == oiData;
      r := Success(());
    }
  }
}
