/**
 * One collection step of the open-interest service for one symbol: read the
 * last collected timestamp, ask the exchange for samples from just after it,
 * keep the strictly newer ones, write them to the history table and the Redis
 * window, and advance the last timestamp to the newest sample.
 */
module OpenInterestApp {
  import opened Wrappers
  import opened Text
  import opened Values
  import opened RedisState
  import OpenInterestCache
  import OpenInterestDb
  import RedisStore

  const Period := "5m"
  const DefaultLimit := 10
  const MaxRedisListLen := 10

  /** `stream_name.split('@')[0].upper()`. */
  function ParseSymbolFromStream(streamName: string): string
  {
    Upper(FirstField(streamName, '@'))
  }

  /** The symbol of a stream name is the upper-cased text before the first '@'. */
  lemma ParseSymbolFromStreamIsUpperBase(base: string, rest: string)
    requires '@' !in base
    ensures ParseSymbolFromStream(base + "@" + rest) == Upper(base)
    ensures ParseSymbolFromStream(base) == Upper(base)
  {
    assert base + "@" + rest == base + ['@'] + rest;
    FirstFieldBeforeSep(base, rest, '@');
    FirstFieldWithoutSep(base, '@');
  }

  // ---------------------------------------------------------------------------
  // The request and the reply
  // ---------------------------------------------------------------------------

  /** The query `fetch_open_interest` sends: `startTime` only when one is given. */
  datatype Request = Request(symbol: string, period: string, limit: int, startTime: Option<int>)

  /** What the HTTP exchange produced: a status and a decoded list of records, or no answer at all. */
  datatype Reply = Reply(status: int, body: seq<map<string, Value>>) | NetworkError

  /** `last_ts + 1 if last_ts else None`. */
  function StartTime(lastTs: Option<int>): (r: Option<int>)
    ensures r.Some? <==> lastTs.Some? && lastTs.value != 0
    ensures r.Some? ==> r.value == lastTs.value + 1
  {
    if lastTs.Some? && lastTs.value != 0 then Some(lastTs.value + 1) else None
  }

  function RequestFor(symbol: string, lastTs: Option<int>): Request
  {
    Request(symbol, Period, DefaultLimit, StartTime(lastTs))
  }

  /** `fetch_open_interest`: any failure, including a status `raise_for_status` rejects, yields no records. */
  function FetchOpenInterest(reply: Reply): (data: seq<map<string, Value>>)
    ensures reply.NetworkError? || reply.status >= 400 ==> data == []
    ensures reply.Reply? && reply.status < 400 ==> data == reply.body
  {
    match reply
    case NetworkError => []
    case Reply(status, body) => if status >= 400 then [] else body
  }

  // ---------------------------------------------------------------------------
  // Python's comparisons on the decoded timestamps
  // ---------------------------------------------------------------------------

  /** `d.get("timestamp", 0)`. */
  function Ts(d: map<string, Value>): Value
  {
    OpenInterestDb.RowTimestamp(d)
  }

  /** The number an int, a bool (a subclass of int) or a Decimal stands for; other values are not numbers. */
  function NumOf(v: Value): Option<real>
  {
    match v
    case VInt(i) => Some(i as real)
    case VBool(b) => Some(if b then 1.0 else 0.0)
    case VDec(d) => Some(Real(d))
    case _ => None
  }

  /** Python's `<` on `str`: code-point order, a proper prefix first. */
  predicate TextLess(a: string, b: string)
    decreases |a|
  {
    if |a| == 0 then |b| > 0
    else |b| > 0 && (a[0] < b[0] || (a[0] == b[0] && TextLess(a[1..], b[1..])))
  }

  lemma {:induction false} TextLessTotal(a: string, b: string)
    ensures a == b || TextLess(a, b) || TextLess(b, a)
    ensures !(TextLess(a, b) && TextLess(b, a))
    decreases |a|
  {
    if |a| > 0 && |b| > 0 && a[0] == b[0] {
      TextLessTotal(a[1..], b[1..]);
      if a[1..] == b[1..] {
        assert a == [a[0]] + a[1..] && b == [b[0]] + b[1..];
      }
    }
  }

  lemma {:induction false} TextLessTransitive(a: string, b: string, c: string)
    requires TextLess(a, b) && TextLess(b, c)
    ensures TextLess(a, c)
    decreases |a|
  {
    if |a| > 0 && a[0] == b[0] && b[0] == c[0] {
      TextLessTransitive(a[1..], b[1..], c[1..]);
    }
  }

  /**
   * Python's `a > b` on the values a decoded reply holds: numbers by value,
   * texts in code-point order; two lists are Unsupported here; any other pair
   * raises TypeError.
   */
  function Greater(a: Value, b: Value): (r: Result<bool, Exc>)
    ensures r.Success? <==> (NumOf(a).Some? && NumOf(b).Some?) || (a.VStr? && b.VStr?)
    ensures r.Success? && NumOf(a).Some? ==> r.value == (NumOf(a).value > NumOf(b).value)
    ensures r.Success? && a.VStr? ==> r.value == TextLess(b.s, a.s)
  {
    if NumOf(a).Some? && NumOf(b).Some? then Success(NumOf(a).value > NumOf(b).value)
    else if a.VStr? && b.VStr? then Success(TextLess(b.s, a.s))
    else if a.VList? && b.VList? then Failure(Unsupported)
    else Failure(TypeError)
  }

  predicate AllNumeric(data: seq<map<string, Value>>)
  {
    forall d :: d in data ==> NumOf(Ts(d)).Some?
  }

  predicate AllText(data: seq<map<string, Value>>)
  {
    forall d :: d in data ==> Ts(d).VStr?
  }

  // ---------------------------------------------------------------------------
  // Filtering and the newest timestamp
  // ---------------------------------------------------------------------------

  /** `[d for d in data if d.get("timestamp", 0) > lastTs]`. */
  function NewerThan(data: seq<map<string, Value>>, lastTs: int): (r: Result<seq<map<string, Value>>, Exc>)
    ensures r.Success? <==> AllNumeric(data)
    ensures r.Failure? ==> r.error == TypeError
  {
    if |data| == 0 then Success([])
    else
      match Greater(Ts(data[0]), VInt(lastTs))
      case Failure(e) => Failure(e)
      case Success(keep) =>
        var rest := NewerThan(data[1..], lastTs);
        assert forall d :: d in data <==> d == data[0] || d in data[1..];
        if rest.Failure? then Failure(rest.error)
        else Success((if keep then [data[0]] else []) + rest.value)
  }

  /** The records kept are exactly those whose timestamp is a number above the last timestamp. */
  lemma {:induction false} NewerThanMembers(data: seq<map<string, Value>>, lastTs: int, d: map<string, Value>)
    requires AllNumeric(data)
    ensures d in NewerThan(data, lastTs).value <==> d in data && NumOf(Ts(d)).value > lastTs as real
  {
    if |data| > 0 {
      assert data[0] in data;
      assert forall x :: x in data <==> x == data[0] || x in data[1..];
      NewerThanMembers(data[1..], lastTs, d);
    }
  }

  /** One record: kept when its timestamp is a number above the last timestamp, TypeError when it is no number. */
  lemma NewerThanOne(d: map<string, Value>, lastTs: int)
    ensures NewerThan([d], lastTs)
         == if NumOf(Ts(d)).None? then Failure(TypeError)
            else if NumOf(Ts(d)).value > lastTs as real then Success([d])
            else Success([])
  {
    assert [d][1..] == [];
    assert NewerThan([d][1..], lastTs) == Success([]);
    if NumOf(Ts(d)).Some? {
      var keep := NumOf(Ts(d)).value > lastTs as real;
      assert Greater(Ts(d), VInt(lastTs)) == Success(keep);
      var head: seq<map<string, Value>> := if keep then [d] else [];
      assert NewerThan([d], lastTs) == Success(head + []);
      assert head + [] == head;
    }
  }

  /** The filter keeps the records' order and multiplicity: it distributes over concatenation. */
  lemma {:induction false} NewerThanAppend(a: seq<map<string, Value>>, b: seq<map<string, Value>>, lastTs: int)
    requires NewerThan(a, lastTs).Success? && NewerThan(b, lastTs).Success?
    ensures NewerThan(a + b, lastTs) == Success(NewerThan(a, lastTs).value + NewerThan(b, lastTs).value)
  {
    if |a| == 0 {
      assert a + b == b;
      assert NewerThan(a, lastTs).value == [];
      assert [] + NewerThan(b, lastTs).value == NewerThan(b, lastTs).value;
    } else {
      var ab := a + b;
      assert ab[0] == a[0] && ab[1..] == a[1..] + b;
      assert a[0] in a;
      var keep := Greater(Ts(a[0]), VInt(lastTs)).value;
      var head: seq<map<string, Value>> := if keep then [a[0]] else [];
      NewerThanAppend(a[1..], b, lastTs);
      var ra, rb := NewerThan(a[1..], lastTs).value, NewerThan(b, lastTs).value;
      assert NewerThan(a, lastTs).value == head + ra;
      assert NewerThan(ab, lastTs).value == head + NewerThan(ab[1..], lastTs).value;
      assert head + (ra + rb) == (head + ra) + rb;
    }
  }

  /** The records kept: only strictly newer ones when a last timestamp is set, all of them otherwise. */
  function NewRecords(data: seq<map<string, Value>>, lastTs: Option<int>): Result<seq<map<string, Value>>, Exc>
  {
    if lastTs.Some? && lastTs.value != 0 then NewerThan(data, lastTs.value) else Success(data)
  }

  /**
   * `max(d.get("timestamp", 0) for d in data)`: the first timestamp, replaced by
   * each later one that compares greater than the one kept.
   */
  function MaxTimestamp(data: seq<map<string, Value>>): (r: Result<Value, Exc>)
    requires |data| > 0
    ensures |data| == 1 ==> r == Success(Ts(data[0]))
    decreases |data|
  {
    if |data| == 1 then Success(Ts(data[0]))
    else
      var init, last := data[..|data| - 1], data[|data| - 1];
      match MaxTimestamp(init)
      case Failure(e) => Failure(e)
      case Success(m) =>
        match Greater(Ts(last), m)
        case Failure(e) => Failure(e)
        case Success(g) => Success(if g then Ts(last) else m)
  }

  /** `max` returns one of the timestamps. */
  lemma {:induction false} MaxTimestampIsOne(data: seq<map<string, Value>>)
    requires |data| > 0 && MaxTimestamp(data).Success?
    ensures exists i :: 0 <= i < |data| && Ts(data[i]) == MaxTimestamp(data).value
    decreases |data|
  {
    if |data| == 1 {
      assert Ts(data[0]) == MaxTimestamp(data).value;
    } else {
      var init := data[..|data| - 1];
      var m := MaxTimestamp(init);
      if MaxTimestamp(data).value == Ts(data[|data| - 1]) {
        assert Ts(data[|data| - 1]) == MaxTimestamp(data).value;
      } else {
        MaxTimestampIsOne(init);
        var i :| 0 <= i < |init| && Ts(init[i]) == m.value;
        assert Ts(data[i]) == MaxTimestamp(data).value;
      }
    }
  }

  /** Over numbers, `max` succeeds and is a number no timestamp exceeds. */
  lemma {:induction false} MaxTimestampNumeric(data: seq<map<string, Value>>)
    requires |data| > 0 && AllNumeric(data)
    ensures MaxTimestamp(data).Success? && NumOf(MaxTimestamp(data).value).Some?
    ensures forall i :: 0 <= i < |data| ==> NumOf(Ts(data[i])).value <= NumOf(MaxTimestamp(data).value).value
    decreases |data|
  {
    assert data[0] in data;
    if |data| > 1 {
      var init, last := data[..|data| - 1], data[|data| - 1];
      assert forall i :: 0 <= i < |init| ==> init[i] == data[i] && data[i] in data;
      assert last in data;
      MaxTimestampNumeric(init);
      var m := MaxTimestamp(init).value;
      assert Greater(Ts(last), m) == Success(NumOf(Ts(last)).value > NumOf(m).value);
    }
  }

  /** Over texts, `max` succeeds and is the greatest in code-point order. */
  lemma {:induction false} MaxTimestampText(data: seq<map<string, Value>>)
    requires |data| > 0 && AllText(data)
    ensures MaxTimestamp(data).Success? && MaxTimestamp(data).value.VStr?
    ensures forall i :: 0 <= i < |data| ==> !TextLess(MaxTimestamp(data).value.s, Ts(data[i]).s)
    decreases |data|
  {
    assert data[0] in data;
    if |data| == 1 {
      TextLessTotal(Ts(data[0]).s, Ts(data[0]).s);
    } else {
      var init, last := data[..|data| - 1], data[|data| - 1];
      assert forall i :: 0 <= i < |init| ==> init[i] == data[i] && data[i] in data;
      assert last in data;
      MaxTimestampText(init);
      var m := MaxTimestamp(init).value;
      var lt := Ts(last).s;
      assert Greater(Ts(last), m) == Success(TextLess(m.s, lt));
      var r := MaxTimestamp(data).value;
      assert r == if TextLess(m.s, lt) then Ts(last) else m;
      TextLessTotal(lt, m.s);
      forall i | 0 <= i < |data| ensures !TextLess(r.s, Ts(data[i]).s) {
        if i < |init| {
          MaxTextStep(m.s, lt, Ts(init[i]).s);
        } else {
          TextLessTotal(lt, lt);
        }
      }
    }
  }

  /** The kept text stays not below an earlier one when a later text replaces it only by comparing greater. */
  lemma MaxTextStep(m: string, last: string, x: string)
    requires !TextLess(m, x)
    ensures !TextLess(if TextLess(m, last) then last else m, x)
  {
    if TextLess(m, last) && TextLess(last, x) {
      TextLessTransitive(m, last, x);
    }
  }

  /** With more than one record, `max` succeeds exactly when the timestamps are all numbers or all texts. */
  lemma {:induction false} MaxTimestampKinds(data: seq<map<string, Value>>)
    requires |data| > 1
    ensures MaxTimestamp(data).Success? <==> AllNumeric(data) || AllText(data)
    decreases |data|
  {
    var init, last := data[..|data| - 1], data[|data| - 1];
    assert forall d :: d in data <==> d in init || d == last;
    assert init[0] in init;
    if |init| > 1 {
      MaxTimestampKinds(init);
    } else {
      assert init == [data[0]];
    }
    var m := MaxTimestamp(init);
    if m.Success? {
      MaxTimestampIsOne(init);
      var i :| 0 <= i < |init| && Ts(init[i]) == m.value;
      assert init[i] in init;
    }
  }

  /** After a step that found new records, the newest timestamp is past the previous last timestamp. */
  lemma LastTimestampAdvances(data: seq<map<string, Value>>, lastTs: int)
    requires lastTs != 0
    requires NewRecords(data, Some(lastTs)).Success? && |NewRecords(data, Some(lastTs)).value| > 0
    ensures MaxTimestamp(NewRecords(data, Some(lastTs)).value).Success?
    ensures NumOf(MaxTimestamp(NewRecords(data, Some(lastTs)).value).value).Some?
    ensures NumOf(MaxTimestamp(NewRecords(data, Some(lastTs)).value).value).value > lastTs as real
  {
    var xs := NewRecords(data, Some(lastTs)).value;
    assert xs[0] in xs;
    NewerThanMembers(data, lastTs, xs[0]);
    forall d | d in xs ensures NumOf(Ts(d)).Some? {
      NewerThanMembers(data, lastTs, d);
    }
    MaxTimestampNumeric(xs);
  }

  // ---------------------------------------------------------------------------
  // process_symbol_oi
  // ---------------------------------------------------------------------------

  /** The records a step goes on with, given the last timestamp read and the reply. */
  function Found(last: Result<Option<int>, Exc>, reply: Reply): Result<seq<map<string, Value>>, Exc>
  {
    if last.Success? then NewRecords(FetchOpenInterest(reply), last.value) else Success([])
  }

  /**
   * `process_symbol_oi`: `request` is the query sent (none when reading the last
   * timestamp failed); `reply` is what the exchange answered.
   */
  method ProcessSymbolOi(symbol: string, reply: Reply, cache: OpenInterestCache.RedisClient, db: OpenInterestDb.DBManager)
    returns (request: Option<Request>, r: Result<(), Exc>)
    modifies cache.store, db`history
    ensures var last := OpenInterestCache.LastTimestamp(old(cache.store.db), symbol);
      && (last.Failure? ==> request == None && r == Failure(last.error))
      && (last.Success? ==> request == Some(RequestFor(symbol, last.value)))
    ensures var last := OpenInterestCache.LastTimestamp(old(cache.store.db), symbol);
      var found := Found(last, reply);
      last.Failure? || found.Failure? || |found.value| == 0 || !db.poolReady ==>
        && cache.store.db == old(cache.store.db) && db.history == old(db.history)
        && (last.Success? && found.Failure? ==> r == Failure(TypeError))
        && (last.Success? && found.Success? && |found.value| == 0 ==> r == Success(()))
        && (last.Success? && found.Success? && |found.value| > 0 ==> r == Failure(AttributeError))
    ensures var last := OpenInterestCache.LastTimestamp(old(cache.store.db), symbol);
      var found := Found(last, reply);
      last.Success? && found.Success? && |found.value| > 0 && db.poolReady ==>
        var pushed := OpenInterestCache.Pushed(old(cache.store.db), symbol, found.value, MaxRedisListLen);
        var m := MaxTimestamp(found.value);
        && db.history == OpenInterestDb.Stored(old(db.history), db.schema, symbol, found.value, db.convert)
        && (m.Failure? ==> r == Failure(m.error) && cache.store.db == pushed)
        && (m.Success? ==> (cache.store.db, r) == OpenInterestCache.SaveLast(pushed, symbol, m.value))
  {
    var lastTs := cache.GetLastTimestamp(symbol);
    if lastTs.Failure? {
      return None, Failure(lastTs.error);
    }
    request := Some(RequestFor(symbol, lastTs.value));
    var data := FetchOpenInterest(reply);
    if |data| == 0 {
      return request, Success(());
    }
    var newData := NewRecords(data, lastTs.value);
    if newData.Failure? {
      return request, Failure(newData.error);
    }
    if |newData.value| == 0 {
      return request, Success(());
    }
    var saved := db.SaveOpenInterest(symbol, newData.value);
    if saved.Failure? {
      return request, saved;
    }
    cache.PushOpenInterestList(symbol, newData.value, MaxRedisListLen);
    var maxTs := MaxTimestamp(newData.value);
    if maxTs.Failure? {
      return request, Failure(maxTs.error);
    }
    r := cache.SaveLastTimestamp(symbol, maxTs.value);
  }
}
