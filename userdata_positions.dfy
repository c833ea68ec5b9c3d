/**
 * Position bookkeeping of the user-data service's Redis client, as functions
 * on the Redis data: each symbol's positions live in hash `positions:{symbol}`,
 * one JSON document per position side, and the symbols with an open long or
 * short position are kept in the sets `open_long_positions` and
 * `open_short_positions`.
 */
module UserDataPositions {
  import opened Wrappers
  import opened Text
  import opened Values
  import opened RedisState

  const OpenLong := "open_long_positions"
  const OpenShort := "open_short_positions"

  function PositionKey(symbol: string): string
  {
    "positions:" + symbol
  }

  /**
   * `json.loads` of a stored position. Only documents are decoded: a raw text
   * cell, which this model never writes under a position key, is treated as
   * undecodable by choice, even where `json.loads` would read it (as it reads "5").
   */
  function Loads(c: Cell): Value
  {
    match c
    case Doc(v) => v
    case Raw(_) => VNone
  }

  /** `float(p.get("positionAmt", "0")) != 0` on a decoded position, false where that raises. */
  predicate IsOpenPosition(p: Value)
  {
    p.VDict? && AmountIsNonZero(GetOr(p.fields, "positionAmt", VStr("0")))
  }

  /** The open set a position side selects once upper-cased. */
  function SideSet(side: string): Option<string>
  {
    if Upper(side) == "LONG" then Some(OpenLong)
    else if Upper(side) == "SHORT" then Some(OpenShort)
    else None
  }

  /**
   * `set_position(symbol, data)`: the store afterwards and the outcome. A
   * missing or empty side raises before any write; a side redis-py cannot send
   * raises at HSET; a side without `.upper()` raises after HSET.
   */
  function SetPosition(db: Db, symbol: string, data: map<string, Value>): (Db, Result<(), Exc>)
  {
    var side := GetOr(data, "positionSide", VNone);
    if !Truthy(side) then (db, Failure(ValueError))
    else
      match Encode(side)
      case Failure(e) => (db, Failure(e))
      case Success(field) =>
        var written := Hset(db, PositionKey(symbol), map[field := Doc(VDict(data))]);
        if !side.VStr? then (written, Failure(AttributeError))
        else (MarkOpen(written, symbol, side.s, AmountIsNonZero(GetOr(data, "positionAmt", VStr("0")))), Success(()))
  }

  /**
   * `set_position(symbol, data)` for any symbol value: the key is
   * `f"positions:{symbol}"`, so a None, boolean or Decimal symbol names the
   * hash by its `str()`, and redis-py refuses such a symbol only when it is
   * sent as a set member (SADD or SREM), after the HSET. A list or dict
   * symbol, whose key would be its `repr`, is Unsupported after the side checks.
   */
  function SetPositionOf(db: Db, symbol: Value, data: map<string, Value>): (Db, Result<(), Exc>)
  {
    var side := GetOr(data, "positionSide", VNone);
    if !Truthy(side) then (db, Failure(ValueError))
    else
      match Encode(side)
      case Failure(e) => (db, Failure(e))
      case Success(field) =>
        if !IsScalar(symbol) then (db, Failure(Unsupported))
        else
          var written := Hset(db, PositionKey(Render(symbol)), map[field := Doc(VDict(data))]);
          if !side.VStr? then (written, Failure(AttributeError))
          else if SideSet(side.s).None? then (written, Success(()))
          else
            match Encode(symbol)
            case Failure(e) => (written, Failure(e))
            case Success(member) =>
              (MarkOpen(written, member, side.s, AmountIsNonZero(GetOr(data, "positionAmt", VStr("0")))), Success(()))
  }

  /** A text or integer symbol is `set_position` of its text. */
  lemma SetPositionOfText(db: Db, symbol: Value, data: map<string, Value>)
    requires symbol.VStr? || symbol.VInt?
    ensures SetPositionOf(db, symbol, data) == SetPosition(db, Render(symbol), data)
  {
  }

  /**
   * A None, boolean or Decimal symbol: the position is still written under the
   * `str()` of the symbol; the call raises DataError exactly when the side
   * selects an open set, and either way no set changes.
   */
  lemma SetPositionOfOtherScalar(db: Db, symbol: Value, data: map<string, Value>, side: string)
    requires symbol.VNone? || symbol.VBool? || symbol.VDec?
    requires GetOr(data, "positionSide", VNone) == VStr(side) && side != ""
    ensures SetPositionOf(db, symbol, data).0 == Hset(db, PositionKey(Render(symbol)), map[side := Doc(VDict(data))])
    ensures SetPositionOf(db, symbol, data).1 == if SideSet(side).Some? then Failure(DataError) else Success(())
    ensures SetPositionOf(db, symbol, data).0.sets == db.sets
  {
  }

  /** A `set_position` that raises leaves both open sets as they were, whatever the symbol. */
  lemma SetPositionOfFailureKeepsSets(db: Db, symbol: Value, data: map<string, Value>)
    requires SetPositionOf(db, symbol, data).1.Failure?
    ensures Smembers(SetPositionOf(db, symbol, data).0, OpenLong) == Smembers(db, OpenLong)
    ensures Smembers(SetPositionOf(db, symbol, data).0, OpenShort) == Smembers(db, OpenShort)
  {
  }

  /** SADD the symbol to the open set of its side when the position is open, SREM it otherwise. */
  function MarkOpen(db: Db, symbol: string, side: string, open: bool): Db
  {
    match SideSet(side)
    case None => db
    case Some(k) => if open then Sadd(db, k, symbol) else Srem(db, k, symbol)
  }

  /** Marking touches no hash and no set but the two open sets. */
  lemma MarkOpenFrame(db: Db, symbol: string, side: string, open: bool, k: string)
    ensures MarkOpen(db, symbol, side, open).hashes == db.hashes
    ensures k != OpenLong && k != OpenShort ==> Smembers(MarkOpen(db, symbol, side, open), k) == Smembers(db, k)
  {
    match SideSet(side)
    case None =>
    case Some(k') =>
      SaddMembers(db, k', symbol, k);
      SremMembers(db, k', symbol, k);
  }

  /** A `set_position` that raises leaves both open sets as they were. */
  lemma SetPositionFailureKeepsSets(db: Db, symbol: string, data: map<string, Value>)
    requires SetPosition(db, symbol, data).1.Failure?
    ensures Smembers(SetPosition(db, symbol, data).0, OpenLong) == Smembers(db, OpenLong)
    ensures Smembers(SetPosition(db, symbol, data).0, OpenShort) == Smembers(db, OpenShort)
  {
  }

  /** `get_position(symbol)`: every stored side, decoded. */
  function PositionOf(db: Db, symbol: string): map<string, Value>
  {
    var h := Hgetall(db, PositionKey(symbol));
    map f | f in h :: Loads(h[f])
  }

  /** The position document of one side when it is stored and open. */
  function OpenSideDoc(db: Db, symbol: string, side: string): Option<Value>
  {
    match Hget(db, PositionKey(symbol), side)
    case Some(c) => if IsOpenPosition(Loads(c)) then Some(Loads(c)) else None
    case None => None
  }

  /** A symbol is in an open set exactly when its position of that side is stored and open. */
  ghost predicate PositionsConsistent(db: Db)
  {
    && (forall s :: s in Smembers(db, OpenLong) <==> OpenSideDoc(db, s, "LONG").Some?)
    && (forall s :: s in Smembers(db, OpenShort) <==> OpenSideDoc(db, s, "SHORT").Some?)
  }

  lemma EmptyIsConsistent()
    ensures PositionsConsistent(EmptyDb)
  {
  }

  /** A side left out of `positionSide`, or empty, raises ValueError and writes nothing. */
  lemma MissingSideRaises(db: Db, symbol: string, data: map<string, Value>)
    requires "positionSide" !in data || data["positionSide"] == VStr("")
    ensures SetPosition(db, symbol, data) == (db, Failure(ValueError))
  {
  }

  lemma PositionKeyInjective(a: string, b: string)
    ensures PositionKey(a) == PositionKey(b) ==> a == b
  {
    PrefixInjective("positions:", a, b);
  }

  /** The decimal text of an integer is never a side name. */
  lemma IntTextIsNoSide(i: int)
    ensures IntToString(i) != "LONG" && IntToString(i) != "SHORT"
  {
    var t := IntToString(i);
    if i >= 0 {
      assert IsDigit(t[0]);
    } else {
      assert t[0] == '-';
    }
  }

  /** The side field `set_position` writes, when it gets as far as HSET. */
  function WrittenField(data: map<string, Value>): Option<string>
  {
    var side := GetOr(data, "positionSide", VNone);
    if Truthy(side) && Encode(side).Success? then Some(Encode(side).value) else None
  }

  /** Apart from the HSET of its side field, `set_position` changes only the open sets. */
  lemma SetPositionHashes(db: Db, symbol: string, data: map<string, Value>)
    ensures var after := SetPosition(db, symbol, data).0;
      after.hashes == (match WrittenField(data)
                       case Some(field) => Hset(db, PositionKey(symbol), map[field := Doc(VDict(data))]).hashes
                       case None => db.hashes)
    ensures var after := SetPosition(db, symbol, data).0;
      forall k :: k != OpenLong && k != OpenShort ==> Smembers(after, k) == Smembers(db, k)
  {
    var side := GetOr(data, "positionSide", VNone);
    var after := SetPosition(db, symbol, data).0;
    if Truthy(side) && Encode(side).Success? {
      var field := Encode(side).value;
      var written := Hset(db, PositionKey(symbol), map[field := Doc(VDict(data))]);
      assert written.sets == db.sets;
      if side.VStr? {
        var open := AmountIsNonZero(GetOr(data, "positionAmt", VStr("0")));
        assert after == MarkOpen(written, symbol, side.s, open);
        forall k | k != OpenLong && k != OpenShort
          ensures Smembers(after, k) == Smembers(db, k)
        {
          MarkOpenFrame(written, symbol, side.s, open, k);
        }
        MarkOpenFrame(written, symbol, side.s, open, "");
      } else {
        assert after == written;
      }
    } else {
      assert after == db;
    }
  }

  /** The hash under `k` after a `set_position` that got as far as HSET. */
  lemma SetPositionHash(db: Db, symbol: string, data: map<string, Value>, k: string)
    requires WrittenField(data).Some?
    ensures Hgetall(SetPosition(db, symbol, data).0, k)
      == if k == PositionKey(symbol) then Hgetall(db, k) + map[WrittenField(data).value := Doc(VDict(data))] else Hgetall(db, k)
  {
    var fields := map[WrittenField(data).value := Doc(VDict(data))];
    SetPositionHashes(db, symbol, data);
    assert SetPosition(db, symbol, data).0.hashes == Hset(db, PositionKey(symbol), fields).hashes;
    HsetHash(db, PositionKey(symbol), fields, k);
  }

  /**
   * `set_position` overwrites only the field of its side in the symbol's hash:
   * the stored position reads back as the data given, every other field and
   * every other symbol's hash are unchanged.
   */
  lemma SetPositionWritesOnlyItsSide(db: Db, symbol: string, data: map<string, Value>, side: string, other: string, f: string)
    requires GetOr(data, "positionSide", VNone) == VStr(side) && side != ""
    ensures Hget(SetPosition(db, symbol, data).0, PositionKey(symbol), side) == Some(Doc(VDict(data)))
    ensures side in PositionOf(SetPosition(db, symbol, data).0, symbol)
    ensures PositionOf(SetPosition(db, symbol, data).0, symbol)[side] == VDict(data)
    ensures f != side ==> Hget(SetPosition(db, symbol, data).0, PositionKey(symbol), f) == Hget(db, PositionKey(symbol), f)
    ensures other != symbol ==> Hgetall(SetPosition(db, symbol, data).0, PositionKey(other)) == Hgetall(db, PositionKey(other))
  {
    assert WrittenField(data) == Some(side);
    SetPositionHash(db, symbol, data, PositionKey(symbol));
    SetPositionHash(db, symbol, data, PositionKey(other));
    PositionKeyInjective(symbol, other);
  }

  /** Which open sets one side of one symbol is counted in, after `set_position`. */
  lemma SetPositionOpenSide(db: Db, symbol: string, data: map<string, Value>, s: string, f: string)
    requires f == "LONG" || f == "SHORT"
    requires WrittenField(data).Some?
    ensures var field := WrittenField(data).value;
      OpenSideDoc(SetPosition(db, symbol, data).0, s, f)
      == if s == symbol && f == field then (if IsOpenPosition(VDict(data)) then Some(VDict(data)) else None)
         else OpenSideDoc(db, s, f)
  {
    SetPositionHash(db, symbol, data, PositionKey(s));
    PositionKeyInjective(s, symbol);
  }

  lemma UpperSideNames(side: string)
    requires Upper(side) == side
    ensures SideSet(side) == if side == "LONG" then Some(OpenLong) else if side == "SHORT" then Some(OpenShort) else None
  {
  }

  function Toggle(members: set<string>, symbol: string, open: bool): set<string>
  {
    if open then members + {symbol} else members - {symbol}
  }

  /** With an upper-case side, marking adds or removes the symbol in the set of that side only. */
  lemma MarkOpenSets(db: Db, symbol: string, side: string, open: bool, f: string)
    requires f == "LONG" || f == "SHORT"
    requires Upper(side) == side
    ensures var k := if f == "LONG" then OpenLong else OpenShort;
      Smembers(MarkOpen(db, symbol, side, open), k) == if side == f then Toggle(Smembers(db, k), symbol, open) else Smembers(db, k)
  {
    var k := if f == "LONG" then OpenLong else OpenShort;
    UpperSideNames(side);
    match SideSet(side)
    case None =>
    case Some(k') =>
      assert k' == k <==> side == f;
      SaddMembers(db, k', symbol, k);
      SremMembers(db, k', symbol, k);
  }

  /** With an upper-case side, `set_position` adds or removes the symbol in the set of that side only. */
  lemma SetPositionOpenSets(db: Db, symbol: string, data: map<string, Value>, f: string)
    requires f == "LONG" || f == "SHORT"
    requires WrittenField(data).Some?
    requires GetOr(data, "positionSide", VNone).VStr? ==> Upper(GetOr(data, "positionSide", VNone).s) == GetOr(data, "positionSide", VNone).s
    ensures var k := if f == "LONG" then OpenLong else OpenShort;
      Smembers(SetPosition(db, symbol, data).0, k)
      == if WrittenField(data).value == f then Toggle(Smembers(db, k), symbol, IsOpenPosition(VDict(data))) else Smembers(db, k)
  {
    var side := GetOr(data, "positionSide", VNone);
    var field := WrittenField(data).value;
    var written := Hset(db, PositionKey(symbol), map[field := Doc(VDict(data))]);
    var after := SetPosition(db, symbol, data).0;
    assert written.sets == db.sets;
    if side.VStr? {
      var open := AmountIsNonZero(GetOr(data, "positionAmt", VStr("0")));
      assert open == IsOpenPosition(VDict(data));
      assert field == side.s;
      assert after == MarkOpen(written, symbol, side.s, open);
      MarkOpenSets(written, symbol, side.s, open, f);
    } else {
      assert side.VInt?;
      IntTextIsNoSide(side.i);
      assert after == written;
    }
  }

  /**
   * With side names already in upper case, `set_position` keeps the open sets
   * in agreement with the stored positions.
   */
  lemma SetPositionKeepsConsistent(db: Db, symbol: string, data: map<string, Value>)
    requires PositionsConsistent(db)
    requires GetOr(data, "positionSide", VNone).VStr? ==> Upper(GetOr(data, "positionSide", VNone).s) == GetOr(data, "positionSide", VNone).s
    ensures PositionsConsistent(SetPosition(db, symbol, data).0)
  {
    var after := SetPosition(db, symbol, data).0;
    if WrittenField(data).Some? {
      SetPositionOpenSets(db, symbol, data, "LONG");
      SetPositionOpenSets(db, symbol, data, "SHORT");
      forall s ensures s in Smembers(after, OpenLong) <==> OpenSideDoc(after, s, "LONG").Some? {
        SetPositionOpenSide(db, symbol, data, s, "LONG");
      }
      forall s ensures s in Smembers(after, OpenShort) <==> OpenSideDoc(after, s, "SHORT").Some? {
        SetPositionOpenSide(db, symbol, data, s, "SHORT");
      }
    } else {
      assert after == db;
    }
  }

  // ---------------------------------------------------------------------------
  // get_all_positions
  // ---------------------------------------------------------------------------

  predicate IsPositionKey(k: string)
  {
    |k| >= 10 && k[..10] == "positions:"
  }

  /** The listed positions of the position hashes among `keys`. */
  function PositionsOver(db: Db, keys: set<string>): map<string, map<string, Value>>
  {
    map k | k in keys && k in db.hashes && IsPositionKey(k) && db.hashes[k] != map[] :: k[10..] := PositionOf(db, k[10..])
  }

  /** `get_all_positions()`: every symbol whose position hash is non-empty, with its decoded sides. */
  function AllPositions(db: Db): map<string, map<string, Value>>
  {
    PositionsOver(db, db.hashes.Keys)
  }

  /** Taking one more key into account adds its symbol when it is a non-empty position hash. */
  lemma PositionsOverAdd(db: Db, keys: set<string>, k: string)
    requires IsPositionKey(k) && k !in keys
    ensures PositionsOver(db, keys + {k})
      == if k in db.hashes && db.hashes[k] != map[] then PositionsOver(db, keys)[k[10..] := PositionOf(db, k[10..])]
         else PositionsOver(db, keys)
  {
    var a := PositionsOver(db, keys + {k});
    var b := if k in db.hashes && db.hashes[k] != map[] then PositionsOver(db, keys)[k[10..] := PositionOf(db, k[10..])]
             else PositionsOver(db, keys);
    forall x | x in keys + {k} && IsPositionKey(x) && x[10..] == k[10..] ensures x == k {
      assert x == x[..10] + x[10..];
      assert k == k[..10] + k[10..];
    }
    assert a.Keys == b.Keys;
  }

  /** One more decodable position hash taken into account: its symbol is listed with its decoded sides when it has any. */
  lemma PositionsStep(db: Db, done: set<string>, key: string, positions: map<string, map<string, Value>>)
    requires IsPositionKey(key) && key !in done
    requires positions == PositionsOver(db, done) && DecodableOver(db, done)
    requires forall f :: f in Hgetall(db, key) ==> Hgetall(db, key)[f].Doc?
    ensures DecodableOver(db, done + {key})
    ensures var data := Hgetall(db, key);
      PositionsOver(db, done + {key})
      == if data != map[] then positions[key[10..] := map f | f in data :: Loads(data[f])] else positions
  {
    PositionsOverAdd(db, done, key);
    PositionKeyOfKey(key);
  }

  /** Only the position hashes among the keys matter. */
  lemma PositionsOverSame(db: Db, keys: set<string>, keys': set<string>)
    requires forall k :: k in db.hashes && IsPositionKey(k) ==> (k in keys <==> k in keys')
    ensures PositionsOver(db, keys) == PositionsOver(db, keys')
  {
    assert PositionsOver(db, keys).Keys == PositionsOver(db, keys').Keys;
  }

  /** `json.loads` succeeds on every stored side of the position hashes among `keys`. */
  ghost predicate DecodableOver(db: Db, keys: set<string>)
  {
    forall k, f :: k in keys && k in db.hashes && IsPositionKey(k) && f in db.hashes[k] ==> db.hashes[k][f].Doc?
  }

  /** `json.loads` succeeds on every stored side of every position hash. */
  ghost predicate AllDecodable(db: Db)
  {
    DecodableOver(db, db.hashes.Keys)
  }

  lemma PositionKeyOfKey(k: string)
    requires IsPositionKey(k)
    ensures PositionKey(k[10..]) == k
  {
    assert k == k[..10] + k[10..];
  }

  /** A symbol is listed exactly when its position hash has a side, and with what `get_position` returns for it. */
  lemma AllPositionsListsStored(db: Db, symbol: string)
    ensures symbol in AllPositions(db) <==> Hgetall(db, PositionKey(symbol)) != map[]
    ensures symbol in AllPositions(db) ==> AllPositions(db)[symbol] == PositionOf(db, symbol)
  {
    var k := PositionKey(symbol);
    assert k[..10] == "positions:" && k[10..] == symbol;
    if symbol in AllPositions(db) {
      var k' :| k' in db.hashes && IsPositionKey(k') && db.hashes[k'] != map[] && k'[10..] == symbol;
      assert k' == k'[..10] + k'[10..];
    }
  }

  // ---------------------------------------------------------------------------
  // get_all_open_positions
  // ---------------------------------------------------------------------------

  /**
   * `r` lists, each once, the open positions stored for `symbols`: `sources`
   * names the (symbol, side) each entry comes from, and every open side of
   * every one of the symbols is among them.
   */
  ghost predicate OpenListing(db: Db, symbols: set<string>, r: seq<Value>, sources: seq<(string, string)>)
  {
    && |r| == |sources|
    && (forall i :: 0 <= i < |sources| ==>
          && sources[i].0 in symbols && sources[i].1 in PositionOf(db, sources[i].0)
          && r[i] == PositionOf(db, sources[i].0)[sources[i].1] && IsOpenPosition(r[i]))
    && (forall s, f :: s in symbols && f in PositionOf(db, s) && IsOpenPosition(PositionOf(db, s)[f]) ==> (s, f) in sources)
    && (forall i, j :: 0 <= i < j < |sources| ==> sources[i] != sources[j])
  }

  /** The open sides of one decoded position, listed each once by `sides`. */
  ghost predicate OpenSidesOf(pos: map<string, Value>, found: seq<Value>, sides: seq<string>)
  {
    && |found| == |sides|
    && (forall i :: 0 <= i < |sides| ==> sides[i] in pos && found[i] == pos[sides[i]] && IsOpenPosition(found[i]))
    && (forall f :: f in pos && IsOpenPosition(pos[f]) ==> f in sides)
    && (forall i, j :: 0 <= i < j < |sides| ==> sides[i] != sides[j])
  }

  function Pairs(symbol: string, sides: seq<string>): (r: seq<(string, string)>)
    ensures |r| == |sides| && forall i :: 0 <= i < |sides| ==> r[i] == (symbol, sides[i])
  {
    seq(|sides|, i requires 0 <= i < |sides| => (symbol, sides[i]))
  }

  lemma OpenListingEmpty(db: Db)
    ensures OpenListing(db, {}, [], [])
  {
  }

  /** Adding the open sides of one more symbol to a listing. */
  lemma OpenListingStep(db: Db, done: set<string>, r: seq<Value>, sources: seq<(string, string)>,
                        symbol: string, found: seq<Value>, sides: seq<string>)
    requires OpenListing(db, done, r, sources) && symbol !in done
    requires OpenSidesOf(PositionOf(db, symbol), found, sides)
    ensures OpenListing(db, done + {symbol}, r + found, sources + Pairs(symbol, sides))
  {
    var pos := PositionOf(db, symbol);
    var pairs := Pairs(symbol, sides);
    var r', sources' := r + found, sources + pairs;
    forall i | 0 <= i < |sources'|
      ensures && sources'[i].0 in done + {symbol} && sources'[i].1 in PositionOf(db, sources'[i].0)
              && r'[i] == PositionOf(db, sources'[i].0)[sources'[i].1] && IsOpenPosition(r'[i])
    {
      if i >= |sources| {
        assert sources'[i] == pairs[i - |sources|] && r'[i] == found[i - |sources|];
      } else {
        assert sources'[i] == sources[i] && r'[i] == r[i];
      }
    }
    forall s, f | s in done + {symbol} && f in PositionOf(db, s) && IsOpenPosition(PositionOf(db, s)[f])
      ensures (s, f) in sources'
    {
      if s == symbol {
        var k :| 0 <= k < |sides| && sides[k] == f;
        assert sources'[|sources| + k] == (s, f);
      } else {
        assert (s, f) in sources;
      }
    }
    forall i, j | 0 <= i < j < |sources'| ensures sources'[i] != sources'[j] {
      if j >= |sources| && i < |sources| {
        assert sources'[i].0 in done;
      }
    }
  }

  // ---------------------------------------------------------------------------
  // get_all_open_long_positions / get_all_open_short_positions
  // ---------------------------------------------------------------------------

  /**
   * `r` lists, each once, the open `side` positions of the symbols in `done`:
   * `symbols` names where each entry comes from, and every symbol of `done`
   * with a stored open position of that side is among them.
   */
  ghost predicate SideListing(db: Db, side: string, done: set<string>, r: seq<Value>, symbols: seq<string>)
  {
    && |r| == |symbols|
    && (forall i :: 0 <= i < |symbols| ==> symbols[i] in done && OpenSideDoc(db, symbols[i], side) == Some(r[i]))
    && (forall s :: s in done && OpenSideDoc(db, s, side).Some? ==> s in symbols)
    && (forall i, j :: 0 <= i < j < |symbols| ==> symbols[i] != symbols[j])
  }

  lemma SideListingEmpty(db: Db, side: string)
    ensures SideListing(db, side, {}, [], [])
  {
  }

  /** Taking one more symbol into a listing: its position is added when it is stored and open. */
  lemma SideListingStep(db: Db, side: string, done: set<string>, r: seq<Value>, symbols: seq<string>, s: string)
    requires SideListing(db, side, done, r, symbols) && s !in done
    ensures var doc := OpenSideDoc(db, s, side);
      SideListing(db, side, done + {s}, r + (if doc.Some? then [doc.value] else []), symbols + (if doc.Some? then [s] else []))
  {
    var doc := OpenSideDoc(db, s, side);
    if doc.Some? {
      var r', symbols' := r + [doc.value], symbols + [s];
      assert symbols'[|symbols|] == s;
      forall i | 0 <= i < |symbols'| ensures symbols'[i] in done + {s} && OpenSideDoc(db, symbols'[i], side) == Some(r'[i]) {
        if i < |symbols| {
          assert symbols'[i] == symbols[i] && r'[i] == r[i];
        }
      }
    } else {
      assert r + [] == r && symbols + [] == symbols;
    }
  }

  /** In a consistent store, every member of an open set has its open position of that side. */
  lemma ConsistentSetsAreOpen(db: Db)
    requires PositionsConsistent(db)
    ensures forall s :: s in Smembers(db, OpenLong) ==> OpenSideDoc(db, s, "LONG").Some?
    ensures forall s :: s in Smembers(db, OpenShort) ==> OpenSideDoc(db, s, "SHORT").Some?
  {
  }
}
